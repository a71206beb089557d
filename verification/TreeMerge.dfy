// Moving a directory tree into another without overwriting: a rename when the
// target is absent, otherwise a merge that moves what is missing, descends
// where both sides are directories, and leaves conflicts where they are.
module TreeMerge {
  import opened Samples

  /** What a symbolic link resolves to. */
  datatype Resolved = Missing | ToFile | ToDirectory

  datatype Node = File(content: string) | Link(text: string, resolved: Resolved) | Dir(entries: map<string, Node>)

  /** The old and the new tree. */
  datatype Sides = Sides(source: Option<Node>, target: Option<Node>)

  /** Path.exists follows links. */
  predicate Exists(n: Option<Node>) {
    n.Some? && !Dangling(n)
  }

  predicate Dangling(n: Option<Node>) {
    n.Some? && n.value.Link? && n.value.resolved.Missing?
  }

  /** Path.is_dir follows links. */
  predicate IsDir(n: Node) {
    n.Dir? || (n.Link? && n.resolved.ToDirectory?)
  }

  function Entry(entries: map<string, Node>, name: string): Option<Node> {
    if name in entries then Some(entries[name]) else None
  }

  // ---------- specification ----------

  /** What becomes of one entry of the old directory and its counterpart. */
  function MoveChild(child: Node, dst: Option<Node>, drop: bool): Sides
    decreases child, 1
  {
    if dst.None? then Sides(None, Some(child))
    else if drop then Sides(None, dst)
    else if IsDir(child) && IsDir(dst.value) && !child.Link? then Merge(child, dst.value, {})
    else Sides(Some(child), dst)
  }

  /** What is left in the old directory, and what the new one then holds. */
  function Merge(src: Node, dst: Node, drop: set<string>): Sides
    decreases src, 0
  {
    if !src.Dir? || !dst.Dir? then Sides(Some(src), Some(dst))
    else
      var left := map k | k in src.entries
        && MoveChild(src.entries[k], Entry(dst.entries, k), k in drop).source.Some?
        :: MoveChild(src.entries[k], Entry(dst.entries, k), k in drop).source.value;
      var merged := map k | k in src.entries.Keys + dst.entries.Keys ::
        if k in src.entries then TargetOf(src.entries[k], Entry(dst.entries, k), k in drop) else dst.entries[k];
      Sides(if left == map[] then None else Some(Dir(left)), Some(Dir(merged)))
  }

  function TargetOf(child: Node, dst: Option<Node>, drop: bool): Node
    decreases child, 2
  {
    var r := MoveChild(child, dst, drop).target;
    if r.Some? then r.value else child
  }

  lemma TargetPresent(child: Node, dst: Option<Node>, drop: bool)
    ensures MoveChild(child, dst, drop).target == Some(TargetOf(child, dst, drop))
  {
  }

  /** The rename onto a dangling link fails for a directory and replaces the link
      otherwise. */
  predicate RenameRaises(src: Option<Node>, dst: Option<Node>) {
    Exists(src) && Dangling(dst) && src.value.Dir?
  }

  function Move(src: Option<Node>, dst: Option<Node>, drop: set<string>): Sides {
    if !Exists(src) || RenameRaises(src, dst) then Sides(src, dst)
    else if !Exists(dst) then Sides(None, src)
    else Merge(src.value, dst.value, drop)
  }

  // ---------- the procedure ----------

  /** Moves the old tree into the new one; `raised` when the rename fails. A dry
      run changes nothing. */
  method MoveDir(src: Option<Node>, dst: Option<Node>, dryRun: bool, drop: set<string>) returns (r: Sides, raised: bool)
    ensures dryRun ==> r == Sides(src, dst) && !raised
    ensures !dryRun ==> r == Move(src, dst, drop) && raised == RenameRaises(src, dst)
    decreases if src.Some? then src.value else File(""), 2
  {
    r, raised := Sides(src, dst), false;
    if !Exists(src) {
      return;
    }
    if !Exists(dst) {
      if !dryRun {
        if dst.Some? && src.value.Dir? {
          raised := true;
        } else {
          r := Sides(None, src);
        }
      }
      return;
    }
    if !(IsDir(src.value) && IsDir(dst.value)) || src.value.Link? || dst.value.Link? {
      return;
    }
    var left, merged := MergeEntries(src.value, dst.value, dryRun, drop);
    if !dryRun {
      r := Sides(if |left| == 0 then None else Some(Dir(left)), Some(Dir(merged)));
    }
  }

  /** The loop over the old directory's entries, in any order. */
  method MergeEntries(src: Node, dst: Node, dryRun: bool, drop: set<string>)
    returns (left: map<string, Node>, merged: map<string, Node>)
    requires src.Dir? && dst.Dir?
    ensures dryRun ==> left == src.entries && merged == dst.entries
    ensures !dryRun ==>
      Merge(src, dst, drop) == Sides(if left == map[] then None else Some(Dir(left)), Some(Dir(merged)))
    decreases src, 1
  {
    hide *;
    left, merged := src.entries, dst.entries;
    NothingMerged(src.entries, dst.entries, drop);
    var todo := src.entries.Keys;
    while todo != {}
      invariant todo <= src.entries.Keys
      invariant dryRun ==> left == src.entries && merged == dst.entries
      invariant !dryRun ==> PartlyMerged(src.entries, dst.entries, drop, todo, left, merged)
      decreases |todo|
    {
      var name :| name in todo;
      var child := src.entries[name];
      var counterpart := Entry(dst.entries, name);
      var after := MoveEntry(child, counterpart, dryRun, name in drop);
      if !dryRun {
        TargetPresent(child, counterpart, name in drop);
        EntryMerged(src.entries, dst.entries, drop, todo, left, merged, name);
        left := if after.source.None? then left - {name} else left[name := after.source.value];
        merged := merged[name := after.target.value];
      }
      todo := todo - {name};
    }
    if !dryRun {
      AllMerged(src, dst, drop, left, merged);
    }
  }

  method MoveEntry(child: Node, counterpart: Option<Node>, dryRun: bool, drop: bool) returns (r: Sides)
    ensures r == if dryRun then Sides(Some(child), counterpart) else MoveChild(child, counterpart, drop)
    decreases child, 3
  {
    r := Sides(Some(child), counterpart);
    if counterpart.None? {
      if !dryRun { r := Sides(None, Some(child)); }
    } else if drop {
      if !dryRun { r := Sides(None, counterpart); }
    } else if IsDir(child) && IsDir(counterpart.value) && !child.Link? {
      var raised;
      r, raised := MoveDir(Some(child), counterpart, dryRun, {});
    }
  }

  function SourceEntry(src: map<string, Node>, dst: map<string, Node>, drop: set<string>, todo: set<string>, k: string): Option<Node>
    requires k in src
  {
    if k in todo then Some(src[k]) else MoveChild(src[k], Entry(dst, k), k in drop).source
  }

  function TargetEntry(src: map<string, Node>, dst: map<string, Node>, drop: set<string>, todo: set<string>, k: string): Option<Node>
    requires k in src
  {
    if k in todo then Entry(dst, k) else MoveChild(src[k], Entry(dst, k), k in drop).target
  }

  /** Entries outside `todo` are done, the others untouched. */
  predicate PartlyMerged(src: map<string, Node>, dst: map<string, Node>, drop: set<string>, todo: set<string>,
                         left: map<string, Node>, merged: map<string, Node>)
  {
    && (forall k :: k in left ==> k in src)
    && (forall k :: k in src ==> Entry(left, k) == SourceEntry(src, dst, drop, todo, k))
    && (forall k :: k in merged ==> k in src || k in dst)
    && (forall k :: k in dst && k !in src ==> Entry(merged, k) == Entry(dst, k))
    && (forall k :: k in src ==> Entry(merged, k) == TargetEntry(src, dst, drop, todo, k))
  }

  lemma NothingMerged(src: map<string, Node>, dst: map<string, Node>, drop: set<string>)
    ensures PartlyMerged(src, dst, drop, src.Keys, src, dst)
  {
    hide MoveChild;
  }

  lemma EntryMerged(src: map<string, Node>, dst: map<string, Node>, drop: set<string>, todo: set<string>,
                    left: map<string, Node>, merged: map<string, Node>, name: string)
    requires PartlyMerged(src, dst, drop, todo, left, merged) && name in todo && name in src
    requires MoveChild(src[name], Entry(dst, name), name in drop).target.Some?
    ensures var after := MoveChild(src[name], Entry(dst, name), name in drop);
      PartlyMerged(src, dst, drop, todo - {name},
                   if after.source.None? then left - {name} else left[name := after.source.value],
                   merged[name := after.target.value])
  {
    hide MoveChild;
  }

  lemma AllMerged(src: Node, dst: Node, drop: set<string>, left: map<string, Node>, merged: map<string, Node>)
    requires src.Dir? && dst.Dir? && PartlyMerged(src.entries, dst.entries, drop, {}, left, merged)
    ensures Merge(src, dst, drop) == Sides(if left == map[] then None else Some(Dir(left)), Some(Dir(merged)))
  {
    var s, d := src.entries, dst.entries;
    forall k | k in s ensures MoveChild(s[k], Entry(d, k), k in drop).target == Some(TargetOf(s[k], Entry(d, k), k in drop)) {
      TargetPresent(s[k], Entry(d, k), k in drop);
    }
    hide MoveChild, TargetOf;
    var l := map k | k in s && MoveChild(s[k], Entry(d, k), k in drop).source.Some?
        :: MoveChild(s[k], Entry(d, k), k in drop).source.value;
    assert left == l by {
      assert forall k :: k in s ==> Entry(left, k) == SourceEntry(s, d, drop, {}, k);
    }
    var m := map k | k in s.Keys + d.Keys :: if k in s then TargetOf(s[k], Entry(d, k), k in drop) else d[k];
    assert merged == m by {
      assert forall k :: k in s ==> Entry(merged, k) == TargetEntry(s, d, drop, {}, k);
      assert forall k :: k in d && k !in s ==> Entry(merged, k) == Entry(d, k);
    }
  }

  // ---------- what the merge guarantees ----------

  /** The file or link at a path, if there is one. */
  function LeafAt(n: Option<Node>, path: seq<string>): Option<Node>
    decreases |path|
  {
    if n.None? then None
    else if n.value.Dir? then if path == [] then None else LeafAt(Entry(n.value.entries, path[0]), path[1..])
    else if path == [] then n else None
  }

  /** A leaf moves when, on the way down to it, both sides are directories until
      the new side has nothing of that name. */
  predicate Moves(src: Node, dst: Option<Node>, path: seq<string>)
    decreases |path|
  {
    || dst.None?
    || (src.Dir? && dst.value.Dir? && path != [] && path[0] in src.entries
        && Moves(src.entries[path[0]], Entry(dst.value.entries, path[0]), path[1..]))
  }

  function Children(n: Option<Node>): map<string, Node> {
    if n.Some? && n.value.Dir? then n.value.entries else map[]
  }

  /** The sides of a merge, entry by entry. */
  lemma MergeAt(src: Node, dst: Node, drop: set<string>, k: string)
    requires src.Dir? && dst.Dir?
    ensures var r := Merge(src, dst, drop);
      && (r.source.Some? ==> r.source.value.Dir? && r.source.value.entries != map[])
      && r.target.Some? && r.target.value.Dir?
      && Entry(Children(r.source), k) ==
           (if k in src.entries then MoveChild(src.entries[k], Entry(dst.entries, k), k in drop).source else None)
      && Entry(Children(r.target), k) ==
           (if k in src.entries then MoveChild(src.entries[k], Entry(dst.entries, k), k in drop).target else Entry(dst.entries, k))
  {
    if k in src.entries {
      TargetPresent(src.entries[k], Entry(dst.entries, k), k in drop);
    }
    hide MoveChild, TargetOf;
  }

  lemma LeafOfDirectory(n: Option<Node>, path: seq<string>)
    requires n.Some? ==> n.value.Dir?
    ensures LeafAt(n, path) == if path == [] then None else LeafAt(Entry(Children(n), path[0]), path[1..])
  {
  }

  /** Below the top no name is dropped: a leaf is found on exactly one side, and
      the new side's own leaves are not touched. */
  lemma {:induction false} ChildLeaf(child: Node, dst: Option<Node>, path: seq<string>)
    ensures var r := MoveChild(child, dst, false); var leaf := LeafAt(Some(child), path);
      && LeafAt(r.source, path) == (if Moves(child, dst, path) then None else leaf)
      && LeafAt(r.target, path) == (if Moves(child, dst, path) && leaf.Some? then leaf else LeafAt(dst, path))
      && (Moves(child, dst, path) && leaf.Some? ==> LeafAt(dst, path).None?)
    decreases |path|
  {
    if dst.Some? && child.Dir? && dst.value.Dir? {
      var r := Merge(child, dst.value, {});
      assert MoveChild(child, dst, false) == r;
      var k := if path == [] then "" else path[0];
      MergeAt(child, dst.value, {}, k);
      LeafOfDirectory(r.source, path);
      LeafOfDirectory(r.target, path);
      if path != [] && k in child.entries {
        ChildLeaf(child.entries[k], Entry(dst.value.entries, k), path[1..]);
      }
      hide Merge, MoveChild;
    }
  }

  /** The path lies under a name that both sides have and that is to be dropped. */
  predicate Dropped(src: Node, dst: Node, drop: set<string>, path: seq<string>) {
    src.Dir? && dst.Dir? && path != [] && path[0] in drop && path[0] in src.entries && path[0] in dst.entries
  }

  lemma MergedLeaf(src: Node, dst: Node, drop: set<string>, path: seq<string>)
    ensures var r := Merge(src, dst, drop); var leaf := LeafAt(Some(src), path);
      var moves := Moves(src, Some(dst), path) && !Dropped(src, dst, drop, path);
      && LeafAt(r.source, path) == (if moves || Dropped(src, dst, drop, path) then None else leaf)
      && LeafAt(r.target, path) == (if moves && leaf.Some? then leaf else LeafAt(Some(dst), path))
      && (moves && leaf.Some? ==> LeafAt(Some(dst), path).None?)
  {
    if src.Dir? && dst.Dir? {
      var r := Merge(src, dst, drop);
      var k := if path == [] then "" else path[0];
      MergeAt(src, dst, drop, k);
      LeafOfDirectory(r.source, path);
      LeafOfDirectory(r.target, path);
      if path != [] && k in src.entries {
        ChildLeaf(src.entries[k], Entry(dst.entries, k), path[1..]);
        if k in drop {
          DroppedChild(src.entries[k], Entry(dst.entries, k), path[1..]);
        }
      }
      hide Merge, MoveChild;
    }
  }

  lemma DroppedChild(child: Node, dst: Option<Node>, path: seq<string>)
    ensures dst.Some? ==> MoveChild(child, dst, true) == Sides(None, dst)
    ensures dst.None? ==> MoveChild(child, dst, true) == MoveChild(child, dst, false)
  {
  }

  /** The one case where something in the new place is overwritten: a dangling
      link there, met by an old file or link rather than a directory. */
  predicate Overwrites(src: Option<Node>, dst: Option<Node>) {
    Exists(src) && !src.value.Dir? && Dangling(dst)
  }

  /** The node at a path, through directories only. */
  function NodeAt(n: Option<Node>, path: seq<string>): Option<Node>
    decreases |path|
  {
    if path == [] then n
    else if n.Some? && n.value.Dir? then NodeAt(Entry(n.value.entries, path[0]), path[1..])
    else None
  }

  /** The new side has something at the leaf's own path, or something that is no
      directory on the way down to it. */
  predicate Blocks(dst: Option<Node>, path: seq<string>, n: nat)
    requires n <= |path|
  {
    var there := NodeAt(dst, path[..n]);
    there.Some? && (n < |path| ==> !there.value.Dir?)
  }

  predicate Blocked(dst: Option<Node>, path: seq<string>) {
    exists n: nat :: n <= |path| && Blocks(dst, path, n)
  }

  lemma BlockedStep(dst: Option<Node>, path: seq<string>)
    ensures dst.None? ==> !Blocked(dst, path)
    ensures dst.Some? && (path == [] || !dst.value.Dir?) ==> Blocked(dst, path)
    ensures dst.Some? && path != [] && dst.value.Dir? ==>
      (Blocked(dst, path) <==> Blocked(Entry(dst.value.entries, path[0]), path[1..]))
  {
    if dst.None? {
      forall n: nat | n <= |path| ensures !Blocks(dst, path, n) {
      }
    } else if path == [] || !dst.value.Dir? {
      assert Blocks(dst, path, 0);
    } else {
      var below := Entry(dst.value.entries, path[0]);
      forall n: nat | n < |path| ensures Blocks(dst, path, n + 1) <==> Blocks(below, path[1..], n) {
        assert path[..n + 1][1..] == path[1..][..n];
      }
      assert !Blocks(dst, path, 0);
      if Blocked(dst, path) {
        var n: nat :| n <= |path| && Blocks(dst, path, n);
        assert Blocks(below, path[1..], n - 1);
      }
      if Blocked(below, path[1..]) {
        var n: nat :| n <= |path[1..]| && Blocks(below, path[1..], n);
        assert Blocks(dst, path, n + 1);
      }
    }
  }

  /** A leaf moves unless the new side blocks its path. */
  lemma {:induction false} MovesUnlessBlocked(src: Node, dst: Option<Node>, path: seq<string>)
    requires LeafAt(Some(src), path).Some?
    ensures Moves(src, dst, path) <==> !Blocked(dst, path)
    decreases |path|
  {
    BlockedStep(dst, path);
    if src.Dir? && dst.Some? && dst.value.Dir? {
      MovesUnlessBlocked(src.entries[path[0]], Entry(dst.value.entries, path[0]), path[1..]);
    }
    hide Blocked;
  }

  /** When nothing is in the new place, the whole old tree is renamed onto it, and
      so is a file or link onto a dangling link there. */
  lemma FirstMove(src: Node, dst: Option<Node>, drop: set<string>)
    requires src.Link? ==> !src.resolved.Missing?
    requires dst.None? || (dst.value.Link? && dst.value.resolved.Missing? && !src.Dir?)
    ensures Move(Some(src), dst, drop) == Sides(None, Some(src)) && !RenameRaises(Some(src), dst)
  {
  }

  /** Nothing moves when there is nothing, a dangling link, or when a directory
      would be renamed onto a dangling link, and only the last raises. */
  lemma NoMove(src: Option<Node>, dst: Option<Node>, drop: set<string>)
    requires var stuck := src.Some? && src.value.Dir? && dst.Some? && dst.value.Link? && dst.value.resolved.Missing?;
      src.None? || (src.value.Link? && src.value.resolved.Missing?) || stuck
    ensures Move(src, dst, drop) == Sides(src, dst)
    ensures RenameRaises(src, dst) <==>
      src.Some? && src.value.Dir? && dst.Some? && dst.value.Link? && dst.value.resolved.Missing?
  {
  }

  /** Where each leaf ends: on exactly one side at its own path. A leaf under a
      conflicting dropped name is removed; of the others, those of an old tree
      that is a dangling link, or a directory facing one, stay; a file or link
      replaces a dangling link; and any other stays exactly if the new side has
      something at its path or no directory on the way to it. Nothing appears
      that was on neither side. */
  lemma LeavesConserved(src: Option<Node>, dst: Option<Node>, drop: set<string>, path: seq<string>)
    ensures var r := Move(src, dst, drop);
      var was, own, left, got := LeafAt(src, path), LeafAt(dst, path), LeafAt(r.source, path), LeafAt(r.target, path);
      var dropped := src.Some? && dst.Some? && Dropped(src.value, dst.value, drop, path);
      var dangling := dst.Some? && dst.value.Link? && dst.value.resolved.Missing?;
      && (dropped ==> left.None? && got == own)
      && (was.None? ==> left.None? && (got == own || Overwrites(src, dst)))
      && (was.Some? && !dropped ==>
            if src.value.Link? && src.value.resolved.Missing? then left == was && got == own
            else if dangling then if src.value.Dir? then left == was && got == own else left.None? && got == was
            else if Blocked(dst, path) then left == was && got == own
            else left.None? && own.None? && got == was)
  {
    hide Blocked;
    if LeafAt(src, path).Some? {
      MovesUnlessBlocked(src.value, dst, path);
    }
    if Exists(src) && Exists(dst) {
      MergedLeaf(src.value, dst.value, drop, path);
      hide Merge;
    } else {
      BlockedStep(dst, path);
    }
  }

  /** Nothing of the node's own is on the new side: it stops no path to it. */
  predicate Free(dst: Option<Node>, path: seq<string>) {
    NodeAt(dst, path).None? && !Blocked(dst, path)
  }

  /** A node whose place is free moves as a whole, empty directories included. */
  lemma {:induction false} FreeChildMoves(child: Node, dst: Option<Node>, path: seq<string>)
    requires NodeAt(Some(child), path).Some? && Free(dst, path)
    ensures var r := MoveChild(child, dst, false);
      NodeAt(r.source, path).None? && NodeAt(r.target, path) == NodeAt(Some(child), path)
    decreases |path|
  {
    BlockedStep(dst, path);
    if dst.Some? {
      var k := path[0];
      MergeAt(child, dst.value, {}, k);
      assert MoveChild(child, dst, false) == Merge(child, dst.value, {});
      hide Merge, MoveChild, Blocked;
      FreeChildMoves(child.entries[k], Entry(dst.value.entries, k), path[1..]);
    } else if path != [] {
      assert NodeAt(None, path).None?;
    }
  }

  /** At top level, whether the name is one to drop or not. */
  lemma FreeNodeMoves(src: Node, dst: Node, drop: set<string>, path: seq<string>)
    requires NodeAt(Some(src), path).Some? && Free(Some(dst), path)
    requires path == [] || path[0] !in drop || path[0] !in (if dst.Dir? then dst.entries else map[])
    ensures var r := Move(Some(src), Some(dst), drop);
      NodeAt(r.source, path).None? && NodeAt(r.target, path) == NodeAt(Some(src), path)
  {
    BlockedStep(Some(dst), path);
    var k := path[0];
    MergeAt(src, dst, drop, k);
    hide Merge, MoveChild, Blocked;
    FreeChildMoves(src.entries[k], Entry(dst.entries, k), path[1..]);
    DroppedChild(src.entries[k], Entry(dst.entries, k), path[1..]);
  }

  lemma DroppedMeans(src: Node, dst: Node, drop: set<string>, path: seq<string>)
    ensures Dropped(src, dst, drop, path) <==>
      path != [] && path[0] in drop && NodeAt(Some(src), path[..1]).Some? && NodeAt(Some(dst), path[..1]).Some?
  {
    if path != [] {
      assert path[..1][1..] == [];
    }
  }

  ghost predicate NewLeavesKept(src: Option<Node>, dst: Option<Node>, drop: set<string>) {
    forall path: seq<string> :: LeafAt(dst, path).Some? ==> LeafAt(Move(src, dst, drop).target, path) == LeafAt(dst, path)
  }

  /** A leaf already in the new tree is never changed, except by that rename. */
  lemma NeverOverwrites(src: Option<Node>, dst: Option<Node>, drop: set<string>)
    ensures NewLeavesKept(src, dst, drop) <==> !Overwrites(src, dst)
  {
    if Overwrites(src, dst) {
      assert LeafAt(dst, []) == dst;
    } else {
      forall path: seq<string> | LeafAt(dst, path).Some?
        ensures LeafAt(Move(src, dst, drop).target, path) == LeafAt(dst, path)
      {
        LeavesConserved(src, dst, drop, path);
        if Exists(src) && Exists(dst) {
          MergedLeaf(src.value, dst.value, drop, path);
        }
        hide Merge, Blocked;
      }
    }
  }

  predicate IsDirectory(n: Option<Node>) {
    n.Some? && n.value.Dir?
  }

  lemma {:induction false} ChildDirectoryKept(child: Node, dst: Option<Node>, drop: bool, path: seq<string>)
    requires IsDirectory(NodeAt(dst, path))
    ensures IsDirectory(NodeAt(MoveChild(child, dst, drop).target, path))
    decreases |path|
  {
    if child.Dir? && dst.value.Dir? && !drop {
      assert MoveChild(child, dst, drop) == Merge(child, dst.value, {});
      var k := if path == [] then "" else path[0];
      MergeAt(child, dst.value, {}, k);
      hide Merge, MoveChild;
      if path != [] && k in child.entries {
        ChildDirectoryKept(child.entries[k], Entry(dst.value.entries, k), false, path[1..]);
      }
    }
  }

  /** Every directory of the new tree is kept, empty ones included. */
  lemma DirectoriesKept(src: Option<Node>, dst: Option<Node>, drop: set<string>, path: seq<string>)
    requires IsDirectory(NodeAt(dst, path))
    ensures IsDirectory(NodeAt(Move(src, dst, drop).target, path))
  {
    if Exists(src) && Exists(dst) && src.value.Dir? && dst.value.Dir? {
      var k := if path == [] then "" else path[0];
      MergeAt(src.value, dst.value, drop, k);
      hide Merge, MoveChild;
      if path != [] && k in src.value.entries {
        ChildDirectoryKept(src.value.entries[k], Entry(dst.value.entries, k), k in drop, path[1..]);
      }
    }
  }

  /** What stays behind of a node that met dst: a directory that met a directory
      still holds something, all of it met by something in turn; anything else is
      as it was. */
  ghost predicate Tidy(before: Node, dst: Node, after: Node)
    decreases before
  {
    if before.Dir? && dst.Dir? then
      && after.Dir? && after.entries != map[]
      && forall k :: k in after.entries ==>
           k in before.entries && k in dst.entries && Tidy(before.entries[k], dst.entries[k], after.entries[k])
    else after == before
  }

  /** A directory that the move empties is removed, at every depth. */
  lemma {:induction false} EmptiedIsRemoved(src: Node, dst: Node, drop: set<string>)
    ensures var left := Merge(src, dst, drop).source; left.Some? ==> Tidy(src, dst, left.value)
    decreases src
  {
    var left := Merge(src, dst, drop).source;
    if src.Dir? && dst.Dir? && left.Some? {
      MergeAt(src, dst, drop, "");
      forall k | k in left.value.entries
        ensures k in src.entries && k in dst.entries && Tidy(src.entries[k], dst.entries[k], left.value.entries[k])
      {
        MergeAt(src, dst, drop, k);
        var child, counterpart := src.entries[k], Entry(dst.entries, k);
        LeftChild(child, counterpart, k in drop);
        EmptiedIsRemoved(child, counterpart.value, {});
        hide Merge;
      }
    }
  }

  lemma LeftChild(child: Node, dst: Option<Node>, drop: bool)
    ensures var left := MoveChild(child, dst, drop).source;
      left.Some? ==> dst.Some? && (if child.Dir? && dst.value.Dir? then left == Merge(child, dst.value, {}).source else left.value == child)
  {
  }

  /** After a move nothing is left to do: a second one changes nothing. */
  lemma {:induction false} MergeAgain(src: Node, dst: Node, drop: set<string>)
    ensures var r := Merge(src, dst, drop);
      r.source.Some? && r.target.Some? ==> Merge(r.source.value, r.target.value, drop) == r
    decreases src, 0
  {
    var r := Merge(src, dst, drop);
    if src.Dir? && dst.Dir? && r.source.Some? {
      MergeAt(src, dst, drop, "");
      var s, d := r.source.value, r.target.value;
      forall k | k in s.entries
        ensures MoveChild(s.entries[k], Entry(d.entries, k), k in drop) == Sides(Some(s.entries[k]), Entry(d.entries, k))
      {
        MergeAt(src, dst, drop, k);
        assert Entry(s.entries, k) == Some(s.entries[k]);
        ChildAgain(src.entries[k], Entry(dst.entries, k), k in drop);
        hide Merge, MoveChild;
      }
      AllKept(s, d, drop);
      hide Merge, MoveChild;
    }
  }

  lemma ChildAgain(child: Node, dst: Option<Node>, drop: bool)
    ensures var r := MoveChild(child, dst, drop);
      r.source.Some? ==> r.target.Some? && !drop && MoveChild(r.source.value, r.target, false) == r
    decreases child, 1
  {
    if child.Dir? && dst.Some? && dst.value.Dir? && !drop {
      MergeAgain(child, dst.value, {});
      MergeAt(child, dst.value, {}, "");
      hide Merge;
    }
  }

  lemma AllKept(s: Node, d: Node, drop: set<string>)
    requires s.Dir? && d.Dir? && s.entries != map[]
    requires forall k :: k in s.entries ==>
      MoveChild(s.entries[k], Entry(d.entries, k), k in drop) == Sides(Some(s.entries[k]), Entry(d.entries, k))
    ensures Merge(s, d, drop) == Sides(Some(s), Some(d))
  {
    hide MoveChild;
    AllMerged(s, d, drop, s.entries, d.entries);
  }

  lemma SecondMoveDoesNothing(src: Option<Node>, dst: Option<Node>, drop: set<string>)
    ensures var r := Move(src, dst, drop); Move(r.source, r.target, drop) == r
  {
    if Exists(src) && Exists(dst) {
      MergeAgain(src.value, dst.value, drop);
    }
  }
}
