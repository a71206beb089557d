// Rewriting legacy strings and one stale number throughout a configuration
// value, at any depth.
module PathRewrite {
  import opened Toml

  const LEGACY_PATH: string := "vcclient-cachy/models/"
  const NEW_PATH: string := "woys/models/"
  const LEGACY_SINK_NAME: string := "VCClientCachySink"
  const NEW_SINK_NAME: string := "WoysSink"
  const LATENCY_KEY: string := "output_latency_ms"
  const LATENCY_FLOOR: int := 300

  predicate StartsWith(s: string, needle: string) {
    |needle| <= |s| && s[..|needle|] == needle
  }

  /** str.replace: every occurrence, left to right, not overlapping. */
  function Replace(s: string): string {
    if s == "" then ""
    else if StartsWith(s, LEGACY_PATH) then NEW_PATH + Replace(s[|LEGACY_PATH|..])
    else [s[0]] + Replace(s[1..])
  }

  function RewriteText(s: string): string {
    var out := Replace(s);
    if out == LEGACY_SINK_NAME then NEW_SINK_NAME else out
  }

  /** The value under `key`; list items have no key. */
  function Rewrite(v: Value, key: string): Value
    decreases v
  {
    match v
    case Str(text) => Str(RewriteText(text))
    case Int(number) => if key == LATENCY_KEY && number < LATENCY_FLOOR then Int(LATENCY_FLOOR) else v
    case List(items) => List(seq(|items|, i requires 0 <= i < |items| => Rewrite(items[i], "")))
    case Table(entries) => Table(map k | k in entries :: Rewrite(entries[k], k))
    case _ => v
  }

  // ---------- no legacy text survives ----------

  predicate Occurs(s: string, needle: string) {
    exists i :: 0 <= i <= |s| && StartsWith(s[i..], needle)
  }

  lemma ReplacementStarts(s: string)
    requires StartsWith(s, LEGACY_PATH)
    ensures |Replace(s)| > 0 && Replace(s)[0] == 'w'
  {
  }

  /** A prefix of the output without the replacement's first letter was copied
      from the input. */
  lemma {:induction false} CopiedPrefix(s: string, k: nat)
    requires k <= |Replace(s)| && forall i :: 0 <= i < k ==> Replace(s)[i] != 'w'
    ensures k <= |s| && s[..k] == Replace(s)[..k]
  {
    if StartsWith(s, LEGACY_PATH) {
      ReplacementStarts(s);
    } else if k > 0 {
      CopiesFirst(s);
      var rest := Replace(s[1..]);
      assert forall i :: 0 <= i < k - 1 ==> rest[i] == Replace(s)[i + 1];
      CopiedPrefix(s[1..], k - 1);
      assert s[..k] == [s[0]] + s[1..][..k - 1];
    }
    hide Replace, StartsWith;
  }

  lemma CopiesFirst(s: string)
    requires !StartsWith(s, LEGACY_PATH)
    ensures if s == "" then Replace(s) == "" else Replace(s) == [s[0]] + Replace(s[1..])
  {
  }

  /** No legacy path starts inside the replacement. */
  lemma NotInReplacement(rest: string, i: nat)
    requires i < |NEW_PATH|
    ensures !StartsWith((NEW_PATH + rest)[i..], LEGACY_PATH)
  {
    assert (NEW_PATH + rest)[i..][0] == NEW_PATH[i];
  }

  /** Nor does one start at a character that was copied. */
  lemma NotAtCopied(s: string)
    requires s != "" && !StartsWith(s, LEGACY_PATH)
    ensures !StartsWith(Replace(s), LEGACY_PATH)
  {
    var out, k := Replace(s), |LEGACY_PATH|;
    if StartsWith(out, LEGACY_PATH) {
      NoW();
      assert forall j :: 0 <= j < k ==> out[j] == out[..k][j];
      CopiedPrefix(s, k);
    }
  }

  lemma NoW()
    ensures forall j :: 0 <= j < |LEGACY_PATH| ==> LEGACY_PATH[j] != 'w'
  {
  }

  lemma {:induction false} NoLegacyAt(s: string, i: nat)
    requires i <= |Replace(s)|
    ensures !StartsWith(Replace(s)[i..], LEGACY_PATH)
    decreases |s|
  {
    var out := Replace(s);
    if s != "" {
      if StartsWith(s, LEGACY_PATH) {
        var rest := Replace(s[|LEGACY_PATH|..]);
        if i < |NEW_PATH| {
          NotInReplacement(rest, i);
        } else {
          assert out[i..] == rest[i - |NEW_PATH|..];
          NoLegacyAt(s[|LEGACY_PATH|..], i - |NEW_PATH|);
        }
      } else if i > 0 {
        assert out[i..] == Replace(s[1..])[i - 1..];
        NoLegacyAt(s[1..], i - 1);
      } else {
        NotAtCopied(s);
        assert out[0..] == out;
      }
    }
  }

  lemma {:induction false} ReplaceNothing(s: string)
    requires !Occurs(s, LEGACY_PATH)
    ensures Replace(s) == s
  {
    if s != "" {
      assert s[0..] == s;
      forall i | 0 <= i <= |s[1..]| ensures !StartsWith(s[1..][i..], LEGACY_PATH) {
        assert s[1..][i..] == s[i + 1..];
      }
      ReplaceNothing(s[1..]);
    }
  }

  /** After the rewrite neither legacy string is left, so a second rewrite finds
      nothing. */
  lemma TextIsClean(s: string)
    ensures !Occurs(RewriteText(s), LEGACY_PATH) && RewriteText(s) != LEGACY_SINK_NAME
    ensures RewriteText(RewriteText(s)) == RewriteText(s)
  {
    var out := RewriteText(s);
    if Replace(s) == LEGACY_SINK_NAME {
      assert |out| < |LEGACY_PATH|;
    } else {
      forall i | 0 <= i <= |out| ensures !StartsWith(out[i..], LEGACY_PATH) {
        NoLegacyAt(s, i);
      }
    }
    ReplaceNothing(out);
  }

  /** The pieces with a separator between each two. */
  function Join(pieces: seq<string>, separator: string): string {
    if pieces == [] then ""
    else if |pieces| == 1 then pieces[0]
    else pieces[0] + separator + Join(pieces[1..], separator)
  }

  /** Every occurrence of the old path, and nothing else, gives way to the new one:
      the text falls into pieces without an occurrence, joined by the old path
      before and by the new one afterwards. */
  lemma {:induction false} ReplaceIs(s: string) returns (pieces: seq<string>)
    ensures pieces != [] && forall i :: 0 <= i < |pieces| ==> !Occurs(pieces[i], "vcclient-cachy/models/")
    ensures s == Join(pieces, "vcclient-cachy/models/") && Replace(s) == Join(pieces, "woys/models/")
    decreases |s|
  {
    if !Occurs(s, LEGACY_PATH) {
      pieces := [s];
      ReplaceNothing(s);
    } else {
      var i := FirstOccurrence(s);
      var rest := ReplaceIs(s[i + |LEGACY_PATH|..]);
      pieces := [s[..i]] + rest;
      ReplaceUpTo(s, i);
      CutAt(s, i, |LEGACY_PATH|);
      JoinStep(s[..i], rest, LEGACY_PATH);
      JoinStep(s[..i], rest, NEW_PATH);
    }
    hide Join, Replace, Occurs, StartsWith;
  }

  lemma CutAt(s: string, i: nat, n: nat)
    requires i + n <= |s|
    ensures s == s[..i] + s[i..i + n] + s[i + n..]
  {
  }

  lemma JoinStep(piece: string, rest: seq<string>, separator: string)
    requires rest != []
    ensures Join([piece] + rest, separator) == piece + separator + Join(rest, separator)
  {
    assert ([piece] + rest)[1..] == rest;
  }

  lemma {:induction false} FirstOccurrence(s: string) returns (i: nat)
    requires Occurs(s, LEGACY_PATH)
    ensures i + |LEGACY_PATH| <= |s| && s[i..i + |LEGACY_PATH|] == LEGACY_PATH && !Occurs(s[..i], LEGACY_PATH)
    ensures forall j :: 0 <= j < i ==> !StartsWith(s[j..], LEGACY_PATH)
  {
    var n: nat :| n <= |s| && StartsWith(s[n..], LEGACY_PATH);
    i := 0;
    while !StartsWith(s[i..], LEGACY_PATH)
      invariant i <= n && forall j :: 0 <= j < i ==> !StartsWith(s[j..], LEGACY_PATH)
      decreases n - i
    {
      i := i + 1;
    }
    PrefixHasNone(s, i);
    hide Occurs;
  }

  lemma PrefixHasNone(s: string, i: nat)
    requires i <= |s| && forall j :: 0 <= j < i ==> !StartsWith(s[j..], LEGACY_PATH)
    ensures !Occurs(s[..i], LEGACY_PATH)
  {
    forall j | 0 <= j <= i ensures !StartsWith(s[..i][j..], LEGACY_PATH) {
      PrefixMatch(s, i, j);
    }
  }

  lemma PrefixMatch(s: string, i: nat, j: nat)
    requires j <= i <= |s|
    ensures StartsWith(s[..i][j..], LEGACY_PATH) ==> j < i && StartsWith(s[j..], LEGACY_PATH)
  {
    assert s[..i][j..] == s[j..][..i - j];
  }

  lemma OneLetterOn(s: string, i: nat, n: nat)
    requires 0 < i && i + n <= |s|
    ensures s[1..][i - 1..i - 1 + n] == s[i..i + n] && s[1..][i - 1 + n..] == s[i + n..] && s[..i] == [s[0]] + s[1..][..i - 1]
  {
  }

  /** What comes before the first occurrence is copied. */
  lemma {:induction false} ReplaceUpTo(s: string, i: nat)
    requires i + |LEGACY_PATH| <= |s| && s[i..i + |LEGACY_PATH|] == LEGACY_PATH
    requires forall j :: 0 <= j < i ==> !StartsWith(s[j..], LEGACY_PATH)
    ensures Replace(s) == s[..i] + NEW_PATH + Replace(s[i + |LEGACY_PATH|..])
    decreases i
  {
    assert s[0..] == s;
    var n := |LEGACY_PATH|;
    if i > 0 {
      forall j | 0 <= j < i - 1 ensures !StartsWith(s[1..][j..], LEGACY_PATH) {
        assert s[1..][j..] == s[j + 1..];
      }
      OneLetterOn(s, i, n);
      ReplaceUpTo(s[1..], i - 1);
      assert !StartsWith(s, LEGACY_PATH);
      hide StartsWith;
      assert [s[0]] + (s[1..][..i - 1] + NEW_PATH + Replace(s[i + n..])) == ([s[0]] + s[1..][..i - 1]) + NEW_PATH + Replace(s[i + n..]);
    } else {
      assert s[..n] == s[0..n];
    }
  }

  /** A result without the replacement's first letter was copied as a whole. */
  lemma {:induction false} CopiedWhole(s: string)
    requires forall i :: 0 <= i < |Replace(s)| ==> Replace(s)[i] != 'w'
    ensures Replace(s) == s
  {
    if StartsWith(s, LEGACY_PATH) {
      ReplacementStarts(s);
    } else if s != "" {
      var rest := Replace(s[1..]);
      assert forall i :: 0 <= i < |rest| ==> rest[i] == Replace(s)[i + 1];
      CopiedWhole(s[1..]);
    }
  }

  /** Only a text that is the old sink name gets the new one; in any other the old
      paths are replaced. */
  lemma SinkRenamed(s: string)
    ensures RewriteText(s) == if s == "VCClientCachySink" then "WoysSink" else Replace(s)
  {
    if Replace(s) == LEGACY_SINK_NAME {
      NoWInSink();
      CopiedWhole(s);
    }
    if s == LEGACY_SINK_NAME {
      SinkHasNoPath();
      ReplaceNothing(s);
    }
  }

  lemma NoWInSink()
    ensures forall i :: 0 <= i < |LEGACY_SINK_NAME| ==> LEGACY_SINK_NAME[i] != 'w'
  {
  }

  lemma SinkHasNoPath()
    ensures !Occurs(LEGACY_SINK_NAME, LEGACY_PATH)
  {
    assert |LEGACY_SINK_NAME| < |LEGACY_PATH|;
  }

  /** A latency below 300 becomes 300 under its own key only; lists forget the key
      they stand under, tables give each entry its own. */
  lemma RewriteAt(v: Value, key: string)
    ensures v.Int? ==> Rewrite(v, key) == Int(if key == "output_latency_ms" && v.number < 300 then 300 else v.number)
    ensures v.List? ==>
      && Rewrite(v, key).List? && |Rewrite(v, key).items| == |v.items|
      && forall i :: 0 <= i < |v.items| ==> Rewrite(v, key).items[i] == Rewrite(v.items[i], "")
    ensures v.Table? ==>
      && Rewrite(v, key).Table? && Rewrite(v, key).entries.Keys == v.entries.Keys
      && forall k :: k in v.entries ==> Rewrite(v, key).entries[k] == Rewrite(v.entries[k], k)
  {
  }

  /** Text without either legacy string is kept. */
  lemma TextKept(s: string)
    requires !Occurs(s, LEGACY_PATH) && s != LEGACY_SINK_NAME
    ensures RewriteText(s) == s
  {
    ReplaceNothing(s);
  }

  // ---------- whole values ----------

  /** No legacy text and no stale latency anywhere in the value. */
  ghost predicate Migrated(v: Value, key: string)
    decreases v
  {
    match v
    case Str(text) => !Occurs(text, LEGACY_PATH) && text != LEGACY_SINK_NAME
    case Int(number) => key == LATENCY_KEY ==> number >= LATENCY_FLOOR
    case List(items) => forall i :: 0 <= i < |items| ==> Migrated(items[i], "")
    case Table(entries) => forall k :: k in entries ==> Migrated(entries[k], k)
    case _ => true
  }

  /** The two values have the same shape: only texts and integers differ. */
  ghost predicate SameShape(v: Value, w: Value)
    decreases v
  {
    match v
    case Str(_) => w.Str?
    case Int(_) => w.Int?
    case List(items) => w.List? && |w.items| == |items| && forall i :: 0 <= i < |items| ==> SameShape(items[i], w.items[i])
    case Table(entries) => w.Table? && w.entries.Keys == entries.Keys && forall k :: k in entries ==> SameShape(entries[k], w.entries[k])
    case _ => w == v
  }

  /** Every value comes out migrated and with its shape kept. */
  lemma {:induction false} RewriteMigrates(v: Value, key: string)
    ensures Migrated(Rewrite(v, key), key) && SameShape(v, Rewrite(v, key))
    decreases v
  {
    match v
    case Str(text) => TextIsClean(text);
    case List(items) =>
      forall i | 0 <= i < |items| ensures Migrated(Rewrite(items[i], ""), "") && SameShape(items[i], Rewrite(items[i], "")) {
        RewriteMigrates(items[i], "");
      }
    case Table(entries) =>
      forall k | k in entries ensures Migrated(Rewrite(entries[k], k), k) && SameShape(entries[k], Rewrite(entries[k], k)) {
        RewriteMigrates(entries[k], k);
      }
    case _ =>
  }

  /** The rewrite changes a value exactly when something in it is to migrate. */
  lemma {:induction false} RewriteFixes(v: Value, key: string)
    ensures Rewrite(v, key) == v <==> Migrated(v, key)
    decreases v
  {
    match v
    case Str(text) =>
      TextIsClean(text);
      if Migrated(v, key) { TextKept(text); }
    case List(items) =>
      var out := Rewrite(v, key).items;
      forall i | 0 <= i < |items| ensures out[i] == items[i] <==> Migrated(items[i], "") {
        RewriteFixes(items[i], "");
      }
      assert out == items <==> forall i :: 0 <= i < |items| ==> out[i] == items[i];
    case Table(entries) =>
      var out := Rewrite(v, key).entries;
      forall k | k in entries ensures out[k] == entries[k] <==> Migrated(entries[k], k) {
        RewriteFixes(entries[k], k);
      }
      assert out == entries <==> forall k :: k in entries ==> out[k] == entries[k];
    case _ =>
  }

  /** Rewriting twice is rewriting once. */
  lemma RewriteIsIdempotent(v: Value, key: string)
    ensures Rewrite(Rewrite(v, key), key) == Rewrite(v, key)
  {
    RewriteMigrates(v, key);
    RewriteFixes(Rewrite(v, key), key);
  }
}
