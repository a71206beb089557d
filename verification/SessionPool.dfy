// The pool of voice-model sessions: a least-recently-used cache whose slow
// build happens outside its lock. Each critical section is one step; between
// them other threads may look up, insert or evict everything.
module SessionPool {

  type Key = string

  /** A session knows the file it was built from; `serial` tells builds apart. */
  datatype Session = Session(builtFor: Key, serial: nat)

  datatype Pool = Pool(cache: map<Key, Session>, order: seq<Key>)

  const EMPTY := Pool(map[], [])

  predicate NoDuplicates(s: seq<Key>) {
    forall i, j :: 0 <= i < j < |s| ==> s[i] != s[j]
  }

  function Elements(s: seq<Key>): (r: set<Key>)
    ensures forall k :: k in r <==> k in s
  {
    set k | k in s
  }

  /** The access order lists each cached key once, the pool is within its size,
      and each session was built for its key. */
  ghost predicate Good(p: Pool, maxSize: nat) {
    && NoDuplicates(p.order) && Elements(p.order) == p.cache.Keys && |p.order| <= maxSize
    && forall k :: k in p.cache ==> p.cache[k].builtFor == k
  }

  /** list.remove */
  function Without(s: seq<Key>, x: Key): (r: seq<Key>) {
    if s == [] then [] else if s[0] == x then s[1..] else [s[0]] + Without(s[1..], x)
  }

  lemma {:induction false} WithoutIs(s: seq<Key>, x: Key)
    requires NoDuplicates(s)
    ensures NoDuplicates(Without(s, x)) && Elements(Without(s, x)) == Elements(s) - {x}
    ensures |Without(s, x)| == if x in s then |s| - 1 else |s|
  {
    if s != [] {
      assert s == [s[0]] + s[1..];
      assert Elements(s) == {s[0]} + Elements(s[1..]) && s[0] !in Elements(s[1..]);
      if s[0] != x {
        WithoutIs(s[1..], x);
        Prepend(s[0], Without(s[1..], x));
      }
    }
  }

  lemma Prepend(x: Key, s: seq<Key>)
    requires NoDuplicates(s) && x !in Elements(s)
    ensures NoDuplicates([x] + s) && Elements([x] + s) == {x} + Elements(s)
  {
    assert x !in s;
  }

  /** The first critical section on a hit: the key becomes the most recent. */
  function Touch(p: Pool, key: Key): Pool {
    p.(order := Without(p.order, key) + [key])
  }

  /** One turn of the eviction loop: the least recent key goes. */
  function EvictOne(p: Pool): Pool
    requires p.order != []
  {
    Pool(p.cache - {p.order[0]}, p.order[1..])
  }

  function Evict(p: Pool, maxSize: nat): Pool
    decreases |p.order|
  {
    if |p.order| > maxSize then Evict(EvictOne(p), maxSize) else p
  }

  /** The second critical section: another thread's session wins. */
  function Insert(p: Pool, key: Key, built: Session, maxSize: nat): Pool {
    if key in p.cache then p else Evict(Pool(p.cache[key := built], p.order + [key]), maxSize)
  }

  lemma TouchKeeps(p: Pool, key: Key, maxSize: nat)
    requires Good(p, maxSize) && key in p.cache
    ensures Good(Touch(p, key), maxSize) && Touch(p, key).cache == p.cache
  {
    WithoutIs(p.order, key);
    assert key in Elements(p.order);
    assert key !in Elements(Without(p.order, key));
    assert Elements(Touch(p, key).order) == Elements(Without(p.order, key)) + {key};
  }

  /** Inserting a new key evicts at most the least recent other one. */
  lemma InsertIs(p: Pool, key: Key, built: Session, maxSize: nat)
    requires Good(p, maxSize) && maxSize >= 1 && key !in p.cache
    ensures Insert(p, key, built, maxSize) ==
      if |p.order| < maxSize then Pool(p.cache[key := built], p.order + [key])
      else Pool((p.cache - {p.order[0]})[key := built], p.order[1..] + [key])
  {
    var q := Pool(p.cache[key := built], p.order + [key]);
    if |p.order| == maxSize {
      assert key !in Elements(p.order);
      assert q.order[0] == p.order[0] != key;
      assert q.order[1..] == p.order[1..] + [key];
      assert q.cache - {p.order[0]} == (p.cache - {p.order[0]})[key := built];
      assert Evict(q, maxSize) == Evict(EvictOne(q), maxSize) == EvictOne(q);
    }
  }

  /** After the second section the key is cached: a key just inserted is never
      the one evicted. */
  lemma InsertKeeps(p: Pool, key: Key, built: Session, maxSize: nat)
    requires Good(p, maxSize) && maxSize >= 1 && built.builtFor == key
    ensures var q := Insert(p, key, built, maxSize);
      Good(q, maxSize) && key in q.cache && q.cache[key] == if key in p.cache then p.cache[key] else built
  {
    if key !in p.cache {
      InsertIs(p, key, built, maxSize);
      assert key !in Elements(p.order);
      var q := Insert(p, key, built, maxSize);
      if |p.order| < maxSize {
        assert Elements(q.order) == Elements(p.order) + {key};
      } else {
        assert p.order == [p.order[0]] + p.order[1..];
        assert Elements(p.order[1..]) == Elements(p.order) - {p.order[0]};
        assert Elements(q.order) == Elements(p.order[1..]) + {key};
      }
    }
  }

  // ---------- the pool as an object ----------

  class RvcSessionPool {
    var cache: map<Key, Session>
    var accessOrder: seq<Key>
    const maxSize: nat

    ghost predicate Valid()
      reads this
    {
      maxSize >= 1 && Good(Contents(), maxSize)
    }

    function Contents(): Pool
      reads this
    {
      Pool(cache, accessOrder)
    }

    constructor (size: int)
      ensures Valid() && Contents() == EMPTY && maxSize == if size > 1 then size else 1
    {
      cache, accessOrder := map[], [];
      maxSize := if size > 1 then size else 1;
    }

    /** The first critical section. */
    method LookUp(key: Key) returns (hit: bool, session: Session)
      requires Valid()
      modifies this
      ensures Valid()
      ensures hit == (key in old(cache))
      ensures hit ==> session == old(cache)[key] && session.builtFor == key && Contents() == Touch(old(Contents()), key)
      ensures !hit ==> Contents() == old(Contents())
    {
      hit, session := false, Session(key, 0);
      if key in cache {
        TouchKeeps(Contents(), key, maxSize);
        accessOrder := Without(accessOrder, key) + [key];
        hit, session := true, cache[key];
      }
    }

    /** The second critical section, with the session built in between. */
    method Store(key: Key, built: Session) returns (session: Session)
      requires Valid() && built.builtFor == key
      modifies this
      ensures Valid()
      ensures Contents() == Insert(old(Contents()), key, built, maxSize)
      ensures key in cache && cache[key] == session && session.builtFor == key
    {
      InsertKeeps(Contents(), key, built, maxSize);
      ghost var goal := Insert(Contents(), key, built, maxSize);
      if key in cache {
        return cache[key];
      }
      cache := cache[key := built];
      accessOrder := accessOrder + [key];
      while |accessOrder| > maxSize
        invariant Evict(Contents(), maxSize) == goal
        decreases |accessOrder|
      {
        cache := cache - {accessOrder[0]};
        accessOrder := accessOrder[1..];
      }
      session := built;
    }

    /** Both sections with no other thread in between; None when the build fails. */
    method GetOrCreate(key: Key, build: bool, serial: nat) returns (ok: bool, session: Session)
      requires Valid()
      modifies this
      ensures Valid()
      ensures Contents() == Request(old(Contents()), key, build, serial, maxSize)
      ensures ok == (build || key in old(cache))
      ensures ok ==> session.builtFor == key && key in cache && cache[key] == session
    {
      var hit;
      hit, session := LookUp(key);
      if hit {
        return true, session;
      }
      if !build {
        return false, session;
      }
      session := Store(key, Session(key, serial));
      ok := true;
    }

    method EvictAll()
      requires Valid()
      modifies this
      ensures Valid() && Contents() == EMPTY
    {
      cache, accessOrder := map[], [];
    }
  }

  /** A call of get_or_create that no other thread interrupts. */
  function Request(p: Pool, key: Key, build: bool, serial: nat, maxSize: nat): Pool {
    if key in p.cache then Touch(p, key)
    else if build then Insert(p, key, Session(key, serial), maxSize)
    else p
  }

  // ---------- any interleaving ----------

  datatype Event =
    | Begin(thread: nat, key: Key)
    | Built(thread: nat, ok: bool, serial: nat)
    | Clear

  datatype Answer = Answer(key: Key, session: Session)

  /** Threads between their two sections, and the sessions handed out so far. */
  datatype State = State(pool: Pool, building: map<nat, Key>, answers: seq<Answer>)

  function Apply(s: State, e: Event, maxSize: nat): State {
    match e
    case Begin(thread, key) =>
      if thread in s.building then s
      else if key in s.pool.cache
      then s.(pool := Touch(s.pool, key), answers := s.answers + [Answer(key, s.pool.cache[key])])
      else s.(building := s.building[thread := key])
    case Built(thread, ok, serial) =>
      if thread !in s.building then s
      else
        var key := s.building[thread];
        var t := s.(building := s.building - {thread});
        if !ok then t
        else if key in s.pool.cache then t.(answers := s.answers + [Answer(key, s.pool.cache[key])])
        else t.(pool := Insert(s.pool, key, Session(key, serial), maxSize),
                answers := s.answers + [Answer(key, Session(key, serial))])
    case Clear => s.(pool := EMPTY)
  }

  function Run(events: seq<Event>, maxSize: nat): State {
    if events == [] then State(EMPTY, map[], [])
    else Apply(Run(events[..|events| - 1], maxSize), events[|events| - 1], maxSize)
  }

  /** In any interleaving the pool stays good and every session handed out was
      built for the key it was asked for. */
  lemma {:induction false} PoolSafe(events: seq<Event>, maxSize: nat)
    requires maxSize >= 1
    ensures Good(Run(events, maxSize).pool, maxSize)
    ensures forall i :: 0 <= i < |Run(events, maxSize).answers| ==>
      Run(events, maxSize).answers[i].session.builtFor == Run(events, maxSize).answers[i].key
  {
    if events != [] {
      var n := |events| - 1;
      PoolSafe(events[..n], maxSize);
      var s := Run(events[..n], maxSize);
      match events[n]
      case Begin(thread, key) =>
        if key in s.pool.cache { TouchKeeps(s.pool, key, maxSize); }
      case Built(thread, ok, serial) =>
        if thread in s.building {
          InsertKeeps(s.pool, s.building[thread], Session(s.building[thread], serial), maxSize);
        }
      case Clear =>
      hide Touch, Insert;
    }
  }

  /** What each section hands out. The first hands out the cached session, or lets
      the thread build; the second hands out what another thread cached meanwhile,
      otherwise the built one, which then stays cached; a failed build hands out
      nothing. */
  lemma SectionsAre(s: State, thread: nat, key: Key, ok: bool, serial: nat, maxSize: nat)
    requires Good(s.pool, maxSize) && maxSize >= 1
    ensures thread !in s.building ==>
      var t := Apply(s, Begin(thread, key), maxSize);
      if key in s.pool.cache then t.answers == s.answers + [Answer(key, s.pool.cache[key])] && t.building == s.building
      else t.answers == s.answers && t.pool == s.pool && t.building == s.building[thread := key]
    ensures thread in s.building ==>
      var t := Apply(s, Built(thread, ok, serial), maxSize); var wanted := s.building[thread];
      && t.building == s.building - {thread}
      && (!ok ==> t.answers == s.answers && t.pool == s.pool)
      && (ok ==> var session := if wanted in s.pool.cache then s.pool.cache[wanted] else Session(wanted, serial);
                 && t.answers == s.answers + [Answer(wanted, session)]
                 && wanted in t.pool.cache && t.pool.cache[wanted] == session)
    ensures Apply(s, Clear, maxSize) == s.(pool := Pool(map[], []))
  {
    if thread in s.building {
      InsertKeeps(s.pool, s.building[thread], Session(s.building[thread], serial), maxSize);
    }
    hide Touch, Insert, Good;
  }

  // ---------- sequential runs: least recently used ----------

  /** One call after another: a request with its key and whether a build would
      work, or evict_all. */
  datatype Call = Get(key: Key, build: bool) | EvictAll

  function Serve(calls: seq<Call>, maxSize: nat): Pool {
    if calls == [] then EMPTY
    else
      var n := |calls| - 1;
      match calls[n]
      case Get(key, build) => Request(Serve(calls[..n], maxSize), key, build, n, maxSize)
      case EvictAll => EMPTY
  }

  /** The keys of the requests since the last evict_all that returned a session,
      in order. */
  function Served(calls: seq<Call>, maxSize: nat): seq<Key> {
    if calls == [] then []
    else
      var n := |calls| - 1;
      match calls[n]
      case Get(key, build) =>
        var before := Served(calls[..n], maxSize);
        if build || key in Serve(calls[..n], maxSize).cache then before + [key] else before
      case EvictAll => []
  }

  /** Keys of a history by last use, least recent first. */
  function ByLastUse(h: seq<Key>): seq<Key> {
    if h == [] then [] else Without(ByLastUse(h[..|h| - 1]), h[|h| - 1]) + [h[|h| - 1]]
  }

  function LastOf(s: seq<Key>, n: nat): seq<Key> {
    if |s| <= n then s else s[|s| - n..]
  }

  lemma {:induction false} WithoutPrefix(p: seq<Key>, s: seq<Key>, x: Key)
    ensures x !in p ==> Without(p + s, x) == p + Without(s, x)
    ensures x in p ==> Without(p + s, x) == Without(p, x) + s
    ensures x !in s && x !in p ==> Without(p + s, x) == p + s
  {
    if p == [] {
      assert p + s == s;
      if x !in s { WithoutAbsent(s, x); }
    } else {
      assert (p + s)[1..] == p[1..] + s;
      assert p == [p[0]] + p[1..];
      if p[0] != x { WithoutPrefix(p[1..], s, x); }
    }
  }

  lemma {:induction false} WithoutAbsent(s: seq<Key>, x: Key)
    requires x !in s
    ensures Without(s, x) == s
  {
    if s != [] { WithoutAbsent(s[1..], x); }
  }

  lemma LastOfConcat(p: seq<Key>, s: seq<Key>, n: nat)
    requires |s| == n || (p == [] && |s| <= n)
    ensures LastOf(p + s, n) == s
  {
  }

  /** Using a key moves the window of the n most recent keys as the pool does. */
  lemma WindowHit(p: seq<Key>, w: seq<Key>, key: Key, n: nat)
    requires |w| == n || (p == [] && |w| <= n)
    requires key in w && key !in p && NoDuplicates(w)
    ensures LastOf(Without(p + w, key) + [key], n) == Without(w, key) + [key]
  {
    WithoutPrefix(p, w, key);
    WithoutIs(w, key);
    assert p + Without(w, key) + [key] == p + (Without(w, key) + [key]);
    LastOfConcat(p, Without(w, key) + [key], n);
  }

  lemma WindowMiss(p: seq<Key>, w: seq<Key>, key: Key, n: nat)
    requires |w| == n >= 1 || (p == [] && |w| <= n)
    requires key !in w && n >= 1
    ensures LastOf(Without(p + w, key) + [key], n) == if |w| < n then w + [key] else w[1..] + [key]
  {
    hide *;
    WithoutPrefix(p, w, key);
    WithoutAbsent(w, key);
    Shifted(if key in p then Without(p, key) else p, w, key, n);
  }

  lemma Shifted(rest: seq<Key>, w: seq<Key>, key: Key, n: nat)
    requires |w| == n >= 1 || (rest == [] && |w| <= n)
    requires n >= 1
    ensures LastOf(rest + w + [key], n) == if |w| < n then w + [key] else w[1..] + [key]
  {
    hide LastOf;
    if |w| < n {
      assert rest + w + [key] == rest + (w + [key]);
      LastOfConcat(rest, w + [key], n);
    } else {
      assert rest + w + [key] == (rest + [w[0]]) + (w[1..] + [key]);
      LastOfConcat(rest + [w[0]], w[1..] + [key], n);
    }
  }

  lemma WindowMoves(d: seq<Key>, key: Key, n: nat)
    requires n >= 1 && NoDuplicates(d)
    ensures var w := LastOf(d, n); var after := LastOf(Without(d, key) + [key], n);
      after == if key in w then Without(w, key) + [key] else if |w| < n then w + [key] else w[1..] + [key]
  {
    var w := LastOf(d, n);
    var p := d[..|d| - |w|];
    assert d == p + w;
    if key in w {
      assert key !in p;
      WindowHit(p, w, key, n);
    } else {
      WindowMiss(p, w, key, n);
    }
    hide Without;
  }

  lemma {:induction false} ByLastUseNoDuplicates(h: seq<Key>)
    ensures NoDuplicates(ByLastUse(h)) && Elements(ByLastUse(h)) == Elements(h)
  {
    if h != [] {
      var k := h[|h| - 1];
      var d := ByLastUse(h[..|h| - 1]);
      ByLastUseNoDuplicates(h[..|h| - 1]);
      WithoutIs(d, k);
      assert h == h[..|h| - 1] + [k];
      assert k !in Elements(Without(d, k));
      assert Elements(ByLastUse(h)) == Elements(Without(d, k)) + {k};
    }
  }

  lemma {:induction false} ServeIsWindow(calls: seq<Call>, maxSize: nat)
    requires maxSize >= 1
    ensures Good(Serve(calls, maxSize), maxSize)
    ensures Serve(calls, maxSize).order == LastOf(ByLastUse(Served(calls, maxSize)), maxSize)
  {
    if calls != [] {
      var n := |calls| - 1;
      if calls[n].Get? {
        ServeIsWindow(calls[..n], maxSize);
        var p, key, h := Serve(calls[..n], maxSize), calls[n].key, Served(calls[..n], maxSize);
        ByLastUseSnoc(h, key);
        ByLastUseNoDuplicates(h);
        WindowMoves(ByLastUse(h), key, maxSize);
        RequestKeeps(p, key, calls[n].build, n, maxSize);
        hide Without, Insert, Touch, LastOf, ByLastUse, NoDuplicates, Request;
      } else {
        assert LastOf(ByLastUse([]), maxSize) == [];
      }
    }
  }

  lemma ByLastUseSnoc(h: seq<Key>, key: Key)
    ensures ByLastUse(h + [key]) == Without(ByLastUse(h), key) + [key]
  {
    assert (h + [key])[..|h|] == h;
  }

  lemma RequestKeeps(p: Pool, key: Key, build: bool, serial: nat, maxSize: nat)
    requires Good(p, maxSize) && maxSize >= 1
    ensures Good(Request(p, key, build, serial, maxSize), maxSize)
    ensures key in p.cache <==> key in p.order
    ensures Request(p, key, build, serial, maxSize).order ==
      if key in p.order then Without(p.order, key) + [key]
      else if !build then p.order
      else if |p.order| < maxSize then p.order + [key]
      else p.order[1..] + [key]
  {
    assert key in p.order <==> key in Elements(p.order);
    if key in p.cache {
      TouchKeeps(p, key, maxSize);
    } else if build {
      InsertKeeps(p, key, Session(key, serial), maxSize);
      InsertIs(p, key, Session(key, serial), maxSize);
    }
    hide Insert;
  }

  /** Index of the last use of a key. */
  function LastUse(h: seq<Key>, k: Key): (i: nat)
    requires k in h
    ensures i < |h| && h[i] == k && forall j :: i < j < |h| ==> h[j] != k
  {
    if h[|h| - 1] == k then |h| - 1
    else assert h == h[..|h| - 1] + [h[|h| - 1]]; LastUse(h[..|h| - 1], k)
  }

  /** The other keys used after the last use of k. */
  function UsedAfter(h: seq<Key>, k: Key): set<Key>
    requires k in h
  {
    Elements(h[LastUse(h, k) + 1..])
  }

  lemma {:induction false} SizeOfElements(s: seq<Key>)
    requires NoDuplicates(s)
    ensures |Elements(s)| == |s|
  {
    if s != [] {
      SizeOfElements(s[1..]);
      assert s == [s[0]] + s[1..];
      assert Elements(s) == {s[0]} + Elements(s[1..]);
    }
  }

  /** What follows a key in last-use order is what was used after it. */
  lemma {:induction false} RankIs(h: seq<Key>, j: nat)
    requires j < |ByLastUse(h)|
    ensures ByLastUse(h)[j] in h && Elements(ByLastUse(h)[j + 1..]) == UsedAfter(h, ByLastUse(h)[j])
  {
    hide ByLastUse, Without, LastUse, UsedAfter;
    var n := |h| - 1;
    ByLastUseIs(h);
    var x := h[n];
    var before, d := ByLastUse(h[..n]), ByLastUse(h);
    ByLastUseNoDuplicates(h[..n]);
    if j == |d| - 1 {
      UsedAfterLast(h);
      assert d[j + 1..] == [];
    } else {
      var i := WithoutIndex(before, x, j);
      RankIs(h[..n], i);
      WithoutIs(before, x);
      assert d[j] in Without(before, x);
      assert d[j] != x by { assert d[j] in Elements(Without(before, x)); }
      UsedAfterAppend(h, d[j]);
      assert d[j + 1..] == Without(before, x)[j + 1..] + [x];
    }
  }

  lemma ByLastUseIs(h: seq<Key>)
    ensures h == [] ==> ByLastUse(h) == []
    ensures h != [] ==> ByLastUse(h) == Without(ByLastUse(h[..|h| - 1]), h[|h| - 1]) + [h[|h| - 1]]
  {
  }

  lemma UsedAfterLast(h: seq<Key>)
    requires h != []
    ensures UsedAfter(h, h[|h| - 1]) == {}
  {
  }

  lemma UsedAfterAppend(h: seq<Key>, k: Key)
    requires h != [] && k in h[..|h| - 1] && k != h[|h| - 1]
    ensures k in h && UsedAfter(h, k) == UsedAfter(h[..|h| - 1], k) + {h[|h| - 1]}
  {
    var n := |h| - 1;
    assert h == h[..n] + [h[n]];
    assert LastUse(h, k) == LastUse(h[..n], k);
    assert h[LastUse(h, k) + 1..] == h[..n][LastUse(h, k) + 1..] + [h[n]];
  }

  /** Element j of the list without x, found again in the whole list. */
  lemma {:induction false} WithoutIndex(s: seq<Key>, x: Key, j: nat) returns (i: nat)
    requires NoDuplicates(s) && j < |Without(s, x)|
    ensures i < |s| && s[i] == Without(s, x)[j]
    ensures Elements(Without(s, x)[j + 1..]) == Elements(s[i + 1..]) - {x}
  {
    if s[0] == x {
      i := j + 1;
      assert s[i + 1..] == s[1..][j + 1..];
      assert x !in s[i + 1..];
    } else if j == 0 {
      i := 0;
      assert NoDuplicates(s[1..]);
      WithoutIs(s[1..], x);
      assert Without(s, x)[1..] == Without(s[1..], x);
    } else {
      assert NoDuplicates(s[1..]);
      i := WithoutIndex(s[1..], x, j - 1);
      assert Without(s, x)[j + 1..] == Without(s[1..], x)[j..];
      assert s[i + 2..] == s[1..][i + 1..];
      i := i + 1;
    }
  }

  /** Undisturbed by other threads, the pool holds exactly the most recently used
      keys: those after whose last successful use fewer than maxSize others were
      used, counting from the last evict_all. */
  lemma ContentsAreMostRecent(calls: seq<Call>, maxSize: nat, k: Key)
    requires maxSize >= 1
    ensures var h := Served(calls, maxSize);
      k in Serve(calls, maxSize).cache <==> k in h && |UsedAfter(h, k)| < maxSize
  {
    var h := Served(calls, maxSize);
    var d := ByLastUse(h);
    var p := Serve(calls, maxSize);
    ServeIsWindow(calls, maxSize);
    ByLastUseNoDuplicates(h);
    assert k in p.cache <==> k in Elements(p.order);
    assert k in h <==> k in Elements(d);
    if k in h {
      var j :| 0 <= j < |d| && d[j] == k;
      RankIs(h, j);
      SizeOfElements(d[j + 1..]);
      WindowHas(d, j, maxSize);
    } else {
      assert forall i :: 0 <= i < |p.order| ==> p.order[i] in d;
    }
    hide Serve, Served, ByLastUse, UsedAfter;
  }

  lemma WindowHas(d: seq<Key>, j: nat, n: nat)
    requires NoDuplicates(d) && j < |d|
    ensures d[j] in LastOf(d, n) <==> |d| - 1 - j < n
  {
    var w := LastOf(d, n);
    if |d| - 1 - j < n {
      assert w[j - (|d| - |w|)] == d[j];
    }
  }
}
