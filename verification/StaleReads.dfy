/**
 Which file reads of a conversation are superseded: identifySupersededCalls with its hash tables
 (pkg/nts/stale_reads.go).

 The hash is an arbitrary function; the properties ask that it tells apart the paths that occur.
 */
module StaleReads {
  import opened Numbers

  /** A read or write of a file; a line range only counts when a bound is positive. */
  datatype Call = Call(id: string, base: string, start: int, end: int, isRead: bool, isWrite: bool)

  const SLOTS := 256
  const BYTE := 256

  // ---------------------------------------------------------------- path keys

  function PathKey(c: Call): string {
    if c.start > 0 || c.end > 0 then c.base + "#L" + Itoa(c.start) + "-" + Itoa(c.end) else c.base
  }

  predicate Ranged(c: Call) {
    c.start > 0 || c.end > 0
  }

  function RangeText(c: Call): string {
    "L" + Itoa(c.start) + "-" + Itoa(c.end)
  }

  lemma RangePlain(c: Call)
    ensures '#' !in RangeText(c)
  {
    ItoaPlain(c.start);
    ItoaPlain(c.end);
    hide Itoa;
  }

  lemma RangeTells(c: Call, d: Call)
    requires RangeText(c) == RangeText(d)
    ensures c.start == d.start && c.end == d.end
  {
    hide Itoa;
    var x, y := Itoa(c.start) + "-" + Itoa(c.end), Itoa(d.start) + "-" + Itoa(d.end);
    assert RangeText(c)[1..] == x && RangeText(d)[1..] == y;
    PairTells(c.start, c.end, d.start, d.end);
  }

  lemma HashAt(a: string, x: string)
    requires '#' !in x
    ensures var s := a + "#" + x;
            s[|a|] == '#' && s[..|a|] == a && s[|a| + 1..] == x && forall i | |a| < i < |s| :: s[i] != '#'
  {
    var s := a + "#" + x;
    forall i | |a| < i < |s| ensures s[i] != '#' {
      assert s[i] == x[i - |a| - 1];
    }
  }

  /** The last '#' of a text ends the part before it. */
  lemma LastHash(a: string, x: string, b: string, y: string)
    requires '#' !in x && '#' !in y && a + "#" + x == b + "#" + y
    ensures a == b && x == y
  {
    HashAt(a, x);
    HashAt(b, y);
    assert |a| == |b|;
  }

  /** A key says whether the whole file is read, and a ranged key which file and which lines. */
  lemma KeyTells(c: Call, d: Call)
    ensures PathKey(c) == c.base <==> c.start <= 0 && c.end <= 0
    ensures Ranged(c) && Ranged(d) ==> (PathKey(c) == PathKey(d) <==> c.base == d.base && c.start == d.start && c.end == d.end)
  {
    RangePlain(c);
    RangePlain(d);
    KeyIs(c);
    KeyIs(d);
    hide PathKey, RangeText;
    if Ranged(c) { assert |c.base + "#" + RangeText(c)| > |c.base|; }
    if Ranged(c) && Ranged(d) {
      if PathKey(c) == PathKey(d) {
        LastHash(c.base, RangeText(c), d.base, RangeText(d));
        RangeTells(c, d);
      }
      if c.start == d.start && c.end == d.end { SameRange(c, d); }
    }
  }

  lemma KeyIs(c: Call)
    ensures PathKey(c) == if Ranged(c) then c.base + "#" + RangeText(c) else c.base
  {
    hide Itoa;
  }

  lemma SameRange(c: Call, d: Call)
    requires c.start == d.start && c.end == d.end
    ensures RangeText(c) == RangeText(d)
  {
  }

  // ---------------------------------------------------------------- the tables

  /** One more read of h: a new slot while there is one, a counter of one byte. */
  function Bumped(m: map<int, nat>, h: int): (r: map<int, nat>)
    ensures forall k | k in r :: k in m || k == h
  {
    if h in m then m[h := (m[h] + 1) % BYTE]
    else if |m| < SLOTS then m[h := 1]
    else m
  }

  /** Where the first slot below n holds the target, or -1: containsHash and findHashIndex. */
  method FindHashIndex(a: array<int>, n: nat, target: int) returns (idx: int)
    requires n <= a.Length
    ensures -1 <= idx < n
    ensures idx >= 0 ==> a[idx] == target && target !in a[..idx]
    ensures idx < 0 ==> target !in a[..n]
  {
    for i := 0 to n
      invariant target !in a[..i]
    {
      if a[i] == target { return i; }
    }
    return -1;
  }

  /** The first n slots hold the entries of m, each once. */
  ghost predicate Holds(m: map<int, nat>, keys: seq<int>, counts: seq<nat>, n: nat)
    requires n <= |keys| && n <= |counts|
  {
    && (forall i | 0 <= i < n :: keys[i] in m && m[keys[i]] == counts[i])
    && (forall k | k in m :: k in keys[..n])
    && (forall i, j | 0 <= i < j < n :: keys[i] != keys[j])
    && |m| == n
  }

  lemma HoldsSet(m: map<int, nat>, keys: seq<int>, counts: seq<nat>, n: nat, idx: nat, v: nat)
    requires n <= |keys| && n <= |counts| && idx < n && Holds(m, keys, counts, n)
    ensures keys[idx] in m && m[keys[idx]] == counts[idx]
    ensures Holds(m[keys[idx] := v], keys, counts[idx := v], n)
  {
    var m' := m[keys[idx] := v];
    assert m'.Keys == m.Keys;
    assert |m'| == |m'.Keys| == |m.Keys| == |m|;
  }

  lemma HoldsPush(m: map<int, nat>, keys: seq<int>, counts: seq<nat>, n: nat, h: int)
    requires n < |keys| && n < |counts| && Holds(m, keys, counts, n) && h !in keys[..n]
    ensures h !in m && Holds(m[h := 1], keys[n := h], counts[n := 1], n + 1)
  {
    var ks := keys[n := h];
    forall i | 0 <= i < n ensures ks[i] == keys[i] != h {
      assert keys[..n][i] == keys[i];
    }
    assert ks[..n + 1] == keys[..n] + [h];
  }

  /** Fixed slots with a counter each, in order of their first use. */
  class Table {
    const keys: array<int>
    const counts: array<nat>
    var n: nat
    ghost var contents: map<int, nat>

    ghost predicate Valid()
      reads this, keys, counts
    {
      && keys.Length == SLOTS && counts.Length == SLOTS && keys as object != counts as object
      && n <= SLOTS && Holds(contents, keys[..], counts[..], n)
    }

    constructor ()
      ensures Valid() && fresh(keys) && fresh(counts) && contents == map[]
    {
      keys := new int[SLOTS](i => 0);
      counts := new nat[SLOTS](i => 0);
      n := 0;
      contents := map[];
    }

    /** The counter of h, or -1 when h has no slot. */
    method Get(h: int) returns (r: int)
      requires Valid()
      ensures r == if h in contents then contents[h] else -1
    {
      var idx := FindHashIndex(keys, n, h);
      assert keys[..][..n] == keys[..n];
      r := if idx >= 0 then counts[idx] else -1;
    }

    method Bump(h: int)
      requires Valid()
      modifies this, keys, counts
      ensures Valid() && contents == Bumped(old(contents), h)
    {
      hide Holds;
      ghost var ks, cs := keys[..], counts[..];
      var idx := FindHashIndex(keys, n, h);
      assert ks[..n] == keys[..n];
      HoldsSize(contents, ks, cs, n, h);
      if idx >= 0 {
        var v := (counts[idx] + 1) % BYTE;
        HoldsSet(contents, ks, cs, n, idx, v);
        counts[idx] := v;
        contents := contents[h := v];
        assert counts[..] == cs[idx := v] && keys[..] == ks;
      } else if n < SLOTS {
        HoldsPush(contents, ks, cs, n, h);
        keys[n] := h;
        counts[n] := 1;
        contents := contents[h := 1];
        assert keys[..] == ks[n := h] && counts[..] == cs[n := 1];
        n := n + 1;
      }
    }
  }

  lemma HoldsSize(m: map<int, nat>, keys: seq<int>, counts: seq<nat>, n: nat, h: int)
    requires n <= |keys| && n <= |counts| && Holds(m, keys, counts, n)
    ensures |m| == n && (h in m ==> h in keys[..n])
  {
  }

  // ---------------------------------------------------------------- the backward scan

  type Hash = string -> int

  /** The tables behind a call, and the calls marked so far. */
  datatype Seen = Seen(writes: map<int, nat>, full: map<int, nat>, ranged: map<int, nat>, stale: set<int>)

  function CountOf(m: map<int, nat>, h: int): nat {
    if h in m then m[h] else 0
  }

  predicate Reaches(m: map<int, nat>, h: int, depth: nat) {
    h in m && m[h] >= depth
  }

  /** One more read takes the counter over the depth. */
  predicate Exceeds(m: map<int, nat>, h: int, depth: nat) {
    h in m && (m[h] + 1) % BYTE > depth
  }

  /** One turn of the scan, for the call at position i. */
  function Step(st: Seen, c: Call, i: int, hash: Hash, depth: nat): Seen {
    var b, k := hash(c.base), hash(PathKey(c));
    if c.isWrite then
      if b in st.writes then st else st.(writes := Bumped(st.writes, b))
    else if !c.isRead then st
    else if b in st.writes then st.(stale := st.stale + {i})
    else if c.base == PathKey(c) then
      var full := Bumped(st.full, b);
      st.(full := full, stale := if b in st.full && full[b] > depth then st.stale + {i} else st.stale)
    else if b in st.full && st.full[b] >= depth then st.(stale := st.stale + {i})
    else
      var ranged := Bumped(st.ranged, k);
      st.(ranged := ranged, stale := if k in st.ranged && ranged[k] > depth then st.stale + {i} else st.stale)
  }

  /** The scan from the last call back to call i. */
  function Scan(calls: seq<Call>, hash: Hash, depth: nat, i: nat): Seen
    requires i <= |calls|
    decreases |calls| - i
  {
    if i == |calls| then Seen(map[], map[], map[], {})
    else Step(Scan(calls, hash, depth, i + 1), calls[i], i, hash, depth)
  }

  ghost function Ids(calls: seq<Call>, marked: set<int>): set<string> {
    set i | i in marked && 0 <= i < |calls| :: calls[i].id
  }

  method IdentifySupersededCalls(calls: seq<Call>, hash: Hash, depth: nat) returns (staleIDs: set<string>)
    ensures staleIDs == Ids(calls, Scan(calls, hash, depth, 0).stale)
  {
    var writes := new Table();
    var full := new Table();
    var ranged := new Table();
    staleIDs := {};
    var i := |calls|;
    while i > 0
      invariant 0 <= i <= |calls| && writes.Valid() && full.Valid() && ranged.Valid()
      invariant Seen(writes.contents, full.contents, ranged.contents, Scan(calls, hash, depth, i).stale) == Scan(calls, hash, depth, i)
      invariant staleIDs == Ids(calls, Scan(calls, hash, depth, i).stale)
    {
      i := i - 1;
      var stale := ScanOne(calls[i], writes, full, ranged, hash, depth, i, Scan(calls, hash, depth, i + 1));
      AddId(calls, Scan(calls, hash, depth, i + 1).stale, i);
      if stale { staleIDs := staleIDs + {calls[i].id}; }
    }
  }

  ghost predicate Apart(a: Table, b: Table) {
    && a != b && a.keys != b.keys && a.counts != b.counts
    && a.keys as object != b.counts as object && a.counts as object != b.keys as object
  }

  lemma AddId(calls: seq<Call>, marked: set<int>, i: int)
    requires 0 <= i < |calls|
    ensures Ids(calls, marked + {i}) == Ids(calls, marked) + {calls[i].id}
  {
  }

  /** Looks up and updates the tables for one call. */
  method ScanOne(c: Call, writes: Table, full: Table, ranged: Table, hash: Hash, depth: nat, ghost i: int, ghost st: Seen)
    returns (stale: bool)
    requires writes.Valid() && full.Valid() && ranged.Valid()
    requires Apart(writes, full) && Apart(writes, ranged) && Apart(full, ranged)
    requires Seen(writes.contents, full.contents, ranged.contents, st.stale) == st
    modifies writes, writes.keys, writes.counts, full, full.keys, full.counts, ranged, ranged.keys, ranged.counts
    ensures writes.Valid() && full.Valid() && ranged.Valid()
    ensures Seen(writes.contents, full.contents, ranged.contents, if stale then st.stale + {i} else st.stale) ==
            Step(st, c, i, hash, depth)
  {
    hide Step, Holds, Bumped, PathKey;
    stale := false;
    var baseHash, keyHash := hash(c.base), hash(PathKey(c));
    StepIs(st, c, i, hash, depth);
    if c.isWrite {
      var seen := writes.Get(baseHash);
      if seen < 0 { writes.Bump(baseHash); }
    } else if c.isRead {
      var written := writes.Get(baseHash);
      var fullReads := full.Get(baseHash);
      if written >= 0 {
        stale := true;
      } else if c.base == PathKey(c) {
        full.Bump(baseHash);
        stale := fullReads >= 0 && (fullReads + 1) % BYTE > depth;
      } else if fullReads >= depth {
        stale := true;
      } else {
        var rangeReads := ranged.Get(keyHash);
        ranged.Bump(keyHash);
        stale := rangeReads >= 0 && (rangeReads + 1) % BYTE > depth;
      }
    }
  }

  lemma StepIs(st: Seen, c: Call, i: int, hash: Hash, depth: nat)
    ensures var b, k := hash(c.base), hash(PathKey(c));
            var t := Step(st, c, i, hash, depth);
            && (c.isWrite ==> t == if b in st.writes then st else st.(writes := Bumped(st.writes, b)))
            && (!c.isWrite && !c.isRead ==> t == st)
            && (!c.isWrite && c.isRead ==>
                 && (b in st.writes ==> t == st.(stale := st.stale + {i}))
                 && (b !in st.writes && c.base == PathKey(c) ==>
                      t == st.(full := Bumped(st.full, b),
                               stale := if Exceeds(st.full, b, depth) then st.stale + {i} else st.stale))
                 && (b !in st.writes && c.base != PathKey(c) ==>
                      if Reaches(st.full, b, depth) then t == st.(stale := st.stale + {i})
                      else t == st.(ranged := Bumped(st.ranged, k),
                                    stale := if Exceeds(st.ranged, k, depth) then st.stale + {i} else st.stale)))
  {
    hide PathKey;
  }

  // ---------------------------------------------------------------- the rule

  predicate WrittenFrom(calls: seq<Call>, i: nat, base: string) {
    exists j | i <= j < |calls| :: calls[j].isWrite && calls[j].base == base
  }

  predicate FullRead(c: Call) { c.isRead && !c.isWrite && !Ranged(c) }

  predicate RangeRead(c: Call) { c.isRead && !c.isWrite && Ranged(c) }

  /** How many of the calls from i on read the whole file. */
  function FullReads(calls: seq<Call>, i: nat, base: string): nat
    requires i <= |calls|
    decreases |calls| - i
  {
    if i == |calls| then 0
    else FullReads(calls, i + 1, base) + if FullRead(calls[i]) && calls[i].base == base then 1 else 0
  }

  /** How many of the calls from i on read this range. */
  function RangeReads(calls: seq<Call>, i: nat, key: string): nat
    requires i <= |calls|
    decreases |calls| - i
  {
    if i == |calls| then 0
    else RangeReads(calls, i + 1, key) + if RangeRead(calls[i]) && PathKey(calls[i]) == key then 1 else 0
  }

  /** A read is superseded by a later write to its file, or by enough later reads that cover it. */
  predicate Superseded(calls: seq<Call>, depth: nat, i: nat)
    requires i < |calls|
  {
    var c := calls[i];
    c.isRead && !c.isWrite &&
    (|| WrittenFrom(calls, i + 1, c.base)
     || FullReads(calls, i + 1, c.base) >= depth
     || (Ranged(c) && RangeReads(calls, i + 1, PathKey(c)) >= depth))
  }

  /** The hash tells apart the paths and keys that occur. */
  predicate NoCollision(calls: seq<Call>, hash: Hash) {
    forall i, j | 0 <= i < |calls| && 0 <= j < |calls| ::
      && (hash(calls[i].base) == hash(calls[j].base) ==> calls[i].base == calls[j].base)
      && (hash(PathKey(calls[i])) == hash(PathKey(calls[j])) ==> PathKey(calls[i]) == PathKey(calls[j]))
  }

  // ---------------------------------------------------------------- soundness

  /** The tables never count more than there is. */
  ghost predicate AtMost(calls: seq<Call>, hash: Hash, i: nat, st: Seen)
    requires i <= |calls|
  {
    forall j | 0 <= j < |calls| ::
      var b, k := calls[j].base, PathKey(calls[j]);
      && (hash(b) in st.writes ==> WrittenFrom(calls, i, b))
      && CountOf(st.full, hash(b)) <= FullReads(calls, i, b)
      && CountOf(st.ranged, hash(k)) <= RangeReads(calls, i, k)
  }

  lemma BumpedCount(m: map<int, nat>, h: int, k: int)
    ensures k != h ==> CountOf(Bumped(m, h), k) == CountOf(m, k)
    ensures CountOf(Bumped(m, h), h) <= CountOf(m, h) + 1
    ensures k in Bumped(m, h) ==> k in m || k == h
  {
  }

  lemma AtMostStep(calls: seq<Call>, hash: Hash, depth: nat, i: nat, st: Seen)
    requires i < |calls| && NoCollision(calls, hash) && AtMost(calls, hash, i + 1, st)
    ensures AtMost(calls, hash, i, Step(st, calls[i], i, hash, depth))
  {
    var c := calls[i];
    var t := Step(st, c, i, hash, depth);
    forall j | 0 <= j < |calls|
      ensures var b, k := calls[j].base, PathKey(calls[j]);
              && (hash(b) in t.writes ==> WrittenFrom(calls, i, b))
              && CountOf(t.full, hash(b)) <= FullReads(calls, i, b)
              && CountOf(t.ranged, hash(k)) <= RangeReads(calls, i, k)
    {
      var b, k := calls[j].base, PathKey(calls[j]);
      KeyTells(c, c);
      BumpedCount(st.writes, hash(c.base), hash(b));
      BumpedCount(st.full, hash(c.base), hash(b));
      BumpedCount(st.ranged, hash(PathKey(c)), hash(k));
      assert WrittenFrom(calls, i + 1, b) ==> WrittenFrom(calls, i, b);
      assert c.isWrite && c.base == b ==> WrittenFrom(calls, i, b);
      hide Bumped, PathKey;
    }
  }

  lemma {:induction false} MarkedFrom(calls: seq<Call>, hash: Hash, depth: nat, i: nat)
    requires i <= |calls| && depth > 0 && NoCollision(calls, hash)
    ensures AtMost(calls, hash, i, Scan(calls, hash, depth, i))
    ensures forall j | j in Scan(calls, hash, depth, i).stale :: i <= j < |calls| && Superseded(calls, depth, j)
    decreases |calls| - i
  {
    if i < |calls| {
      MarkedFrom(calls, hash, depth, i + 1);
      var st := Scan(calls, hash, depth, i + 1);
      AtMostStep(calls, hash, depth, i, st);
      StepMark(calls, hash, depth, i, st);
    }
  }

  lemma StepMark(calls: seq<Call>, hash: Hash, depth: nat, i: nat, st: Seen)
    requires i < |calls| && depth > 0 && AtMost(calls, hash, i + 1, st)
    ensures var t := Step(st, calls[i], i, hash, depth);
            t.stale == st.stale || (t.stale == st.stale + {i} && Superseded(calls, depth, i))
  {
    var c := calls[i];
    KeyTells(c, c);
    BumpedCount(st.full, hash(c.base), 0);
    BumpedCount(st.ranged, hash(PathKey(c)), 0);
    hide PathKey;
  }

  /** Whatever is marked stale is superseded, however full the tables get and however often counters wrap. */
  lemma MarkedIsSuperseded(calls: seq<Call>, hash: Hash, depth: nat)
    requires depth > 0 && NoCollision(calls, hash)
    ensures forall i | i in Scan(calls, hash, depth, 0).stale :: 0 <= i < |calls| && Superseded(calls, depth, i)
  {
    MarkedFrom(calls, hash, depth, 0);
  }

  // ---------------------------------------------------------------- completeness

  function WriteHashes(calls: seq<Call>, hash: Hash): set<int> {
    set j | 0 <= j < |calls| && calls[j].isWrite :: hash(calls[j].base)
  }

  function FullHashes(calls: seq<Call>, hash: Hash): set<int> {
    set j | 0 <= j < |calls| && FullRead(calls[j]) :: hash(calls[j].base)
  }

  function RangeHashes(calls: seq<Call>, hash: Hash): set<int> {
    set j | 0 <= j < |calls| && RangeRead(calls[j]) :: hash(PathKey(calls[j]))
  }

  /** No table fills up and no counter wraps. */
  predicate Roomy(calls: seq<Call>, hash: Hash) {
    && |WriteHashes(calls, hash)| <= SLOTS && |FullHashes(calls, hash)| <= SLOTS && |RangeHashes(calls, hash)| <= SLOTS
    && forall j | 0 <= j < |calls| ::
         FullReads(calls, 0, calls[j].base) < BYTE && RangeReads(calls, 0, PathKey(calls[j])) < BYTE
  }

  ghost predicate Sized(calls: seq<Call>, hash: Hash, st: Seen) {
    && st.writes.Keys <= WriteHashes(calls, hash)
    && st.full.Keys <= FullHashes(calls, hash)
    && st.ranged.Keys <= RangeHashes(calls, hash)
  }

  /** What the tables say about the paths of call j. */
  ghost predicate ExactAt(calls: seq<Call>, hash: Hash, depth: nat, i: nat, st: Seen, j: nat)
    requires i <= |calls| && j < |calls|
  {
    var b, k := calls[j].base, PathKey(calls[j]);
    && (hash(b) in st.writes <==> WrittenFrom(calls, i, b))
    && (!WrittenFrom(calls, i, b) ==> CountOf(st.full, hash(b)) == FullReads(calls, i, b))
    && (RangeRead(calls[j]) && !WrittenFrom(calls, i, b) && FullReads(calls, i, b) < depth ==>
         CountOf(st.ranged, hash(k)) == RangeReads(calls, i, k))
  }

  ghost predicate Exact(calls: seq<Call>, hash: Hash, depth: nat, i: nat, st: Seen)
    requires i <= |calls|
  {
    Sized(calls, hash, st) && forall j: nat | j < |calls| :: ExactAt(calls, hash, depth, i, st, j)
  }

  lemma {:induction false} SubsetSize<T>(a: set<T>, b: set<T>)
    requires a <= b
    ensures |a| <= |b|
  {
    if a != {} {
      var x :| x in a;
      SubsetSize(a - {x}, b - {x});
    }
  }

  /** A table below its limits counts exactly. */
  lemma BumpedExact(m: map<int, nat>, h: int, all: set<int>)
    requires m.Keys <= all && h in all && |all| <= SLOTS && CountOf(m, h) + 1 < BYTE
    ensures CountOf(Bumped(m, h), h) == CountOf(m, h) + 1 && h in Bumped(m, h) && Bumped(m, h).Keys == m.Keys + {h}
  {
    if h !in m {
      SubsetSize(m.Keys + {h}, all);
      assert |m.Keys + {h}| == |m| + 1;
    }
  }

  lemma {:induction false} FullReadsDown(calls: seq<Call>, i: nat, base: string)
    requires i <= |calls|
    ensures FullReads(calls, i, base) <= FullReads(calls, 0, base)
  {
    if i > 0 { FullReadsDown(calls, i - 1, base); }
  }

  lemma {:induction false} RangeReadsDown(calls: seq<Call>, i: nat, key: string)
    requires i <= |calls|
    ensures RangeReads(calls, i, key) <= RangeReads(calls, 0, key)
  {
    if i > 0 { RangeReadsDown(calls, i - 1, key); }
  }

  lemma WrittenStep(calls: seq<Call>, i: nat, b: string)
    requires i < |calls|
    ensures WrittenFrom(calls, i, b) <==> WrittenFrom(calls, i + 1, b) || (calls[i].isWrite && calls[i].base == b)
  {
  }

  lemma RoomyAt(calls: seq<Call>, hash: Hash, i: nat, j: nat)
    requires Roomy(calls, hash) && i <= |calls| && j < |calls|
    ensures FullReads(calls, i, calls[j].base) < BYTE && RangeReads(calls, i, PathKey(calls[j])) < BYTE
  {
    FullReadsDown(calls, i, calls[j].base);
    RangeReadsDown(calls, i, PathKey(calls[j]));
  }

  lemma RoomySizes(calls: seq<Call>, hash: Hash, i: nat)
    requires Roomy(calls, hash) && i < |calls|
    ensures |WriteHashes(calls, hash)| <= SLOTS && |FullHashes(calls, hash)| <= SLOTS && |RangeHashes(calls, hash)| <= SLOTS
    ensures calls[i].isWrite ==> hash(calls[i].base) in WriteHashes(calls, hash)
    ensures FullRead(calls[i]) ==> hash(calls[i].base) in FullHashes(calls, hash)
    ensures RangeRead(calls[i]) ==> hash(PathKey(calls[i])) in RangeHashes(calls, hash)
  {
  }

  lemma ExactSized(calls: seq<Call>, hash: Hash, depth: nat, i: nat, st: Seen, j: nat)
    requires i <= |calls| && j < |calls| && Exact(calls, hash, depth, i, st)
    ensures Sized(calls, hash, st) && ExactAt(calls, hash, depth, i, st, j)
  {
    hide ExactAt, Sized;
  }

  lemma BumpWrite(calls: seq<Call>, hash: Hash, depth: nat, i: nat, st: Seen)
    requires i < |calls| && Roomy(calls, hash) && Exact(calls, hash, depth, i + 1, st) && calls[i].isWrite
    ensures hash(calls[i].base) !in st.writes ==> hash(calls[i].base) in Bumped(st.writes, hash(calls[i].base))
    ensures Bumped(st.writes, hash(calls[i].base)).Keys <= WriteHashes(calls, hash)
  {
    hide Roomy, Exact, ExactAt, WriteHashes;
    ExactSized(calls, hash, depth, i + 1, st, i);
    RoomySizes(calls, hash, i);
    var b := hash(calls[i].base);
    if b !in st.writes {
      SubsetSize(st.writes.Keys + {b}, WriteHashes(calls, hash));
      assert |st.writes.Keys + {b}| == |st.writes| + 1;
    }
  }

  lemma BumpFull(calls: seq<Call>, hash: Hash, depth: nat, i: nat, st: Seen)
    requires i < |calls| && Roomy(calls, hash) && Exact(calls, hash, depth, i + 1, st)
    requires FullRead(calls[i]) && !WrittenFrom(calls, i + 1, calls[i].base)
    ensures var b := hash(calls[i].base);
            CountOf(Bumped(st.full, b), b) == CountOf(st.full, b) + 1 && Bumped(st.full, b).Keys <= FullHashes(calls, hash)
  {
    hide Roomy, Exact, Bumped, FullHashes, WrittenFrom;
    ExactSized(calls, hash, depth, i + 1, st, i);
    RoomySizes(calls, hash, i);
    RoomyAt(calls, hash, i, i);
    BumpedExact(st.full, hash(calls[i].base), FullHashes(calls, hash));
  }

  lemma BumpRanged(calls: seq<Call>, hash: Hash, depth: nat, i: nat, st: Seen)
    requires i < |calls| && Roomy(calls, hash) && Exact(calls, hash, depth, i + 1, st)
    requires RangeRead(calls[i]) && !WrittenFrom(calls, i + 1, calls[i].base) && FullReads(calls, i + 1, calls[i].base) < depth
    ensures var k := hash(PathKey(calls[i]));
            CountOf(Bumped(st.ranged, k), k) == CountOf(st.ranged, k) + 1 && Bumped(st.ranged, k).Keys <= RangeHashes(calls, hash)
  {
    hide Roomy, Exact, Bumped, RangeHashes, WrittenFrom, PathKey;
    ExactSized(calls, hash, depth, i + 1, st, i);
    RoomySizes(calls, hash, i);
    RoomyAt(calls, hash, i, i);
    BumpedExact(st.ranged, hash(PathKey(calls[i])), RangeHashes(calls, hash));
  }

  /** A counter that has not wrapped, against the depth. */
  lemma CounterTells(m: map<int, nat>, h: int, n: nat, depth: nat)
    requires CountOf(m, h) == n && depth > 0 && n < BYTE
    ensures Reaches(m, h, depth) <==> n >= depth
    ensures n + 1 < BYTE ==> (Exceeds(m, h, depth) <==> n >= depth)
  {
  }

  /** What the lookups for call i tell. */
  lemma Lookups(calls: seq<Call>, hash: Hash, depth: nat, i: nat, st: Seen)
    requires i < |calls| && depth > 0 && Roomy(calls, hash) && Exact(calls, hash, depth, i + 1, st)
    ensures var c := calls[i];
            var b, k, w := hash(c.base), hash(PathKey(c)), WrittenFrom(calls, i + 1, c.base);
            && (b in st.writes <==> w)
            && (!w ==> (Reaches(st.full, b, depth) <==> FullReads(calls, i + 1, c.base) >= depth))
            && (!w && FullRead(c) ==>
                 (Exceeds(st.full, b, depth) <==> FullReads(calls, i + 1, c.base) >= depth))
            && (!w && RangeRead(c) && FullReads(calls, i + 1, c.base) < depth ==>
                 (Exceeds(st.ranged, k, depth) <==> RangeReads(calls, i + 1, PathKey(c)) >= depth))
            && (c.base == PathKey(c) <==> !Ranged(c))
  {
    var c := calls[i];
    var w, full, ranged := WrittenFrom(calls, i + 1, c.base), FullReads(calls, i + 1, c.base), RangeReads(calls, i + 1, PathKey(c));
    hide Roomy, Exact, ExactAt, WrittenFrom, PathKey, Sized, CountOf, FullReads, RangeReads, Reaches, Exceeds;
    LookupAt(calls, hash, depth, i, st);
    if !w {
      CounterTells(st.full, hash(c.base), full, depth);
      if RangeRead(c) && full < depth { CounterTells(st.ranged, hash(PathKey(c)), ranged, depth); }
    }
  }

  lemma LookupAt(calls: seq<Call>, hash: Hash, depth: nat, i: nat, st: Seen)
    requires i < |calls| && depth > 0 && Roomy(calls, hash) && Exact(calls, hash, depth, i + 1, st)
    ensures var c := calls[i];
            var b, k, w := hash(c.base), hash(PathKey(c)), WrittenFrom(calls, i + 1, c.base);
            var full, ranged := FullReads(calls, i + 1, c.base), RangeReads(calls, i + 1, PathKey(c));
            && (b in st.writes <==> w)
            && (!w ==> CountOf(st.full, b) == full)
            && (!w && RangeRead(c) && full < depth ==> CountOf(st.ranged, k) == ranged)
            && full < BYTE && ranged < BYTE && (FullRead(c) ==> full + 1 < BYTE) && (RangeRead(c) ==> ranged + 1 < BYTE)
            && (c.base == PathKey(c) <==> !Ranged(c))
  {
    hide Roomy, Exact, WrittenFrom, PathKey, Sized, CountOf;
    ExactSized(calls, hash, depth, i + 1, st, i);
    RoomyAt(calls, hash, i, i);
    RoomyAt(calls, hash, i + 1, i);
    KeyTells(calls[i], calls[i]);
    CountHere(calls, i);
    hide FullReads, RangeReads;
  }

  /** One turn on a table state that is exact, with what the branches test said in terms of the calls. */
  lemma ExactStepIs(calls: seq<Call>, hash: Hash, depth: nat, i: nat, st: Seen)
    requires i < |calls| && depth > 0 && Roomy(calls, hash) && Exact(calls, hash, depth, i + 1, st)
    ensures var c := calls[i];
            var b, k, t := hash(c.base), hash(PathKey(c)), Step(st, c, i, hash, depth);
            && (c.isWrite ==> t == st.(writes := if b in st.writes then st.writes else Bumped(st.writes, b)))
            && (!c.isWrite && !c.isRead ==> t == st)
            && (FullRead(c) && !WrittenFrom(calls, i + 1, c.base) ==> t.writes == st.writes && t.full == Bumped(st.full, b) && t.ranged == st.ranged)
            && (RangeRead(c) && !WrittenFrom(calls, i + 1, c.base) && FullReads(calls, i + 1, c.base) < depth ==>
                 t.writes == st.writes && t.full == st.full && t.ranged == Bumped(st.ranged, k))
            && (c.isRead && !c.isWrite && WrittenFrom(calls, i + 1, c.base) ==> t == st.(stale := st.stale + {i}))
            && (RangeRead(c) && FullReads(calls, i + 1, c.base) >= depth ==> t == st.(stale := st.stale + {i}))
            && t.stale == if Superseded(calls, depth, i) then st.stale + {i} else st.stale
  {
    hide Roomy, Exact, Bumped, WrittenFrom, PathKey, Step, FullReads, RangeReads, Reaches, Exceeds;
    Lookups(calls, hash, depth, i, st);
    StepIs(st, calls[i], i, hash, depth);
  }

  lemma CountHere(calls: seq<Call>, i: nat)
    requires i < |calls|
    ensures var c := calls[i];
            && FullReads(calls, i, c.base) == FullReads(calls, i + 1, c.base) + (if FullRead(c) then 1 else 0)
            && RangeReads(calls, i, PathKey(c)) == RangeReads(calls, i + 1, PathKey(c)) + (if RangeRead(c) then 1 else 0)
  {
    hide PathKey;
  }

  lemma ExactWrites(calls: seq<Call>, hash: Hash, depth: nat, i: nat, st: Seen, j: nat)
    requires i < |calls| && j < |calls| && depth > 0 && NoCollision(calls, hash) && Roomy(calls, hash)
    requires Exact(calls, hash, depth, i + 1, st)
    ensures hash(calls[j].base) in Step(st, calls[i], i, hash, depth).writes <==> WrittenFrom(calls, i, calls[j].base)
  {
    hide Roomy, Exact, Bumped, WrittenFrom, PathKey, Step, Sized, FullReads, RangeReads;
    ExactSized(calls, hash, depth, i + 1, st, j);
    StepIs(st, calls[i], i, hash, depth);
    WrittenStep(calls, i, calls[j].base);
    WrittenKept(st.writes, hash(calls[i].base), hash(calls[j].base));
    if calls[i].isWrite { BumpWrite(calls, hash, depth, i, st); }
    BumpedCount(st.writes, hash(calls[i].base), hash(calls[j].base));
  }

  lemma WrittenKept(m: map<int, nat>, h: int, k: int)
    ensures k in m ==> k in Bumped(m, h)
  {
  }

  lemma ExactFull(calls: seq<Call>, hash: Hash, depth: nat, i: nat, st: Seen, j: nat)
    requires i < |calls| && j < |calls| && depth > 0 && NoCollision(calls, hash) && Roomy(calls, hash)
    requires Exact(calls, hash, depth, i + 1, st) && !WrittenFrom(calls, i, calls[j].base)
    ensures CountOf(Step(st, calls[i], i, hash, depth).full, hash(calls[j].base)) == FullReads(calls, i, calls[j].base)
  {
    hide Roomy, Exact, Bumped, WrittenFrom, PathKey, Step, Sized, RangeReads, Superseded;
    var c, b := calls[i], calls[j].base;
    ExactSized(calls, hash, depth, i + 1, st, j);
    ExactStepIs(calls, hash, depth, i, st);
    WrittenStep(calls, i, b);
    KeyTells(c, c);
    StepIs(st, c, i, hash, depth);
    if FullRead(c) && !WrittenFrom(calls, i + 1, c.base) { BumpFull(calls, hash, depth, i, st); }
    BumpedCount(st.full, hash(c.base), hash(b));
  }

  lemma ExactRanged(calls: seq<Call>, hash: Hash, depth: nat, i: nat, st: Seen, j: nat)
    requires i < |calls| && j < |calls| && depth > 0 && NoCollision(calls, hash) && Roomy(calls, hash)
    requires Exact(calls, hash, depth, i + 1, st) && RangeRead(calls[j]) && !WrittenFrom(calls, i, calls[j].base)
    requires FullReads(calls, i, calls[j].base) < depth
    ensures CountOf(Step(st, calls[i], i, hash, depth).ranged, hash(PathKey(calls[j]))) == RangeReads(calls, i, PathKey(calls[j]))
  {
    hide Roomy, Exact, Bumped, WrittenFrom, PathKey, Step, Sized, Superseded;
    var c, k := calls[i], PathKey(calls[j]);
    ExactSized(calls, hash, depth, i + 1, st, j);
    ExactStepIs(calls, hash, depth, i, st);
    WrittenStep(calls, i, calls[j].base);
    KeyTells(c, calls[j]);
    KeyTells(c, c);
    StepIs(st, c, i, hash, depth);
    if RangeRead(c) && !WrittenFrom(calls, i + 1, c.base) && FullReads(calls, i + 1, c.base) < depth {
      BumpRanged(calls, hash, depth, i, st);
    }
    BumpedCount(st.ranged, hash(PathKey(c)), hash(k));
  }

  lemma ExactSizes(calls: seq<Call>, hash: Hash, depth: nat, i: nat, st: Seen)
    requires i < |calls| && depth > 0 && Roomy(calls, hash) && Exact(calls, hash, depth, i + 1, st)
    ensures Sized(calls, hash, Step(st, calls[i], i, hash, depth))
  {
    hide Roomy, Exact, Bumped, WrittenFrom, PathKey, Step, WriteHashes, FullHashes, RangeHashes, Superseded;
    ExactSized(calls, hash, depth, i + 1, st, i);
    ExactStepIs(calls, hash, depth, i, st);
    var c := calls[i];
    if c.isWrite {
      BumpWrite(calls, hash, depth, i, st);
    } else if FullRead(c) && !WrittenFrom(calls, i + 1, c.base) {
      BumpFull(calls, hash, depth, i, st);
    } else if RangeRead(c) && !WrittenFrom(calls, i + 1, c.base) && FullReads(calls, i + 1, c.base) < depth {
      BumpRanged(calls, hash, depth, i, st);
    }
  }

  lemma ExactStep(calls: seq<Call>, hash: Hash, depth: nat, i: nat, st: Seen)
    requires i < |calls| && depth > 0 && NoCollision(calls, hash) && Roomy(calls, hash) && Exact(calls, hash, depth, i + 1, st)
    ensures Exact(calls, hash, depth, i, Step(st, calls[i], i, hash, depth))
  {
    var t := Step(st, calls[i], i, hash, depth);
    ExactSizes(calls, hash, depth, i, st);
    hide Roomy, Bumped, WrittenFrom, PathKey, Step, Sized, NoCollision, FullReads, RangeReads;
    forall j: nat | j < |calls| ensures ExactAt(calls, hash, depth, i, t, j) {
      ExactWrites(calls, hash, depth, i, st, j);
      if !WrittenFrom(calls, i, calls[j].base) {
        ExactFull(calls, hash, depth, i, st, j);
        if RangeRead(calls[j]) && FullReads(calls, i, calls[j].base) < depth {
          ExactRanged(calls, hash, depth, i, st, j);
        }
      }
    }
  }

  lemma ExactEnd(calls: seq<Call>, hash: Hash, depth: nat)
    ensures Exact(calls, hash, depth, |calls|, Seen(map[], map[], map[], {}))
  {
  }

  lemma {:induction false} ExactFrom(calls: seq<Call>, hash: Hash, depth: nat, i: nat)
    requires i <= |calls| && depth > 0 && NoCollision(calls, hash) && Roomy(calls, hash)
    ensures Exact(calls, hash, depth, i, Scan(calls, hash, depth, i))
    ensures forall j | i <= j < |calls| :: j in Scan(calls, hash, depth, i).stale <==> Superseded(calls, depth, j)
    ensures forall j | j in Scan(calls, hash, depth, i).stale :: i <= j < |calls|
    decreases |calls| - i
  {
    hide Step, Roomy, NoCollision, Superseded, Exact;
    if i == |calls| {
      ExactEnd(calls, hash, depth);
    } else {
      ExactFrom(calls, hash, depth, i + 1);
      var st := Scan(calls, hash, depth, i + 1);
      assert Scan(calls, hash, depth, i) == Step(st, calls[i], i, hash, depth);
      hide Scan;
      ExactStep(calls, hash, depth, i, st);
      ExactStepIs(calls, hash, depth, i, st);
    }
  }

  /** While no table fills and no counter wraps, exactly the superseded reads are marked. */
  lemma MarkedIffSuperseded(calls: seq<Call>, hash: Hash, depth: nat)
    requires depth > 0 && NoCollision(calls, hash) && Roomy(calls, hash)
    ensures forall i | 0 <= i < |calls| :: i in Scan(calls, hash, depth, 0).stale <==> Superseded(calls, depth, i)
  {
    ExactFrom(calls, hash, depth, 0);
  }
}
