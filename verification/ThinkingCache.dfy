/**
 The bounded cache of thinking blocks: thinkingBlockCache of pkg/provider/anthropic.go, a ring of
 keys beside a map, against an ordered list of pairs.
 */
module ThinkingCache {
  import opened Wrappers

  /** cachedThinkingBlock; other types are stored and skipped when blocks are written. */
  datatype Cached = CachedThinking(thinking: string, signature: string) | CachedRedacted(data: string) | CachedOther

  const CAPACITY: nat := 256

  // ---------------------------------------------------------------- the list

  type Entry = (string, seq<Cached>)

  function IndexOf(list: seq<Entry>, id: string): (r: nat)
    ensures r <= |list| && (r < |list| ==> list[r].0 == id)
    ensures forall i | 0 <= i < r :: list[i].0 != id
  {
    if list == [] || list[0].0 == id then 0
    else
      var r := IndexOf(list[1..], id);
      assert forall i | 0 < i <= r && i < |list| :: list[i] == list[1..][i - 1];
      r + 1
  }

  /** What a put does to the list, oldest first. */
  function PutInto(list: seq<Entry>, id: string, blocks: seq<Cached>): seq<Entry> {
    if id == "" || blocks == [] then list
    else
      var i := IndexOf(list, id);
      if i < |list| then list[i := (id, blocks)]
      else if |list| == CAPACITY then list[1..] + [(id, blocks)]
      else list + [(id, blocks)]
  }

  ghost predicate Distinct(list: seq<Entry>) {
    forall i, j | 0 <= i < j < |list| :: list[i].0 != list[j].0
  }

  ghost predicate Sound(list: seq<Entry>) {
    |list| <= CAPACITY && Distinct(list) && forall i | 0 <= i < |list| :: list[i].0 != "" && list[i].1 != []
  }

  lemma PutSound(list: seq<Entry>, id: string, blocks: seq<Cached>)
    requires Sound(list)
    ensures Sound(PutInto(list, id, blocks))
  {
  }

  /** Putting a key again changes its blocks and leaves every key where it was. */
  lemma PutAgainKeepsAge(list: seq<Entry>, id: string, blocks: seq<Cached>, i: nat)
    requires Sound(list) && i < |list| && list[i].0 == id && blocks != []
    ensures PutInto(list, id, blocks) == list[i := (id, blocks)]
  {
    assert IndexOf(list, id) == i;
  }

  // ---------------------------------------------------------------- runs

  datatype Put = Put(id: string, blocks: seq<Cached>)

  /** The list after the puts, and the keys in the order in which they were inserted. */
  function Puts(ops: seq<Put>): (seq<Entry>, seq<string>) {
    if ops == [] then ([], [])
    else
      var n := |ops| - 1;
      var (list, log) := Puts(ops[..n]);
      var op := ops[n];
      (PutInto(list, op.id, op.blocks),
       if op.id == "" || op.blocks == [] || IndexOf(list, op.id) < |list| then log else log + [op.id])
  }

  function Keys(list: seq<Entry>): (r: seq<string>)
    ensures |r| == |list|
  {
    seq(|list|, i requires 0 <= i < |list| => list[i].0)
  }

  /** The cache holds exactly the latest insertions, at most 256 of them: eviction takes the oldest. */
  lemma {:induction false} HoldsLatest(ops: seq<Put>)
    ensures var (list, log) := Puts(ops);
            && Sound(list)
            && |list| == (if |log| < CAPACITY then |log| else CAPACITY)
            && Keys(list) == log[|log| - |list|..]
  {
    if ops != [] {
      var n := |ops| - 1;
      HoldsLatest(ops[..n]);
      var (list, log) := Puts(ops[..n]);
      var op := ops[n];
      PutSound(list, op.id, op.blocks);
      LatestStep(list, log, op);
    }
  }

  lemma LatestStep(list: seq<Entry>, log: seq<string>, op: Put)
    requires |list| == (if |log| < CAPACITY then |log| else CAPACITY) && Keys(list) == log[|log| - |list|..]
    ensures var list' := PutInto(list, op.id, op.blocks);
            var log' := if op.id == "" || op.blocks == [] || IndexOf(list, op.id) < |list| then log else log + [op.id];
            |list'| == (if |log'| < CAPACITY then |log'| else CAPACITY) && Keys(list') == log'[|log'| - |list'|..]
  {
    KeysPut(list, op.id, op.blocks);
    hide Keys, PutInto, IndexOf;
    if op.id != "" && op.blocks != [] && IndexOf(list, op.id) == |list| {
      Suffix(log, |list|, op.id);
    }
  }

  lemma KeysPut(list: seq<Entry>, id: string, blocks: seq<Cached>)
    ensures var list' := PutInto(list, id, blocks);
            if id == "" || blocks == [] || IndexOf(list, id) < |list| then Keys(list') == Keys(list) && |list'| == |list|
            else if |list| == CAPACITY then Keys(list') == Keys(list)[1..] + [id] && |list'| == |list|
            else Keys(list') == Keys(list) + [id] && |list'| == |list| + 1
  {
    hide IndexOf;
  }

  lemma Suffix(log: seq<string>, n: nat, id: string)
    requires n <= |log|
    ensures (log + [id])[|log| - n..] == log[|log| - n..] + [id]
    ensures n > 0 ==> (log + [id])[|log| + 1 - n..] == log[|log| - n..][1..] + [id]
  {
  }

  // ---------------------------------------------------------------- ring and map

  /** The slot of the entry of age i. */
  function Slot(head: nat, i: nat): (r: nat)
    requires head < CAPACITY && i <= CAPACITY
    ensures r < CAPACITY && r == (head + i) % CAPACITY
  {
    if head + i < CAPACITY then head + i else head + i - CAPACITY
  }

  ghost predicate HasKey(list: seq<Entry>, k: string) {
    exists i :: 0 <= i < |list| && list[i].0 == k
  }

  /** The ring lists the keys of the map in the order of the list. */
  ghost predicate Holds(list: seq<Entry>, order: seq<string>, head: nat, entries: map<string, seq<Cached>>) {
    && |order| == CAPACITY && head < CAPACITY && |list| <= CAPACITY && Distinct(list)
    && (forall i | 0 <= i < |list| :: order[Slot(head, i)] == list[i].0)
    && (forall i | 0 <= i < |list| :: list[i].0 in entries && entries[list[i].0] == list[i].1)
    && (forall k | k in entries :: HasKey(list, k))
  }

  lemma HoldsKey(list: seq<Entry>, order: seq<string>, head: nat, entries: map<string, seq<Cached>>, k: string)
    requires Holds(list, order, head, entries)
    ensures k in entries <==> IndexOf(list, k) < |list|
  {
    if k in entries { assert HasKey(list, k); }
  }

  lemma HoldsReplace(list: seq<Entry>, order: seq<string>, head: nat, entries: map<string, seq<Cached>>, i: nat, b: seq<Cached>)
    requires Holds(list, order, head, entries) && i < |list|
    ensures Holds(list[i := (list[i].0, b)], order, head, entries[list[i].0 := b])
  {
    var list' := list[i := (list[i].0, b)];
    forall k | k in entries ensures HasKey(list', k) {
      var j :| 0 <= j < |list| && list[j].0 == k;
      assert list'[j].0 == k;
    }
  }

  lemma HoldsAppend(list: seq<Entry>, order: seq<string>, head: nat, entries: map<string, seq<Cached>>, id: string, b: seq<Cached>)
    requires Holds(list, order, head, entries) && |list| < CAPACITY && id !in entries
    ensures Holds(list + [(id, b)], order[Slot(head, |list|) := id], head, entries[id := b])
  {
    var list' := list + [(id, b)];
    assert list'[|list|].0 == id;
    forall k | k in entries ensures HasKey(list', k) {
      var j :| 0 <= j < |list| && list[j].0 == k;
      assert list'[j].0 == k;
    }
  }

  /** Turning the ring by one: the freed slot is the last one. */
  lemma SlotTurned(head: nat, i: nat)
    requires head < CAPACITY && i < CAPACITY
    ensures Slot(head, 0) == head
    ensures Slot(Slot(head, 1), i) == if i + 1 < CAPACITY then Slot(head, i + 1) else head
    ensures i > 0 ==> Slot(head, i) != head
  {
  }

  lemma EvictOrder(list: seq<Entry>, order: seq<string>, head: nat, e: Entry)
    requires |order| == CAPACITY == |list| && head < CAPACITY && forall i | 0 <= i < |list| :: order[Slot(head, i)] == list[i].0
    ensures forall i | 0 <= i < |list| :: order[head := e.0][Slot(Slot(head, 1), i)] == (list[1..] + [e])[i].0
  {
    hide Slot;
    forall i | 0 <= i < |list| ensures order[head := e.0][Slot(Slot(head, 1), i)] == (list[1..] + [e])[i].0 {
      SlotTurned(head, i);
      if i + 1 < CAPACITY {
        SlotTurned(head, i + 1);
        assert (list[1..] + [e])[i] == list[i + 1];
      }
    }
  }

  lemma EvictDistinct(list: seq<Entry>, e: Entry)
    requires Distinct(list) && list != [] && !HasKey(list, e.0)
    ensures Distinct(list[1..] + [e])
  {
    var l := list[1..] + [e];
    forall i, j | 0 <= i < j < |l| ensures l[i].0 != l[j].0 {
      assert l[i] == list[i + 1];
      assert j < |list| - 1 ==> l[j] == list[j + 1];
    }
  }

  lemma EvictEntries(list: seq<Entry>, entries: map<string, seq<Cached>>, e: Entry)
    requires Distinct(list) && list != [] && !HasKey(list, e.0)
    requires forall i | 0 <= i < |list| :: list[i].0 in entries && entries[list[i].0] == list[i].1
    ensures var l, m := list[1..] + [e], (entries - {list[0].0})[e.0 := e.1];
            forall i | 0 <= i < |l| :: l[i].0 in m && m[l[i].0] == l[i].1
  {
    var l, m := list[1..] + [e], (entries - {list[0].0})[e.0 := e.1];
    forall i | 0 <= i < |l| ensures l[i].0 in m && m[l[i].0] == l[i].1 {
      if i < |list| - 1 {
        assert l[i] == list[i + 1];
        assert list[0].0 != list[i + 1].0;
        assert list[i + 1].0 != e.0;
      }
    }
  }

  lemma EvictKeys(list: seq<Entry>, entries: map<string, seq<Cached>>, e: Entry)
    requires list != [] && forall k | k in entries :: HasKey(list, k)
    ensures forall k | k in (entries - {list[0].0})[e.0 := e.1] :: HasKey(list[1..] + [e], k)
  {
    var l := list[1..] + [e];
    assert l[|list| - 1].0 == e.0;
    forall k | k in entries && k != list[0].0 ensures HasKey(l, k) {
      var j :| 0 <= j < |list| && list[j].0 == k;
      assert l[j - 1].0 == k;
    }
  }

  lemma HoldsEvict(list: seq<Entry>, order: seq<string>, head: nat, entries: map<string, seq<Cached>>, id: string, b: seq<Cached>)
    requires Holds(list, order, head, entries) && |list| == CAPACITY && id !in entries
    ensures list[0].0 == order[head]
    ensures Holds(list[1..] + [(id, b)], order[head := id], Slot(head, 1), (entries - {order[head]})[id := b])
  {
    hide Slot, Distinct;
    var e := (id, b);
    assert !HasKey(list, id);
    hide HasKey;
    SlotTurned(head, 0);
    EvictOrder(list, order, head, e);
    EvictDistinct(list, e);
    EvictEntries(list, entries, e);
    EvictKeys(list, entries, e);
  }

  class ThinkingBlockCache {
    var entries: map<string, seq<Cached>>
    const order: array<string>
    var head: nat
    var count: nat
    ghost var contents: seq<Entry>

    ghost predicate Valid()
      reads this, order
    {
      count == |contents| && Holds(contents, order[..], head, entries)
    }

    constructor ()
      ensures Valid() && fresh(order) && contents == []
    {
      entries := map[];
      order := new string[CAPACITY](i => "");
      head, count := 0, 0;
      contents := [];
    }

    method Put(toolUseID: string, blocks: seq<Cached>)
      requires Valid()
      modifies this, order
      ensures Valid() && contents == PutInto(old(contents), toolUseID, blocks)
    {
      hide Holds, IndexOf;
      if toolUseID == "" || |blocks| == 0 { return; }
      HoldsKey(contents, order[..], head, entries, toolUseID);
      ghost var i := IndexOf(contents, toolUseID);
      HoldsSize(contents, order[..], head, entries);
      if toolUseID in entries {
        HoldsReplace(contents, order[..], head, entries, i, blocks);
        entries := entries[toolUseID := blocks];
        contents := contents[i := (toolUseID, blocks)];
        return;
      }
      ghost var ring := order[..];
      if count == CAPACITY {
        HoldsEvict(contents, ring, head, entries, toolUseID, blocks);
        var oldest := order[head];
        entries := entries - {oldest};
        order[head] := toolUseID;
        assert order[..] == ring[head := toolUseID];
        head := (head + 1) % CAPACITY;
        contents := contents[1..] + [(toolUseID, blocks)];
      } else {
        HoldsAppend(contents, ring, head, entries, toolUseID, blocks);
        var idx := (head + count) % CAPACITY;
        order[idx] := toolUseID;
        assert order[..] == ring[Slot(head, count) := toolUseID];
        count := count + 1;
        contents := contents + [(toolUseID, blocks)];
      }
      entries := entries[toolUseID := blocks];
    }

    method Get(toolUseID: string) returns (r: Option<seq<Cached>>)
      requires Valid()
      ensures var i := IndexOf(contents, toolUseID);
              r == if toolUseID != "" && i < |contents| then Some(contents[i].1) else None
    {
      HoldsKey(contents, order[..], head, entries, toolUseID);
      if toolUseID == "" || toolUseID !in entries { return None; }
      return Some(entries[toolUseID]);
    }

    method Len() returns (n: nat)
      requires Valid()
      ensures n == |contents| <= CAPACITY
    {
      return count;
    }
  }

  lemma HoldsSize(list: seq<Entry>, order: seq<string>, head: nat, entries: map<string, seq<Cached>>)
    requires Holds(list, order, head, entries)
    ensures |list| <= CAPACITY && |order| == CAPACITY && head < CAPACITY
    ensures forall i | 0 <= i < |list| :: order[Slot(head, i)] == list[i].0
  {
  }
}
