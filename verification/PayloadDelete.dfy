/**
 Deleting members with the right comma: deleteMemberSpan and coalesceDeleteSpans of
 pkg/server/dispatch.go.
 */
module PayloadDelete {
  import opened Json
  import opened ObjectEdit
  import opened PayloadScan
  import opened PayloadSpec

  // ---------------------------------------------------------------- one span

  method DeleteMemberSpan(body: string, kStart: nat, vEnd: nat, startObj: nat, closeObj: nat,
                          ghost f: Frame, ghost k: nat, ghost j: nat)
    returns (s: nat, e: nat)
    requires startObj < kStart <= vEnd <= closeObj <= |body|
    ensures startObj < s <= kStart && vEnd <= e <= closeObj
    ensures DropsRun(body, f, k, j, kStart, vEnd, startObj, closeObj) ==> Edit(s, e, "") == DropEdit(f, k, j)
  {
    ghost var here := DropsRun(body, f, k, j, kStart, vEnd, startObj, closeObj);
    hide *;
    var p := kStart - 1;
    while p > startObj && IsWs(body[p])
      invariant startObj <= p < kStart
      invariant forall q | p < q < kStart :: IsWs(body[q])
    {
      p := p - 1;
    }
    if here { LeftEnd(body, f, k, j, kStart, vEnd, startObj, closeObj, p); }
    if p > startObj && body[p] == ',' {
      return p, vEnd;
    }
    var n := SkipSpaces(body, vEnd, closeObj);
    if here { RightEnd(body, f, k, j, kStart, vEnd, startObj, closeObj, n); }
    if n < closeObj && body[n] == ',' {
      return kStart, n + 1;
    }
    return kStart, vEnd;
  }

  /** The arguments belong to the members k..j-1 of the object. */
  ghost predicate DropsRun(b: string, f: Frame, k: nat, j: nat, kStart: nat, vEnd: nat, startObj: nat, closeObj: nat) {
    && Holds(b, f) && k < j <= |f.members|
    && kStart == f.KeyPos(k) && vEnd == f.EndPos(j - 1) && startObj == |f.head|
    && f.ClosePos() <= closeObj <= f.ClosePos() + 1
  }

  lemma LeftEnd(b: string, f: Frame, k: nat, j: nat, kStart: nat, vEnd: nat, startObj: nat, closeObj: nat, p: nat)
    requires DropsRun(b, f, k, j, kStart, vEnd, startObj, closeObj)
    requires startObj <= p < kStart <= |b| && (forall q | p < q < kStart :: IsWs(b[q]))
    requires p > startObj ==> !IsWs(b[p])
    ensures k > 0 ==> p > startObj && b[p] == ',' && Edit(p, vEnd, "") == DropEdit(f, k, j)
    ensures k == 0 ==> p == startObj
  {
    GapBefore(b, f, k);
    if k > 0 {
      GapAfter(b, f, k);
      hide Holds, Frame.KeyPos, Frame.EndPos, Frame.StartPos, Frame.ClosePos;
      var c := f.StartPos(k) - 1;
      assert !IsWs(b[c]);
      assert p >= c;
    } else {
      hide Holds, Frame.KeyPos, Frame.EndPos, Frame.StartPos, Frame.ClosePos;
    }
  }

  lemma RunRight(b: string, f: Frame, j: nat)
    requires Holds(b, f) && 0 < j <= |f.members|
    ensures 0 < f.EndPos(j - 1) < f.StartPos(j) <= |b| && Spaces(b, f.EndPos(j - 1), f.StartPos(j) - 1)
    ensures f.StartPos(j) - 1 <= f.ClosePos()
    ensures j < |f.members| ==> b[f.StartPos(j) - 1] == ',' && f.StartPos(j) - 1 < f.ClosePos()
    ensures j == |f.members| ==> b[f.StartPos(j) - 1] == '}' && f.StartPos(j) - 1 == f.ClosePos()
  {
    GapAfter(b, f, j);
    PosMonotone(f, 0, j - 1);
    if j < |f.members| {
      GapBefore(b, f, j);
    } else {
      GapEnd(f);
    }
  }

  lemma RightEnd(b: string, f: Frame, k: nat, j: nat, kStart: nat, vEnd: nat, startObj: nat, closeObj: nat, n: nat)
    requires DropsRun(b, f, k, j, kStart, vEnd, startObj, closeObj) && k == 0
    requires vEnd <= n <= |b| && closeObj <= |b| && (n == vEnd || n <= closeObj)
    requires (forall q | vEnd <= q < n :: IsWs(b[q])) && (n < closeObj ==> !IsWs(b[n]))
    ensures Edit(kStart, if n < closeObj && b[n] == ',' then n + 1 else vEnd, "") == DropEdit(f, k, j)
  {
    RunRight(b, f, j);
    hide Holds, Frame.KeyPos, Frame.EndPos, Frame.StartPos, Frame.ClosePos;
    var c := f.StartPos(j) - 1;
    assert !IsWs(b[c]);
    assert n <= c;
  }

  // ---------------------------------------------------------------- sorting spans

  ghost predicate Distinct(idx: seq<nat>) {
    forall x, y | 0 <= x < |idx| && 0 <= y < |idx| && x != y :: idx[x] != idx[y]
  }

  ghost predicate Increasing(idx: seq<nat>) {
    forall x, y | 0 <= x < y < |idx| :: idx[x] < idx[y]
  }

  ghost predicate SameSet(a: seq<nat>, b: seq<nat>) {
    |a| == |b| && forall i :: i in a <==> i in b
  }

  ghost function Swap(idx: seq<nat>, b: nat): seq<nat>
    requires 0 < b < |idx|
  {
    idx[b := idx[b - 1]][b - 1 := idx[b]]
  }

  /** idx[..a+1] is increasing except that its element b is still on its way to the left. */
  ghost predicate Inserting(idx: seq<nat>, a: nat, b: nat) {
    && b <= a < |idx|
    && (forall x, y | 0 <= x < y <= a && x != b && y != b :: idx[x] < idx[y])
    && (forall y | b < y <= a :: idx[b] < idx[y])
  }

  lemma SwapOk(idx: seq<nat>, idx0: seq<nat>, a: nat, b: nat)
    requires 0 < b && Inserting(idx, a, b) && idx[b] < idx[b - 1] && Distinct(idx) && SameSet(idx, idx0)
    ensures Inserting(Swap(idx, b), a, b - 1) && Distinct(Swap(idx, b)) && SameSet(Swap(idx, b), idx0)
  {
    var s := Swap(idx, b);
    SwapSet(idx, b);
    forall x, y | 0 <= x < y <= a && x != b - 1 && y != b - 1 ensures s[x] < s[y] {
      assert s[x] == (if x == b then idx[b - 1] else idx[x]);
      assert s[y] == (if y == b then idx[b - 1] else idx[y]);
    }
  }

  lemma SwapSet(idx: seq<nat>, b: nat)
    requires 0 < b < |idx|
    ensures SameSet(Swap(idx, b), idx)
  {
    var s := Swap(idx, b);
    forall i ensures i in s <==> i in idx {
      if i in idx {
        var x :| 0 <= x < |idx| && idx[x] == i;
        assert s[if x == b then b - 1 else if x == b - 1 then b else x] == i;
      }
      if i in s {
        var x :| 0 <= x < |s| && s[x] == i;
        assert idx[if x == b then b - 1 else if x == b - 1 then b else x] == i;
      }
    }
  }

  lemma InsertDone(idx: seq<nat>, a: nat, b: nat)
    requires Inserting(idx, a, b) && Distinct(idx) && (b == 0 || idx[b] >= idx[b - 1])
    ensures Increasing(idx[..a + 1])
  {
    forall x, y | 0 <= x < y <= a ensures idx[x] < idx[y] {
      if y == b {
        assert idx[b - 1] < idx[b];
        assert x < b - 1 ==> idx[x] < idx[b - 1];
      }
    }
  }

  lemma InsertStart(idx: seq<nat>, a: nat)
    requires a < |idx| && Increasing(idx[..a])
    ensures Inserting(idx, a, a)
  {
    forall x, y | 0 <= x < y < a ensures idx[x] < idx[y] {
      assert idx[..a][x] < idx[..a][y];
    }
  }

  lemma KeyOrder(f: Frame, i: nat, j: nat)
    requires i < |f.members| && j < |f.members|
    ensures f.KeyPos(i) < f.KeyPos(j) <==> i < j
  {
    if i < j { PosMonotone(f, i, j); } else { PosMonotone(f, j, i); }
  }

  ghost predicate SpansIn(spans: seq<Span>, lo: nat, hi: nat) {
    forall x | 0 <= x < |spans| :: lo < spans[x].kStart <= spans[x].vEnd <= hi
  }

  /** The insertion sort of coalesceDeleteSpans. */
  method SortSpans(spans: array<Span>, lo: nat, hi: nat, ghost f: Frame, ghost idx0: seq<nat>) returns (ghost idx: seq<nat>)
    requires SpansIn(spans[..], lo, hi)
    modifies spans
    ensures SpansIn(spans[..], lo, hi)
    ensures SpansAre(f, idx0, old(spans[..])) && Distinct(idx0) ==>
              SpansAre(f, idx, spans[..]) && SameSet(idx, idx0) && Increasing(idx)
  {
    ghost var here := SpansAre(f, idx0, spans[..]) && Distinct(idx0);
    hide SpanAt;
    idx := idx0;
    var a := 1;
    while a < spans.Length
      invariant a >= 1 && SpansIn(spans[..], lo, hi)
      invariant here ==> SpansAre(f, idx, spans[..]) && SameSet(idx, idx0) && Distinct(idx)
      invariant here ==> Increasing(idx[..if a <= |idx| then a else |idx|])
    {
      if here { InsertStart(idx, a); }
      idx := SinkSpan(spans, a, lo, hi, f, idx, idx0, here);
      a := a + 1;
    }
    assert here ==> idx[..if a <= |idx| then a else |idx|] == idx;
  }

  /** The inner loop: the span at `a` sinks to its place. */
  method SinkSpan(spans: array<Span>, a: nat, lo: nat, hi: nat, ghost f: Frame, ghost idx1: seq<nat>, ghost idx0: seq<nat>,
                  ghost here: bool)
    returns (ghost idx: seq<nat>)
    requires a < spans.Length && SpansIn(spans[..], lo, hi)
    requires here ==> SpansAre(f, idx1, spans[..]) && SameSet(idx1, idx0) && Distinct(idx1) && Inserting(idx1, a, a)
    modifies spans
    ensures SpansIn(spans[..], lo, hi)
    ensures here ==> SpansAre(f, idx, spans[..]) && SameSet(idx, idx0) && Distinct(idx) && Increasing(idx[..a + 1])
  {
    hide SpanAt;
    idx := idx1;
    var b := a;
    while b > 0 && spans[b].kStart < spans[b - 1].kStart
      invariant 0 <= b <= a && SpansIn(spans[..], lo, hi)
      invariant here ==> SpansAre(f, idx, spans[..]) && SameSet(idx, idx0) && Distinct(idx) && Inserting(idx, a, b)
    {
      if here {
        SpanOrder(f, idx, spans[..], b);
        SwapOk(idx, idx0, a, b);
        SwapSpans(f, idx, spans[..], b);
        idx := Swap(idx, b);
      }
      ghost var was := spans[..];
      spans[b], spans[b - 1] := spans[b - 1], spans[b];
      assert spans[..] == was[b := was[b - 1]][b - 1 := was[b]];
      b := b - 1;
    }
    if here {
      if b > 0 { SpanOrder(f, idx, spans[..], b); }
      InsertDone(idx, a, b);
    }
  }

  lemma SpanOrder(f: Frame, idx: seq<nat>, spans: seq<Span>, b: nat)
    requires SpansAre(f, idx, spans) && 0 < b < |idx|
    ensures spans[b].kStart < spans[b - 1].kStart <==> idx[b] < idx[b - 1]
  {
    KeyOrder(f, idx[b], idx[b - 1]);
  }

  lemma SwapSpans(f: Frame, idx: seq<nat>, spans: seq<Span>, b: nat)
    requires SpansAre(f, idx, spans) && 0 < b < |idx|
    ensures SpansAre(f, Swap(idx, b), spans[b := spans[b - 1]][b - 1 := spans[b]])
  {
    hide SpanAt;
  }

  // ---------------------------------------------------------------- merging neighbours

  ghost predicate InRuns(runs: seq<(nat, nat)>, i: nat) {
    exists x :: 0 <= x < |runs| && runs[x].0 <= i < runs[x].1
  }

  /** Non-empty runs with a gap between any two. */
  ghost predicate Separated(runs: seq<(nat, nat)>) {
    && (forall x | 0 <= x < |runs| :: runs[x].0 < runs[x].1)
    && (forall x, y | 0 <= x < y < |runs| :: runs[x].1 < runs[y].0)
  }

  /** The runs cover the first m indices and end with them. */
  ghost predicate Covers(idx: seq<nat>, m: nat, runs: seq<(nat, nat)>) {
    && 0 < m <= |idx| && runs != [] && Separated(runs)
    && runs[|runs| - 1].1 == idx[m - 1] + 1
    && (forall i: nat :: InRuns(runs, i) <==> i in idx[..m])
  }

  ghost predicate RunSpans(f: Frame, runs: seq<(nat, nat)>, spans: seq<Span>) {
    && |spans| >= |runs|
    && forall x | 0 <= x < |runs| :: runs[x].0 < runs[x].1 <= |f.members| &&
         spans[x].kStart == f.KeyPos(runs[x].0) && spans[x].vEnd == f.EndPos(runs[x].1 - 1)
  }

  ghost function Extend(runs: seq<(nat, nat)>): seq<(nat, nat)>
    requires runs != []
  {
    var l := |runs| - 1;
    runs[l := (runs[l].0, runs[l].1 + 1)]
  }

  lemma CoversFirst(idx: seq<nat>)
    requires idx != []
    ensures Covers(idx, 1, [(idx[0], idx[0] + 1)])
  {
    var runs := [(idx[0], idx[0] + 1)];
    forall i: nat ensures InRuns(runs, i) <==> i in idx[..1] {
      if i == idx[0] { assert runs[0].0 <= i < runs[0].1; }
    }
  }

  lemma CoversExtend(idx: seq<nat>, m: nat, runs: seq<(nat, nat)>)
    requires Covers(idx, m, runs) && m < |idx| && idx[m] == idx[m - 1] + 1
    ensures Covers(idx, m + 1, Extend(runs))
  {
    var l, r := |runs| - 1, Extend(runs);
    forall i: nat ensures InRuns(r, i) <==> i in idx[..m + 1] {
      TakeOne(idx, m, i);
      if InRuns(runs, i) {
        var x :| 0 <= x < |runs| && runs[x].0 <= i < runs[x].1;
        assert r[x].0 <= i < r[x].1;
      }
      if i == idx[m] { assert r[l].0 <= i < r[l].1; }
      if InRuns(r, i) && i != idx[m] {
        var x :| 0 <= x < |r| && r[x].0 <= i < r[x].1;
        assert runs[x].0 <= i < runs[x].1;
      }
    }
  }

  lemma TakeOne(idx: seq<nat>, m: nat, i: nat)
    requires m < |idx|
    ensures i in idx[..m + 1] <==> i in idx[..m] || i == idx[m]
  {
    assert idx[..m + 1] == idx[..m] + [idx[m]];
  }

  lemma CoversNew(idx: seq<nat>, m: nat, runs: seq<(nat, nat)>)
    requires Covers(idx, m, runs) && m < |idx| && idx[m] > idx[m - 1] + 1
    ensures Covers(idx, m + 1, runs + [(idx[m], idx[m] + 1)])
  {
    var r := runs + [(idx[m], idx[m] + 1)];
    forall x, y | 0 <= x < y < |r| ensures r[x].1 < r[y].0 {
      assert x < |runs| - 1 ==> runs[x].1 < runs[|runs| - 1].0;
    }
    forall i: nat ensures InRuns(r, i) <==> i in idx[..m + 1] {
      TakeOne(idx, m, i);
      if InRuns(runs, i) {
        var x :| 0 <= x < |runs| && runs[x].0 <= i < runs[x].1;
        assert r[x].0 <= i < r[x].1;
      }
      if i == idx[m] { assert r[|runs|].0 <= i < r[|runs|].1; }
      if InRuns(r, i) && i != idx[m] {
        var x :| 0 <= x < |r| && r[x].0 <= i < r[x].1;
        assert x < |runs|;
        assert runs[x].0 <= i < runs[x].1;
      }
    }
  }

  /** Only separators lie between two members exactly when they are neighbours. */
  lemma Neighbours(b: string, f: Frame, p: nat, q: nat)
    requires Holds(b, f) && p < q < |f.members|
    ensures f.EndPos(p) <= f.KeyPos(q) <= |b|
    ensures Seps(b, f.EndPos(p), f.KeyPos(q)) <==> q == p + 1
  {
    GapToMember(b, f, q);
    PosMonotone(f, p, q);
    if q > p + 1 {
      Between(b, f, p, q);
    } else {
      BaseNext(f, p);
    }
  }

  lemma Between(b: string, f: Frame, p: nat, q: nat)
    requires Holds(b, f) && p + 1 < q < |f.members|
    ensures !Seps(b, f.EndPos(p), f.KeyPos(q))
  {
    var r := p + 1;
    GapToMember(b, f, r);
    PosMonotone(f, p, r);
    PosMonotone(f, r, q);
    hide Holds, Frame.KeyPos, Frame.EndPos, Frame.StartPos, Frame.ClosePos;
    assert !IsSep(b[f.KeyPos(r)]);
  }

  lemma BaseNext(f: Frame, p: nat)
    requires p < |f.members|
    ensures Base(f, p + 1) == f.EndPos(p)
  {
  }

  /** Whether only separators lie in [i, j). */
  method OnlySeps(body: string, i: nat, j: nat) returns (r: bool)
    requires j <= |body|
    ensures r <==> forall q | i <= q < j :: IsSep(body[q])
  {
    var k := i;
    while k < j
      invariant i <= k && (k <= j || k == i)
      invariant forall q | i <= q < k :: IsSep(body[q])
    {
      if body[k] != ' ' && body[k] != '\t' && body[k] != '\n' && body[k] != '\r' && body[k] != ',' {
        return false;
      }
      k := k + 1;
    }
    return true;
  }

  /** What the merging loop has done with the first i spans. */
  ghost predicate Merging(b: string, f: Frame, idx: seq<nat>, spans: seq<Span>, i: nat, w: nat, runs: seq<(nat, nat)>) {
    && Holds(b, f) && Increasing(idx) && |idx| == |spans|
    && (forall x | 0 <= x < |idx| :: idx[x] < |f.members|)
    && Covers(idx, i, runs) && w + 1 == |runs| && w < i
    && RunSpans(f, runs, spans)
    && forall x | i <= x < |idx| :: spans[x] == SpanAt(f, idx[x])
  }

  /** The merging loop of coalesceDeleteSpans: in place, the runs end up in front. */
  method MergeSpans(body: string, spans: array<Span>, lo: nat, hi: nat, ghost f: Frame, ghost idx: seq<nat>)
    returns (n: nat, ghost runs: seq<(nat, nat)>)
    requires spans.Length > 0 && hi <= |body| && SpansIn(spans[..], lo, hi)
    modifies spans
    ensures 0 < n <= spans.Length && SpansIn(spans[..], lo, hi)
    ensures Holds(body, f) && SpansAre(f, idx, old(spans[..])) && Increasing(idx) ==>
              Merging(body, f, idx, spans[..], |idx|, n - 1, runs)
  {
    hide *;
    ghost var here := Holds(body, f) && SpansAre(f, idx, spans[..]) && Increasing(idx);
    runs := [];
    if here {
      MergeStart(body, f, idx, spans[..]);
      runs := [(idx[0], idx[0] + 1)];
    }
    var w := 0;
    var i := 1;
    while i < spans.Length
      invariant 0 <= w < i <= spans.Length && SpansIn(spans[..], lo, hi)
      invariant here ==> |idx| == spans.Length && Merging(body, f, idx, spans[..], i, w, runs)
    {
      w, runs := MergeOne(body, spans, lo, hi, i, w, f, idx, runs, here);
      i := i + 1;
    }
    n := w + 1;
  }

  /** One turn of the merging loop. */
  method MergeOne(body: string, spans: array<Span>, lo: nat, hi: nat, i: nat, w0: nat, ghost f: Frame, ghost idx: seq<nat>,
                  ghost runs0: seq<(nat, nat)>, ghost here: bool)
    returns (w: nat, ghost runs: seq<(nat, nat)>)
    requires w0 < i < spans.Length && hi <= |body| && SpansIn(spans[..], lo, hi)
    requires here ==> |idx| == spans.Length && Merging(body, f, idx, spans[..], i, w0, runs0)
    modifies spans
    ensures w <= i && SpansIn(spans[..], lo, hi)
    ensures here ==> Merging(body, f, idx, spans[..], i + 1, w, runs)
  {
    hide *;
    w, runs := w0, runs0;
    ghost var was := spans[..];
    SpanBound(was, lo, hi, i);
    SpanBound(was, lo, hi, w);
    var contiguous := OnlySeps(body, spans[w].vEnd, spans[i].kStart);
    if contiguous {
      if here {
        MergeExtend(body, f, idx, was, i, w, runs, was[w].(vEnd := was[i].vEnd));
        runs := Extend(runs);
      }
      if spans[i].vEnd > spans[w].vEnd {
        spans[w] := spans[w].(vEnd := spans[i].vEnd);
      }
    } else {
      if here {
        MergeNew(body, f, idx, was, i, w, runs);
        runs := runs + [(idx[i], idx[i] + 1)];
      }
      w := w + 1;
      spans[w] := spans[i];
    }
    SpanSet(was, lo, hi, w, spans[w]);
    assert spans[..] == was[w := spans[w]];
  }

  lemma SpanBound(spans: seq<Span>, lo: nat, hi: nat, i: nat)
    requires SpansIn(spans, lo, hi) && i < |spans|
    ensures lo < spans[i].kStart <= spans[i].vEnd <= hi
  {
  }

  lemma SpanSet(spans: seq<Span>, lo: nat, hi: nat, i: nat, s: Span)
    requires SpansIn(spans, lo, hi) && i < |spans| && lo < s.kStart <= s.vEnd <= hi
    ensures SpansIn(spans[i := s], lo, hi)
  {
  }

  lemma MergeStart(b: string, f: Frame, idx: seq<nat>, spans: seq<Span>)
    requires Holds(b, f) && SpansAre(f, idx, spans) && Increasing(idx) && spans != []
    ensures |idx| == |spans| && Merging(b, f, idx, spans, 1, 0, [(idx[0], idx[0] + 1)])
  {
    CoversFirst(idx);
    SpanEnd(f, idx[0]);
    hide Holds, Covers, Frame.KeyPos, Frame.EndPos;
  }

  ghost predicate MergeFacts(b: string, f: Frame, idx: seq<nat>, spans: seq<Span>, i: nat, w: nat) {
    && i < |spans| == |idx| && 0 < i && w < i && idx[i - 1] < idx[i] < |f.members|
    && spans[w].vEnd == f.EndPos(idx[i - 1])
    && spans[i].kStart == f.KeyPos(idx[i]) && spans[i].vEnd == f.EndPos(idx[i])
    && f.EndPos(idx[i - 1]) <= f.EndPos(idx[i])
    && (Seps(b, spans[w].vEnd, spans[i].kStart) <==> idx[i] == idx[i - 1] + 1)
    && spans[w].vEnd <= spans[i].kStart <= |b|
  }

  lemma MergeStep(b: string, f: Frame, idx: seq<nat>, spans: seq<Span>, i: nat, w: nat, runs: seq<(nat, nat)>)
    requires Merging(b, f, idx, spans, i, w, runs) && i < |idx|
    ensures MergeFacts(b, f, idx, spans, i, w)
  {
    var p, q := idx[i - 1], idx[i];
    assert runs[w].1 - 1 == p;
    Neighbours(b, f, p, q);
    SpanEnd(f, q);
    PosMonotone(f, p, q);
    hide Holds, Covers, Frame.KeyPos, Frame.EndPos, Increasing, Seps;
  }

  lemma MergeExtend(b: string, f: Frame, idx: seq<nat>, spans: seq<Span>, i: nat, w: nat, runs: seq<(nat, nat)>, s: Span)
    requires Merging(b, f, idx, spans, i, w, runs) && i < |idx|
    requires w < |spans| && i < |spans| && spans[i].kStart <= |b|
    requires forall q | spans[w].vEnd <= q < spans[i].kStart :: IsSep(b[q])
    requires s == spans[w].(vEnd := spans[i].vEnd)
    ensures runs != [] && Merging(b, f, idx, spans[w := s], i + 1, w, Extend(runs))
    ensures spans[w].vEnd <= spans[i].vEnd
  {
    MergeStep(b, f, idx, spans, i, w, runs);
    CoversExtend(idx, i, runs);
    hide Holds, Covers, Frame.KeyPos, Frame.EndPos, SpanAt;
  }

  lemma MergeNew(b: string, f: Frame, idx: seq<nat>, spans: seq<Span>, i: nat, w: nat, runs: seq<(nat, nat)>)
    requires Merging(b, f, idx, spans, i, w, runs) && i < |idx|
    requires w < |spans| && i < |spans| && spans[i].kStart <= |b|
    requires !forall q | spans[w].vEnd <= q < spans[i].kStart :: IsSep(b[q])
    ensures w + 1 < |spans| && Merging(b, f, idx, spans[w + 1 := spans[i]], i + 1, w + 1, runs + [(idx[i], idx[i] + 1)])
  {
    MergeStep(b, f, idx, spans, i, w, runs);
    CoversNew(idx, i, runs);
    hide Holds, Covers, Frame.KeyPos, Frame.EndPos, SpanAt;
  }

  // ---------------------------------------------------------------- all deletions

  /** `es` drops the runs of dropped members, each once. */
  ghost predicate DropsAre(f: Frame, fates: seq<Fate>, es: seq<Edit>)
    requires |fates| == |f.members|
  {
    && DistinctStarts(es)
    && (forall e :: e in es <==> exists k: nat, j: nat :: RunIs(f, fates, k, j, e))
  }

  ghost predicate DropSet(fates: seq<Fate>, idx: seq<nat>) {
    Distinct(idx) && forall i: nat :: i in idx <==> i < |fates| && fates[i].Drop?
  }

  ghost predicate Top(body: string, f: Frame, startObj: nat, closeObj: nat) {
    Holds(body, f) && startObj == |f.head| && closeObj == f.ClosePos()
  }

  lemma DropsNone(f: Frame, fates: seq<Fate>)
    requires |fates| == |f.members| && DropSet(fates, [])
    ensures DropsAre(f, fates, [])
  {
    var none: seq<nat> := [];
    assert forall i: nat :: i in none <==> i < |fates| && fates[i].Drop?;
    assert forall i: nat | i < |fates| :: !fates[i].Drop?;
    forall k: nat, j: nat, e ensures !RunIs(f, fates, k, j, e) {
      RunMember(fates, k, j, k);
    }
  }

  lemma RunsAreMaximal(fates: seq<Fate>, idx: seq<nat>, runs: seq<(nat, nat)>, k: nat, j: nat)
    requires DropSet(fates, idx) && Covers(idx, |idx|, runs)
    ensures (k, j) in runs <==> RunAt(fates, k, j)
  {
    assert idx[..|idx|] == idx;
    assert forall i: nat :: InRuns(runs, i) <==> i < |fates| && fates[i].Drop?;
    if (k, j) in runs {
      var x :| 0 <= x < |runs| && runs[x] == (k, j);
      RunInRuns(fates, runs, x);
    }
    if RunAt(fates, k, j) {
      assert InRuns(runs, k);
      var x :| 0 <= x < |runs| && runs[x].0 <= k < runs[x].1;
      RunInRuns(fates, runs, x);
      SameRun(fates, k, j, runs[x].0, runs[x].1);
    }
  }

  lemma RunInRuns(fates: seq<Fate>, runs: seq<(nat, nat)>, x: nat)
    requires Separated(runs) && x < |runs|
    requires forall i: nat :: InRuns(runs, i) <==> i < |fates| && fates[i].Drop?
    ensures RunAt(fates, runs[x].0, runs[x].1)
  {
    var k, j := runs[x].0, runs[x].1;
    forall i: nat | k <= i < j ensures i < |fates| && fates[i].Drop? {
      assert InRuns(runs, i);
    }
    assert InRuns(runs, k) && InRuns(runs, j - 1);
    assert j - 1 < |fates| && fates[j - 1].Drop?;
    NotBeside(runs, x, j);
    if k > 0 { NotBeside(runs, x, k - 1); }
  }

  lemma NotBeside(runs: seq<(nat, nat)>, x: nat, i: nat)
    requires Separated(runs) && x < |runs| && (i == runs[x].1 || i + 1 == runs[x].0)
    ensures !InRuns(runs, i)
  {
    if InRuns(runs, i) {
      var y :| 0 <= y < |runs| && runs[y].0 <= i < runs[y].1;
      SeparatedPair(runs, x, y);
    }
  }

  lemma SameRun(fates: seq<Fate>, k: nat, j: nat, k': nat, j': nat)
    requires RunAt(fates, k, j) && RunAt(fates, k', j') && k' <= k < j'
    ensures k == k' && j == j'
  {
    if k > 0 { RunMember(fates, k', j', k - 1); }
    RunMember(fates, k', j', j);
    RunMember(fates, k, j, j');
  }

  lemma RunMember(fates: seq<Fate>, k: nat, j: nat, i: nat)
    ensures RunAt(fates, k, j) && k <= i < j ==> i < |fates| && fates[i].Drop?
  {
  }

  lemma SeparatedPair(runs: seq<(nat, nat)>, x: nat, y: nat)
    requires Separated(runs) && x < |runs| && y < |runs|
    ensures x == y || runs[x].1 < runs[y].0 || runs[y].1 < runs[x].0
  {
  }

  /** The edits that delete these spans, after sorting and merging them. */
  method DeleteEdits(body: string, delSpans: seq<Span>, startObj: nat, closeObj: nat, ghost f: Frame, ghost fates: seq<Fate>,
                     ghost idx0: seq<nat>)
    returns (es: seq<Edit>)
    requires startObj < closeObj <= |body| && SpansIn(delSpans, startObj, closeObj)
    ensures Top(body, f, startObj, closeObj) && |fates| == |f.members| && SpansAre(f, idx0, delSpans) && DropSet(fates, idx0) ==>
              DropsAre(f, fates, es)
  {
    ghost var here := Top(body, f, startObj, closeObj) && |fates| == |f.members| && SpansAre(f, idx0, delSpans) && DropSet(fates, idx0);
    es := [];
    if |delSpans| == 0 {
      if here { DropsNone(f, fates); }
      return;
    }
    var spans := new Span[|delSpans|](i requires 0 <= i < |delSpans| => delSpans[i]);
    assert spans[..] == delSpans;
    hide *;
    ghost var idx := SortSpans(spans, startObj, closeObj, f, idx0);
    var n; ghost var runs;
    n, runs := MergeSpans(body, spans, startObj, closeObj, f, idx);
    if here { DeleteStart(body, f, fates, idx0, idx, delSpans, spans[..], n, runs, startObj, closeObj); }
    es := EmitDeletes(body, spans[..], n, startObj, closeObj, f, runs, here);
    if here { DropListDone(f, fates, idx, runs, es); }
  }

  /** One deletion for each merged span. */
  method EmitDeletes(body: string, spans: seq<Span>, n: nat, startObj: nat, closeObj: nat, ghost f: Frame,
                     ghost runs: seq<(nat, nat)>, ghost here: bool)
    returns (es: seq<Edit>)
    requires startObj < closeObj <= |body| && n <= |spans| && SpansIn(spans, startObj, closeObj)
    requires here ==> Deleting(body, f, spans, n, runs, startObj, closeObj) && DropList(f, runs, 0, [])
    ensures here ==> DropList(f, runs, |runs|, es)
  {
    hide *;
    es := [];
    var x := 0;
    while x < n
      invariant x <= n
      invariant here ==> DropList(f, runs, x, es)
    {
      SpanBound(spans, startObj, closeObj, x);
      ghost var run: (nat, nat) := (0, 0);
      if here {
        DeleteOne(body, f, spans, n, runs, startObj, closeObj, x, es);
        run := runs[x];
      }
      var s, e := DeleteMemberSpan(body, spans[x].kStart, spans[x].vEnd, startObj, closeObj, f, run.0, run.1);
      es := es + [Edit(s, e, "")];
      x := x + 1;
    }
    if here { DeletingLength(body, f, spans, n, runs, startObj, closeObj); }
  }

  lemma DeletingLength(b: string, f: Frame, spans: seq<Span>, n: nat, runs: seq<(nat, nat)>, startObj: nat, closeObj: nat)
    requires Deleting(b, f, spans, n, runs, startObj, closeObj)
    ensures |runs| == n
  {
  }

  /** The first x runs have been turned into edits. */
  ghost predicate DropList(f: Frame, runs: seq<(nat, nat)>, x: nat, es: seq<Edit>) {
    && |es| == x <= |runs|
    && forall y | 0 <= y < x :: runs[y].0 < runs[y].1 <= |f.members| && es[y] == DropEdit(f, runs[y].0, runs[y].1)
  }

  ghost predicate Deleting(b: string, f: Frame, spans: seq<Span>, n: nat, runs: seq<(nat, nat)>, startObj: nat, closeObj: nat) {
    && Top(b, f, startObj, closeObj) && |runs| == n <= |spans| && Separated(runs) && RunSpans(f, runs, spans)
  }

  lemma DeleteStart(b: string, f: Frame, fates: seq<Fate>, idx0: seq<nat>, idx: seq<nat>, delSpans: seq<Span>,
                    spans: seq<Span>, n: nat, runs: seq<(nat, nat)>, startObj: nat, closeObj: nat)
    requires Top(b, f, startObj, closeObj) && |fates| == |f.members| && DropSet(fates, idx0) && SameSet(idx, idx0)
    requires Increasing(idx) && 0 < n <= |spans| && Merging(b, f, idx, spans, |idx|, n - 1, runs)
    ensures Deleting(b, f, spans, n, runs, startObj, closeObj) && DropList(f, runs, 0, [])
    ensures DropSet(fates, idx) && Covers(idx, |idx|, runs)
  {
    hide Holds, Frame.KeyPos, Frame.EndPos, Frame.ClosePos, InRuns;
  }

  lemma DeleteOne(b: string, f: Frame, spans: seq<Span>, n: nat, runs: seq<(nat, nat)>, startObj: nat, closeObj: nat, x: nat,
                  es: seq<Edit>)
    requires Deleting(b, f, spans, n, runs, startObj, closeObj) && x < n && DropList(f, runs, x, es)
    ensures x < |runs| && x < |spans|
    ensures DropsRun(b, f, runs[x].0, runs[x].1, spans[x].kStart, spans[x].vEnd, startObj, closeObj)
    ensures |runs| == n && runs[x].0 < runs[x].1 <= |f.members|
    ensures DropList(f, runs, x + 1, es + [DropEdit(f, runs[x].0, runs[x].1)])
  {
    hide Holds, Frame.KeyPos, Frame.EndPos, Frame.ClosePos, DropEdit;
  }

  lemma DropListDone(f: Frame, fates: seq<Fate>, idx: seq<nat>, runs: seq<(nat, nat)>, es: seq<Edit>)
    requires |fates| == |f.members| && DropSet(fates, idx) && Covers(idx, |idx|, runs) && DropList(f, runs, |runs|, es)
    ensures DropsAre(f, fates, es)
  {
    forall x, y | 0 <= x < |es| && 0 <= y < |es| && x != y ensures es[x].start != es[y].start {
      if x < y { DropStarts(f, runs[x], runs[y]); } else { DropStarts(f, runs[y], runs[x]); }
    }
    forall e ensures e in es <==> exists k: nat, j: nat :: RunIs(f, fates, k, j, e) {
      if e in es {
        var x :| 0 <= x < |es| && es[x] == e;
        RunsAreMaximal(fates, idx, runs, runs[x].0, runs[x].1);
        assert RunIs(f, fates, runs[x].0, runs[x].1, e);
      }
      if k: nat, j: nat :| RunIs(f, fates, k, j, e) {
        RunsAreMaximal(fates, idx, runs, k, j);
        var x :| 0 <= x < |runs| && runs[x] == (k, j);
        assert es[x] == e;
      }
    }
  }

  lemma DropStarts(f: Frame, r: (nat, nat), r': (nat, nat))
    requires r.0 < r.1 < r'.0 < r'.1 <= |f.members|
    ensures DropEdit(f, r.0, r.1).start < DropEdit(f, r'.0, r'.1).start
  {
    PosMonotone(f, r.0, r'.0 - 1);
  }
}
