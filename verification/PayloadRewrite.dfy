/**
 modifyTopLevelPayload (pkg/server/dispatch.go): the scan, the edits it leads to, and their
 splicing into the body.
 */
module PayloadRewrite {
  import opened Json
  import opened ObjectEdit
  import opened PayloadSpec
  import opened PayloadScan
  import opened PayloadDelete
  import opened PayloadNested
  import opened PayloadReasoning

  // ---------------------------------------------------------------- splicing

  /** What SpliceInto checks: in bounds, sorted, not overlapping. */
  ghost predicate Chained(es: seq<Edit>, lo: nat, hi: nat) {
    es == [] || (lo <= es[0].start <= es[0].end <= hi && Chained(es[1..], es[0].end, hi))
  }

  lemma {:induction false} OrderedChained(es: seq<Edit>, lo: nat, hi: nat)
    requires Ordered(es, lo, hi)
    ensures Chained(es, lo, hi)
  {
    if es != [] {
      OrderedLower(es[1..], Max(es[0].end, es[0].start + 1), es[0].end, hi);
      OrderedChained(es[1..], es[0].end, hi);
    }
  }

  /** SpliceInto of pkg/zeroalloc/json_scan.go. */
  method SpliceInto(src: string, edits: seq<Edit>) returns (dst: string, ok: bool)
    ensures ok <==> Chained(edits, 0, |src|)
    ensures Ordered(edits, 0, |src|) ==> ok && dst == Splice(src, edits, 0)
  {
    dst := "";
    ghost var here := Ordered(edits, 0, |src|);
    if here { OrderedChained(edits, 0, |src|); }
    var lastEnd: nat := 0;
    var x := 0;
    assert edits[0..] == edits;
    while x < |edits|
      invariant x <= |edits| && lastEnd <= |src|
      invariant Chained(edits, 0, |src|) <==> Chained(edits[x..], lastEnd, |src|)
    {
      assert edits[x..][1..] == edits[x + 1..];
      if edits[x].end > |src| || edits[x].start > edits[x].end || edits[x].start < lastEnd {
        return dst, false;
      }
      lastEnd := edits[x].end;
      x := x + 1;
    }
    ok := true;
    var r: nat := 0;
    x := 0;
    while x < |edits|
      invariant x <= |edits| && r <= |src| && Chained(edits[x..], r, |src|)
      invariant here ==> Ordered(edits[x..], r, |src|) && Splice(src, edits, 0) == dst + Splice(src, edits[x..], r)
    {
      assert edits[x..][1..] == edits[x + 1..];
      if here { SpliceStep(src, edits, x, r, dst); }
      dst := dst + src[r..edits[x].start] + edits[x].repl;
      r := edits[x].end;
      x := x + 1;
    }
    dst := dst + src[r..];
  }

  lemma SpliceStep(src: string, es: seq<Edit>, x: nat, r: nat, dst: string)
    requires x < |es| && r <= |src| && Ordered(es[x..], r, |src|)
    ensures r <= es[x].start <= es[x].end <= |src| && Ordered(es[x + 1..], es[x].end, |src|)
    ensures dst + Splice(src, es[x..], r) ==
            dst + src[r..es[x].start] + es[x].repl + Splice(src, es[x + 1..], es[x].end)
  {
    var t := es[x + 1..];
    assert es[x..][1..] == t;
    OrderedLower(t, Max(es[x].end, es[x].start + 1), es[x].end, |src|);
    var a, b, c := src[r..es[x].start], es[x].repl, Splice(src, t, es[x].end);
    assert dst + (a + b + c) == dst + a + b + c;
  }

  // ---------------------------------------------------------------- sorting the edits

  ghost predicate SameEdits(a: seq<Edit>, b: seq<Edit>) {
    forall e :: e in a <==> e in b
  }

  ghost function SwapEdit(es: seq<Edit>, b: nat): seq<Edit>
    requires 0 < b < |es|
  {
    es[b := es[b - 1]][b - 1 := es[b]]
  }

  lemma SwapEdits(es: seq<Edit>, b: nat)
    requires 0 < b < |es|
    ensures SameEdits(SwapEdit(es, b), es) && (DistinctStarts(es) ==> DistinctStarts(SwapEdit(es, b)))
  {
    var s := SwapEdit(es, b);
    forall e ensures e in s <==> e in es {
      if e in es {
        var x :| 0 <= x < |es| && es[x] == e;
        assert s[if x == b then b - 1 else if x == b - 1 then b else x] == e;
      }
    }
  }

  /** es[..a + 1] is sorted except that its element b is still on its way to the left. */
  ghost predicate Sinking(es: seq<Edit>, a: nat, b: nat) {
    && b <= a < |es|
    && (forall x, y | 0 <= x < y <= a && x != b && y != b :: es[x].start < es[y].start)
    && (forall y | b < y <= a :: es[b].start < es[y].start)
  }

  lemma SinkStep(es: seq<Edit>, a: nat, b: nat)
    requires 0 < b && Sinking(es, a, b) && es[b].start < es[b - 1].start
    ensures Sinking(SwapEdit(es, b), a, b - 1)
  {
  }

  lemma SinkDone(es: seq<Edit>, a: nat, b: nat)
    requires Sinking(es, a, b) && DistinctStarts(es) && (b == 0 || es[b].start >= es[b - 1].start)
    ensures StrictlySorted(es[..a + 1])
  {
    forall x, y | 0 <= x < y <= a ensures es[x].start < es[y].start {
      if y == b {
        assert es[b - 1].start < es[b].start;
        assert x < b - 1 ==> es[x].start < es[b - 1].start;
      }
    }
  }

  lemma SinkStart(es: seq<Edit>, a: nat)
    requires a < |es| && StrictlySorted(es[..a])
    ensures Sinking(es, a, a)
  {
    forall x, y | 0 <= x < y < a ensures es[x].start < es[y].start {
      assert es[..a][x].start < es[..a][y].start;
    }
  }

  lemma SameTrans(a: seq<Edit>, b: seq<Edit>, c: seq<Edit>)
    requires SameEdits(a, b) && SameEdits(b, c)
    ensures SameEdits(a, c)
  {
  }

  /** The insertion sort over the edits, in place. */
  method SortEdits(edits: array<Edit>)
    modifies edits
    ensures SameEdits(edits[..], old(edits[..]))
    ensures DistinctStarts(old(edits[..])) ==> StrictlySorted(edits[..])
  {
    ghost var was := edits[..];
    ghost var here := DistinctStarts(was);
    var a := 1;
    while a < edits.Length
      invariant a >= 1 && SameEdits(edits[..], was)
      invariant here ==> DistinctStarts(edits[..]) && StrictlySorted(edits[..if a <= edits.Length then a else edits.Length])
    {
      if here { SinkStart(edits[..], a); }
      SinkEdit(edits, a, was, here);
      assert here ==> edits[..a + 1] == edits[..][..a + 1];
      a := a + 1;
    }
    assert here ==> edits[..if a <= edits.Length then a else edits.Length] == edits[..];
  }

  method SinkEdit(edits: array<Edit>, a: nat, ghost was: seq<Edit>, ghost here: bool)
    requires a < edits.Length && SameEdits(edits[..], was)
    requires here ==> DistinctStarts(edits[..]) && Sinking(edits[..], a, a)
    modifies edits
    ensures SameEdits(edits[..], was)
    ensures here ==> DistinctStarts(edits[..]) && StrictlySorted(edits[..][..a + 1])
  {
    hide DistinctStarts, StrictlySorted, SameEdits, Sinking;
    var b := a;
    while b > 0 && edits[b].start < edits[b - 1].start
      invariant 0 <= b <= a && SameEdits(edits[..], was)
      invariant here ==> DistinctStarts(edits[..]) && Sinking(edits[..], a, b)
    {
      ghost var now := edits[..];
      SwapEdits(now, b);
      if here { SinkStep(now, a, b); }
      SameTrans(SwapEdit(now, b), now, was);
      edits[b], edits[b - 1] := edits[b - 1], edits[b];
      assert edits[..] == SwapEdit(now, b);
      b := b - 1;
    }
    if here { SinkDone(edits[..], a, b); }
  }

  // ---------------------------------------------------------------- what the scan found

  ghost predicate Scanned(b: string, f: Frame, t: Tier, w: Wire, startObj: nat, closeObj: nat, st: Found) {
    && Top(b, f, startObj, closeObj) && AllShallow(f.members, |f.members|)
    && FoundUpTo(f, t, w, |f.members|, st)
  }

  lemma ScannedSetting(b: string, f: Frame, t: Tier, w: Wire, startObj: nat, closeObj: nat, st: Found)
    requires Scanned(b, f, t, w, startObj, closeObj, st)
    ensures Setting(b, f, Fates(f.members, t, w), t, w, startObj, closeObj, st.re, st.rs)
    ensures Collected(f, "stream_options", KeyIdx(f.members, "stream_options", |f.members|), st.so)
  {
    hide AllShallow, Depth, KeyIdx, KeySet, PatchesAre, FateOf;
    KeyIdxCollected(f, "reasoning_effort", st.re);
    KeyIdxCollected(f, "reasoning", st.rs);
    KeyIdxCollected(f, "stream_options", st.so);
    FatesAllOk(f, t, w);
  }

  lemma ScannedFacts(b: string, f: Frame, t: Tier, w: Wire, startObj: nat, closeObj: nat, st: Found)
    requires Scanned(b, f, t, w, startObj, closeObj, st)
    ensures st.isStream <==> IsStream(f.members)
    ensures st.foundModel <==> Has(f.members, "model")
    ensures st.so == [] <==> !Has(f.members, "stream_options")
    ensures st.total == |f.members| && closeObj == f.ClosePos()
    ensures |Fates(f.members, t, w)| == |f.members|
    ensures PatchesAre(f, Fates(f.members, t, w), KeySet(f.members, "model", |f.members|), st.edits)
  {
    hide AllShallow, Depth, KeyIdx, PatchesAre, FateOf, Holds, Print;
    ScannedSetting(b, f, t, w, startObj, closeObj, st);
    FirstCollected(f, "stream_options", KeyIdx(f.members, "stream_options", |f.members|), st.so);
    hide Setting, Collected;
    var i := First(f.members, "model");
    if i < |f.members| {
      assert i in KeySet(f.members, "model", |f.members|);
    }
  }

  // ---------------------------------------------------------------- stream_options

  lemma StreamKind(ms: seq<Member>, i: nat, t: Tier, w: Wire)
    requires i < |ms| && ms[i].core.key == "stream_options"
    ensures FateOf(ms, i, t, w) == if IsStream(ms) then UsageFate(ms[i].core) else Keep
  {
    hide KindOf, UsageFate, IsStream;
    Kinds(ms[i].core.key);
  }

  lemma StreamAt(b: string, f: Frame, t: Tier, w: Wire, startObj: nat, closeObj: nat, st: Found, S: seq<nat>, j: nat)
    requires Scanned(b, f, t, w, startObj, closeObj, st) && S == KeyIdx(f.members, "stream_options", |f.members|)
    requires IsStream(f.members) && j < |st.so|
    ensures |S| == |st.so| && UsageHere(b, f, Fates(f.members, t, w), S[j], st.so[j])
  {
    ScannedSetting(b, f, t, w, startObj, closeObj, st);
    var k := S[j];
    assert k in S;
    hide FateOf, KeyIdx, SpanAt, UsageFate, Depth, IsStream, FoundUpTo, Setting;
    StreamKind(f.members, k, t, w);
  }

  lemma StreamStart(b: string, f: Frame, t: Tier, w: Wire, startObj: nat, closeObj: nat, st: Found, S: seq<nat>)
    requires Scanned(b, f, t, w, startObj, closeObj, st) && S == KeyIdx(f.members, "stream_options", |f.members|)
    ensures |S| == |st.so| && |Fates(f.members, t, w)| == |f.members|
    ensures PatchesAre(f, Fates(f.members, t, w), ToSet(S[..0]), [])
    ensures !IsStream(f.members) ==> PatchesAre(f, Fates(f.members, t, w), ToSet(S), [])
  {
    ScannedSetting(b, f, t, w, startObj, closeObj, st);
    hide FateOf, KeyIdx, SpanAt, Depth, IsStream, FoundUpTo, Setting, PatchesAre;
    var fates := Fates(f.members, t, w);
    assert ToSet(S[..0]) == {};
    PatchesNone(f, fates, ToSet(S[..0]));
    if !IsStream(f.members) {
      forall i | i in ToSet(S) && i < |fates| ensures !fates[i].Patch? {
        StreamKind(f.members, i, t, w);
      }
      PatchesNone(f, fates, ToSet(S));
    }
  }

  lemma StreamStep(b: string, f: Frame, t: Tier, w: Wire, startObj: nat, closeObj: nat, st: Found, S: seq<nat>, j: nat,
                   es: seq<Edit>)
    requires Scanned(b, f, t, w, startObj, closeObj, st) && S == KeyIdx(f.members, "stream_options", |f.members|)
    requires j < |S| && PatchesAre(f, Fates(f.members, t, w), ToSet(S[..j]), es)
    requires S[j] < |f.members| && Fates(f.members, t, w)[S[j]].Patch?
    ensures PatchesAre(f, Fates(f.members, t, w), ToSet(S[..j + 1]), es + [PatchEdit(f, Fates(f.members, t, w), S[j])])
  {
    ScannedSetting(b, f, t, w, startObj, closeObj, st);
    FatesAllOk(f, t, w);
    hide FateOf, KeyIdx, SpanAt, Depth, FoundUpTo, PatchesAre, FatesOk;
    PatchesPrefix(f, Fates(f.members, t, w), S, j, es);
  }

  /** The stream_options members of a streaming request ask for usage. */
  method StreamEdits(body: string, st: Found, startObj: nat, closeObj: nat, ghost f: Frame, ghost t: Tier, ghost w: Wire)
    returns (es: seq<Edit>)
    requires closeObj < |body| && FoundIn(st.so, startObj, closeObj)
    ensures Scanned(body, f, t, w, startObj, closeObj, st) ==>
              && |Fates(f.members, t, w)| == |f.members|
              && PatchesAre(f, Fates(f.members, t, w), ToSet(KeyIdx(f.members, "stream_options", |f.members|)), es)
  {
    ghost var here := Scanned(body, f, t, w, startObj, closeObj, st);
    ghost var S := KeyIdx(f.members, "stream_options", |f.members|);
    ghost var fates := Fates(f.members, t, w);
    hide *;
    if here {
      ScannedFacts(body, f, t, w, startObj, closeObj, st);
      StreamStart(body, f, t, w, startObj, closeObj, st, S);
    }
    es := [];
    if st.isStream {
      var j := 0;
      while j < |st.so|
        invariant j <= |st.so|
        invariant here ==> |S| == |st.so| && |fates| == |f.members| && PatchesAre(f, fates, ToSet(S[..j]), es)
      {
        FoundBound(st.so, startObj, closeObj, j);
        ghost var k := 0;
        if here {
          StreamAt(body, f, t, w, startObj, closeObj, st, S, j);
          k := S[j];
          UsageAt(body, f, fates, k, st.so[j]);
        }
        var e := UsageEdit(body, st.so[j], f, k, fates);
        if here { StreamStep(body, f, t, w, startObj, closeObj, st, S, j, es); }
        es := es + [e];
        j := j + 1;
      }
      if here { assert S[..j] == S; }
    }
  }

  lemma UsageAt(b: string, f: Frame, fates: seq<Fate>, k: nat, sp: Span)
    requires UsageHere(b, f, fates, k, sp)
    ensures k < |f.members| == |fates|
  {
  }

  lemma FoundBound(spans: seq<Span>, lo: nat, hi: nat, j: nat)
    requires FoundIn(spans, lo, hi) && j < |spans|
    ensures spans[j].vStart < spans[j].vEnd <= hi
  {
  }

  // ---------------------------------------------------------------- what is inserted

  /** One more member before the closing brace. */
  method Append(any: bool, ins: string, member: string) returns (r: string)
    ensures r == (if any || ins != "" then ins + "," + member else member)
  {
    r := ins;
    if any || |ins| > 0 { r := r + ","; }
    r := r + member;
    if !any && ins == "" { assert "" + member == member; }
  }

  lemma InsertOne(any: bool, cores: seq<Core>, c: Core)
    ensures InsertText(any, cores) == "" <==> cores == []
    ensures InsertText(any, cores + [c]) ==
            if any || InsertText(any, cores) != "" then InsertText(any, cores) + "," + CoreText(c) else CoreText(c)
  {
    TailOne(c);
    hide CoreText;
    if cores == [] {
      assert cores + [c] == [c];
      assert Inserted([c])[1..] == [] && [c][1..] == [];
      assert "" + "," + CoreText(c) == "," + CoreText(c);
      assert CoreText(c) + "" == CoreText(c);
    } else {
      assert (cores + [c])[1..] == cores[1..] + [c];
      InsertedAppend(cores, [c]);
      InsertedAppend(cores[1..], [c]);
      TailAppend(Inserted(cores), Inserted([c]));
      TailAppend(Inserted(cores[1..]), Inserted([c]));
      assert CoreText(cores[0]) + (MemberTail(Inserted(cores[1..])) + ("," + CoreText(c)))
          == CoreText(cores[0]) + MemberTail(Inserted(cores[1..])) + "," + CoreText(c);
      assert MemberTail(Inserted(cores)) + ("," + CoreText(c)) == MemberTail(Inserted(cores)) + "," + CoreText(c);
      CoreNotEmpty(cores[0]);
    }
  }

  lemma CoreNotEmpty(c: Core)
    ensures CoreText(c) != ""
  {
  }

  lemma TailOne(c: Core)
    ensures MemberTail(Inserted([c])) == "," + CoreText(c)
  {
    SingleTexts(c);
  }

  lemma {:induction false} InsertedAppend(a: seq<Core>, b: seq<Core>)
    ensures Inserted(a + b) == Inserted(a) + Inserted(b)
  {
    if a == [] {
      assert a + b == b;
    } else {
      assert (a + b)[1..] == a[1..] + b;
      InsertedAppend(a[1..], b);
    }
  }

  /** The insertion for the cores given one after the other. */
  lemma InsertThree(any: bool, a: seq<Core>, b: seq<Core>, c: seq<Core>)
    requires |a| <= 1 && |b| <= 1 && |c| <= 1
    ensures InsertText(any, []) == ""
    ensures InsertText(any, a) == InsertStep(any, InsertText(any, []), a)
    ensures InsertText(any, a + b) == InsertStep(any, InsertText(any, a), b)
    ensures InsertText(any, a + b + c) == InsertStep(any, InsertText(any, a + b), c)
  {
    hide InsertText, CoreText;
    InsertMaybe(any, [], a);
    assert [] + a == a;
    InsertMaybe(any, a, b);
    InsertMaybe(any, a + b, c);
    InsertNone(any);
  }

  lemma InsertNone(any: bool)
    ensures InsertText(any, []) == ""
  {
  }

  ghost function InsertStep(any: bool, ins: string, c: seq<Core>): string
    requires |c| <= 1
  {
    if c == [] then ins else if any || ins != "" then ins + "," + CoreText(c[0]) else CoreText(c[0])
  }

  lemma InsertMaybe(any: bool, a: seq<Core>, c: seq<Core>)
    requires |c| <= 1
    ensures InsertText(any, a + c) == InsertStep(any, InsertText(any, a), c)
  {
    hide InsertText, CoreText;
    if c == [] {
      assert a + c == a;
    } else {
      assert c == [c[0]];
      InsertOne(any, a, c[0]);
    }
  }

  lemma AddedTexts(ms: seq<Member>, t: Tier, w: Wire)
    ensures var m := AddedModel(ms, t);
            |m| == (if !Has(ms, "model") && t.model != "" then 1 else 0) &&
            (m != [] ==> CoreText(m[0]) == "\"model\":" + Quoted(Escape(t.model)))
    ensures var s := AddedStream(ms);
            |s| == (if IsStream(ms) && !Has(ms, "stream_options") then 1 else 0) &&
            (s != [] ==> CoreText(s[0]) == "\"stream_options\":{" + USAGE_KEY + "}")
    ensures var r := AddedReasoning(ms, t, w);
            |r| <= 1 && MissingText(ms, t, w) == (if r == [] then "" else CoreText(r[0])) &&
            (r != [] ==> MissingText(ms, t, w) != "")
  {
    KeyText("model", TargetModel(t));
    PrintStr(Escape(t.model));
    KeyText("stream_options", UsageObject());
    UsageTexts();
    ReasoningKey();
    hide Print, Escape, Quoted, IsStream, First;
    assert "\"" + "stream_options" + "\":" + ("{" + USAGE_KEY + "}") == "\"stream_options\":{" + USAGE_KEY + "}";
    if AddedReasoning(ms, t, w) != [] { CoreNotEmpty(AddedReasoning(ms, t, w)[0]); }
    hide CoreText;
  }

  /** The members that are missing, with their commas. */
  method Insertion(t: Tier, st: Found, missing: string, any: bool, ghost ms: seq<Member>, ghost w: Wire) returns (ins: string)
    ensures (st.foundModel <==> Has(ms, "model")) && (st.isStream <==> IsStream(ms)) &&
            (st.so == [] <==> !Has(ms, "stream_options")) && missing == MissingText(ms, t, w) ==>
              ins == InsertText(any, Added(ms, t, w))
  {
    AddedTexts(ms, t, w);
    InsertThree(any, AddedModel(ms, t), AddedReasoning(ms, t, w), AddedStream(ms));
    assert Added(ms, t, w) == AddedModel(ms, t) + AddedReasoning(ms, t, w) + AddedStream(ms);
    hide AddedModel, AddedReasoning, AddedStream, Added, MissingText, InsertText, CoreText, IsStream, First, Quoted, Escape;
    ins := "";
    if !st.foundModel && t.model != "" {
      ins := Append(any, ins, "\"model\":" + Quoted(Escape(t.model)));
    }
    if |missing| > 0 {
      ins := Append(any, ins, missing);
    }
    if st.isStream && |st.so| == 0 {
      ins := Append(any, ins, "\"stream_options\":{" + USAGE_KEY + "}");
    }
  }

  // ---------------------------------------------------------------- counting what is left

  lemma {:induction false} DistinctSize(idx: seq<nat>)
    requires Distinct(idx)
    ensures |ToSet(idx)| == |idx|
  {
    if idx != [] {
      var n := |idx| - 1;
      var r := idx[..n];
      forall x, y | 0 <= x < n && 0 <= y < n && x != y ensures r[x] != r[y] {
        assert idx[x] != idx[y];
      }
      DistinctSize(r);
      assert idx == r + [idx[n]];
      assert idx[n] !in ToSet(r);
      assert ToSet(idx) == ToSet(r) + {idx[n]};
    }
  }

  ghost function Below(n: nat): (r: set<nat>)
    ensures |r| == n && forall i: nat :: i in r <==> i < n
  {
    if n == 0 then {} else Below(n - 1) + {n - 1}
  }

  lemma SubsetSize(a: set<nat>, b: set<nat>)
    requires a <= b
    ensures |a| <= |b| && (|a| == |b| <==> a == b)
  {
    SubsetSizeLe(a, b);
    if x :| x in b && x !in a {
      assert a <= b - {x};
      SubsetSizeLe(a, b - {x});
      assert |b - {x}| == |b| - 1;
    } else {
      assert b <= a;
    }
  }

  lemma {:induction false} SubsetSizeLe(a: set<nat>, b: set<nat>)
    requires a <= b
    ensures |a| <= |b|
  {
    if a != {} {
      var x :| x in a;
      SubsetSizeLe(a - {x}, b - {x});
    }
  }

  /** Counting deletions tells whether a member is left. */
  lemma RemainingOk(f: Frame, fates: seq<Fate>, idx: seq<nat>)
    requires |fates| == |f.members| && DropSet(fates, idx)
    ensures |fates| > |idx| <==> Survivors(f, fates).0 != []
  {
    hide After, Frame.Body;
    DistinctSize(idx);
    SubsetSize(ToSet(idx), Below(|fates|));
    var j := RunEnd(fates, 0);
    if j < |fates| {
      assert j in Below(|fates|) && j !in ToSet(idx);
    } else {
      forall i | i in Below(|fates|) ensures i in ToSet(idx) {
        assert fates[i].Drop?;
        assert i in idx;
      }
    }
  }

  // ---------------------------------------------------------------- all edits

  lemma DropRange(f: Frame, fates: seq<Fate>, k: nat, j: nat, i: nat)
    requires FatesOk(f, fates) && RunAt(fates, k, j) && i < |fates| && fates[i].Patch?
    ensures PatchEdit(f, fates, i).start != DropEdit(f, k, j).start
  {
    PatchRange(f, fates, i);
    assert i < k || i >= j;
    hide FatesOk, PatchEdit, Frame.EndPos, Frame.KeyPos;
    if i < k {
      PosMonotone(f, i, k - 1);
    } else {
      PosMonotone(f, k, i);
      if k > 0 { PosMonotone(f, k - 1, k); BeforeKey(f, k); }
    }
  }

  lemma BeforeKey(f: Frame, k: nat)
    requires k < |f.members|
    ensures f.StartPos(k) - 1 < f.KeyPos(k)
  {
  }

  lemma DropBelowClose(f: Frame, k: nat, j: nat)
    requires k < j <= |f.members|
    ensures DropEdit(f, k, j).start < f.ClosePos()
  {
    PosMonotone(f, k, k);
    if k > 0 { BeforeKey(f, k); } else { KeyBelow(f, 0); }
    KeyBelow(f, k);
  }

  lemma KeyBelow(f: Frame, k: nat)
    requires k < |f.members|
    ensures f.KeyPos(k) <= f.EndPos(k) && f.EndPos(k) <= f.ClosePos() && f.KeyPos(k) < f.ClosePos()
  {
    PosMonotone(f, k, k);
    var n := |CoreText(f.members[k].core)|;
    assert n > 0;
  }

  lemma PatchBelowClose(f: Frame, fates: seq<Fate>, i: nat)
    requires FatesOk(f, fates) && i < |fates| && fates[i].Patch?
    ensures PatchEdit(f, fates, i).start < f.ClosePos()
  {
    PatchRange(f, fates, i);
    KeyBelow(f, i);
  }

  function InsertEdits(f: Frame, ins: string): seq<Edit> {
    if ins == "" then [] else [InsertEdit(f, ins)]
  }

  /** Patches, deletions and the insertion are all the edits there are, each once. */
  lemma AllEdits(f: Frame, fates: seq<Fate>, U: set<nat>, ps: seq<Edit>, ds: seq<Edit>, ins: string)
    requires |fates| == |f.members| && FatesOk(f, fates) && PatchesAre(f, fates, U, ps) && DropsAre(f, fates, ds)
    requires forall i | 0 <= i < |fates| && fates[i].Patch? :: i in U
    ensures DistinctStarts(ps + ds + InsertEdits(f, ins))
    ensures SameEdits(ps + ds + InsertEdits(f, ins), Canon(f, fates, ins, 0))
  {
    var es := ps + ds + InsertEdits(f, ins);
    EditsApart(f, fates, U, ps, ds, ins);
    forall e ensures e in es <==> e in Canon(f, fates, ins, 0) {
      CanonIn(f, fates, ins, 0, e);
      EditPlanned(f, fates, U, ps, ds, ins, e);
    }
  }

  lemma EditPlanned(f: Frame, fates: seq<Fate>, U: set<nat>, ps: seq<Edit>, ds: seq<Edit>, ins: string, e: Edit)
    requires |fates| == |f.members| && FatesOk(f, fates) && PatchesAre(f, fates, U, ps) && DropsAre(f, fates, ds)
    requires forall i | 0 <= i < |fates| && fates[i].Patch? :: i in U
    ensures e in ps + ds + InsertEdits(f, ins) <==> Planned(f, fates, ins, 0, e)
  {
    hide FatesOk, PatchEdit, DropEdit, InsertEdit, DistinctStarts, RunAt;
    if e in ps {
      var i :| i in U && i < |fates| && PatchIs(f, fates, i, e);
    }
    if k: nat :| k < |fates| && PatchIs(f, fates, k, e) {
      assert k in U;
    }
    if e in ds {
      var k: nat, j: nat :| RunIs(f, fates, k, j, e);
    }
  }

  lemma EditsApart(f: Frame, fates: seq<Fate>, U: set<nat>, ps: seq<Edit>, ds: seq<Edit>, ins: string)
    requires |fates| == |f.members| && FatesOk(f, fates) && PatchesAre(f, fates, U, ps) && DropsAre(f, fates, ds)
    ensures DistinctStarts(ps + ds + InsertEdits(f, ins))
  {
    hide FatesOk, PatchEdit, DropEdit, Frame.ClosePos;
    forall e, e' | e in ps && e' in ds ensures e.start != e'.start {
      var i :| i in U && i < |fates| && PatchIs(f, fates, i, e);
      var k: nat, j: nat :| RunIs(f, fates, k, j, e');
      DropRange(f, fates, k, j, i);
    }
    DistinctConcat(ps, ds);
    forall e, e' | e in ps + ds && e' in InsertEdits(f, ins) ensures e.start != e'.start {
      assert e' == InsertEdit(f, ins);
      if e in ps {
        var i :| i in U && i < |fates| && PatchIs(f, fates, i, e);
        PatchBelowClose(f, fates, i);
      } else {
        var k: nat, j: nat :| RunIs(f, fates, k, j, e);
        DropBelowClose(f, k, j);
      }
    }
    DistinctConcat(ps + ds, InsertEdits(f, ins));
  }

  /** The three groups of patches cover every patched member. */
  lemma AllPatches(b: string, f: Frame, t: Tier, w: Wire, startObj: nat, closeObj: nat, st: Found, S: seq<nat>,
                   so: seq<Edit>, rp: seq<Edit>)
    requires Scanned(b, f, t, w, startObj, closeObj, st) && S == KeyIdx(f.members, "stream_options", |f.members|)
    requires |Fates(f.members, t, w)| == |f.members|
    requires PatchesAre(f, Fates(f.members, t, w), ToSet(S), so)
    requires PatchesAre(f, Fates(f.members, t, w), ReasoningSet(f), rp)
    ensures FatesOk(f, Fates(f.members, t, w))
    ensures var U := KeySet(f.members, "model", |f.members|) + ToSet(S) + ReasoningSet(f);
            && PatchesAre(f, Fates(f.members, t, w), U, st.edits + so + rp)
            && forall i | 0 <= i < |f.members| && FateOf(f.members, i, t, w).Patch? :: i in U
  {
    ScannedSetting(b, f, t, w, startObj, closeObj, st);
    ScannedFacts(b, f, t, w, startObj, closeObj, st);
    var fates := Fates(f.members, t, w);
    var E, R := KeyIdx(f.members, "reasoning_effort", |f.members|), KeyIdx(f.members, "reasoning", |f.members|);
    hide FateOf, KeyIdx, SpanAt, Depth, FoundUpTo, PatchesAre, FatesOk, Has, First, IsStream, Top, AllShallow;
    KeysApart(f, S, E, R, st);
    PatchesConcat(f, fates, KeySet(f.members, "model", |f.members|), ToSet(S), st.edits, so);
    PatchesConcat(f, fates, KeySet(f.members, "model", |f.members|) + ToSet(S), ReasoningSet(f), st.edits + so, rp);
    forall i | 0 <= i < |f.members| && FateOf(f.members, i, t, w).Patch?
      ensures i in KeySet(f.members, "model", |f.members|) + ToSet(S) + ReasoningSet(f)
    {
      PatchKinds(f.members, i, t, w);
    }
  }

  lemma KeysApart(f: Frame, S: seq<nat>, E: seq<nat>, R: seq<nat>, st: Found)
    requires Collected(f, "stream_options", S, st.so) && Collected(f, "reasoning_effort", E, st.re)
    requires Collected(f, "reasoning", R, st.rs)
    ensures KeySet(f.members, "model", |f.members|) !! ToSet(S)
    ensures (KeySet(f.members, "model", |f.members|) + ToSet(S)) !! (ToSet(E) + ToSet(R))
  {
    Kinds("model");
    Kinds("stream_options");
    Kinds("reasoning");
    Kinds("reasoning_effort");
    hide KindOf, SpanAt;
    forall i: nat | i < |f.members| ensures i in S ==> KindOf(f.members[i].core.key) == StreamOptions {
      assert i in S ==> f.members[i].core.key == "stream_options";
    }
    forall i: nat | i < |f.members| ensures i in E ==> KindOf(f.members[i].core.key) == Effort {
      assert i in E ==> f.members[i].core.key == "reasoning_effort";
    }
    forall i: nat | i < |f.members| ensures i in R ==> KindOf(f.members[i].core.key) == Reasoning {
      assert i in R ==> f.members[i].core.key == "reasoning";
    }
  }

  lemma PatchKinds(ms: seq<Member>, i: nat, t: Tier, w: Wire)
    requires i < |ms| && FateOf(ms, i, t, w).Patch?
    ensures ms[i].core.key == "model" || ms[i].core.key == "stream_options"
            || ms[i].core.key == "reasoning" || ms[i].core.key == "reasoning_effort"
  {
    hide KindOf, EffortFate, ReasoningFate, SetValue, UsageFate, IsStream;
    Kinds(ms[i].core.key);
  }

  // ---------------------------------------------------------------- the whole

  /** One object with nothing but whitespace around it. */
  ghost predicate Framed(b: string, f: Frame) {
    Holds(b, f) && AllWs(f.head) && AllWs(f.rest)
  }

  lemma FrameEdges(b: string, f: Frame)
    requires Framed(b, f)
    ensures |f.head| < f.ClosePos() < |b| && b[|f.head|] == '{' && b[f.ClosePos()] == '}'
    ensures forall p | 0 <= p < |f.head| :: IsWs(b[p])
    ensures forall p | f.ClosePos() < p < |b| :: IsWs(b[p])
  {
    CloseBrace(b, f);
    BodyOpen(f);
    CloseAt(f);
    hide Frame.ClosePos, MemberTail;
    var c := f.ClosePos();
    assert b[..|f.head| + 1][|f.head|] == b[|f.head|];
    assert b[..|f.head|] == b[..|f.head| + 1][..|f.head|] == f.head;
    forall p | 0 <= p < |f.head| ensures IsWs(b[p]) {
      assert b[p] == f.head[p];
    }
    forall p | c < p < |b| ensures IsWs(b[p]) {
      assert b[p] == b[c..][p - c] == f.rest[p - c - 1];
    }
  }

  lemma BraceIsNotWs()
    ensures !IsWs('{') && !IsWs('}')
  {
  }

  /** Braces with nothing but whitespace around them. */
  ghost predicate Edges(b: string, i: int, j: int) {
    && 0 <= i < j < |b| && b[i] == '{' && b[j] == '}'
    && (forall p | 0 <= p < i :: IsWs(b[p])) && (forall p | j < p < |b| :: IsWs(b[p]))
  }

  ghost predicate Braced(b: string) {
    exists i, j :: Edges(b, i, j)
  }

  lemma EdgesUnique(b: string, i: int, j: int, s: int)
    requires Edges(b, i, j) && 0 <= s <= |b| && (forall p | 0 <= p < s :: IsWs(b[p])) && (s < |b| ==> !IsWs(b[s]))
    ensures s == i
    ensures forall c | i <= c < |b| && (forall p | c < p < |b| :: IsWs(b[p])) && !IsWs(b[c]) :: c == j
  {
    BraceIsNotWs();
    hide IsWs;
  }

  /** The bounds of the top-level object. */
  method FindBounds(body: string, ghost f: Frame) returns (ok: bool, startObj: nat, closeObj: nat)
    ensures ok <==> Braced(body)
    ensures ok ==> startObj < closeObj < |body|
    ensures Framed(body, f) ==> ok && startObj == |f.head| && closeObj == f.ClosePos()
  {
    ghost var here := Framed(body, f);
    if here { FrameEdges(body, f); }
    BraceIsNotWs();
    hide *;
    ok, closeObj := false, 0;
    startObj := SkipSpaces(body, 0, |body|);
    if startObj >= |body| || body[startObj] != '{' {
      NotBraced(body, startObj, -1);
      return;
    }
    var c: int := |body| - 1;
    while c > startObj && IsWs(body[c])
      invariant startObj <= c < |body|
      invariant forall p | c < p < |body| :: IsWs(body[p])
      invariant here ==> f.ClosePos() <= c
    {
      c := c - 1;
    }
    if c <= startObj || body[c] != '}' {
      NotBraced(body, startObj, c);
      return;
    }
    ok, closeObj := true, c;
    AreEdges(body, startObj, c);
  }

  lemma AreEdges(b: string, i: int, j: int)
    requires 0 <= i < j < |b| && b[i] == '{' && b[j] == '}'
    requires (forall p | 0 <= p < i :: IsWs(b[p])) && (forall p | j < p < |b| :: IsWs(b[p]))
    ensures Braced(b)
  {
    assert Edges(b, i, j);
  }

  /** What the two early returns have found. */
  lemma NotBraced(b: string, s: int, c: int)
    requires 0 <= s <= |b| && (forall p | 0 <= p < s :: IsWs(b[p])) && (s < |b| ==> !IsWs(b[s]))
    requires if c < 0 then s == |b| || b[s] != '{'
             else s <= c < |b| && (forall p | c < p < |b| :: IsWs(b[p])) && (c == s || (!IsWs(b[c]) && b[c] != '}'))
    ensures !Braced(b)
  {
    if Braced(b) {
      var i, j :| Edges(b, i, j);
      EdgesUnique(b, i, j, s);
    }
  }

  lemma Found4(b: string, f: Frame, t: Tier, w: Wire, startObj: nat, closeObj: nat, st: Found)
    requires Framed(b, f) && startObj == |f.head| && closeObj == f.ClosePos()
    requires AllShallow(f.members, |f.members|) && FoundUpTo(f, t, w, |f.members|, st)
    ensures Scanned(b, f, t, w, startObj, closeObj, st)
  {
    hide Holds, AllShallow, FoundUpTo;
  }

  lemma EditsDone(b: string, f: Frame, t: Tier, w: Wire, startObj: nat, closeObj: nat, st: Found, so: seq<Edit>,
                  rp: seq<Edit>, ds: seq<Edit>, deleted: nat, missing: string, any: bool, ins: string)
    requires Scanned(b, f, t, w, startObj, closeObj, st) && |Fates(f.members, t, w)| == |f.members|
    requires PatchesAre(f, Fates(f.members, t, w), ToSet(KeyIdx(f.members, "stream_options", |f.members|)), so)
    requires Normalised(f, Fates(f.members, t, w), t, w, rp, ds, deleted, missing)
    requires (any <==> st.total > deleted) && ins == InsertText(any, Added(f.members, t, w))
    ensures DistinctStarts(st.edits + so + rp + ds + InsertEdits(f, ins))
    ensures SameEdits(st.edits + so + rp + ds + InsertEdits(f, ins), EditsFor(f, Fates(f.members, t, w), Added(f.members, t, w)))
  {
    hide Scanned, FateOf, KeyIdx, KeySet, PatchesAre, DropsAre, FatesOk, DropSet, Added, InsertText, MissingText, Survivors, Has, IsStream, SameEdits, DistinctStarts;
    var fates := Fates(f.members, t, w);
    var S := KeyIdx(f.members, "stream_options", |f.members|);
    ScannedFacts(b, f, t, w, startObj, closeObj, st);
    AllPatches(b, f, t, w, startObj, closeObj, st, S, so, rp);
    hide Scanned, FateOf, KeyIdx, KeySet, PatchesAre, DropsAre, FatesOk, DropSet, Added, InsertText, MissingText, Survivors, Has, IsStream;
    var idx :| |idx| == deleted && DropSet(fates, idx);
    RemainingOk(f, fates, idx);
    AllEdits(f, fates, KeySet(f.members, "model", |f.members|) + ToSet(S) + ReasoningSet(f), st.edits + so + rp, ds, ins);
  }

  lemma SplicedIs(b: string, f: Frame, t: Tier, w: Wire, es: seq<Edit>)
    requires Framed(b, f) && StrictlySorted(es)
    requires SameEdits(es, EditsFor(f, Fates(f.members, t, w), Added(f.members, t, w)))
    ensures Ordered(es, 0, |b|) && Splice(b, es, 0) == f.head + (Print(Rewritten(f, t, w)) + f.rest)
  {
    hide Print, FateOf, Added, Canon, FatesOk, Edited, Survivors, Frame.Body, Ordered, Splice;
    FatesAllOk(f, t, w);
    AddedOk(f.members, t, w);
    hide ValidCore;
    var fates, cores := Fates(f.members, t, w), Added(f.members, t, w);
    SpliceCanon(f, fates, cores);
    OrderedIsSorted(EditsFor(f, fates, cores), 0, |f.Body()|);
    SortedUnique(es, EditsFor(f, fates, cores));
  }

  lemma NoEdits(b: string)
    ensures Ordered([], 0, |b|) && Splice(b, [], 0) == b
  {
  }

  /**
   The body for the target tier. A body that is one object is rewritten as PayloadSpec.Rewritten says,
   unless one of its values nests too deep for the scanner: then it goes upstream unchanged.
   */
  method ModifyTopLevelPayload(body: string, t: Tier, w: Wire, ghost f: Frame) returns (out: string)
    ensures Framed(body, f) && AllShallow(f.members, |f.members|) ==> out == f.head + (Print(Rewritten(f, t, w)) + f.rest)
    ensures Framed(body, f) && !AllShallow(f.members, |f.members|) ==> out == body
    ensures Framed(body, f) ==> out == Upstream(f, t, w).Body()
    ensures !Braced(body) ==> out == body
  {
    if Framed(body, f) { UpstreamBody(f, t, w); }
    hide *;
    ghost var framed := Framed(body, f);
    if framed { FramedHolds(body, f); }
    var ok, startObj, closeObj := FindBounds(body, f);
    if !ok { return body; }
    var scanned, st := ScanMembers(body, startObj, closeObj, t, f, w);
    if !scanned { return body; }
    ghost var here := framed;
    ghost var fates := Fates(f.members, t, w);
    if here {
      Found4(body, f, t, w, startObj, closeObj, st);
      ScannedFacts(body, f, t, w, startObj, closeObj, st);
      ScannedSetting(body, f, t, w, startObj, closeObj, st);
    }
    SplitIn(st, startObj, closeObj);
    var so := StreamEdits(body, st, startObj, closeObj, f, t, w);
    var rp, ds, deleted, missing := NormaliseReasoning(body, t, w, st.re, st.rs, startObj, closeObj, f, fates);
    var any := st.total > deleted;
    if here { MissingIs(f, fates, t, w, rp, ds, deleted, missing); }
    var ins := Insertion(t, st, missing, any, f.members, w);
    var edits := st.edits + so + rp + ds;
    if |ins| > 0 {
      edits := edits + [Edit(closeObj, closeObj, ins)];
    }
    if here {
      EditsDone(body, f, t, w, startObj, closeObj, st, so, rp, ds, deleted, missing, any, ins);
      InsertsAre(f, ins);
      assert edits == st.edits + so + rp + ds + InsertEdits(f, ins);
    }
    if |edits| == 0 {
      if here { SplicedNone(body, f, t, w, edits); }
      return body;
    }
    var sorted := new Edit[|edits|](i requires 0 <= i < |edits| => edits[i]);
    assert sorted[..] == edits;
    SortEdits(sorted);
    if here {
      SameTrans(sorted[..], edits, EditsFor(f, fates, Added(f.members, t, w)));
      SplicedIs(body, f, t, w, sorted[..]);
    }
    out, ok := SpliceInto(body, sorted[..]);
    if !ok { return body; }
  }

  lemma FramedHolds(b: string, f: Frame)
    requires Framed(b, f)
    ensures Holds(b, f) && b == f.Body()
  {
  }

  lemma UpstreamBody(f: Frame, t: Tier, w: Wire)
    ensures Upstream(f, t, w).Body() ==
            if AllShallow(f.members, |f.members|) then f.head + (Print(Rewritten(f, t, w)) + f.rest) else f.Body()
  {
    hide Fates, Added, Survivors, Inserted, AllShallow;
  }

  lemma SplitIn(st: Found, lo: nat, hi: nat)
    requires AllIn(st, lo, hi)
    ensures FoundIn(st.re, lo, hi) && FoundIn(st.rs, lo, hi) && FoundIn(st.so, lo, hi)
  {
  }

  lemma MissingIs(f: Frame, fates: seq<Fate>, t: Tier, w: Wire, patches: seq<Edit>, drops: seq<Edit>, deleted: nat,
                  missing: string)
    requires Normalised(f, fates, t, w, patches, drops, deleted, missing)
    ensures missing == MissingText(f.members, t, w)
  {
  }

  lemma InsertsAre(f: Frame, ins: string)
    ensures InsertEdits(f, ins) == if ins == "" then [] else [Edit(f.ClosePos(), f.ClosePos(), ins)]
  {
  }

  lemma SplicedNone(b: string, f: Frame, t: Tier, w: Wire, es: seq<Edit>)
    requires Framed(b, f) && es == []
    requires SameEdits(es, EditsFor(f, Fates(f.members, t, w), Added(f.members, t, w)))
    ensures b == f.head + (Print(Rewritten(f, t, w)) + f.rest)
  {
    SplicedIs(b, f, t, w, es);
    NoEdits(b);
  }
}
