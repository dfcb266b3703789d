/**
 The reasoning normalisation of modifyTopLevelPayload (pkg/server/dispatch.go): which reasoning
 members are patched, which are deleted, and which one has to be added.
 */
module PayloadReasoning {
  import opened Wrappers
  import opened Json
  import opened ObjectEdit
  import opened PayloadSpec
  import opened PayloadScan
  import opened PayloadDelete
  import opened PayloadNested

  // ---------------------------------------------------------------- index lists

  ghost function ToSet(idx: seq<nat>): set<nat> {
    set i | i in idx
  }

  /** The spans a scan collected for one key, with the members they belong to. */
  ghost predicate Collected(f: Frame, key: string, idx: seq<nat>, spans: seq<Span>) {
    && SpansAre(f, idx, spans) && Increasing(idx)
    && forall i: nat :: i in idx <==> i < |f.members| && f.members[i].core.key == key
  }

  lemma KeyIdxCollected(f: Frame, key: string, spans: seq<Span>)
    requires SpansAre(f, KeyIdx(f.members, key, |f.members|), spans)
    ensures Collected(f, key, KeyIdx(f.members, key, |f.members|), spans)
    ensures ToSet(KeyIdx(f.members, key, |f.members|)) == KeySet(f.members, key, |f.members|)
  {
    KeyIdxIs(f.members, key, |f.members|);
    var idx := KeyIdx(f.members, key, |f.members|);
    forall i: nat ensures i in idx <==> i < |f.members| && f.members[i].core.key == key {
      if i in idx {
        var j :| 0 <= j < |idx| && idx[j] == i;
      }
    }
  }

  /** The first of the collected members is the first with the key. */
  lemma FirstCollected(f: Frame, key: string, idx: seq<nat>, spans: seq<Span>)
    requires Collected(f, key, idx, spans)
    ensures spans == [] <==> !Has(f.members, key)
    ensures spans != [] ==> idx[0] == First(f.members, key)
  {
    var i := First(f.members, key);
    assert idx != [] ==> idx[0] in idx;
    if i < |f.members| {
      assert i in idx;
      var j :| 0 <= j < |idx| && idx[j] == i;
      assert idx[0] <= idx[j];
    }
  }

  lemma PatchesOnly(f: Frame, fates: seq<Fate>, S: set<nat>, k: nat)
    requires |fates| == |f.members| && k in S && k < |fates| && fates[k].Patch?
    requires forall i | i in S && i < |fates| && i != k :: !fates[i].Patch?
    ensures PatchesAre(f, fates, S, [PatchEdit(f, fates, k)])
  {
    assert PatchIs(f, fates, k, PatchEdit(f, fates, k));
  }

  lemma PatchesPrefix(f: Frame, fates: seq<Fate>, idx: seq<nat>, j: nat, es: seq<Edit>)
    requires FatesOk(f, fates) && Increasing(idx) && j < |idx| && idx[j] < |fates|
    requires PatchesAre(f, fates, ToSet(idx[..j]), es)
    ensures PatchesAre(f, fates, ToSet(idx[..j + 1]),
                       es + if fates[idx[j]].Patch? then [PatchEdit(f, fates, idx[j])] else [])
  {
    hide FatesOk, PatchesAre;
    assert idx[..j + 1] == idx[..j] + [idx[j]];
    assert ToSet(idx[..j + 1]) == ToSet(idx[..j]) + {idx[j]};
    PatchesAdd(f, fates, ToSet(idx[..j]), es, idx[j]);
  }

  /** The members of `idx` that are dropped are exactly `dropped`, in the same order. */
  ghost predicate DroppedOf(fates: seq<Fate>, idx: seq<nat>, dropped: seq<nat>) {
    Increasing(dropped) && forall i: nat :: i in dropped <==> i in idx && i < |fates| && fates[i].Drop?
  }

  lemma DroppedPrefix(fates: seq<Fate>, idx: seq<nat>, j: nat, dropped: seq<nat>)
    requires Increasing(idx) && j < |idx| && idx[j] < |fates| && DroppedOf(fates, idx[..j], dropped)
    ensures DroppedOf(fates, idx[..j + 1], dropped + if fates[idx[j]].Drop? then [idx[j]] else [])
  {
    assert idx[..j + 1] == idx[..j] + [idx[j]];
    forall x | 0 <= x < |dropped| ensures dropped[x] < idx[j] {
      assert dropped[x] in dropped;
      var y :| 0 <= y < j && idx[..j][y] == dropped[x];
      assert idx[y] < idx[j];
    }
  }

  /** Two kinds of members make up everything that is dropped. */
  lemma DropUnion(fates: seq<Fate>, a: seq<nat>, b: seq<nat>)
    requires Increasing(a) && Increasing(b) && (forall i | i in a :: i !in b)
    requires forall i: nat :: i in a || i in b <==> i < |fates| && fates[i].Drop?
    ensures DropSet(fates, a + b)
  {
    var c := a + b;
    forall x, y | 0 <= x < |c| && 0 <= y < |c| && x != y ensures c[x] != c[y] {
      assert if x < |a| then c[x] == a[x] && c[x] in a else c[x] == b[x - |a|] && c[x] in b;
      assert if y < |a| then c[y] == a[y] && c[y] in a else c[y] == b[y - |a|] && c[y] in b;
    }
  }

  lemma SpansConcat(f: Frame, a: seq<nat>, s: seq<Span>, b: seq<nat>, t: seq<Span>)
    requires SpansAre(f, a, s) && SpansAre(f, b, t)
    ensures SpansAre(f, a + b, s + t)
  {
    hide SpanAt;
  }

  // ---------------------------------------------------------------- the result

  /** The setting: the object, what was scanned of it, and what has to become of it. */
  ghost predicate Setting(body: string, f: Frame, fates: seq<Fate>, t: Tier, w: Wire, startObj: nat, closeObj: nat,
                          re: seq<Span>, rs: seq<Span>) {
    && Top(body, f, startObj, closeObj) && fates == Fates(f.members, t, w) && FatesOk(f, fates)
    && AllShallow(f.members, |f.members|)
    && Collected(f, "reasoning_effort", KeyIdx(f.members, "reasoning_effort", |f.members|), re)
    && Collected(f, "reasoning", KeyIdx(f.members, "reasoning", |f.members|), rs)
  }

  /** The two reasoning keys. */
  ghost function ReasoningSet(f: Frame): set<nat> {
    ToSet(KeyIdx(f.members, "reasoning_effort", |f.members|)) + ToSet(KeyIdx(f.members, "reasoning", |f.members|))
  }

  /** `patches` and `drops` are what the fates of the reasoning members ask for, `deleted` members go. */
  ghost predicate Normalised(f: Frame, fates: seq<Fate>, t: Tier, w: Wire, patches: seq<Edit>, drops: seq<Edit>, deleted: nat,
                             missing: string) {
    && |fates| == |f.members|
    && PatchesAre(f, fates, ReasoningSet(f), patches)
    && DropsAre(f, fates, drops)
    && (exists idx :: |idx| == deleted && DropSet(fates, idx))
    && missing == MissingText(f.members, t, w)
  }

  function MissingText(ms: seq<Member>, t: Tier, w: Wire): string {
    var added := AddedReasoning(ms, t, w);
    if added == [] then "" else CoreText(added[0])
  }

  /** Only reasoning members are ever dropped, and when. */
  lemma DropKinds(ms: seq<Member>, i: nat, t: Tier, w: Wire)
    requires i < |ms|
    ensures var c, fate := ms[i].core, FateOf(ms, i, t, w);
            fate.Drop? <==>
              if t.effort != "" then
                w.nested &&
                if c.key == "reasoning" then i != First(ms, "reasoning")
                else c.key == "reasoning_effort" &&
                     if Has(ms, "reasoning") then w.stripFlatOnNested else i != First(ms, "reasoning_effort")
              else
                w.forbidsEffortNone &&
                if c.key == "reasoning" then HasEffortNone(c.val) && SoleEffort(c.val)
                else c.key == "reasoning_effort" && EffortNone(c.val)
  {
    hide Print, CoreText, UsageFate, First, KindOf, Edited, DropEdit, EffortNone, SoleEffort;
    Kinds(ms[i].core.key);
    Kinds("reasoning");
    FateKinds(ms[i].core);
  }

  /** Which reasoning member is patched under a nested dialect with a tier effort. */
  lemma NestedPatch(ms: seq<Member>, i: nat, t: Tier, w: Wire)
    requires i < |ms| && t.effort != "" && w.nested
    ensures var c, fate := ms[i].core, FateOf(ms, i, t, w);
            && (c.key == "reasoning" ==>
                 if i == First(ms, "reasoning") then fate == SetValue(c, EffortObject(t)) else fate.Drop?)
            && (c.key == "reasoning_effort" ==>
                 if Has(ms, "reasoning") then !fate.Patch?
                 else if i == First(ms, "reasoning_effort") then fate == RenameFate(c, t) else fate.Drop?)
  {
    hide Print, CoreText, First, KindOf, SetValue, RenameFate;
    Kinds(ms[i].core.key);
  }

  lemma FateKinds(c: Core)
    ensures UsageFate(c).Patch?
  {
    hide Print, CoreText, Edited, PatchEdit, DropEdit, InsertEdit, InsertText, First;
  }

  // ---------------------------------------------------------------- the branches

  /** The value of the first nested member is set; the other reasoning members go. */
  method ReplaceFirst(body: string, t: Tier, w: Wire, re: seq<Span>, rs: seq<Span>, startObj: nat, closeObj: nat,
                      ghost f: Frame, ghost fates: seq<Fate>)
    returns (patches: seq<Edit>, drops: seq<Edit>, deleted: nat)
    requires t.effort != "" && w.nested && rs != [] && startObj < closeObj <= |body|
    requires SpansIn(re, startObj, closeObj) && SpansIn(rs, startObj, closeObj) && rs[0].vStart <= rs[0].vEnd
    ensures Setting(body, f, fates, t, w, startObj, closeObj, re, rs) ==>
              Normalised(f, fates, t, w, patches, drops, deleted, "")
  {
    ghost var here := Setting(body, f, fates, t, w, startObj, closeObj, re, rs);
    ghost var idx: seq<nat> := [];
    var delSpans := if w.stripFlatOnNested then rs[1..] + re else rs[1..];
    if here {
      idx := KeyIdx(f.members, "reasoning", |f.members|)[1..] +
             if w.stripFlatOnNested then KeyIdx(f.members, "reasoning_effort", |f.members|) else [];
      ReplaceFirstOk(body, f, fates, t, w, startObj, closeObj, re, rs, idx, delSpans);
    }
    hide *;
    patches := [Edit(rs[0].vStart, rs[0].vEnd, "{\"effort\":" + Quoted(Escape(t.effort)) + "}")];
    if here { EffortObjectText(t); }
    deleted := |delSpans|;
    SpansTail(re, rs, startObj, closeObj);
    drops := DeleteEdits(body, delSpans, startObj, closeObj, f, fates, idx);
    if here { assert |idx| == deleted && DropSet(fates, idx); NormalisedIntro(f, fates, t, w, patches, drops, deleted, "", idx); }
  }

  lemma SpansTail(re: seq<Span>, rs: seq<Span>, lo: nat, hi: nat)
    requires SpansIn(re, lo, hi) && SpansIn(rs, lo, hi)
    ensures rs != [] ==> SpansIn(rs[1..] + re, lo, hi) && SpansIn(rs[1..], lo, hi)
    ensures re != [] ==> SpansIn(re[1..], lo, hi)
  {
  }

  lemma EffortObjectText(t: Tier)
    ensures Print(EffortObject(t)) == "{\"effort\":" + Quoted(Escape(t.effort)) + "}"
    ensures Print(TargetEffort(t)) == Quoted(Escape(t.effort))
  {
    var q := Quoted(Escape(t.effort));
    PrintStr(Escape(t.effort));
    KeyText("effort", TargetEffort(t));
    hide Escape, Quoted;
    SingleTexts(Core("effort", "", "", TargetEffort(t)));
    assert "{" + ("\"effort\":" + q) + "}" == "{\"effort\":" + q + "}";
  }

  lemma KeyText(key: string, v: Json)
    ensures CoreText(Core(key, "", "", v)) == Quoted(key) + (":" + Print(v))
    ensures CoreText(Core(key, "", "", v)) == "\"" + key + "\":" + Print(v)
  {
    hide Print;
    assert "" + (":" + ("" + Print(v))) == ":" + Print(v);
    assert Quoted(key) + (":" + Print(v)) == "\"" + key + "\":" + Print(v);
  }

  lemma NormalisedIntro(f: Frame, fates: seq<Fate>, t: Tier, w: Wire, patches: seq<Edit>, drops: seq<Edit>, deleted: nat,
                        missing: string, idx: seq<nat>)
    requires |fates| == |f.members| && PatchesAre(f, fates, ReasoningSet(f), patches) && DropsAre(f, fates, drops)
    requires |idx| == deleted && DropSet(fates, idx) && missing == MissingText(f.members, t, w)
    ensures Normalised(f, fates, t, w, patches, drops, deleted, missing)
  {
  }

  lemma ReplaceFirstOk(b: string, f: Frame, fates: seq<Fate>, t: Tier, w: Wire, startObj: nat, closeObj: nat,
                       re: seq<Span>, rs: seq<Span>, idx: seq<nat>, delSpans: seq<Span>)
    requires Setting(b, f, fates, t, w, startObj, closeObj, re, rs) && t.effort != "" && w.nested && rs != []
    requires idx == KeyIdx(f.members, "reasoning", |f.members|)[1..] +
                    if w.stripFlatOnNested then KeyIdx(f.members, "reasoning_effort", |f.members|) else []
    requires delSpans == if w.stripFlatOnNested then rs[1..] + re else rs[1..]
    ensures Top(b, f, startObj, closeObj) && |fates| == |f.members| && |idx| == |delSpans|
    ensures SpansAre(f, idx, delSpans) && DropSet(fates, idx) && MissingText(f.members, t, w) == ""
    ensures PatchesAre(f, fates, ReasoningSet(f), [Edit(rs[0].vStart, rs[0].vEnd, Print(EffortObject(t)))])
  {
    var ms, n := f.members, |f.members|;
    var R, E := KeyIdx(ms, "reasoning", n), KeyIdx(ms, "reasoning_effort", n);
    var tail := if w.stripFlatOnNested then E else [];
    FirstCollected(f, "reasoning", R, rs);
    ReplacePatch(f, fates, t, w, re, rs, R, E);
    TailMembers(R);
    assert SpansAre(f, R[1..], rs[1..]) by { TailSpans(f, R, rs); }
    SpansConcat(f, R[1..], rs[1..], E, re);
    assert R[1..] + [] == R[1..];
    ReplaceDrops(f, fates, t, w, re, rs, R, E, R[1..], tail);
    DropUnion(fates, R[1..], tail);
  }

  lemma TailMembers(idx: seq<nat>)
    requires Increasing(idx) && idx != []
    ensures Increasing(idx[1..]) && forall i :: i in idx[1..] <==> i in idx && i != idx[0]
  {
    forall i ensures i in idx[1..] <==> i in idx && i != idx[0] {
      if i in idx[1..] {
        var j :| 0 <= j < |idx[1..]| && idx[1..][j] == i;
        assert idx[j + 1] == i;
      }
      assert idx == [idx[0]] + idx[1..];
    }
  }

  lemma TailSpans(f: Frame, idx: seq<nat>, spans: seq<Span>)
    requires SpansAre(f, idx, spans) && spans != []
    ensures SpansAre(f, idx[1..], spans[1..])
  {
    hide SpanAt;
  }

  lemma ReplacePatch(f: Frame, fates: seq<Fate>, t: Tier, w: Wire, re: seq<Span>, rs: seq<Span>, R: seq<nat>, E: seq<nat>)
    requires fates == Fates(f.members, t, w) && t.effort != "" && w.nested && rs != []
    requires R == KeyIdx(f.members, "reasoning", |f.members|) && E == KeyIdx(f.members, "reasoning_effort", |f.members|)
    requires Collected(f, "reasoning", R, rs) && Collected(f, "reasoning_effort", E, re)
    ensures PatchesAre(f, fates, ReasoningSet(f), [Edit(rs[0].vStart, rs[0].vEnd, Print(EffortObject(t)))])
  {
    var ms := f.members;
    FirstCollected(f, "reasoning", R, rs);
    hide FateOf, First, KeyIdx, SetValue, Print, EffortObject, SpanAt;
    var k := R[0];
    assert k in R;
    NestedPatch(ms, k, t, w);
    SetIsPatch(ms[k].core, EffortObject(t));
    SetEdit(f, fates, k, EffortObject(t));
    forall i | i in ReasoningSet(f) && i != k ensures i < |fates| && !fates[i].Patch? {
      assert i in R || i in E;
      NestedPatch(ms, i, t, w);
    }
    PatchesOnly(f, fates, ReasoningSet(f), k);
  }

  lemma SetIsPatch(c: Core, v: Json)
    ensures SetValue(c, v).Patch?
  {
  }

  lemma ReplaceDrops(f: Frame, fates: seq<Fate>, t: Tier, w: Wire, re: seq<Span>, rs: seq<Span>, R: seq<nat>, E: seq<nat>,
                     a: seq<nat>, b: seq<nat>)
    requires fates == Fates(f.members, t, w) && t.effort != "" && w.nested && rs != []
    requires Collected(f, "reasoning", R, rs) && Collected(f, "reasoning_effort", E, re)
    requires forall i :: i in a <==> i in R && i != R[0]
    requires b == if w.stripFlatOnNested then E else []
    ensures Increasing(b) && (forall i | i in a :: i !in b)
    ensures forall i: nat :: i in a || i in b <==> i < |fates| && fates[i].Drop?
    ensures MissingText(f.members, t, w) == ""
  {
    FirstCollected(f, "reasoning", R, rs);
    hide FateOf, First;
    forall i: nat ensures i in a || i in b <==> i < |fates| && fates[i].Drop? {
      if i < |fates| { DropKinds(f.members, i, t, w); }
    }
  }

  /** The first flat member becomes a nested one; its duplicates go. */
  method RenameFirst(body: string, t: Tier, w: Wire, re: seq<Span>, rs: seq<Span>, startObj: nat, closeObj: nat,
                     ghost f: Frame, ghost fates: seq<Fate>)
    returns (patches: seq<Edit>, drops: seq<Edit>, deleted: nat)
    requires t.effort != "" && w.nested && rs == [] && re != [] && startObj < closeObj <= |body|
    requires SpansIn(re, startObj, closeObj)
    ensures Setting(body, f, fates, t, w, startObj, closeObj, re, rs) ==>
              Normalised(f, fates, t, w, patches, drops, deleted, "")
  {
    ghost var here := Setting(body, f, fates, t, w, startObj, closeObj, re, rs);
    ghost var idx: seq<nat> := [];
    if here {
      RenameFirstOk(body, f, fates, t, w, startObj, closeObj, re, rs);
      idx := KeyIdx(f.members, "reasoning_effort", |f.members|)[1..];
    }
    hide *;
    patches := [Edit(re[0].kStart, re[0].vEnd, "\"reasoning\":" + ("{\"effort\":" + Quoted(Escape(t.effort)) + "}"))];
    if here {
      EffortObjectText(t);
      KeyText("reasoning", EffortObject(t));
      ReasoningKey();
    }
    deleted := |re| - 1;
    SpansTail(re, rs, startObj, closeObj);
    drops := DeleteEdits(body, re[1..], startObj, closeObj, f, fates, idx);
    if here { NormalisedIntro(f, fates, t, w, patches, drops, deleted, "", idx); }
  }

  lemma ReasoningKey()
    ensures "\"" + "reasoning" + "\":" == "\"reasoning\":"
    ensures "\"" + "reasoning_effort" + "\":" == "\"reasoning_effort\":"
    ensures "\"" + "model" + "\":" == "\"model\":"
  {
  }

  lemma RenameFirstOk(b: string, f: Frame, fates: seq<Fate>, t: Tier, w: Wire, startObj: nat, closeObj: nat,
                      re: seq<Span>, rs: seq<Span>)
    requires Setting(b, f, fates, t, w, startObj, closeObj, re, rs)
    requires t.effort != "" && w.nested && rs == [] && re != []
    ensures Top(b, f, startObj, closeObj) && |fates| == |f.members| && MissingText(f.members, t, w) == ""
    ensures var idx := KeyIdx(f.members, "reasoning_effort", |f.members|);
            |idx| == |re| && SpansAre(f, idx[1..], re[1..]) && DropSet(fates, idx[1..])
    ensures PatchesAre(f, fates, ReasoningSet(f),
              [Edit(re[0].kStart, re[0].vEnd, CoreText(Core("reasoning", "", "", EffortObject(t))))])
  {
    hide FatesOk, AllShallow, Holds, FateOf, First, MissingText, PatchesAre, ReasoningSet, CoreText, SpanAt;
    RenameParts(f, fates, t, w, re, rs, KeyIdx(f.members, "reasoning", |f.members|),
                KeyIdx(f.members, "reasoning_effort", |f.members|));
  }

  lemma RenameParts(f: Frame, fates: seq<Fate>, t: Tier, w: Wire, re: seq<Span>, rs: seq<Span>, R: seq<nat>, E: seq<nat>)
    requires fates == Fates(f.members, t, w) && t.effort != "" && w.nested && rs == [] && re != []
    requires R == KeyIdx(f.members, "reasoning", |f.members|) && E == KeyIdx(f.members, "reasoning_effort", |f.members|)
    requires Collected(f, "reasoning_effort", E, re) && Collected(f, "reasoning", R, rs)
    ensures MissingText(f.members, t, w) == "" && |E| == |re|
    ensures SpansAre(f, E[1..], re[1..]) && DropSet(fates, E[1..])
    ensures PatchesAre(f, fates, ReasoningSet(f),
              [Edit(re[0].kStart, re[0].vEnd, CoreText(Core("reasoning", "", "", EffortObject(t))))])
  {
    FirstCollected(f, "reasoning", R, rs);
    FirstCollected(f, "reasoning_effort", E, re);
    hide KeyIdx, First, FateOf, SpanAt, PatchesAre, CoreText, EffortObject, ReasoningSet, MissingText;
    RenamePatch(f, fates, t, w, re, R, E);
    TailMembers(E);
    TailSpans(f, E, re);
    RenameDrops(f, fates, t, w, R, E, E[1..]);
    DropAlone(fates, E[1..]);
  }

  lemma DropAlone(fates: seq<Fate>, a: seq<nat>)
    requires Increasing(a) && forall i: nat :: i in a <==> i < |fates| && fates[i].Drop?
    ensures DropSet(fates, a)
  {
    var none: seq<nat> := [];
    DropUnion(fates, a, none);
    assert a + none == a;
  }

  lemma RenamePatch(f: Frame, fates: seq<Fate>, t: Tier, w: Wire, re: seq<Span>, R: seq<nat>, E: seq<nat>)
    requires fates == Fates(f.members, t, w) && t.effort != "" && w.nested && re != [] && !Has(f.members, "reasoning")
    requires R == KeyIdx(f.members, "reasoning", |f.members|) && R == [] && E == KeyIdx(f.members, "reasoning_effort", |f.members|)
    requires Collected(f, "reasoning_effort", E, re) && E[0] == First(f.members, "reasoning_effort")
    ensures PatchesAre(f, fates, ReasoningSet(f),
              [Edit(re[0].kStart, re[0].vEnd, CoreText(Core("reasoning", "", "", EffortObject(t))))])
  {
    var ms := f.members;
    hide FateOf, First, KeyIdx, EffortObject;
    var k := E[0];
    assert k in E;
    NestedPatch(ms, k, t, w);
    RenameEdit(f, fates, t, k);
    hide CoreText, SpanAt, RenameFate;
    forall i | i in ReasoningSet(f) && i != k ensures i < |fates| && !fates[i].Patch? {
      assert i in E;
      NestedPatch(ms, i, t, w);
    }
    PatchesOnly(f, fates, ReasoningSet(f), k);
  }

  lemma RenameEdit(f: Frame, fates: seq<Fate>, t: Tier, k: nat)
    requires k < |f.members| && |fates| == |f.members| && fates[k] == RenameFate(f.members[k].core, t)
    ensures fates[k].Patch?
    ensures PatchEdit(f, fates, k) ==
            Edit(SpanAt(f, k).kStart, SpanAt(f, k).vEnd, CoreText(Core("reasoning", "", "", EffortObject(t))))
  {
    hide EffortObject, Print;
    SpanStart(f, k);
    SpanEnd(f, k);
  }

  lemma RenameDrops(f: Frame, fates: seq<Fate>, t: Tier, w: Wire, R: seq<nat>, E: seq<nat>, a: seq<nat>)
    requires fates == Fates(f.members, t, w) && t.effort != "" && w.nested && !Has(f.members, "reasoning")
    requires forall i: nat :: i in R <==> i < |f.members| && f.members[i].core.key == "reasoning"
    requires R == [] && E != [] && E[0] == First(f.members, "reasoning_effort") < |f.members|
    requires forall i: nat :: i in E <==> i < |f.members| && f.members[i].core.key == "reasoning_effort"
    requires forall i :: i in a <==> i in E && i != E[0]
    ensures forall i: nat :: i in a <==> i < |fates| && fates[i].Drop?
    ensures MissingText(f.members, t, w) == ""
  {
    hide FateOf, First;
    forall i: nat ensures i in a <==> i < |fates| && fates[i].Drop? {
      if i < |fates| {
        DropKinds(f.members, i, t, w);
        assert i in R <==> f.members[i].core.key == "reasoning";
      }
    }
  }

  /** No reasoning member is patched or dropped. */
  lemma NoReasoningWork(f: Frame, fates: seq<Fate>, t: Tier, w: Wire, missing: string)
    requires |fates| == |f.members| && missing == MissingText(f.members, t, w)
    requires forall i | 0 <= i < |fates| :: !fates[i].Drop?
    requires forall i | i in ReasoningSet(f) && i < |fates| :: !fates[i].Patch?
    ensures Normalised(f, fates, t, w, [], [], 0, missing)
  {
    PatchesNone(f, fates, ReasoningSet(f));
    var idx: seq<nat> := [];
    assert DropSet(fates, idx);
    DropsNone(f, fates);
    NormalisedIntro(f, fates, t, w, [], [], 0, missing, idx);
  }

  lemma NestedMissingOk(b: string, f: Frame, fates: seq<Fate>, t: Tier, w: Wire, startObj: nat, closeObj: nat,
                        re: seq<Span>, rs: seq<Span>)
    requires Setting(b, f, fates, t, w, startObj, closeObj, re, rs)
    requires t.effort != "" && w.nested && rs == [] && re == []
    ensures Normalised(f, fates, t, w, [], [], 0, CoreText(Core("reasoning", "", "", EffortObject(t))))
  {
    var ms, n := f.members, |f.members|;
    var R, E := KeyIdx(ms, "reasoning", n), KeyIdx(ms, "reasoning_effort", n);
    FirstCollected(f, "reasoning", R, rs);
    FirstCollected(f, "reasoning_effort", E, re);
    hide FateOf, First, KeyIdx, CoreText, EffortObject;
    forall i | 0 <= i < |fates| ensures !fates[i].Drop? {
      DropKinds(ms, i, t, w);
      assert i in R <==> ms[i].core.key == "reasoning";
      assert i in E <==> ms[i].core.key == "reasoning_effort";
    }
    assert ReasoningSet(f) == {};
    NoReasoningWork(f, fates, t, w, CoreText(Core("reasoning", "", "", EffortObject(t))));
  }

  /** A flat dialect: every flat member carries the effort of the tier. */
  method FlatEffort(body: string, t: Tier, w: Wire, re: seq<Span>, rs: seq<Span>, startObj: nat, closeObj: nat,
                    ghost f: Frame, ghost fates: seq<Fate>)
    returns (patches: seq<Edit>)
    requires t.effort != "" && !w.nested && re != []
    ensures Setting(body, f, fates, t, w, startObj, closeObj, re, rs) ==> Normalised(f, fates, t, w, patches, [], 0, "")
  {
    ghost var here := Setting(body, f, fates, t, w, startObj, closeObj, re, rs);
    ghost var E: seq<nat> := [];
    if here {
      E := KeyIdx(f.members, "reasoning_effort", |f.members|);
      FlatStart(f, fates, E, re);
    }
    hide *;
    patches := [];
    var j := 0;
    while j < |re|
      invariant j <= |re|
      invariant here ==> |E| == |re| && PatchesAre(f, fates, ToSet(E[..j]), patches) && |fates| == |f.members|
    {
      if here { FlatStep(body, f, fates, t, w, startObj, closeObj, re, rs, E, j, patches); }
      patches := patches + [Edit(re[j].vStart, re[j].vEnd, Quoted(Escape(t.effort)))];
      j := j + 1;
    }
    if here { FlatDone(body, f, fates, t, w, startObj, closeObj, re, rs, E, patches); }
  }

  lemma FlatStart(f: Frame, fates: seq<Fate>, E: seq<nat>, re: seq<Span>)
    requires |fates| == |f.members| && SpansAre(f, E, re)
    ensures |E| == |re| && PatchesAre(f, fates, ToSet(E[..0]), [])
  {
    PatchesNone(f, fates, {});
    assert ToSet(E[..0]) == {};
  }

  lemma FlatKind(ms: seq<Member>, i: nat, t: Tier, w: Wire)
    requires i < |ms| && t.effort != "" && !w.nested
    ensures var c, fate := ms[i].core, FateOf(ms, i, t, w);
            && (c.key == "reasoning_effort" ==> fate == SetValue(c, TargetEffort(t)))
            && (c.key == "reasoning" ==> fate.Keep?)
  {
    hide Print, CoreText, First, KindOf, SetValue;
    Kinds(ms[i].core.key);
  }

  lemma FlatStep(b: string, f: Frame, fates: seq<Fate>, t: Tier, w: Wire, startObj: nat, closeObj: nat,
                 re: seq<Span>, rs: seq<Span>, E: seq<nat>, j: nat, es: seq<Edit>)
    requires Setting(b, f, fates, t, w, startObj, closeObj, re, rs) && t.effort != "" && !w.nested
    requires E == KeyIdx(f.members, "reasoning_effort", |f.members|) && j < |re| && |E| == |re|
    requires PatchesAre(f, fates, ToSet(E[..j]), es)
    ensures PatchesAre(f, fates, ToSet(E[..j + 1]), es + [Edit(re[j].vStart, re[j].vEnd, Quoted(Escape(t.effort)))])
  {
    var k := E[j];
    assert k in E;
    hide FateOf, First, KeyIdx, SetValue, Print, SpanAt, PatchesAre, FatesOk;
    FlatKind(f.members, k, t, w);
    SetIsPatch(f.members[k].core, TargetEffort(t));
    SetEdit(f, fates, k, TargetEffort(t));
    EffortObjectText(t);
    PatchesPrefix(f, fates, E, j, es);
  }

  lemma FlatDone(b: string, f: Frame, fates: seq<Fate>, t: Tier, w: Wire, startObj: nat, closeObj: nat,
                 re: seq<Span>, rs: seq<Span>, E: seq<nat>, es: seq<Edit>)
    requires Setting(b, f, fates, t, w, startObj, closeObj, re, rs) && t.effort != "" && !w.nested && re != []
    requires E == KeyIdx(f.members, "reasoning_effort", |f.members|) && |E| == |re|
    requires PatchesAre(f, fates, ToSet(E[..|re|]), es)
    ensures Normalised(f, fates, t, w, es, [], 0, "")
  {
    var R := KeyIdx(f.members, "reasoning", |f.members|);
    assert E[..|re|] == E;
    FirstCollected(f, "reasoning_effort", E, re);
    hide FateOf, First, KeyIdx, Print, SpanAt, SetValue, PatchesAre, MissingText, CoreText, FatesOk, AllShallow, Holds, DropsAre;
    forall i | i in ToSet(R) && i < |fates| ensures !fates[i].Patch? {
      FlatKind(f.members, i, t, w);
    }
    PatchesNone(f, fates, ToSet(R));
    KeySetsApart(f, E, R, re, rs);
    PatchesConcat(f, fates, ToSet(E), ToSet(R), es, []);
    assert es + [] == es;
    forall i | 0 <= i < |fates| ensures !fates[i].Drop? {
      DropKinds(f.members, i, t, w);
    }
    var idx: seq<nat> := [];
    assert DropSet(fates, idx);
    DropsNone(f, fates);
    NormalisedIntro(f, fates, t, w, es, [], 0, "", idx);
  }

  lemma KeySetsApart(f: Frame, E: seq<nat>, R: seq<nat>, re: seq<Span>, rs: seq<Span>)
    requires Collected(f, "reasoning_effort", E, re) && Collected(f, "reasoning", R, rs)
    ensures ToSet(E) !! ToSet(R)
  {
    var a, b := "reasoning_effort", "reasoning";
    assert a != b;
  }

  // ---------------------------------------------------------------- a provider that refuses "none"

  /** The span belongs to a member whose fate is the one for nested efforts. */
  ghost predicate NoneHere(b: string, f: Frame, fates: seq<Fate>, k: nat, sp: Span) {
    AtMember(b, f, k, sp) && |fates| == |f.members| && fates[k] == NoneEffortFate(f.members[k].core)
  }

  lemma NoneStart(b: string, f: Frame, fates: seq<Fate>, k: nat, sp: Span)
    requires NoneHere(b, f, fates, k, sp)
    ensures k < |f.members| == |fates| && sp == SpanAt(f, k)
    ensures sp.vStart < sp.vEnd <= |b| && !IsWs(b[sp.vStart])
    ensures !f.members[k].core.val.Obj? ==> b[sp.vStart] != '{' && fates[k].Keep?
    ensures f.members[k].core.val.Obj? ==> sp.vStart <= |f.Body()| && Fills(b, Within(f, k), sp.vStart, sp.vEnd)
  {
    ValueEnds(b, f, k);
    if f.members[k].core.val.Obj? { WithinFills(b, f, k, sp); }
    hide Fills, Within, Holds, SpanAt;
  }

  /** The fate of an object, in terms of positions in the body. */
  lemma NoneFound(b: string, f: Frame, fates: seq<Fate>, k: nat, sp: Span, g: Frame)
    requires NoneHere(b, f, fates, k, sp) && k < |f.members| && f.members[k].core.val.Obj?
    requires sp.vStart <= |f.Body()| && g == Within(f, k)
    ensures var v := Obj(g.members, g.gap);
            && (!HasEffortNone(v) ==> fates[k].Keep?)
            && (HasEffortNone(v) ==> Has(g.members, "effort"))
            && (HasEffortNone(v) && SoleEffort(v) ==> fates[k].Drop?)
            && (HasEffortNone(v) && !SoleEffort(v) ==>
                 var j := First(g.members, "effort");
                 && fates[k].Patch? && PatchEdit(f, fates, k) == DropEdit(g, j, j + 1)
                 && DropsRun(b, g, j, j + 1, SpanAt(g, j).kStart, SpanAt(g, j).vEnd, sp.vStart, sp.vEnd))
  {
    WithinHolds(b, f, k);
    hide Print, CoreText, Edited, Holds, Frame.Body, EffortNone, DropEdit;
    var c := f.members[k].core;
    var v := c.val;
    assert v == Obj(g.members, g.gap);
    if HasEffortNone(v) && !SoleEffort(v) {
      var j := First(g.members, "effort");
      var inner := Only(|g.members|, j, Drop);
      ShiftedEdits(g, v, inner, j, "");
      InsideEdit(f, fates, k, DropEdit(Inner(v), j, j + 1), Edited(Inner(v), inner, []));
      SpanEnd(g, j);
      SpanStart(g, j);
    }
  }

  /** What becomes of one nested reasoning value: the member goes, or only its effort. */
  method NestedNone(body: string, sp: Span, ghost f: Frame, ghost fates: seq<Fate>, ghost k: nat, ghost here: bool)
    returns (drop: bool, patch: seq<Edit>)
    requires sp.vStart < sp.vEnd <= |body|
    requires here ==> NoneHere(body, f, fates, k, sp)
    ensures here ==> k < |fates| == |f.members| && (drop <==> fates[k].Drop?) &&
                     patch == if fates[k].Patch? then [PatchEdit(f, fates, k)] else []
  {
    hide *;
    ghost var g := Frame("", [], "", "");
    ghost var j := 0;
    if here {
      NoneStart(body, f, fates, k, sp);
      if f.members[k].core.val.Obj? {
        g := Within(f, k);
        NoneFound(body, f, fates, k, sp, g);
        j := First(g.members, "effort");
      }
    }
    var sole, none, eff := NestedReasoningSoleEffort(body, sp.vStart, sp.vEnd, g);
    drop, patch := none && sole, [];
    if none && !sole {
      var s, e := DeleteMemberSpan(body, eff.kStart, eff.vEnd, sp.vStart, sp.vEnd, g, j, j + 1);
      patch := [Edit(s, e, "")];
    }
  }

  lemma ForbidKind(ms: seq<Member>, i: nat, t: Tier, w: Wire)
    requires i < |ms| && t.effort == "" && w.forbidsEffortNone
    ensures var c, fate := ms[i].core, FateOf(ms, i, t, w);
            && (c.key == "reasoning_effort" ==> fate == if EffortNone(c.val) then Drop else Keep)
            && (c.key == "reasoning" ==> fate == NoneEffortFate(c))
  {
    hide Print, CoreText, First, KindOf, NoneEffortFate, EffortNone;
    Kinds(ms[i].core.key);
  }

  lemma ForbidStart(f: Frame, fates: seq<Fate>, idx: seq<nat>, spans: seq<Span>)
    requires |fates| == |f.members| && SpansAre(f, idx, spans)
    ensures |idx| == |spans| && DroppedOf(fates, idx[..0], []) && SpansAre(f, [], [])
    ensures PatchesAre(f, fates, ToSet(idx[..0]), [])
  {
    PatchesNone(f, fates, {});
    assert ToSet(idx[..0]) == {};
    var none: seq<nat> := [];
    assert DroppedOf(fates, idx[..0], none);
  }

  lemma SettingStarts(b: string, f: Frame, fates: seq<Fate>, t: Tier, w: Wire, startObj: nat, closeObj: nat,
                      re: seq<Span>, rs: seq<Span>)
    requires Setting(b, f, fates, t, w, startObj, closeObj, re, rs)
    ensures |fates| == |f.members| && FatesOk(f, fates) && Top(b, f, startObj, closeObj)
    ensures SpansAre(f, KeyIdx(f.members, "reasoning_effort", |f.members|), re)
    ensures SpansAre(f, KeyIdx(f.members, "reasoning", |f.members|), rs)
  {
  }

  /** One more span is deleted exactly when its member is dropped. */
  lemma DropStep(f: Frame, fates: seq<Fate>, idx: seq<nat>, spans: seq<Span>, j: nat, gone: seq<nat>, del: seq<Span>)
    requires Increasing(idx) && SpansAre(f, idx, spans) && j < |spans| && |fates| == |f.members|
    requires DroppedOf(fates, idx[..j], gone) && SpansAre(f, gone, del)
    ensures |idx| == |spans| && idx[j] < |fates|
    ensures fates[idx[j]].Drop? ==> DroppedOf(fates, idx[..j + 1], gone + [idx[j]]) && SpansAre(f, gone + [idx[j]], del + [spans[j]])
    ensures !fates[idx[j]].Drop? ==> DroppedOf(fates, idx[..j + 1], gone)
  {
    hide SpanAt, DroppedOf;
    DroppedPrefix(fates, idx, j, gone);
    assert gone + [] == gone;
  }

  lemma ForbidFlat(b: string, f: Frame, fates: seq<Fate>, t: Tier, w: Wire, startObj: nat, closeObj: nat,
                   re: seq<Span>, rs: seq<Span>, E: seq<nat>, j: nat, gone: seq<nat>, del: seq<Span>)
    requires Setting(b, f, fates, t, w, startObj, closeObj, re, rs) && t.effort == "" && w.forbidsEffortNone
    requires E == KeyIdx(f.members, "reasoning_effort", |f.members|) && j < |re|
    requires DroppedOf(fates, E[..if j <= |E| then j else 0], gone) && SpansAre(f, gone, del)
    ensures |E| == |re| && re[j].vStart <= re[j].vEnd <= |b|
    ensures if IsEffortNone(b[re[j].vStart..re[j].vEnd])
            then DroppedOf(fates, E[..j + 1], gone + [E[j]]) && SpansAre(f, gone + [E[j]], del + [re[j]])
            else DroppedOf(fates, E[..j + 1], gone)
  {
    var k := E[j];
    assert k in E;
    hide FateOf, KeyIdx, Print, SpanAt, DroppedOf, FatesOk, AllShallow, CoreText, Depth;
    DropStep(f, fates, E, re, j, gone, del);
    ForbidKind(f.members, k, t, w);
    MemberReads(b, f, k);
  }

  lemma ForbidAt(b: string, f: Frame, fates: seq<Fate>, t: Tier, w: Wire, startObj: nat, closeObj: nat,
                 re: seq<Span>, rs: seq<Span>, R: seq<nat>, j: nat)
    requires Setting(b, f, fates, t, w, startObj, closeObj, re, rs) && t.effort == "" && w.forbidsEffortNone
    requires R == KeyIdx(f.members, "reasoning", |f.members|) && j < |rs|
    ensures |R| == |rs| && NoneHere(b, f, fates, R[j], rs[j])
  {
    var k := R[j];
    assert k in R;
    hide FateOf, KeyIdx, SpanAt, NoneEffortFate, Depth;
    ForbidKind(f.members, k, t, w);
  }

  lemma ForbidNested(b: string, f: Frame, fates: seq<Fate>, t: Tier, w: Wire, startObj: nat, closeObj: nat,
                     re: seq<Span>, rs: seq<Span>, R: seq<nat>, j: nat, gone: seq<nat>, del: seq<Span>, es: seq<Edit>)
    requires Setting(b, f, fates, t, w, startObj, closeObj, re, rs)
    requires R == KeyIdx(f.members, "reasoning", |f.members|) && j < |rs| == |R|
    requires DroppedOf(fates, R[..j], gone) && SpansAre(f, gone, del) && |fates| == |f.members|
    requires PatchesAre(f, fates, ToSet(R[..j]), es)
    ensures R[j] < |fates|
    ensures fates[R[j]].Drop? ==> DroppedOf(fates, R[..j + 1], gone + [R[j]]) && SpansAre(f, gone + [R[j]], del + [rs[j]])
    ensures !fates[R[j]].Drop? ==> DroppedOf(fates, R[..j + 1], gone)
    ensures PatchesAre(f, fates, ToSet(R[..j + 1]), es + if fates[R[j]].Patch? then [PatchEdit(f, fates, R[j])] else [])
  {
    hide KeyIdx, SpanAt, FateOf, PatchesAre, DroppedOf, FatesOk;
    DropStep(f, fates, R, rs, j, gone, del);
    PatchesPrefix(f, fates, R, j, es);
  }

  /** No tier effort, and the provider refuses "none": such members go, or lose their effort. */
  method ForbidNone(body: string, t: Tier, w: Wire, re: seq<Span>, rs: seq<Span>, startObj: nat, closeObj: nat,
                    ghost f: Frame, ghost fates: seq<Fate>)
    returns (patches: seq<Edit>, drops: seq<Edit>, deleted: nat)
    requires t.effort == "" && w.forbidsEffortNone && startObj < closeObj <= |body|
    requires SpansIn(re, startObj, closeObj) && SpansIn(rs, startObj, closeObj)
    requires ValuesIn(re) && ValuesIn(rs)
    ensures Setting(body, f, fates, t, w, startObj, closeObj, re, rs) ==>
              Normalised(f, fates, t, w, patches, drops, deleted, "")
  {
    ghost var here := Setting(body, f, fates, t, w, startObj, closeObj, re, rs);
    hide *;
    ghost var dE, dR: seq<nat>;
    var delE, delR;
    delE, dE := ForbidFlats(body, t, w, re, rs, startObj, closeObj, f, fates);
    patches, delR, dR := ForbidNesteds(body, t, w, re, rs, startObj, closeObj, f, fates);
    deleted := |delE + delR|;
    SpansBoth(delE, delR, startObj, closeObj);
    if here { ForbidDone(body, f, fates, t, w, startObj, closeObj, re, rs, dE, dR, delE, delR, patches); }
    drops := DeleteEdits(body, delE + delR, startObj, closeObj, f, fates, dE + dR);
    if here { NormalisedIntro(f, fates, t, w, patches, drops, deleted, "", dE + dR); }
  }

  ghost predicate ValuesIn(spans: seq<Span>) {
    forall x | 0 <= x < |spans| :: spans[x].vStart < spans[x].vEnd
  }

  method ForbidFlats(body: string, t: Tier, w: Wire, re: seq<Span>, ghost rs: seq<Span>, startObj: nat, closeObj: nat,
                     ghost f: Frame, ghost fates: seq<Fate>)
    returns (del: seq<Span>, ghost gone: seq<nat>)
    requires t.effort == "" && w.forbidsEffortNone && startObj < closeObj <= |body|
    requires SpansIn(re, startObj, closeObj) && ValuesIn(re)
    ensures SpansIn(del, startObj, closeObj)
    ensures Setting(body, f, fates, t, w, startObj, closeObj, re, rs) ==>
              DroppedOf(fates, KeyIdx(f.members, "reasoning_effort", |f.members|), gone) && SpansAre(f, gone, del)
  {
    ghost var here := Setting(body, f, fates, t, w, startObj, closeObj, re, rs);
    hide *;
    ghost var E := KeyIdx(f.members, "reasoning_effort", |f.members|);
    del, gone := [], [];
    SpansNone(startObj, closeObj);
    if here {
      SettingStarts(body, f, fates, t, w, startObj, closeObj, re, rs);
      ForbidStart(f, fates, E, re);
    }
    var j := 0;
    while j < |re|
      invariant j <= |re| && SpansIn(del, startObj, closeObj)
      invariant here ==> |E| == |re| && DroppedOf(fates, E[..j], gone) && SpansAre(f, gone, del)
    {
      SpanBound(re, startObj, closeObj, j);
      ValueIn(re, j);
      if here { ForbidFlat(body, f, fates, t, w, startObj, closeObj, re, rs, E, j, gone, del); }
      if IsEffortNone(body[re[j].vStart..re[j].vEnd]) {
        SpansAdd(del, startObj, closeObj, re[j]);
        del := del + [re[j]];
        if here { gone := gone + [E[j]]; }
      }
      j := j + 1;
    }
    if here { assert E[..j] == E; }
  }

  method ForbidNesteds(body: string, t: Tier, w: Wire, ghost re: seq<Span>, rs: seq<Span>, startObj: nat, closeObj: nat,
                       ghost f: Frame, ghost fates: seq<Fate>)
    returns (patches: seq<Edit>, del: seq<Span>, ghost gone: seq<nat>)
    requires t.effort == "" && w.forbidsEffortNone && startObj < closeObj <= |body|
    requires SpansIn(rs, startObj, closeObj) && ValuesIn(rs)
    ensures SpansIn(del, startObj, closeObj)
    ensures Setting(body, f, fates, t, w, startObj, closeObj, re, rs) ==>
              var R := KeyIdx(f.members, "reasoning", |f.members|);
              && |fates| == |f.members| && PatchesAre(f, fates, ToSet(R), patches)
              && DroppedOf(fates, R, gone) && SpansAre(f, gone, del)
  {
    ghost var here := Setting(body, f, fates, t, w, startObj, closeObj, re, rs);
    hide *;
    ghost var R := KeyIdx(f.members, "reasoning", |f.members|);
    patches, del, gone := [], [], [];
    SpansNone(startObj, closeObj);
    if here {
      SettingStarts(body, f, fates, t, w, startObj, closeObj, re, rs);
      ForbidStart(f, fates, R, rs);
    }
    var j := 0;
    while j < |rs|
      invariant j <= |rs| && SpansIn(del, startObj, closeObj)
      invariant here ==> |R| == |rs| && DroppedOf(fates, R[..j], gone) && SpansAre(f, gone, del)
      invariant here ==> |fates| == |f.members| && PatchesAre(f, fates, ToSet(R[..j]), patches)
    {
      SpanBound(rs, startObj, closeObj, j);
      ValueIn(rs, j);
      ghost var k := 0;
      if here {
        ForbidAt(body, f, fates, t, w, startObj, closeObj, re, rs, R, j);
        k := R[j];
        ForbidNested(body, f, fates, t, w, startObj, closeObj, re, rs, R, j, gone, del, patches);
      }
      var drop, patch := NestedNone(body, rs[j], f, fates, k, here);
      if drop {
        SpansAdd(del, startObj, closeObj, rs[j]);
        del := del + [rs[j]];
        if here { gone := gone + [k]; }
      }
      patches := patches + patch;
      j := j + 1;
    }
    if here { assert R[..j] == R; }
  }

  lemma ForbidDone(b: string, f: Frame, fates: seq<Fate>, t: Tier, w: Wire, startObj: nat, closeObj: nat,
                   re: seq<Span>, rs: seq<Span>, dE: seq<nat>, dR: seq<nat>, delE: seq<Span>, delR: seq<Span>, es: seq<Edit>)
    requires Setting(b, f, fates, t, w, startObj, closeObj, re, rs) && t.effort == "" && w.forbidsEffortNone
    requires DroppedOf(fates, KeyIdx(f.members, "reasoning_effort", |f.members|), dE) && SpansAre(f, dE, delE)
    requires DroppedOf(fates, KeyIdx(f.members, "reasoning", |f.members|), dR) && SpansAre(f, dR, delR)
    requires |fates| == |f.members| && PatchesAre(f, fates, ToSet(KeyIdx(f.members, "reasoning", |f.members|)), es)
    ensures Top(b, f, startObj, closeObj) && |dE + dR| == |delE + delR|
    ensures SpansAre(f, dE + dR, delE + delR) && DropSet(fates, dE + dR)
    ensures PatchesAre(f, fates, ReasoningSet(f), es) && MissingText(f.members, t, w) == ""
  {
    var E, R := KeyIdx(f.members, "reasoning_effort", |f.members|), KeyIdx(f.members, "reasoning", |f.members|);
    SpansConcat(f, dE, delE, dR, delR);
    hide FateOf, KeyIdx, Print, SpanAt, First;
    ForbidPatches(f, fates, t, w, re, rs, E, R, es);
    KeySetsApart(f, E, R, re, rs);
    forall i: nat ensures i in dE || i in dR <==> i < |fates| && fates[i].Drop? {
      if i < |fates| {
        DropKinds(f.members, i, t, w);
        assert i in E <==> f.members[i].core.key == "reasoning_effort";
        assert i in R <==> f.members[i].core.key == "reasoning";
      }
    }
    forall i | i in dE ensures i !in dR {
      assert i in ToSet(E);
      assert i in dR ==> i in ToSet(R);
    }
    DropUnion(fates, dE, dR);
  }

  lemma ForbidPatches(f: Frame, fates: seq<Fate>, t: Tier, w: Wire, re: seq<Span>, rs: seq<Span>,
                      E: seq<nat>, R: seq<nat>, es: seq<Edit>)
    requires fates == Fates(f.members, t, w) && FatesOk(f, fates) && t.effort == "" && w.forbidsEffortNone
    requires E == KeyIdx(f.members, "reasoning_effort", |f.members|) && R == KeyIdx(f.members, "reasoning", |f.members|)
    requires Collected(f, "reasoning_effort", E, re) && Collected(f, "reasoning", R, rs)
    requires PatchesAre(f, fates, ToSet(R), es)
    ensures PatchesAre(f, fates, ReasoningSet(f), es)
  {
    hide FateOf, KeyIdx, SpanAt, NoneEffortFate, FatesOk;
    forall i | i in ToSet(E) && i < |fates| ensures !fates[i].Patch? {
      ForbidKind(f.members, i, t, w);
    }
    PatchesNone(f, fates, ToSet(E));
    KeySetsApart(f, E, R, re, rs);
    hide PatchesAre;
    PatchesConcat(f, fates, ToSet(E), ToSet(R), [], es);
    assert [] + es == es;
  }

  lemma SpansNone(lo: nat, hi: nat)
    ensures SpansIn([], lo, hi)
  {
  }

  lemma ValueIn(spans: seq<Span>, j: nat)
    requires ValuesIn(spans) && j < |spans|
    ensures spans[j].vStart < spans[j].vEnd
  {
  }

  lemma SpansAdd(spans: seq<Span>, lo: nat, hi: nat, s: Span)
    requires SpansIn(spans, lo, hi) && lo < s.kStart <= s.vEnd <= hi
    ensures SpansIn(spans + [s], lo, hi)
  {
  }

  lemma SpansBoth(a: seq<Span>, b: seq<Span>, lo: nat, hi: nat)
    requires SpansIn(a, lo, hi) && SpansIn(b, lo, hi)
    ensures SpansIn(a + b, lo, hi)
  {
  }

  // ---------------------------------------------------------------- all branches

  lemma FlatMissingOk(b: string, f: Frame, fates: seq<Fate>, t: Tier, w: Wire, startObj: nat, closeObj: nat,
                      re: seq<Span>, rs: seq<Span>)
    requires Setting(b, f, fates, t, w, startObj, closeObj, re, rs) && t.effort != "" && !w.nested && re == []
    ensures Normalised(f, fates, t, w, [], [], 0, CoreText(Core("reasoning_effort", "", "", TargetEffort(t))))
  {
    var ms, n := f.members, |f.members|;
    var R, E := KeyIdx(ms, "reasoning", n), KeyIdx(ms, "reasoning_effort", n);
    FirstCollected(f, "reasoning_effort", E, re);
    hide FateOf, First, KeyIdx, CoreText, TargetEffort, SetValue;
    forall i | 0 <= i < |fates| ensures !fates[i].Drop? {
      DropKinds(ms, i, t, w);
    }
    forall i | i in ReasoningSet(f) && i < |fates| ensures !fates[i].Patch? {
      assert E == [];
      assert i in R;
      FlatKind(ms, i, t, w);
    }
    NoReasoningWork(f, fates, t, w, CoreText(Core("reasoning_effort", "", "", TargetEffort(t))));
  }

  lemma NothingOk(b: string, f: Frame, fates: seq<Fate>, t: Tier, w: Wire, startObj: nat, closeObj: nat,
                  re: seq<Span>, rs: seq<Span>)
    requires Setting(b, f, fates, t, w, startObj, closeObj, re, rs) && t.effort == "" && !w.forbidsEffortNone
    ensures Normalised(f, fates, t, w, [], [], 0, "")
  {
    var ms, n := f.members, |f.members|;
    var R, E := KeyIdx(ms, "reasoning", n), KeyIdx(ms, "reasoning_effort", n);
    hide FateOf, First, KeyIdx, CoreText;
    forall i | 0 <= i < |fates| ensures !fates[i].Drop? {
      DropKinds(ms, i, t, w);
    }
    forall i | i in ReasoningSet(f) && i < |fates| ensures !fates[i].Patch? {
      assert i in R || i in E;
      NothingKind(ms, i, t, w);
    }
    NoReasoningWork(f, fates, t, w, "");
  }

  lemma NothingKind(ms: seq<Member>, i: nat, t: Tier, w: Wire)
    requires i < |ms| && t.effort == "" && !w.forbidsEffortNone
    requires ms[i].core.key == "reasoning_effort" || ms[i].core.key == "reasoning"
    ensures FateOf(ms, i, t, w).Keep?
  {
    hide KindOf;
    Kinds(ms[i].core.key);
  }

  lemma InsOk(spans: seq<Span>, lo: nat, hi: nat)
    requires FoundIn(spans, lo, hi)
    ensures SpansIn(spans, lo, hi) && ValuesIn(spans)
    ensures spans != [] ==> spans[0].vStart <= spans[0].vEnd
  {
  }

  /** The reasoning part of modifyTopLevelPayload. */
  method NormaliseReasoning(body: string, t: Tier, w: Wire, re: seq<Span>, rs: seq<Span>, startObj: nat, closeObj: nat,
                            ghost f: Frame, ghost fates: seq<Fate>)
    returns (patches: seq<Edit>, drops: seq<Edit>, deleted: nat, missing: string)
    requires startObj < closeObj <= |body| && FoundIn(re, startObj, closeObj) && FoundIn(rs, startObj, closeObj)
    ensures Setting(body, f, fates, t, w, startObj, closeObj, re, rs) ==>
              Normalised(f, fates, t, w, patches, drops, deleted, missing)
  {
    hide *;
    ghost var here := Setting(body, f, fates, t, w, startObj, closeObj, re, rs);
    InsOk(re, startObj, closeObj);
    InsOk(rs, startObj, closeObj);
    patches, drops, deleted, missing := [], [], 0, "";
    if t.effort != "" {
      EffortObjectText(t);
      ReasoningKey();
      if w.nested {
        if |rs| > 0 {
          patches, drops, deleted := ReplaceFirst(body, t, w, re, rs, startObj, closeObj, f, fates);
        } else if |re| > 0 {
          patches, drops, deleted := RenameFirst(body, t, w, re, rs, startObj, closeObj, f, fates);
        } else {
          if here { NestedMissingOk(body, f, fates, t, w, startObj, closeObj, re, rs); }
          KeyText("reasoning", EffortObject(t));
          missing := "\"reasoning\":" + ("{\"effort\":" + Quoted(Escape(t.effort)) + "}");
        }
      } else if |re| > 0 {
        patches := FlatEffort(body, t, w, re, rs, startObj, closeObj, f, fates);
      } else {
        if here { FlatMissingOk(body, f, fates, t, w, startObj, closeObj, re, rs); }
        KeyText("reasoning_effort", TargetEffort(t));
        missing := "\"reasoning_effort\":" + Quoted(Escape(t.effort));
      }
    } else if w.forbidsEffortNone {
      patches, drops, deleted := ForbidNone(body, t, w, re, rs, startObj, closeObj, f, fates);
    } else if here {
      NothingOk(body, f, fates, t, w, startObj, closeObj, re, rs);
    }
  }
}
