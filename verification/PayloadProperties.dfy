/**
 What an upstream provider receives: properties of the rewritten request object, for every object,
 tier and wire dialect.
 */
module PayloadProperties {
  import opened Wrappers
  import opened Json
  import opened ObjectEdit
  import opened PayloadSpec

  /** The members of the rewritten object, from the opening quote of the key to the end of the value. */
  function Sent(f: Frame, t: Tier, w: Wire): seq<Core> {
    NewCores(f, Fates(f.members, t, w), 0) + Added(f.members, t, w)
  }

  /** The object sent upstream is well formed and its members are `Sent`. */
  lemma WellFormed(f: Frame, t: Tier, w: Wire)
    requires f.Ok()
    ensures Valid(Rewritten(f, t, w)) && Rewritten(f, t, w).Obj?
    ensures Cores(Rewritten(f, t, w).members) == Sent(f, t, w)
  {
    FatesAllOk(f, t, w);
    AddedOk(f.members, t, w);
    EditedMembers(f, Fates(f.members, t, w), Added(f.members, t, w));
  }

  // ---------------------------------------------------------------- untouched members

  predicate Managed(key: string) {
    key == "model" || key == "reasoning" || key == "reasoning_effort" || key == "stream_options"
  }

  function Unmanaged(cs: seq<Core>): seq<Core> {
    if cs == [] then []
    else if Managed(cs[0].key) then Unmanaged(cs[1..])
    else [cs[0]] + Unmanaged(cs[1..])
  }

  lemma {:induction false} UnmanagedAppend(a: seq<Core>, b: seq<Core>)
    ensures Unmanaged(a + b) == Unmanaged(a) + Unmanaged(b)
  {
    if a == [] {
      assert a + b == b;
    } else {
      assert (a + b)[1..] == a[1..] + b;
      UnmanagedAppend(a[1..], b);
    }
  }

  /** Members the gateway does not manage keep their bytes and their order. */
  lemma UntouchedMembers(f: Frame, t: Tier, w: Wire)
    requires f.Ok()
    ensures Unmanaged(Cores(Rewritten(f, t, w).members)) == Unmanaged(Cores(f.members))
  {
    WellFormed(f, t, w);
    UnmanagedAppend(NewCores(f, Fates(f.members, t, w), 0), Added(f.members, t, w));
    AllManaged(Added(f.members, t, w));
    UntouchedFrom(f, t, w, 0);
    assert f.members[0..] == f.members;
  }

  lemma {:induction false} AllManaged(cs: seq<Core>)
    requires forall c | c in cs :: Managed(c.key)
    ensures Unmanaged(cs) == []
  {
    if cs != [] {
      AllManaged(cs[1..]);
    }
  }

  lemma FateKeys(c: Core)
    ensures UsageFate(c).Patch? && UsageFate(c).core.key == c.key
    ensures NoneEffortFate(c).Patch? ==> NoneEffortFate(c).core.key == c.key
  {
    hide Print, CoreText, Edited, PatchEdit, DropEdit, InsertEdit, InsertText, First;
  }

  /** A fate never moves a member between the managed and the unmanaged ones. */
  lemma FateKey(ms: seq<Member>, i: nat, t: Tier, w: Wire)
    requires i < |ms|
    ensures !Managed(ms[i].core.key) ==> FateOf(ms, i, t, w).Keep?
    ensures Managed(ms[i].core.key) ==> Managed(NewCore(ms[i].core, FateOf(ms, i, t, w)).key)
  {
    hide Print, CoreText, UsageFate, NoneEffortFate, First, KindOf;
    Kinds(ms[i].core.key);
    Kinds("reasoning");
    FateKeys(ms[i].core);
  }

  lemma {:induction false} UntouchedFrom(f: Frame, t: Tier, w: Wire, k: nat)
    requires k <= |f.members|
    ensures Unmanaged(NewCores(f, Fates(f.members, t, w), k)) == Unmanaged(Cores(f.members[k..]))
    decreases |f.members| - k
  {
    hide FateOf;
    var fates := Fates(f.members, t, w);
    if k < |f.members| {
      UntouchedFrom(f, t, w, k + 1);
      FateKey(f.members, k, t, w);
      assert Cores(f.members[k..]) == [f.members[k].core] + Cores(f.members[k + 1..]);
    }
  }

  // ---------------------------------------------------------------- every member sent, one by one

  /** A member sent is a kept or patched member of the request, or an added one. */
  lemma {:induction false} SentFrom(f: Frame, fates: seq<Fate>, k: nat, c: Core)
    requires |fates| == |f.members| && k <= |fates|
    ensures c in NewCores(f, fates, k) <==>
            exists i :: k <= i < |fates| && !fates[i].Drop? && c == NewCore(f.members[i].core, fates[i])
    decreases |fates| - k
  {
    if k < |fates| {
      SentFrom(f, fates, k + 1, c);
    }
  }

  // ---------------------------------------------------------------- the model

  lemma ModelFate(ms: seq<Member>, i: nat, t: Tier, w: Wire)
    requires i < |ms|
    ensures var c, fate := ms[i].core, FateOf(ms, i, t, w);
            if c.key == "model" then
              !fate.Drop? && NewCore(c, fate).key == "model" &&
              NewCore(c, fate).val == if c.val == Str(t.model) then c.val else TargetModel(t)
            else NewCore(c, fate).key != "model"
  {
    hide Print, CoreText, UsageFate, NoneEffortFate, First, KindOf;
    Kinds(ms[i].core.key);
    Kinds("reasoning");
    FateKeys(ms[i].core);
  }

  // ---------------------------------------------------------------- reasoning

  function Count(cs: seq<Core>, key: string): nat {
    if cs == [] then 0 else (if cs[0].key == key then 1 else 0) + Count(cs[1..], key)
  }

  lemma {:induction false} CountAppend(a: seq<Core>, b: seq<Core>, key: string)
    ensures Count(a + b, key) == Count(a, key) + Count(b, key)
  {
    if a == [] {
      assert a + b == b;
    } else {
      assert (a + b)[1..] == a[1..] + b;
      CountAppend(a[1..], b, key);
    }
  }

  lemma {:induction false} CountPositive(ms: seq<Member>, key: string)
    ensures Count(Cores(ms), key) > 0 <==> Has(ms, key)
  {
    if ms != [] {
      CountPositive(ms[1..], key);
      assert Cores(ms) == [ms[0].core] + Cores(ms[1..]);
    }
  }

  /** What becomes of the reasoning members under a nested dialect with a tier effort. */
  lemma NestedFate(ms: seq<Member>, i: nat, t: Tier, w: Wire)
    requires i < |ms| && t.effort != "" && w.nested
    ensures var c, fate := ms[i].core, FateOf(ms, i, t, w);
            var first := First(ms, if Has(ms, "reasoning") then "reasoning" else "reasoning_effort");
            && (!fate.Drop? && NewCore(c, fate).key == "reasoning" <==> i == first)
            && (!fate.Drop? && NewCore(c, fate).key == "reasoning_effort" <==>
                c.key == "reasoning_effort" && Has(ms, "reasoning") && !w.stripFlatOnNested)
            && (i == first ==> NewCore(c, fate).val == EffortObject(t))
  {
    hide Print, CoreText, UsageFate, NoneEffortFate, First, KindOf;
    Kinds(ms[i].core.key);
    Kinds("reasoning");
    FateKeys(ms[i].core);
  }

  lemma {:induction false} NestedCount(f: Frame, t: Tier, w: Wire, k: nat)
    requires t.effort != "" && w.nested && k <= |f.members|
    ensures var ms, cs := f.members, NewCores(f, Fates(f.members, t, w), k);
            var first := First(ms, if Has(ms, "reasoning") then "reasoning" else "reasoning_effort");
            && Count(cs, "reasoning") == (if k <= first < |ms| then 1 else 0)
            && Count(cs, "reasoning_effort") ==
               if Has(ms, "reasoning") && !w.stripFlatOnNested then Count(Cores(ms[k..]), "reasoning_effort") else 0
    decreases |f.members| - k
  {
    hide FateOf, First;
    if k < |f.members| {
      NestedCount(f, t, w, k + 1);
      NestedFate(f.members, k, t, w);
      assert Cores(f.members[k..]) == [f.members[k].core] + Cores(f.members[k + 1..]);
      var cs := NewCores(f, Fates(f.members, t, w), k + 1);
      var fate := Fates(f.members, t, w)[k];
      if !fate.Drop? {
        assert ([NewCore(f.members[k].core, fate)] + cs)[1..] == cs;
      }
    }
  }

  /**
   Under a nested dialect with a tier effort there is exactly one `reasoning` member, and a flat
   `reasoning_effort` is left exactly when the dialect does not strip it and both forms came in.
   */
  lemma SentNested(f: Frame, t: Tier, w: Wire)
    requires f.Ok() && t.effort != "" && w.nested
    ensures Count(Sent(f, t, w), "reasoning") == 1
    ensures Count(Sent(f, t, w), "reasoning_effort") > 0 <==>
            !w.stripFlatOnNested && Has(f.members, "reasoning") && Has(f.members, "reasoning_effort")
  {
    var ms, fates, added := f.members, Fates(f.members, t, w), Added(f.members, t, w);
    NestedCount(f, t, w, 0);
    CountPositive(ms, "reasoning_effort");
    assert ms[0..] == ms;
    AddedCount(ms, t, w);
    CountAppend(NewCores(f, fates, 0), added, "reasoning");
    CountAppend(NewCores(f, fates, 0), added, "reasoning_effort");
  }

  /** Each of these carries the effort of the tier. */
  lemma NestedEffort(f: Frame, t: Tier, w: Wire)
    requires f.Ok() && t.effort != "" && w.nested
    ensures forall c | c in Sent(f, t, w) && c.key == "reasoning" :: c.val == EffortObject(t)
  {
    hide FateOf, First;
    var ms, fates := f.members, Fates(f.members, t, w);
    forall c | c in Sent(f, t, w) && c.key == "reasoning" ensures c.val == EffortObject(t) {
      SentFrom(f, fates, 0, c);
      if c in NewCores(f, fates, 0) {
        var i :| 0 <= i < |fates| && !fates[i].Drop? && c == NewCore(ms[i].core, fates[i]);
        NestedFate(ms, i, t, w);
      }
    }
  }

  lemma AddedCount(ms: seq<Member>, t: Tier, w: Wire)
    requires t.effort != "" && w.nested
    ensures Count(Added(ms, t, w), "reasoning") ==
            if Has(ms, "reasoning") || Has(ms, "reasoning_effort") then 0 else 1
    ensures Count(Added(ms, t, w), "reasoning_effort") == 0
  {
    AddedCountOf(ms, t, w, "reasoning");
    AddedCountOf(ms, t, w, "reasoning_effort");
  }

  lemma AddedCountOf(ms: seq<Member>, t: Tier, w: Wire, key: string)
    requires key != "model" && key != "stream_options"
    ensures Count(Added(ms, t, w), key) == Count(AddedReasoning(ms, t, w), key)
  {
    hide First, IsStream, TargetModel, EffortObject, UsageObject;
    CountAppend(AddedModel(ms, t) + AddedReasoning(ms, t, w), AddedStream(ms), key);
    CountAppend(AddedModel(ms, t), AddedReasoning(ms, t, w), key);
  }

  lemma FlatFate(ms: seq<Member>, i: nat, t: Tier, w: Wire)
    requires i < |ms| && t.effort != "" && !w.nested
    ensures var c, fate := ms[i].core, FateOf(ms, i, t, w);
            && (NewCore(c, fate).key == "reasoning_effort" <==> c.key == "reasoning_effort")
            && (c.key == "reasoning_effort" ==> !fate.Drop? && NewCore(c, fate).val == TargetEffort(t))
  {
    hide Print, CoreText, UsageFate, NoneEffortFate, First, KindOf;
    Kinds(ms[i].core.key);
    Kinds("reasoning");
    FateKeys(ms[i].core);
  }

  // ---------------------------------------------------------------- edits of one member

  lemma {:induction false} NewCoresOnly(f: Frame, j: nat, t: Fate, k: nat)
    requires k <= |f.members| && !t.Drop?
    ensures |NewCores(f, Only(|f.members|, j, t), k)| == |f.members| - k
    ensures forall i | k <= i < |f.members| ::
              NewCores(f, Only(|f.members|, j, t), k)[i - k] ==
              if i == j then NewCore(f.members[i].core, t) else f.members[i].core
    decreases |f.members| - k
  {
    if k < |f.members| {
      NewCoresOnly(f, j, t, k + 1);
      var r := NewCores(f, Only(|f.members|, j, t), k + 1);
      forall i | k <= i < |f.members|
        ensures NewCores(f, Only(|f.members|, j, t), k)[i - k] ==
                if i == j then NewCore(f.members[i].core, t) else f.members[i].core
      {
        if i > k {
          assert NewCores(f, Only(|f.members|, j, t), k)[i - k] == r[i - (k + 1)];
        }
      }
    }
  }

  lemma InnerFates(c: Core, j: nat)
    requires ValidCore(c) && c.val.Obj? && j < |c.val.members|
    ensures var g := Inner(c.val);
            FatesOk(g, Only(|g.members|, j, SetValue(g.members[j].core, Atom("true"))))
  {
    hide Print, CoreText;
    var g := Inner(c.val);
    assert ValidMember(g.members[j]);
    SetValueOk(g.members[j].core, Atom("true"));
  }
}
