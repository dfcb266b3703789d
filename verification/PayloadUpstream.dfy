/**
 What an upstream provider makes of the object sent to it. Providers compare keys after unescaping
 them, the gateway compares their bytes; and a body with a value that nests too deep for the scanner
 goes out as it came. Each property is given with the exact condition on the request.
 */
module PayloadUpstream {
  import opened Wrappers
  import opened Json
  import opened ObjectEdit
  import opened PayloadSpec
  import opened PayloadProperties

  /** The member has this key once its escapes are undone. */
  predicate Means(c: Core, key: string) {
    Decode(c.key) == Some(key)
  }

  /** The value is a string that stands for s. */
  predicate Stands(v: Json, s: string) {
    v.Str? && Decode(v.raw) == Some(s)
  }

  ghost predicate Shallow(f: Frame) {
    AllShallow(f.members, |f.members|)
  }

  /** The members that go upstream. */
  ghost function Out(f: Frame, t: Tier, w: Wire): seq<Core> {
    Cores(Upstream(f, t, w).members)
  }

  /** The request has a member that means the key. */
  predicate Asks(ms: seq<Member>, key: string) {
    exists i | 0 <= i < |ms| :: Means(ms[i].core, key)
  }

  lemma OutIs(f: Frame, t: Tier, w: Wire)
    requires f.Ok()
    ensures Out(f, t, w) == if Shallow(f) then Sent(f, t, w) else Cores(f.members)
  {
    hide Sent, Cores, Rewritten, AllShallow;
    WellFormed(f, t, w);
  }

  /** The keys the gateway manages have no escapes. */
  lemma Plainly(key: string)
    requires Managed(key)
    ensures Decode(key) == Some(key)
  {
    DecodeSelf(key);
    hide Decode;
    assert '\\' !in "model" && '\\' !in "reasoning" && '\\' !in "reasoning_effort" && '\\' !in "stream_options";
  }

  /** A fate gives a member a managed key's meaning only with that very key; an escaped spelling is left alone. */
  lemma MeansNew(ms: seq<Member>, i: nat, t: Tier, w: Wire, key: string)
    requires i < |ms| && Managed(key)
    ensures var c, fate := ms[i].core, FateOf(ms, i, t, w);
            && (Managed(c.key) ==> (Means(NewCore(c, fate), key) <==> NewCore(c, fate).key == key))
            && (!Managed(c.key) ==> fate.Keep? && NewCore(c, fate) == c && c.key != key)
            && (Managed(c.key) ==> (Means(c, key) <==> c.key == key))
  {
    var c, fate := ms[i].core, FateOf(ms, i, t, w);
    FateKey(ms, i, t, w);
    Plainly(key);
    if Managed(c.key) {
      Plainly(c.key);
      Plainly(NewCore(c, fate).key);
    }
    hide FateOf, Decode, Managed;
  }

  /** A member of the rewritten object comes from one of the request, or is an added one. */
  lemma SentIs(f: Frame, t: Tier, w: Wire, c: Core)
    ensures c in Sent(f, t, w) <==>
            || c in Added(f.members, t, w)
            || exists i: nat :: i < |f.members| && !FateOf(f.members, i, t, w).Drop? && c == NewCore(f.members[i].core, FateOf(f.members, i, t, w))
  {
    hide FateOf, Added;
    SentFrom(f, Fates(f.members, t, w), 0, c);
    var fates := Fates(f.members, t, w);
    assert forall i: nat | i < |fates| :: fates[i] == FateOf(f.members, i, t, w);
  }

  // ---------------------------------------------------------------- the model

  /** Every model member stands for the target. */
  ghost predicate ModelsOk(cs: seq<Core>, t: Tier) {
    forall c | c in cs && Means(c, "model") :: Stands(c.val, t.model)
  }

  /** This model member of the request goes out as the target. */
  predicate ModelReaches(shallow: bool, c: Core, t: Tier) {
    if shallow && c.key == "model" then !('\\' in t.model && c.val == Str(t.model)) else Stands(c.val, t.model)
  }

  lemma ModelNew(ms: seq<Member>, i: nat, t: Tier, w: Wire)
    requires i < |ms|
    ensures var c, fate := ms[i].core, FateOf(ms, i, t, w);
            && (Means(NewCore(c, fate), "model") && !fate.Drop? <==> Means(c, "model"))
            && (Means(c, "model") ==> (Stands(NewCore(c, fate).val, t.model) <==> ModelReaches(true, c, t)))
  {
    MeansNew(ms, i, t, w, "model");
    ModelFate(ms, i, t, w);
    EscapeRoundTrip(t.model);
    DecodeSelf(t.model);
    Plainly("model");
    hide FateOf, Decode, Escape;
  }

  /** The added members, one by one. */
  lemma AddedIs(ms: seq<Member>, t: Tier, w: Wire, c: Core)
    ensures c in Added(ms, t, w) <==> c in AddedModel(ms, t) || c in AddedReasoning(ms, t, w) || c in AddedStream(ms)
  {
    hide AddedModel, AddedReasoning, AddedStream;
  }

  lemma AddedMeans(ms: seq<Member>, t: Tier, w: Wire, key: string)
    requires Managed(key)
    ensures forall c | c in Added(ms, t, w) :: Means(c, key) <==> c.key == key
  {
    AddedManaged(ms, t, w);
    Plainly(key);
    hide Added, Decode, Managed;
    forall c | c in Added(ms, t, w) ensures Means(c, key) <==> c.key == key {
      Plainly(c.key);
    }
  }

  lemma AddedManaged(ms: seq<Member>, t: Tier, w: Wire)
    ensures forall c | c in Added(ms, t, w) :: Managed(c.key)
  {
    hide Added, TargetModel, TargetEffort, EffortObject, UsageObject, First, IsStream;
    forall c | c in Added(ms, t, w) ensures Managed(c.key) { AddedIs(ms, t, w, c); }
  }

  lemma ModelAdded(ms: seq<Member>, t: Tier, w: Wire)
    ensures forall c | c in Added(ms, t, w) && Means(c, "model") :: Stands(c.val, t.model)
    ensures (exists c :: c in Added(ms, t, w) && Means(c, "model")) <==> t.model != "" && !Has(ms, "model")
  {
    hide Added, TargetEffort, EffortObject, UsageObject, First, IsStream, Decode, Escape;
    AddedMeans(ms, t, w, "model");
    EscapeRoundTrip(t.model);
    forall c | c in Added(ms, t, w) && c.key == "model" ensures c in AddedModel(ms, t) && c.val == TargetModel(t) { AddedIs(ms, t, w, c); }
    if t.model != "" && !Has(ms, "model") { AddedIs(ms, t, w, AddedModel(ms, t)[0]); }
  }

  /**
   Every model the provider reads is the target if and only if each model member of the request is
   edited and not already spelled with the target's bytes while these have a backslash, or is one the
   gateway does not see (its key is escaped, or some value nests too deep) and stands for the target
   anyway. There is a model exactly when one came in or could be added.
   */
  lemma ModelIsTarget(f: Frame, t: Tier, w: Wire)
    requires f.Ok()
    ensures ModelsOk(Out(f, t, w), t) <==>
            forall i | 0 <= i < |f.members| && Means(f.members[i].core, "model") :: ModelReaches(Shallow(f), f.members[i].core, t)
    ensures (exists c :: c in Out(f, t, w) && Means(c, "model")) <==> (Shallow(f) && t.model != "") || Asks(f.members, "model")
  {
    OutIs(f, t, w);
    var ms := f.members;
    hide FateOf, Means, Stands, Added, AllShallow, Sent, Upstream;
    if Shallow(f) {
      ModelSent(f, t, w);
    } else {
      AsTheyCame(ms);
    }
  }

  lemma ModelSent(f: Frame, t: Tier, w: Wire)
    requires f.Ok()
    ensures ModelsOk(Sent(f, t, w), t) <==>
            forall i | 0 <= i < |f.members| && Means(f.members[i].core, "model") :: ModelReaches(true, f.members[i].core, t)
    ensures (exists c :: c in Sent(f, t, w) && Means(c, "model")) <==> t.model != "" || Asks(f.members, "model")
  {
    var ms := f.members;
    hide FateOf, Means, Stands, Added, Sent, ModelReaches, First;
    ModelAdded(ms, t, w);
    forall i: nat | i < |ms| && Means(ms[i].core, "model")
      ensures var n := NewCore(ms[i].core, FateOf(ms, i, t, w));
              n in Sent(f, t, w) && Means(n, "model") && (Stands(n.val, t.model) <==> ModelReaches(true, ms[i].core, t))
    {
      ModelNew(ms, i, t, w);
      SentIs(f, t, w, NewCore(ms[i].core, FateOf(ms, i, t, w)));
    }
    forall c | c in Sent(f, t, w) && Means(c, "model")
      ensures c in Added(ms, t, w) ||
              exists i: nat :: i < |ms| && Means(ms[i].core, "model") && (Stands(c.val, t.model) <==> ModelReaches(true, ms[i].core, t))
    {
      SentIs(f, t, w, c);
      if c !in Added(ms, t, w) {
        var i: nat :| i < |ms| && !FateOf(ms, i, t, w).Drop? && c == NewCore(ms[i].core, FateOf(ms, i, t, w));
        ModelNew(ms, i, t, w);
      }
    }
    if t.model != "" && !Has(ms, "model") {
      var c :| c in Added(ms, t, w) && Means(c, "model");
      SentIs(f, t, w, c);
    } else if Has(ms, "model") {
      HasAsks(ms, "model");
    }
  }

  lemma HasAsks(ms: seq<Member>, key: string)
    requires Managed(key) && Has(ms, key)
    ensures Asks(ms, key)
  {
    Plainly(key);
    hide Decode;
    assert Means(ms[First(ms, key)].core, key);
  }

  /** The members of a body that goes out unedited. */
  lemma AsTheyCame(ms: seq<Member>)
    ensures forall c :: c in Cores(ms) <==> exists i: nat :: i < |ms| && c == ms[i].core
    ensures forall i: nat | i < |ms| :: ms[i].core in Cores(ms)
  {
    forall i: nat | i < |ms| ensures ms[i].core in Cores(ms) {
      assert Cores(ms)[i] == ms[i].core;
    }
  }

  // ---------------------------------------------------------------- nested reasoning

  /** How many members mean the key. */
  function CountMeaning(cs: seq<Core>, key: string): nat {
    if cs == [] then 0 else (if Means(cs[0], key) then 1 else 0) + CountMeaning(cs[1..], key)
  }

  /** How many members mean the key without being spelled like it. */
  function Escaped(cs: seq<Core>, key: string): nat {
    if cs == [] then 0 else (if Means(cs[0], key) && cs[0].key != key then 1 else 0) + Escaped(cs[1..], key)
  }

  lemma {:induction false} MeaningAppend(a: seq<Core>, b: seq<Core>, key: string)
    ensures CountMeaning(a + b, key) == CountMeaning(a, key) + CountMeaning(b, key)
  {
    hide Means;
    if a == [] {
      assert a + b == b;
    } else {
      assert (a + b)[1..] == a[1..] + b;
      MeaningAppend(a[1..], b, key);
    }
  }

  lemma {:induction false} AllPlain(cs: seq<Core>, key: string)
    requires Managed(key) && forall c | c in cs :: Managed(c.key)
    ensures CountMeaning(cs, key) == Count(cs, key)
  {
    if cs != [] {
      Plainly(cs[0].key);
      hide Decode, Managed;
      AllPlain(cs[1..], key);
    }
  }

  /** Only an escaped spelling in the request escapes the gateway's count. */
  lemma {:induction false} MeaningNew(f: Frame, t: Tier, w: Wire, key: string, k: nat)
    requires Managed(key) && k <= |f.members|
    ensures CountMeaning(NewCores(f, Fates(f.members, t, w), k), key) ==
            Count(NewCores(f, Fates(f.members, t, w), k), key) + Escaped(Cores(f.members[k..]), key)
    decreases |f.members| - k
  {
    hide FateOf, Means, Managed;
    var ms, fates := f.members, Fates(f.members, t, w);
    if k < |ms| {
      MeaningNew(f, t, w, key, k + 1);
      assert Cores(ms[k..]) == [ms[k].core] + Cores(ms[k + 1..]);
      MeansNewCount(ms, k, t, w, key);
      var rest := NewCores(f, fates, k + 1);
      if !fates[k].Drop? { assert ([NewCore(ms[k].core, fates[k])] + rest)[1..] == rest; }
    }
  }

  lemma MeansNewCount(ms: seq<Member>, i: nat, t: Tier, w: Wire, key: string)
    requires i < |ms| && Managed(key)
    ensures var c, fate := ms[i].core, FateOf(ms, i, t, w);
            && (Means(NewCore(c, fate), key) <==> NewCore(c, fate).key == key || (Means(c, key) && c.key != key))
            && (Means(c, key) && c.key != key ==> fate.Keep? && NewCore(c, fate).key != key)
  {
    MeansNew(ms, i, t, w, key);
    Plainly(key);
    hide FateOf, Decode, Managed;
  }

  lemma {:induction false} EscapedNone(ms: seq<Member>, key: string)
    ensures Escaped(Cores(ms), key) == 0 <==> forall i | 0 <= i < |ms| :: !(Means(ms[i].core, key) && ms[i].core.key != key)
  {
    hide Means;
    if ms != [] {
      EscapedNone(ms[1..], key);
      assert Cores(ms) == [ms[0].core] + Cores(ms[1..]);
      assert forall i | 0 < i < |ms| :: ms[i] == ms[1..][i - 1];
      assert forall i | 0 <= i < |ms| - 1 :: ms[1..][i] == ms[i + 1];
    }
  }

  lemma SentMeaning(f: Frame, t: Tier, w: Wire, key: string)
    requires Managed(key)
    ensures CountMeaning(Sent(f, t, w), key) == Count(Sent(f, t, w), key) + Escaped(Cores(f.members), key)
  {
    var news, added := NewCores(f, Fates(f.members, t, w), 0), Added(f.members, t, w);
    MeaningNew(f, t, w, key, 0);
    assert f.members[0..] == f.members;
    AddedManaged(f.members, t, w);
    hide Added, Managed, FateOf;
    AllPlain(added, key);
    MeaningAppend(news, added, key);
    CountAppend(news, added, key);
  }

  /** Exactly one nested reasoning member and no flat effort. */
  ghost predicate OnlyNested(cs: seq<Core>) {
    CountMeaning(cs, "reasoning") == 1 && CountMeaning(cs, "reasoning_effort") == 0
  }

  /**
   Under a nested dialect with a tier effort, what a provider reads as `reasoning` is one member and
   the escaped spellings of the request; as `reasoning_effort` the escaped spellings, and the flat
   members that stay beside a nested one when the dialect does not strip them. So there is exactly one
   `reasoning` and no flat effort if and only if the request has none of these, or goes out unedited
   and was so already.
   */
  lemma NestedReasoning(f: Frame, t: Tier, w: Wire)
    requires f.Ok() && t.effort != "" && w.nested
    ensures CountMeaning(Out(f, t, w), "reasoning") ==
            if Shallow(f) then 1 + Escaped(Cores(f.members), "reasoning") else CountMeaning(Cores(f.members), "reasoning")
    ensures OnlyNested(Out(f, t, w)) <==>
            if Shallow(f) then
              && !(!w.stripFlatOnNested && Has(f.members, "reasoning") && Has(f.members, "reasoning_effort"))
              && forall i | 0 <= i < |f.members| ::
                   && !(Means(f.members[i].core, "reasoning") && f.members[i].core.key != "reasoning")
                   && !(Means(f.members[i].core, "reasoning_effort") && f.members[i].core.key != "reasoning_effort")
            else OnlyNested(Cores(f.members))
  {
    OutIs(f, t, w);
    SentNested(f, t, w);
    SentMeaning(f, t, w, "reasoning");
    SentMeaning(f, t, w, "reasoning_effort");
    EscapedNone(f.members, "reasoning");
    EscapedNone(f.members, "reasoning_effort");
    hide Sent, Upstream, AllShallow, Means, First;
  }

  // ---------------------------------------------------------------- flat effort

  ghost predicate EffortsOk(cs: seq<Core>, t: Tier) {
    forall c | c in cs && Means(c, "reasoning_effort") :: Stands(c.val, t.effort)
  }

  lemma EffortNew(ms: seq<Member>, i: nat, t: Tier, w: Wire)
    requires i < |ms| && t.effort != "" && !w.nested
    ensures var c, fate := ms[i].core, FateOf(ms, i, t, w);
            && (Means(NewCore(c, fate), "reasoning_effort") && !fate.Drop? <==> Means(c, "reasoning_effort"))
            && (Means(c, "reasoning_effort") ==>
                 (Stands(NewCore(c, fate).val, t.effort) <==> c.key == "reasoning_effort" || Stands(c.val, t.effort)))
  {
    MeansNew(ms, i, t, w, "reasoning_effort");
    FlatFate(ms, i, t, w);
    EscapeRoundTrip(t.effort);
    Plainly("reasoning_effort");
    hide FateOf, Decode, Escape;
  }

  lemma EffortAdded(ms: seq<Member>, t: Tier, w: Wire)
    requires t.effort != "" && !w.nested
    ensures forall c | c in Added(ms, t, w) && Means(c, "reasoning_effort") :: Stands(c.val, t.effort)
    ensures !Has(ms, "reasoning_effort") ==> exists c :: c in Added(ms, t, w) && Means(c, "reasoning_effort")
  {
    hide Added, TargetModel, EffortObject, UsageObject, First, IsStream, Decode, Escape;
    AddedMeans(ms, t, w, "reasoning_effort");
    EscapeRoundTrip(t.effort);
    forall c | c in Added(ms, t, w) && c.key == "reasoning_effort" ensures c.val == TargetEffort(t) { AddedIs(ms, t, w, c); }
    if !Has(ms, "reasoning_effort") { AddedIs(ms, t, w, AddedReasoning(ms, t, w)[0]); }
  }

  /**
   A flat dialect with a tier effort: every effort the provider reads is the tier's if and only if
   those the gateway does not see already are; and there is one exactly when the body is edited or
   one came in.
   */
  lemma FlatReasoning(f: Frame, t: Tier, w: Wire)
    requires f.Ok() && t.effort != "" && !w.nested
    ensures EffortsOk(Out(f, t, w), t) <==>
            forall i | 0 <= i < |f.members| && Means(f.members[i].core, "reasoning_effort") ::
              (Shallow(f) && f.members[i].core.key == "reasoning_effort") || Stands(f.members[i].core.val, t.effort)
    ensures (exists c :: c in Out(f, t, w) && Means(c, "reasoning_effort")) <==> Shallow(f) || Asks(f.members, "reasoning_effort")
  {
    OutIs(f, t, w);
    var ms := f.members;
    hide FateOf, Decode, Added, AllShallow, Sent, Upstream, Stands;
    if Shallow(f) {
      EffortAdded(ms, t, w);
      forall i: nat | i < |ms|
        ensures Means(ms[i].core, "reasoning_effort") ==>
                  && NewCore(ms[i].core, FateOf(ms, i, t, w)) in Sent(f, t, w)
                  && Means(NewCore(ms[i].core, FateOf(ms, i, t, w)), "reasoning_effort")
                  && (Stands(NewCore(ms[i].core, FateOf(ms, i, t, w)).val, t.effort) <==>
                      ms[i].core.key == "reasoning_effort" || Stands(ms[i].core.val, t.effort))
      {
        EffortNew(ms, i, t, w);
        SentIs(f, t, w, NewCore(ms[i].core, FateOf(ms, i, t, w)));
      }
      forall c | c in Sent(f, t, w) && Means(c, "reasoning_effort")
        ensures c in Added(ms, t, w) ||
                exists i: nat :: i < |ms| && Means(ms[i].core, "reasoning_effort") &&
                  (Stands(c.val, t.effort) <==> ms[i].core.key == "reasoning_effort" || Stands(ms[i].core.val, t.effort))
      {
        SentIs(f, t, w, c);
        if c !in Added(ms, t, w) {
          var i: nat :| i < |ms| && !FateOf(ms, i, t, w).Drop? && c == NewCore(ms[i].core, FateOf(ms, i, t, w));
          EffortNew(ms, i, t, w);
        }
      }
      if Has(ms, "reasoning_effort") {
        Plainly("reasoning_effort");
        var i := First(ms, "reasoning_effort");
        assert Means(ms[i].core, "reasoning_effort");
        assert NewCore(ms[i].core, FateOf(ms, i, t, w)) in Sent(f, t, w);
      } else {
        var c :| c in Added(ms, t, w) && Means(c, "reasoning_effort");
        SentIs(f, t, w, c);
      }
    } else {
      AsTheyCame(ms);
    }
  }

  // ---------------------------------------------------------------- usage of a stream

  /** The options ask for usage: include_usage is there, and is true wherever it is repeated. */
  ghost predicate AllUsage(v: Json) {
    v.Obj? && Asks(v.members, "include_usage") && UsageElsewhere(v.members, |v.members|)
  }

  /** Every include_usage but member j is true. */
  ghost predicate UsageElsewhere(ms: seq<Member>, j: nat) {
    forall i | 0 <= i < |ms| && i != j && Means(ms[i].core, "include_usage") :: ms[i].core.val == Atom("true")
  }

  /** These options of the request go out asking for usage: the gateway sets the first include_usage it sees. */
  ghost predicate UsageReaches(seen: bool, c: Core) {
    if seen && c.key == "stream_options" then c.val.Obj? ==> UsageElsewhere(c.val.members, First(c.val.members, "include_usage"))
    else AllUsage(c.val)
  }

  ghost predicate UsageAsked(cs: seq<Core>) {
    (exists c :: c in cs && Means(c, "stream_options")) && forall c | c in cs && Means(c, "stream_options") :: AllUsage(c.val)
  }

  lemma UsagePlain()
    ensures Decode("include_usage") == Some("include_usage")
  {
    DecodeSelf("include_usage");
    hide Decode;
    assert '\\' !in "include_usage";
  }

  lemma UsageByMembers(v: Json, ms: seq<Member>, j: nat)
    requires v.Obj? && j < |ms| == |v.members| && ms[j].core.key == "include_usage"
    requires v.members[j].core == ms[j].core.(val := Atom("true"))
    requires forall i | 0 <= i < |ms| && i != j :: v.members[i].core == ms[i].core
    ensures AllUsage(v) <==> UsageElsewhere(ms, j)
  {
    UsagePlain();
    hide Decode;
    assert Means(v.members[j].core, "include_usage");
    if UsageElsewhere(ms, j) {
      forall i | 0 <= i < |v.members| && Means(v.members[i].core, "include_usage") ensures v.members[i].core.val == Atom("true") {
        assert i != j ==> v.members[i].core == ms[i].core;
      }
    }
    if AllUsage(v) {
      forall i | 0 <= i < |ms| && i != j && Means(ms[i].core, "include_usage") ensures ms[i].core.val == Atom("true") {
        assert v.members[i].core == ms[i].core;
      }
    }
  }

  lemma UsageByMore(v: Json, ms: seq<Member>)
    requires v.Obj? && |v.members| == |ms| + 1 && v.members[|ms|].core == IncludeUsage()
    requires forall i | 0 <= i < |ms| :: v.members[i].core == ms[i].core
    ensures AllUsage(v) <==> UsageElsewhere(ms, |ms|)
  {
    UsagePlain();
    hide Decode;
    assert Means(v.members[|ms|].core, "include_usage");
    if UsageElsewhere(ms, |ms|) {
      forall i | 0 <= i < |v.members| && Means(v.members[i].core, "include_usage") ensures v.members[i].core.val == Atom("true") {
        assert i < |ms| ==> v.members[i].core == ms[i].core;
      }
    }
    if AllUsage(v) {
      forall i | 0 <= i < |ms| && Means(ms[i].core, "include_usage") ensures ms[i].core.val == Atom("true") {
        assert v.members[i].core == ms[i].core;
      }
    }
  }

  lemma CoresAt(ms: seq<Member>, i: nat)
    requires i < |ms|
    ensures Cores(ms)[i] == ms[i].core
  {
  }

  lemma SetCore(c: Core, v: Json)
    ensures SetValue(c, v).Patch? && SetValue(c, v).core == c.(val := v)
  {
  }

  lemma UsageSetAll(c: Core, j: nat)
    requires ValidCore(c) && c.val.Obj? && j == First(c.val.members, "include_usage") < |c.val.members|
    ensures var g := Inner(c.val);
            var v := Edited(g, Only(|g.members|, j, SetValue(g.members[j].core, Atom("true"))), []);
            AllUsage(v) <==> UsageElsewhere(c.val.members, j)
  {
    hide Print, CoreText, Edited, Valid, AllUsage, UsageElsewhere, SetValue, First, NewCores, FatesOk;
    var g := Inner(c.val);
    var t := SetValue(g.members[j].core, Atom("true"));
    SetCore(g.members[j].core, Atom("true"));
    var fates := Only(|g.members|, j, t);
    InnerFates(c, j);
    SetMembers(g, j, t);
    UsageByMembers(Edited(g, fates, []), g.members, j);
  }

  /** Setting one member leaves the others as they are. */
  lemma SetMembers(g: Frame, j: nat, t: Fate)
    requires j < |g.members| && t.Patch? && FatesOk(g, Only(|g.members|, j, t))
    ensures var v := Edited(g, Only(|g.members|, j, t), []);
            v.Obj? && |v.members| == |g.members| &&
            forall i | 0 <= i < |g.members| :: v.members[i].core == if i == j then t.core else g.members[i].core
  {
    hide Edited, FatesOk, NewCores;
    var fates := Only(|g.members|, j, t);
    EditedMembers(g, fates, []);
    NewCoresOnly(g, j, t, 0);
    var cs, v := NewCores(g, fates, 0), Edited(g, fates, []);
    hide Only;
    assert cs + [] == cs;
    forall i | 0 <= i < |g.members| ensures v.members[i].core == if i == j then t.core else g.members[i].core {
      CoresAt(v.members, i);
      assert Cores(v.members) == cs;
      assert cs[i - 0] == NewCore(g.members[i].core, t) || i != j;
      assert cs[i - 0] == g.members[i].core || i == j;
    }
  }

  lemma UsageAddAll(c: Core)
    requires ValidCore(c) && c.val.Obj? && !Has(c.val.members, "include_usage")
    ensures var g := Inner(c.val);
            var v := Edited(g, Only(|g.members|, |g.members|, Keep), [IncludeUsage()]);
            AllUsage(v) <==> UsageElsewhere(c.val.members, |c.val.members|)
  {
    hide Print, CoreText, Edited, AllUsage, UsageElsewhere;
    var g := Inner(c.val);
    var n := |g.members|;
    var fates := Only(n, n, Keep);
    UsageObjectOk();
    assert FatesOk(g, fates);
    EditedMembers(g, fates, [IncludeUsage()]);
    NewCoresOnly(g, n, Keep, 0);
    var cs, v := NewCores(g, fates, 0), Edited(g, fates, [IncludeUsage()]);
    hide NewCores, FatesOk, Only, Valid;
    forall i | 0 <= i < n ensures v.members[i].core == g.members[i].core {
      CoresAt(v.members, i);
      assert cs[i - 0] == cs[i];
    }
    CoresAt(v.members, n);
    UsageByMore(v, g.members);
  }

  lemma UsageObjectAsks()
    ensures AllUsage(UsageObject())
  {
    UsagePlain();
    hide Decode;
    var v := UsageObject();
    assert Means(v.members[0].core, "include_usage");
  }

  lemma UsageFateAll(c: Core)
    requires ValidCore(c)
    ensures UsageFate(c).Patch? && UsageFate(c).core.key == c.key
    ensures AllUsage(UsageFate(c).core.val) <==>
            (c.val.Obj? ==> UsageElsewhere(c.val.members, First(c.val.members, "include_usage")))
  {
    hide AllUsage, UsageElsewhere, Print, CoreText, Edited;
    UsageObjectAsks();
    if c.val.Obj? {
      if Has(c.val.members, "include_usage") {
        UsageSetAll(c, First(c.val.members, "include_usage"));
      } else {
        UsageAddAll(c);
      }
    }
  }

  lemma StreamNew(ms: seq<Member>, i: nat, t: Tier, w: Wire)
    requires i < |ms| && ValidCore(ms[i].core)
    ensures var c, fate := ms[i].core, FateOf(ms, i, t, w);
            && (Means(NewCore(c, fate), "stream_options") && !fate.Drop? <==> Means(c, "stream_options"))
            && (Means(c, "stream_options") ==> (AllUsage(NewCore(c, fate).val) <==> UsageReaches(IsStream(ms), c)))
  {
    hide AllUsage, UsageElsewhere, Means, IsStream;
    MeansNew(ms, i, t, w, "stream_options");
    StreamKeys(ms, i, t, w);
    UsageFateAll(ms[i].core);
    Plainly("stream_options");
    hide FateOf, UsageFate, Managed;
    assert Managed("stream_options") by { StreamManaged(); }
  }

  lemma StreamManaged()
    ensures Managed("stream_options")
  {
  }

  lemma StreamKeys(ms: seq<Member>, i: nat, t: Tier, w: Wire)
    requires i < |ms|
    ensures var c, fate := ms[i].core, FateOf(ms, i, t, w);
            && (NewCore(c, fate).key == "stream_options" && !fate.Drop? <==> c.key == "stream_options")
            && (c.key == "stream_options" ==> fate == if IsStream(ms) then UsageFate(c) else Keep)
  {
    hide Print, CoreText, UsageFate, NoneEffortFate, First, KindOf, IsStream;
    Kinds(ms[i].core.key);
    Kinds("reasoning");
    FateKeys(ms[i].core);
  }

  lemma StreamAdded(ms: seq<Member>, t: Tier, w: Wire)
    ensures forall c | c in Added(ms, t, w) && Means(c, "stream_options") :: AllUsage(c.val)
    ensures (exists c :: c in Added(ms, t, w) && Means(c, "stream_options")) <==> IsStream(ms) && !Has(ms, "stream_options")
  {
    UsageObjectAsks();
    hide Added, TargetModel, TargetEffort, EffortObject, UsageObject, First, IsStream, Decode, AllUsage;
    AddedMeans(ms, t, w, "stream_options");
    forall c | c in Added(ms, t, w) && c.key == "stream_options" ensures c in AddedStream(ms) && c.val == UsageObject() { AddedIs(ms, t, w, c); }
    if IsStream(ms) && !Has(ms, "stream_options") { AddedIs(ms, t, w, AddedStream(ms)[0]); }
  }

  /** The request has a member spelled `stream` with the value true. */
  predicate SeesStream(ms: seq<Member>) {
    exists i | 0 <= i < |ms| :: ms[i].core.key == "stream" && ms[i].core.val == Atom("true")
  }

  lemma StreamSeen(f: Frame)
    requires f.Ok()
    ensures IsStream(f.members) <==> SeesStream(f.members)
  {
    hide Print, Valid;
    forall i | 0 <= i < |f.members| ensures Print(f.members[i].core.val) == "true" <==> f.members[i].core.val == Atom("true") {
      assert ValidMember(f.members[i]);
      PrintsTrue(f.members[i].core.val);
    }
  }

  lemma {:induction false} PrintsTrue(v: Json)
    ensures Print(v) == "true" <==> v == Atom("true")
  {
    hide PrintElems, PrintMembers;
    assert "true"[0] == 't';
    match v
    case Str(_) => assert Print(v)[0] == '"';
    case Atom(_) =>
    case Arr(_, _) => assert Print(v)[0] == '[';
    case Obj(_, _) => assert Print(v)[0] == '{';
  }

  /**
   What goes out asks for usage, everywhere a provider may look, if and only if each stream_options of
   the request can be made to: one that the gateway edits unless a later include_usage in it is not
   true, one that it does not see if it asks already. When the gateway does not see that the request is
   a stream, or a value nests too deep, the request must have asked.
   */
  lemma StreamAsksUsage(f: Frame, t: Tier, w: Wire)
    requires f.Ok()
    ensures UsageAsked(Out(f, t, w)) <==>
            if Shallow(f) && SeesStream(f.members) then
              forall i | 0 <= i < |f.members| && Means(f.members[i].core, "stream_options") :: UsageReaches(true, f.members[i].core)
            else UsageAsked(Cores(f.members))
  {
    OutIs(f, t, w);
    StreamSeen(f);
    var ms := f.members;
    hide *;
    AskedIs(Cores(ms));
    AsTheyCame(ms);
    if Shallow(f) {
      AskedIs(Sent(f, t, w));
      StreamThere(f, t, w);
      if IsStream(ms) {
        StreamSent(f, t, w, true);
      } else {
        StreamSent(f, t, w, false);
        NothingSeen(f, t, w);
      }
    }
  }

  lemma AskedIs(cs: seq<Core>)
    ensures UsageAsked(cs) <==>
            (exists c :: c in cs && Means(c, "stream_options")) && forall c | c in cs && Means(c, "stream_options") :: AllUsage(c.val)
  {
  }

  /** The options sent are those of the request, edited when the stream is seen, or the added ones. */
  lemma StreamSent(f: Frame, t: Tier, w: Wire, seen: bool)
    requires f.Ok() && seen == IsStream(f.members)
    ensures (forall c | c in Sent(f, t, w) && Means(c, "stream_options") :: AllUsage(c.val)) <==>
            forall i | 0 <= i < |f.members| && Means(f.members[i].core, "stream_options") :: UsageReaches(seen, f.members[i].core)
    ensures !seen ==> ((exists c :: c in Sent(f, t, w) && Means(c, "stream_options")) <==> Asks(f.members, "stream_options"))
  {
    var ms := f.members;
    hide FateOf, Means, Added, Sent, UsageReaches, AllUsage, IsStream;
    StreamAdded(ms, t, w);
    forall i: nat | i < |ms| && Means(ms[i].core, "stream_options")
      ensures var n := NewCore(ms[i].core, FateOf(ms, i, t, w));
              n in Sent(f, t, w) && Means(n, "stream_options") && (AllUsage(n.val) <==> UsageReaches(seen, ms[i].core))
    {
      assert ValidMember(ms[i]);
      StreamNew(ms, i, t, w);
      SentIs(f, t, w, NewCore(ms[i].core, FateOf(ms, i, t, w)));
    }
    forall c | c in Sent(f, t, w) && Means(c, "stream_options")
      ensures c in Added(ms, t, w) ||
              exists i: nat :: i < |ms| && Means(ms[i].core, "stream_options") && (AllUsage(c.val) <==> UsageReaches(seen, ms[i].core))
    {
      SentIs(f, t, w, c);
      if c !in Added(ms, t, w) {
        var i: nat :| i < |ms| && !FateOf(ms, i, t, w).Drop? && c == NewCore(ms[i].core, FateOf(ms, i, t, w));
        assert ValidMember(ms[i]);
        StreamNew(ms, i, t, w);
      }
    }
  }

  lemma NothingSeen(f: Frame, t: Tier, w: Wire)
    ensures (forall i | 0 <= i < |f.members| && Means(f.members[i].core, "stream_options") :: UsageReaches(false, f.members[i].core)) <==>
            forall c | c in Cores(f.members) && Means(c, "stream_options") :: AllUsage(c.val)
    ensures Asks(f.members, "stream_options") <==> exists c :: c in Cores(f.members) && Means(c, "stream_options")
  {
    hide Means, AllUsage;
    AsTheyCame(f.members);
  }

  /** There are options to look at when there were some, or the gateway added them. */
  lemma StreamThere(f: Frame, t: Tier, w: Wire)
    requires f.Ok()
    ensures IsStream(f.members) ==> exists c :: c in Sent(f, t, w) && Means(c, "stream_options")
  {
    hide FateOf, Decode, Added, Sent, IsStream;
    var ms := f.members;
    if IsStream(ms) {
      StreamAdded(ms, t, w);
      if Has(ms, "stream_options") {
        var i := First(ms, "stream_options");
        assert ValidMember(ms[i]);
        Plainly("stream_options");
        StreamNew(ms, i, t, w);
        SentIs(f, t, w, NewCore(ms[i].core, FateOf(ms, i, t, w)));
        assert Means(NewCore(ms[i].core, FateOf(ms, i, t, w)), "stream_options");
      } else {
        var c :| c in Added(ms, t, w) && Means(c, "stream_options");
        SentIs(f, t, w, c);
      }
    }
  }

  // ---------------------------------------------------------------- the forbidden "none"

  /** What a dialect that forbids "none" refuses, after unescaping. */
  predicate NoneMeant(v: Json) {
    v == Atom("null") || Stands(v, "none") || Stands(v, "")
  }

  /** The object has such an effort, other than member j. */
  predicate InnerNone(ms: seq<Member>, j: nat) {
    exists i | 0 <= i < |ms| :: i != j && Means(ms[i].core, "effort") && NoneMeant(ms[i].core.val)
  }

  predicate IsNone(c: Core) {
    || (Means(c, "reasoning_effort") && NoneMeant(c.val))
    || (Means(c, "reasoning") && c.val.Obj? && InnerNone(c.val.members, |c.val.members|))
  }

  /** The value is a string written with an escape. */
  predicate Backslashed(v: Json) {
    v.Str? && '\\' in v.raw
  }

  /** What the gateway takes for a none: the value null, and the strings "none" and "" without escapes. */
  lemma {:induction false} EffortNoneIs(v: Json)
    requires Valid(v)
    ensures EffortNone(v) <==> v == Atom("null") || v == Str("none") || v == Str("")
    ensures EffortNone(v) <==> NoneMeant(v) && !Backslashed(v)
  {
    hide Decode, ValidRaw, PrintElems, PrintMembers;
    NoneTexts();
    match v
    case Str(raw) =>
      DecodeSelf(raw);
      QuotedIs(raw, "none");
      QuotedIs(raw, "");
      assert Print(v)[0] == '"';
    case Atom(text) =>
      AtomPlain(text);
    case Arr(_, _) =>
      assert Print(v)[0] == '[';
    case Obj(_, _) =>
      assert Print(v)[0] == '{';
  }

  lemma NoneTexts()
    ensures Quoted("none") == "\"none\"" && Quoted("") == "\"\""
    ensures "\"none\""[0] == '"' && "\"\""[0] == '"' && "null"[0] == 'n'
    ensures '\\' !in "none" && '\\' !in ""
  {
  }

  lemma AtomPlain(text: string)
    requires ValidAtom(text)
    ensures text != "\"none\"" && text != "\"\""
  {
  }

  lemma QuotedIs(raw: string, s: string)
    ensures Quoted(raw) == Quoted(s) <==> raw == s
  {
    assert Quoted(raw)[1..|raw| + 1] == raw && Quoted(s)[1..|s| + 1] == s;
    assert |Quoted(raw)| == |raw| + 2 && |Quoted(s)| == |s| + 2;
  }

  /** A none goes out inside a reasoning object: any of them, or another one than the first effort when that is deleted. */
  predicate SlipsInside(ms: seq<Member>) {
    var j := First(ms, "effort");
    if j < |ms| && NoneMeant(ms[j].core.val) && !Backslashed(ms[j].core.val)
    then InnerNone(ms, j) && exists i | 0 <= i < |ms| :: ms[i].core.key != "effort"
    else InnerNone(ms, |ms|)
  }

  /** A none of the request that still goes out: the gateway sees plain spellings, and the first effort of a reasoning object. */
  predicate Slips(shallow: bool, c: Core) {
    if shallow && c.key == "reasoning_effort" then NoneMeant(c.val) && Backslashed(c.val)
    else if shallow && c.key == "reasoning" then c.val.Obj? && SlipsInside(c.val.members)
    else IsNone(c)
  }

  /** What slips, by the fates. */
  lemma SlipsSeen(c: Core)
    requires ValidCore(c)
    ensures c.key == "reasoning_effort" ==> (Slips(true, c) <==> NoneMeant(c.val) && !EffortNone(c.val))
    ensures c.key == "reasoning" && HasEffortNone(c.val) ==>
              (Slips(true, c) <==> !SoleEffort(c.val) && InnerNone(c.val.members, First(c.val.members, "effort")))
    ensures c.key == "reasoning" && !HasEffortNone(c.val) ==>
              (Slips(true, c) <==> c.val.Obj? && InnerNone(c.val.members, |c.val.members|))
  {
    hide Print, Decode, ValidRaw, NoneMeant, EffortNone, InnerNone, Backslashed, Means;
    assert "reasoning" != "reasoning_effort";
    EffortNoneIs(c.val);
    if c.val.Obj? && Has(c.val.members, "effort") {
      var j := First(c.val.members, "effort");
      assert ValidMember(c.val.members[j]) && ValidCore(c.val.members[j].core);
      EffortNoneIs(c.val.members[j].core.val);
    }
  }

  lemma {:induction false} NoneDropped(c: Core)
    requires ValidCore(c) && HasEffortNone(c.val) && !SoleEffort(c.val)
    ensures NoneEffortFate(c).Patch? && NoneEffortFate(c).core.key == c.key
    ensures var v := NoneEffortFate(c).core.val;
            v.Obj? && (InnerNone(v.members, |v.members|) <==> InnerNone(c.val.members, First(c.val.members, "effort")))
  {
    hide Print, CoreText, Edited, NewCores, InnerNone;
    var g := Inner(c.val);
    var ms, j := g.members, First(g.members, "effort");
    var fates := Only(|ms|, j, Drop);
    assert FatesOk(g, fates);
    EditedMembers(g, fates, []);
    hide FatesOk, Valid;
    var v := Edited(g, fates, []);
    assert NewCores(g, fates, 0) + [] == NewCores(g, fates, 0);
    NoneKept(g, j, v.members);
    NoneStays(g, j, v.members);
  }

  lemma {:induction false} NoneKept(g: Frame, j: nat, vs: seq<Member>)
    requires j < |g.members| && Cores(vs) == NewCores(g, Only(|g.members|, j, Drop), 0)
    ensures InnerNone(vs, |vs|) ==> InnerNone(g.members, j)
  {
    hide Means, NoneMeant, NewCores, Cores;
    var ms, fates := g.members, Only(|g.members|, j, Drop);
    AsTheyCame(vs);
    if InnerNone(vs, |vs|) {
      var x :| 0 <= x < |vs| && Means(vs[x].core, "effort") && NoneMeant(vs[x].core.val);
      SentFrom(g, fates, 0, vs[x].core);
      var i :| 0 <= i < |fates| && !fates[i].Drop? && vs[x].core == NewCore(ms[i].core, fates[i]);
      assert i != j && Means(ms[i].core, "effort");
    }
  }

  lemma {:induction false} NoneStays(g: Frame, j: nat, vs: seq<Member>)
    requires j < |g.members| && Cores(vs) == NewCores(g, Only(|g.members|, j, Drop), 0)
    ensures InnerNone(g.members, j) ==> InnerNone(vs, |vs|)
  {
    hide Means, NoneMeant, NewCores, Cores;
    var ms, fates := g.members, Only(|g.members|, j, Drop);
    AsTheyCame(vs);
    if InnerNone(ms, j) {
      var i :| 0 <= i < |ms| && i != j && Means(ms[i].core, "effort") && NoneMeant(ms[i].core.val);
      SentFrom(g, fates, 0, ms[i].core);
      assert fates[i] == Keep && ms[i].core == NewCore(ms[i].core, fates[i]);
      var x: nat :| x < |vs| && ms[i].core == vs[x].core;
    }
  }

  lemma NoneKeys(ms: seq<Member>, i: nat, t: Tier, w: Wire)
    requires i < |ms| && t.effort == "" && w.forbidsEffortNone
    ensures var c, fate := ms[i].core, FateOf(ms, i, t, w);
            && (c.key == "reasoning_effort" ==> fate == if EffortNone(c.val) then Drop else Keep)
            && (c.key == "reasoning" ==> fate == NoneEffortFate(c))
            && (c.key == "model" || c.key == "stream_options" ==> !fate.Drop? && NewCore(c, fate).key == c.key)
  {
    hide Print, CoreText, UsageFate, NoneEffortFate, First, KindOf;
    Kinds(ms[i].core.key);
    FateKeys(ms[i].core);
  }

  lemma PlainNone(c: Core)
    requires Managed(c.key)
    ensures c.key == "reasoning_effort" ==> (IsNone(c) <==> NoneMeant(c.val))
    ensures c.key == "reasoning" ==> (IsNone(c) <==> c.val.Obj? && InnerNone(c.val.members, |c.val.members|))
    ensures c.key == "model" || c.key == "stream_options" ==> !IsNone(c)
  {
    Plainly(c.key);
    hide Decode, NoneMeant, InnerNone;
  }

  lemma NoneNew(ms: seq<Member>, i: nat, t: Tier, w: Wire)
    requires i < |ms| && ValidCore(ms[i].core) && t.effort == "" && w.forbidsEffortNone
    ensures var c, fate := ms[i].core, FateOf(ms, i, t, w);
            (!fate.Drop? && IsNone(NewCore(c, fate))) <==> Slips(true, c)
  {
    hide Means, NoneMeant, InnerNone, EffortNone, SoleEffort, IsNone, SlipsInside;
    var c := ms[i].core;
    SlipsSeen(c);
    var fate := FateOf(ms, i, t, w);
    MeansNew(ms, i, t, w, "model");
    NoneKeys(ms, i, t, w);
    hide FateOf;
    if Managed(c.key) {
      PlainNone(c);
      if c.key == "reasoning" && HasEffortNone(c.val) && !SoleEffort(c.val) { NoneDropped(c); }
      hide UsageFate;
      if Managed(NewCore(c, fate).key) { PlainNone(NewCore(c, fate)); }
    }
  }

  lemma NoneAdded(ms: seq<Member>, t: Tier, w: Wire)
    requires t.effort == ""
    ensures forall c | c in Added(ms, t, w) :: !IsNone(c)
  {
    AddedManaged(ms, t, w);
    hide IsNone, Managed, First, IsStream;
    forall c | c in Added(ms, t, w) ensures !IsNone(c) {
      PlainNone(c);
    }
  }

  /**
   For a dialect that forbids "none" and a tier without an effort: a provider is sent a none if and
   only if one of the request slips through. One slips when its key is not a plain managed one or some
   value nests too deep; as a flat effort when its value is written with an escape; inside a reasoning
   object when the first member spelled `effort` is not a plain none, or is one that has this none and
   another key beside it.
   */
  lemma NoNoneSent(f: Frame, t: Tier, w: Wire)
    requires f.Ok() && t.effort == "" && w.forbidsEffortNone
    ensures (exists c :: c in Out(f, t, w) && IsNone(c)) <==> exists i | 0 <= i < |f.members| :: Slips(Shallow(f), f.members[i].core)
  {
    OutIs(f, t, w);
    var ms := f.members;
    hide FateOf, IsNone, Added, AllShallow, Sent, Upstream, Slips;
    AsTheyCame(ms);
    if Shallow(f) {
      NoneAdded(ms, t, w);
      forall c | c in Sent(f, t, w) && IsNone(c) ensures exists i: nat :: i < |ms| && Slips(true, ms[i].core) {
        SentIs(f, t, w, c);
        var i: nat :| i < |ms| && !FateOf(ms, i, t, w).Drop? && c == NewCore(ms[i].core, FateOf(ms, i, t, w));
        assert ValidMember(ms[i]);
        NoneNew(ms, i, t, w);
      }
      forall i: nat | i < |ms| && Slips(true, ms[i].core) ensures exists c :: c in Sent(f, t, w) && IsNone(c) {
        assert ValidMember(ms[i]);
        NoneNew(ms, i, t, w);
        SentIs(f, t, w, NewCore(ms[i].core, FateOf(ms, i, t, w)));
      }
    }
  }
}
