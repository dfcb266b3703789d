/**
 Requests on which the properties of PayloadUpstream fail, one for each way to slip through: a key or a
 value written with escapes, a repeated member inside an object, a value that nests too deep.
 */
module PayloadInputs {
  import opened Wrappers
  import opened Json
  import opened ObjectEdit
  import opened PayloadSpec
  import opened PayloadProperties
  import opened PayloadUpstream

  // ---------------------------------------------------------------- building requests

  /** p c s with the character c written as an escape. */
  function Spelled(p: string, c: char, s: string): string
    requires c as int < 0x80
  {
    p + ("\\u00" + [HexDigit(c as int / 16), HexDigit(c as int % 16)] + s)
  }

  predicate IsPlain(s: string) {
    forall i | 0 <= i < |s| :: s[i] != '"' && s[i] != '\\' && s[i] >= ' '
  }

  lemma {:induction false} SpelledIs(p: string, c: char, s: string)
    requires IsPlain(p) && IsPlain(s) && c as int < 0x80
    ensures ValidRaw(Spelled(p, c, s)) && Decode(Spelled(p, c, s)) == Some(p + [c] + s) && '\\' in Spelled(p, c, s)
  {
    hide Decode, ValidRaw, HexDigit;
    if p == "" {
      SpelledFirst(c, s);
    } else {
      SpelledIs(p[1..], c, s);
      PlainChar(p[0], Spelled(p[1..], c, s));
      SpelledMore(p, c, s);
    }
  }

  lemma SpelledFirst(c: char, s: string)
    requires IsPlain(s) && c as int < 0x80
    ensures ValidRaw(Spelled("", c, s)) && Decode(Spelled("", c, s)) == Some("" + [c] + s) && '\\' in Spelled("", c, s)
  {
    hide Decode, ValidRaw, HexDigit;
    PlainRaw(s);
    DecodeSelf(s);
    assert '\\' !in s;
    UnicodeEscape(c, s);
    var x := "\\u00" + [HexDigit(c as int / 16), HexDigit(c as int % 16)] + s;
    assert Spelled("", c, s) == x && x[0] == '\\' && "" + [c] + s == [c] + s;
  }

  lemma SpelledMore(p: string, c: char, s: string)
    requires p != "" && c as int < 0x80
    ensures Spelled(p, c, s) == [p[0]] + Spelled(p[1..], c, s) && [p[0]] + (p[1..] + [c] + s) == p + [c] + s
    ensures '\\' in Spelled(p[1..], c, s) ==> '\\' in Spelled(p, c, s)
  {
    hide HexDigit;
    var x := "\\u00" + [HexDigit(c as int / 16), HexDigit(c as int % 16)] + s;
    assert [p[0]] + (p[1..] + x) == p + x;
  }

  /** The key `whole` with one character escaped: what it means, and that it is not the plain key. */
  lemma SpelledKey(p: string, c: char, s: string, whole: string, v: Json)
    requires IsPlain(p) && IsPlain(s) && c as int < 0x80 && p + [c] + s == whole && IsPlain(whole) && Valid(v)
    ensures var x := Pair(Spelled(p, c, s), v);
            ValidCore(x) && Means(x, whole) && x.key != whole && '\\' in x.key && forall k | k != whole :: !Means(x, k)
  {
    SpelledIs(p, c, s);
    hide Decode, ValidRaw, Spelled, Valid;
  }

  function Pair(key: string, v: Json): Core { Core(key, "", "", v) }

  lemma PlainKey(key: string, v: Json)
    requires IsPlain(key) && Valid(v)
    ensures ValidCore(Pair(key, v)) && Means(Pair(key, v), key) && forall k | k != key :: !Means(Pair(key, v), k)
  {
    PlainRaw(key);
    DecodeSelf(key);
    hide Decode, ValidRaw, Valid;
  }

  lemma PlainText(s: string)
    requires IsPlain(s)
    ensures Valid(Str(s)) && Depth(Str(s)) == 0 && forall x :: Stands(Str(s), x) <==> x == s
  {
    PlainRaw(s);
    DecodeSelf(s);
    hide Decode, ValidRaw;
  }

  lemma Words()
    ensures IsPlain("model") && IsPlain("mod") && IsPlain("l") && IsPlain("other") && IsPlain("x") && IsPlain("a")
    ensures IsPlain("reasoning") && IsPlain("reasonin") && IsPlain("") && IsPlain("reasoning_effort") && IsPlain("reasoning_effor")
    ensures IsPlain("low") && IsPlain("none") && IsPlain("non") && IsPlain("effort")
    ensures IsPlain("stream") && IsPlain("strea") && IsPlain("stream_options") && IsPlain("include_usage")
    ensures "mod" + ['e'] + "l" == "model" && "reasonin" + ['g'] + "" == "reasoning"
    ensures "reasoning_effor" + ['t'] + "" == "reasoning_effort" && "strea" + ['m'] + "" == "stream" && "non" + ['e'] + "" == "none"
  {
  }

  lemma Literals()
    ensures Valid(Atom("true")) && Valid(Atom("false")) && Valid(Atom("1"))
    ensures Depth(Atom("true")) == Depth(Atom("false")) == Depth(Atom("1")) == 0
  {
  }

  /** An object with these members and no whitespace. */
  function Object(cs: seq<Core>): Frame {
    Frame("", seq(|cs|, i requires 0 <= i < |cs| => Member("", cs[i], "")), "", "")
  }

  /** The same as a value. */
  function Nested(cs: seq<Core>): Json {
    Obj(Object(cs).members, "")
  }

  lemma ObjectIs(cs: seq<Core>)
    requires forall c | c in cs :: ValidCore(c)
    ensures Object(cs).Ok() && Valid(Nested(cs)) && Cores(Object(cs).members) == cs
    ensures |Object(cs).members| == |cs| && forall i | 0 <= i < |cs| :: Object(cs).members[i].core == cs[i]
  {
    hide ValidCore;
    forall i | 0 <= i < |cs| ensures ValidMember(Object(cs).members[i]) {
      assert cs[i] in cs;
    }
  }

  lemma FlatIs(cs: seq<Core>)
    requires forall c | c in cs :: Depth(c.val) <= MAX_NESTING
    ensures Shallow(Object(cs))
  {
    hide Depth;
    forall i | 0 <= i < |cs| ensures Depth(Object(cs).members[i].core.val) <= MAX_NESTING { assert cs[i] in cs; }
  }

  lemma {:induction false} NestedDepth(ms: seq<Member>)
    requires forall i | 0 <= i < |ms| :: Depth(ms[i].core.val) == 0
    ensures MembersDepth(ms) == 0
  {
    if ms != [] { NestedDepth(ms[1..]); }
  }

  /** An array that nests deeper than the scanner goes. */
  function Deep(n: nat): Json {
    if n == 0 then Arr([], "") else Arr([Elem("", Deep(n - 1), "")], "")
  }

  lemma {:induction false} DeepIs(n: nat)
    ensures Valid(Deep(n)) && Depth(Deep(n)) == n + 1
  {
    if n > 0 {
      DeepIs(n - 1);
      var e := Elem("", Deep(n - 1), "");
      assert ValidElem(e);
      assert [e][1..] == [] && ElemsDepth([e]) == Max(n, 0);
    }
  }

  function TooDeep(): Core { Pair("a", Deep(MAX_NESTING)) }

  /** With such a member the request goes out as it came. */
  lemma TooDeepIs(cs: seq<Core>)
    requires TooDeep() in cs
    ensures ValidCore(TooDeep()) && !Shallow(Object(cs)) && forall k | k != "a" :: !Means(TooDeep(), k)
  {
    hide Deep, Depth, IsPlain, Valid, ValidCore, Means, Decode, ValidRaw;
    Words();
    DeepIs(MAX_NESTING);
    PlainKey("a", Deep(MAX_NESTING));
    hide Deep, Depth, IsPlain, Valid, ValidCore, Means;
    NotShallow(cs, TooDeep());
  }

  lemma NotShallow(cs: seq<Core>, c: Core)
    requires c in cs && Depth(c.val) > MAX_NESTING
    ensures !Shallow(Object(cs))
  {
    hide Depth;
    var i :| 0 <= i < |cs| && cs[i] == c;
    assert Object(cs).members[i].core == c;
  }

  // ---------------------------------------------------------------- the model

  lemma TwoLines()
    ensures Valid(Str("a\\nb")) && Depth(Str("a\\nb")) == 0 && '\\' in "a\\nb"
  {
    assert "a\\nb"[1..][2..] == "b";
    assert "a\\nb"[1] == '\\';
  }

  /** The target a\nb and {"model":"a\nb"}, whose model is two lines: the bytes are the same, so it is not edited. */
  lemma ModelMissed(w: Wire)
    ensures var f := Object([Pair("model", Str("a\\nb"))]);
            f.Ok() && !ModelsOk(Out(f, Tier("a\\nb", ""), w), Tier("a\\nb", ""))
  {
    hide Decode, ValidRaw, Valid, ValidCore, Depth, Upstream, AllShallow, IsPlain, ModelsOk, Object, Means;
    var t, c := Tier("a\\nb", ""), Pair("model", Str("a\\nb"));
    Words();
    TwoLines();
    PlainKey("model", Str("a\\nb"));
    ObjectIs([c]);
    FlatIs([c]);
    ModelIsTarget(Object([c]), t, w);
    assert !ModelReaches(true, Object([c]).members[0].core, t);
  }

  /** {"mod\u0065l":"other"}: the gateway adds a model and leaves the other one beside it. */
  lemma ModelKeyMissed(w: Wire)
    ensures var f := Object([Pair(Spelled("mod", 'e', "l"), Str("other"))]);
            f.Ok() && !ModelsOk(Out(f, Tier("m", ""), w), Tier("m", ""))
  {
    hide Decode, ValidRaw, Valid, ValidCore, Depth, Upstream, AllShallow, IsPlain, ModelsOk, Object, Means, Stands, Spelled;
    var t, c := Tier("m", ""), Pair(Spelled("mod", 'e', "l"), Str("other"));
    Words();
    PlainText("other");
    SpelledKey("mod", 'e', "l", "model", Str("other"));
    ObjectIs([c]);
    FlatIs([c]);
    ModelIsTarget(Object([c]), t, w);
    assert !ModelReaches(true, Object([c]).members[0].core, t);
  }

  /** {"model":"x","a":[[...]]} with 129 brackets goes out as it came. */
  lemma ModelDeepMissed(w: Wire)
    ensures var f := Object([Pair("model", Str("x")), TooDeep()]);
            f.Ok() && !ModelsOk(Out(f, Tier("m", ""), w), Tier("m", ""))
  {
    hide Decode, ValidRaw, Valid, ValidCore, Depth, Upstream, AllShallow, IsPlain, ModelsOk, Object, Means, Stands, TooDeep;
    var t, cs := Tier("m", ""), [Pair("model", Str("x")), TooDeep()];
    Words();
    PlainText("x");
    PlainKey("model", Str("x"));
    TooDeepIs(cs);
    ObjectIs(cs);
    ModelIsTarget(Object(cs), t, w);
    assert !ModelReaches(false, Object(cs).members[0].core, t);
  }

  // ---------------------------------------------------------------- reasoning

  lemma OneMember(cs: seq<Core>, key: string)
    requires |cs| == 1
    ensures Escaped(cs, key) == if Means(cs[0], key) && cs[0].key != key then 1 else 0
    ensures CountMeaning(cs, key) == if Means(cs[0], key) then 1 else 0
  {
    hide Means;
    assert cs[1..] == [];
  }

  /** {"reasonin\u0067":1}: there are two reasoning members in the end. */
  lemma NestedKeyMissed(w: Wire)
    requires w.nested
    ensures var f, t := Object([Pair(Spelled("reasonin", 'g', ""), Atom("1"))]), Tier("m", "high");
            f.Ok() && CountMeaning(Out(f, t, w), "reasoning") == 2
  {
    hide Decode, ValidRaw, Valid, ValidCore, Depth, Upstream, AllShallow, IsPlain, Object, Means, Spelled, CountMeaning, Escaped;
    var c := Pair(Spelled("reasonin", 'g', ""), Atom("1"));
    Words();
    Literals();
    SpelledKey("reasonin", 'g', "", "reasoning", Atom("1"));
    ObjectIs([c]);
    FlatIs([c]);
    NestedReasoning(Object([c]), Tier("m", "high"), w);
    OneMember([c], "reasoning");
  }

  /** {"a":[[...]]}: there is none. */
  lemma NestedDeepMissed(w: Wire)
    requires w.nested
    ensures var f, t := Object([TooDeep()]), Tier("m", "high"); f.Ok() && CountMeaning(Out(f, t, w), "reasoning") == 0
  {
    hide Decode, ValidRaw, Valid, ValidCore, Depth, Upstream, AllShallow, IsPlain, Object, Means, CountMeaning, Escaped, TooDeep;
    var cs := [TooDeep()];
    TooDeepIs(cs);
    ObjectIs(cs);
    NestedReasoning(Object(cs), Tier("m", "high"), w);
    OneMember(cs, "reasoning");
    assert "reasoning" != "a";
  }

  /** {"reasoning_effor\u0074":"low"} keeps its effort beside the tier's. */
  lemma FlatKeyMissed(w: Wire)
    requires !w.nested
    ensures var f, t := Object([Pair(Spelled("reasoning_effor", 't', ""), Str("low"))]), Tier("m", "high");
            f.Ok() && !EffortsOk(Out(f, t, w), t)
  {
    hide Decode, ValidRaw, Valid, ValidCore, Depth, Upstream, AllShallow, IsPlain, Object, Means, Stands, Spelled, EffortsOk;
    var t, c := Tier("m", "high"), Pair(Spelled("reasoning_effor", 't', ""), Str("low"));
    Words();
    PlainText("low");
    SpelledKey("reasoning_effor", 't', "", "reasoning_effort", Str("low"));
    ObjectIs([c]);
    FlatIs([c]);
    FlatReasoning(Object([c]), t, w);
    assert Means(Object([c]).members[0].core, "reasoning_effort");
    assert "low" != "high";
  }

  /** {"reasoning_effort":"low","a":[[...]]} keeps it, too. */
  lemma FlatDeepMissed(w: Wire)
    requires !w.nested
    ensures var f, t := Object([Pair("reasoning_effort", Str("low")), TooDeep()]), Tier("m", "high");
            f.Ok() && !EffortsOk(Out(f, t, w), t)
  {
    hide Decode, ValidRaw, Valid, ValidCore, Depth, Upstream, AllShallow, IsPlain, Object, Means, Stands, EffortsOk, TooDeep;
    var t, cs := Tier("m", "high"), [Pair("reasoning_effort", Str("low")), TooDeep()];
    Words();
    PlainText("low");
    PlainKey("reasoning_effort", Str("low"));
    TooDeepIs(cs);
    ObjectIs(cs);
    FlatReasoning(Object(cs), t, w);
    assert Means(Object(cs).members[0].core, "reasoning_effort");
    assert "low" != "high";
  }

  // ---------------------------------------------------------------- streaming

  lemma FirstIs(ms: seq<Member>, key: string)
    requires ms != [] && ms[0].core.key == key
    ensures First(ms, key) == 0
  {
  }

  function TwiceFalse(): Json {
    Nested([Pair("include_usage", Atom("false")), Pair("include_usage", Atom("false"))])
  }

  lemma TwiceFalseIs()
    ensures Valid(TwiceFalse()) && Depth(TwiceFalse()) == 1 && TwiceFalse().Obj?
    ensures !UsageElsewhere(TwiceFalse().members, First(TwiceFalse().members, "include_usage"))
  {
    hide Decode, ValidRaw, Valid, ValidCore, IsPlain, Object, Means, First;
    var c := Pair("include_usage", Atom("false"));
    Words();
    Literals();
    PlainKey("include_usage", Atom("false"));
    ObjectIs([c, c]);
    var ms := TwiceFalse().members;
    NestedDepth(ms);
    FirstIs(ms, "include_usage");
    assert Means(ms[1].core, "include_usage") && ms[1].core.val != Atom("true");
  }

  lemma SeenStream(f: Frame)
    requires f.members != [] && f.members[0].core == Pair("stream", Atom("true"))
    ensures SeesStream(f.members)
  {
  }

  /** {"stream":true,"stream_options":{"include_usage":false,"include_usage":false}}: the second one stays false. */
  lemma UsageMissed(t: Tier, w: Wire)
    ensures var f := Object([Pair("stream", Atom("true")), Pair("stream_options", TwiceFalse())]);
            f.Ok() && SeesStream(f.members) && !UsageAsked(Out(f, t, w))
  {
    hide Decode, ValidRaw, Valid, ValidCore, Depth, Upstream, AllShallow, IsPlain, Object, Means, UsageAsked, TwiceFalse, AllUsage, UsageElsewhere, SeesStream, First;
    var cs := [Pair("stream", Atom("true")), Pair("stream_options", TwiceFalse())];
    Words();
    Literals();
    TwiceFalseIs();
    PlainKey("stream", Atom("true"));
    PlainKey("stream_options", TwiceFalse());
    ObjectIs(cs);
    FlatIs(cs);
    SeenStream(Object(cs));
    StreamAsksUsage(Object(cs), t, w);
    assert !UsageReaches(true, Object(cs).members[1].core) && Means(Object(cs).members[1].core, "stream_options");
  }

  lemma NotAsked(cs: seq<Core>)
    requires forall c | c in cs :: !Means(c, "stream_options")
    ensures !UsageAsked(cs)
  {
  }

  lemma NotSeen(c: Core)
    requires c.key != "stream"
    ensures !SeesStream(Object([c]).members)
  {
  }

  /** {"strea\u006d":true} is not seen to be a stream. */
  lemma StreamKeyMissed(t: Tier, w: Wire)
    ensures var f := Object([Pair(Spelled("strea", 'm', ""), Atom("true"))]);
            f.Ok() && Means(f.members[0].core, "stream") && !UsageAsked(Out(f, t, w))
  {
    hide Decode, ValidRaw, Valid, ValidCore, Depth, Upstream, AllShallow, IsPlain, Object, Means, UsageAsked, Spelled, SeesStream;
    var c := Pair(Spelled("strea", 'm', ""), Atom("true"));
    Words();
    Literals();
    SpelledKey("strea", 'm', "", "stream", Atom("true"));
    ObjectIs([c]);
    FlatIs([c]);
    NotSeen(c);
    StreamAsksUsage(Object([c]), t, w);
    assert "stream" != "stream_options";
    NotAsked([c]);
  }

  /** {"stream":true,"a":[[...]]} goes out without options. */
  lemma StreamDeepMissed(t: Tier, w: Wire)
    ensures var f := Object([Pair("stream", Atom("true")), TooDeep()]); f.Ok() && SeesStream(f.members) && !UsageAsked(Out(f, t, w))
  {
    hide Decode, ValidRaw, Valid, ValidCore, Depth, Upstream, AllShallow, IsPlain, Object, Means, UsageAsked, SeesStream, TooDeep;
    var cs := [Pair("stream", Atom("true")), TooDeep()];
    Words();
    Literals();
    PlainKey("stream", Atom("true"));
    TooDeepIs(cs);
    ObjectIs(cs);
    SeenStream(Object(cs));
    StreamAsksUsage(Object(cs), t, w);
    assert "stream_options" != "stream" && "stream_options" != "a";
    NotAsked(cs);
  }

  // ---------------------------------------------------------------- the forbidden "none"

  function TwiceNone(): Json {
    Nested([Pair("effort", Str("none")), Pair("x", Atom("1")), Pair("effort", Str("none"))])
  }

  lemma TwiceNoneIs()
    ensures Valid(TwiceNone()) && Depth(TwiceNone()) == 1 && TwiceNone().Obj? && SlipsInside(TwiceNone().members)
  {
    hide Decode, ValidRaw, Valid, ValidCore, IsPlain, Object, Means, First, Stands;
    var e, x := Pair("effort", Str("none")), Pair("x", Atom("1"));
    Words();
    Literals();
    PlainText("none");
    PlainKey("effort", Str("none"));
    PlainKey("x", Atom("1"));
    ObjectIs([e, x, e]);
    var ms := TwiceNone().members;
    NestedDepth(ms);
    FirstIs(ms, "effort");
    assert NoneMeant(ms[0].core.val) && '\\' !in "none";
    assert "x" != "effort" && ms[1].core.key == "x";
    assert Means(ms[2].core, "effort") && NoneMeant(ms[2].core.val);
  }

  /** {"reasoning":{"effort":"none","x":1,"effort":"none"}} keeps its second none. */
  lemma NoneTwiceMissed(t: Tier, w: Wire)
    requires t.effort == "" && w.forbidsEffortNone
    ensures var f := Object([Pair("reasoning", TwiceNone())]); f.Ok() && exists c :: c in Out(f, t, w) && IsNone(c)
  {
    hide Decode, ValidRaw, Valid, ValidCore, Depth, Upstream, AllShallow, IsPlain, Object, Means, TwiceNone, SlipsInside, IsNone;
    var c := Pair("reasoning", TwiceNone());
    Words();
    TwiceNoneIs();
    PlainKey("reasoning", TwiceNone());
    ObjectIs([c]);
    FlatIs([c]);
    NoNoneSent(Object([c]), t, w);
    assert Slips(true, Object([c]).members[0].core);
  }

  lemma SpelledNone()
    ensures var v := Str(Spelled("non", 'e', "")); Valid(v) && Depth(v) == 0 && NoneMeant(v) && Backslashed(v)
  {
    hide Decode, ValidRaw;
    Words();
    SpelledIs("non", 'e', "");
    hide Spelled;
  }

  /** {"reasoning_effort":"non\u0065"} keeps its none. */
  lemma NoneSpelledMissed(t: Tier, w: Wire)
    requires t.effort == "" && w.forbidsEffortNone
    ensures var f := Object([Pair("reasoning_effort", Str(Spelled("non", 'e', "")))]); f.Ok() && exists c :: c in Out(f, t, w) && IsNone(c)
  {
    hide Decode, ValidRaw, Valid, ValidCore, Depth, Upstream, AllShallow, IsPlain, Object, Means, Spelled, NoneMeant, Backslashed, IsNone;
    var c := Pair("reasoning_effort", Str(Spelled("non", 'e', "")));
    Words();
    SpelledNone();
    PlainKey("reasoning_effort", Str(Spelled("non", 'e', "")));
    ObjectIs([c]);
    FlatIs([c]);
    NoNoneSent(Object([c]), t, w);
    assert Slips(true, Object([c]).members[0].core);
  }
}
