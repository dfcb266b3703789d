/**
 What pkg/server/dispatch.go does to the members of a request object: the fate of every top-level
 member, the members added, and what follows for the object that is sent upstream.
 */
module PayloadSpec {
  import opened Wrappers
  import opened Json
  import opened ObjectEdit

  datatype Tier = Tier(model: string, effort: string)

  /** provider.WireDeclarator. */
  datatype Wire = Wire(nested: bool, forbidsEffortNone: bool, stripFlatOnNested: bool)

  // ---------------------------------------------------------------- string literals

  function HexDigit(n: nat): char
    requires n < 16
  {
    "0123456789abcdef"[n]
  }

  function EscapeChar(c: char): string {
    if c == '\\' || c == '"' then ['\\', c]
    else if c == '\n' then "\\n"
    else if c == '\r' then "\\r"
    else if c == '\t' then "\\t"
    else if c as int == 8 then "\\b"
    else if c as int == 12 then "\\f"
    else if c < ' ' then "\\u00" + [HexDigit(c as int / 16), HexDigit(c as int % 16)]
    else [c]
  }

  /** The inside of what AppendEscapedJSONString writes. */
  function Escape(s: string): string {
    if s == "" then "" else EscapeChar(s[0]) + Escape(s[1..])
  }

  function HexValue(c: char): (r: Option<nat>)
    ensures r.Some? ==> r.value < 16
  {
    if '0' <= c <= '9' then Some(c as int - '0' as int)
    else if 'a' <= c <= 'f' then Some(c as int - 'a' as int + 10)
    else if 'A' <= c <= 'F' then Some(c as int - 'A' as int + 10)
    else None
  }

  /** The four hexadecimal digits of a \u escape at the start of s. */
  function Hex4(s: string): (r: Option<nat>)
    ensures r.Some? ==> |s| >= 4 && r.value < 0x1_0000
  {
    if |s| < 4 then None
    else
      match (HexValue(s[0]), HexValue(s[1]), HexValue(s[2]), HexValue(s[3]))
      case (Some(a), Some(b), Some(c), Some(d)) =>
        var v := 0x1000 * a + 0x100 * b + 0x10 * c + d;
        Some(v)
      case _ => None
  }

  /** The UTF-8 bytes of a code point, section 3 of RFC 3629. */
  function Utf8(p: nat): (r: string)
    requires p < 0x11_0000
    ensures 1 <= |r| <= 4 && (p < 0x1_0000 ==> |r| <= 3)
  {
    if p < 0x80 then [p as char]
    else if p < 0x800 then [(0xC0 + p / 0x40) as char, (0x80 + p % 0x40) as char]
    else if p < 0x1_0000 then
      [(0xE0 + p / 0x1000) as char, (0x80 + p / 0x40 % 0x40) as char, (0x80 + p % 0x40) as char]
    else
      [(0xF0 + p / 0x4_0000) as char, (0x80 + p / 0x1000 % 0x40) as char, (0x80 + p / 0x40 % 0x40) as char,
       (0x80 + p % 0x40) as char]
  }

  /** A pair of surrogates makes one code point; one that stands alone is replaced. */
  function Unicode(raw: string): (r: Option<(nat, string)>)
    requires |raw| >= 1
    ensures r.Some? ==> r.value.0 <= |raw| && r.value.0 >= 6 && |r.value.1| < r.value.0
  {
    match (if |raw| >= 6 then Hex4(raw[2..]) else None)
    case None => None
    case Some(u) =>
      if 0xD800 <= u < 0xDC00 then
        var low := if |raw| >= 12 && raw[6] == '\\' && raw[7] == 'u' then Hex4(raw[8..]) else None;
        if low.Some? && 0xDC00 <= low.value < 0xE000
        then Some((12, Utf8(0x1_0000 + 0x400 * (u - 0xD800) + (low.value - 0xDC00))))
        else Some((6, Utf8(0xFFFD)))
      else if 0xDC00 <= u < 0xE000 then Some((6, Utf8(0xFFFD)))
      else Some((6, Utf8(u)))
  }

  /** The bytes a string literal stands for, section 7 of RFC 8259. */
  function Decode(raw: string): (r: Option<string>)
    ensures r.Some? ==> |r.value| <= |raw| && ('\\' in raw ==> |r.value| < |raw|)
  {
    if raw == "" then Some("")
    else if raw[0] != '\\' then
      match Decode(raw[1..])
      case None => None
      case Some(d) => Some([raw[0]] + d)
    else if |raw| >= 2 && raw[1] != 'u' then
      match (Unescape(raw[1]), Decode(raw[2..]))
      case (Some(c), Some(d)) => Some([c] + d)
      case _ => None
    else
      match Unicode(raw)
      case None => None
      case Some((n, x)) =>
        match Decode(raw[n..])
        case None => None
        case Some(d) => Some(x + d)
  }

  function Unescape(c: char): Option<char> {
    if c == '\\' || c == '"' || c == '/' then Some(c)
    else if c == 'n' then Some('\n')
    else if c == 'r' then Some('\r')
    else if c == 't' then Some('\t')
    else if c == 'b' then Some(8 as char)
    else if c == 'f' then Some(12 as char)
    else None
  }

  lemma {:induction false} EscapeRoundTrip(s: string)
    ensures Decode(Escape(s)) == Some(s) && ValidRaw(Escape(s))
  {
    if s != "" {
      var t := Escape(s[1..]);
      EscapeRoundTrip(s[1..]);
      EscapeCharRoundTrip(s[0], t);
      assert [s[0]] + s[1..] == s;
    }
  }

  lemma EscapeCharRoundTrip(c: char, t: string)
    requires Decode(t).Some? && ValidRaw(t)
    ensures Decode(EscapeChar(c) + t) == Some([c] + Decode(t).value) && ValidRaw(EscapeChar(c) + t)
  {
    hide Decode, ValidRaw;
    var x := EscapeChar(c);
    if |x| == 1 {
      PlainChar(c, t);
    } else if |x| == 2 {
      assert x[0] == '\\' && Unescape(x[1]) == Some(c) && x[1] in "\"\\/bfnrt";
      assert x == ['\\', x[1]];
      ShortEscape(x[1], c, t);
    } else {
      UnicodeEscape(c, t);
    }
  }

  lemma PlainChar(c: char, t: string)
    requires Decode(t).Some? && ValidRaw(t) && c != '\\' && c != '"' && c >= ' '
    ensures Decode([c] + t) == Some([c] + Decode(t).value) && ValidRaw([c] + t)
  {
    assert ([c] + t)[1..] == t;
  }

  lemma ShortEscape(e: char, c: char, t: string)
    requires Decode(t).Some? && ValidRaw(t) && Unescape(e) == Some(c) && e in "\"\\/bfnrt"
    ensures Decode(['\\', e] + t) == Some([c] + Decode(t).value) && ValidRaw(['\\', e] + t)
  {
    assert (['\\', e] + t)[2..] == t;
  }

  lemma UnicodeEscape(c: char, t: string)
    requires Decode(t).Some? && ValidRaw(t) && c as int < 0x80
    ensures var x := "\\u00" + [HexDigit(c as int / 16), HexDigit(c as int % 16)];
            Decode(x + t) == Some([c] + Decode(t).value) && ValidRaw(x + t)
  {
    hide Decode, ValidRaw;
    var a, b := HexDigit(c as int / 16), HexDigit(c as int % 16);
    DigitValue(c as int / 16);
    DigitValue(c as int % 16);
    hide HexDigit, HexValue;
    UnicodeChars(a, b, c, t);
    assert "\\u00" + [a, b] + t == ['\\', 'u', '0', '0', a, b] + t;
  }

  lemma DigitValue(n: nat)
    requires n < 16
    ensures HexValue(HexDigit(n)) == Some(n)
  {
  }

  lemma UnicodeChars(a: char, b: char, c: char, t: string)
    requires Decode(t).Some? && ValidRaw(t) && c as int < 0x80
    requires HexValue(a) == Some(c as int / 16) && HexValue(b) == Some(c as int % 16)
    ensures Decode(['\\', 'u', '0', '0', a, b] + t) == Some([c] + Decode(t).value)
    ensures ValidRaw(['\\', 'u', '0', '0', a, b] + t)
  {
    hide Decode, ValidRaw, HexValue;
    ByteEscape(a, b, c, t);
    var u := ['0'] + (['0'] + ([a] + ([b] + t)));
    assert HexValue('0').Some? by { DigitValue(0); ZeroDigit(); }
    HexPlain(b, t);
    HexPlain(a, [b] + t);
    HexPlain('0', [a] + ([b] + t));
    HexPlain('0', ['0'] + ([a] + ([b] + t)));
    IsHexDigit('0');
    IsHexDigit(a);
    IsHexDigit(b);
    RawUnicode(u);
    EscapeText(a, b, t);
  }

  lemma EscapeText(a: char, b: char, t: string)
    ensures ['\\', 'u', '0', '0', a, b] + t == ['\\', 'u'] + (['0'] + (['0'] + ([a] + ([b] + t))))
  {
  }

  lemma ZeroDigit()
    ensures HexDigit(0) == '0'
  {
  }

  lemma IsHexDigit(c: char)
    requires HexValue(c).Some?
    ensures IsHex(c)
  {
  }

  lemma RawUnicode(u: string)
    requires |u| >= 4 && ValidRaw(u) && IsHex(u[0]) && IsHex(u[1]) && IsHex(u[2]) && IsHex(u[3])
    ensures ValidRaw(['\\', 'u'] + u)
  {
    hide IsHex;
    var s := ['\\', 'u'] + u;
    assert s[2..] == u && s[2] == u[0] && s[3] == u[1] && s[4] == u[2] && s[5] == u[3];
  }

  /** A \\u escape below 0x80 is one byte. */
  lemma ByteEscape(a: char, b: char, c: char, t: string)
    requires Decode(t).Some? && c as int < 0x80
    requires HexValue(a) == Some(c as int / 16) && HexValue(b) == Some(c as int % 16)
    ensures Decode(['\\', 'u', '0', '0', a, b] + t) == Some([c] + Decode(t).value)
  {
    var s := ['\\', 'u', '0', '0', a, b] + t;
    hide Decode, Hex4, HexValue, Utf8;
    HexByte(a, b, c, s);
    Utf8Byte(c);
    hide HexValue;
    assert Unicode(s) == Some((6, [c]));
    DecodeFirst(s, 6, [c]);
    assert s[6..] == t;
  }

  lemma HexByte(a: char, b: char, c: char, s: string)
    requires |s| >= 6 && s[2] == '0' && s[3] == '0' && s[4] == a && s[5] == b
    requires HexValue(a) == Some(c as int / 16) && HexValue(b) == Some(c as int % 16)
    ensures Hex4(s[2..]) == Some(c as int)
  {
    assert HexValue('0') == Some(0);
    hide HexValue;
  }

  lemma Utf8Byte(c: char)
    requires c as int < 0x80
    ensures Utf8(c as int) == [c]
  {
  }

  lemma DecodeFirst(s: string, n: nat, x: string)
    requires |s| >= 6 && s[0] == '\\' && s[1] == 'u' && Unicode(s) == Some((n, x)) && Decode(s[n..]).Some?
    ensures Decode(s) == Some(x + Decode(s[n..]).value)
  {
    hide Unicode;
  }

  lemma HexPlain(c: char, t: string)
    requires ValidRaw(t) && HexValue(c).Some?
    ensures ValidRaw([c] + t)
  {
    assert ([c] + t)[1..] == t;
  }

  /** A literal is its own spelling exactly when it has no escape. */
  lemma {:induction false} DecodeSelf(raw: string)
    ensures Decode(raw) == Some(raw) <==> '\\' !in raw
  {
    if raw != "" && raw[0] != '\\' {
      DecodeSelf(raw[1..]);
      assert [raw[0]] + raw[1..] == raw;
      assert '\\' in raw <==> '\\' in raw[1..];
    }
  }

  // ---------------------------------------------------------------- members by key

  /** The first member with this key, or the number of members. */
  function First(ms: seq<Member>, key: string): (i: nat)
    ensures i <= |ms| && (i < |ms| ==> ms[i].core.key == key)
    ensures forall j | 0 <= j < i :: ms[j].core.key != key
  {
    if ms == [] || ms[0].core.key == key then 0
    else
      var i := First(ms[1..], key);
      assert forall j | 0 < j <= i && j < |ms| :: ms[j] == ms[1..][j - 1];
      i + 1
  }

  predicate Has(ms: seq<Member>, key: string) {
    First(ms, key) < |ms|
  }

  predicate IsStream(ms: seq<Member>) {
    exists i | 0 <= i < |ms| :: ms[i].core.key == "stream" && Print(ms[i].core.val) == "true"
  }

  predicate EffortNone(v: Json) {
    Print(v) == "\"none\"" || Print(v) == "\"\"" || Print(v) == "null"
  }

  // ---------------------------------------------------------------- values written by the gateway

  function TargetModel(t: Tier): Json { Str(Escape(t.model)) }

  function TargetEffort(t: Tier): Json { Str(Escape(t.effort)) }

  function EffortObject(t: Tier): Json {
    Obj([Member("", Core("effort", "", "", TargetEffort(t)), "")], "")
  }

  function IncludeUsage(): Core { Core("include_usage", "", "", Atom("true")) }

  function UsageObject(): Json { Obj([Member("", IncludeUsage(), "")], "") }

  // ---------------------------------------------------------------- fates

  /** Replaces the value of a member. */
  function SetValue(c: Core, v: Json): Fate {
    var n := |CoreText(c)|;
    Patch(n - |Print(c.val)|, n, Print(v), c.(val := v))
  }

  /** An object value on its own. */
  function Inner(v: Json): Frame
    requires v.Obj?
  {
    Frame("", v.members, v.gap, "")
  }

  /** Applies one edit inside the object that is the value of a member. */
  function EditInside(c: Core, e: Edit, v: Json): Fate {
    var n := |CoreText(c)| - |Print(c.val)|;
    Patch(n + e.start, n + e.end, e.repl, c.(val := v))
  }

  /** Every member keeps its place except member j. */
  function Only(n: nat, j: nat, t: Fate): (r: seq<Fate>)
    ensures |r| == n
  {
    seq(n, i => if i == j then t else Keep)
  }

  function UsageFate(c: Core): Fate {
    if !c.val.Obj? then SetValue(c, UsageObject())
    else
      var g := Inner(c.val);
      var n := |g.members|;
      var j := First(g.members, "include_usage");
      if j < n then
        var fates := Only(n, j, SetValue(g.members[j].core, Atom("true")));
        EditInside(c, PatchEdit(g, fates, j), Edited(g, fates, []))
      else
        EditInside(c, InsertEdit(g, InsertText(n > 0, [IncludeUsage()])),
                   Edited(g, Only(n, n, Keep), [IncludeUsage()]))
  }

  predicate HasEffortNone(v: Json) {
    v.Obj? && Has(v.members, "effort") && EffortNone(v.members[First(v.members, "effort")].core.val)
  }

  predicate SoleEffort(v: Json)
    requires v.Obj?
  {
    forall i | 0 <= i < |v.members| :: v.members[i].core.key == "effort"
  }

  function NoneEffortFate(c: Core): Fate {
    if !HasEffortNone(c.val) then Keep
    else if SoleEffort(c.val) then Drop
    else
      var g := Inner(c.val);
      var j := First(g.members, "effort");
      EditInside(c, DropEdit(g, j, j + 1), Edited(g, Only(|g.members|, j, Drop), []))
  }

  /** The top-level keys the gateway looks at. */
  datatype Kind = Model | Effort | Reasoning | StreamOptions | Other

  function KindOf(key: string): Kind {
    if key == "model" then Model
    else if key == "reasoning_effort" then Effort
    else if key == "reasoning" then Reasoning
    else if key == "stream_options" then StreamOptions
    else Other
  }

  lemma Kinds(key: string)
    ensures key == "model" <==> KindOf(key) == Model
    ensures key == "reasoning_effort" <==> KindOf(key) == Effort
    ensures key == "reasoning" <==> KindOf(key) == Reasoning
    ensures key == "stream_options" <==> KindOf(key) == StreamOptions
  {
  }

  function FateOf(ms: seq<Member>, i: nat, t: Tier, w: Wire): Fate
    requires i < |ms|
  {
    var c := ms[i].core;
    match KindOf(c.key)
    case Model => if c.val == Str(t.model) then Keep else SetValue(c, TargetModel(t))
    case Effort => EffortFate(ms, i, t, w)
    case Reasoning => ReasoningFate(ms, i, t, w)
    case StreamOptions => if IsStream(ms) then UsageFate(c) else Keep
    case Other => Keep
  }

  function EffortFate(ms: seq<Member>, i: nat, t: Tier, w: Wire): Fate
    requires i < |ms|
  {
    var c := ms[i].core;
    if t.effort != "" then
      if !w.nested then SetValue(c, TargetEffort(t))
      else if Has(ms, "reasoning") then (if w.stripFlatOnNested then Drop else Keep)
      else if i == First(ms, "reasoning_effort") then RenameFate(c, t)
      else Drop
    else if w.forbidsEffortNone && EffortNone(c.val) then Drop
    else Keep
  }

  function ReasoningFate(ms: seq<Member>, i: nat, t: Tier, w: Wire): Fate
    requires i < |ms|
  {
    var c := ms[i].core;
    if t.effort != "" then
      if !w.nested then Keep
      else if i == First(ms, "reasoning") then SetValue(c, EffortObject(t))
      else Drop
    else if w.forbidsEffortNone then NoneEffortFate(c)
    else Keep
  }

  /** A flat reasoning_effort member becomes a nested reasoning member. */
  function RenameFate(c: Core, t: Tier): Fate {
    var core := Core("reasoning", "", "", EffortObject(t));
    Patch(0, |CoreText(c)|, CoreText(core), core)
  }

  function Fates(ms: seq<Member>, t: Tier, w: Wire): (r: seq<Fate>)
    ensures |r| == |ms|
  {
    seq(|ms|, i requires 0 <= i < |ms| => FateOf(ms, i, t, w))
  }

  function AddedModel(ms: seq<Member>, t: Tier): seq<Core> {
    if !Has(ms, "model") && t.model != "" then [Core("model", "", "", TargetModel(t))] else []
  }

  function AddedReasoning(ms: seq<Member>, t: Tier, w: Wire): seq<Core> {
    if t.effort == "" || Has(ms, "reasoning_effort") then []
    else if !w.nested then [Core("reasoning_effort", "", "", TargetEffort(t))]
    else if Has(ms, "reasoning") then []
    else [Core("reasoning", "", "", EffortObject(t))]
  }

  function AddedStream(ms: seq<Member>): seq<Core> {
    if IsStream(ms) && !Has(ms, "stream_options") then [Core("stream_options", "", "", UsageObject())] else []
  }

  function Added(ms: seq<Member>, t: Tier, w: Wire): seq<Core> {
    AddedModel(ms, t) + AddedReasoning(ms, t, w) + AddedStream(ms)
  }

  /** The object sent upstream. */
  function Rewritten(f: Frame, t: Tier, w: Wire): Json {
    Edited(f, Fates(f.members, t, w), Added(f.members, t, w))
  }

  /** The scanner can skip the values of the first k members. */
  ghost predicate AllShallow(ms: seq<Member>, k: nat)
    requires k <= |ms|
  {
    forall i | 0 <= i < k :: Depth(ms[i].core.val) <= MAX_NESTING
  }

  /** What goes upstream for a body that is one object: as it came when a value nests too deep for the scanner. */
  ghost function Upstream(f: Frame, t: Tier, w: Wire): Frame {
    var r := Rewritten(f, t, w);
    if AllShallow(f.members, |f.members|) && r.Obj? then Frame(f.head, r.members, r.gap, f.rest) else f
  }

  // ---------------------------------------------------------------- the fates are honest

  lemma SetValueOk(c: Core, v: Json)
    requires ValidCore(c) && Valid(v)
    ensures FateOk(c, SetValue(c, v))
  {
    hide Print, ValidRaw;
    var x := CoreText(c);
    var n := |x| - |Print(c.val)|;
    ValueStart(c.val);
    CoreSplit(c);
    CoreSplit(c.(val := v));
    var y := CoreText(c.(val := v));
    assert y == y[..|y| - |Print(v)|] + y[|y| - |Print(v)|..];
    assert x[..n] + Print(v) + x[|x|..] == x[..n] + Print(v);
  }

  /** A core is its key part, then its value. */
  lemma CoreSplit(c: Core)
    ensures |Print(c.val)| < |CoreText(c)|
    ensures CoreText(c)[|CoreText(c)| - |Print(c.val)|..] == Print(c.val)
    ensures CoreText(c)[..|CoreText(c)| - |Print(c.val)|] == Quoted(c.key) + (c.mid + (":" + c.sep))
  {
    var a, b := Quoted(c.key) + (c.mid + (":" + c.sep)), Print(c.val);
    assert CoreText(c) == a + b;
    assert (a + b)[|a|..] == b && (a + b)[..|a|] == a;
  }

  lemma EditInsideOk(c: Core, fates: seq<Fate>, cores: seq<Core>, e: Edit)
    requires ValidCore(c) && c.val.Obj? && FatesOk(Inner(c.val), fates)
    requires forall x | x in cores :: ValidCore(x)
    requires EditsFor(Inner(c.val), fates, cores) == [e] && e.start < |Print(c.val)|
    ensures FateOk(c, EditInside(c, e, Edited(Inner(c.val), fates, cores)))
  {
    var g := Inner(c.val);
    var v := Edited(g, fates, cores);
    SpliceCanon(g, fates, cores);
    EditedMembers(g, fates, cores);
    InnerText(c.val);
    OneEdit(Print(c.val), e, Print(v));
    EditInsideText(c, e, v);
  }

  lemma InnerText(v: Json)
    requires v.Obj?
    ensures Inner(v).Body() == Print(v)
  {
    var x := Print(v);
    assert Inner(v).Text() == x;
    assert "" + (x + "") == x;
  }

  lemma OneEdit(b: string, e: Edit, r: string)
    requires Ordered([e], 0, |b|) && Splice(b, [e], 0) == "" + (r + "")
    ensures e.start <= e.end <= |b| && b[..e.start] + e.repl + b[e.end..] == r
  {
    assert [e][1..] == [];
    assert "" + (r + "") == r;
  }

  lemma EditInsideText(c: Core, e: Edit, v: Json)
    requires ValidCore(c) && Valid(v) && e.start <= e.end <= |Print(c.val)| && e.start < |Print(c.val)|
    requires Print(c.val)[..e.start] + e.repl + Print(c.val)[e.end..] == Print(v)
    ensures FateOk(c, EditInside(c, e, v))
  {
    hide Print, ValidRaw, Quoted, Valid, CoreText, FateOk;
    CoreSplit(c);
    CoreSplit(c.(val := v));
    var h := Quoted(c.key) + (c.mid + (":" + c.sep));
    HeadAndTail(CoreText(c), h, Print(c.val));
    HeadAndTail(CoreText(c.(val := v)), h, Print(v));
    EditedText(h, Print(c.val), Print(v), e);
    CoreStays(c, v);
    FateIntro(c, EditInside(c, e, v));
  }

  lemma CoreStays(c: Core, v: Json)
    requires ValidCore(c) && Valid(v)
    ensures ValidCore(c.(val := v))
  {
    hide Valid, ValidRaw;
  }

  lemma FateIntro(c: Core, t: Fate)
    requires t.Patch? && t.start <= t.end <= |CoreText(c)| && t.start < |CoreText(c)| && ValidCore(t.core)
    requires CoreText(c)[..t.start] + t.repl + CoreText(c)[t.end..] == CoreText(t.core)
    ensures FateOk(c, t)
  {
    hide CoreText, ValidCore;
  }

  /** Two texts with the same beginning h, the end of one edited to give the end of the other. */
  lemma EditedText(h: string, p: string, q: string, e: Edit)
    requires e.start <= e.end <= |p| && p[..e.start] + e.repl + p[e.end..] == q
    ensures (h + p)[..|h| + e.start] + e.repl + (h + p)[|h| + e.end..] == h + q
  {
    CutTail(h, p, e.start);
    CutTail(h, p, e.end);
    Assoc(h, p[..e.start], e.repl, p[e.end..]);
  }

  lemma CutTail(h: string, p: string, i: nat)
    requires i <= |p|
    ensures (h + p)[..|h| + i] == h + p[..i] && (h + p)[|h| + i..] == p[i..]
  {
  }

  lemma HeadAndTail(x: string, h: string, p: string)
    requires |p| <= |x| && x[|x| - |p|..] == p && x[..|x| - |p|] == h
    ensures x == h + p
  {
  }

  lemma Assoc(a: string, b: string, c: string, d: string)
    ensures (a + b) + c + d == a + (b + c + d)
  {
  }

  /** With every member kept from k on, only the insertion is left. */
  lemma {:induction false} CanonKeep(f: Frame, fates: seq<Fate>, ins: string, k: nat)
    requires |fates| == |f.members| && k <= |fates| && forall i | k <= i < |fates| :: fates[i].Keep?
    ensures Canon(f, fates, ins, k) == if ins == "" then [] else [InsertEdit(f, ins)]
    decreases |fates| - k
  {
    if k < |fates| {
      CanonKeep(f, fates, ins, k + 1);
    }
  }

  lemma {:induction false} CanonOnly(f: Frame, j: nat, t: Fate, k: nat)
    requires k <= j < |f.members| && !t.Keep?
    ensures Canon(f, Only(|f.members|, j, t), "", k) ==
            [if t.Drop? then DropEdit(f, j, j + 1) else PatchEdit(f, Only(|f.members|, j, t), j)]
    decreases j - k
  {
    var fates := Only(|f.members|, j, t);
    if k < j {
      CanonOnly(f, j, t, k + 1);
    } else {
      CanonKeep(f, fates, "", j + 1);
      if t.Drop? {
        assert RunEnd(fates, j) == j + 1;
      }
    }
  }

  lemma UsageFateOk(c: Core)
    requires ValidCore(c)
    ensures FateOk(c, UsageFate(c))
  {
    hide FateOk, Print, CoreText, EditInside, Edited, Canon;
    UsageObjectOk();
    if !c.val.Obj? {
      SetValueOk(c, UsageObject());
    } else {
      var g := Inner(c.val);
      var j := First(g.members, "include_usage");
      if j < |g.members| {
        assert ValidMember(g.members[j]);
        SetValueOk(g.members[j].core, Atom("true"));
        UsageSet(c, j);
      } else {
        UsageAdd(c);
      }
    }
  }

  lemma UsageObjectOk()
    ensures ValidCore(IncludeUsage()) && Valid(UsageObject())
  {
    PlainRaw("include_usage");
    SingleOk(IncludeUsage());
  }

  lemma SingleOk(c: Core)
    requires ValidCore(c)
    ensures Valid(Obj([Member("", c, "")], ""))
  {
    assert ValidMember(Member("", c, ""));
  }

  lemma CoreOk(key: string, v: Json)
    requires Valid(v) && forall i | 0 <= i < |key| :: key[i] != '"' && key[i] != '\\' && key[i] >= ' '
    ensures ValidCore(Core(key, "", "", v))
  {
    PlainRaw(key);
  }

  lemma {:induction false} PlainRaw(s: string)
    requires forall i | 0 <= i < |s| :: s[i] != '"' && s[i] != '\\' && s[i] >= ' '
    ensures ValidRaw(s)
  {
    if s != "" {
      PlainRaw(s[1..]);
    }
  }

  lemma UsageSet(c: Core, j: nat)
    requires ValidCore(c) && c.val.Obj? && j < |c.val.members|
    requires FateOk(c.val.members[j].core, SetValue(c.val.members[j].core, Atom("true")))
    ensures var g := Inner(c.val);
            var fates := Only(|g.members|, j, SetValue(g.members[j].core, Atom("true")));
            FateOk(c, EditInside(c, PatchEdit(g, fates, j), Edited(g, fates, [])))
  {
    hide Print, CoreText, EditInside, Edited, Canon;
    var g := Inner(c.val);
    var fates := Only(|g.members|, j, SetValue(g.members[j].core, Atom("true")));
    assert FatesOk(g, fates);
    CanonOnly(g, j, SetValue(g.members[j].core, Atom("true")), 0);
    PatchInside(g, fates, j);
    InnerText(c.val);
    EditInsideOk(c, fates, [], PatchEdit(g, fates, j));
  }

  lemma PatchInside(g: Frame, fates: seq<Fate>, j: nat)
    requires FatesOk(g, fates) && j < |fates| && fates[j].Patch?
    ensures PatchEdit(g, fates, j).start < |g.Body()|
  {
    PosMonotone(g, j, j);
    CloseAt(g);
  }

  lemma UsageAdd(c: Core)
    requires ValidCore(c) && c.val.Obj?
    ensures var g := Inner(c.val);
            var n := |g.members|;
            FateOk(c, EditInside(c, InsertEdit(g, InsertText(n > 0, [IncludeUsage()])),
                                 Edited(g, Only(n, n, Keep), [IncludeUsage()])))
  {
    hide Print, EditInside, Edited, Frame.Body;
    var g := Inner(c.val);
    var n := |g.members|;
    var fates := Only(n, n, Keep);
    assert FatesOk(g, fates);
    hide Valid, ValidCore;
    UsageObjectOk();
    CanonKeep(g, fates, InsertText(n > 0, [IncludeUsage()]), 0);
    assert n > 0 ==> RunEnd(fates, 0) == 0;
    assert MemberTail(Inserted([IncludeUsage()])) != "";
    assert CoreText(IncludeUsage()) != "";
    hide CoreText, MemberTail;
    CloseAt(g);
    InnerText(c.val);
    EditInsideOk(c, fates, [IncludeUsage()], InsertEdit(g, InsertText(n > 0, [IncludeUsage()])));
  }

  lemma NoneEffortFateOk(c: Core)
    requires ValidCore(c)
    ensures FateOk(c, NoneEffortFate(c))
  {
    hide Print, CoreText, EditInside, Edited, Canon;
    if HasEffortNone(c.val) && !SoleEffort(c.val) {
      var g := Inner(c.val);
      var j := First(g.members, "effort");
      var fates := Only(|g.members|, j, Drop);
      assert FatesOk(g, fates);
      CanonOnly(g, j, Drop, 0);
      PosMonotone(g, 0, j);
      CloseAt(g);
      InnerText(c.val);
      EditInsideOk(c, fates, [], DropEdit(g, j, j + 1));
    }
  }

  lemma WrittenOk(t: Tier)
    ensures Valid(TargetModel(t)) && Valid(TargetEffort(t)) && Valid(EffortObject(t))
  {
    EscapeRoundTrip(t.model);
    EscapeRoundTrip(t.effort);
    hide Escape;
    CoreOk("effort", TargetEffort(t));
    SingleOk(Core("effort", "", "", TargetEffort(t)));
  }

  lemma RenameFateOk(c: Core, t: Tier)
    ensures FateOk(c, RenameFate(c, t))
  {
    hide CoreText, Valid, ValidCore, EffortObject;
    WrittenOk(t);
    CoreOk("reasoning", EffortObject(t));
    var core := Core("reasoning", "", "", EffortObject(t));
    var x := CoreText(c);
    assert x[..0] + CoreText(core) + x[|x|..] == CoreText(core);
  }

  lemma FateOfOk(ms: seq<Member>, i: nat, t: Tier, w: Wire)
    requires i < |ms| && ValidCore(ms[i].core)
    ensures FateOk(ms[i].core, FateOf(ms, i, t, w))
  {
    hide FateOk, SetValue, UsageFate, NoneEffortFate, RenameFate, Valid, ValidCore, EffortObject;
    var c := ms[i].core;
    WrittenOk(t);
    SetValueOk(c, TargetModel(t));
    SetValueOk(c, TargetEffort(t));
    SetValueOk(c, EffortObject(t));
    RenameFateOk(c, t);
    UsageFateOk(c);
    NoneEffortFateOk(c);
    TrivialFates(c);
  }

  lemma TrivialFates(c: Core)
    ensures FateOk(c, Keep) && FateOk(c, Drop)
  {
  }

  lemma AddedOk(ms: seq<Member>, t: Tier, w: Wire)
    ensures forall c | c in Added(ms, t, w) :: ValidCore(c)
  {
    hide Valid, ValidCore, TargetModel, TargetEffort, EffortObject, UsageObject, First, IsStream;
    WrittenOk(t);
    UsageObjectOk();
    CoreOk("model", TargetModel(t));
    CoreOk("reasoning", EffortObject(t));
    CoreOk("reasoning_effort", TargetEffort(t));
    CoreOk("stream_options", UsageObject());
  }

  lemma FatesAllOk(f: Frame, t: Tier, w: Wire)
    requires f.Ok()
    ensures FatesOk(f, Fates(f.members, t, w))
  {
    forall i | 0 <= i < |f.members|
      ensures FateOk(f.members[i].core, FateOf(f.members, i, t, w))
    {
      assert ValidMember(f.members[i]);
      FateOfOk(f.members, i, t, w);
    }
  }
}
