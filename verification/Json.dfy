/**
 JSON texts as concrete syntax trees that keep every byte, and the byte scanners of
 pkg/zeroalloc/json_scan.go.

 A byte string is a Dafny string with one character per byte. A scanner takes the rest of the
 buffer and returns what is left of it behind the value, so an offset `i` in the source is
 `|body| - |rest|` here.
 */
module Json {
  import opened Wrappers

  // ---------------------------------------------------------------- syntax trees

  /** A JSON value. `gap` is the whitespace inside an empty container. */
  datatype Json =
    | Str(raw: string)
    | Atom(text: string)
    | Arr(elems: seq<Elem>, egap: string)
    | Obj(members: seq<Member>, gap: string)

  datatype Elem = Elem(pre: string, val: Json, post: string)

  datatype Member = Member(pre: string, core: Core, post: string)

  /** A member from its opening quote to the end of its value. */
  datatype Core = Core(key: string, mid: string, sep: string, val: Json)

  predicate IsWs(c: char) {
    c == ' ' || c == '\t' || c == '\n' || c == '\r'
  }

  predicate AllWs(s: string) {
    forall i | 0 <= i < |s| :: IsWs(s[i])
  }

  predicate IsDigit(c: char) {
    '0' <= c <= '9'
  }

  predicate IsHex(c: char) {
    IsDigit(c) || 'a' <= c <= 'f' || 'A' <= c <= 'F'
  }

  predicate IsDelimiter(c: char) {
    IsWs(c) || c == ',' || c == ']' || c == '}' || c == ':'
  }

  /** The inside of a string literal, section 7 of RFC 8259. */
  predicate ValidRaw(s: string) {
    s == "" ||
    if s[0] == '\\' then
      && |s| >= 2
      && (s[1] in "\"\\/bfnrt" || (s[1] == 'u' && |s| >= 6 && forall i | 2 <= i < 6 :: IsHex(s[i])))
      && ValidRaw(s[2..])
    else
      s[0] != '"' && s[0] >= ' ' && ValidRaw(s[1..])
  }

  function DigitsLen(s: string): (n: nat)
    ensures n <= |s| && (n < |s| ==> !IsDigit(s[n]))
    ensures forall i | 0 <= i < n :: IsDigit(s[i])
  {
    if s == "" || !IsDigit(s[0]) then 0 else 1 + DigitsLen(s[1..])
  }

  /** Section 6 of RFC 8259, in three parts. */
  predicate ValidNumber(s: string) {
    var a := if s != "" && s[0] == '-' then s[1..] else s;
    var n := DigitsLen(a);
    n >= 1 && (a[0] == '0' ==> n == 1) && ValidFraction(a[n..])
  }

  predicate ValidFraction(s: string) {
    if s != "" && s[0] == '.' then
      var n := DigitsLen(s[1..]);
      n >= 1 && ValidExponent(s[1..][n..])
    else
      ValidExponent(s)
  }

  predicate ValidExponent(s: string) {
    s == "" ||
    ((s[0] == 'e' || s[0] == 'E') && ExponentDigits(s) != "" && DigitsLen(ExponentDigits(s)) == |ExponentDigits(s)|)
  }

  function ExponentDigits(s: string): (u: string)
    requires s != ""
    ensures u == s[1..] || (|s| >= 2 && (s[1] == '+' || s[1] == '-') && u == s[2..])
  {
    if |s| > 1 && (s[1] == '+' || s[1] == '-') then s[2..] else s[1..]
  }

  predicate ValidAtom(s: string) {
    s == "true" || s == "false" || s == "null" || ValidNumber(s)
  }

  predicate Valid(v: Json)
    decreases v
  {
    match v
    case Str(raw) => ValidRaw(raw)
    case Atom(text) => ValidAtom(text)
    case Arr(elems, egap) => AllWs(egap) && forall i | 0 <= i < |elems| :: ValidElem(elems[i])
    case Obj(members, gap) => AllWs(gap) && forall i | 0 <= i < |members| :: ValidMember(members[i])
  }

  predicate ValidElem(e: Elem)
    decreases e
  {
    AllWs(e.pre) && Valid(e.val) && AllWs(e.post)
  }

  predicate ValidMember(m: Member)
    decreases m
  {
    AllWs(m.pre) && ValidCore(m.core) && AllWs(m.post)
  }

  predicate ValidCore(c: Core)
    decreases c
  {
    ValidRaw(c.key) && AllWs(c.mid) && AllWs(c.sep) && Valid(c.val)
  }

  // ---------------------------------------------------------------- printing

  function Print(v: Json): (s: string)
    ensures v.Str? || v.Arr? || v.Obj? ==> |s| >= 2
    decreases v
  {
    match v
    case Str(raw) => Quoted(raw)
    case Atom(text) => text
    case Arr(elems, egap) => "[" + PrintElems(elems, egap) + "]"
    case Obj(members, gap) => "{" + PrintMembers(members, gap) + "}"
  }

  function Quoted(raw: string): string {
    "\"" + raw + "\""
  }

  function PrintElems(elems: seq<Elem>, egap: string): string
    decreases elems, 1
  {
    if elems == [] then egap else ElemText(elems[0]) + ElemTail(elems[1..])
  }

  function ElemTail(elems: seq<Elem>): string
    decreases elems, 0
  {
    if elems == [] then "" else "," + (ElemText(elems[0]) + ElemTail(elems[1..]))
  }

  function ElemText(e: Elem): string
    decreases e
  {
    e.pre + (Print(e.val) + e.post)
  }

  function PrintMembers(members: seq<Member>, gap: string): string
    decreases members, 1
  {
    if members == [] then gap else MemberText(members[0]) + MemberTail(members[1..])
  }

  function MemberTail(members: seq<Member>): string
    decreases members, 0
  {
    if members == [] then "" else "," + (MemberText(members[0]) + MemberTail(members[1..]))
  }

  function MemberText(m: Member): string
    decreases m
  {
    m.pre + (CoreText(m.core) + m.post)
  }

  function CoreText(c: Core): (s: string)
    ensures s != "" && s[0] == '"'
    decreases c
  {
    Quoted(c.key) + (c.mid + (":" + (c.sep + Print(c.val))))
  }

  function Max(a: nat, b: nat): nat {
    if a < b then b else a
  }

  /** How deep containers nest in a value. */
  function Depth(v: Json): nat
    decreases v
  {
    match v
    case Str(_) => 0
    case Atom(_) => 0
    case Arr(elems, _) => 1 + ElemsDepth(elems)
    case Obj(members, _) => 1 + MembersDepth(members)
  }

  function ElemsDepth(elems: seq<Elem>): nat
    decreases elems
  {
    if elems == [] then 0 else Max(Depth(elems[0].val), ElemsDepth(elems[1..]))
  }

  function MembersDepth(members: seq<Member>): nat
    decreases members
  {
    if members == [] then 0 else Max(Depth(members[0].core.val), MembersDepth(members[1..]))
  }

  // ---------------------------------------------------------------- the scanners

  const MAX_NESTING: nat := 128

  function SkipWs(s: string): (r: string)
    ensures |r| <= |s|
    ensures r != "" ==> !IsWs(r[0])
  {
    if s != "" && IsWs(s[0]) then SkipWs(s[1..]) else s
  }

  /** `s` starts just behind the opening quote. */
  function SkipStringBody(s: string): (r: Option<string>)
    ensures r.Some? ==> |r.value| < |s|
  {
    if s == "" then None
    else if s[0] == '\\' then
      if |s| < 2 then None else SkipStringBody(s[2..])
    else if s[0] == '"' then Some(s[1..])
    else if s[0] < ' ' then None
    else SkipStringBody(s[1..])
  }

  function SkipString(s: string): (r: Option<string>)
    ensures r.Some? ==> |r.value| + 2 <= |s|
  {
    if s == "" || s[0] != '"' then None else SkipStringBody(s[1..])
  }

  /** `stack` holds the brackets open so far; the walk ends when it is empty. */
  function SkipContainer(s: string, stack: string): (r: Option<string>)
    ensures r.Some? ==> |r.value| <= |s|
    decreases |s|
  {
    if stack == "" then Some(s)
    else if s == "" then None
    else if s[0] == '"' then
      match SkipString(s)
      case None => None
      case Some(r) => SkipContainer(r, stack)
    else if s[0] == '{' || s[0] == '[' then
      if |stack| >= MAX_NESTING then None else SkipContainer(s[1..], stack + [s[0]])
    else if s[0] == '}' || s[0] == ']' then
      if stack[|stack| - 1] != (if s[0] == '}' then '{' else '[') then None
      else SkipContainer(s[1..], stack[..|stack| - 1])
    else SkipContainer(s[1..], stack)
  }

  function SkipExponent(s: string): (r: Option<string>)
    ensures r.Some? ==> |r.value| <= |s|
  {
    var rest :=
      if s != "" && (s[0] == 'e' || s[0] == 'E') then
        var u := ExponentDigits(s);
        if DigitsLen(u) == 0 then None else Some(u[DigitsLen(u)..])
      else Some(s);
    if rest.Some? && rest.value != "" && !IsDelimiter(rest.value[0]) then None else rest
  }

  function SkipNumber(s: string): (r: Option<string>)
    ensures r.Some? ==> |r.value| < |s|
  {
    SkipUnsigned(if s != "" && s[0] == '-' then s[1..] else s)
  }

  function SkipUnsigned(a: string): (r: Option<string>)
    ensures r.Some? ==> |r.value| < |a|
  {
    if DigitsLen(a) == 0 then None else SkipFraction(a[DigitsLen(a)..])
  }

  function SkipFraction(f: string): (r: Option<string>)
    ensures r.Some? ==> |r.value| <= |f|
  {
    if f != "" && f[0] == '.' then SkipDecimals(f[1..]) else SkipExponent(f)
  }

  function SkipDecimals(f: string): (r: Option<string>)
    ensures r.Some? ==> |r.value| <= |f|
  {
    if DigitsLen(f) == 0 then None else SkipExponent(f[DigitsLen(f)..])
  }

  function SkipLiteral(s: string, word: string): (r: Option<string>)
    requires word != ""
    ensures r.Some? ==> |r.value| < |s|
  {
    if word <= s && (|s| == |word| || IsDelimiter(s[|word|])) then Some(s[|word|..]) else None
  }

  function SkipToken(s: string): (r: Option<string>)
    ensures r.Some? ==> |r.value| < |s|
  {
    if s == "" then None
    else if s[0] == '"' then SkipString(s)
    else if s[0] == '{' || s[0] == '[' then SkipContainer(s[1..], [s[0]])
    else if s[0] == 't' then SkipLiteral(s, "true")
    else if s[0] == 'f' then SkipLiteral(s, "false")
    else if s[0] == 'n' then SkipLiteral(s, "null")
    else if s[0] == '-' || IsDigit(s[0]) then SkipNumber(s)
    else None
  }

  /** What is left of `s` behind the value it starts with. */
  function SkipValue(s: string): (r: Option<string>)
    ensures r.Some? ==> |r.value| < |s|
  {
    SkipToken(SkipWs(s))
  }

  // ---------------------------------------------------------------- the scanners undo the printer

  lemma {:induction false} SkipWsPrefix(w: string, t: string)
    requires AllWs(w) && (t == "" || !IsWs(t[0]))
    ensures SkipWs(w + t) == t
  {
    if w == "" {
      assert w + t == t;
    } else {
      assert (w + t)[1..] == w[1..] + t;
      SkipWsPrefix(w[1..], t);
    }
  }

  lemma {:induction false} SkipRaw(raw: string, t: string)
    requires ValidRaw(raw)
    ensures SkipStringBody(raw + ("\"" + t)) == Some(t)
  {
    var s := raw + ("\"" + t);
    if raw == "" {
      assert s[1..] == t;
    } else if raw[0] == '\\' {
      assert s[2..] == raw[2..] + ("\"" + t);
      SkipRaw(raw[2..], t);
    } else {
      assert s[1..] == raw[1..] + ("\"" + t);
      SkipRaw(raw[1..], t);
    }
  }

  lemma SkipQuoted(raw: string, t: string)
    requires ValidRaw(raw)
    ensures SkipString(Quoted(raw) + t) == Some(t)
  {
    assert (Quoted(raw) + t)[1..] == raw + ("\"" + t);
    SkipRaw(raw, t);
  }

  /** Walking over `x` inside an open container changes nothing, or fails when `x` nests too deep. */
  ghost predicate Effect(x: string, d: nat) {
    forall t: string, stack: string | 1 <= |stack| <= MAX_NESTING ::
      SkipContainer(x + t, stack) ==
      if |stack| + d <= MAX_NESTING then SkipContainer(t, stack) else None
  }

  lemma EffectConcat(x: string, d: nat, y: string, e: nat)
    requires Effect(x, d) && Effect(y, e)
    ensures Effect(x + y, Max(d, e))
  {
    forall t: string, stack: string | 1 <= |stack| <= MAX_NESTING
      ensures SkipContainer(x + y + t, stack) ==
              if |stack| + Max(d, e) <= MAX_NESTING then SkipContainer(t, stack) else None
    {
      assert x + y + t == x + (y + t);
    }
  }

  predicate IsStructural(c: char) {
    c == '"' || c == '{' || c == '}' || c == '[' || c == ']'
  }

  predicate Plain(s: string) {
    forall i | 0 <= i < |s| :: !IsStructural(s[i])
  }

  lemma {:induction false} EffectPlain(x: string)
    requires Plain(x)
    ensures Effect(x, 0)
  {
    forall t: string, stack: string | 1 <= |stack| <= MAX_NESTING
      ensures SkipContainer(x + t, stack) == SkipContainer(t, stack)
    {
      if x == "" {
        assert x + t == t;
      } else {
        assert (x + t)[1..] == x[1..] + t;
        EffectPlain(x[1..]);
      }
    }
  }

  lemma EffectQuoted(raw: string)
    requires ValidRaw(raw)
    ensures Effect(Quoted(raw), 0)
  {
    forall t: string, stack: string | 1 <= |stack| <= MAX_NESTING
      ensures SkipContainer(Quoted(raw) + t, stack) == SkipContainer(t, stack)
    {
      SkipQuoted(raw, t);
    }
  }

  predicate Pair(open: char, close: char) {
    (open == '{' && close == '}') || (open == '[' && close == ']')
  }

  /** From behind an opening bracket to behind its closing one. */
  lemma CloseBracket(stack: string, open: char, x: string, close: char, d: nat, t: string)
    requires Pair(open, close) && Effect(x, d) && |stack| < MAX_NESTING
    ensures SkipContainer(x + [close] + t, stack + [open]) ==
            if |stack| + 1 + d <= MAX_NESTING then SkipContainer(t, stack) else None
  {
    var inner := stack + [open];
    assert x + [close] + t == x + ([close] + t);
    assert inner[..|stack|] == stack;
    assert ([close] + t)[1..] == t;
  }

  lemma EffectBracket(open: char, x: string, close: char, d: nat)
    requires Pair(open, close) && Effect(x, d)
    ensures Effect([open] + x + [close], d + 1)
  {
    forall t: string, stack: string | 1 <= |stack| <= MAX_NESTING
      ensures SkipContainer([open] + x + [close] + t, stack) ==
              if |stack| + (d + 1) <= MAX_NESTING then SkipContainer(t, stack) else None
    {
      assert ([open] + x + [close] + t)[1..] == x + [close] + t;
      if |stack| < MAX_NESTING {
        CloseBracket(stack, open, x, close, d, t);
      }
    }
  }

  predicate IsNumChar(c: char) {
    IsDigit(c) || c == '-' || c == '+' || c == '.' || c == 'e' || c == 'E'
  }

  predicate NumChars(s: string) {
    forall i | 0 <= i < |s| :: IsNumChar(s[i])
  }

  lemma NumCharsSplit(s: string, n: nat)
    requires n <= |s| && NumChars(s[..n]) && NumChars(s[n..])
    ensures NumChars(s)
  {
    forall i | 0 <= i < |s| ensures IsNumChar(s[i]) {
      assert if i < n then s[..n][i] == s[i] else s[n..][i - n] == s[i];
    }
  }

  lemma DigitsNumChars(s: string)
    requires NumChars(s[DigitsLen(s)..])
    ensures NumChars(s)
  {
    var n := DigitsLen(s);
    assert NumChars(s[..n]);
    NumCharsSplit(s, n);
  }

  lemma ExponentNumChars(s: string)
    requires ValidExponent(s)
    ensures NumChars(s)
  {
    if s != "" {
      var u := ExponentDigits(s);
      var k := |s| - |u|;
      assert NumChars(u);
      assert NumChars(s[..k]);
      NumCharsSplit(s, k);
    }
  }

  lemma FractionNumChars(s: string)
    requires ValidFraction(s)
    ensures NumChars(s)
  {
    if s != "" && s[0] == '.' {
      var f := s[1..];
      ExponentNumChars(f[DigitsLen(f)..]);
      DigitsNumChars(f);
      NumCharsSplit(s, 1);
    } else {
      ExponentNumChars(s);
    }
  }

  lemma NumberNumChars(s: string)
    requires ValidNumber(s)
    ensures s != "" && NumChars(s) && (s[0] == '-' || IsDigit(s[0]))
  {
    if s[0] == '-' {
      var a := s[1..];
      FractionNumChars(a[DigitsLen(a)..]);
      DigitsNumChars(a);
      NumCharsSplit(s, 1);
    } else {
      FractionNumChars(s[DigitsLen(s)..]);
      DigitsNumChars(s);
    }
  }

  lemma AtomPlain(s: string)
    requires ValidAtom(s)
    ensures s != "" && Plain(s)
    ensures !IsWs(s[0]) && s[0] != ',' && s[0] != ':'
  {
    if s != "true" && s != "false" && s != "null" {
      NumberNumChars(s);
    }
  }

  lemma {:induction false} EffectValue(v: Json)
    requires Valid(v)
    ensures Effect(Print(v), Depth(v))
    decreases v
  {
    match v
    case Str(raw) => EffectQuoted(raw);
    case Atom(text) =>
      AtomPlain(text);
      EffectPlain(text);
    case Arr(elems, egap) =>
      EffectElems(elems, egap);
      EffectBracket('[', PrintElems(elems, egap), ']', ElemsDepth(elems));
    case Obj(members, gap) =>
      EffectMembers(members, gap);
      EffectBracket('{', PrintMembers(members, gap), '}', MembersDepth(members));
  }

  lemma {:induction false} EffectElems(elems: seq<Elem>, egap: string)
    requires AllWs(egap) && forall i | 0 <= i < |elems| :: ValidElem(elems[i])
    ensures Effect(PrintElems(elems, egap), ElemsDepth(elems))
    decreases elems, 1
  {
    if elems == [] {
      EffectPlain(egap);
    } else {
      EffectElem(elems[0]);
      EffectElemTail(elems[1..]);
      EffectConcat(ElemText(elems[0]), Depth(elems[0].val), ElemTail(elems[1..]), ElemsDepth(elems[1..]));
    }
  }

  lemma {:induction false} EffectElemTail(elems: seq<Elem>)
    requires forall i | 0 <= i < |elems| :: ValidElem(elems[i])
    ensures Effect(ElemTail(elems), ElemsDepth(elems))
    decreases elems, 0
  {
    if elems == [] {
      EffectPlain("");
    } else {
      EffectElem(elems[0]);
      EffectElemTail(elems[1..]);
      var rest := ElemText(elems[0]) + ElemTail(elems[1..]);
      EffectConcat(ElemText(elems[0]), Depth(elems[0].val), ElemTail(elems[1..]), ElemsDepth(elems[1..]));
      EffectPlain(",");
      EffectConcat(",", 0, rest, ElemsDepth(elems));
    }
  }

  lemma {:induction false} EffectElem(e: Elem)
    requires ValidElem(e)
    ensures Effect(ElemText(e), Depth(e.val))
    decreases e
  {
    EffectValue(e.val);
    EffectPlain(e.pre);
    EffectPlain(e.post);
    EffectConcat(Print(e.val), Depth(e.val), e.post, 0);
    EffectConcat(e.pre, 0, Print(e.val) + e.post, Depth(e.val));
  }

  lemma {:induction false} EffectMembers(members: seq<Member>, gap: string)
    requires AllWs(gap) && forall i | 0 <= i < |members| :: ValidMember(members[i])
    ensures Effect(PrintMembers(members, gap), MembersDepth(members))
    decreases members, 1
  {
    if members == [] {
      EffectPlain(gap);
    } else {
      EffectMember(members[0]);
      EffectMemberTail(members[1..]);
      EffectConcat(MemberText(members[0]), Depth(members[0].core.val),
                   MemberTail(members[1..]), MembersDepth(members[1..]));
    }
  }

  lemma {:induction false} EffectMemberTail(members: seq<Member>)
    requires forall i | 0 <= i < |members| :: ValidMember(members[i])
    ensures Effect(MemberTail(members), MembersDepth(members))
    decreases members, 0
  {
    if members == [] {
      EffectPlain("");
    } else {
      EffectMember(members[0]);
      EffectMemberTail(members[1..]);
      var rest := MemberText(members[0]) + MemberTail(members[1..]);
      EffectConcat(MemberText(members[0]), Depth(members[0].core.val),
                   MemberTail(members[1..]), MembersDepth(members[1..]));
      EffectPlain(",");
      EffectConcat(",", 0, rest, MembersDepth(members));
    }
  }

  lemma {:induction false} EffectMember(m: Member)
    requires ValidMember(m)
    ensures Effect(MemberText(m), Depth(m.core.val))
    decreases m
  {
    var d := Depth(m.core.val);
    EffectCore(m.core);
    EffectPlain(m.post);
    EffectConcat(CoreText(m.core), d, m.post, 0);
    EffectPlain(m.pre);
    EffectConcat(m.pre, 0, CoreText(m.core) + m.post, d);
  }

  lemma {:induction false} EffectCore(c: Core)
    requires ValidCore(c)
    ensures Effect(CoreText(c), Depth(c.val))
    decreases c
  {
    var d := Depth(c.val);
    EffectValue(c.val);
    EffectPlain(c.sep);
    EffectConcat(c.sep, 0, Print(c.val), d);
    EffectColon(c.mid, c.sep + Print(c.val), d);
    EffectQuoted(c.key);
    EffectConcat(Quoted(c.key), 0, c.mid + (":" + (c.sep + Print(c.val))), d);
  }

  lemma EffectColon(mid: string, x: string, d: nat)
    requires AllWs(mid) && Effect(x, d)
    ensures Effect(mid + (":" + x), d)
  {
    EffectPlain(":");
    EffectConcat(":", 0, x, d);
    EffectPlain(mid);
    EffectConcat(mid, 0, ":" + x, d);
  }

  lemma {:induction false} DigitsAppend(s: string, t: string)
    requires t == "" || !IsDigit(t[0])
    ensures DigitsLen(s + t) == DigitsLen(s)
  {
    if s == "" {
      assert s + t == t;
    } else {
      assert (s + t)[1..] == s[1..] + t;
      DigitsAppend(s[1..], t);
    }
  }

  lemma DigitsRest(s: string, t: string)
    requires t == "" || IsDelimiter(t[0])
    ensures DigitsLen(s + t) == DigitsLen(s)
    ensures (s + t)[DigitsLen(s)..] == s[DigitsLen(s)..] + t
  {
    DigitsAppend(s, t);
  }

  lemma SkipExponentText(s: string, t: string)
    requires ValidExponent(s) && (t == "" || IsDelimiter(t[0]))
    ensures SkipExponent(s + t) == Some(t)
  {
    if s == "" {
      assert s + t == t;
    } else {
      var u := ExponentDigits(s);
      assert ExponentDigits(s + t) == u + t;
      DigitsRest(u, t);
      assert u[|u|..] + t == t;
    }
  }

  lemma SkipDecimalsText(g: string, t: string)
    requires DigitsLen(g) >= 1 && ValidExponent(g[DigitsLen(g)..])
    requires t == "" || IsDelimiter(t[0])
    ensures SkipDecimals(g + t) == Some(t)
  {
    DigitsRest(g, t);
    SkipExponentText(g[DigitsLen(g)..], t);
  }

  lemma SkipFractionText(f: string, t: string)
    requires t == "" || IsDelimiter(t[0])
    requires ValidFraction(f)
    ensures SkipFraction(f + t) == Some(t)
  {
    if f != "" && f[0] == '.' {
      assert (f + t)[1..] == f[1..] + t;
      SkipDecimalsText(f[1..], t);
    } else {
      assert f + t != "" ==> (f + t)[0] == (if f != "" then f[0] else t[0]);
      SkipExponentText(f, t);
    }
  }

  lemma SkipUnsignedText(a: string, t: string)
    requires t == "" || IsDelimiter(t[0])
    requires DigitsLen(a) >= 1 && ValidFraction(a[DigitsLen(a)..])
    ensures SkipUnsigned(a + t) == Some(t)
  {
    DigitsRest(a, t);
    SkipFractionText(a[DigitsLen(a)..], t);
  }

  lemma SkipNumberText(s: string, t: string)
    requires ValidNumber(s) && (t == "" || IsDelimiter(t[0]))
    ensures SkipNumber(s + t) == Some(t)
  {
    if s[0] == '-' {
      assert (s + t)[1..] == s[1..] + t;
      SkipUnsignedText(s[1..], t);
    } else {
      SkipUnsignedText(s, t);
    }
  }

  lemma SkipLiteralText(word: string, t: string)
    requires word != "" && (t == "" || IsDelimiter(t[0]))
    ensures SkipLiteral(word + t, word) == Some(t)
  {
    assert (word + t)[|word|..] == t;
    assert word <= word + t;
  }

  lemma SkipKeyword(s: string, t: string)
    requires s == "true" || s == "false" || s == "null"
    requires t == "" || IsDelimiter(t[0])
    ensures SkipToken(s + t) == Some(t)
  {
    SkipLiteralText(s, t);
    assert (s + t)[0] == s[0];
  }

  lemma NumberStart(s: string)
    requires ValidNumber(s)
    ensures s != "" && (s[0] == '-' || IsDigit(s[0]))
  {
  }

  lemma NumberToken(x: string)
    requires x != "" && (x[0] == '-' || IsDigit(x[0]))
    ensures SkipToken(x) == SkipNumber(x)
  {
  }

  lemma SkipAtomText(s: string, t: string)
    requires ValidAtom(s) && (t == "" || IsDelimiter(t[0]))
    ensures SkipToken(s + t) == Some(t)
  {
    if ValidNumber(s) {
      NumberStart(s);
      SkipNumberText(s, t);
      NumberToken(s + t);
    } else {
      SkipKeyword(s, t);
    }
  }

  lemma SkipBracketText(open: char, x: string, close: char, d: nat, t: string)
    requires Pair(open, close) && Effect(x, d)
    ensures SkipToken([open] + x + [close] + t) == if d + 1 <= MAX_NESTING then Some(t) else None
  {
    CloseBracket("", open, x, close, d, t);
    assert "" + [open] == [open];
    assert ([open] + x + [close] + t)[1..] == x + [close] + t;
  }

  lemma SkipTokenText(v: Json, t: string)
    requires Valid(v) && (t == "" || IsDelimiter(t[0]))
    ensures SkipToken(Print(v) + t) == if Depth(v) <= MAX_NESTING then Some(t) else None
  {
    match v
    case Str(raw) => SkipQuoted(raw, t);
    case Atom(text) => SkipAtomText(text, t);
    case Arr(elems, egap) =>
      EffectElems(elems, egap);
      SkipBracketText('[', PrintElems(elems, egap), ']', ElemsDepth(elems), t);
    case Obj(members, gap) =>
      EffectMembers(members, gap);
      SkipBracketText('{', PrintMembers(members, gap), '}', MembersDepth(members), t);
  }

  /** SkipValue finds the end of every value it can hold on its 128-entry stack, and refuses the others. */
  lemma SkipValueText(w: string, v: Json, t: string)
    requires AllWs(w) && Valid(v) && (t == "" || IsDelimiter(t[0]))
    ensures SkipValue(w + (Print(v) + t)) == if Depth(v) <= MAX_NESTING then Some(t) else None
  {
    ValueStart(v);
    SkipWsPrefix(w, Print(v) + t);
    SkipTokenText(v, t);
  }

  lemma ValueStart(v: Json)
    requires Valid(v)
    ensures Print(v) != "" && !IsWs(Print(v)[0])
    ensures Print(v)[0] != '}' && Print(v)[0] != ']' && Print(v)[0] != ',' && Print(v)[0] != ':'
  {
    if v.Atom? {
      AtomPlain(v.text);
    }
  }
}
