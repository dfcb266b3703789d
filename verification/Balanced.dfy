/**
 Finding JSON inside free text: extractBalancedJSON (pkg/router/tool_normalizer_core.go) and the
 scan-and-remove loop of BareJSONParser (pkg/router/tool_normalizer_parsers.go).
 */
module Balanced {
  import opened Wrappers
  import opened Json

  // ---------------------------------------------------------------- the scanner

  datatype Scan = Scan(depth: nat, inString: bool, escaped: bool)

  predicate IsOpen(c: char) {
    c == '{' || c == '['
  }

  function Closer(open: char): char {
    if open == '{' then '}' else ']'
  }

  /** The bracket of the kind that was opened first, at depth one and outside strings, ends the scan. */
  predicate Ends(open: char, st: Scan, c: char) {
    !st.escaped && !st.inString && c == Closer(open) && st.depth == 1
  }

  function Step(open: char, st: Scan, c: char): Scan
    requires IsOpen(open)
  {
    if st.escaped then st.(escaped := false)
    else if c == '\\' then st.(escaped := true)
    else if c == '"' then st.(inString := !st.inString)
    else if st.inString then st
    else if c == open then st.(depth := st.depth + 1)
    else if c == Closer(open) && st.depth > 0 then st.(depth := st.depth - 1)
    else st
  }

  function Run(open: char, st: Scan, s: string): Scan
    requires IsOpen(open)
    decreases |s|
  {
    if s == "" then st else Run(open, Step(open, st, s[0]), s[1..])
  }

  /** No character of s ends the scan. */
  predicate Passes(open: char, st: Scan, s: string)
    requires IsOpen(open)
    decreases |s|
  {
    s == "" || (!Ends(open, st, s[0]) && Passes(open, Step(open, st, s[0]), s[1..]))
  }

  /** How many characters the scan takes until it ends. */
  function Find(open: char, st: Scan, s: string): (r: Option<nat>)
    requires IsOpen(open)
    ensures r.Some? ==> 0 < r.value <= |s|
    decreases |s|
  {
    if s == "" then None
    else if Ends(open, st, s[0]) then Some(1)
    else
      match Find(open, Step(open, st, s[0]), s[1..])
      case None => None
      case Some(n) => Some(n + 1)
  }

  lemma {:induction false} RunAppend(open: char, st: Scan, x: string, y: string)
    requires IsOpen(open)
    ensures Run(open, st, x + y) == Run(open, Run(open, st, x), y)
    ensures Passes(open, st, x + y) <==> Passes(open, st, x) && Passes(open, Run(open, st, x), y)
    decreases |x|
  {
    if x == "" {
      assert x + y == y;
    } else {
      assert (x + y)[1..] == x[1..] + y;
      RunAppend(open, Step(open, st, x[0]), x[1..], y);
    }
  }

  lemma {:induction false} FindBehind(open: char, st: Scan, x: string, y: string)
    requires IsOpen(open) && Passes(open, st, x)
    ensures Find(open, st, x + y) ==
            match Find(open, Run(open, st, x), y) case None => None case Some(n) => Some(|x| + n)
    decreases |x|
  {
    if x == "" {
      assert x + y == y;
    } else {
      assert (x + y)[1..] == x[1..] + y;
      FindBehind(open, Step(open, st, x[0]), x[1..], y);
    }
  }

  /** What Find returns: the first character that ends the scan. */
  lemma {:induction false} FindIs(open: char, st: Scan, s: string)
    requires IsOpen(open)
    ensures match Find(open, st, s)
            case None => Passes(open, st, s)
            case Some(n) => Passes(open, st, s[..n - 1]) && Ends(open, Run(open, st, s[..n - 1]), s[n - 1])
    decreases |s|
  {
    if s != "" && !Ends(open, st, s[0]) {
      FindIs(open, Step(open, st, s[0]), s[1..]);
      match Find(open, Step(open, st, s[0]), s[1..])
      case None =>
      case Some(n) =>
        assert s[..n][1..] == s[1..][..n - 1];
    }
  }

  // ---------------------------------------------------------------- extents

  /** The extent of the balanced value that starts at i, after whitespace. */
  function Extract(s: string, i: nat): (r: Option<(nat, nat)>)
    requires i <= |s|
    ensures r.Some? ==> i <= r.value.0 < r.value.1 <= |s|
    decreases |s| - i
  {
    if i == |s| then None
    else if IsWs(s[i]) then Extract(s, i + 1)
    else if !IsOpen(s[i]) then None
    else
      match Find(s[i], Scan(0, false, false), s[i..])
      case None => None
      case Some(n) => Some((i, i + n))
  }

  method ExtractBalancedJSON(s: string, startIdx: nat) returns (text: string, start: nat, end: nat, ok: bool)
    ensures ok <==> startIdx < |s| && Extract(s, startIdx).Some?
    ensures ok ==> (start, end) == Extract(s, startIdx).value && text == s[start..end]
  {
    text, start, end, ok := "", 0, 0, false;
    if startIdx >= |s| { return; }
    var i := startIdx;
    while i < |s| && IsWs(s[i])
      invariant startIdx <= i <= |s| && Extract(s, i) == Extract(s, startIdx)
    {
      i := i + 1;
    }
    if i >= |s| || !IsOpen(s[i]) { return; }
    end, ok := ScanBalanced(s, i);
    if ok {
      text, start := s[i..end], i;
    }
  }

  ghost function Plus(n: nat, r: Option<nat>): Option<nat> {
    match r case None => None case Some(k) => Some(n + k)
  }

  /** The loop over the characters. */
  method ScanBalanced(s: string, openIdx: nat) returns (end: nat, ok: bool)
    requires openIdx < |s| && IsOpen(s[openIdx])
    ensures (if ok then Some(end) else None) == Plus(openIdx, Find(s[openIdx], Scan(0, false, false), s[openIdx..]))
    ensures ok ==> openIdx < end <= |s|
  {
    var open := s[openIdx];
    ghost var goal := Plus(openIdx, Find(open, Scan(0, false, false), s[openIdx..]));
    var depth: nat, inString, escaped := 0, false, false;
    var i := openIdx;
    while i < |s|
      invariant openIdx <= i <= |s|
      invariant goal == Plus(i, Find(open, Scan(depth, inString, escaped), s[i..]))
      invariant if i == openIdx then !inString && !escaped else depth > 0
    {
      var c := s[i];
      FindStep(open, Scan(depth, inString, escaped), s, i);
      if escaped {
        escaped := false;
      } else if c == '\\' {
        escaped := true;
      } else if c == '"' {
        inString := !inString;
      } else if !inString {
        if c == open {
          depth := depth + 1;
        } else if c == Closer(open) {
          depth := depth - 1;
          if depth == 0 {
            return i + 1, true;
          }
        }
      }
      i := i + 1;
    }
    return 0, false;
  }

  lemma FindStep(open: char, st: Scan, s: string, i: nat)
    requires IsOpen(open) && i < |s|
    ensures Plus(i, Find(open, st, s[i..])) ==
            if Ends(open, st, s[i]) then Some(i + 1) else Plus(i + 1, Find(open, Step(open, st, s[i]), s[i + 1..]))
  {
    assert s[i..][1..] == s[i + 1..];
  }

  // ---------------------------------------------------------------- printed values

  function Outside(d: nat): Scan { Scan(d, false, false) }

  /** The text leaves the scan where it was. */
  ghost predicate Neutral(open: char, d: nat, x: string)
    requires IsOpen(open)
  {
    Passes(open, Outside(d), x) && Run(open, Outside(d), x) == Outside(d)
  }

  lemma NeutralCat(open: char, d: nat, x: string, y: string)
    requires IsOpen(open) && Neutral(open, d, x) && Neutral(open, d, y)
    ensures Neutral(open, d, x + y)
  {
    RunAppend(open, Outside(d), x, y);
  }

  lemma {:induction false} NeutralPlain(open: char, d: nat, x: string)
    requires IsOpen(open) && forall i | 0 <= i < |x| :: !IsStructural(x[i]) && x[i] != '\\'
    ensures Neutral(open, d, x)
  {
    if x != "" {
      NeutralPlain(open, d, x[1..]);
    }
  }

  lemma AtomChars(text: string)
    requires ValidAtom(text)
    ensures forall i | 0 <= i < |text| :: !IsStructural(text[i]) && text[i] != '\\'
  {
    AtomPlain(text);
    if text != "true" && text != "false" && text != "null" {
      NumberNumChars(text);
    }
  }

  lemma {:induction false} InString(open: char, d: nat, raw: string)
    requires IsOpen(open) && ValidRaw(raw)
    ensures Passes(open, Scan(d, true, false), raw) && Run(open, Scan(d, true, false), raw) == Scan(d, true, false)
  {
    if raw != "" {
      if raw[0] == '\\' {
        assert raw[1..][1..] == raw[2..];
        InString(open, d, raw[2..]);
      } else {
        InString(open, d, raw[1..]);
      }
    }
  }

  lemma NeutralQuoted(open: char, d: nat, raw: string)
    requires IsOpen(open) && ValidRaw(raw)
    ensures Neutral(open, d, Quoted(raw))
  {
    InString(open, d, raw);
    var q := "\"";
    assert Run(open, Outside(d), q) == Scan(d, true, false) && Passes(open, Outside(d), q);
    assert Run(open, Scan(d, true, false), q) == Outside(d) && Passes(open, Scan(d, true, false), q);
    RunAppend(open, Outside(d), q, raw);
    RunAppend(open, Outside(d), q + raw, q);
  }

  lemma NeutralBrackets(open: char, d: nat, o: char, x: string)
    requires IsOpen(open) && IsOpen(o) && d > 0 && Neutral(open, if o == open then d + 1 else d, x)
    ensures Neutral(open, d, [o] + x + [Closer(o)])
  {
    var d' := if o == open then d + 1 else d;
    RunOne(open, d, o);
    RunOne(open, d', Closer(o));
    RunAppend(open, Outside(d), [o], x);
    RunAppend(open, Outside(d), [o] + x, [Closer(o)]);
  }

  lemma RunOne(open: char, d: nat, c: char)
    requires IsOpen(open) && (c == '{' || c == '[' || c == '}' || c == ']')
    ensures Run(open, Outside(d), [c]) ==
            if c == open then Outside(d + 1) else if c == Closer(open) && d > 0 then Outside(d - 1) else Outside(d)
    ensures Passes(open, Outside(d), [c]) <==> !(c == Closer(open) && d == 1)
  {
    assert [c][1..] == "";
  }

  lemma {:induction false} NeutralValue(open: char, d: nat, v: Json)
    requires IsOpen(open) && Valid(v) && d > 0
    ensures Neutral(open, d, Print(v))
    decreases v
  {
    hide Neutral;
    match v
    case Str(raw) => NeutralQuoted(open, d, raw);
    case Atom(text) =>
      AtomChars(text);
      NeutralPlain(open, d, text);
    case Arr(elems, egap) =>
      var d' := if open == '[' then d + 1 else d;
      NeutralElems(open, d', elems, egap);
      NeutralBrackets(open, d, '[', PrintElems(elems, egap));
      assert ['['] + PrintElems(elems, egap) + [']'] == Print(v);
    case Obj(members, gap) =>
      var d' := if open == '{' then d + 1 else d;
      NeutralMembers(open, d', members, gap);
      NeutralBrackets(open, d, '{', PrintMembers(members, gap));
      assert ['{'] + PrintMembers(members, gap) + ['}'] == Print(v);
  }

  lemma {:induction false} NeutralElems(open: char, d: nat, elems: seq<Elem>, egap: string)
    requires IsOpen(open) && d > 0 && AllWs(egap)
    requires forall e | e in elems :: ValidElem(e)
    ensures Neutral(open, d, PrintElems(elems, egap))
    decreases elems, 1
  {
    hide Neutral;
    if elems == [] {
      NeutralWs(open, d, egap);
    } else {
      NeutralElem(open, d, elems[0]);
      NeutralElemTail(open, d, elems[1..]);
      NeutralCat(open, d, ElemText(elems[0]), ElemTail(elems[1..]));
    }
  }

  lemma {:induction false} NeutralElemTail(open: char, d: nat, elems: seq<Elem>)
    requires IsOpen(open) && d > 0
    requires forall e | e in elems :: ValidElem(e)
    ensures Neutral(open, d, ElemTail(elems))
    decreases elems, 0
  {
    hide Neutral;
    NeutralPlain(open, d, "");
    NeutralPlain(open, d, ",");
    if elems != [] {
      NeutralElem(open, d, elems[0]);
      NeutralElemTail(open, d, elems[1..]);
      NeutralCat(open, d, ElemText(elems[0]), ElemTail(elems[1..]));
      NeutralCat(open, d, ",", ElemText(elems[0]) + ElemTail(elems[1..]));
    }
  }

  lemma NeutralElem(open: char, d: nat, e: Elem)
    requires IsOpen(open) && d > 0 && ValidElem(e)
    ensures Neutral(open, d, ElemText(e))
    decreases e
  {
    hide Neutral;
    NeutralWs(open, d, e.pre);
    NeutralWs(open, d, e.post);
    NeutralValue(open, d, e.val);
    NeutralCat(open, d, Print(e.val), e.post);
    NeutralCat(open, d, e.pre, Print(e.val) + e.post);
  }

  lemma NeutralWs(open: char, d: nat, w: string)
    requires IsOpen(open) && AllWs(w)
    ensures Neutral(open, d, w)
  {
    NeutralPlain(open, d, w);
  }

  lemma {:induction false} NeutralMembers(open: char, d: nat, ms: seq<Member>, gap: string)
    requires IsOpen(open) && d > 0 && AllWs(gap)
    requires forall m | m in ms :: ValidMember(m)
    ensures Neutral(open, d, PrintMembers(ms, gap))
    decreases ms, 1
  {
    hide Neutral;
    if ms == [] {
      NeutralWs(open, d, gap);
    } else {
      NeutralMember(open, d, ms[0]);
      NeutralMemberTail(open, d, ms[1..]);
      NeutralCat(open, d, MemberText(ms[0]), MemberTail(ms[1..]));
    }
  }

  lemma {:induction false} NeutralMemberTail(open: char, d: nat, ms: seq<Member>)
    requires IsOpen(open) && d > 0
    requires forall m | m in ms :: ValidMember(m)
    ensures Neutral(open, d, MemberTail(ms))
    decreases ms, 0
  {
    hide Neutral;
    NeutralPlain(open, d, "");
    NeutralPlain(open, d, ",");
    if ms != [] {
      NeutralMember(open, d, ms[0]);
      NeutralMemberTail(open, d, ms[1..]);
      NeutralCat(open, d, MemberText(ms[0]), MemberTail(ms[1..]));
      NeutralCat(open, d, ",", MemberText(ms[0]) + MemberTail(ms[1..]));
    }
  }

  lemma NeutralMember(open: char, d: nat, m: Member)
    requires IsOpen(open) && d > 0 && ValidMember(m)
    ensures Neutral(open, d, MemberText(m))
    decreases m
  {
    hide Neutral;
    var c := m.core;
    NeutralWs(open, d, m.pre);
    NeutralWs(open, d, m.post);
    NeutralWs(open, d, c.mid);
    NeutralWs(open, d, c.sep);
    NeutralPlain(open, d, ":");
    NeutralQuoted(open, d, c.key);
    NeutralValue(open, d, c.val);
    NeutralCat(open, d, c.sep, Print(c.val));
    NeutralCat(open, d, ":", c.sep + Print(c.val));
    NeutralCat(open, d, c.mid, ":" + (c.sep + Print(c.val)));
    NeutralCat(open, d, Quoted(c.key), c.mid + (":" + (c.sep + Print(c.val))));
    NeutralCat(open, d, CoreText(c), m.post);
    NeutralCat(open, d, m.pre, CoreText(c) + m.post);
  }

  function Inside(v: Json): string
    requires v.Arr? || v.Obj?
  {
    if v.Arr? then PrintElems(v.elems, v.egap) else PrintMembers(v.members, v.gap)
  }

  lemma FindBracketed(open: char, x: string, t: string)
    requires IsOpen(open) && Passes(open, Outside(1), x) && Run(open, Outside(1), x) == Outside(1)
    ensures Find(open, Outside(0), ([open] + x) + ([Closer(open)] + t)) == Some(|x| + 2)
    ensures Passes(open, Outside(0), [open] + x)
  {
    hide Find, Passes, Run, Step;
    RunOne(open, 0, open);
    RunAppend(open, Outside(0), [open], x);
    var y := [Closer(open)] + t;
    FindBehind(open, Outside(0), [open] + x, y);
    FindEnd(open, y);
  }

  lemma FindEnd(open: char, y: string)
    requires IsOpen(open) && y != "" && y[0] == Closer(open)
    ensures Find(open, Outside(1), y) == Some(1)
  {
  }

  lemma PrintParts(v: Json)
    requires v.Arr? || v.Obj?
    ensures Print(v) == [if v.Arr? then '[' else '{'] + Inside(v) + [if v.Arr? then ']' else '}']
  {
  }

  lemma NeutralInside(v: Json)
    requires Valid(v) && (v.Arr? || v.Obj?)
    ensures Neutral(if v.Arr? then '[' else '{', 1, Inside(v))
  {
    hide Neutral;
    if v.Arr? { NeutralElems('[', 1, v.elems, v.egap); } else { NeutralMembers('{', 1, v.members, v.gap); }
  }

  /** The scan of a printed container ends with its last character and not before. */
  lemma FindPrinted(v: Json, t: string)
    requires Valid(v) && (v.Arr? || v.Obj?)
    ensures IsOpen(Print(v)[0])
    ensures Find(Print(v)[0], Outside(0), Print(v) + t) == Some(|Print(v)|)
    ensures Passes(Print(v)[0], Outside(0), Print(v)[..|Print(v)| - 1])
  {
    hide Find, Run, Passes, Print, Inside, Valid;
    var open := if v.Arr? then '[' else '{';
    var x := Inside(v);
    NeutralInside(v);
    PrintParts(v);
    FindBracketed(open, x, t);
    assert Print(v) + t == ([open] + x) + ([Closer(open)] + t);
    assert Print(v)[..|Print(v)| - 1] == [open] + x;
  }

  /** extractBalancedJSON undoes the printer, whatever whitespace comes before and whatever text after. */
  lemma {:induction false} ExtractPrinted(w: string, v: Json, t: string)
    requires AllWs(w) && Valid(v) && (v.Arr? || v.Obj?)
    ensures Extract(w + Print(v) + t, 0) == Some((|w|, |w| + |Print(v)|))
    ensures (w + Print(v) + t)[|w|..|w| + |Print(v)|] == Print(v)
  {
    var s := w + Print(v) + t;
    ExtractSkip(s, 0, |w|);
    FindPrinted(v, t);
    assert s[|w|..] == Print(v) + t;
  }

  lemma {:induction false} ExtractSkip(s: string, i: nat, j: nat)
    requires i <= j <= |s| && forall k | i <= k < j :: IsWs(s[k])
    ensures Extract(s, i) == Extract(s, j)
    decreases j - i
  {
    if i < j { ExtractSkip(s, i + 1, j); }
  }

  /** A container that is cut off anywhere before its end is not extracted. */
  lemma ExtractCutOff(w: string, v: Json, n: nat)
    requires AllWs(w) && Valid(v) && (v.Arr? || v.Obj?) && n < |Print(v)|
    ensures Extract(w + Print(v)[..n], 0) == None
  {
    var p := Print(v)[..n];
    var s := w + p;
    ExtractSkip(s, 0, |w|);
    if n > 0 {
      FindPrinted(v, "");
      var open := Print(v)[0];
      assert s[|w|..] == p && p[0] == open;
      var q := Print(v)[..|Print(v)| - 1];
      assert q == p + q[n..];
      RunAppend(open, Outside(0), p, q[n..]);
      FindIs(open, Outside(0), p);
      if Find(open, Outside(0), p).Some? {
        var k := Find(open, Outside(0), p).value;
        assert p == p[..k - 1] + p[k - 1..];
        RunAppend(open, Outside(0), p[..k - 1], p[k - 1..]);
        assert false;
      }
    }
  }

  // ---------------------------------------------------------------- the bare JSON loop

  /** parseBareJSONToolCall: the tool calls in a JSON text, for the next free id. */
  type Parser<C> = (string, nat) -> Option<seq<C>>

  /** The tool-call text at the start of s, and the calls in it. */
  function CallAt<C>(parse: Parser<C>, s: string, id: nat): (r: Option<(nat, seq<C>)>)
    ensures r.Some? ==> 0 < r.value.0 <= |s|
  {
    if s == "" || !IsOpen(s[0]) then None
    else
      match Extract(s, 0)
      case None => None
      case Some((_, n)) =>
        match parse(s[..n], id)
        case None => None
        case Some(calls) => Some((n, calls))
  }

  /** What the loop keeps of s, and the calls it takes out. */
  function Sweep<C>(parse: Parser<C>, s: string, id: nat): (string, seq<C>)
    decreases |s|
  {
    if s == "" then ("", [])
    else
      match CallAt(parse, s, id)
      case Some((n, calls)) =>
        var r := Sweep(parse, s[n..], id + |calls|);
        (r.0, calls + r.1)
      case None =>
        var r := Sweep(parse, s[1..], id);
        ([s[0]] + r.0, r.1)
  }

  predicate Contains(s: string, word: string) {
    exists i | 0 <= i <= |s| :: word <= s[i..]
  }

  predicate Tagged(s: string) {
    Contains(s, "<tool_call>") || Contains(s, "<function=")
  }

  lemma {:induction false} SweepPlain<C>(parse: Parser<C>, s: string, id: nat)
    requires forall c | c in s :: !IsOpen(c)
    ensures Sweep(parse, s, id) == (s, [])
    decreases |s|
  {
    if s != "" {
      assert s[0] in s;
      SweepPlain(parse, s[1..], id);
      assert [s[0]] + s[1..] == s;
    }
  }

  lemma ExtractShift(s: string, i: nat)
    requires i < |s| && IsOpen(s[i])
    ensures Extract(s, i) == match Extract(s[i..], 0) case None => None case Some((_, n)) => Some((i, i + n))
  {
    assert s[i..][0..] == s[i..];
    assert !IsWs(s[i]);
  }

  method ParseBareJSON<C>(parse: Parser<C>, content: string, nextID: nat)
    returns (remaining: string, calls: seq<C>, found: bool)
    ensures var r := Sweep(parse, content, nextID);
            if Tagged(content) || r.1 == [] then remaining == content && calls == [] && !found
            else remaining == r.0 && calls == r.1 && found
  {
    if !(exists i | 0 <= i < |content| :: IsOpen(content[i])) {
      SweepPlain(parse, content, nextID);
      return content, [], false;
    }
    if Contains(content, "<tool_call>") || Contains(content, "<function=") {
      return content, [], false;
    }
    calls, remaining := [], content;
    GoalStart(parse, content, nextID);
    hide *;
    var i: nat := 0;
    while i < |remaining|
      invariant i <= |remaining|
      invariant Sweep(parse, content, nextID) == Goal(parse, remaining, i, nextID, calls)
      decreases |remaining| - i
    {
      var skip := true;
      if IsOpen(remaining[i]) {
        var rawJSON, startPos, endPos, ok := ExtractBalancedJSON(remaining, i);
        if ok {
          ExtractBounds(remaining, i);
          var parsed := parse(rawJSON, nextID + |calls|);
          if parsed.Some? {
            GoalTake(parse, remaining, i, nextID, calls, endPos, parsed.value);
            calls := calls + parsed.value;
            remaining := remaining[..startPos] + remaining[endPos..];
            i := startPos;
            skip := false;
          }
        }
      }
      if skip {
        GoalSkip(parse, remaining, i, nextID, calls);
        i := i + 1;
      }
    }
    GoalEnd(parse, remaining, nextID, calls);
    if |calls| > 0 {
      found := true;
    } else {
      return content, [], false;
    }
  }

  /** What the loop has kept and taken so far, together with what it will do with the rest. */
  ghost function Goal<C>(parse: Parser<C>, s: string, i: nat, nextID: nat, calls: seq<C>): (string, seq<C>)
    requires i <= |s|
  {
    var r := Sweep(parse, s[i..], nextID + |calls|);
    (s[..i] + r.0, calls + r.1)
  }

  lemma GoalStart<C>(parse: Parser<C>, s: string, nextID: nat)
    ensures Goal(parse, s, 0, nextID, []) == Sweep(parse, s, nextID)
  {
    hide Sweep;
    assert s[0..] == s;
    var r := Sweep(parse, s, nextID);
    assert "" + r.0 == r.0 && [] + r.1 == r.1;
  }

  lemma GoalEnd<C>(parse: Parser<C>, s: string, nextID: nat, calls: seq<C>)
    ensures Goal(parse, s, |s|, nextID, calls) == (s, calls)
  {
    assert s[|s|..] == "" && s[..|s|] == s;
    assert s + "" == s && calls + [] == calls;
  }

  lemma ExtractBounds(s: string, i: nat)
    requires i < |s| && IsOpen(s[i]) && Extract(s, i).Some?
    ensures Extract(s, i).value.0 == i < Extract(s, i).value.1 <= |s|
  {
  }

  lemma GoalTake<C>(parse: Parser<C>, s: string, i: nat, nextID: nat, calls: seq<C>, end: nat, more: seq<C>)
    requires i < end <= |s| && IsOpen(s[i]) && Extract(s, i) == Some((i, end)) && parse(s[i..end], nextID + |calls|) == Some(more)
    ensures Goal(parse, s, i, nextID, calls) == Goal(parse, s[..i] + s[end..], i, nextID, calls + more)
  {
    hide *;
    SweepTake(parse, s, i, nextID + |calls|, end, more);
    var t := s[..i] + s[end..];
    Rejoin(s, i, end, t);
    AssocCalls(calls, more, Sweep(parse, s[end..], nextID + |calls| + |more|).1);
    GoalIs(parse, s, i, nextID, calls);
    GoalIs(parse, t, i, nextID, calls + more);
  }

  lemma GoalIs<C>(parse: Parser<C>, s: string, i: nat, nextID: nat, calls: seq<C>)
    requires i <= |s|
    ensures Goal(parse, s, i, nextID, calls) ==
            (s[..i] + Sweep(parse, s[i..], nextID + |calls|).0, calls + Sweep(parse, s[i..], nextID + |calls|).1)
  {
    hide Sweep;
  }

  lemma Rejoin(s: string, i: nat, end: nat, t: string)
    requires i < end <= |s| && t == s[..i] + s[end..]
    ensures i <= |t| && t[..i] == s[..i] && t[i..] == s[end..]
  {
  }

  lemma AssocCalls<C>(a: seq<C>, b: seq<C>, c: seq<C>)
    ensures a + (b + c) == a + b + c && |a + b| == |a| + |b|
  {
  }

  lemma SweepTake<C>(parse: Parser<C>, s: string, i: nat, id: nat, end: nat, more: seq<C>)
    requires i < end <= |s| && IsOpen(s[i]) && Extract(s, i) == Some((i, end)) && parse(s[i..end], id) == Some(more)
    ensures var r := Sweep(parse, s[end..], id + |more|);
            Sweep(parse, s[i..], id) == (r.0, more + r.1)
  {
    hide Extract, CallAt;
    CallHere(parse, s, i, id);
    assert s[i..][end - i..] == s[end..];
  }

  /** A tool call at position i, in terms of the whole text. */
  lemma CallHere<C>(parse: Parser<C>, s: string, i: nat, id: nat)
    requires i < |s|
    ensures CallAt(parse, s[i..], id) ==
            if !IsOpen(s[i]) || Extract(s, i) == None then None
            else
              var end := Extract(s, i).value.1;
              match parse(s[i..end], id)
              case None => None
              case Some(calls) => Some((end - i, calls))
  {
    if IsOpen(s[i]) {
      ExtractShift(s, i);
      var x := s[i..];
      if Extract(s, i).Some? {
        var end := Extract(s, i).value.1;
        assert x[..end - i] == s[i..end];
      }
    }
    hide Extract;
  }

  lemma GoalSkip<C>(parse: Parser<C>, s: string, i: nat, nextID: nat, calls: seq<C>)
    requires i < |s|
    requires !IsOpen(s[i]) || Extract(s, i) == None ||
             parse(s[i..Extract(s, i).value.1], nextID + |calls|) == None
    ensures Goal(parse, s, i, nextID, calls) == Goal(parse, s, i + 1, nextID, calls)
  {
    CallHere(parse, s, i, nextID + |calls|);
    hide Extract, CallAt;
    assert s[i..][1..] == s[i + 1..];
    var r := Sweep(parse, s[i + 1..], nextID + |calls|);
    assert s[..i] + ([s[i]] + r.0) == s[..i + 1] + r.0;
  }

  // ---------------------------------------------------------------- what is removed

  /** The extents the loop takes out, as positions in the whole text; `at` is where s starts. */
  ghost function Cuts<C>(parse: Parser<C>, s: string, id: nat, at: nat): seq<(nat, nat)>
    decreases |s|
  {
    if s == "" then []
    else
      match CallAt(parse, s, id)
      case Some((n, calls)) => [(at, at + n)] + Cuts(parse, s[n..], id + |calls|, at + n)
      case None => Cuts(parse, s[1..], id, at + 1)
  }

  /** The extents are in order, disjoint, and inside [lo, hi]. */
  ghost predicate Disjoint(cuts: seq<(nat, nat)>, lo: nat, hi: nat) {
    cuts == [] || (lo <= cuts[0].0 < cuts[0].1 <= hi && Disjoint(cuts[1..], cuts[0].1, hi))
  }

  /** The text from `lo` on without the extents. */
  ghost function Without(content: string, cuts: seq<(nat, nat)>, lo: nat): string
    requires lo <= |content| && Disjoint(cuts, lo, |content|)
  {
    if cuts == [] then content[lo..]
    else content[lo..cuts[0].0] + Without(content, cuts[1..], cuts[0].1)
  }

  /** An extent that holds a tool call the parser accepts. */
  ghost predicate Accepted<C>(parse: Parser<C>, content: string, c: (nat, nat)) {
    && c.0 < c.1 <= |content| && Extract(content, c.0) == Some(c)
    && exists id :: parse(content[c.0..c.1], id).Some?
  }

  /** What the parser makes of the extents, in order, each with the id that follows the calls before it. */
  ghost function CallsOf<C>(parse: Parser<C>, content: string, cuts: seq<(nat, nat)>, id: nat): Option<seq<C>> {
    if cuts == [] then Some([])
    else if !(cuts[0].0 <= cuts[0].1 <= |content|) then None
    else
      match parse(content[cuts[0].0..cuts[0].1], id)
      case None => None
      case Some(calls) =>
        match CallsOf(parse, content, cuts[1..], id + |calls|)
        case None => None
        case Some(more) => Some(calls + more)
  }

  /**
   What the loop keeps is the content without disjoint extents, each of them a balanced value of the
   content as it was given that the parser accepts. The calls are those the parser gives for the
   extents, in order.
   */
  lemma {:induction false} SweepRemoves<C>(parse: Parser<C>, content: string, at: nat, id: nat)
    requires at <= |content|
    ensures var cuts := Cuts(parse, content[at..], id, at);
            && Disjoint(cuts, at, |content|)
            && Sweep(parse, content[at..], id).0 == Without(content, cuts, at)
            && (forall c | c in cuts :: Accepted(parse, content, c))
            && CallsOf(parse, content, cuts, id) == Some(Sweep(parse, content[at..], id).1)
  {
    hide Sweep, Cuts, CallsOf, Accepted, Without, Disjoint;
    SweepCuts(parse, content, at, id);
    SweepCalls(parse, content, at, id);
  }

  /** One turn of the sweep, in terms of the whole content. */
  lemma SweepAt<C>(parse: Parser<C>, content: string, at: nat, id: nat)
    requires at < |content|
    ensures match CallAt(parse, content[at..], id)
            case None =>
              var r := Sweep(parse, content[at + 1..], id);
              && Cuts(parse, content[at..], id, at) == Cuts(parse, content[at + 1..], id, at + 1)
              && Sweep(parse, content[at..], id) == ([content[at]] + r.0, r.1)
            case Some((n, calls)) =>
              0 < n <= |content| - at &&
              var r := Sweep(parse, content[at + n..], id + |calls|);
              && Extract(content, at) == Some((at, at + n)) && parse(content[at..at + n], id) == Some(calls)
              && Cuts(parse, content[at..], id, at) == [(at, at + n)] + Cuts(parse, content[at + n..], id + |calls|, at + n)
              && Sweep(parse, content[at..], id) == (r.0, calls + r.1)
  {
    hide Extract, CallAt;
    var s := content[at..];
    CallHere(parse, content, at, id);
    if IsOpen(content[at]) { ExtractShift(content, at); }
    match CallAt(parse, s, id)
    case None => assert s[1..] == content[at + 1..];
    case Some((n, calls)) => assert s[n..] == content[at + n..];
  }

  lemma SweepNothing<C>(parse: Parser<C>, content: string, id: nat)
    ensures var at := |content|;
            && content[at..] == "" && Cuts(parse, "", id, at) == [] && Sweep(parse, "", id) == ("", [])
            && Disjoint([], at, at) && Without(content, [], at) == "" && CallsOf(parse, content, [], id) == Some([])
  {
  }

  lemma {:induction false} SweepCalls<C>(parse: Parser<C>, content: string, at: nat, id: nat)
    requires at <= |content|
    ensures CallsOf(parse, content, Cuts(parse, content[at..], id, at), id) == Some(Sweep(parse, content[at..], id).1)
    decreases |content| - at
  {
    hide *;
    if at == |content| {
      SweepNothing(parse, content, id);
    } else {
      SweepAt(parse, content, at, id);
      match CallAt(parse, content[at..], id)
      case None => SweepCalls(parse, content, at + 1, id);
      case Some((n, calls)) =>
        SweepCalls(parse, content, at + n, id + |calls|);
        var rest := Cuts(parse, content[at + n..], id + |calls|, at + n);
        assert ([(at, at + n)] + rest)[1..] == rest;
        CallsFirst(parse, content, [(at, at + n)] + rest, id, calls, Sweep(parse, content[at + n..], id + |calls|).1);
    }
  }

  lemma CallsFirst<C>(parse: Parser<C>, content: string, cuts: seq<(nat, nat)>, id: nat, calls: seq<C>, more: seq<C>)
    requires cuts != [] && cuts[0].0 <= cuts[0].1 <= |content| && parse(content[cuts[0].0..cuts[0].1], id) == Some(calls)
    requires CallsOf(parse, content, cuts[1..], id + |calls|) == Some(more)
    ensures CallsOf(parse, content, cuts, id) == Some(calls + more)
  {
  }

  lemma {:induction false} SweepCuts<C>(parse: Parser<C>, content: string, at: nat, id: nat)
    requires at <= |content|
    ensures var cuts := Cuts(parse, content[at..], id, at);
            && Disjoint(cuts, at, |content|)
            && Sweep(parse, content[at..], id).0 == Without(content, cuts, at)
            && (forall c | c in cuts :: Accepted(parse, content, c))
    decreases |content| - at
  {
    hide *;
    if at == |content| {
      SweepNothing(parse, content, id);
    } else {
      SweepAt(parse, content, at, id);
      match CallAt(parse, content[at..], id)
      case None =>
        SweepCuts(parse, content, at + 1, id);
        WithoutOne(content, Cuts(parse, content[at..], id, at), at);
      case Some((n, calls)) =>
        SweepCuts(parse, content, at + n, id + |calls|);
        IsAccepted(parse, content, at, at + n, id);
        var rest := Cuts(parse, content[at + n..], id + |calls|, at + n);
        assert ([(at, at + n)] + rest)[1..] == rest;
        WithoutFirst(content, [(at, at + n)] + rest, at, at + n);
    }
  }

  lemma IsAccepted<C>(parse: Parser<C>, content: string, i: nat, end: nat, id: nat)
    requires i < end <= |content| && Extract(content, i) == Some((i, end)) && parse(content[i..end], id).Some?
    ensures Accepted(parse, content, (i, end))
  {
  }

  lemma WithoutFirst(content: string, cuts: seq<(nat, nat)>, at: nat, end: nat)
    requires at < end <= |content| && cuts != [] && cuts[0] == (at, end) && Disjoint(cuts[1..], end, |content|)
    ensures Disjoint(cuts, at, |content|) && Without(content, cuts, at) == Without(content, cuts[1..], end)
  {
    var r := Without(content, cuts[1..], end);
    assert content[at..at] + r == r;
  }

  lemma WithoutOne(content: string, cuts: seq<(nat, nat)>, at: nat)
    requires at < |content| && Disjoint(cuts, at + 1, |content|)
    ensures Disjoint(cuts, at, |content|) && Without(content, cuts, at) == [content[at]] + Without(content, cuts, at + 1)
  {
    if cuts == [] {
      assert content[at..] == [content[at]] + content[at + 1..];
    } else {
      var p := cuts[0].0;
      FirstOf(content, at, p, Without(content, cuts[1..], cuts[0].1));
    }
  }

  lemma FirstOf(content: string, at: nat, p: nat, rest: string)
    requires at < p <= |content|
    ensures content[at..p] + rest == [content[at]] + (content[at + 1..p] + rest)
  {
  }

  /** Prose, a printed tool call, and any text: the loop takes exactly the call. */
  lemma {:induction false} SweepPrinted<C>(parse: Parser<C>, prose: string, v: Json, t: string, id: nat)
    requires (forall c | c in prose :: !IsOpen(c)) && Valid(v) && (v.Arr? || v.Obj?) && parse(Print(v), id).Some?
    ensures var calls := parse(Print(v), id).value;
            var r := Sweep(parse, t, id + |calls|);
            Sweep(parse, prose + Print(v) + t, id) == (prose + r.0, calls + r.1)
    decreases |prose|
  {
    hide Extract, CallAt, Print, Valid;
    var s := prose + Print(v) + t;
    var calls := parse(Print(v), id).value;
    if prose == "" {
      CallPrinted(parse, v, t, id, s);
      assert s[|Print(v)|..] == t;
      var r := Sweep(parse, t, id + |calls|);
      assert "" + r.0 == r.0;
    } else {
      assert prose[0] in prose && s[0] == prose[0];
      NoCall(parse, s, id);
      assert s[1..] == prose[1..] + Print(v) + t;
      SweepPrinted(parse, prose[1..], v, t, id);
      FirstOf(prose, 0, |prose|, Sweep(parse, t, id + |calls|).0);
      assert prose[0..|prose|] == prose && prose[1..|prose|] == prose[1..];
    }
  }

  lemma NoCall<C>(parse: Parser<C>, s: string, id: nat)
    requires s != "" && !IsOpen(s[0])
    ensures CallAt(parse, s, id) == None
  {
  }

  lemma CallPrinted<C>(parse: Parser<C>, v: Json, t: string, id: nat, s: string)
    requires Valid(v) && (v.Arr? || v.Obj?) && parse(Print(v), id).Some? && s == "" + Print(v) + t
    ensures CallAt(parse, s, id) == Some((|Print(v)|, parse(Print(v), id).value)) && s != ""
  {
    ExtractPrinted("", v, t);
    FindPrinted(v, t);
    hide Print, Valid, Extract;
    assert s[..|Print(v)|] == Print(v) && s[0] == Print(v)[0];
  }
}
