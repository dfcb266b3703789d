/** StripToolBoilerplateInPlace (pkg/nts/boilerplate.go). A text is its UTF-8 bytes, one character each. */
module Boilerplate {
  import opened Wrappers
  import opened Buffer

  const NOTICE := "<notice>Making multiple related changes in a single apply_diff is more efficient"
  const HINT := "(Use `node --trace-warnings ...` to show where the warning was created)"
  const OPEN := "<error_details>"
  const CLOSE := "</error_details>"
  const SEARCH := "Search Content:"

  predicate Contains(s: string, word: string) {
    exists i | 0 <= i <= |s| :: word <= s[i..]
  }

  predicate IsSpace(c: char) {
    c == ' ' || 9 <= c as int <= 13
  }

  /** How many bytes the white space at the start of s takes, of which Unicode has some beyond ASCII; 0 for none. */
  function SpaceLen(s: string): (n: nat)
    ensures n <= |s|
  {
    if s == "" then 0
    else if IsSpace(s[0]) then 1
    else if |s| >= 2 && s[0] as int == 0xC2 && s[1] as int in {0x85, 0xA0} then 2
    else if |s| >= 3 && s[0] as int == 0xE1 && s[1] as int == 0x9A && s[2] as int == 0x80 then 3
    else if |s| >= 3 && s[0] as int == 0xE2 && s[1] as int == 0x80
            && (0x80 <= s[2] as int <= 0x8A || s[2] as int in {0xA8, 0xA9, 0xAF}) then 3
    else if |s| >= 3 && s[0] as int == 0xE2 && s[1] as int == 0x81 && s[2] as int == 0x9F then 3
    else if |s| >= 3 && s[0] as int == 0xE3 && s[1] as int == 0x80 && s[2] as int == 0x80 then 3
    else 0
  }

  function TrimLeft(s: string): (r: string)
    ensures |r| <= |s|
    decreases |s|
  {
    if SpaceLen(s) > 0 then TrimLeft(s[SpaceLen(s)..]) else s
  }

  predicate IsNoise(line: string) {
    Contains(line, NOTICE) || Contains(line, HINT)
  }

  predicate IsSearch(line: string) {
    SEARCH <= TrimLeft(line)
  }

  /** What follows the first line that closes the error details. */
  function BehindClose(s: string): (r: Option<string>)
    ensures r.Some? ==> |r.value| < |s|
    decreases |s|
  {
    if s == "" then None
    else if Contains(LineText(s), CLOSE) then Some(RestOf(s))
    else BehindClose(RestOf(s))
  }

  predicate Inside(inDetails: bool, line: string) {
    inDetails || Contains(line, OPEN)
  }

  /** The text without notices, with the dump in error details cut out. */
  function Stripped(s: string, inDetails: bool): string
    decreases |s|
  {
    if s == "" then ""
    else
      var line := LineText(s);
      if IsNoise(line) then Stripped(RestOf(s), inDetails)
      else if Inside(inDetails, line) && IsSearch(line) then
        match BehindClose(RestOf(s))
        case None => ""
        case Some(rest) => CLOSE + "\n" + Stripped(rest, false)
      else line + Stripped(RestOf(s), Inside(inDetails, line) && !Contains(line, CLOSE))
  }

  // ---------------------------------------------------------------- properties

  lemma CloseLine(t: string)
    ensures LineText(CLOSE + "\n" + t) == CLOSE + "\n" && RestOf(CLOSE + "\n" + t) == t && CLOSE + "\n" + t != ""
    ensures !IsNoise(CLOSE + "\n") && !Contains(CLOSE + "\n", OPEN) && Contains(CLOSE + "\n", CLOSE) && !IsSearch(CLOSE + "\n")
  {
    hide LineOf, RestOf, HasNewline, Contains, IsSearch, LineText;
    var c := CLOSE + "\n";
    CloseText();
    CloseFirst(t);
    NotIn(c, OPEN, 0);
    NotSearch(c);
    CloseIn(c);
    TooShort(c, NOTICE);
    TooShort(c, HINT);
  }

  lemma CloseFirst(t: string)
    ensures LineText(CLOSE + "\n" + t) == CLOSE + "\n" && RestOf(CLOSE + "\n" + t) == t && CLOSE + "\n" + t != ""
  {
    assert '\n' !in CLOSE;
    JoinLine(CLOSE, t);
    hide LineOf, RestOf, HasNewline;
  }

  lemma CloseIn(c: string)
    requires c == CLOSE + "\n"
    ensures Contains(c, CLOSE)
  {
    assert CLOSE <= c[0..];
  }

  lemma NotSearch(c: string)
    requires c != "" && c[0] == '<'
    ensures !IsSearch(c)
  {
    assert TrimLeft(c) == c;
    assert SEARCH[0] == 'S';
  }

  lemma TooShort(s: string, word: string)
    requires |s| < |word|
    ensures !Contains(s, word)
  {
  }

  /** "<error_details>" is nowhere in "</error_details>". */
  lemma NotIn(c: string, word: string, k: nat)
    requires c == CLOSE + "\n" && word == OPEN && k == 0
    ensures !Contains(c, word)
  {
    forall i | 0 <= i <= |c| ensures !(word <= c[i..]) {
      if i <= 2 {
        if i == 0 { assert c[0..][1] == '/' && word[1] == 'e'; }
        if i == 1 { assert c[1..][0] == '/' && word[0] == '<'; }
        if i == 2 { assert c[2..][0] == 'e' && word[0] == '<'; }
      } else {
        assert |c[i..]| < |word|;
      }
    }
  }

  /** Doing it again changes nothing. */
  lemma {:induction false} StrippedOnce(s: string, inDetails: bool)
    ensures Stripped(Stripped(s, inDetails), inDetails) == Stripped(s, inDetails)
    decreases |s|
  {
    hide Contains, IsNoise, IsSearch, LineText, RestOf, HasNewline;
    if s != "" {
      var line := LineText(s);
      if IsNoise(line) {
        StrippedOnce(RestOf(s), inDetails);
      } else if Inside(inDetails, line) && IsSearch(line) {
        match BehindClose(RestOf(s))
        case None =>
        case Some(rest) =>
          var t := Stripped(rest, false);
          StrippedOnce(rest, false);
          CloseLine(t);
          StrippedClose(t, inDetails);
      } else {
        var next := Inside(inDetails, line) && !Contains(line, CLOSE);
        var t := Stripped(RestOf(s), next);
        StrippedOnce(RestOf(s), next);
        SplitLine(s);
        TextJoin(s, t);
        StrippedKept(line + t, inDetails);
      }
    }
  }

  lemma StrippedClose(t: string, inDetails: bool)
    requires Stripped(t, false) == t
    ensures Stripped(CLOSE + "\n" + t, inDetails) == CLOSE + "\n" + t
  {
    hide Contains, IsNoise, IsSearch, LineText, RestOf;
    CloseLine(t);
  }

  lemma StrippedKept(s: string, inDetails: bool)
    requires s != "" && !IsNoise(LineText(s)) && !(Inside(inDetails, LineText(s)) && IsSearch(LineText(s)))
    requires var next := Inside(inDetails, LineText(s)) && !Contains(LineText(s), CLOSE);
             Stripped(RestOf(s), next) == RestOf(s)
    ensures Stripped(s, inDetails) == s
  {
    hide Contains, IsNoise, IsSearch, LineText, RestOf;
    TextSplit(s);
  }

  /** Every line of the text. */
  ghost predicate NoNoise(s: string)
    decreases |s|
  {
    s == "" || (!IsNoise(LineText(s)) && NoNoise(RestOf(s)))
  }

  /** No line of the result carries a notice or the node hint. */
  lemma {:induction false} StrippedNoNoise(s: string, inDetails: bool)
    ensures NoNoise(Stripped(s, inDetails))
    decreases |s|
  {
    hide Contains, IsNoise, IsSearch, LineText, RestOf, HasNewline;
    if s != "" {
      var line := LineText(s);
      if IsNoise(line) {
        StrippedNoNoise(RestOf(s), inDetails);
      } else if Inside(inDetails, line) && IsSearch(line) {
        match BehindClose(RestOf(s))
        case None =>
        case Some(rest) =>
          StrippedNoNoise(rest, false);
          CloseLine(Stripped(rest, false));
      } else {
        var next := Inside(inDetails, line) && !Contains(line, CLOSE);
        StrippedNoNoise(RestOf(s), next);
        SplitLine(s);
        TextJoin(s, Stripped(RestOf(s), next));
      }
    }
  }

  /** Lines without a notice, the hint or an opened dump stay as they are. */
  lemma {:induction false} StrippedPlain(s: string)
    requires PlainLines(s)
    ensures Stripped(s, false) == s
    decreases |s|
  {
    hide Contains, IsNoise, IsSearch, LineText, RestOf;
    if s != "" {
      StrippedPlain(RestOf(s));
      TextSplit(s);
    }
  }

  ghost predicate PlainLines(s: string)
    decreases |s|
  {
    s == "" || (!IsNoise(LineText(s)) && !Contains(LineText(s), OPEN) && PlainLines(RestOf(s)))
  }

  // ---------------------------------------------------------------- in place

  ghost predicate Doing(b: string, s: string, w: nat, r: nat, inDetails: bool) {
    Reading(b, s, w, r) && b[..w] + Stripped(s[r..], inDetails) == Stripped(s, false)
  }

  method StripToolBoilerplateInPlace(b: array<char>, n: nat) returns (w: nat)
    requires n <= b.Length
    modifies b
    ensures w <= n && b[..w] == Stripped(old(b[..n]), false) && b[n..] == old(b[n..])
  {
    ghost var s, tail := b[..n], b[n..];
    DoingStart(b[..], s);
    assert b[..][n..] == b[n..] && b[..][..n] == b[..n];
    hide *;
    w := 0;
    var r, inDetails := 0, false;
    while r < n
      invariant r <= n && |s| == n && b[n..] == tail && Doing(b[..], s, w, r, inDetails)
      decreases n - r
    {
      w, r, inDetails := StripLine(b, n, w, r, inDetails, s);
    }
    DoingDone(b[..], s, w, r, inDetails);
    assert b[..w] == b[..][..w];
  }

  lemma DoingStart(b: string, s: string)
    requires |s| <= |b| && b[..|s|] == s
    ensures Doing(b, s, 0, 0, false)
  {
    assert s[0..] == s;
    assert b[..0] + Stripped(s, false) == Stripped(s, false);
  }

  lemma DoingDone(b: string, s: string, w: nat, r: nat, inDetails: bool)
    requires Doing(b, s, w, r, inDetails) && r >= |s|
    ensures w <= |s| <= |b| && b[..w] == Stripped(s, false)
  {
    hide Stripped, Reading;
    DoingReads(b, s, w, r, inDetails);
    StrippedNothing(s, r, inDetails);
    assert "" + Stripped(s[r..], inDetails) == Stripped(s[r..], inDetails);
    assert b[..w] + "" == b[..w];
  }

  lemma DoingReads(b: string, s: string, w: nat, r: nat, inDetails: bool)
    requires Doing(b, s, w, r, inDetails)
    ensures Reading(b, s, w, r) && w <= r <= |s| <= |b|
  {
  }

  /** Lines were read, and `x` was written for them. */
  lemma DoingNext(was: string, b: string, s: string, w0: nat, r0: nat, in0: bool, w: nat, r: nat, in1: bool, x: string)
    requires Doing(was, s, w0, r0, in0) && r0 <= r <= |s| && w0 <= |was|
    requires Stripped(s[r0..], in0) == x + Stripped(s[r..], in1)
    requires Reading(b, s, w, r) && w <= |b| && b[..w] == was[..w0] + x
    ensures Doing(b, s, w, r, in1)
  {
    hide Stripped, Reading;
    AssocText(was[..w0], x, Stripped(s[r..], in1));
  }

  lemma StrippedStep(s: string, inDetails: bool)
    requires s != ""
    ensures var line := LineText(s);
            && (IsNoise(line) ==> Stripped(s, inDetails) == "" + Stripped(RestOf(s), inDetails))
            && (!IsNoise(line) && Inside(inDetails, line) && IsSearch(line) ==>
                 Stripped(s, inDetails) ==
                 match BehindClose(RestOf(s)) case None => "" case Some(rest) => CLOSE + "\n" + Stripped(rest, false))
            && (!IsNoise(line) && !(Inside(inDetails, line) && IsSearch(line)) ==>
                 Stripped(s, inDetails) == line + Stripped(RestOf(s), Inside(inDetails, line) && !Contains(line, CLOSE)))
  {
    hide IsNoise, IsSearch, LineText, RestOf, Contains;
    assert "" + Stripped(RestOf(s), inDetails) == Stripped(RestOf(s), inDetails);
  }

  /** One line, or a whole dump. */
  method StripLine(b: array<char>, n: nat, w0: nat, r0: nat, in0: bool, ghost s: string) returns (w: nat, r: nat, in1: bool)
    requires n == |s| <= b.Length && r0 < n && Doing(b[..], s, w0, r0, in0)
    modifies b
    ensures r0 < r <= n && b[n..] == old(b[n..]) && Doing(b[..], s, w, r, in1)
  {
    hide *;
    ghost var was := b[..];
    DoingReads(was, s, w0, r0, in0);
    r := ReadLine(b, r0, n, s, w0);
    var line := b[r0..r];
    StrippedStep(s[r0..], in0);
    w, in1 := w0, in0;
    if IsNoise(line) {
      assert was[..w0] + "" == was[..w0];
      DoingNext(was, b[..], s, w0, r0, in0, w, r, in1, "");
    } else {
      in1 := Inside(in0, line);
      if in1 && IsSearch(line) {
        SearchLength(line);
        w, r, in1 := SkipDump(b, n, w0, r0, in0, r, in1, s);
      } else {
        if Contains(line, CLOSE) { in1 := false; }
        w := KeepLine(b, w0, r0, r, in0, in1, s);
      }
    }
  }

  method KeepLine(b: array<char>, w0: nat, r0: nat, r: nat, ghost in0: bool, ghost in1: bool, ghost s: string) returns (w: nat)
    requires |s| <= b.Length && r0 < r <= |s| && Doing(b[..], s, w0, r0, in0) && s[r..] == RestOf(s[r0..])
    requires Stripped(s[r0..], in0) == LineText(s[r0..]) + Stripped(s[r..], in1)
    modifies b
    ensures b[|s|..] == old(b[|s|..]) && Doing(b[..], s, w, r, in1)
  {
    hide *;
    ghost var was := b[..];
    DoingReads(was, s, w0, r0, in0);
    CopyChunk(b, w0, r0, r - r0, s);
    w := w0 + (r - r0);
    LineIs(s, r0, r, LineText(s[r0..]));
    DoingNext(was, b[..], s, w0, r0, in0, w, r, in1, s[r0..r]);
  }

  lemma LineIs(s: string, r0: nat, r: nat, line: string)
    requires r0 <= r <= |s| && line == LineText(s[r0..]) && s[r..] == RestOf(s[r0..])
    ensures s[r0..r] == line
  {
    TextSplit(s[r0..]);
    assert s[r0..] == s[r0..r] + s[r..];
  }

  lemma SearchLength(line: string)
    requires IsSearch(line)
    ensures |line| >= 15
  {
  }

  /** The lines up to the one that closes the details are replaced by the closing tag. */
  method SkipDump(b: array<char>, n: nat, w0: nat, r0: nat, in0: bool, r1: nat, in1: bool, ghost s: string)
    returns (w: nat, r: nat, inDetails: bool)
    requires n == |s| <= b.Length && r0 + 15 <= r1 <= n && Doing(b[..], s, w0, r0, in0) && Reading(b[..], s, w0, r1)
    requires Stripped(s[r0..], in0) == match BehindClose(s[r1..]) case None => "" case Some(rest) => CLOSE + "\n" + Stripped(rest, false)
    modifies b
    ensures r0 < r <= n && b[n..] == old(b[n..]) && Doing(b[..], s, w, r, inDetails)
  {
    hide *;
    ghost var was := b[..];
    DoingReads(was, s, w0, r0, in0);
    w, r, inDetails := w0, r1, in1;
    while r < n
      invariant r1 <= r <= n && Reading(b[..], s, w0, r) && BehindClose(s[r..]) == BehindClose(s[r1..])
      invariant b[..] == was && w == w0 && inDetails == in1
    {
      var end := ReadLine(b, r, n, s, w0);
      BehindStep(s[r..]);
      var found := Contains(b[r..end], CLOSE);
      if found { ContainsLength(b[r..end], CLOSE); }
      r := end;
      if found {
        CloseText();
        WriteText(b, w0, r, CLOSE + "\n", s);
        w, inDetails := w0 + |CLOSE + "\n"|, false;
        DoingNext(was, b[..], s, w0, r0, in0, w, r, false, CLOSE + "\n");
        return;
      }
    }
    BehindNothing(s, r);
    StrippedNothing(s, r, in1);
    assert was[..w0] + "" == was[..w0];
    DoingNext(was, b[..], s, w0, r0, in0, w, r, in1, "");
  }

  lemma CloseText()
    ensures |CLOSE| == 16 && |CLOSE + "\n"| == 17
  {
  }

  lemma ContainsLength(s: string, word: string)
    requires Contains(s, word)
    ensures |s| >= |word|
  {
  }

  lemma BehindStep(s: string)
    requires s != ""
    ensures BehindClose(s) == if Contains(LineText(s), CLOSE) then Some(RestOf(s)) else BehindClose(RestOf(s))
  {
  }

  lemma BehindNothing(s: string, r: nat)
    requires r == |s|
    ensures BehindClose(s[r..]) == None
  {
  }

  lemma StrippedNothing(s: string, r: nat, inDetails: bool)
    requires r == |s|
    ensures "" + Stripped(s[r..], inDetails) == ""
  {
  }
}
