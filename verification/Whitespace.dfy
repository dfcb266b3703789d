/** NormalizeWhitespaceInPlace (pkg/nts/whitespace.go). */
module Whitespace {
  import opened Buffer

  predicate IsTrailing(c: char) {
    c == ' ' || c == '\t' || c == '\r'
  }

  function TrimRight(x: string): (r: string)
    ensures |r| <= |x| && r == x[..|r|] && (r != "" ==> !IsTrailing(r[|r| - 1]))
    ensures forall k | |r| <= k < |x| :: IsTrailing(x[k])
  {
    if x != "" && IsTrailing(x[|x| - 1]) then TrimRight(x[..|x| - 1]) else x
  }

  /** The lines of s trimmed, with at most one blank line in a row; `blanks` blank lines came before. */
  function Lines(s: string, blanks: nat): string
    decreases |s|
  {
    if s == "" then ""
    else
      var x := TrimRight(LineOf(s));
      if !HasNewline(s) then x
      else if x == "" then (if blanks == 0 then "\n" else "") + Lines(RestOf(s), blanks + 1)
      else x + "\n" + Lines(RestOf(s), 0)
  }

  function TrimEnd(t: string): (r: string)
    ensures |r| <= |t|
  {
    if |t| > 1 && t[|t| - 1] == '\n' && t[|t| - 2] == '\n' then TrimEnd(t[..|t| - 1]) else t
  }

  function Normalized(s: string): string {
    TrimEnd(Lines(s, 0))
  }

  // ---------------------------------------------------------------- normal texts

  /** Trimmed lines, no two blank ones in a row, and none at the start behind a blank line. */
  predicate Normal(t: string, blank: bool)
    decreases |t|
  {
    t == "" ||
    (&& TrimRight(LineOf(t)) == LineOf(t)
     && (HasNewline(t) ==> (LineOf(t) == "" ==> !blank) && Normal(RestOf(t), LineOf(t) == "")))
  }

  lemma TrimmedLine(s: string)
    ensures '\n' !in TrimRight(LineOf(s)) && TrimRight(TrimRight(LineOf(s))) == TrimRight(LineOf(s))
  {
    hide LineOf;
  }

  lemma NormalLine(x: string, t: string, blank: bool)
    requires '\n' !in x && TrimRight(x) == x && Normal(t, x == "") && (x == "" ==> !blank)
    ensures Normal(x + "\n" + t, blank)
  {
    JoinLine(x, t);
    hide TrimRight, LineOf, RestOf, HasNewline;
  }

  lemma NormalLast(x: string, blank: bool)
    requires '\n' !in x && TrimRight(x) == x
    ensures Normal(x, blank)
  {
    JoinLine(x, "");
    hide TrimRight, LineOf, RestOf, HasNewline;
  }

  lemma {:induction false} LinesNormal(s: string, blanks: nat)
    ensures Normal(Lines(s, blanks), blanks > 0)
    decreases |s|
  {
    hide Normal, TrimRight, LineOf, RestOf, HasNewline;
    if s == "" {
      NormalNothing(blanks > 0);
    } else {
      var x := TrimRight(LineOf(s));
      TrimmedLine(s);
      if !HasNewline(s) {
        NormalLast(x, blanks > 0);
      } else if x == "" {
        LinesNormal(RestOf(s), blanks + 1);
        var t := Lines(RestOf(s), blanks + 1);
        assert "" + t == t && "" + "\n" + t == "\n" + t;
        if blanks == 0 { NormalLine("", t, false); }
      } else {
        LinesNormal(RestOf(s), 0);
        NormalLine(x, Lines(RestOf(s), 0), blanks > 0);
      }
    }
  }

  lemma NormalNothing(blank: bool)
    ensures Normal("", blank)
  {
  }

  lemma {:induction false} LinesFixed(t: string, blanks: nat)
    requires Normal(t, blanks > 0)
    ensures Lines(t, blanks) == t
    decreases |t|
  {
    hide TrimRight, LineOf, RestOf, HasNewline;
    if t != "" {
      var x := LineOf(t);
      SplitLine(t);
      if HasNewline(t) {
        LinesFixed(RestOf(t), if x == "" then blanks + 1 else 0);
        assert x == "" ==> t == "\n" + RestOf(t);
      }
    }
  }

  lemma {:induction false} DropNewline(t: string, blank: bool)
    requires Normal(t, blank) && t != "" && t[|t| - 1] == '\n'
    ensures Normal(t[..|t| - 1], blank)
    decreases |t|
  {
    hide TrimRight, LineOf, RestOf, HasNewline;
    var x, u := LineOf(t), RestOf(t);
    SplitLine(t);
    LastLine(t);
    if u == "" {
      NormalLast(x, blank);
      assert t[..|t| - 1] == x;
    } else {
      DropNewline(u, x == "");
      NormalLine(x, u[..|u| - 1], blank);
      assert t[..|t| - 1] == x + "\n" + u[..|u| - 1];
    }
  }

  lemma LastLine(t: string)
    requires t != "" && t[|t| - 1] == '\n'
    ensures HasNewline(t) && (RestOf(t) != "" ==> RestOf(t)[|RestOf(t)| - 1] == '\n')
  {
    assert '\n' in t && t[..|t|] == t;
  }

  lemma {:induction false} TrimEndNormal(t: string)
    requires Normal(t, false)
    ensures Normal(TrimEnd(t), false) && TrimEnd(TrimEnd(t)) == TrimEnd(t)
  {
    hide Normal;
    if |t| > 1 && t[|t| - 1] == '\n' && t[|t| - 2] == '\n' {
      DropNewline(t, false);
      TrimEndNormal(t[..|t| - 1]);
    }
  }

  /** The result is normal and does not end in a blank line; doing it again changes nothing. */
  lemma NormalizedOnce(s: string)
    ensures Normal(Normalized(s), false) && Normalized(Normalized(s)) == Normalized(s)
    ensures var t := Normalized(s); !(|t| > 1 && t[|t| - 1] == '\n' && t[|t| - 2] == '\n')
  {
    hide Normal, Lines, TrimEnd;
    LinesNormal(s, 0);
    TrimEndNormal(Lines(s, 0));
    LinesFixed(Normalized(s), 0);
    TrimEndStops(Lines(s, 0));
  }

  lemma {:induction false} TrimEndStops(t: string)
    ensures var r := TrimEnd(t); !(|r| > 1 && r[|r| - 1] == '\n' && r[|r| - 2] == '\n')
  {
    if |t| > 1 && t[|t| - 1] == '\n' && t[|t| - 2] == '\n' { TrimEndStops(t[..|t| - 1]); }
  }

  // ---------------------------------------------------------------- in place

  method NormalizeWhitespaceInPlace(b: array<char>, n: nat) returns (w: nat)
    requires n <= b.Length
    modifies b
    ensures w <= n && b[..w] == Normalized(old(b[..n])) && b[n..] == old(b[n..])
  {
    w := NormalizeLines(b, n);
    ghost var s := old(b[..n]);
    hide Lines;
    while w > 1 && b[w - 1] == '\n' && b[w - 2] == '\n'
      invariant w <= n && TrimEnd(b[..w]) == Normalized(s)
    {
      assert b[..w][..w - 1] == b[..w - 1];
      w := w - 1;
    }
  }

  ghost predicate Doing(b: string, s: string, w: nat, r: nat, blanks: nat) {
    Reading(b, s, w, r) && b[..w] + Lines(s[r..], blanks) == Lines(s, 0)
  }

  method NormalizeLines(b: array<char>, n: nat) returns (w: nat)
    requires n <= b.Length
    modifies b
    ensures w <= n && b[..w] == Lines(old(b[..n]), 0) && b[n..] == old(b[n..])
  {
    ghost var s, rest := b[..n], b[n..];
    DoingStart(b[..], s);
    assert b[..][n..] == b[n..];
    hide *;
    w := 0;
    var r, blanks := 0, 0;
    while r < n
      invariant r <= n && |s| == n && b[n..] == rest && Doing(b[..], s, w, r, blanks)
      decreases n - r
    {
      w, r, blanks := NormalizeLine(b, n, w, r, blanks, s);
    }
    DoingDone(b[..], s, w, r, blanks);
    assert b[..w] == b[..][..w];
  }

  lemma DoingStart(b: string, s: string)
    requires |s| <= |b| && b[..|s|] == s
    ensures Doing(b, s, 0, 0, 0)
  {
    assert s[0..] == s;
    assert b[..0] + Lines(s, 0) == Lines(s, 0);
  }

  lemma DoingDone(b: string, s: string, w: nat, r: nat, blanks: nat)
    requires Doing(b, s, w, r, blanks) && r >= |s|
    ensures w <= |s| <= |b| && b[..w] == Lines(s, 0)
  {
    assert b[..w] + "" == b[..w];
  }

  /** One line. */
  method NormalizeLine(b: array<char>, n: nat, w0: nat, r0: nat, blanks0: nat, ghost s: string)
    returns (w: nat, r: nat, blanks: nat)
    requires n == |s| <= b.Length && r0 < n && Doing(b[..], s, w0, r0, blanks0)
    modifies b
    ensures r0 < r <= n && b[n..] == old(b[n..]) && Doing(b[..], s, w, r, blanks)
  {
    hide *;
    ghost var was := b[..];
    DoingReads(was, s, w0, r0, blanks0);
    assert b[r0..n] == was[r0..n];
    var idx := Index(b, r0, n, '\n');
    ChunkIs(was, s, w0, r0, idx);
    assert b[r0..idx] == was[r0..idx];
    r := if idx < n then idx + 1 else n;
    var lineEnd := TrimLine(b, r0, idx);
    LineParts(s, r0, idx, b[r0..idx], b[r0..lineEnd], blanks0);
    if lineEnd == r0 {
      blanks := blanks0 + 1;
      w := BlankLine(b, w0, r0, r, blanks <= 1 && idx < n, s, blanks0);
    } else {
      blanks := 0;
      w := TextLine(b, w0, r0, lineEnd, r, idx < n, s, blanks0);
    }
  }

  method BlankLine(b: array<char>, w0: nat, r0: nat, r: nat, write: bool, ghost s: string, ghost blanks: nat) returns (w: nat)
    requires |s| <= b.Length && r0 < r <= |s| && Doing(b[..], s, w0, r0, blanks)
    requires Lines(s[r0..], blanks) == (if write then "\n" else "") + Lines(s[r..], blanks + 1)
    modifies b
    ensures b[|s|..] == old(b[|s|..]) && Doing(b[..], s, w, r, blanks + 1)
  {
    hide *;
    ghost var was := b[..];
    DoingReads(was, s, w0, r0, blanks);
    ReadingSkip(was, s, w0, r0, r);
    w := w0;
    if write {
      WriteByte(b, w, r, '\n', s);
      w := w + 1;
    }
    DoingNext(was, b[..], s, w0, r0, blanks, w, r, blanks + 1, if write then "\n" else "");
  }

  method TextLine(b: array<char>, w0: nat, r0: nat, lineEnd: nat, r: nat, hasNewline: bool, ghost s: string, ghost blanks: nat)
    returns (w: nat)
    requires |s| <= b.Length && r0 < lineEnd <= r <= |s| && (hasNewline ==> lineEnd < r) && Doing(b[..], s, w0, r0, blanks)
    requires Lines(s[r0..], blanks) == s[r0..lineEnd] + (if hasNewline then "\n" else "") + Lines(s[r..], 0)
    modifies b
    ensures b[|s|..] == old(b[|s|..]) && Doing(b[..], s, w, r, 0)
  {
    hide *;
    ghost var was := b[..];
    DoingReads(was, s, w0, r0, blanks);
    CopyChunk(b, w0, r0, lineEnd - r0, s);
    w := w0 + (lineEnd - r0);
    ReadingSkip(b[..], s, w, lineEnd, r);
    if hasNewline {
      WriteByte(b, w, r, '\n', s);
      w := w + 1;
      AssocText(was[..w0], s[r0..lineEnd], "\n");
    }
    DoingNext(was, b[..], s, w0, r0, blanks, w, r, 0, s[r0..lineEnd] + if hasNewline then "\n" else "");
  }

  /** A line was read, and `x` was written for it. */
  lemma DoingNext(was: string, b: string, s: string, w0: nat, r0: nat, blanks0: nat, w: nat, r: nat, blanks: nat, x: string)
    requires Doing(was, s, w0, r0, blanks0) && r0 <= r <= |s| && w0 <= |was|
    requires Lines(s[r0..], blanks0) == x + Lines(s[r..], blanks)
    requires Reading(b, s, w, r) && w <= |b| && b[..w] == was[..w0] + x
    ensures Doing(b, s, w, r, blanks)
  {
    hide Lines, Reading;
    AssocText(was[..w0], x, Lines(s[r..], blanks));
  }

  /** The end of the line without trailing blanks. */
  method TrimLine(b: array<char>, lineStart: nat, end: nat) returns (lineEnd: nat)
    requires lineStart <= end <= b.Length
    ensures lineStart <= lineEnd <= end && b[lineStart..lineEnd] == TrimRight(b[lineStart..end])
  {
    lineEnd := end;
    while lineEnd > lineStart && (b[lineEnd - 1] == ' ' || b[lineEnd - 1] == '\t' || b[lineEnd - 1] == '\r')
      invariant lineStart <= lineEnd <= end && TrimRight(b[lineStart..lineEnd]) == TrimRight(b[lineStart..end])
    {
      assert b[lineStart..lineEnd][..lineEnd - lineStart - 1] == b[lineStart..lineEnd - 1];
      lineEnd := lineEnd - 1;
    }
  }

  lemma DoingReads(b: string, s: string, w: nat, r: nat, blanks: nat)
    requires Doing(b, s, w, r, blanks)
    ensures Reading(b, s, w, r) && w <= r <= |s| <= |b| && b[r..|s|] == s[r..]
  {
  }

  /** What one line contributes, in terms of positions in the text. */
  lemma LineParts(s: string, r0: nat, idx: nat, line: string, x: string, blanks: nat)
    requires r0 < |s| && idx == r0 + IndexOf(s[r0..], '\n')
    requires r0 <= idx <= |s| && line == s[r0..idx] && x == TrimRight(line)
    ensures var r := if idx < |s| then idx + 1 else |s|;
            && (x == "" ==> Lines(s[r0..], blanks) == (if blanks == 0 && idx < |s| then "\n" else "") + Lines(s[r..], blanks + 1))
            && (x != "" ==> Lines(s[r0..], blanks) == x + (if idx < |s| then "\n" else "") + Lines(s[r..], 0))
    ensures r0 + |x| <= idx && x == s[r0..r0 + |x|]
  {
    var t := s[r0..];
    LineAt(s, r0, idx);
    assert s[r0..r0 + |x|] == s[r0..idx][..|x|];
    hide *;
    LinesStep(t, blanks);
    LinesNothing(0);
    LinesNothing(blanks + 1);
    assert x + "" == x && "" + "" == "" && x + "" + "" == x;
  }

  lemma LinesStep(t: string, blanks: nat)
    requires t != ""
    ensures var x := TrimRight(LineOf(t));
            && (!HasNewline(t) ==> Lines(t, blanks) == x)
            && (HasNewline(t) && x == "" ==> Lines(t, blanks) == (if blanks == 0 then "\n" else "") + Lines(RestOf(t), blanks + 1))
            && (HasNewline(t) && x != "" ==> Lines(t, blanks) == x + "\n" + Lines(RestOf(t), 0))
  {
    hide TrimRight, LineOf, RestOf, HasNewline;
  }

  lemma LinesNothing(blanks: nat)
    ensures Lines("", blanks) == ""
  {
  }
}
