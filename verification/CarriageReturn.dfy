/** ResolveCarriageReturnsInPlace (pkg/nts/cr.go). */
module CarriageReturn {
  import opened Buffer

  /** The text with `line` already on the current line. A lone carriage return empties the line. */
  function Resolve(line: string, s: string): string
    decreases |s|
  {
    if s == "" then line
    else if s[0] == '\r' then
      if |s| > 1 && s[1] == '\n' then line + "\n" + Resolve("", s[2..]) else Resolve("", s[1..])
    else if s[0] == '\n' then line + "\n" + Resolve("", s[1..])
    else Resolve(line + [s[0]], s[1..])
  }

  /** No carriage return is left. */
  lemma {:induction false} ResolveLeavesNone(line: string, s: string)
    requires '\r' !in line
    ensures '\r' !in Resolve(line, s)
    decreases |s|
  {
    if s != "" {
      if s[0] == '\r' && |s| > 1 && s[1] == '\n' {
        ResolveLeavesNone("", s[2..]);
      } else if s[0] == '\r' || s[0] == '\n' {
        ResolveLeavesNone("", s[1..]);
      } else {
        ResolveLeavesNone(line + [s[0]], s[1..]);
      }
    }
  }

  /** A text without carriage returns is left alone. */
  lemma {:induction false} ResolvePlain(line: string, s: string)
    requires '\r' !in s
    ensures Resolve(line, s) == line + s
    decreases |s|
  {
    if s != "" {
      assert s == [s[0]] + s[1..];
      if s[0] == '\n' {
        ResolvePlain("", s[1..]);
        assert line + "\n" + ("" + s[1..]) == line + s;
      } else {
        ResolvePlain(line + [s[0]], s[1..]);
        assert line + [s[0]] + s[1..] == line + s;
      }
    } else {
      assert line + s == line;
    }
  }

  lemma ResolveTwice(s: string)
    ensures Resolve("", Resolve("", s)) == Resolve("", s)
  {
    ResolveLeavesNone("", s);
    ResolvePlain("", Resolve("", s));
    assert "" + Resolve("", s) == Resolve("", s);
  }

  /** What a line keeps: everything behind its last carriage return. */
  function Kept(line: string, x: string): string
    decreases |x|
  {
    if x == "" then line
    else if x[0] == '\r' then Kept("", x[1..])
    else Kept(line + [x[0]], x[1..])
  }

  /**
   A line that ends in a newline, or in a carriage return and a newline, becomes what follows its last
   other carriage return. A terminal would keep the longer text under it; this pass does not.
   */
  lemma {:induction false} LineKept(line: string, x: string, crlf: bool, t: string)
    requires '\n' !in x
    ensures Resolve(line, x + (if crlf then "\r\n" else "\n") + t) ==
            (if crlf || x == "" || x[|x| - 1] != '\r' then Kept(line, x) else Kept(line, x[..|x| - 1])) + "\n" + Resolve("", t)
    decreases |x|
  {
    var e := if crlf then "\r\n" else "\n";
    var s := x + e + t;
    if x == "" {
      assert s == e + t;
      assert crlf ==> s[2..] == t;
      assert !crlf ==> s[1..] == t;
    } else {
      assert s[1..] == x[1..] + e + t && s[0] == x[0];
      if |x| == 1 && x[0] == '\r' && !crlf {
        assert s[1] == '\n' && s[2..] == t && x[..0] == "";
      } else {
        LineKept(if x[0] == '\r' then "" else line + [x[0]], x[1..], crlf, t);
        assert |x| > 1 ==> x[1..][..|x| - 2] == x[..|x| - 1][1..];
        assert |x| > 1 ==> s[1] == x[1];
        assert |x| == 1 && x[0] == '\r' && crlf ==> s[1] == '\r';
      }
    }
  }

  /** A last line without a newline keeps what follows its last carriage return, even when that is its last byte. */
  lemma {:induction false} LastLineKept(line: string, x: string)
    requires '\n' !in x
    ensures Resolve(line, x) == Kept(line, x)
    decreases |x|
  {
    if x != "" {
      LastLineKept(if x[0] == '\r' then "" else line + [x[0]], x[1..]);
    }
  }

  lemma {:induction false} ResolveChunk(line: string, x: string, t: string)
    requires '\r' !in x && '\n' !in x
    ensures Resolve(line, x + t) == Resolve(line + x, t)
    decreases |x|
  {
    if x == "" {
      assert x + t == t && line + x == line;
    } else {
      assert (x + t)[1..] == x[1..] + t && (x + t)[0] == x[0];
      ResolveChunk(line + [x[0]], x[1..], t);
      assert line + [x[0]] + x[1..] == line + x;
    }
  }

  lemma ResolveFirst(line: string, s: string)
    requires s != "" && s[0] != '\r'
    ensures Resolve(line, s) == if s[0] == '\n' then line + "\n" + Resolve("", s[1..]) else Resolve(line + [s[0]], s[1..])
  {
  }

  /** Before the first carriage return nothing happens; `ls` is where its line starts. */
  lemma {:induction false} ResolveStart(line: string, s: string, ls: nat, i: nat)
    requires ls <= i <= |s| && '\r' !in s[..i] && '\n' !in s[ls..i] && (ls > 0 ==> s[ls - 1] == '\n')
    ensures ls == 0 ==> Resolve(line, s) == Resolve(line + s[..i], s[i..])
    ensures ls > 0 ==> Resolve(line, s) == line + s[..ls] + Resolve(s[ls..i], s[i..])
    decreases i
  {
    hide Resolve;
    if ls == 0 {
      ResolveChunk(line, s[..i], s[i..]);
      assert s == s[..i] + s[i..];
    } else {
      var t := s[1..];
      assert s[0] == s[..i][0] && t[..i - 1] == s[..i][1..] && t[ls - 1..i - 1] == s[ls..i] && t[i - 1..] == s[i..];
      ResolveFirst(line, s);
      var u := Resolve(s[ls..i], s[i..]);
      if s[0] == '\n' {
        ResolveStart("", t, ls - 1, i - 1);
        StartText(line, s, ls, u);
        if ls == 1 { assert "" + t[..i - 1] == s[ls..i]; }
      } else {
        ResolveStart(line + [s[0]], t, ls - 1, i - 1);
        StartText(line, s, ls, u);
      }
    }
  }

  lemma StartText(line: string, s: string, ls: nat, u: string)
    requires 0 < ls <= |s|
    ensures s[0] == '\n' && ls == 1 ==> line + "\n" + u == line + s[..ls] + u
    ensures s[0] == '\n' ==> line + "\n" + ("" + s[1..][..ls - 1] + u) == line + s[..ls] + u
    ensures line + [s[0]] + s[1..][..ls - 1] + u == line + s[..ls] + u
  {
    assert s[..ls] == [s[0]] + s[1..][..ls - 1];
    assert s[0] == '\n' && ls == 1 ==> s[..1] == "\n";
  }

  /** The end of the last line feed below i. */
  method LineStart(b: array<char>, i: nat, ghost s: string) returns (ls: nat)
    requires i <= |s| <= b.Length && b[..|s|] == s
    ensures ls <= i && '\n' !in s[ls..i] && (ls > 0 ==> s[ls - 1] == '\n')
  {
    ls := i;
    while ls > 0 && b[ls - 1] != '\n'
      invariant ls <= i && '\n' !in s[ls..i]
    {
      assert b[ls - 1] == s[ls - 1];
      assert s[ls - 1..i] == [s[ls - 1]] + s[ls..i];
      ls := ls - 1;
    }
    assert ls > 0 ==> b[ls - 1] == s[ls - 1];
  }

  /** What is finished, and what the rest will become. */
  ghost predicate Doing(b: string, s: string, lineStart: nat, w: nat, r: nat) {
    && Reading(b, s, w, r) && lineStart <= w
    && b[..lineStart] + Resolve(b[lineStart..w], s[r..]) == Resolve("", s)
  }

  method ResolveCarriageReturnsInPlace(b: array<char>, n: nat) returns (w: nat)
    requires n <= b.Length
    modifies b
    ensures w <= n && b[..w] == Resolve("", old(b[..n])) && b[n..] == old(b[n..])
  {
    ghost var s, rest := b[..n], b[n..];
    var firstCR := Index(b, 0, n, '\r');
    assert s[..firstCR] == b[0..firstCR];
    if firstCR == n {
      ResolvePlain("", s);
      assert "" + s == s && s[..n] == s;
      return n;
    }
    var lineStart := LineStart(b, firstCR, s);
    DoingStart(b[..], s, lineStart, firstCR);
    assert b[..][n..] == b[n..];
    hide *;
    w := firstCR;
    var r := firstCR;
    while r < n
      invariant r <= n && |s| == n && b[n..] == rest && Doing(b[..], s, lineStart, w, r)
      decreases n - r
    {
      lineStart, w, r := ResolveOne(b, n, lineStart, w, r, s);
    }
    DoingDone(b[..], s, lineStart, w, r);
    assert b[..w] == b[..][..w];
  }

  lemma DoingStart(b: string, s: string, ls: nat, i: nat)
    requires |s| <= |b| && b[..|s|] == s && ls <= i <= |s|
    requires '\r' !in s[..i] && '\n' !in s[ls..i] && (ls > 0 ==> s[ls - 1] == '\n')
    ensures Doing(b, s, ls, i, i)
  {
    ReadingStart(b, s, i);
    ResolveStart("", s, ls, i);
    assert b[ls..i] == b[..|s|][ls..i] && b[..ls] == b[..|s|][..ls];
    assert "" + s[..i] == s[..i] && "" + s[..ls] == s[..ls];
    assert ls == 0 ==> s[..ls] + Resolve(s[ls..i], s[i..]) == Resolve(s[..i], s[i..]);
  }

  lemma DoingDone(b: string, s: string, ls: nat, w: nat, r: nat)
    requires Doing(b, s, ls, w, r) && r >= |s|
    ensures w <= |s| <= |b| && b[..w] == Resolve("", s)
  {
    assert b[..w] == b[..ls] + b[ls..w];
  }

  /** One turn of the loop. */
  method ResolveOne(b: array<char>, n: nat, lineStart0: nat, w0: nat, r0: nat, ghost s: string)
    returns (lineStart: nat, w: nat, r: nat)
    requires n == |s| <= b.Length && r0 < n && Doing(b[..], s, lineStart0, w0, r0)
    modifies b
    ensures r0 < r <= n && b[n..] == old(b[n..]) && Doing(b[..], s, lineStart, w, r)
  {
    hide *;
    DoingReads(b[..], s, lineStart0, w0, r0);
    ghost var was := b[..];
    lineStart, w, r := lineStart0, w0, r0;
    if b[r] == '\r' {
      if r + 1 < n && b[r + 1] == '\n' {
        ReadingSkip(b[..], s, w, r, r + 2);
        WriteByte(b, w, r + 2, '\n', s);
        LineDone(was, b[..], s, lineStart, w, r, r + 2);
        w, r := w + 1, r + 2;
        lineStart := w;
      } else {
        LineDropped(was, s, lineStart, w, r);
        w, r := lineStart, r + 1;
      }
    } else if b[r] == '\n' {
      ReadingSkip(b[..], s, w, r, r + 1);
      WriteByte(b, w, r + 1, '\n', s);
      LineDone(was, b[..], s, lineStart, w, r, r + 1);
      w, r := w + 1, r + 1;
      lineStart := w;
    } else {
      var next := IndexControl(b, r, n);
      ChunkIs(was, s, w, r, next);
      CopyChunk(b, w, r, next - r, s);
      LineLonger(was, b[..], s, lineStart, w, r, next);
      w, r := w + (next - r), next;
    }
  }

  /** bytes.IndexAny for the two control characters, with n for none. */
  method IndexControl(b: array<char>, from: nat, n: nat) returns (i: nat)
    requires from <= n <= b.Length
    ensures from <= i <= n && '\r' !in b[..][from..i] && '\n' !in b[..][from..i]
    ensures from < n && b[from] != '\r' && b[from] != '\n' ==> from < i
  {
    i := from;
    while i < n && b[i] != '\r' && b[i] != '\n'
      invariant from <= i <= n && '\r' !in b[..][from..i] && '\n' !in b[..][from..i]
    {
      assert b[..][from..i + 1] == b[..][from..i] + [b[i]];
      i := i + 1;
    }
  }

  lemma DoingReads(b: string, s: string, ls: nat, w: nat, r: nat)
    requires Doing(b, s, ls, w, r) && r < |s|
    ensures Reading(b, s, w, r) && ls <= w <= r < |s| <= |b| && b[r] == s[r] && (r + 1 < |s| ==> b[r + 1] == s[r + 1])
  {
    ReadingBounds(b, s, w, r);
    if r + 1 < |s| {
      ReadingSkip(b, s, w, r, r + 1);
      ReadingBounds(b, s, w, r + 1);
    }
  }

  lemma LineDone(was: string, b: string, s: string, ls: nat, w: nat, r: nat, r': nat)
    requires Doing(was, s, ls, w, r) && r < |s| && r' <= |s|
    requires (s[r] == '\n' && r' == r + 1) || (s[r] == '\r' && r + 1 < |s| && s[r + 1] == '\n' && r' == r + 2)
    requires Reading(b, s, w + 1, r') && w <= |was| && b[..w + 1] == was[..w] + ['\n']
    ensures Doing(b, s, w + 1, w + 1, r')
  {
    var t := s[r..];
    assert t[0] == s[r] && t[r' - r..] == s[r'..] && (r + 1 < |s| ==> t[1] == s[r + 1]);
    assert was[..w] == was[..ls] + was[ls..w];
    var line := was[ls..w];
    assert Resolve(line, t) == line + "\n" + Resolve("", s[r'..]);
    hide Resolve;
    assert b[w + 1..w + 1] == "";
    assert was[..ls] + (line + "\n" + Resolve("", s[r'..])) == (was[..w] + ['\n']) + Resolve("", s[r'..]);
  }

  lemma LineDropped(b: string, s: string, ls: nat, w: nat, r: nat)
    requires Doing(b, s, ls, w, r) && r < |s| && s[r] == '\r' && !(r + 1 < |s| && s[r + 1] == '\n')
    ensures Doing(b, s, ls, ls, r + 1)
  {
    var t := s[r..];
    assert t[0] == s[r] && t[1..] == s[r + 1..] && (|t| > 1 ==> t[1] == s[r + 1]);
    ReadingSkip(b, s, w, r, r + 1);
    assert b[ls..ls] == "";
  }

  lemma LineLonger(was: string, b: string, s: string, ls: nat, w: nat, r: nat, r': nat)
    requires Doing(was, s, ls, w, r) && r <= r' <= |s| <= |was|
    requires was[r..r'] == s[r..r'] && s[r..] == s[r..r'] + s[r'..]
    requires '\r' !in was[r..r'] && '\n' !in was[r..r']
    requires Reading(b, s, w + (r' - r), r') && w <= |was| && b[..w + (r' - r)] == was[..w] + s[r..r']
    ensures Doing(b, s, ls, w + (r' - r), r')
  {
    var w' := w + (r' - r);
    var line := was[ls..w];
    ResolveChunk(line, s[r..r'], s[r'..]);
    hide Resolve;
    var p := b[..w'];
    assert b[..ls] == p[..ls] && b[ls..w'] == p[ls..w'];
    assert p[..ls] == was[..ls] && p[ls..] == line + s[r..r'];
  }
}
