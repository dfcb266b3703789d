/** StripANSIInPlace (pkg/nts/ansi.go). */
module Ansi {
  import opened Buffer

  const ESC: char := 0x1b as char
  const BEL: char := 0x07 as char

  predicate IsFinal(c: char) {
    0x40 <= c as int <= 0x7E
  }

  /** The rest behind a control sequence whose parameters start here. */
  function SkipCsi(s: string): (r: string)
    ensures |r| <= |s|
  {
    if s == "" then "" else if IsFinal(s[0]) then s[1..] else SkipCsi(s[1..])
  }

  /** The rest behind an operating system command, up to BEL or ESC \. */
  function SkipOsc(s: string): (r: string)
    ensures |r| <= |s|
  {
    if s == "" then ""
    else if s[0] == BEL then s[1..]
    else if s[0] == ESC && |s| > 1 && s[1] == '\\' then s[2..]
    else SkipOsc(s[1..])
  }

  predicate IsCharset(c: char) {
    c == '(' || c == ')' || c == '*' || c == '+'
  }

  /** The rest behind the escape sequence whose ESC was just read. */
  function SkipEscape(s: string): (r: string)
    ensures |r| <= |s|
  {
    if s == "" then ""
    else if s[0] == '[' then SkipCsi(s[1..])
    else if s[0] == ']' then SkipOsc(s[1..])
    else if IsCharset(s[0]) then (if |s| > 1 then s[2..] else "")
    else s[1..]
  }

  /** The text without escape sequences. */
  function Strip(s: string): (r: string)
    ensures |r| <= |s|
    decreases |s|
  {
    if s == "" then ""
    else if s[0] == ESC then Strip(SkipEscape(s[1..]))
    else [s[0]] + Strip(s[1..])
  }

  lemma {:induction false} StripPlain(x: string, t: string)
    requires ESC !in x
    ensures Strip(x + t) == x + Strip(t)
  {
    hide Strip;
    if x == "" {
      assert x + t == t;
    } else {
      StripFirst(x + t);
      StripPlain(x[1..], t);
      HeadTail(x, t, Strip(t));
    }
  }

  lemma StripFirst(s: string)
    requires s != "" && s[0] != ESC
    ensures Strip(s) == [s[0]] + Strip(s[1..])
  {
  }

  lemma HeadTail(x: string, t: string, u: string)
    requires x != ""
    ensures (x + t)[1..] == x[1..] + t && (x + t)[0] == x[0] && [x[0]] + (x[1..] + u) == x + u
  {
  }

  /** No escape byte is left, and a text without one is left alone. */
  lemma {:induction false} StripLeavesNone(s: string)
    ensures ESC !in Strip(s)
    ensures Strip(s) == s <==> ESC !in s
    decreases |s|
  {
    if s != "" {
      StripLeavesNone(if s[0] == ESC then SkipEscape(s[1..]) else s[1..]);
      assert s == [s[0]] + s[1..];
    }
  }

  lemma StripTwice(s: string)
    ensures Strip(Strip(s)) == Strip(s)
  {
    StripLeavesNone(s);
    StripLeavesNone(Strip(s));
  }

  // ---------------------------------------------------------------- what an escape sequence is

  /** Parameters, and the one final byte, at the end. */
  predicate CsiBody(x: string) {
    x != "" && 0x40 <= x[|x| - 1] as int <= 0x7E && forall i | 0 <= i < |x| - 1 :: !(0x40 <= x[i] as int <= 0x7E)
  }

  predicate StringEnd(x: string, i: nat)
    requires i + 1 < |x|
  {
    x[i] == ESC && x[i + 1] == '\\'
  }

  /** A command that ends with its first BEL or ESC \. */
  predicate OscBody(x: string) {
    && x != "" && (x[|x| - 1] == BEL || (|x| >= 2 && StringEnd(x, |x| - 2)))
    && (forall i | 0 <= i < |x| - 1 :: x[i] != BEL)
    && (forall i | 0 <= i < |x| - 2 :: !StringEnd(x, i))
  }

  /** One whole escape sequence. */
  predicate IsEscape(e: string) {
    |e| >= 2 && e[0] == ESC &&
    if e[1] == '[' then CsiBody(e[2..])
    else if e[1] == ']' then OscBody(e[2..])
    else if e[1] in "()*+" then |e| == 3
    else |e| == 2
  }

  /** The beginning of one that does not end. */
  predicate Unfinished(e: string) {
    e != "" && e[0] == ESC &&
    (|e| == 1
     || (e[1] == '[' && forall i | 2 <= i < |e| :: !(0x40 <= e[i] as int <= 0x7E))
     || (e[1] == ']' && (forall i | 2 <= i < |e| :: e[i] != BEL) && forall i | 2 <= i < |e| - 1 :: !StringEnd(e, i))
     || (e[1] in "()*+" && |e| == 2))
  }

  lemma {:induction false} CsiSkips(x: string, t: string)
    requires CsiBody(x)
    ensures SkipCsi(x + t) == t
  {
    assert (x + t)[1..] == x[1..] + t;
    if |x| > 1 {
      CsiSkips(x[1..], t);
    } else {
      assert x[1..] + t == t;
    }
  }

  lemma {:induction false} OscSkips(x: string, t: string)
    requires OscBody(x)
    ensures SkipOsc(x + t) == t
  {
    assert (x + t)[1..] == x[1..] + t;
    if |x| == 1 {
      assert x[1..] + t == t;
    } else if |x| == 2 && StringEnd(x, 0) {
      assert (x + t)[2..] == t;
    } else {
      var y := x[1..];
      forall i | 0 <= i < |y| - 2 ensures !StringEnd(y, i) { assert !StringEnd(x, i + 1); }
      assert x[|x| - 1] != BEL ==> StringEnd(y, |y| - 2);
      assert |x| > 2 ==> !StringEnd(x, 0);
      OscSkips(y, t);
    }
  }

  lemma {:induction false} CsiEndless(x: string)
    requires forall i | 0 <= i < |x| :: !(0x40 <= x[i] as int <= 0x7E)
    ensures SkipCsi(x) == ""
  {
    if x != "" { CsiEndless(x[1..]); }
  }

  lemma {:induction false} OscEndless(x: string)
    requires (forall i | 0 <= i < |x| :: x[i] != BEL) && forall i | 0 <= i < |x| - 1 :: !StringEnd(x, i)
    ensures SkipOsc(x) == ""
  {
    if x != "" {
      var y := x[1..];
      forall i | 0 <= i < |y| - 1 ensures !StringEnd(y, i) { assert !StringEnd(x, i + 1); }
      assert |x| > 1 ==> !StringEnd(x, 0);
      OscEndless(y);
    }
  }

  lemma Charsets(c: char)
    ensures IsCharset(c) <==> c in "()*+"
  {
  }

  /** A whole escape sequence goes, and nothing else does. */
  lemma StripEscape(p: string, e: string, t: string)
    requires ESC !in p && IsEscape(e)
    ensures Strip(p + (e + t)) == p + Strip(t)
  {
    StripPlain(p, e + t);
    hide Strip, SkipCsi, SkipOsc, CsiBody, OscBody, IsCharset;
    var s := e + t;
    Charsets(e[1]);
    StripEsc(s);
    assert s[1..][1..] == e[2..] + t && s[1..][0] == e[1];
    if e[1] == '[' {
      CsiSkips(e[2..], t);
    } else if e[1] == ']' {
      OscSkips(e[2..], t);
    } else if e[1] in "()*+" {
      assert s[1..][2..] == t;
    } else {
      assert e[2..] + t == t;
    }
  }

  lemma StripEsc(s: string)
    requires s != "" && s[0] == ESC
    ensures Strip(s) == Strip(SkipEscape(s[1..]))
  {
    hide SkipEscape;
  }

  lemma StripEmpty()
    ensures Strip("") == ""
  {
  }

  /** So does the beginning of one at the end of the text. */
  lemma StripUnfinished(p: string, e: string)
    requires ESC !in p && Unfinished(e)
    ensures Strip(p + e) == p
  {
    StripPlain(p, e);
    hide Strip, SkipCsi, SkipOsc, IsCharset;
    StripEmpty();
    StripEsc(e);
    assert p + "" == p;
    if |e| > 1 {
      Charsets(e[1]);
      assert e[1..][1..] == e[2..];
      if e[1] == '[' {
        CsiEndless(e[2..]);
      } else if e[1] == ']' {
        forall i | 0 <= i < |e[2..]| - 1 ensures !StringEnd(e[2..], i) { assert !StringEnd(e, i + 2); }
        OscEndless(e[2..]);
      }
    }
  }

  /** Every ESC begins one or the other, so the two say what becomes of any text. */
  lemma EscapeBegins(s: string)
    requires s != "" && s[0] == ESC
    ensures Unfinished(s) || exists n :: 0 < n <= |s| && IsEscape(s[..n])
  {
    if |s| > 1 {
      if s[1] == '[' {
        var m := CsiLength(s[2..]);
        if m > 0 { assert s[..m + 2][2..] == s[2..][..m] && IsEscape(s[..m + 2]); }
      } else if s[1] == ']' {
        var m := OscLength(s[2..]);
        if m > 0 {
          assert s[..m + 2][2..] == s[2..][..m] && IsEscape(s[..m + 2]);
        } else {
          forall i | 2 <= i < |s| - 1 ensures !StringEnd(s, i) { assert !StringEnd(s[2..], i - 2); }
        }
      } else if s[1] in "()*+" {
        if |s| > 2 { assert IsEscape(s[..3]); }
      } else {
        assert IsEscape(s[..2]);
      }
    }
  }

  lemma {:induction false} CsiLength(x: string) returns (m: nat)
    ensures m <= |x| && (m > 0 ==> CsiBody(x[..m]))
    ensures m == 0 ==> forall i | 0 <= i < |x| :: !(0x40 <= x[i] as int <= 0x7E)
  {
    m := 0;
    while m < |x| && !(0x40 <= x[m] as int <= 0x7E)
      invariant m <= |x| && forall i | 0 <= i < m :: !(0x40 <= x[i] as int <= 0x7E)
    {
      m := m + 1;
    }
    m := if m < |x| then m + 1 else 0;
  }

  lemma {:induction false} OscLength(x: string) returns (m: nat)
    ensures m <= |x| && (m > 0 ==> OscBody(x[..m]))
    ensures m == 0 ==> (forall i | 0 <= i < |x| :: x[i] != BEL) && forall i | 0 <= i < |x| - 1 :: !StringEnd(x, i)
  {
    m := 0;
    while m < |x| && x[m] != BEL && !(m > 0 && StringEnd(x, m - 1))
      invariant m <= |x| && (forall i | 0 <= i < m :: x[i] != BEL) && forall i | 0 <= i < m - 1 :: !StringEnd(x, i)
    {
      m := m + 1;
    }
    if m < |x| {
      m := m + 1;
      forall i | 0 <= i < m - 2 ensures !StringEnd(x[..m], i) { assert !StringEnd(x, i); }
      assert x[m - 1] != BEL ==> StringEnd(x[..m], m - 2);
    } else {
      m := 0;
    }
  }

  // ---------------------------------------------------------------- the two cursors

  lemma {:induction false} SkipCsiSuffix(s: string, r: nat)
    requires r <= |s|
    ensures r < |s| && IsFinal(s[r]) ==> SkipCsi(s[r..]) == s[r + 1..]
    ensures r < |s| && !IsFinal(s[r]) ==> SkipCsi(s[r..]) == SkipCsi(s[r + 1..])
    ensures r == |s| ==> SkipCsi(s[r..]) == ""
  {
    if r < |s| { assert s[r..][1..] == s[r + 1..]; }
  }

  lemma SkipOscSuffix(s: string, r: nat)
    requires r <= |s|
    ensures r == |s| ==> SkipOsc(s[r..]) == ""
    ensures r < |s| && s[r] == BEL ==> SkipOsc(s[r..]) == s[r + 1..]
    ensures r < |s| && s[r] != BEL ==>
              if s[r] == ESC && r + 1 < |s| && s[r + 1] == '\\' then SkipOsc(s[r..]) == s[r + 2..]
              else SkipOsc(s[r..]) == SkipOsc(s[r + 1..])
  {
    if r < |s| {
      assert s[r..][1..] == s[r + 1..];
      if r + 1 < |s| { assert s[r..][2..] == s[r + 2..] && s[r..][1] == s[r + 1]; }
    }
  }

  /** One escape sequence; r stands on its ESC. */
  method ReadEscape(b: array<char>, r0: nat, n: nat, ghost s: string) returns (r: nat)
    requires r0 < n == |s| <= b.Length && b[r0..n] == s[r0..] && s[r0] == ESC
    ensures r0 < r <= n && s[r..] == SkipEscape(s[r0 + 1..])
  {
    assert forall k | r0 <= k < n :: b[k] == b[r0..n][k - r0] == s[k];
    r := r0 + 1;
    if r >= n { return; }
    assert s[r..][0] == s[r] && s[r..][1..] == s[r + 1..];
    if b[r] == '[' {
      r := r + 1;
      while r < n && !IsFinal(b[r])
        invariant r0 + 2 <= r <= n && SkipCsi(s[r..]) == SkipCsi(s[r0 + 2..])
      {
        SkipCsiSuffix(s, r);
        r := r + 1;
      }
      SkipCsiSuffix(s, r);
      if r < n { r := r + 1; }
    } else if b[r] == ']' {
      r := ReadOsc(b, r + 1, n, s);
    } else if IsCharset(b[r]) {
      if r + 1 < n {
        assert s[r..][2..] == s[r + 2..];
        r := r + 2;
      } else {
        r := n;
      }
    } else {
      r := r + 1;
    }
  }

  method ReadOsc(b: array<char>, r0: nat, n: nat, ghost s: string) returns (r: nat)
    requires r0 <= n == |s| <= b.Length && b[r0..n] == s[r0..]
    ensures r0 <= r <= n && s[r..] == SkipOsc(s[r0..])
  {
    assert forall k | r0 <= k < n :: b[k] == b[r0..n][k - r0] == s[k];
    r := r0;
    while r < n
      invariant r0 <= r <= n && SkipOsc(s[r..]) == SkipOsc(s[r0..])
    {
      SkipOscSuffix(s, r);
      if b[r] == BEL { return r + 1; }
      if b[r] == ESC && r + 1 < n && b[r + 1] == '\\' { return r + 2; }
      r := r + 1;
    }
    SkipOscSuffix(s, r);
  }

  method StripANSIInPlace(b: array<char>, n: nat) returns (w: nat)
    requires n <= b.Length
    modifies b
    ensures w <= n && b[..w] == Strip(old(b[..n])) && b[n..] == old(b[n..])
  {
    ghost var s := b[..n];
    var firstEsc := Index(b, 0, n, ESC);
    assert s[..firstEsc] == b[0..firstEsc] && s == s[..firstEsc] + s[firstEsc..];
    StripPlain(s[..firstEsc], s[firstEsc..]);
    if firstEsc == n {
      StripLeavesNone(s);
      return n;
    }
    w := firstEsc;
    var r := firstEsc;
    while r < n
      invariant w <= r && Reading(b[..], s, w, r) && b[..w] + Strip(s[r..]) == Strip(s) && b[n..] == old(b[n..])
      decreases n - r
    {
      assert b[r..n] == b[..][r..n] == s[r..] && s[r] == s[r..][0] == b[r];
      if b[r] == ESC {
        r := ReadEscapeAt(b, r, n, s, w);
      } else {
        w, r := CopyPlain(b, r, n, s, w);
      }
    }
    assert b[..w] + "" == b[..w];
  }

  method ReadEscapeAt(b: array<char>, r0: nat, n: nat, ghost s: string, ghost w: nat) returns (r: nat)
    requires n == |s| && r0 < n <= b.Length && Reading(b[..], s, w, r0) && s[r0] == ESC
    ensures r0 < r <= n && Reading(b[..], s, w, r) && Strip(s[r..]) == Strip(s[r0..])
  {
    assert b[r0..n] == b[..][r0..n];
    r := ReadEscape(b, r0, n, s);
    assert s[r0..][1..] == s[r0 + 1..];
    assert b[..][r..n] == b[..][r0..n][r - r0..] && s[r0..][r - r0..] == s[r..];
  }

  /** The bytes up to the next ESC move to the write cursor. */
  method CopyPlain(b: array<char>, r0: nat, n: nat, ghost s: string, w0: nat) returns (w: nat, r: nat)
    requires n == |s| && r0 < n <= b.Length && Reading(b[..], s, w0, r0) && b[r0] != ESC
    modifies b
    ensures r0 < r <= n && w - w0 == r - r0 && Reading(b[..], s, w, r)
    ensures b[..w] + Strip(s[r..]) == old(b[..w0]) + Strip(s[r0..]) && b[n..] == old(b[n..])
  {
    hide *;
    ReadingBounds(b[..], s, w0, r0);
    ghost var was := b[..w0];
    r := Index(b, r0, n, ESC);
    ChunkIs(b[..], s, w0, r0, r);
    assert b[r0..r] == b[..][r0..r];
    StripPlain(s[r0..r], s[r..]);
    AssocText(was, s[r0..r], Strip(s[r..]));
    CopyChunk(b, w0, r0, r - r0, s);
    w := w0 + (r - r0);
  }
}
