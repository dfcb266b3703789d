/**
 What the compaction passes of pkg/nts share: copying inside one buffer, and searching.

 A buffer is an array of characters, one per byte; a slice b[..n] is the array with its length n.
 */
module Buffer {

  /** The buffer after the bytes at `from` went to `to`. */
  ghost function Moved(b: string, to: nat, from: nat, len: nat): (r: string)
    requires to <= from && from + len <= |b|
    ensures |r| == |b|
  {
    b[..to] + b[from..from + len] + b[to + len..]
  }

  lemma MovedStep(b: string, to: nat, from: nat, i: nat)
    requires to <= from && from + i < |b|
    ensures Moved(b, to, from, i)[from + i] == b[from + i]
    ensures Moved(b, to, from, i)[to + i := b[from + i]] == Moved(b, to, from, i + 1)
  {
    var m := b[..to] + b[from..from + i];
    var t := b[to + i..];
    assert t == [b[to + i]] + b[to + i + 1..];
    assert b[from..from + i + 1] == b[from..from + i] + [b[from + i]];
  }

  /** copy(b[to:], b[from:from+len]) when the bytes move to the left or stay. */
  method Move(b: array<char>, to: nat, from: nat, len: nat)
    requires to <= from && from + len <= b.Length
    modifies b
    ensures b[..] == Moved(old(b[..]), to, from, len)
  {
    ghost var was := b[..];
    var i := 0;
    assert was == Moved(was, to, from, 0);
    hide Moved;
    while i < len
      invariant 0 <= i <= len && b[..] == Moved(was, to, from, i)
    {
      MovedStep(was, to, from, i);
      ghost var now := b[..];
      assert b[from + i] == now[from + i];
      b[to + i] := b[from + i];
      assert b[..] == now[to + i := was[from + i]];
      i := i + 1;
    }
  }

  function IndexOf(s: string, c: char): (i: nat)
    ensures i <= |s| && (i < |s| ==> s[i] == c) && c !in s[..i]
  {
    if s == "" || s[0] == c then 0 else 1 + IndexOf(s[1..], c)
  }

  // The first line of a text, without its newline, and what follows it.

  function LineOf(s: string): (r: string)
    ensures |r| <= |s| && '\n' !in r
  {
    s[..IndexOf(s, '\n')]
  }

  predicate HasNewline(s: string) {
    IndexOf(s, '\n') < |s|
  }

  function RestOf(s: string): (r: string)
    ensures |r| <= |s| && (s != "" ==> |r| < |s|)
  {
    if HasNewline(s) then s[IndexOf(s, '\n') + 1..] else ""
  }

  lemma SplitLine(s: string)
    ensures HasNewline(s) ==> s == LineOf(s) + "\n" + RestOf(s)
    ensures !HasNewline(s) ==> s == LineOf(s) && RestOf(s) == ""
  {
  }

  lemma {:induction false} IndexJoined(x: string, t: string)
    requires '\n' !in x
    ensures IndexOf(x + "\n" + t, '\n') == |x| && IndexOf(x, '\n') == |x|
  {
    var s := x + "\n" + t;
    if x == "" {
      assert s == "\n" + t;
    } else {
      assert s[1..] == x[1..] + "\n" + t && s[0] == x[0];
      IndexJoined(x[1..], t);
    }
  }

  lemma JoinLine(x: string, t: string)
    requires '\n' !in x
    ensures var s := x + "\n" + t; s != "" && HasNewline(s) && LineOf(s) == x && RestOf(s) == t
    ensures !HasNewline(x) && LineOf(x) == x && RestOf(x) == ""
  {
    IndexJoined(x, t);
    var s := x + "\n" + t;
    assert s[..|x|] == x && s[|x| + 1..] == t && x[..|x|] == x;
  }

  /** bytes.IndexByte on b[from..n], with n for none. */
  method Index(b: array<char>, from: nat, n: nat, c: char) returns (i: nat)
    requires from <= n <= b.Length
    ensures from <= i <= n && (i < n ==> b[i] == c) && c !in b[from..i]
    ensures i == from + IndexOf(b[from..n], c)
  {
    i := from;
    while i < n && b[i] != c
      invariant from <= i <= n && c !in b[from..i]
      invariant from + IndexOf(b[from..n], c) == i + IndexOf(b[i..n], c)
    {
      assert b[i..n][1..] == b[i + 1..n];
      i := i + 1;
    }
  }

  /** The kept bytes, then the bytes still to be read. */
  ghost predicate Reading(b: seq<char>, s: string, w: nat, r: nat) {
    |s| <= |b| && w <= r <= |s| && b[r..|s|] == s[r..]
  }

  /** The next len bytes go to the write cursor. */
  method CopyChunk(b: array<char>, w: nat, r: nat, len: nat, ghost s: string)
    requires Reading(b[..], s, w, r) && r + len <= |s|
    modifies b
    ensures Reading(b[..], s, w + len, r + len)
    ensures b[..w + len] == old(b[..w]) + s[r..r + len] && b[|s|..] == old(b[|s|..])
  {
    ghost var was := b[..];
    ReadingBounds(was, s, w, r);
    assert was[..w] == b[..w] && was[|s|..] == b[|s|..];
    Move(b, w, r, len);
    MoveKept(was, s, w, r, len);
    hide *;
    assert b[..w + len] == b[..][..w + len] && b[|s|..] == b[..][|s|..];
  }

  lemma ReadingBounds(b: string, s: string, w: nat, r: nat)
    requires Reading(b, s, w, r)
    ensures w <= r <= |s| <= |b|
    ensures r < |s| ==> b[r] == s[r]
  {
    if r < |s| { assert b[r..|s|][0] == s[r..][0]; }
  }

  /** The reader may skip bytes. */
  lemma ReadingSkip(b: string, s: string, w: nat, r: nat, r': nat)
    requires Reading(b, s, w, r) && r <= r' <= |s|
    ensures Reading(b, s, w, r')
  {
    assert b[r'..|s|] == b[r..|s|][r' - r..] && s[r'..] == s[r..][r' - r..];
  }

  lemma MoveKept(was: string, s: string, w: nat, r: nat, len: nat)
    requires Reading(was, s, w, r) && r + len <= |s|
    ensures var b := Moved(was, w, r, len);
            Reading(b, s, w + len, r + len) && b[..w + len] == was[..w] + s[r..r + len] && b[|s|..] == was[|s|..]
  {
    var b := Moved(was, w, r, len);
    assert was[r..r + len] == was[r..|s|][..len] == s[r..][..len] == s[r..r + len];
    assert b[w + len..] == was[w + len..];
    Later(b, was, w + len, r + len, |s|);
    assert was[r + len..|s|] == was[r..|s|][len..] == s[r..][len..] == s[r + len..];
    Later(b, was, w + len, |s|, |b|);
  }

  lemma Later(a: string, b: string, i: nat, j: nat, k: nat)
    requires i <= j <= k <= |a| == |b| && a[i..] == b[i..]
    ensures a[j..k] == b[j..k] && a[j..] == b[j..]
  {
    assert a[j..] == a[i..][j - i..] && b[j..] == b[i..][j - i..];
    assert a[j..k] == a[j..][..k - j] && b[j..k] == b[j..][..k - j];
  }

  /** One byte goes to the write cursor, which stays behind the reader. */
  method WriteByte(b: array<char>, w: nat, r: nat, c: char, ghost s: string)
    requires Reading(b[..], s, w, r) && w < r
    modifies b
    ensures Reading(b[..], s, w + 1, r) && b[..w + 1] == old(b[..w]) + [c] && b[|s|..] == old(b[|s|..])
  {
    ghost var was := b[..];
    ReadingBounds(was, s, w, r);
    WriteKept(was, s, w, r, c);
    assert was[..w] == b[..w] && was[|s|..] == b[|s|..];
    b[w] := c;
    hide *;
    assert b[..] == was[w := c];
    assert b[..w + 1] == b[..][..w + 1] && b[|s|..] == b[..][|s|..];
  }

  lemma WriteKept(was: string, s: string, w: nat, r: nat, c: char)
    requires Reading(was, s, w, r) && w < r
    ensures var b := was[w := c]; Reading(b, s, w + 1, r) && b[..w + 1] == was[..w] + [c] && b[|s|..] == was[|s|..]
  {
  }

  lemma ChunkIs(b: string, s: string, w: nat, r0: nat, r: nat)
    requires Reading(b, s, w, r0) && r0 <= r <= |s|
    ensures r <= |b| && b[r0..r] == s[r0..r] && s[r0..] == s[r0..r] + s[r..]
  {
    assert b[r0..r] == b[r0..|s|][..r - r0] && s[r0..r] == s[r0..][..r - r0];
  }

  lemma ReadingStart(b: string, s: string, r: nat)
    requires |s| <= |b| && b[..|s|] == s && r <= |s|
    ensures Reading(b, s, r, r) && b[..r] == s[..r]
  {
    assert b[r..|s|] == b[..|s|][r..] && b[..r] == b[..|s|][..r];
  }

  lemma AssocText(a: string, b: string, c: string)
    ensures a + b + c == a + (b + c)
  {
  }

  /** A text goes to the write cursor, which stays behind the reader. */
  method WriteText(b: array<char>, w: nat, r: nat, text: string, ghost s: string)
    requires Reading(b[..], s, w, r) && w + |text| <= r
    modifies b
    ensures Reading(b[..], s, w + |text|, r) && b[..w + |text|] == old(b[..w]) + text && b[|s|..] == old(b[|s|..])
  {
    ghost var was, tail := b[..w], b[|s|..];
    var i := 0;
    assert text[..0] == "" && was + "" == was;
    hide *;
    while i < |text|
      invariant 0 <= i <= |text| && Reading(b[..], s, w + i, r)
      invariant b[..w + i] == was + text[..i] && b[|s|..] == tail
    {
      WriteByte(b, w + i, r, text[i], s);
      assert text[..i + 1] == text[..i] + [text[i]];
      AssocText(was, text[..i], [text[i]]);
      i := i + 1;
    }
    assert text[..i] == text;
  }

  /** The line in the buffer is the line of the text. */
  lemma LineAt(s: string, r: nat, idx: nat)
    requires r < |s| && idx == r + IndexOf(s[r..], '\n')
    ensures idx <= |s| && LineOf(s[r..]) == s[r..idx] && (HasNewline(s[r..]) <==> idx < |s|)
    ensures RestOf(s[r..]) == s[if idx < |s| then idx + 1 else |s|..]
  {
  }

  /** A line with its newline. */
  function LineText(s: string): (r: string)
    ensures |r| + |RestOf(s)| == |s|
  {
    SplitLine(s);
    if HasNewline(s) then LineOf(s) + "\n" else LineOf(s)
  }

  lemma TextSplit(s: string)
    ensures s == LineText(s) + RestOf(s)
  {
    SplitLine(s);
  }

  /** A line put in front of a text that follows its newline is its first line. */
  lemma TextJoin(s: string, t: string)
    requires s != "" && (!HasNewline(s) ==> t == "")
    ensures LineText(s) + t != "" && LineText(LineText(s) + t) == LineText(s) && RestOf(LineText(s) + t) == t
  {
    SplitLine(s);
    JoinLine(LineOf(s), t);
    if !HasNewline(s) { assert LineOf(s) + t == LineOf(s); }
  }

  lemma TextAt(s: string, r: nat, idx: nat)
    requires r < |s| && idx == r + IndexOf(s[r..], '\n')
    ensures idx <= |s| && LineText(s[r..]) == s[r..if idx < |s| then idx + 1 else |s|]
    ensures RestOf(s[r..]) == s[if idx < |s| then idx + 1 else |s|..]
  {
    LineAt(s, r, idx);
    if idx < |s| {
      assert s[idx] == s[r..][idx - r];
      assert s[r..idx + 1] == s[r..idx] + [s[idx]];
    } else {
      assert s[r..idx] == s[r..];
    }
  }

  /** One line of the buffer; `end` is behind its newline. */
  method ReadLine(b: array<char>, r: nat, n: nat, ghost s: string, ghost w: nat) returns (end: nat)
    requires n == |s| <= b.Length && r < n && Reading(b[..], s, w, r)
    ensures r < end <= n && b[r..end] == LineText(s[r..]) && s[end..] == RestOf(s[r..]) && Reading(b[..], s, w, end)
  {
    hide *;
    ReadingBounds(b[..], s, w, r);
    ChunkIs(b[..], s, w, r, n);
    assert b[r..n] == b[..][r..n] && s[r..n] == s[r..];
    var idx := Index(b, r, n, '\n');
    end := if idx < n then idx + 1 else n;
    TextAt(s, r, idx);
    ChunkIs(b[..], s, w, r, end);
    assert b[r..end] == b[..][r..end];
    ReadingSkip(b[..], s, w, r, end);
  }
}
