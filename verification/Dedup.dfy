/**
 CollapseDuplicatesInPlace (pkg/nts/dedup.go): runs of one line become the line and a notice.

 The line that later lines are compared with is a range of the buffer itself. While nothing has been
 collapsed it still holds that line; afterwards writing may have changed it, and only the cursors
 and the bytes outside what was written are known.
 */
module Dedup {
  import opened Wrappers
  import opened Numbers
  import opened Buffer

  const PREFIX := "  [... identical line repeated "
  const SUFFIX := " times ...]"

  // ---------------------------------------------------------------- writing anywhere

  ghost function Pasted(b: string, to: nat, x: string): (r: string)
    requires to + |x| <= |b|
    ensures |r| == |b|
  {
    b[..to] + x + b[to + |x|..]
  }

  /** copy(b[to:], x) with x read before the first byte is written. */
  method WriteAt(b: array<char>, to: nat, x: string)
    requires to + |x| <= b.Length
    modifies b
    ensures b[..] == Pasted(old(b[..]), to, x)
  {
    ghost var was := b[..];
    var i := 0;
    PastedNothing(was, to);
    while i < |x|
      invariant 0 <= i <= |x| && b[..] == Pasted(was, to, x[..i])
    {
      PastedStep(was, to, x, i);
      b[to + i] := x[i];
      i := i + 1;
    }
    assert x[..|x|] == x;
  }

  lemma PastedNothing(b: string, to: nat)
    requires to <= |b|
    ensures Pasted(b, to, "") == b
  {
  }

  lemma PastedStep(b: string, to: nat, x: string, i: nat)
    requires to + |x| <= |b| && i < |x|
    ensures Pasted(b, to, x[..i])[to + i := x[i]] == Pasted(b, to, x[..i + 1])
  {
    assert x[..i + 1] == x[..i] + [x[i]];
    assert b[to + i..] == [b[to + i]] + b[to + i + 1..];
  }

  lemma PastedTwice(b: string, to: nat, x: string, y: string)
    requires to + |x| + |y| <= |b|
    ensures Pasted(Pasted(b, to, x), to + |x|, y) == Pasted(b, to, x + y)
  {
  }

  lemma PastedParts(b: string, to: nat, x: string)
    requires to + |x| <= |b|
    ensures var p := Pasted(b, to, x); p[..to] == b[..to] && p[to + |x|..] == b[to + |x|..] && p[..to + |x|] == b[..to] + x
  {
  }

  lemma PastedSame(b: string, to: nat, x: string)
    requires to + |x| <= |b| && b[to..to + |x|] == x
    ensures Pasted(b, to, x) == b
  {
  }

  lemma PastedBelow(b: string, to: nat, x: string, i: nat, j: nat)
    requires to + |x| <= |b| && i <= j <= to
    ensures Pasted(b, to, x)[i..j] == b[i..j]
  {
  }

  // ---------------------------------------------------------------- repeated lines

  /** The line k times, each with its newline, except perhaps the last one. */
  function Repeated(line: string, k: nat, newline: bool): string {
    if k == 0 then ""
    else if k == 1 then (if newline then line + "\n" else line)
    else line + "\n" + Repeated(line, k - 1, newline)
  }

  /** Its length. */
  function Held(len: nat, k: nat, newline: bool): nat {
    if k == 0 then 0
    else if k == 1 then (if newline then len + 1 else len)
    else len + 1 + Held(len, k - 1, newline)
  }

  lemma {:induction false} RepeatedLength(line: string, k: nat, newline: bool)
    ensures |Repeated(line, k, newline)| == Held(|line|, k, newline)
  {
    if k > 1 { RepeatedLength(line, k - 1, newline); }
  }

  lemma RepeatedNone(len: nat, line: string, newline: bool)
    ensures Repeated(line, 0, newline) == "" && Held(len, 0, newline) == 0
  {
  }

  /** The product by which the source counts the dropped bytes. */
  lemma {:induction false} HeldIs(len: nat, k: nat, newline: bool)
    requires k > 0
    ensures Held(len, k, newline) == if newline then k * (len + 1) else (k - 1) * (len + 1) + len
  {
    if k > 1 {
      HeldIs(len, k - 1, newline);
      assert k * (len + 1) == (k - 1) * (len + 1) + (len + 1);
      assert (k - 1) * (len + 1) == (k - 2) * (len + 1) + (len + 1);
    }
  }

  lemma {:induction false} HeldSnoc(len: nat, k: nat, newline: bool)
    ensures Held(len, k + 1, newline) == Held(len, k, true) + len + if newline then 1 else 0
  {
    if k > 0 { HeldSnoc(len, k - 1, newline); }
  }

  lemma {:induction false} RepeatedSnoc(line: string, k: nat, newline: bool)
    ensures Repeated(line, k + 1, newline) == Repeated(line, k, true) + (line + if newline then "\n" else "")
  {
    if k == 0 {
      assert "" + (line + if newline then "\n" else "") == if newline then line + "\n" else line;
    } else {
      RepeatedSnoc(line, k - 1, newline);
      var e := line + if newline then "\n" else "";
      if k == 1 {
        assert Repeated(line, 1, newline) == e;
        assert line + "\n" + e == Repeated(line, 1, true) + e;
      } else {
        assert line + "\n" + (Repeated(line, k - 1, true) + e) == line + "\n" + Repeated(line, k - 1, true) + e;
      }
    }
  }

  function Notice(k: nat, newline: bool): string {
    PREFIX + Itoa(k) + SUFFIX + if newline then "\n" else ""
  }

  predicate IsAlphanumeric(c: char) {
    'a' <= c <= 'z' || 'A' <= c <= 'Z' || '0' <= c <= '9'
  }

  predicate HasAlphanumeric(s: string) {
    exists i | 0 <= i < |s| :: IsAlphanumeric(s[i])
  }

  /** A run of `count` equal lines is replaced: it is long enough, and the notice is shorter. */
  predicate Collapses(len: nat, count: nat, threshold: int, newline: bool) {
    count > 1 && count >= threshold && Held(len, count - 1, newline) > |Notice(count - 1, newline)|
  }

  /**
   flushRepeats: the notice, or the lines that were held back. Writing starts at w and stays below
   w + Held, so nothing behind the held lines is touched.
   */
  method FlushRepeats(b: array<char>, n: nat, w0: nat, start: nat, len: nat, count: nat, threshold: int, newline: bool)
    returns (w: nat)
    requires n <= b.Length && count >= 1 && start + len <= n && w0 + Held(len, count - 1, newline) <= n
    modifies b
    ensures w0 <= w <= w0 + Held(len, count - 1, newline)
    ensures b[..w0] == old(b[..w0]) && b[w..] == old(b[w..])
    ensures Collapses(len, count, threshold, newline) ==>
              w < w0 + Held(len, count - 1, newline) && b[..w] == old(b[..w0]) + Notice(count - 1, newline)
    ensures !Collapses(len, count, threshold, newline) ==> w == w0 + Held(len, count - 1, newline)
    ensures !Collapses(len, count, threshold, newline) && start + len <= w0 ==>
              |Repeated(old(b[start..start + len]), count - 1, newline)| == Held(len, count - 1, newline) &&
              b[..] == Pasted(old(b[..]), w0, Repeated(old(b[start..start + len]), count - 1, newline))
  {
    hide Repeated, Notice, Pasted, Held;
    ghost var line := b[start..start + len];
    RepeatedLength(line, count - 1, newline);
    RepeatedNone(len, line, newline);
    ghost var was := b[..];
    if count <= 1 {
      PastedNothing(was, w0);
      return w0;
    }
    var collapsed := count - 1;
    HeldIs(len, collapsed, newline);
    var dropped := if newline then collapsed * (len + 1) else (collapsed - 1) * (len + 1) + len;
    var notice := Notice(collapsed, newline);
    if count >= threshold && dropped > |notice| {
      WriteAt(b, w0, notice);
      w := w0 + |notice|;
      PastedParts(was, w0, notice);
      assert b[..w] == b[..][..w] && b[w..] == b[..][w..] && b[..w0] == b[..][..w0];
    } else {
      w := EmitHeld(b, n, w0, start, len, collapsed, newline);
    }
  }

  method EmitHeld(b: array<char>, n: nat, w0: nat, start: nat, len: nat, k: nat, newline: bool) returns (w: nat)
    requires n <= b.Length && k > 0 && start + len <= n && w0 + Held(len, k, newline) <= n
    modifies b
    ensures w == w0 + Held(len, k, newline) && b[..w0] == old(b[..w0]) && b[w..] == old(b[w..])
    ensures start + len <= w0 ==>
              |Repeated(old(b[start..start + len]), k, newline)| == Held(len, k, newline) &&
              b[..] == Pasted(old(b[..]), w0, Repeated(old(b[start..start + len]), k, newline))
  {
    ghost var was, line := b[..], b[start..start + len];
    assert was[start..start + len] == line && was[..w0] == b[..w0];
    hide *;
    ghost var out;
    w, out := EmitLines(b, n, w0, start, len, k, newline);
    EmittingDone(line, len, start + len <= w0, k, newline, out);
    PastedParts(was, w0, out);
    assert b[..w0] == b[..][..w0] && b[w..] == b[..][w..];
  }

  method EmitLines(b: array<char>, n: nat, w0: nat, start: nat, len: nat, k: nat, newline: bool) returns (w: nat, ghost out: string)
    requires n <= b.Length && k > 0 && start + len <= n && w0 + Held(len, k, newline) <= n
    modifies b
    ensures w == w0 + |out| <= n && b[..] == Pasted(old(b[..]), w0, out)
    ensures Emitting(old(b[..])[start..start + len], len, start + len <= w0, k, k, newline, out)
  {
    hide *;
    ghost var was := b[..];
    ghost var line, below := was[start..start + len], start + len <= w0;
    PastedNothing(was, w0);
    EmittingStart(line, len, below, k, newline);
    w, out := w0, "";
    var j := 0;
    while j < k
      invariant 0 <= j <= k && w == w0 + |out| <= n && b[..] == Pasted(was, w0, out)
      invariant Emitting(line, len, below, j, k, newline, out)
    {
      EmittingStep(line, len, below, j, k, newline, out);
      w, out := EmitLine(b, n, w, start, len, j < k - 1 || newline, was, w0, out);
      j := j + 1;
    }
  }

  /** j of the k held lines have been written as `out`. */
  ghost predicate Emitting(line: string, len: nat, below: bool, j: nat, k: nat, newline: bool, out: string) {
    |out| == Held(len, j, newline || j < k) && (below ==> out == Repeated(line, j, newline || j < k))
  }

  lemma EmittingStart(line: string, len: nat, below: bool, k: nat, newline: bool)
    ensures Emitting(line, len, below, 0, k, newline, "")
  {
  }

  lemma EmittingStep(line: string, len: nat, below: bool, j: nat, k: nat, newline: bool, out: string)
    requires Emitting(line, len, below, j, k, newline, out) && j < k
    ensures |out| + len + (if j < k - 1 || newline then 1 else 0) <= Held(len, k, newline)
    ensures forall o: string ::
              |o| == |out| + len + (if j < k - 1 || newline then 1 else 0) &&
              (below ==> o == if j < k - 1 || newline then out + line + "\n" else out + line) ==>
                Emitting(line, len, below, j + 1, k, newline, o)
  {
    HeldStep(line, len, j, k, newline);
    hide Held, Repeated;
  }

  lemma EmittingDone(line: string, len: nat, below: bool, k: nat, newline: bool, out: string)
    requires Emitting(line, len, below, k, k, newline, out)
    ensures |out| == Held(len, k, newline) && (below ==> out == Repeated(line, k, newline) && |Repeated(line, k, newline)| == Held(len, k, newline))
  {
  }

  /** One held line. */
  method EmitLine(b: array<char>, n: nat, w0: nat, start: nat, len: nat, newline: bool, ghost was: string, ghost to: nat,
                  ghost out0: string)
    returns (w: nat, ghost out: string)
    requires n <= b.Length == |was| && start + len <= n && w0 + len + (if newline then 1 else 0) <= n
    requires w0 == to + |out0| && b[..] == Pasted(was, to, out0)
    modifies b
    ensures w == to + |out| && |out| == |out0| + len + (if newline then 1 else 0) && w <= n
    ensures b[..] == Pasted(was, to, out)
    ensures start + len <= to ==>
              out == if newline then out0 + was[start..start + len] + "\n" else out0 + was[start..start + len]
  {
    hide *;
    ghost var now := b[..];
    if start + len <= to { PastedBelow(was, to, out0, start, start + len); }
    var x := b[start..start + len];
    assert x == now[start..start + len];
    WriteAt(b, w0, x);
    PastedTwice(was, to, out0, x);
    w, out := w0 + len, out0 + x;
    if newline {
      WriteAt(b, w, "\n");
      PastedTwice(was, to, out, "\n");
      w, out := w + 1, out + "\n";
    }
  }

  lemma HeldStep(line: string, len: nat, j: nat, k: nat, newline: bool)
    requires j < k
    ensures var nl := newline || j + 1 < k;
            && Held(len, j + 1, nl) == Held(len, j, true) + len + (if nl then 1 else 0)
            && Repeated(line, j + 1, nl) == (if nl then Repeated(line, j, true) + line + "\n" else Repeated(line, j, true) + line)
            && Held(len, j, true) + len + (if nl then 1 else 0) <= Held(len, k, newline)
  {
    HeldSnoc(len, j, newline || j + 1 < k);
    RepeatedSnoc(line, j, newline || j + 1 < k);
    HeldMonotone(len, j + 1, k, newline);
    var r := Repeated(line, j, true);
    assert r + (line + "\n") == r + line + "\n" && r + (line + "") == r + line;
  }

  lemma {:induction false} HeldMonotone(len: nat, j: nat, k: nat, newline: bool)
    requires 0 < j <= k
    ensures Held(len, j, newline || j < k) <= Held(len, k, newline)
    decreases k
  {
    if j < k {
      HeldSnoc(len, k - 1, newline);
      HeldMonotone(len, j, k - 1, true);
    }
  }

  // ---------------------------------------------------------------- the loop

  /** lastLine as a range of the buffer, and repeatCount. */
  datatype Last = Last(some: bool, start: nat, len: nat, count: nat)

  /** The first collapse: where the notice starts, the line, and how often it was repeated. */
  datatype Collapse = Collapse(first: nat, line: string, times: nat, newline: bool)

  ghost predicate EndsLine(o: string, r: nat)
    requires r <= |o|
  {
    r == 0 || o[r - 1] == '\n'
  }

  /** The cursors: the held lines fit between them, and from w on the buffer is as it was given. */
  ghost predicate Cursors(o: string, b: string, n: nat, w: nat, r: nat, last: Last) {
    && |b| == |o| && w <= r <= n <= |o| && last.count >= 1
    && (!last.some ==> last.count == 1 && last.len == 0 && last.start == 0 && r == 0)
    && (last.count > 1 ==> last.len > 3)
    && (r < n ==> EndsLine(o, r))
    && last.start + last.len <= r
    && w + Held(last.len, last.count - 1, EndsLine(o, r)) <= r
    && b[w..] == o[w..]
  }

  /** Nothing was collapsed so far: the buffer is untouched, and the held lines repeat the last one. */
  ghost predicate Untouched(o: string, b: string, n: nat, w: nat, r: nat, last: Last) {
    && b == o && w <= r <= n <= |o| && last.start + last.len <= w && last.count >= 1
    && w + Held(last.len, last.count - 1, EndsLine(o, r)) == r
    && o[w..r] == Repeated(o[last.start..last.start + last.len], last.count - 1, EndsLine(o, r))
    && (last.count > 1 || (last.some && r < n) ==> w == last.start + last.len + 1 && o[w - 1] == '\n')
    && (last.count > 1 ==> Worth(o[last.start..last.start + last.len]))
  }

  predicate Worth(line: string) {
    |line| > 3 && HasAlphanumeric(line)
  }

  /** The text as given up to the first repetition, then the notice for a run that was really there. */
  ghost predicate Noted(o: string, b: string, n: nat, w: nat, threshold: int, c: Collapse) {
    var notice, run := Notice(c.times, c.newline), Repeated(c.line, c.times, c.newline);
    && c.first + |notice| <= w <= |b| && c.first + |run| <= n <= |o| && |notice| < |run|
    && b[..c.first + |notice|] == o[..c.first] + notice
    && o[c.first..c.first + |run|] == run
    && |c.line| + 1 <= c.first && o[c.first - |c.line| - 1..c.first] == c.line + "\n"
    && c.times + 1 >= threshold && c.times > 0 && Worth(c.line)
  }

  // ---------------------------------------------------------------- the first run

  /** Where the line that starts at p ends. */
  function LineEnd(o: string, n: nat, p: nat): (q: nat)
    requires p <= n <= |o|
    ensures p <= q <= n && '\n' !in o[p..q] && (q < n ==> o[q] == '\n')
    decreases n - p
  {
    if p < n && o[p] != '\n' then
      var q := LineEnd(o, n, p + 1);
      assert o[p..q] == [o[p]] + o[p + 1..q];
      q
    else p
  }

  /** Where the next line starts. */
  function Behind(o: string, n: nat, p: nat): (q: nat)
    requires p <= n <= |o|
    ensures p <= q <= n && (p < n ==> p < q)
  {
    if LineEnd(o, n, p) < n then LineEnd(o, n, p) + 1 else n
  }

  /** How many lines from p on are x. */
  function Reps(o: string, n: nat, p: nat, x: string): nat
    requires p <= n <= |o|
    decreases n - p
  {
    if p < n && o[p..LineEnd(o, n, p)] == x then 1 + Reps(o, n, Behind(o, n, p), x) else 0
  }

  /** Where they end. */
  function RunEnd(o: string, n: nat, p: nat, x: string): (q: nat)
    requires p <= n <= |o|
    ensures q <= n
    decreases n - p
  {
    if p < n && o[p..LineEnd(o, n, p)] == x then RunEnd(o, n, Behind(o, n, p), x) else p
  }

  /** The line before s is x as well. */
  predicate SameBefore(o: string, s: nat, x: string)
    requires s <= |o|
  {
    s >= |x| + 1 && (s == |x| + 1 || o[s - |x| - 2] == '\n') && o[s - |x| - 1..s] == x + "\n"
  }

  /** What becomes of the run that starts with the line at s, if it starts one and is to be collapsed. */
  function CollapseAt(o: string, n: nat, threshold: int, s: nat): Option<Collapse>
    requires s < n <= |o|
  {
    var x, first := o[s..LineEnd(o, n, s)], Behind(o, n, s);
    var times, end := Reps(o, n, first, x), RunEnd(o, n, first, x);
    var newline := end == 0 || o[end - 1] == '\n';
    if Worth(x) && !SameBefore(o, s, x) && Collapses(|x|, times + 1, threshold, newline) then Some(Collapse(first, x, times, newline))
    else None
  }

  /** None of the lines before position r that is not `but` starts a run to collapse. */
  ghost predicate NoneBefore(o: string, n: nat, threshold: int, r: nat, but: Option<nat>)
    requires r <= n <= |o|
  {
    forall p: nat | p < r && EndsLine(o, p) && but != Some(p) :: CollapseAt(o, n, threshold, p) == None
  }

  /** The first run to collapse, or None when the text has none. */
  ghost predicate IsFirst(o: string, n: nat, threshold: int, note: Option<Collapse>) {
    n <= |o| &&
    match note
    case None => NoneBefore(o, n, threshold, n, None)
    case Some(c) =>
      exists s: nat | s < n && EndsLine(o, s) :: CollapseAt(o, n, threshold, s) == note && NoneBefore(o, n, threshold, s, None)
  }

  ghost predicate Seen(o: string, n: nat, threshold: int, r: nat, last: Last, note: Option<Collapse>) {
    if note.Some? then IsFirst(o, n, threshold, note) else Pending(o, n, threshold, r, last)
  }

  /** Before the first collapse: whether the current run is to be collapsed depends on what is still to be read. */
  ghost predicate Pending(o: string, n: nat, threshold: int, r: nat, last: Last) {
    && r <= n <= |o| && last.count >= 1
    && (r < n ==> EndsLine(o, r))
    && NoneBefore(o, n, threshold, r, if last.some then Some(last.start) else None)
    && (if last.some then Current(o, n, r, last) else r == 0 && last.count == 1)
  }

  ghost predicate Current(o: string, n: nat, r: nat, last: Last)
    requires r <= n <= |o| && last.count >= 1
  {
    && last.start < r && EndsLine(o, last.start) && LineEnd(o, n, last.start) == last.start + last.len
    && var x := o[last.start..last.start + last.len];
    && (last.count > 1 ==> Worth(x))
    && (Worth(x) ==> !SameBefore(o, last.start, x) && Extends(o, n, r, last, x))
    && (r < n ==> SameBefore(o, r, x))
  }

  ghost predicate Extends(o: string, n: nat, r: nat, last: Last, x: string)
    requires r <= n <= |o| && last.count >= 1 && last.start < n
  {
    var first := Behind(o, n, last.start);
    Reps(o, n, first, x) == last.count - 1 + Reps(o, n, r, x) && RunEnd(o, n, first, x) == RunEnd(o, n, r, x)
  }

  /** What the first run is depends on the text before n only. */
  lemma FirstOfPrefix(o: string, n: nat, threshold: int, note: Option<Collapse>)
    requires IsFirst(o, n, threshold, note)
    ensures n <= |o| && IsFirst(o[..n], n, threshold, note)
  {
    hide CollapseAt;
    forall p: nat | p < n ensures CollapseAt(o[..n], n, threshold, p) == CollapseAt(o, n, threshold, p) && (EndsLine(o[..n], p) <==> EndsLine(o, p)) {
      CollapseOfPrefix(o, n, threshold, p);
    }
    if note.Some? {
      var s: nat :| s < n && EndsLine(o, s) && CollapseAt(o, n, threshold, s) == note && NoneBefore(o, n, threshold, s, None);
      assert CollapseAt(o[..n], n, threshold, s) == note && NoneBefore(o[..n], n, threshold, s, None);
    }
  }

  lemma CollapseOfPrefix(o: string, n: nat, threshold: int, s: nat)
    requires s < n <= |o|
    ensures CollapseAt(o[..n], n, threshold, s) == CollapseAt(o, n, threshold, s)
  {
    hide Worth, Collapses, Reps, RunEnd, LineEnd;
    var x := o[s..LineEnd(o, n, s)];
    LineOfPrefix(o, n, s);
    var first := Behind(o, n, s);
    RunOfPrefix(o, n, first, x);
    assert o[..n][s..LineEnd(o, n, s)] == x;
    if s >= |x| + 1 { assert o[..n][s - |x| - 1..s] == o[s - |x| - 1..s]; }
    assert SameBefore(o[..n], s, x) <==> SameBefore(o, s, x);
  }

  lemma {:induction false} LineOfPrefix(o: string, n: nat, p: nat)
    requires p <= n <= |o|
    ensures LineEnd(o[..n], n, p) == LineEnd(o, n, p)
    decreases n - p
  {
    if p < n && o[p] != '\n' { LineOfPrefix(o, n, p + 1); }
  }

  lemma {:induction false} RunOfPrefix(o: string, n: nat, p: nat, x: string)
    requires p <= n <= |o|
    ensures Reps(o[..n], n, p, x) == Reps(o, n, p, x) && RunEnd(o[..n], n, p, x) == RunEnd(o, n, p, x)
    decreases n - p
  {
    hide LineEnd;
    LineOfPrefix(o, n, p);
    if p < n {
      assert o[..n][p..LineEnd(o, n, p)] == o[p..LineEnd(o, n, p)];
      RunOfPrefix(o, n, Behind(o, n, p), x);
    }
  }

  lemma {:induction false} LineEndIs(o: string, n: nat, p: nat, q: nat)
    requires p <= q <= n <= |o| && '\n' !in o[p..q] && (q < n ==> o[q] == '\n')
    ensures LineEnd(o, n, p) == q
    decreases n - p
  {
    if p < q {
      assert o[p] == o[p..q][0] && o[p + 1..q] == o[p..q][1..];
      LineEndIs(o, n, p + 1, q);
    }
  }

  /** Within a line no other line starts. */
  lemma OneStart(o: string, r0: nat, idx: nat, p: nat)
    requires r0 < p <= idx <= |o| && '\n' !in o[r0..idx]
    ensures !EndsLine(o, p)
  {
    assert o[p - 1] == o[r0..idx][p - 1 - r0];
  }

  lemma SeenStart(o: string, n: nat, threshold: int)
    requires n <= |o|
    ensures Seen(o, n, threshold, 0, Last(false, 0, 0, 1), None)
  {
  }

  lemma BackAt(o: string, r: nat, x: string, i: nat)
    requires r <= |o| && SameBefore(o, r, x) && i <= |x|
    ensures r > |x| && o[r - 1 - i] == if i == 0 then '\n' else x[|x| - i]
  {
    assert o[r - |x| - 1..r][|x| - i] == (x + "\n")[|x| - i];
  }

  /** There is one line before r. */
  lemma OneBefore(o: string, r: nat, x: string, y: string)
    requires r <= |o| && '\n' !in x && '\n' !in y && SameBefore(o, r, x) && SameBefore(o, r, y)
    ensures x == y
  {
    NotLonger(o, r, x, y);
    NotLonger(o, r, y, x);
    SameText(o, r, x, y);
  }

  lemma NotLonger(o: string, r: nat, x: string, y: string)
    requires r <= |o| && '\n' !in y && SameBefore(o, r, x) && SameBefore(o, r, y)
    ensures |y| <= |x|
  {
    StartsLine(o, r, x);
    hide SameBefore;
    if |x| < |y| { BackAt(o, r, y, |x| + 1); }
  }

  lemma StartsLine(o: string, r: nat, x: string)
    requires r <= |o| && SameBefore(o, r, x)
    ensures r == |x| + 1 || (r > |x| + 1 && o[r - |x| - 2] == '\n')
  {
  }

  lemma SameText(o: string, r: nat, x: string, y: string)
    requires r <= |o| && |x| == |y| && SameBefore(o, r, x) && SameBefore(o, r, y)
    ensures x == y
  {
    assert (x + "\n")[..|x|] == x && (y + "\n")[..|y|] == y;
  }

  lemma SeenRepeat(o: string, n: nat, threshold: int, r0: nat, last: Last, note: Option<Collapse>, idx: nat)
    requires Seen(o, n, threshold, r0, last, note) && last.some && r0 < n <= |o| && r0 <= idx <= n
    requires '\n' !in o[r0..idx] && (idx < n ==> o[idx] == '\n') && Worth(o[r0..idx])
    requires note.None? ==> last.start + last.len <= |o| && o[r0..idx] == o[last.start..last.start + last.len]
    ensures Seen(o, n, threshold, if idx < n then idx + 1 else n, last.(count := last.count + 1), note)
  {
    hide *;
    SeenIs(o, n, threshold, r0, last, note);
    if note.None? {
      LineEndIs(o, n, r0, idx);
      PendingRepeat(o, n, threshold, r0, last, idx);
    }
    SeenIs(o, n, threshold, if idx < n then idx + 1 else n, last.(count := last.count + 1), note);
  }

  lemma SeenIs(o: string, n: nat, threshold: int, r: nat, last: Last, note: Option<Collapse>)
    ensures Seen(o, n, threshold, r, last, note) <==> if note.Some? then IsFirst(o, n, threshold, note) else Pending(o, n, threshold, r, last)
  {
    hide IsFirst, Pending;
  }

  /** No other line starts on the way to the end of this one. */
  lemma NoneInLine(o: string, n: nat, threshold: int, r0: nat, idx: nat, but: Option<nat>)
    requires r0 < n <= |o| && r0 <= idx <= n && '\n' !in o[r0..idx] && NoneBefore(o, n, threshold, r0, but)
    requires but == Some(r0) || CollapseAt(o, n, threshold, r0) == None
    ensures NoneBefore(o, n, threshold, if idx < n then idx + 1 else n, but)
  {
    hide CollapseAt;
    forall p: nat | p < (if idx < n then idx + 1 else n) && EndsLine(o, p) && but != Some(p) ensures CollapseAt(o, n, threshold, p) == None {
      if r0 < p { OneStart(o, r0, idx, p); }
    }
  }

  lemma PendingRepeat(o: string, n: nat, threshold: int, r0: nat, last: Last, idx: nat)
    requires Pending(o, n, threshold, r0, last) && last.some && r0 < n && r0 <= idx <= n && LineEnd(o, n, r0) == idx
    requires '\n' !in o[r0..idx] && (idx < n ==> o[idx] == '\n') && Worth(o[r0..idx])
    requires last.start + last.len <= |o| && o[r0..idx] == o[last.start..last.start + last.len]
    ensures Pending(o, n, threshold, if idx < n then idx + 1 else n, last.(count := last.count + 1))
  {
    hide Reps, RunEnd, LineEnd, Worth, Collapses, NoneBefore, SameBefore;
    var x := o[r0..idx];
    RepsOne(o, n, r0, x);
    NotCollapsed(o, n, threshold, r0);
    NoneInLine(o, n, threshold, r0, idx, Some(last.start));
    if idx < n { BeforeNext(o, r0, idx); }
  }

  lemma NotCollapsed(o: string, n: nat, threshold: int, s: nat)
    requires s < n <= |o| && SameBefore(o, s, o[s..LineEnd(o, n, s)])
    ensures CollapseAt(o, n, threshold, s) == None
  {
    hide SameBefore, Reps, RunEnd, LineEnd, Worth, Collapses;
  }

  lemma BeforeNext(o: string, r0: nat, idx: nat)
    requires r0 <= idx < |o| && o[idx] == '\n' && EndsLine(o, r0)
    ensures SameBefore(o, idx + 1, o[r0..idx])
  {
    assert o[r0..idx + 1] == o[r0..idx] + "\n";
  }

  lemma RepsOne(o: string, n: nat, p: nat, x: string)
    requires p < n <= |o|
    ensures o[p..LineEnd(o, n, p)] == x ==>
              Reps(o, n, p, x) == 1 + Reps(o, n, Behind(o, n, p), x) && RunEnd(o, n, p, x) == RunEnd(o, n, Behind(o, n, p), x)
    ensures o[p..LineEnd(o, n, p)] != x ==> Reps(o, n, p, x) == 0 && RunEnd(o, n, p, x) == p
  {
  }

  /** The current run ends at r: it is collapsed, or its start joins those that are not. */
  lemma RunDone(o: string, n: nat, threshold: int, r: nat, last: Last)
    requires Pending(o, n, threshold, r, last) && last.some
    requires r < n ==> var x := o[r..LineEnd(o, n, r)];
                       last.start + last.len <= |o| && !(Worth(x) && x == o[last.start..last.start + last.len])
    ensures last.start + last.len <= |o|
    ensures CollapseAt(o, n, threshold, last.start) ==
            if Collapses(last.len, last.count, threshold, EndsLine(o, r))
            then Some(Collapse(Behind(o, n, last.start), o[last.start..last.start + last.len], last.count - 1, EndsLine(o, r)))
            else None
  {
    hide LineEnd, Worth, NoneBefore, SameBefore, Held;
    if r < n { RepsOne(o, n, r, o[last.start..last.start + last.len]); }
  }

  lemma SeenLine(o: string, b: string, n: nat, threshold: int, w0: nat, r0: nat, last: Last, note: Option<Collapse>, idx: nat)
    requires Inv(o, b, n, threshold, w0, r0, last, note)
    requires Seen(o, n, threshold, r0, last, note) && r0 < n <= |o| && r0 <= idx <= n
    requires '\n' !in o[r0..idx] && (idx < n ==> o[idx] == '\n')
    requires note.None? && last.some ==> last.start + last.len <= |o| && !(Worth(o[r0..idx]) && o[r0..idx] == o[last.start..last.start + last.len])
    ensures Seen(o, n, threshold, if idx < n then idx + 1 else n, Last(true, r0, idx - r0, 1), FlushedNote(o, threshold, w0, last, note, true))
  {
    hide Reps, RunEnd, LineEnd, Worth, Collapses, Untouched, Cursors, Noted, CollapseAt, Held;
    if note.None? {
      LineEndIs(o, n, r0, idx);
      InvBounds(o, b, n, threshold, w0, r0, last, note);
      if last.some { RunDone(o, n, threshold, r0, last); }
      RunStarts(o, b, n, threshold, w0, r0, last);
      NoteIs(o, threshold, w0, last, note, true);
      if last.count > 1 && Collapses(last.len, last.count, threshold, true) {
        FirstIs(o, n, threshold, last.start, r0);
      } else {
        CollapsesMany(last, threshold, true);
        NewLine(o, n, threshold, r0, last, idx);
      }
    }
  }

  lemma CollapsesMany(last: Last, threshold: int, newline: bool)
    ensures last.count <= 1 ==> !Collapses(last.len, last.count, threshold, newline)
  {
  }

  /** Where the held lines begin. */
  lemma RunStarts(o: string, b: string, n: nat, threshold: int, w0: nat, r: nat, last: Last)
    requires Inv(o, b, n, threshold, w0, r, last, None) && Pending(o, n, threshold, r, last)
    ensures last.count > 1 ==> last.some && w0 == Behind(o, n, last.start)
  {
    hide Held, Repeated, Worth, NoneBefore, Extends, LineEnd, SameBefore;
  }

  lemma FirstIs(o: string, n: nat, threshold: int, s: nat, r: nat)
    requires s < r <= n <= |o| && EndsLine(o, s) && NoneBefore(o, n, threshold, r, Some(s)) && CollapseAt(o, n, threshold, s).Some?
    ensures IsFirst(o, n, threshold, CollapseAt(o, n, threshold, s))
  {
    hide CollapseAt;
    assert NoneBefore(o, n, threshold, s, None);
  }

  /** The line at r0 starts the next run. */
  lemma NewLine(o: string, n: nat, threshold: int, r0: nat, last: Last, idx: nat)
    requires Pending(o, n, threshold, r0, last) && r0 < n && r0 <= idx <= n && LineEnd(o, n, r0) == idx
    requires last.some ==> CollapseAt(o, n, threshold, last.start) == None
    requires last.some ==> last.start + last.len <= |o| && !(Worth(o[r0..idx]) && o[r0..idx] == o[last.start..last.start + last.len])
    ensures Pending(o, n, threshold, if idx < n then idx + 1 else n, Last(true, r0, idx - r0, 1))
  {
    hide Reps, RunEnd, LineEnd, Worth, CollapseAt, SameBefore, NoneBefore;
    var x := o[r0..idx];
    LineEndFacts(o, n, r0);
    NoneWithout(o, n, threshold, r0, last);
    NoneInLine(o, n, threshold, r0, idx, Some(r0));
    if last.some && SameBefore(o, r0, x) {
      LineEndFacts(o, n, last.start);
      OneBefore(o, r0, x, o[last.start..last.start + last.len]);
    }
    NothingBefore(o, x);
    if idx < n { BeforeNext(o, r0, idx); }
  }

  lemma NothingBefore(o: string, x: string)
    ensures !SameBefore(o, 0, x)
  {
  }

  lemma NoneWithout(o: string, n: nat, threshold: int, r0: nat, last: Last)
    requires Pending(o, n, threshold, r0, last) && (last.some ==> CollapseAt(o, n, threshold, last.start) == None)
    ensures NoneBefore(o, n, threshold, r0, Some(r0))
  {
    hide CollapseAt, Current;
  }

  lemma LineEndFacts(o: string, n: nat, p: nat)
    requires p <= n <= |o|
    ensures var q := LineEnd(o, n, p); p <= q <= n && '\n' !in o[p..q] && (q < n ==> o[q] == '\n')
  {
  }

  lemma SeenEnd(o: string, b: string, n: nat, threshold: int, w0: nat, last: Last, note: Option<Collapse>)
    requires 0 < n <= |o| && Inv(o, b, n, threshold, w0, n, last, note) && Seen(o, n, threshold, n, last, note)
    ensures IsFirst(o, n, threshold, FlushedNote(o, threshold, w0, last, note, EndsLine(o, n)))
  {
    hide Reps, RunEnd, LineEnd, Worth, Collapses, Untouched, Cursors, Noted, CollapseAt, Held;
    if note.None? {
      RunDone(o, n, threshold, n, last);
      RunStarts(o, b, n, threshold, w0, n, last);
      NoteIs(o, threshold, w0, last, note, EndsLine(o, n));
      CollapsesMany(last, threshold, EndsLine(o, n));
      if last.count > 1 && Collapses(last.len, last.count, threshold, EndsLine(o, n)) {
        FirstIs(o, n, threshold, last.start, n);
      }
    }
  }

  lemma NoteSame(o: string, threshold: int, w0: nat, last: Last, note: Option<Collapse>, x: bool, y: bool)
    requires last.count > 1 ==> x == y
    ensures FlushedNote(o, threshold, w0, last, note, x) == FlushedNote(o, threshold, w0, last, note, y)
  {
  }

  ghost predicate Inv(o: string, b: string, n: nat, threshold: int, w: nat, r: nat, last: Last, note: Option<Collapse>) {
    Cursors(o, b, n, w, r, last) &&
    match note
    case None => Untouched(o, b, n, w, r, last)
    case Some(c) => Noted(o, b, n, w, threshold, c) && w + Held(last.len, last.count - 1, EndsLine(o, r)) < r
  }

  /**
   The output is no longer than the input, all writes stay in bounds, and whatever is not yet read is
   left alone. Without a collapse nothing changes; otherwise the output begins with the text up to the
   first repetition of the first run that is collapsed, and its notice. With a threshold above 1 there is
   a collapse exactly when the text has a run to collapse, and it is the first one.
   */
  method CollapseDuplicatesInPlace(b: array<char>, n: nat, threshold: int) returns (w: nat, ghost note: Option<Collapse>)
    requires n <= b.Length
    modifies b
    ensures w <= n && b[n..] == old(b[n..]) && b[w..] == old(b[w..])
    ensures note.None? ==> w == n && b[..] == old(b[..])
    ensures note.Some? ==> w < n && Noted(old(b[..]), b[..], n, w, threshold, note.value)
    ensures if threshold > 1 then IsFirst(old(b[..]), n, threshold, note) else note.None?
  {
    note := None;
    ghost var o := b[..];
    if threshold <= 1 || n == 0 { return n, None; }
    InvStart(o, n, threshold);
    SeenStart(o, n, threshold);
    hide *;
    w := 0;
    var r: nat := 0;
    var last := Last(false, 0, 0, 1);
    while r < n
      invariant r <= n && Inv(o, b[..], n, threshold, w, r, last, note) && Seen(o, n, threshold, r, last, note)
      decreases n - r
    {
      w, r, last, note := DedupLine(b, n, threshold, w, r, last, o, note);
    }
    w, note := FlushLast(b, n, threshold, w, last, o, note);
    ghost var now := b[..];
    TailKept(o, o, now, w, n);
    Tails(b, now, w);
    Tails(b, now, n);
    assert old(b[w..]) == o[w..];
    assert old(b[n..]) == o[n..];
  }

  lemma Tails(b: array<char>, now: string, i: nat)
    requires now == b[..] && i <= b.Length
    ensures b[i..] == now[i..]
  {
  }

  lemma Cut(b: array<char>, now: string, i: nat, j: nat)
    requires now == b[..] && i <= j <= b.Length
    ensures b[i..j] == now[i..j]
  {
  }

  lemma InvStart(o: string, n: nat, threshold: int)
    requires n <= |o|
    ensures Inv(o, o, n, threshold, 0, 0, Last(false, 0, 0, 1), None)
  {
  }

  lemma InvBounds(o: string, b: string, n: nat, threshold: int, w: nat, r: nat, last: Last, note: Option<Collapse>)
    requires Inv(o, b, n, threshold, w, r, last, note)
    ensures |b| == |o| && w <= r <= n <= |o| && last.count >= 1 && last.start + last.len <= r
    ensures w + Held(last.len, last.count - 1, EndsLine(o, r)) <= r
    ensures b[w..] == o[w..] && b[r..n] == o[r..n]
    ensures r < n ==> EndsLine(o, r)
    ensures note.None? ==> b == o && w + Held(last.len, last.count - 1, EndsLine(o, r)) == r
    ensures note.Some? ==> w + Held(last.len, last.count - 1, EndsLine(o, r)) < r
    ensures last.count > 1 ==> last.len > 3
  {
    hide Held, Repeated, Noted;
    SameWithin(o, b, w, |o|, r, n);
  }

  /** One line of the buffer. */
  method DedupLine(b: array<char>, n: nat, threshold: int, w0: nat, r0: nat, last0: Last, ghost o: string, ghost note0: Option<Collapse>)
    returns (w: nat, r: nat, last: Last, ghost note: Option<Collapse>)
    requires n <= b.Length && r0 < n && Inv(o, b[..], n, threshold, w0, r0, last0, note0)
    requires Seen(o, n, threshold, r0, last0, note0)
    modifies b
    ensures r0 < r <= n && Inv(o, b[..], n, threshold, w, r, last, note) && Seen(o, n, threshold, r, last, note)
  {
    hide *;
    InvBounds(o, b[..], n, threshold, w0, r0, last0, note0);
    ghost var was := b[..];
    var idx := Index(b, r0, n, '\n');
    var hasNewline := idx < n;
    r := if hasNewline then idx + 1 else n;
    var line := b[r0..idx];
    LineThere(o, was, n, r0, idx);
    Cut(b, was, r0, idx);
    Cut(b, was, last0.start, last0.start + last0.len);
    var isRepeat := last0.some && Worth(line) && line == b[last0.start..last0.start + last0.len];
    if isRepeat {
      w, last, note := w0, last0.(count := last0.count + 1), note0;
      RepeatStep(o, was, n, threshold, w0, r0, last0, note0, idx);
      SeenRepeat(o, n, threshold, r0, last0, note0, idx);
    } else {
      w, note := FlushLine(b, n, threshold, w0, r0, last0, o, note0);
      w := CopyLine(b, n, threshold, w, r0, idx, line, o, note);
      last := Last(true, r0, idx - r0, 1);
      SeenLine(o, was, n, threshold, w0, r0, last0, note0, idx);
    }
  }

  /** The line read from the buffer is the line of the text. */
  lemma LineThere(o: string, b: string, n: nat, r0: nat, idx: nat)
    requires r0 <= idx <= n <= |o| == |b| && b[r0..n] == o[r0..n]
    ensures b[r0..idx] == o[r0..idx] && (idx < n ==> b[idx] == o[idx])
  {
    SameWithin(o, b, r0, n, r0, idx);
    if idx < n {
      assert b[idx] == b[r0..n][idx - r0];
      assert o[idx] == o[r0..n][idx - r0];
    }
  }

  lemma SameWithin(o: string, b: string, lo: nat, hi: nat, i: nat, j: nat)
    requires lo <= i <= j <= hi <= |o| && hi <= |b| && o[lo..hi] == b[lo..hi]
    ensures o[i..j] == b[i..j]
  {
    forall k | i <= k < j ensures o[k] == b[k] {
      assert o[lo..hi][k - lo] == o[k] && b[lo..hi][k - lo] == b[k];
    }
  }

  lemma RepeatStep(o: string, b: string, n: nat, threshold: int, w: nat, r0: nat, last: Last, note: Option<Collapse>, idx: nat)
    requires Inv(o, b, n, threshold, w, r0, last, note) && r0 < n && last.some
    requires r0 <= idx <= n <= |o| && idx <= |b| && (idx < n ==> o[idx] == '\n') && '\n' !in o[r0..idx]
    requires last.start + last.len <= |b| && b[last.start..last.start + last.len] == o[r0..idx] && Worth(o[r0..idx])
    ensures Inv(o, b, n, threshold, w, if idx < n then idx + 1 else n, last.(count := last.count + 1), note)
  {
    hide Noted, Notice, Worth, Held, Repeated, Untouched, Cursors;
    var r := if idx < n then idx + 1 else n;
    InvParts(o, b, n, threshold, w, r0, last, note);
    var nl := EndsLine(o, r);
    assert nl <==> idx < n by { if idx == n { assert o[r - 1] == o[r0..idx][idx - r0 - 1]; } }
    WorthIs(o[r0..idx]);
    HeldSnoc(last.len, last.count - 1, nl);
    RepeatCursors(o, b, n, w, r0, last, r);
    if note.None? { RepeatUntouched(o, b, n, w, r0, last, idx); }
  }

  lemma InvParts(o: string, b: string, n: nat, threshold: int, w: nat, r: nat, last: Last, note: Option<Collapse>)
    requires Inv(o, b, n, threshold, w, r, last, note)
    ensures Cursors(o, b, n, w, r, last) && (note.None? ==> Untouched(o, b, n, w, r, last))
    ensures w <= r <= n <= |o| == |b| && last.count >= 1 && last.start + last.len <= r && (r < n ==> EndsLine(o, r))
  {
    hide Noted, Untouched, Held;
  }

  lemma RepeatCursors(o: string, b: string, n: nat, w: nat, r0: nat, last: Last, r: nat)
    requires Cursors(o, b, n, w, r0, last) && r0 < r <= n <= |o| && last.some && last.len > 3 && (r < n ==> EndsLine(o, r))
    requires last.count >= 1 && Held(last.len, last.count, EndsLine(o, r)) == Held(last.len, last.count - 1, EndsLine(o, r0)) + (r - r0)
    ensures Cursors(o, b, n, w, r, last.(count := last.count + 1))
  {
    hide Held;
  }

  lemma RepeatUntouched(o: string, b: string, n: nat, w: nat, r0: nat, last: Last, idx: nat)
    requires Untouched(o, b, n, w, r0, last) && r0 <= idx <= n <= |o| && r0 < n && last.some && EndsLine(o, r0)
    requires last.start + last.len <= |b| && b[last.start..last.start + last.len] == o[r0..idx] && Worth(o[r0..idx])
    requires (idx < n ==> o[idx] == '\n') && (EndsLine(o, if idx < n then idx + 1 else n) <==> idx < n)
    ensures Untouched(o, b, n, w, if idx < n then idx + 1 else n, last.(count := last.count + 1))
  {
    hide *;
    var r := if idx < n then idx + 1 else n;
    var nl := idx < n;
    var line := o[r0..idx];
    UntouchedRun(o, b, n, w, r0, last);
    HeldSnoc(last.len, last.count - 1, nl);
    RepeatedSnoc(line, last.count - 1, nl);
    RunLonger(o, w, r0, idx, r);
    UntouchedIntro(o, b, n, w, r, last.(count := last.count + 1));
  }

  lemma RunLonger(o: string, w: nat, r0: nat, idx: nat, r: nat)
    requires w <= r0 <= idx <= r <= |o| && (r == idx || (r == idx + 1 && o[idx] == '\n'))
    ensures o[w..r] == o[w..r0] + (o[r0..idx] + if r > idx then "\n" else "")
  {
  }

  lemma UntouchedRun(o: string, b: string, n: nat, w: nat, r: nat, last: Last)
    requires Untouched(o, b, n, w, r, last)
    ensures last.start + last.len <= w <= r <= n <= |o| && last.count >= 1 && b == o
    ensures w + Held(last.len, last.count - 1, EndsLine(o, r)) == r
    ensures o[w..r] == Repeated(o[last.start..last.start + last.len], last.count - 1, EndsLine(o, r))
    ensures last.count > 1 || (last.some && r < n) ==> w == last.start + last.len + 1 && o[w - 1] == '\n'
    ensures last.count > 1 ==> Worth(o[last.start..last.start + last.len])
  {
    hide Held, Repeated, Worth;
  }

  lemma UntouchedIntro(o: string, b: string, n: nat, w: nat, r: nat, last: Last)
    requires b == o && w <= r <= n <= |o| && last.start + last.len <= w && last.count >= 1
    requires w + Held(last.len, last.count - 1, EndsLine(o, r)) == r
    requires o[w..r] == Repeated(o[last.start..last.start + last.len], last.count - 1, EndsLine(o, r))
    requires last.count > 1 || (last.some && r < n) ==> w == last.start + last.len + 1 && o[w - 1] == '\n'
    requires last.count > 1 ==> Worth(o[last.start..last.start + last.len])
    ensures Untouched(o, b, n, w, r, last)
  {
    hide Held, Repeated, Worth;
  }

  lemma WorthIs(line: string)
    requires Worth(line)
    ensures |line| > 3
  {
  }

  /** The buffer between two lines: the run before was flushed. */
  ghost predicate Between(o: string, b: string, n: nat, threshold: int, w: nat, r: nat, note: Option<Collapse>) {
    && |b| == |o| && w <= r <= n <= |o| && EndsLine(o, r) && b[w..] == o[w..]
    && match note
       case None => b == o && w == r
       case Some(c) => Noted(o, b, n, w, threshold, c) && w < r
  }

  method FlushHeld(b: array<char>, n: nat, threshold: int, w0: nat, last: Last, newline: bool) returns (w: nat)
    requires n <= b.Length && last.count >= 1 && last.start + last.len <= n && w0 + Held(last.len, last.count - 1, newline) <= n
    modifies b
    ensures Flushed(old(b[..]), b[..], w0, last, threshold, newline, w)
  {
    hide Collapses, Held, Repeated, Pasted, Notice;
    ghost var was := b[..];
    assert b[last.start..last.start + last.len] == was[last.start..last.start + last.len] && b[..w0] == was[..w0];
    w := FlushRepeats(b, n, w0, last.start, last.len, last.count, threshold, newline);
    assert b[..w0] == b[..][..w0] && b[w..] == b[..][w..] && b[..w] == b[..][..w] && was[w..] == old(b[w..]);
  }

  method FlushLine(b: array<char>, n: nat, threshold: int, w0: nat, r0: nat, last: Last, ghost o: string, ghost note0: Option<Collapse>)
    returns (w: nat, ghost note: Option<Collapse>)
    requires n <= b.Length && r0 < n && Inv(o, b[..], n, threshold, w0, r0, last, note0)
    modifies b
    ensures Between(o, b[..], n, threshold, w, r0, note) && note == FlushedNote(o, threshold, w0, last, note0, true)
  {
    hide *;
    ghost var was := b[..];
    InvBounds(o, was, n, threshold, w0, r0, last, note0);
    w := FlushHeld(b, n, threshold, w0, last, true);
    note := FlushedNote(o, threshold, w0, last, note0, true);
    FlushedBetween(o, was, b[..], n, threshold, w0, r0, last, note0, w, note);
  }

  /** What FlushRepeats did. */
  ghost predicate Flushed(was: string, b: string, w0: nat, last: Last, threshold: int, newline: bool, w: nat) {
    && |b| == |was| && last.count >= 1 && w0 <= w <= w0 + Held(last.len, last.count - 1, newline) && w <= |b|
    && last.start + last.len <= |was|
    && b[..w0] == was[..w0] && b[w..] == was[w..]
    && (Collapses(last.len, last.count, threshold, newline) ==>
         w < w0 + Held(last.len, last.count - 1, newline) && b[..w] == was[..w0] + Notice(last.count - 1, newline))
    && (!Collapses(last.len, last.count, threshold, newline) ==> w == w0 + Held(last.len, last.count - 1, newline))
    && (!Collapses(last.len, last.count, threshold, newline) && last.start + last.len <= w0 ==>
         |Repeated(was[last.start..last.start + last.len], last.count - 1, newline)| == Held(last.len, last.count - 1, newline) &&
         w0 + Held(last.len, last.count - 1, newline) <= |was| &&
         b == Pasted(was, w0, Repeated(was[last.start..last.start + last.len], last.count - 1, newline)))
  }

  ghost function FlushedNote(o: string, threshold: int, w0: nat, last: Last, note: Option<Collapse>, newline: bool): Option<Collapse> {
    if note.Some? then note
    else if last.count >= 1 && Collapses(last.len, last.count, threshold, newline) && last.start + last.len <= |o| then
      Some(Collapse(w0, o[last.start..last.start + last.len], last.count - 1, newline))
    else None
  }

  /** The note stays true while nothing below its end is written. */
  lemma NotedStays(o: string, was: string, b: string, n: nat, w0: nat, w: nat, threshold: int, c: Collapse)
    requires Noted(o, was, n, w0, threshold, c) && |b| == |was| && w0 <= w <= |b| && b[..w0] == was[..w0]
    ensures Noted(o, b, n, w, threshold, c)
  {
    hide Notice, Repeated, Worth;
    var e := c.first + |Notice(c.times, c.newline)|;
    assert b[..e] == b[..w0][..e] && was[..e] == was[..w0][..e];
  }

  lemma FlushedBetween(o: string, was: string, b: string, n: nat, threshold: int, w0: nat, r0: nat, last: Last,
                       note0: Option<Collapse>, w: nat, note: Option<Collapse>)
    requires Inv(o, was, n, threshold, w0, r0, last, note0) && r0 < n && Flushed(was, b, w0, last, threshold, true, w)
    requires note == FlushedNote(o, threshold, w0, last, note0, true)
    ensures Between(o, b, n, threshold, w, r0, note)
  {
    hide Noted, Held, Repeated, Collapses, Notice, Pasted, Worth;
    InvBounds(o, was, n, threshold, w0, r0, last, note0);
    assert b[w..] == was[w..] == was[w0..][w - w0..] && o[w..] == o[w0..][w - w0..];
    match note0
    case Some(c) => NotedStays(o, was, b, n, w0, w, threshold, c);
    case None =>
      if Collapses(last.len, last.count, threshold, true) {
        FirstNoted(o, was, b, n, threshold, w0, r0, last, w, true);
      } else {
        PastedSame(o, w0, Repeated(o[last.start..last.start + last.len], last.count - 1, true));
      }
  }

  lemma FirstNoted(o: string, was: string, b: string, n: nat, threshold: int, w0: nat, r0: nat, last: Last, w: nat, newline: bool)
    requires Cursors(o, was, n, w0, r0, last) && Untouched(o, was, n, w0, r0, last) && newline == EndsLine(o, r0)
    requires Flushed(was, b, w0, last, threshold, newline, w) && Collapses(last.len, last.count, threshold, newline)
    ensures last.start + last.len <= |o|
    ensures Noted(o, b, n, w, threshold, Collapse(w0, o[last.start..last.start + last.len], last.count - 1, newline))
  {
    hide *;
    UntouchedRun(o, was, n, w0, r0, last);
    var line := o[last.start..last.start + last.len];
    var c := Collapse(w0, line, last.count - 1, newline);
    RepeatedLength(line, last.count - 1, newline);
    CollapsesIs(last.len, last.count, threshold, newline);
    FlushedNotice(was, b, w0, last, threshold, newline, w);
    FirstLine(o, n, w0, last);
    NotedIntro(o, b, n, w, r0, threshold, c);
  }

  lemma FlushedNotice(was: string, b: string, w0: nat, last: Last, threshold: int, newline: bool, w: nat)
    requires Flushed(was, b, w0, last, threshold, newline, w) && Collapses(last.len, last.count, threshold, newline)
    ensures last.count >= 1 && w0 <= |was| == |b| && w <= |b|
    ensures w == w0 + |Notice(last.count - 1, newline)| && b[..w] == was[..w0] + Notice(last.count - 1, newline)
  {
    hide Held, Repeated, Collapses, Notice, Pasted;
    assert |b[..w]| == |was[..w0]| + |Notice(last.count - 1, newline)|;
  }

  lemma NotedIntro(o: string, b: string, n: nat, w: nat, r: nat, threshold: int, c: Collapse)
    requires var notice, run := Notice(c.times, c.newline), Repeated(c.line, c.times, c.newline);
             && w == c.first + |notice| <= |b| && c.first <= r <= n <= |o| && |notice| < |run|
             && b[..w] == o[..c.first] + notice && o[c.first..r] == run
             && |c.line| + 1 <= c.first && o[c.first - |c.line| - 1..c.first] == c.line + "\n"
             && c.times + 1 >= threshold && c.times > 0 && Worth(c.line)
    ensures Noted(o, b, n, w, threshold, c)
  {
    hide Notice, Repeated, Worth;
    assert r == c.first + |Repeated(c.line, c.times, c.newline)|;
  }

  /** The run follows its line. */
  lemma FirstLine(o: string, n: nat, w0: nat, last: Last)
    requires w0 == last.start + last.len + 1 && w0 <= |o| && o[w0 - 1] == '\n'
    ensures o[w0 - last.len - 1..w0] == o[last.start..last.start + last.len] + "\n"
  {
  }

  lemma CollapsesIs(len: nat, count: nat, threshold: int, newline: bool)
    requires Collapses(len, count, threshold, newline)
    ensures count > 1 && count >= threshold && Held(len, count - 1, newline) > |Notice(count - 1, newline)|
  {
  }

  /** The line that was read goes to the write cursor. */
  method CopyLine(b: array<char>, n: nat, threshold: int, w0: nat, r0: nat, idx: nat, line: string, ghost o: string,
                  ghost note: Option<Collapse>)
    returns (w: nat)
    requires n <= b.Length && r0 <= idx <= n <= |o| && r0 < n && Between(o, b[..], n, threshold, w0, r0, note)
    requires (idx < n ==> o[idx] == '\n') && '\n' !in o[r0..idx] && line == o[r0..idx]
    modifies b
    ensures var r := if idx < n then idx + 1 else n; Inv(o, b[..], n, threshold, w, r, Last(true, r0, idx - r0, 1), note)
  {
    hide *;
    ghost var was := b[..];
    BetweenBounds(o, was, n, threshold, w0, r0, note);
    w := w0;
    if w != r0 {
      WriteAt(b, w, line);
      w := w + |line|;
      ghost var x := line;
      if idx < n {
        WriteAt(b, w, "\n");
        PastedTwice(was, w0, line, "\n");
        w := w + 1;
        x := x + "\n";
      }
      PastedParts(was, w0, x);
    } else {
      w := w + |line|;
      if idx < n { w := w + 1; }
    }
    LineCopied(o, was, b[..], n, threshold, w0, r0, idx, w, note);
  }

  lemma BetweenBounds(o: string, b: string, n: nat, threshold: int, w: nat, r: nat, note: Option<Collapse>)
    requires Between(o, b, n, threshold, w, r, note)
    ensures |b| == |o| && w <= r <= n <= |o|
  {
    hide Noted;
  }

  lemma LineCopied(o: string, was: string, b: string, n: nat, threshold: int, w0: nat, r0: nat, idx: nat, w: nat, note: Option<Collapse>)
    requires Between(o, was, n, threshold, w0, r0, note) && r0 <= idx <= n <= |o| && r0 < n
    requires (idx < n ==> o[idx] == '\n') && '\n' !in o[r0..idx]
    requires |b| == |was| && w == w0 + (idx - r0) + (if idx < n then 1 else 0) && w <= |b|
    requires b[..w0] == was[..w0] && b[w..] == was[w..] && (w0 == r0 ==> b == was)
    ensures var r := if idx < n then idx + 1 else n; Inv(o, b, n, threshold, w, r, Last(true, r0, idx - r0, 1), note)
  {
    hide Noted, Worth;
    var r := if idx < n then idx + 1 else n;
    assert b[w..] == was[w0..][w - w0..] == o[w..];
    if note.Some? { NotedStays(o, was, b, n, w0, w, threshold, note.value); }
    assert o[w..w] == "";
  }

  /** The flush behind the loop. */
  method FlushLast(b: array<char>, n: nat, threshold: int, w0: nat, last: Last, ghost o: string, ghost note0: Option<Collapse>)
    returns (w: nat, ghost note: Option<Collapse>)
    requires 0 < n <= b.Length && Inv(o, b[..], n, threshold, w0, n, last, note0) && Seen(o, n, threshold, n, last, note0)
    modifies b
    ensures w <= n && |b[..]| == |o| && b[..][w..] == o[w..]
    ensures note.None? ==> w == n && b[..] == o
    ensures note.Some? ==> w < n && Noted(o, b[..], n, w, threshold, note.value)
    ensures IsFirst(o, n, threshold, note)
  {
    hide *;
    ghost var was := b[..];
    InvBounds(o, was, n, threshold, w0, n, last, note0);
    SeenEnd(o, was, n, threshold, w0, last, note0);
    var trailing := b[n - 1] == '\n';
    TrailingIs(o, was, n, w0, last);
    w := FlushHeld(b, n, threshold, w0, last, trailing);
    note := FlushedNote(o, threshold, w0, last, note0, trailing);
    NoteSame(o, threshold, w0, last, note0, trailing, EndsLine(o, n));
    FlushedLast(o, was, b[..], n, threshold, w0, last, note0, w, trailing, note);
  }

  /** The last byte tells whether the last line ended: it is not yet overwritten while lines are held. */
  lemma TrailingIs(o: string, b: string, n: nat, w: nat, last: Last)
    requires 0 < n <= |o| == |b| && w <= n && b[w..] == o[w..] && last.count >= 1
    requires w + Held(last.len, last.count - 1, EndsLine(o, n)) <= n && (last.count > 1 ==> last.len > 3)
    ensures last.count > 1 ==> (b[n - 1] == '\n' <==> EndsLine(o, n))
    ensures Held(last.len, last.count - 1, b[n - 1] == '\n') == Held(last.len, last.count - 1, EndsLine(o, n))
  {
    if last.count > 1 {
      assert Held(last.len, last.count - 1, EndsLine(o, n)) > 0;
      assert b[n - 1] == b[w..][n - 1 - w] && o[n - 1] == o[w..][n - 1 - w];
    }
  }

  lemma FlushedLast(o: string, was: string, b: string, n: nat, threshold: int, w0: nat, last: Last,
                    note0: Option<Collapse>, w: nat, newline: bool, note: Option<Collapse>)
    requires n <= |o| && Inv(o, was, n, threshold, w0, n, last, note0) && Flushed(was, b, w0, last, threshold, newline, w)
    requires last.count > 1 ==> newline == EndsLine(o, n)
    requires note == FlushedNote(o, threshold, w0, last, note0, newline)
    ensures w <= n && |b| == |o| && b[w..] == o[w..]
    ensures note.None? ==> w == n && b == o
    ensures note.Some? ==> w < n && Noted(o, b, n, w, threshold, note.value)
  {
    hide *;
    InvBounds(o, was, n, threshold, w0, n, last, note0);
    InvParts(o, was, n, threshold, w0, n, last, note0);
    FlushedBounds(was, b, w0, last, threshold, newline, w);
    TailKept(o, was, b, w0, w);
    HeldRepeated(o, last, newline, EndsLine(o, n));
    NoteIs(o, threshold, w0, last, note0, newline);
    match note0
    case Some(c) =>
      InvNoted(o, was, n, threshold, w0, n, last, note0);
      NotedStays(o, was, b, n, w0, w, threshold, c);
    case None =>
      if Collapses(last.len, last.count, threshold, newline) {
        CollapsesIs(last.len, last.count, threshold, newline);
        FirstNoted(o, was, b, n, threshold, w0, n, last, w, newline);
      } else {
        UntouchedRun(o, was, n, w0, n, last);
        FlushedPasted(was, b, w0, last, threshold, newline, w);
        PastedSame(o, w0, Repeated(o[last.start..last.start + last.len], last.count - 1, newline));
      }
  }

  lemma FlushedBounds(was: string, b: string, w0: nat, last: Last, threshold: int, newline: bool, w: nat)
    requires Flushed(was, b, w0, last, threshold, newline, w)
    ensures |b| == |was| && last.count >= 1 && w0 <= w <= w0 + Held(last.len, last.count - 1, newline) && w <= |b|
    ensures b[..w0] == was[..w0] && b[w..] == was[w..]
    ensures Collapses(last.len, last.count, threshold, newline) ==> w < w0 + Held(last.len, last.count - 1, newline)
    ensures !Collapses(last.len, last.count, threshold, newline) ==> w == w0 + Held(last.len, last.count - 1, newline)
  {
    hide Held, Repeated, Collapses, Notice, Pasted;
  }

  lemma FlushedPasted(was: string, b: string, w0: nat, last: Last, threshold: int, newline: bool, w: nat)
    requires Flushed(was, b, w0, last, threshold, newline, w) && !Collapses(last.len, last.count, threshold, newline)
    requires last.start + last.len <= w0
    ensures last.start + last.len <= |was| && last.count >= 1
    ensures var run := Repeated(was[last.start..last.start + last.len], last.count - 1, newline);
            w == w0 + |run| <= |was| && b == Pasted(was, w0, run)
  {
    hide Held, Repeated, Collapses, Notice, Pasted;
  }

  lemma TailKept(o: string, was: string, b: string, w0: nat, w: nat)
    requires |b| == |was| == |o| && w0 <= w <= |b| && was[w0..] == o[w0..] && (b[w..] == was[w..] || b[w0..] == was[w0..])
    ensures b[w..] == o[w..]
  {
    assert was[w..] == was[w0..][w - w0..] && o[w..] == o[w0..][w - w0..] && b[w..] == b[w0..][w - w0..];
  }

  lemma NoteIs(o: string, threshold: int, w0: nat, last: Last, note: Option<Collapse>, newline: bool)
    requires last.count >= 1 && last.start + last.len <= |o|
    ensures var r := FlushedNote(o, threshold, w0, last, note, newline);
            && (note.Some? ==> r == note)
            && (note.None? && Collapses(last.len, last.count, threshold, newline) ==>
                 r == Some(Collapse(w0, o[last.start..last.start + last.len], last.count - 1, newline)))
            && (note.None? && !Collapses(last.len, last.count, threshold, newline) ==> r == None)
  {
    hide Collapses;
  }

  lemma InvNoted(o: string, b: string, n: nat, threshold: int, w: nat, r: nat, last: Last, note: Option<Collapse>)
    requires Inv(o, b, n, threshold, w, r, last, note) && note.Some?
    ensures Noted(o, b, n, w, threshold, note.value)
  {
    hide Noted;
  }

  lemma HeldRepeated(o: string, last: Last, x: bool, y: bool)
    requires last.count >= 1 && last.start + last.len <= |o| && (last.count > 1 ==> x == y)
    ensures var line := o[last.start..last.start + last.len];
            Repeated(line, last.count - 1, x) == Repeated(line, last.count - 1, y) &&
            Held(last.len, last.count - 1, x) == Held(last.len, last.count - 1, y)
  {
  }
}
