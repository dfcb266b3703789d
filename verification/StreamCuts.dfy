/**
 What routeContentDelta (pkg/server/stream_normalizer.go) makes of a write tag that is cut in two by
 the chunks of the stream: exactly what findPartialWriteTagSuffix holds back, when a cut tag is
 recorded as if it had come in one chunk, and where a closing tag is not.
 */
module StreamCuts {
  import opened StreamLanes

  // ---------------------------------------------------------------- what is held back

  /** All of u may be the beginning of a tag: one prefix, at its start, no '>', and the rest begins the name of a write tool. */
  predicate Begins(tools: Tools, u: string, closing: bool) {
    && PrefixAt(u, 0, closing) && '>' !in u
    && (forall k: nat | 0 < k < |u| :: !OpensAt(u, k, closing))
    && |u| >= PrefixLen(closing) && tools.begins(u[PrefixLen(closing)..])
  }

  lemma {:induction false} LastPrefixIs(s: string, low: nat, i: nat, closing: bool)
    requires low <= i <= |s|
    ensures var r := LastPrefix(s, low, i, closing);
            && (r == -1 ==> forall k: nat | low <= k < i :: !OpensAt(s, k, closing))
            && (r != -1 ==> low <= r < i && OpensAt(s, r, closing) && forall k: nat | r < k < i :: !OpensAt(s, k, closing))
    decreases i
  {
    if i > low && !OpensAt(s, i - 1, closing) { LastPrefixIs(s, low, i - 1, closing); }
  }

  lemma OpensDrop(s: string, h: nat, k: nat, closing: bool)
    requires h <= k <= |s|
    ensures OpensAt(s[h..], k - h, closing) <==> OpensAt(s, k, closing)
    ensures PrefixAt(s[h..], k - h, closing) <==> PrefixAt(s, k, closing)
  {
    if k < |s| { assert s[h..][k - h] == s[k]; }
    if k + 1 < |s| { assert s[h..][k + 1 - h] == s[k + 1]; }
  }

  /** An end of the text is held back if and only if it fits the window and may be the beginning of a tag. */
  lemma {:induction false} PartialExactly(tools: Tools, s: string, closing: bool, n: nat)
    requires 0 < n <= |s|
    ensures PartialLen(tools, s, closing) == n <==> n <= WINDOW && Begins(tools, s[|s| - n..], closing)
  {
    hide LastPrefix;
    var low := if |s| > WINDOW then |s| - WINDOW else 0;
    var i := LastPrefix(s, low, |s|, closing);
    LastPrefixIs(s, low, |s|, closing);
    if i != -1 { BeginsHere(tools, s, i, closing); }
    if n <= WINDOW && Begins(tools, s[|s| - n..], closing) {
      BeginsHere(tools, s, |s| - n, closing);
      hide Begins;
      assert low <= |s| - n;
      assert i == |s| - n;
    }
  }

  lemma BeginsHere(tools: Tools, s: string, i: nat, closing: bool)
    requires i < |s|
    ensures Begins(tools, s[i..], closing) <==>
              && PrefixAt(s, i, closing) && '>' !in s[i..]
              && (forall k: nat | i < k < |s| :: !OpensAt(s, k, closing))
              && i + PrefixLen(closing) <= |s| && tools.begins(s[i + PrefixLen(closing)..])
    ensures PrefixAt(s, i, closing) ==> OpensAt(s, i, closing) && i + PrefixLen(closing) <= |s|
    ensures OpensAt(s, i, closing) ==> (PrefixAt(s, i, closing) <==> closing || !(i + 1 < |s| && s[i + 1] == '/'))
  {
    var u := s[i..];
    OpensDrop(s, i, i, closing);
    forall k: nat | i <= k <= |s| ensures OpensAt(u, k - i, closing) <==> OpensAt(s, k, closing) {
      OpensDrop(s, i, k, closing);
    }
    if |u| >= PrefixLen(closing) { assert u[PrefixLen(closing)..] == s[i + PrefixLen(closing)..]; }
    hide OpensAt;
    if forall k: nat | i < k < |s| :: !OpensAt(s, k, closing) {
      forall k: nat | 0 < k < |u| ensures !OpensAt(u, k, closing) {
        assert !OpensAt(s, k + i, closing);
        assert OpensAt(u, k + i - i, closing) <==> OpensAt(s, k + i, closing);
      }
    }
    if forall k: nat | 0 < k < |u| :: !OpensAt(u, k, closing) {
      forall k: nat | i < k < |s| ensures !OpensAt(s, k, closing) {
        assert !OpensAt(u, k - i, closing);
      }
    }
  }

  // ---------------------------------------------------------------- what is recorded, character by character

  /** The characters of a piece, and whether they are tool text. */
  function Marked(p: Piece): (r: seq<(char, bool)>)
    ensures |r| == |p.text|
  {
    seq(|p.text|, i requires 0 <= i < |p.text| => (p.text[i], p.Tool?))
  }

  function Chars(pieces: seq<Piece>): seq<(char, bool)> {
    if pieces == [] then [] else Marked(pieces[0]) + Chars(pieces[1..])
  }

  lemma {:induction false} CharsAppend(a: seq<Piece>, b: seq<Piece>)
    ensures Chars(a + b) == Chars(a) + Chars(b)
  {
    if a == [] {
      assert a + b == b;
    } else {
      assert (a + b)[1..] == a[1..] + b;
      CharsAppend(a[1..], b);
      hide Marked;
      assert Marked(a[0]) + (Chars(a[1..]) + Chars(b)) == Marked(a[0]) + Chars(a[1..]) + Chars(b);
    }
  }

  lemma CharsOne(p: Piece)
    ensures Chars([p]) == Marked(p) && Chars(NonEmpty(p)) == Marked(p)
  {
    assert [p][1..] == [];
    assert Marked(p) + [] == Marked(p);
  }

  lemma MarkedJoin(lane: Lane, a: string, b: string)
    ensures Marked(InLane(lane, a)) + Marked(InLane(lane, b)) == Marked(InLane(lane, a + b))
  {
  }

  // ---------------------------------------------------------------- a cut tag

  /** The first tag is (start, end), and the chunk ends inside it. */
  ghost predicate CutInTag(tools: Tools, lane: Lane, full: string, start: nat, end: nat, cut: nat) {
    start < cut < end <= |full| && FirstTag(tools, full, 0, lane.inTool) == (start as int, end as int)
  }

  lemma CutTells(tools: Tools, lane: Lane, full: string, start: nat, end: nat, cut: nat)
    requires CutInTag(tools, lane, full, start, end, cut)
    ensures start + PrefixLen(lane.inTool) < end && TagAt(tools, full, start, lane.inTool)
    ensures GtEnd(full, start + PrefixLen(lane.inTool)) == end
    ensures forall k: nat | k < start :: !TagAt(tools, full, k, lane.inTool)
    ensures forall k | start + PrefixLen(lane.inTool) <= k < end - 1 :: full[k] != '>'
  {
    hide TagAt;
  }

  /** The first chunk holds no complete tag. */
  lemma CutNoTag(tools: Tools, lane: Lane, full: string, start: nat, end: nat, cut: nat)
    requires CutInTag(tools, lane, full, start, end, cut)
    ensures NoTag(tools, full[..cut], lane.inTool)
  {
    CutTells(tools, lane, full, start, end, cut);
    hide TagAt, FirstTag, GtEnd;
    var s, closing := full[..cut], lane.inTool;
    forall k: nat | k + PrefixLen(closing) <= cut && TagAt(tools, s, k, closing)
      ensures GtEnd(s, k + PrefixLen(closing)) == -1
    {
      if k < start {
        if GtEnd(s, k + PrefixLen(closing)) != -1 { TagPrefix(tools, full, cut, k, closing); }
      } else {
        NoGt(full, cut, k + PrefixLen(closing));
      }
    }
  }

  lemma NoGt(full: string, cut: nat, i: nat)
    requires i <= cut <= |full| && forall k | i <= k < cut :: full[k] != '>'
    ensures GtEnd(full[..cut], i) == -1
  {
    GtEndAt(full[..cut], i);
    hide GtEnd;
  }

  lemma GtEndAt(s: string, i: nat)
    requires i <= |s|
    ensures GtEnd(s, i) == -1 || (i < GtEnd(s, i) <= |s| && s[GtEnd(s, i) - 1] == '>')
  {
  }

  /** Without a complete tag a chunk is text of its lane, but for the end that is held. */
  lemma RouteHeld(tools: Tools, native: bool, lane: Lane, s: string)
    requires s != "" && NoTag(tools, s, lane.inTool)
    ensures var r := Route(tools, native, lane, s);
            var first := FirstTag(tools, s, 0, lane.inTool).0;
            var h := if first != -1 then first else |s| - PartialLen(tools, s, lane.inTool);
            0 <= h <= |s| && r.lane == lane && r.pending == s[h..] && Chars(r.pieces) == Marked(InLane(lane, s[..h]))
  {
    var (first, end) := FirstTag(tools, s, 0, lane.inTool);
    assert first != -1 ==> end == -1;
    hide FirstTag, PartialLen, TagAt, GtEnd, Chars, Marked, NoTag, NonEmpty;
    if first == -1 {
      RouteNoTag(tools, native, lane, s, []);
      var n := |s| - PartialLen(tools, s, lane.inTool);
      CharsOne(InLane(lane, s[..n]));
      GoesDone([], Route(tools, native, lane, s), [] + NonEmpty(InLane(lane, s[..n])), lane, s[n..]);
      Plain(Route(tools, native, lane, s).pieces, NonEmpty(InLane(lane, s[..n])));
    } else {
      RouteTag(tools, native, lane, s, []);
      CharsOne(InLane(lane, s[..first]));
      GoesDone([], Route(tools, native, lane, s), [] + NonEmpty(InLane(lane, s[..first])), lane, s[first..]);
      Plain(Route(tools, native, lane, s).pieces, NonEmpty(InLane(lane, s[..first])));
    }
  }

  lemma Plain(a: seq<Piece>, b: seq<Piece>)
    requires [] + b == [] + a
    ensures a == b
  {
    assert [] + b == b && [] + a == a;
  }

  lemma {:induction false} NameDrop(s: string, h: nat, i: nat, closing: bool)
    requires h <= i <= |s|
    ensures NameEnd(s[h..], i - h, closing) == NameEnd(s, i, closing) - h
    decreases |s| - i
  {
    if i < |s| {
      assert s[h..][i - h] == s[i];
      if !EndsName(s[i], closing) { NameDrop(s, h, i + 1, closing); }
    }
  }

  lemma {:induction false} GtDrop(s: string, h: nat, i: nat)
    requires h <= i <= |s|
    ensures GtEnd(s[h..], i - h) == if GtEnd(s, i) == -1 then -1 else GtEnd(s, i) - h
    decreases |s| - i
  {
    if i < |s| {
      assert s[h..][i - h] == s[i];
      if s[i] != '>' { GtDrop(s, h, i + 1); }
    }
  }

  lemma TagDrop(tools: Tools, s: string, h: nat, k: nat, closing: bool)
    requires h <= k <= |s|
    ensures TagAt(tools, s[h..], k - h, closing) <==> TagAt(tools, s, k, closing)
  {
    OpensDrop(s, h, k, closing);
    var j := k + PrefixLen(closing);
    if PrefixAt(s, k, closing) {
      assert j <= |s|;
      NameDrop(s, h, j, closing);
      SliceWithin(s, h, |s|, j, NameEnd(s, j, closing));
      assert s[h..] == s[h..|s|];
    }
  }

  /** A complete first tag: the text before it, the tag as tool text, and what follows in the other lane. */
  lemma RouteFirst(tools: Tools, native: bool, lane: Lane, full: string, start: nat, end: nat)
    requires start < end <= |full| && FirstTag(tools, full, 0, lane.inTool) == (start as int, end as int)
    ensures var r, t := Route(tools, native, lane, full), Route(tools, native, AfterTag(lane, native), full[end..]);
            && r.lane == t.lane && r.pending == t.pending
            && Chars(r.pieces) == Marked(InLane(lane, full[..start])) + (Marked(Tool(full[start..end])) + Chars(t.pieces))
  {
    hide FirstTag, Chars, Marked, NonEmpty, AfterTag;
    var t := Route(tools, native, AfterTag(lane, native), full[end..]);
    RouteTag(tools, native, lane, full, []);
    var before, tag := NonEmpty(InLane(lane, full[..start])), [Tool(full[start..end])];
    var r := Route(tools, native, lane, full);
    hide Route;
    GoesIs(r, before, tag, t);
    CharsOne(InLane(lane, full[..start]));
    CharsOne(Tool(full[start..end]));
    CharsAppend(before, tag);
    CharsAppend(before + tag, t.pieces);
    Assoc3Chars(Chars(before), Chars(tag), Chars(t.pieces));
  }

  lemma Assoc3Chars(a: seq<(char, bool)>, b: seq<(char, bool)>, c: seq<(char, bool)>)
    ensures a + b + c == a + (b + c)
  {
  }

  /** Where the held end of the first chunk starts. */
  function HeldFrom(tools: Tools, native: bool, lane: Lane, full: string, cut: nat): int
    requires cut <= |full|
  {
    cut - |Route(tools, native, lane, full[..cut]).pending|
  }

  /** The two chunks one after the other. */
  lemma TwoChunks(tools: Tools, native: bool, lane: Lane, full: string, start: nat, end: nat, cut: nat)
    requires CutInTag(tools, lane, full, start, end, cut)
    ensures var h := HeldFrom(tools, native, lane, full, cut);
            && 0 <= h <= cut
            && var r := RouteAll(tools, native, lane, "", [full[..cut], full[cut..]]);
               var t := Route(tools, native, lane, full[h..]);
               r.lane == t.lane && r.pending == t.pending && Chars(r.pieces) == Marked(InLane(lane, full[..h])) + Chars(t.pieces)
  {
    hide *;
    Inside(tools, lane, full, start, end, cut);
    CutNoTag(tools, lane, full, start, end, cut);
    FirstChunk(tools, native, lane, full, cut);
    var s, h := full[..cut], HeldFrom(tools, native, lane, full, cut);
    var r, t := Route(tools, native, lane, s), Route(tools, native, lane, full[h..]);
    TwoRouted(tools, native, lane, s, full[cut..]);
    CharsAppend(r.pieces, t.pieces);
  }

  lemma FirstChunk(tools: Tools, native: bool, lane: Lane, full: string, cut: nat)
    requires 0 < cut <= |full| && NoTag(tools, full[..cut], lane.inTool)
    ensures var h, r := HeldFrom(tools, native, lane, full, cut), Route(tools, native, lane, full[..cut]);
            && 0 <= h <= cut && "" + full[..cut] == full[..cut] && r.pending + full[cut..] == full[h..]
            && r.lane == lane && Chars(r.pieces) == Marked(InLane(lane, full[..h]))
  {
    hide Route, FirstTag, PartialLen, NoTag, Chars, Marked;
    var s := full[..cut];
    RouteHeld(tools, native, lane, s);
    var h := HeldFrom(tools, native, lane, full, cut);
    CutText(full, cut, h);
  }

  lemma Rejoined(full: string, cut: nat)
    requires cut <= |full|
    ensures full[..cut] + full[cut..] == full
  {
  }

  lemma CutText(full: string, cut: nat, h: nat)
    requires h <= cut <= |full|
    ensures full[..cut][h..] + full[cut..] == full[h..] && full[..cut][..h] == full[..h]
    ensures "" + full[..cut] == full[..cut]
  {
  }

  lemma Inside(tools: Tools, lane: Lane, full: string, start: nat, end: nat, cut: nat)
    requires CutInTag(tools, lane, full, start, end, cut)
    ensures start < cut < end <= |full| && FirstTag(tools, full, 0, lane.inTool) == (start as int, end as int)
  {
  }

  lemma TwoRouted(tools: Tools, native: bool, lane: Lane, s: string, q: string)
    ensures var r := Route(tools, native, lane, "" + s);
            var t := Route(tools, native, r.lane, r.pending + q);
            RouteAll(tools, native, lane, "", [s, q]) == Routed(r.pieces + t.pieces, t.lane, t.pending)
  {
    hide Route;
    var r := Route(tools, native, lane, "" + s);
    var t := Route(tools, native, r.lane, r.pending + q);
    assert [s, q][1..] == [q] && [q][1..] == [];
    assert t.pieces + [] == t.pieces;
    assert RouteAll(tools, native, r.lane, r.pending, [q]) == Routed(t.pieces + [], t.lane, t.pending);
  }

  /**
   A write tag cut in two is recorded, character by character, as if it had come in one chunk, and
   leaves the same lane and the same held text, whenever the first chunk is held back from its "<" on.
   For an opening tag exactly then: otherwise its beginning is recorded as prose.
   */
  lemma CutTagRecorded(tools: Tools, native: bool, lane: Lane, full: string, start: nat, end: nat, cut: nat)
    requires CutInTag(tools, lane, full, start, end, cut)
    ensures var one, two := Route(tools, native, lane, full), RouteAll(tools, native, lane, "", [full[..cut], full[cut..]]);
            var held := HeldFrom(tools, native, lane, full, cut) <= start;
            && (held ==> Chars(two.pieces) == Chars(one.pieces) && two.lane == one.lane && two.pending == one.pending)
            && (!lane.inTool && !held ==> Chars(two.pieces) != Chars(one.pieces))
  {
    hide *;
    Inside(tools, lane, full, start, end, cut);
    TwoChunks(tools, native, lane, full, start, end, cut);
    var h := HeldFrom(tools, native, lane, full, cut);
    if h <= start {
      RestRouted(tools, native, lane, full, start, end, h);
    } else if !lane.inTool {
      RouteFirst(tools, native, lane, full, start, end);
      MarkedAt(lane, full[..h], start);
      MarkedSize(lane, full[..start]);
      ToolAt(full[start..end]);
      Differ(Marked(InLane(lane, full[..h])), Chars(Route(tools, native, lane, full[h..]).pieces), Marked(InLane(lane, full[..start])),
             Marked(Tool(full[start..end])), Chars(Route(tools, native, AfterTag(lane, native), full[end..]).pieces));
    }
  }

  /** Text before the first tag may be routed ahead. */
  lemma RestRouted(tools: Tools, native: bool, lane: Lane, full: string, start: nat, end: nat, h: nat)
    requires h <= start < end <= |full| && FirstTag(tools, full, 0, lane.inTool) == (start as int, end as int)
    ensures var one, t := Route(tools, native, lane, full), Route(tools, native, lane, full[h..]);
            && one.lane == t.lane && one.pending == t.pending
            && Chars(one.pieces) == Marked(InLane(lane, full[..h])) + Chars(t.pieces)
  {
    hide *;
    HeldDrop(tools, full, full[h..], h, start, start - h, end, lane.inTool);
    RouteFirst(tools, native, lane, full, start, end);
    RouteFirst(tools, native, lane, full[h..], start - h, end - h);
    assert full[h..][..start - h] == full[h..start] && full[h..][start - h..end - h] == full[start..end];
    assert full[h..][end - h..] == full[end..];
    MarkedJoin(lane, full[..h], full[h..start]);
    assert full[..h] + full[h..start] == full[..start];
    Assoc3Chars(Marked(InLane(lane, full[..h])), Marked(InLane(lane, full[h..start])),
                Marked(Tool(full[start..end])) + Chars(Route(tools, native, AfterTag(lane, native), full[end..]).pieces));
  }

  lemma ToolAt(s: string)
    requires s != ""
    ensures Marked(Tool(s)) != [] && Marked(Tool(s))[0] == (s[0], true)
  {
  }

  lemma MarkedAt(lane: Lane, s: string, i: nat)
    requires i < |s|
    ensures |Marked(InLane(lane, s))| == |s| && Marked(InLane(lane, s))[i] == (s[i], lane.inTool)
  {
  }

  lemma MarkedSize(lane: Lane, s: string)
    ensures |Marked(InLane(lane, s))| == |s|
  {
  }

  lemma Differ(x: seq<(char, bool)>, y: seq<(char, bool)>, a: seq<(char, bool)>, b: seq<(char, bool)>, c: seq<(char, bool)>)
    requires |a| < |x| && b != [] && x[|a|] != b[0]
    ensures x + y != a + (b + c)
  {
    assert (x + y)[|a|] == x[|a|] && (a + (b + c))[|a|] == b[0];
  }

  /** What is before the first tag may be cut off. */
  lemma HeldDrop(tools: Tools, full: string, t: string, h: nat, start: nat, k: nat, end: nat, closing: bool)
    requires h <= start < end <= |full| && t == full[h..] && k == start - h
    requires FirstTag(tools, full, 0, closing) == (start as int, end as int)
    ensures FirstTag(tools, t, 0, closing) == (k as int, end - h)
  {
    hide *;
    DropSkips(tools, full, t, h, start, k, end, closing);
    DropHere(tools, full, t, h, start, k, end, closing);
  }

  lemma DropSkips(tools: Tools, full: string, t: string, h: nat, start: nat, k: nat, end: nat, closing: bool)
    requires h <= start < end <= |full| && t == full[h..] && k == start - h
    requires FirstTag(tools, full, 0, closing) == (start as int, end as int)
    ensures k <= |t| && FirstTag(tools, t, 0, closing) == FirstTag(tools, t, k, closing)
  {
    hide *;
    FirstTells(tools, full, start, end, closing);
    forall i: nat | i < k ensures !TagAt(tools, t, i, closing) {
      TagDrop(tools, full, h, i + h, closing);
      assert i + h - h == i;
    }
    SkipTo(tools, t, 0, k, closing);
  }

  lemma DropHere(tools: Tools, full: string, t: string, h: nat, start: nat, k: nat, end: nat, closing: bool)
    requires h <= start < end <= |full| && t == full[h..] && k == start - h
    requires FirstTag(tools, full, 0, closing) == (start as int, end as int)
    ensures FirstTag(tools, t, k, closing) == (k as int, end - h)
  {
    hide *;
    FirstTells(tools, full, start, end, closing);
    TagDrop(tools, full, h, start, closing);
    FirstHere(tools, t, k, closing);
    GtDrop(full, h, start + PrefixLen(closing));
    assert start + PrefixLen(closing) - h == k + PrefixLen(closing);
  }

  lemma FirstTells(tools: Tools, full: string, start: nat, end: nat, closing: bool)
    requires start < end <= |full| && FirstTag(tools, full, 0, closing) == (start as int, end as int)
    ensures TagAt(tools, full, start, closing) && start + PrefixLen(closing) <= |full|
    ensures GtEnd(full, start + PrefixLen(closing)) == end
    ensures forall k: nat | k < start :: !TagAt(tools, full, k, closing)
  {
    hide TagAt;
  }

  // ---------------------------------------------------------------- which cuts are survived

  lemma {:induction false} NameCut(full: string, cut: nat, i: nat, closing: bool)
    requires i <= cut <= |full|
    ensures NameEnd(full[..cut], i, closing) == if NameEnd(full, i, closing) <= cut then NameEnd(full, i, closing) else cut
    decreases cut - i
  {
    if i < cut {
      assert full[..cut][i] == full[i];
      if !EndsName(full[i], closing) { NameCut(full, cut, i + 1, closing); }
    }
  }

  /** A chunk that ends behind the name of a tag shows the tag. */
  lemma NameShown(tools: Tools, full: string, start: nat, cut: nat, closing: bool)
    requires TagAt(tools, full, start, closing) && start + PrefixLen(closing) <= cut <= |full|
    requires NameEnd(full, start + PrefixLen(closing), closing) <= cut
    ensures TagAt(tools, full[..cut], start, closing)
  {
    var j := start + PrefixLen(closing);
    NameCut(full, cut, j, closing);
    var n := NameEnd(full, j, closing);
    hide NameEnd;
    PrefixSlice(full, cut, j, n);
    PrefixSlice(full, cut, start, j);
  }

  lemma PrefixSlice(full: string, cut: nat, i: nat, j: nat)
    requires i <= j <= cut <= |full|
    ensures full[..cut][i..j] == full[i..j] && forall k | i <= k < j :: full[..cut][k] == full[k]
  {
    forall k | 0 <= k < j - i ensures full[..cut][i..j][k] == full[i..j][k] {
    }
  }

  /** A chunk that ends within the name may be the beginning of the tag. */
  lemma NameBegins(tools: Tools, full: string, start: nat, cut: nat, closing: bool)
    requires TagAt(tools, full, start, closing) && start + PrefixLen(closing) <= cut <= |full|
    requires cut < NameEnd(full, start + PrefixLen(closing), closing)
    requires '<' !in full[start + PrefixLen(closing)..cut] && tools.begins(full[start + PrefixLen(closing)..cut])
    ensures Begins(tools, full[..cut][start..], closing) && forall k | start < k < cut :: full[k] != '<'
  {
    var j := start + PrefixLen(closing);
    NameTells(full, j, cut, closing);
    hide NameEnd;
    var u := full[..cut][start..];
    assert u[PrefixLen(closing)..] == full[j..cut];
    forall k | start < k < cut ensures full[k] != '<' {
      if k >= j { assert full[j..cut][k - j] == full[k]; }
    }
    forall k: nat | k < |u| ensures u[k] == full[start + k] {
    }
  }

  lemma NameTells(full: string, j: nat, cut: nat, closing: bool)
    requires j <= cut <= |full| && cut < NameEnd(full, j, closing)
    ensures forall k | j <= k < cut :: full[k] != '>'
  {
  }

  /**
   The cuts a tag survives: behind its name; or within it, when what came fits the window of 25 bytes
   and begins the name of a registered write tool. The chunk must have all of the "<" or "</".
   */
  lemma CutHeld(tools: Tools, native: bool, lane: Lane, full: string, start: nat, end: nat, cut: nat)
    requires CutInTag(tools, lane, full, start, end, cut) && start + PrefixLen(lane.inTool) <= cut
    requires var j := start + PrefixLen(lane.inTool);
             || NameEnd(full, j, lane.inTool) <= cut
             || (cut - start <= WINDOW && tools.begins(full[j..cut]) && '<' !in full[j..cut])
    ensures HeldFrom(tools, native, lane, full, cut) <= start
  {
    hide *;
    Inside(tools, lane, full, start, end, cut);
    CutNoTag(tools, lane, full, start, end, cut);
    FirstTells(tools, full, start, end, lane.inTool);
    RouteHeld(tools, native, lane, full[..cut]);
    HeldIs(tools, native, lane, full, cut);
    if NameEnd(full, start + PrefixLen(lane.inTool), lane.inTool) <= cut {
      NameShown(tools, full, start, cut, lane.inTool);
      FirstBefore(tools, full[..cut], start, lane.inTool);
    } else {
      EndHeld(tools, full, start, cut, lane.inTool);
    }
  }

  lemma EndHeld(tools: Tools, full: string, start: nat, cut: nat, closing: bool)
    requires start < cut <= |full| && start + PrefixLen(closing) <= cut && TagAt(tools, full, start, closing)
    requires var j := start + PrefixLen(closing);
             cut < NameEnd(full, j, closing) && cut - start <= WINDOW && tools.begins(full[j..cut]) && '<' !in full[j..cut]
    ensures PartialLen(tools, full[..cut], closing) == cut - start && FirstTag(tools, full[..cut], 0, closing).0 <= start
  {
    hide *;
    var s, n := full[..cut], cut - start;
    NameBegins(tools, full, start, cut, closing);
    assert |s| - n == start;
    PartialExactly(tools, s, closing, n);
    FirstNotInside(tools, s, start, closing);
  }

  lemma HeldIs(tools: Tools, native: bool, lane: Lane, full: string, cut: nat)
    requires cut <= |full|
    ensures HeldFrom(tools, native, lane, full, cut) == cut - |Route(tools, native, lane, full[..cut]).pending|
  {
    hide Route;
  }

  lemma FirstBefore(tools: Tools, s: string, i: nat, closing: bool)
    requires i < |s| && TagAt(tools, s, i, closing)
    ensures 0 <= FirstTag(tools, s, 0, closing).0 <= i
  {
    hide TagAt;
  }

  lemma FirstNotInside(tools: Tools, s: string, start: nat, closing: bool)
    requires start < |s| && forall k | start < k < |s| :: s[k] != '<'
    ensures FirstTag(tools, s, 0, closing).0 <= start
  {
    hide NameEnd, GtEnd;
  }

  // ---------------------------------------------------------------- a closing tag cut behind its "<"

  /** Without a prefix the text is text of its lane. */
  lemma NoPrefix(tools: Tools, native: bool, lane: Lane, s: string)
    requires forall k: nat | k < |s| :: !OpensAt(s, k, lane.inTool)
    ensures var r := Route(tools, native, lane, s); r.lane == lane && r.pending == "" && Chars(r.pieces) == Marked(InLane(lane, s))
  {
    hide OpensAt, LastPrefix, TagAt, NoTag, Chars, Marked;
    if s == "" {
      NoChars(lane);
    } else {
      SkipPlain(tools, s, 0, |s|, lane.inTool);
      FirstNone(tools, s, lane.inTool);
      LastPrefixIs(s, if |s| > WINDOW then |s| - WINDOW else 0, |s|, lane.inTool);
      hide FirstTag, Route;
      NoneNoTag(tools, s, lane.inTool);
      RouteHeld(tools, native, lane, s);
      assert s[..|s|] == s;
    }
  }

  lemma NoChars(lane: Lane)
    ensures Chars([]) == Marked(InLane(lane, ""))
  {
  }

  lemma NoneNoTag(tools: Tools, s: string, closing: bool)
    requires FirstTag(tools, s, 0, closing).0 == -1
    ensures NoTag(tools, s, closing)
  {
    hide TagAt, GtEnd;
  }

  /**
   A closing tag that is cut between "<" and "/" is missed: of a text with no other "<", all is
   recorded as tool text, and the tool lane goes on, where one chunk would have ended it.
   */
  lemma ClosingCutMissed(tools: Tools, native: bool, lane: Lane, full: string, start: nat, end: nat)
    requires lane.inTool && CutInTag(tools, lane, full, start, end, start + 1)
    requires forall k | 0 <= k < |full| && full[k] == '<' :: k == start
    ensures !Route(tools, native, lane, full).lane.inTool
    ensures var two := RouteAll(tools, native, lane, "", [full[..start + 1], full[start + 1..]]);
            two.lane == lane && two.pending == "" && Chars(two.pieces) == Marked(Tool(full))
  {
    var cut := start + 1;
    Inside(tools, lane, full, start, end, cut);
    RouteFirst(tools, native, lane, full, start, end);
    hide Route, RouteAll, Chars, Marked, FirstTag, CutInTag;
    NoPrefix(tools, native, AfterTag(lane, native), full[end..]);
    NoPrefix(tools, native, lane, full[..cut]);
    NoPrefix(tools, native, lane, full[cut..]);
    CutText(full, cut, cut);
    TwoRouted(tools, native, lane, full[..cut], full[cut..]);
    assert "" + full[cut..] == full[cut..];
    CharsAppend(Route(tools, native, lane, full[..cut]).pieces, Route(tools, native, lane, full[cut..]).pieces);
    MarkedJoin(lane, full[..cut], full[cut..]);
    Rejoined(full, cut);
  }
}
