/**
 Splitting a stream of text chunks into prose and write-tool text: routeContentDelta, the tag finders
 and the flush in handleDone (pkg/server/stream_normalizer.go).
 */
module StreamLanes {

  /** `isWrite` is IsWriteTool on the lowered name; `begins` whether a lowered text starts some write tool. */
  datatype Tools = Tools(isWrite: string -> bool, begins: string -> bool)

  datatype Category = Command | FileWrite | NoCategory

  datatype Piece = Prose(text: string) | Tool(text: string)

  /** The lane fields of the normalizer. */
  datatype Lane = Lane(inTool: bool, category: Category, active: bool)

  const WINDOW := 25

  // ---------------------------------------------------------------- tags

  predicate EndsName(c: char, closing: bool) {
    c == '>' || c == ' ' || c == '\t' || c == '\r' || c == '\n' || (!closing && c == '/')
  }

  function NameEnd(s: string, i: nat, closing: bool): (r: nat)
    requires i <= |s|
    ensures i <= r <= |s| && (r < |s| ==> EndsName(s[r], closing))
    ensures forall k | i <= k < r :: !EndsName(s[k], closing)
    decreases |s| - i
  {
    if i < |s| && !EndsName(s[i], closing) then NameEnd(s, i + 1, closing) else i
  }

  function PrefixLen(closing: bool): nat { if closing then 2 else 1 }

  /** "</", or a "<" that does not begin "</". */
  predicate PrefixAt(s: string, i: nat, closing: bool) {
    i < |s| && s[i] == '<' && ((i + 1 < |s| && s[i + 1] == '/') <==> closing)
  }

  /** A write-tool tag starts at i, finished or not. */
  predicate TagAt(tools: Tools, s: string, i: nat, closing: bool) {
    PrefixAt(s, i, closing) &&
    var j := i + PrefixLen(closing);
    var e := NameEnd(s, j, closing);
    e > j && tools.isWrite(s[j..e])
  }

  /** Behind the first '>' from i on, or -1. */
  function GtEnd(s: string, i: nat): (r: int)
    requires i <= |s|
    ensures r == -1 || (i < r <= |s| && s[r - 1] == '>' && forall k | i <= k < r - 1 :: s[k] != '>')
    ensures r == -1 ==> forall k | i <= k < |s| :: s[k] != '>'
    decreases |s| - i
  {
    if i == |s| then -1 else if s[i] == '>' then i + 1 else GtEnd(s, i + 1)
  }

  /** The first tag from i on: its start and the end behind '>'; -1 for none. */
  function FirstTag(tools: Tools, s: string, i: nat, closing: bool): (r: (int, int))
    requires i <= |s|
    ensures r.0 == -1 ==> r.1 == -1 && forall k: nat | i <= k < |s| :: !TagAt(tools, s, k, closing)
    ensures r.0 != -1 ==> i <= r.0 < |s| && TagAt(tools, s, r.0, closing)
    ensures r.0 != -1 ==> r.0 + PrefixLen(closing) <= |s| && r.1 == GtEnd(s, r.0 + PrefixLen(closing))
    ensures r.0 != -1 ==> forall k: nat | i <= k < r.0 :: !TagAt(tools, s, k, closing)
    decreases |s| - i
  {
    if i == |s| then (-1, -1)
    else if TagAt(tools, s, i, closing) then (i, GtEnd(s, i + PrefixLen(closing)))
    else FirstTag(tools, s, i + 1, closing)
  }

  /** No tag starts where there is no "<". */
  lemma {:induction false} SkipTo(tools: Tools, s: string, i: nat, j: nat, closing: bool)
    requires i <= j <= |s| && forall k: nat | i <= k < j :: !TagAt(tools, s, k, closing)
    ensures FirstTag(tools, s, i, closing) == FirstTag(tools, s, j, closing)
    decreases j - i
  {
    hide TagAt, GtEnd;
    if i < j { SkipTo(tools, s, i + 1, j, closing); }
  }

  /** strings.Index for "</", strings.IndexByte for "<". */
  predicate OpensAt(s: string, i: nat, closing: bool) {
    i < |s| && s[i] == '<' && (closing ==> i + 1 < |s| && s[i + 1] == '/')
  }

  method IndexPrefix(s: string, from: nat, closing: bool) returns (idx: nat)
    requires from <= |s|
    ensures from <= idx <= |s| && (idx < |s| ==> OpensAt(s, idx, closing))
    ensures forall k: nat | from <= k < idx :: !OpensAt(s, k, closing)
  {
    idx := from;
    while idx < |s| && !OpensAt(s, idx, closing)
      invariant from <= idx <= |s| && forall k: nat | from <= k < idx :: !OpensAt(s, k, closing)
    {
      idx := idx + 1;
    }
  }

  method ScanName(s: string, from: nat, closing: bool) returns (nameEnd: nat)
    requires from <= |s|
    ensures nameEnd == NameEnd(s, from, closing)
  {
    nameEnd := from;
    while nameEnd < |s| && !EndsName(s[nameEnd], closing)
      invariant from <= nameEnd <= |s| && NameEnd(s, nameEnd, closing) == NameEnd(s, from, closing)
    {
      nameEnd := nameEnd + 1;
    }
  }

  method FindEarliestWriteTag(tools: Tools, s: string, closing: bool) returns (startIdx: int, endIdx: int)
    ensures (startIdx, endIdx) == FirstTag(tools, s, 0, closing)
  {
    hide FirstTag, TagAt, OpensAt, NameEnd, GtEnd, EndsName;
    var offset: nat := 0;
    ghost var first := FirstTag(tools, s, 0, closing);
    while true
      invariant offset <= |s| && FirstTag(tools, s, offset, closing) == first
      decreases |s| - offset
    {
      var idx := IndexPrefix(s, offset, closing);
      SkipPlain(tools, s, offset, idx, closing);
      if idx == |s| {
        FirstNone(tools, s, closing);
        return -1, -1;
      }
      TagHere(tools, s, idx, closing);
      if !closing && idx + 1 < |s| && s[idx + 1] == '/' {
        offset := idx + 1;
        continue;
      }
      var rest := idx + PrefixLen(closing);
      var nameEnd := ScanName(s, rest, closing);
      if nameEnd > rest && tools.isWrite(s[rest..nameEnd]) {
        FirstHere(tools, s, idx, closing);
        return idx, GtEnd(s, rest);
      }
      offset := rest;
    }
    assert false;
  }

  lemma SkipPlain(tools: Tools, s: string, i: nat, j: nat, closing: bool)
    requires i <= j <= |s| && forall k: nat | i <= k < j :: !OpensAt(s, k, closing)
    ensures FirstTag(tools, s, i, closing) == FirstTag(tools, s, j, closing)
  {
    hide NameEnd, FirstTag;
    forall k: nat | i <= k < j ensures !TagAt(tools, s, k, closing) {
      assert !OpensAt(s, k, closing);
    }
    SkipTo(tools, s, i, j, closing);
  }

  /** Not a tag: the search goes on. */
  lemma SkipOne(tools: Tools, s: string, i: nat, j: nat, closing: bool)
    requires i < j <= |s| && j <= i + 2 && !TagAt(tools, s, i, closing) && (j == i + 2 ==> !TagAt(tools, s, i + 1, closing))
    ensures FirstTag(tools, s, i, closing) == FirstTag(tools, s, j, closing)
  {
    hide TagAt, FirstTag;
    SkipTo(tools, s, i, j, closing);
  }

  /** What the branches at a "<" decide, and where the search goes on. */
  lemma TagHere(tools: Tools, s: string, i: nat, closing: bool)
    requires OpensAt(s, i, closing)
    ensures i < |s|
    ensures if !closing && i + 1 < |s| && s[i + 1] == '/' then FirstTag(tools, s, i, closing) == FirstTag(tools, s, i + 1, closing)
            else
              var j := i + PrefixLen(closing);
              && j <= |s|
              && (TagAt(tools, s, i, closing) <==> NameEnd(s, j, closing) > j && tools.isWrite(s[j..NameEnd(s, j, closing)]))
              && (!TagAt(tools, s, i, closing) ==> FirstTag(tools, s, i, closing) == FirstTag(tools, s, j, closing))
  {
    hide NameEnd, FirstTag;
    assert closing ==> !TagAt(tools, s, i + 1, closing);
    if !closing && i + 1 < |s| && s[i + 1] == '/' {
      SkipOne(tools, s, i, i + 1, closing);
    } else if !TagAt(tools, s, i, closing) {
      SkipOne(tools, s, i, i + PrefixLen(closing), closing);
    }
  }

  lemma FirstNone(tools: Tools, s: string, closing: bool)
    ensures FirstTag(tools, s, |s|, closing) == (-1, -1)
  {
  }

  lemma FirstHere(tools: Tools, s: string, i: nat, closing: bool)
    requires i < |s| && TagAt(tools, s, i, closing)
    ensures FirstTag(tools, s, i, closing) == (i as int, GtEnd(s, i + PrefixLen(closing)))
  {
  }

  // ---------------------------------------------------------------- partial tags

  /** The last "</", or "<" of any kind, from `low` on and below i; -1 for none. */
  function LastPrefix(s: string, low: nat, i: nat, closing: bool): (r: int)
    requires low <= i <= |s|
    ensures r == -1 || (low <= r < i && s[r] == '<' && (closing ==> r + 1 < |s| && s[r + 1] == '/'))
    decreases i
  {
    if i == low then -1
    else if s[i - 1] == '<' && (closing ==> i < |s| && s[i] == '/') then i - 1
    else LastPrefix(s, low, i - 1, closing)
  }

  /** How many characters at the end may be the beginning of a tag. */
  function PartialLen(tools: Tools, s: string, closing: bool): (n: nat)
    ensures n <= |s| && n <= WINDOW
  {
    var low := if |s| > WINDOW then |s| - WINDOW else 0;
    var i := LastPrefix(s, low, |s|, closing);
    if i == -1 || '>' in s[i..] || (!closing && i + 1 < |s| && s[i + 1] == '/') then 0
    else if tools.begins(s[i + PrefixLen(closing)..]) then |s| - i
    else 0
  }

  method LastIndexPrefix(s: string, low: nat, closing: bool) returns (r: int)
    requires low <= |s|
    ensures r == LastPrefix(s, low, |s|, closing)
  {
    var i := |s|;
    while i > low && !(s[i - 1] == '<' && (closing ==> i < |s| && s[i] == '/'))
      invariant low <= i <= |s| && LastPrefix(s, low, i, closing) == LastPrefix(s, low, |s|, closing)
    {
      i := i - 1;
    }
    r := if i == low then -1 else i - 1;
  }

  method FindPartialWriteTagSuffix(tools: Tools, s: string, closing: bool) returns (partial: string)
    ensures partial == s[|s| - PartialLen(tools, s, closing)..]
  {
    hide LastPrefix;
    var low := if |s| > WINDOW then |s| - WINDOW else 0;
    var i := LastIndexPrefix(s, low, closing);
    if i == -1 || '>' in s[i..] || (!closing && i + 1 < |s| && s[i + 1] == '/') { return ""; }
    if tools.begins(s[i + PrefixLen(closing)..]) { return s[i..]; }
    return "";
  }

  // ---------------------------------------------------------------- routing

  function NonEmpty(p: Piece): seq<Piece> {
    if p.text == "" then [] else [p]
  }

  /** The pieces recorded for a text, the lane behind it, and what is held back. */
  datatype Routed = Routed(pieces: seq<Piece>, lane: Lane, pending: string)

  function AfterTag(lane: Lane, native: bool): Lane {
    if lane.inTool then Lane(false, Command, native && lane.active) else Lane(true, FileWrite, true)
  }

  function InLane(lane: Lane, text: string): Piece {
    if lane.inTool then Tool(text) else Prose(text)
  }

  function Route(tools: Tools, native: bool, lane: Lane, full: string): (r: Routed)
    decreases |full|
  {
    if full == "" then Routed([], lane, "")
    else
      var (start, end) := FirstTag(tools, full, 0, lane.inTool);
      if start == -1 then
        var n := |full| - PartialLen(tools, full, lane.inTool);
        if n < |full| then Routed(NonEmpty(InLane(lane, full[..n])), lane, full[n..])
        else Routed([InLane(lane, full)], lane, "")
      else
        var before := NonEmpty(InLane(lane, full[..start]));
        if end == -1 then Routed(before, lane, full[start..])
        else
          var r := Route(tools, native, AfterTag(lane, native), full[end..]);
          Routed(before + [Tool(full[start..end])] + r.pieces, r.lane, r.pending)
  }

  /** After the log `a`, `r` still comes; after `b`, only `t`; and that is the same. */
  ghost predicate Goes(a: seq<Piece>, r: Routed, b: seq<Piece>, t: Routed) {
    a + r.pieces == b + t.pieces && r.lane == t.lane && r.pending == t.pending
  }

  lemma GoesOn(a: seq<Piece>, r: Routed, b: seq<Piece>, t: Routed, c: seq<Piece>, u: Routed)
    requires Goes(a, r, b, t) && Goes(b, t, c, u)
    ensures Goes(a, r, c, u)
  {
  }

  lemma GoesDone(a: seq<Piece>, r: Routed, b: seq<Piece>, lane: Lane, pending: string)
    requires Goes(a, r, b, Routed([], lane, pending))
    ensures b == a + r.pieces && r.lane == lane && r.pending == pending
  {
  }

  class StreamNormalizer {
    const tools: Tools
    var inWriteTool: bool
    var pendingWriteTagBuf: string
    var currentToolCategory: Category
    var hasActiveToolCall: bool
    var hasNativeTools: bool
    var hasEmittedToolCalls: bool
    /** What recordProse and recordToolDelta were given, in order. */
    var recorded: seq<Piece>

    constructor (tools: Tools)
      ensures this.tools == tools && LaneNow() == Lane(false, NoCategory, false)
      ensures pendingWriteTagBuf == "" && recorded == [] && !hasNativeTools && !hasEmittedToolCalls
    {
      this.tools := tools;
      inWriteTool, pendingWriteTagBuf, currentToolCategory := false, "", NoCategory;
      hasActiveToolCall, hasNativeTools, hasEmittedToolCalls, recorded := false, false, false, [];
    }

    function LaneNow(): Lane
      reads this
    {
      Lane(inWriteTool, currentToolCategory, hasActiveToolCall)
    }

    method RecordProse(text: string)
      modifies this`recorded
      ensures recorded == old(recorded) + [Prose(text)]
    {
      recorded := recorded + [Prose(text)];
    }

    method RecordToolDelta(text: string)
      modifies this`recorded
      ensures recorded == old(recorded) + [Tool(text)]
    {
      recorded := recorded + [Tool(text)];
    }

    method RouteContentDelta(content: string)
      modifies this`inWriteTool, this`pendingWriteTagBuf, this`currentToolCategory, this`hasActiveToolCall, this`recorded
      ensures var r := Route(tools, hasNativeTools, old(LaneNow()), old(pendingWriteTagBuf) + content);
              recorded == old(recorded) + r.pieces && LaneNow() == r.lane && pendingWriteTagBuf == r.pending
    {
      if content == "" && pendingWriteTagBuf == "" { return; }
      var full := content;
      if pendingWriteTagBuf != "" {
        full := pendingWriteTagBuf + content;
        pendingWriteTagBuf := "";
      } else {
        assert "" + content == content;
      }
      ghost var was, lane := recorded, LaneNow();
      ghost var all := full;
      hide *;
      var done := false;
      while !done && |full| > 0
        invariant !done ==> pendingWriteTagBuf == ""
        invariant !done ==> Goes(was, Route(tools, hasNativeTools, lane, all), recorded, Route(tools, hasNativeTools, LaneNow(), full))
        invariant done ==> Goes(was, Route(tools, hasNativeTools, lane, all), recorded, Routed([], LaneNow(), pendingWriteTagBuf))
        decreases |full|, !done
      {
        ghost var lane0, full0, log0 := LaneNow(), full, recorded;
        full, done := RouteOnce(full);
        GoesOn(was, Route(tools, hasNativeTools, lane, all), log0, Route(tools, hasNativeTools, lane0, full0), recorded,
               if done then Routed([], LaneNow(), pendingWriteTagBuf) else Route(tools, hasNativeTools, LaneNow(), full));
      }
      if !done { RouteNothing(tools, hasNativeTools, LaneNow()); }
      GoesDone(was, Route(tools, hasNativeTools, lane, all), recorded, LaneNow(), pendingWriteTagBuf);
    }

    /** One turn of the loop. */
    method RouteOnce(full: string) returns (rest: string, done: bool)
      requires full != "" && pendingWriteTagBuf == ""
      modifies this`inWriteTool, this`pendingWriteTagBuf, this`currentToolCategory, this`hasActiveToolCall, this`recorded
      ensures Goes(old(recorded), Route(tools, hasNativeTools, old(LaneNow()), full), recorded,
                   if done then Routed([], LaneNow(), pendingWriteTagBuf) else Route(tools, hasNativeTools, LaneNow(), rest))
      ensures |rest| <= |full| && (!done ==> |rest| < |full| && pendingWriteTagBuf == "")
    {
      hide Route, FirstTag, PartialLen, Goes, GtEnd, NonEmpty;
      rest, done := full, true;
      ghost var log := recorded;
      var start, end := FindEarliestWriteTag(tools, full, inWriteTool);
      if start == -1 {
        var partial := FindPartialWriteTagSuffix(tools, full, inWriteTool);
        RouteNoTag(tools, hasNativeTools, LaneNow(), full, log);
        RecordLane(full[..|full| - |partial|]);
        pendingWriteTagBuf := partial;
        return;
      }
      RouteTag(tools, hasNativeTools, LaneNow(), full, log);
      RecordLane(full[..start]);
      if end == -1 {
        pendingWriteTagBuf := full[start..];
        return;
      }
      RecordToolDelta(full[start..end]);
      if !inWriteTool {
        inWriteTool, currentToolCategory, hasActiveToolCall := true, FileWrite, true;
      } else {
        inWriteTool := false;
        if !hasNativeTools { hasActiveToolCall := false; }
        currentToolCategory := Command;
      }
      rest, done := full[end..], false;
    }

    /** Text for the lane we are in, unless it is empty. */
    method RecordLane(text: string)
      modifies this`recorded
      ensures recorded == old(recorded) + NonEmpty(InLane(LaneNow(), text))
    {
      if text != "" {
        if inWriteTool { RecordToolDelta(text); } else { RecordProse(text); }
      }
    }

    /** The part of handleDone that flushes what is held back. */
    method HandleDone()
      modifies this`inWriteTool, this`pendingWriteTagBuf, this`hasActiveToolCall, this`recorded
      ensures recorded == old(recorded) + Flush(old(inWriteTool), old(pendingWriteTagBuf), hasEmittedToolCalls)
      ensures pendingWriteTagBuf == "" && !inWriteTool && !hasActiveToolCall
    {
      hasActiveToolCall := false;
      if pendingWriteTagBuf != "" {
        if inWriteTool {
          RecordToolDelta(pendingWriteTagBuf);
        } else if !hasEmittedToolCalls {
          RecordProse(pendingWriteTagBuf);
        }
        pendingWriteTagBuf := "";
      }
      inWriteTool := false;
    }
  }

  function Flush(inTool: bool, pending: string, emitted: bool): seq<Piece> {
    if pending == "" then []
    else if inTool then [Tool(pending)]
    else if !emitted then [Prose(pending)]
    else []
  }

  lemma RouteNothing(tools: Tools, native: bool, lane: Lane)
    ensures Route(tools, native, lane, "") == Routed([], lane, "")
  {
  }

  lemma RouteNoTag(tools: Tools, native: bool, lane: Lane, full: string, log: seq<Piece>)
    requires full != "" && FirstTag(tools, full, 0, lane.inTool).0 == -1
    ensures var n := |full| - PartialLen(tools, full, lane.inTool);
            Goes(log, Route(tools, native, lane, full), log + NonEmpty(InLane(lane, full[..n])), Routed([], lane, full[n..]))
  {
    hide FirstTag, PartialLen;
    assert full[..|full|] == full && full[|full|..] == "";
  }

  lemma RouteTag(tools: Tools, native: bool, lane: Lane, full: string, log: seq<Piece>)
    requires full != "" && FirstTag(tools, full, 0, lane.inTool).0 != -1
    ensures var (start, end) := FirstTag(tools, full, 0, lane.inTool);
            var b := log + NonEmpty(InLane(lane, full[..start]));
            if end == -1 then Goes(log, Route(tools, native, lane, full), b, Routed([], lane, full[start..]))
            else
              && start < end <= |full|
              && var t := Route(tools, native, AfterTag(lane, native), full[end..]);
                 Goes(log, Route(tools, native, lane, full), b + [Tool(full[start..end])], t)
  {
    hide FirstTag, GtEnd;
    var (start, end) := FirstTag(tools, full, 0, lane.inTool);
    if end != -1 {
      GtEndIs(full, start + PrefixLen(lane.inTool));
      Assoc(log, NonEmpty(InLane(lane, full[..start])), [Tool(full[start..end])],
            Route(tools, native, AfterTag(lane, native), full[end..]).pieces);
    }
  }

  lemma GtEndIs(s: string, i: nat)
    requires i <= |s|
    ensures GtEnd(s, i) == -1 || i < GtEnd(s, i) <= |s|
  {
  }

  lemma Assoc(a: seq<Piece>, b: seq<Piece>, c: seq<Piece>, d: seq<Piece>)
    ensures a + (b + c + d) == (a + b + c) + d
  {
  }

  // ---------------------------------------------------------------- nothing is lost

  function Text(pieces: seq<Piece>): string {
    if pieces == [] then "" else pieces[0].text + Text(pieces[1..])
  }

  lemma {:induction false} TextAppend(a: seq<Piece>, b: seq<Piece>)
    ensures Text(a + b) == Text(a) + Text(b)
  {
    if a == [] {
      assert a + b == b;
    } else {
      assert (a + b)[1..] == a[1..] + b;
      TextAppend(a[1..], b);
    }
  }

  lemma TextOne(p: Piece)
    ensures Text([p]) == p.text && Text(NonEmpty(p)) == p.text
  {
    assert p.text + "" == p.text;
  }

  lemma {:induction false} RouteConserves(tools: Tools, native: bool, lane: Lane, full: string)
    ensures var r := Route(tools, native, lane, full); Text(r.pieces) + r.pending == full
    decreases |full|
  {
    hide *;
    if full == "" {
      RouteNothing(tools, native, lane);
      TextEmpty();
    } else {
      var (start, end) := FirstTag(tools, full, 0, lane.inTool);
      var r := Route(tools, native, lane, full);
      if start == -1 {
        RouteNoTag(tools, native, lane, full, []);
        var n := |full| - PartialLen(tools, full, lane.inTool);
        HeldText(lane, full, n, r);
      } else {
        RouteTag(tools, native, lane, full, []);
        if end == -1 {
          HeldText(lane, full, start, r);
        } else {
          var t := Route(tools, native, AfterTag(lane, native), full[end..]);
          RouteConserves(tools, native, AfterTag(lane, native), full[end..]);
          TaggedText(lane, full, start, end, r, t);
        }
      }
    }
  }

  lemma HeldText(lane: Lane, full: string, n: nat, r: Routed)
    requires n <= |full| && Goes([], r, [] + NonEmpty(InLane(lane, full[..n])), Routed([], lane, full[n..]))
    ensures Text(r.pieces) + r.pending == full
  {
    hide *;
    var a := NonEmpty(InLane(lane, full[..n]));
    TextOne(InLane(lane, full[..n]));
    LaneText(lane, full[..n]);
    GoesDone([], r, [] + a, lane, full[n..]);
    assert [] + r.pieces == r.pieces && [] + a == a;
    assert full == full[..n] + full[n..];
  }

  lemma LaneText(lane: Lane, s: string)
    ensures InLane(lane, s).text == s
  {
  }

  lemma GoesIs(r: Routed, a: seq<Piece>, b: seq<Piece>, t: Routed)
    requires Goes([], r, ([] + a) + b, t)
    ensures r.pieces == a + b + t.pieces && r.pending == t.pending
  {
    assert [] + r.pieces == r.pieces && [] + a == a;
  }

  lemma TaggedText(lane: Lane, full: string, start: nat, end: nat, r: Routed, t: Routed)
    requires start < end <= |full| && Text(t.pieces) + t.pending == full[end..]
    requires Goes([], r, ([] + NonEmpty(InLane(lane, full[..start]))) + [Tool(full[start..end])], t)
    ensures Text(r.pieces) + r.pending == full
  {
    var a, b := NonEmpty(InLane(lane, full[..start])), [Tool(full[start..end])];
    GoesIs(r, a, b, t);
    hide *;
    TextOne(InLane(lane, full[..start]));
    TextOne(Tool(full[start..end]));
    TextAppend(a, b);
    TextAppend(a + b, t.pieces);
    assert Text(r.pieces) == full[..start] + full[start..end] + Text(t.pieces);
    Assoc3(full[..start] + full[start..end], Text(t.pieces), t.pending);
    assert full == full[..start] + full[start..end] + full[end..];
  }

  lemma TextEmpty()
    ensures Text([]) == ""
  {
  }

  function Concat(chunks: seq<string>): string {
    if chunks == [] then "" else chunks[0] + Concat(chunks[1..])
  }

  /** The chunks one after the other. */
  function RouteAll(tools: Tools, native: bool, lane: Lane, pending: string, chunks: seq<string>): Routed
    decreases chunks
  {
    if chunks == [] then Routed([], lane, pending)
    else
      var r := Route(tools, native, lane, pending + chunks[0]);
      var t := RouteAll(tools, native, r.lane, r.pending, chunks[1..]);
      Routed(r.pieces + t.pieces, t.lane, t.pending)
  }

  /** However the text is cut into chunks, the recorded pieces and what is held back are the text. */
  lemma {:induction false} ChunksConserved(tools: Tools, native: bool, lane: Lane, pending: string, chunks: seq<string>)
    ensures var r := RouteAll(tools, native, lane, pending, chunks);
            Text(r.pieces) + r.pending == pending + Concat(chunks)
    decreases chunks
  {
    if chunks == [] {
      assert "" + pending == pending + "";
    } else {
      var r := Route(tools, native, lane, pending + chunks[0]);
      var t := RouteAll(tools, native, r.lane, r.pending, chunks[1..]);
      RouteConserves(tools, native, lane, pending + chunks[0]);
      ChunksConserved(tools, native, r.lane, r.pending, chunks[1..]);
      TextAppend(r.pieces, t.pieces);
      hide Route, Text;
      Assoc3(Text(r.pieces), Text(t.pieces), t.pending);
      Assoc3(Text(r.pieces), r.pending, Concat(chunks[1..]));
      Assoc3(pending, chunks[0], Concat(chunks[1..]));
    }
  }

  lemma Assoc3(a: string, b: string, c: string)
    ensures a + b + c == a + (b + c)
  {
  }

  /**
   At the end of the stream the held text is flushed, except in the prose lane after a tool call was
   emitted: then, and only then, it is lost.
   */
  lemma StreamConserved(tools: Tools, native: bool, lane: Lane, chunks: seq<string>, emitted: bool)
    ensures var r := RouteAll(tools, native, lane, "", chunks);
            (Text(r.pieces + Flush(r.lane.inTool, r.pending, emitted)) == Concat(chunks)) <==>
              !(r.pending != "" && !r.lane.inTool && emitted)
  {
    var r := RouteAll(tools, native, lane, "", chunks);
    ChunksConserved(tools, native, lane, "", chunks);
    var f := Flush(r.lane.inTool, r.pending, emitted);
    TextAppend(r.pieces, f);
    TextOne(Tool(r.pending));
    TextOne(Prose(r.pending));
    hide RouteAll, Route;
    assert "" + Concat(chunks) == Concat(chunks);
    if r.pending == "" { assert Text(r.pieces) + "" == Text(r.pieces); }
    assert |Text(r.pieces) + r.pending| == |Text(r.pieces)| + |r.pending|;
  }

  // ---------------------------------------------------------------- lanes

  /** A complete write-tool tag and nothing else. */
  ghost predicate Complete(tools: Tools, t: string, closing: bool) {
    TagAt(tools, t, 0, closing) && PrefixLen(closing) <= |t| && GtEnd(t, PrefixLen(closing)) == |t|
  }

  /** No complete write-tool tag inside. */
  ghost predicate NoTag(tools: Tools, t: string, closing: bool) {
    forall k: nat | k + PrefixLen(closing) <= |t| && TagAt(tools, t, k, closing) :: GtEnd(t, k + PrefixLen(closing)) == -1
  }

  /** The pieces take the lane from `inTool` to `end`, and only complete tags switch it. */
  ghost predicate Laned(tools: Tools, inTool: bool, pieces: seq<Piece>, end: bool)
    decreases |pieces|
  {
    if pieces == [] then inTool == end
    else
      var t := pieces[0].text;
      && t != ""
      && (pieces[0].Prose? ==> !inTool && NoTag(tools, t, false) && Laned(tools, false, pieces[1..], end))
      && (pieces[0].Tool? && !inTool ==> Complete(tools, t, false) && Laned(tools, true, pieces[1..], end))
      && (pieces[0].Tool? && inTool ==>
           || (Complete(tools, t, true) && Laned(tools, false, pieces[1..], end))
           || (NoTag(tools, t, true) && Laned(tools, true, pieces[1..], end)))
  }

  lemma {:induction false} LanedAppend(tools: Tools, a: seq<Piece>, b: seq<Piece>, x: bool, y: bool, z: bool)
    requires Laned(tools, x, a, y) && Laned(tools, y, b, z)
    ensures Laned(tools, x, a + b, z)
    decreases |a|
  {
    hide Complete, NoTag;
    if a == [] {
      assert a + b == b;
    } else {
      assert (a + b)[1..] == a[1..] + b && (a + b)[0] == a[0];
      if Laned(tools, true, a[1..], y) { LanedAppend(tools, a[1..], b, true, y, z); }
      if Laned(tools, false, a[1..], y) { LanedAppend(tools, a[1..], b, false, y, z); }
    }
  }

  lemma LanedOne(tools: Tools, p: Piece, x: bool, y: bool)
    requires p.text != ""
    requires if p.Prose? then !x && !y && NoTag(tools, p.text, false)
             else if !x then y && Complete(tools, p.text, false)
             else if y then NoTag(tools, p.text, true) else Complete(tools, p.text, true)
    ensures Laned(tools, x, [p], y)
  {
    hide Complete, NoTag;
    assert [p][1..] == [];
  }

  lemma NamePrefix(s: string, n: nat, i: nat, closing: bool)
    requires i <= n <= |s| && NameEnd(s[..n], i, closing) < n
    ensures NameEnd(s, i, closing) == NameEnd(s[..n], i, closing)
    decreases n - i
  {
    if i < n && !EndsName(s[i], closing) { NamePrefix(s, n, i + 1, closing); }
  }

  lemma SliceAt(s: string, a: nat, b: nat, i: nat)
    requires a <= i < b <= |s|
    ensures s[a..b][i - a] == s[i]
  {
  }

  /** A complete tag in the beginning of a text is a tag of the text. */
  lemma TagPrefix(tools: Tools, s: string, n: nat, k: nat, closing: bool)
    requires n <= |s| && k + PrefixLen(closing) <= n && TagAt(tools, s[..n], k, closing)
    requires GtEnd(s[..n], k + PrefixLen(closing)) != -1
    ensures TagAt(tools, s, k, closing)
  {
    var p, j := s[..n], k + PrefixLen(closing);
    var g := GtEnd(p, j) - 1;
    assert j <= g < n && p[g] == '>' && EndsName(p[g], closing);
    assert NameEnd(p, j, closing) <= g;
    SliceAt(s, 0, n, k);
    SliceAt(s, 0, n, k + 1);
    assert s[0..n] == p;
    NamePrefix(s, n, j, closing);
    SliceWithin(s, 0, n, j, NameEnd(p, j, closing));
  }

  lemma PrefixNoTag(tools: Tools, s: string, n: nat, closing: bool)
    requires n <= |s| && forall k: nat | k < n :: !TagAt(tools, s, k, closing)
    ensures NoTag(tools, s[..n], closing)
  {
    hide TagAt, GtEnd;
    forall k: nat | k + PrefixLen(closing) <= n && TagAt(tools, s[..n], k, closing)
      ensures GtEnd(s[..n], k + PrefixLen(closing)) == -1
    {
      if GtEnd(s[..n], k + PrefixLen(closing)) != -1 { TagPrefix(tools, s, n, k, closing); }
    }
  }

  lemma {:induction false} GtEndShift(s: string, a: nat, b: nat, i: nat)
    requires a <= i <= b <= |s| && GtEnd(s, i) == b
    ensures GtEnd(s[a..b], i - a) == b - a
    decreases b - i
  {
    assert s[a..b][i - a] == s[i];
    if s[i] != '>' { GtEndShift(s, a, b, i + 1); }
  }

  lemma {:induction false} NameShift(s: string, a: nat, b: nat, i: nat, closing: bool)
    requires a <= i <= b <= |s| && NameEnd(s, i, closing) < b
    ensures NameEnd(s[a..b], i - a, closing) == NameEnd(s, i, closing) - a
    decreases b - i
  {
    if i < b {
      assert s[a..b][i - a] == s[i];
      if !EndsName(s[i], closing) { NameShift(s, a, b, i + 1, closing); }
    }
  }

  lemma SliceWithin(s: string, a: nat, e: nat, i: nat, j: nat)
    requires a <= i <= j <= e <= |s|
    ensures s[a..e][i - a..j - a] == s[i..j]
  {
    forall k | 0 <= k < j - i ensures s[a..e][i - a..j - a][k] == s[i..j][k] {
    }
  }

  lemma TagCut(tools: Tools, s: string, a: nat, closing: bool)
    requires TagAt(tools, s, a, closing) && a + PrefixLen(closing) <= |s| && GtEnd(s, a + PrefixLen(closing)) != -1
    ensures var e := GtEnd(s, a + PrefixLen(closing)); a < e <= |s| && Complete(tools, s[a..e], closing)
  {
    var j := a + PrefixLen(closing);
    var e := GtEnd(s, j);
    var n := NameEnd(s, j, closing);
    assert EndsName(s[e - 1], closing);
    assert n < e;
    GtEndShift(s, a, e, j);
    NameShift(s, a, e, j, closing);
    var t := s[a..e];
    hide NameEnd, GtEnd;
    SliceWithin(s, a, e, j, n);
    SliceAt(s, a, e, a);
    SliceAt(s, a, e, a + 1);
  }

  lemma BeforeTag(tools: Tools, s: string, n: nat, lane: Lane)
    requires n <= |s| && forall k: nat | k < n :: !TagAt(tools, s, k, lane.inTool)
    ensures Laned(tools, lane.inTool, NonEmpty(InLane(lane, s[..n])), lane.inTool)
  {
    hide TagAt, Complete, NoTag;
    PrefixNoTag(tools, s, n, lane.inTool);
    if n > 0 { LanedOne(tools, InLane(lane, s[..n]), lane.inTool, lane.inTool); }
  }

  /** Tool text starts only at a complete opening tag and ends only at a complete closing tag. */
  lemma {:induction false} RouteLaned(tools: Tools, native: bool, lane: Lane, full: string)
    ensures var r := Route(tools, native, lane, full);
            Laned(tools, lane.inTool, r.pieces, r.lane.inTool)
    decreases |full|
  {
    hide FirstTag, PartialLen, GtEnd, TagAt, Complete, NoTag, NonEmpty;
    if full != "" {
      var (start, end) := FirstTag(tools, full, 0, lane.inTool);
      if start == -1 {
        var n := |full| - PartialLen(tools, full, lane.inTool);
        BeforeTag(tools, full, n, lane);
        assert n == |full| ==> full[..n] == full;
        WholePiece(lane, full);
      } else {
        BeforeTag(tools, full, start, lane);
        if end != -1 {
          TagCut(tools, full, start, lane.inTool);
          var next := AfterTag(lane, native);
          var before, tag := NonEmpty(InLane(lane, full[..start])), Tool(full[start..end]);
          LanedOne(tools, tag, lane.inTool, next.inTool);
          RouteLaned(tools, native, next, full[end..]);
          var r := Route(tools, native, next, full[end..]);
          LanedAppend(tools, before, [tag], lane.inTool, lane.inTool, next.inTool);
          LanedAppend(tools, before + [tag], r.pieces, lane.inTool, next.inTool, r.lane.inTool);
        }
      }
    }
  }

  lemma WholePiece(lane: Lane, full: string)
    requires full != ""
    ensures NonEmpty(InLane(lane, full)) == [InLane(lane, full)]
  {
  }

  lemma {:induction false} ChunksLaned(tools: Tools, native: bool, lane: Lane, pending: string, chunks: seq<string>)
    ensures var r := RouteAll(tools, native, lane, pending, chunks);
            Laned(tools, lane.inTool, r.pieces, r.lane.inTool)
    decreases chunks
  {
    hide Laned, Route;
    if chunks == [] {
      LanedNothing(tools, lane.inTool);
    } else {
      var r := Route(tools, native, lane, pending + chunks[0]);
      RouteLaned(tools, native, lane, pending + chunks[0]);
      ChunksLaned(tools, native, r.lane, r.pending, chunks[1..]);
      var t := RouteAll(tools, native, r.lane, r.pending, chunks[1..]);
      LanedAppend(tools, r.pieces, t.pieces, lane.inTool, r.lane.inTool, t.lane.inTool);
    }
  }

  lemma LanedNothing(tools: Tools, x: bool)
    ensures Laned(tools, x, [], x)
  {
  }

  /** Inside a tool tag a file write is active; outside none is, unless native tool calls keep it so. */
  predicate Settled(native: bool, lane: Lane) {
    && (lane.inTool ==> lane.active && lane.category == FileWrite)
    && (!lane.inTool ==> lane.category != FileWrite && (lane.active ==> native))
  }

  /** The other two fields of the lane follow the tags; with native tool calls an active call stays active. */
  lemma {:induction false} ChunksSettled(tools: Tools, native: bool, lane: Lane, pending: string, chunks: seq<string>)
    requires Settled(native, lane)
    ensures var end := RouteAll(tools, native, lane, pending, chunks).lane;
            Settled(native, end) && (native && lane.active ==> end.active)
    decreases chunks
  {
    hide Route;
    if chunks != [] {
      RouteSettled(tools, native, lane, pending + chunks[0]);
      var r := Route(tools, native, lane, pending + chunks[0]);
      ChunksSettled(tools, native, r.lane, r.pending, chunks[1..]);
    }
  }

  lemma {:induction false} RouteSettled(tools: Tools, native: bool, lane: Lane, full: string)
    requires Settled(native, lane)
    ensures var end := Route(tools, native, lane, full).lane;
            Settled(native, end) && (native && lane.active ==> end.active)
    decreases |full|
  {
    hide FirstTag, PartialLen, GtEnd, TagAt, NonEmpty;
    if full != "" {
      var (start, end) := FirstTag(tools, full, 0, lane.inTool);
      if start != -1 && end != -1 {
        GtEndIs(full, start + PrefixLen(lane.inTool));
        RouteSettled(tools, native, AfterTag(lane, native), full[end..]);
      }
    }
  }
}
