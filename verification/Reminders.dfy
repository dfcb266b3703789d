/**
 The compaction of repeated reminder tables: DeduplicateRemindersContext of pkg/nts/reminders.go,
 and a decoder that puts the tables back.
 */
module Reminders {
  import opened Wrappers

  /** The dash is three bytes. */
  const DASH := [0xE2 as char, 0x80 as char, 0x94 as char]
  const NOTICE := "\n\n[REMINDERS unchanged " + DASH + " same as the last full list above]\n"
  const OPEN := "<environment_details>"
  const CLOSE := "</environment_details>"
  const MARKER := "REMINDERS"

  // ---------------------------------------------------------------- the table of a text

  predicate At(s: string, w: string, i: nat) {
    i + |w| <= |s| && s[i..i + |w|] == w
  }

  /** strings.Index on s[lo..hi], as a position in s; -1 for none. */
  function Find(s: string, w: string, lo: nat, hi: nat): (r: int)
    requires hi <= |s|
    ensures r == -1 || (lo <= r && r + |w| <= hi && At(s, w, r))
    ensures forall i: nat | lo <= i && i + |w| <= hi && (r == -1 || i < r) :: !At(s, w, i)
    decreases hi - lo
  {
    if lo + |w| > hi then -1
    else if s[lo..lo + |w|] == w then lo
    else if lo < hi then Find(s, w, lo + 1, hi)
    else -1
  }

  lemma FindIs(s: string, w: string, lo: nat, hi: nat, r: nat)
    requires hi <= |s| && lo <= r && r + |w| <= hi && At(s, w, r)
    requires forall i: nat | lo <= i < r :: !At(s, w, i)
    ensures Find(s, w, lo, hi) == r
  {
  }

  predicate IsBlank(c: char) {
    c == ' ' || c == '\t' || c == '\r' || c == '\n'
  }

  function TrimRight(s: string): (r: string)
    ensures r <= s && (r != "" ==> !IsBlank(r[|r| - 1]))
  {
    if s != "" && IsBlank(s[|s| - 1]) then TrimRight(s[..|s| - 1]) else s
  }

  /** Where the reminder table of a text lies, if it has one that is not blank. */
  function Table(text: string): (r: Option<(nat, nat)>)
    ensures r.Some? ==> r.value.0 <= r.value.1 <= |text| && TrimRight(text[r.value.0..r.value.1]) != ""
  {
    var o := Find(text, OPEN, 0, |text|);
    if o == -1 then None
    else
      var c := Find(text, CLOSE, o, |text|);
      if c == -1 then None
      else
        var m := Find(text, MARKER, o + |OPEN|, c);
        if m == -1 then None
        else
          var nl := Find(text, "\n", m, c);
          if nl == -1 || TrimRight(text[nl + 1..c]) == "" then None else Some((nl + 1, c))
  }

  function Raw(text: string): string
    requires Table(text).Some?
  {
    text[Table(text).value.0..Table(text).value.1]
  }

  /** The text with its table replaced. */
  function WithTable(text: string, table: string): string
    requires Table(text).Some?
  {
    text[..Table(text).value.0] + table + text[Table(text).value.1..]
  }

  // ---------------------------------------------------------------- the encoder

  /** The context: LastReminderBytes and OccurrencesSinceFull. */
  datatype State = State(last: string, since: int)

  /** Does the text repeat the last full table, with the refresh not yet due? */
  predicate Repeats(st: State, interval: int, text: string) {
    Table(text).Some? && st.last != "" && TrimRight(Raw(text)) == st.last && st.since < interval
  }

  function Encode(st: State, interval: int, text: string): (string, State) {
    if Table(text).None? then (text, st)
    else if Repeats(st, interval, text) then (WithTable(text, NOTICE), st.(since := st.since + 1))
    else (text, State(TrimRight(Raw(text)), 1))
  }

  class DeduplicateRemindersContext {
    var lastReminderBytes: string
    var occurrencesSinceFull: int
    const refreshInterval: int

    constructor (refreshInterval: int)
      ensures Now() == State("", 0) && this.refreshInterval == (if refreshInterval <= 0 then 10 else refreshInterval)
    {
      lastReminderBytes, occurrencesSinceFull := "", 0;
      this.refreshInterval := if refreshInterval <= 0 then 10 else refreshInterval;
    }

    function Now(): State
      reads this
    {
      State(lastReminderBytes, occurrencesSinceFull)
    }

    method CompactReminders(text: string) returns (r: string, saved: nat, replaced: bool)
      modifies this
      ensures (r, Now()) == Encode(old(Now()), refreshInterval, text)
      ensures replaced <==> Repeats(old(Now()), refreshInterval, text)
      ensures saved == if replaced && |text| > |r| then |text| - |r| else 0
    {
      hide Table, TrimRight;
      r, saved, replaced := text, 0, false;
      var table := FindTable(text);
      if table == None { return; }
      var (start, end) := table.value;
      var trimmed := TrimRight(text[start..end]);
      if lastReminderBytes != "" && trimmed == lastReminderBytes && occurrencesSinceFull < refreshInterval {
        r := text[..start] + NOTICE + text[end..];
        saved := if |text| > |r| then |text| - |r| else 0;
        occurrencesSinceFull := occurrencesSinceFull + 1;
        replaced := true;
        return;
      }
      lastReminderBytes := trimmed;
      occurrencesSinceFull := 1;
    }
  }

  /** The searches for the table. */
  method FindTable(text: string) returns (r: Option<(nat, nat)>)
    ensures r == Table(text)
  {
    hide Find, TrimRight;
    var openIdx := Find(text, OPEN, 0, |text|);
    if openIdx == -1 { return None; }
    var closeIdx := Find(text, CLOSE, openIdx, |text|);
    if closeIdx == -1 { return None; }
    var remIdx := Find(text, MARKER, openIdx + |OPEN|, closeIdx);
    if remIdx == -1 { return None; }
    var newline := Find(text, "\n", remIdx, closeIdx);
    if newline == -1 { return None; }
    if |TrimRight(text[newline + 1..closeIdx])| == 0 { return None; }
    return Some((newline + 1, closeIdx));
  }

  // ---------------------------------------------------------------- the notice is recognised

  lemma AtSame(s: string, t: string, w: string, i: nat, n: nat)
    requires n <= |s| && n <= |t| && s[..n] == t[..n] && i + |w| <= n
    ensures At(s, w, i) <==> At(t, w, i)
  {
    assert s[i..i + |w|] == s[..n][i..i + |w|] && t[i..i + |w|] == t[..n][i..i + |w|];
  }

  lemma WordsPlain()
    ensures '\n' !in CLOSE && '<' !in NOTICE && CLOSE[0] == '<' && |OPEN| > 0 && |MARKER| > 0 && CLOSE != ""
  {
  }

  lemma AtChar(s: string, w: string, i: nat, k: nat)
    requires At(s, w, i) && k < |w|
    ensures s[i + k] == w[k]
  {
    assert s[i..i + |w|][k] == s[i + k];
  }

  lemma NotAt(s: string, w: string, i: nat, k: nat)
    requires k < |w| && i + k < |s| && s[i + k] != w[k]
    ensures !At(s, w, i)
  {
    if i + |w| <= |s| { assert s[i..i + |w|][k] == s[i + k]; }
  }

  /** No closing tag begins before the one that was there. */
  lemma CloseStays(text: string, t: string, o: nat, start: nat, end: nat, i: nat)
    requires 0 < start <= end <= |text| && text[start - 1] == '\n' && t == text[..start] + NOTICE + text[end..]
    requires o <= i < start + |NOTICE| && (forall k: nat | o <= k < end :: !At(text, CLOSE, k))
    ensures !At(t, CLOSE, i)
  {
    WordsPlain();
    if i + |CLOSE| <= start {
      assert text[..start] == t[..start];
      AtSame(text, t, CLOSE, i, start);
    } else if i < start {
      assert t[start - 1] == '\n' && CLOSE[start - 1 - i] in CLOSE;
      NotAt(t, CLOSE, i, start - 1 - i);
    } else {
      assert t[i] == NOTICE[i - start] && NOTICE[i - start] in NOTICE;
      NotAt(t, CLOSE, i, 0);
    }
  }

  lemma FindStays(text: string, t: string, w: string, lo: nat, hi: nat, hi': nat, n: nat)
    requires hi <= |text| && hi' <= |t| && n <= |text| && n <= |t| && text[..n] == t[..n]
    requires var r := Find(text, w, lo, hi); r != -1 && r + |w| <= n && r + |w| <= hi'
    ensures Find(t, w, lo, hi') == Find(text, w, lo, hi)
  {
    var r := Find(text, w, lo, hi);
    AtSame(text, t, w, r, n);
    forall i: nat | lo <= i < r ensures !At(t, w, i) {
      AtSame(text, t, w, i, n);
    }
    hide Find;
    FindIs(t, w, lo, hi', r);
  }

  /** A text whose table was replaced by the notice still has its table there. */
  lemma NoticeFound(text: string)
    requires Table(text).Some?
    ensures var t, start := WithTable(text, NOTICE), Table(text).value.0;
            && Table(t) == Some((start, start + |NOTICE|)) && Raw(t) == NOTICE
            && t[..start] == text[..start] && t[start + |NOTICE|..] == text[Table(text).value.1..]
  {
    hide *;
    var o, m := TableParts(text);
    var (start, end) := Table(text).value;
    var t := text[..start] + NOTICE + text[end..];
    var end' := start + |NOTICE|;
    NoticeParts(text, start, end, t);
    FindStays(text, t, OPEN, 0, |text|, |t|, start);
    CloseFound(text, t, o, start, end);
    FindStays(text, t, MARKER, o + |OPEN|, end, end', start);
    FindStays(text, t, "\n", m, end, end', start);
    NoticeTrimmed();
    TableIs(t, o, end', m, start - 1);
    WithTableIs(text, start, end);
    RawIs(t, start, end');
  }

  lemma TableParts(text: string) returns (o: nat, m: nat)
    requires Table(text).Some?
    ensures var (start, end) := Table(text).value;
            && 0 < start <= end <= |text| && text[start - 1] == '\n'
            && Find(text, OPEN, 0, |text|) == o && o + |OPEN| <= start && o < start
            && Find(text, CLOSE, o, |text|) == end
            && Find(text, MARKER, o + |OPEN|, end) == m && m + |MARKER| <= start
            && Find(text, "\n", m, end) == start - 1 && m < start
  {
    hide Find, TrimRight;
    o := Find(text, OPEN, 0, |text|);
    var c := Find(text, CLOSE, o, |text|);
    m := Find(text, MARKER, o + |OPEN|, c);
    FindAt(text, OPEN, 0, |text|);
    FindAt(text, CLOSE, o, |text|);
    FindAt(text, MARKER, o + |OPEN|, c);
    FindAt(text, "\n", m, c);
    AtChar(text, "\n", Find(text, "\n", m, c), 0);
    MarkerNewline(text, m, Find(text, "\n", m, c));
  }

  /** A newline behind the marker's start is behind the marker. */
  lemma MarkerNewline(text: string, m: nat, nl: nat)
    requires At(text, MARKER, m) && m <= nl < |text| && text[nl] == '\n'
    ensures m + |MARKER| <= nl
  {
    assert '\n' !in MARKER;
    forall i | m <= i < m + |MARKER| ensures text[i] != '\n' {
      AtChar(text, MARKER, m, i - m);
      assert MARKER[i - m] in MARKER;
    }
  }

  lemma WithTableIs(text: string, start: nat, end: nat)
    requires Table(text) == Some((start, end)) && start <= end <= |text|
    ensures WithTable(text, NOTICE) == text[..start] + NOTICE + text[end..]
  {
    hide Table;
  }

  lemma RawIs(t: string, start: nat, end: nat)
    requires Table(t) == Some((start, end)) && start <= end <= |t|
    ensures Raw(t) == t[start..end]
  {
    hide Table;
  }

  lemma FindAt(s: string, w: string, lo: nat, hi: nat)
    requires hi <= |s|
    ensures var r := Find(s, w, lo, hi); r != -1 ==> lo <= r && r + |w| <= hi && At(s, w, r)
  {
  }

  lemma NoticeParts(text: string, start: nat, end: nat, t: string)
    requires start <= end <= |text| && t == text[..start] + NOTICE + text[end..]
    ensures start + |NOTICE| <= |t| && t[..start] == text[..start] && t[start..start + |NOTICE|] == NOTICE
    ensures t[start + |NOTICE|..] == text[end..]
  {
  }

  lemma TableIs(t: string, o: nat, c: nat, m: nat, nl: nat)
    requires Find(t, OPEN, 0, |t|) == o && Find(t, CLOSE, o, |t|) == c && c <= |t|
    requires Find(t, MARKER, o + |OPEN|, c) == m && Find(t, "\n", m, c) == nl && nl + 1 <= c
    requires t[nl + 1..c] == NOTICE && TrimRight(NOTICE) != ""
    ensures Table(t) == Some((nl + 1, c))
  {
    hide Find, TrimRight;
  }

  /** The closing tag moves along with what follows it. */
  lemma CloseFound(text: string, t: string, o: nat, start: nat, end: nat)
    requires 0 < start <= end <= |text| && text[start - 1] == '\n' && t == text[..start] + NOTICE + text[end..]
    requires o < start && Find(text, CLOSE, o, |text|) == end
    ensures Find(t, CLOSE, o, |t|) == start + |NOTICE|
  {
    var end' := start + |NOTICE|;
    NoticeParts(text, start, end, t);
    FirstClose(text, o, end);
    hide Find, At;
    forall i: nat | o <= i < end' ensures !At(t, CLOSE, i) {
      CloseStays(text, t, o, start, end, i);
    }
    AtMoved(text, end, t, end', CLOSE);
    FindIs(t, CLOSE, o, |t|, end');
  }

  lemma FirstClose(text: string, o: nat, end: nat)
    requires Find(text, CLOSE, o, |text|) == end
    ensures end + |CLOSE| <= |text| && At(text, CLOSE, end) && forall k: nat | o <= k < end :: !At(text, CLOSE, k)
  {
  }

  lemma AtMoved(s: string, i: nat, t: string, j: nat, w: string)
    requires At(s, w, i) && i <= |s| && j <= |t| && s[i..] == t[j..]
    ensures At(t, w, j) && j + |w| <= |t|
  {
    assert s[i..][..|w|] == s[i..i + |w|];
    assert t[j..][..|w|] == t[j..j + |w|];
  }

  /** The notice is not blank, and it is not a trimmed text. */
  lemma NoticeTrimmed()
    ensures TrimRight(NOTICE) != "" && TrimRight(NOTICE) != NOTICE && TrimRight(TrimRight(NOTICE)) == TrimRight(NOTICE)
  {
    var n := |NOTICE|;
    assert NOTICE[n - 1] == '\n';
    assert NOTICE[n - 2] == ']';
    assert TrimRight(NOTICE[..n - 1]) == NOTICE[..n - 1];
  }

  // ---------------------------------------------------------------- the decoder

  /** Puts the last full table back where the notice stands. */
  function Decode(last: string, out: string): (string, string) {
    if Table(out).None? then (out, last)
    else if Raw(out) == NOTICE then (WithTable(out, last), last)
    else (out, TrimRight(Raw(out)))
  }

  function EncodeAll(st: State, interval: int, msgs: seq<string>): seq<string>
    decreases |msgs|
  {
    if msgs == [] then []
    else
      var r := Encode(st, interval, msgs[0]);
      [r.0] + EncodeAll(r.1, interval, msgs[1..])
  }

  function DecodeAll(last: string, outs: seq<string>): seq<string>
    decreases |outs|
  {
    if outs == [] then []
    else
      var r := Decode(last, outs[0]);
      [r.0] + DecodeAll(r.1, outs[1..])
  }

  /** The text itself, or the text without the white space at the end of its table. */
  predicate SameUpToBlanks(text: string, decoded: string) {
    decoded == text || (Table(text).Some? && decoded == WithTable(text, TrimRight(Raw(text))))
  }

  predicate AllSame(msgs: seq<string>, decoded: seq<string>) {
    |decoded| == |msgs| && forall i | 0 <= i < |msgs| :: SameUpToBlanks(msgs[i], decoded[i])
  }

  /** A table that is the notice itself, behind a table that is not. */
  predicate Ambiguous(last: string, text: string) {
    Table(text).Some? && Raw(text) == NOTICE && last != TrimRight(NOTICE)
  }

  /** No message is, given the tables before it. */
  predicate NoneAmbiguous(last: string, msgs: seq<string>)
    decreases |msgs|
  {
    msgs == [] ||
    (!Ambiguous(last, msgs[0]) && NoneAmbiguous(if Table(msgs[0]).Some? then TrimRight(Raw(msgs[0])) else last, msgs[1..]))
  }

  predicate Trimmed(s: string) {
    TrimRight(s) == s
  }

  lemma TrimmedTwice(s: string)
    ensures Trimmed(TrimRight(s))
  {
  }

  /** One message: what the decoder makes of what the encoder sent. */
  lemma DecodeOne(st: State, interval: int, text: string)
    requires Trimmed(st.last)
    ensures var (out, st') := Encode(st, interval, text);
            var (back, last') := Decode(st.last, out);
            && (SameUpToBlanks(text, back) <==> !Ambiguous(st.last, text))
            && (!Ambiguous(st.last, text) ==> last' == st'.last)
            && Trimmed(st'.last) && st'.last == (if Table(text).Some? then TrimRight(Raw(text)) else st.last)
  {
    hide TrimRight, Table;
    if Table(text).Some? {
      TrimmedTwice(Raw(text));
      NoticeTrimmed();
      if Repeats(st, interval, text) {
        NoticeFound(text);
        Restored(text, st.last);
      } else if Raw(text) == NOTICE {
        AmbiguousLost(text, st.last);
      }
    }
  }

  lemma Restored(text: string, last: string)
    requires Table(text).Some? && Table(WithTable(text, NOTICE)).Some?
    requires var t, start := WithTable(text, NOTICE), Table(text).value.0;
             && Table(t) == Some((start, start + |NOTICE|)) && start + |NOTICE| <= |t|
             && t[..start] == text[..start] && t[start + |NOTICE|..] == text[Table(text).value.1..]
    ensures WithTable(WithTable(text, NOTICE), last) == WithTable(text, last)
  {
    hide Table;
  }

  /** With the notice as its own table, another text comes back unless the last table was the notice's. */
  lemma AmbiguousLost(text: string, last: string)
    requires Table(text).Some? && Raw(text) == NOTICE && Trimmed(last)
    ensures SameUpToBlanks(text, WithTable(text, last)) <==> last == TrimRight(NOTICE)
  {
    hide TrimRight, Table;
    NoticeTrimmed();
    WithTableInjective(text, last, TrimRight(NOTICE));
    WithTableInjective(text, last, NOTICE);
    var (start, end) := Table(text).value;
    assert WithTable(text, NOTICE) == text by { assert text == text[..start] + text[start..end] + text[end..]; }
  }

  lemma WithTableInjective(text: string, a: string, b: string)
    requires Table(text).Some?
    ensures WithTable(text, a) == WithTable(text, b) ==> a == b
  {
    hide Table;
    var (start, end) := Table(text).value;
    var s, t := WithTable(text, a), WithTable(text, b);
    assert |s| == start + |a| + (|text| - end) && |t| == start + |b| + (|text| - end);
    assert s[start..start + |a|] == a && t[start..start + |b|] == b;
  }

  /** Decoding the compacted messages gives every message back exactly when none of them is ambiguous. */
  lemma {:induction false} CompactionReversible(st: State, interval: int, msgs: seq<string>)
    requires Trimmed(st.last)
    ensures AllSame(msgs, DecodeAll(st.last, EncodeAll(st, interval, msgs))) <==> NoneAmbiguous(st.last, msgs)
    decreases |msgs|
  {
    hide TrimRight, Table, Ambiguous, SameUpToBlanks, Encode, Decode;
    if msgs != [] {
      DecodeOne(st, interval, msgs[0]);
      var (out, st') := Encode(st, interval, msgs[0]);
      var (back, last') := Decode(st.last, out);
      var outs := EncodeAll(st', interval, msgs[1..]);
      assert EncodeAll(st, interval, msgs) == [out] + outs && ([out] + outs)[1..] == outs;
      var decoded := DecodeAll(st.last, [out] + outs);
      assert decoded == [back] + DecodeAll(last', outs);
      SameCons(msgs, back, DecodeAll(last', outs));
      if !Ambiguous(st.last, msgs[0]) { CompactionReversible(st', interval, msgs[1..]); }
    }
  }

  lemma SameCons(msgs: seq<string>, back: string, rest: seq<string>)
    requires msgs != []
    ensures AllSame(msgs, [back] + rest) <==> SameUpToBlanks(msgs[0], back) && AllSame(msgs[1..], rest)
  {
    hide SameUpToBlanks;
    var all := [back] + rest;
    if AllSame(msgs, all) {
      forall i | 0 <= i < |msgs| - 1 ensures SameUpToBlanks(msgs[1..][i], rest[i]) {
        assert msgs[1..][i] == msgs[i + 1] && rest[i] == all[i + 1];
      }
    }
    if SameUpToBlanks(msgs[0], back) && AllSame(msgs[1..], rest) {
      forall i | 0 <= i < |msgs| ensures SameUpToBlanks(msgs[i], all[i]) {
        if i > 0 { assert msgs[1..][i - 1] == msgs[i] && rest[i - 1] == all[i]; }
      }
    }
  }

  // ---------------------------------------------------------------- refreshing

  /** How many tables in a row have been replaced when the messages have been sent. */
  function NoticesInARow(st: State, interval: int, msgs: seq<string>, run: nat): (State, nat)
    decreases |msgs|
  {
    if msgs == [] then (st, run)
    else
      NoticesInARow(Encode(st, interval, msgs[0]).1, interval, msgs[1..],
                    if Repeats(st, interval, msgs[0]) then run + 1
                    else if Table(msgs[0]).Some? then 0
                    else run)
  }

  /** Between two full tables there are fewer notices than the refresh interval. */
  lemma {:induction false} RefreshedInTime(st: State, interval: int, msgs: seq<string>, run: nat)
    requires interval > 0 && (if st.last == "" then run == 0 else st.since == run + 1 && st.since <= interval)
    ensures NoticesInARow(st, interval, msgs, run).1 < interval
    decreases |msgs|
  {
    hide TrimRight, Table;
    if msgs != [] {
      RefreshedInTime(Encode(st, interval, msgs[0]).1, interval, msgs[1..],
                      if Repeats(st, interval, msgs[0]) then run + 1
                      else if Table(msgs[0]).Some? then 0
                      else run);
    }
  }

  // ---------------------------------------------------------------- which tables are replaced

  /** The tables of the messages, without the white space at their ends. */
  function TablesOf(msgs: seq<string>): (r: seq<string>)
    ensures forall t | t in r :: t != ""
  {
    if msgs == [] then []
    else
      var last := msgs[|msgs| - 1];
      TablesOf(msgs[..|msgs| - 1]) + if Table(last).Some? then [TrimRight(Raw(last))] else []
  }

  /** How many tables in a row at the end are this one. */
  function InARow(tables: seq<string>, t: string): nat {
    if tables != [] && tables[|tables| - 1] == t then 1 + InARow(tables[..|tables| - 1], t) else 0
  }

  /** The context when these messages have been sent. */
  function After(interval: int, msgs: seq<string>): State {
    if msgs == [] then State("", 0) else Encode(After(interval, msgs[..|msgs| - 1]), interval, msgs[|msgs| - 1]).1
  }

  /** The context holds the last table, and counts from one to the interval along the equal ones. */
  predicate Counts(st: State, interval: int, tables: seq<string>)
    requires interval > 0
  {
    if tables == [] then st == State("", 0)
    else
      var t := tables[|tables| - 1];
      st.last == t && InARow(tables, t) > 0 && st.since == (InARow(tables, t) - 1) % interval + 1
  }

  lemma OneMore(n: nat, interval: int)
    requires interval > 0 && n > 0
    ensures var since := (n - 1) % interval + 1;
            && (since < interval <==> n % interval != 0) && 1 <= since <= interval
            && n % interval + 1 == if since < interval then since + 1 else 1
  {
    var q, r := (n - 1) / interval, (n - 1) % interval;
    assert n == q * interval + (r + 1);
    if r + 1 < interval {
      Remainder(n, q, r + 1, interval);
    } else {
      assert n == (q + 1) * interval + 0;
      Remainder(n, q + 1, 0, interval);
    }
  }

  lemma Remainder(n: nat, q: int, r: int, m: int)
    requires m > 0 && 0 <= r < m && n == q * m + r
    ensures n % m == r
  {
    var d := n / m - q;
    assert d * m == r - n % m;
    assert -d * m == n % m - r;
    if d > 0 { AtLeastOnce(d, m); }
    if d < 0 { AtLeastOnce(-d, m); }
  }

  lemma AtLeastOnce(d: int, m: int)
    requires d > 0 && m > 0
    ensures d * m >= m
  {
  }

  lemma {:induction false} AfterCounts(interval: int, msgs: seq<string>)
    requires interval > 0
    ensures Counts(After(interval, msgs), interval, TablesOf(msgs))
  {
    hide Table, TrimRight;
    if msgs != [] {
      var before, last := msgs[..|msgs| - 1], msgs[|msgs| - 1];
      AfterCounts(interval, before);
      if Table(last).Some? {
        OneTable(After(interval, before), interval, TablesOf(before), last);
      } else {
        assert TablesOf(before) + [] == TablesOf(before);
      }
    }
  }

  /** One more message with a table. */
  lemma OneTable(st: State, interval: int, tables: seq<string>, text: string)
    requires interval > 0 && Counts(st, interval, tables) && (forall t | t in tables :: t != "") && Table(text).Some?
    ensures Counts(Encode(st, interval, text).1, interval, tables + [TrimRight(Raw(text))])
    ensures var n := InARow(tables, TrimRight(Raw(text)));
            Repeats(st, interval, text) <==> n > 0 && n % interval != 0
  {
    var t := TrimRight(Raw(text));
    EncodeState(st, interval, text, t);
    hide Table, TrimRight, Encode, Repeats, Counts;
    CountsOn(st, interval, tables, t);
  }

  lemma EncodeState(st: State, interval: int, text: string, t: string)
    requires Table(text).Some? && t == TrimRight(Raw(text))
    ensures t != "" && (Repeats(st, interval, text) <==> st.last != "" && t == st.last && st.since < interval)
    ensures Encode(st, interval, text).1 == if Repeats(st, interval, text) then State(t, st.since + 1) else State(t, 1)
  {
    hide Table, TrimRight;
  }

  lemma CountsOn(st: State, interval: int, tables: seq<string>, t: string)
    requires interval > 0 && Counts(st, interval, tables) && (forall x | x in tables :: x != "") && t != ""
    ensures var again := st.last != "" && t == st.last && st.since < interval;
            var n := InARow(tables, t);
            && Counts(if again then State(t, st.since + 1) else State(t, 1), interval, tables + [t])
            && (again <==> n > 0 && n % interval != 0)
  {
    var n, more := InARow(tables, t), tables + [t];
    assert more[..|more| - 1] == tables && more[|more| - 1] == t;
    assert InARow(more, t) == n + 1;
    if tables == [] {
      Remainder(0, 0, 0, interval);
    } else if tables[|tables| - 1] == t {
      assert t in tables;
      OneMore(n, interval);
    } else {
      assert tables[|tables| - 1] in tables;
      Remainder(0, 0, 0, interval);
    }
  }

  /**
   A table is replaced if and only if equal tables came directly before it, messages without a table
   aside, and their number is not a multiple of the refresh interval.
   */
  lemma ReplacedExactly(interval: int, msgs: seq<string>, text: string)
    requires interval > 0
    ensures Repeats(After(interval, msgs), interval, text) <==>
              Table(text).Some? &&
              var n := InARow(TablesOf(msgs), TrimRight(Raw(text)));
              n > 0 && n % interval != 0
  {
    hide Table, TrimRight, After;
    AfterCounts(interval, msgs);
    if Table(text).Some? { OneTable(After(interval, msgs), interval, TablesOf(msgs), text); }
  }
}
