/**
 Usage telemetry (pkg/telemetry/metrics.go): calendar windows and a ring of sixty minute slots, both
 kept up to date one observation at a time, against the log of everything observed.

 Times are seconds since 1970 in UTC, totals are unbounded integers and reals. The percentages that
 are derived from the totals on reading are left out.
 */
module Telemetry {
  import opened Wrappers

  // ---------------------------------------------------------------- totals

  datatype CycleKiller = CycleKiller(interventions: int, avoidedTokens: int, avoidedSeconds: int, heals: int,
                                     escalations: int, kickstarts: int)
  datatype ThoughtSlap = ThoughtSlap(slaps: int, recovered: int, exhausted: int, extraTokens: int, extraCost: real)

  datatype Metrics = Metrics(requests: int, tokens: int, tokensLocal: int, spent: real, saved: real, cycle: CycleKiller,
                             fairyDust: int, slap: ThoughtSlap, ntsTokens: int, ntsBytes: int, ntsTurns: int)

  datatype SlapOutcome = Recovered | Exhausted | Other

  datatype Observation = Observation(tokens: int, isLocal: bool, isFallback: bool, spent: real, saved: real, cycleBroken: bool,
                                     kickstarted: bool, fairyDusted: bool, slapAttempts: int, slapOutcome: SlapOutcome,
                                     slapTokens: int, slapCost: real, ntsTokens: int, ntsBytes: int)

  const AVOIDED_TOKENS := 8000
  const TOKENS_PER_SECOND := 35

  const NoCycles := CycleKiller(0, 0, 0, 0, 0, 0)
  const NoSlaps := ThoughtSlap(0, 0, 0, 0, 0.0)
  const Zero := Metrics(0, 0, 0, 0.0, 0.0, NoCycles, 0, NoSlaps, 0, 0, 0)

  function PlusCycles(a: CycleKiller, b: CycleKiller): CycleKiller {
    CycleKiller(a.interventions + b.interventions, a.avoidedTokens + b.avoidedTokens, a.avoidedSeconds + b.avoidedSeconds,
                a.heals + b.heals, a.escalations + b.escalations, a.kickstarts + b.kickstarts)
  }

  function PlusSlaps(a: ThoughtSlap, b: ThoughtSlap): ThoughtSlap {
    ThoughtSlap(a.slaps + b.slaps, a.recovered + b.recovered, a.exhausted + b.exhausted, a.extraTokens + b.extraTokens,
                a.extraCost + b.extraCost)
  }

  /** addBucketToWindow. */
  function Plus(a: Metrics, b: Metrics): Metrics {
    Metrics(a.requests + b.requests, a.tokens + b.tokens, a.tokensLocal + b.tokensLocal, a.spent + b.spent, a.saved + b.saved,
            PlusCycles(a.cycle, b.cycle), a.fairyDust + b.fairyDust, PlusSlaps(a.slap, b.slap),
            a.ntsTokens + b.ntsTokens, a.ntsBytes + b.ntsBytes, a.ntsTurns + b.ntsTurns)
  }

  lemma PlusZero(a: Metrics)
    ensures Plus(a, Zero) == a && Plus(Zero, a) == a
  {
  }

  lemma PlusSwap(a: Metrics, b: Metrics, c: Metrics)
    ensures Plus(a, b) == Plus(b, a)
    ensures Plus(Plus(a, b), c) == Plus(Plus(a, c), b) == Plus(a, Plus(b, c))
  {
  }

  lemma PlusCancel(a: Metrics, b: Metrics, c: Metrics)
    ensures Plus(a, c) == Plus(b, c) <==> a == b
  {
  }

  lemma PlusRequests(a: Metrics, b: Metrics)
    ensures Plus(a, b).requests == a.requests + b.requests
  {
  }

  /** What one observation is worth. */
  function Of(o: Observation): Metrics {
    Metrics(1, o.tokens, if o.isLocal then o.tokens else 0, o.spent, o.saved,
            CyclesOf(o), if o.fairyDusted then 1 else 0, SlapsOf(o),
            if Compacted(o) then o.ntsTokens else 0, if Compacted(o) then o.ntsBytes else 0, if Compacted(o) then 1 else 0)
  }

  function CyclesOf(o: Observation): CycleKiller {
    CycleKiller(if o.cycleBroken then 1 else 0, if o.cycleBroken then AVOIDED_TOKENS else 0,
                if o.cycleBroken then AVOIDED_TOKENS / TOKENS_PER_SECOND else 0,
                if o.cycleBroken && !o.isFallback then 1 else 0, if o.cycleBroken && o.isFallback then 1 else 0,
                if o.kickstarted then 1 else 0)
  }

  function SlapsOf(o: Observation): ThoughtSlap {
    if o.slapAttempts > 0
    then ThoughtSlap(o.slapAttempts, if o.slapOutcome == Recovered then 1 else 0,
                     if o.slapOutcome == Exhausted then 1 else 0, o.slapTokens, o.slapCost)
    else NoSlaps
  }

  predicate Compacted(o: Observation) {
    o.ntsTokens > 0 || o.ntsBytes > 0
  }

  /** addToWindow. */
  method AddToWindow(w0: Metrics, o: Observation) returns (w: Metrics)
    ensures w == Plus(w0, Of(o))
  {
    hide PlusCycles, PlusSlaps, CyclesOf, SlapsOf;
    w := w0.(requests := w0.requests + 1, tokens := w0.tokens + o.tokens,
             tokensLocal := w0.tokensLocal + (if o.isLocal then o.tokens else 0), spent := w0.spent + o.spent, saved := w0.saved + o.saved);
    var c := AddCycles(w.cycle, o);
    w := w.(cycle := c);
    if o.fairyDusted {
      w := w.(fairyDust := w.fairyDust + 1);
    }
    var s := AddSlaps(w.slap, o);
    w := w.(slap := s);
    if o.ntsTokens > 0 || o.ntsBytes > 0 {
      w := w.(ntsTokens := w.ntsTokens + o.ntsTokens, ntsBytes := w.ntsBytes + o.ntsBytes, ntsTurns := w.ntsTurns + 1);
    }
  }

  method AddCycles(c0: CycleKiller, o: Observation) returns (c: CycleKiller)
    ensures c == PlusCycles(c0, CyclesOf(o))
  {
    c := c0;
    if o.cycleBroken {
      c := c.(interventions := c.interventions + 1, avoidedTokens := c.avoidedTokens + AVOIDED_TOKENS,
              avoidedSeconds := c.avoidedSeconds + AVOIDED_TOKENS / TOKENS_PER_SECOND);
      if o.isFallback {
        c := c.(escalations := c.escalations + 1);
      } else {
        c := c.(heals := c.heals + 1);
      }
    }
    if o.kickstarted {
      c := c.(kickstarts := c.kickstarts + 1);
    }
  }

  method AddSlaps(s0: ThoughtSlap, o: Observation) returns (s: ThoughtSlap)
    ensures s == PlusSlaps(s0, SlapsOf(o))
  {
    s := s0;
    if o.slapAttempts > 0 {
      s := s.(slaps := s.slaps + o.slapAttempts);
      match o.slapOutcome {
        case Recovered => s := s.(recovered := s.recovered + 1);
        case Exhausted => s := s.(exhausted := s.exhausted + 1);
        case Other =>
      }
      s := s.(extraTokens := s.extraTokens + o.slapTokens, extraCost := s.extraCost + o.slapCost);
    }
  }

  // ---------------------------------------------------------------- the log

  datatype Entry = Entry(at: int, obs: Observation)

  function Day(t: int): int {
    t / 86400
  }

  /** Division truncates toward zero, also before 1970. */
  function Minute(t: int): (r: int)
    ensures if t >= 0 then 60 * r <= t < 60 * r + 60 else 60 * r - 60 < t <= 60 * r
  {
    if t >= 0 then t / 60 else -((-t) / 60)
  }

  /** The ISO week: weeks start on Monday, and day 0 was a Thursday. */
  function Week(day: int): int {
    (day + 3) / 7
  }

  /** Months follow one another, and none is longer than 31 days. */
  ghost predicate IsCalendar(month: int -> int) {
    && (forall a, b :: a <= b ==> month(a) <= month(b))
    && (forall a, b :: a + 31 <= b ==> month(a) < month(b))
  }

  datatype Period = OnDay(day: int) | InWeek(week: int) | InMonth(month: int) | InHour(now: int) | Ever

  predicate Within(month: int -> int, t: int, p: Period) {
    match p
    case OnDay(d) => Day(t) == d
    case InWeek(w) => Week(Day(t)) == w
    case InMonth(m) => month(Day(t)) == m
    case InHour(now) => Minute(t) <= now < Minute(t) + 60
    case Ever => true
  }

  /** The total of everything logged in a period. */
  function Total(month: int -> int, log: seq<Entry>, p: Period): Metrics {
    if log == [] then Zero
    else
      var e := log[|log| - 1];
      var rest := Total(month, log[..|log| - 1], p);
      if Within(month, e.at, p) then Plus(rest, Of(e.obs)) else rest
  }

  lemma {:induction false} TotalNone(month: int -> int, log: seq<Entry>, p: Period)
    requires forall e | e in log :: !Within(month, e.at, p)
    ensures Total(month, log, p) == Zero
  {
    hide Plus, Of, Within;
    if log != [] {
      assert log[|log| - 1] in log;
      TotalNone(month, log[..|log| - 1], p);
    }
  }

  lemma {:induction false} TotalMore(month: int -> int, log: seq<Entry>, e: Entry, p: Period)
    ensures Total(month, log + [e], p) == if Within(month, e.at, p) then Plus(Total(month, log, p), Of(e.obs)) else Total(month, log, p)
  {
    hide Plus, Of, Within;
    assert (log + [e])[..|log|] == log;
  }

  // ---------------------------------------------------------------- what the totals count

  /** How many observations of the period are like this. */
  function CountIf(month: int -> int, log: seq<Entry>, p: Period, like: Observation -> bool): nat {
    if log == [] then 0
    else
      var e := log[|log| - 1];
      CountIf(month, log[..|log| - 1], p, like) + if Within(month, e.at, p) && like(e.obs) then 1 else 0
  }

  /** What those that are like this amount to. */
  function SumIf(month: int -> int, log: seq<Entry>, p: Period, like: Observation -> bool, of: Observation -> int): int {
    if log == [] then 0
    else
      var e := log[|log| - 1];
      SumIf(month, log[..|log| - 1], p, like, of) + if Within(month, e.at, p) && like(e.obs) then of(e.obs) else 0
  }

  function CostIf(month: int -> int, log: seq<Entry>, p: Period, like: Observation -> bool, of: Observation -> real): real {
    if log == [] then 0.0
    else
      var e := log[|log| - 1];
      CostIf(month, log[..|log| - 1], p, like, of) + if Within(month, e.at, p) && like(e.obs) then of(e.obs) else 0.0
  }

  predicate Any(o: Observation) { true }

  predicate IsLocal(o: Observation) { o.isLocal }

  predicate Broken(o: Observation) { o.cycleBroken }

  /** The cycle was broken on the tier itself. */
  predicate Healed(o: Observation) { o.cycleBroken && !o.isFallback }

  /** The cycle was broken, and the fallback tier took over. */
  predicate Escalated(o: Observation) { o.cycleBroken && o.isFallback }

  predicate Kickstarted(o: Observation) { o.kickstarted }

  predicate Dusted(o: Observation) { o.fairyDusted }

  predicate Slapped(o: Observation) { o.slapAttempts > 0 }

  predicate SlapRecovered(o: Observation) { o.slapAttempts > 0 && o.slapOutcome == Recovered }

  predicate SlapExhausted(o: Observation) { o.slapAttempts > 0 && o.slapOutcome == Exhausted }

  predicate Shortened(o: Observation) { o.ntsTokens > 0 || o.ntsBytes > 0 }

  function Tokens(o: Observation): int { o.tokens }

  function Spent(o: Observation): real { o.spent }

  function Saved(o: Observation): real { o.saved }

  function SlapAttempts(o: Observation): int { o.slapAttempts }

  function SlapTokens(o: Observation): int { o.slapTokens }

  function SlapCost(o: Observation): real { o.slapCost }

  function NtsTokens(o: Observation): int { o.ntsTokens }

  function NtsBytes(o: Observation): int { o.ntsBytes }

  /** The requests of the period, their tokens and costs. */
  lemma {:induction false} UsageCounted(month: int -> int, log: seq<Entry>, p: Period)
    ensures var t := Total(month, log, p);
            && t.requests == CountIf(month, log, p, Any)
            && t.tokens == SumIf(month, log, p, Any, Tokens) && t.tokensLocal == SumIf(month, log, p, IsLocal, Tokens)
            && t.spent == CostIf(month, log, p, Any, Spent) && t.saved == CostIf(month, log, p, Any, Saved)
            && t.fairyDust == CountIf(month, log, p, Dusted)
  {
    hide Within, PlusCycles, PlusSlaps, CyclesOf, SlapsOf;
    if log != [] { UsageCounted(month, log[..|log| - 1], p); }
  }

  /** A broken cycle is a heal, or with the fallback tier an escalation; each is worth 8000 tokens at 35 a second. */
  lemma {:induction false} CyclesCounted(month: int -> int, log: seq<Entry>, p: Period)
    ensures var t := Total(month, log, p).cycle;
            && t.interventions == CountIf(month, log, p, Broken) == t.heals + t.escalations
            && t.heals == CountIf(month, log, p, Healed) && t.escalations == CountIf(month, log, p, Escalated)
            && t.kickstarts == CountIf(month, log, p, Kickstarted)
            && t.avoidedTokens == 8000 * t.interventions && t.avoidedSeconds == 228 * t.interventions
  {
    hide Within, PlusSlaps, SlapsOf;
    if log != [] { CyclesCounted(month, log[..|log| - 1], p); }
  }

  /** The slaps of the period, how they ended, and what they cost. */
  lemma {:induction false} SlapsCounted(month: int -> int, log: seq<Entry>, p: Period)
    ensures var t := Total(month, log, p).slap;
            && t.slaps == SumIf(month, log, p, Slapped, SlapAttempts)
            && t.recovered == CountIf(month, log, p, SlapRecovered) && t.exhausted == CountIf(month, log, p, SlapExhausted)
            && t.extraTokens == SumIf(month, log, p, Slapped, SlapTokens) && t.extraCost == CostIf(month, log, p, Slapped, SlapCost)
  {
    hide Within, PlusCycles, CyclesOf;
    if log != [] { SlapsCounted(month, log[..|log| - 1], p); }
  }

  /** What compaction saved, and in how many requests. */
  lemma {:induction false} CompactionCounted(month: int -> int, log: seq<Entry>, p: Period)
    ensures var t := Total(month, log, p);
            && t.ntsTokens == SumIf(month, log, p, Shortened, NtsTokens) && t.ntsBytes == SumIf(month, log, p, Shortened, NtsBytes)
            && t.ntsTurns == CountIf(month, log, p, Shortened)
  {
    hide Within, PlusCycles, PlusSlaps, CyclesOf, SlapsOf;
    if log != [] { CompactionCounted(month, log[..|log| - 1], p); }
  }

  // ---------------------------------------------------------------- calendar windows

  /** The windows the tracker keeps. */
  datatype Windows = Windows(day: int, week: int, month: int, today: Metrics, yesterday: Metrics, thisWeek: Metrics, thisMonth: Metrics)

  function BucketAt(buckets: map<int, Metrics>, k: int): Metrics {
    if k in buckets then buckets[k] else Zero
  }

  /** The windows are those of the newest day logged, each the total of its period in the log. */
  ghost predicate Agrees(month: int -> int, log: seq<Entry>, w: Windows) {
    && (forall e | e in log :: Day(e.at) <= w.day)
    && w.week == Week(w.day) && w.month == month(w.day)
    && w.today == Total(month, log, OnDay(w.day))
    && w.yesterday == Total(month, log, OnDay(w.day - 1))
    && w.thisWeek == Total(month, log, InWeek(w.week))
    && w.thisMonth == Total(month, log, InMonth(w.month))
  }

  /** The daily buckets of the last 31 days are the totals of those days. Older ones may have been dropped. */
  ghost predicate BucketsAgree(month: int -> int, log: seq<Entry>, day: int, buckets: map<int, Metrics>) {
    && (forall k | k in buckets :: k <= day)
    && (forall k | day - 31 <= k :: BucketAt(buckets, k) == Total(month, log, OnDay(k)))
  }

  ghost predicate HasDay(log: seq<Entry>, day: int) {
    exists e :: e in log && Day(e.at) == day
  }

  /** A new day opens: what the windows become before the observation is added. */
  lemma {:induction false} RollOver(month: int -> int, log: seq<Entry>, w: Windows, day: int)
    requires IsCalendar(month) && Agrees(month, log, w) && w.day < day
    ensures Agrees(month, log, Windows(day, Week(day), month(day), Zero, Total(month, log, OnDay(day - 1)),
                                       if Week(day) == w.week then w.thisWeek else Zero,
                                       if month(day) == w.month then w.thisMonth else Zero))
    ensures forall k | day <= k :: Total(month, log, OnDay(k)) == Zero
  {
    hide Total;
    forall k | day <= k ensures Total(month, log, OnDay(k)) == Zero {
      TotalNone(month, log, OnDay(k));
    }
    if Week(day) != w.week { TotalNone(month, log, InWeek(Week(day))); }
    if month(day) != w.month {
      forall e | e in log ensures month(Day(e.at)) != month(day) {
        assert month(Day(e.at)) <= month(w.day) <= month(day);
      }
      TotalNone(month, log, InMonth(month(day)));
    }
  }

  /** One observation, on a day that is not after the active one. */
  lemma {:induction false} WindowsAdd(month: int -> int, log: seq<Entry>, w: Windows, e: Entry)
    requires Agrees(month, log, w) && Day(e.at) <= w.day
    ensures Agrees(month, log + [e], w.(
              today := if Day(e.at) == w.day then Plus(w.today, Of(e.obs)) else w.today,
              yesterday := if Day(e.at) == w.day - 1 then Plus(w.yesterday, Of(e.obs)) else w.yesterday,
              thisWeek := if Week(Day(e.at)) == w.week then Plus(w.thisWeek, Of(e.obs)) else w.thisWeek,
              thisMonth := if month(Day(e.at)) == w.month then Plus(w.thisMonth, Of(e.obs)) else w.thisMonth))
  {
    hide Total, Plus, Of;
    TotalMore(month, log, e, OnDay(w.day));
    TotalMore(month, log, e, OnDay(w.day - 1));
    TotalMore(month, log, e, InWeek(w.week));
    TotalMore(month, log, e, InMonth(w.month));
  }

  lemma {:induction false} BucketsAdd(month: int -> int, log: seq<Entry>, day: int, buckets: map<int, Metrics>, e: Entry)
    requires BucketsAgree(month, log, day, buckets) && Day(e.at) <= day
    ensures BucketsAgree(month, log + [e], day, buckets[Day(e.at) := Plus(BucketAt(buckets, Day(e.at)), Of(e.obs))])
  {
    hide Total, Plus, Of;
    forall k | day - 31 <= k
      ensures BucketAt(buckets[Day(e.at) := Plus(BucketAt(buckets, Day(e.at)), Of(e.obs))], k) == Total(month, log + [e], OnDay(k))
    {
      TotalMore(month, log, e, OnDay(k));
    }
  }

  /** The buckets of a period, from day lo up to before hi. */
  function SumBuckets(month: int -> int, buckets: map<int, Metrics>, lo: int, hi: int, p: Period): Metrics
    decreases hi - lo
  {
    if lo >= hi then Zero
    else
      var rest := SumBuckets(month, buckets, lo, hi - 1, p);
      if Within(month, (hi - 1) * 86400, p) then Plus(rest, BucketAt(buckets, hi - 1)) else rest
  }

  function SumDays(month: int -> int, log: seq<Entry>, lo: int, hi: int, p: Period): Metrics
    decreases hi - lo
  {
    if lo >= hi then Zero
    else
      var rest := SumDays(month, log, lo, hi - 1, p);
      if Within(month, (hi - 1) * 86400, p) then Plus(rest, Total(month, log, OnDay(hi - 1))) else rest
  }

  predicate ByDay(p: Period) {
    p.InWeek? || p.InMonth?
  }

  lemma {:induction false} BucketsAreDays(month: int -> int, log: seq<Entry>, day: int, buckets: map<int, Metrics>, lo: int, hi: int, p: Period)
    requires BucketsAgree(month, log, day, buckets) && day - 31 <= lo
    ensures SumBuckets(month, buckets, lo, hi, p) == SumDays(month, log, lo, hi, p)
    decreases hi - lo
  {
    hide Total, Plus, Within;
    if lo < hi { BucketsAreDays(month, log, day, buckets, lo, hi - 1, p); }
  }

  /** One entry adds to the day it falls on. */
  lemma {:induction false} SumDaysMore(month: int -> int, log: seq<Entry>, e: Entry, lo: int, hi: int, p: Period)
    requires ByDay(p)
    ensures SumDays(month, log + [e], lo, hi, p) ==
            if lo <= Day(e.at) < hi && Within(month, e.at, p) then Plus(SumDays(month, log, lo, hi, p), Of(e.obs))
            else SumDays(month, log, lo, hi, p)
    decreases hi - lo
  {
    hide Total, Plus, Of;
    if lo < hi {
      SumDaysMore(month, log, e, lo, hi - 1, p);
      TotalMore(month, log, e, OnDay(hi - 1));
      PlusSwap(SumDays(month, log, lo, hi - 1, p), Of(e.obs), Total(month, log, OnDay(hi - 1)));
      PlusSwap(Of(e.obs), Total(month, log, OnDay(hi - 1)), Zero);
      assert Day((hi - 1) * 86400) == hi - 1;
    }
  }

  /** A period's total is the sum over its days. */
  lemma {:induction false} DaysMakePeriod(month: int -> int, log: seq<Entry>, lo: int, hi: int, p: Period)
    requires ByDay(p)
    requires forall e | e in log && Within(month, e.at, p) :: lo <= Day(e.at) < hi
    ensures SumDays(month, log, lo, hi, p) == Total(month, log, p)
  {
    hide Plus, Of, Within;
    if log == [] {
      NoDays(month, lo, hi, p);
    } else {
      var e := log[|log| - 1];
      var rest := log[..|log| - 1];
      assert log == rest + [e] && e in log;
      DaysMakePeriod(month, rest, lo, hi, p);
      SumDaysMore(month, rest, e, lo, hi, p);
    }
  }

  lemma {:induction false} NoDays(month: int -> int, lo: int, hi: int, p: Period)
    ensures SumDays(month, [], lo, hi, p) == Zero
    decreases hi - lo
  {
    hide Within;
    if lo < hi {
      NoDays(month, lo, hi - 1, p);
      PlusZero(Zero);
    }
  }

  /** This week and this month are the sums of their daily buckets, none of which has been dropped. */
  lemma {:induction false} WindowsSumBuckets(month: int -> int, log: seq<Entry>, w: Windows, buckets: map<int, Metrics>)
    requires IsCalendar(month) && Agrees(month, log, w) && BucketsAgree(month, log, w.day, buckets)
    ensures w.today == BucketAt(buckets, w.day) && w.yesterday == BucketAt(buckets, w.day - 1)
    ensures w.thisWeek == SumBuckets(month, buckets, w.day - 31, w.day + 1, InWeek(w.week))
    ensures w.thisMonth == SumBuckets(month, buckets, w.day - 31, w.day + 1, InMonth(w.month))
    ensures forall k | k in buckets && (Week(k) == w.week || month(k) == w.month) :: w.day - 31 < k <= w.day
  {
    hide Total, Plus, SumBuckets, SumDays;
    BucketsAreDays(month, log, w.day, buckets, w.day - 31, w.day + 1, InWeek(w.week));
    BucketsAreDays(month, log, w.day, buckets, w.day - 31, w.day + 1, InMonth(w.month));
    DaysMakePeriod(month, log, w.day - 31, w.day + 1, InWeek(w.week));
    DaysMakePeriod(month, log, w.day - 31, w.day + 1, InMonth(w.month));
  }

  // ---------------------------------------------------------------- the minute ring

  datatype Slot = Slot(epoch: int, metrics: Metrics)

  const RING := 60

  function SlotOf(minute: int): (r: nat)
    ensures r < RING
  {
    (if minute < 0 then -minute else minute) % RING
  }

  /** One observation in the ring. */
  function Put(r: seq<Slot>, e: Entry): seq<Slot>
    requires |r| == RING
  {
    var m := Minute(e.at);
    var i := SlotOf(m);
    r[i := if r[i].epoch == m then Slot(m, Plus(r[i].metrics, Of(e.obs))) else Slot(m, Plus(Zero, Of(e.obs)))]
  }

  function RingOf(log: seq<Entry>): (r: seq<Slot>)
    ensures |r| == RING
  {
    if log == [] then seq(RING, _ => Slot(0, Zero)) else Put(RingOf(log[..|log| - 1]), log[|log| - 1])
  }

  /** The slot is read at minute now. */
  predicate Fresh(s: Slot, now: int) {
    s.epoch > 0 && now >= s.epoch && now - s.epoch < 60
  }

  function Shown(s: Slot, now: int): Metrics {
    if Fresh(s, now) then s.metrics else Zero
  }

  /** What the first n slots show. */
  function Read(r: seq<Slot>, n: nat, now: int): Metrics
    requires n <= |r|
  {
    if n == 0 then Zero else Plus(Read(r, n - 1, now), Shown(r[n - 1], now))
  }

  /** What later observations wrote over, of what would be read at minute now. */
  function Lost(log: seq<Entry>, now: int): Metrics {
    if log == [] then Zero
    else
      var r := RingOf(log[..|log| - 1]);
      var e := log[|log| - 1];
      var s := r[SlotOf(Minute(e.at))];
      Plus(Lost(log[..|log| - 1], now), if s.epoch == Minute(e.at) then Zero else Shown(s, now))
  }

  ghost predicate AfterEpoch(log: seq<Entry>) {
    forall e | e in log :: Minute(e.at) > 0
  }

  lemma {:induction false} ReadUpdate(r: seq<Slot>, i: nat, s: Slot, n: nat, now: int)
    requires i < |r| && n <= |r|
    ensures i < n ==> Plus(Read(r[i := s], n, now), Shown(r[i], now)) == Plus(Read(r, n, now), Shown(s, now))
    ensures n <= i ==> Read(r[i := s], n, now) == Read(r, n, now)
  {
    hide Plus, Shown;
    if n > 0 {
      ReadUpdate(r, i, s, n - 1, now);
      var a, b := Read(r[i := s], n - 1, now), Read(r, n - 1, now);
      if i < n - 1 {
        PlusSwap(a, Shown(r[n - 1], now), Shown(r[i], now));
        PlusSwap(b, Shown(r[n - 1], now), Shown(s, now));
      } else if i == n - 1 {
        PlusSwap(b, Shown(s, now), Shown(r[i], now));
      }
    }
  }

  /** One observation: what is shown and what is lost together grow by it, when it is of the last hour. */
  lemma {:induction false} PutConserves(month: int -> int, r: seq<Slot>, e: Entry, now: int)
    requires |r| == RING && Minute(e.at) > 0
    ensures var s := r[SlotOf(Minute(e.at))];
            Plus(Read(Put(r, e), RING, now), if s.epoch == Minute(e.at) then Zero else Shown(s, now)) ==
            if Within(month, e.at, InHour(now)) then Plus(Read(r, RING, now), Of(e.obs)) else Read(r, RING, now)
  {
    hide Plus, Read, Of;
    var m := Minute(e.at);
    var i := SlotOf(m);
    var s := Put(r, e)[i];
    ReadUpdate(r, i, s, RING, now);
    PlusZero(Of(e.obs));
    PlusZero(Read(Put(r, e), RING, now));
    PlusZero(Read(r, RING, now));
    if r[i].epoch == m && Fresh(s, now) {
      PlusSwap(r[i].metrics, Of(e.obs), Zero);
      PlusSwap(Read(r, RING, now), Of(e.obs), r[i].metrics);
      PlusSwap(Read(r, RING, now), r[i].metrics, Of(e.obs));
      PlusCancel(Read(Put(r, e), RING, now), Plus(Read(r, RING, now), Of(e.obs)), r[i].metrics);
    }
  }

  /** What the ring shows and what was written over are, together, exactly what the last hour logged. */
  lemma {:induction false} RingConserves(month: int -> int, log: seq<Entry>, now: int)
    requires AfterEpoch(log)
    ensures Plus(Read(RingOf(log), RING, now), Lost(log, now)) == Total(month, log, InHour(now))
  {
    hide Plus, Read, Of, Put, Within, Shown;
    if log == [] {
      EmptyShows(RING, now);
      PlusZero(Zero);
    } else {
      var rest, e := log[..|log| - 1], log[|log| - 1];
      assert e in log;
      RingConserves(month, rest, now);
      PutConserves(month, RingOf(rest), e, now);
      var s := RingOf(rest)[SlotOf(Minute(e.at))];
      var gone := if s.epoch == Minute(e.at) then Zero else Shown(s, now);
      PlusSwap(Read(RingOf(log), RING, now), gone, Lost(rest, now));
      PlusSwap(Read(RingOf(log), RING, now), Lost(rest, now), gone);
      PlusSwap(Lost(rest, now), gone, Zero);
      PlusSwap(Read(RingOf(rest), RING, now), Of(e.obs), Lost(rest, now));
    }
  }

  lemma {:induction false} EmptyShows(n: nat, now: int)
    requires n <= RING
    ensures Read(RingOf([]), n, now) == Zero
  {
    hide Plus;
    if n > 0 {
      EmptyShows(n - 1, now);
      PlusZero(Zero);
      assert RingOf([])[n - 1] == Slot(0, Zero);
    }
  }

  /** After an observation of the last hour, its slot was never used for another minute. */
  ghost predicate Undisturbed(log: seq<Entry>, now: int) {
    forall i, j | 0 <= i < j < |log| && Minute(log[i].at) <= now < Minute(log[i].at) + 60
                  && SlotOf(Minute(log[j].at)) == SlotOf(Minute(log[i].at)) :: Minute(log[j].at) == Minute(log[i].at)
  }

  lemma OneRequest(o: Observation)
    ensures Of(o).requests == 1
  {
  }

  /** A slot in use holds the minute last written to it, and at least one request. */
  lemma {:induction false} SlotHolds(log: seq<Entry>, i: nat)
    requires i < RING && AfterEpoch(log)
    ensures var s := RingOf(log)[i];
            s.epoch > 0 ==> s.metrics.requests > 0 && exists j :: Wrote(log, j, i) && Minute(log[j].at) == s.epoch
    ensures (exists j :: Wrote(log, j, i)) ==> RingOf(log)[i].epoch > 0
  {
    hide Plus, Of, Minute, SlotOf;
    if log != [] {
      var rest, e := log[..|log| - 1], log[|log| - 1];
      assert e in log;
      SlotHolds(rest, i);
      if SlotOf(Minute(e.at)) == i {
        assert Wrote(log, |rest|, i);
        PlusRequests(Zero, Of(e.obs));
        PlusRequests(RingOf(rest)[i].metrics, Of(e.obs));
        OneRequest(e.obs);
      } else {
        assert RingOf(log)[i] == RingOf(rest)[i];
        if j :| Wrote(rest, j, i) && Minute(rest[j].at) == RingOf(rest)[i].epoch {
          assert Wrote(log, j, i);
        }
        forall j | Wrote(log, j, i) ensures Wrote(rest, j, i) {
        }
      }
    }
  }

  /** Observation j is the last one to have written slot i. */
  ghost predicate Wrote(log: seq<Entry>, j: int, i: nat) {
    0 <= j < |log| && SlotOf(Minute(log[j].at)) == i && forall k | j < k < |log| :: SlotOf(Minute(log[k].at)) != i
  }

  lemma {:induction false} LastWriter(log: seq<Entry>, a: int) returns (j: int)
    requires 0 <= a < |log|
    ensures a <= j && Wrote(log, j, SlotOf(Minute(log[a].at)))
  {
    var i := SlotOf(Minute(log[a].at));
    j := |log| - 1;
    while SlotOf(Minute(log[j].at)) != i
      invariant a <= j < |log| && forall k | j < k < |log| :: SlotOf(Minute(log[k].at)) != i
      decreases j
    {
      j := j - 1;
    }
  }

  lemma NothingDisturbed(now: int)
    ensures Undisturbed([], now)
  {
  }

  lemma {:induction false} LostIsPositive(log: seq<Entry>, now: int)
    requires AfterEpoch(log)
    ensures Lost(log, now).requests >= 0
    ensures Lost(log, now).requests == 0 <==> Undisturbed(log, now)
    ensures Undisturbed(log, now) ==> Lost(log, now) == Zero
  {
    hide RingOf, Plus, Undisturbed;
    if log == [] {
      NothingDisturbed(now);
    } else {
      var rest, e := log[..|log| - 1], log[|log| - 1];
      assert e in log && log == rest + [e];
      LostIsPositive(rest, now);
      var i := SlotOf(Minute(e.at));
      var s := RingOf(rest)[i];
      SlotHolds(rest, i);
      var gone := if s.epoch == Minute(e.at) then Zero else Shown(s, now);
      assert Lost(log, now) == Plus(Lost(rest, now), gone);
      assert gone.requests >= 0 && (gone.requests == 0 <==> s.epoch == Minute(e.at) || !Fresh(s, now));
      assert gone.requests == 0 ==> gone == Zero;
      PlusRequests(Lost(rest, now), gone);
      UndisturbedStep(rest, e, now);
      PlusZero(Zero);
    }
  }

  /** The last observation disturbs the hour exactly when it takes over a slot that would have been read. */
  lemma {:induction false} UndisturbedStep(rest: seq<Entry>, e: Entry, now: int)
    requires AfterEpoch(rest + [e])
    ensures var s := RingOf(rest)[SlotOf(Minute(e.at))];
            Undisturbed(rest + [e], now) <==> Undisturbed(rest, now) && (s.epoch == Minute(e.at) || !Fresh(s, now))
  {
    if Undisturbed(rest + [e], now) { StepDisturbed(rest, e, now); }
    var s := RingOf(rest)[SlotOf(Minute(e.at))];
    if Undisturbed(rest, now) && (s.epoch == Minute(e.at) || !Fresh(s, now)) { StepUndisturbed(rest, e, now); }
    hide Undisturbed;
  }

  lemma {:induction false} StepDisturbed(rest: seq<Entry>, e: Entry, now: int)
    requires AfterEpoch(rest + [e]) && Undisturbed(rest + [e], now)
    ensures var s := RingOf(rest)[SlotOf(Minute(e.at))];
            Undisturbed(rest, now) && (s.epoch == Minute(e.at) || !Fresh(s, now))
  {
    hide RingOf, SlotOf, Minute;
    var log := rest + [e];
    var i := SlotOf(Minute(e.at));
    var s := RingOf(rest)[i];
    assert forall x | x in rest :: x in log;
    SlotHolds(rest, i);
    forall a, b | 0 <= a < b < |rest| && Minute(rest[a].at) <= now < Minute(rest[a].at) + 60
                  && SlotOf(Minute(rest[b].at)) == SlotOf(Minute(rest[a].at))
      ensures Minute(rest[b].at) == Minute(rest[a].at)
    {
      assert log[a] == rest[a] && log[b] == rest[b];
    }
    if Fresh(s, now) {
      var j :| Wrote(rest, j, i) && Minute(rest[j].at) == s.epoch;
      assert log[j] == rest[j] && log[|rest|] == e;
    }
  }

  lemma {:induction false} StepUndisturbed(rest: seq<Entry>, e: Entry, now: int)
    requires AfterEpoch(rest + [e]) && Undisturbed(rest, now)
    requires var s := RingOf(rest)[SlotOf(Minute(e.at))]; s.epoch == Minute(e.at) || !Fresh(s, now)
    ensures Undisturbed(rest + [e], now)
  {
    hide RingOf, SlotOf, Minute;
    var log := rest + [e];
    assert forall x | x in rest :: x in log;
    forall a, b | 0 <= a < b < |log| && Minute(log[a].at) <= now < Minute(log[a].at) + 60
                  && SlotOf(Minute(log[b].at)) == SlotOf(Minute(log[a].at))
      ensures Minute(log[b].at) == Minute(log[a].at)
    {
      assert log[a] == rest[a] && rest[a] in rest;
      if b < |rest| {
        assert log[b] == rest[b];
      } else {
        StillThere(rest, a, now);
      }
    }
  }

  /** In an undisturbed log the slot of an observation of the last hour still holds its minute. */
  lemma {:induction false} StillThere(log: seq<Entry>, a: nat, now: int)
    requires a < |log| && AfterEpoch(log) && Undisturbed(log, now) && Minute(log[a].at) <= now < Minute(log[a].at) + 60
    ensures RingOf(log)[SlotOf(Minute(log[a].at))].epoch == Minute(log[a].at)
  {
    hide RingOf;
    var i := SlotOf(Minute(log[a].at));
    var j := LastWriter(log, a);
    SlotHolds(log, i);
    var k :| Wrote(log, k, i) && Minute(log[k].at) == RingOf(log)[i].epoch;
    assert k == j;
  }

  /** The ring shows exactly the last hour if and only if that hour was left undisturbed. */
  lemma {:induction false} RingExact(month: int -> int, log: seq<Entry>, now: int)
    requires AfterEpoch(log)
    ensures Read(RingOf(log), RING, now) == Total(month, log, InHour(now)) <==> Undisturbed(log, now)
  {
    hide Read, RingOf, Total, Lost;
    RingConserves(month, log, now);
    LostIsPositive(log, now);
    PlusZero(Read(RingOf(log), RING, now));
  }

  /** No observation is an hour or more behind one that came before it. */
  ghost predicate LessThanAnHourLate(log: seq<Entry>) {
    forall i, j | 0 <= i < j < |log| :: Minute(log[i].at) < Minute(log[j].at) + 60
  }

  /** Then every reading that is not in the past is exact; in particular when times never decrease. */
  lemma {:induction false} RingIsLastHour(month: int -> int, log: seq<Entry>, now: int)
    requires AfterEpoch(log) && LessThanAnHourLate(log) && forall e | e in log :: Minute(e.at) <= now
    ensures Read(RingOf(log), RING, now) == Total(month, log, InHour(now))
  {
    hide Read, RingOf, Total;
    forall i, j | 0 <= i < j < |log| && Minute(log[i].at) <= now < Minute(log[i].at) + 60
                  && SlotOf(Minute(log[j].at)) == SlotOf(Minute(log[i].at))
      ensures Minute(log[j].at) == Minute(log[i].at)
    {
      assert log[i] in log && log[j] in log;
    }
    RingExact(month, log, now);
  }

  /** An observation exactly an hour late removes what its slot held. */
  lemma {:induction false} HourLateLoses(month: int -> int, e: Entry, late: Entry)
    requires Minute(late.at) > 0 && Minute(e.at) == Minute(late.at) + 60
    ensures Read(RingOf([e, late]), RING, Minute(e.at)) != Total(month, [e, late], InHour(Minute(e.at)))
  {
    hide Read, RingOf, Total;
    var log := [e, late];
    assert log[0] == e && log[1] == late;
    RingExact(month, log, Minute(e.at));
  }

  // ---------------------------------------------------------------- the tracker

  function Newest(log: seq<Entry>): Option<int> {
    if log == [] then None
    else match Newest(log[..|log| - 1])
         case None => Some(log[|log| - 1].at)
         case Some(t) => Some(if log[|log| - 1].at > t then log[|log| - 1].at else t)
  }

  lemma {:induction false} NewestIsLast(log: seq<Entry>)
    ensures Newest(log).None? <==> log == []
    ensures forall e | e in log :: e.at <= Newest(log).value
  {
    if log != [] { NewestIsLast(log[..|log| - 1]); }
  }

  /** Every window and every recent bucket is the total of its period in the log. */
  ghost predicate Holds(month: int -> int, log: seq<Entry>, windows: Option<Windows>, buckets: map<int, Metrics>, allTime: Metrics) {
    && IsCalendar(month)
    && (windows.None? <==> log == [])
    && (windows.None? ==> buckets == map[])
    && (windows.Some? ==>
          && Agrees(month, log, windows.value)
          && BucketsAgree(month, log, windows.value.day, buckets)
          && HasDay(log, windows.value.day))
    && allTime == Total(month, log, Ever)
  }

  class StatsTracker {
    var windows: Option<Windows>
    var buckets: map<int, Metrics>
    var allTime: Metrics
    var lastObserved: Option<int>
    const ring: array<Slot>
    const month: int -> int
    ghost var log: seq<Entry>

    ghost predicate Valid()
      reads this, ring
    {
      && Holds(month, log, windows, buckets, allTime)
      && ring.Length == RING && ring[..] == RingOf(log)
      && lastObserved == Newest(log)
    }

    constructor (month: int -> int)
      requires IsCalendar(month)
      ensures Valid() && fresh(ring) && log == [] && this.month == month
    {
      this.month := month;
      windows, buckets, allTime, lastObserved, log := None, map[], Zero, None, [];
      ring := new Slot[RING](_ => Slot(0, Zero));
      new;
      assert ring[..] == RingOf([]);
    }

    /** pruneBucketsLocked: 31 days are kept behind the one observed. */
    method PruneBuckets(day: int)
      modifies this`buckets
      ensures forall k :: k in buckets <==> k in old(buckets) && k >= day - 31
      ensures forall k | k in buckets :: buckets[k] == old(buckets)[k]
    {
      buckets := map k | k in buckets && k >= day - 31 :: buckets[k];
    }

    /** The rollover sentinel: opens the observation's day when it is new. */
    method OpenDay(day: int)
      requires Holds(month, log, windows, buckets, allTime)
      modifies this`windows, this`buckets
      ensures Opened(month, log, old(windows), windows, buckets, day)
    {
      hide Total, Plus;
      if windows.None? {
        windows := Some(Windows(day, Week(day), month(day), BucketAt(buckets, day), BucketAt(buckets, day - 1), Zero, Zero));
        FirstDay(month, log, day);
      } else if day > windows.value.day {
        ghost var was := buckets;
        RollOver(month, log, windows.value, day);
        var yesterday, today := BucketAt(buckets, day - 1), BucketAt(buckets, day);
        var w := windows.value;
        windows := Some(Windows(day, Week(day), month(day), today, yesterday,
                                if Week(day) != w.week then Zero else w.thisWeek, if month(day) != w.month then Zero else w.thisMonth));
        PruneBuckets(day);
        assert forall k | day - 31 <= k :: BucketAt(buckets, k) == BucketAt(was, k);
      }
    }

    /** The calendar half of updateWindowsLocked. */
    method AddToWindows(e: Entry)
      requires Holds(month, log, windows, buckets, allTime)
      modifies this`windows, this`buckets, this`allTime
      ensures Holds(month, log + [e], windows, buckets, allTime)
      ensures windows.Some? && (windows.value.day == if old(windows).None? || Day(e.at) > old(windows).value.day then Day(e.at) else old(windows).value.day)
    {
      hide Total, Plus, Of, HasDay;
      ghost var before := windows;
      var day := Day(e.at);
      OpenDay(day);
      var w := windows.value;
      WindowsAdd(month, log, w, e);
      BucketsAdd(month, log, w.day, buckets, e);
      TotalMore(month, log, e, Ever);
      DayStays(log, e, if before.None? then day else before.value.day);
      var bucket := AddToWindow(BucketAt(buckets, day), e.obs);
      buckets := buckets[day := bucket];
      if day == w.day {
        var today := AddToWindow(w.today, e.obs);
        w := w.(today := today);
      } else if day == w.day - 1 {
        w := w.(yesterday := bucket);
      }
      if Week(day) == w.week {
        var thisWeek := AddToWindow(w.thisWeek, e.obs);
        w := w.(thisWeek := thisWeek);
      }
      if month(day) == w.month {
        var thisMonth := AddToWindow(w.thisMonth, e.obs);
        w := w.(thisMonth := thisMonth);
      }
      windows := Some(w);
      allTime := AddToWindow(allTime, e.obs);
    }

    /** The ring half of updateWindowsLocked. */
    method AddToRing(e: Entry)
      requires ring.Length == RING && ring[..] == RingOf(log) && lastObserved == Newest(log)
      modifies ring, this`lastObserved
      ensures ring[..] == RingOf(log + [e]) && lastObserved == Newest(log + [e])
    {
      hide Plus, Of;
      ghost var r := ring[..];
      assert (log + [e])[..|log|] == log;
      var m := Minute(e.at);
      var i := SlotOf(m);
      if ring[i].epoch != m {
        ring[i] := Slot(m, Zero);
      }
      var added := AddToWindow(ring[i].metrics, e.obs);
      ring[i] := ring[i].(metrics := added);
      assert ring[..] == Put(r, e);
      if lastObserved.None? || e.at > lastObserved.value {
        lastObserved := Some(e.at);
      }
    }

    /** updateWindowsLocked. */
    method UpdateWindows(obs: Observation, at: int)
      requires Valid()
      modifies this, ring
      ensures Valid() && log == old(log) + [Entry(at, obs)]
    {
      hide Holds, RingOf, Newest;
      AddToWindows(Entry(at, obs));
      AddToRing(Entry(at, obs));
      log := log + [Entry(at, obs)];
    }

    /** The last hour as GetStats reports it. */
    method PastHour(now: int) returns (w: Metrics, minute: int)
      requires Valid()
      ensures minute == if log != [] && Minute(Newest(log).value) > Minute(now) then Minute(Newest(log).value) else Minute(now)
      ensures w == Read(RingOf(log), RING, minute)
    {
      hide Holds, RingOf, Plus;
      minute := Minute(now);
      NewestIsLast(log);
      if lastObserved.Some? && Minute(lastObserved.value) > minute {
        minute := Minute(lastObserved.value);
      }
      w := Zero;
      var i := 0;
      while i < RING
        invariant 0 <= i <= RING && w == Read(RingOf(log), i, minute)
      {
        var slot := ring[i];
        assert slot == RingOf(log)[i];
        PlusZero(w);
        if slot.epoch > 0 && minute >= slot.epoch && minute - slot.epoch < 60 {
          w := Plus(w, slot.metrics);
        }
        i := i + 1;
      }
    }
  }

  /** What OpenDay leaves: windows of the new or of the active day, agreeing with the same log. */
  ghost predicate Opened(month: int -> int, log: seq<Entry>, was: Option<Windows>, now: Option<Windows>, buckets: map<int, Metrics>, day: int) {
    && now.Some? && Agrees(month, log, now.value) && BucketsAgree(month, log, now.value.day, buckets)
    && day <= now.value.day
    && now.value.day == (if was.None? || day > was.value.day then day else was.value.day)
    && (was.Some? ==> HasDay(log, was.value.day))
  }

  lemma {:induction false} FirstDay(month: int -> int, log: seq<Entry>, day: int)
    requires log == []
    ensures Agrees(month, log, Windows(day, Week(day), month(day), Zero, Zero, Zero, Zero))
    ensures BucketsAgree(month, log, day, map[])
  {
  }

  lemma {:induction false} DayStays(log: seq<Entry>, e: Entry, was: int)
    ensures HasDay(log + [e], Day(e.at))
    ensures HasDay(log, was) ==> HasDay(log + [e], was)
  {
    assert e in log + [e];
    if HasDay(log, was) {
      var x :| x in log && Day(x.at) == was;
      assert x in log + [e];
    }
  }

  /** Minutes follow times, so what the reading shows is exact when nothing came an hour or more late. */
  lemma {:induction false} PastHourIsExact(month: int -> int, log: seq<Entry>, now: int)
    requires AfterEpoch(log) && LessThanAnHourLate(log)
    ensures var newest := if log == [] then now else Newest(log).value;
            var minute := if Minute(newest) > Minute(now) then Minute(newest) else Minute(now);
            Newest(log).Some? == (log != []) && Read(RingOf(log), RING, minute) == Total(month, log, InHour(minute))
  {
    hide Read, RingOf, Total;
    NewestIsLast(log);
    var newest := if log == [] then now else Newest(log).value;
    RingIsLastHour(month, log, if Minute(newest) > Minute(now) then Minute(newest) else Minute(now));
  }
}
