/**
 Per-session counters: SessionTracker (pkg/router/session.go) and the steps of a request that drive
 it, evaluateTurnAndReadSlap, enforceAntiLatchingBreaker and applyPromptInjections
 (pkg/server/pipeline.go).

 Turns of one session are sequential. The time is an input; what the session remembers about model
 cooldowns, directives and review checkpoints is left out.
 */
module Session {
  import opened Wrappers

  datatype Session = Session(retries: int, escalation: int, kickstart: int, failures: int, floor: int,
                             lastTurn: int, root: int, prompt: int, messages: int)

  /** The arguments of RecordTurnTaskWithHold, and the time. */
  datatype Input = Input(now: int, root: int, prompt: int, progress: bool, hold: bool, hasTools: bool, messages: int)

  const MAX_ESCALATION_TURNS := 3
  const DEFAULT_MAX_FAILURES := 3
  const DEFAULT_FLOOR := 3

  // ---------------------------------------------------------------- one turn

  function NewSession(i: Input): Session {
    Session(0, 0, 0, 0, 0, i.now, i.root, i.prompt, i.messages)
  }

  predicate Expired(s: Session, now: int, ttl: int) {
    now - s.lastTurn > ttl
  }

  predicate IsNewTask(s: Session, i: Input) {
    || (i.root != 0 && s.root != 0 && s.root != i.root)
    || (i.messages > 0 && s.messages > 0 && i.messages < s.messages)
  }

  datatype Verdict = Progress | Hold | Retry

  /** What the turn is taken for within its task. */
  function Judge(s: Session, i: Input): Verdict {
    if i.root != 0 then
      if i.hasTools then
        if i.progress then Progress
        else if i.hold && s.retries > 0 then Hold
        else Retry
      else if s.prompt == i.prompt && i.prompt != 0 then Retry
      else Progress
    else if s.prompt == i.prompt && i.prompt != 0 && !i.progress then Retry
    else Progress
  }

  /** The session behind the turn, before the retry floor. */
  function Counted(s: Session, i: Input): Session {
    if IsNewTask(s, i) then
      s.(retries := 0, escalation := 0, root := i.root, prompt := i.prompt, messages := i.messages, lastTurn := i.now)
    else
      var t := s.(messages := i.messages, lastTurn := i.now, root := if i.root != 0 && s.root == 0 then i.root else s.root,
                  prompt := i.prompt);
      match Judge(s, i)
      case Progress => t.(retries := 0, escalation := 0)
      case Hold => t
      case Retry => t.(retries := s.retries + 1)
  }

  /** RecordTurnTaskWithHold on a session that exists. */
  function Advance(s: Session, i: Input, ttl: int): (Session, int, bool) {
    if Expired(s, i.now, ttl) then
      (NewSession(i), 0, false)
    else
      var t := Counted(s, i);
      var retry := !IsNewTask(s, i) && Judge(s, i) != Progress;
      var retries := if retry then t.retries else 0;
      if t.floor > 0 then
        (t.(floor := t.floor - 1), if retries < t.floor then t.floor else retries, retry || retries < t.floor)
      else (t, retries, retry)
  }

  /** RecordTurnTaskWithHold. */
  function Recorded(s: Option<Session>, i: Input, ttl: int): (Session, int, bool) {
    match s
    case None => (NewSession(i), 0, false)
    case Some(x) => Advance(x, i, ttl)
  }

  // ---------------------------------------------------------------- the steps of a request

  datatype Config = Config(threshold: int, maxFailures: int, maxSlaps: int, defaultTier: string, tiers: seq<string>)

  function MaxFailures(c: Config): (r: int)
    ensures r > 0
  {
    if c.maxFailures <= 0 then DEFAULT_MAX_FAILURES else c.maxFailures
  }

  function Threshold(c: Config): (r: int)
    ensures r > 0
  {
    if c.threshold <= 0 then 5 else c.threshold
  }

  /** A turn as the pipeline sees it; `slapOn` is off when read slaps or kickstarts are disabled. */
  datatype Turn = Turn(input: Input, historyErrors: int, slapOn: bool, slapProgress: bool, dusted: bool, target: string)

  /** RecordKickstartState. */
  function Kicked(s: Session, progress: bool, threshold: int, maxFailures: int): (Session, int, bool) {
    if progress then (s.(kickstart := 0, failures := 0), 0, false)
    else if s.failures >= maxFailures then (s, s.kickstart, false)
    else (s.(kickstart := s.kickstart + 1), s.kickstart + 1, s.kickstart + 1 >= threshold)
  }

  function FirstOther(tiers: seq<string>, name: string): (r: Option<string>)
    ensures r.Some? ==> r.value in tiers && r.value != name
    ensures r.None? ==> forall t | t in tiers :: t == name
  {
    if tiers == [] then None
    else if tiers[0] != name then Some(tiers[0])
    else
      assert tiers == [tiers[0]] + tiers[1..];
      FirstOther(tiers[1..], name)
  }

  /** enforceAntiLatchingBreaker. */
  function Latched(c: Config, s: Session, target: string): (Session, string) {
    if target != c.defaultTier then (s.(escalation := 0), target)
    else if s.escalation + 1 > MAX_ESCALATION_TURNS then
      (s.(escalation := s.escalation + 1), match FirstOther(c.tiers, c.defaultTier) case None => target case Some(t) => t)
    else (s.(escalation := s.escalation + 1), target)
  }

  /** What a turn leaves behind and what it reports. */
  datatype Outcome = Outcome(session: Session, retries: int, isRetry: bool, tier: string, slapped: bool, forced: bool)

  function MaxSlaps(c: Config): int {
    if c.maxSlaps <= 0 then 10 else c.maxSlaps
  }

  /** The session, the retries with those the history shows, and the read slap. */
  function Evaluated(c: Config, ttl: int, s: Option<Session>, t: Turn): (Session, int, bool, int, bool) {
    var (s1, retries, isRetry) := Recorded(s, t.input, ttl);
    var more := t.historyErrors > retries;
    var (s2, count, kicked) := if t.slapOn then Kicked(s1, t.slapProgress, Threshold(c), MaxFailures(c)) else (s1, 0, false);
    (s2, if more then t.historyErrors else retries, isRetry || more, count, kicked)
  }

  function TurnDone(c: Config, ttl: int, s: Option<Session>, t: Turn): Outcome {
    var (s2, retries, isRetry, count, kicked) := Evaluated(c, ttl, s, t);
    var (s3, tier) := Latched(c, s2, t.target);
    var slapped := kicked && !t.dusted;
    Outcome(if slapped then s3.(failures := s3.failures + 1) else s3, retries, isRetry, tier, slapped,
            kicked && count >= MaxSlaps(c))
  }

  // ---------------------------------------------------------------- the tracker

  class SessionTracker {
    var sessions: map<string, Session>
    const ttl: int
    const maxSessions: nat

    constructor (ttl: int, maxSessions: nat)
      ensures sessions == map[] && this.ttl == (if ttl <= 0 then 300 else ttl) && this.maxSessions == maxSessions
    {
      sessions := map[];
      this.ttl := if ttl <= 0 then 300 else ttl;
      this.maxSessions := maxSessions;
    }

    function Get(key: string): Option<Session>
      reads this
    {
      if key in sessions then Some(sessions[key]) else None
    }

    /** Other sessions are as before, or were evicted. */
    twostate predicate OthersKept(key: string)
      reads this
    {
      forall k | k in sessions && k != key :: k in old(sessions) && sessions[k] == old(sessions[k])
    }

    /** evictExpiredOrOldest: the expired sessions go, or else any one. */
    method Evict(now: int)
      modifies this
      ensures forall k | k in sessions :: k in old(sessions) && sessions[k] == old(sessions[k])
      ensures |old(sessions)| < maxSessions ==> sessions == old(sessions)
      ensures maxSessions > 0 ==> |sessions| < maxSessions || |old(sessions)| > maxSessions
    {
      if |sessions| < maxSessions { return; }
      ghost var was := sessions;
      sessions := map k | k in sessions && !Expired(sessions[k], now, ttl) :: sessions[k];
      KeysShrink(was, sessions);
      if |sessions| >= maxSessions && |sessions| > 0 {
        var k :| k in sessions;
        sessions := sessions - {k};
      }
    }

    method RecordTurnTaskWithHold(key: string, i: Input) returns (retries: int, isRetry: bool)
      modifies this
      ensures key == "" ==> retries == 0 && !isRetry && sessions == old(sessions)
      ensures key != "" ==> key in sessions && (sessions[key], retries, isRetry) == Recorded(old(Get(key)), i, ttl) && OthersKept(key)
    {
      if key == "" { return 0, false; }
      if key in sessions {
        var s := sessions[key];
        if i.now - s.lastTurn > ttl {
          sessions := sessions[key := NewSession(i)];
          return 0, false;
        }
        var truncated := i.messages > 0 && s.messages > 0 && i.messages < s.messages;
        if (i.root != 0 && s.root != 0 && s.root != i.root) || truncated {
          s := s.(retries := 0, escalation := 0, root := i.root, prompt := i.prompt, messages := i.messages, lastTurn := i.now);
          retries, isRetry := 0, false;
        } else {
          s, retries, isRetry := CountTurn(s, i);
        }
        if s.floor > 0 {
          if retries < s.floor {
            retries, isRetry := s.floor, true;
          }
          s := s.(floor := s.floor - 1);
        }
        sessions := sessions[key := s];
        return;
      }
      Evict(i.now);
      sessions := sessions[key := NewSession(i)];
      return 0, false;
    }

    /** A turn within the same task. */
    static method CountTurn(s0: Session, i: Input) returns (s: Session, retries: int, isRetry: bool)
      requires !IsNewTask(s0, i)
      ensures s == Counted(s0, i)
      ensures isRetry <==> Judge(s0, i) != Progress
      ensures retries == if isRetry then s.retries else 0
    {
      s := s0.(messages := i.messages, lastTurn := i.now);
      retries, isRetry := 0, false;
      if i.root != 0 {
        if s.root == 0 { s := s.(root := i.root); }
        if i.hasTools {
          if i.progress {
            s := s.(retries := 0, escalation := 0, prompt := i.prompt);
          } else if i.hold && s.retries > 0 {
            s := s.(prompt := i.prompt);
            retries, isRetry := s.retries, true;
          } else {
            s := s.(retries := s.retries + 1, prompt := i.prompt);
            retries, isRetry := s.retries, true;
          }
        } else if s.prompt == i.prompt && i.prompt != 0 {
          s := s.(retries := s.retries + 1);
          retries, isRetry := s.retries, true;
        } else {
          s := s.(retries := 0, escalation := 0, prompt := i.prompt);
        }
      } else if s.prompt == i.prompt && i.prompt != 0 {
        if i.progress {
          s := s.(retries := 0, escalation := 0);
        } else {
          s := s.(retries := s.retries + 1);
          retries, isRetry := s.retries, true;
        }
      } else {
        s := s.(retries := 0, escalation := 0, prompt := i.prompt);
      }
    }

    method RecordEscalation(key: string) returns (exhausted: bool)
      modifies this
      ensures key == "" || key !in old(sessions) ==> !exhausted && sessions == old(sessions)
      ensures key != "" && key in old(sessions) ==>
                var n := old(sessions)[key].escalation + 1;
                sessions == old(sessions)[key := old(sessions)[key].(escalation := n)] && (exhausted <==> n > MAX_ESCALATION_TURNS)
    {
      if key == "" || key !in sessions { return false; }
      var s := sessions[key];
      sessions := sessions[key := s.(escalation := s.escalation + 1)];
      return sessions[key].escalation > MAX_ESCALATION_TURNS;
    }

    method ResetEscalation(key: string)
      modifies this
      ensures sessions == if key != "" && key in old(sessions) then old(sessions)[key := old(sessions)[key].(escalation := 0)] else old(sessions)
    {
      if key != "" && key in sessions {
        sessions := sessions[key := sessions[key].(escalation := 0)];
      }
    }

    method RecordKickstartState(key: string, progress: bool, threshold: int, maxFailures: int) returns (count: int, kicked: bool)
      modifies this
      ensures key == "" || threshold <= 0 || key !in old(sessions) ==> count == 0 && !kicked && sessions == old(sessions)
      ensures key != "" && threshold > 0 && key in old(sessions) ==>
                var r := Kicked(old(sessions)[key], progress, threshold, if maxFailures <= 0 then DEFAULT_MAX_FAILURES else maxFailures);
                sessions == old(sessions)[key := r.0] && count == r.1 && kicked == r.2
    {
      if key == "" || threshold <= 0 { return 0, false; }
      var limit := if maxFailures <= 0 then DEFAULT_MAX_FAILURES else maxFailures;
      if key !in sessions { return 0, false; }
      var s := sessions[key];
      if progress {
        sessions := sessions[key := s.(kickstart := 0, failures := 0)];
        return 0, false;
      }
      if s.failures >= limit {
        assert sessions[key := s] == sessions;
        return s.kickstart, false;
      }
      sessions := sessions[key := s.(kickstart := s.kickstart + 1)];
      return s.kickstart + 1, s.kickstart + 1 >= threshold;
    }

    method RecordKickstartFailure(key: string)
      modifies this
      ensures sessions == if key != "" && key in old(sessions)
                          then old(sessions)[key := old(sessions)[key].(failures := old(sessions)[key].failures + 1)] else old(sessions)
    {
      if key != "" && key in sessions {
        var s := sessions[key];
        sessions := sessions[key := s.(failures := s.failures + 1)];
      }
    }

    method RecordCycleKill(key: string, now: int, retryFloor: int)
      modifies this
      ensures key == "" ==> sessions == old(sessions)
      ensures key != "" ==> key in sessions && sessions[key] == Killed(old(Get(key)), now, retryFloor) && OthersKept(key)
    {
      if key == "" { return; }
      var floor := if retryFloor > 0 then retryFloor else DEFAULT_FLOOR;
      if key !in sessions {
        Evict(now);
        sessions := sessions[key := Session(0, 0, 0, 0, 0, now, 0, 0, 0)];
      }
      if floor > sessions[key].floor {
        sessions := sessions[key := sessions[key].(floor := floor)];
      }
    }

    /** What ShouldDebounceMeta does to the counters: it creates the session, or refreshes its time. */
    method TouchForMeta(key: string, now: int)
      modifies this
      ensures key == "" ==> sessions == old(sessions)
      ensures key != "" ==> key in sessions && sessions[key] == Touched(old(Get(key)), now) && OthersKept(key)
    {
      if key == "" { return; }
      if key in sessions {
        sessions := sessions[key := sessions[key].(lastTurn := now)];
      } else {
        Evict(now);
        sessions := sessions[key := Session(0, 0, 0, 0, 0, now, 0, 0, 0)];
      }
    }

    /** What ResetSession, the reset command, does to the counters; the session stays. */
    method ResetSession(key: string)
      modifies this
      ensures key == "" || key !in old(sessions) ==> sessions == old(sessions)
      ensures key != "" && key in old(sessions) ==> sessions == old(sessions)[key := Cleared(old(sessions)[key])]
    {
      if key == "" || key !in sessions { return; }
      var s := sessions[key];
      s := s.(retries := 0, escalation := 0, kickstart := 0, failures := 0, floor := 0);
      s := s.(root := 0, prompt := 0, messages := 0);
      sessions := sessions[key := s];
    }

    method Reset(key: string)
      modifies this
      ensures sessions == old(sessions) - {key}
    {
      sessions := sessions - {key};
    }

    /** enforceAntiLatchingBreaker. */
    method EnforceAntiLatching(c: Config, key: string, target: string) returns (tier: string)
      requires key != "" && key in sessions
      modifies this
      ensures var r := Latched(c, old(sessions)[key], target); sessions == old(sessions)[key := r.0] && tier == r.1
    {
      tier := target;
      if tier == c.defaultTier {
        var exhausted := RecordEscalation(key);
        if exhausted { tier := OtherTier(c.tiers, c.defaultTier); }
      } else {
        ResetEscalation(key);
      }
    }

    /** The counting part of evaluateTurnAndReadSlap. */
    method EvaluateTurn(c: Config, key: string, t: Turn) returns (retries: int, isRetry: bool, count: int, kicked: bool)
      requires key != ""
      modifies this
      ensures key in sessions && OthersKept(key)
      ensures (sessions[key], retries, isRetry, count, kicked) == Evaluated(c, ttl, old(Get(key)), t)
    {
      hide Recorded, Kicked, Threshold;
      retries, isRetry := RecordTurnTaskWithHold(key, t.input);
      if t.historyErrors > retries {
        retries, isRetry := t.historyErrors, true;
      }
      count, kicked := 0, false;
      if t.slapOn {
        count, kicked := RecordKickstartState(key, t.slapProgress, Threshold(c), c.maxFailures);
      }
    }

    /** The steps of one request that touch its session. */
    method HandleTurn(c: Config, key: string, t: Turn) returns (r: Outcome)
      requires key != ""
      modifies this
      ensures r == TurnDone(c, ttl, old(Get(key)), t) && key in sessions && sessions[key] == r.session && OthersKept(key)
    {
      hide Evaluated, Latched;
      var retries, isRetry, count, kicked := EvaluateTurn(c, key, t);
      var forced := kicked && count >= MaxSlaps(c);
      var tier := EnforceAntiLatching(c, key, t.target);
      if kicked && !t.dusted {
        RecordKickstartFailure(key);
      }
      r := Outcome(sessions[key], retries, isRetry, tier, kicked && !t.dusted, forced);
    }
  }

  /** The first tier that is not the default, or the default. */
  method OtherTier(tiers: seq<string>, name: string) returns (r: string)
    ensures r == match FirstOther(tiers, name) case None => name case Some(t) => t
    ensures r == name ==> forall t | t in tiers :: t == name
    ensures r != name ==> exists i | 0 <= i < |tiers| :: tiers[i] == r && forall j | 0 <= j < i :: tiers[j] == name
  {
    var i := 0;
    assert tiers[0..] == tiers;
    while i < |tiers|
      invariant 0 <= i <= |tiers| && FirstOther(tiers[i..], name) == FirstOther(tiers, name)
      invariant forall j | 0 <= j < i :: tiers[j] == name
    {
      assert tiers[i..][1..] == tiers[i + 1..];
      if tiers[i] != name { return tiers[i]; }
      i := i + 1;
    }
    return name;
  }

  lemma KeysShrink(was: map<string, Session>, now: map<string, Session>)
    requires forall k | k in now :: k in was
    ensures |now| <= |was|
  {
    assert now.Keys <= was.Keys;
    SubsetSize(now.Keys, was.Keys);
    assert |now.Keys| == |now| && |was.Keys| == |was|;
  }

  lemma {:induction false} SubsetSize<T>(a: set<T>, b: set<T>)
    requires a <= b
    ensures |a| <= |b|
  {
    if a != {} {
      var x :| x in a;
      SubsetSize(a - {x}, b - {x});
    }
  }

  /** RecordCycleKill on what is known of the session. */
  function Killed(s: Option<Session>, now: int, retryFloor: int): Session {
    var floor := if retryFloor > 0 then retryFloor else DEFAULT_FLOOR;
    var x := match s case None => Session(0, 0, 0, 0, 0, now, 0, 0, 0) case Some(y) => y;
    x.(floor := if floor > x.floor then floor else x.floor)
  }

  function Touched(s: Option<Session>, now: int): Session {
    match s
    case None => Session(0, 0, 0, 0, 0, now, 0, 0, 0)
    case Some(x) => x.(lastTurn := now)
  }

  function Cleared(s: Session): Session {
    Session(0, 0, 0, 0, 0, s.lastTurn, 0, 0, 0)
  }

  // ---------------------------------------------------------------- whole runs of one session

  /** What can happen to one session key: a request, a cycle kill, a meta command, the reset command, or the
      loss of its state (Reset, or eviction in favour of another key). */
  datatype Event = Turned(turn: Turn) | Kill(now: int, floor: int) | Meta(now: int) | Clear | Lost

  function Step(c: Config, ttl: int, s: Option<Session>, e: Event): Option<Session> {
    match e
    case Turned(t) => Some(TurnDone(c, ttl, s, t).session)
    case Kill(now, floor) => Some(Killed(s, now, floor))
    case Meta(now) => Some(Touched(s, now))
    case Clear => if s.Some? then Some(Cleared(s.value)) else None
    case Lost => None
  }

  function Run(c: Config, ttl: int, s: Option<Session>, es: seq<Event>): Option<Session> {
    if es == [] then s else Step(c, ttl, Run(c, ttl, s, es[..|es| - 1]), es[|es| - 1])
  }

  /** The turn starts the escalation count over: no session, an expired one, a new task, or progress. */
  predicate Restarts(s: Option<Session>, i: Input, ttl: int) {
    s.None? || Expired(s.value, i.now, ttl) || IsNewTask(s.value, i) || Judge(s.value, i) == Progress
  }

  /** How often the anti-latching step returned the default tier since the escalation count was last zeroed. */
  function Defaults(c: Config, ttl: int, es: seq<Event>): nat {
    if es == [] then 0
    else
      var before := es[..|es| - 1];
      var s := Run(c, ttl, None, before);
      match es[|es| - 1]
      case Lost => 0
      case Clear => 0
      case Turned(t) =>
        var n := if Restarts(s, t.input, ttl) || t.target != c.defaultTier then 0 else Defaults(c, ttl, before);
        if TurnDone(c, ttl, s, t).tier == c.defaultTier then n + 1 else n
      case _ => Defaults(c, ttl, before)
  }

  /** Progress seen by the read slap, or a session that starts afresh. A new task alone does not clear the failures. */
  predicate Clears(s: Option<Session>, t: Turn, ttl: int) {
    s.None? || Expired(s.value, t.input.now, ttl) || (t.slapOn && t.slapProgress)
  }

  /** How many read slaps were injected since the failure count was last cleared. */
  function Slaps(c: Config, ttl: int, es: seq<Event>): nat {
    if es == [] then 0
    else
      var before := es[..|es| - 1];
      var s := Run(c, ttl, None, before);
      match es[|es| - 1]
      case Lost => 0
      case Clear => 0
      case Turned(t) =>
        var n := if Clears(s, t, ttl) then 0 else Slaps(c, ttl, before);
        if TurnDone(c, ttl, s, t).slapped then n + 1 else n
      case _ => Slaps(c, ttl, before)
  }

  function Escalation(s: Option<Session>): int {
    match s case None => 0 case Some(x) => x.escalation
  }

  function Failures(s: Option<Session>): int {
    match s case None => 0 case Some(x) => x.failures
  }

  function Floor(s: Option<Session>): int {
    match s case None => 0 case Some(x) => x.floor
  }

  function Min(a: int, b: int): int {
    if a < b then a else b
  }

  /** The counter and the returns it allows, over every run: capped when there is another tier, not otherwise. */
  lemma {:induction false} DefaultsCounted(c: Config, ttl: int, es: seq<Event>)
    ensures Escalation(Run(c, ttl, None, es)) >= 0
    ensures Defaults(c, ttl, es) ==
            if FirstOther(c.tiers, c.defaultTier).Some? then Min(Escalation(Run(c, ttl, None, es)), MAX_ESCALATION_TURNS)
            else Escalation(Run(c, ttl, None, es))
  {
    hide Killed, Judge, IsNewTask, Kicked;
    if es != [] {
      DefaultsCounted(c, ttl, es[..|es| - 1]);
      var s := Run(c, ttl, None, es[..|es| - 1]);
      match es[|es| - 1] {
        case Turned(t) => TurnEscalates(c, ttl, s, t);
        case Kill(now, floor) => KillKeeps(s, now, floor);
        case _ =>
      }
    }
  }

  /** One turn on the escalation count. */
  lemma {:induction false} TurnEscalates(c: Config, ttl: int, s: Option<Session>, t: Turn)
    ensures var n := if Restarts(s, t.input, ttl) then 0 else Escalation(s);
            var r := TurnDone(c, ttl, s, t);
            && r.session.escalation == (if t.target == c.defaultTier then n + 1 else 0)
            && (r.tier == c.defaultTier <==>
                t.target == c.defaultTier && (n < MAX_ESCALATION_TURNS || FirstOther(c.tiers, c.defaultTier).None?))
  {
    hide FirstOther;
    RecordedEscalation(s, t.input, ttl);
  }

  lemma {:induction false} RecordedEscalation(s: Option<Session>, i: Input, ttl: int)
    ensures Recorded(s, i, ttl).0.escalation == if Restarts(s, i, ttl) then 0 else Escalation(s)
    ensures Recorded(s, i, ttl).0.failures == if s.None? || Expired(s.value, i.now, ttl) then 0 else s.value.failures
  {
  }

  lemma {:induction false} KillKeeps(s: Option<Session>, now: int, floor: int)
    ensures Killed(s, now, floor).escalation == Escalation(s) && Killed(s, now, floor).failures == Failures(s)
  {
  }

  /** Between two zeroings of the escalation count the default tier is returned at most three times, in every run,
      exactly when some tier has another name. */
  lemma {:induction false} AntiLatching(c: Config, ttl: int)
    requires ttl >= 0
    ensures (forall es :: Defaults(c, ttl, es) <= MAX_ESCALATION_TURNS) <==> exists t :: t in c.tiers && t != c.defaultTier
  {
    forall es ensures FirstOther(c.tiers, c.defaultTier).Some? ==> Defaults(c, ttl, es) <= MAX_ESCALATION_TURNS {
      DefaultsCounted(c, ttl, es);
    }
    if FirstOther(c.tiers, c.defaultTier).None? {
      var es := Latching(c, 4);
      LatchingRuns(c, ttl, 4);
      assert Defaults(c, ttl, es) > MAX_ESCALATION_TURNS;
    }
  }

  /** A task that stays on the default tier and never makes progress. */
  function Latching(c: Config, n: nat): seq<Event> {
    if n == 0 then [] else Latching(c, n - 1) + [Turned(Turn(Input(0, 1, 1, false, false, true, 0), 0, false, false, false, c.defaultTier))]
  }

  lemma {:induction false} LatchingRuns(c: Config, ttl: int, n: nat)
    requires ttl >= 0 && FirstOther(c.tiers, c.defaultTier).None?
    ensures Defaults(c, ttl, Latching(c, n)) == n
    ensures n > 0 ==> var s := Run(c, ttl, None, Latching(c, n)); s.Some? && s.value.lastTurn == 0 && s.value.root == 1 && s.value.messages == 0
  {
    hide TurnDone, FirstOther;
    if n > 0 {
      LatchingRuns(c, ttl, n - 1);
      var es, i := Latching(c, n - 1), Input(0, 1, 1, false, false, true, 0);
      var t := Turn(i, 0, false, false, false, c.defaultTier);
      var s := Run(c, ttl, None, es);
      assert (es + [Turned(t)])[..|es + [Turned(t)]| - 1] == es;
      if n == 1 {
        assert es == [];
      } else {
        LatchingStays(s.value, i, ttl);
      }
      TurnEscalates(c, ttl, s, t);
      TurnRemembers(c, ttl, s, t);
    }
  }

  lemma LatchingStays(s: Session, i: Input, ttl: int)
    requires ttl >= 0 && s.lastTurn == 0 && s.root == 1 && s.messages == 0 && i == Input(0, 1, 1, false, false, true, 0)
    ensures !Restarts(Some(s), i, ttl)
  {
  }

  /** Read slaps since the failures were last cleared are the failures counted, and never more than allowed. */
  lemma {:induction false} SlapsBounded(c: Config, ttl: int, es: seq<Event>)
    ensures Slaps(c, ttl, es) == Failures(Run(c, ttl, None, es)) <= MaxFailures(c)
  {
    hide Killed, Judge, IsNewTask, Counted, Latched;
    if es != [] {
      SlapsBounded(c, ttl, es[..|es| - 1]);
      var s := Run(c, ttl, None, es[..|es| - 1]);
      match es[|es| - 1] {
        case Turned(t) => TurnSlaps(c, ttl, s, t);
        case Kill(now, floor) => KillKeeps(s, now, floor);
        case _ =>
      }
    }
  }

  lemma {:induction false} TurnSlaps(c: Config, ttl: int, s: Option<Session>, t: Turn)
    ensures var n := if Clears(s, t, ttl) then 0 else Failures(s);
            var r := TurnDone(c, ttl, s, t);
            && r.session.failures == (if r.slapped then n + 1 else n)
            && (r.slapped ==> n < MaxFailures(c))
  {
    hide FirstOther;
    RecordedEscalation(s, t.input, ttl);
  }

  // ---------------------------------------------------------------- what the retries are

  /** There is no session, it expired, or the turn belongs to another task. */
  predicate StartsOver(s: Option<Session>, i: Input, ttl: int) {
    || s.None? || i.now - s.value.lastTurn > ttl
    || (i.root != 0 && s.value.root != 0 && s.value.root != i.root)
    || (0 < i.messages < s.value.messages)
  }

  predicate SamePrompt(s: Session, i: Input) {
    i.prompt != 0 && i.prompt == s.prompt
  }

  /** Of a known task with tools the tools tell; otherwise a prompt that was not just sent is progress. */
  predicate Advances(s: Session, i: Input) {
    if i.root != 0 && i.hasTools then i.progress else !SamePrompt(s, i) || (i.root == 0 && i.progress)
  }

  /** The turn repairs under failing tests: a retry that is not counted once there are others. */
  predicate Repairs(i: Input) {
    i.root != 0 && i.hasTools && !i.progress && i.hold
  }

  /** The turns counted as retries since the last new session, new task, progress or reset. */
  function Retries(c: Config, ttl: int, es: seq<Event>): nat {
    if es == [] then 0
    else
      var before := es[..|es| - 1];
      var s := Run(c, ttl, None, before);
      match es[|es| - 1]
      case Lost => 0
      case Clear => 0
      case Turned(t) =>
        var n := Retries(c, ttl, before);
        if StartsOver(s, t.input, ttl) || Advances(s.value, t.input) then 0
        else if Repairs(t.input) && n > 0 then n
        else n + 1
      case _ => Retries(c, ttl, before)
  }

  function RetriesOf(s: Option<Session>): int {
    match s case None => 0 case Some(x) => x.retries
  }

  function Max(a: int, b: int): int {
    if a < b then b else a
  }

  /** The retries of a session are those turns, in every run. */
  lemma {:induction false} RetriesCounted(c: Config, ttl: int, es: seq<Event>)
    ensures RetriesOf(Run(c, ttl, None, es)) == Retries(c, ttl, es)
  {
    hide Killed, Counted, TurnDone, StartsOver, Advances, Repairs;
    if es != [] {
      RetriesCounted(c, ttl, es[..|es| - 1]);
      var s := Run(c, ttl, None, es[..|es| - 1]);
      match es[|es| - 1] {
        case Turned(t) => TurnRetries(c, ttl, s, t, RetriesOf(s));
        case Kill(now, floor) => KillKeepsRetries(s, now, floor);
        case _ =>
      }
    }
  }

  lemma {:induction false} KillKeepsRetries(s: Option<Session>, now: int, floor: int)
    ensures Killed(s, now, floor).retries == RetriesOf(s) && Killed(s, now, floor).kickstart == KickstartOf(s)
  {
  }

  /** The floor a turn finds; one that expired has none. */
  function FloorFor(s: Option<Session>, i: Input, ttl: int): int {
    if s.None? || i.now - s.value.lastTurn > ttl then 0 else s.value.floor
  }

  /** One turn behind n retries. */
  lemma {:induction false} TurnRetries(c: Config, ttl: int, s: Option<Session>, t: Turn, n: int)
    requires n == RetriesOf(s) >= 0
    ensures var r := TurnDone(c, ttl, s, t);
            var m := if StartsOver(s, t.input, ttl) || Advances(s.value, t.input) then 0
                     else if Repairs(t.input) && n > 0 then n else n + 1;
            && r.session.retries == m
            && r.retries == Max(Max(m, FloorFor(s, t.input, ttl)), t.historyErrors)
            && (r.isRetry <==> r.retries > 0)
  {
    hide Latched, Kicked, TurnDone, Evaluated;
    DoneRetries(c, ttl, s, t);
    hide FirstOther;
  }

  /** The steps behind the tracker add the errors of the history, and leave the retries of the session alone. */
  lemma {:induction false} DoneRetries(c: Config, ttl: int, s: Option<Session>, t: Turn)
    ensures var r, x := TurnDone(c, ttl, s, t), Recorded(s, t.input, ttl);
            && r.session.retries == x.0.retries && r.session.floor == x.0.floor
            && r.session.root == x.0.root && r.session.prompt == x.0.prompt
            && r.session.messages == x.0.messages && r.session.lastTurn == x.0.lastTurn
            && r.retries == Max(x.1, t.historyErrors) && (r.isRetry <==> x.2 || t.historyErrors > x.1)
  {
    hide Recorded, FirstOther;
  }

  /**
   What a turn reports is the greatest of the retries counted with it (zero when it is none itself),
   the floor it found, and the errors its history shows; it is a retry when that is more than zero.
   */
  lemma {:induction false} RetriesReported(c: Config, ttl: int, es: seq<Event>, t: Turn)
    ensures var s := Run(c, ttl, None, es);
            var r := TurnDone(c, ttl, s, t);
            && r.retries == Max(Max(Retries(c, ttl, es + [Turned(t)]), FloorFor(s, t.input, ttl)), t.historyErrors)
            && (r.isRetry <==> r.retries > 0)
  {
    hide Counted, TurnDone, StartsOver, Advances, Repairs;
    RetriesCounted(c, ttl, es);
    var all := es + [Turned(t)];
    assert all[..|all| - 1] == es;
    TurnRetries(c, ttl, Run(c, ttl, None, es), t, Retries(c, ttl, es));
  }

  /** What the next turn is compared with: the prompt, the number of messages and the time of this one, and the task's root. */
  lemma {:induction false} TurnRemembers(c: Config, ttl: int, s: Option<Session>, t: Turn)
    ensures var x, i := TurnDone(c, ttl, s, t).session, t.input;
            && x.prompt == i.prompt && x.messages == i.messages && x.lastTurn == i.now
            && x.root == if StartsOver(s, i, ttl) || s.value.root == 0 then i.root else s.value.root
  {
    hide Latched, Kicked, TurnDone, Evaluated;
    DoneRetries(c, ttl, s, t);
    hide FirstOther;
  }

  // ---------------------------------------------------------------- when the read slap is injected

  /** The turns without progress since the kickstart count was last cleared, those behind the last slap allowed aside. */
  function Stalls(c: Config, ttl: int, es: seq<Event>): nat {
    if es == [] then 0
    else
      var before := es[..|es| - 1];
      var s := Run(c, ttl, None, before);
      match es[|es| - 1]
      case Lost => 0
      case Clear => 0
      case Turned(t) =>
        var n := if Clears(s, t, ttl) then 0 else Stalls(c, ttl, before);
        if Stalled(c, t, if Clears(s, t, ttl) then 0 else Slaps(c, ttl, before)) then n + 1 else n
      case _ => Stalls(c, ttl, before)
  }

  /** The read slap looks at this turn, which made no progress, and not all slaps are used up. */
  predicate Stalled(c: Config, t: Turn, slaps: nat) {
    t.slapOn && !t.slapProgress && slaps < if c.maxFailures <= 0 then 3 else c.maxFailures
  }

  function KickstartOf(s: Option<Session>): int {
    match s case None => 0 case Some(x) => x.kickstart
  }

  lemma {:induction false} StallsCounted(c: Config, ttl: int, es: seq<Event>)
    ensures KickstartOf(Run(c, ttl, None, es)) == Stalls(c, ttl, es)
  {
    hide Killed, Counted, TurnDone, Clears, Stalled;
    if es != [] {
      StallsCounted(c, ttl, es[..|es| - 1]);
      SlapsBounded(c, ttl, es[..|es| - 1]);
      var s := Run(c, ttl, None, es[..|es| - 1]);
      match es[|es| - 1] {
        case Turned(t) => TurnStalls(c, ttl, s, t, Failures(s));
        case Kill(now, floor) => KillKeepsRetries(s, now, floor);
        case _ =>
      }
    }
  }

  lemma {:induction false} TurnStalls(c: Config, ttl: int, s: Option<Session>, t: Turn, slaps: nat)
    requires slaps == Failures(s)
    ensures var r := TurnDone(c, ttl, s, t);
            var k := if Clears(s, t, ttl) then 0 else KickstartOf(s);
            var stalled := Stalled(c, t, if Clears(s, t, ttl) then 0 else slaps);
            && r.session.kickstart == (if stalled then k + 1 else k)
            && (r.slapped <==> stalled && k + 1 >= Threshold(c) && !t.dusted)
            && (r.forced <==> stalled && k + 1 >= Threshold(c) && k + 1 >= MaxSlaps(c))
  {
    hide FirstOther, Threshold, MaxSlaps;
    RecordedKickstart(s, t.input, ttl);
    RecordedEscalation(s, t.input, ttl);
    hide Recorded;
  }

  lemma {:induction false} RecordedKickstart(s: Option<Session>, i: Input, ttl: int)
    ensures Recorded(s, i, ttl).0.kickstart == if s.None? || Expired(s.value, i.now, ttl) then 0 else s.value.kickstart
  {
  }

  /** A slap is injected exactly when the turns without progress have reached the threshold and slaps are left. */
  lemma {:induction false} SlappedExactly(c: Config, ttl: int, es: seq<Event>, t: Turn)
    ensures var s := Run(c, ttl, None, es);
            var r := TurnDone(c, ttl, s, t);
            var stalled := Stalled(c, t, if Clears(s, t, ttl) then 0 else Slaps(c, ttl, es));
            var stalls := Stalls(c, ttl, es + [Turned(t)]);
            var threshold := if c.threshold <= 0 then 5 else c.threshold;
            && (r.slapped <==> stalled && stalls >= threshold && !t.dusted)
            && (r.forced <==> stalled && stalls >= threshold && stalls >= if c.maxSlaps <= 0 then 10 else c.maxSlaps)
  {
    hide TurnDone, Clears, Stalled;
    StallsCounted(c, ttl, es);
    SlapsBounded(c, ttl, es);
    var all := es + [Turned(t)];
    assert all[..|all| - 1] == es;
    TurnStalls(c, ttl, Run(c, ttl, None, es), t, Slaps(c, ttl, es));
  }

  // ---------------------------------------------------------------- the retry floor

  /** The state survives: it is neither lost nor cleared nor found expired. */
  predicate Unbroken(c: Config, ttl: int, s: Option<Session>, es: seq<Event>) {
    es == [] ||
    (var before := es[..|es| - 1];
     var last := es[|es| - 1];
     var r := Run(c, ttl, s, before);
     && Unbroken(c, ttl, s, before)
     && last != Lost && last != Clear
     && (last.Turned? ==> r.Some? && !Expired(r.value, last.turn.input.now, ttl)))
  }

  function Turns(es: seq<Event>): nat {
    if es == [] then 0 else Turns(es[..|es| - 1]) + if es[|es| - 1].Turned? then 1 else 0
  }

  lemma {:induction false} FloorDecays(c: Config, ttl: int, s: Option<Session>, es: seq<Event>)
    requires Unbroken(c, ttl, s, es)
    ensures s.Some? ==> Run(c, ttl, s, es).Some?
    ensures Floor(Run(c, ttl, s, es)) >= Floor(s) - Turns(es)
    ensures Floor(s) >= 0 && (forall e | e in es :: !e.Kill?) ==> Floor(Run(c, ttl, s, es)) == Max(Floor(s) - Turns(es), 0)
  {
    hide Judge, IsNewTask, Kicked, Latched;
    if es != [] {
      FloorDecays(c, ttl, s, es[..|es| - 1]);
      var r := Run(c, ttl, s, es[..|es| - 1]);
      match es[|es| - 1] {
        case Turned(t) => TurnFloors(c, ttl, r.value, t);
        case _ =>
      }
    }
  }

  lemma {:induction false} TurnFloors(c: Config, ttl: int, s: Session, t: Turn)
    requires !Expired(s, t.input.now, ttl)
    ensures var r := TurnDone(c, ttl, Some(s), t);
            && r.session.floor == (if s.floor > 0 then s.floor - 1 else s.floor)
            && (s.floor > 0 ==> r.retries >= s.floor && r.isRetry)
  {
    hide FirstOther;
  }

  /** After a cycle kill with floor F, the turn that follows k others reports at least F - k retries, and a retry,
      whatever else happens to a session that is neither lost nor reset nor expired. */
  lemma {:induction false} FloorHolds(c: Config, ttl: int, before: seq<Event>, now: int, floor: int, es: seq<Event>, t: Turn)
    requires Unbroken(c, ttl, Run(c, ttl, None, before + [Kill(now, floor)]), es + [Turned(t)])
    ensures var f := if floor > 0 then floor else DEFAULT_FLOOR;
            var s := Run(c, ttl, None, before + [Kill(now, floor)]);
            var r := TurnDone(c, ttl, Run(c, ttl, s, es), t);
            Turns(es) < f ==> r.retries >= f - Turns(es) && r.isRetry
  {
    hide Judge, IsNewTask, Kicked, Latched, Counted, Advance, TurnDone;
    var all := before + [Kill(now, floor)];
    assert all[..|all| - 1] == before;
    var s := Run(c, ttl, None, all);
    var whole := es + [Turned(t)];
    assert whole[..|whole| - 1] == es;
    FloorDecays(c, ttl, s, es);
    TurnFloors(c, ttl, Run(c, ttl, s, es).value, t);
  }
}
