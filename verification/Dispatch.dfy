/**
 The dispatch of one request: dispatchTier (pkg/server/dispatch.go), its two handlers
 (pkg/server/dispatch_stream.go, pkg/server/dispatch_unary.go) and the streaming recovery loop
 (pkg/server/thought_slap.go), as far as they decide whether the upstream is called again.

 What a provider, the circuit breaker and the client do is an `Event`; an arbitrary function gives
 the event of every dispatch.
 */
module Dispatch {
  import opened Wrappers

  /** `limit` is MaxRetries() of the tier's cycle breaker; `slap` and `attempts` are its resolved thought slap. */
  datatype Tier = Tier(name: string, provider: string, limit: int, slap: bool, attempts: int, rescue: string)

  datatype Config = Config(default: Tier, tiers: seq<Tier>)

  /**
   One call of dispatchTier: the tier, the counters of the request context, isFallback, and two flags of
   the context that no dispatch clears: EmptyTruncatedTurn and CycleBreakerTriggered.
   */
  datatype State = State(tier: Tier, retries: nat, slaps: nat, fallback: bool, truncated: bool, cycled: bool)

  function Start(tier: Tier): State {
    State(tier, 0, 0, false, false, false)
  }

  /** What happens in one dispatch. */
  datatype Event = Event(
    exists_: bool,      // the registry knows the provider
    allowed: bool,      // the circuit breaker lets it through
    built: bool,        // the outbound request could be built
    failed: bool,       // the round trip failed or gave a 5xx status
    streaming: bool,    // the response is an event stream
    readable: bool,     // a unary body could be read and translated
    local: bool,        // the provider is local
    empty: bool,        // nothing but an empty answer came
    answer: bool,       // unary: a completion with a choice, to be normalized
    truncated: bool,    // unary: the choice is empty and cut off by its length
    gone: bool,         // the client has gone
    checked: bool,      // unary: text without tool calls that an enabled cycle breaker looks at
    cycle: bool,        // the cycle breaker is in force and this response triggers it
    held: bool)         // streaming: the terminal chunk is held back

  const MAX_GLOBAL_TURN_CALLS := 4

  // ---------------------------------------------------------------- the steps

  function FindRescue(tiers: seq<Tier>, name: string): (r: Option<Tier>)
    ensures r.Some? ==> r.value in tiers && r.value.name == name
    ensures r.None? ==> forall t | t in tiers :: t.name != name
  {
    if tiers == [] then None
    else if tiers[0].name == name then Some(tiers[0])
    else FindRescue(tiers[1..], name)
  }

  function AllTiers(cfg: Config): seq<Tier> {
    [cfg.default] + cfg.tiers
  }

  function RescueTier(cfg: Config, tier: Tier): Tier {
    if tier.rescue == "" then tier
    else
      match FindRescue(AllTiers(cfg), tier.rescue)
      case Some(t) => t
      case None => tier
  }

  /** The default tier takes over, unless it already has or the target is the default. */
  function Fallback(cfg: Config, st: State): Option<State> {
    if !st.fallback && cfg.default.provider != "" && st.tier.name != cfg.default.name
    then Some(st.(tier := cfg.default, fallback := true))
    else None
  }

  function CycleRetry(cfg: Config, st: State): Option<State> {
    if st.retries < st.tier.limit then Some(st.(retries := st.retries + 1, fallback := false)) else Fallback(cfg, st)
  }

  /** The tier opted in, the client is there, and neither the attempts nor the global cap are used up. */
  predicate SlapLeft(st: State, ev: Event) {
    st.tier.slap && !ev.gone && st.slaps < st.tier.attempts && 1 + st.retries + st.slaps < MAX_GLOBAL_TURN_CALLS
  }

  /** What a unary answer does to the flags: the first is set before it is tested, the second as well. */
  function Flagged(st: State, ev: Event): State {
    st.(truncated := st.truncated || (ev.answer && ev.truncated))
  }

  function Cycled(st: State, ev: Event): State {
    st.(cycled := st.cycled || ev.cycle)
  }

  /** A unary response; the flags of earlier dispatches count like its own. */
  function AfterUnary(cfg: Config, st0: State, ev: Event): Option<State> {
    var st := Flagged(st0, ev);
    if !ev.answer then None
    else if st.truncated && SlapLeft(st, ev) then
      Some(st.(tier := RescueTier(cfg, st.tier), slaps := st.slaps + 1, fallback := false))
    else if ev.checked && !st.fallback && Cycled(st, ev).cycled then CycleRetry(cfg, Cycled(st, ev))
    else None
  }

  function AfterStream(cfg: Config, st: State, ev: Event): Option<State> {
    if ev.cycle && !st.fallback then CycleRetry(cfg, Cycled(st, ev)) else None
  }

  /** The dispatch that follows, if any. */
  function Next(cfg: Config, st: State, ev: Event): Option<State> {
    var away := Fallback(cfg, st);
    if ev.exists_ && !ev.allowed && away.Some? then away
    else if !ev.exists_ then away
    else if !ev.built then None
    else if ev.failed then away
    else if !ev.streaming && !ev.readable then None
    else if ev.local && ev.empty && away.Some? then away
    else if ev.streaming then AfterStream(cfg, st, ev)
    else AfterUnary(cfg, st, ev)
  }

  // ---------------------------------------------------------------- the measure

  function Min(a: int, b: int): int { if a < b then a else b }

  function Clamp(x: int): nat { if x < 0 then 0 else x }

  /** M bounds the cycle-retry limits and A the slap attempts of every tier that can be reached. */
  predicate Within(cfg: Config, M: nat, A: nat, st: State) {
    st.tier.limit <= M && st.tier.attempts <= A
    && forall t | t in AllTiers(cfg) :: t.limit <= M && t.attempts <= A
  }

  /** How many more dispatches can follow this one. */
  function Potential(M: nat, A: nat, st: State): nat {
    Clamp(M - st.retries) + 2 * Clamp(Min(A, 3) - st.slaps) + if st.fallback then 0 else 1
  }

  lemma NextDecreases(cfg: Config, M: nat, A: nat, st: State, ev: Event)
    requires Within(cfg, M, A, st) && Next(cfg, st, ev).Some?
    ensures Within(cfg, M, A, Next(cfg, st, ev).value)
    ensures Potential(M, A, Next(cfg, st, ev).value) < Potential(M, A, st)
  {
    assert cfg.default in AllTiers(cfg);
  }

  /** The dispatches of one request, from the n-th on. */
  function Run(cfg: Config, upstream: (nat, State) -> Event, M: nat, A: nat, n: nat, st: State): (r: seq<State>)
    requires Within(cfg, M, A, st)
    ensures 1 <= |r| <= 1 + Potential(M, A, st)
    decreases Potential(M, A, st)
  {
    match Next(cfg, st, upstream(n, st))
    case None => [st]
    case Some(st') =>
      NextDecreases(cfg, M, A, st, upstream(n, st));
      [st] + Run(cfg, upstream, M, A, n + 1, st')
  }

  /** A request makes at most M + 2 + 2 min(A, 3) dispatches, whatever the upstream does. */
  lemma DispatchesBounded(cfg: Config, upstream: (nat, State) -> Event, M: nat, A: nat, tier: Tier)
    requires Within(cfg, M, A, Start(tier))
    ensures |Run(cfg, upstream, M, A, 0, Start(tier))| <= M + 2 + 2 * Min(A, 3) <= M + 8
  {
    assert Potential(M, A, Start(tier)) == M + 1 + 2 * Min(A, 3);
  }

  // ---------------------------------------------------------------- what each kind of step does

  /** The first of the tiers that has the name. */
  predicate FirstNamed(tiers: seq<Tier>, name: string, t: Tier) {
    exists i | 0 <= i < |tiers| :: tiers[i] == t && t.name == name && forall j | 0 <= j < i :: tiers[j].name != name
  }

  /** A slap goes to the first tier with the rescue name, or stays with the tier when no name is set or none has it. */
  predicate SlapGoes(cfg: Config, from: Tier, to: Tier) {
    var tiers := [cfg.default] + cfg.tiers;
    if from.rescue != "" && exists i | 0 <= i < |tiers| :: tiers[i].name == from.rescue
    then FirstNamed(tiers, from.rescue, to)
    else to == from
  }

  lemma {:induction false} FindsFirst(tiers: seq<Tier>, name: string)
    ensures var r := FindRescue(tiers, name); r.Some? ==> FirstNamed(tiers, name, r.value)
  {
    if tiers != [] && tiers[0].name != name {
      FindsFirst(tiers[1..], name);
      var r := FindRescue(tiers[1..], name);
      if r.Some? {
        var i :| 0 <= i < |tiers[1..]| && tiers[1..][i] == r.value && forall j | 0 <= j < i :: tiers[1..][j].name != name;
        assert tiers[i + 1] == r.value;
        assert forall j | 0 < j < i + 1 :: tiers[j] == tiers[1..][j - 1];
      }
    }
  }

  lemma RescueGoes(cfg: Config, tier: Tier)
    ensures SlapGoes(cfg, tier, RescueTier(cfg, tier))
  {
    var tiers := AllTiers(cfg);
    FindsFirst(tiers, tier.rescue);
    hide FirstNamed;
    if exists i | 0 <= i < |tiers| :: tiers[i].name == tier.rescue {
      var i :| 0 <= i < |tiers| && tiers[i].name == tier.rescue;
      assert tiers[i] in tiers;
    }
  }

  /** One retry more for the same tier; one slap more, within the global cap; or the default tier, once until the next of these. */
  predicate Step(cfg: Config, st: State, next: State) {
    || (next.retries == st.retries + 1 && next.slaps == st.slaps && next.tier == st.tier && !next.fallback)
    || (next.slaps == st.slaps + 1 && next.retries == st.retries && next.slaps + next.retries <= 3 && !next.fallback
        && SlapGoes(cfg, st.tier, next.tier))
    || (next.retries == st.retries && next.slaps == st.slaps && !st.fallback && next.fallback
        && next.tier == cfg.default && st.tier.name != cfg.default.name)
  }

  /** Between two dispatches the retries or the slaps rise, or the fallback flag goes from false to true. */
  lemma NextRises(cfg: Config, st: State, ev: Event)
    requires Next(cfg, st, ev).Some?
    ensures Step(cfg, st, Next(cfg, st, ev).value)
  {
    RescueGoes(cfg, st.tier);
    hide RescueTier, SlapGoes;
  }

  /** So it is at every two dispatches of a request that follow each other. */
  lemma {:induction false} RunSteps(cfg: Config, upstream: (nat, State) -> Event, M: nat, A: nat, n: nat, st: State)
    requires Within(cfg, M, A, st)
    ensures var r := Run(cfg, upstream, M, A, n, st); r[0] == st && forall k | 0 < k < |r| :: Step(cfg, r[k - 1], r[k])
    decreases Potential(M, A, st)
  {
    var next := Next(cfg, st, upstream(n, st));
    if next.Some? {
      NextDecreases(cfg, M, A, st, upstream(n, st));
      NextRises(cfg, st, upstream(n, st));
      hide Next, Step, Within, Potential;
      RunSteps(cfg, upstream, M, A, n + 1, next.value);
      var rest := Run(cfg, upstream, M, A, n + 1, next.value);
      var r := [st] + rest;
      forall k | 0 < k < |r| ensures Step(cfg, r[k - 1], r[k]) {
        assert r[k] == rest[k - 1];
        if k > 1 { assert r[k - 1] == rest[k - 2]; }
      }
    }
  }

  // ---------------------------------------------------------------- when each kind of step is taken

  /** The default tier can take over. */
  predicate CanFall(cfg: Config, st: State) {
    !st.fallback && cfg.default.provider != "" && st.tier.name != cfg.default.name
  }

  /** The answer is looked at: it came, could be read, and is not an empty one of a local provider that the default tier can replace. */
  predicate LookedAt(cfg: Config, st: State, ev: Event) {
    && ev.exists_ && (ev.allowed || !CanFall(cfg, st)) && ev.built && !ev.failed && (ev.streaming || ev.readable)
    && !(ev.local && ev.empty && CanFall(cfg, st))
  }

  /** This answer or an earlier one was cut off, and the tier may still be slapped. */
  predicate TakesSlap(cfg: Config, st: State, ev: Event) {
    && LookedAt(cfg, st, ev) && !ev.streaming && ev.answer && (st.truncated || ev.truncated)
    && st.tier.slap && !ev.gone && st.slaps < st.tier.attempts && st.retries + st.slaps < 3
  }

  /** A cycle: of this stream, or of this or an earlier answer when it is checked. */
  predicate Loops(cfg: Config, st: State, ev: Event) {
    && LookedAt(cfg, st, ev) && !TakesSlap(cfg, st, ev) && !st.fallback
    && if ev.streaming then ev.cycle else ev.answer && ev.checked && (st.cycled || ev.cycle)
  }

  /** What makes the default tier take over. */
  predicate LetsDown(cfg: Config, st: State, ev: Event) {
    || !ev.exists_ || !ev.allowed
    || (ev.built && (ev.failed || ((ev.streaming || ev.readable) && ev.local && ev.empty)))
    || (Loops(cfg, st, ev) && st.retries >= st.tier.limit)
  }

  /**
   The request is slapped, retried or handed to the default tier exactly on these conditions, which
   shut each other out; in every other case this was its last dispatch. The flags record what was seen.
   */
  lemma NextExactly(cfg: Config, st: State, ev: Event)
    ensures var slap, retry := TakesSlap(cfg, st, ev), Loops(cfg, st, ev) && st.retries < st.tier.limit;
            var fall := CanFall(cfg, st) && LetsDown(cfg, st, ev);
            && !(slap && retry) && !(slap && fall) && !(retry && fall)
            && (Next(cfg, st, ev).Some? <==> slap || retry || fall)
            && (slap || retry || fall ==>
                 var next := Next(cfg, st, ev).value;
                 var flagged := st.(truncated := next.truncated, cycled := next.cycled);
                 && (slap ==> SlapGoes(cfg, st.tier, next.tier) && next.truncated
                              && next == flagged.(tier := next.tier, slaps := st.slaps + 1, fallback := false))
                 && (retry ==> next == flagged.(retries := st.retries + 1, fallback := false))
                 && (fall ==> next == flagged.(tier := cfg.default, fallback := true))
                 && (next.cycled <==> st.cycled || (Loops(cfg, st, ev) && ev.cycle))
                 && (next.truncated ==> st.truncated || ev.truncated))
  {
    RescueGoes(cfg, st.tier);
    hide RescueTier, SlapGoes;
  }

  // ---------------------------------------------------------------- flags that stick

  predicate FlagsSet(st: State) {
    (st.slaps > 0 ==> st.truncated) && (st.retries > 0 ==> st.cycled)
  }

  /** After a slap every later dispatch carries the truncation flag, after a retry the cycle flag. */
  lemma {:induction false} FlagsStick(cfg: Config, upstream: (nat, State) -> Event, M: nat, A: nat, n: nat, st: State)
    requires Within(cfg, M, A, st) && FlagsSet(st)
    ensures forall s | s in Run(cfg, upstream, M, A, n, st) ::
              FlagsSet(s) && (st.truncated ==> s.truncated) && (st.cycled ==> s.cycled)
    decreases Potential(M, A, st)
  {
    var next := Next(cfg, st, upstream(n, st));
    if next.Some? {
      NextDecreases(cfg, M, A, st, upstream(n, st));
      FlagsStick(cfg, upstream, M, A, n + 1, next.value);
    }
  }

  /** A unary answer with which nothing is wrong by itself. */
  predicate Good(cfg: Config, st: State, ev: Event) {
    && ev.exists_ && (ev.allowed || Fallback(cfg, st).None?) && ev.built && !ev.failed && !ev.streaming && ev.readable
    && !(ev.local && ev.empty) && ev.answer && !ev.truncated && !ev.cycle
  }

  /**
   Such an answer ends the request exactly when no slap is left for an earlier truncation (the tier not
   opted in, the client gone, attempts or global cap used up), and no earlier cycle is held against it.
   */
  lemma GoodAnswerEnds(cfg: Config, st: State, ev: Event)
    requires Good(cfg, st, ev)
    ensures Next(cfg, st, ev).None? <==>
            && !(st.truncated && SlapLeft(st, ev))
            && !(st.cycled && ev.checked && !st.fallback && (st.retries < st.tier.limit || Fallback(cfg, st).Some?))
  {
  }

  /** In particular an answer that follows a slap is asked for again as long as a slap is left. */
  lemma RecoveredAskedAgain(cfg: Config, upstream: (nat, State) -> Event, M: nat, A: nat, tier: Tier, st: State, ev: Event)
    requires Within(cfg, M, A, Start(tier)) && st in Run(cfg, upstream, M, A, 0, Start(tier)) && st.slaps > 0 && Good(cfg, st, ev)
    ensures SlapLeft(st, ev) ==> Next(cfg, st, ev).Some? && Next(cfg, st, ev).value.slaps == st.slaps + 1
    ensures !SlapLeft(st, ev) && !st.cycled ==> Next(cfg, st, ev).None?
  {
    FlagsStick(cfg, upstream, M, A, 0, Start(tier));
    GoodAnswerEnds(cfg, st, ev);
  }

  /** The first answer is like this, and all later ones are good. */
  function FirstOnly(first: Event): (nat, State) -> Event {
    (n, st) => if n == 0 then first else QUIET
  }

  /** One tier, three slaps; the first answer is cut off and all later ones are good, yet there are four dispatches. */
  lemma SlappedOnGoodAnswers()
    ensures var tier := Tier("t", "p", 0, true, 3, "");
            var cfg := Config(tier, []);
            var upstream := FirstOnly(QUIET.(truncated := true));
            && Within(cfg, 0, 3, Start(tier)) && |Run(cfg, upstream, 0, 3, 0, Start(tier))| == 4
            && forall n: nat, st | n > 0 :: Good(cfg, st, upstream(n, st))
  {
    var tier := Tier("t", "p", 0, true, 3, "");
    var cfg := Config(tier, []);
    var upstream := FirstOnly(QUIET.(truncated := true));
    assert Within(cfg, 0, 3, Start(tier));
    var s1 := Next(cfg, Start(tier), upstream(0, Start(tier))).value;
    var s2 := Next(cfg, s1, upstream(1, s1)).value;
    var s3 := Next(cfg, s2, upstream(2, s2)).value;
    assert Run(cfg, upstream, 0, 3, 3, s3) == [s3];
    assert Run(cfg, upstream, 0, 3, 2, s2) == [s2] + Run(cfg, upstream, 0, 3, 3, s3);
    assert Run(cfg, upstream, 0, 3, 1, s1) == [s1] + Run(cfg, upstream, 0, 3, 2, s2);
  }

  /** Two tiers, three retries; the first answer runs in a cycle and all later ones are good: the default tier is asked in the end. */
  lemma RetriedOnGoodAnswers()
    ensures var tier := Tier("t", "p", 3, false, 0, "");
            var cfg := Config(Tier("d", "p", 3, false, 0, ""), [tier]);
            var upstream := FirstOnly(QUIET.(cycle := true));
            && Within(cfg, 3, 0, Start(tier)) && |Run(cfg, upstream, 3, 0, 0, Start(tier))| == 5
  {
    var tier := Tier("t", "p", 3, false, 0, "");
    var cfg := Config(Tier("d", "p", 3, false, 0, ""), [tier]);
    var upstream := FirstOnly(QUIET.(cycle := true));
    assert AllTiers(cfg)[1..] == [tier];
    assert "t" != "d";
    var s1 := Next(cfg, Start(tier), upstream(0, Start(tier))).value;
    var s2 := Next(cfg, s1, upstream(1, s1)).value;
    var s3 := Next(cfg, s2, upstream(2, s2)).value;
    var s4 := Next(cfg, s3, upstream(3, s3)).value;
    assert Run(cfg, upstream, 3, 0, 4, s4) == [s4];
    assert Run(cfg, upstream, 3, 0, 3, s3) == [s3] + Run(cfg, upstream, 3, 0, 4, s4);
    assert Run(cfg, upstream, 3, 0, 2, s2) == [s2] + Run(cfg, upstream, 3, 0, 3, s3);
    assert Run(cfg, upstream, 3, 0, 1, s1) == [s1] + Run(cfg, upstream, 3, 0, 2, s2);
  }

  // ---------------------------------------------------------------- the bound is attained

  function Witness(M: nat, A: nat): Config {
    Config(Tier("default", "cloud", M, true, A, "local"), [Tier("local", "box", M, true, A, "local")])
  }

  function Local(M: nat, A: nat): Tier { Witness(M, A).tiers[0] }

  const QUIET := Event(true, true, true, false, false, true, false, false, true, false, false, true, false, false)

  /**
   Fails on the local tier, is cut off on the default tier, runs in cycles once no slap is left, and ends
   with a stream whose terminal chunk is held back.
   */
  function Adversary(M: nat, A: nat): (nat, State) -> Event {
    (n, st: State) =>
      if !st.fallback && Min(A, 3) <= st.slaps && st.retries < M then QUIET.(cycle := true)
      else if !st.fallback then QUIET.(failed := true)
      else if st.slaps < Min(A, 3) then QUIET.(truncated := true)
      else QUIET.(streaming := true, held := true)
  }

  /** All slaps are used before the first retry, and the default tier has the last word. */
  predicate OnCourse(M: nat, A: nat, st: State) {
    && st.retries <= M && st.slaps <= Min(A, 3) && (st.retries == 0 || st.slaps == Min(A, 3))
    && st.tier == (if st.fallback then Witness(M, A).default else Local(M, A))
    && (st.fallback ==> st.slaps < Min(A, 3) || st.retries == M)
  }

  lemma {:induction false} AdversaryRuns(M: nat, A: nat, n: nat, st: State)
    requires Within(Witness(M, A), M, A, st) && OnCourse(M, A, st)
    ensures |Run(Witness(M, A), Adversary(M, A), M, A, n, st)| == 1 + Potential(M, A, st)
    decreases Potential(M, A, st)
  {
    var cfg, ev := Witness(M, A), Adversary(M, A)(n, st);
    AdversaryStep(M, A, n, st);
    match Next(cfg, st, ev)
    case None =>
    case Some(st') =>
      NextDecreases(cfg, M, A, st, ev);
      hide Next, Adversary, Witness, Within, OnCourse;
      AdversaryRuns(M, A, n + 1, st');
  }

  lemma AdversaryStep(M: nat, A: nat, n: nat, st: State)
    requires Within(Witness(M, A), M, A, st) && OnCourse(M, A, st)
    ensures match Next(Witness(M, A), st, Adversary(M, A)(n, st))
            case None => Potential(M, A, st) == 0 && st.fallback
            case Some(t) =>
              Potential(M, A, t) + 1 == Potential(M, A, st) && OnCourse(M, A, t)
  {
    var cfg := Witness(M, A);
    assert "default" != "local";
    assert AllTiers(cfg) == [cfg.default, Local(M, A)];
    assert AllTiers(cfg)[1..] == [Local(M, A)];
    assert RescueTier(cfg, cfg.default) == Local(M, A);
  }

  /**
   For every M and A some upstream makes a request take exactly that many dispatches. With M and A at
   zero retries and three slaps these are eight, twice the constant that is meant to cap a turn.
   */
  lemma BoundAttained(M: nat, A: nat)
    ensures Within(Witness(M, A), M, A, Start(Local(M, A)))
    ensures |Run(Witness(M, A), Adversary(M, A), M, A, 0, Start(Local(M, A)))| == M + 2 + 2 * Min(A, 3)
    ensures A >= 3 ==>
              |Run(Witness(M, A), Adversary(M, A), M, A, 0, Start(Local(M, A)))| >= 2 * MAX_GLOBAL_TURN_CALLS
  {
    var st := Start(Local(M, A));
    assert AllTiers(Witness(M, A)) == [Witness(M, A).default, Local(M, A)];
    AdversaryRuns(M, A, 0, st);
  }

  // ---------------------------------------------------------------- the recovery of a stream

  /** What one recovery request brings; the client may be gone before it, or when it fails. */
  datatype Recovery = Recovery(gone: bool, failed: bool, goneThen: bool, toolCall: bool, content: bool, held: bool)

  datatype Outcome = Exhausted | Cancelled | UpstreamError | RecoveredToolCall | RecoveredContent

  /** The recovery requests from attempt k on, and how they end. */
  function Recover(rec: nat -> Recovery, retries: nat, max: int, k: nat, held: bool): (r: (nat, Outcome))
    ensures r.0 <= Clamp(Min(max, 3 - retries) - k)
    decreases Clamp(Min(max, 3 - retries) - k)
  {
    if !held || k >= max || 1 + retries + k >= MAX_GLOBAL_TURN_CALLS then (0, Exhausted)
    else if rec(k).gone then (0, Cancelled)
    else if rec(k).failed then (1, if rec(k).goneThen then Cancelled else UpstreamError)
    else if rec(k).toolCall then (1, RecoveredToolCall)
    else if rec(k).content then (1, RecoveredContent)
    else
      var r := Recover(rec, retries, max, k + 1, rec(k).held);
      (r.0 + 1, r.1)
  }

  /** The loop of executeThoughtSlapRecoveryStream; `calls` counts upstream requests. */
  method RecoverStream(rec: nat -> Recovery, retries: nat, max: int) returns (calls: nat, attempts: nat, outcome: Outcome)
    ensures (calls, outcome) == Recover(rec, retries, max, 0, true)
    ensures calls <= 3 && attempts <= calls <= attempts + 1
    ensures calls > attempts ==> outcome == UpstreamError || outcome == Cancelled
  {
    calls, attempts, outcome := 0, 0, Exhausted;
    var held := true;
    ghost var goal := Recover(rec, retries, max, 0, true);
    while held && attempts < max
      invariant calls == attempts <= Clamp(Min(max, 3 - retries)) && outcome == Exhausted
      invariant goal == (var r := Recover(rec, retries, max, attempts, held); (calls + r.0, r.1))
      decreases Clamp(max - attempts)
    {
      if 1 + retries + attempts >= MAX_GLOBAL_TURN_CALLS { break; }
      var r := rec(attempts);
      if r.gone {
        outcome := Cancelled;
        break;
      }
      calls := calls + 1;
      if r.failed {
        outcome := if r.goneThen then Cancelled else UpstreamError;
        break;
      }
      attempts := attempts + 1;
      if r.toolCall {
        outcome := RecoveredToolCall;
        break;
      } else if r.content {
        outcome := RecoveredContent;
        break;
      }
      held := r.held;
    }
  }

  // ---------------------------------------------------------------- all upstream calls of a request

  /** The recovery calls at the end of a dispatch: a stream that was not severed and holds its terminal chunk. */
  function Recovered(cfg: Config, rec: nat -> Recovery, st: State, ev: Event): nat {
    if Next(cfg, st, ev).None? && ev.exists_ && ev.built && !ev.failed && ev.streaming && !(ev.cycle && !st.fallback)
       && ev.held && st.tier.slap
    then Recover(rec, st.retries, st.tier.attempts, 0, true).0
    else 0
  }

  /** It brought nothing, and the terminal chunk is held back again. */
  predicate Fruitless(r: Recovery) {
    !r.gone && !r.failed && !r.toolCall && !r.content && r.held
  }

  /** What the last request, or the lack of one, says of the outcome. */
  predicate EndsWith(rec: nat -> Recovery, last: int, limit: int, o: Outcome)
    requires last >= -1
  {
    var more := last + 1 < limit && (last >= 0 ==> Fruitless(rec(last)));
    match o
    case RecoveredToolCall => last >= 0 && !rec(last).gone && !rec(last).failed && rec(last).toolCall
    case RecoveredContent => last >= 0 && !rec(last).gone && !rec(last).failed && !rec(last).toolCall && rec(last).content
    case UpstreamError => last >= 0 && !rec(last).gone && rec(last).failed && !rec(last).goneThen
    case Cancelled =>
      || (last >= 0 && !rec(last).gone && rec(last).failed && rec(last).goneThen)
      || (more && rec(last + 1).gone)
    case Exhausted =>
      && !more
      && (last >= 0 ==> !rec(last).gone && !rec(last).failed && !rec(last).toolCall && !rec(last).content)
  }

  /**
   The recovery loop stops with the first request that brings something, fails or lets the terminal
   chunk go, before one for which the client is gone, and at its limit: `max` attempts, and one call
   less than the cap with the retries counted.
   */
  lemma {:induction false} RecoverExactly(rec: nat -> Recovery, retries: nat, max: int, k: nat)
    requires k > 0 ==> Fruitless(rec(k - 1))
    ensures var (n, o) := Recover(rec, retries, max, k, true);
            && (forall i: nat | k <= i < k + n - 1 :: Fruitless(rec(i)))
            && EndsWith(rec, k + n - 1, Min(max, 3 - retries), o)
    decreases Clamp(Min(max, 3 - retries) - k)
  {
    if k < max && 1 + retries + k < MAX_GLOBAL_TURN_CALLS && Fruitless(rec(k)) {
      RecoverExactly(rec, retries, max, k + 1);
    }
  }

  /** A stream is recovered exactly when it is looked at, holds its terminal chunk, the tier opted in, and no cycle severed it. */
  lemma RecoveryTaken(cfg: Config, rec: nat -> Recovery, st: State, ev: Event)
    ensures Recovered(cfg, rec, st, ev) ==
            if LookedAt(cfg, st, ev) && ev.streaming && ev.held && st.tier.slap && !(ev.cycle && !st.fallback)
            then Recover(rec, st.retries, st.tier.attempts, 0, true).0 else 0
  {
    hide Recover, RescueTier;
  }

  /** The recovery calls of a request, from the n-th dispatch on. */
  function Recoveries(cfg: Config, upstream: (nat, State) -> Event, rec: nat -> Recovery, M: nat, A: nat, n: nat, st: State): nat
    requires Within(cfg, M, A, st)
    decreases Potential(M, A, st)
  {
    var ev := upstream(n, st);
    match Next(cfg, st, ev)
    case None => Recovered(cfg, rec, st, ev)
    case Some(st') =>
      NextDecreases(cfg, M, A, st, ev);
      Recoveries(cfg, upstream, rec, M, A, n + 1, st')
  }

  function CallBound(M: nat, A: nat): nat {
    M + 2 + 2 * Min(A, 3) + Clamp(Min(A, 3 - M))
  }

  lemma {:induction false} CallsFrom(cfg: Config, upstream: (nat, State) -> Event, rec: nat -> Recovery, M: nat, A: nat, n: nat, st: State)
    requires Within(cfg, M, A, st) && st.retries <= M
    ensures |Run(cfg, upstream, M, A, n, st)| + Recoveries(cfg, upstream, rec, M, A, n, st)
            <= 1 + Potential(M, A, st) + Clamp(Min(A, 3 - M))
    decreases Potential(M, A, st)
  {
    var next := Next(cfg, st, upstream(n, st));
    if next.Some? {
      NextDecreases(cfg, M, A, st, upstream(n, st));
      CallsFrom(cfg, upstream, rec, M, A, n + 1, next.value);
    }
  }

  /** Dispatches and recovery calls together: the loop does not count earlier slaps, so they may add up. */
  lemma CallsBounded(cfg: Config, upstream: (nat, State) -> Event, rec: nat -> Recovery, M: nat, A: nat, tier: Tier)
    requires Within(cfg, M, A, Start(tier))
    ensures |Run(cfg, upstream, M, A, 0, Start(tier))| + Recoveries(cfg, upstream, rec, M, A, 0, Start(tier)) <= CallBound(M, A)
  {
    CallsFrom(cfg, upstream, rec, M, A, 0, Start(tier));
  }

  const FRUITLESS := Recovery(false, false, false, false, false, true)

  lemma {:induction false} FruitlessCalls(rec: nat -> Recovery, retries: nat, max: int, k: nat)
    requires forall i :: rec(i) == FRUITLESS
    ensures Recover(rec, retries, max, k, true).0 == Clamp(Min(max, 3 - retries) - k)
    decreases Clamp(Min(max, 3 - retries) - k)
  {
    if k < max && 1 + retries + k < MAX_GLOBAL_TURN_CALLS {
      FruitlessCalls(rec, retries, max, k + 1);
    }
  }

  lemma {:induction false} AdversaryRecovers(M: nat, A: nat, n: nat, st: State)
    requires Within(Witness(M, A), M, A, st) && OnCourse(M, A, st)
    ensures Recoveries(Witness(M, A), Adversary(M, A), _ => FRUITLESS, M, A, n, st) == Clamp(Min(A, 3 - M))
    decreases Potential(M, A, st)
  {
    var cfg, ev := Witness(M, A), Adversary(M, A)(n, st);
    AdversaryStep(M, A, n, st);
    match Next(cfg, st, ev)
    case None =>
      FruitlessCalls(_ => FRUITLESS, st.retries, st.tier.attempts, 0);
    case Some(st') =>
      NextDecreases(cfg, M, A, st, ev);
      hide Next, Adversary, Witness, Within, OnCourse;
      AdversaryRecovers(M, A, n + 1, st');
  }

  /** That bound, too, is attained for every M and A: with three slaps and no retry it is eleven calls. */
  lemma CallsAttained(M: nat, A: nat)
    ensures Within(Witness(M, A), M, A, Start(Local(M, A)))
    ensures |Run(Witness(M, A), Adversary(M, A), M, A, 0, Start(Local(M, A)))|
            + Recoveries(Witness(M, A), Adversary(M, A), _ => FRUITLESS, M, A, 0, Start(Local(M, A))) == CallBound(M, A)
  {
    BoundAttained(M, A);
    AdversaryRecovers(M, A, 0, Start(Local(M, A)));
  }

  // ---------------------------------------------------------------- the machine

  /** The server while it works on one request: what it has dispatched, and its recovery calls. */
  class Server {
    const cfg: Config
    const upstream: (nat, State) -> Event
    const recovery: nat -> Recovery
    var dispatched: seq<State>
    var recoveries: nat

    constructor (cfg: Config, upstream: (nat, State) -> Event, recovery: nat -> Recovery)
      ensures this.cfg == cfg && this.upstream == upstream && this.recovery == recovery
      ensures dispatched == [] && recoveries == 0
    {
      this.cfg, this.upstream, this.recovery := cfg, upstream, recovery;
      dispatched, recoveries := [], 0;
    }

    /** forwardWithFallback: M and A bound the limits and the attempts of the configured tiers. */
    method Forward(tier: Tier, ghost M: nat, ghost A: nat)
      requires Within(cfg, M, A, Start(tier)) && dispatched == [] && recoveries == 0
      modifies this
      ensures dispatched == Run(cfg, upstream, M, A, 0, Start(tier))
      ensures recoveries == Recoveries(cfg, upstream, recovery, M, A, 0, Start(tier))
      ensures |dispatched| <= M + 2 + 2 * Min(A, 3) <= M + 8 && |dispatched| + recoveries <= CallBound(M, A)
    {
      DispatchesBounded(cfg, upstream, M, A, tier);
      CallsBounded(cfg, upstream, recovery, M, A, tier);
      DispatchTier(Start(tier), M, A);
    }

    /** The run from this dispatch on was carried out. */
    twostate predicate Continued(before: seq<State>, st: State, M: nat, A: nat)
      requires Within(cfg, M, A, st)
      reads this
    {
      && dispatched == before + Run(cfg, upstream, M, A, |before|, st)
      && recoveries == old(recoveries) + Recoveries(cfg, upstream, recovery, M, A, |before|, st)
    }

    method DispatchTier(st: State, ghost M: nat, ghost A: nat)
      requires Within(cfg, M, A, st)
      modifies this
      ensures Continued(old(dispatched), st, M, A)
      decreases Potential(M, A, st), 1
    {
      hide Run, Recoveries, AfterUnary, AfterStream, Recover;
      var ev := upstream(|dispatched|, st);
      ghost var before := dispatched;
      dispatched := dispatched + [st];
      RunStep(cfg, upstream, recovery, M, A, before, st);
      if ev.exists_ && !ev.allowed {
        if Fallback(cfg, st).Some? {
          DispatchTier(Fallback(cfg, st).value, M, A);
          return;
        }
      }
      if !ev.exists_ {
        if Fallback(cfg, st).Some? { DispatchTier(Fallback(cfg, st).value, M, A); }
        return;
      }
      if !ev.built { return; }
      if ev.failed {
        if Fallback(cfg, st).Some? { DispatchTier(Fallback(cfg, st).value, M, A); }
        return;
      }
      if ev.streaming {
        HandleStreaming(st, ev, before, M, A);
      } else {
        HandleNonStreaming(st, ev, before, M, A);
      }
    }

    /** The response is worth looking at. */
    ghost predicate Answered(st: State, ev: Event, before: seq<State>, M: nat, A: nat)
      reads this
    {
      && Within(cfg, M, A, st) && dispatched == before + [st] && ev == upstream(|before|, st)
      && ev.exists_ && (ev.allowed || Fallback(cfg, st).None?) && ev.built && !ev.failed
    }

    method HandleStreaming(st0: State, ev: Event, ghost before: seq<State>, ghost M: nat, ghost A: nat)
      requires Answered(st0, ev, before, M, A) && ev.streaming
      modifies this
      ensures Continued(before, st0, M, A)
      decreases Potential(M, A, st0), 0
    {
      hide Run, Recoveries, Recover, Within, Potential;
      var st := st0;
      RunStep(cfg, upstream, recovery, M, A, before, st);
      if ev.local && !st.fallback && ev.empty {
        if cfg.default.provider != "" && st.tier.name != cfg.default.name {
          DispatchTier(st.(tier := cfg.default, fallback := true), M, A);
          return;
        }
      }
      if ev.cycle && !st.fallback {
        st := st.(cycled := true);
        if st.retries < st.tier.limit {
          st := st.(retries := st.retries + 1);
          DispatchTier(st.(fallback := false), M, A);
          return;
        }
        if cfg.default.provider != "" && st.tier.name != cfg.default.name {
          DispatchTier(st.(tier := cfg.default, fallback := true), M, A);
          return;
        }
        return;
      }
      if ev.held && st.tier.slap {
        var calls, attempts, outcome := RecoverStream(recovery, st.retries, st.tier.attempts);
        recoveries := recoveries + calls;
      }
    }

    method HandleNonStreaming(st0: State, ev: Event, ghost before: seq<State>, ghost M: nat, ghost A: nat)
      requires Answered(st0, ev, before, M, A) && !ev.streaming
      modifies this
      ensures Continued(before, st0, M, A)
      decreases Potential(M, A, st0), 0
    {
      hide Run, Recoveries, RescueTier, Within, Potential, Recover;
      var st := st0;
      RunStep(cfg, upstream, recovery, M, A, before, st);
      if !ev.readable { return; }
      if ev.local && !st.fallback && ev.empty {
        if cfg.default.provider != "" && st.tier.name != cfg.default.name {
          DispatchTier(st.(tier := cfg.default, fallback := true), M, A);
          return;
        }
      }
      if !ev.answer { return; }
      if ev.truncated {
        st := st.(truncated := true);
      }
      if st.truncated && st.tier.slap {
        var totalCalls := 1 + st.retries + st.slaps;
        if st.slaps < st.tier.attempts && totalCalls < MAX_GLOBAL_TURN_CALLS && !ev.gone {
          st := st.(slaps := st.slaps + 1);
          DispatchTier(st.(tier := RescueTier(cfg, st.tier), fallback := false), M, A);
          return;
        }
      }
      if ev.checked && !st.fallback {
        if ev.cycle {
          st := st.(cycled := true);
        }
        if st.cycled {
          if st.retries < st.tier.limit {
            st := st.(retries := st.retries + 1);
            DispatchTier(st.(fallback := false), M, A);
            return;
          }
          if cfg.default.provider != "" && st.tier.name != cfg.default.name {
            DispatchTier(st.(tier := cfg.default, fallback := true), M, A);
            return;
          }
        }
      }
    }
  }

  /** One dispatch, then what follows it. */
  lemma RunStep(cfg: Config, upstream: (nat, State) -> Event, rec: nat -> Recovery, M: nat, A: nat, before: seq<State>, st: State)
    requires Within(cfg, M, A, st)
    ensures var n, ev := |before|, upstream(|before|, st);
            match Next(cfg, st, ev)
            case None =>
              && before + Run(cfg, upstream, M, A, n, st) == before + [st]
              && Recoveries(cfg, upstream, rec, M, A, n, st) == Recovered(cfg, rec, st, ev)
            case Some(next) =>
              && Within(cfg, M, A, next) && Potential(M, A, next) < Potential(M, A, st)
              && before + Run(cfg, upstream, M, A, n, st) ==
                 (before + [st]) + Run(cfg, upstream, M, A, |before + [st]|, next)
              && Recoveries(cfg, upstream, rec, M, A, n, st) == Recoveries(cfg, upstream, rec, M, A, |before + [st]|, next)
  {
    hide Next;
    var next := Next(cfg, st, upstream(|before|, st));
    if next.Some? { NextDecreases(cfg, M, A, st, upstream(|before|, st)); }
  }
}
