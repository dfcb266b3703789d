/**
 Which historical reasoning turns are dropped from a conversation:
 identifyHistoricalReasoningIndices and precededByToolError of pkg/nts/transformer.go.

 A message is its role, whether it carries reasoning and how many bytes, and whether the tool-error
 test accepts it. `Other` also stands for a message that is not a JSON object; both loops skip it.
 A bit set of 512 bits is a set of indices below 512.
 */
module Reasoning {

  datatype Role = Assistant | Tool | User | Other

  datatype Msg = Msg(role: Role, hasReasoning: bool, bytes: nat, toolError: bool)

  /** The resolved thresholds; a profile without a recommendation has retention 0. */
  datatype Config = Config(strip: bool, keepRecent: int, profileRetention: int, low: int, high: int,
                           preserveKickoff: bool, minKickoff: int, scanTurns: int, minSubstantial: int,
                           freezeOnErrors: bool, hysteresis: bool)

  const CAPACITY := 512

  // ---------------------------------------------------------------- thresholds

  function KeepTurns(c: Config): (r: int)
    ensures r >= 0 && (r == 0 <==> c.keepRecent == 0) && (c.keepRecent >= 0 ==> r == c.keepRecent)
    ensures c.keepRecent < 0 ==> r == if c.profileRetention > 0 then c.profileRetention else if c.low > 0 then c.low else 2
  {
    if c.keepRecent >= 0 then c.keepRecent
    else if c.profileRetention > 0 then c.profileRetention
    else if c.low > 0 then c.low
    else 2
  }

  function StepSize(c: Config): (r: int)
    ensures r > 0 && (c.high > c.low ==> r == c.high - c.low)
  {
    if c.high - c.low <= 0 then 4 else c.high - c.low
  }

  // ---------------------------------------------------------------- the forward scan

  predicate IsTurn(m: Msg) { m.role == Assistant }

  predicate IsReasoning(m: Msg) { IsTurn(m) && m.hasReasoning }

  predicate IsSubstantial(c: Config, m: Msg) { IsReasoning(m) && m.bytes >= c.minSubstantial }

  function Candidates(ms: seq<Msg>, k: nat): set<int>
    requires k <= |ms|
  {
    set i | 0 <= i < k && IsReasoning(ms[i])
  }

  function Substantials(ms: seq<Msg>, c: Config, k: nat): set<int>
    requires k <= |ms|
  {
    set i | 0 <= i < k && IsSubstantial(c, ms[i])
  }

  function Turns(ms: seq<Msg>, k: nat): (r: nat)
    requires k <= |ms|
    ensures r <= k
  {
    if k == 0 then 0 else Turns(ms, k - 1) + if IsTurn(ms[k - 1]) then 1 else 0
  }

  /** How many substantial turns other than `kick` are among the first k messages. */
  function Count(ms: seq<Msg>, c: Config, kick: int, k: nat): (r: nat)
    requires k <= |ms|
    ensures r <= k
  {
    if k == 0 then 0
    else Count(ms, c, kick, k - 1) + if IsSubstantial(c, ms[k - 1]) && k - 1 != kick then 1 else 0
  }

  /** May message i be the kickoff? */
  predicate Eligible(ms: seq<Msg>, c: Config, i: int)
    requires 0 <= i < |ms|
  {
    c.preserveKickoff && IsReasoning(ms[i]) && Turns(ms, i + 1) <= c.scanTurns && ms[i].bytes >= c.minKickoff && ms[i].bytes > 0
  }

  /** The kickoff among the first k messages: the first of the longest eligible turns, or -1. */
  function Kickoff(ms: seq<Msg>, c: Config, k: nat): (r: int)
    requires k <= |ms|
    ensures -1 <= r < k && (r >= 0 ==> Eligible(ms, c, r))
    ensures forall i | 0 <= i < k && Eligible(ms, c, i) ::
              r >= 0 && ms[i].bytes <= ms[r].bytes && (i < r ==> ms[i].bytes < ms[r].bytes)
  {
    if k == 0 then -1
    else
      var r := Kickoff(ms, c, k - 1);
      if Eligible(ms, c, k - 1) && (r < 0 || ms[k - 1].bytes > ms[r].bytes) then k - 1 else r
  }

  // ---------------------------------------------------------------- tool errors

  /** Is there a tool error behind the previous assistant turn? Looks at the messages below i. */
  predicate Preceded(ms: seq<Msg>, i: nat)
    requires i <= |ms|
  {
    i > 0 &&
    match ms[i - 1].role
    case Assistant => false
    case Other => Preceded(ms, i - 1)
    case _ => ms[i - 1].toolError || Preceded(ms, i - 1)
  }

  method PrecededByToolError(ms: seq<Msg>, assistantIdx: nat) returns (r: bool)
    requires assistantIdx <= |ms|
    ensures r <==> Preceded(ms, assistantIdx)
    ensures r <==> exists e | 0 <= e < assistantIdx ::
              ms[e].toolError && (ms[e].role == Tool || ms[e].role == User) && forall j | e < j < assistantIdx :: ms[j].role != Assistant
  {
    var i := assistantIdx;
    while i > 0
      invariant 0 <= i <= assistantIdx && (Preceded(ms, i) <==> Preceded(ms, assistantIdx))
      invariant forall j | i <= j < assistantIdx ::
                  ms[j].role != Assistant && !(ms[j].toolError && (ms[j].role == Tool || ms[j].role == User))
    {
      i := i - 1;
      if ms[i].role == Assistant { return false; }
      if (ms[i].role == Tool || ms[i].role == User) && ms[i].toolError { return true; }
    }
    return false;
  }

  /** What the walk over the tail changes: prune and substantial sets, and the count of substantial turns. */
  datatype Tail = Tail(prune: set<int>, sub: set<int>, count: int)

  /** The walk back over the tail from message i - 1 on. */
  function TailWalk(ms: seq<Msg>, kick: int, i: nat, inError: bool, seenTool: bool, st: Tail): Tail
    requires i <= |ms|
  {
    if i == 0 then st
    else
      var j := i - 1;
      match ms[j].role
      case Tool => TailWalk(ms, kick, j, inError || ms[j].toolError, true, st)
      case User => TailWalk(ms, kick, j, inError || ms[j].toolError, true, st)
      case Other => TailWalk(ms, kick, j, inError, seenTool, st)
      case Assistant =>
        if seenTool && !inError then st
        else if Preceded(ms, j) then
          TailWalk(ms, kick, j, true, seenTool,
                   Tail(st.prune - {j}, st.sub - {j}, if j in st.sub && j != kick then st.count - 1 else st.count))
        else if inError then st.(prune := st.prune - {j})
        else st
  }

  // ---------------------------------------------------------------- the backward pass

  /** The turns left to prune when the budget is spent on the latest ones. */
  function Spend(prune: set<int>, sub: set<int>, kick: int, k: nat, budget: int): (r: set<int>)
    ensures r <= prune
  {
    if k == 0 || budget <= 0 then prune
    else
      var i := k - 1;
      if i !in prune then Spend(prune, sub, kick, i, if i in sub && i != kick then budget - 1 else budget)
      else Spend(prune - {i}, sub, kick, i, if i in sub then budget - 1 else budget)
  }

  // ---------------------------------------------------------------- the whole

  function Capped(ms: seq<Msg>): (r: seq<Msg>)
    ensures |r| <= CAPACITY && r <= ms
  {
    if |ms| > CAPACITY then ms[..CAPACITY] else ms
  }

  /** Before the tail: the candidates without the kickoff; without substantial turns every candidate counts as one. */
  function Start(ms: seq<Msg>, c: Config): Tail {
    var n := |ms|;
    var cand, kick := Candidates(ms, n), Kickoff(ms, c, n);
    var fallback := Count(ms, c, -1, n) == 0 && cand != {};
    var sub := if fallback then cand else Substantials(ms, c, n);
    var total := if fallback then Turns(ms, n) else Count(ms, c, -1, n);
    Tail(cand - {kick}, sub, if kick in sub then total - 1 else total)
  }

  function AfterTail(ms: seq<Msg>, c: Config): Tail {
    var st := Start(ms, c);
    if c.freezeOnErrors then TailWalk(ms, Kickoff(ms, c, |ms|), |ms|, false, false, st) else st
  }

  function Clamp(x: int): nat { if x < 0 then 0 else x }

  /** The substantial turns that stay, or None when hysteresis keeps everything. */
  function Budget(c: Config, count: nat): (r: int)
    requires KeepTurns(c) > 0
    ensures r < 0 <==> c.hysteresis && count < KeepTurns(c) + StepSize(c)
  {
    var low, step := KeepTurns(c), StepSize(c);
    if !c.hysteresis then low
    else if count < low + step then -1
    else
      WholeSteps(count - low, step);
      count - (count - low) / step * step
  }

  function Pruned(all: seq<Msg>, c: Config): set<int> {
    var ms := Capped(all);
    if !c.strip || ms == [] then {}
    else if KeepTurns(c) == 0 then Candidates(ms, |ms|)
    else
      var st := AfterTail(ms, c);
      var budget := Budget(c, Clamp(st.count));
      if budget < 0 then {} else Spend(st.prune, st.sub, Kickoff(ms, c, |ms|), |ms|, budget)
  }

  lemma WholeSteps(x: int, step: int)
    requires step > 0
    ensures x / step * step <= x < x / step * step + step
    ensures x >= step ==> x / step >= 1
  {
  }

  method IdentifyHistoricalReasoningIndices(msgs: seq<Msg>, c: Config) returns (toPrune: set<int>, hasAny: bool)
    ensures toPrune == Pruned(msgs, c) && (hasAny <==> toPrune != {})
  {
    toPrune := {};
    if !c.strip || |msgs| == 0 { return toPrune, false; }
    var n := if |msgs| > CAPACITY then CAPACITY else |msgs|;
    ghost var ms := Capped(msgs);
    CappedIs(msgs);
    PrunedNone(msgs, c);
    hide *;
    var keepTurns := KeepTurns(c);
    var substantial, total, kickoff, assistants;
    toPrune, substantial, total, kickoff, assistants := ForwardScan(msgs, n, c, ms);
    if keepTurns == 0 { return toPrune, toPrune != {}; }
    toPrune := PruneScanned(msgs, n, c, ms, toPrune, substantial, total, kickoff, assistants);
    hasAny := toPrune != {};
  }

  /** What follows the forward scan when some turns are to be kept. */
  method PruneScanned(msgs: seq<Msg>, n: nat, c: Config, ghost ms: seq<Msg>, candidates: set<int>, substantial0: set<int>,
                      total0: int, kickoff: int, assistants: int)
    returns (toPrune: set<int>)
    requires c.strip && msgs != [] && KeepTurns(c) != 0 && ms == Capped(msgs) && ms <= msgs && n == |ms|
    requires candidates == Candidates(ms, n) && substantial0 == Substantials(ms, c, n)
    requires total0 == Count(ms, c, -1, n) && assistants == Turns(ms, n) && kickoff == Kickoff(ms, c, n)
    ensures toPrune == Pruned(msgs, c)
  {
    hide *;
    var keepTurns := KeepTurns(c);
    var substantial, total := substantial0, total0;
    toPrune := candidates;
    StartIs(ms, c);
    if total == 0 && toPrune != {} {
      substantial := toPrune;
      total := assistants;
    }
    if kickoff != -1 {
      toPrune := toPrune - {kickoff};
      if kickoff in substantial { total := total - 1; }
    }
    var effective := total;
    if c.freezeOnErrors {
      toPrune, substantial, effective := PeelTail(msgs, ms, n, kickoff, toPrune, substantial, effective);
    }
    PrunedIs(msgs, c, Tail(toPrune, substantial, effective));
    if effective < 0 { effective := 0; }
    var budget := keepTurns;
    if c.hysteresis {
      var step := StepSize(c);
      if effective < keepTurns + step { return {}; }
      var count := (effective - keepTurns) / step * step;
      budget := effective - count;
    }
    toPrune := SpendBudget(n, toPrune, substantial, kickoff, budget);
  }

  lemma CappedIs(all: seq<Msg>)
    ensures |Capped(all)| == (if |all| > CAPACITY then CAPACITY else |all|) && Capped(all) <= all
  {
  }

  lemma PrunedNone(all: seq<Msg>, c: Config)
    requires c.strip && all != []
    ensures KeepTurns(c) == 0 ==> Pruned(all, c) == Candidates(Capped(all), |Capped(all)|)
  {
  }

  lemma StartIs(ms: seq<Msg>, c: Config)
    ensures var n := |ms|;
            var cand, kick := Candidates(ms, n), Kickoff(ms, c, n);
            var fallback := Count(ms, c, -1, n) == 0 && cand != {};
            var sub := if fallback then cand else Substantials(ms, c, n);
            var total := if fallback then Turns(ms, n) else Count(ms, c, -1, n);
            Start(ms, c) == Tail(if kick == -1 then cand else cand - {kick}, sub, if kick != -1 && kick in sub then total - 1 else total)
  {
    hide Kickoff, Count, Turns;
    NoKickoff(ms, c);
  }

  lemma PrunedIs(all: seq<Msg>, c: Config, st: Tail)
    requires c.strip && all != [] && KeepTurns(c) != 0
    requires var ms := Capped(all);
             st == if c.freezeOnErrors then TailWalk(ms, Kickoff(ms, c, |ms|), |ms|, false, false, Start(ms, c)) else Start(ms, c)
    ensures var ms, low, step, count := Capped(all), KeepTurns(c), StepSize(c), if st.count < 0 then 0 else st.count;
            Pruned(all, c) ==
            if c.hysteresis && count < low + step then {}
            else Spend(st.prune, st.sub, Kickoff(ms, c, |ms|), |ms|, if c.hysteresis then count - (count - low) / step * step else low)
  {
    hide Kickoff, Start, TailWalk, Spend, KeepTurns, StepSize;
  }

  lemma NoKickoff(ms: seq<Msg>, c: Config)
    ensures -1 !in Candidates(ms, |ms|) && -1 !in Substantials(ms, c, |ms|)
    ensures Candidates(ms, |ms|) - {-1} == Candidates(ms, |ms|)
  {
  }

  /** The loop over the messages, from the first to the last. */
  method ForwardScan(msgs: seq<Msg>, n: nat, c: Config, ghost ms: seq<Msg>)
    returns (toPrune: set<int>, substantial: set<int>, total: int, kickoff: int, assistants: int)
    requires ms <= msgs && n == |ms|
    ensures toPrune == Candidates(ms, n) && substantial == Substantials(ms, c, n)
    ensures toPrune == set i | 0 <= i < n && ms[i].role == Assistant && ms[i].hasReasoning
    ensures substantial == set i | i in toPrune && ms[i].bytes >= c.minSubstantial
    ensures total == Count(ms, c, -1, n) && assistants == Turns(ms, n) && kickoff == Kickoff(ms, c, n)
  {
    toPrune, substantial := {}, {};
    total, kickoff, assistants := 0, -1, 0;
    var kickoffMax, idx := 0, 0;
    while idx < n
      invariant 0 <= idx <= n
      invariant toPrune == Candidates(ms, idx) && substantial == Substantials(ms, c, idx)
      invariant total == Count(ms, c, -1, idx) && assistants == Turns(ms, idx)
      invariant kickoff == Kickoff(ms, c, idx) && kickoffMax == (if kickoff < 0 then 0 else ms[kickoff].bytes)
    {
      assert msgs[idx] == ms[idx];
      ForwardSets(ms, c, idx);
      if msgs[idx].role == Assistant {
        assistants := assistants + 1;
        if msgs[idx].hasReasoning {
          var len := msgs[idx].bytes;
          toPrune := toPrune + {idx};
          if len >= c.minSubstantial {
            substantial := substantial + {idx};
            total := total + 1;
          }
          if c.preserveKickoff && assistants <= c.scanTurns && len >= c.minKickoff && len > kickoffMax {
            kickoffMax := len;
            kickoff := idx;
          }
        }
      }
      idx := idx + 1;
    }
  }

  lemma ForwardSets(ms: seq<Msg>, c: Config, k: nat)
    requires k < |ms|
    ensures Candidates(ms, k + 1) == Candidates(ms, k) + if IsReasoning(ms[k]) then {k} else {}
    ensures Substantials(ms, c, k + 1) == Substantials(ms, c, k) + if IsSubstantial(c, ms[k]) then {k} else {}
  {
  }

  /** The walk over the error streak at the end. */
  method PeelTail(msgs: seq<Msg>, ghost ms: seq<Msg>, n: nat, kickoff: int, prune0: set<int>, sub0: set<int>, count0: int)
    returns (prune: set<int>, sub: set<int>, count: int)
    requires n == |ms| && ms <= msgs
    ensures Tail(prune, sub, count) == TailWalk(ms, kickoff, n, false, false, Tail(prune0, sub0, count0))
  {
    prune, sub, count := prune0, sub0, count0;
    var inError, seenTool := false, false;
    var i := n;
    while i > 0
      invariant 0 <= i <= n
      invariant TailWalk(ms, kickoff, i, inError, seenTool, Tail(prune, sub, count)) ==
                TailWalk(ms, kickoff, n, false, false, Tail(prune0, sub0, count0))
    {
      i := i - 1;
      assert msgs[i] == ms[i];
      if msgs[i].role == Tool || msgs[i].role == User {
        seenTool := true;
        if msgs[i].toolError { inError := true; }
      } else if msgs[i].role == Assistant {
        if seenTool && !inError { break; }
        var preceded := PrecededByToolError(msgs, i);
        PrecededPrefix(msgs, ms, i);
        if preceded {
          inError := true;
          prune := prune - {i};
          if i in sub {
            sub := sub - {i};
            if i != kickoff { count := count - 1; }
          } else {
            assert sub - {i} == sub;
          }
        } else if inError {
          prune := prune - {i};
          break;
        } else {
          break;
        }
      }
    }
  }

  lemma {:induction false} PrecededPrefix(msgs: seq<Msg>, ms: seq<Msg>, i: nat)
    requires ms <= msgs && i <= |ms|
    ensures Preceded(msgs, i) <==> Preceded(ms, i)
  {
    if i > 0 {
      assert msgs[i - 1] == ms[i - 1];
      PrecededPrefix(msgs, ms, i - 1);
    }
  }

  method SpendBudget(n: nat, prune0: set<int>, sub: set<int>, kickoff: int, budget0: int) returns (prune: set<int>)
    ensures prune == Spend(prune0, sub, kickoff, n, budget0)
  {
    prune := prune0;
    var budget, idx := budget0, n;
    while idx > 0 && budget > 0
      invariant 0 <= idx <= n
      invariant Spend(prune, sub, kickoff, idx, budget) == Spend(prune0, sub, kickoff, n, budget0)
    {
      idx := idx - 1;
      if idx !in prune {
        if idx in sub && idx != kickoff { budget := budget - 1; }
      } else {
        prune := prune - {idx};
        if idx in sub { budget := budget - 1; }
      }
    }
  }

  // ---------------------------------------------------------------- the kickoff

  lemma {:induction false} TailShrinks(ms: seq<Msg>, kick: int, i: nat, inError: bool, seenTool: bool, st: Tail)
    requires i <= |ms|
    ensures TailWalk(ms, kick, i, inError, seenTool, st).prune <= st.prune
  {
    if i > 0 {
      var j := i - 1;
      match ms[j].role
      case Tool => TailShrinks(ms, kick, j, inError || ms[j].toolError, true, st);
      case User => TailShrinks(ms, kick, j, inError || ms[j].toolError, true, st);
      case Other => TailShrinks(ms, kick, j, inError, seenTool, st);
      case Assistant =>
        if !(seenTool && !inError) && Preceded(ms, j) {
          TailShrinks(ms, kick, j, true, seenTool,
                      Tail(st.prune - {j}, st.sub - {j}, if j in st.sub && j != kick then st.count - 1 else st.count));
        }
    }
  }

  /** A turn that may be protected: one of the first assistant turns, with enough reasoning. */
  predicate Qualifies(ms: seq<Msg>, c: Config, i: int)
    requires 0 <= i < |ms|
  {
    && ms[i].role == Assistant && ms[i].hasReasoning && ms[i].bytes > 0 && ms[i].bytes >= c.minKickoff
    && TurnsBefore(ms, i) < c.scanTurns
  }

  /** How many assistant turns come before message i. */
  function TurnsBefore(ms: seq<Msg>, i: nat): nat
    requires i <= |ms|
  {
    |set j | 0 <= j < i && ms[j].role == Assistant|
  }

  lemma {:induction false} TurnsCounted(ms: seq<Msg>, k: nat)
    requires k <= |ms|
    ensures Turns(ms, k) == TurnsBefore(ms, k)
  {
    hide TurnsBefore;
    if k == 0 { NoneBefore(ms); }
    if k > 0 {
      TurnsCounted(ms, k - 1);
      OneMoreBefore(ms, k - 1);
    }
  }

  lemma NoneBefore(ms: seq<Msg>)
    ensures TurnsBefore(ms, 0) == 0
  {
  }

  lemma OneMoreBefore(ms: seq<Msg>, k: nat)
    requires k < |ms|
    ensures TurnsBefore(ms, k + 1) == TurnsBefore(ms, k) + if IsTurn(ms[k]) then 1 else 0
  {
    var a, b := set j | 0 <= j < k + 1 && ms[j].role == Assistant, set j | 0 <= j < k && ms[j].role == Assistant;
    if IsTurn(ms[k]) {
      assert a == b + {k};
    } else {
      assert a == b;
    }
  }

  /** The kickoff is the first of the longest turns that qualify, and there is none exactly when it is switched off or none does. */
  lemma KickoffChosen(ms: seq<Msg>, c: Config)
    ensures var r := Kickoff(ms, c, |ms|);
            && (r >= 0 <==> c.preserveKickoff && exists i | 0 <= i < |ms| :: Qualifies(ms, c, i))
            && (r >= 0 ==> r < |ms| && Qualifies(ms, c, r) && forall i | 0 <= i < |ms| && Qualifies(ms, c, i) ::
                 ms[i].bytes <= ms[r].bytes && (i < r ==> ms[i].bytes < ms[r].bytes))
  {
    hide Turns, TurnsBefore, Kickoff;
    forall i | 0 <= i < |ms| ensures Eligible(ms, c, i) <==> c.preserveKickoff && Qualifies(ms, c, i) {
      TurnsCounted(ms, i);
      if IsTurn(ms[i]) { OneTurnMore(ms, i); }
    }
  }

  lemma OneTurnMore(ms: seq<Msg>, i: nat)
    requires i < |ms| && IsTurn(ms[i])
    ensures Turns(ms, i + 1) == Turns(ms, i) + 1
  {
  }

  /**
   The kickoff is pruned exactly when reasoning is stripped with an explicit retention of zero turns:
   that setting drops every reasoning turn, protected or not.
   */
  lemma KickoffPruned(all: seq<Msg>, c: Config)
    requires Kickoff(Capped(all), c, |Capped(all)|) >= 0
    ensures Kickoff(Capped(all), c, |Capped(all)|) in Pruned(all, c) <==> c.strip && c.keepRecent == 0
  {
    var ms := Capped(all);
    var kick := Kickoff(ms, c, |ms|);
    hide TailWalk, Spend, Count, Turns, Preceded;
    TailShrinks(ms, kick, |ms|, false, false, Start(ms, c));
  }

  /** Only reasoning turns of the assistant are ever pruned. */
  lemma OnlyReasoningPruned(all: seq<Msg>, c: Config)
    ensures forall i | i in Pruned(all, c) :: 0 <= i < |all| && i < CAPACITY && IsReasoning(all[i])
  {
    var ms := Capped(all);
    hide TailWalk, Spend, Count, Turns, Preceded, Kickoff;
    TailShrinks(ms, Kickoff(ms, c, |ms|), |ms|, false, false, Start(ms, c));
    forall i | i in Candidates(ms, |ms|) ensures 0 <= i < |all| && i < CAPACITY && IsReasoning(all[i]) {
      assert ms[i] == all[i];
    }
  }

  // ---------------------------------------------------------------- a clean tail

  /** The last assistant turn below i, or -1. */
  function LastTurn(ms: seq<Msg>, i: nat): (r: int)
    requires i <= |ms|
    ensures -1 <= r < i && (r >= 0 ==> IsTurn(ms[r])) && forall j | r < j < i :: !IsTurn(ms[j])
  {
    if i == 0 then -1 else if IsTurn(ms[i - 1]) then i - 1 else LastTurn(ms, i - 1)
  }

  predicate IsOutput(m: Msg) { m.role == Tool || m.role == User }

  /** No retry is under way: the outputs of the last turn are free of errors, or it follows none. */
  predicate CleanTail(ms: seq<Msg>, c: Config) {
    var last := LastTurn(ms, |ms|);
    !c.freezeOnErrors || last < 0 ||
    if exists j | last < j < |ms| :: IsOutput(ms[j])
    then forall j | last < j < |ms| && IsOutput(ms[j]) :: !ms[j].toolError
    else !Preceded(ms, last)
  }

  lemma {:induction false} CleanWalk(ms: seq<Msg>, kick: int, i: nat, seenTool: bool, st: Tail)
    requires i <= |ms|
    requires var last := LastTurn(ms, i);
             last < 0 ||
             if seenTool || exists j | last < j < i :: IsOutput(ms[j])
             then forall j | last < j < i && IsOutput(ms[j]) :: !ms[j].toolError
             else !Preceded(ms, last)
    ensures TailWalk(ms, kick, i, false, seenTool, st) == st || LastTurn(ms, i) < 0
    ensures LastTurn(ms, i) >= 0 ==> TailWalk(ms, kick, i, false, seenTool, st) == st
  {
    if i > 0 && !IsTurn(ms[i - 1]) && LastTurn(ms, i) >= 0 {
      var seen := seenTool || IsOutput(ms[i - 1]);
      CleanWalk(ms, kick, i - 1, seen, st);
    }
  }

  lemma {:induction false} NoTurnWalk(ms: seq<Msg>, kick: int, i: nat, inError: bool, seenTool: bool, st: Tail)
    requires i <= |ms| && LastTurn(ms, i) < 0
    ensures TailWalk(ms, kick, i, inError, seenTool, st) == st
  {
    if i > 0 {
      NoTurnWalk(ms, kick, i - 1, inError || (IsOutput(ms[i - 1]) && ms[i - 1].toolError), seenTool || IsOutput(ms[i - 1]), st);
    }
  }

  lemma CleanAfterTail(ms: seq<Msg>, c: Config)
    requires CleanTail(ms, c)
    ensures AfterTail(ms, c) == Start(ms, c)
  {
    hide Start, TailWalk, Kickoff, Preceded;
    var kick := Kickoff(ms, c, |ms|);
    if LastTurn(ms, |ms|) < 0 {
      NoTurnWalk(ms, kick, |ms|, false, false, Start(ms, c));
    } else if c.freezeOnErrors {
      CleanWalk(ms, kick, |ms|, false, Start(ms, c));
    }
  }

  // ---------------------------------------------------------------- hysteresis

  /** Some turns are kept, the tail is clean, and at least one turn is substantial. */
  predicate Calm(all: seq<Msg>, c: Config) {
    var ms := Capped(all);
    c.strip && KeepTurns(c) > 0 && CleanTail(ms, c) && Count(ms, c, -1, |ms|) > 0
  }

  /** And hysteresis is on. */
  predicate Steady(all: seq<Msg>, c: Config) {
    Calm(all, c) && c.hysteresis
  }

  function KickoffOf(all: seq<Msg>, c: Config): int {
    Kickoff(Capped(all), c, |Capped(all)|)
  }

  /** The substantial turns that compete for retention: all but the kickoff. */
  function Pool(all: seq<Msg>, c: Config): nat {
    Count(Capped(all), c, KickoffOf(all, c), |Capped(all)|)
  }

  /** How many of `count` substantial turns hysteresis drops: whole steps above the low watermark. */
  function Dropped(c: Config, count: nat): (r: nat)
    ensures KeepTurns(c) > 0 ==> r <= count
  {
    var low, step := KeepTurns(c), StepSize(c);
    if count < low + step then 0
    else
      WholeSteps(count - low, step);
      (count - low) / step * step
  }

  lemma {:induction false} CountKick(ms: seq<Msg>, c: Config, kick: int, k: nat)
    requires k <= |ms|
    ensures Count(ms, c, kick, k) == Count(ms, c, -1, k) - if 0 <= kick < k && IsSubstantial(c, ms[kick]) then 1 else 0
  {
    if k > 0 { CountKick(ms, c, kick, k - 1); }
  }

  lemma {:induction false} CountMonotone(ms: seq<Msg>, c: Config, kick: int, i: nat, k: nat)
    requires i <= k <= |ms|
    ensures Count(ms, c, kick, i) <= Count(ms, c, kick, k)
    decreases k
  {
    if i < k { CountMonotone(ms, c, kick, i, k - 1); }
  }

  lemma {:induction false} SpendRule(ms: seq<Msg>, c: Config, kick: int, prune: set<int>, sub: set<int>, k: nat, budget: nat, i: int)
    requires k <= |ms|
    requires forall j | 0 <= j < k :: j in prune <==> IsReasoning(ms[j]) && j != kick
    requires forall j | 0 <= j < k :: j in sub <==> IsSubstantial(c, ms[j])
    ensures var r := Spend(prune, sub, kick, k, budget);
            i in r <==>
              i in prune && (0 <= i < k ==> Count(ms, c, kick, k) - Count(ms, c, kick, i + 1) >= budget)
  {
    if k == 0 {
    } else if budget == 0 {
      if 0 <= i < k { CountMonotone(ms, c, kick, i + 1, k); }
    } else {
      var j := k - 1;
      SpendRule(ms, c, kick, prune - {j}, sub, j, if IsSubstantial(c, ms[j]) && j != kick then budget - 1 else budget, i);
      assert j !in prune ==> prune - {j} == prune;
    }
  }

  lemma SteadyStart(all: seq<Msg>, c: Config)
    requires Calm(all, c)
    ensures var ms := Capped(all);
            AfterTail(ms, c) == Tail(Candidates(ms, |ms|) - {KickoffOf(all, c)}, Substantials(ms, c, |ms|), Pool(all, c))
  {
    var ms := Capped(all);
    var kick := KickoffOf(all, c);
    CleanAfterTail(ms, c);
    CountKick(ms, c, kick, |ms|);
    hide AfterTail, CleanTail, Kickoff, Count;
  }

  /** With a steady conversation, a reasoning turn goes exactly when it lies within the dropped whole steps. */
  lemma PrunedRule(all: seq<Msg>, c: Config, i: int)
    requires Steady(all, c)
    ensures var ms, kick, p := Capped(all), KickoffOf(all, c), Dropped(c, Pool(all, c));
            i in Pruned(all, c) <==>
              0 <= i < |ms| && IsReasoning(ms[i]) && i != kick && p > 0 && Count(ms, c, kick, i + 1) <= p
  {
    var ms, kick, n := Capped(all), KickoffOf(all, c), Pool(all, c);
    SteadyStart(all, c);
    hide AfterTail, CleanTail, Kickoff, Spend;
    var low, step := KeepTurns(c), StepSize(c);
    DroppedIs(c, n);
    if n >= low + step {
      SpendRule(ms, c, kick, Candidates(ms, |ms|) - {kick}, Substantials(ms, c, |ms|), |ms|, n - Dropped(c, n), i);
    }
  }

  /** Without hysteresis a reasoning turn goes exactly when as many substantial turns as are to be kept come after it. */
  lemma SlidingRule(all: seq<Msg>, c: Config, i: int)
    requires Calm(all, c) && !c.hysteresis
    ensures var ms, kick := Capped(all), KickoffOf(all, c);
            i in Pruned(all, c) <==>
              0 <= i < |ms| && IsReasoning(ms[i]) && i != kick && Pool(all, c) - Count(ms, c, kick, i + 1) >= KeepTurns(c)
  {
    var ms, kick := Capped(all), KickoffOf(all, c);
    SteadyStart(all, c);
    hide AfterTail, CleanTail, Kickoff, Spend;
    SpendRule(ms, c, kick, Candidates(ms, |ms|) - {kick}, Substantials(ms, c, |ms|), |ms|, KeepTurns(c), i);
  }

  lemma DroppedIs(c: Config, n: nat)
    requires KeepTurns(c) > 0 && c.hysteresis
    ensures n < KeepTurns(c) + StepSize(c) ==> Dropped(c, n) == 0 && Budget(c, n) < 0
    ensures n >= KeepTurns(c) + StepSize(c) ==> Dropped(c, n) > 0 && Budget(c, n) == n - Dropped(c, n)
    ensures n - Dropped(c, n) < KeepTurns(c) + StepSize(c) && (n >= KeepTurns(c) ==> n - Dropped(c, n) >= KeepTurns(c))
    ensures Dropped(c, n) % StepSize(c) == 0
  {
    var low, step := KeepTurns(c), StepSize(c);
    if n >= low + step {
      WholeSteps(n - low, step);
      MultipleOf((n - low) / step, step);
      assert (n - low) / step * step >= step by { AtLeastOne((n - low) / step, step); }
    }
  }

  lemma AtLeastOne(q: int, step: int)
    requires q >= 1 && step > 0
    ensures q * step >= step
  {
  }

  lemma MultipleOf(q: int, step: int)
    requires step > 0
    ensures (q * step) % step == 0
  {
    RemainderOf(q, step, q * step);
  }

  lemma RemainderOf(q: int, step: int, x: int)
    requires step > 0 && x == q * step
    ensures x % step == 0
  {
    var d, r := x / step, x % step;
    assert x == d * step + r;
    assert (q - d) * step == r;
    assert (d - q) * step == -r;
    if q - d > 0 { AtLeastOne(q - d, step); }
    if q - d < 0 { AtLeastOne(d - q, step); }
  }

  /** How many substantial turns other than the kickoff are in the set, among the first k messages. */
  function CountIn(S: set<int>, ms: seq<Msg>, c: Config, kick: int, k: nat): nat
    requires k <= |ms|
  {
    if k == 0 then 0
    else CountIn(S, ms, c, kick, k - 1) + if IsSubstantial(c, ms[k - 1]) && k - 1 != kick && k - 1 in S then 1 else 0
  }

  lemma {:induction false} CountPruned(all: seq<Msg>, c: Config, k: nat)
    requires Steady(all, c) && k <= |Capped(all)|
    ensures var ms, kick, p := Capped(all), KickoffOf(all, c), Dropped(c, Pool(all, c));
            CountIn(Pruned(all, c), ms, c, kick, k) == if Count(ms, c, kick, k) <= p then Count(ms, c, kick, k) else p
  {
    if k > 0 {
      CountPruned(all, c, k - 1);
      hide Steady, Pruned, Kickoff, Dropped;
      PrunedRule(all, c, k - 1);
    }
  }

  /**
   The pruned substantial turns number a multiple of the step, and those that stay, the kickoff aside,
   are fewer than the low watermark and one step together.
   */
  lemma PrunedInSteps(all: seq<Msg>, c: Config)
    requires Steady(all, c)
    ensures var ms, kick := Capped(all), KickoffOf(all, c);
            var gone := CountIn(Pruned(all, c), ms, c, kick, |ms|);
            && gone % StepSize(c) == 0
            && Pool(all, c) - gone < KeepTurns(c) + StepSize(c)
            && (Pool(all, c) >= KeepTurns(c) ==> Pool(all, c) - gone >= KeepTurns(c))
  {
    var ms := Capped(all);
    CountPruned(all, c, |ms|);
    DroppedIs(c, Pool(all, c));
    hide Pruned, CleanTail, Kickoff;
  }

  // ---------------------------------------------------------------- an error streak at the end

  /**
   The turn that set off the retries at the end of the first i messages: the last assistant turn that
   does not follow a tool error, or -1. Every assistant turn after it is a retry.
   */
  function Setup(ms: seq<Msg>, i: nat): (r: int)
    requires i <= |ms|
    ensures -1 <= r < i && (r >= 0 ==> IsTurn(ms[r]) && !Preceded(ms, r))
    ensures forall j | r < j < i && IsTurn(ms[j]) :: Preceded(ms, j)
  {
    if i == 0 then -1 else if IsTurn(ms[i - 1]) && !Preceded(ms, i - 1) then i - 1 else Setup(ms, i - 1)
  }

  /** The turns from a on, among the first i messages. */
  function TurnsFrom(ms: seq<Msg>, a: int, i: nat): set<int>
    requires i <= |ms|
  {
    set j | 0 <= j < i && a <= j && IsTurn(ms[j])
  }

  /** Within a streak the walk takes every retry out of the pool and stops behind the turn that set it off. */
  lemma {:induction false} StreakWalk(ms: seq<Msg>, kick: int, i: nat, seenTool: bool, st: Tail)
    requires i <= |ms|
    ensures var r, s := TailWalk(ms, kick, i, true, seenTool, st), Setup(ms, i);
            r.prune == st.prune - TurnsFrom(ms, s, i) && r.sub == st.sub - TurnsFrom(ms, s + 1, i)
  {
    if i > 0 {
      var j, s := i - 1, Setup(ms, i);
      hide Preceded;
      if !IsTurn(ms[j]) {
        StreakWalk(ms, kick, j, seenTool || IsOutput(ms[j]), st);
        assert TurnsFrom(ms, s, i) == TurnsFrom(ms, s, j) && TurnsFrom(ms, s + 1, i) == TurnsFrom(ms, s + 1, j);
      } else if Preceded(ms, j) {
        StreakWalk(ms, kick, j, seenTool, Tail(st.prune - {j}, st.sub - {j}, if j in st.sub && j != kick then st.count - 1 else st.count));
        assert TurnsFrom(ms, s, i) == TurnsFrom(ms, s, j) + {j} && TurnsFrom(ms, s + 1, i) == TurnsFrom(ms, s + 1, j) + {j};
      } else {
        assert TurnsFrom(ms, s, i) == {j} && TurnsFrom(ms, s + 1, i) == {};
      }
    }
  }

  /** The retries do not count. */
  lemma {:induction false} StreakCount(ms: seq<Msg>, c: Config, kick: int, i: nat, seenTool: bool, st: Tail)
    requires i <= |ms| && forall j | 0 <= j < i :: j in st.sub <==> IsSubstantial(c, ms[j])
    ensures TailWalk(ms, kick, i, true, seenTool, st).count == st.count - (Count(ms, c, kick, i) - Count(ms, c, kick, Setup(ms, i) + 1))
  {
    if i > 0 {
      var j := i - 1;
      var next := Tail(st.prune - {j}, st.sub - {j}, if j in st.sub && j != kick then st.count - 1 else st.count);
      hide Preceded;
      if !IsTurn(ms[j]) {
        StreakCount(ms, c, kick, j, seenTool || IsOutput(ms[j]), st);
        assert Setup(ms, i) == Setup(ms, j);
      } else if Preceded(ms, j) {
        StreakCount(ms, c, kick, j, seenTool, next);
        assert Setup(ms, i) == Setup(ms, j);
        assert Count(ms, c, kick, i) == Count(ms, c, kick, j) + st.count - next.count;
      } else {
        assert Setup(ms, i) == j;
      }
    }
  }

  /** Whether an output was seen no longer matters once the tail is in error. */
  lemma {:induction false} SeenWalk(ms: seq<Msg>, kick: int, i: nat, st: Tail)
    requires i <= |ms|
    ensures TailWalk(ms, kick, i, true, false, st) == TailWalk(ms, kick, i, true, true, st)
  {
    if i > 0 {
      var j := i - 1;
      hide Preceded;
      if ms[j].role == Other {
        SeenWalk(ms, kick, j, st);
      } else if IsTurn(ms[j]) && Preceded(ms, j) {
        SeenWalk(ms, kick, j, Tail(st.prune - {j}, st.sub - {j}, if j in st.sub && j != kick then st.count - 1 else st.count));
      }
    }
  }

  /** On a tail that is not clean the walk ends as one that starts in error. */
  lemma {:induction false} UncleanWalk(ms: seq<Msg>, kick: int, i: nat, seenTool: bool, st: Tail)
    requires i <= |ms|
    requires var last := LastTurn(ms, i);
             last >= 0 &&
             if seenTool || exists j | last < j < i :: IsOutput(ms[j])
             then exists j | last < j < i :: IsOutput(ms[j]) && ms[j].toolError
             else Preceded(ms, last)
    ensures TailWalk(ms, kick, i, false, seenTool, st) == TailWalk(ms, kick, i, true, true, st)
  {
    var j := i - 1;
    hide Preceded;
    if IsTurn(ms[j]) {
      SeenWalk(ms, kick, j, Tail(st.prune - {j}, st.sub - {j}, if j in st.sub && j != kick then st.count - 1 else st.count));
    } else if IsOutput(ms[j]) && ms[j].toolError {
    } else {
      UncleanWalk(ms, kick, j, seenTool || IsOutput(ms[j]), st);
    }
  }

  lemma StreakAfterTail(ms: seq<Msg>, c: Config)
    requires !CleanTail(ms, c)
    ensures var s, st, r := Setup(ms, |ms|), Start(ms, c), AfterTail(ms, c);
            && r.prune == st.prune - TurnsFrom(ms, s, |ms|) && r.sub == st.sub - TurnsFrom(ms, s + 1, |ms|)
            && (Count(ms, c, -1, |ms|) > 0 ==>
                 r.count == st.count - (Count(ms, c, Kickoff(ms, c, |ms|), |ms|) - Count(ms, c, Kickoff(ms, c, |ms|), s + 1)))
  {
    var kick := Kickoff(ms, c, |ms|);
    var st := Start(ms, c);
    hide TailWalk, Kickoff, Preceded, Count, Setup, LastTurn;
    UncleanWalk(ms, kick, |ms|, false, st);
    StreakWalk(ms, kick, |ms|, true, st);
    if Count(ms, c, -1, |ms|) > 0 { StreakCount(ms, c, kick, |ms|, true, st); }
  }

  /** An error streak that is not over keeps its reasoning, and so does the turn that set it off. */
  lemma StreakProtected(all: seq<Msg>, c: Config, i: int)
    requires KeepTurns(c) > 0 && !CleanTail(Capped(all), c) && Setup(Capped(all), |Capped(all)|) <= i
    ensures i !in Pruned(all, c)
  {
    var ms := Capped(all);
    StreakAfterTail(ms, c);
    hide Capped, AfterTail, CleanTail, Kickoff, Setup, Count, Turns, Spend, Budget, KeepTurns;
    if i in Candidates(ms, |ms|) { assert i in TurnsFrom(ms, Setup(ms, |ms|), |ms|); }
  }

  /** Some turns are kept, one at least is substantial, and the conversation ends with an error streak. */
  predicate Retrying(all: seq<Msg>, c: Config) {
    var ms := Capped(all);
    c.strip && KeepTurns(c) > 0 && !CleanTail(ms, c) && Count(ms, c, -1, |ms|) > 0
  }

  function SetupOf(all: seq<Msg>): (s: int)
    ensures -1 <= s < |Capped(all)|
  {
    Setup(Capped(all), |Capped(all)|)
  }

  /** The substantial turns that compete for retention before the retries began: all up to the turn that set them off. */
  function PoolBefore(all: seq<Msg>, c: Config): nat {
    Count(Capped(all), c, KickoffOf(all, c), SetupOf(all) + 1)
  }

  lemma RetryStart(all: seq<Msg>, c: Config)
    requires Retrying(all, c)
    ensures var ms, s := Capped(all), SetupOf(all);
            AfterTail(ms, c) == Tail(Candidates(ms, |ms|) - {KickoffOf(all, c)} - TurnsFrom(ms, s, |ms|),
                                     Substantials(ms, c, |ms|) - TurnsFrom(ms, s + 1, |ms|), PoolBefore(all, c))
  {
    var ms := Capped(all);
    StreakAfterTail(ms, c);
    CountKick(ms, c, KickoffOf(all, c), |ms|);
    hide AfterTail, CleanTail, Kickoff, Count, Setup;
  }

  /** The retries are skipped for free; the turn that set them off is paid for. */
  lemma {:induction false} SpendSkip(prune: set<int>, sub: set<int>, kick: int, s: int, k: nat, budget: int)
    requires -1 <= s < k
    requires forall j | s < j < k :: j !in prune && j !in sub
    ensures Spend(prune, sub, kick, k, budget) == Spend(prune, sub, kick, s + 1, budget)
  {
    if k > s + 1 && budget > 0 {
      SpendSkip(prune, sub, kick, s, k - 1, budget);
    }
  }

  lemma RetrySpend(all: seq<Msg>, c: Config, budget: nat, i: int)
    requires Retrying(all, c) && budget > 0
    ensures var ms, kick, s, st := Capped(all), KickoffOf(all, c), SetupOf(all), AfterTail(Capped(all), c);
            i in Spend(st.prune, st.sub, kick, |ms|, budget) <==>
              0 <= i < s && IsReasoning(ms[i]) && i != kick && PoolBefore(all, c) - Count(ms, c, kick, i + 1) >= budget
  {
    var ms, kick, s, st := Capped(all), KickoffOf(all, c), SetupOf(all), AfterTail(Capped(all), c);
    RetryStart(all, c);
    assert s >= 0 ==> IsTurn(ms[s]);
    hide AfterTail, CleanTail, Kickoff, Retrying, Capped, Setup, SetupOf, KickoffOf;
    SpendSkip(st.prune, st.sub, kick, s, |ms|, budget);
    if s >= 0 {
      SpendRule(ms, c, kick, st.prune, st.sub, s, if IsSubstantial(c, ms[s]) && s != kick then budget - 1 else budget, i);
    }
  }

  /** Without hysteresis: as SlidingRule, with the turns counted up to the one that set off the retries. */
  lemma StreakSlidingRule(all: seq<Msg>, c: Config, i: int)
    requires Retrying(all, c) && !c.hysteresis
    ensures var ms, kick := Capped(all), KickoffOf(all, c);
            i in Pruned(all, c) <==>
              0 <= i < SetupOf(all) && IsReasoning(ms[i]) && i != kick && PoolBefore(all, c) - Count(ms, c, kick, i + 1) >= KeepTurns(c)
  {
    RetryStart(all, c);
    RetrySpend(all, c, KeepTurns(c), i);
    hide AfterTail, CleanTail, Kickoff, Spend, Count, Setup, KeepTurns;
  }

  /** With hysteresis: as PrunedRule, with the turns counted up to the one that set off the retries. */
  lemma StreakPrunedRule(all: seq<Msg>, c: Config, i: int)
    requires Retrying(all, c) && c.hysteresis
    ensures var ms, kick, p := Capped(all), KickoffOf(all, c), Dropped(c, PoolBefore(all, c));
            i in Pruned(all, c) <==>
              0 <= i < SetupOf(all) && IsReasoning(ms[i]) && i != kick && p > 0 && Count(ms, c, kick, i + 1) <= p
  {
    var n := PoolBefore(all, c);
    RetryStart(all, c);
    DroppedIs(c, n);
    if n >= KeepTurns(c) + StepSize(c) { RetrySpend(all, c, n - Dropped(c, n), i); }
    hide AfterTail, CleanTail, Kickoff, Spend, Count, Setup, KeepTurns, Dropped;
  }

  // ---------------------------------------------------------------- appending turns

  lemma {:induction false} TurnsPrefix(ms: seq<Msg>, more: seq<Msg>, k: nat)
    requires ms <= more && k <= |ms|
    ensures Turns(more, k) == Turns(ms, k)
  {
    if k > 0 {
      TurnsPrefix(ms, more, k - 1);
      assert ms[k - 1] == more[k - 1];
    }
  }

  lemma {:induction false} CountPrefix(ms: seq<Msg>, more: seq<Msg>, c: Config, kick: int, k: nat)
    requires ms <= more && k <= |ms|
    ensures Count(more, c, kick, k) == Count(ms, c, kick, k)
  {
    if k > 0 {
      CountPrefix(ms, more, c, kick, k - 1);
      assert ms[k - 1] == more[k - 1];
    }
  }

  lemma {:induction false} TurnsMonotone(ms: seq<Msg>, i: nat, k: nat)
    requires i <= k <= |ms|
    ensures Turns(ms, i) <= Turns(ms, k)
    decreases k
  {
    if i < k { TurnsMonotone(ms, i, k - 1); }
  }

  /** The kickoff scan is over: enough turns were seen, or none is protected. */
  predicate Settled(ms: seq<Msg>, c: Config) {
    !c.preserveKickoff || Turns(ms, |ms|) >= c.scanTurns
  }

  lemma {:induction false} KickoffStable(ms: seq<Msg>, more: seq<Msg>, c: Config, k: nat)
    requires ms <= more && k <= |more| && (k > |ms| ==> Settled(ms, c))
    ensures k <= |ms| ==> Kickoff(more, c, k) == Kickoff(ms, c, k)
    ensures k > |ms| ==> Kickoff(more, c, k) == Kickoff(ms, c, |ms|)
  {
    if k > 0 {
      KickoffStable(ms, more, c, k - 1);
      if k <= |ms| {
        assert ms[k - 1] == more[k - 1];
        TurnsPrefix(ms, more, k);
      } else {
        TurnsPrefix(ms, more, |ms|);
        TurnsMonotone(more, |ms|, k - 1);
        assert IsTurn(more[k - 1]) ==> Turns(more, k) > Turns(ms, |ms|);
      }
    }
  }

  lemma DroppedMonotone(c: Config, m: nat, n: nat)
    requires m <= n && KeepTurns(c) > 0
    ensures Dropped(c, m) <= Dropped(c, n)
  {
    var low, step := KeepTurns(c), StepSize(c);
    if m >= low + step {
      QuotientMonotone(m - low, n - low, step);
      Scale((m - low) / step, (n - low) / step, step);
    }
  }

  lemma QuotientMonotone(x: int, y: int, step: int)
    requires step > 0 && x <= y
    ensures x / step <= y / step
  {
    WholeSteps(x, step);
    WholeSteps(y, step);
    if x / step > y / step {
      Scale(y / step + 1, x / step, step);
    }
  }

  lemma Scale(a: int, b: int, step: int)
    requires a <= b && step > 0
    ensures a * step <= b * step
  {
  }

  lemma CappedPrefix(ms: seq<Msg>, more: seq<Msg>)
    requires ms <= more
    ensures Capped(ms) <= Capped(more)
  {
  }

  /** Once the kickoff scan is over, appending messages only ever enlarges the set of pruned turns. */
  lemma PruningGrows(all: seq<Msg>, more: seq<Msg>, c: Config)
    requires all <= more && Steady(all, c) && Steady(more, c) && Settled(Capped(all), c)
    ensures Pruned(all, c) <= Pruned(more, c)
  {
    var ms, ms', kick := Capped(all), Capped(more), KickoffOf(all, c);
    CappedPrefix(all, more);
    KickoffStable(ms, ms', c, |ms'|);
    CountPrefix(ms, ms', c, kick, |ms|);
    CountMonotone(ms', c, kick, |ms|, |ms'|);
    DroppedMonotone(c, Pool(all, c), Pool(more, c));
    forall i | i in Pruned(all, c) ensures i in Pruned(more, c) {
      PrunedRule(all, c, i);
      PrunedRule(more, c, i);
      CountPrefix(ms, ms', c, kick, i + 1);
      assert ms[i] == ms'[i];
    }
  }

  /** Until a whole further step of substantial turns has come, the pruned set does not change at all. */
  lemma PruningStays(all: seq<Msg>, more: seq<Msg>, c: Config)
    requires all <= more && Steady(all, c) && Steady(more, c) && Settled(Capped(all), c)
    requires Dropped(c, Pool(more, c)) == Dropped(c, Pool(all, c))
    ensures Pruned(more, c) == Pruned(all, c)
  {
    PruningGrows(all, more, c);
    var ms, ms', kick := Capped(all), Capped(more), KickoffOf(all, c);
    CappedPrefix(all, more);
    KickoffStable(ms, ms', c, |ms'|);
    DroppedIs(c, Pool(all, c));
    forall i | i in Pruned(more, c) ensures i in Pruned(all, c) {
      PrunedRule(all, c, i);
      PrunedRule(more, c, i);
      if i < |ms| {
        CountPrefix(ms, ms', c, kick, i + 1);
        assert ms[i] == ms'[i];
      } else {
        CountPrefix(ms, ms', c, kick, |ms|);
        CountMonotone(ms', c, kick, |ms|, i + 1);
        assert false;
      }
    }
  }

  /** The turn that set off the streak stays the same while only retries are appended. */
  lemma {:induction false} SetupStable(ms: seq<Msg>, more: seq<Msg>, k: nat)
    requires ms <= more && k <= |more| && forall j | |ms| <= j < |more| && IsTurn(more[j]) :: Preceded(more, j)
    ensures Setup(more, k) == Setup(ms, if k <= |ms| then k else |ms|)
  {
    if k > 0 {
      SetupStable(ms, more, k - 1);
      if k <= |ms| {
        assert ms[k - 1] == more[k - 1];
        PrecededPrefix(more, ms, k - 1);
      }
      hide Preceded;
    }
  }

  /**
   An error streak freezes the pruned set: as long as every further turn is a retry and the last
   output is an error, nothing more is pruned, and nothing comes back.
   */
  lemma StreakFreezes(all: seq<Msg>, more: seq<Msg>, c: Config)
    requires all <= more && Retrying(all, c) && Retrying(more, c) && Settled(Capped(all), c)
    requires forall j | |Capped(all)| <= j < |Capped(more)| && IsTurn(more[j]) :: Preceded(more, j)
    ensures Pruned(more, c) == Pruned(all, c)
  {
    hide Kickoff, Retrying, Setup, Pruned, Preceded;
    forall i ensures i in Pruned(more, c) <==> i in Pruned(all, c) {
      FrozenAt(all, more, c, i);
    }
  }

  lemma FrozenParts(all: seq<Msg>, more: seq<Msg>, c: Config)
    requires all <= more && Settled(Capped(all), c)
    requires forall j | |Capped(all)| <= j < |Capped(more)| && IsTurn(more[j]) :: Preceded(more, j)
    ensures Capped(all) <= Capped(more) && KickoffOf(more, c) == KickoffOf(all, c)
    ensures SetupOf(more) == SetupOf(all) && PoolBefore(more, c) == PoolBefore(all, c)
  {
    hide Preceded, Kickoff, Setup, Count, Settled;
    var ms, ms' := Capped(all), Capped(more);
    CappedPrefix(all, more);
    hide Capped;
    forall j | |ms| <= j < |ms'| && IsTurn(ms'[j]) ensures Preceded(ms', j) { PrecededPrefix(more, ms', j); }
    SetupStable(ms, ms', |ms'|);
    KickoffStable(ms, ms', c, |ms'|);
    CountPrefix(ms, ms', c, KickoffOf(all, c), SetupOf(all) + 1);
  }

  lemma FrozenAt(all: seq<Msg>, more: seq<Msg>, c: Config, i: int)
    requires all <= more && Retrying(all, c) && Retrying(more, c) && Settled(Capped(all), c)
    requires forall j | |Capped(all)| <= j < |Capped(more)| && IsTurn(more[j]) :: Preceded(more, j)
    ensures i in Pruned(more, c) <==> i in Pruned(all, c)
  {
    hide *;
    var ms, ms', kick, s := Capped(all), Capped(more), KickoffOf(all, c), SetupOf(all);
    FrozenParts(all, more, c);
    if 0 <= i < s {
      CountPrefix(ms, ms', c, kick, i + 1);
      assert ms[i] == ms'[i];
    }
    if c.hysteresis {
      StreakPrunedRule(all, c, i);
      StreakPrunedRule(more, c, i);
    } else {
      StreakSlidingRule(all, c, i);
      StreakSlidingRule(more, c, i);
    }
  }
}
