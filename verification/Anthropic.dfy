/**
 The translation of a conversation into Anthropic turns: translateMessagesFast,
 stripDuplicateThinkingBlocks and the end of BuildUpstreamRequest (pkg/provider/anthropic.go).

 A message carries its already decoded content: `body` stands for the text, image, tool_use and
 tool_result blocks convertMessageContentFast makes of it.
 */
module Anthropic {
  import opened Wrappers
  import opened ThinkingCache

  datatype Block = Thinking(text: string, signature: string) | Redacted(data: string) | Plain(payload: string)

  datatype Msg = Msg(role: string, hasReasoning: bool, toolIds: seq<string>, body: seq<string>)

  datatype Turn = Turn(role: string, content: seq<Block>)

  const KEEP_RECENT := 3

  // ---------------------------------------------------------------- blocks of a message

  function Find(cache: seq<Entry>, id: string): Option<seq<Cached>> {
    var i := IndexOf(cache, id);
    if id != "" && i < |cache| then Some(cache[i].1) else None
  }

  /** The blocks cached for the first tool call that has any. */
  function Hit(cache: seq<Entry>, ids: seq<string>): Option<seq<Cached>> {
    if ids == [] then None
    else if Find(cache, ids[0]).Some? then Find(cache, ids[0])
    else Hit(cache, ids[1..])
  }

  function Rehydrated(cached: seq<Cached>): seq<Block> {
    if cached == [] then []
    else
      (match cached[0]
       case CachedThinking(text, signature) => [Thinking(text, signature)]
       case CachedRedacted(data) => [Redacted(data)]
       case CachedOther => []) + Rehydrated(cached[1..])
  }

  function PlainBlocks(body: seq<string>): (r: seq<Block>)
    ensures |r| == |body|
  {
    seq(|body|, i requires 0 <= i < |body| => Plain(body[i]))
  }

  /** convertMessageContentFast. */
  function Convert(m: Msg, cached: seq<Cached>): seq<Block> {
    (if IsToolTurn(m) then Rehydrated(cached) else []) + PlainBlocks(m.body)
  }

  predicate IsToolTurn(m: Msg) {
    m.role == "assistant" && m.toolIds != []
  }

  function RoleOf(m: Msg): string {
    if m.role == "tool" then "user" else m.role
  }

  // ---------------------------------------------------------------- which turns are rehydrated

  predicate PayloadReasoning(raw: seq<Msg>) {
    exists i | 0 <= i < |raw| :: raw[i].role == "assistant" && raw[i].hasReasoning
  }

  predicate IsCachedTurn(cache: seq<Entry>, m: Msg) {
    IsToolTurn(m) && Hit(cache, m.toolIds).Some?
  }

  /** The turns below k that have cached blocks, in order. */
  function CachedTurns(cache: seq<Entry>, raw: seq<Msg>, k: nat): (r: seq<nat>)
    requires k <= |raw|
    ensures forall i | 0 <= i < |r| :: r[i] < k && IsCachedTurn(cache, raw[r[i]])
    ensures forall i, j | 0 <= i < j < |r| :: r[i] < r[j]
    ensures forall i: nat | i < k && IsCachedTurn(cache, raw[i]) :: i in r
  {
    if k == 0 then []
    else
      var r := CachedTurns(cache, raw, k - 1);
      if IsCachedTurn(cache, raw[k - 1]) then Push(r, k - 1) else r
  }

  function Push(s: seq<nat>, x: nat): (r: seq<nat>)
    ensures r == s + [x] && (forall y | y in s :: y in r) && x in r
  {
    var r := s + [x];
    assert r[|s|] == x;
    r
  }

  /** The first of them or one of the last three. */
  predicate KeptTurn(turns: seq<nat>, i: nat) {
    exists x | 0 <= x < |turns| :: turns[x] == i && (x == 0 || x + KEEP_RECENT >= |turns|)
  }

  predicate Chosen(cache: seq<Entry>, thoughts: bool, raw: seq<Msg>, i: nat)
    requires i < |raw|
  {
    thoughts && cache != [] && IsToolTurn(raw[i])
    && if PayloadReasoning(raw) then raw[i].hasReasoning else KeptTurn(CachedTurns(cache, raw, |raw|), i)
  }

  /** The blocks message i is given back. */
  function CachedFor(cache: seq<Entry>, thoughts: bool, raw: seq<Msg>, i: nat): seq<Cached>
    requires i < |raw|
  {
    if Chosen(cache, thoughts, raw, i) && Hit(cache, raw[i].toolIds).Some? then Hit(cache, raw[i].toolIds).value else []
  }

  /** Without reasoning in the payload the rehydrated turns are exactly the first cached one and the last three. */
  lemma RehydratedTurns(cache: seq<Entry>, thoughts: bool, raw: seq<Msg>, i: nat)
    requires Sound(cache) && i < |raw| && !PayloadReasoning(raw)
    ensures CachedFor(cache, thoughts, raw, i) != [] <==>
              thoughts && KeptTurn(CachedTurns(cache, raw, |raw|), i)
  {
    hide PayloadReasoning;
    HitSound(cache, raw[i].toolIds);
    if KeptTurn(CachedTurns(cache, raw, |raw|), i) {
      var turns := CachedTurns(cache, raw, |raw|);
      var x :| 0 <= x < |turns| && turns[x] == i;
      assert IsCachedTurn(cache, raw[turns[x]]);
    }
    hide CachedTurns, KeptTurn;
  }

  lemma {:induction false} HitSound(cache: seq<Entry>, ids: seq<string>)
    requires Sound(cache)
    ensures Hit(cache, ids).Some? ==> cache != [] && Hit(cache, ids).value != []
  {
    if ids != [] { HitSound(cache, ids[1..]); }
  }

  // ---------------------------------------------------------------- merging

  predicate SameThinking(a: Block, b: Block) {
    || (a.Thinking? && b.Thinking? && a.signature == b.signature)
    || (a.Redacted? && b.Redacted? && a.data == b.data)
  }

  predicate Repeats(existing: seq<Block>, b: Block) {
    exists e | e in existing :: SameThinking(e, b)
  }

  /** stripDuplicateThinkingBlocks: thinking blocks the turn already has are left out. */
  function Strip(existing: seq<Block>, incoming: seq<Block>): seq<Block> {
    if incoming == [] then []
    else (if Repeats(existing, incoming[0]) then [] else [incoming[0]]) + Strip(existing, incoming[1..])
  }

  method StripDuplicateThinkingBlocks(existing: seq<Block>, incoming: seq<Block>) returns (filtered: seq<Block>)
    ensures filtered == Strip(existing, incoming)
  {
    filtered := [];
    var i := 0;
    assert incoming[0..] == incoming;
    while i < |incoming|
      invariant 0 <= i <= |incoming| && filtered + Strip(existing, incoming[i..]) == Strip(existing, incoming)
    {
      var b := incoming[i];
      assert incoming[i..][1..] == incoming[i + 1..];
      var dup := false;
      if !b.Plain? {
        var j := 0;
        while j < |existing| && !dup
          invariant 0 <= j <= |existing| && (dup ==> Repeats(existing, b))
          invariant !dup ==> forall k | 0 <= k < j :: !SameThinking(existing[k], b)
        {
          if SameThinking(existing[j], b) { dup := true; }
          j := j + 1;
        }
      }
      if !dup { filtered := filtered + [b]; }
      i := i + 1;
    }
  }

  /** One more message behind the turns. */
  function AddTurn(turns: seq<Turn>, role: string, blocks: seq<Block>, cached: bool): seq<Turn> {
    if blocks == [] then turns
    else if turns != [] && turns[|turns| - 1].role == role then
      var last := turns[|turns| - 1];
      var added := if role == "assistant" && cached then Strip(last.content, blocks) else blocks;
      turns[|turns| - 1 := Turn(role, last.content + added)]
    else turns + [Turn(role, blocks)]
  }

  function BlocksFor(cache: seq<Entry>, thoughts: bool, raw: seq<Msg>, i: nat): seq<Block>
    requires i < |raw|
  {
    Convert(raw[i], CachedFor(cache, thoughts, raw, i))
  }

  /** The turns of the first k messages. */
  function Merged(cache: seq<Entry>, thoughts: bool, raw: seq<Msg>, k: nat): seq<Turn>
    requires k <= |raw|
  {
    if k == 0 then []
    else
      AddTurn(Merged(cache, thoughts, raw, k - 1), RoleOf(raw[k - 1]), BlocksFor(cache, thoughts, raw, k - 1),
              CachedFor(cache, thoughts, raw, k - 1) != [])
  }

  const HELLO := Turn("user", [Plain("Hello")])

  function Greeted(turns: seq<Turn>): seq<Turn> {
    if turns != [] && turns[0].role != "user" then [HELLO] + turns else turns
  }

  function Translated(cache: seq<Entry>, thoughts: bool, raw: seq<Msg>): seq<Turn> {
    Greeted(Merged(cache, thoughts, raw, |raw|))
  }

  /** The turns that are sent: no trailing assistant turn when the model thinks, and never none at all. */
  function Sent(cache: seq<Entry>, thoughts: bool, thinking: bool, raw: seq<Msg>): seq<Turn> {
    var t := Translated(cache, thoughts, raw);
    var u := if thinking && t != [] && t[|t| - 1].role == "assistant" then t[..|t| - 1] else t;
    if u == [] then [HELLO] else u
  }

  // ---------------------------------------------------------------- the methods

  /** The loop over the tool calls of a message. */
  method Lookup(cache: ThinkingBlockCache, ids: seq<string>) returns (r: Option<seq<Cached>>)
    requires cache.Valid()
    ensures r == Hit(cache.contents, ids)
  {
    var j := 0;
    assert ids[0..] == ids;
    while j < |ids|
      invariant 0 <= j <= |ids| && Hit(cache.contents, ids[j..]) == Hit(cache.contents, ids)
    {
      var cb := cache.Get(ids[j]);
      assert ids[j..][1..] == ids[j + 1..];
      if cb.Some? { return cb; }
      j := j + 1;
    }
    return None;
  }

  /** The first cached turn and a ring of the three latest. */
  ghost predicate Ring(turns: seq<nat>, kickoff: int, recent: seq<int>) {
    && |recent| == KEEP_RECENT
    && kickoff == (if turns == [] then -1 else turns[0])
    && forall s | 0 <= s < KEEP_RECENT :: SlotOk(turns, recent[s], s)
  }

  /** Slot s holds the one of the three latest turns that belongs there. */
  ghost predicate SlotOk(turns: seq<nat>, v: int, s: int) {
    || (v == -1 && |turns| <= s)
    || exists x :: 0 <= x < |turns| && x + KEEP_RECENT >= |turns| && x % KEEP_RECENT == s && v == turns[x]
  }

  lemma SlotPush(turns: seq<nat>, v: int, s: int, i: nat)
    requires SlotOk(turns, v, s) && 0 <= s < KEEP_RECENT
    ensures SlotOk(Push(turns, i), if s == |turns| % KEEP_RECENT then i else v, s)
  {
    var n, r := |turns|, Push(turns, i);
    if s == n % KEEP_RECENT {
      assert 0 <= n < |r| && n + KEEP_RECENT >= |r| && i == r[n];
    } else if !(v == -1 && n <= s) {
      var x :| 0 <= x < n && x + KEEP_RECENT >= n && x % KEEP_RECENT == s && v == turns[x];
      assert x + KEEP_RECENT != n;
      assert 0 <= x < |r| && x + KEEP_RECENT >= |r| && v == r[x];
    }
  }

  lemma RingPush(turns: seq<nat>, kickoff: int, recent: seq<int>, i: nat)
    requires Ring(turns, kickoff, recent)
    ensures |recent| == KEEP_RECENT
    ensures Ring(Push(turns, i), if kickoff == -1 then i else kickoff, recent[|turns| % KEEP_RECENT := i])
  {
    hide SlotOk;
    var next := recent[|turns| % KEEP_RECENT := i];
    forall s | 0 <= s < KEEP_RECENT ensures SlotOk(Push(turns, i), next[s], s) {
      SlotPush(turns, recent[s], s, i);
    }
    assert turns != [] ==> Push(turns, i)[0] == turns[0];
  }

  lemma RingSlot(turns: seq<nat>, kickoff: int, recent: seq<int>, s: nat, i: nat)
    requires Ring(turns, kickoff, recent) && s < KEEP_RECENT && recent[s] == i
    ensures KeptTurn(turns, i)
  {
    assert SlotOk(turns, recent[s], s);
    var x :| 0 <= x < |turns| && x + KEEP_RECENT >= |turns| && x % KEEP_RECENT == s && recent[s] == turns[x];
    assert turns[x] == i;
  }

  lemma SlotTells(turns: seq<nat>, recent: seq<int>, x: nat)
    requires |recent| == KEEP_RECENT && (forall s | 0 <= s < KEEP_RECENT :: SlotOk(turns, recent[s], s))
    requires x < |turns| && x + KEEP_RECENT >= |turns|
    ensures turns[x] == recent[0] || turns[x] == recent[1] || turns[x] == recent[2]
  {
    var s := x % KEEP_RECENT;
    assert SlotOk(turns, recent[s], s);
    var y :| 0 <= y < |turns| && y + KEEP_RECENT >= |turns| && y % KEEP_RECENT == s && recent[s] == turns[y];
    SameSlot(x, y, |turns|);
    assert s == 0 || s == 1 || s == 2;
  }

  lemma SameSlot(x: nat, y: nat, n: nat)
    requires x < n <= x + KEEP_RECENT && y < n <= y + KEEP_RECENT && x % KEEP_RECENT == y % KEEP_RECENT
    ensures x == y
  {
  }

  /** The ring answers which turns are kept. */
  lemma RingTells(turns: seq<nat>, kickoff: int, recent: seq<int>, i: nat)
    requires Ring(turns, kickoff, recent)
    ensures |recent| == KEEP_RECENT
    ensures (i == kickoff || i == recent[0] || i == recent[1] || i == recent[2]) <==> KeptTurn(turns, i)
  {
    hide SlotOk;
    if KeptTurn(turns, i) {
      var x :| 0 <= x < |turns| && turns[x] == i && (x == 0 || x + KEEP_RECENT >= |turns|);
      if x > 0 { SlotTells(turns, recent, x); }
    }
    if kickoff == i { assert turns[0] == i; }
    if recent[0] == i { RingSlot(turns, kickoff, recent, 0, i); }
    if recent[1] == i { RingSlot(turns, kickoff, recent, 1, i); }
    if recent[2] == i { RingSlot(turns, kickoff, recent, 2, i); }
  }

  /** Which turns to rehydrate when the client sent no reasoning. */
  method RecentTurns(raw: seq<Msg>, cache: ThinkingBlockCache) returns (kickoff: int, recent: seq<int>)
    requires cache.Valid()
    ensures Ring(CachedTurns(cache.contents, raw, |raw|), kickoff, recent)
  {
    kickoff, recent := -1, [-1, -1, -1];
    var count, i := 0, 0;
    hide Ring, Hit;
    RingEmpty();
    while i < |raw|
      invariant 0 <= i <= |raw| && count == |CachedTurns(cache.contents, raw, i)|
      invariant Ring(CachedTurns(cache.contents, raw, i), kickoff, recent)
    {
      if IsToolTurn(raw[i]) {
        var hit := Lookup(cache, raw[i].toolIds);
        if hit.Some? {
          RingPush(CachedTurns(cache.contents, raw, i), kickoff, recent, i);
          RingSize(CachedTurns(cache.contents, raw, i), kickoff, recent);
          if kickoff == -1 { kickoff := i; }
          recent := recent[count % KEEP_RECENT := i];
          count := count + 1;
        }
      }
      i := i + 1;
    }
  }

  lemma RingEmpty()
    ensures Ring([], -1, [-1, -1, -1])
  {
  }

  lemma RingSize(turns: seq<nat>, kickoff: int, recent: seq<int>)
    requires Ring(turns, kickoff, recent)
    ensures |recent| == KEEP_RECENT
  {
  }

  /** What the first pass finds out about rehydration. */
  datatype Plan = Plan(hasCache: bool, payload: bool, kickoff: int, recent: seq<int>)

  ghost predicate PlanOk(list: seq<Entry>, thoughts: bool, raw: seq<Msg>, p: Plan) {
    && |p.recent| == KEEP_RECENT
    && (p.hasCache <==> thoughts && list != [])
    && (p.payload <==> PayloadReasoning(raw))
    && (p.hasCache && !p.payload ==> Ring(CachedTurns(list, raw, |raw|), p.kickoff, p.recent))
  }

  method MakePlan(raw: seq<Msg>, thoughts: bool, cache: ThinkingBlockCache) returns (p: Plan)
    requires cache.Valid()
    ensures PlanOk(cache.contents, thoughts, raw, p)
  {
    hide CachedTurns, Ring, PayloadReasoning;
    var n := cache.Len();
    p := Plan(thoughts && n > 0, PayloadReasoning(raw), -1, [-1, -1, -1]);
    if p.hasCache && !p.payload {
      var kickoff, recent := RecentTurns(raw, cache);
      RingSize(CachedTurns(cache.contents, raw, |raw|), kickoff, recent);
      p := p.(kickoff := kickoff, recent := recent);
    }
  }

  method TranslateMessagesFast(raw: seq<Msg>, thoughts: bool, cache: ThinkingBlockCache) returns (translated: seq<Turn>)
    requires cache.Valid()
    ensures translated == Translated(cache.contents, thoughts, raw)
  {
    hide *;
    var plan := MakePlan(raw, thoughts, cache);
    translated := MergeMessages(raw, thoughts, cache, plan);
    TranslatedIs(cache.contents, thoughts, raw);
    if |translated| > 0 && translated[0].role != "user" {
      translated := [HELLO] + translated;
    }
  }

  /** The loop over the messages. */
  method MergeMessages(raw: seq<Msg>, thoughts: bool, cache: ThinkingBlockCache, plan: Plan) returns (translated: seq<Turn>)
    requires cache.Valid() && PlanOk(cache.contents, thoughts, raw, plan)
    ensures translated == Merged(cache.contents, thoughts, raw, |raw|)
  {
    hide *;
    MergedNone(cache.contents, thoughts, raw);
    translated := [];
    var i := 0;
    while i < |raw|
      invariant 0 <= i <= |raw| && translated == Merged(cache.contents, thoughts, raw, i)
    {
      var cached := BlocksOf(raw, i, cache, thoughts, plan);
      MergedStep(cache.contents, thoughts, raw, i);
      translated := AddMessage(translated, raw[i], cached);
      i := i + 1;
    }
  }

  lemma TranslatedIs(cache: seq<Entry>, thoughts: bool, raw: seq<Msg>)
    ensures var t := Merged(cache, thoughts, raw, |raw|);
            Translated(cache, thoughts, raw) == if t != [] && t[0].role != "user" then [HELLO] + t else t
  {
    hide Merged;
  }

  /** One turn of the loop: merge into the last turn, or begin a new one. */
  method AddMessage(turns: seq<Turn>, m: Msg, cached: seq<Cached>) returns (translated: seq<Turn>)
    ensures translated == AddTurn(turns, RoleOf(m), Convert(m, cached), cached != [])
  {
    hide Strip, Convert;
    translated := turns;
    var blocks := Convert(m, cached);
    if |blocks| > 0 {
      var role := if m.role == "tool" then "user" else m.role;
      if |translated| > 0 && translated[|translated| - 1].role == role {
        var last := translated[|translated| - 1];
        if role == "assistant" && |cached| > 0 {
          blocks := StripDuplicateThinkingBlocks(last.content, blocks);
        }
        translated := translated[|translated| - 1 := Turn(role, last.content + blocks)];
      } else {
        translated := translated + [Turn(role, blocks)];
      }
    }
  }

  lemma MergedNone(cache: seq<Entry>, thoughts: bool, raw: seq<Msg>)
    ensures Merged(cache, thoughts, raw, 0) == []
  {
  }

  lemma MergedStep(cache: seq<Entry>, thoughts: bool, raw: seq<Msg>, k: nat)
    requires k < |raw|
    ensures var c := CachedFor(cache, thoughts, raw, k);
            Merged(cache, thoughts, raw, k + 1) ==
            AddTurn(Merged(cache, thoughts, raw, k), RoleOf(raw[k]), Convert(raw[k], c), c != [])
  {
  }

  /** The cached blocks message i is given back. */
  method BlocksOf(raw: seq<Msg>, i: nat, cache: ThinkingBlockCache, thoughts: bool, plan: Plan) returns (cached: seq<Cached>)
    requires cache.Valid() && i < |raw| && PlanOk(cache.contents, thoughts, raw, plan)
    ensures cached == CachedFor(cache.contents, thoughts, raw, i)
  {
    hide CachedTurns, Ring, KeptTurn, Hit, PayloadReasoning;
    cached := [];
    if plan.hasCache && IsToolTurn(raw[i]) {
      if !plan.payload { RingTells(CachedTurns(cache.contents, raw, |raw|), plan.kickoff, plan.recent, i); }
      var rehydrate :=
        if plan.payload then raw[i].hasReasoning
        else i == plan.kickoff || i == plan.recent[0] || i == plan.recent[1] || i == plan.recent[2];
      if rehydrate {
        var hit := Lookup(cache, raw[i].toolIds);
        if hit.Some? { cached := hit.value; }
      }
    }
  }

  /** The end of BuildUpstreamRequest: the prefill is dropped, and an empty conversation greets. */
  method BuildMessages(raw: seq<Msg>, thoughts: bool, thinking: bool, cache: ThinkingBlockCache) returns (turns: seq<Turn>)
    requires cache.Valid()
    ensures turns == Sent(cache.contents, thoughts, thinking, raw)
  {
    turns := TranslateMessagesFast(raw, thoughts, cache);
    if thinking {
      if |turns| > 0 && turns[|turns| - 1].role == "assistant" {
        turns := turns[..|turns| - 1];
      }
    }
    if |turns| == 0 { turns := [HELLO]; }
  }

  // ---------------------------------------------------------------- the shape of the turns

  ghost predicate Alternating(turns: seq<Turn>) {
    && (forall i | 0 <= i < |turns| :: turns[i].content != [])
    && (forall i | 0 < i < |turns| :: turns[i].role != turns[i - 1].role)
  }

  lemma AddTurnAlternates(turns: seq<Turn>, role: string, blocks: seq<Block>, cached: bool)
    requires Alternating(turns)
    ensures Alternating(AddTurn(turns, role, blocks, cached))
  {
    hide Strip;
  }

  lemma {:induction false} MergedAlternates(cache: seq<Entry>, thoughts: bool, raw: seq<Msg>, k: nat)
    requires k <= |raw|
    ensures Alternating(Merged(cache, thoughts, raw, k))
  {
    hide AddTurn, BlocksFor, CachedFor, Alternating;
    if k == 0 {
      NoTurns();
    } else {
      MergedAlternates(cache, thoughts, raw, k - 1);
      AddTurnAlternates(Merged(cache, thoughts, raw, k - 1), RoleOf(raw[k - 1]), BlocksFor(cache, thoughts, raw, k - 1),
                        CachedFor(cache, thoughts, raw, k - 1) != []);
    }
  }

  lemma NoTurns()
    ensures Alternating([])
  {
  }

  lemma GreetedAlternates(turns: seq<Turn>)
    requires Alternating(turns)
    ensures var g := Greeted(turns); Alternating(g) && (g != [] ==> g[0].role == "user")
  {
  }

  lemma PrefixAlternates(turns: seq<Turn>)
    requires Alternating(turns) && turns != []
    ensures Alternating(turns[..|turns| - 1])
    ensures |turns| > 1 ==> turns[..|turns| - 1][|turns| - 2].role != turns[|turns| - 1].role
  {
  }

  lemma HelloAlternates()
    ensures Alternating([HELLO]) && HELLO.role == "user" && "user" != "assistant"
  {
    var s := [HELLO];
    assert s[0].content[0] == Plain("Hello");
  }

  /** What is sent starts with the user, alternates, has no empty turn, and is never empty itself. */
  lemma SentIsWellFormed(cache: seq<Entry>, thoughts: bool, thinking: bool, raw: seq<Msg>)
    ensures var s := Sent(cache, thoughts, thinking, raw);
            && s != [] && s[0].role == "user" && Alternating(s)
            && (thinking ==> s[|s| - 1].role != "assistant")
  {
    hide Merged, Alternating, Greeted;
    MergedAlternates(cache, thoughts, raw, |raw|);
    GreetedAlternates(Merged(cache, thoughts, raw, |raw|));
    var t := Translated(cache, thoughts, raw);
    if t != [] { PrefixAlternates(t); }
    HelloAlternates();
  }

  // ---------------------------------------------------------------- nothing is lost

  /** The blocks of the turns with their roles. */
  function Tagged(turns: seq<Turn>): seq<(string, Block)> {
    if turns == [] then []
    else Tagged(turns[..|turns| - 1]) + WithRole(turns[|turns| - 1].role, turns[|turns| - 1].content)
  }

  function WithRole(role: string, blocks: seq<Block>): (r: seq<(string, Block)>)
    ensures |r| == |blocks|
  {
    seq(|blocks|, i requires 0 <= i < |blocks| => (role, blocks[i]))
  }

  /** The blocks of the first k messages with their roles. */
  function Given(cache: seq<Entry>, thoughts: bool, raw: seq<Msg>, k: nat): seq<(string, Block)>
    requires k <= |raw|
  {
    if k == 0 then []
    else Given(cache, thoughts, raw, k - 1) + WithRole(RoleOf(raw[k - 1]), BlocksFor(cache, thoughts, raw, k - 1))
  }

  function PlainOnly(s: seq<(string, Block)>): seq<(string, Block)> {
    if s == [] then [] else PlainOnly(s[..|s| - 1]) + if s[|s| - 1].1.Plain? then [s[|s| - 1]] else []
  }

  lemma {:induction false} PlainOnlyAppend(a: seq<(string, Block)>, b: seq<(string, Block)>)
    ensures PlainOnly(a + b) == PlainOnly(a) + PlainOnly(b)
    decreases |b|
  {
    if b == [] {
      assert a + b == a;
    } else {
      var n := |b| - 1;
      assert (a + b)[..|a| + n] == a + b[..n] && (a + b)[|a| + n] == b[n];
      PlainOnlyAppend(a, b[..n]);
      assert PlainOnly(a) + (PlainOnly(b[..n]) + if b[n].1.Plain? then [b[n]] else []) ==
             PlainOnly(a) + PlainOnly(b[..n]) + if b[n].1.Plain? then [b[n]] else [];
    }
  }

  lemma WithRoleAppend(role: string, a: seq<Block>, b: seq<Block>)
    ensures WithRole(role, a + b) == WithRole(role, a) + WithRole(role, b)
  {
  }

  lemma {:induction false} StripKeepsPlain(role: string, existing: seq<Block>, incoming: seq<Block>)
    ensures PlainOnly(WithRole(role, Strip(existing, incoming))) == PlainOnly(WithRole(role, incoming))
  {
    if incoming != [] {
      var b, t := incoming[0], incoming[1..];
      StripKeepsPlain(role, existing, t);
      assert incoming == [b] + t;
      WithRoleAppend(role, [b], t);
      WithRoleAppend(role, if Repeats(existing, b) then [] else [b], Strip(existing, t));
      PlainOnlyAppend(WithRole(role, [b]), WithRole(role, t));
      PlainOnlyAppend(WithRole(role, if Repeats(existing, b) then [] else [b]), WithRole(role, Strip(existing, t)));
      PlainOne(role, b, Repeats(existing, b));
    }
  }

  lemma PlainOne(role: string, b: Block, repeats: bool)
    requires repeats ==> !b.Plain?
    ensures PlainOnly(WithRole(role, if repeats then [] else [b])) == PlainOnly(WithRole(role, [b]))
  {
    var s := WithRole(role, [b]);
    assert s == [(role, b)] && s[..0] == [];
    assert WithRole(role, []) == [];
  }

  /** What one message adds to the blocks of the turns. */
  lemma AddTurnTagged(turns: seq<Turn>, role: string, blocks: seq<Block>, cached: bool)
    ensures var merge := turns != [] && turns[|turns| - 1].role == role && role == "assistant" && cached;
            Tagged(AddTurn(turns, role, blocks, cached)) ==
            Tagged(turns) + WithRole(role, if merge then Strip(turns[|turns| - 1].content, blocks) else blocks)
  {
    hide Strip;
    var r := AddTurn(turns, role, blocks, cached);
    if blocks == [] {
      assert WithRole(role, []) == [];
      assert Tagged(turns) + [] == Tagged(turns);
      StripNothing(if turns == [] then [] else turns[|turns| - 1].content);
    } else if turns != [] && turns[|turns| - 1].role == role {
      var last := turns[|turns| - 1];
      var added := if role == "assistant" && cached then Strip(last.content, blocks) else blocks;
      assert r[..|r| - 1] == turns[..|turns| - 1];
      WithRoleAppend(role, last.content, added);
      assert Tagged(turns[..|turns| - 1]) + (WithRole(role, last.content) + WithRole(role, added)) ==
             Tagged(turns) + WithRole(role, added);
    } else {
      assert r[..|r| - 1] == turns;
    }
  }

  lemma StripNothing(existing: seq<Block>)
    ensures Strip(existing, []) == []
  {
  }

  /** Merging keeps every block that is not thinking, with its role and in order. */
  lemma {:induction false} MergedKeepsPlain(cache: seq<Entry>, thoughts: bool, raw: seq<Msg>, k: nat)
    requires k <= |raw|
    ensures PlainOnly(Tagged(Merged(cache, thoughts, raw, k))) == PlainOnly(Given(cache, thoughts, raw, k))
  {
    hide AddTurn, BlocksFor, CachedFor, PlainOnly, Strip, WithRole;
    if k > 0 {
      MergedKeepsPlain(cache, thoughts, raw, k - 1);
      var turns, role, blocks := Merged(cache, thoughts, raw, k - 1), RoleOf(raw[k - 1]), BlocksFor(cache, thoughts, raw, k - 1);
      var cached := CachedFor(cache, thoughts, raw, k - 1) != [];
      AddTurnTagged(turns, role, blocks, cached);
      var had := if turns == [] then [] else turns[|turns| - 1].content;
      StripKeepsPlain(role, had, blocks);
      PlainOnlyAppend(Tagged(turns), WithRole(role, blocks));
      PlainOnlyAppend(Tagged(turns), WithRole(role, Strip(had, blocks)));
      PlainOnlyAppend(Given(cache, thoughts, raw, k - 1), WithRole(role, blocks));
    }
  }

  /** The same content: equal, or thinking with the same signature or data. */
  predicate Stands(s: seq<(string, Block)>, role: string, b: Block) {
    exists t | t in s :: t.0 == role && (t.1 == b || SameThinking(t.1, b))
  }

  lemma {:induction false} StripStands(role: string, existing: seq<Block>, incoming: seq<Block>, b: Block)
    requires b in incoming
    ensures Repeats(existing, b) || b in Strip(existing, incoming)
  {
    if incoming[0] != b {
      assert b in incoming[1..];
      StripStands(role, existing, incoming[1..], b);
    }
  }

  lemma {:induction false} StripIn(existing: seq<Block>, incoming: seq<Block>, b: Block)
    requires b in Strip(existing, incoming)
    ensures b in incoming
  {
    if incoming != [] && b in Strip(existing, incoming[1..]) { StripIn(existing, incoming[1..], b); }
  }

  lemma InWithRole(role: string, blocks: seq<Block>, b: Block)
    ensures b in blocks <==> (role, b) in WithRole(role, blocks)
    ensures forall t | t in WithRole(role, blocks) :: t.0 == role
  {
    if b in blocks {
      var i :| 0 <= i < |blocks| && blocks[i] == b;
      assert WithRole(role, blocks)[i] == (role, b);
    }
  }

  lemma TaggedLast(turns: seq<Turn>, b: Block)
    requires turns != [] && b in turns[|turns| - 1].content
    ensures (turns[|turns| - 1].role, b) in Tagged(turns)
  {
    InWithRole(turns[|turns| - 1].role, turns[|turns| - 1].content, b);
  }

  /** Every block of a message stands in the turns. */
  lemma {:induction false} MergedStands(cache: seq<Entry>, thoughts: bool, raw: seq<Msg>, k: nat, t: (string, Block))
    requires k <= |raw| && t in Given(cache, thoughts, raw, k)
    ensures Stands(Tagged(Merged(cache, thoughts, raw, k)), t.0, t.1)
  {
    hide AddTurn, BlocksFor, CachedFor, Strip, WithRole, Tagged, Stands;
    if k > 0 {
      var before := t in Given(cache, thoughts, raw, k - 1);
      if before { MergedStands(cache, thoughts, raw, k - 1, t); }
      AddedStands(Merged(cache, thoughts, raw, k - 1), RoleOf(raw[k - 1]), BlocksFor(cache, thoughts, raw, k - 1),
                  CachedFor(cache, thoughts, raw, k - 1) != [], t, before);
    }
  }

  /** The turns hold nothing but blocks of the messages. */
  lemma {:induction false} MergedInvents(cache: seq<Entry>, thoughts: bool, raw: seq<Msg>, k: nat, t: (string, Block))
    requires k <= |raw| && t in Tagged(Merged(cache, thoughts, raw, k))
    ensures t in Given(cache, thoughts, raw, k)
  {
    hide AddTurn, BlocksFor, CachedFor, Strip, WithRole, Tagged;
    if k == 0 {
      TaggedNothing();
    } else {
      AddedGiven(Merged(cache, thoughts, raw, k - 1), RoleOf(raw[k - 1]), BlocksFor(cache, thoughts, raw, k - 1),
                 CachedFor(cache, thoughts, raw, k - 1) != [], t);
      if t in Tagged(Merged(cache, thoughts, raw, k - 1)) { MergedInvents(cache, thoughts, raw, k - 1, t); }
    }
  }

  lemma TaggedNothing()
    ensures Tagged([]) == []
  {
  }

  lemma AddedStands(turns: seq<Turn>, role: string, blocks: seq<Block>, cached: bool, t: (string, Block), before: bool)
    requires if before then Stands(Tagged(turns), t.0, t.1) else t in WithRole(role, blocks)
    ensures Stands(Tagged(AddTurn(turns, role, blocks, cached)), t.0, t.1)
  {
    hide AddTurn, Tagged, Strip, WithRole;
    AddTurnTagged(turns, role, blocks, cached);
    if !before {
      InWithRole(role, blocks, t.1);
      var had := if turns == [] then [] else turns[|turns| - 1].content;
      StripStands(role, had, blocks, t.1);
      InWithRole(role, Strip(had, blocks), t.1);
      if turns != [] && turns[|turns| - 1].role == role && role == "assistant" && cached && Repeats(had, t.1) {
        var e :| e in had && SameThinking(e, t.1);
        TaggedLast(turns, e);
        assert (role, e) in Tagged(turns);
      }
    }
  }

  lemma AddedGiven(turns: seq<Turn>, role: string, blocks: seq<Block>, cached: bool, t: (string, Block))
    requires t in Tagged(AddTurn(turns, role, blocks, cached))
    ensures t in Tagged(turns) || t in WithRole(role, blocks)
  {
    hide AddTurn, Tagged, Strip, WithRole;
    AddTurnTagged(turns, role, blocks, cached);
    if t !in Tagged(turns) {
      var had := if turns == [] then [] else turns[|turns| - 1].content;
      InWithRole(role, blocks, t.1);
      InWithRole(role, Strip(had, blocks), t.1);
      if t.1 in Strip(had, blocks) { StripIn(had, blocks, t.1); }
    }
  }

  // ---------------------------------------------------------------- exactly what is sent

  /** What the messages below k gave to the turn that a message with this role would join; one without blocks does not count. */
  ghost function SoFar(cache: seq<Entry>, thoughts: bool, raw: seq<Msg>, k: nat, role: string): seq<Block>
    requires k <= |raw|
  {
    if k == 0 then []
    else
      var blocks := BlocksFor(cache, thoughts, raw, k - 1);
      if blocks == [] then SoFar(cache, thoughts, raw, k - 1, role)
      else if RoleOf(raw[k - 1]) == role then SoFar(cache, thoughts, raw, k - 1, role) + blocks
      else []
  }

  /** All blocks of the first k messages in order, without the thinking that an earlier message of the same turn gave. */
  ghost function GivenOnce(cache: seq<Entry>, thoughts: bool, raw: seq<Msg>, k: nat): seq<(string, Block)>
    requires k <= |raw|
  {
    if k == 0 then []
    else
      var role := RoleOf(raw[k - 1]);
      GivenOnce(cache, thoughts, raw, k - 1)
      + WithRole(role, Strip(SoFar(cache, thoughts, raw, k - 1, role), BlocksFor(cache, thoughts, raw, k - 1)))
  }

  lemma RepeatsPlain(existing: seq<Block>, blocks: seq<Block>)
    requires forall b | b in blocks :: b.Plain?
    ensures Strip(existing, blocks) == blocks
  {
    if blocks != [] {
      assert blocks[0] in blocks;
      RepeatsPlain(existing, blocks[1..]);
      assert [blocks[0]] + blocks[1..] == blocks;
    }
  }

  lemma RepeatsAppend(a: seq<Block>, b: seq<Block>, x: Block)
    ensures Repeats(a + b, x) <==> Repeats(a, x) || Repeats(b, x)
  {
    if Repeats(a, x) {
      var e :| e in a && SameThinking(e, x);
      assert e in a + b;
    }
    if Repeats(b, x) {
      var e :| e in b && SameThinking(e, x);
      assert e in a + b;
    }
  }

  /** What was left out is represented by what was there. */
  lemma RepeatsStripped(had: seq<Block>, blocks: seq<Block>, x: Block)
    ensures Repeats(had + Strip(had, blocks), x) <==> Repeats(had, x) || Repeats(blocks, x)
  {
    RepeatsAppend(had, Strip(had, blocks), x);
    if Repeats(blocks, x) {
      var e :| e in blocks && SameThinking(e, x);
      StripStands("", had, blocks, e);
      if Repeats(had, e) {
        var d :| d in had && SameThinking(d, e);
        assert SameThinking(d, x);
      }
    }
    if Repeats(Strip(had, blocks), x) {
      var e :| e in Strip(had, blocks) && SameThinking(e, x);
      StripIn(had, blocks, e);
    }
  }

  lemma {:induction false} StripSame(a: seq<Block>, b: seq<Block>, blocks: seq<Block>)
    requires forall x :: Repeats(a, x) <==> Repeats(b, x)
    ensures Strip(a, blocks) == Strip(b, blocks)
  {
    hide Repeats;
    if blocks != [] { StripSame(a, b, blocks[1..]); }
  }

  /** The last turn and what was given to it repeat the same blocks. */
  ghost predicate SameTurn(turns: seq<Turn>, role: string, given: seq<Block>) {
    if turns != [] && turns[|turns| - 1].role == role
    then forall x :: Repeats(turns[|turns| - 1].content, x) <==> Repeats(given, x)
    else given == []
  }

  /** Thinking is given to tool turns of the assistant only, and only from the cache. */
  lemma PlainUncached(m: Msg, cached: seq<Cached>)
    requires cached == [] || RoleOf(m) != "assistant"
    ensures forall b | b in Convert(m, cached) :: b.Plain?
  {
    assert IsToolTurn(m) && cached == [] ==> Rehydrated(cached) == [];
  }

  lemma NothingRepeats(x: Block)
    ensures !Repeats([], x)
  {
  }

  /** One message: what the turn repeats afterwards. */
  lemma AddedSame(turns: seq<Turn>, role: string, blocks: seq<Block>, cached: bool, given: seq<Block>, other: string, givenOther: seq<Block>)
    requires SameTurn(turns, role, given) && SameTurn(turns, other, givenOther)
    requires !(role == "assistant" && cached) ==> forall b | b in blocks :: b.Plain?
    ensures SameTurn(AddTurn(turns, role, blocks, cached), other,
                     if blocks == [] then givenOther else if other == role then given + blocks else [])
  {
    hide Strip, Repeats;
    if blocks != [] {
      var had := if turns != [] && turns[|turns| - 1].role == role then turns[|turns| - 1].content else [];
      if !(role == "assistant" && cached) { RepeatsPlain(had, blocks); }
      var now := AddTurn(turns, role, blocks, cached);
      assert now[|now| - 1].role == role;
      forall x ensures Repeats(now[|now| - 1].content, x) <==> Repeats(given + blocks, x) {
        RepeatsStripped(had, blocks, x);
        RepeatsAppend(given, blocks, x);
        NothingRepeats(x);
      }
    }
  }

  lemma {:induction false} TurnsGiven(cache: seq<Entry>, thoughts: bool, raw: seq<Msg>, k: nat, role: string)
    requires k <= |raw|
    ensures SameTurn(Merged(cache, thoughts, raw, k), role, SoFar(cache, thoughts, raw, k, role))
  {
    hide AddTurn, CachedFor, SameTurn, Convert;
    if k == 0 {
      NoTurnGiven(role);
    } else {
      var m, cached := raw[k - 1], CachedFor(cache, thoughts, raw, k - 1);
      TurnsGiven(cache, thoughts, raw, k - 1, role);
      TurnsGiven(cache, thoughts, raw, k - 1, RoleOf(m));
      if cached == [] || RoleOf(m) != "assistant" { PlainUncached(m, cached); }
      AddedSame(Merged(cache, thoughts, raw, k - 1), RoleOf(m), BlocksFor(cache, thoughts, raw, k - 1), cached != [],
                SoFar(cache, thoughts, raw, k - 1, RoleOf(m)), role, SoFar(cache, thoughts, raw, k - 1, role));
    }
  }

  lemma NoTurnGiven(role: string)
    ensures SameTurn([], role, [])
  {
  }

  /** One message: what it adds to the blocks of the turns, in terms of what was given. */
  lemma AddedOnce(turns: seq<Turn>, role: string, blocks: seq<Block>, cached: bool, given: seq<Block>)
    requires SameTurn(turns, role, given)
    requires !(role == "assistant" && cached) ==> forall b | b in blocks :: b.Plain?
    ensures Tagged(AddTurn(turns, role, blocks, cached)) == Tagged(turns) + WithRole(role, Strip(given, blocks))
  {
    hide Strip, Tagged, AddTurn, WithRole, Repeats;
    AddTurnTagged(turns, role, blocks, cached);
    if !(role == "assistant" && cached) {
      RepeatsPlain(given, blocks);
    } else if turns != [] && turns[|turns| - 1].role == role {
      StripSame(turns[|turns| - 1].content, given, blocks);
    } else {
      StripFromNothing(blocks);
    }
  }

  lemma StripFromNothing(blocks: seq<Block>)
    ensures Strip([], blocks) == blocks
  {
    if blocks != [] {
      StripFromNothing(blocks[1..]);
      assert [blocks[0]] + blocks[1..] == blocks;
    }
  }

  /**
   The turns hold exactly the blocks of the messages, with their roles, in order and as often as given,
   except for the thinking that repeats what an earlier message of the same turn gave.
   */
  lemma {:induction false} MergedExactly(cache: seq<Entry>, thoughts: bool, raw: seq<Msg>, k: nat)
    requires k <= |raw|
    ensures Tagged(Merged(cache, thoughts, raw, k)) == GivenOnce(cache, thoughts, raw, k)
  {
    hide AddTurn, CachedFor, SameTurn, Convert, Strip, WithRole, SoFar;
    if k == 0 {
      TaggedNothing();
    } else {
      var m, cached := raw[k - 1], CachedFor(cache, thoughts, raw, k - 1);
      MergedExactly(cache, thoughts, raw, k - 1);
      TurnsGiven(cache, thoughts, raw, k - 1, RoleOf(m));
      if cached == [] || RoleOf(m) != "assistant" { PlainUncached(m, cached); }
      AddedOnce(Merged(cache, thoughts, raw, k - 1), RoleOf(m), BlocksFor(cache, thoughts, raw, k - 1), cached != [],
                SoFar(cache, thoughts, raw, k - 1, RoleOf(m)));
    }
  }
}
