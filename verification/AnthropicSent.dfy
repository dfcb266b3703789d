/**
 What a conversation looks like when it is sent to Anthropic, told from the blocks of its messages
 alone: the end of BuildUpstreamRequest, translateMessagesFast, stripDuplicateThinkingBlocks and
 convertMessageContentFast (pkg/provider/anthropic.go).
 */
module AnthropicSent {
  import opened Wrappers
  import opened ThinkingCache
  import opened Anthropic

  type Said = (string, Block)

  // ---------------------------------------------------------------- what is sent, block by block

  const GREETING: Said := ("user", Plain("Hello"))

  /** The blocks without those of the last turn, when that is of this role. */
  function WithoutLast(s: seq<Said>, role: string): (r: seq<Said>)
    ensures r <= s && (forall i | |r| <= i < |s| :: s[i].0 == role) && (r != [] ==> r[|r| - 1].0 != role)
  {
    if s != [] && s[|s| - 1].0 == role then WithoutLast(s[..|s| - 1], role) else s
  }

  lemma {:induction false} WithoutLastTurn(s: seq<Said>, role: string, blocks: seq<Block>)
    ensures WithoutLast(s + WithRole(role, blocks), role) == WithoutLast(s, role)
    decreases |blocks|
  {
    var t := s + WithRole(role, blocks);
    if blocks == [] {
      assert t == s;
    } else {
      var front := blocks[..|blocks| - 1];
      assert t[..|t| - 1] == s + WithRole(role, front);
      WithoutLastTurn(s, role, front);
    }
  }

  lemma TaggedEnds(turns: seq<Turn>)
    requires turns != [] && turns[|turns| - 1].content != []
    ensures var s := Tagged(turns); s != [] && s[|s| - 1].0 == turns[|turns| - 1].role
  {
  }

  lemma {:induction false} TaggedStarts(turns: seq<Turn>)
    requires turns != [] && Alternating(turns)
    ensures var s := Tagged(turns); s != [] && s[0].0 == turns[0].role
  {
    if |turns| == 1 {
      assert turns[..0] == [];
      TaggedEnds(turns);
      assert Tagged(turns) == [] + WithRole(turns[0].role, turns[0].content);
    } else {
      PrefixAlternates(turns);
      TaggedStarts(turns[..|turns| - 1]);
    }
  }

  lemma {:induction false} TaggedHello(turns: seq<Turn>)
    ensures Tagged([HELLO] + turns) == [GREETING] + Tagged(turns)
  {
    var all := [HELLO] + turns;
    if turns == [] {
      TaggedGreeting();
      assert all == [HELLO];
      assert [GREETING] + [] == [GREETING];
    } else {
      TaggedHello(turns[..|turns| - 1]);
      assert all[..|all| - 1] == [HELLO] + turns[..|turns| - 1];
      var last := WithRole(turns[|turns| - 1].role, turns[|turns| - 1].content);
      assert [GREETING] + Tagged(turns[..|turns| - 1]) + last == [GREETING] + (Tagged(turns[..|turns| - 1]) + last);
    }
  }

  lemma TaggedGreeting()
    ensures Tagged([HELLO]) == [GREETING]
  {
    var s := [HELLO];
    assert s[..0] == [];
    assert Tagged(s) == Tagged([]) + WithRole("user", [Plain("Hello")]);
  }

  /** Dropping the last turn when it is of the role is dropping its blocks. */
  lemma DropLast(turns: seq<Turn>, role: string)
    requires Alternating(turns)
    ensures var gone := turns != [] && turns[|turns| - 1].role == role;
            Tagged(if gone then turns[..|turns| - 1] else turns) == WithoutLast(Tagged(turns), role)
  {
    if turns != [] {
      var last := turns[|turns| - 1];
      TaggedEnds(turns);
      if last.role == role {
        var front := turns[..|turns| - 1];
        WithoutLastTurn(Tagged(front), role, last.content);
        if front != [] {
          PrefixAlternates(turns);
          TaggedEnds(front);
        }
      }
    }
  }

  /**
   What is sent are the blocks the messages give, each thinking once a turn. When the model thinks, an
   assistant turn at the end goes. A greeting of the user stands in front if and only if the messages
   do not begin with the user, and alone if and only if nothing else is left.
   */
  lemma SentExactly(cache: seq<Entry>, thoughts: bool, thinking: bool, raw: seq<Msg>)
    ensures var given := GivenOnce(cache, thoughts, raw, |raw|);
            var greets := given == [] || given[0].0 != "user";
            var kept := if thinking then WithoutLast(given, "assistant") else given;
            Tagged(Sent(cache, thoughts, thinking, raw)) == (if greets then [GREETING] else []) + kept
  {
    hide GivenOnce, Merged, Alternating, Tagged, WithoutLast;
    MergedExactly(cache, thoughts, raw, |raw|);
    MergedAlternates(cache, thoughts, raw, |raw|);
    SentOf(Merged(cache, thoughts, raw, |raw|), thinking);
  }

  /** The end of BuildUpstreamRequest on alternating turns. */
  lemma SentOf(merged: seq<Turn>, thinking: bool)
    requires Alternating(merged)
    ensures var t := Greeted(merged);
            var u := if thinking && t != [] && t[|t| - 1].role == "assistant" then t[..|t| - 1] else t;
            var s := Tagged(merged);
            var kept := if thinking then WithoutLast(s, "assistant") else s;
            Tagged(if u == [] then [HELLO] else u) == (if s == [] || s[0].0 != "user" then [GREETING] else []) + kept
  {
    hide Alternating, Tagged, WithoutLast;
    assert "user" != "assistant";
    var s, kept := Tagged(merged), WithoutLast(Tagged(merged), "assistant");
    NothingTagged();
    if merged == [] {
      TaggedGreeting();
      assert [GREETING] + [] == [GREETING];
      NothingKept();
    } else {
      TaggedStarts(merged);
      DropLast(merged, "assistant");
      var gone := merged[|merged| - 1].role == "assistant";
      var rest := if gone then merged[..|merged| - 1] else merged;
      TaggedHello(merged);
      TaggedHello(rest);
      var all := [HELLO] + merged;
      assert all[..|all| - 1] == [HELLO] + merged[..|merged| - 1];
      assert [] + kept == kept && [] + s == s;
    }
  }

  lemma NothingTagged()
    ensures Tagged([]) == []
  {
  }

  lemma NothingKept()
    ensures WithoutLast([], "assistant") == []
  {
  }

  // ---------------------------------------------------------------- the blocks tell the turns

  lemma WithRoleTells(role: string, a: seq<Block>, b: seq<Block>)
    requires WithRole(role, a) == WithRole(role, b)
    ensures a == b
  {
    forall i | 0 <= i < |a| ensures a[i] == b[i] {
      assert WithRole(role, a)[i] == (role, a[i]) && WithRole(role, b)[i] == (role, b[i]);
    }
  }

  /** Of two ways to cut the same blocks into a front and a last turn, no last turn is longer. */
  lemma LastFits(a: seq<Turn>, b: seq<Turn>)
    requires a != [] && b != [] && Alternating(a) && Alternating(b) && Tagged(a) == Tagged(b)
    ensures |a[|a| - 1].content| <= |b[|b| - 1].content|
  {
    var role, n, m := a[|a| - 1].role, |Tagged(a)|, |a[|a| - 1].content|;
    var front := b[..|b| - 1];
    TaggedEnds(a);
    TaggedEnds(b);
    assert forall i | n - m <= i < n :: Tagged(a)[i].0 == role;
    if front == [] {
      NothingTagged();
    } else {
      PrefixAlternates(b);
      TaggedEnds(front);
      assert Tagged(b)[|Tagged(front)| - 1].0 == front[|front| - 1].role;
    }
  }

  /** Turns that alternate are told by their blocks: SentExactly and SentIsWellFormed leave one answer. */
  lemma {:induction false} TaggedTells(a: seq<Turn>, b: seq<Turn>)
    requires Alternating(a) && Alternating(b) && Tagged(a) == Tagged(b)
    ensures a == b
  {
    if a == [] || b == [] {
      if a != [] { TaggedEnds(a); }
      if b != [] { TaggedEnds(b); }
    } else {
      TaggedEnds(a);
      TaggedEnds(b);
      LastFits(a, b);
      LastFits(b, a);
      var x, y := a[|a| - 1], b[|b| - 1];
      CutSame(Tagged(a[..|a| - 1]), WithRole(x.role, x.content), Tagged(b[..|b| - 1]), WithRole(y.role, y.content));
      WithRoleTells(x.role, x.content, y.content);
      PrefixAlternates(a);
      PrefixAlternates(b);
      TaggedTells(a[..|a| - 1], b[..|b| - 1]);
      assert a == a[..|a| - 1] + [x] && b == b[..|b| - 1] + [y];
    }
  }

  lemma CutSame(a: seq<Said>, x: seq<Said>, b: seq<Said>, y: seq<Said>)
    requires a + x == b + y && |x| == |y|
    ensures a == b && x == y
  {
    assert (a + x)[..|a|] == a && (b + y)[..|b|] == b;
    assert (a + x)[|a|..] == x && (b + y)[|b|..] == y;
  }

  /** One of the first k messages speaks in this role; a tool speaks as the user. */
  predicate Spoken(raw: seq<Msg>, k: nat, role: string)
    requires k <= |raw|
  {
    exists i | 0 <= i < k :: role == if raw[i].role == "tool" then "user" else raw[i].role
  }

  /** Roles are those of the messages. */
  lemma {:induction false} GivenRoles(cache: seq<Entry>, thoughts: bool, raw: seq<Msg>, k: nat, t: Said)
    requires k <= |raw| && t in GivenOnce(cache, thoughts, raw, k)
    ensures Spoken(raw, k, t.0)
  {
    hide SoFar, Strip, BlocksFor, WithRole, Spoken;
    if k > 0 {
      var role := RoleOf(raw[k - 1]);
      InWithRole(role, Strip(SoFar(cache, thoughts, raw, k - 1, role), BlocksFor(cache, thoughts, raw, k - 1)), t.1);
      if t in GivenOnce(cache, thoughts, raw, k - 1) { GivenRoles(cache, thoughts, raw, k - 1, t); }
      SpokenMore(raw, k - 1, t.0);
    }
  }

  lemma SpokenMore(raw: seq<Msg>, k: nat, role: string)
    requires k < |raw|
    ensures Spoken(raw, k, role) || role == RoleOf(raw[k]) ==> Spoken(raw, k + 1, role)
  {
    if Spoken(raw, k, role) {
      var i :| 0 <= i < k && role == if raw[i].role == "tool" then "user" else raw[i].role;
      assert 0 <= i < k + 1;
    }
    if role == RoleOf(raw[k]) {
      assert role == if raw[k].role == "tool" then "user" else raw[k].role;
    }
  }

  // ---------------------------------------------------------------- repeated thinking

  /** A block goes exactly when it is thinking that the turn has, by its signature or its data; every other stays in place. */
  lemma {:induction false} StripExactly(existing: seq<Block>, a: seq<Block>, b: Block)
    ensures Strip(existing, a + [b]) == Strip(existing, a) + if RepeatsSome(existing, b) then [] else [b]
  {
    hide Strip, RepeatsSome, Repeats;
    RepeatsIs(existing, b);
    StripCons(existing, a + [b]);
    if a == [] {
      assert a + [b] == [b] && [b][1..] == [];
      StripNothing(existing);
    } else {
      assert (a + [b])[1..] == a[1..] + [b];
      StripCons(existing, a);
      StripExactly(existing, a[1..], b);
      AssocBlocks(if Repeats(existing, a[0]) then [] else [a[0]], Strip(existing, a[1..]), if Repeats(existing, b) then [] else [b]);
    }
  }

  lemma StripCons(existing: seq<Block>, s: seq<Block>)
    requires s != []
    ensures Strip(existing, s) == (if Repeats(existing, s[0]) then [] else [s[0]]) + Strip(existing, s[1..])
  {
    hide Repeats;
  }

  lemma AssocBlocks(x: seq<Block>, y: seq<Block>, z: seq<Block>)
    ensures (x + y) + z == x + (y + z)
  {
  }

  predicate RepeatsSome(existing: seq<Block>, b: Block) {
    match b
    case Plain(_) => false
    case Thinking(_, signature) => exists i | 0 <= i < |existing| :: existing[i].Thinking? && existing[i].signature == signature
    case Redacted(data) => Redacted(data) in existing
  }

  lemma RepeatsIs(existing: seq<Block>, b: Block)
    ensures Repeats(existing, b) <==> RepeatsSome(existing, b)
  {
    if Repeats(existing, b) {
      var e :| e in existing && SameThinking(e, b);
      var i :| 0 <= i < |existing| && existing[i] == e;
    }
    if RepeatsSome(existing, b) {
      match b
      case Thinking(_, signature) =>
        var i :| 0 <= i < |existing| && existing[i].Thinking? && existing[i].signature == signature;
        assert existing[i] in existing && SameThinking(existing[i], b);
      case Redacted(data) =>
        assert SameThinking(Redacted(data), b);
    }
  }

  // ---------------------------------------------------------------- the blocks of one message

  /** What the cache remembers of a block. */
  function Remembered(b: Block): Cached {
    match b
    case Thinking(text, signature) => CachedThinking(text, signature)
    case Redacted(data) => CachedRedacted(data)
    case Plain(_) => CachedOther
  }

  /** A message is the thinking it is given back, in the order of the cache, and then its own blocks. */
  lemma {:induction false} ConvertIs(m: Msg, cached: seq<Cached>)
    ensures var r := Convert(m, cached);
            var n := |r| - |m.body|;
            && n >= 0 && r[n..] == seq(|m.body|, i requires 0 <= i < |m.body| => Plain(m.body[i]))
            && Recollect(r[..n]) ==
               if m.role == "assistant" && m.toolIds != [] then KnownOnly(cached) else []
  {
    hide *;
    var x := if IsToolTurn(m) then Rehydrated(cached) else [];
    RehydratedIs(cached);
    RecollectNothing();
    ConvertParts(m, cached, x);
    FrontOf(x, PlainBlocks(m.body));
    PlainIs(m);
  }

  lemma ConvertParts(m: Msg, cached: seq<Cached>, x: seq<Block>)
    requires x == if IsToolTurn(m) then Rehydrated(cached) else []
    ensures Convert(m, cached) == x + PlainBlocks(m.body)
  {
    hide Rehydrated, PlainBlocks;
  }

  lemma PlainIs(m: Msg)
    ensures PlainBlocks(m.body) == seq(|m.body|, i requires 0 <= i < |m.body| => Plain(m.body[i]))
    ensures IsToolTurn(m) <==> m.role == "assistant" && m.toolIds != []
  {
  }

  lemma FrontOf(x: seq<Block>, y: seq<Block>)
    ensures (x + y)[..|x + y| - |y|] == x && (x + y)[|x + y| - |y|..] == y
  {
  }

  function KnownOnly(cached: seq<Cached>): seq<Cached> {
    if cached == [] then []
    else (if cached[0] == CachedOther then [] else [cached[0]]) + KnownOnly(cached[1..])
  }

  function Recollect(blocks: seq<Block>): (r: seq<Cached>)
    ensures |r| == |blocks|
  {
    seq(|blocks|, i requires 0 <= i < |blocks| => Remembered(blocks[i]))
  }

  lemma RecollectCons(b: Block, rest: seq<Block>)
    ensures Recollect([b] + rest) == [Remembered(b)] + Recollect(rest)
  {
  }

  lemma {:induction false} RehydratedIs(cached: seq<Cached>)
    ensures Recollect(Rehydrated(cached)) == KnownOnly(cached)
  {
    hide Recollect;
    if cached == [] {
      RecollectNothing();
    } else {
      var rest := Rehydrated(cached[1..]);
      RehydratedIs(cached[1..]);
      match cached[0]
      case CachedThinking(text, signature) => RecollectCons(Thinking(text, signature), rest);
      case CachedRedacted(data) => RecollectCons(Redacted(data), rest);
      case CachedOther => assert [] + rest == rest && [] + KnownOnly(cached[1..]) == KnownOnly(cached[1..]);
    }
  }

  lemma RecollectNothing()
    ensures Recollect([]) == []
  {
  }

  // ---------------------------------------------------------------- which message is given what

  /** The blocks of the entry with this key. */
  predicate Holds(cache: seq<Entry>, id: string, blocks: seq<Cached>) {
    id != "" && exists i | 0 <= i < |cache| :: cache[i] == (id, blocks)
  }

  predicate HasKey(cache: seq<Entry>, id: string) {
    id != "" && exists i | 0 <= i < |cache| :: cache[i].0 == id
  }

  /** The call behind a message is the first of its tool calls that the cache knows. */
  lemma {:induction false} HitFirst(cache: seq<Entry>, ids: seq<string>)
    ensures Hit(cache, ids).Some? <==> exists j | 0 <= j < |ids| :: HasKey(cache, ids[j])
    ensures Hit(cache, ids).Some? ==>
              exists j | 0 <= j < |ids| ::
                Holds(cache, ids[j], Hit(cache, ids).value) && forall i | 0 <= i < j :: !HasKey(cache, ids[i])
  {
    if ids != [] {
      FindHolds(cache, ids[0]);
      hide Find, Holds, HasKey;
      if Find(cache, ids[0]).Some? {
        assert Holds(cache, ids[0], Hit(cache, ids).value);
      } else {
        HitFirst(cache, ids[1..]);
        assert forall i | 0 < i < |ids| :: ids[i] == ids[1..][i - 1];
        assert forall i | 0 <= i < |ids| - 1 :: ids[1..][i] == ids[i + 1];
      }
    }
  }

  lemma FindHolds(cache: seq<Entry>, id: string)
    ensures Find(cache, id).Some? <==> HasKey(cache, id)
    ensures Find(cache, id).Some? ==> Holds(cache, id, Find(cache, id).value)
  {
    var i := IndexOf(cache, id);
    if i < |cache| { assert cache[i] == (id, cache[i].1); }
  }

  /** When the client sent reasoning, the turns that are given blocks back are the cached ones that carry some. */
  lemma RehydratedWithReasoning(cache: seq<Entry>, thoughts: bool, raw: seq<Msg>, i: nat)
    requires Sound(cache) && i < |raw| && exists j | 0 <= j < |raw| :: raw[j].role == "assistant" && raw[j].hasReasoning
    ensures CachedFor(cache, thoughts, raw, i) != [] <==>
              && thoughts && raw[i].role == "assistant" && raw[i].hasReasoning
              && exists j | 0 <= j < |raw[i].toolIds| :: HasKey(cache, raw[i].toolIds[j])
    ensures CachedFor(cache, thoughts, raw, i) != [] ==> Hit(cache, raw[i].toolIds) == Some(CachedFor(cache, thoughts, raw, i))
  {
    HitSound(cache, raw[i].toolIds);
    HitFirst(cache, raw[i].toolIds);
    hide HasKey, Hit, CachedTurns, KeptTurn;
  }
}
