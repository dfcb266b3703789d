/**
 The scanning part of modifyTopLevelPayload (pkg/server/dispatch.go) and ObjectField
 (pkg/zeroalloc/json_scan.go): cursors over the body, and the spans they report.

 The methods take any body. Their ghost frame says what they find when the body, or the part they
 look at, is a well-formed object.
 */
module PayloadScan {
  import opened Wrappers
  import opened Json
  import opened ObjectEdit
  import opened PayloadSpec

  /** memberSpan. */
  datatype Span = Span(kStart: nat, kEnd: nat, vStart: nat, vEnd: nat)

  ghost function SpanFrom(p: nat, c: Core): Span {
    var kEnd := p + |Quoted(c.key)|;
    var vStart := kEnd + |c.mid| + 1 + |c.sep|;
    Span(p, kEnd, vStart, vStart + |Print(c.val)|)
  }

  ghost function SpanAt(f: Frame, k: nat): Span
    requires k < |f.members|
  {
    SpanFrom(f.KeyPos(k), f.members[k].core)
  }

  lemma SpanEnd(f: Frame, k: nat)
    requires k < |f.members|
    ensures SpanAt(f, k).vEnd == f.EndPos(k)
  {
  }

  /** The body holds this object, with well-formed members. */
  ghost predicate Holds(body: string, f: Frame) {
    f.Ok() && body == f.Body()
  }

  method SkipSpaces(body: string, i: nat, limit: nat) returns (j: nat)
    requires i <= |body| && limit <= |body|
    ensures i <= j && (j == i || j <= limit) && j <= |body|
    ensures forall p | i <= p < j :: IsWs(body[p])
    ensures j < limit ==> !IsWs(body[j])
  {
    j := i;
    while j < limit && IsWs(body[j])
      invariant i <= j && (j == i || j <= limit)
      invariant forall p | i <= p < j :: IsWs(body[p])
    {
      j := j + 1;
    }
  }

  /** SkipValue as an offset into the body. */
  function SkipValueAt(body: string, i: nat): (r: Option<nat>)
    requires i <= |body|
    ensures r.Some? ==> i < r.value <= |body| && (body[i] == '"' ==> i + 2 <= r.value)
  {
    match SkipValue(body[i..])
    case None => None
    case Some(rest) => Some(|body| - |rest|)
  }

  lemma ValueEnd(b: string, p: nat, v: Json, z: string)
    requires At(b, p, Print(v) + z) && Valid(v) && z != "" && IsDelimiter(z[0])
    ensures SkipValueAt(b, p) == if Depth(v) <= MAX_NESTING then Some(p + |Print(v)|) else None
  {
    hide Print, Valid, Depth, SkipValue;
    assert "" + (Print(v) + z) == Print(v) + z;
    SkipValueText("", v, z);
    AtStep(b, p, Print(v), z);
  }

  lemma KeyEnd(b: string, i: nat, key: string, y: string)
    requires At(b, i, Quoted(key) + y) && ValidRaw(key)
    ensures SkipValueAt(b, i) == Some(i + |Quoted(key)|) && b[i] == '"'
    ensures i + |Quoted(key)| <= |b| && b[i + 1..i + |Quoted(key)| - 1] == key
  {
    hide *;
    SkipString(key, y);
    AtStep(b, i, Quoted(key), y);
    KeyInside(b, i, key);
    SkippedAt(b, i, Quoted(key), y);
  }

  /** SkipValue on a string literal. */
  lemma SkipString(key: string, y: string)
    requires ValidRaw(key)
    ensures SkipValue(Quoted(key) + y) == Some(y)
  {
    var s := Quoted(key) + y;
    assert s[0] == '"';
    SkipQuoted(key, y);
    SkipWsPrefix("", s);
    assert "" + s == s;
  }

  lemma KeyInside(b: string, i: nat, key: string)
    requires i + |Quoted(key)| <= |b| && b[i..i + |Quoted(key)|] == Quoted(key)
    ensures |Quoted(key)| == |key| + 2 && b[i] == '"' && b[i + 1..i + |Quoted(key)| - 1] == key
  {
    var q := Quoted(key);
    assert b[i] == b[i..i + |q|][0];
    Inside(b, i, |q|);
    assert q[1..|q| - 1] == key;
  }

  lemma Inside(b: string, i: nat, n: nat)
    requires n >= 2 && i + n <= |b|
    ensures b[i + 1..i + n - 1] == b[i..i + n][1..n - 1]
  {
    var x, y := b[i + 1..i + n - 1], b[i..i + n][1..n - 1];
    assert |x| == |y| && forall k | 0 <= k < |x| :: x[k] == y[k];
  }

  lemma SkippedAt(b: string, i: nat, x: string, y: string)
    requires At(b, i, x + y) && SkipValue(x + y) == Some(y)
    ensures SkipValueAt(b, i) == Some(i + |x|)
  {
    hide SkipValue;
    assert |b[i..]| == |x| + |y|;
  }

  lemma MemberOk(f: Frame, k: nat)
    requires f.Ok() && k < |f.members|
    ensures var m := f.members[k];
            && AllWs(m.pre) && AllWs(m.post) && AllWs(m.core.mid) && AllWs(m.core.sep)
            && ValidCore(m.core) && ValidRaw(m.core.key) && Valid(m.core.val)
  {
    assert ValidMember(f.members[k]);
    assert ValidCore(f.members[k].core);
  }

  /** What follows the value of a member is a delimiter. */
  lemma AfterDelimiter(f: Frame, k: nat)
    requires f.Ok() && k < |f.members|
    ensures f.AfterValue(k) != "" && IsDelimiter(f.AfterValue(k)[0])
  {
    MemberOk(f, k);
    if k + 1 < |f.members| { TailCons(f, k + 1); } else { TailEnd(f); }
  }

  lemma CoreAssoc(q: string, mid: string, sep: string, v: string, z: string)
    ensures (q + (mid + (":" + (sep + v)))) + z == q + (mid + (":" + (sep + (v + z))))
  {
  }

  lemma CoreSteps(b: string, p: nat, q: string, mid: string, sep: string, v: string, z: string)
    requires At(b, p, (q + (mid + (":" + (sep + v)))) + z)
    ensures At(b, p, q + (mid + (":" + (sep + (v + z)))))
    ensures At(b, p + |q|, mid + (":" + (sep + (v + z))))
    ensures At(b, p + |q| + |mid| + 1, sep + (v + z))
    ensures At(b, p + |q| + |mid| + 1 + |sep|, v + z)
    ensures At(b, p + |q| + |mid| + 1 + |sep| + |v|, z)
    ensures p + |q| + |mid| + 1 + |sep| + |v| <= |b|
    ensures b[p + |q| + |mid| + 1 + |sep|..p + |q| + |mid| + 1 + |sep| + |v|] == v
    ensures b[p + |q| + |mid|] == ':'
  {
    CoreAssoc(q, mid, sep, v, z);
    AtStep(b, p, q, mid + (":" + (sep + (v + z))));
    AtStep(b, p + |q|, mid, ":" + (sep + (v + z)));
    var i := p + |q| + |mid|;
    assert b[i] == b[i..][0];
    AtStep(b, i, ":", sep + (v + z));
    AtStep(b, i + 1, sep, v + z);
    AtStep(b, i + 1 + |sep|, v, z);
  }

  ghost predicate Spaces(b: string, i: nat, j: nat) {
    i <= j <= |b| && forall p | i <= p < j :: IsWs(b[p])
  }

  lemma SpacesAt(b: string, i: nat, w: string, y: string)
    requires At(b, i, w + y) && AllWs(w)
    ensures Spaces(b, i, i + |w|) && (y != "" ==> i + |w| < |b| && b[i + |w|] == y[0])
  {
    AtStep(b, i, w, y);
    var e := i + |w|;
    forall p | i <= p < e ensures IsWs(b[p]) {
      assert b[p] == b[i..e][p - i];
    }
    if y != "" {
      assert b[e..][0] == b[e];
    }
  }

  /** What a cursor meets on its way through a member, with its colon at `colon`. */
  ghost predicate Reads(b: string, s: Span, colon: nat, c: Core) {
    && Texts(b, s, colon, c)
    && SkipValueAt(b, s.kStart) == Some(s.kEnd)
    && SkipValueAt(b, s.vStart) == (if Depth(c.val) <= MAX_NESTING then Some(s.vEnd) else None)
  }

  ghost predicate Texts(b: string, s: Span, colon: nat, c: Core) {
    && s.kStart + 2 <= s.kEnd <= colon < s.vStart < s.vEnd <= |b|
    && b[s.kStart] == '"' && b[s.kStart + 1..s.kEnd - 1] == c.key
    && Spaces(b, s.kEnd, colon) && b[colon] == ':'
    && Spaces(b, colon + 1, s.vStart) && !IsWs(b[s.vStart])
    && b[s.vStart..s.vEnd] == Print(c.val)
  }

  lemma CoreTexts(b: string, p: nat, c: Core, z: string)
    requires ValidCore(c) && At(b, p, CoreText(c) + z)
    ensures Texts(b, SpanFrom(p, c), p + |Quoted(c.key)| + |c.mid|, c)
    ensures At(b, p, Quoted(c.key) + (c.mid + (":" + (c.sep + (Print(c.val) + z)))))
    ensures At(b, SpanFrom(p, c).vStart, Print(c.val) + z)
  {
    hide SkipValueAt, Print, Valid, Depth, At, SkipValue;
    var v := Print(c.val);
    var s := SpanFrom(p, c);
    CoreSteps(b, p, Quoted(c.key), c.mid, c.sep, v, z);
    ValueStart(c.val);
    hide CoreText;
    KeyEnd(b, p, c.key, c.mid + (":" + (c.sep + (v + z))));
    hide Quoted;
    SpacesAt(b, s.kEnd, c.mid, ":" + (c.sep + (v + z)));
    SpacesAt(b, s.kEnd + |c.mid| + 1, c.sep, v + z);
  }

  lemma CoreReads(b: string, p: nat, c: Core, z: string)
    requires ValidCore(c) && At(b, p, CoreText(c) + z) && z != "" && IsDelimiter(z[0])
    ensures Reads(b, SpanFrom(p, c), p + |Quoted(c.key)| + |c.mid|, c)
  {
    hide SkipValueAt, Texts, Print, CoreText, At, Depth;
    CoreTexts(b, p, c, z);
    KeyEnd(b, p, c.key, c.mid + (":" + (c.sep + (Print(c.val) + z))));
    ValueEnd(b, SpanFrom(p, c).vStart, c.val, z);
  }

  lemma HoldsIs(b: string, f: Frame)
    requires Holds(b, f)
    ensures f.Ok() && b == f.Body()
  {
  }

  lemma PartsKey(f: Frame, b: string, k: nat)
    requires k < |f.members| && PartsAt(f, b, k)
    ensures At(b, f.KeyPos(k), CoreText(f.members[k].core) + f.AfterValue(k))
  {
    hide Frame.StartPos, Frame.KeyPos, Frame.EndPos, Frame.FromMember, Frame.AfterValue, Frame.TailAt, CoreText, At;
  }

  lemma SpanIs(f: Frame, k: nat)
    requires k < |f.members|
    ensures SpanAt(f, k) == SpanFrom(f.KeyPos(k), f.members[k].core)
  {
  }

  lemma MemberReads(b: string, f: Frame, k: nat)
    requires Holds(b, f) && k < |f.members|
    ensures var c := f.members[k].core;
            Reads(b, SpanAt(f, k), f.KeyPos(k) + |Quoted(c.key)| + |c.mid|, c)
  {
    hide *;
    HoldsIs(b, f);
    MemberAt(f, k);
    PartsKey(f, b, k);
    AfterDelimiter(f, k);
    MemberOk(f, k);
    SpanIs(f, k);
    CoreReads(b, f.KeyPos(k), f.members[k].core, f.AfterValue(k));
  }

  /** Reads one `"key" : value` from the quote at i. */
  method ReadMember(body: string, i: nat, limit: nat, ghost f: Frame, ghost k: nat)
    returns (ok: bool, s: Span)
    requires i < limit <= |body| && body[i] == '"'
    ensures ok ==> i == s.kStart && s.kStart + 1 < s.kEnd <= s.vStart < s.vEnd <= limit
    ensures Holds(body, f) && k < |f.members| && i == f.KeyPos(k) && f.EndPos(k) <= limit ==>
              (ok <==> Depth(f.members[k].core.val) <= MAX_NESTING) && (ok ==> s == SpanAt(f, k))
  {
    ok, s := ReadCore(body, i, limit, if k < |f.members| then f.members[k].core else Core("", "", "", Atom("")));
    if Holds(body, f) && k < |f.members| && i == f.KeyPos(k) {
      MemberReads(body, f, k);
      SpanEnd(f, k);
    }
  }

  method ReadCore(body: string, i: nat, limit: nat, ghost c: Core) returns (ok: bool, s: Span)
    requires i < limit <= |body| && body[i] == '"'
    ensures ok ==> i == s.kStart && s.kStart + 1 < s.kEnd <= s.vStart < s.vEnd <= limit
    ensures Reads(body, SpanFrom(i, c), i + |Quoted(c.key)| + |c.mid|, c) && SpanFrom(i, c).vEnd <= limit ==>
              (ok <==> Depth(c.val) <= MAX_NESTING) && (ok ==> s == SpanFrom(i, c))
  {
    hide SkipValueAt, Print, Depth;
    ok, s := false, Span(0, 0, 0, 0);
    var key := SkipValueAt(body, i);
    if key == None || key.value > limit { return; }
    var j := SkipSpaces(body, key.value, limit);
    if j >= limit || body[j] != ':' { return; }
    var v := SkipSpaces(body, j + 1, limit);
    if v >= limit { return; }
    var end := SkipValueAt(body, v);
    if end == None || end.value > limit { return; }
    ok, s := true, Span(i, key.value, v, end.value);
  }

  // ---------------------------------------------------------------- between members

  predicate IsSep(c: char) {
    IsWs(c) || c == ','
  }

  ghost predicate Seps(b: string, i: nat, j: nat) {
    i <= j <= |b| && forall p | i <= p < j :: IsSep(b[p])
  }

  /** Where the cursor is before it looks for member k. */
  ghost function Base(f: Frame, k: nat): nat
    requires k <= |f.members|
  {
    if k == 0 then |f.head| + 1 else f.EndPos(k - 1)
  }

  /** Where it finds the member, or the closing brace. */
  ghost function Goal(f: Frame, k: nat): nat
    requires k <= |f.members|
  {
    if k < |f.members| then f.KeyPos(k) else f.ClosePos()
  }

  lemma Gap(b: string, f: Frame, k: nat)
    requires Holds(b, f) && k <= |f.members|
    ensures |f.head| < Base(f, k) <= Goal(f, k) <= f.ClosePos() < |b| && Seps(b, Base(f, k), Goal(f, k))
    ensures b[Goal(f, k)] == (if k < |f.members| then '"' else '}') && b[f.ClosePos()] == '}'
    ensures k < |f.members| ==> Goal(f, k) < f.EndPos(k) <= f.ClosePos()
  {
    hide Holds, Seps, Frame.Body, Frame.Ok, Frame.EndPos, Frame.StartPos, Frame.KeyPos, Frame.ClosePos, CoreText, MemberTail;
    CloseBrace(b, f);
    if k < |f.members| {
      GapToMember(b, f, k);
    } else {
      GapToClose(b, f, k);
    }
  }

  lemma CloseBrace(b: string, f: Frame)
    requires Holds(b, f)
    ensures |f.head| < f.ClosePos() < |b| && b[f.ClosePos()] == '}'
  {
    CloseAt(f);
    assert b[f.ClosePos()..][0] == b[f.ClosePos()];
    if f.members != [] { PosMonotone(f, 0, |f.members| - 1); GapEnd(f); }
  }

  lemma GapToMember(b: string, f: Frame, k: nat)
    requires Holds(b, f) && k < |f.members|
    ensures |f.head| < Base(f, k) <= f.KeyPos(k) < f.EndPos(k) <= f.ClosePos() && f.KeyPos(k) < |b|
    ensures Seps(b, Base(f, k), f.KeyPos(k)) && b[f.KeyPos(k)] == '"'
  {
    hide Holds, Frame.Body, Frame.Ok, Frame.EndPos, Frame.StartPos, Frame.KeyPos, Frame.ClosePos, CoreText, MemberTail, Spaces, Seps;
    GapBefore(b, f, k);
    if k > 0 {
      GapAfter(b, f, k);
      JoinSeps(b, Base(f, k), f.StartPos(k) - 1, f.KeyPos(k));
    }
  }

  lemma GapToClose(b: string, f: Frame, k: nat)
    requires Holds(b, f) && k == |f.members|
    ensures |f.head| < Base(f, k) <= f.ClosePos() <= |b| && Seps(b, Base(f, k), f.ClosePos())
  {
    if f.members == [] {
      EmptyObject(f);
      CloseAt(f);
      var i, j := |f.head| + 1, f.ClosePos();
      forall p | i <= p < j ensures IsSep(b[p]) {
        assert b[p] == b[i..j][p - i];
      }
    } else {
      hide Holds, Frame.Body, Frame.Ok, Frame.EndPos, Frame.StartPos, Frame.KeyPos, Frame.ClosePos, CoreText, MemberTail;
      GapAfter(b, f, k);
      GapEnd(f);
    }
  }

  lemma JoinSeps(b: string, i: nat, c: nat, j: nat)
    requires Spaces(b, i, c) && c < |b| && b[c] == ',' && Spaces(b, c + 1, j)
    ensures Seps(b, i, j)
  {
  }

  lemma GapEnd(f: Frame)
    requires f.members != []
    ensures f.ClosePos() == f.StartPos(|f.members|) - 1
  {
  }

  lemma GapBefore(b: string, f: Frame, k: nat)
    requires Holds(b, f) && k < |f.members|
    ensures |f.head| < f.StartPos(k) <= f.KeyPos(k)
    ensures Spaces(b, f.StartPos(k), f.KeyPos(k)) && Seps(b, f.StartPos(k), f.KeyPos(k))
    ensures k > 0 ==> f.EndPos(k - 1) < f.StartPos(k)
    ensures k == 0 ==> f.StartPos(k) == |f.head| + 1
    ensures f.KeyPos(k) < f.EndPos(k) <= f.ClosePos() && f.KeyPos(k) < |b| && b[f.KeyPos(k)] == '"'
  {
    hide Frame.Body, MemberTail;
    MemberAt(f, k);
    MemberOk(f, k);
    PosMonotone(f, k, k);
    if k > 0 { PosMonotone(f, 0, k - 1); }
    SpacesAt(b, f.StartPos(k), f.members[k].pre, f.FromKey(k));
    assert f.FromKey(k)[0] == '"';
  }

  /** Behind a member: whitespace and, before a further member, a comma. */
  lemma GapAfter(b: string, f: Frame, k: nat)
    requires Holds(b, f) && 1 <= k <= |f.members|
    ensures |f.head| < f.EndPos(k - 1) < f.StartPos(k) <= |b|
    ensures Spaces(b, f.EndPos(k - 1), f.StartPos(k) - 1)
    ensures b[f.StartPos(k) - 1] == (if k < |f.members| then ',' else '}')
  {
    hide *;
    GapBehind(b, f, k - 1);
  }

  lemma GapBehind(b: string, f: Frame, k: nat)
    requires Holds(b, f) && k < |f.members|
    ensures |f.head| < f.EndPos(k) < f.StartPos(k + 1) <= |b|
    ensures Spaces(b, f.EndPos(k), f.StartPos(k + 1) - 1)
    ensures b[f.StartPos(k + 1) - 1] == (if k + 1 < |f.members| then ',' else '}')
  {
    MemberAt(f, k);
    MemberOk(f, k);
    if k + 1 < |f.members| { TailCons(f, k + 1); } else { TailEnd(f); }
    SpacesAt(b, f.EndPos(k), f.members[k].post, f.TailAt(k + 1));
    PosMonotone(f, 0, k);
  }

  // ---------------------------------------------------------------- what a phase has collected

  ghost predicate DistinctStarts(es: seq<Edit>) {
    forall i, j | 0 <= i < |es| && 0 <= j < |es| && i != j :: es[i].start != es[j].start
  }

  /** `es` are the edits of the patched members in S, each once. */
  ghost predicate PatchesAre(f: Frame, fates: seq<Fate>, S: set<nat>, es: seq<Edit>)
    requires |fates| == |f.members|
  {
    && DistinctStarts(es)
    && (forall e :: e in es <==> exists i :: i in S && i < |fates| && PatchIs(f, fates, i, e))
  }

  lemma PatchRange(f: Frame, fates: seq<Fate>, k: nat)
    requires FatesOk(f, fates) && k < |fates| && fates[k].Patch?
    ensures f.KeyPos(k) <= PatchEdit(f, fates, k).start < f.EndPos(k)
  {
  }

  lemma PatchStartsDiffer(f: Frame, fates: seq<Fate>, i: nat, j: nat)
    requires FatesOk(f, fates) && i < |fates| && j < |fates| && i != j && fates[i].Patch? && fates[j].Patch?
    ensures PatchEdit(f, fates, i).start != PatchEdit(f, fates, j).start
  {
    hide CoreText, Frame.KeyPos, Frame.EndPos;
    PatchRange(f, fates, i);
    PatchRange(f, fates, j);
    if i < j { PosMonotone(f, i, j); } else { PosMonotone(f, j, i); }
  }

  lemma DistinctConcat(a: seq<Edit>, b: seq<Edit>)
    requires DistinctStarts(a) && DistinctStarts(b)
    requires forall e, e' | e in a && e' in b :: e.start != e'.start
    ensures DistinctStarts(a + b)
  {
    var c := a + b;
    forall i, j | 0 <= i < |c| && 0 <= j < |c| && i != j ensures c[i].start != c[j].start {
      assert if i < |a| then c[i] == a[i] else c[i] == b[i - |a|];
      assert if j < |a| then c[j] == a[j] else c[j] == b[j - |a|];
    }
  }

  lemma PatchesConcat(f: Frame, fates: seq<Fate>, S: set<nat>, T: set<nat>, a: seq<Edit>, b: seq<Edit>)
    requires FatesOk(f, fates) && S !! T && PatchesAre(f, fates, S, a) && PatchesAre(f, fates, T, b)
    ensures PatchesAre(f, fates, S + T, a + b)
  {
    forall e, e' | e in a && e' in b ensures e.start != e'.start {
      var i :| i in S && i < |fates| && PatchIs(f, fates, i, e);
      var j :| j in T && j < |fates| && PatchIs(f, fates, j, e');
      PatchStartsDiffer(f, fates, i, j);
    }
    hide PatchIs, FatesOk;
    DistinctConcat(a, b);
  }

  lemma PatchesNone(f: Frame, fates: seq<Fate>, S: set<nat>)
    requires |fates| == |f.members| && forall i | i in S && i < |fates| :: !fates[i].Patch?
    ensures PatchesAre(f, fates, S, [])
  {
  }

  lemma PatchesOne(f: Frame, fates: seq<Fate>, k: nat)
    requires |fates| == |f.members| && k < |fates|
    ensures PatchesAre(f, fates, {k}, if fates[k].Patch? then [PatchEdit(f, fates, k)] else [])
  {
    if fates[k].Patch? {
      assert forall e :: PatchIs(f, fates, k, e) <==> e in [PatchEdit(f, fates, k)];
    }
  }

  lemma PatchesAdd(f: Frame, fates: seq<Fate>, S: set<nat>, es: seq<Edit>, k: nat)
    requires FatesOk(f, fates) && k < |fates| && k !in S && PatchesAre(f, fates, S, es)
    ensures PatchesAre(f, fates, S + {k}, es + if fates[k].Patch? then [PatchEdit(f, fates, k)] else [])
  {
    PatchesOne(f, fates, k);
    PatchesConcat(f, fates, S, {k}, es, if fates[k].Patch? then [PatchEdit(f, fates, k)] else []);
  }

  /** The spans of the members `idx`, in this order. */
  ghost predicate SpansAre(f: Frame, idx: seq<nat>, spans: seq<Span>) {
    |spans| == |idx| && forall j | 0 <= j < |idx| :: idx[j] < |f.members| && spans[j] == SpanAt(f, idx[j])
  }

  /** The members below k with this key. */
  ghost function KeyIdx(ms: seq<Member>, key: string, k: nat): seq<nat>
    requires k <= |ms|
  {
    if k == 0 then [] else KeyIdx(ms, key, k - 1) + if ms[k - 1].core.key == key then [k - 1] else []
  }

  ghost function KeySet(ms: seq<Member>, key: string, k: nat): set<nat>
    requires k <= |ms|
  {
    set i | 0 <= i < k && ms[i].core.key == key
  }

  lemma {:induction false} KeyIdxIs(ms: seq<Member>, key: string, k: nat)
    requires k <= |ms|
    ensures forall j | 0 <= j < |KeyIdx(ms, key, k)| ::
              KeyIdx(ms, key, k)[j] < k && ms[KeyIdx(ms, key, k)[j]].core.key == key
    ensures forall i, j | 0 <= i < j < |KeyIdx(ms, key, k)| :: KeyIdx(ms, key, k)[i] < KeyIdx(ms, key, k)[j]
    ensures forall i | 0 <= i < k && ms[i].core.key == key :: i in KeyIdx(ms, key, k)
  {
    if k > 0 {
      KeyIdxIs(ms, key, k - 1);
      var r, s := KeyIdx(ms, key, k - 1), KeyIdx(ms, key, k);
      assert s == r || (s == r + [k - 1] && ms[k - 1].core.key == key);
      hide KeyIdx;
      forall i | 0 <= i < k && ms[i].core.key == key ensures i in s {
        if i < k - 1 { assert i in r; } else { assert s[|s| - 1] == i; }
      }
    }
  }

  // ---------------------------------------------------------------- the top-level scan

  /** What the scan collects: the model edits and the spans of the other keys it looks at. */
  datatype Found = Found(edits: seq<Edit>, foundModel: bool, re: seq<Span>, rs: seq<Span>, so: seq<Span>,
                         isStream: bool, total: nat)

  ghost predicate FoundUpTo(f: Frame, t: Tier, w: Wire, k: nat, st: Found) {
    && k <= |f.members|
    && var ms := f.members;
       && PatchesAre(f, Fates(ms, t, w), KeySet(ms, "model", k), st.edits)
       && (st.foundModel <==> KeySet(ms, "model", k) != {})
       && SpansAre(f, KeyIdx(ms, "reasoning_effort", k), st.re)
       && SpansAre(f, KeyIdx(ms, "reasoning", k), st.rs)
       && SpansAre(f, KeyIdx(ms, "stream_options", k), st.so)
       && (st.isStream <==> StreamBelow(ms, k))
       && st.total == k
  }

  ghost predicate StreamBelow(ms: seq<Member>, k: nat)
    requires k <= |ms|
  {
    exists i :: 0 <= i < k && ms[i].core.key == "stream" && Print(ms[i].core.val) == "true"
  }

  /** The switch over the key of one member. */
  function Classify(st: Found, key: string, val: string, s: Span, t: Tier): Found {
    var r := st.(total := st.total + 1);
    if key == "model" then
      r.(foundModel := true,
         edits := r.edits + if val == Quoted(t.model) then [] else [Edit(s.vStart, s.vEnd, Quoted(Escape(t.model)))])
    else if key == "reasoning_effort" then r.(re := r.re + [s])
    else if key == "reasoning" then r.(rs := r.rs + [s])
    else if key == "stream" then r.(isStream := r.isStream || val == "true")
    else if key == "stream_options" then r.(so := r.so + [s])
    else r
  }

  lemma ClassifyOk(f: Frame, t: Tier, w: Wire, k: nat, st: Found)
    requires f.Ok() && k < |f.members| && FoundUpTo(f, t, w, k, st)
    ensures FoundUpTo(f, t, w, k + 1,
              Classify(st, f.members[k].core.key, Print(f.members[k].core.val), SpanAt(f, k), t))
  {
    hide SpanAt, Print, PatchesAre, SpansAre, KeyIdx, KeySet, Escape, Quoted, StreamBelow;
    ClassifyModel(f, t, w, k, st);
    SpansStep(f, "reasoning_effort", k, st.re);
    SpansStep(f, "reasoning", k, st.rs);
    SpansStep(f, "stream_options", k, st.so);
    StreamStep(f.members, k);
    KeySetStep(f.members, "model", k);
  }

  lemma KeySetStep(ms: seq<Member>, key: string, k: nat)
    requires k < |ms|
    ensures KeySet(ms, key, k + 1) == KeySet(ms, key, k) + if ms[k].core.key == key then {k} else {}
    ensures k !in KeySet(ms, key, k)
  {
  }

  lemma StreamStep(ms: seq<Member>, k: nat)
    requires k < |ms|
    ensures StreamBelow(ms, k + 1) <==>
            StreamBelow(ms, k) || (ms[k].core.key == "stream" && Print(ms[k].core.val) == "true")
  {
    hide Print;
    if ms[k].core.key == "stream" && Print(ms[k].core.val) == "true" {
      assert StreamBelow(ms, k + 1);
    }
  }

  lemma ClassifyModel(f: Frame, t: Tier, w: Wire, k: nat, st: Found)
    requires f.Ok() && k < |f.members|
    requires PatchesAre(f, Fates(f.members, t, w), KeySet(f.members, "model", k), st.edits)
    ensures PatchesAre(f, Fates(f.members, t, w), KeySet(f.members, "model", k + 1),
              Classify(st, f.members[k].core.key, Print(f.members[k].core.val), SpanAt(f, k), t).edits)
  {
    hide PatchesAre, KeySet;
    var ms, fates, c := f.members, Fates(f.members, t, w), f.members[k].core;
    FatesAllOk(f, t, w);
    KeySetStep(ms, "model", k);
    if c.key == "model" {
      ModelEdit(f, t, w, k);
      hide FateOf, SpanAt, PatchEdit, FatesOk, Quoted, Print;
      PatchesAdd(f, fates, KeySet(ms, "model", k), st.edits, k);
    } else {
      assert KeySet(ms, "model", k) + {} == KeySet(ms, "model", k);
    }
  }

  lemma ModelEdit(f: Frame, t: Tier, w: Wire, k: nat)
    requires f.Ok() && k < |f.members| && f.members[k].core.key == "model"
    ensures var c, s, fates := f.members[k].core, SpanAt(f, k), Fates(f.members, t, w);
            (if fates[k].Patch? then [PatchEdit(f, fates, k)] else []) ==
            if Print(c.val) == Quoted(t.model) then [] else [Edit(s.vStart, s.vEnd, Quoted(Escape(t.model)))]
  {
    var c := f.members[k].core;
    MemberOk(f, k);
    ModelKept(c.val, t.model);
    SpanValue(f, k);
    hide Print, CoreText;
    assert FateOf(f.members, k, t, w) == if c.val == Str(t.model) then Keep else SetValue(c, TargetModel(t));
    assert Print(TargetModel(t)) == Quoted(Escape(t.model)) by { PrintStr(Escape(t.model)); }
  }

  lemma PrintStr(raw: string)
    ensures Print(Str(raw)) == Quoted(raw)
  {
  }

  lemma SpanValue(f: Frame, k: nat)
    requires k < |f.members|
    ensures var c, s := f.members[k].core, SpanAt(f, k);
            s.vStart == f.KeyPos(k) + (|CoreText(c)| - |Print(c.val)|) && s.vEnd == f.KeyPos(k) + |CoreText(c)|
  {
  }

  /** The raw bytes of a value are `"m"` exactly when it is the string m. */
  lemma ModelKept(v: Json, m: string)
    requires Valid(v)
    ensures Print(v) == Quoted(m) <==> v == Str(m)
  {
    match v
    case Str(raw) =>
      assert Quoted(raw)[1..|raw| + 1] == raw && Quoted(m)[1..|m| + 1] == m;
    case Atom(text) =>
      AtomPlain(text);
      assert !IsStructural(text[0]) && Quoted(m)[0] == '"';
    case Arr(_, _) =>
      assert Print(v)[0] == '[' && Quoted(m)[0] == '"';
    case Obj(_, _) =>
      assert Print(v)[0] == '{' && Quoted(m)[0] == '"';
  }

  lemma SpansStep(f: Frame, key: string, k: nat, spans: seq<Span>)
    requires k < |f.members| && SpansAre(f, KeyIdx(f.members, key, k), spans)
    ensures SpansAre(f, KeyIdx(f.members, key, k + 1),
                     if f.members[k].core.key == key then spans + [SpanAt(f, k)] else spans)
  {
    hide SpanAt;
  }

  lemma DeepMember(ms: seq<Member>, k: nat)
    requires k < |ms| && Depth(ms[k].core.val) > MAX_NESTING
    ensures !AllShallow(ms, |ms|)
  {
  }

  /** Where the scan is: k members read, the cursor before member k. */
  ghost predicate Scanning(body: string, f: Frame, t: Tier, w: Wire, k: nat, i: nat, st: Found) {
    && k <= |f.members| && Base(f, k) <= i <= Goal(f, k)
    && FoundUpTo(f, t, w, k, st) && AllShallow(f.members, k)
  }

  lemma FoundNothing(f: Frame, t: Tier, w: Wire)
    ensures FoundUpTo(f, t, w, 0, Found([], false, [], [], [], false, 0))
  {
    PatchesNone(f, Fates(f.members, t, w), {});
    assert KeySet(f.members, "model", 0) == {};
  }

  /** After whitespace the cursor is at a comma, at the member, or at the closing brace. */
  lemma ScanGap(b: string, f: Frame, k: nat, i: nat, j: nat)
    requires Holds(b, f) && k <= |f.members| && Base(f, k) <= i <= Goal(f, k)
    requires f.ClosePos() < |b| && i <= j <= |b| && (j == i || j <= f.ClosePos())
    requires (forall p | i <= p < j :: IsWs(b[p])) && (j < f.ClosePos() ==> !IsWs(b[j]))
    ensures j <= Goal(f, k)
    ensures j >= f.ClosePos() || b[j] == '}' ==> k == |f.members|
    ensures j < f.ClosePos() && b[j] == ',' ==> j + 1 <= Goal(f, k)
    ensures j < f.ClosePos() && b[j] != ',' && b[j] != '}' ==>
              k < |f.members| && j == f.KeyPos(k) && f.EndPos(k) <= f.ClosePos() && b[j] == '"'
  {
    Gap(b, f, k);
    GoalIs(f, k);
    hide Frame.KeyPos, Frame.EndPos, Frame.ClosePos, Holds, Base, Goal;
    var g := Goal(f, k);
    assert !IsSep(b[g]);
    assert j <= g;
    assert j < g ==> IsSep(b[j]);
  }

  lemma ScanSpaces(b: string, f: Frame, t: Tier, w: Wire, k: nat, i: nat, j: nat, st: Found)
    requires Holds(b, f) && Scanning(b, f, t, w, k, i, st)
    requires f.ClosePos() < |b| && i <= j <= |b| && (j == i || j <= f.ClosePos())
    requires (forall p | i <= p < j :: IsWs(b[p])) && (j < f.ClosePos() ==> !IsWs(b[j]))
    ensures Scanning(b, f, t, w, k, j, st)
    ensures j >= f.ClosePos() || b[j] == '}' ==> k == |f.members|
    ensures j < f.ClosePos() && b[j] == ',' ==> Scanning(b, f, t, w, k, j + 1, st)
    ensures j < f.ClosePos() && b[j] != ',' && b[j] != '}' ==> k < |f.members| && b[j] == '"'
    ensures k < |f.members| && b[j] == '"' && j < f.ClosePos() ==> j == f.KeyPos(k) && f.EndPos(k) <= f.ClosePos()
  {
    hide Frame.KeyPos, Frame.EndPos, Frame.ClosePos, Holds, Base, Goal, FoundUpTo, AllShallow, IsWs;
    ScanGap(b, f, k, i, j);
  }

  lemma ScanStart(b: string, f: Frame, t: Tier, w: Wire)
    requires Holds(b, f)
    ensures Scanning(b, f, t, w, 0, |f.head| + 1, Found([], false, [], [], [], false, 0))
    ensures |f.head| + 1 <= f.ClosePos()
  {
    FoundNothing(f, t, w);
    Gap(b, f, 0);
  }

  lemma ScanDone(b: string, f: Frame, t: Tier, w: Wire, k: nat, i: nat, st: Found)
    requires Holds(b, f) && Scanning(b, f, t, w, k, i, st) && (k == |f.members| || i >= f.ClosePos())
    ensures AllShallow(f.members, |f.members|) && FoundUpTo(f, t, w, |f.members|, st)
  {
    hide Frame.KeyPos, Frame.EndPos, Frame.ClosePos, Holds, Base, FoundUpTo, AllShallow;
    if k < |f.members| { Gap(b, f, k); }
  }

  lemma GoalIs(f: Frame, k: nat)
    requires k <= |f.members|
    ensures k < |f.members| ==> Goal(f, k) == f.KeyPos(k)
    ensures k == |f.members| ==> Goal(f, k) == f.ClosePos()
  {
  }

  lemma HoldsOk(b: string, f: Frame)
    requires Holds(b, f)
    ensures f.Ok()
  {
  }

  lemma ScanStep(b: string, f: Frame, t: Tier, w: Wire, k: nat, i: nat, st: Found)
    requires Holds(b, f) && k < |f.members| && Scanning(b, f, t, w, k, i, st)
    requires Depth(f.members[k].core.val) <= MAX_NESTING
    ensures var c, s := f.members[k].core, SpanAt(f, k);
            && Scanning(b, f, t, w, k + 1, s.vEnd, Classify(st, c.key, Print(c.val), s, t))
            && s.vEnd <= f.ClosePos() < |b|
            && s.kStart + 2 <= s.kEnd <= s.vStart < s.vEnd
            && b[s.kStart + 1..s.kEnd - 1] == c.key && b[s.vStart..s.vEnd] == Print(c.val)
  {
    hide FoundUpTo, Depth, Classify, SpanAt, SpanFrom, Print, Spaces, Seps, SkipValueAt, Goal;
    HoldsOk(b, f);
    hide Holds, Frame.Body, Frame.Ok, Frame.EndPos, Frame.StartPos, Frame.KeyPos, Frame.ClosePos, CoreText, MemberTail;
    GoalIs(f, k);
    MemberReads(b, f, k);
    ClassifyOk(f, t, w, k, st);
    SpanEnd(f, k);
    Gap(b, f, k);
    Gap(b, f, k + 1);
  }

  /** Spans inside (lo, hi], with a non-empty value. */
  ghost predicate FoundIn(spans: seq<Span>, lo: nat, hi: nat) {
    forall x | 0 <= x < |spans| :: lo < spans[x].kStart <= spans[x].vStart < spans[x].vEnd <= hi
  }

  ghost predicate AllIn(st: Found, lo: nat, hi: nat) {
    FoundIn(st.re, lo, hi) && FoundIn(st.rs, lo, hi) && FoundIn(st.so, lo, hi)
  }

  lemma ClassifyIn(st: Found, key: string, val: string, s: Span, t: Tier, lo: nat, hi: nat)
    requires AllIn(st, lo, hi) && lo < s.kStart <= s.vStart < s.vEnd <= hi
    ensures AllIn(Classify(st, key, val, s, t), lo, hi)
  {
  }

  /** The loop over the top-level members. */
  method ScanMembers(body: string, startObj: nat, closeObj: nat, t: Tier, ghost f: Frame, ghost w: Wire)
    returns (ok: bool, st: Found)
    requires startObj < closeObj < |body|
    ensures AllIn(st, startObj, closeObj)
    ensures Holds(body, f) && startObj == |f.head| && closeObj == f.ClosePos() ==>
              (ok <==> AllShallow(f.members, |f.members|)) && (ok ==> FoundUpTo(f, t, w, |f.members|, st))
  {
    ghost var here := Holds(body, f) && startObj == |f.head| && closeObj == f.ClosePos();
    ghost var k := 0;
    st := Found([], false, [], [], [], false, 0);
    if here { ScanStart(body, f, t, w); }
    assert AllIn(st, startObj, closeObj);
    hide *;
    var i := startObj + 1;
    var more := true;
    ok := true;
    while ok && more && i < closeObj
      invariant startObj < i <= closeObj && AllIn(st, startObj, closeObj)
      invariant here ==> Holds(body, f) && closeObj == f.ClosePos()
      invariant here && ok ==> Scanning(body, f, t, w, k, i, st)
      invariant here && !more ==> k == |f.members|
      invariant here && !ok ==> !AllShallow(f.members, |f.members|)
      decreases closeObj - i, more, ok
    {
      ok, more, i, st, k := ScanOne(body, startObj, i, closeObj, t, st, f, w, k);
    }
    if here && ok { ScanDone(body, f, t, w, k, i, st); }
  }

  /** One turn of the loop. */
  method ScanOne(body: string, startObj: nat, i0: nat, closeObj: nat, t: Tier, st: Found, ghost f: Frame, ghost w: Wire, ghost k: nat)
    returns (ok: bool, more: bool, i: nat, r: Found, ghost k': nat)
    requires startObj < i0 < closeObj < |body| && AllIn(st, startObj, closeObj)
    ensures i0 <= i <= closeObj && (ok && more ==> i0 < i) && AllIn(r, startObj, closeObj)
    ensures Holds(body, f) && closeObj == f.ClosePos() && Scanning(body, f, t, w, k, i0, st) ==>
              && (ok ==> Scanning(body, f, t, w, k', i, r))
              && (!more ==> k' == |f.members|)
              && (!ok ==> !AllShallow(f.members, |f.members|))
  {
    ghost var here := Holds(body, f) && closeObj == f.ClosePos() && Scanning(body, f, t, w, k, i0, st);
    ok, more, r, k' := true, true, st, k;
    hide *;
    i := SkipSpaces(body, i0, closeObj);
    if here { ScanSpaces(body, f, t, w, k, i0, i, st); }
    if i >= closeObj || body[i] == '}' {
      more := false;
    } else if body[i] == ',' {
      i := i + 1;
    } else if body[i] != '"' {
      ok := false;
    } else {
      var read, s := ReadMember(body, i, closeObj, f, k);
      if !read {
        if here { DeepMember(f.members, k); }
        ok := false;
      } else {
        if here { ScanStep(body, f, t, w, k, i, st); }
        ClassifyIn(st, body[s.kStart + 1..s.kEnd - 1], body[s.vStart..s.vEnd], s, t, startObj, closeObj);
        r := Classify(st, body[s.kStart + 1..s.kEnd - 1], body[s.vStart..s.vEnd], s, t);
        i, k' := s.vEnd, k + 1;
      }
    }
  }
}
