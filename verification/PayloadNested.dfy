/**
 Looking into a member whose value is an object: ObjectField (pkg/zeroalloc/json_scan.go),
 the stream_options edit and isNestedReasoningSoleEffort (pkg/server/dispatch.go).
 */
module PayloadNested {
  import opened Wrappers
  import opened Json
  import opened ObjectEdit
  import opened PayloadSpec
  import opened PayloadScan
  import opened PayloadDelete

  // ---------------------------------------------------------------- ObjectField

  /** An object that fills [objStart, objEnd) of the body and whose members SkipValue can read. */
  ghost predicate Fills(body: string, g: Frame, objStart: nat, objEnd: nat) {
    && Holds(body, g) && objStart == |g.head| && objEnd == g.ClosePos() + 1 && AllShallow(g.members, |g.members|)
  }

  /** Where the search is: the key is none of the first k. */
  ghost predicate Seeking(body: string, g: Frame, key: string, k: nat, i: nat) {
    && k <= |g.members| && Base(g, k) <= i <= Goal(g, k)
    && forall j | 0 <= j < k :: g.members[j].core.key != key
  }

  method ObjectField(body: string, objStart: nat, objEnd: nat, key: string, ghost g: Frame) returns (ok: bool, s: Span)
    requires objEnd <= |body|
    ensures ok ==> objStart < s.kStart && s.kStart + 2 <= s.kEnd <= s.vStart < s.vEnd <= objEnd
    ensures objStart < objEnd && !IsWs(body[objStart]) && body[objStart] != '{' ==> !ok
    ensures Fills(body, g, objStart, objEnd) ==>
              (ok <==> Has(g.members, key)) && (ok ==> s == SpanAt(g, First(g.members, key)))
  {
    ghost var here := Fills(body, g, objStart, objEnd);
    ok, s := false, Span(0, 0, 0, 0);
    if here { FillsOpen(body, g, objStart, objEnd, key); }
    if objStart >= objEnd { return; }
    var i := SkipSpaces(body, objStart, objEnd);
    if i >= objEnd || body[i] != '{' { return; }
    i := i + 1;
    hide *;
    ghost var k := 0;
    var more := true;
    while !ok && more && i < objEnd
      invariant objStart < i <= objEnd
      invariant ok ==> objStart < s.kStart && s.kStart + 2 <= s.kEnd <= s.vStart < s.vEnd <= objEnd
      invariant here && !ok && more ==> Seeking(body, g, key, k, i) && i < objEnd
      invariant here && !ok && !more ==> !Has(g.members, key)
      invariant here && ok ==> Has(g.members, key) && s == SpanAt(g, First(g.members, key))
      decreases objEnd - i, more, !ok
    {
      ok, more, i, s, k := FieldOne(body, objStart, objEnd, i, key, g, k);
    }
  }

  /** One turn of the loop of ObjectField. */
  method FieldOne(body: string, objStart: nat, objEnd: nat, i0: nat, key: string, ghost g: Frame, ghost k: nat)
    returns (ok: bool, more: bool, i: nat, s: Span, ghost k': nat)
    requires objStart < i0 < objEnd <= |body|
    ensures i0 <= i <= objEnd && (!ok && more ==> i0 < i)
    ensures ok ==> objStart < s.kStart && s.kStart + 2 <= s.kEnd <= s.vStart < s.vEnd <= objEnd
    ensures Fills(body, g, objStart, objEnd) && Seeking(body, g, key, k, i0) ==>
              && (!ok && more ==> Seeking(body, g, key, k', i) && i < objEnd)
              && (!ok && !more ==> !Has(g.members, key))
              && (ok ==> Has(g.members, key) && s == SpanAt(g, First(g.members, key)))
  {
    ghost var here := Fills(body, g, objStart, objEnd) && Seeking(body, g, key, k, i0);
    hide *;
    ok, more, k', s := false, true, k, Span(0, 0, 0, 0);
    i := SkipSpaces(body, i0, objEnd);
    if here { SeekSpaces(body, g, objStart, objEnd, key, k, i0, i); }
    if i >= objEnd || body[i] == '}' {
      more := false;
    } else if body[i] == ',' {
      i := i + 1;
    } else if body[i] != '"' {
      more := false;
    } else {
      var read;
      read, s := ReadMember(body, i, objEnd, g, k);
      if !read {
        more := false;
      } else {
        if here { SeekMember(body, g, objStart, objEnd, key, k, i0); }
        i, k' := s.vEnd, k + 1;
        if body[s.kStart + 1..s.kEnd - 1] == key { ok := true; }
      }
    }
  }

  lemma FillsOpen(b: string, g: Frame, objStart: nat, objEnd: nat, key: string)
    requires Fills(b, g, objStart, objEnd)
    ensures objStart + 1 < objEnd <= |b| && b[objStart] == '{' && Seeking(b, g, key, 0, objStart + 1)
  {
    BodyOpen(g);
    Gap(b, g, 0);
    hide Frame.Ok, Frame.ClosePos, MemberTail, PrintMembers;
    assert b[objStart] == b[..objStart + 1][objStart];
  }

  lemma SeekSpaces(b: string, g: Frame, objStart: nat, objEnd: nat, key: string, k: nat, i: nat, j: nat)
    requires Fills(b, g, objStart, objEnd) && Seeking(b, g, key, k, i) && objEnd <= |b|
    requires i <= j <= |b| && (j == i || j <= objEnd) && (forall p | i <= p < j :: IsWs(b[p]))
    requires j < objEnd ==> !IsWs(b[j])
    ensures j >= objEnd || b[j] == '}' ==> !Has(g.members, key)
    ensures j < objEnd ==> b[j] == '}' || b[j] == ',' || b[j] == '"'
    ensures Holds(b, g)
    ensures j < objEnd && b[j] == ',' ==> Seeking(b, g, key, k, j + 1) && j + 1 < objEnd
    ensures j < objEnd && b[j] == '"' ==> k < |g.members| && j == g.KeyPos(k) && g.EndPos(k) <= objEnd
    ensures j < objEnd && b[j] == '"' ==> Depth(g.members[k].core.val) <= MAX_NESTING
  {
    hide Frame.KeyPos, Frame.EndPos, Frame.ClosePos, Holds, Base, Goal, Depth;
    Gap(b, g, k);
    GoalIs(g, k);
    var q := Goal(g, k);
    assert !IsSep(b[q]);
    assert j <= q;
  }

  lemma KeyReads(b: string, g: Frame, k: nat)
    requires Holds(b, g) && k < |g.members|
    ensures var s := SpanAt(g, k);
            && s.kStart == g.KeyPos(k) && s.kStart + 2 <= s.kEnd < s.vEnd <= |b| && s.vEnd == g.EndPos(k)
            && SkipValueAt(b, s.kStart) == Some(s.kEnd) && b[s.kStart + 1..s.kEnd - 1] == g.members[k].core.key
  {
    hide Frame.KeyPos, Frame.EndPos, Frame.ClosePos, Frame.Body, Holds, SkipValueAt, Print, Depth, Spaces;
    MemberReads(b, g, k);
    SpanEnd(g, k);
    SpanStart(g, k);
    hide SpanAt;
  }

  lemma SpanStart(g: Frame, k: nat)
    requires k < |g.members|
    ensures SpanAt(g, k).kStart == g.KeyPos(k)
  {
  }

  lemma SeekMember(b: string, g: Frame, objStart: nat, objEnd: nat, key: string, k: nat, i: nat)
    requires Fills(b, g, objStart, objEnd) && Seeking(b, g, key, k, i) && k < |g.members|
    ensures var s, c := SpanAt(g, k), g.members[k].core;
            && s.kStart + 2 <= s.kEnd <= |b| && b[s.kStart + 1..s.kEnd - 1] == c.key
            && (c.key == key ==> Has(g.members, key) && First(g.members, key) == k)
            && (c.key != key ==> Seeking(b, g, key, k + 1, s.vEnd) && s.vEnd < objEnd)
  {
    hide Frame.KeyPos, Frame.EndPos, Frame.ClosePos, Frame.Body, Holds, Base, Goal, Depth, SpanAt, SkipValueAt;
    KeyReads(b, g, k);
    AfterMemberPos(b, g, k);
  }

  lemma AfterMemberPos(b: string, g: Frame, k: nat)
    requires Holds(b, g) && k < |g.members|
    ensures Base(g, k + 1) == g.EndPos(k) <= Goal(g, k + 1) && g.EndPos(k) <= g.ClosePos()
  {
    Gap(b, g, k + 1);
    BaseNext(g, k);
  }

  // ---------------------------------------------------------------- an object as a value

  /** The value of member k as an object in the same body. */
  ghost function Within(f: Frame, k: nat): Frame
    requires k < |f.members| && f.members[k].core.val.Obj? && SpanAt(f, k).vStart <= |f.Body()|
  {
    var v := f.members[k].core.val;
    Frame(f.Body()[..SpanAt(f, k).vStart], v.members, v.gap, f.AfterValue(k))
  }

  lemma WithinHolds(b: string, f: Frame, k: nat)
    requires Holds(b, f) && k < |f.members| && f.members[k].core.val.Obj?
    ensures SpanAt(f, k).vStart < SpanAt(f, k).vEnd <= |b| && Holds(b, Within(f, k))
    ensures |Within(f, k).head| == SpanAt(f, k).vStart && Within(f, k).ClosePos() + 1 == SpanAt(f, k).vEnd
  {
    MemberReads(b, f, k);
    MemberOk(f, k);
    AfterDelimiter(f, k);
    MemberAt(f, k);
    var c, s := f.members[k].core, SpanAt(f, k);
    CoreTexts(b, f.KeyPos(k), c, f.AfterValue(k));
    var g := Within(f, k);
    WithinBody(b, s.vStart, c.val, f.AfterValue(k));
    CloseAt(g);
    hide CoreText, Frame.KeyPos, MemberTail;
    assert |g.Body()| == s.vStart + |Print(c.val)| + |f.AfterValue(k)|;
  }

  lemma WithinBody(b: string, p: nat, v: Json, rest: string)
    requires v.Obj? && At(b, p, Print(v) + rest)
    ensures Frame(b[..p], v.members, v.gap, rest).Body() == b
  {
    assert b == b[..p] + b[p..];
  }

  /** Positions do not depend on what is before the object, except for a shift. */
  lemma {:induction false} Shifted(g: Frame, v: Json, k: nat)
    requires v.Obj? && g.members == v.members && g.gap == v.gap && k <= |g.members|
    ensures g.StartPos(k) == |g.head| + Inner(v).StartPos(k)
  {
    if k > 0 {
      Shifted(g, v, k - 1);
      assert g.EndPos(k - 1) == |g.head| + Inner(v).EndPos(k - 1);
    }
  }

  lemma ShiftedEdits(g: Frame, v: Json, fates: seq<Fate>, j: nat, ins: string)
    requires v.Obj? && g.members == v.members && g.gap == v.gap && |fates| == |g.members|
    ensures j < |fates| && fates[j].Patch? ==> PatchEdit(g, fates, j) == Shift(PatchEdit(Inner(v), fates, j), |g.head|)
    ensures j < |fates| ==> DropEdit(g, j, j + 1) == Shift(DropEdit(Inner(v), j, j + 1), |g.head|)
    ensures InsertEdit(g, ins) == Shift(InsertEdit(Inner(v), ins), |g.head|)
  {
    Shifted(g, v, |g.members|);
    if j < |fates| {
      Shifted(g, v, j);
      Shifted(g, v, j + 1);
      if g.StartPos(j) == 0 || Inner(v).StartPos(j) == 0 { Shifted(g, v, 0); }
    }
  }

  ghost function Shift(e: Edit, n: nat): Edit {
    Edit(e.start + n, e.end + n, e.repl)
  }

  lemma InsideEdit(f: Frame, fates: seq<Fate>, k: nat, e: Edit, v: Json)
    requires k < |f.members| && |fates| == |f.members| && fates[k] == EditInside(f.members[k].core, e, v)
    ensures PatchEdit(f, fates, k) == Shift(e, SpanAt(f, k).vStart)
  {
    SpanValue(f, k);
  }

  lemma SetEdit(f: Frame, fates: seq<Fate>, k: nat, v: Json)
    requires k < |f.members| && |fates| == |f.members| && fates[k] == SetValue(f.members[k].core, v)
    ensures PatchEdit(f, fates, k) == Edit(SpanAt(f, k).vStart, SpanAt(f, k).vEnd, Print(v))
  {
    SpanValue(f, k);
  }

  // ---------------------------------------------------------------- stream_options

  /** How the value of a member begins and ends. */
  lemma ValueEnds(b: string, f: Frame, k: nat)
    requires Holds(b, f) && k < |f.members|
    ensures var s, v := SpanAt(f, k), f.members[k].core.val;
            && s.vStart < s.vEnd <= |b| && !IsWs(b[s.vStart])
            && (v.Obj? <==> b[s.vStart] == '{')
            && (v.Obj? ==> b[s.vEnd - 1] == '}' && s.vStart + 1 < s.vEnd)
  {
    MemberReads(b, f, k);
    MemberOk(f, k);
    var s, v := SpanAt(f, k), f.members[k].core.val;
    ValueStart(v);
    assert b[s.vStart] == b[s.vStart..s.vEnd][0];
    assert b[s.vEnd - 1] == b[s.vStart..s.vEnd][s.vEnd - s.vStart - 1];
    FirstChar(v);
  }

  lemma FirstChar(v: Json)
    requires Valid(v)
    ensures Print(v) != "" && (v.Obj? <==> Print(v)[0] == '{')
    ensures v.Obj? ==> |Print(v)| >= 2 && Print(v)[|Print(v)| - 1] == '}'
  {
    if v.Atom? {
      AtomPlain(v.text);
      assert !IsStructural(v.text[0]);
    }
  }

  ghost predicate AtMember(b: string, f: Frame, k: nat, sp: Span) {
    Holds(b, f) && k < |f.members| && sp == SpanAt(f, k) && Depth(f.members[k].core.val) <= MAX_NESTING
  }

  lemma {:induction false} ShallowInside(ms: seq<Member>, i: nat)
    requires i < |ms|
    ensures Depth(ms[i].core.val) <= MembersDepth(ms)
  {
    if i > 0 {
      assert ms[i] == ms[1..][i - 1];
      ShallowInside(ms[1..], i - 1);
    }
  }

  lemma WithinFills(b: string, f: Frame, k: nat, sp: Span)
    requires AtMember(b, f, k, sp) && k < |f.members| && f.members[k].core.val.Obj?
    ensures sp.vStart <= |f.Body()| && Fills(b, Within(f, k), sp.vStart, sp.vEnd)
  {
    WithinHolds(b, f, k);
    var ms := f.members[k].core.val.members;
    forall i | 0 <= i < |ms| ensures Depth(ms[i].core.val) <= MAX_NESTING {
      ShallowInside(ms, i);
    }
  }

  /** The usage edit of an object in terms of positions in the body. */
  lemma UsageFound(b: string, f: Frame, fates: seq<Fate>, k: nat, sp: Span, g: Frame)
    requires UsageHere(b, f, fates, k, sp)
    requires f.members[k].core.val.Obj? && sp.vStart <= |f.Body()| && g == Within(f, k)
    ensures fates[k].Patch?
    ensures var j := First(g.members, "include_usage");
            PatchEdit(f, fates, k) ==
            if Has(g.members, "include_usage") then Edit(SpanAt(g, j).vStart, SpanAt(g, j).vEnd, "true")
            else Edit(sp.vEnd - 1, sp.vEnd - 1,
                      if g.members == [] then USAGE_KEY else "," + USAGE_KEY)
  {
    WithinHolds(b, f, k);
    UsageTexts();
    hide Print, CoreText, Edited, SpanAt, Holds, InsertText, IncludeUsage, Frame.Body;
    var c := f.members[k].core;
    var v := c.val;
    var n := |g.members|;
    var j := First(g.members, "include_usage");
    if j < n {
      var t := SetValue(g.members[j].core, Atom("true"));
      var inner := Only(n, j, t);
      ShiftedEdits(g, v, inner, j, "");
      SetEdit(g, inner, j, Atom("true"));
      PrintTrue();
      InsideEdit(f, fates, k, PatchEdit(Inner(v), inner, j), Edited(Inner(v), inner, []));
    } else {
      var ins := InsertText(n > 0, [IncludeUsage()]);
      ShiftedEdits(g, v, Only(n, n, Keep), n, ins);
      InsideEdit(f, fates, k, InsertEdit(Inner(v), ins), Edited(Inner(v), Only(n, n, Keep), [IncludeUsage()]));
    }
  }

  lemma PrintTrue()
    ensures Print(Atom("true")) == "true"
  {
  }

  lemma UsageReplaced(f: Frame, fates: seq<Fate>, k: nat)
    requires k < |f.members| && |fates| == |f.members| && fates[k] == UsageFate(f.members[k].core)
    requires !f.members[k].core.val.Obj?
    ensures fates[k].Patch?
    ensures PatchEdit(f, fates, k) == Edit(SpanAt(f, k).vStart, SpanAt(f, k).vEnd, "{" + USAGE_KEY + "}")
  {
    UsageTexts();
    hide Print, CoreText, UsageObject, SpanAt;
    SetEdit(f, fates, k, UsageObject());
  }

  /** The object has members exactly when something but whitespace is between its braces. */
  lemma UsageElems(b: string, g: Frame, objStart: nat, objEnd: nat, j: nat)
    requires Fills(b, g, objStart, objEnd) && objStart + 1 <= j <= objEnd - 1 < |b|
    requires (forall p | objStart + 1 <= p < j :: IsWs(b[p])) && (j < objEnd - 1 ==> !IsWs(b[j]))
    ensures j < objEnd - 1 <==> g.members != []
  {
    if g.members == [] {
      EmptyObject(g);
      var i, e := |g.head| + 1, g.ClosePos();
      forall p | i <= p < e ensures IsWs(b[p]) {
        assert b[p] == b[i..e][p - i];
      }
    } else {
      GapToMember(b, g, 0);
      hide Frame.KeyPos, Frame.EndPos, Frame.ClosePos, Holds;
      assert !IsWs(b[g.KeyPos(0)]);
    }
  }

  method UsageEdit(body: string, sp: Span, ghost f: Frame, ghost k: nat, ghost fates: seq<Fate>) returns (r: Edit)
    requires sp.vStart < sp.vEnd <= |body|
    ensures UsageHere(body, f, fates, k, sp) ==> fates[k].Patch? && r == PatchEdit(f, fates, k)
  {
    ghost var here := UsageHere(body, f, fates, k, sp);
    hide *;
    var s := SkipSpaces(body, sp.vStart, sp.vEnd);
    var e := sp.vEnd - 1;
    while e > s && IsWs(body[e])
      invariant sp.vStart <= e < sp.vEnd && (s <= e || e == sp.vEnd - 1)
      invariant here && body[sp.vEnd - 1] == '}' ==> e == sp.vEnd - 1
    {
      BraceNotWs();
      e := e - 1;
    }
    if here { FirstNonWs(body, f, fates, k, sp, s); }
    if s < sp.vEnd && body[s] == '{' && body[e] == '}' {
      r := UsageInside(body, s, e, sp, f, k, fates, here);
    } else {
      if here { UsageReplaced(f, fates, k); }
      r := Edit(sp.vStart, sp.vEnd, "{" + USAGE_KEY + "}");
    }
  }

  ghost predicate UsageHere(b: string, f: Frame, fates: seq<Fate>, k: nat, sp: Span) {
    AtMember(b, f, k, sp) && |fates| == |f.members| && fates[k] == UsageFate(f.members[k].core)
  }

  lemma UsageWithin(b: string, f: Frame, fates: seq<Fate>, k: nat, sp: Span)
    requires UsageHere(b, f, fates, k, sp) && k < |f.members| && f.members[k].core.val.Obj?
    ensures |fates| == |f.members| && sp == SpanAt(f, k) && sp.vStart <= |f.Body()|
    ensures Fills(b, Within(f, k), sp.vStart, sp.vEnd)
  {
    WithinFills(b, f, k, sp);
  }

  /** include_usage set, or inserted before the closing brace at e. */
  method UsageInside(body: string, s: nat, e: nat, sp: Span, ghost f: Frame, ghost k: nat, ghost fates: seq<Fate>,
                     ghost here: bool)
    returns (r: Edit)
    requires s < e < sp.vEnd <= |body|
    requires here ==> UsageHere(body, f, fates, k, sp) && s == sp.vStart && e == sp.vEnd - 1
    requires here ==> k < |f.members| == |fates| && f.members[k].core.val.Obj?
    ensures here ==> fates[k].Patch? && r == PatchEdit(f, fates, k)
  {
    hide *;
    ghost var g := Frame("", [], "", "");
    if here {
      UsageWithin(body, f, fates, k, sp);
      g := Within(f, k);
      UsageFound(body, f, fates, k, sp, g);
    }
    var ok, iu := ObjectField(body, s, sp.vEnd, "include_usage", g);
    if ok {
      return Edit(iu.vStart, iu.vEnd, "true");
    }
    var j := SkipSpaces(body, s + 1, e);
    if here { UsageElems(body, g, sp.vStart, sp.vEnd, j); }
    r := Edit(e, e, if j < e then "," + USAGE_KEY else USAGE_KEY);
  }

  lemma BraceNotWs()
    ensures !IsWs('}')
  {
  }

  lemma FirstNonWs(b: string, f: Frame, fates: seq<Fate>, k: nat, sp: Span, s: nat)
    requires UsageHere(b, f, fates, k, sp) && sp.vStart <= s <= |b| && (forall p | sp.vStart <= p < s :: IsWs(b[p]))
    ensures k < |f.members| && |fates| == |f.members| && s == sp.vStart < sp.vEnd <= |b| && sp == SpanAt(f, k)
    ensures AtMember(b, f, k, sp) && fates[k] == UsageFate(f.members[k].core)
    ensures b[s] == '{' <==> f.members[k].core.val.Obj?
    ensures f.members[k].core.val.Obj? ==> b[sp.vEnd - 1] == '}' && s < sp.vEnd - 1
  {
    ValueEnds(b, f, k);
    hide Holds, SpanAt, UsageFate;
  }

  const USAGE_KEY := "\"include_usage\":true"

  lemma UsageTexts()
    ensures Print(UsageObject()) == "{" + USAGE_KEY + "}"
    ensures InsertText(true, [IncludeUsage()]) == "," + USAGE_KEY
    ensures InsertText(false, [IncludeUsage()]) == USAGE_KEY
  {
    hide Print, CoreText, InsertText;
    UsageCoreText();
    SingleTexts(IncludeUsage());
  }

  lemma UsageCoreText()
    ensures CoreText(IncludeUsage()) == USAGE_KEY
  {
    PrintTrue();
    hide Print;
    assert "" + (":" + ("" + "true")) == ":true";
    assert Quoted("include_usage") + ":true" == "\"include_usage\":true";
  }

  /** One member with no whitespace around it. */
  lemma SingleTexts(c: Core)
    ensures Print(Obj([Member("", c, "")], "")) == "{" + CoreText(c) + "}"
    ensures InsertText(true, [c]) == "," + CoreText(c) && InsertText(false, [c]) == CoreText(c)
  {
    var x := CoreText(c);
    var m := Member("", c, "");
    assert MemberText(m) == x;
    assert Inserted([c]) == [m] by { assert [c][1..] == []; }
    assert [m][1..] == [] && [c][1..] == [];
    hide CoreText, MemberText;
    assert MemberTail([m]) == "," + x;
    assert PrintMembers([m], "") == x;
    assert x + "" == x;
  }

  // ---------------------------------------------------------------- "effort": "none" inside reasoning

  /** isEffortNone; a scanned value has no whitespace around it. */
  predicate IsEffortNone(val: string) {
    val == "\"none\"" || val == "\"\"" || val == "null"
  }

  ghost predicate AllEffort(ms: seq<Member>, k: nat)
    requires k <= |ms|
  {
    forall i | 0 <= i < k :: ms[i].core.key == "effort"
  }

  /** Where the loop over the keys is: all of the first k are `effort`. */
  ghost predicate Sweeping(body: string, g: Frame, k: nat, i: nat) {
    k <= |g.members| && Base(g, k) <= i <= Goal(g, k) && AllEffort(g.members, k)
  }

  method NestedReasoningSoleEffort(body: string, objStart: nat, objEnd: nat, ghost g: Frame)
    returns (sole: bool, none: bool, eff: Span)
    requires objStart < objEnd <= |body|
    ensures none ==> objStart < eff.kStart && eff.kStart + 2 <= eff.kEnd <= eff.vStart < eff.vEnd <= objEnd
    ensures !IsWs(body[objStart]) && body[objStart] != '{' ==> !none
    ensures Fills(body, g, objStart, objEnd) ==>
              && (none <==> HasEffortNone(Obj(g.members, g.gap)))
              && (none ==> eff == SpanAt(g, First(g.members, "effort")) && (sole <==> SoleEffort(Obj(g.members, g.gap))))
  {
    ghost var here := Fills(body, g, objStart, objEnd);
    sole, none := false, false;
    var ok;
    ok, eff := ObjectField(body, objStart, objEnd, "effort", g);
    if here && ok { EffortText(body, g, objStart, objEnd); }
    if !ok || !IsEffortNone(body[eff.vStart..eff.vEnd]) {
      return;
    }
    none := true;
    sole := SoleKey(body, objStart, objEnd, g);
  }

  lemma EffortText(b: string, g: Frame, objStart: nat, objEnd: nat)
    requires Fills(b, g, objStart, objEnd) && Has(g.members, "effort")
    ensures var j := First(g.members, "effort"); var s := SpanAt(g, j);
            s.vStart <= s.vEnd <= |b| && b[s.vStart..s.vEnd] == Print(g.members[j].core.val)
  {
    MemberReads(b, g, First(g.members, "effort"));
  }

  /** The loop of isNestedReasoningSoleEffort. */
  method SoleKey(body: string, objStart: nat, objEnd: nat, ghost g: Frame) returns (sole: bool)
    requires objStart < objEnd <= |body|
    ensures Fills(body, g, objStart, objEnd) ==> (sole <==> AllEffort(g.members, |g.members|))
  {
    ghost var here := Fills(body, g, objStart, objEnd);
    ghost var k := 0;
    if here { SweepStart(body, g, objStart, objEnd); }
    hide *;
    sole := true;
    var more := true;
    var i := objStart + 1;
    while sole && more && i < objEnd - 1
      invariant here && sole ==> Sweeping(body, g, k, i)
      invariant here && sole && !more ==> k == |g.members|
      invariant here && !sole ==> !AllEffort(g.members, |g.members|)
      decreases objEnd - i, more, sole
    {
      sole, more, i, k := SweepOne(body, objStart, objEnd, i, g, k);
    }
    if here && sole { SweepDone(body, g, objStart, objEnd, k, i); }
  }

  method SweepOne(body: string, objStart: nat, objEnd: nat, i0: nat, ghost g: Frame, ghost k: nat)
    returns (sole: bool, more: bool, i: nat, ghost k': nat)
    requires i0 < objEnd - 1 < |body|
    ensures i0 <= i && (sole && more ==> i0 < i)
    ensures Fills(body, g, objStart, objEnd) && Sweeping(body, g, k, i0) ==>
              && (sole ==> Sweeping(body, g, k', i))
              && (sole && !more ==> k' == |g.members|)
              && (!sole ==> !AllEffort(g.members, |g.members|))
  {
    ghost var here := Fills(body, g, objStart, objEnd) && Sweeping(body, g, k, i0);
    hide *;
    sole, more, k' := true, true, k;
    i := i0;
    while i < objEnd - 1 && IsSep(body[i])
      invariant i0 <= i <= objEnd - 1
      invariant forall q | i0 <= q < i :: IsSep(body[q])
    {
      i := i + 1;
    }
    if here { SweepSeps(body, g, objStart, objEnd, k, i0, i); }
    if i >= objEnd - 1 || body[i] == '}' || body[i] != '"' {
      more := false;
      return;
    }
    var key := SkipValueAt(body, i);
    if key == None {
      more := false;
      return;
    }
    SkipStringLength(body, i);
    if body[i + 1..key.value - 1] != "effort" {
      sole := false;
      return;
    }
    var ke := SkipSpaces(body, key.value, if key.value <= objEnd - 1 then objEnd - 1 else key.value);
    if here { SweepColon(body, g, objStart, objEnd, k, key.value, ke); }
    if ke < objEnd - 1 && body[ke] == ':' {
      ke := ke + 1;
    }
    var end := SkipValueAt(body, ke);
    if end == None {
      more := false;
      return;
    }
    if here { SweepNext(body, g, objStart, objEnd, k, i); }
    i, k' := end.value, k + 1;
  }

  lemma SkipStringLength(b: string, i: nat)
    requires i < |b| && b[i] == '"'
    ensures SkipValueAt(b, i).Some? ==> i + 2 <= SkipValueAt(b, i).value <= |b|
  {
  }

  lemma SweepStart(b: string, g: Frame, objStart: nat, objEnd: nat)
    requires Fills(b, g, objStart, objEnd)
    ensures Sweeping(b, g, 0, objStart + 1)
  {
    Gap(b, g, 0);
  }

  lemma SweepDone(b: string, g: Frame, objStart: nat, objEnd: nat, k: nat, i: nat)
    requires Fills(b, g, objStart, objEnd) && Sweeping(b, g, k, i) && (k == |g.members| || i >= objEnd - 1)
    ensures AllEffort(g.members, |g.members|)
  {
    Gap(b, g, k);
    GoalIs(g, k);
    hide Frame.KeyPos, Frame.EndPos, Frame.ClosePos, Holds, Base, Goal, AllEffort;
  }

  /** Behind the separators is the next key, which SkipValue reads, or the closing brace. */
  lemma SweepSeps(b: string, g: Frame, objStart: nat, objEnd: nat, k: nat, i: nat, j: nat)
    requires Fills(b, g, objStart, objEnd) && Sweeping(b, g, k, i)
    requires i <= j <= objEnd - 1 < |b| && (forall q | i <= q < j :: IsSep(b[q])) && (j < objEnd - 1 ==> !IsSep(b[j]))
    ensures Sweeping(b, g, k, j)
    ensures j >= objEnd - 1 ==> k == |g.members|
    ensures j < objEnd - 1 ==> k < |g.members| && b[j] == '"' && j == SpanAt(g, k).kStart
    ensures j < objEnd - 1 ==> SkipValueAt(b, j) == Some(SpanAt(g, k).kEnd) && SpanAt(g, k).kEnd <= objEnd - 1
    ensures j < objEnd - 1 ==> j + 2 <= SpanAt(g, k).kEnd <= |b| && b[j + 1..SpanAt(g, k).kEnd - 1] == g.members[k].core.key
    ensures j < objEnd - 1 && g.members[k].core.key != "effort" ==> !AllEffort(g.members, |g.members|)
  {
    Gap(b, g, k);
    GoalIs(g, k);
    if k < |g.members| { KeyReads(b, g, k); }
    hide Frame.KeyPos, Frame.EndPos, Frame.ClosePos, Holds, Base, Goal, SpanAt, SkipValueAt;
    assert !IsSep(b[Goal(g, k)]);
  }

  lemma SweepColon(b: string, g: Frame, objStart: nat, objEnd: nat, k: nat, i: nat, j: nat)
    requires Fills(b, g, objStart, objEnd) && k < |g.members| && i == SpanAt(g, k).kEnd <= j <= |b| && objEnd <= |b|
    requires (forall q | i <= q < j :: IsWs(b[q])) && (j == i || j <= objEnd - 1) && (j < objEnd - 1 ==> !IsWs(b[j]))
    requires i <= objEnd - 1
    ensures j < objEnd - 1 && b[j] == ':' && SkipValueAt(b, j + 1) == Some(SpanAt(g, k).vEnd)
  {
    var s := SpanAt(g, k);
    var colon := g.KeyPos(k) + |Quoted(g.members[k].core.key)| + |g.members[k].core.mid|;
    MemberReads(b, g, k);
    AfterMemberPos(b, g, k);
    SpanEnd(g, k);
    ColonFacts(b, s, colon, g.members[k].core);
    hide *;
    assert j == colon;
    SkipLeading(b, j + 1, s.vStart);
  }

  lemma ColonFacts(b: string, s: Span, colon: nat, c: Core)
    requires Reads(b, s, colon, c) && Depth(c.val) <= MAX_NESTING
    ensures s.kEnd <= colon < s.vStart < s.vEnd <= |b| && b[colon] == ':' && !IsWs(b[colon]) && !IsWs(b[s.vStart])
    ensures (forall q | s.kEnd <= q < colon :: IsWs(b[q])) && Spaces(b, colon + 1, s.vStart)
    ensures SkipValueAt(b, s.vStart) == Some(s.vEnd)
  {
    hide SkipValueAt, Print, Depth;
  }

  lemma SkipLeading(b: string, i: nat, j: nat)
    requires Spaces(b, i, j) && j < |b| && !IsWs(b[j])
    ensures SkipValueAt(b, i) == SkipValueAt(b, j)
  {
    hide SkipToken;
    assert b[i..] == b[i..j] + b[j..];
    SkipWsPrefix(b[i..j], b[j..]);
    SkipWsPrefix("", b[j..]);
    assert "" + b[j..] == b[j..];
  }

  lemma SweepNext(b: string, g: Frame, objStart: nat, objEnd: nat, k: nat, i: nat)
    requires Fills(b, g, objStart, objEnd) && k < |g.members| && Sweeping(b, g, k, i)
    requires g.members[k].core.key == "effort"
    ensures Sweeping(b, g, k + 1, SpanAt(g, k).vEnd) && SpanAt(g, k).kStart < SpanAt(g, k).vEnd
  {
    AfterMemberPos(b, g, k);
    KeyReads(b, g, k);
    hide Frame.KeyPos, Frame.EndPos, Frame.ClosePos, Frame.Body, Holds, Base, Goal, SpanAt;
  }
}
