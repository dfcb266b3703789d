/**
 Span edits on the members of one JSON object: what the edits of pkg/server/dispatch.go mean when
 they are spliced into the text around them.

 Every member gets a fate (keep, patch, drop); `Canon` lists the edits the source makes for these
 fates, in order, and `SpliceCanon` shows that splicing them yields the text of the object whose
 members are the surviving ones followed by the inserted ones.
 */
module ObjectEdit {
  import opened Wrappers
  import opened Json

  /** A byte range [start, end) to be replaced. */
  datatype Edit = Edit(start: nat, end: nat, repl: string)

  /** Sorted, disjoint, with distinct starts, inside [lo, hi]. */
  ghost predicate Ordered(es: seq<Edit>, lo: nat, hi: nat) {
    es == [] || (lo <= es[0].start <= es[0].end <= hi && Ordered(es[1..], Max(es[0].end, es[0].start + 1), hi))
  }

  /** What SpliceInto appends from `cur` on. */
  ghost function Splice(body: string, es: seq<Edit>, cur: nat): string
    requires cur <= |body| && Ordered(es, cur, |body|)
  {
    if es == [] then body[cur..]
    else
      OrderedLower(es[1..], Max(es[0].end, es[0].start + 1), es[0].end, |body|);
      body[cur..es[0].start] + es[0].repl + Splice(body, es[1..], es[0].end)
  }

  lemma OrderedLower(es: seq<Edit>, lo: nat, lo': nat, hi: nat)
    requires Ordered(es, lo, hi) && lo' <= lo
    ensures Ordered(es, lo', hi)
  {
  }

  lemma SpliceFrom(body: string, es: seq<Edit>, p: nat, q: nat)
    requires p <= q <= |body| && Ordered(es, q, |body|)
    ensures Ordered(es, p, |body|) && Splice(body, es, p) == body[p..q] + Splice(body, es, q)
  {
    OrderedLower(es, q, p, |body|);
    if es == [] {
      assert body[p..] == body[p..q] + body[q..];
    } else {
      assert body[p..es[0].start] == body[p..q] + body[q..es[0].start];
    }
  }

  lemma OrderedStarts(es: seq<Edit>, lo: nat, hi: nat, i: nat)
    requires Ordered(es, lo, hi) && i < |es|
    ensures lo <= es[i].start <= es[i].end <= hi
    ensures i > 0 ==> es[0].start < es[i].start
  {
    if i > 0 {
      OrderedStarts(es[1..], Max(es[0].end, es[0].start + 1), hi, i - 1);
    }
  }

  ghost predicate StrictlySorted(es: seq<Edit>) {
    forall i, j | 0 <= i < j < |es| :: es[i].start < es[j].start
  }

  lemma {:induction false} OrderedIsSorted(es: seq<Edit>, lo: nat, hi: nat)
    requires Ordered(es, lo, hi)
    ensures StrictlySorted(es)
  {
    if es != [] {
      OrderedIsSorted(es[1..], Max(es[0].end, es[0].start + 1), hi);
      forall i, j | 0 <= i < j < |es| ensures es[i].start < es[j].start {
        if i == 0 {
          OrderedStarts(es, lo, hi, j);
        } else {
          assert es[i] == es[1..][i - 1] && es[j] == es[1..][j - 1];
        }
      }
    }
  }

  lemma SameEmptiness(a: seq<Edit>, b: seq<Edit>)
    requires forall e :: e in a <==> e in b
    ensures b != [] ==> a != []
  {
    if b != [] {
      assert b[0] in b;
    }
  }

  lemma DropHead(a: seq<Edit>, b: seq<Edit>)
    requires StrictlySorted(a) && a != [] && b != [] && a[0] == b[0]
    requires forall e | e in a :: e in b
    ensures forall e | e in a[1..] :: e in b[1..]
  {
    forall e | e in a[1..] ensures e in b[1..] {
      var k :| 0 <= k < |a[1..]| && a[1..][k] == e;
      assert a[k + 1] == e;
      assert e in b && e != b[0];
    }
  }

  lemma SameHead(a: seq<Edit>, b: seq<Edit>)
    requires StrictlySorted(a) && StrictlySorted(b) && a != [] && b != []
    requires forall e :: e in a <==> e in b
    ensures a[0] == b[0]
  {
    assert a[0] in b && b[0] in a;
    var i :| 0 <= i < |b| && b[i] == a[0];
    var j :| 0 <= j < |a| && a[j] == b[0];
    assert b[0].start <= b[i].start && a[0].start <= a[j].start;
  }

  lemma TailSorted(a: seq<Edit>)
    requires StrictlySorted(a) && a != []
    ensures StrictlySorted(a[1..])
  {
  }

  /** A strictly sorted list is determined by what is in it. */
  lemma {:induction false} SortedUnique(a: seq<Edit>, b: seq<Edit>)
    requires StrictlySorted(a) && StrictlySorted(b)
    requires forall e :: e in a <==> e in b
    ensures a == b
  {
    SameEmptiness(a, b);
    SameEmptiness(b, a);
    if a != [] {
      SameHead(a, b);
      DropHead(a, b);
      DropHead(b, a);
      TailSorted(a);
      TailSorted(b);
      hide StrictlySorted;
      SortedUnique(a[1..], b[1..]);
      assert a == [a[0]] + a[1..] && b == [b[0]] + b[1..];
    }
  }

  // ---------------------------------------------------------------- an object inside a body

  /** The object `{members}` with the bytes around it. Members are counted from 0. */
  datatype Frame = Frame(head: string, members: seq<Member>, gap: string, rest: string) {
    function Text(): string {
      "{" + PrintMembers(members, gap) + "}"
    }

    function Body(): string {
      head + (Text() + rest)
    }

    ghost predicate Ok() {
      AllWs(gap) && forall i | 0 <= i < |members| :: ValidMember(members[i])
    }

    /** Where the whitespace before member k starts. */
    function StartPos(k: nat): nat
      requires k <= |members|
      decreases k, 0
    {
      if k == 0 then |head| + 1 else EndPos(k - 1) + |members[k - 1].post| + 1
    }

    function KeyPos(k: nat): nat
      requires k < |members|
      decreases k, 1
    {
      StartPos(k) + |members[k].pre|
    }

    /** Behind the value of member k. */
    function EndPos(k: nat): nat
      requires k < |members|
      decreases k, 2
    {
      KeyPos(k) + |CoreText(members[k].core)|
    }

    function ClosePos(): nat {
      if members == [] then |head| + 1 + |gap| else StartPos(|members|) - 1
    }

    // The rest of the body at these positions.

    function TailAt(k: nat): string
      requires k <= |members|
    {
      MemberTail(members[k..]) + ("}" + rest)
    }

    function AfterValue(k: nat): string
      requires k < |members|
    {
      members[k].post + TailAt(k + 1)
    }

    function FromKey(k: nat): string
      requires k < |members|
    {
      CoreText(members[k].core) + AfterValue(k)
    }

    function FromMember(k: nat): string
      requires k < |members|
    {
      members[k].pre + FromKey(k)
    }
  }

  /** The text `b` goes on with `suffix` at `p`. */
  ghost predicate At(b: string, p: nat, suffix: string) {
    p <= |b| && b[p..] == suffix
  }

  lemma AtStep(b: string, p: nat, x: string, y: string)
    requires At(b, p, x + y)
    ensures At(b, p + |x|, y) && p + |x| + |y| == |b| && b[p..p + |x|] == x
  {
    assert b[p..][|x|..] == b[p + |x|..];
    assert b[p..][..|x|] == b[p..p + |x|];
  }

  lemma Regroup(x: string, pre: string, core: string, post: string, t: string, z: string)
    ensures x + ((pre + (core + post)) + t) + z == x + (pre + (core + (post + (t + z))))
  {
  }

  lemma TailCons(f: Frame, k: nat)
    requires k < |f.members|
    ensures f.TailAt(k) == "," + f.FromMember(k)
  {
    var ms := f.members;
    var m, t := ms[k], ms[k + 1..];
    assert ms[k..] == [m] + t;
    assert MemberTail(ms[k..]) == "," + (MemberText(m) + MemberTail(t)) by {
      assert ms[k..][0] == m && ms[k..][1..] == t;
    }
    Regroup(",", m.pre, CoreText(m.core), m.post, MemberTail(t), "}" + f.rest);
  }

  lemma BodyOpen(f: Frame)
    ensures At(f.Body(), |f.head|, "{" + (PrintMembers(f.members, f.gap) + ("}" + f.rest)))
    ensures f.Body()[..|f.head| + 1] == f.head + "{"
  {
    var b := f.Body();
    assert b[|f.head|..] == f.Text() + f.rest;
    assert f.Text() + f.rest == "{" + (PrintMembers(f.members, f.gap) + ("}" + f.rest));
  }

  lemma FirstMember(f: Frame)
    requires f.members != []
    ensures At(f.Body(), f.StartPos(0), f.FromMember(0))
  {
    var z := "}" + f.rest;
    var m, t := f.members[0], f.members[1..];
    BodyOpen(f);
    Regroup("", m.pre, CoreText(m.core), m.post, MemberTail(t), z);
    assert MemberText(m) + MemberTail(t) + z == "" + (MemberText(m) + MemberTail(t)) + z;
    assert "" + f.FromMember(0) == f.FromMember(0);
    AtStep(f.Body(), |f.head|, "{", f.FromMember(0));
  }

  lemma EmptyObject(f: Frame)
    requires f.members == []
    ensures At(f.Body(), f.ClosePos(), "}" + f.rest)
    ensures f.Body()[|f.head| + 1..f.ClosePos()] == f.gap
  {
    BodyOpen(f);
    AtStep(f.Body(), |f.head|, "{", f.gap + ("}" + f.rest));
    AtStep(f.Body(), |f.head| + 1, f.gap, "}" + f.rest);
  }

  ghost predicate PartsAt(f: Frame, b: string, k: nat)
    requires k < |f.members|
  {
    && At(b, f.StartPos(k), f.FromMember(k))
    && At(b, f.KeyPos(k), f.FromKey(k))
    && At(b, f.EndPos(k), f.AfterValue(k))
    && At(b, f.StartPos(k + 1) - 1, f.TailAt(k + 1))
    && b[f.StartPos(k)..f.KeyPos(k)] == f.members[k].pre
    && b[f.KeyPos(k)..f.EndPos(k)] == CoreText(f.members[k].core)
  }

  lemma MemberParts(f: Frame, b: string, k: nat)
    requires k < |f.members| && At(b, f.StartPos(k), f.FromMember(k))
    ensures PartsAt(f, b, k)
  {
    var m := f.members[k];
    AtStep(b, f.StartPos(k), m.pre, f.FromKey(k));
    AtStep(b, f.KeyPos(k), CoreText(m.core), f.AfterValue(k));
    AtStep(b, f.EndPos(k), m.post, f.TailAt(k + 1));
  }

  lemma {:induction false} MemberStart(f: Frame, b: string, k: nat)
    requires k < |f.members| && At(b, f.StartPos(0), f.FromMember(0))
    ensures At(b, f.StartPos(k), f.FromMember(k))
  {
    hide *;
    if k > 0 {
      MemberStart(f, b, k - 1);
      MemberParts(f, b, k - 1);
      PartsTail(f, b, k - 1);
      TailCons(f, k);
      AtStep(b, f.StartPos(k) - 1, ",", f.FromMember(k));
    }
  }

  lemma PartsTail(f: Frame, b: string, k: nat)
    requires k < |f.members| && PartsAt(f, b, k)
    ensures f.StartPos(k + 1) >= 1 && At(b, f.StartPos(k + 1) - 1, f.TailAt(k + 1))
  {
    hide Frame.FromKey, Frame.FromMember, Frame.AfterValue, Frame.TailAt, CoreText, At;
  }

  /** Where the parts of member k lie. */
  lemma MemberAt(f: Frame, k: nat)
    requires k < |f.members|
    ensures PartsAt(f, f.Body(), k)
  {
    FirstMember(f);
    MemberStart(f, f.Body(), k);
    MemberParts(f, f.Body(), k);
  }

  lemma CloseAt(f: Frame)
    ensures At(f.Body(), f.ClosePos(), "}" + f.rest)
    ensures f.ClosePos() + 1 + |f.rest| == |f.Body()|
  {
    var n := |f.members|;
    if n > 0 {
      MemberAt(f, n - 1);
      TailEnd(f);
    } else {
      EmptyObject(f);
    }
    assert f.Body()[f.ClosePos()..] == "}" + f.rest;
  }

  lemma TailEnd(f: Frame)
    ensures f.TailAt(|f.members|) == "}" + f.rest
  {
    assert f.members[|f.members|..] == [];
    assert "" + ("}" + f.rest) == "}" + f.rest;
  }

  lemma PosMonotone(f: Frame, k: nat, j: nat)
    requires k <= j < |f.members|
    ensures f.EndPos(k) <= f.EndPos(j) && f.KeyPos(k) <= f.KeyPos(j)
    ensures k < j ==> f.EndPos(k) < f.KeyPos(j)
    ensures f.EndPos(j) < f.StartPos(j + 1) <= f.ClosePos() + 1
    decreases j - k
  {
    AfterMember(f, j);
    if k < j {
      PosMonotone(f, k, j - 1);
      assert f.StartPos(j) > f.EndPos(j - 1);
    }
  }

  lemma AfterMember(f: Frame, j: nat)
    requires j < |f.members|
    ensures f.StartPos(j + 1) <= f.ClosePos() + 1
    decreases |f.members| - j
  {
    if j + 1 < |f.members| {
      AfterMember(f, j + 1);
      assert f.EndPos(j + 1) >= f.StartPos(j + 1);
    } else {
      assert f.ClosePos() == f.StartPos(j + 1) - 1;
    }
  }

  // ---------------------------------------------------------------- fates and their edits

  /** `start` and `end` of a patch count from the opening quote of the member. */
  datatype Fate = Keep | Patch(start: nat, end: nat, repl: string, core: Core) | Drop

  ghost predicate FateOk(c: Core, t: Fate) {
    t.Patch? ==>
      && t.start <= t.end <= |CoreText(c)| && t.start < |CoreText(c)|
      && CoreText(c)[..t.start] + t.repl + CoreText(c)[t.end..] == CoreText(t.core)
      && ValidCore(t.core)
  }

  ghost predicate FatesOk(f: Frame, fates: seq<Fate>) {
    && f.Ok()
    && |fates| == |f.members|
    && forall i | 0 <= i < |fates| :: FateOk(f.members[i].core, fates[i])
  }

  function NewCore(c: Core, t: Fate): Core
  {
    if t.Patch? then t.core else c
  }

  /** The cores of the members that survive, from member k on. */
  function NewCores(f: Frame, fates: seq<Fate>, k: nat): seq<Core>
    requires |fates| == |f.members| && k <= |fates|
    decreases |fates| - k
  {
    if k == |fates| then []
    else if fates[k].Drop? then NewCores(f, fates, k + 1)
    else [NewCore(f.members[k].core, fates[k])] + NewCores(f, fates, k + 1)
  }

  /** The end of the run of dropped members around k. */
  function RunEnd(fates: seq<Fate>, k: nat): (j: nat)
    requires k <= |fates|
    ensures k <= j <= |fates| && (j < |fates| ==> !fates[j].Drop?)
    ensures forall i | k <= i < j :: fates[i].Drop?
    decreases |fates| - k
  {
    if k < |fates| && fates[k].Drop? then RunEnd(fates, k + 1) else k
  }

  function PatchEdit(f: Frame, fates: seq<Fate>, k: nat): Edit
    requires |fates| == |f.members| && k < |fates| && fates[k].Patch?
  {
    Edit(f.KeyPos(k) + fates[k].start, f.KeyPos(k) + fates[k].end, fates[k].repl)
  }

  /** The edit that drops the run of members k..j-1, with the comma deleteMemberSpan takes along. */
  function DropEdit(f: Frame, k: nat, j: nat): Edit
    requires k < j <= |f.members|
  {
    if k > 0 then Edit(f.StartPos(k) - 1, f.EndPos(j - 1), "")
    else if j < |f.members| then Edit(f.KeyPos(0), f.StartPos(j), "")
    else Edit(f.KeyPos(0), f.EndPos(j - 1), "")
  }

  function InsertEdit(f: Frame, ins: string): Edit {
    Edit(f.ClosePos(), f.ClosePos(), ins)
  }

  /** All edits from member k on, in order. */
  function Canon(f: Frame, fates: seq<Fate>, ins: string, k: nat): seq<Edit>
    requires |fates| == |f.members| && k <= |fates|
    decreases |fates| - k
  {
    if k == |fates| then
      if ins == "" then [] else [InsertEdit(f, ins)]
    else if fates[k].Drop? then
      [DropEdit(f, k, RunEnd(fates, k))] + Canon(f, fates, ins, RunEnd(fates, k))
    else if fates[k].Keep? then Canon(f, fates, ins, k + 1)
    else [PatchEdit(f, fates, k)] + Canon(f, fates, ins, k + 1)
  }

  ghost predicate RunAt(fates: seq<Fate>, k: nat, j: nat) {
    && k < j <= |fates|
    && (k == 0 || !fates[k - 1].Drop?)
    && (j == |fates| || !fates[j].Drop?)
    && forall i | k <= i < j :: fates[i].Drop?
  }

  ghost predicate Planned(f: Frame, fates: seq<Fate>, ins: string, from: nat, e: Edit)
    requires |fates| == |f.members|
  {
    || (exists k: nat :: from <= k < |fates| && PatchIs(f, fates, k, e))
    || (exists k: nat, j: nat :: from <= k && RunIs(f, fates, k, j, e))
    || (ins != "" && e == InsertEdit(f, ins))
  }

  ghost predicate PatchIs(f: Frame, fates: seq<Fate>, k: nat, e: Edit)
    requires |fates| == |f.members| && k < |fates|
  {
    fates[k].Patch? && e == PatchEdit(f, fates, k)
  }

  ghost predicate RunIs(f: Frame, fates: seq<Fate>, k: nat, j: nat, e: Edit)
    requires |fates| == |f.members|
  {
    RunAt(fates, k, j) && e == DropEdit(f, k, j)
  }

  lemma {:induction false} CanonIn(f: Frame, fates: seq<Fate>, ins: string, k: nat, e: Edit)
    requires |fates| == |f.members| && k <= |fates|
    requires k == 0 || k == |fates| || !fates[k].Drop? || !fates[k - 1].Drop?
    ensures e in Canon(f, fates, ins, k) <==> Planned(f, fates, ins, k, e)
    decreases |fates| - k
  {
    if k == |fates| {
    } else if fates[k].Drop? {
      var j := RunEnd(fates, k);
      CanonIn(f, fates, ins, j, e);
      assert RunAt(fates, k, j);
      assert e == DropEdit(f, k, j) ==> RunIs(f, fates, k, j, e);
      if Planned(f, fates, ins, k, e) && !Planned(f, fates, ins, j, e) {
        if k':nat, j':nat :| k <= k' && RunIs(f, fates, k', j', e) {
          assert k' == k;
          assert j' == j;
        }
      }
    } else {
      CanonIn(f, fates, ins, k + 1, e);
      if fates[k].Patch? {
        assert e == PatchEdit(f, fates, k) ==> PatchIs(f, fates, k, e);
      }
      if Planned(f, fates, ins, k, e) && !Planned(f, fates, ins, k + 1, e) {
        assert PatchIs(f, fates, k, e);
      }
    }
  }

  /** Where the edits from member k on may start: behind the value of the member before. */
  ghost function LowAt(f: Frame, k: nat): nat
    requires k <= |f.members|
  {
    if k == 0 then |f.head| + 1 else f.EndPos(k - 1)
  }

  lemma {:induction false} CanonOrdered(f: Frame, fates: seq<Fate>, ins: string, k: nat)
    requires FatesOk(f, fates) && k <= |fates|
    requires k == 0 || k == |fates| || !fates[k].Drop? || !fates[k - 1].Drop?
    ensures Ordered(Canon(f, fates, ins, k), LowAt(f, k), f.ClosePos())
    ensures k < |fates| && !fates[k].Drop? ==> Ordered(Canon(f, fates, ins, k), f.KeyPos(k), f.ClosePos())
    decreases |fates| - k
  {
    if k == |fates| {
    } else if fates[k].Drop? {
      var j := RunEnd(fates, k);
      CanonOrdered(f, fates, ins, j);
      DropFirst(f, k, j, Canon(f, fates, ins, j));
    } else {
      var es := Canon(f, fates, ins, k + 1);
      CanonOrdered(f, fates, ins, k + 1);
      if fates[k].Patch? {
        PatchFirst(f, fates, k, es);
      } else {
        OrderedLower(es, f.EndPos(k), f.KeyPos(k), f.ClosePos());
      }
      if k > 0 { PosMonotone(f, k - 1, k); }
      OrderedLower(Canon(f, fates, ins, k), f.KeyPos(k), LowAt(f, k), f.ClosePos());
    }
  }

  lemma PatchFirst(f: Frame, fates: seq<Fate>, k: nat, es: seq<Edit>)
    requires FatesOk(f, fates) && k < |fates| && fates[k].Patch?
    requires Ordered(es, f.EndPos(k), f.ClosePos())
    ensures Ordered([PatchEdit(f, fates, k)] + es, f.KeyPos(k), f.ClosePos())
  {
    PosMonotone(f, k, k);
    var e := PatchEdit(f, fates, k);
    assert ([e] + es)[1..] == es;
    OrderedLower(es, f.EndPos(k), Max(e.end, e.start + 1), f.ClosePos());
  }

  lemma DropFirst(f: Frame, k: nat, j: nat, es: seq<Edit>)
    requires k < j <= |f.members|
    requires Ordered(es, f.EndPos(j - 1), f.ClosePos())
    requires j < |f.members| ==> Ordered(es, f.KeyPos(j), f.ClosePos())
    ensures Ordered([DropEdit(f, k, j)] + es, LowAt(f, k), f.ClosePos())
  {
    PosMonotone(f, k, j - 1);
    var e := DropEdit(f, k, j);
    assert ([e] + es)[1..] == es;
    if k == 0 && j < |f.members| {
      PosMonotone(f, j, j);
      OrderedLower(es, f.KeyPos(j), e.end, f.ClosePos());
    }
  }

  lemma OrderedUpper(es: seq<Edit>, lo: nat, hi: nat, hi': nat)
    requires Ordered(es, lo, hi) && hi <= hi'
    ensures Ordered(es, lo, hi')
  {
  }

  /** The edits from member k on may be applied from any earlier position. */
  lemma CanonFrom(f: Frame, fates: seq<Fate>, ins: string, k: nat, p: nat)
    requires FatesOk(f, fates) && k <= |fates|
    requires k == 0 || k == |fates| || !fates[k].Drop? || !fates[k - 1].Drop?
    requires p <= LowAt(f, k) || (k < |fates| && !fates[k].Drop? && p <= f.KeyPos(k))
    ensures Ordered(Canon(f, fates, ins, k), p, |f.Body()|)
    ensures p <= f.ClosePos() < |f.Body()|
  {
    CanonOrdered(f, fates, ins, k);
    CloseAt(f);
    var es := Canon(f, fates, ins, k);
    if k < |fates| { PosMonotone(f, k, k); }
    if k > 0 { PosMonotone(f, k - 1, k - 1); }
    if p <= LowAt(f, k) {
      OrderedLower(es, LowAt(f, k), p, f.ClosePos());
    } else {
      OrderedLower(es, f.KeyPos(k), p, f.ClosePos());
    }
    OrderedUpper(es, p, f.ClosePos(), |f.Body()|);
  }

  /** A surviving member: its new core in place of the old one. */
  lemma SpliceCore(f: Frame, fates: seq<Fate>, ins: string, k: nat, p: nat)
    requires FatesOk(f, fates) && k < |fates| && !fates[k].Drop? && p <= f.KeyPos(k)
    ensures Ordered(Canon(f, fates, ins, k), p, |f.Body()|)
    ensures Ordered(Canon(f, fates, ins, k + 1), f.EndPos(k), |f.Body()|)
    ensures p <= f.EndPos(k) <= |f.Body()|
    ensures Splice(f.Body(), Canon(f, fates, ins, k), p) ==
            f.Body()[p..f.KeyPos(k)] +
            (CoreText(NewCore(f.members[k].core, fates[k])) + Splice(f.Body(), Canon(f, fates, ins, k + 1), f.EndPos(k)))
  {
    hide *;
    FatesLength(f, fates);
    CanonHere(f, fates, ins, k, p);
    CanonFrom(f, fates, ins, k, p);
    CanonFrom(f, fates, ins, k + 1, f.EndPos(k));
    MemberAt(f, k);
    PartsCore(f, f.Body(), k);
    SpliceCoreIn(f.Body(), fates[k], f.members[k].core, f.KeyPos(k), f.EndPos(k), p,
                 Canon(f, fates, ins, k), Canon(f, fates, ins, k + 1));
  }

  lemma FatesLength(f: Frame, fates: seq<Fate>)
    requires FatesOk(f, fates)
    ensures |fates| == |f.members|
  {
  }

  /** A surviving member in the canonical edits, and that the edits behind it may start at its end. */
  lemma CanonHere(f: Frame, fates: seq<Fate>, ins: string, k: nat, p: nat)
    requires FatesOk(f, fates) && k < |fates| && !fates[k].Drop? && p <= f.KeyPos(k)
    ensures Canon(f, fates, ins, k) ==
            (if fates[k].Patch? then [Edit(f.KeyPos(k) + fates[k].start, f.KeyPos(k) + fates[k].end, fates[k].repl)] else [])
            + Canon(f, fates, ins, k + 1)
    ensures FateOk(f.members[k].core, fates[k]) && f.EndPos(k) <= LowAt(f, k + 1)
    ensures k + 1 == |fates| || !fates[k + 1].Drop? || !fates[k].Drop?
  {
    hide CoreText, FateOk, Frame.StartPos, Frame.KeyPos;
  }

  lemma PartsCore(f: Frame, b: string, k: nat)
    requires k < |f.members| && PartsAt(f, b, k)
    ensures f.KeyPos(k) < f.EndPos(k) <= |b| && b[f.KeyPos(k)..f.EndPos(k)] == CoreText(f.members[k].core)
  {
    hide Frame.StartPos, Frame.KeyPos, Frame.FromKey, Frame.FromMember, Frame.AfterValue, Frame.TailAt;
  }

  lemma SpliceCoreIn(b: string, t: Fate, c: Core, key: nat, end: nat, p: nat, es: seq<Edit>, rest: seq<Edit>)
    requires p <= key < end <= |b| && b[key..end] == CoreText(c) && FateOk(c, t)
    requires es == (if t.Patch? then [Edit(key + t.start, key + t.end, t.repl)] else []) + rest
    requires Ordered(es, p, |b|) && Ordered(rest, end, |b|)
    ensures Splice(b, es, p) == b[p..key] + (CoreText(NewCore(c, t)) + Splice(b, rest, end))
  {
    if t.Patch? {
      SplicePatch(b, t, key, end, p, rest);
    } else {
      hide CoreText, ValidCore;
      assert [] + rest == rest;
      SpliceFrom(b, rest, p, end);
      assert b[p..end] + Splice(b, rest, end) == b[p..key] + (b[key..end] + Splice(b, rest, end));
    }
  }

  lemma SplicePatch(b: string, t: Fate, key: nat, end: nat, p: nat, rest: seq<Edit>)
    requires p <= key < end <= |b| && t.Patch? && t.start <= t.end <= end - key && t.start < end - key
    requires Ordered([Edit(key + t.start, key + t.end, t.repl)] + rest, p, |b|) && Ordered(rest, end, |b|)
    ensures Splice(b, [Edit(key + t.start, key + t.end, t.repl)] + rest, p) ==
            b[p..key] + ((b[key..end][..t.start] + t.repl + b[key..end][t.end..]) + Splice(b, rest, end))
  {
    hide *;
    var core := b[key..end];
    SpliceCons(b, Edit(key + t.start, key + t.end, t.repl), rest, p);
    SpliceFrom(b, rest, key + t.end, end);
    CutCore(b, p, key, end, t.start, t.end);
    Regroup5(b[p..key], core[..t.start], t.repl, core[t.end..], Splice(b, rest, end));
  }

  lemma SpliceCons(b: string, e: Edit, rest: seq<Edit>, p: nat)
    requires Ordered([e] + rest, p, |b|)
    ensures p <= e.start <= e.end <= |b| && Ordered(rest, e.end, |b|)
    ensures Splice(b, [e] + rest, p) == b[p..e.start] + e.repl + Splice(b, rest, e.end)
  {
    assert ([e] + rest)[1..] == rest;
  }

  lemma CutCore(b: string, p: nat, key: nat, end: nat, i: nat, j: nat)
    requires p <= key <= end <= |b| && i <= j <= end - key
    ensures b[p..key + i] == b[p..key] + b[key..end][..i] && b[key + j..end] == b[key..end][j..]
  {
  }

  lemma Regroup5(a: string, b: string, c: string, d: string, e: string)
    ensures (a + b) + c + (d + e) == a + ((b + c + d) + e)
  {
  }

  /** What follows a surviving member k-1: the whitespace behind it, then the surviving members from k on. */
  function After(f: Frame, fates: seq<Fate>, k: nat): (string, seq<Member>)
    requires |fates| == |f.members| && 1 <= k <= |fates|
    decreases |fates| - k
  {
    var post := f.members[k - 1].post;
    if k == |fates| then (post, [])
    else if fates[k].Drop? then
      var r := After(f, fates, RunEnd(fates, k));
      (post + r.0, r.1)
    else
      var r := After(f, fates, k + 1);
      (post, [Member(f.members[k].pre, NewCore(f.members[k].core, fates[k]), r.0)] + r.1)
  }

  lemma {:induction false} AfterOk(f: Frame, fates: seq<Fate>, k: nat)
    requires FatesOk(f, fates) && 1 <= k <= |fates|
    requires k == |fates| || !fates[k].Drop? || !fates[k - 1].Drop?
    ensures AllWs(After(f, fates, k).0) && forall m | m in After(f, fates, k).1 :: ValidMember(m)
    ensures Cores(After(f, fates, k).1) == NewCores(f, fates, k)
    decreases |fates| - k
  {
    if k == |fates| {
    } else if fates[k].Drop? {
      var j := RunEnd(fates, k);
      AfterOk(f, fates, j);
      SkipDropped(f, fates, k, j);
    } else {
      AfterOk(f, fates, k + 1);
      var r := After(f, fates, k + 1);
      var m := Member(f.members[k].pre, NewCore(f.members[k].core, fates[k]), r.0);
      assert Cores([m] + r.1) == [m.core] + Cores(r.1);
    }
  }

  function Cores(ms: seq<Member>): (r: seq<Core>)
    ensures |r| == |ms|
  {
    seq(|ms|, i requires 0 <= i < |ms| => ms[i].core)
  }

  lemma {:induction false} SkipDropped(f: Frame, fates: seq<Fate>, k: nat, j: nat)
    requires |fates| == |f.members| && k <= j <= |fates| && forall i | k <= i < j :: fates[i].Drop?
    ensures NewCores(f, fates, k) == NewCores(f, fates, j)
    decreases j - k
  {
    if k < j {
      SkipDropped(f, fates, k + 1, j);
    }
  }

  function Close(f: Frame, ins: string): string {
    ins + ("}" + f.rest)
  }

  lemma {:induction false} SpliceAfter(f: Frame, fates: seq<Fate>, ins: string, k: nat)
    requires FatesOk(f, fates) && 1 <= k <= |fates|
    requires k == |fates| || !fates[k].Drop? || !fates[k - 1].Drop?
    ensures Ordered(Canon(f, fates, ins, k), f.EndPos(k - 1), |f.Body()|) && f.EndPos(k - 1) <= |f.Body()|
    ensures Splice(f.Body(), Canon(f, fates, ins, k), f.EndPos(k - 1)) ==
            After(f, fates, k).0 + (MemberTail(After(f, fates, k).1) + Close(f, ins))
    decreases |fates| - k
  {
    hide Splice, Frame.Body, MemberTail, Frame.EndPos, CoreText, Ordered;
    CanonFrom(f, fates, ins, k, f.EndPos(k - 1));
    if k == |fates| {
      SpliceLast(f, fates, ins);
    } else if fates[k].Drop? {
      var j := RunEnd(fates, k);
      SpliceAfter(f, fates, ins, j);
      SpliceDrop(f, fates, ins, k, j);
      var r := After(f, fates, j);
      var z := MemberTail(r.1) + Close(f, ins);
      var post := f.members[k - 1].post;
      assert post + (r.0 + z) == (post + r.0) + z;
      assert After(f, fates, k) == (post + r.0, r.1);
    } else {
      SpliceAfter(f, fates, ins, k + 1);
      SpliceKept(f, fates, ins, k);
    }
  }

  lemma SpliceKept(f: Frame, fates: seq<Fate>, ins: string, k: nat)
    requires FatesOk(f, fates) && 1 <= k < |fates| && !fates[k].Drop?
    requires Ordered(Canon(f, fates, ins, k + 1), f.EndPos(k), |f.Body()|) && f.EndPos(k) <= |f.Body()|
    requires Splice(f.Body(), Canon(f, fates, ins, k + 1), f.EndPos(k)) ==
             After(f, fates, k + 1).0 + (MemberTail(After(f, fates, k + 1).1) + Close(f, ins))
    ensures Ordered(Canon(f, fates, ins, k), f.EndPos(k - 1), |f.Body()|) && f.EndPos(k - 1) <= |f.Body()|
    ensures Splice(f.Body(), Canon(f, fates, ins, k), f.EndPos(k - 1)) ==
            After(f, fates, k).0 + (MemberTail(After(f, fates, k).1) + Close(f, ins))
  {
    BetweenCores(f, k);
    SpliceCore(f, fates, ins, k, f.EndPos(k - 1));
    var r := After(f, fates, k + 1);
    var m := Member(f.members[k].pre, NewCore(f.members[k].core, fates[k]), r.0);
    TailPrepend(f.members[k - 1].post, m, r.1, Close(f, ins));
  }

  lemma TailPrepend(post: string, m: Member, ms: seq<Member>, z: string)
    ensures (post + ("," + m.pre)) + (CoreText(m.core) + (m.post + (MemberTail(ms) + z))) ==
            post + (MemberTail([m] + ms) + z)
  {
    assert MemberTail([m] + ms) == "," + (MemberText(m) + MemberTail(ms)) by {
      assert ([m] + ms)[1..] == ms;
    }
    Regroup(",", m.pre, CoreText(m.core), m.post, MemberTail(ms), z);
  }

  lemma BetweenCores(f: Frame, k: nat)
    requires 1 <= k < |f.members|
    ensures f.EndPos(k - 1) <= f.KeyPos(k) <= |f.Body()|
    ensures f.Body()[f.EndPos(k - 1)..f.KeyPos(k)] == f.members[k - 1].post + ("," + f.members[k].pre)
    ensures f.Body()[f.EndPos(k - 1)..f.StartPos(k) - 1] == f.members[k - 1].post
  {
    hide Frame.Body, CoreText, MemberTail;
    var b := f.Body();
    var post, pre := f.members[k - 1].post, f.members[k].pre;
    MemberAt(f, k - 1);
    TailCons(f, k);
    assert f.AfterValue(k - 1) == (post + ("," + pre)) + f.FromKey(k);
    AtStep(b, f.EndPos(k - 1), post + ("," + pre), f.FromKey(k));
    AtStep(b, f.EndPos(k - 1), post, f.TailAt(k));
  }

  lemma SpliceLast(f: Frame, fates: seq<Fate>, ins: string)
    requires FatesOk(f, fates) && |fates| > 0
    requires Ordered(Canon(f, fates, ins, |fates|), f.EndPos(|fates| - 1), |f.Body()|)
    requires f.EndPos(|fates| - 1) <= |f.Body()|
    ensures Splice(f.Body(), Canon(f, fates, ins, |fates|), f.EndPos(|fates| - 1)) ==
            f.members[|fates| - 1].post + (MemberTail([]) + Close(f, ins))
  {
    hide Frame.Body, CoreText, Frame.EndPos;
    var n := |fates|;
    var post, z := f.members[n - 1].post, "}" + f.rest;
    MemberAt(f, n - 1);
    TailEnd(f);
    AtStep(f.Body(), f.EndPos(n - 1), post, z);
    assert f.EndPos(n - 1) + |post| == f.ClosePos() by { CloseAt(f); }
    SpliceInsert(f.Body(), Canon(f, fates, ins, n), f.EndPos(n - 1), f.ClosePos(), ins);
    LastText(post, ins, z);
  }

  lemma LastText(post: string, ins: string, z: string)
    ensures post + ins + z == post + (MemberTail([]) + (ins + z))
  {
  }

  lemma SpliceInsert(b: string, es: seq<Edit>, p: nat, q: nat, ins: string)
    requires p <= q <= |b| && es == (if ins == "" then [] else [Edit(q, q, ins)])
    ensures Ordered(es, p, |b|) && Splice(b, es, p) == b[p..q] + ins + b[q..]
  {
    if ins == "" {
      assert b[p..] == b[p..q] + "" + b[q..];
    } else {
      assert es[1..] == [];
      assert Splice(b, [], q) == b[q..];
    }
  }

  lemma SpliceDrop(f: Frame, fates: seq<Fate>, ins: string, k: nat, j: nat)
    requires FatesOk(f, fates) && 1 <= k < j <= |fates| && fates[k].Drop? && j == RunEnd(fates, k)
    requires Ordered(Canon(f, fates, ins, k), f.EndPos(k - 1), |f.Body()|) && f.EndPos(k - 1) <= |f.Body()|
    requires Ordered(Canon(f, fates, ins, j), f.EndPos(j - 1), |f.Body()|) && f.EndPos(j - 1) <= |f.Body()|
    ensures Splice(f.Body(), Canon(f, fates, ins, k), f.EndPos(k - 1)) ==
            f.members[k - 1].post + Splice(f.Body(), Canon(f, fates, ins, j), f.EndPos(j - 1))
  {
    hide Frame.Body, CoreText, MemberTail;
    var es := Canon(f, fates, ins, j);
    assert Canon(f, fates, ins, k)[1..] == es;
    BetweenCores(f, k);
    var post := f.members[k - 1].post;
    assert post + "" == post;
  }

  // ---------------------------------------------------------------- the whole object

  /** Members written into an object: no whitespace around them. */
  function Inserted(cores: seq<Core>): seq<Member> {
    if cores == [] then [] else [Member("", cores[0], "")] + Inserted(cores[1..])
  }

  /** The surviving members with the whitespace the edits leave, and the gap when none survives. */
  function Survivors(f: Frame, fates: seq<Fate>): (seq<Member>, string)
    requires |fates| == |f.members|
  {
    var j := RunEnd(fates, 0);
    if f.members == [] then ([], f.gap)
    else if j == |fates| then ([], f.members[0].pre + f.members[j - 1].post)
    else
      var r := After(f, fates, j + 1);
      ([Member(FirstPre(f, j), NewCore(f.members[j].core, fates[j]), r.0)] + r.1, "")
  }

  function FirstPre(f: Frame, j: nat): string
    requires j < |f.members|
  {
    if j == 0 then f.members[0].pre else f.members[0].pre + f.members[j].pre
  }

  /** The bytes inserted before the closing brace. */
  function InsertText(any: bool, cores: seq<Core>): string {
    if cores == [] then ""
    else if any then MemberTail(Inserted(cores))
    else CoreText(cores[0]) + MemberTail(Inserted(cores[1..]))
  }

  function Edited(f: Frame, fates: seq<Fate>, cores: seq<Core>): Json
    requires |fates| == |f.members|
  {
    var r := Survivors(f, fates);
    if r.0 != [] then Obj(r.0 + Inserted(cores), "")
    else if cores == [] then Obj([], r.1)
    else Obj([Member(r.1, cores[0], "")] + Inserted(cores[1..]), "")
  }

  function EditsFor(f: Frame, fates: seq<Fate>, cores: seq<Core>): seq<Edit>
    requires |fates| == |f.members|
  {
    Canon(f, fates, InsertText(Survivors(f, fates).0 != [], cores), 0)
  }

  lemma {:induction false} TailAppend(a: seq<Member>, b: seq<Member>)
    ensures MemberTail(a + b) == MemberTail(a) + MemberTail(b)
  {
    if a == [] {
      assert a + b == b;
      assert MemberTail(a) + MemberTail(b) == MemberTail(b);
    } else {
      assert (a + b)[1..] == a[1..] + b;
      TailAppend(a[1..], b);
      var t := MemberText(a[0]);
      assert "," + (t + (MemberTail(a[1..]) + MemberTail(b))) == "," + (t + MemberTail(a[1..])) + MemberTail(b);
    }
  }

  lemma OpenText(f: Frame)
    requires f.members != []
    ensures f.KeyPos(0) <= |f.Body()| && f.Body()[..f.KeyPos(0)] == f.head + ("{" + f.members[0].pre)
  {
    hide *;
    BodyOpen(f);
    MemberAt(f, 0);
    PartsPre(f, f.Body(), 0);
    StartIs(f);
    TakeMore(f.Body(), |f.head| + 1, f.KeyPos(0));
    Join3(f.head, "{", f.members[0].pre);
  }

  lemma StartIs(f: Frame)
    ensures f.StartPos(0) == |f.head| + 1
  {
  }

  lemma PartsPre(f: Frame, b: string, k: nat)
    requires k < |f.members| && PartsAt(f, b, k)
    ensures f.StartPos(k) <= f.KeyPos(k) <= |b| && b[f.StartPos(k)..f.KeyPos(k)] == f.members[k].pre
  {
    hide Frame.StartPos, Frame.FromKey, Frame.FromMember, Frame.AfterValue, Frame.TailAt, CoreText;
  }

  lemma TakeMore(b: string, i: nat, j: nat)
    requires i <= j <= |b|
    ensures b[..j] == b[..i] + b[i..j]
  {
  }

  lemma Join3(a: string, b: string, c: string)
    ensures a + b + c == a + (b + c)
  {
  }

  /** Splicing when no member is left: the gap, then the inserted members. */
  lemma SpliceEmptied(f: Frame, fates: seq<Fate>, ins: string)
    requires FatesOk(f, fates) && Survivors(f, fates).0 == []
    ensures Ordered(Canon(f, fates, ins, 0), 0, |f.Body()|)
    ensures Splice(f.Body(), Canon(f, fates, ins, 0), 0) ==
            f.head + ("{" + (Survivors(f, fates).1 + Close(f, ins)))
  {
    hide Frame.Body, CoreText, MemberTail, MemberText;
    CanonFrom(f, fates, ins, 0, 0);
    var z := "}" + f.rest;
    CloseAt(f);
    if f.members == [] {
      BodyOpen(f);
      EmptyObject(f);
      var b := f.Body();
      SpliceInsert(b, Canon(f, fates, ins, 0), 0, f.ClosePos(), ins);
      assert b[0..f.ClosePos()] == b[..|f.head| + 1] + b[|f.head| + 1..f.ClosePos()];
      EmptyText(f.head, f.gap, ins, z);
    } else {
      SpliceAllDropped(f, fates, ins);
    }
  }

  lemma EmptyText(head: string, gap: string, ins: string, z: string)
    ensures (head + "{") + gap + ins + z == head + ("{" + (gap + (ins + z)))
  {
  }

  lemma SpliceAllDropped(f: Frame, fates: seq<Fate>, ins: string)
    requires FatesOk(f, fates) && f.members != [] && RunEnd(fates, 0) == |fates|
    requires Ordered(Canon(f, fates, ins, 0), 0, |f.Body()|)
    ensures Splice(f.Body(), Canon(f, fates, ins, 0), 0) ==
            f.head + ("{" + (Survivors(f, fates).1 + Close(f, ins)))
  {
    hide Frame.Body, CoreText, MemberText;
    var n := |fates|;
    OpenText(f);
    CanonFrom(f, fates, ins, n, f.EndPos(n - 1));
    SpliceLast(f, fates, ins);
    assert Canon(f, fates, ins, 0)[1..] == Canon(f, fates, ins, n);
    var pre, post, z := f.members[0].pre, f.members[n - 1].post, Close(f, ins);
    assert (f.head + ("{" + pre)) + "" + (post + (MemberTail([]) + z)) == f.head + ("{" + (pre + post + z));
  }

  /** Splicing when member j is the first survivor. */
  lemma SpliceSurvivors(f: Frame, fates: seq<Fate>, ins: string)
    requires FatesOk(f, fates) && Survivors(f, fates).0 != []
    ensures Ordered(Canon(f, fates, ins, 0), 0, |f.Body()|)
    ensures Splice(f.Body(), Canon(f, fates, ins, 0), 0) ==
            f.head + ("{" + (PrintMembers(Survivors(f, fates).0, "") + Close(f, ins)))
  {
    hide Frame.Body, CoreText, MemberTail, After;
    var j := RunEnd(fates, 0);
    CanonFrom(f, fates, ins, 0, 0);
    SpliceAfter(f, fates, ins, j + 1);
    var r := After(f, fates, j + 1);
    var core := CoreText(NewCore(f.members[j].core, fates[j]));
    var tail := r.0 + (MemberTail(r.1) + Close(f, ins));
    SpliceFirst(f, fates, ins, j, core + tail);
    var ms := Survivors(f, fates).0;
    assert ms[1..] == r.1;
    Regroup("{", FirstPre(f, j), core, r.0, MemberTail(r.1), Close(f, ins));
    assert "{" + PrintMembers(ms, "") + Close(f, ins) == "{" + (PrintMembers(ms, "") + Close(f, ins));
  }

  lemma SpliceFirst(f: Frame, fates: seq<Fate>, ins: string, j: nat, tail: string)
    requires FatesOk(f, fates) && j < |fates| && j == RunEnd(fates, 0)
    requires Ordered(Canon(f, fates, ins, 0), 0, |f.Body()|)
    requires Ordered(Canon(f, fates, ins, j + 1), f.EndPos(j), |f.Body()|) && f.EndPos(j) <= |f.Body()|
    requires tail == CoreText(NewCore(f.members[j].core, fates[j])) +
                     Splice(f.Body(), Canon(f, fates, ins, j + 1), f.EndPos(j))
    ensures Splice(f.Body(), Canon(f, fates, ins, 0), 0) == f.head + ("{" + (FirstPre(f, j) + tail))
  {
    hide Frame.Body, CoreText, MemberTail, Ordered, Frame.EndPos;
    OpenText(f);
    var pre := f.members[0].pre;
    if j == 0 {
      SpliceCore(f, fates, ins, 0, 0);
      assert (f.head + ("{" + pre)) + tail == f.head + ("{" + (pre + tail));
    } else {
      SpliceAfterRun(f, fates, ins, j, tail);
    }
  }

  lemma SpliceAfterRun(f: Frame, fates: seq<Fate>, ins: string, j: nat, tail: string)
    requires FatesOk(f, fates) && 0 < j < |fates| && j == RunEnd(fates, 0)
    requires Ordered(Canon(f, fates, ins, 0), 0, |f.Body()|)
    requires Ordered(Canon(f, fates, ins, j + 1), f.EndPos(j), |f.Body()|) && f.EndPos(j) <= |f.Body()|
    requires tail == CoreText(NewCore(f.members[j].core, fates[j])) +
                     Splice(f.Body(), Canon(f, fates, ins, j + 1), f.EndPos(j))
    ensures Splice(f.Body(), Canon(f, fates, ins, 0), 0) == f.head + ("{" + (FirstPre(f, j) + tail))
  {
    hide Frame.Body, CoreText, MemberTail, Frame.EndPos;
    OpenText(f);
    SpliceCore(f, fates, ins, j, f.StartPos(j));
    MemberAt(f, j);
    assert Canon(f, fates, ins, 0)[1..] == Canon(f, fates, ins, j);
    RunText(f.head, f.members[0].pre, f.members[j].pre, tail);
  }

  lemma RunText(head: string, pre: string, pre': string, tail: string)
    ensures (head + ("{" + pre)) + "" + (pre' + tail) == head + ("{" + (pre + pre' + tail))
  {
  }

  /**
   The edits for the fates, spliced into the body, give the text of a valid object: its members are
   the surviving ones with their new cores, in order, and then the inserted ones.
   */
  lemma SpliceCanon(f: Frame, fates: seq<Fate>, cores: seq<Core>)
    requires FatesOk(f, fates) && forall c | c in cores :: ValidCore(c)
    ensures Ordered(EditsFor(f, fates, cores), 0, |f.Body()|)
    ensures Splice(f.Body(), EditsFor(f, fates, cores), 0) == f.head + (Print(Edited(f, fates, cores)) + f.rest)
  {
    hide Frame.Body, CoreText, MemberTail, After, Survivors, Canon;
    var r := Survivors(f, fates);
    var ins := InsertText(r.0 != [], cores);
    if r.0 != [] {
      SpliceSurvivors(f, fates, ins);
      SurvivorsText(r.0, cores, "}" + f.rest);
      var p := PrintMembers(r.0 + Inserted(cores), "");
      assert "{" + (p + ("}" + f.rest)) == "{" + p + "}" + f.rest;
    } else {
      SpliceEmptied(f, fates, ins);
      EmptiedText(r.1, cores, f.rest);
    }
  }

  lemma SurvivorsText(ms: seq<Member>, cores: seq<Core>, z: string)
    requires ms != []
    ensures PrintMembers(ms, "") + (InsertText(true, cores) + z) == PrintMembers(ms + Inserted(cores), "") + z
  {
    hide CoreText, MemberText;
    var t := Inserted(cores);
    assert (ms + t)[1..] == ms[1..] + t;
    TailAppend(ms[1..], t);
    assert InsertText(true, cores) == MemberTail(t);
    Assoc4(MemberText(ms[0]), MemberTail(ms[1..]), MemberTail(t), z);
  }

  lemma Assoc4(a: string, b: string, c: string, d: string)
    ensures a + b + (c + d) == a + (b + c) + d
  {
  }

  lemma EmptiedText(gap: string, cores: seq<Core>, rest: string)
    ensures "{" + (gap + (InsertText(false, cores) + ("}" + rest))) ==
            (if cores == [] then Print(Obj([], gap))
             else Print(Obj([Member(gap, cores[0], "")] + Inserted(cores[1..]), ""))) + rest
  {
    hide CoreText;
    var z := "}" + rest;
    if cores == [] {
      assert "{" + (gap + ("" + z)) == "{" + gap + "}" + rest;
    } else {
      var t := Inserted(cores[1..]);
      var m := Member(gap, cores[0], "");
      assert ([m] + t)[1..] == t;
      assert MemberText(m) == gap + (CoreText(cores[0]) + "");
      assert "{" + (gap + ((CoreText(cores[0]) + MemberTail(t)) + z))
          == "{" + (gap + (CoreText(cores[0]) + "") + MemberTail(t)) + "}" + rest;
    }
  }

  /** What the members of the edited object are. */
  lemma EditedMembers(f: Frame, fates: seq<Fate>, cores: seq<Core>)
    requires FatesOk(f, fates) && forall c | c in cores :: ValidCore(c)
    ensures Valid(Edited(f, fates, cores)) && Edited(f, fates, cores).Obj?
    ensures Cores(Edited(f, fates, cores).members) == NewCores(f, fates, 0) + cores
    ensures Survivors(f, fates).0 == [] <==> NewCores(f, fates, 0) == []
  {
    hide Frame.Body, CoreText, MemberTail, ValidCore, Inserted;
    var j := RunEnd(fates, 0);
    SkipDropped(f, fates, 0, j);
    var s := Survivors(f, fates);
    if f.members != [] {
      assert ValidMember(f.members[0]) && ValidMember(f.members[|fates| - 1]);
      assert AllWs(f.members[0].pre + f.members[|fates| - 1].post);
    }
    assert AllWs(s.1);
    if j < |fates| {
      FirstSurvivor(f, fates, j);
      InsertedOk(cores);
      CoresAppend(s.0, Inserted(cores));
    } else if cores != [] {
      InsertedOk(cores[1..]);
      CoresAppend([Member(s.1, cores[0], "")], Inserted(cores[1..]));
      assert cores == [cores[0]] + cores[1..];
      assert cores[0] in cores;
    }
  }

  lemma FirstSurvivor(f: Frame, fates: seq<Fate>, j: nat)
    requires FatesOk(f, fates) && j < |fates| && j == RunEnd(fates, 0)
    ensures forall m | m in Survivors(f, fates).0 :: ValidMember(m)
    ensures Cores(Survivors(f, fates).0) == NewCores(f, fates, j)
  {
    hide CoreText, MemberTail, Inserted, After;
    AfterOk(f, fates, j + 1);
    var r := After(f, fates, j + 1);
    var m := Member(FirstPre(f, j), NewCore(f.members[j].core, fates[j]), r.0);
    assert ValidMember(f.members[0]) && ValidMember(f.members[j]);
    CoresAppend([m], r.1);
  }

  lemma CoresAppend(a: seq<Member>, b: seq<Member>)
    ensures Cores(a + b) == Cores(a) + Cores(b)
  {
  }

  lemma {:induction false} InsertedOk(cores: seq<Core>)
    requires forall c | c in cores :: ValidCore(c)
    ensures Cores(Inserted(cores)) == cores && forall m | m in Inserted(cores) :: ValidMember(m)
  {
    if cores != [] {
      InsertedOk(cores[1..]);
      var m := Member("", cores[0], "");
      assert Cores([m] + Inserted(cores[1..])) == [cores[0]] + Cores(Inserted(cores[1..]));
    }
  }
}
