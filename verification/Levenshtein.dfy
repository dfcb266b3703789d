/**
 Edit distance and the closest directive: LevenshteinDistance and FindClosestDirective
 (pkg/router/directive.go). A string is its sequence of runes; lowering is an arbitrary function.
 */
module Levenshtein {
  import opened Wrappers

  function Min(a: nat, b: nat): nat { if a < b then a else b }

  function SubCost(c: char, d: char): nat { if c == d then 0 else 1 }

  /** The recurrence of the table. */
  function Distance(a: string, b: string): nat
    decreases |a| + |b|
  {
    if a == "" then |b|
    else if b == "" then |a|
    else
      var n, m := |a| - 1, |b| - 1;
      Min(Min(Distance(a[..n], b) + 1, Distance(a, b[..m]) + 1), Distance(a[..n], b[..m]) + SubCost(a[n], b[m]))
  }

  // ---------------------------------------------------------------- edit scripts

  datatype Op = Delete(c: char) | Insert(d: char) | Change(c: char, d: char)

  function Source(s: seq<Op>): string {
    if s == [] then "" else Source(s[..|s| - 1]) + if s[|s| - 1].Insert? then "" else [s[|s| - 1].c]
  }

  function Target(s: seq<Op>): string {
    if s == [] then "" else Target(s[..|s| - 1]) + if s[|s| - 1].Delete? then "" else [s[|s| - 1].d]
  }

  function OpCost(o: Op): nat {
    if o.Change? then SubCost(o.c, o.d) else 1
  }

  function Cost(s: seq<Op>): nat {
    if s == [] then 0 else Cost(s[..|s| - 1]) + OpCost(s[|s| - 1])
  }

  lemma Snoc(s: seq<Op>, o: Op)
    ensures Source(s + [o]) == Source(s) + if o.Insert? then "" else [o.c]
    ensures Target(s + [o]) == Target(s) + if o.Delete? then "" else [o.d]
    ensures Cost(s + [o]) == Cost(s) + OpCost(o)
  {
    assert (s + [o])[..|s|] == s;
  }

  lemma {:induction false} OneMore(a: string, b: string, c: char, d: char)
    ensures Distance(a + [c], b) <= Distance(a, b) + 1
    ensures Distance(a, b + [d]) <= Distance(a, b) + 1
    ensures Distance(a + [c], b + [d]) <= Distance(a, b) + SubCost(c, d)
  {
    assert (a + [c])[..|a|] == a && (b + [d])[..|b|] == b;
    DistanceEnds(a);
    DistanceEnds(b);
  }

  lemma {:induction false} DistanceStep(a: string, b: string)
    requires a != "" && b != ""
    ensures var n, m := |a| - 1, |b| - 1;
            Distance(a, b) == Min(Min(Distance(a[..n], b) + 1, Distance(a, b[..m]) + 1), Distance(a[..n], b[..m]) + SubCost(a[n], b[m]))
  {
    hide Min, SubCost;
  }

  lemma DistanceEnds(a: string)
    ensures Distance(a, "") == |a| && Distance("", a) == |a|
  {
  }

  /** No script is cheaper than the distance. */
  lemma {:induction false} ScriptCosts(s: seq<Op>)
    ensures Distance(Source(s), Target(s)) <= Cost(s)
  {
    if s != [] {
      var t, o := s[..|s| - 1], s[|s| - 1];
      ScriptCosts(t);
      hide Distance;
      var a, b := Source(t), Target(t);
      OneMore(a, b, if o.Insert? then ' ' else o.c, if o.Delete? then ' ' else o.d);
      assert a + "" == a && b + "" == b;
    }
  }

  /** A cheapest script. */
  function Script(a: string, b: string): seq<Op>
    decreases |a| + |b|
  {
    if a == "" && b == "" then []
    else
      var n, m := |a| - 1, |b| - 1;
      if b == "" then Script(a[..n], b) + [Delete(a[n])]
      else if a == "" then Script(a, b[..m]) + [Insert(b[m])]
      else if Distance(a, b) == Distance(a[..n], b) + 1 then Script(a[..n], b) + [Delete(a[n])]
      else if Distance(a, b) == Distance(a, b[..m]) + 1 then Script(a, b[..m]) + [Insert(b[m])]
      else Script(a[..n], b[..m]) + [Change(a[n], b[m])]
  }

  lemma {:induction false} ScriptIs(a: string, b: string)
    ensures Source(Script(a, b)) == a && Target(Script(a, b)) == b && Cost(Script(a, b)) == Distance(a, b)
    decreases |a| + |b|
  {
    if a != "" || b != "" {
      hide Source, Target, Cost, Distance, Script;
      var n, m := |a| - 1, |b| - 1;
      ScriptStep(a, b);
      if b == "" || (a != "" && Distance(a, b) == Distance(a[..n], b) + 1) {
        ScriptIs(a[..n], b);
        LastOp(Script(a[..n], b), Delete(a[n]), a, b);
      } else if a == "" || Distance(a, b) == Distance(a, b[..m]) + 1 {
        ScriptIs(a, b[..m]);
        LastOp(Script(a, b[..m]), Insert(b[m]), a, b);
      } else {
        ScriptIs(a[..n], b[..m]);
        LastOp(Script(a[..n], b[..m]), Change(a[n], b[m]), a, b);
      }
    }
  }

  lemma {:induction false} LastOp(s: seq<Op>, o: Op, a: string, b: string)
    requires if o.Insert? then Source(s) == a else a != "" && Source(s) == a[..|a| - 1] && o.c == a[|a| - 1]
    requires if o.Delete? then Target(s) == b else b != "" && Target(s) == b[..|b| - 1] && o.d == b[|b| - 1]
    ensures Source(s + [o]) == a && Target(s + [o]) == b && Cost(s + [o]) == Cost(s) + OpCost(o)
  {
    Snoc(s, o);
    hide Source, Target, Cost;
    assert a + "" == a && b + "" == b;
    assert a != "" ==> a == a[..|a| - 1] + [a[|a| - 1]];
    assert b != "" ==> b == b[..|b| - 1] + [b[|b| - 1]];
  }

  lemma {:induction false} ScriptStep(a: string, b: string)
    requires a != "" || b != ""
    ensures var n, m := |a| - 1, |b| - 1;
            if b == "" || (a != "" && Distance(a, b) == Distance(a[..n], b) + 1) then
              Script(a, b) == Script(a[..n], b) + [Delete(a[n])] && Distance(a, b) == Distance(a[..n], b) + 1
            else if a == "" || Distance(a, b) == Distance(a, b[..m]) + 1 then
              Script(a, b) == Script(a, b[..m]) + [Insert(b[m])] && Distance(a, b) == Distance(a, b[..m]) + 1
            else
              Script(a, b) == Script(a[..n], b[..m]) + [Change(a[n], b[m])] &&
              Distance(a, b) == Distance(a[..n], b[..m]) + SubCost(a[n], b[m])
  {
    DistanceEnds(a);
    DistanceEnds(b);
    if a != "" { DistanceEnds(a[..|a| - 1]); }
    if b != "" { DistanceEnds(b[..|b| - 1]); }
    if a != "" && b != "" { DistanceStep(a, b); }
    hide Distance;
  }

  /** The distance is the least cost of a script from one text to the other. */
  lemma DistanceIsLeast(a: string, b: string)
    ensures exists s :: Source(s) == a && Target(s) == b && Cost(s) == Distance(a, b)
    ensures forall s | Source(s) == a && Target(s) == b :: Distance(a, b) <= Cost(s)
  {
    hide Distance;
    ScriptIs(a, b);
    var s := Script(a, b);
    assert Source(s) == a && Target(s) == b && Cost(s) == Distance(a, b);
    forall s | Source(s) == a && Target(s) == b ensures Distance(a, b) <= Cost(s) {
      ScriptCosts(s);
    }
  }

  // ---------------------------------------------------------------- a metric

  lemma {:induction false} Symmetric(a: string, b: string)
    ensures Distance(a, b) == Distance(b, a)
    decreases |a| + |b|
  {
    if a != "" && b != "" {
      var n, m := |a| - 1, |b| - 1;
      Symmetric(a[..n], b);
      Symmetric(a, b[..m]);
      Symmetric(a[..n], b[..m]);
    }
  }

  /** One script after the other. */
  function Compose(s: seq<Op>, t: seq<Op>): seq<Op>
    requires Target(s) == Source(t)
    decreases |s| + |t|
  {
    if s == [] && t == [] then []
    else if s != [] && s[|s| - 1].Delete? then
      TargetDelete(s);
      Compose(s[..|s| - 1], t) + [s[|s| - 1]]
    else if t != [] && t[|t| - 1].Insert? then
      SourceInsert(t);
      Compose(s, t[..|t| - 1]) + [t[|t| - 1]]
    else
      Meet(s, t);
      var o, p := s[|s| - 1], t[|t| - 1];
      var u := Compose(s[..|s| - 1], t[..|t| - 1]);
      if o.Insert? && p.Delete? then u
      else if o.Insert? then u + [Insert(p.d)]
      else if p.Delete? then u + [Delete(o.c)]
      else u + [Change(o.c, p.d)]
  }

  lemma TargetDelete(s: seq<Op>)
    requires s != [] && s[|s| - 1].Delete?
    ensures Target(s[..|s| - 1]) == Target(s)
  {
    var t := Target(s[..|s| - 1]);
    assert t + "" == t;
  }

  lemma SourceInsert(t: seq<Op>)
    requires t != [] && t[|t| - 1].Insert?
    ensures Source(t[..|t| - 1]) == Source(t)
  {
    var s := Source(t[..|t| - 1]);
    assert s + "" == s;
  }

  /** Where neither deletes nor inserts last, both end at the same character between them. */
  lemma Meet(s: seq<Op>, t: seq<Op>)
    requires Target(s) == Source(t) && (s != [] || t != [])
    requires (s != [] ==> !s[|s| - 1].Delete?) && (t != [] ==> !t[|t| - 1].Insert?)
    ensures s != [] && t != [] && s[|s| - 1].d == t[|t| - 1].c && Target(s[..|s| - 1]) == Source(t[..|t| - 1])
  {
    var x, y := Target(s), Source(t);
    if s != [] { assert x == Target(s[..|s| - 1]) + [s[|s| - 1].d]; }
    if t != [] { assert y == Source(t[..|t| - 1]) + [t[|t| - 1].c]; }
    hide Target, Source;
    assert s != [] && t != [];
    LastEqual(Target(s[..|s| - 1]), s[|s| - 1].d, Source(t[..|t| - 1]), t[|t| - 1].c);
  }

  lemma LastEqual(a: string, c: char, b: string, d: char)
    requires a + [c] == b + [d]
    ensures a == b && c == d
  {
    assert |a| == |b|;
    assert (a + [c])[..|a|] == a && (b + [d])[..|b|] == b;
    assert (a + [c])[|a|] == c && (b + [d])[|b|] == d;
  }

  lemma {:induction false} ComposeIs(s: seq<Op>, t: seq<Op>)
    requires Target(s) == Source(t)
    ensures var u := Compose(s, t); Source(u) == Source(s) && Target(u) == Target(t) && Cost(u) <= Cost(s) + Cost(t)
    decreases |s| + |t|
  {
    if s == [] && t == [] {
    } else if s != [] && s[|s| - 1].Delete? {
      TargetDelete(s);
      var s', o := s[..|s| - 1], s[|s| - 1];
      assert s == s' + [o];
      ComposeIs(s', t);
      ComposeSnoc(s', t, o, Compose(s', t), s, t);
    } else if t != [] && t[|t| - 1].Insert? {
      SourceInsert(t);
      var t', p := t[..|t| - 1], t[|t| - 1];
      assert t == t' + [p];
      ComposeIs(s, t');
      ComposeSnoc(s, t', p, Compose(s, t'), s, t);
    } else {
      Meet(s, t);
      var s', o, t', p := s[..|s| - 1], s[|s| - 1], t[..|t| - 1], t[|t| - 1];
      assert s == s' + [o] && t == t' + [p];
      ComposeIs(s', t');
      ComposeBoth(s', o, t', p, Compose(s', t'));
    }
  }

  lemma {:induction false} ComposeSnoc(s': seq<Op>, t': seq<Op>, o: Op, u: seq<Op>, s: seq<Op>, t: seq<Op>)
    requires (o.Delete? && s == s' + [o] && t == t') || (o.Insert? && s == s' && t == t' + [o])
    requires Source(u) == Source(s') && Target(u) == Target(t') && Cost(u) <= Cost(s') + Cost(t')
    ensures Source(u + [o]) == Source(s) && Target(u + [o]) == Target(t) && Cost(u + [o]) <= Cost(s) + Cost(t)
  {
    Snoc(u, o);
    Snoc(if o.Delete? then s' else t', o);
    hide Source, Target, Cost;
    assert Target(u) + "" == Target(u) && Source(u) + "" == Source(u);
  }

  lemma {:induction false} ComposeBoth(s: seq<Op>, o: Op, t: seq<Op>, p: Op, u: seq<Op>)
    requires !o.Delete? && !p.Insert? && o.d == p.c
    requires Source(u) == Source(s) && Target(u) == Target(t) && Cost(u) <= Cost(s) + Cost(t)
    ensures var v := if o.Insert? && p.Delete? then u
                     else if o.Insert? then u + [Insert(p.d)]
                     else if p.Delete? then u + [Delete(o.c)]
                     else u + [Change(o.c, p.d)];
            Source(v) == Source(s + [o]) && Target(v) == Target(t + [p]) && Cost(v) <= Cost(s + [o]) + Cost(t + [p])
  {
    Snoc(s, o);
    Snoc(t, p);
    if !(o.Insert? && p.Delete?) {
      Snoc(u, if o.Insert? then Insert(p.d) else if p.Delete? then Delete(o.c) else Change(o.c, p.d));
    }
    hide Source, Target, Cost;
    assert Target(u) + "" == Target(u) && Source(u) + "" == Source(u);
  }

  lemma Triangle(a: string, b: string, c: string)
    ensures Distance(a, c) <= Distance(a, b) + Distance(b, c)
  {
    ScriptIs(a, b);
    ScriptIs(b, c);
    hide Distance, Source, Target, Cost, Compose;
    ComposeIs(Script(a, b), Script(b, c));
    ScriptCosts(Compose(Script(a, b), Script(b, c)));
  }

  lemma {:induction false} ZeroIffEqual(a: string, b: string)
    ensures Distance(a, b) == 0 <==> a == b
    decreases |a| + |b|
  {
    if a != "" && b != "" {
      var n, m := |a| - 1, |b| - 1;
      ZeroIffEqual(a[..n], b[..m]);
      assert a == a[..n] + [a[n]] && b == b[..m] + [b[m]];
    }
  }

  // ---------------------------------------------------------------- the table

  method LevenshteinDistance(s1: string, s2: string, lower: string -> string) returns (d: nat)
    ensures d == Distance(lower(s1), lower(s2))
  {
    var r1, r2 := lower(s1), lower(s2);
    var n, m := |r1|, |r2|;
    if n == 0 { return m; }
    if m == 0 { return n; }
    d := FillTable(r1, r2);
  }

  method FillTable(r1: string, r2: string) returns (d: nat)
    ensures d == Distance(r1, r2)
  {
    var n, m := |r1|, |r2|;
    var matrix := new nat[n + 1, m + 1];
    DistanceEnds("");
    hide Distance;
    for i := 0 to n + 1
      invariant forall k | 0 <= k < i :: matrix[k, 0] == k
    {
      matrix[i, 0] := i;
    }
    for j := 0 to m + 1
      invariant forall k | 0 <= k <= n :: matrix[k, 0] == k
      invariant forall k | 0 <= k < j :: matrix[0, k] == k
    {
      matrix[0, j] := j;
    }
    assert r1[..0] == "" && r2[..0] == "";
    forall k | 0 <= k <= n ensures Distance(r1[..k], r2[..0]) == k { DistanceEnds(r1[..k]); }
    forall k | 0 <= k <= m ensures Distance(r1[..0], r2[..k]) == k { DistanceEnds(r2[..k]); }
    for i := 1 to n + 1
      invariant forall x, y | 0 <= x < i && 0 <= y <= m :: matrix[x, y] == Distance(r1[..x], r2[..y])
      invariant forall x | 0 <= x <= n :: matrix[x, 0] == Distance(r1[..x], r2[..0])
    {
      FillRow(matrix, r1, r2, i);
    }
    assert r1[..n] == r1 && r2[..m] == r2;
    d := matrix[n, m];
  }

  /** Row i from the row above it. */
  method FillRow(matrix: array2<nat>, r1: string, r2: string, i: nat)
    requires matrix.Length0 == |r1| + 1 && matrix.Length1 == |r2| + 1 && 1 <= i <= |r1|
    requires forall y | 0 <= y <= |r2| :: matrix[i - 1, y] == Distance(r1[..i - 1], r2[..y])
    requires matrix[i, 0] == Distance(r1[..i], r2[..0])
    modifies matrix
    ensures forall y | 0 <= y <= |r2| :: matrix[i, y] == Distance(r1[..i], r2[..y])
    ensures forall x, y | 0 <= x <= |r1| && x != i && 0 <= y <= |r2| :: matrix[x, y] == old(matrix[x, y])
  {
    hide Distance;
    for j := 1 to |r2| + 1
      invariant forall y | 0 <= y < j :: matrix[i, y] == Distance(r1[..i], r2[..y])
      invariant forall x, y | 0 <= x <= |r1| && x != i && 0 <= y <= |r2| :: matrix[x, y] == old(matrix[x, y])
    {
      var cost := if r1[i - 1] != r2[j - 1] then 1 else 0;
      var del := matrix[i - 1, j] + 1;
      var ins := matrix[i, j - 1] + 1;
      var sub := matrix[i - 1, j - 1] + cost;
      var min := del;
      if ins < min { min := ins; }
      if sub < min { min := sub; }
      CellIs(r1, r2, i, j);
      matrix[i, j] := min;
    }
  }

  lemma {:induction false} CellIs(a: string, b: string, i: nat, j: nat)
    requires 1 <= i <= |a| && 1 <= j <= |b|
    ensures Distance(a[..i], b[..j]) ==
            Min(Min(Distance(a[..i - 1], b[..j]) + 1, Distance(a[..i], b[..j - 1]) + 1),
                Distance(a[..i - 1], b[..j - 1]) + SubCost(a[i - 1], b[j - 1]))
  {
    hide Distance;
    assert a[..i][..i - 1] == a[..i - 1] && b[..j][..j - 1] == b[..j - 1];
    DistanceStep(a[..i], b[..j]);
  }

  // ---------------------------------------------------------------- the closest directive

  /** Candidate k is the first of those nearest to the input. */
  predicate Closest(input: string, candidates: seq<string>, lower: string -> string, k: nat)
    requires k < |candidates|
  {
    var d := Distance(input, lower(candidates[k]));
    forall i | 0 <= i < |candidates| ::
      d <= Distance(input, lower(candidates[i])) && (i < k ==> d < Distance(input, lower(candidates[i])))
  }

  /** The first candidate of least distance, if it is within maxDist; "" for none. */
  method FindClosestDirective(input: string, candidates: seq<string>, maxDist: int, lower: string -> string) returns (best: string)
    ensures var x := lower(lower(input));
            || (best == "" && forall i | 0 <= i < |candidates| :: Distance(x, lower(candidates[i])) > maxDist)
            || exists k :: 0 <= k < |candidates| && best == candidates[k] && Closest(x, candidates, lower, k)
                           && Distance(x, lower(candidates[k])) <= maxDist
  {
    hide Distance;
    var low := lower(input);
    ghost var x := lower(low);
    best := "";
    var bestDistance: int := maxDist + 1;
    ghost var k := -1;
    for i := 0 to |candidates|
      invariant k == -1 ==> bestDistance == maxDist + 1 && best == ""
      invariant k != -1 ==> 0 <= k < i && best == candidates[k] && bestDistance == Distance(x, lower(candidates[k])) <= maxDist
      invariant forall y | 0 <= y < i :: bestDistance <= Distance(x, lower(candidates[y]))
      invariant k != -1 ==> forall y | 0 <= y < k :: bestDistance < Distance(x, lower(candidates[y]))
    {
      var d := LevenshteinDistance(low, candidates[i], lower);
      if d < bestDistance {
        bestDistance := d;
        best := candidates[i];
        k := i;
      }
    }
    if bestDistance <= maxDist {
      assert Closest(x, candidates, lower, k);
      return best;
    }
    return "";
  }
}
