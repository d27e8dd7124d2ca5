// Full mode: every combination of axis values, each either generated or excluded
// with a reason.
module Enumeration {
  import opened Arithmetic
  import opened DesignModels
  import opened Options

  // ---- validity and its explanation ----

  predicate Accepts(c: Constraint, combo: Combo) {
    Matches(c, combo) ==> Violations(c.require, combo) == [] && !Excludes(c, combo)
  }

  predicate IsValid(cs: seq<Constraint>, combo: Combo) {
    forall i :: 0 <= i < |cs| ==> Accepts(cs[i], combo)
  }

  function ExclusionAt(axis: string, combo: Combo, c: Constraint): Exclusion {
    Exclusion(axis, Get(combo, axis), c.reason, c.name)
  }

  // The complaint of one constraint, if it has one: about the first broken
  // require rule, or else about the first axis it looks at.
  function Problem(c: Constraint, combo: Combo): Option<Exclusion> {
    if !Matches(c, combo) then None
    else
      var broken := Violations(c.require, combo);
      if broken != [] then Some(ExclusionAt(broken[0].axis, combo, c))
      else if Excludes(c, combo) then Some(ExclusionAt(if c.when == [] then "" else c.when[0].axis, combo, c))
      else None
  }

  // The first complaint.
  function Check(cs: seq<Constraint>, combo: Combo): Option<Exclusion> {
    if cs == [] then None
    else
      var p := Problem(cs[0], combo);
      if p.Some? then p else Check(cs[1..], combo)
  }

  // The two ways of judging a combination agree on every one, and a complaint
  // carries the name and reason of a constraint that does not accept it.
  lemma {:induction false} CheckAgrees(cs: seq<Constraint>, combo: Combo)
    ensures Check(cs, combo).None? <==> IsValid(cs, combo)
    ensures Check(cs, combo).Some? ==>
              exists c :: c in cs && !Accepts(c, combo) && Check(cs, combo).value.reason == c.reason
                          && Check(cs, combo).value.constraintName == c.name
                          && Check(cs, combo).value.value == Get(combo, Check(cs, combo).value.axis)
  {
    hide Violations, Excludes, Matches;
    if cs != [] {
      CheckAgrees(cs[1..], combo);
      assert cs == [cs[0]] + cs[1..];
      assert Problem(cs[0], combo).None? <==> Accepts(cs[0], combo);
      hide Accepts, Problem;
      if Problem(cs[0], combo).Some? {
        assert !IsValid(cs, combo);
        ProblemCites(cs[0], combo);
      } else {
        assert IsValid(cs, combo) <==> IsValid(cs[1..], combo);
      }
    }
  }

  lemma ProblemCites(c: Constraint, combo: Combo)
    requires Problem(c, combo).Some?
    ensures var e := Problem(c, combo).value;
            e.reason == c.reason && e.constraintName == c.name && e.value == Get(combo, e.axis)
  {
    hide Violations, Excludes, Matches;
  }

  // A constraint is content: when its guards hold, so do its requirements, and
  // no excluded combination is met.
  ghost predicate Content(c: Constraint, combo: Combo) {
    Admits(c.when, combo) ==>
      Admits(c.require, combo) && forall k :: 0 <= k < |c.exclude| ==> !Admits(c.exclude[k], combo)
  }

  lemma ValidExactly(cs: seq<Constraint>, combo: Combo)
    ensures IsValid(cs, combo) <==> forall i :: 0 <= i < |cs| ==> Content(cs[i], combo)
  {
    forall i | 0 <= i < |cs| ensures Accepts(cs[i], combo) <==> Content(cs[i], combo) {
      NoViolations(cs[i].require, combo);
    }
    hide Accepts, Content;
  }

  lemma NoViolations(rules: seq<Rule>, combo: Combo)
    ensures Violations(rules, combo) == [] <==> Admits(rules, combo)
  {
    hide Satisfies;
    if Violations(rules, combo) != [] {
      var v := Violations(rules, combo)[0];
      assert v in Violations(rules, combo);
    }
    if i :| 0 <= i < |rules| && !Satisfies(rules[i], combo) {
      assert rules[i] in Violations(rules, combo);
    }
  }

  ghost predicate FirstBroken(rules: seq<Rule>, combo: Combo, k: nat) {
    k < |rules| && !Satisfies(rules[k], combo) && forall m :: 0 <= m < k ==> Satisfies(rules[m], combo)
  }

  lemma {:induction false} ViolationsBegin(rules: seq<Rule>, combo: Combo) returns (k: nat)
    requires Violations(rules, combo) != []
    ensures FirstBroken(rules, combo, k) && Violations(rules, combo)[0] == rules[k]
  {
    hide Satisfies, FirstBroken;
    var n := |rules| - 1;
    var before := Violations(rules[..n], combo);
    assert Violations(rules, combo) == before + if Satisfies(rules[n], combo) then [] else [rules[n]];
    hide Violations;
    if before == [] {
      NoViolations(rules[..n], combo);
      LastBroken(rules, combo);
      k := n;
    } else {
      k := ViolationsBegin(rules[..n], combo);
      StillFirst(rules, combo, k);
    }
  }

  lemma LastBroken(rules: seq<Rule>, combo: Combo)
    requires rules != [] && Admits(rules[..|rules| - 1], combo) && !Satisfies(rules[|rules| - 1], combo)
    ensures FirstBroken(rules, combo, |rules| - 1)
  {
    hide Satisfies;
    var front := rules[..|rules| - 1];
    assert forall m :: 0 <= m < |front| ==> front[m] == rules[m];
  }

  lemma StillFirst(rules: seq<Rule>, combo: Combo, k: nat)
    requires rules != [] && FirstBroken(rules[..|rules| - 1], combo, k)
    ensures FirstBroken(rules, combo, k) && rules[..|rules| - 1][k] == rules[k]
  {
    hide Satisfies;
    var front := rules[..|rules| - 1];
    assert forall m :: 0 <= m < |front| ==> front[m] == rules[m];
  }

  // Which complaint is made: about the first constraint that is not content, under
  // its name and reason; filed under the axis of its first broken requirement, or
  // else under the axis of its first guard, with the value the combination has there.
  ghost predicate ComplainsOf(cs: seq<Constraint>, combo: Combo, i: nat, e: Exclusion) {
    && i < |cs| && !Content(cs[i], combo) && (forall j :: 0 <= j < i ==> Content(cs[j], combo))
    && e.constraintName == cs[i].name && e.reason == cs[i].reason && e.value == Get(combo, e.axis)
    && (Admits(cs[i].require, combo) ==> e.axis == if cs[i].when == [] then "" else cs[i].when[0].axis)
    && (!Admits(cs[i].require, combo) ==>
          exists k: nat :: FirstBroken(cs[i].require, combo, k) && e.axis == cs[i].require[k].axis)
  }

  lemma {:induction false} ComplaintExactly(cs: seq<Constraint>, combo: Combo)
    ensures Check(cs, combo).None? <==> forall i :: 0 <= i < |cs| ==> Content(cs[i], combo)
    ensures Check(cs, combo).Some? ==> exists i: nat :: ComplainsOf(cs, combo, i, Check(cs, combo).value)
  {
    hide Content, ComplainsOf;
    if cs != [] {
      var rest := cs[1..];
      assert cs == [cs[0]] + rest;
      OneComplaint(cs, combo);
      hide Problem;
      if Problem(cs[0], combo).None? {
        ComplaintExactly(rest, combo);
        if Check(rest, combo).Some? {
          var i: nat :| ComplainsOf(rest, combo, i, Check(rest, combo).value);
          LaterComplaint(cs, combo, i, Check(rest, combo).value);
        }
      }
    }
  }

  lemma OneComplaint(cs: seq<Constraint>, combo: Combo)
    requires cs != []
    ensures Problem(cs[0], combo).None? <==> Content(cs[0], combo)
    ensures Problem(cs[0], combo).Some? ==> ComplainsOf(cs, combo, 0, Problem(cs[0], combo).value)
  {
    var c := cs[0];
    hide Violations, Admits, FirstBroken;
    NoViolations(c.require, combo);
    if Violations(c.require, combo) != [] {
      var k := ViolationsBegin(c.require, combo);
    }
  }

  lemma LaterComplaint(cs: seq<Constraint>, combo: Combo, i: nat, e: Exclusion)
    requires cs != [] && Content(cs[0], combo) && ComplainsOf(cs[1..], combo, i, e)
    ensures ComplainsOf(cs, combo, i + 1, e)
  {
    hide Content, Admits, FirstBroken;
    forall j | 0 <= j < i + 1 ensures Content(cs[j], combo) {
      assert j > 0 ==> cs[j] == cs[1..][j - 1];
    }
  }

  // ---- the Cartesian product ----

  function Prefixed(name: string, v: Value, rest: seq<Combo>): (r: seq<Combo>)
    ensures |r| == |rest|
  {
    seq(|rest|, i requires 0 <= i < |rest| => rest[i][name := v])
  }

  function ForEach(name: string, values: seq<Value>, rest: seq<Combo>): seq<Combo> {
    if values == [] then [] else Prefixed(name, values[0], rest) + ForEach(name, values[1..], rest)
  }

  // The last axis varies fastest.
  function Product(axes: seq<AxisSpec>): seq<Combo> {
    if axes == [] then [map[]] else ForEach(axes[0].name, axes[0].values, Product(axes[1..]))
  }

  ghost function Names(axes: seq<AxisSpec>): set<string> {
    set a | a in axes :: a.name
  }

  ghost predicate DistinctNames(axes: seq<AxisSpec>) {
    forall i, j :: 0 <= i < j < |axes| ==> axes[i].name != axes[j].name
  }

  // A choice of one listed value for every axis, and nothing else.
  ghost predicate IsChoice(axes: seq<AxisSpec>, combo: Combo) {
    combo.Keys == Names(axes) && forall a :: a in axes ==> Get(combo, a.name) in a.values
  }

  lemma {:induction false} InForEach(name: string, values: seq<Value>, rest: seq<Combo>, combo: Combo)
    ensures combo in ForEach(name, values, rest) <==> exists r, v :: r in rest && v in values && combo == r[name := v]
  {
    if values != [] {
      InForEach(name, values[1..], rest, combo);
      assert values == [values[0]] + values[1..];
      InPrefixed(name, values[0], rest, combo);
      hide Prefixed;
      assert combo in ForEach(name, values, rest) <==>
        combo in Prefixed(name, values[0], rest) || combo in ForEach(name, values[1..], rest);
      hide ForEach;
      if r, v :| r in rest && v in values && combo == r[name := v] {
        assert v == values[0] || v in values[1..];
      }
      if r :| r in rest && combo == r[name := values[0]] {
        assert values[0] in values;
      }
      if r, v :| r in rest && v in values[1..] && combo == r[name := v] {
        assert v in values;
      }
    }
  }

  lemma InPrefixed(name: string, v: Value, rest: seq<Combo>, combo: Combo)
    ensures combo in Prefixed(name, v, rest) <==> exists r :: r in rest && combo == r[name := v]
  {
    var p := Prefixed(name, v, rest);
    forall r | r in rest ensures r[name := v] in p {
      var i :| 0 <= i < |rest| && rest[i] == r;
      assert p[i] == r[name := v];
    }
    if combo in p {
      var i :| 0 <= i < |p| && p[i] == combo;
      assert rest[i] in rest;
    }
  }

  lemma ChoiceSplits(axes: seq<AxisSpec>, combo: Combo)
    requires axes != [] && DistinctNames(axes)
    ensures IsChoice(axes, combo) <==>
            exists r: Combo, v :: IsChoice(axes[1..], r) && v in axes[0].values && combo == r[axes[0].name := v]
  {
    var a, rest := axes[0], axes[1..];
    assert axes == [a] + rest;
    assert Names(axes) == {a.name} + Names(rest) && a.name !in Names(rest);
    if IsChoice(axes, combo) {
      var r := combo - {a.name};
      assert r[a.name := combo[a.name]] == combo;
      assert IsChoice(rest, r);
      assert combo[a.name] in a.values;
    }
    forall r: Combo, v | IsChoice(rest, r) && v in a.values && combo == r[a.name := v] ensures IsChoice(axes, combo) {
      forall b | b in axes ensures Get(combo, b.name) in b.values {
        if b in rest {
          assert b.name in Names(rest);
        }
      }
    }
  }

  // The product holds exactly the choices.
  lemma {:induction false} ProductIsChoices(axes: seq<AxisSpec>, combo: Combo)
    requires DistinctNames(axes)
    ensures combo in Product(axes) <==> IsChoice(axes, combo)
  {
    if axes == [] {
      assert Names(axes) == {};
    } else {
      ChoiceSplits(axes, combo);
      InForEach(axes[0].name, axes[0].values, Product(axes[1..]), combo);
      forall r: Combo ensures r in Product(axes[1..]) <==> IsChoice(axes[1..], r) {
        ProductIsChoices(axes[1..], r);
      }
      hide IsChoice, ForEach;
    }
  }

  ghost predicate NoRepeats<T>(s: seq<T>) {
    forall i, j :: 0 <= i < j < |s| ==> s[i] != s[j]
  }

  lemma {:induction false} ForEachDistinct(name: string, values: seq<Value>, rest: seq<Combo>)
    requires NoRepeats(values) && NoRepeats(rest) && forall r :: r in rest ==> name !in r
    ensures NoRepeats(ForEach(name, values, rest))
  {
    if values != [] {
      var first, others := Prefixed(name, values[0], rest), ForEach(name, values[1..], rest);
      ForEachDistinct(name, values[1..], rest);
      PrefixedDistinct(name, values[0], rest);
      forall x, y | x in first && y in others ensures x != y {
        InPrefixed(name, values[0], rest, x);
        InForEach(name, values[1..], rest, y);
        assert x[name] == values[0] && y[name] in values[1..];
        assert forall k :: 1 <= k < |values| ==> values[k] != values[0];
      }
      hide Prefixed, ForEach;
      JoinDistinct(first, others);
    }
  }

  lemma PrefixedDistinct(name: string, v: Value, rest: seq<Combo>)
    requires NoRepeats(rest) && forall r :: r in rest ==> name !in r
    ensures NoRepeats(Prefixed(name, v, rest))
  {
    var p := Prefixed(name, v, rest);
    forall i, j | 0 <= i < j < |p| ensures p[i] != p[j] {
      assert rest[i] in rest && rest[j] in rest;
      assert p[i] - {name} == rest[i] && p[j] - {name} == rest[j];
    }
  }

  lemma JoinDistinct<T>(s: seq<T>, t: seq<T>)
    requires NoRepeats(s) && NoRepeats(t) && forall x, y :: x in s && y in t ==> x != y
    ensures NoRepeats(s + t)
  {
    forall i, j | 0 <= i < j < |s + t| ensures (s + t)[i] != (s + t)[j] {
      if i < |s| <= j {
        assert s[i] in s && t[j - |s|] in t;
      }
    }
  }

  // Without repeated values no combination comes twice.
  lemma {:induction false} ProductDistinct(axes: seq<AxisSpec>)
    requires DistinctNames(axes) && forall a :: a in axes ==> NoRepeats(a.values)
    ensures NoRepeats(Product(axes))
  {
    if axes != [] {
      var rest := axes[1..];
      ProductDistinct(rest);
      forall r | r in Product(rest) ensures axes[0].name !in r {
        ProductIsChoices(rest, r);
        FirstNameNew(axes);
      }
      assert axes[0] in axes;
      hide ForEach;
      ForEachDistinct(axes[0].name, axes[0].values, Product(rest));
    }
  }

  lemma FirstNameNew(axes: seq<AxisSpec>)
    requires axes != [] && DistinctNames(axes)
    ensures axes[0].name !in Names(axes[1..])
  {
  }

  function Size(axes: seq<AxisSpec>): nat {
    if axes == [] then 1 else
    var rest := Size(axes[1..]);
    MulSign(|axes[0].values|, rest);
    |axes[0].values| * rest
  }

  lemma {:induction false} ForEachSize(name: string, values: seq<Value>, rest: seq<Combo>)
    ensures |ForEach(name, values, rest)| == |values| * |rest|
  {
    if values != [] {
      ForEachSize(name, values[1..], rest);
      assert |values| * |rest| == (|values| - 1) * |rest| + |rest|;
    }
  }

  lemma {:induction false} ProductSize(axes: seq<AxisSpec>)
    ensures |Product(axes)| == Size(axes)
  {
    if axes != [] {
      ProductSize(axes[1..]);
      ForEachSize(axes[0].name, axes[0].values, Product(axes[1..]));
    }
  }

  lemma {:induction false} ForEachAt(name: string, values: seq<Value>, rest: seq<Combo>, a: nat, b: nat)
    requires a < |values| && b < |rest|
    ensures 0 <= a * |rest| + b < |ForEach(name, values, rest)|
    ensures ForEach(name, values, rest)[a * |rest| + b] == rest[b][name := values[a]]
  {
    ForEachSize(name, values[1..], rest);
    if a > 0 {
      ForEachAt(name, values[1..], rest, a - 1, b);
      assert a * |rest| == (a - 1) * |rest| + |rest|;
    } else {
      assert a * |rest| == 0;
    }
  }

  // Where each combination stands: the values of the first axis in their order, and
  // under each of them the combinations of the other axes in theirs.
  lemma ProductAt(axes: seq<AxisSpec>, a: nat, b: nat)
    requires axes != [] && a < |axes[0].values| && b < Size(axes[1..])
    ensures 0 <= a * Size(axes[1..]) + b < |Product(axes)| && b < |Product(axes[1..])|
    ensures Product(axes)[a * Size(axes[1..]) + b] == Product(axes[1..])[b][axes[0].name := axes[0].values[a]]
  {
    hide ForEach, Size;
    ProductSize(axes[1..]);
    ForEachAt(axes[0].name, axes[0].values, Product(axes[1..]), a, b);
  }

  // ---- sorting the product into the two outputs ----

  function ValidOnes(cs: seq<Constraint>, combos: seq<Combo>): seq<Combo> {
    if combos == [] then []
    else
      var last := combos[|combos| - 1];
      ValidOnes(cs, combos[..|combos| - 1]) + if IsValid(cs, last) then [last] else []
  }

  function Problems(cs: seq<Constraint>, combos: seq<Combo>): seq<Exclusion> {
    if combos == [] then []
    else
      var last := combos[|combos| - 1];
      Problems(cs, combos[..|combos| - 1])
      + match Check(cs, last) { case Some(e) => [e] case None => [] }
  }

  lemma {:induction false} ValidMembers(cs: seq<Constraint>, combos: seq<Combo>, combo: Combo)
    ensures combo in ValidOnes(cs, combos) <==> combo in combos && IsValid(cs, combo)
  {
    hide IsValid;
    if combos != [] {
      ValidMembers(cs, combos[..|combos| - 1], combo);
      assert combos == combos[..|combos| - 1] + [combos[|combos| - 1]];
    }
  }

  lemma {:induction false} ValidDistinct(cs: seq<Constraint>, combos: seq<Combo>)
    requires NoRepeats(combos)
    ensures NoRepeats(ValidOnes(cs, combos))
  {
    hide IsValid;
    if combos != [] {
      var front, last := combos[..|combos| - 1], combos[|combos| - 1];
      ValidDistinct(cs, front);
      forall x, y | x in ValidOnes(cs, front) && y in [last] ensures x != y {
        ValidMembers(cs, front, x);
      }
      JoinDistinct(ValidOnes(cs, front), [last]);
    }
  }

  lemma {:induction false} EachGoesOneWay(cs: seq<Constraint>, combos: seq<Combo>)
    ensures |ValidOnes(cs, combos)| + |Problems(cs, combos)| == |combos|
  {
    hide IsValid, Check;
    if combos != [] {
      EachGoesOneWay(cs, combos[..|combos| - 1]);
      CheckAgrees(cs, combos[|combos| - 1]);
    }
  }

  // Full mode partitions the product: the generated combinations are exactly the
  // choices that satisfy every constraint, none twice, and the exclusions number
  // exactly the rest.
  lemma FullModePartitions(axes: seq<AxisSpec>, cs: seq<Constraint>)
    requires DistinctNames(axes) && forall a :: a in axes ==> NoRepeats(a.values)
    ensures forall combo :: combo in ValidOnes(cs, Product(axes)) <==> IsChoice(axes, combo) && IsValid(cs, combo)
    ensures NoRepeats(ValidOnes(cs, Product(axes)))
    ensures |ValidOnes(cs, Product(axes))| + |Problems(cs, Product(axes))| == Size(axes)
  {
    hide IsValid, IsChoice, Product, ValidOnes, Problems;
    forall combo ensures combo in ValidOnes(cs, Product(axes)) <==> IsChoice(axes, combo) && IsValid(cs, combo) {
      ValidMembers(cs, Product(axes), combo);
      ProductIsChoices(axes, combo);
    }
    ProductDistinct(axes);
    ValidDistinct(cs, Product(axes));
    EachGoesOneWay(cs, Product(axes));
    ProductSize(axes);
  }
}
