// When repair converges: constraints whose rules look only at lower levels, and
// whose later fixes respect the earlier constraints they can meet, are settled
// level by level, one sweep each.
module RepairConverges {
  import opened DesignModels
  import opened Repair

  // A level for every axis: what a constraint can assign lies above everything
  // it looks at, and at least one above the bottom.
  ghost predicate Stratified(cs: seq<Constraint>, level: string -> nat) {
    forall c, r :: c in cs && r in c.require && r.allowed != [] ==>
      level(r.axis) >= 1 && forall w :: w in c.when ==> level(w.axis) < level(r.axis)
  }

  ghost predicate DepthAtMost(cs: seq<Constraint>, level: string -> nat, d: nat) {
    forall c, r :: c in cs && r in c.require && r.allowed != [] ==> level(r.axis) <= d
  }

  // No axis both guards look at rules the two out together.
  ghost predicate CanMeet(c: Constraint, d: Constraint) {
    forall v, w :: v in c.when && w in d.when && v.axis == w.axis ==> exists x :: x in v.allowed && x in w.allowed
  }

  // The value d repairs an axis with is one that c allows it.
  ghost predicate Respects(d: Constraint, c: Constraint) {
    forall q, r :: q in d.require && r in c.require && q.axis == r.axis && q.allowed != [] && r.allowed != [] ==>
      q.allowed[0] in r.allowed
  }

  ghost predicate ConflictFree(cs: seq<Constraint>) {
    forall i, j :: 0 <= i < j < |cs| && CanMeet(cs[i], cs[j]) ==> Respects(cs[j], cs[i])
  }

  ghost predicate WellFormed(cs: seq<Constraint>) {
    forall c :: c in cs ==> OnePerAxis(c.require)
  }

  // ---- what one visit does ----

  lemma {:induction false} FixAllEffect(rules: seq<Rule>, c: Constraint, p: Progress, axis: string)
    requires OnePerAxis(rules)
    ensures (forall r :: r in rules && r.axis == axis ==> r.allowed == []) ==>
            Get(FixAll(rules, c, p).combo, axis) == Get(p.combo, axis)
    ensures forall r :: r in rules && r.axis == axis && r.allowed != [] ==>
            Get(FixAll(rules, c, p).combo, axis) == r.allowed[0]
  {
    if rules != [] {
      var front, last := rules[..|rules| - 1], rules[|rules| - 1];
      assert rules == front + [last] && OnePerAxis(front);
      FixAllEffect(front, c, p, axis);
      LastIsNew(rules);
      assert FixAll(rules, c, p) == Fix(last, c, FixAll(front, c, p));
      hide FixAll, OnePerAxis;
    }
  }

  lemma LastIsNew(rules: seq<Rule>)
    requires OnePerAxis(rules) && rules != []
    ensures forall r :: r in rules[..|rules| - 1] ==> r.axis != rules[|rules| - 1].axis
  {
  }

  lemma {:induction false} ViolationsOnePerAxis(rules: seq<Rule>, combo: Combo)
    requires OnePerAxis(rules)
    ensures OnePerAxis(Violations(rules, combo))
  {
    hide Satisfies;
    if rules != [] {
      var front, last := rules[..|rules| - 1], rules[|rules| - 1];
      ViolationsOnePerAxis(front, combo);
      forall v | v in Violations(front, combo) ensures v.axis != last.axis {
        var i :| 0 <= i < |front| && front[i] == v;
        assert rules[i] == v;
      }
    }
  }

  // A visit changes an axis only to the first value of a broken rule, and leaves
  // every repairable rule of a matching constraint satisfied.
  lemma VisitEffect(c: Constraint, p: Progress, axis: string)
    requires OnePerAxis(c.require)
    ensures var after := Get(Visit(c, p).combo, axis);
            after == Get(p.combo, axis) || Assigned(c, p.combo, axis, after)
    ensures Matches(c, p.combo) ==>
              forall r :: r in c.require && r.axis == axis && r.allowed != [] ==>
                Get(Visit(c, p).combo, axis) in r.allowed
  {
    hide FixAll, Matches;
    var broken := Violations(c.require, p.combo);
    ViolationsOnePerAxis(c.require, p.combo);
    hide OnePerAxis;
    FixAllEffect(broken, c, p, axis);
    if Matches(c, p.combo) {
      forall r | r in c.require && r.axis == axis && r.allowed != [] ensures Get(Visit(c, p).combo, axis) in r.allowed {
        if r !in broken {
          UniqueRule(c.require, r, broken);
        }
      }
    }
  }

  lemma UniqueRule(rules: seq<Rule>, r: Rule, some: seq<Rule>)
    requires OnePerAxis(rules) && r in rules && r !in some && forall v :: v in some ==> v in rules
    ensures forall v :: v in some ==> v.axis != r.axis
  {
  }

  ghost predicate Assigned(c: Constraint, combo: Combo, axis: string, after: Value) {
    && Matches(c, combo)
    && exists r :: r in c.require && r.axis == axis && r.allowed != [] && !Satisfies(r, combo) && after == r.allowed[0]
  }

  // ---- one sweep settles one more level ----

  // Rules up to level k hold wherever their constraint matches.
  ghost predicate SettledTo(cs: seq<Constraint>, level: string -> nat, k: nat, combo: Combo) {
    forall c, r :: c in cs && Matches(c, combo) && r in c.require && r.allowed != [] && level(r.axis) <= k ==>
      Satisfies(r, combo)
  }

  ghost predicate SameTo(level: string -> nat, k: nat, a: Combo, b: Combo) {
    forall axis: string :: level(axis) <= k ==> Get(a, axis) == Get(b, axis)
  }

  // A guard that looks at levels up to k sees the same in both.
  lemma SameMatch(c: Constraint, level: string -> nat, k: nat, a: Combo, b: Combo)
    requires SameTo(level, k, a, b) && forall w :: w in c.when ==> level(w.axis) <= k
    ensures Matches(c, a) <==> Matches(c, b)
  {
    forall i | 0 <= i < |c.when| ensures Satisfies(c.when[i], a) <==> Satisfies(c.when[i], b) {
      assert c.when[i] in c.when;
    }
  }

  lemma MeetingConstraints(c: Constraint, d: Constraint, combo: Combo)
    requires Matches(c, combo) && Matches(d, combo)
    ensures CanMeet(c, d)
  {
    forall v, w | v in c.when && w in d.when && v.axis == w.axis ensures exists x :: x in v.allowed && x in w.allowed {
      assert Satisfies(v, combo) && Satisfies(w, combo);
    }
  }

  // Part (A): a visit does not touch levels that are settled already.
  lemma VisitKeepsLower(cs: seq<Constraint>, c: Constraint, level: string -> nat, k: nat, start: Combo, p: Progress)
    requires Stratified(cs, level) && WellFormed(cs) && c in cs
    requires SettledTo(cs, level, k, start) && SameTo(level, k, start, p.combo)
    ensures SameTo(level, k, start, Visit(c, p).combo)
  {
    hide Visit, OnePerAxis, Matches, CanMeet;
    forall axis: string | level(axis) <= k ensures Get(start, axis) == Get(Visit(c, p).combo, axis) {
      VisitEffect(c, p, axis);
      if Matches(c, p.combo) {
        forall r | r in c.require && r.axis == axis && r.allowed != [] ensures Satisfies(r, p.combo) {
          SameMatch(c, level, k, start, p.combo);
          assert Satisfies(r, start);
        }
      }
    }
  }

  // Part (B): the constraints visited so far hold up to level k + 1.
  lemma VisitSettles(cs: seq<Constraint>, n: nat, level: string -> nat, k: nat, start: Combo, p: Progress)
    requires Stratified(cs, level) && WellFormed(cs) && ConflictFree(cs) && n < |cs|
    requires SettledTo(cs, level, k, start) && SameTo(level, k, start, p.combo)
    requires SettledTo(cs[..n], level, k + 1, p.combo)
    ensures SettledTo(cs[..n + 1], level, k + 1, Visit(cs[n], p).combo)
  {
    hide Visit, Matches, OnePerAxis, Respects, SameTo, CanMeet;
    var d, q := cs[n], Visit(cs[n], p);
    VisitKeepsLower(cs, d, level, k, start, p);
    forall c, r | c in cs[..n + 1] && Matches(c, q.combo) && r in c.require && r.allowed != [] && level(r.axis) <= k + 1
      ensures Satisfies(r, q.combo)
    {
      var m :| 0 <= m < n + 1 && cs[m] == c;
      assert c in cs;
      SameMatch(c, level, k, start, p.combo);
      SameMatch(c, level, k, start, q.combo);
      VisitEffect(d, p, r.axis);
      if c != d {
        assert c == cs[..n][m] && Satisfies(r, p.combo);
        if Get(q.combo, r.axis) != Get(p.combo, r.axis) {
          MeetingConstraints(c, d, p.combo);
          Respected(c, d, r, p.combo, Get(q.combo, r.axis));
        }
      }
    }
  }

  lemma Respected(c: Constraint, d: Constraint, r: Rule, combo: Combo, after: Value)
    requires Respects(d, c) && r in c.require && r.allowed != [] && Assigned(d, combo, r.axis, after)
    ensures after in r.allowed
  {
  }

  lemma {:induction false} SweepPrefix(cs: seq<Constraint>, n: nat, level: string -> nat, k: nat, p: Progress)
    requires Stratified(cs, level) && WellFormed(cs) && ConflictFree(cs) && n <= |cs|
    requires SettledTo(cs, level, k, p.combo)
    ensures SameTo(level, k, p.combo, Sweep(cs[..n], p).combo)
    ensures SettledTo(cs[..n], level, k + 1, Sweep(cs[..n], p).combo)
  {
    hide Visit, Stratified, WellFormed, ConflictFree;
    if n > 0 {
      SweepPrefix(cs, n - 1, level, k, p);
      var q := Sweep(cs[..n - 1], p);
      assert cs[..n][..n - 1] == cs[..n - 1] && Sweep(cs[..n], p) == Visit(cs[n - 1], q);
      hide SettledTo, SameTo, Sweep;
      VisitKeepsLower(cs, cs[n - 1], level, k, p.combo, q);
      VisitSettles(cs, n - 1, level, k, p.combo, q);
    }
  }

  lemma SweepSettles(cs: seq<Constraint>, level: string -> nat, k: nat, p: Progress)
    requires Stratified(cs, level) && WellFormed(cs) && ConflictFree(cs) && SettledTo(cs, level, k, p.combo)
    ensures SettledTo(cs, level, k + 1, Sweep(cs, p).combo)
  {
    assert cs[..|cs|] == cs;
    hide Sweep, Stratified, WellFormed, ConflictFree, SettledTo;
    SweepPrefix(cs, |cs|, level, k, p);
  }

  lemma NothingBelow(cs: seq<Constraint>, level: string -> nat, combo: Combo)
    requires Stratified(cs, level)
    ensures SettledTo(cs, level, 0, combo)
  {
    hide Matches;
  }

  lemma SettledToDepth(cs: seq<Constraint>, level: string -> nat, d: nat, combo: Combo)
    requires DepthAtMost(cs, level, d) && SettledTo(cs, level, d, combo)
    ensures Stable(cs, combo)
  {
    hide Matches, Satisfies;
  }

  lemma {:induction false} RoundsSettle(cs: seq<Constraint>, level: string -> nat, d: nat, k: nat, p: Progress, n: nat)
    requires Stratified(cs, level) && WellFormed(cs) && ConflictFree(cs) && DepthAtMost(cs, level, d)
    requires SettledTo(cs, level, k, p.combo) && k + n >= d
    ensures Stable(cs, Rounds(cs, p, n).combo)
    decreases n
  {
    hide Stratified, WellFormed, ConflictFree, Sweep, Stable;
    if n == 0 {
      assert SettledTo(cs, level, d, p.combo);
      SettledToDepth(cs, level, d, p.combo);
    } else {
      SweepStops(cs, p);
      SweepExtends(cs, p, p.combo);
      SweepSettles(cs, level, k, p);
      hide SettledTo, DepthAtMost, Replays;
      if |Sweep(cs, p).changes| != |p.changes| {
        RoundsSettle(cs, level, d, k + 1, Sweep(cs, p), n - 1);
      }
    }
  }

  // Repair of a stratified, conflict-free constraint set of depth d takes at
  // most d sweeps that change anything. Up to depth 10 the result is settled,
  // and up to depth 9 the round after those d, which changes nothing, is still
  // within the loop's bound.
  lemma RepairConvergesByLevels(cs: seq<Constraint>, level: string -> nat, d: nat, combo: Combo)
    requires Stratified(cs, level) && WellFormed(cs) && ConflictFree(cs) && DepthAtMost(cs, level, d) && d <= MAX_ROUNDS
    ensures Stable(cs, Repaired(cs, combo).combo)
    ensures Repaired(cs, combo) == Rounds(cs, Progress(combo, []), d)
    ensures LeftAfter(cs, Progress(combo, []), d)
  {
    hide Rounds, Stable, Sweep, Stratified, WellFormed, ConflictFree, DepthAtMost, SettledTo;
    var p := Progress(combo, []);
    NothingBelow(cs, level, combo);
    RoundsSettle(cs, level, d, 0, p, d);
    MoreRoundsSame(cs, p, d, MAX_ROUNDS - d);
    MoreRoundsSame(cs, p, d, 1);
  }

  // Pinning one axis behind such a set keeps all of that when every earlier rule
  // on the axis allows the pinned value.
  lemma PinnedSetConverges(cs: seq<Constraint>, pin: Constraint, axis: string, v: Value, level: string -> nat, d: nat,
                           combo: Combo)
    requires Stratified(cs, level) && WellFormed(cs) && ConflictFree(cs) && DepthAtMost(cs, level, d) && d <= MAX_ROUNDS
    requires pin.when == [] && pin.require == [Rule(axis, [v])] && 1 <= level(axis) <= d
    requires forall c, r :: c in cs && r in c.require && r.axis == axis && r.allowed != [] ==> v in r.allowed
    ensures Stable(cs + [pin], Repaired(cs + [pin], combo).combo)
    ensures Get(Repaired(cs + [pin], combo).combo, axis) == v
  {
    hide Repaired, CanMeet;
    var all := cs + [pin];
    forall i, j | 0 <= i < j < |all| && CanMeet(all[i], all[j]) ensures Respects(all[j], all[i]) {
      if j == |cs| {
        assert all[i] in cs;
      }
    }
    RepairConvergesByLevels(all, level, d, combo);
    PinHolds(all, pin, axis, v, Repaired(all, combo).combo);
  }

  lemma PinHolds(cs: seq<Constraint>, pin: Constraint, axis: string, v: Value, combo: Combo)
    requires pin in cs && pin.when == [] && pin.require == [Rule(axis, [v])] && Stable(cs, combo)
    ensures Get(combo, axis) == v
  {
    assert Settled(pin, combo) && pin.require[0] in pin.require;
  }

  // ---- two rules on one axis, exactly ----

  // A constraint with one require rule, about an axis its guard does not look at.
  ghost predicate OneRule(c: Constraint, axis: string, allowed: seq<Value>) {
    c.require == [Rule(axis, allowed)] && allowed != [] && forall w :: w in c.when ==> w.axis != axis
  }

  function FixedTo(v: Value, allowed: seq<Value>): Value
    requires allowed != []
  {
    if v in allowed then v else allowed[0]
  }

  lemma OneRuleVisit(c: Constraint, axis: string, allowed: seq<Value>, p: Progress)
    requires OneRule(c, axis, allowed) && Matches(c, p.combo)
    ensures var q, v := Visit(c, p), Get(p.combo, axis);
            && Get(q.combo, axis) == FixedTo(v, allowed)
            && |q.changes| == |p.changes| + (if v in allowed then 0 else 1)
            && forall other :: other != axis ==> Get(q.combo, other) == Get(p.combo, other)
  {
    hide Matches;
    var rule := c.require[0];
    assert c.require[..0] == [] && Violations([], p.combo) == [];
    var broken := Violations(c.require, p.combo);
    assert broken == if Satisfies(rule, p.combo) then [] else [rule];
    assert [rule][..0] == [] && FixAll([], c, p) == p;
    assert FixAll([rule], c, p) == Fix(rule, c, p);
  }

  // A guard that does not look at the axis does not notice its value.
  lemma GuardKept(c: Constraint, axis: string, a: Combo, b: Combo)
    requires forall w :: w in c.when ==> w.axis != axis
    requires forall other :: other != axis ==> Get(a, other) == Get(b, other)
    ensures Matches(c, a) <==> Matches(c, b)
  {
    forall i | 0 <= i < |c.when| ensures Satisfies(c.when[i], a) <==> Satisfies(c.when[i], b) {
      assert c.when[i] in c.when;
    }
  }

  // Both constraints have their one rule on the axis, and both match.
  ghost predicate Pair(c: Constraint, d: Constraint, axis: string, A: seq<Value>, B: seq<Value>, combo: Combo) {
    OneRule(c, axis, A) && OneRule(d, axis, B) && Matches(c, combo) && Matches(d, combo)
  }

  lemma PairSweep(c: Constraint, d: Constraint, axis: string, A: seq<Value>, B: seq<Value>, p: Progress)
    requires Pair(c, d, axis, A, B, p.combo)
    ensures var q, v, u := Sweep([c, d], p), Get(p.combo, axis), FixedTo(Get(p.combo, axis), A);
            && Pair(c, d, axis, A, B, q.combo) && Get(q.combo, axis) == FixedTo(u, B)
            && |q.changes| == |p.changes| + (if v in A then 0 else 1) + (if u in B then 0 else 1)
  {
    hide Visit, Matches;
    var mid := Visit(c, p);
    assert [c, d][..1] == [c] && [c][..0] == [] && Sweep([], p) == p;
    assert Sweep([c], p) == mid;
    assert Sweep([c, d], p) == Visit(d, mid);
    OneRuleVisit(c, axis, A, p);
    GuardKept(d, axis, p.combo, mid.combo);
    OneRuleVisit(d, axis, B, mid);
    GuardKept(c, axis, p.combo, Visit(d, mid).combo);
    GuardKept(d, axis, p.combo, Visit(d, mid).combo);
  }

  lemma PairStable(c: Constraint, d: Constraint, axis: string, A: seq<Value>, B: seq<Value>, combo: Combo)
    requires Pair(c, d, axis, A, B, combo)
    ensures Stable([c, d], combo) <==> Get(combo, axis) in A && Get(combo, axis) in B
  {
    hide Matches;
    assert c.require[0] in c.require && d.require[0] in d.require;
    assert c in [c, d] && d in [c, d];
    assert Settled(c, combo) <==> Get(combo, axis) in A;
    assert Settled(d, combo) <==> Get(combo, axis) in B;
  }

  // From a value one list refuses, with neither first value in the other list,
  // each round puts the later list's first value back and is undone by the next.
  lemma {:induction false} PairNeverSettles(c: Constraint, d: Constraint, axis: string, A: seq<Value>, B: seq<Value>,
                                            p: Progress, n: nat)
    requires Pair(c, d, axis, A, B, p.combo) && A[0] !in B && B[0] !in A
    requires Get(p.combo, axis) !in A || Get(p.combo, axis) !in B
    ensures var q := Rounds([c, d], p, n);
            && !Stable([c, d], q.combo)
            && |q.changes| == |p.changes| + if n == 0 then 0 else 2 * n - if Get(p.combo, axis) in A then 1 else 0
    decreases n
  {
    hide Sweep, Stable, Pair;
    if n == 0 {
      PairStable(c, d, axis, A, B, p.combo);
    } else {
      PairSweep(c, d, axis, A, B, p);
      PairNeverSettles(c, d, axis, A, B, Sweep([c, d], p), n - 1);
    }
  }

  // Otherwise two rounds are enough.
  lemma PairSettles(c: Constraint, d: Constraint, axis: string, A: seq<Value>, B: seq<Value>, p: Progress, n: nat)
    requires Pair(c, d, axis, A, B, p.combo) && n >= 2
    requires A[0] in B || B[0] in A || (Get(p.combo, axis) in A && Get(p.combo, axis) in B)
    ensures Stable([c, d], Rounds([c, d], p, n).combo)
  {
    assert A != [] && B != [];
    hide Sweep, Stable, Pair;
    var cs := [c, d];
    var q := Sweep(cs, p);
    var r := Sweep(cs, q);
    SweepStops(cs, p);
    SweepStops(cs, q);
    SweepExtends(cs, p, p.combo);
    SweepExtends(cs, q, p.combo);
    hide Replays;
    PairSweep(c, d, axis, A, B, p);
    PairSweep(c, d, axis, A, B, q);
    FixedTwice(Get(p.combo, axis), A, B);
    hide FixedTo;
    PairStable(c, d, axis, A, B, r.combo);
    if Stable(cs, q.combo) {
      StableStart(cs, q, n - 1);
    }
    StableStart(cs, r, n - 2);
  }

  lemma FixedTwice(v: Value, A: seq<Value>, B: seq<Value>)
    requires A != [] && B != [] && (A[0] in B || B[0] in A || (v in A && v in B))
    ensures var u := FixedTo(FixedTo(FixedTo(FixedTo(v, A), B), A), B); u in A && u in B
  {
  }

  // Repair of two matching constraints that each allow one axis a list of values
  // settles exactly when the value it starts from is in both lists or one list's
  // first value is in the other. When it does not, every round changes the axis
  // again: the log has two entries for each, one fewer for the first if the
  // earlier constraint had nothing to repair.
  lemma PairSettlesExactly(c: Constraint, d: Constraint, axis: string, A: seq<Value>, B: seq<Value>, combo: Combo)
    requires OneRule(c, axis, A) && OneRule(d, axis, B) && Matches(c, combo) && Matches(d, combo)
    ensures var v := Get(combo, axis);
            var settles := A[0] in B || B[0] in A || (v in A && v in B);
            && (Stable([c, d], Repaired([c, d], combo).combo) <==> settles)
            && (!settles ==> forall n: nat :: n > 0 ==>
                  |Rounds([c, d], Progress(combo, []), n).changes| == 2 * n - if v in A then 1 else 0)
  {
    assert A != [] && B != [];
    hide Rounds, Stable, OneRule, Matches;
    var p, v := Progress(combo, []), Get(combo, axis);
    assert Pair(c, d, axis, A, B, combo);
    if A[0] in B || B[0] in A || (v in A && v in B) {
      PairSettles(c, d, axis, A, B, p, MAX_ROUNDS);
    } else {
      forall n: nat
        ensures !Stable([c, d], Rounds([c, d], p, n).combo)
        ensures n > 0 ==> |Rounds([c, d], p, n).changes| == 2 * n - if v in A then 1 else 0
      {
        PairNeverSettles(c, d, axis, A, B, p, n);
      }
      assert !Stable([c, d], Rounds([c, d], p, MAX_ROUNDS).combo);
    }
  }

  // Two unguarded ones settle from everywhere exactly when one list's first
  // value is in the other.
  lemma PairAlwaysSettlesExactly(c: Constraint, d: Constraint, axis: string, A: seq<Value>, B: seq<Value>)
    requires OneRule(c, axis, A) && OneRule(d, axis, B) && c.when == [] && d.when == []
    ensures (forall combo: Combo :: axis in combo ==> Stable([c, d], Repaired([c, d], combo).combo)) <==>
            A[0] in B || B[0] in A
  {
    hide Stable, Repaired;
    forall combo: Combo
      ensures Stable([c, d], Repaired([c, d], combo).combo) <==>
              A[0] in B || B[0] in A || (Get(combo, axis) in A && Get(combo, axis) in B)
    {
      PairSettlesExactly(c, d, axis, A, B, combo);
    }
    var combo: Combo := map[axis := B[0]];
    assert axis in combo && Get(combo, axis) == B[0];
  }
}
