// Constraint repair: sweeps over the constraints, each fixing the require rules
// a matching combination breaks, until a sweep changes nothing or ten are done.
module Repair {
  import opened DesignModels

  datatype Change = Change(axis: string, original: Value, replacement: Value, cause: Constraint)

  datatype Progress = Progress(combo: Combo, changes: seq<Change>)

  const MAX_ROUNDS: nat := 10

  // A broken rule is repaired with its first allowed value, if it has one.
  function Fix(rule: Rule, c: Constraint, p: Progress): Progress {
    if rule.allowed == [] || Get(p.combo, rule.axis) == rule.allowed[0] then p
    else Progress(p.combo[rule.axis := rule.allowed[0]],
                  p.changes + [Change(rule.axis, Get(p.combo, rule.axis), rule.allowed[0], c)])
  }

  function FixAll(rules: seq<Rule>, c: Constraint, p: Progress): Progress {
    if rules == [] then p
    else Fix(rules[|rules| - 1], c, FixAll(rules[..|rules| - 1], c, p))
  }

  function Visit(c: Constraint, p: Progress): Progress {
    if Matches(c, p.combo) then FixAll(Violations(c.require, p.combo), c, p) else p
  }

  function Sweep(cs: seq<Constraint>, p: Progress): Progress {
    if cs == [] then p
    else Visit(cs[|cs| - 1], Sweep(cs[..|cs| - 1], p))
  }

  function Rounds(cs: seq<Constraint>, p: Progress, n: nat): Progress
    decreases n
  {
    if n == 0 then p
    else
      var q := Sweep(cs, p);
      if |q.changes| == |p.changes| then q else Rounds(cs, q, n - 1)
  }

  function Repaired(cs: seq<Constraint>, combo: Combo): Progress {
    Rounds(cs, Progress(combo, []), MAX_ROUNDS)
  }

  // ---- the log ----

  // The change applies to the combination it was made in.
  ghost predicate Applies(change: Change, combo: Combo) {
    Get(combo, change.axis) == change.original != change.replacement
  }

  ghost predicate Replays(start: Combo, changes: seq<Change>, end: Combo) {
    if changes == [] then end == start
    else
      var last := changes[|changes| - 1];
      exists mid: Combo :: Replays(start, changes[..|changes| - 1], mid) && Applies(last, mid)
        && end == mid[last.axis := last.replacement]
  }

  // A step in progress: nothing logged is lost, the log replays, the bound axes
  // stay bound, and no change means no effect.
  ghost predicate Extends(p: Progress, q: Progress, start: Combo) {
    && |p.changes| <= |q.changes| && q.changes[..|p.changes|] == p.changes
    && (|q.changes| == |p.changes| ==> q == p)
    && (Replays(start, p.changes, p.combo) ==> Replays(start, q.changes, q.combo))
    && p.combo.Keys <= q.combo.Keys
  }

  lemma ExtendsTwice(p: Progress, q: Progress, r: Progress, start: Combo)
    requires Extends(p, q, start) && Extends(q, r, start)
    ensures Extends(p, r, start)
  {
    hide Replays;
    assert r.changes[..|q.changes|][..|p.changes|] == r.changes[..|p.changes|];
  }

  lemma FixExtends(rule: Rule, c: Constraint, p: Progress, start: Combo)
    ensures Extends(p, Fix(rule, c, p), start)
  {
    var q := Fix(rule, c, p);
    if q != p {
      var last := q.changes[|q.changes| - 1];
      assert q.changes[..|q.changes| - 1] == p.changes;
      assert Applies(last, p.combo) && q.combo == p.combo[last.axis := last.replacement];
    }
  }

  lemma {:induction false} FixAllExtends(rules: seq<Rule>, c: Constraint, p: Progress, start: Combo)
    ensures Extends(p, FixAll(rules, c, p), start)
  {
    hide Replays, Fix;
    if rules != [] {
      FixAllExtends(rules[..|rules| - 1], c, p, start);
      FixExtends(rules[|rules| - 1], c, FixAll(rules[..|rules| - 1], c, p), start);
      ExtendsTwice(p, FixAll(rules[..|rules| - 1], c, p), FixAll(rules, c, p), start);
    }
  }

  lemma VisitExtends(c: Constraint, p: Progress, start: Combo)
    ensures Extends(p, Visit(c, p), start)
  {
    hide Replays, FixAll, Matches;
    FixAllExtends(Violations(c.require, p.combo), c, p, start);
  }

  lemma {:induction false} SweepExtends(cs: seq<Constraint>, p: Progress, start: Combo)
    ensures Extends(p, Sweep(cs, p), start)
  {
    hide Replays, Visit;
    if cs != [] {
      SweepExtends(cs[..|cs| - 1], p, start);
      VisitExtends(cs[|cs| - 1], Sweep(cs[..|cs| - 1], p), start);
      ExtendsTwice(p, Sweep(cs[..|cs| - 1], p), Sweep(cs, p), start);
    }
  }

  lemma {:induction false} RoundsExtend(cs: seq<Constraint>, p: Progress, n: nat, start: Combo)
    ensures Extends(p, Rounds(cs, p, n), start)
    decreases n
  {
    hide Replays, Sweep;
    if n > 0 {
      SweepExtends(cs, p, start);
      RoundsExtend(cs, Sweep(cs, p), n - 1, start);
      ExtendsTwice(p, Sweep(cs, p), Rounds(cs, p, n), start);
    }
  }

  // Replaying the log on the input gives the output.
  lemma LogReplays(cs: seq<Constraint>, combo: Combo)
    ensures Replays(combo, Repaired(cs, combo).changes, Repaired(cs, combo).combo)
    ensures combo.Keys <= Repaired(cs, combo).combo.Keys
  {
    RoundsExtend(cs, Progress(combo, []), MAX_ROUNDS, combo);
    hide Rounds;
  }

  // The first change of an axis records the value the axis came in with.
  lemma {:induction false} FirstChange(start: Combo, changes: seq<Change>, end: Combo, axis: string)
    requires Replays(start, changes, end) && Get(start, axis) != Get(end, axis)
    ensures exists i :: 0 <= i < |changes| && changes[i].axis == axis && changes[i].original == Get(start, axis)
  {
    if changes != [] {
      var n := |changes| - 1;
      var last := changes[n];
      var mid: Combo :| Replays(start, changes[..n], mid) && Applies(last, mid)
        && end == mid[last.axis := last.replacement];
      if Get(mid, axis) != Get(start, axis) {
        FirstChange(start, changes[..n], mid, axis);
        var i :| 0 <= i < n && changes[..n][i].axis == axis && changes[..n][i].original == Get(start, axis);
        assert changes[i] == changes[..n][i];
      } else {
        assert changes[n].axis == axis;
      }
    }
  }

  // ---- fixpoints ----

  // The rule holds, or there is no value to repair it with.
  ghost predicate Settled(c: Constraint, combo: Combo) {
    Matches(c, combo) ==> forall r :: r in c.require ==> Satisfies(r, combo) || r.allowed == []
  }

  // No matching constraint has a repairable violation.
  ghost predicate Stable(cs: seq<Constraint>, combo: Combo) {
    forall c :: c in cs ==> Settled(c, combo)
  }

  lemma {:induction false} FixAllKeeps(rules: seq<Rule>, c: Constraint, p: Progress)
    requires forall r :: r in rules ==> !Satisfies(r, p.combo)
    ensures FixAll(rules, c, p) == p <==> forall r :: r in rules ==> r.allowed == []
  {
    if rules != [] {
      var front, last := rules[..|rules| - 1], rules[|rules| - 1];
      assert rules == front + [last];
      FixAllKeeps(front, c, p);
      FixAllExtends(front, c, p, p.combo);
      FixExtends(last, c, FixAll(front, c, p), p.combo);
      hide Replays;
      assert last in rules;
      if FixAll(front, c, p) == p && last.allowed != [] {
        assert Get(p.combo, last.axis) != last.allowed[0];
      }
    }
  }

  lemma VisitKeeps(c: Constraint, p: Progress)
    ensures Visit(c, p) == p <==> Settled(c, p.combo)
  {
    hide FixAll, Matches;
    FixAllKeeps(Violations(c.require, p.combo), c, p);
  }

  // A sweep changes nothing exactly when nothing is left to repair.
  lemma {:induction false} SweepKeeps(cs: seq<Constraint>, p: Progress)
    ensures Sweep(cs, p) == p <==> Stable(cs, p.combo)
  {
    hide Visit, Settled, Replays;
    if cs != [] {
      var front, last := cs[..|cs| - 1], cs[|cs| - 1];
      assert cs == front + [last];
      SweepKeeps(front, p);
      SweepExtends(front, p, p.combo);
      VisitExtends(last, Sweep(front, p), p.combo);
      VisitKeeps(last, p);
    }
  }

  lemma SweepStops(cs: seq<Constraint>, p: Progress)
    ensures |Sweep(cs, p).changes| == |p.changes| <==> Stable(cs, p.combo)
  {
    hide Replays, Sweep;
    SweepExtends(cs, p, p.combo);
    SweepKeeps(cs, p);
  }

  // Nothing to repair at the start ends the loop there.
  lemma StableStart(cs: seq<Constraint>, p: Progress, n: nat)
    requires Stable(cs, p.combo)
    ensures Rounds(cs, p, n) == p
  {
    hide Sweep, Stable;
    SweepKeeps(cs, p);
  }

  // With or without its early exit the loop applies one sweep after another.
  lemma {:induction false} NextRound(cs: seq<Constraint>, p: Progress, n: nat)
    ensures Rounds(cs, p, n + 1) == Sweep(cs, Rounds(cs, p, n))
    decreases n
  {
    hide Sweep, Replays;
    SweepExtends(cs, p, p.combo);
    if n > 0 && |Sweep(cs, p).changes| != |p.changes| {
      NextRound(cs, Sweep(cs, p), n - 1);
    }
  }

  function Swept(cs: seq<Constraint>, p: Progress, n: nat): Progress {
    if n == 0 then p else Sweep(cs, Swept(cs, p, n - 1))
  }

  lemma {:induction false} RoundsSweep(cs: seq<Constraint>, p: Progress, n: nat)
    ensures Rounds(cs, p, n) == Swept(cs, p, n)
  {
    hide Sweep;
    if n > 0 {
      RoundsSweep(cs, p, n - 1);
      NextRound(cs, p, n - 1);
    }
  }

  // So a repair is ten sweeps, neither more nor fewer.
  lemma TenSweeps(cs: seq<Constraint>, combo: Combo)
    ensures Repaired(cs, combo) == Swept(cs, Progress(combo, []), 10)
  {
    RoundsSweep(cs, Progress(combo, []), 10);
    hide Rounds, Swept;
  }

  lemma {:induction false} MoreRoundsSame(cs: seq<Constraint>, p: Progress, n: nat, extra: nat)
    requires Stable(cs, Rounds(cs, p, n).combo)
    ensures Rounds(cs, p, n + extra) == Rounds(cs, p, n)
    decreases n
  {
    hide Sweep, Stable;
    if n == 0 {
      StableStart(cs, p, extra);
    } else if |Sweep(cs, p).changes| != |p.changes| {
      MoreRoundsSame(cs, Sweep(cs, p), n - 1, extra);
    }
  }

  // Round m + 1 changed nothing, which is when the loop is left.
  ghost predicate LeftAfter(cs: seq<Constraint>, p: Progress, m: nat) {
    Rounds(cs, p, m + 1) == Rounds(cs, p, m)
  }

  // One of n rounds changes nothing exactly when the first n - 1 leave no
  // repairable violation; the result is then what they left, and has none.
  lemma RoundsStop(cs: seq<Constraint>, p: Progress, n: nat)
    ensures (exists m: nat :: m < n && LeftAfter(cs, p, m)) <==> n > 0 && Stable(cs, Rounds(cs, p, n - 1).combo)
    ensures forall m: nat :: m < n && LeftAfter(cs, p, m) ==>
              Rounds(cs, p, n) == Rounds(cs, p, m) && Stable(cs, Rounds(cs, p, n).combo)
  {
    hide Sweep, Stable, Rounds;
    forall m: nat | m < n && LeftAfter(cs, p, m)
      ensures Rounds(cs, p, n) == Rounds(cs, p, m) == Rounds(cs, p, n - 1) && Stable(cs, Rounds(cs, p, m).combo)
    {
      NextRound(cs, p, m);
      SweepKeeps(cs, Rounds(cs, p, m));
      MoreRoundsSame(cs, p, m, n - m);
      MoreRoundsSame(cs, p, m, n - 1 - m);
    }
    if n > 0 && Stable(cs, Rounds(cs, p, n - 1).combo) {
      MoreRoundsSame(cs, p, n - 1, 1);
      assert LeftAfter(cs, p, n - 1);
    }
  }

  // A consistent combination is returned untouched, with an empty log.
  lemma ConsistentUntouched(cs: seq<Constraint>, combo: Combo)
    ensures Stable(cs, combo) <==> Repaired(cs, combo) == Progress(combo, [])
  {
    hide Sweep, Stable;
    var p := Progress(combo, []);
    if Stable(cs, combo) {
      StableStart(cs, p, MAX_ROUNDS);
    } else {
      SweepStops(cs, p);
      RoundsExtend(cs, Sweep(cs, p), MAX_ROUNDS - 1, combo);
      hide Replays;
    }
  }

  // ---- who changed what ----

  ghost predicate CausedBy(cs: seq<Constraint>, p: Progress) {
    forall ch :: ch in p.changes ==> ch.cause in cs
  }

  lemma {:induction false} FixAllCaused(cs: seq<Constraint>, rules: seq<Rule>, c: Constraint, p: Progress)
    requires CausedBy(cs, p) && c in cs
    ensures CausedBy(cs, FixAll(rules, c, p))
  {
    if rules != [] {
      FixAllCaused(cs, rules[..|rules| - 1], c, p);
    }
  }

  lemma {:induction false} SweepCaused(cs: seq<Constraint>, n: nat, p: Progress)
    requires CausedBy(cs, p) && n <= |cs|
    ensures CausedBy(cs, Sweep(cs[..n], p))
  {
    hide FixAll, Matches;
    if n > 0 {
      SweepCaused(cs, n - 1, p);
      var q := Sweep(cs[..n - 1], p);
      assert cs[..n][..n - 1] == cs[..n - 1] && Sweep(cs[..n], p) == Visit(cs[n - 1], q);
      FixAllCaused(cs, Violations(cs[n - 1].require, q.combo), cs[n - 1], q);
    }
  }

  lemma {:induction false} RoundsCaused(cs: seq<Constraint>, p: Progress, n: nat)
    requires CausedBy(cs, p)
    ensures CausedBy(cs, Rounds(cs, p, n))
    decreases n
  {
    hide Sweep;
    if n > 0 {
      SweepCaused(cs, |cs|, p);
      assert cs[..|cs|] == cs;
      RoundsCaused(cs, Sweep(cs, p), n - 1);
    }
  }

  // ---- unbound axes ----

  // The source looks up the axis it is about to assign, so a repair raises when
  // it meets an unbound one. Assigning is the only way an axis gets bound here,
  // so a repair raises exactly when it would leave more axes bound.
  ghost predicate Unraised(cs: seq<Constraint>, combo: Combo) {
    Repaired(cs, combo).combo.Keys == combo.Keys
  }

  // Every axis a rule could assign is bound: enough for that.
  ghost predicate Bound(cs: seq<Constraint>, axes: set<string>) {
    forall c, r :: c in cs && r in c.require && r.allowed != [] ==> r.axis in axes
  }

  lemma FixBinds(rule: Rule, c: Constraint, p: Progress)
    ensures Fix(rule, c, p).combo.Keys ==
            if rule.allowed == [] || Get(p.combo, rule.axis) == rule.allowed[0] then p.combo.Keys
              else p.combo.Keys + {rule.axis}
  {
  }

  lemma {:induction false} FixAllBinds(rules: seq<Rule>, n: nat, c: Constraint, p: Progress)
    requires n <= |rules|
    ensures p.combo.Keys <= FixAll(rules[..n], c, p).combo.Keys <= FixAll(rules, c, p).combo.Keys
  {
    hide Fix;
    if n == |rules| {
      assert rules[..n] == rules;
      FixAllExtends(rules, c, p, p.combo);
      hide Replays;
    } else {
      assert rules[..|rules| - 1][..n] == rules[..n];
      FixAllBinds(rules[..|rules| - 1], n, c, p);
      FixBinds(rules[|rules| - 1], c, FixAll(rules[..|rules| - 1], c, p));
    }
  }

  lemma {:induction false} SweepBinds(cs: seq<Constraint>, n: nat, p: Progress)
    requires n <= |cs|
    ensures p.combo.Keys <= Sweep(cs[..n], p).combo.Keys <= Sweep(cs, p).combo.Keys
  {
    hide Visit, Replays;
    if n == |cs| {
      assert cs[..n] == cs;
      SweepExtends(cs, p, p.combo);
    } else {
      assert cs[..|cs| - 1][..n] == cs[..n];
      SweepBinds(cs[..|cs| - 1], n, p);
      VisitExtends(cs[|cs| - 1], Sweep(cs[..|cs| - 1], p), p.combo);
    }
  }

  lemma {:induction false} FixAllWithin(rules: seq<Rule>, c: Constraint, p: Progress, axes: set<string>)
    requires p.combo.Keys <= axes && forall r :: r in rules && r.allowed != [] ==> r.axis in axes
    ensures FixAll(rules, c, p).combo.Keys <= axes
  {
    if rules != [] {
      FixAllWithin(rules[..|rules| - 1], c, p, axes);
      assert rules[|rules| - 1] in rules;
    }
  }

  lemma {:induction false} SweepWithin(cs: seq<Constraint>, p: Progress, axes: set<string>)
    requires p.combo.Keys <= axes && Bound(cs, axes)
    ensures Sweep(cs, p).combo.Keys <= axes
  {
    hide FixAll, Matches;
    if cs != [] {
      var last, q := cs[|cs| - 1], Sweep(cs[..|cs| - 1], p);
      assert last in cs;
      SweepWithin(cs[..|cs| - 1], p, axes);
      FixAllWithin(Violations(last.require, q.combo), last, q, axes);
    }
  }

  lemma {:induction false} RoundsWithin(cs: seq<Constraint>, p: Progress, n: nat, axes: set<string>)
    requires p.combo.Keys <= axes && Bound(cs, axes)
    ensures Rounds(cs, p, n).combo.Keys <= axes
    decreases n
  {
    hide Sweep, Bound;
    if n > 0 {
      SweepWithin(cs, p, axes);
      RoundsWithin(cs, Sweep(cs, p), n - 1, axes);
    }
  }

  lemma BoundUnraised(cs: seq<Constraint>, combo: Combo)
    requires Bound(cs, combo.Keys)
    ensures Unraised(cs, combo)
  {
    hide Rounds, Bound, Replays;
    RoundsWithin(cs, Progress(combo, []), MAX_ROUNDS, combo.Keys);
    LogReplays(cs, combo);
  }
}
