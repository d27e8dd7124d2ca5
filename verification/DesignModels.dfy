// Axes, constraints and combinations of the design-space generator.
module DesignModels {

  // A configuration value; Null is what a lookup of an unbound axis gives.
  datatype Value = Null | Val(text: string)

  type Combo = map<string, Value>

  // An axis and the values a rule allows it.
  datatype Rule = Rule(axis: string, allowed: seq<Value>)

  datatype Constraint = Constraint(name: string, when: seq<Rule>, require: seq<Rule>, exclude: seq<seq<Rule>>,
                                   reason: string)

  datatype AxisSpec = AxisSpec(name: string, values: seq<Value>)

  // Why a requested value was not generated.
  datatype Exclusion = Exclusion(axis: string, value: Value, reason: string, constraintName: string)

  function Get(combo: Combo, axis: string): Value {
    if axis in combo then combo[axis] else Null
  }

  predicate Satisfies(rule: Rule, combo: Combo) {
    Get(combo, rule.axis) in rule.allowed
  }

  predicate Admits(rules: seq<Rule>, combo: Combo) {
    forall i :: 0 <= i < |rules| ==> Satisfies(rules[i], combo)
  }

  predicate Matches(c: Constraint, combo: Combo) {
    Admits(c.when, combo)
  }

  // The require rules the combination breaks, in order.
  function Violations(rules: seq<Rule>, combo: Combo): (r: seq<Rule>)
    ensures forall v :: v in r <==> v in rules && !Satisfies(v, combo)
  {
    if rules == [] then []
    else
      var last := rules[|rules| - 1];
      assert rules == rules[..|rules| - 1] + [last];
      Violations(rules[..|rules| - 1], combo) + if Satisfies(last, combo) then [] else [last]
  }

  predicate Excludes(c: Constraint, combo: Combo) {
    exists i :: 0 <= i < |c.exclude| && Admits(c.exclude[i], combo)
  }

  // Rules come from a dictionary: one per axis.
  ghost predicate OnePerAxis(rules: seq<Rule>) {
    forall i, j :: 0 <= i < j < |rules| ==> rules[i].axis != rules[j].axis
  }
}
