/**
  A model of the construction surface of `Condition`: the operator tokens,
  the jqGrid alias table, the static factories and the default `add`.

  The concrete conditions are values: each factory picks one variant and,
  for the comparisons, one operator token, and keeps its arguments as given.
  Parameters are Java objects, modelled as `Param`. Strings, arrays and
  conditions passed to the factories may be Java `null`: they are `Option`s.
*/
module Conditions {
  import opened Wrappers

  const Space: string := " "
  const ParameterPlaceholder: string := "?"
  const LeftBrace: string := "("
  const RightBrace: string := ")"

  // operator tokens
  const EqOp: string := "="
  const LtOp: string := "<"
  const GtOp: string := ">"
  const NeOp: string := "<>"
  const LeOp: string := "<="
  const GeOp: string := ">="
  const LikeOp: string := "LIKE"
  const IsNullOp: string := "IS NULL"
  const IsNotNullOp: string := "IS NOT NULL"
  const BetweenOp: string := "BETWEEN"
  const AndOp: string := "AND"
  const OrOp: string := "OR"
  const InOp: string := "IN"
  const NotInOp: string := "NOT IN"

  /** The operator tokens declared by `Condition`. */
  const OperatorTokens: set<string> :=
    {EqOp, LtOp, GtOp, NeOp, LeOp, GeOp, LikeOp, IsNullOp, IsNotNullOp, BetweenOp, AndOp, OrOp, InOp, NotInOp}

  /** The message of the exception thrown by the default `add`. */
  const AddNotSupported: string := "Add component not supported!"

  /** A parameter: Java `null`, a string, or any other object (by identity). */
  datatype Param = NullParam | StringParam(s: string) | ObjectParam(id: nat)

  /** The concrete condition classes the factories and constants create. */
  datatype Condition =
    | Simple(column: Option<string>, op: string, parameter: Param)
    | IsNull(column: Option<string>)
    | IsNotNull(column: Option<string>)
    | BetweenAnd(column: Option<string>, lowerLimit: Param, upperLimit: Param)
    | In(column: Option<string>, component: Option<string>, parameters: Option<seq<Param>>)
    | NotIn(column: Option<string>, component: Option<string>, parameters: Option<seq<Param>>)
    | And(components: Option<seq<Option<Condition>>>)
    | Or(components: Option<seq<Option<Condition>>>)
    | AlwaysTrue
    | AlwaysFalse
  {
    /** `AndCondition` and `OrCondition`, the only classes meant to override `add`. */
    predicate IsComposite()
    {
      And? || Or?
    }
  }

  const AlwaysTrueCondition: Condition := AlwaysTrue
  const AlwaysFalseCondition: Condition := AlwaysFalse

  /** The jqGrid alias table filled by the static initializer: short
      search-operator code to operator token. */
  const Aliases: map<string, string> :=
    map["eq" := EqOp, "ne" := NeOp, "lt" := LtOp, "le" := LeOp, "gt" := GtOp,
        "ge" := GeOp, "cn" := InOp, "nc" := NotInOp, "bw" := BetweenOp, "bn" := AndOp]

  /** The static initializer: ten `put`s into an empty map. */
  method InitAliases() returns (m: map<string, string>)
    ensures m == Aliases
  {
    m := map[];
    m := m["eq" := EqOp];
    m := m["ne" := NeOp];
    m := m["lt" := LtOp];
    m := m["le" := LeOp];
    m := m["gt" := GtOp];
    m := m["ge" := GeOp];
    m := m["cn" := InOp];
    m := m["nc" := NotInOp];
    m := m["bw" := BetweenOp];
    m := m["bn" := AndOp];
  }

  /** `map.get(code)`: the token for a known code, nothing (Java `null`) otherwise. */
  function Lookup(code: string): (r: Option<string>)
    ensures r.Some? <==> code in Aliases
    ensures r.Some? ==> r.value in OperatorTokens && Aliases[code] == r.value
  {
    if code in Aliases then Some(Aliases[code]) else None
  }

  /** The outcome of `add`: the default throws; `AndCondition` and
      `OrCondition` override it in classes that are not part of this model. */
  datatype AddOutcome = NotSupported(message: string) | Overridden

  /** `add(component)`. */
  function Add(c: Condition, component: Option<Condition>): (r: AddOutcome)
    ensures r.NotSupported? <==> !c.IsComposite()
    ensures r.NotSupported? ==> r.message == AddNotSupported
  {
    if c.IsComposite() then Overridden else NotSupported(AddNotSupported)
  }

  /** `eq(column, parameter)`. */
  function Eq(column: Option<string>, parameter: Param): (c: Condition)
    ensures c.Simple? && c.op == EqOp
    ensures c.column == column && c.parameter == parameter
  {
    Simple(column, EqOp, parameter)
  }

  /** `lt(column, parameter)`. */
  function Lt(column: Option<string>, parameter: Param): (c: Condition)
    ensures c.Simple? && c.op == LtOp
    ensures c.column == column && c.parameter == parameter
  {
    Simple(column, LtOp, parameter)
  }

  /** `gt(column, parameter)`. */
  function Gt(column: Option<string>, parameter: Param): (c: Condition)
    ensures c.Simple? && c.op == GtOp
    ensures c.column == column && c.parameter == parameter
  {
    Simple(column, GtOp, parameter)
  }

  /** `ne(column, parameter)`. */
  function Ne(column: Option<string>, parameter: Param): (c: Condition)
    ensures c.Simple? && c.op == NeOp
    ensures c.column == column && c.parameter == parameter
  {
    Simple(column, NeOp, parameter)
  }

  /** `le(column, parameter)`. */
  function Le(column: Option<string>, parameter: Param): (c: Condition)
    ensures c.Simple? && c.op == LeOp
    ensures c.column == column && c.parameter == parameter
  {
    Simple(column, LeOp, parameter)
  }

  /** `ge(column, parameter)`. */
  function Ge(column: Option<string>, parameter: Param): (c: Condition)
    ensures c.Simple? && c.op == GeOp
    ensures c.column == column && c.parameter == parameter
  {
    Simple(column, GeOp, parameter)
  }

  /** `like(column, parameter)`: the parameter is a `String`, possibly `null`. */
  function Like(column: Option<string>, parameter: Option<string>): (c: Condition)
    ensures c.Simple? && c.op == LikeOp && c.column == column
    ensures parameter.None? ==> c.parameter == NullParam
    ensures parameter.Some? ==> c.parameter == StringParam(parameter.value)
  {
    Simple(column, LikeOp, if parameter.Some? then StringParam(parameter.value) else NullParam)
  }

  /** `isNull(column)`: the column and nothing else. */
  function IsNullOf(column: Option<string>): (c: Condition)
    ensures c.IsNull? && c.column == column
  {
    IsNull(column)
  }

  /** `isNotNull(column)`: the column and nothing else. */
  function IsNotNullOf(column: Option<string>): (c: Condition)
    ensures c.IsNotNull? && c.column == column
  {
    IsNotNull(column)
  }

  /** `betweenAnd(column, lowerLimit, upperLimit)`: the limits in the order given. */
  function BetweenAndOf(column: Option<string>, lowerLimit: Param, upperLimit: Param): (c: Condition)
    ensures c.BetweenAnd? && c.column == column
    ensures c.lowerLimit == lowerLimit && c.upperLimit == upperLimit
  {
    BetweenAnd(column, lowerLimit, upperLimit)
  }

  /** `in(column, component, parameters...)`. */
  function InOf(column: Option<string>, component: Option<string>, parameters: Option<seq<Param>>): (c: Condition)
    ensures c.In? && c.column == column && c.component == component && c.parameters == parameters
  {
    In(column, component, parameters)
  }

  /** `notIn(column, component, parameters...)`. */
  function NotInOf(column: Option<string>, component: Option<string>, parameters: Option<seq<Param>>): (c: Condition)
    ensures c.NotIn? && c.column == column && c.component == component && c.parameters == parameters
  {
    NotIn(column, component, parameters)
  }

  /** `and(components...)`: the children in argument order. */
  function AndOf(components: Option<seq<Option<Condition>>>): (c: Condition)
    ensures c.And? && c.components == components
  {
    And(components)
  }

  /** `or(components...)`: the children in argument order. */
  function OrOf(components: Option<seq<Option<Condition>>>): (c: Condition)
    ensures c.Or? && c.components == components
  {
    Or(components)
  }

  /** The codes of the alias table. */
  lemma AliasCodes()
    ensures Aliases.Keys == {"eq", "ne", "lt", "le", "gt", "ge", "cn", "nc", "bw", "bn"}
  {
  }

  /** The alias table holds ten entries: no code is put twice. */
  lemma AliasCount()
    ensures |Aliases| == 10
  {
    var m := map["eq" := EqOp];
    assert |m| == 1;
    m := m["ne" := NeOp];
    assert |m| == 2;
    m := m["lt" := LtOp];
    assert |m| == 3;
    m := m["le" := LeOp];
    assert |m| == 4;
    m := m["gt" := GtOp];
    assert |m| == 5;
    m := m["ge" := GeOp];
    assert |m| == 6;
    m := m["cn" := InOp];
    assert |m| == 7;
    m := m["nc" := NotInOp];
    assert |m| == 8;
    m := m["bw" := BetweenOp];
    assert |m| == 9;
    m := m["bn" := AndOp];
    assert |m| == 10;
    assert m == Aliases;
  }

  /** `map.get("en")` finds nothing: `en` is the one code left commented out. */
  lemma EndsWithAbsent()
    ensures Lookup("en") == None
  {
    assert "en" !in Aliases;
  }

  /** No two codes share a token, so the table can be read backwards. */
  lemma AliasesInjective(k1: string, k2: string)
    requires k1 in Aliases && k2 in Aliases && Aliases[k1] == Aliases[k2]
    ensures k1 == k2
  {
  }

  /** The comparison codes name the tokens the comparison factories use, and
      the other four codes name the `IN`, `NOT IN`, `BETWEEN` and `AND` tokens. */
  lemma AliasesAgreeWithFactories(column: Option<string>, parameter: Param)
    ensures Lookup("eq") == Some(Eq(column, parameter).op)
    ensures Lookup("ne") == Some(Ne(column, parameter).op)
    ensures Lookup("lt") == Some(Lt(column, parameter).op)
    ensures Lookup("le") == Some(Le(column, parameter).op)
    ensures Lookup("gt") == Some(Gt(column, parameter).op)
    ensures Lookup("ge") == Some(Ge(column, parameter).op)
    ensures Lookup("cn") == Some(InOp) && Lookup("nc") == Some(NotInOp)
    ensures Lookup("bw") == Some(BetweenOp) && Lookup("bn") == Some(AndOp)
  {
  }

  /** The seven simple-condition factories never build the same condition. */
  lemma SimpleFactoriesDistinct(column: Option<string>, parameter: Param, pattern: Option<string>)
    ensures |{Eq(column, parameter), Lt(column, parameter), Gt(column, parameter), Ne(column, parameter),
              Le(column, parameter), Ge(column, parameter), Like(column, pattern)}| == 7
  {
  }

  /** Every condition that a factory other than `and`/`or` builds, and both
      constants, reject `add` with the default message. */
  lemma LeavesRejectAdd(column: Option<string>, parameter: Param, upperLimit: Param, pattern: Option<string>,
                        component: Option<string>, parameters: Option<seq<Param>>, child: Option<Condition>)
    ensures forall c :: c in {Eq(column, parameter), Lt(column, parameter), Gt(column, parameter),
                              Ne(column, parameter), Le(column, parameter), Ge(column, parameter),
                              Like(column, pattern), IsNullOf(column), IsNotNullOf(column),
                              BetweenAndOf(column, parameter, upperLimit),
                              InOf(column, component, parameters), NotInOf(column, component, parameters),
                              AlwaysTrueCondition, AlwaysFalseCondition}
              ==> Add(c, child) == NotSupported(AddNotSupported)
  {
  }

  /** `and` and `or` build the only conditions whose `add` is not the default. */
  lemma CompositesOverrideAdd(components: Option<seq<Option<Condition>>>, child: Option<Condition>)
    ensures Add(AndOf(components), child) == Overridden
    ensures Add(OrOf(components), child) == Overridden
  {
  }
}
