/** The query expressions `When` and `Case`, and the three-valued conditions they compile to. */
module SqlExpressions {
  import opened Tables

  /** An integer column value; SQL NULL is a value of its own. */
  datatype Value = Null | Int(n: int)

  /** SQL truth values: a comparison with NULL is unknown, and WHERE keeps a row only on `Yes`. */
  datatype Truth = Yes | No | Unknown

  datatype Operator = Eq | Ne | Gte | Lte | Gt | Lt

  /** A keyword argument key of `When`: `column` alone, or `column__operator`. */
  datatype Lookup = Lookup(column: string, operator: Option<Operator>)

  datatype Condition =
    | Compare(column: string, operator: Operator, operand: Value)
    | All(parts: seq<Condition>)

  datatype Arm = Arm(condition: Condition, result: Value)

  datatype WhenResult = Resolved(arm: Arm) | NoConditions | UnknownColumn(column: string)

  /** A row's values by column, or by path `relation__field`: there the row holds what the scalar subquery returns. */
  type Row = map<string, Value>

  function Cell(row: Row, column: string): Value {
    if column in row then row[column] else Null
  }

  function Holds(b: bool): Truth {
    if b then Yes else No
  }

  function Apply(operator: Operator, left: Value, right: Value): Truth {
    if left.Null? || right.Null? then Unknown
    else match operator
      case Eq => Holds(left.n == right.n)
      case Ne => Holds(left.n != right.n)
      case Gte => Holds(left.n >= right.n)
      case Lte => Holds(left.n <= right.n)
      case Gt => Holds(left.n > right.n)
      case Lt => Holds(left.n < right.n)
  }

  /** SQL's comparisons are one order: with NULL unknown, and otherwise each the other's opposite or converse. */
  lemma ComparisonLaws(a: Value, b: Value)
    ensures forall operator :: Apply(operator, a, b) == Unknown <==> a == Null || b == Null
    ensures a != Null && b != Null ==>
              && (Apply(Eq, a, b) == Yes <==> a == b) && (Apply(Ne, a, b) == Yes <==> a != b)
              && (Apply(Lte, a, b) == Yes <==> a.n <= b.n) && (Apply(Gt, a, b) == Yes <==> a.n > b.n)
              && (Apply(Gte, a, b) == Yes <==> Apply(Lte, b, a) == Yes) && (Apply(Lt, a, b) == Yes <==> Apply(Gt, b, a) == Yes)
              && forall operator :: Apply(operator, a, b) == Yes || Apply(operator, a, b) == No
  {
  }

  function Test(row: Row, condition: Condition): Truth {
    match condition
    case Compare(column, operator, operand) => Apply(operator, Cell(row, column), operand)
    case All(parts) => TestAll(row, parts)
  }

  function TestAll(row: Row, parts: seq<Condition>): Truth {
    if parts == [] then Yes
    else
      var (first, rest) := (Test(row, parts[0]), TestAll(row, parts[1..]));
      if first == No || rest == No then No
      else if first == Unknown || rest == Unknown then Unknown
      else Yes
  }

  /** `CASE WHEN .. THEN .. ELSE otherwise END`: arms are tried in order, and an unknown condition does not match. */
  function FirstMatch(row: Row, arms: seq<Arm>, otherwise: Value): Value {
    if arms == [] then otherwise
    else if Test(row, arms[0].condition) == Yes then arms[0].result
    else FirstMatch(row, arms[1..], otherwise)
  }

  lemma {:induction false} TestAllIsConjunction(row: Row, parts: seq<Condition>)
    ensures TestAll(row, parts) == Yes <==> forall k :: 0 <= k < |parts| ==> Test(row, parts[k]) == Yes
  {
    if parts != [] {
      TestAllIsConjunction(row, parts[1..]);
      assert forall k :: 0 <= k < |parts| - 1 ==> parts[1..][k] == parts[k + 1];
      assert forall k :: 1 <= k < |parts| ==> parts[k] == parts[1..][k - 1];
    }
  }

  function OperatorOf(lookup: Lookup): Operator {
    if lookup.operator.Some? then lookup.operator.value else Eq
  }

  /** What one keyword argument `lookup=operand` demands of a row. */
  predicate Demands(row: Row, lookup: Lookup, operand: Value) {
    Apply(OperatorOf(lookup), Cell(row, lookup.column), operand) == Yes
  }

  /** The value `conditions_dict["id"]`, if the arguments have the key `id` itself. */
  function IdArgument(arguments: seq<(Lookup, Value)>): Value {
    if arguments == [] then Null
    else if arguments[0].0 == Lookup("id", None) then arguments[0].1
    else IdArgument(arguments[1..])
  }

  /** It is the value under the key `id` alone, not under `id` with an operator, and there is none without that key. */
  lemma {:induction false} IdArgumentIs(arguments: seq<(Lookup, Value)>, k: nat)
    requires k < |arguments| && arguments[k].0 == Lookup("id", None)
    requires forall j :: 0 <= j < k ==> arguments[j].0 != Lookup("id", None)
    ensures IdArgument(arguments) == arguments[k].1
  {
    if k > 0 { IdArgumentIs(arguments[1..], k - 1); }
  }

  lemma {:induction false} NoIdArgument(arguments: seq<(Lookup, Value)>)
    requires forall k :: 0 <= k < |arguments| ==> arguments[k].0 != Lookup("id", None)
    ensures IdArgument(arguments) == Null
  {
    if arguments != [] { NoIdArgument(arguments[1..]); }
  }

  /** One `WHEN`: keyword arguments (keys of a dictionary, so distinct) and an optional THEN value. */
  class When {
    const thenArgument: Value
    const arguments: seq<(Lookup, Value)>

    constructor (thenArgument: Value, arguments: seq<(Lookup, Value)>)
      ensures this.thenArgument == thenArgument && this.arguments == arguments
    {
      this.thenArgument := thenArgument;
      this.arguments := arguments;
    }

    /** Every argument becomes a comparison, all of them are joined by AND, and a missing THEN defaults to the id. */
    method Resolve(columns: set<string>) returns (r: WhenResult)
      ensures r.NoConditions? <==> arguments == []
      ensures r.UnknownColumn? <==> exists k :: 0 <= k < |arguments| && arguments[k].0.column !in columns
      ensures r.Resolved? ==> forall row :: Test(row, r.arm.condition) == Yes <==>
                forall k :: 0 <= k < |arguments| ==> Demands(row, arguments[k].0, arguments[k].1)
      ensures r.Resolved? ==> r.arm.result == if thenArgument == Null then IdArgument(arguments) else thenArgument
    {
      if arguments == [] { return NoConditions; }
      var resolved: seq<Condition> := [];
      var thenValue := thenArgument;
      if thenValue == Null {
        thenValue := IdArgument(arguments);
      }
      for i := 0 to |arguments|
        invariant |resolved| == i
        invariant forall k :: 0 <= k < i ==> arguments[k].0.column in columns
        invariant forall k :: 0 <= k < i ==>
                    resolved[k] == Compare(arguments[k].0.column, OperatorOf(arguments[k].0), arguments[k].1)
      {
        var (lookup, operand) := arguments[i];
        if lookup.column !in columns { return UnknownColumn(lookup.column); }
        resolved := resolved + [Compare(lookup.column, OperatorOf(lookup), operand)];
      }
      var condition := if |resolved| == 1 then resolved[0] else All(resolved);
      forall row
        ensures Test(row, condition) == Yes <==> forall k :: 0 <= k < |arguments| ==> Demands(row, arguments[k].0, arguments[k].1)
      {
        TestAllIsConjunction(row, resolved);
        assert forall k :: 0 <= k < |arguments| ==>
          (Test(row, resolved[k]) == Yes <==> Demands(row, arguments[k].0, arguments[k].1));
      }
      r := Resolved(Arm(condition, thenValue));
    }
  }

  /** The arm a `When` stands for: its condition is the conjunction of its arguments, its result the defaulted THEN. */
  ghost predicate Stands(arm: Arm, when: When) {
    && (forall row :: Test(row, arm.condition) == Yes <==>
          forall k :: 0 <= k < |when.arguments| ==> Demands(row, when.arguments[k].0, when.arguments[k].1))
    && arm.result == if when.thenArgument == Null then IdArgument(when.arguments) else when.thenArgument
  }

  /** `CASE`: the arms of the `When`s in order; the ELSE value is `otherwise`. */
  class Case {
    const whens: seq<When>
    const otherwise: Value

    constructor (whens: seq<When>, otherwise: Value)
      ensures this.whens == whens && this.otherwise == otherwise
    {
      this.whens := whens;
      this.otherwise := otherwise;
    }

    method Resolve(columns: set<string>) returns (ok: bool, arms: seq<Arm>)
      ensures ok <==> forall w :: w in whens ==>
                w.arguments != [] && forall k :: 0 <= k < |w.arguments| ==> w.arguments[k].0.column in columns
      ensures ok ==> |arms| == |whens| && forall k :: 0 <= k < |whens| ==> Stands(arms[k], whens[k])
    {
      arms := [];
      for i := 0 to |whens|
        invariant |arms| == i
        invariant forall k :: 0 <= k < i ==> Stands(arms[k], whens[k])
        invariant forall k :: 0 <= k < i ==>
                    whens[k].arguments != []
                    && forall j :: 0 <= j < |whens[k].arguments| ==> whens[k].arguments[j].0.column in columns
      {
        var resolved := whens[i].Resolve(columns);
        if !resolved.Resolved? {
          assert whens[i] in whens;
          return false, [];
        }
        arms := arms + [resolved.arm];
      }
      ok := true;
    }
  }

  /** The earliest matching arm decides, whatever later arms say; with no match it is the ELSE value. */
  lemma {:induction false} EarliestArmDecides(row: Row, arms: seq<Arm>, otherwise: Value, k: nat)
    requires k <= |arms|
    requires forall j :: 0 <= j < k ==> Test(row, arms[j].condition) != Yes
    requires k < |arms| ==> Test(row, arms[k].condition) == Yes
    ensures FirstMatch(row, arms, otherwise) == if k < |arms| then arms[k].result else otherwise
  {
    if k > 0 {
      assert Test(row, arms[0].condition) != Yes;
      assert forall j :: 0 <= j < |arms| - 1 ==> arms[1..][j] == arms[j + 1];
      EarliestArmDecides(row, arms[1..], otherwise, k - 1);
    }
  }

  /** The arm `When(id=id, available_quantity__gte=least)` resolves to. */
  ghost predicate IsAvailabilityArm(arm: Arm, id: int, least: int) {
    && arm.result == Int(id)
    && forall row :: Test(row, arm.condition) == Yes <==>
         Apply(Eq, Cell(row, "id"), Int(id)) == Yes && Apply(Gte, Cell(row, "available_quantity"), Int(least)) == Yes
  }

  /** `id = CASE ...` is a disjunction: first match and ELSE NULL together keep exactly the rows some arm accepts. */
  lemma {:induction false} CaseIsDisjunction(row: Row, arms: seq<Arm>, wanted: seq<(int, int)>)
    requires |arms| == |wanted|
    requires forall k :: 0 <= k < |arms| ==> IsAvailabilityArm(arms[k], wanted[k].0, wanted[k].1)
    ensures Apply(Eq, Cell(row, "id"), FirstMatch(row, arms, Null)) == Yes <==>
            exists k :: 0 <= k < |wanted| && Cell(row, "id") == Int(wanted[k].0)
              && Apply(Gte, Cell(row, "available_quantity"), Int(wanted[k].1)) == Yes
  {
    if arms != [] {
      CaseIsDisjunction(row, arms[1..], wanted[1..]);
      assert IsAvailabilityArm(arms[0], wanted[0].0, wanted[0].1);
      assert forall k :: 1 <= k < |wanted| ==> wanted[k] == wanted[1..][k - 1];
    }
  }
}
