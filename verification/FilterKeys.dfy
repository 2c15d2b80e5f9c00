/** Keys of keyword filters: how `relation__field` and `field__operator` are told apart, and what is silently dropped. */
module FilterKeys {
  import opened Tables
  import opened SqlExpressions
  import opened RelationFilters
  import BulkInsert

  datatype Attribute = ColumnAttribute | RelationAttribute(relation: Relation)

  type Schema = map<Model, map<string, Attribute>>

  /** `column` is the model and attribute the filter is about; None when the model has no such attribute. */
  datatype Resolution = Resolution(column: Option<(Model, string)>, relations: seq<Relation>, operator: string)

  // ---- Splitting at double underscores.

  /** `split("__")`. */
  function Split(s: string): (r: seq<string>)
    ensures |r| >= 1
  {
    if |s| < 2 then [s]
    else if s[0] == s[1] == '_' then [""] + Split(s[2..])
    else
      var r := Split(s[1..]);
      [[s[0]] + r[0]] + r[1..]
  }

  /** `split("__", 1)`: the text before and after the first double underscore. */
  function Cut(s: string): Option<(string, string)> {
    if |s| < 2 then None
    else if s[0] == s[1] == '_' then Some(("", s[2..]))
    else match Cut(s[1..])
      case None => None
      case Some((before, after)) => Some(([s[0]] + before, after))
  }

  function Join(names: seq<string>): string
    requires names != []
  {
    if |names| == 1 then names[0] else names[0] + "__" + Join(names[1..])
  }

  /** Names as they occur in models: no double underscore and none at the end. */
  predicate Clean(name: string) {
    (forall i :: 0 <= i < |name| - 1 ==> !(name[i] == name[i + 1] == '_')) && (name != "" ==> name[|name| - 1] != '_')
  }

  lemma {:induction false} CleanIsOnePart(name: string)
    requires Clean(name)
    ensures Split(name) == [name] && Cut(name) == None
  {
    if |name| >= 2 {
      assert !(name[0] == name[1] == '_');
      CleanTail(name);
      CleanIsOnePart(name[1..]);
      assert [name[0]] + name[1..] == name;
    }
  }

  lemma CleanTail(name: string)
    requires Clean(name) && name != ""
    ensures Clean(name[1..])
  {
    var rest := name[1..];
    forall i | 0 <= i < |rest| - 1 ensures !(rest[i] == rest[i + 1] == '_') {
      assert rest[i] == name[i + 1] && rest[i + 1] == name[i + 2];
    }
  }

  lemma {:induction false} CutAfterClean(name: string, rest: string)
    requires Clean(name)
    ensures Split(name + "__" + rest) == [name] + Split(rest)
    ensures Cut(name + "__" + rest) == Some((name, rest))
  {
    var s := name + "__" + rest;
    if name == "" {
      assert s[2..] == rest;
    } else {
      assert |name| >= 2 ==> !(name[0] == name[1] == '_');
      CleanTail(name);
      CutAfterClean(name[1..], rest);
      assert s[1..] == name[1..] + "__" + rest;
      assert [name[0]] + name[1..] == name;
    }
  }

  lemma {:induction false} SplitJoin(names: seq<string>)
    requires names != [] && forall n :: n in names ==> Clean(n)
    ensures Split(Join(names)) == names
  {
    if |names| == 1 {
      CleanIsOnePart(names[0]);
    } else {
      SplitJoin(names[1..]);
      CutAfterClean(names[0], Join(names[1..]));
      assert names == [names[0]] + names[1..];
    }
  }

  /** A key is a lookup, whose value new rows do not inherit, exactly when it has more than one part. */
  lemma {:induction false} LookupHasParts(key: string)
    ensures BulkInsert.IsLookup(key) <==> |Split(key)| > 1
  {
    if |key| >= 2 {
      if key[0] == key[1] == '_' {
        assert BulkInsert.IsLookup(key);
      } else {
        LookupHasParts(key[1..]);
        if BulkInsert.IsLookup(key) {
          var i :| 0 <= i < |key| - 1 && key[i] == '_' && key[i + 1] == '_';
          assert key[1..][i - 1] == '_' && key[1..][i - 1 + 1] == '_';
        }
        if BulkInsert.IsLookup(key[1..]) {
          var i :| 0 <= i < |key[1..]| - 1 && key[1..][i] == '_' && key[1..][i + 1] == '_';
          assert key[i + 1] == '_' && key[i + 1 + 1] == '_';
        }
      }
    }
  }

  // ---- Resolving a key.

  /** Attribute names that are no relation of the model reached so far are passed over. */
  function Path(schema: Schema, model: Model, names: seq<string>): seq<Relation>
    decreases |names|
  {
    if names == [] then []
    else if model in schema && names[0] in schema[model] && schema[model][names[0]].RelationAttribute? then
      var r := schema[model][names[0]].relation;
      [r] + Path(schema, r.target, names[1..])
    else Path(schema, model, names[1..])
  }

  function Attributed(schema: Schema, model: Model, name: string): Option<(Model, string)> {
    if model in schema && name in schema[model] then Some((model, name)) else None
  }

  function Resolved(schema: Schema, model: Model, key: string, operators: set<string>): Resolution {
    var cut := Cut(key);
    var hasOperator := cut.Some? && cut.value.1 in operators;
    var parts := Split(if hasOperator then cut.value.0 else key);
    var path := Path(schema, model, parts[..|parts| - 1]);
    Resolution(Attributed(schema, EndModel(model, path), parts[|parts| - 1]), path, if hasOperator then cut.value.1 else "eq")
  }

  lemma {:induction false} PathSplit(schema: Schema, model: Model, names: seq<string>, i: nat)
    requires i < |names|
    ensures var before := Path(schema, model, names[..i]);
            Path(schema, model, names[..i + 1]) == before + Path(schema, EndModel(model, before), [names[i]])
    decreases i
  {
    if i == 0 {
      assert names[..1] == [names[0]];
    } else {
      assert names[..i + 1][1..] == names[1..][..i] && names[..i][1..] == names[1..][..i - 1];
      if model in schema && names[0] in schema[model] && schema[model][names[0]].RelationAttribute? {
        var r := schema[model][names[0]].relation;
        PathSplit(schema, r.target, names[1..], i - 1);
        var rest := Path(schema, r.target, names[1..][..i - 1]);
        assert EndModel(model, [r] + rest) == EndModel(r.target, rest);
      } else {
        PathSplit(schema, model, names[1..], i - 1);
      }
    }
  }

  method Resolve(schema: Schema, model: Model, key: string, operators: set<string>) returns (r: Resolution)
    ensures r == Resolved(schema, model, key, operators)
  {
    var path, operator := key, "eq";
    var cut := Cut(key);
    if cut.Some? {
      path, operator := cut.value.0, cut.value.1;
    }
    if operator !in operators || cut.None? {
      path, operator := key, "eq";
    }
    var parts := Split(path);
    var fieldName := parts[|parts| - 1];
    parts := parts[..|parts| - 1];
    var currentModel, relations := model, [];
    for i := 0 to |parts|
      invariant relations == Path(schema, model, parts[..i]) && currentModel == EndModel(model, relations)
    {
      PathSplit(schema, model, parts, i);
      if currentModel in schema && parts[i] in schema[currentModel] && schema[currentModel][parts[i]].RelationAttribute? {
        var relation := schema[currentModel][parts[i]].relation;
        relations, currentModel := relations + [relation], relation.target;
      }
    }
    assert parts[..|parts|] == parts;
    r := Resolution(Attributed(schema, currentModel, fieldName), relations, operator);
  }

  // ---- What the forms of a key mean.

  /** `field` alone: equality on the model's own attribute. */
  lemma FieldKey(schema: Schema, model: Model, field: string, operators: set<string>)
    requires Clean(field)
    ensures Resolved(schema, model, field, operators) == Resolution(Attributed(schema, model, field), [], "eq")
  {
    CleanIsOnePart(field);
  }

  /** `field__operator`: that operator on the model's own attribute. */
  lemma OperatorKey(schema: Schema, model: Model, field: string, operator: string, operators: set<string>)
    requires Clean(field) && operator in operators
    ensures Resolved(schema, model, field + "__" + operator, operators)
            == Resolution(Attributed(schema, model, field), [], operator)
  {
    CutAfterClean(field, operator);
    CleanIsOnePart(field);
  }

  /** Relations that each start at the model the one before leads to. */
  predicate NamedFrom(schema: Schema, model: Model, path: seq<Relation>)
    decreases path
  {
    path == [] || (&& model in schema && path[0].name in schema[model]
                   && schema[model][path[0].name] == RelationAttribute(path[0])
                   && NamedFrom(schema, path[0].target, path[1..]))
  }

  function NamesOf(path: seq<Relation>): (names: seq<string>)
    ensures |names| == |path| && forall i :: 0 <= i < |path| ==> names[i] == path[i].name
  {
    if path == [] then [] else [path[0].name] + NamesOf(path[1..])
  }

  lemma {:induction false} NamedPath(schema: Schema, model: Model, path: seq<Relation>)
    requires NamedFrom(schema, model, path)
    ensures Path(schema, model, NamesOf(path)) == path
    decreases path
  {
    if path != [] {
      assert NamesOf(path)[1..] == NamesOf(path[1..]);
      NamedPath(schema, path[0].target, path[1..]);
    }
  }

  /** A name that is no relation of the model reached before it is passed over, wherever it stands. */
  lemma {:induction false} UnknownNamesArePassedOver(schema: Schema, model: Model, before: seq<string>, name: string, after: seq<string>)
    requires var reached := EndModel(model, Path(schema, model, before));
             !(reached in schema && name in schema[reached] && schema[reached][name].RelationAttribute?)
    ensures Path(schema, model, before + [name] + after) == Path(schema, model, before + after)
    decreases |before|
  {
    if before == [] {
      assert ([] + [name] + after)[1..] == after && [] + after == after;
    } else {
      assert (before + [name] + after)[1..] == before[1..] + [name] + after;
      assert (before + after)[1..] == before[1..] + after;
      if model in schema && before[0] in schema[model] && schema[model][before[0]].RelationAttribute? {
        var r := schema[model][before[0]].relation;
        var rest := Path(schema, r.target, before[1..]);
        assert EndModel(model, [r] + rest) == EndModel(r.target, rest);
        UnknownNamesArePassedOver(schema, r.target, before[1..], name, after);
      } else {
        UnknownNamesArePassedOver(schema, model, before[1..], name, after);
      }
    }
  }

  /** The suffix counts as an operator exactly when the key has two parts and the second is one. */
  lemma OperatorIff(names: seq<string>, operators: set<string>)
    requires names != [] && (forall n :: n in names ==> Clean(n)) && forall o :: o in operators ==> Clean(o)
    ensures var cut := Cut(Join(names));
            (cut.Some? && cut.value.1 in operators) <==> |names| == 2 && names[1] in operators
  {
    if |names| == 1 {
      CleanIsOnePart(names[0]);
    } else {
      CutAfterClean(names[0], Join(names[1..]));
      if |names| > 2 {
        assert forall n :: n in names[1..] ==> n in names;
        SplitJoin(names[1..]);
        if Join(names[1..]) in operators { CleanIsOnePart(Join(names[1..])); }
      }
    }
  }

  /** `relation__..__field`: equality on the attribute at the end of the named relations. */
  lemma RelationKey(schema: Schema, model: Model, path: seq<Relation>, field: string, operators: set<string>)
    requires path != [] && NamedFrom(schema, model, path) && Clean(field)
    requires (forall r :: r in path ==> Clean(r.name)) && forall o :: o in operators ==> Clean(o)
    requires |path| == 1 ==> field !in operators
    ensures Resolved(schema, model, Join(NamesOf(path) + [field]), operators)
            == Resolution(Attributed(schema, EndModel(model, path), field), path, "eq")
  {
    var names := NamesOf(path) + [field];
    CleanNames(path, [field]);
    KeyWithoutOperator(schema, model, names, operators);
    assert names[..|names| - 1] == NamesOf(path);
    NamedPath(schema, model, path);
  }

  /** A resolved path is a chain of relations from the model, as the compilers of filters expect. */
  lemma {:induction false} PathIsChained(schema: Schema, model: Model, names: seq<string>)
    requires forall m, n :: m in schema && n in schema[m] && schema[m][n].RelationAttribute? ==> schema[m][n].relation.source == m
    ensures Chained(model, Path(schema, model, names))
    decreases |names|
  {
    if names != [] {
      if model in schema && names[0] in schema[model] && schema[model][names[0]].RelationAttribute? {
        PathIsChained(schema, schema[model][names[0]].relation.target, names[1..]);
      } else {
        PathIsChained(schema, model, names[1..]);
      }
    }
  }

  // ---- Preparing a dictionary of filters.

  datatype Argument = Argument(key: string, value: Value)

  /** A condition on an annotation of the query instead of a column. */
  datatype Annotated = Annotated(value: Value, name: string, operator: string)

  /** What the last part leaves of the key, when it is an operator; here it counts after any number of parts. */
  function BaseKey(key: string, operators: set<string>): (string, string) {
    var parts := Split(key);
    var last := parts[|parts| - 1];
    if last !in operators then (key, "eq")
    else (if |parts| == 1 then "" else Join(parts[..|parts| - 1]), last)
  }

  lemma AnnotationKey(names: seq<string>, operator: string, operators: set<string>)
    requires names != [] && (forall n :: n in names ==> Clean(n)) && Clean(operator) && operator in operators
    ensures BaseKey(Join(names + [operator]), operators) == (Join(names), operator)
  {
    SplitJoin(names + [operator]);
    assert (names + [operator])[..|names|] == names;
  }

  predicate IsAnnotated(annotations: set<string>, operators: set<string>, a: Argument) {
    a.value != Null && BaseKey(a.key, operators).0 in annotations
  }

  predicate IsDropped(schema: Schema, model: Model, operators: set<string>, annotations: set<string>, a: Argument) {
    a.value == Null || (!IsAnnotated(annotations, operators, a) && Resolved(schema, model, a.key, operators).column.None?)
  }

  /** The conditions on columns and those on annotations, in the order of the arguments. */
  datatype Conditions = Conditions(normal: seq<(Value, Resolution)>, annotated: seq<Annotated>)

  function Plus(a: Conditions, b: Conditions): Conditions {
    Conditions(a.normal + b.normal, a.annotated + b.annotated)
  }

  function PreparedOne(schema: Schema, model: Model, operators: set<string>, annotations: set<string>, a: Argument): Conditions {
    if IsDropped(schema, model, operators, annotations, a) then Conditions([], [])
    else if IsAnnotated(annotations, operators, a) then
      var (name, operator) := BaseKey(a.key, operators);
      Conditions([], [Annotated(a.value, name, operator)])
    else Conditions([(a.value, Resolved(schema, model, a.key, operators))], [])
  }

  function Prepared(schema: Schema, model: Model, operators: set<string>, annotations: set<string>, filters: seq<Argument>): Conditions {
    if filters == [] then Conditions([], [])
    else Plus(PreparedOne(schema, model, operators, annotations, filters[0]),
              Prepared(schema, model, operators, annotations, filters[1..]))
  }

  lemma {:induction false} PreparedAppend(schema: Schema, model: Model, operators: set<string>, annotations: set<string>,
                                          a: seq<Argument>, b: seq<Argument>)
    ensures Prepared(schema, model, operators, annotations, a + b)
            == Plus(Prepared(schema, model, operators, annotations, a), Prepared(schema, model, operators, annotations, b))
  {
    if a == [] {
      assert a + b == b;
      PlusNothing(Prepared(schema, model, operators, annotations, b));
    } else {
      assert a + b == [a[0]] + (a[1..] + b) && (a + b)[1..] == a[1..] + b;
      PreparedAppend(schema, model, operators, annotations, a[1..], b);
      PlusAssociates(PreparedOne(schema, model, operators, annotations, a[0]),
                     Prepared(schema, model, operators, annotations, a[1..]),
                     Prepared(schema, model, operators, annotations, b));
    }
  }

  lemma PlusNothing(a: Conditions)
    ensures Plus(Conditions([], []), a) == a
  {
  }

  lemma PlusAssociates(a: Conditions, b: Conditions, c: Conditions)
    ensures Plus(a, Plus(b, c)) == Plus(Plus(a, b), c)
  {
  }

  /** `_prepare_filters`: the loop over the keyword arguments. */
  method PrepareFilters(schema: Schema, model: Model, operators: set<string>, annotations: set<string>, filters: seq<Argument>)
    returns (prepared: Conditions)
    ensures prepared == Prepared(schema, model, operators, annotations, filters)
    ensures CleanNamesOnly(operators) ==> SaysWhatIsAsked(schema, model, operators, annotations, filters, prepared)
  {
    if CleanNamesOnly(operators) {
      PreparedSays(schema, model, operators, annotations, filters);
    }
    prepared := Conditions([], []);
    for i := 0 to |filters|
      invariant prepared == Prepared(schema, model, operators, annotations, filters[..i])
    {
      PreparedLast(schema, model, operators, annotations, filters, i);
      if filters[i].value == Null { continue; }
      var (baseKey, operator) := BaseKey(filters[i].key, operators);
      if baseKey in annotations {
        prepared := prepared.(annotated := prepared.annotated + [Annotated(filters[i].value, baseKey, operator)]);
        continue;
      }
      var resolved := Resolve(schema, model, filters[i].key, operators);
      if resolved.column.None? { continue; }
      prepared := prepared.(normal := prepared.normal + [(filters[i].value, resolved)]);
    }
    assert filters[..|filters|] == filters;
  }

  // ---- What is prepared, in terms of the keys.

  ghost predicate CleanNamesOnly(names: set<string>) {
    forall n :: n in names ==> Clean(n)
  }

  predicate IsFieldKey(key: string, field: string) {
    Clean(field) && key == field
  }

  predicate IsOperatorKey(key: string, field: string, operator: string) {
    Clean(field) && Clean(operator) && key == field + "__" + operator
  }

  ghost predicate IsRelationKey(schema: Schema, model: Model, key: string, path: seq<Relation>, field: string) {
    path != [] && NamedFrom(schema, model, path) && (forall r :: r in path ==> Clean(r.name)) && Clean(field)
    && key == Join(NamesOf(path) + [field])
  }

  ghost predicate IsNameKey(key: string, names: seq<string>) {
    names != [] && (forall n :: n in names ==> Clean(n)) && key == Join(names)
  }

  /** A column condition: the value, and for each form of key the column, relations and operator that the form names. */
  ghost predicate ColumnCondition(schema: Schema, model: Model, operators: set<string>, a: Argument, c: (Value, Resolution)) {
    && c.0 == a.value
    && (forall field :: IsFieldKey(a.key, field) ==> c.1 == Resolution(Some((model, field)), [], "eq"))
    && (forall field, operator :: IsOperatorKey(a.key, field, operator) && operator in operators ==>
          c.1 == Resolution(Some((model, field)), [], operator))
    && (forall path, field :: IsRelationKey(schema, model, a.key, path, field) && (|path| == 1 ==> field !in operators) ==>
          c.1 == Resolution(Some((EndModel(model, path), field)), path, "eq"))
  }

  /** A condition on an annotation: the value, the annotation's name, and the operator the key ends in, or equality. */
  ghost predicate AnnotationCondition(operators: set<string>, annotations: set<string>, a: Argument, c: Annotated) {
    && c.value == a.value && c.name in annotations
    && (forall names :: IsNameKey(a.key, names) && names[|names| - 1] !in operators ==> c.name == a.key && c.operator == "eq")
    && (forall names :: IsNameKey(a.key, names) && |names| > 1 && names[|names| - 1] in operators ==>
          c.name == Join(names[..|names| - 1]) && c.operator == names[|names| - 1])
  }

  function OnColumns(schema: Schema, model: Model, operators: set<string>, annotations: set<string>): Argument -> bool {
    (a: Argument) => OnColumn(schema, model, operators, annotations, a)
  }

  function OnAnnotations(operators: set<string>, annotations: set<string>): Argument -> bool {
    (a: Argument) => IsAnnotated(annotations, operators, a)
  }

  predicate OnColumn(schema: Schema, model: Model, operators: set<string>, annotations: set<string>, a: Argument) {
    !IsDropped(schema, model, operators, annotations, a) && !IsAnnotated(annotations, operators, a)
  }

  /** The positions, in order, of the elements the predicate holds of. */
  ghost predicate ArePositions(filters: seq<Argument>, p: Argument -> bool, positions: seq<nat>) {
    && (forall i :: 0 <= i < |positions| ==> positions[i] < |filters| && p(filters[positions[i]]))
    && (forall i, j :: 0 <= i < j < |positions| ==> positions[i] < positions[j])
    && (forall k :: 0 <= k < |filters| && p(filters[k]) ==> k in positions)
  }

  /** One condition for each argument the predicate holds of, in order, and each says what its argument asks. */
  ghost predicate EachSays<C(!new)>(filters: seq<Argument>, p: Argument -> bool, says: (Argument, C) -> bool,
                                    conditions: seq<C>, positions: seq<nat>)
  {
    && ArePositions(filters, p, positions) && |conditions| == |positions|
    && forall i :: 0 <= i < |conditions| ==> says(filters[positions[i]], conditions[i])
  }

  ghost function ColumnSays(schema: Schema, model: Model, operators: set<string>): (Argument, (Value, Resolution)) -> bool {
    (a: Argument, c: (Value, Resolution)) => ColumnCondition(schema, model, operators, a, c)
  }

  ghost function AnnotationSays(operators: set<string>, annotations: set<string>): (Argument, Annotated) -> bool {
    (a: Argument, c: Annotated) => AnnotationCondition(operators, annotations, a, c)
  }

  ghost predicate ColumnsSay(schema: Schema, model: Model, operators: set<string>, annotations: set<string>,
                             filters: seq<Argument>, normal: seq<(Value, Resolution)>, positions: seq<nat>)
  {
    EachSays(filters, OnColumns(schema, model, operators, annotations), ColumnSays(schema, model, operators), normal, positions)
  }

  ghost predicate AnnotationsSay(operators: set<string>, annotations: set<string>, filters: seq<Argument>,
                                 annotated: seq<Annotated>, positions: seq<nat>)
  {
    EachSays(filters, OnAnnotations(operators, annotations), AnnotationSays(operators, annotations), annotated, positions)
  }

  /** One condition for each argument that is kept, in order, and each says what its key and value ask. */
  ghost predicate SaysWhatIsAsked(schema: Schema, model: Model, operators: set<string>, annotations: set<string>,
                                  filters: seq<Argument>, prepared: Conditions)
  {
    && (exists positions :: ColumnsSay(schema, model, operators, annotations, filters, prepared.normal, positions))
    && exists positions :: AnnotationsSay(operators, annotations, filters, prepared.annotated, positions)
  }

  lemma ResolvedSays(schema: Schema, model: Model, operators: set<string>, annotations: set<string>, a: Argument)
    requires CleanNamesOnly(operators) && OnColumn(schema, model, operators, annotations, a)
    ensures ColumnCondition(schema, model, operators, a, (a.value, Resolved(schema, model, a.key, operators)))
  {
    var resolved := Resolved(schema, model, a.key, operators);
    forall field | IsFieldKey(a.key, field) ensures resolved == Resolution(Some((model, field)), [], "eq") {
      FieldKey(schema, model, field, operators);
    }
    forall field, operator | IsOperatorKey(a.key, field, operator) && operator in operators
      ensures resolved == Resolution(Some((model, field)), [], operator)
    {
      OperatorKey(schema, model, field, operator, operators);
    }
    forall path, field | IsRelationKey(schema, model, a.key, path, field) && (|path| == 1 ==> field !in operators)
      ensures resolved == Resolution(Some((EndModel(model, path), field)), path, "eq")
    {
      RelationKey(schema, model, path, field, operators);
    }
  }

  lemma AnnotatedSays(operators: set<string>, annotations: set<string>, a: Argument)
    requires CleanNamesOnly(operators) && IsAnnotated(annotations, operators, a)
    ensures var (name, operator) := BaseKey(a.key, operators);
            AnnotationCondition(operators, annotations, a, Annotated(a.value, name, operator))
  {
    forall names | IsNameKey(a.key, names)
      ensures names[|names| - 1] !in operators ==> BaseKey(a.key, operators) == (a.key, "eq")
      ensures |names| > 1 && names[|names| - 1] in operators ==>
                BaseKey(a.key, operators) == (Join(names[..|names| - 1]), names[|names| - 1])
    {
      SplitJoin(names);
    }
  }

  lemma PositionAdded(filters: seq<Argument>, p: Argument -> bool, positions: seq<nat>)
    requires filters != [] && ArePositions(filters[..|filters| - 1], p, positions) && p(filters[|filters| - 1])
    ensures ArePositions(filters, p, positions + [|filters| - 1])
  {
    PositionsStay(filters, p, positions);
    var all := positions + [|filters| - 1];
    forall k | 0 <= k < |filters| && p(filters[k]) ensures k in all {
      if k < |filters| - 1 {
        assert k in positions;
      } else {
        assert all[|positions|] == k;
      }
    }
  }

  /** The positions among the earlier arguments are positions of the same arguments among all. */
  lemma PositionsStay(filters: seq<Argument>, p: Argument -> bool, positions: seq<nat>)
    requires filters != [] && ArePositions(filters[..|filters| - 1], p, positions)
    ensures forall i :: 0 <= i < |positions| ==> positions[i] < |filters| - 1 && p(filters[positions[i]])
    ensures forall k :: 0 <= k < |filters| - 1 && p(filters[k]) ==> k in positions
  {
    var earlier := filters[..|filters| - 1];
    forall i | 0 <= i < |positions| ensures positions[i] < |filters| - 1 && p(filters[positions[i]]) {
      assert earlier[positions[i]] == filters[positions[i]];
    }
    forall k | 0 <= k < |filters| - 1 && p(filters[k]) ensures k in positions {
      assert earlier[k] == filters[k];
    }
  }

  lemma PositionsSame(filters: seq<Argument>, p: Argument -> bool, positions: seq<nat>)
    requires filters != [] && ArePositions(filters[..|filters| - 1], p, positions) && !p(filters[|filters| - 1])
    ensures ArePositions(filters, p, positions)
  {
    PositionsStay(filters, p, positions);
  }

  lemma SaysMore<C(!new)>(filters: seq<Argument>, p: Argument -> bool, says: (Argument, C) -> bool,
                          conditions: seq<C>, positions: seq<nat>, c: C)
    requires filters != [] && EachSays(filters[..|filters| - 1], p, says, conditions, positions)
    requires p(filters[|filters| - 1]) && says(filters[|filters| - 1], c)
    ensures EachSays(filters, p, says, conditions + [c], positions + [|filters| - 1])
  {
    PositionAdded(filters, p, positions);
    PositionsStay(filters, p, positions);
    SaysAppended(filters, says, conditions, positions, c);
  }

  lemma SaysSame<C(!new)>(filters: seq<Argument>, p: Argument -> bool, says: (Argument, C) -> bool,
                          conditions: seq<C>, positions: seq<nat>)
    requires filters != [] && EachSays(filters[..|filters| - 1], p, says, conditions, positions)
    requires !p(filters[|filters| - 1])
    ensures EachSays(filters, p, says, conditions, positions)
  {
    PositionsSame(filters, p, positions);
    PositionsStay(filters, p, positions);
    SaysStill(filters, says, conditions, positions);
  }

  lemma SaysStill<C(!new)>(filters: seq<Argument>, says: (Argument, C) -> bool, conditions: seq<C>, positions: seq<nat>)
    requires filters != [] && |conditions| == |positions|
    requires forall i :: 0 <= i < |positions| ==> positions[i] < |filters| - 1
    requires forall i :: 0 <= i < |conditions| ==> says(filters[..|filters| - 1][positions[i]], conditions[i])
    ensures forall i :: 0 <= i < |conditions| ==> says(filters[positions[i]], conditions[i])
  {
    forall i | 0 <= i < |conditions| ensures says(filters[positions[i]], conditions[i]) {
      assert filters[..|filters| - 1][positions[i]] == filters[positions[i]];
    }
  }

  lemma SaysAppended<C(!new)>(filters: seq<Argument>, says: (Argument, C) -> bool, conditions: seq<C>, positions: seq<nat>, c: C)
    requires filters != [] && |conditions| == |positions|
    requires forall i :: 0 <= i < |positions| ==> positions[i] < |filters| - 1
    requires forall i :: 0 <= i < |conditions| ==> says(filters[..|filters| - 1][positions[i]], conditions[i])
    requires says(filters[|filters| - 1], c)
    ensures var (cs, ps) := (conditions + [c], positions + [|filters| - 1]);
            forall i :: 0 <= i < |cs| ==> ps[i] < |filters| && says(filters[ps[i]], cs[i])
  {
    SaysStill(filters, says, conditions, positions);
    var (cs, ps) := (conditions + [c], positions + [|filters| - 1]);
    forall i | 0 <= i < |cs| ensures ps[i] < |filters| && says(filters[ps[i]], cs[i]) {
      if i < |conditions| {
        assert cs[i] == conditions[i] && ps[i] == positions[i];
      } else {
        assert cs[i] == c && ps[i] == |filters| - 1;
      }
    }
  }

  lemma PreparedByOne(schema: Schema, model: Model, operators: set<string>, annotations: set<string>, filters: seq<Argument>)
    requires filters != []
    ensures Prepared(schema, model, operators, annotations, filters)
            == Plus(Prepared(schema, model, operators, annotations, filters[..|filters| - 1]),
                    PreparedOne(schema, model, operators, annotations, filters[|filters| - 1]))
  {
    PreparedLast(schema, model, operators, annotations, filters, |filters| - 1);
    assert filters[..|filters| - 1 + 1] == filters;
  }

  lemma {:induction false} ColumnsPrepared(schema: Schema, model: Model, operators: set<string>, annotations: set<string>,
                                           filters: seq<Argument>) returns (positions: seq<nat>)
    requires CleanNamesOnly(operators)
    ensures ColumnsSay(schema, model, operators, annotations, filters,
                       Prepared(schema, model, operators, annotations, filters).normal, positions)
  {
    positions := [];
    if filters != [] {
      var earlier := filters[..|filters| - 1];
      positions := ColumnsPrepared(schema, model, operators, annotations, earlier);
      PreparedByOne(schema, model, operators, annotations, filters);
      var last := filters[|filters| - 1];
      var (p, says) := (OnColumns(schema, model, operators, annotations), ColumnSays(schema, model, operators));
      var normal := Prepared(schema, model, operators, annotations, earlier).normal;
      if OnColumn(schema, model, operators, annotations, last) {
        ResolvedSays(schema, model, operators, annotations, last);
        SaysMore(filters, p, says, normal, positions, (last.value, Resolved(schema, model, last.key, operators)));
        positions := positions + [|filters| - 1];
      } else {
        SaysSame(filters, p, says, normal, positions);
        assert normal + [] == normal;
      }
    }
  }

  lemma {:induction false} AnnotationsPrepared(schema: Schema, model: Model, operators: set<string>, annotations: set<string>,
                                               filters: seq<Argument>) returns (positions: seq<nat>)
    requires CleanNamesOnly(operators)
    ensures AnnotationsSay(operators, annotations, filters,
                           Prepared(schema, model, operators, annotations, filters).annotated, positions)
  {
    positions := [];
    if filters != [] {
      var earlier := filters[..|filters| - 1];
      positions := AnnotationsPrepared(schema, model, operators, annotations, earlier);
      PreparedByOne(schema, model, operators, annotations, filters);
      var last := filters[|filters| - 1];
      var (p, says) := (OnAnnotations(operators, annotations), AnnotationSays(operators, annotations));
      var annotated := Prepared(schema, model, operators, annotations, earlier).annotated;
      if IsAnnotated(annotations, operators, last) {
        var (name, operator) := BaseKey(last.key, operators);
        AnnotatedSays(operators, annotations, last);
        SaysMore(filters, p, says, annotated, positions, Annotated(last.value, name, operator));
        positions := positions + [|filters| - 1];
      } else {
        SaysSame(filters, p, says, annotated, positions);
        assert annotated + [] == annotated;
      }
    }
  }

  lemma PreparedSays(schema: Schema, model: Model, operators: set<string>, annotations: set<string>, filters: seq<Argument>)
    requires CleanNamesOnly(operators)
    ensures SaysWhatIsAsked(schema, model, operators, annotations, filters,
                            Prepared(schema, model, operators, annotations, filters))
  {
    var columns := ColumnsPrepared(schema, model, operators, annotations, filters);
    var named := AnnotationsPrepared(schema, model, operators, annotations, filters);
  }

  lemma PreparedLast(schema: Schema, model: Model, operators: set<string>, annotations: set<string>, filters: seq<Argument>, i: nat)
    requires i < |filters|
    ensures Prepared(schema, model, operators, annotations, filters[..i + 1])
            == Plus(Prepared(schema, model, operators, annotations, filters[..i]),
                    PreparedOne(schema, model, operators, annotations, filters[i]))
  {
    assert filters[..i + 1] == filters[..i] + [filters[i]];
    PreparedAppend(schema, model, operators, annotations, filters[..i], [filters[i]]);
    PreparedSingle(schema, model, operators, annotations, filters[i]);
  }

  lemma PreparedSingle(schema: Schema, model: Model, operators: set<string>, annotations: set<string>, a: Argument)
    ensures Prepared(schema, model, operators, annotations, [a]) == PreparedOne(schema, model, operators, annotations, a)
  {
    assert [a][1..] == [];
    assert Prepared(schema, model, operators, annotations, []) == Conditions([], []);
  }

  /** `field__operator` with a value prepares, on its own, exactly that operator on that column with that value. */
  lemma OperatorArgument(schema: Schema, model: Model, operators: set<string>, annotations: set<string>,
                         field: string, operator: string, value: Value)
    requires Clean(field) && operator in operators && value != Null && Attributed(schema, model, field).Some?
    requires !IsAnnotated(annotations, operators, Argument(field + "__" + operator, value))
    ensures Prepared(schema, model, operators, annotations, [Argument(field + "__" + operator, value)])
            == Conditions([(value, Resolution(Some((model, field)), [], operator))], [])
  {
    OperatorKey(schema, model, field, operator, operators);
    PreparedSingle(schema, model, operators, annotations, Argument(field + "__" + operator, value));
  }

  /** Leaving an argument out changes nothing exactly when it is dropped. */
  lemma LeftOutIffDropped(schema: Schema, model: Model, operators: set<string>, annotations: set<string>,
                          before: seq<Argument>, a: Argument, after: seq<Argument>)
    ensures Prepared(schema, model, operators, annotations, before + [a] + after)
            == Prepared(schema, model, operators, annotations, before + after)
            <==> IsDropped(schema, model, operators, annotations, a)
  {
    PreparedAppend(schema, model, operators, annotations, before + [a], after);
    PreparedAppend(schema, model, operators, annotations, before, [a]);
    PreparedAppend(schema, model, operators, annotations, before, after);
    PreparedSingle(schema, model, operators, annotations, a);
    PlusWithout(Prepared(schema, model, operators, annotations, before),
                PreparedOne(schema, model, operators, annotations, a),
                Prepared(schema, model, operators, annotations, after));
  }

  lemma PlusWithout(a: Conditions, b: Conditions, c: Conditions)
    ensures Plus(Plus(a, b), c) == Plus(a, c) <==> b == Conditions([], [])
  {
    SameWithout(a.normal, b.normal, c.normal);
    SameWithout(a.annotated, b.annotated, c.annotated);
  }

  lemma SameWithout<T>(a: seq<T>, b: seq<T>, c: seq<T>)
    ensures a + b + c == a + c <==> b == []
  {
    if b != [] { assert |a + b + c| != |a + c|; }
    if b == [] { assert a + b == a; }
  }

  /**
   * `relation__..__field__operator` is no operator on that field: unless the model at the end has an attribute named
   * like the operator, or the query an annotation of that name, the filter is dropped.
   */
  lemma RelationWithOperatorIsDropped(schema: Schema, model: Model, path: seq<Relation>, field: string, operator: string,
                                      value: Value, operators: set<string>, annotations: set<string>)
    requires path != [] && NamedFrom(schema, model, path) && Clean(field) && Clean(operator)
    requires (forall r :: r in path ==> Clean(r.name)) && forall o :: o in operators ==> Clean(o)
    requires var end := EndModel(model, path);
             end in schema && !(field in schema[end] && schema[end][field].RelationAttribute?)
    ensures var key := Join(NamesOf(path) + [field, operator]);
            IsDropped(schema, model, operators, annotations, Argument(key, value)) <==>
            value == Null || (BaseKey(key, operators).0 !in annotations && operator !in schema[EndModel(model, path)])
  {
    var names := NamesOf(path) + [field, operator];
    CleanNames(path, [field, operator]);
    KeyWithoutOperator(schema, model, names, operators);
    assert names[..|names| - 1] == NamesOf(path) + [field];
    PathThenField(schema, model, path, field);
  }

  lemma CleanNames(path: seq<Relation>, rest: seq<string>)
    requires (forall r :: r in path ==> Clean(r.name)) && forall n :: n in rest ==> Clean(n)
    ensures forall n :: n in NamesOf(path) + rest ==> Clean(n)
  {
    forall n | n in NamesOf(path) ensures Clean(n) {
      var i :| 0 <= i < |path| && NamesOf(path)[i] == n;
      assert path[i] in path;
    }
  }

  lemma KeyWithoutOperator(schema: Schema, model: Model, names: seq<string>, operators: set<string>)
    requires names != [] && (forall n :: n in names ==> Clean(n)) && forall o :: o in operators ==> Clean(o)
    requires |names| == 2 ==> names[1] !in operators
    ensures var path := Path(schema, model, names[..|names| - 1]);
            Resolved(schema, model, Join(names), operators)
            == Resolution(Attributed(schema, EndModel(model, path), names[|names| - 1]), path, "eq")
  {
    OperatorIff(names, operators);
    SplitJoin(names);
  }

  predicate IsRelationName(schema: Schema, model: Model, name: string) {
    model in schema && name in schema[model] && schema[model][name].RelationAttribute?
  }

  lemma {:induction false} PathThenField(schema: Schema, model: Model, path: seq<Relation>, field: string)
    requires NamedFrom(schema, model, path) && !IsRelationName(schema, EndModel(model, path), field)
    ensures Path(schema, model, NamesOf(path) + [field]) == path
    decreases path
  {
    if path == [] {
      assert NamesOf(path) + [field] == [field];
      NoPath(schema, model, field);
    } else {
      TailOfPath(schema, model, path, field);
      PathThenField(schema, path[0].target, path[1..], field);
      assert path == [path[0]] + path[1..];
    }
  }

  lemma TailOfPath(schema: Schema, model: Model, path: seq<Relation>, field: string)
    requires path != [] && NamedFrom(schema, model, path)
    ensures EndModel(path[0].target, path[1..]) == EndModel(model, path)
    ensures Path(schema, model, NamesOf(path) + [field])
            == [path[0]] + Path(schema, path[0].target, NamesOf(path[1..]) + [field])
  {
    var r, rest := path[0], NamesOf(path[1..]) + [field];
    EndOfTail(model, path);
    assert NamesOf(path) + [field] == [r.name] + rest;
    PathHead(schema, model, r, rest);
  }

  lemma PathHead(schema: Schema, model: Model, r: Relation, rest: seq<string>)
    requires model in schema && r.name in schema[model] && schema[model][r.name] == RelationAttribute(r)
    ensures Path(schema, model, [r.name] + rest) == [r] + Path(schema, r.target, rest)
  {
    assert ([r.name] + rest)[1..] == rest;
  }

  lemma NoPath(schema: Schema, model: Model, field: string)
    requires !(model in schema && field in schema[model] && schema[model][field].RelationAttribute?)
    ensures Path(schema, model, [field]) == []
  {
    assert [field][1..] == [];
  }
}
