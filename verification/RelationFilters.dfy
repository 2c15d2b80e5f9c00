/** Two compilations of the same keyword filters: joins for SELECT, IN-subqueries for DELETE. */
module RelationFilters {
  import opened Tables
  import opened SqlExpressions

  type Model = string

  /** A to-one relation: a nullable foreign key of `source` that refers to a row of `target`. */
  datatype Relation = Relation(name: string, source: Model, target: Model)

  datatype Record = Record(fields: Row, links: map<string, Option<nat>>)

  type Database = map<Model, map<nat, Record>>

  /** A prepared filter: the relation path, the column on the model it ends in, and the bound operator. */
  datatype Filter = Filter(path: seq<Relation>, column: string, accepts: Value -> bool)

  /** A WHERE condition on a column of one of the joined models. */
  datatype Where = Where(model: Model, column: string, accepts: Value -> bool)

  /** A condition of a DELETE: on the row itself, or `fk IN (SELECT pk FROM target JOIN joins.. WHERE condition)`. */
  datatype Modification =
    | Local(condition: Where)
    | InSubquery(relation: Relation, joins: seq<Relation>, condition: Where)

  predicate Exists(db: Database, model: Model, id: nat) {
    model in db && id in db[model]
  }

  /** The row a foreign key refers to; NULL and dangling keys join with nothing. */
  function Link(db: Database, r: Relation, id: nat): Option<nat> {
    if Exists(db, r.source, id) && r.name in db[r.source][id].links
       && db[r.source][id].links[r.name].Some? && Exists(db, r.target, db[r.source][id].links[r.name].value)
    then db[r.source][id].links[r.name] else None
  }

  function Column(db: Database, model: Model, id: nat, column: string): Value {
    if Exists(db, model, id) then Cell(db[model][id].fields, column) else Null
  }

  // ---------------------------------------------------------------- meaning of the compiled statements

  /** The joined row of every model; an inner join that finds no partner drops the row. */
  type Env = map<Model, nat>

  function Join(db: Database, env: Env, joins: seq<Relation>): Option<Env>
    decreases joins
  {
    if joins == [] then Some(env)
    else
      var r := joins[0];
      if r.source !in env || Link(db, r, env[r.source]).None? then None
      else Join(db, env[r.target := Link(db, r, env[r.source]).value], joins[1..])
  }

  predicate Meets(db: Database, env: Env, where: Where) {
    where.model in env && where.accepts(Column(db, where.model, env[where.model], where.column))
  }

  /** Whether `SELECT root JOIN joins.. WHERE wheres..` returns the root row `id`. */
  predicate Selects(db: Database, root: Model, id: nat, joins: seq<Relation>, wheres: seq<Where>) {
    var joined := Join(db, map[root := id], joins);
    joined.Some? && forall k :: 0 <= k < |wheres| ==> Meets(db, joined.value, wheres[k])
  }

  /** Whether a row of the subquery's first model is in its result. */
  predicate InResult(db: Database, model: Model, id: nat, joins: seq<Relation>, condition: Where) {
    Exists(db, model, id) && Selects(db, model, id, joins, [condition])
  }

  predicate Deletes(db: Database, root: Model, id: nat, m: Modification) {
    match m
    case Local(condition) => Meets(db, map[root := id], condition)
    case InSubquery(relation, joins, condition) =>
      var key := Link(db, relation, id);
      key.Some? && InResult(db, relation.target, key.value, joins, condition)
  }

  // ---------------------------------------------------------------- the two compilers

  /** The model a filter's column belongs to. */
  function EndModel(start: Model, path: seq<Relation>): Model {
    if path == [] then start else path[|path| - 1].target
  }

  function WhereOf(root: Model, f: Filter): Where {
    Where(EndModel(root, f.path), f.column, f.accepts)
  }

  /** Relations in the order the filters mention them, without those that lead to a model joined before. */
  function Dedup(relations: seq<Relation>, joined: set<Model>): seq<Relation> {
    if relations == [] then []
    else if relations[0].target in joined then Dedup(relations[1..], joined)
    else [relations[0]] + Dedup(relations[1..], joined + {relations[0].target})
  }

  function Mentioned(filters: seq<Filter>): seq<Relation> {
    if filters == [] then [] else filters[0].path + Mentioned(filters[1..])
  }

  function ModificationOf(root: Model, f: Filter): Modification {
    if f.path == [] then Local(WhereOf(root, f)) else InSubquery(f.path[0], f.path[1..], WhereOf(root, f))
  }

  lemma DedupNext(path: seq<Relation>, j: nat, later: seq<Relation>, joined: set<Model>)
    requires j < |path|
    ensures Dedup(path[j..] + later, joined) ==
            if path[j].target in joined then Dedup(path[j + 1..] + later, joined)
            else [path[j]] + Dedup(path[j + 1..] + later, joined + {path[j].target})
  {
    assert path[j..] + later == [path[j]] + (path[j + 1..] + later);
  }

  /** The inner loop of `apply_context_filters`, over the relations of one filter. */
  method JoinPath(root: Model, path: seq<Relation>, joined: set<Model>, ghost later: seq<Relation>)
    returns (joins: seq<Relation>, joinedModels: set<Model>, model: Model)
    ensures Dedup(path + later, joined) == joins + Dedup(later, joinedModels)
    ensures model == EndModel(root, path)
  {
    joins, joinedModels, model := [], joined, root;
    assert path[0..] == path;
    for j := 0 to |path|
      invariant model == EndModel(root, path[..j])
      invariant Dedup(path + later, joined) == joins + Dedup(path[j..] + later, joinedModels)
    {
      DedupNext(path, j, later, joinedModels);
      model := path[j].target;
      assert path[..j + 1][j] == path[j];
      if model !in joinedModels {
        joins, joinedModels := joins + [path[j]], joinedModels + {model};
      }
    }
    assert path[..|path|] == path && path[|path|..] + later == later;
  }

  /** `apply_context_filters`: join each mentioned relation whose model is not joined yet, and add every condition. */
  method ApplyContextFilters(root: Model, filters: seq<Filter>) returns (joins: seq<Relation>, wheres: seq<Where>)
    ensures joins == Dedup(Mentioned(filters), {})
    ensures wheres == Each(filters, f => WhereOf(root, f))
  {
    joins, wheres := [], [];
    var joinedModels: set<Model> := {};
    for i := 0 to |filters|
      invariant joins + Dedup(Mentioned(filters[i..]), joinedModels) == Dedup(Mentioned(filters), {})
      invariant |wheres| == i && forall k :: 0 <= k < i ==> wheres[k] == WhereOf(root, filters[k])
    {
      assert filters[i..][1..] == filters[i + 1..];
      var more, model;
      more, joinedModels, model := JoinPath(root, filters[i].path, joinedModels, Mentioned(filters[i + 1..]));
      joins := joins + more;
      wheres := wheres + [Where(model, filters[i].column, filters[i].accepts)];
    }
    assert filters[|filters|..] == [];
  }

  /** `apply_modification_filters`: a condition on the row itself, or on its first foreign key through a subquery. */
  method ApplyModificationFilters(root: Model, filters: seq<Filter>) returns (conditions: seq<Modification>)
    ensures conditions == Each(filters, f => ModificationOf(root, f))
  {
    conditions := [];
    for i := 0 to |filters|
      invariant |conditions| == i && forall k :: 0 <= k < i ==> conditions[k] == ModificationOf(root, filters[k])
    {
      var f := filters[i];
      if f.path == [] {
        conditions := conditions + [Local(Where(root, f.column, f.accepts))];
      } else {
        var joins: seq<Relation> := [];
        for j := 1 to |f.path|
          invariant joins == f.path[1..j]
        {
          joins := joins + [f.path[j]];
        }
        conditions := conditions + [InSubquery(f.path[0], joins, WhereOf(root, f))];
      }
    }
  }

  // ---------------------------------------------------------------- what both forms mean

  /** Following the foreign keys of a path one after the other. */
  function Follow(db: Database, id: nat, path: seq<Relation>): Option<nat>
    decreases path
  {
    if path == [] then Some(id)
    else match Link(db, path[0], id)
      case None => None
      case Some(next) => Follow(db, next, path[1..])
  }

  /** A filter holds of a root row when its path leads somewhere, and the operator accepts the column there. */
  predicate Holds1(db: Database, root: Model, id: nat, f: Filter) {
    var end := Follow(db, id, f.path);
    end.Some? && f.accepts(Column(db, EndModel(root, f.path), end.value, f.column))
  }

  predicate Chained(start: Model, path: seq<Relation>)
    decreases path
  {
    path == [] || (path[0].source == start && Chained(path[0].target, path[1..]))
  }

  /** Paths start at the root; no two relations reach the same model and none leads back to the root. */
  ghost predicate Unambiguous(root: Model, filters: seq<Filter>) {
    && (forall f :: f in filters ==> Chained(root, f.path))
    && (forall r :: r in Mentioned(filters) ==> r.target != root)
    && (forall r, q :: r in Mentioned(filters) && q in Mentioned(filters) && r.target == q.target ==> r == q)
  }

  // ---------------------------------------------------------------- the subquery form

  lemma {:induction false} EndOfTail(start: Model, path: seq<Relation>)
    requires path != []
    ensures EndModel(start, path) == EndModel(path[0].target, path[1..])
  {
  }

  lemma {:induction false} JoinFollows(db: Database, env: Env, start: Model, path: seq<Relation>)
    requires start in env && Chained(start, path)
    ensures Join(db, env, path).Some? <==> Follow(db, env[start], path).Some?
    ensures Join(db, env, path).Some? ==>
              EndModel(start, path) in Join(db, env, path).value
              && Join(db, env, path).value[EndModel(start, path)] == Follow(db, env[start], path).value
    decreases path
  {
    if path != [] && Link(db, path[0], env[start]).Some? {
      EndOfTail(start, path);
      JoinFollows(db, env[path[0].target := Link(db, path[0], env[start]).value], path[0].target, path[1..]);
    }
  }

  lemma SelectsOne(db: Database, model: Model, id: nat, joins: seq<Relation>, condition: Where)
    ensures Selects(db, model, id, joins, [condition]) <==>
            Join(db, map[model := id], joins).Some? && Meets(db, Join(db, map[model := id], joins).value, condition)
  {
    assert [condition][0] == condition;
  }

  /** A condition of a DELETE selects a row exactly when its filter holds of the row. */
  lemma SubqueryIsExact(db: Database, root: Model, id: nat, f: Filter)
    requires Chained(root, f.path)
    ensures Deletes(db, root, id, ModificationOf(root, f)) <==> Holds1(db, root, id, f)
  {
    if f.path != [] {
      var first := f.path[0];
      var key := Link(db, first, id);
      EndOfTail(root, f.path);
      if key.Some? {
        SelectsOne(db, first.target, key.value, f.path[1..], WhereOf(root, f));
        JoinFollows(db, map[first.target := key.value], first.target, f.path[1..]);
        assert Follow(db, id, f.path) == Follow(db, key.value, f.path[1..]);
      } else {
        assert Follow(db, id, f.path).None?;
      }
    }
  }

  // ---------------------------------------------------------------- the join form

  /** Joining all mentioned relations in order, skipping models that already have a row. */
  function Walk(db: Database, env: Env, relations: seq<Relation>): Option<Env>
    decreases relations
  {
    if relations == [] then Some(env)
    else
      var r := relations[0];
      if r.target in env then Walk(db, env, relations[1..])
      else if r.source !in env || Link(db, r, env[r.source]).None? then None
      else Walk(db, env[r.target := Link(db, r, env[r.source]).value], relations[1..])
  }

  lemma {:induction false} JoinsAreAWalk(db: Database, root: Model, env: Env, relations: seq<Relation>)
    requires root in env && forall r :: r in relations ==> r.target != root
    ensures Join(db, env, Dedup(relations, env.Keys - {root})) == Walk(db, env, relations)
    decreases relations
  {
    if relations != [] {
      var r := relations[0];
      assert relations == [r] + relations[1..];
      var joined := env.Keys - {root};
      if r.target in env {
        JoinsAreAWalk(db, root, env, relations[1..]);
      } else {
        assert Dedup(relations, joined)[1..] == Dedup(relations[1..], joined + {r.target});
        if r.source in env && Link(db, r, env[r.source]).Some? {
          var next := env[r.target := Link(db, r, env[r.source]).value];
          assert next.Keys - {root} == joined + {r.target};
          JoinsAreAWalk(db, root, next, relations[1..]);
        }
      }
    }
  }

  lemma {:induction false} WalkAppend(db: Database, env: Env, a: seq<Relation>, b: seq<Relation>)
    ensures Walk(db, env, a + b) == if Walk(db, env, a).None? then None else Walk(db, Walk(db, env, a).value, b)
    decreases a
  {
    if a == [] {
      assert a + b == b;
    } else {
      assert (a + b)[1..] == a[1..] + b;
      var r := a[0];
      if r.target in env {
        WalkAppend(db, env, a[1..], b);
      } else if r.source in env && Link(db, r, env[r.source]).Some? {
        WalkAppend(db, env[r.target := Link(db, r, env[r.source]).value], a[1..], b);
      }
    }
  }

  /** Every model that has a row got it from its relation. */
  ghost predicate Coherent(db: Database, env: Env, relations: seq<Relation>) {
    forall r :: r in relations && r.target in env ==>
      r.source in env && Link(db, r, env[r.source]) == Some(env[r.target])
  }

  ghost predicate OnePerModel(relations: seq<Relation>) {
    forall r, q :: r in relations && q in relations && r.target == q.target ==> r == q
  }

  /** Walking one path follows its foreign keys, and only adds rows. */
  lemma {:induction false} WalkFollows(db: Database, env: Env, start: Model, path: seq<Relation>, all: seq<Relation>)
    requires start in env && Chained(start, path) && (forall r :: r in path ==> r in all)
    requires OnePerModel(all) && Coherent(db, env, all)
    ensures Walk(db, env, path).Some? <==> Follow(db, env[start], path).Some?
    ensures Walk(db, env, path).Some? ==>
              var out := Walk(db, env, path).value;
              Coherent(db, out, all) && (forall m :: m in env ==> m in out && out[m] == env[m])
              && EndModel(start, path) in out && out[EndModel(start, path)] == Follow(db, env[start], path).value
    decreases path
  {
    if path != [] {
      var r := path[0];
      assert r in path && path == [r] + path[1..];
      EndOfTail(start, path);
      if r.target in env {
        WalkFollows(db, env, r.target, path[1..], all);
      } else if Link(db, r, env[start]).Some? {
        var next := env[r.target := Link(db, r, env[start]).value];
        assert Coherent(db, next, all);
        WalkFollows(db, next, r.target, path[1..], all);
      }
    }
  }

  /** The row joined for a filter's model is the one its foreign keys lead to. */
  predicate Reaches(db: Database, id: nat, root: Model, f: Filter, env: Env) {
    var model := EndModel(root, f.path);
    model in env && Some(env[model]) == Follow(db, id, f.path)
  }

  lemma {:induction false} WalkAllFollows(db: Database, root: Model, env: Env, filters: seq<Filter>, all: seq<Relation>)
    requires root in env && (forall f :: f in filters ==> Chained(root, f.path) && forall r :: r in f.path ==> r in all)
    requires OnePerModel(all) && Coherent(db, env, all)
    ensures var walked := Walk(db, env, Mentioned(filters));
            && (walked.Some? <==> forall f :: f in filters ==> Follow(db, env[root], f.path).Some?)
            && (walked.Some? ==> forall m :: m in env ==> m in walked.value && walked.value[m] == env[m])
            && (walked.Some? ==> forall f :: f in filters ==> Reaches(db, env[root], root, f, walked.value))
    decreases filters
  {
    if filters != [] {
      var f := filters[0];
      assert filters == [f] + filters[1..];
      WalkAppend(db, env, f.path, Mentioned(filters[1..]));
      WalkFollows(db, env, root, f.path, all);
      if Walk(db, env, f.path).Some? {
        WalkAllFollows(db, root, Walk(db, env, f.path).value, filters[1..], all);
      }
    }
  }

  lemma {:induction false} MentionedContains(filters: seq<Filter>, f: Filter, r: Relation)
    requires f in filters && r in f.path
    ensures r in Mentioned(filters)
  {
    if f != filters[0] {
      assert filters == [filters[0]] + filters[1..];
      MentionedContains(filters[1..], f, r);
    }
  }

  /** The join form selects a row exactly when every filter holds of it on its own. */
  lemma JoinIsExact(db: Database, root: Model, id: nat, filters: seq<Filter>)
    requires Unambiguous(root, filters)
    ensures Selects(db, root, id, Dedup(Mentioned(filters), {}), Each(filters, f => WhereOf(root, f))) <==>
            forall f :: f in filters ==> Holds1(db, root, id, f)
  {
    var (env, all) := (map[root := id], Mentioned(filters));
    assert env.Keys - {root} == {};
    JoinsAreAWalk(db, root, env, all);
    forall f, r | f in filters && r in f.path ensures r in all {
      MentionedContains(filters, f, r);
    }
    WalkAllFollows(db, root, env, filters, all);
    var joined := Join(db, env, Dedup(all, {}));
    if joined.Some? {
      forall k | 0 <= k < |filters|
        ensures Meets(db, joined.value, WhereOf(root, filters[k])) <==> Holds1(db, root, id, filters[k])
      {
        assert filters[k] in filters && Reaches(db, id, root, filters[k], joined.value);
      }
      assert forall f :: f in filters ==> exists k :: 0 <= k < |filters| && filters[k] == f;
    }
  }

  /** DELETE's IN-subqueries pick exactly the rows SELECT's joins return. */
  lemma InAndJoinAgree(db: Database, root: Model, id: nat, filters: seq<Filter>)
    requires Unambiguous(root, filters)
    ensures Selects(db, root, id, Dedup(Mentioned(filters), {}), Each(filters, f => WhereOf(root, f))) <==>
            forall f :: f in filters ==> Deletes(db, root, id, ModificationOf(root, f))
  {
    JoinIsExact(db, root, id, filters);
    forall f | f in filters ensures Deletes(db, root, id, ModificationOf(root, f)) <==> Holds1(db, root, id, f) {
      SubqueryIsExact(db, root, id, f);
    }
  }

  // ---------------------------------------------------------------- exactly when both forms agree

  ghost predicate Agree(db: Database, root: Model, id: nat, filters: seq<Filter>) {
    Selects(db, root, id, Dedup(Mentioned(filters), {}), Each(filters, f => WhereOf(root, f))) <==>
    forall f :: f in filters ==> Deletes(db, root, id, ModificationOf(root, f))
  }

  /** The filters follow the given paths, with any columns and operators. */
  ghost predicate OnPaths(filters: seq<Filter>, paths: seq<seq<Relation>>) {
    |filters| == |paths| && forall k :: 0 <= k < |paths| ==> filters[k].path == paths[k]
  }

  /** On any tables and for any filters on these paths, SELECT and DELETE pick the same rows. */
  ghost predicate AlwaysAgree(root: Model, paths: seq<seq<Relation>>) {
    forall db, id, filters :: OnPaths(filters, paths) ==> Agree(db, root, id, filters)
  }

  function Flat(paths: seq<seq<Relation>>): seq<Relation> {
    if paths == [] then [] else paths[0] + Flat(paths[1..])
  }

  /** Both statements join each model once; the database refuses a table joined twice under one name. */
  predicate VisitsOnce(path: seq<Relation>) {
    forall i, j :: 0 <= i < j < |path| ==> path[i].target != path[j].target
  }

  /** Paths of attributes of the models: chains from the root that never lead back to it, nor twice to one model. */
  ghost predicate FromRoot(root: Model, paths: seq<seq<Relation>>) {
    && (forall p :: p in paths ==> Chained(root, p) && VisitsOnce(p))
    && (forall r :: r in Flat(paths) ==> r.target != root)
    && (forall r, q :: r in Flat(paths) && q in Flat(paths) && r.source == q.source && r.name == q.name ==> r == q)
  }

  lemma {:induction false} MentionedIsFlat(filters: seq<Filter>, paths: seq<seq<Relation>>)
    requires OnPaths(filters, paths)
    ensures Mentioned(filters) == Flat(paths)
  {
    if filters != [] {
      MentionedIsFlat(filters[1..], paths[1..]);
    }
  }

  lemma {:induction false} FlatContains(paths: seq<seq<Relation>>, r: Relation)
    ensures r in Flat(paths) <==> exists k :: 0 <= k < |paths| && r in paths[k]
  {
    if paths != [] {
      FlatContains(paths[1..], r);
      if k :| 0 <= k < |paths| && r in paths[k] {
        assert k > 0 ==> r in paths[1..][k - 1];
      }
      if k :| 0 <= k < |paths[1..]| && r in paths[1..][k] {
        assert r in paths[k + 1];
      }
    }
  }

  /** Where two relations reach one model, the first of them to be mentioned second is the one SELECT does not join. */
  lemma {:induction false} SecondRelation(relations: seq<Relation>) returns (i: nat)
    requires !OnePerModel(relations)
    ensures i < |relations| && OnePerModel(relations[..i])
    ensures exists r :: r in relations[..i] && r.target == relations[i].target && r != relations[i]
  {
    var last := |relations| - 1;
    assert relations == relations[..last] + [relations[last]];
    if OnePerModel(relations[..last]) {
      i := last;
    } else {
      i := SecondRelation(relations[..last]);
      assert relations[..last][..i] == relations[..i];
    }
  }

  function KeysOf(all: seq<Relation>, m: Model): set<string> {
    set r | r in all && r.source == m :: r.name
  }

  /** Rows 1 and 2 of a model; every key refers to the row of the same number, except that `q` leads from row 1 to row 2. */
  function Linked(all: seq<Relation>, q: Relation, m: Model, i: nat): Record {
    Record(map["number" := Int(i)],
           map n | n in KeysOf(all, m) :: Some(if m == q.source && n == q.name && i == 1 then 2 else i))
  }

  function TwoRows(all: seq<Relation>, q: Relation, m: Model): map<nat, Record> {
    map i: nat | i in {1, 2} :: Linked(all, q, m, i)
  }

  function ModelsOf(all: seq<Relation>): set<Model> {
    (set r | r in all :: r.source) + (set r | r in all :: r.target)
  }

  function Tables2(all: seq<Relation>, q: Relation): Database {
    map m | m in ModelsOf(all) :: TwoRows(all, q, m)
  }

  lemma RowIn(all: seq<Relation>, q: Relation, m: Model, i: nat)
    requires m in ModelsOf(all) && (i == 1 || i == 2)
    ensures Exists(Tables2(all, q), m, i) && Tables2(all, q)[m][i] == Linked(all, q, m, i)
  {
    assert i in {1, 2};
  }

  lemma LinkIn(all: seq<Relation>, q: Relation, r: Relation, i: nat)
    requires r in all && q in all && (i == 1 || i == 2)
    requires r.source == q.source && r.name == q.name ==> r == q
    ensures Link(Tables2(all, q), r, i) == Some(if r == q then 2 else i)
  {
    RowIn(all, q, r.source, i);
    RowIn(all, q, r.target, if r == q then 2 else i);
    assert r.name in KeysOf(all, r.source);
  }

  /** Following a path from row 1 ends in row 2 exactly when the path contains `q`. */
  lemma {:induction false} FollowIn(all: seq<Relation>, q: Relation, path: seq<Relation>, i: nat)
    requires q in all && (i == 1 || i == 2) && forall r :: r in path ==> r in all
    requires forall r :: r in all && r.source == q.source && r.name == q.name ==> r == q
    ensures Follow(Tables2(all, q), i, path) == Some(if q in path then 2 else i)
    decreases path
  {
    if path != [] {
      var r := path[0];
      assert r in path && path == [r] + path[1..];
      LinkIn(all, q, r, i);
      FollowIn(all, q, path[1..], if r == q then 2 else i);
    }
  }

  ghost predicate AllOnes(env: Env) {
    forall m :: m in env ==> env[m] == 1
  }

  /** While `q` comes only when its model has a row, every joined row is row 1. */
  lemma {:induction false} WalkStaysOne(all: seq<Relation>, q: Relation, env: Env, relations: seq<Relation>)
    requires q in all && forall r :: r in relations ==> r in all
    requires forall r :: r in all && r.source == q.source && r.name == q.name ==> r == q
    requires AllOnes(env) && (q.target in env || q !in relations)
    ensures Walk(Tables2(all, q), env, relations).Some? ==> AllOnes(Walk(Tables2(all, q), env, relations).value)
    decreases relations
  {
    if relations != [] {
      var r := relations[0];
      assert r in relations && relations == [r] + relations[1..];
      if r.target in env {
        WalkStaysOne(all, q, env, relations[1..]);
      } else if r.source in env {
        LinkIn(all, q, r, 1);
        WalkStaysOne(all, q, env[r.target := 1], relations[1..]);
      }
    }
  }

  lemma {:induction false} WalkReaches(db: Database, env: Env, relations: seq<Relation>, r: Relation)
    requires r in relations && Walk(db, env, relations).Some?
    ensures r.target in Walk(db, env, relations).value
    ensures forall m :: m in env ==> m in Walk(db, env, relations).value
    decreases relations
  {
    var first := relations[0];
    assert relations == [first] + relations[1..];
    var next := if first.target in env then env else env[first.target := Link(db, first, env[first.source]).value];
    WalkGrows(db, next, relations[1..]);
    if r != first {
      WalkReaches(db, next, relations[1..], r);
    }
  }

  lemma {:induction false} WalkGrows(db: Database, env: Env, relations: seq<Relation>)
    requires Walk(db, env, relations).Some?
    ensures forall m :: m in env ==> m in Walk(db, env, relations).value
    decreases relations
  {
    if relations != [] {
      var r := relations[0];
      WalkGrows(db, if r.target in env then env else env[r.target := Link(db, r, env[r.source]).value], relations[1..]);
    }
  }

  /** On these tables a chain of relations finds a partner at every join. */
  lemma {:induction false} WalkSucceeds(all: seq<Relation>, q: Relation, env: Env, start: Model, path: seq<Relation>)
    requires q in all && start in env && Chained(start, path) && forall r :: r in path ==> r in all
    requires forall r :: r in all && r.source == q.source && r.name == q.name ==> r == q
    requires forall m :: m in env ==> env[m] == 1 || env[m] == 2
    ensures var walked := Walk(Tables2(all, q), env, path);
            && walked.Some? && (forall m :: m in env ==> m in walked.value)
            && (forall m :: m in walked.value ==> walked.value[m] == 1 || walked.value[m] == 2)
    decreases path
  {
    if path != [] {
      var r := path[0];
      assert r in path && path == [r] + path[1..];
      LinkIn(all, q, r, env[start]);
      WalkSucceeds(all, q, if r.target in env then env else env[r.target := if r == q then 2 else env[start]],
                   r.target, path[1..]);
    }
  }

  lemma {:induction false} WalkAllSucceeds(all: seq<Relation>, q: Relation, root: Model, env: Env, paths: seq<seq<Relation>>)
    requires q in all && root in env && (forall p :: p in paths ==> Chained(root, p)) && forall r :: r in Flat(paths) ==> r in all
    requires forall r :: r in all && r.source == q.source && r.name == q.name ==> r == q
    requires forall m :: m in env ==> env[m] == 1 || env[m] == 2
    ensures Walk(Tables2(all, q), env, Flat(paths)).Some?
    decreases paths
  {
    if paths != [] {
      WalkSucceeds(all, q, env, root, paths[0]);
      WalkAppend(Tables2(all, q), env, paths[0], Flat(paths[1..]));
      WalkAllSucceeds(all, q, root, Walk(Tables2(all, q), env, paths[0]).value, paths[1..]);
    }
  }

  lemma {:induction false} WalkCovers(db: Database, env: Env, relations: seq<Relation>)
    requires Walk(db, env, relations).Some?
    ensures forall r :: r in relations ==> r.target in Walk(db, env, relations).value
  {
    forall r | r in relations ensures r.target in Walk(db, env, relations).value {
      WalkReaches(db, env, relations, r);
    }
  }

  /** When another relation to its model comes first, `q` is never walked, and every joined row is row 1. */
  lemma WalkAllOnes(all: seq<Relation>, q: Relation, r: Relation, env: Env, before: seq<Relation>, after: seq<Relation>)
    requires all == before + after && q in all && q !in before && r in before && r.target == q.target
    requires forall p :: p in all && p.source == q.source && p.name == q.name ==> p == q
    requires AllOnes(env) && Walk(Tables2(all, q), env, all).Some?
    ensures AllOnes(Walk(Tables2(all, q), env, all).value)
  {
    var db := Tables2(all, q);
    WalkAppend(db, env, before, after);
    WalkStaysOne(all, q, env, before);
    WalkReaches(db, env, before, r);
    WalkStaysOne(all, q, Walk(db, env, before).value, after);
  }

  /** The row joined for every mentioned model is row 1. */
  lemma JoinedIsOne(root: Model, env: Env, all: seq<Relation>, q: Relation, r: Relation, i: nat)
    requires i < |all| && all[i] == q && q !in all[..i] && r in all[..i] && r.target == q.target
    requires forall p :: p in all && p.source == q.source && p.name == q.name ==> p == q
    requires root in env && AllOnes(env) && forall p :: p in all ==> p.target != root
    requires Walk(Tables2(all, q), env, all).Some?
    ensures var joined := Join(Tables2(all, q), env, Dedup(all, env.Keys - {root}));
            joined.Some? && AllOnes(joined.value) && root in joined.value
            && forall p :: p in all ==> p.target in joined.value
  {
    JoinsAreAWalk(Tables2(all, q), root, env, all);
    assert all == all[..i] + all[i..];
    WalkAllOnes(all, q, r, env, all[..i], all[i..]);
    WalkGrows(Tables2(all, q), env, all);
    WalkCovers(Tables2(all, q), env, all);
  }

  lemma {:induction false} EndIsMentioned(root: Model, path: seq<Relation>)
    ensures EndModel(root, path) == root || exists r :: r in path && r.target == EndModel(root, path)
  {
    if path != [] {
      assert path[|path| - 1] in path;
    }
  }

  /** Any filters on these paths that accept the number 1 find root row 1 through the joins. */
  lemma JoinsFindOne(root: Model, paths: seq<seq<Relation>>, i: nat, filters: seq<Filter>)
    requires FromRoot(root, paths) && i < |Flat(paths)| && OnePerModel(Flat(paths)[..i]) && OnPaths(filters, paths)
    requires exists r :: r in Flat(paths)[..i] && r.target == Flat(paths)[i].target && r != Flat(paths)[i]
    requires exists r :: r in Flat(paths) && r.source == root
    requires forall k :: 0 <= k < |filters| ==> filters[k].column == "number" && filters[k].accepts(Int(1))
    ensures Selects(Tables2(Flat(paths), Flat(paths)[i]), root, 1,
                    Dedup(Mentioned(filters), {}), Each(filters, f => WhereOf(root, f)))
  {
    var all, q := Flat(paths), Flat(paths)[i];
    var r :| r in all[..i] && r.target == q.target && r != q;
    MentionedIsFlat(filters, paths);
    WalkAllSucceeds(all, q, root, map[root := 1], paths);
    JoinedIsOne(root, map[root := 1], all, q, r, i);
    assert map[root := 1].Keys - {root} == {};
    var joined := Join(Tables2(all, q), map[root := 1], Dedup(all, {})).value;
    forall j | 0 <= j < |filters| ensures Meets(Tables2(all, q), joined, WhereOf(root, filters[j])) {
      FlatHasPath(paths, j);
      EndIsMentioned(root, paths[j]);
      NumberIn(all, q, root, paths[j]);
      assert Column(Tables2(all, q), EndModel(root, paths[j]), 1, "number") == Int(1);
    }
  }

  /** A filter that follows `q` and wants the number 1 does not hold of root row 1. */
  lemma DeleteMissesOne(all: seq<Relation>, q: Relation, root: Model, f: Filter)
    requires q in all && q in f.path && (forall r :: r in f.path ==> r in all) && Chained(root, f.path)
    requires forall r :: r in all && r.source == q.source && r.name == q.name ==> r == q
    requires f.column == "number" && forall v :: f.accepts(v) <==> v == Int(1)
    ensures !Deletes(Tables2(all, q), root, 1, ModificationOf(root, f))
  {
    SubqueryIsExact(Tables2(all, q), root, 1, f);
    FollowIn(all, q, f.path, 1);
    assert f.path[0] in f.path && f.path[0].source == root;
    NumberIn(all, q, root, f.path);
  }

  /** Every filter accepts everything, but the one whose path contains `q` wants row 1: SELECT finds it and DELETE does not. */
  lemma AmbiguityDisagrees(root: Model, paths: seq<seq<Relation>>)
    requires FromRoot(root, paths) && !OnePerModel(Flat(paths))
    ensures !AlwaysAgree(root, paths)
  {
    var all := Flat(paths);
    var i := SecondRelation(all);
    var q := all[i];
    FlatContains(paths, q);
    var k :| 0 <= k < |paths| && q in paths[k];
    FlatHasPath(paths, k);
    assert paths[k] in paths && paths[k][0] in paths[k] && paths[k][0].source == root;
    var filters := Each(paths, p => Filter(p, "number", v => p == paths[k] ==> v == Int(1)));
    JoinsFindOne(root, paths, i, filters);
    DeleteMissesOne(all, q, root, filters[k]);
    assert filters[k] in filters;
    assert !Agree(Tables2(all, q), root, 1, filters);
  }

  lemma FlatHasPath(paths: seq<seq<Relation>>, j: nat)
    requires j < |paths|
    ensures forall r :: r in paths[j] ==> r in Flat(paths)
  {
    forall r | r in paths[j] ensures r in Flat(paths) {
      FlatContains(paths, r);
    }
  }

  /** Row numbers are stored in the rows, at every model a nonempty path ends in, and at the root of one. */
  lemma NumberIn(all: seq<Relation>, q: Relation, root: Model, path: seq<Relation>)
    requires forall r :: r in path ==> r in all
    requires exists r :: r in all && r.source == root
    ensures var end := EndModel(root, path);
            forall i: nat :: i == 1 || i == 2 ==> Column(Tables2(all, q), end, i, "number") == Int(i)
  {
    EndIsMentioned(root, path);
    RowIn(all, q, EndModel(root, path), 1);
    RowIn(all, q, EndModel(root, path), 2);
  }

  /**
   * On paths from the root, SELECT's joins and DELETE's IN-subqueries pick the same rows on all tables and for all
   * columns and operators exactly when no two relations of the paths reach the same model.
   */
  lemma AgreeIffOnePerModel(root: Model, paths: seq<seq<Relation>>)
    requires FromRoot(root, paths)
    ensures AlwaysAgree(root, paths) <==> OnePerModel(Flat(paths))
  {
    if OnePerModel(Flat(paths)) {
      forall db, id, filters | OnPaths(filters, paths) ensures Agree(db, root, id, filters) {
        MentionedIsFlat(filters, paths);
        forall f: Filter | f in filters ensures Chained(root, f.path) {
          var k :| 0 <= k < |filters| && filters[k] == f;
          assert paths[k] in paths;
        }
        InAndJoinAgree(db, root, id, filters);
      }
    } else {
      AmbiguityDisagrees(root, paths);
    }
  }

  // ---------------------------------------------------------------- why paths must be unambiguous

  /** With two foreign keys to one model, the join form tests both columns on the row of the first key. */
  lemma SharedModelUsesFirstKey(db: Database, root: Model, id: nat, f: Filter, g: Filter, r: Relation, q: Relation)
    requires f.path == [r] && g.path == [q] && r.source == q.source == root && r.target == q.target != root
    ensures Selects(db, root, id, Dedup(Mentioned([f, g]), {}), Each([f, g], h => WhereOf(root, h))) <==>
            Link(db, r, id).Some?
            && f.accepts(Column(db, r.target, Link(db, r, id).value, f.column))
            && g.accepts(Column(db, r.target, Link(db, r, id).value, g.column))
  {
    var wheres := Each([f, g], h => WhereOf(root, h));
    assert [f, g][1..] == [g] && [g][1..] == [];
    assert Mentioned([g]) == [q] + Mentioned([]);
    assert Mentioned([f, g]) == [r] + Mentioned([g]);
    assert Mentioned([f, g]) == [r, q] && [r, q][1..] == [q] && [q][1..] == [];
    assert Dedup([q], {r.target}) == Dedup([], {r.target});
    assert Dedup([r, q], {}) == [r] + Dedup([q], {} + {r.target});
    assert {} + {r.target} == {r.target};
    assert [r][1..] == [];
    if Link(db, r, id).Some? {
      var env := map[root := id][r.target := Link(db, r, id).value];
      assert Join(db, env, []) == Some(env);
      assert Join(db, map[root := id], [r]) == Some(env);
      assert wheres[0] == WhereOf(root, f) && wheres[1] == WhereOf(root, g);
    }
  }
}
