/**
 The adapter that executes rendered SQL on the target cluster
 (agent/tools/sql_operator.py), over the catalog of the target's indexes.
 */
module SqlOperator {
  import opened Prelude
  import opened RecipeRenderer

  datatype IndexId = IndexId(schema: string, table: string, name: string)

  /** The target's indexes: each name, with the columns it was created on. */
  type Catalog = map<IndexId, seq<string>>

  function IndexOf(st: Statement): IndexId
    requires st.CreateIndexOn?
  {
    IndexId(st.schema, st.table, st.indexName)
  }

  /** `CREATE INDEX IF NOT EXISTS` keeps the first definition of a name; `ANALYZE` changes no index. */
  function Execute(c: Catalog, st: Statement): Catalog {
    if st.CreateIndexOn? && IndexOf(st) !in c then c[IndexOf(st) := st.columns] else c
  }

  /** The cluster runs the statement that a string says; any other string is not modelled as changing an index. */
  function ExecuteSql(c: Catalog, sql: string): Catalog {
    match Parse(sql)
    case Some(st) => Execute(c, st)
    case None => c
  }

  /** `c` only gained index names on the way to `d`. */
  predicate Extends(c: Catalog, d: Catalog) {
    forall id | id in c :: id in d && d[id] == c[id]
  }

  /** A catalog on which running `sql` changes nothing. */
  predicate Settled(c: Catalog, sql: string) {
    ExecuteSql(c, sql) == c
  }

  class Operator {
    var catalog: Catalog
    var executed: seq<string>

    constructor (c: Catalog)
      ensures catalog == c && executed == []
    {
      catalog := c;
      executed := [];
    }

    /** Rejects before touching the cluster when the operator's own search finds something. */
    method Apply(sql: string) returns (accepted: bool)
      modifies this
      ensures accepted <==> !SearchForbidden(sql)
      ensures catalog == if accepted then ExecuteSql(old(catalog), sql) else old(catalog)
      ensures executed == if accepted then old(executed) + [sql] else old(executed)
    {
      if SearchForbidden(sql) {
        return false;
      }
      executed := executed + [sql];
      catalog := ExecuteSql(catalog, sql);
      accepted := true;
    }
  }

  lemma ExecutePrinted(c: Catalog, st: Statement)
    requires ValidStatement(st)
    ensures ExecuteSql(c, Print(st)) == Execute(c, st)
  {
    RenderRoundTrip(st);
  }

  lemma CleanStatement(st: Statement)
    requires ValidStatement(st) && !HasKeyword(st)
    ensures !SearchForbidden(Print(st))
  {
    SearchFindsExactlyKeywords(st);
  }

  /** The operator's re-check accepts everything the renderer returns, and the cluster runs exactly that request. */
  lemma OperatorAcceptsRendered(actionKind: string, p: Parameters, schema: string, known: Option<set<string>>,
                                r: Rendered)
    requires Render(actionKind, p, schema, known) == Ok(r)
    ensures !SearchForbidden(r.sql)
    ensures StatementOf(actionKind, p, schema).Some?
    ensures forall c :: ExecuteSql(c, r.sql) == Execute(c, StatementOf(actionKind, p, schema).value)
  {
    RenderSucceedsIff(actionKind, p, schema, known);
    var st := StatementOf(actionKind, p, schema).value;
    CleanStatement(st);
    forall c {
      ExecutePrinted(c, st);
    }
  }

  /** Executing a statement keeps every index there was and leaves nothing to do for the same statement. */
  lemma ExecuteSettles(c: Catalog, sql: string)
    ensures Extends(c, ExecuteSql(c, sql)) && Settled(ExecuteSql(c, sql), sql)
  {
  }

  /** Whatever runs in between, a statement that had nothing to do still has nothing to do. */
  lemma SettledStays(c: Catalog, d: Catalog, sql: string)
    requires Settled(c, sql) && Extends(c, d)
    ensures Settled(d, sql)
  {
    if Parse(sql).Some? && Parse(sql).value.CreateIndexOn? {
      assert IndexOf(Parse(sql).value) in c;
    }
  }

  /**
   After applying a rendered `create_index` the target has the requested index exactly when
   its name was free or already meant the same columns; keep-first hides the other case. No
   other index comes or goes, and an `analyze_table` touches none.
   */
  lemma IndexCreatedIff(c: Catalog, st: Statement)
    requires ValidStatement(st)
    ensures st.AnalyzeOf? ==> ExecuteSql(c, Print(st)) == c
    ensures st.CreateIndexOn? ==>
      var d, id := ExecuteSql(c, Print(st)), IndexId(st.schema, st.table, st.indexName);
      && d.Keys == c.Keys + {id}
      && (forall other | other in c :: d[other] == c[other])
      && (d[id] == st.columns <==> id !in c || c[id] == st.columns)
  {
    ExecutePrinted(c, st);
  }

  function IndexRequest(table: string, columns: seq<string>): Parameters {
    Parameters(Some(table), columns, None)
  }

  /** An identifier with an underscore in it is no forbidden word. */
  lemma UnderscoreIsNoKeyword(id: string, k: nat)
    requires k < |Core(id)| && Core(id)[k] == '_'
    ensures !IsKeyword(id)
  {
    assert Upper(Core(id))[k] == '_';
    forall n | 0 <= n < |FORBIDDEN| ensures Upper(Core(id)) != FORBIDDEN[n] {
      ForbiddenWord(FORBIDDEN[n]);
    }
  }

  lemma ShortIsNoKeyword(id: string)
    requires |id| == 1
    ensures !IsKeyword(id)
  {
    forall n | 0 <= n < |FORBIDDEN| ensures Upper(Core(id)) != FORBIDDEN[n] {
      assert |FORBIDDEN[n]| > 1;
    }
  }

  /** The collision: columns a and b, and column a_b, name the same index. */
  lemma CollidingNames(table: string)
    requires ValidIdentifier(table) && Core(table) == table
    ensures
      var name := DefaultIndexName(table, ["a", "b"]);
      && name == DefaultIndexName(table, ["a_b"])
      && ValidIdentifier(name) && !IsKeyword(name)
  {
    assert Join(["a", "b"], "_") == "a" + ("_" + Join(["b"], "_")) == "a_b";
    var name := DefaultIndexName(table, ["a_b"]);
    assert name == table + ['_', 'a', '_', 'b', '_', 'i', 'd', 'x'];
    assert Core(name) == name && name[0] == table[0] && name[|table|] == '_';
    UnderscoreIsNoKeyword(name, |table|);
  }

  lemma RendersIndex(schema: string, table: string, columns: seq<string>, known: Option<set<string>>)
    requires ValidIdentifier(schema) && ValidIdentifier(table) && table != "" && !IsKeyword(schema) && !IsKeyword(table)
    requires |columns| > 0 && forall c | c in columns :: ValidIdentifier(c) && !IsKeyword(c)
    requires ValidIdentifier(DefaultIndexName(table, columns)) && !IsKeyword(DefaultIndexName(table, columns))
    requires known.None? || forall c | c in columns :: c in known.value
    ensures
      var st := CreateIndexOn(DefaultIndexName(table, columns), schema, table, columns);
      && ValidStatement(st)
      && Render("create_index", IndexRequest(table, columns), schema, known) == Ok(Rendered(Print(st), known.Some?))
  {
    var st := CreateIndexOn(DefaultIndexName(table, columns), schema, table, columns);
    assert KindOf("create_index") == Some(CreateIndex);
    assert StatementOf("create_index", IndexRequest(table, columns), schema) == Some(st);
    ValidIndexStatement(st);
    hide Render, ValidIdentifier, IsKeyword, DefaultIndexName, Print;
    assert columns[0] in columns;
    assert SchemaAgrees(st, known);
    assert !HasKeyword(st);
    RenderSucceedsIff("create_index", IndexRequest(table, columns), schema, known);
  }

  /**
   Two requests with colliding default names: where the name was free, both are rendered and
   pass the operator, and the second changes nothing; its columns get no index of that name.
   */
  lemma CollidingRequestIsLost(c: Catalog, schema: string, table: string, known: Option<set<string>>)
    requires ValidIdentifier(schema) && ValidIdentifier(table) && Core(table) == table
    requires !IsKeyword(schema) && !IsKeyword(table)
    requires known.None? || {"a", "b", "a_b"} <= known.value
    requires IndexId(schema, table, DefaultIndexName(table, ["a", "b"])) !in c
    ensures
      var one := Render("create_index", IndexRequest(table, ["a", "b"]), schema, known);
      var two := Render("create_index", IndexRequest(table, ["a_b"]), schema, known);
      && one.Ok? && two.Ok? && !SearchForbidden(one.value.sql) && !SearchForbidden(two.value.sql)
      && var d := ExecuteSql(c, one.value.sql);
         var id := IndexId(schema, table, DefaultIndexName(table, ["a_b"]));
         && ExecuteSql(d, two.value.sql) == d && id in d && d[id] == ["a", "b"] != ["a_b"]
  {
    CollidingNames(table);
    ShortIsNoKeyword("a");
    ShortIsNoKeyword("b");
    UnderscoreIsNoKeyword("a_b", 1);
    assert Core("a") == "a" && Core("b") == "b" && Core("a_b") == "a_b";
    assert ValidIdentifier("a") && ValidIdentifier("b") && ValidIdentifier("a_b");
    RendersIndex(schema, table, ["a", "b"], known);
    RendersIndex(schema, table, ["a_b"], known);
    var one := CreateIndexOn(DefaultIndexName(table, ["a", "b"]), schema, table, ["a", "b"]);
    var two := CreateIndexOn(DefaultIndexName(table, ["a_b"]), schema, table, ["a_b"]);
    hide Render, ValidIdentifier, IsKeyword, DefaultIndexName, Print, SearchForbidden, Core;
    OperatorAcceptsRendered("create_index", IndexRequest(table, ["a", "b"]), schema, known,
        Rendered(Print(one), known.Some?));
    OperatorAcceptsRendered("create_index", IndexRequest(table, ["a_b"]), schema, known,
        Rendered(Print(two), known.Some?));
    ExecutePrinted(c, one);
    ExecutePrinted(Execute(c, one), two);
    assert ["a", "b"] != ["a_b"];
  }
}
