/**
 What the SQL printer accepts and prints, and what the operator's search finds, said on the
 characters of the request: literal alphabets, literal words and literal templates.
 */
module RendererLaws {
  import opened Prelude
  import opened Alphabets
  import opened RecipeRenderer

  const NAME_START: string := "abcdefghijklmnopqrstuvwxyz_"
  const NAME_REST: string := "abcdefghijklmnopqrstuvwxyz_0123456789"

  const RESERVED: seq<string> := ["drop", "truncate", "grant", "alter", "delete", "update", "insert", "set"]

  predicate Name(s: string) {
    |s| > 0 && s[0] in NAME_START && Over(s[1..], NAME_REST)
  }

  /** A name, with at most one newline after it. */
  predicate Spelled(id: string) {
    Name(id) || (|id| > 0 && id[|id| - 1] == '\n' && Name(id[..|id| - 1]))
  }

  predicate Reserved(id: string) {
    exists w | w in RESERVED :: id == w || id == w + "\n"
  }

  /** Spelled as the renderer demands, and none of the words that the last check refuses. */
  predicate GoodName(id: string) {
    Spelled(id) && !Reserved(id)
  }

  // ----- the alphabets of the identifier check

  lemma AlphabetsOfNames(c: char)
    ensures IdentStart(c) <==> c in NAME_START
    ensures IdentChar(c) <==> c in NAME_REST
  {
    assert NAME_START == LOWERCASE + "_" && NAME_REST == LOWERCASE + "_" + DIGITS;
    LowercaseIff(c);
    DigitIff(c);
  }

  lemma NameIff(s: string)
    ensures Name(s) <==> |s| > 0 && IdentStart(s[0]) && forall i | 0 <= i < |s| :: IdentChar(s[i])
  {
    hide IdentChar, NAME_START, NAME_REST;
    if |s| > 0 {
      forall i | 0 <= i < |s|
        ensures IdentStart(s[i]) <==> s[i] in NAME_START
        ensures IdentChar(s[i]) <==> s[i] in NAME_REST
      {
        AlphabetsOfNames(s[i]);
      }
      StartIsChar(s[0]);
      hide IdentStart;
      var rest := s[1..];
      assert forall i | 0 <= i < |rest| :: rest[i] == s[i + 1];
      if Name(s) {
        forall i | 0 <= i < |s| ensures IdentChar(s[i]) {
          assert i > 0 ==> s[i] == rest[i - 1];
        }
      }
    }
  }

  lemma StartIsChar(c: char)
    ensures IdentStart(c) ==> IdentChar(c)
  {
  }

  /** The identifier check passes exactly the spelled names. */
  lemma SpelledIff(id: string)
    ensures ValidIdentifier(id) <==> Spelled(id)
  {
    NameIff(Core(id));
    if |id| > 0 && id[|id| - 1] == '\n' {
      NameIff(id);
      AlphabetsOfNames('\n');
    }
  }

  // ----- forbidden words

  lemma ReservedAreForbidden(k: nat)
    requires k < |FORBIDDEN|
    ensures k < |RESERVED| && RESERVED[k] == Lower(FORBIDDEN[k]) && Upper(RESERVED[k]) == FORBIDDEN[k]
  {
    assert |RESERVED| == 8 == |FORBIDDEN|;
  }

  /** A name whose capitals spell a word is that word in small letters. */
  lemma UppercaseOfName(s: string, word: string)
    requires Name(s) && Capitals(word) && Upper(s) == word
    ensures s == Lower(word)
  {
    NameIff(s);
    forall i | 0 <= i < |s| ensures s[i] == LowerChar(word[i]) {
      assert word[i] == UpperChar(s[i]);
    }
  }

  lemma KeywordIff(id: string)
    requires Spelled(id)
    ensures IsKeyword(id) <==> Reserved(id)
  {
    var core := Core(id);
    CoreIsPrefix(id);
    AlphabetsOfNames('\n');
    assert Name(core) by { NameIff(core); SpelledIff(id); }
    forall k | 0 <= k < |FORBIDDEN| ensures Upper(core) == FORBIDDEN[k] <==> core == RESERVED[k] {
      ReservedAreForbidden(k);
      ForbiddenWord(FORBIDDEN[k]);
      if Upper(core) == FORBIDDEN[k] {
        UppercaseOfName(core, FORBIDDEN[k]);
      }
    }
    assert |RESERVED| == |FORBIDDEN|;
    CoreOr(id);
    hide Core, Upper, Name, RESERVED, FORBIDDEN;
    if IsKeyword(id) {
      SomeForbiddenWord(id);
      var k :| 0 <= k < |FORBIDDEN| && Upper(core) == FORBIDDEN[k];
      assert RESERVED[k] in RESERVED;
    } else {
      SomeForbiddenWord(id);
      forall w | w in RESERVED ensures core != w {
        var k :| 0 <= k < |RESERVED| && RESERVED[k] == w;
      }
      forall w | w in RESERVED ensures id != w && id != w + "\n" {
        ReservedHasNoNewline(w);
      }
    }
  }

  lemma CoreOr(id: string)
    ensures id == Core(id) || id == Core(id) + "\n"
  {
  }

  lemma ReservedHasNoNewline(w: string)
    requires w in RESERVED
    ensures Core(w) == w && Core(w + "\n") == w
  {
    assert (w + "\n")[..|w|] == w;
  }

  // ----- the renderer

  /** The name a request gives its index. */
  function IndexName(p: Parameters, table: string): string {
    if p.indexName == None || p.indexName == Some("") then table + ("_" + (Join(p.columns, "_") + "_idx"))
    else p.indexName.value
  }

  /** The parts of a request that its statement names, all of them given, spelled and known. */
  predicate Renderable(actionKind: string, p: Parameters, schema: string, known: Option<set<string>>) {
    && (actionKind == "create_index" || actionKind == "analyze_table")
    && p.table.Some? && GoodName(p.table.value) && GoodName(schema)
    && known != Some({})
    && (actionKind == "create_index" ==>
          && p.columns != []
          && (forall c | c in p.columns :: GoodName(c) && (known.Some? ==> c in known.value))
          && GoodName(IndexName(p, p.table.value)))
  }

  lemma StatementIsGood(st: Statement)
    requires st.CreateIndexOn? ==> st.columns != []
    ensures ValidStatement(st) && !HasKeyword(st) <==> forall id | id in Identifiers(st) :: GoodName(id)
  {
    forall id ensures ValidIdentifier(id) && !IsKeyword(id) <==> GoodName(id) {
      SpelledIff(id);
      if Spelled(id) {
        KeywordIff(id);
      }
    }
    hide ValidIdentifier, IsKeyword, GoodName, Identifiers;
  }

  lemma PartsOf(st: Statement)
    ensures st.CreateIndexOn? ==> forall id :: id in Identifiers(st) <==>
      id == st.indexName || id == st.schema || id == st.table || id in st.columns
    ensures st.AnalyzeOf? ==> forall id :: id in Identifiers(st) <==> id == st.schema || id == st.table
  {
  }

  /** Rendering succeeds exactly on the renderable requests, and prints the template of the request's kind. */
  lemma RendersIff(actionKind: string, p: Parameters, schema: string, known: Option<set<string>>)
    ensures
      var r := Render(actionKind, p, schema, known);
      && (r.Ok? <==> Renderable(actionKind, p, schema, known))
      && (r.Ok? ==> r.value.schemaChecked == known.Some?)
      && (r.Ok? && actionKind == "create_index" ==>
            && p.table.Some?
            && r.value.sql == "CREATE INDEX IF NOT EXISTS " + (IndexName(p, p.table.value) + (" ON " + (schema +
                 ("." + (p.table.value + (" (" + (Join(p.columns, ", ") + ")"))))))))
      && (r.Ok? && actionKind == "analyze_table" ==>
            p.table.Some? && r.value.sql == "ANALYZE " + (schema + ("." + p.table.value)))
  {
    assert !GoodName("");
    hide Render, GoodName, Identifiers, ValidStatement, HasKeyword, DefaultIndexName;
    RenderSucceedsIff(actionKind, p, schema, known);
    var asked := StatementOf(actionKind, p, schema);
    if asked.Some? {
      StatementIsGood(asked.value);
      PartsOf(asked.value);
      AskedIs(actionKind, p, schema);
    }
  }

  lemma AskedIs(actionKind: string, p: Parameters, schema: string)
    requires StatementOf(actionKind, p, schema).Some?
    ensures
      var st := StatementOf(actionKind, p, schema).value;
      && p.table.Some? && (st.CreateIndexOn? <==> actionKind == "create_index")
      && st == if actionKind == "create_index"
               then CreateIndexOn(IndexName(p, p.table.value), schema, p.table.value, p.columns)
               else AnalyzeOf(schema, p.table.value)
  {
  }

  /** What a refusal names is there in the request. */
  predicate Fault(reason: RejectReason, actionKind: string, p: Parameters, schema: string, known: Option<set<string>>) {
    match reason
    case NotAllowlisted => actionKind != "create_index" && actionKind != "analyze_table"
    case TableRequired => p.table == None || p.table == Some("")
    case BadIdentifier(part) =>
      || (part == "table" && p.table.Some? && !Spelled(p.table.value))
      || (part == "schema" && !Spelled(schema))
      || (part == "column" && actionKind == "create_index" && exists c | c in p.columns :: !Spelled(c))
      || (part == "index_name" && actionKind == "create_index"
          && p.table.Some? && !Spelled(IndexName(p, p.table.value)))
    case UnknownTable => known == Some({})
    case ColumnsRequired => actionKind == "create_index" && p.columns == []
    case MissingColumns => actionKind == "create_index" && known.Some? && exists c | c in p.columns :: c !in known.value
    case ForbiddenKeyword => p.table.Some? && exists id | id in NamesOf(actionKind, p, schema) :: Reserved(id)
  }

  function NamesOf(actionKind: string, p: Parameters, schema: string): seq<string>
    requires p.table.Some?
  {
    [schema, p.table.value] + if actionKind == "create_index" then [IndexName(p, p.table.value)] + p.columns else []
  }

  lemma KeywordIsReserved(actionKind: string, p: Parameters, schema: string)
    requires
      var st := StatementOf(actionKind, p, schema);
      st.Some? && ValidStatement(st.value) && HasKeyword(st.value)
    ensures Fault(ForbiddenKeyword, actionKind, p, schema, None)
  {
    hide Reserved, StatementOf, ValidIdentifier, IsKeyword, Spelled, Identifiers, NamesOf;
    var st := StatementOf(actionKind, p, schema).value;
    var id := KeywordOf(st);
    KeywordIff(id);
    IdentifiersAreNamed(actionKind, p, schema, id);
  }

  lemma KeywordOf(st: Statement) returns (id: string)
    requires ValidStatement(st) && HasKeyword(st)
    ensures id in Identifiers(st) && IsKeyword(id) && Spelled(id)
  {
    hide Identifiers, ValidIdentifier, IsKeyword, Spelled;
    id :| id in Identifiers(st) && IsKeyword(id);
    SpelledIff(id);
  }

  lemma IdentifiersAreNamed(actionKind: string, p: Parameters, schema: string, id: string)
    requires StatementOf(actionKind, p, schema).Some? && id in Identifiers(StatementOf(actionKind, p, schema).value)
    ensures p.table.Some? && id in NamesOf(actionKind, p, schema)
  {
    PartsOf(StatementOf(actionKind, p, schema).value);
    hide Identifiers, DefaultIndexName;
  }

  /** The last check is reached with a valid statement that holds a keyword. */
  lemma LastCheck(actionKind: string, p: Parameters, schema: string, known: Option<set<string>>)
    requires Render(actionKind, p, schema, known) == Err(ForbiddenKeyword)
    ensures
      var st := StatementOf(actionKind, p, schema);
      st.Some? && ValidStatement(st.value) && HasKeyword(st.value)
  {
    hide Finish, ValidIdentifier, DefaultIndexName, ValidStatement;
    var st := StatementOf(actionKind, p, schema).value;
    if st.CreateIndexOn? {
      ValidIndexStatement(st);
    } else {
      ValidAnalyzeStatement(st);
    }
    FinishIff(st, known.Some?);
  }

  lemma EarlyRejection(actionKind: string, p: Parameters, schema: string, known: Option<set<string>>)
    requires Render(actionKind, p, schema, known).Err? && Render(actionKind, p, schema, known) != Err(ForbiddenKeyword)
    ensures Fault(Render(actionKind, p, schema, known).error, actionKind, p, schema, known)
  {
    hide ValidIdentifier, Spelled, Print, SearchForbidden, DefaultIndexName, IndexNameOf, IndexName;
    SpelledIff(schema);
    forall c | c in p.columns ensures ValidIdentifier(c) <==> Spelled(c) {
      SpelledIff(c);
    }
    if p.table.Some? {
      SpelledIff(p.table.value);
      SameIndexName(p, p.table.value);
      SpelledIff(IndexName(p, p.table.value));
    }
  }

  lemma SameIndexName(p: Parameters, table: string)
    ensures IndexName(p, table) == IndexNameOf(p, table)
  {
  }

  /** A request that the renderer refuses has the fault that the refusal names. */
  lemma RejectionsNameAFault(actionKind: string, p: Parameters, schema: string, known: Option<set<string>>)
    requires Render(actionKind, p, schema, known).Err?
    ensures Fault(Render(actionKind, p, schema, known).error, actionKind, p, schema, known)
  {
    if Render(actionKind, p, schema, known) == Err(ForbiddenKeyword) {
      LastCheck(actionKind, p, schema, known);
      hide ValidStatement, HasKeyword, Render;
      KeywordIsReserved(actionKind, p, schema);
    } else {
      EarlyRejection(actionKind, p, schema, known);
    }
  }

  /** An index on a table with a digit in its name, with the default index name. */
  lemma OrdersExample()
    ensures
      Render("create_index", Parameters(Some("orders2"), ["id"], None), "public", None) ==
        Ok(Rendered("CREATE INDEX IF NOT EXISTS orders2_id_idx ON public.orders2 (id)", false))
  {
    var p := Parameters(Some("orders2"), ["id"], None);
    JoinOfParts(["id"], [], "_");
    JoinOfParts(["id"], [], ", ");
    hide Render, GoodName, Join;
    ExampleName(p);
    GoodExample("orders2");
    GoodExample("public");
    GoodExample("id");
    GoodExample("orders2_id_idx");
    hide IndexName;
    RendersIff("create_index", p, "public", None);
    assert Renderable("create_index", p, "public", None);
    ExampleText();
  }

  lemma ExampleName(p: Parameters)
    requires p == Parameters(Some("orders2"), ["id"], None) && Join(["id"], "_") == "id"
    ensures IndexName(p, "orders2") == "orders2_id_idx"
  {
  }

  lemma ExampleText()
    ensures "CREATE INDEX IF NOT EXISTS " + ("orders2_id_idx" + (" ON " + ("public" + ("." + ("orders2" + (" (" +
              ("id" + ")"))))))) == "CREATE INDEX IF NOT EXISTS orders2_id_idx ON public.orders2 (id)"
  {
  }

  lemma GoodExample(id: string)
    requires id in ["orders2", "public", "id", "orders2_id_idx"]
    ensures GoodName(id)
  {
    var k := NAME_START;
    forall i | 0 <= i < |id| ensures id[i] in NAME_REST {
      AlphabetsOfNames(id[i]);
    }
    AlphabetsOfNames(id[0]);
    assert id[0] in ['o', 'p', 'i'];
    forall w | w in RESERVED ensures id != w && id != w + "\n" {
      assert w[0] !in ['o', 'p'];
      assert w == "insert" ==> |w| == 6;
    }
  }

  // ----- lists

  /** Joining two lists puts one separator between them. */
  lemma {:induction false} JoinOfParts(xs: seq<string>, ys: seq<string>, sep: string)
    ensures Join([], sep) == ""
    ensures |xs| == 1 ==> Join(xs, sep) == xs[0]
    ensures |xs| > 0 && |ys| > 0 ==> Join(xs + ys, sep) == Join(xs, sep) + (sep + Join(ys, sep))
  {
    if |xs| > 0 && |ys| > 0 {
      assert (xs + ys)[1..] == xs[1..] + ys;
      if |xs| > 1 {
        JoinOfParts(xs[1..], ys, sep);
      } else {
        assert xs[1..] + ys == ys;
      }
    }
  }

  // ----- the search

  /** `s` holds `w`, in whatever letters, with no word character on either side. */
  ghost predicate HoldsWord(s: string, w: string) {
    exists a, v, b :: s == a + (v + b) && Upper(v) == w && !EndsInWord(a) && !StartsInWord(b)
  }

  predicate WordLetter(c: char) {
    c in LOWERCASE || c in UPPERCASE || c in DIGITS || c == '_'
  }

  predicate EndsInWord(a: string) {
    |a| > 0 && WordLetter(a[|a| - 1])
  }

  predicate StartsInWord(b: string) {
    |b| > 0 && WordLetter(b[0])
  }

  lemma MatchHoldsWord(s: string, i: nat, w: string)
    requires Capitals(w) && MatchAt(s, i, w)
    ensures HoldsWord(s, w)
  {
    MatchEdges(s, i, w);
    SliceIsWord(s, i, w);
    hide MatchAt, Capitals, IsWord, EndsInWord, StartsInWord;
    var j := i + |w|;
    EdgesAreFree(s, i, j);
    ThreeParts(s, i, j);
  }

  lemma SliceIsWord(s: string, i: nat, w: string)
    requires MatchAt(s, i, w)
    ensures i + |w| <= |s| && Upper(s[i..i + |w|]) == w
  {
    var v := s[i..i + |w|];
    hide UpperChar, Boundary;
    forall k | 0 <= k < |w| ensures Upper(v)[k] == w[k] {
      assert v[k] == s[i + k];
    }
  }

  lemma ThreeParts(s: string, i: nat, j: nat)
    requires i <= j <= |s|
    ensures s[..i] + (s[i..j] + s[j..]) == s
  {
  }

  lemma EdgesAreFree(s: string, i: nat, j: nat)
    requires i <= j <= |s| && (i > 0 ==> !IsWord(s[i - 1])) && (j < |s| ==> !IsWord(s[j]))
    ensures !EndsInWord(s[..i]) && !StartsInWord(s[j..])
  {
    if i > 0 {
      WordIff(s[i - 1]);
    }
    if j < |s| {
      WordIff(s[j]);
    }
  }

  lemma HasWordIff(s: string, w: string)
    requires Capitals(w)
    ensures HasWord(s, w) <==> HoldsWord(s, w)
  {
    hide MatchAt, Capitals, IsWord, Upper, EndsInWord, StartsInWord;
    if HasWord(s, w) {
      var i :| 0 <= i <= |s| && MatchAt(s, i, w);
      MatchHoldsWord(s, i, w);
    }
    if HoldsWord(s, w) {
      var a, v, b :| s == a + (v + b) && Upper(v) == w && !EndsInWord(a) && !StartsInWord(b);
      UpperIsWord(v, w);
      NotInWord(a, b);
      MatchOfParts(a, v, b, w);
    }
  }

  lemma NotInWord(a: string, b: string)
    requires !EndsInWord(a) && !StartsInWord(b)
    ensures |a| > 0 ==> !IsWord(a[|a| - 1])
    ensures |b| > 0 ==> !IsWord(b[0])
  {
    if |a| > 0 {
      WordIff(a[|a| - 1]);
    }
    if |b| > 0 {
      WordIff(b[0]);
    }
  }

  lemma UpperIsWord(v: string, w: string)
    requires Capitals(w) && Upper(v) == w
    ensures |v| > 0 && forall i | 0 <= i < |v| :: IsWord(v[i])
  {
    forall i | 0 <= i < |v| ensures IsWord(v[i]) {
      assert w[i] == UpperChar(v[i]);
    }
  }

  lemma MatchOfParts(a: string, v: string, b: string, w: string)
    requires Upper(v) == w && |v| > 0 && forall i | 0 <= i < |v| :: IsWord(v[i])
    requires |a| > 0 ==> !IsWord(a[|a| - 1])
    requires |b| > 0 ==> !IsWord(b[0])
    ensures MatchAt(a + (v + b), |a|, w)
  {
    var s := a + (v + b);
    forall k | 0 <= k < |w| ensures UpperChar(s[|a| + k]) == w[k] {
      assert s[|a| + k] == v[k];
    }
    assert s[|a|] == v[0] && s[|a| + |v| - 1] == v[|v| - 1];
    assert |b| > 0 ==> s[|a| + |v|] == b[0];
    assert |a| > 0 ==> s[|a| - 1] == a[|a| - 1];
  }

  /** The search of the renderer and of the operator, on any text whatever. */
  lemma SearchIff(s: string)
    ensures
      SearchForbidden(s) <==>
      ';' in s || exists w ::
        w in ["DROP", "TRUNCATE", "GRANT", "ALTER", "DELETE", "UPDATE", "INSERT", "SET"] && HoldsWord(s, w)
  {
    forall k | 0 <= k < |FORBIDDEN| ensures HasWord(s, FORBIDDEN[k]) <==> HoldsWord(s, FORBIDDEN[k]) {
      ForbiddenWord(FORBIDDEN[k]);
      HasWordIff(s, FORBIDDEN[k]);
    }
    assert FORBIDDEN == ["DROP", "TRUNCATE", "GRANT", "ALTER", "DELETE", "UPDATE", "INSERT", "SET"];
    hide HoldsWord, HasWord, FORBIDDEN;
  }
}
