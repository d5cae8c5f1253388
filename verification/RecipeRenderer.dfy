/**
 The allowlisted SQL printer (agent/tools/recipe_renderer.py), and a parser for its two
 templates that stands for the target cluster.
 */
module RecipeRenderer {
  import opened Prelude

  datatype ActionKind = CreateIndex | AnalyzeTable

  /** The `parameters` dict of a proposal, restricted to the keys the renderer reads. */
  datatype Parameters = Parameters(table: Option<string>, columns: seq<string>, indexName: Option<string>)

  datatype RejectReason =
    | NotAllowlisted
    | TableRequired
    | BadIdentifier(part: string)
    | UnknownTable
    | ColumnsRequired
    | MissingColumns
    | ForbiddenKeyword

  datatype Rendered = Rendered(sql: string, schemaChecked: bool)

  /** What a rendered string says: the validated request with its index name resolved. */
  datatype Statement =
    | CreateIndexOn(indexName: string, schema: string, table: string, columns: seq<string>)
    | AnalyzeOf(schema: string, table: string)

  const FORBIDDEN: seq<string> := ["DROP", "TRUNCATE", "GRANT", "ALTER", "DELETE", "UPDATE", "INSERT", "SET"]

  // ----- step 3: identifiers

  predicate IdentStart(c: char) {
    'a' <= c <= 'z' || c == '_'
  }

  predicate IdentChar(c: char) {
    IdentStart(c) || IsDigit(c)
  }

  /** Python's `$` also matches before one trailing newline, so that newline is not part of the match. */
  function Core(s: string): string {
    if |s| > 0 && s[|s| - 1] == '\n' then s[..|s| - 1] else s
  }

  predicate ValidIdentifier(s: string) {
    var core := Core(s);
    |core| > 0 && IdentStart(core[0]) && forall i | 0 <= i < |core| :: IdentChar(core[i])
  }

  // ----- step 4: the forbidden-word search, as the regular expression defines it

  /** `\b` at position `i`: exactly one of the two neighbours is a word character. */
  predicate Boundary(s: string, i: nat)
    requires i <= |s|
  {
    (i > 0 && IsWord(s[i - 1])) != (i < |s| && IsWord(s[i]))
  }

  /** `\bword\b` matches at `i`, ignoring case. */
  predicate MatchAt(s: string, i: nat, word: string) {
    && i + |word| <= |s|
    && (forall k | 0 <= k < |word| :: UpperChar(s[i + k]) == word[k])
    && Boundary(s, i)
    && Boundary(s, i + |word|)
  }

  predicate HasWord(s: string, word: string) {
    exists i | 0 <= i <= |s| :: MatchAt(s, i, word)
  }

  /** `_FORBIDDEN_RE.search` over the whole string. */
  predicate SearchForbidden(s: string) {
    ';' in s || exists k | 0 <= k < |FORBIDDEN| :: HasWord(s, FORBIDDEN[k])
  }

  // ----- step 5: the templates

  function Print(st: Statement): string {
    match st
    case CreateIndexOn(name, schema, table, columns) =>
      "CREATE INDEX IF NOT EXISTS " + (name + (" ON " + (schema + ("." + (table +
      (" (" + (Join(columns, ", ") + ")")))))))
    case AnalyzeOf(schema, table) =>
      "ANALYZE " + (schema + ("." + table))
  }

  function KindOf(actionKind: string): Option<ActionKind> {
    if actionKind == "create_index" then Some(CreateIndex)
    else if actionKind == "analyze_table" then Some(AnalyzeTable)
    else None
  }

  /** `f"{table}_{'_'.join(columns)}_idx"` */
  function DefaultIndexName(table: string, columns: seq<string>): string {
    table + ("_" + (Join(columns, "_") + "_idx"))
  }

  /** A missing and an empty `index_name` both fall back to the default name. */
  function IndexNameOf(p: Parameters, table: string): string {
    if p.indexName.Some? && p.indexName.value != "" then p.indexName.value else DefaultIndexName(table, p.columns)
  }

  function Finish(st: Statement, checked: bool): Result<Rendered, RejectReason> {
    if SearchForbidden(Print(st)) then Err(ForbiddenKeyword) else Ok(Rendered(Print(st), checked))
  }

  function Render(actionKind: string, p: Parameters, schema: string, known: Option<set<string>>)
    : Result<Rendered, RejectReason>
  {
    var kind := KindOf(actionKind);
    if kind.None? then Err(NotAllowlisted)
    else if p.table.None? || p.table.value == "" then Err(TableRequired)
    else
      var table := p.table.value;
      if !ValidIdentifier(table) then Err(BadIdentifier("table"))
      else if !ValidIdentifier(schema) then Err(BadIdentifier("schema"))
      else if known.Some? && known.value == {} then Err(UnknownTable)
      else if kind.value.AnalyzeTable? then Finish(AnalyzeOf(schema, table), known.Some?)
      else if |p.columns| == 0 then Err(ColumnsRequired)
      else if exists c | c in p.columns :: !ValidIdentifier(c) then Err(BadIdentifier("column"))
      else if known.Some? && exists c | c in p.columns :: c !in known.value then Err(MissingColumns)
      else if !ValidIdentifier(IndexNameOf(p, table)) then Err(BadIdentifier("index_name"))
      else Finish(CreateIndexOn(IndexNameOf(p, table), schema, table, p.columns), known.Some?)
  }

  // ----- the same request at the level of identifiers, with no string search

  /** Every identifier a statement prints. */
  function Identifiers(st: Statement): seq<string> {
    match st
    case CreateIndexOn(name, schema, table, columns) => [name, schema, table] + columns
    case AnalyzeOf(schema, table) => [schema, table]
  }

  predicate ValidStatement(st: Statement) {
    (forall id | id in Identifiers(st) :: ValidIdentifier(id)) && (st.CreateIndexOn? ==> |st.columns| > 0)
  }

  /** An identifier that is itself a forbidden word. */
  predicate IsKeyword(id: string) {
    Upper(Core(id)) in FORBIDDEN
  }

  /** The statement a request asks for; None when a required part is missing. */
  function StatementOf(actionKind: string, p: Parameters, schema: string): Option<Statement> {
    if p.table.None? || p.table.value == "" then None
    else match KindOf(actionKind)
      case None => None
      case Some(AnalyzeTable) => Some(AnalyzeOf(schema, p.table.value))
      case Some(CreateIndex) =>
        if |p.columns| == 0 then None
        else Some(CreateIndexOn(IndexNameOf(p, p.table.value), schema, p.table.value, p.columns))
  }

  predicate SchemaAgrees(st: Statement, known: Option<set<string>>) {
    known.None? || (known.value != {} && (st.CreateIndexOn? ==> forall c | c in st.columns :: c in known.value))
  }

  // ----- forbidden words in a concatenation

  predicate Capitals(word: string) {
    |word| > 0 && forall i | 0 <= i < |word| :: 'A' <= word[i] <= 'Z'
  }

  /** Two strings whose joint is not inside a word. */
  predicate Apart(a: string, b: string) {
    |a| == 0 || |b| == 0 || !IsWord(a[|a| - 1]) || !IsWord(b[0])
  }

  lemma MatchEdges(s: string, i: nat, word: string)
    requires Capitals(word) && MatchAt(s, i, word)
    ensures forall k | i <= k < i + |word| :: IsWord(s[k])
    ensures i > 0 ==> !IsWord(s[i - 1])
    ensures i + |word| < |s| ==> !IsWord(s[i + |word|])
  {
    forall k | i <= k < i + |word| ensures IsWord(s[k]) {
      assert UpperChar(s[i + (k - i)]) == word[k - i];
    }
  }

  /** A word match cannot straddle a place where at most one side is a word character. */
  lemma MatchInEitherPart(a: string, b: string, i: nat, word: string)
    requires Capitals(word) && Apart(a, b) && MatchAt(a + b, i, word)
    ensures HasWord(a, word) || HasWord(b, word)
  {
    MatchEdges(a + b, i, word);
    assert |a| > 0 ==> (a + b)[|a| - 1] == a[|a| - 1];
    assert |b| > 0 ==> (a + b)[|a|] == b[0];
    if i + |word| <= |a| {
      assert MatchAt(a, i, word);
    } else {
      assert MatchAt(b, i - |a|, word);
    }
  }

  lemma MatchStaysInLeft(a: string, b: string, i: nat, word: string)
    requires Capitals(word) && Apart(a, b) && MatchAt(a, i, word)
    ensures MatchAt(a + b, i, word)
  {
    MatchEdges(a, i, word);
  }

  lemma MatchStaysInRight(a: string, b: string, i: nat, word: string)
    requires Capitals(word) && Apart(a, b) && MatchAt(b, i, word)
    ensures MatchAt(a + b, |a| + i, word)
  {
    MatchEdges(b, i, word);
  }

  lemma HasWordSplit(a: string, b: string, word: string)
    requires Capitals(word) && Apart(a, b)
    ensures HasWord(a + b, word) <==> HasWord(a, word) || HasWord(b, word)
  {
    if HasWord(a + b, word) {
      var i :| 0 <= i <= |a + b| && MatchAt(a + b, i, word);
      MatchInEitherPart(a, b, i, word);
    }
    if HasWord(a, word) {
      var i :| 0 <= i <= |a| && MatchAt(a, i, word);
      MatchStaysInLeft(a, b, i, word);
    }
    if HasWord(b, word) {
      var i :| 0 <= i <= |b| && MatchAt(b, i, word);
      MatchStaysInRight(a, b, i, word);
    }
  }

  /** A piece made of word characters, perhaps followed by one newline, holds no word but itself. */
  lemma HasWordInPiece(piece: string, word: string)
    requires Capitals(word)
    requires |Core(piece)| > 0 && forall i | 0 <= i < |Core(piece)| :: IsWord(Core(piece)[i])
    ensures HasWord(piece, word) <==> Upper(Core(piece)) == word
  {
    var core := Core(piece);
    CoreIsPrefix(piece);
    hide Core, Upper, Capitals;
    if HasWord(piece, word) {
      var i :| 0 <= i <= |piece| && MatchAt(piece, i, word);
      MatchEdges(piece, i, word);
      assert i == 0 && |word| == |core|;
      assert forall k | 0 <= k < |word| :: Upper(core)[k] == UpperChar(core[k]) == UpperChar(piece[0 + k]) == word[k];
    }
    if Upper(core) == word {
      assert forall k | 0 <= k < |word| :: UpperChar(piece[0 + k]) == UpperChar(core[k]) == Upper(core)[k] == word[k];
      assert MatchAt(piece, 0, word);
    }
  }

  /** What `$` leaves out of a text is at most one newline at its end. */
  lemma CoreIsPrefix(s: string)
    ensures Core(s) <= s && (|Core(s)| < |s| ==> |s| == |Core(s)| + 1 && s[|Core(s)|] == '\n')
  {
  }

  /** No word can be found where there is no word character. */
  lemma NoWordInPunctuation(s: string, word: string)
    requires Capitals(word)
    requires forall i | 0 <= i < |s| :: !IsWord(s[i])
    ensures !HasWord(s, word)
  {
    forall i | 0 <= i <= |s| ensures !MatchAt(s, i, word) {
      if MatchAt(s, i, word) {
        MatchEdges(s, i, word);
        assert false;
      }
    }
  }

  // ----- what the search finds in a rendered statement

  const TEMPLATE_WORDS: seq<string> := ["CREATE", "INDEX", "IF", "NOT", "EXISTS", "ON", "ANALYZE"]

  lemma ForbiddenWord(word: string)
    requires word in FORBIDDEN
    ensures Capitals(word) && word !in TEMPLATE_WORDS
  {
  }

  function Sentence(words: seq<string>): string {
    if |words| == 0 then "" else words[0] + (" " + Sentence(words[1..]))
  }

  lemma {:induction false} NoWordInSentence(words: seq<string>, word: string)
    requires Capitals(word) && word !in words && forall w | w in words :: Capitals(w)
    ensures !HasWord(Sentence(words), word)
  {
    if |words| == 0 {
      NoWordInPunctuation("", word);
    } else {
      var first := words[0];
      assert first in words && Capitals(first);
      assert Core(first) == first && Upper(first) == first;
      HasWordInPiece(first, word);
      NoWordInSentence(words[1..], word);
      NoWordInPunctuation(" ", word);
      HasWordSplit(" ", Sentence(words[1..]), word);
      HasWordSplit(first, " " + Sentence(words[1..]), word);
    }
  }

  lemma TemplatesHoldNoWord(word: string)
    requires Capitals(word) && word !in TEMPLATE_WORDS
    ensures !HasWord("CREATE INDEX IF NOT EXISTS ", word)
    ensures !HasWord(" ON ", word)
    ensures !HasWord("ANALYZE ", word)
  {
    var head := ["CREATE", "INDEX", "IF", "NOT", "EXISTS"];
    assert head == TEMPLATE_WORDS[..5];
    NoWordInSentence(head, word);
    assert Sentence(head) == "CREATE INDEX IF NOT EXISTS ";
    NoWordInSentence(["ON"], word);
    NoWordInPunctuation(" ", word);
    HasWordSplit(" ", "ON ", word);
    assert Sentence(["ON"]) == "ON " && " " + "ON " == " ON ";
    NoWordInSentence(["ANALYZE"], word);
    assert Sentence(["ANALYZE"]) == "ANALYZE ";
  }

  lemma IdentifierIsPiece(id: string)
    requires ValidIdentifier(id)
    ensures |Core(id)| > 0 && forall i | 0 <= i < |Core(id)| :: IsWord(Core(id)[i])
  {
  }

  /** One identifier followed by a separator that starts and ends outside words. */
  lemma IdentifierThen(id: string, sep: string, rest: string, word: string)
    requires Capitals(word) && ValidIdentifier(id)
    requires |sep| > 0 && !IsWord(sep[0]) && !IsWord(sep[|sep| - 1]) && !HasWord(sep, word)
    ensures HasWord(id + (sep + rest), word) <==> Upper(Core(id)) == word || HasWord(rest, word)
  {
    IdentifierIsPiece(id);
    HasWordInPiece(id, word);
    HasWordSplit(sep, rest, word);
    HasWordSplit(id, sep + rest, word);
  }

  lemma {:induction false} JoinHasWord(columns: seq<string>, word: string)
    requires Capitals(word) && forall c | c in columns :: ValidIdentifier(c)
    ensures HasWord(Join(columns, ", "), word) <==> exists c | c in columns :: Upper(Core(c)) == word
  {
    if |columns| == 0 {
      NoWordInPunctuation("", word);
    } else {
      assert columns[0] in columns;
      IdentifierIsPiece(columns[0]);
      HasWordInPiece(columns[0], word);
      if |columns| > 1 {
        JoinHasWord(columns[1..], word);
        NoWordInPunctuation(", ", word);
        IdentifierThen(columns[0], ", ", Join(columns[1..], ", "), word);
      }
      assert forall c :: c in columns <==> c == columns[0] || c in columns[1..];
    }
  }

  lemma PrintedIndexWords(name: string, schema: string, table: string, columns: seq<string>, word: string)
    requires ValidStatement(CreateIndexOn(name, schema, table, columns))
    requires Capitals(word) && word !in TEMPLATE_WORDS
    ensures HasWord(Print(CreateIndexOn(name, schema, table, columns)), word) <==>
            || Upper(Core(name)) == word || Upper(Core(schema)) == word || Upper(Core(table)) == word
            || exists c | c in columns :: Upper(Core(c)) == word
  {
    var ids := Identifiers(CreateIndexOn(name, schema, table, columns));
    assert forall id | id == name || id == schema || id == table || id in columns :: id in ids;
    TemplatesHoldNoWord(word);
    NoWordInPunctuation(".", word);
    NoWordInPunctuation(")", word);
    NoWordInPunctuation(" (", word);
    var list := Join(columns, ", ");
    JoinHasWord(columns, word);
    HasWordSplit(list, ")", word);
    IdentifierThen(table, " (", list + ")", word);
    var afterSchema := table + (" (" + (list + ")"));
    IdentifierThen(schema, ".", afterSchema, word);
    var afterName := schema + ("." + afterSchema);
    IdentifierThen(name, " ON ", afterName, word);
    HasWordSplit("CREATE INDEX IF NOT EXISTS ", name + (" ON " + afterName), word);
  }

  lemma PrintedAnalyzeWords(schema: string, table: string, word: string)
    requires ValidIdentifier(schema) && ValidIdentifier(table)
    requires Capitals(word) && word !in TEMPLATE_WORDS
    ensures HasWord(Print(AnalyzeOf(schema, table)), word) <==>
            Upper(Core(schema)) == word || Upper(Core(table)) == word
  {
    TemplatesHoldNoWord(word);
    NoWordInPunctuation(".", word);
    IdentifierIsPiece(table);
    HasWordInPiece(table, word);
    IdentifierThen(schema, ".", table, word);
    HasWordSplit("ANALYZE ", schema + ("." + table), word);
  }

  lemma PrintedWords(st: Statement, word: string)
    requires ValidStatement(st) && word in FORBIDDEN
    ensures HasWord(Print(st), word) <==> exists id | id in Identifiers(st) :: Upper(Core(id)) == word
  {
    ForbiddenWord(word);
    match st
    case CreateIndexOn(name, schema, table, columns) =>
      PrintedIndexWords(name, schema, table, columns, word);
      assert forall id :: id in Identifiers(st) <==> id == name || id == schema || id == table || id in columns;
    case AnalyzeOf(schema, table) =>
      assert forall id :: id in Identifiers(st) <==> id == schema || id == table;
      PrintedAnalyzeWords(schema, table, word);
  }

  lemma {:induction false} JoinHasNoSemicolon(columns: seq<string>)
    requires forall c | c in columns :: ValidIdentifier(c)
    ensures ';' !in Join(columns, ", ")
  {
    if |columns| > 0 {
      IdentifierHasNoSemicolon(columns[0]);
      JoinHasNoSemicolon(columns[1..]);
    }
  }

  lemma IdentifierHasNoSemicolon(id: string)
    requires ValidIdentifier(id)
    ensures ';' !in id
  {
    assert forall i | 0 <= i < |Core(id)| :: Core(id)[i] == id[i];
  }

  lemma PrintHasNoSemicolon(st: Statement)
    requires ValidStatement(st)
    ensures ';' !in Print(st)
  {
    forall id | id in Identifiers(st) ensures ';' !in id {
      IdentifierHasNoSemicolon(id);
    }
    if st.CreateIndexOn? {
      JoinHasNoSemicolon(st.columns);
      assert st.indexName in Identifiers(st) && st.schema in Identifiers(st) && st.table in Identifiers(st);
      assert ';' !in "CREATE INDEX IF NOT EXISTS " && ';' !in " ON " && ';' !in "." && ';' !in " (" && ';' !in ")";
    } else {
      assert st.schema in Identifiers(st) && st.table in Identifiers(st);
      assert ';' !in "ANALYZE " && ';' !in ".";
    }
  }

  lemma SomeForbiddenWord(id: string)
    ensures IsKeyword(id) <==> exists k | 0 <= k < |FORBIDDEN| :: Upper(Core(id)) == FORBIDDEN[k]
  {
  }

  /**
   The whole-string search fires exactly when some validated identifier is itself a
   forbidden word: the identifier check alone does not make it unreachable.
   */
  lemma SearchFindsExactlyKeywords(st: Statement)
    requires ValidStatement(st)
    ensures SearchForbidden(Print(st)) <==> exists id | id in Identifiers(st) :: IsKeyword(id)
  {
    PrintHasNoSemicolon(st);
    forall k | 0 <= k < |FORBIDDEN|
      ensures HasWord(Print(st), FORBIDDEN[k]) <==> exists id | id in Identifiers(st) :: Upper(Core(id)) == FORBIDDEN[k]
    {
      PrintedWords(st, FORBIDDEN[k]);
    }
    hide HasWord, Print, Core, FORBIDDEN;
    forall id ensures IsKeyword(id) <==> exists k | 0 <= k < |FORBIDDEN| :: Upper(Core(id)) == FORBIDDEN[k] {
      SomeForbiddenWord(id);
    }
  }

  predicate HasKeyword(st: Statement) {
    exists id | id in Identifiers(st) :: IsKeyword(id)
  }

  lemma FinishIff(st: Statement, checked: bool)
    requires ValidStatement(st)
    ensures Finish(st, checked) == if HasKeyword(st) then Err(ForbiddenKeyword) else Ok(Rendered(Print(st), checked))
  {
    SearchFindsExactlyKeywords(st);
  }

  lemma ValidIndexStatement(st: Statement)
    requires st.CreateIndexOn?
    ensures ValidStatement(st) <==>
            && ValidIdentifier(st.indexName) && ValidIdentifier(st.schema) && ValidIdentifier(st.table)
            && |st.columns| > 0 && forall c | c in st.columns :: ValidIdentifier(c)
  {
    assert forall id :: id in Identifiers(st) <==>
      id == st.indexName || id == st.schema || id == st.table || id in st.columns;
  }

  lemma ValidAnalyzeStatement(st: Statement)
    requires st.AnalyzeOf?
    ensures ValidStatement(st) <==> ValidIdentifier(st.schema) && ValidIdentifier(st.table)
  {
    assert forall id :: id in Identifiers(st) <==> id == st.schema || id == st.table;
  }

  /** `render` succeeds exactly when the identifiers of the request allow it, and then prints that request. */
  lemma RenderSucceedsIff(actionKind: string, p: Parameters, schema: string, known: Option<set<string>>)
    ensures
      var asked := StatementOf(actionKind, p, schema);
      var r := Render(actionKind, p, schema, known);
      && (r.Ok? <==>
            && asked.Some? && ValidStatement(asked.value)
            && SchemaAgrees(asked.value, known) && !HasKeyword(asked.value))
      && (r.Ok? ==> r.value == Rendered(Print(asked.value), known.Some?))
  {
    var asked := StatementOf(actionKind, p, schema);
    if asked.Some? {
      var st := asked.value;
      if st.CreateIndexOn? {
        ValidIndexStatement(st);
      } else {
        ValidAnalyzeStatement(st);
      }
      if ValidStatement(st) {
        FinishIff(st, known.Some?);
      }
    }
  }

  // ----- reading a rendered statement back

  function IdentLength(s: string): (n: nat)
    ensures n <= |s|
  {
    if |s| > 0 && (IdentChar(s[0]) || s[0] == '\n') then 1 + IdentLength(s[1..]) else 0
  }

  function After(prefix: string, s: string): (rest: Option<string>)
    ensures rest.Some? ==> |rest.value| + |prefix| == |s|
  {
    if prefix <= s then Some(s[|prefix|..]) else None
  }

  function ParseColumns(s: string): Option<seq<string>>
    decreases |s|
  {
    var n := IdentLength(s);
    var rest := s[n..];
    if rest == ")" then Some([s[..n]])
    else match After(", ", rest)
      case None => None
      case Some(more) =>
        match ParseColumns(more)
        case None => None
        case Some(columns) => Some([s[..n]] + columns)
  }

  /** `schema.table`, the remainder of the string, or None. */
  function ParseTable(s: string): Option<(string, string, string)> {
    var n := IdentLength(s);
    match After(".", s[n..])
    case None => None
    case Some(rest) => var m := IdentLength(rest); Some((s[..n], rest[..m], rest[m..]))
  }

  function ParseIndex(s: string): Option<Statement> {
    var n := IdentLength(s);
    match After(" ON ", s[n..])
    case None => None
    case Some(rest) =>
      match ParseTable(rest)
      case None => None
      case Some((schema, table, list)) =>
        match After(" (", list)
        case None => None
        case Some(columns) =>
          match ParseColumns(columns)
          case None => None
          case Some(cols) => Some(CreateIndexOn(s[..n], schema, table, cols))
  }

  function ParseAnalyze(s: string): Option<Statement> {
    match ParseTable(s)
    case None => None
    case Some((schema, table, rest)) => if rest == "" then Some(AnalyzeOf(schema, table)) else None
  }

  function Parse(sql: string): Option<Statement> {
    match After("ANALYZE ", sql)
    case Some(rest) => ParseAnalyze(rest)
    case None =>
      match After("CREATE INDEX IF NOT EXISTS ", sql)
      case Some(rest) => ParseIndex(rest)
      case None => None
  }

  lemma {:induction false} IdentLengthOf(id: string, rest: string)
    requires forall i | 0 <= i < |id| :: IdentChar(id[i]) || id[i] == '\n'
    requires |rest| > 0 ==> !IdentChar(rest[0]) && rest[0] != '\n'
    ensures IdentLength(id + rest) == |id|
    ensures (id + rest)[..|id|] == id && (id + rest)[|id|..] == rest
  {
    if |id| > 0 {
      IdentLengthOf(id[1..], rest);
      assert (id + rest)[1..] == id[1..] + rest;
    }
  }

  lemma IdentifierLength(id: string, rest: string)
    requires ValidIdentifier(id)
    requires |rest| > 0 ==> !IdentChar(rest[0]) && rest[0] != '\n'
    ensures IdentLength(id + rest) == |id|
    ensures (id + rest)[..|id|] == id && (id + rest)[|id|..] == rest
  {
    forall i | 0 <= i < |id| ensures IdentChar(id[i]) || id[i] == '\n' {
      if i < |Core(id)| {
        assert Core(id)[i] == id[i];
      }
    }
    IdentLengthOf(id, rest);
  }

  lemma AfterPrefix(prefix: string, rest: string)
    ensures After(prefix, prefix + rest) == Some(rest)
  {
    assert (prefix + rest)[|prefix|..] == rest;
  }

  lemma ParseOneMore(first: string, rest: string)
    requires ValidIdentifier(first) && ParseColumns(rest).Some?
    ensures ParseColumns(first + (", " + rest)) == Some([first] + ParseColumns(rest).value)
  {
    IdentifierLength(first, ", " + rest);
    AfterPrefix(", ", rest);
    assert (", " + rest)[0] != ')';
  }

  lemma {:induction false} ColumnsRoundTrip(columns: seq<string>)
    requires |columns| > 0 && forall c | c in columns :: ValidIdentifier(c)
    ensures ParseColumns(Join(columns, ", ") + ")") == Some(columns)
  {
    var first := columns[0];
    assert first in columns;
    if |columns| == 1 {
      IdentifierLength(first, ")");
      assert Join(columns, ", ") == first && [first] == columns;
    } else {
      var rest := Join(columns[1..], ", ") + ")";
      assert Join(columns, ", ") + ")" == first + (", " + rest);
      ColumnsRoundTrip(columns[1..]);
      ParseOneMore(first, rest);
      assert [first] + columns[1..] == columns;
    }
  }

  lemma TableRoundTrip(schema: string, table: string, rest: string)
    requires ValidIdentifier(schema) && ValidIdentifier(table)
    requires |rest| > 0 ==> !IdentChar(rest[0]) && rest[0] != '\n'
    ensures ParseTable(schema + ("." + (table + rest))) == Some((schema, table, rest))
  {
    IdentifierLength(schema, "." + (table + rest));
    AfterPrefix(".", table + rest);
    IdentifierLength(table, rest);
  }

  /** The parser recovers kind, schema, table, index name and column list from any rendered SQL. */
  lemma RenderRoundTrip(st: Statement)
    requires ValidStatement(st)
    ensures Parse(Print(st)) == Some(st)
  {
    match st
    case AnalyzeOf(schema, table) =>
      ValidAnalyzeStatement(st);
      assert table + "" == table;
      AfterPrefix("ANALYZE ", schema + ("." + table));
      TableRoundTrip(schema, table, "");
    case CreateIndexOn(name, schema, table, columns) =>
      ValidIndexStatement(st);
      var list := Join(columns, ", ") + ")";
      var place := schema + ("." + (table + (" (" + list)));
      assert Print(st)[0] == 'C';
      assert After("ANALYZE ", Print(st)).None?;
      AfterPrefix("CREATE INDEX IF NOT EXISTS ", name + (" ON " + place));
      IdentifierLength(name, " ON " + place);
      AfterPrefix(" ON ", place);
      TableRoundTrip(schema, table, " (" + list);
      AfterPrefix(" (", list);
      ColumnsRoundTrip(columns);
  }

  /** Different validated requests never print the same statement. */
  lemma PrintIsInjective(a: Statement, b: Statement)
    requires ValidStatement(a) && ValidStatement(b) && Print(a) == Print(b)
    ensures a == b
  {
    RenderRoundTrip(a);
    RenderRoundTrip(b);
  }

  /**
   Default index names are not injective: two different column lists on one table can
   ask for the same index name.
   */
  lemma DefaultNamesCollide()
    ensures DefaultIndexName("orders", ["a_b"]) == DefaultIndexName("orders", ["a", "b"])
  {
    assert Join(["a", "b"], "_") == "a" + ("_" + Join(["b"], "_"));
  }

  lemma SetIsKeyword(id: string)
    requires id == ['s', 'e', 't']
    ensures ValidIdentifier(id) && IsKeyword(id)
  {
    assert Core(id) == id;
    assert Upper(id) == FORBIDDEN[7];
  }

  lemma DefaultNameOfSet(table: string)
    requires ValidIdentifier(table) && Core(table) == table
    ensures ValidIdentifier(DefaultIndexName(table, [['s', 'e', 't']]))
  {
    var name := DefaultIndexName(table, [['s', 'e', 't']]);
    assert name == table + ['_', 's', 'e', 't', '_', 'i', 'd', 'x'];
    assert Core(name) == name && name[0] == table[0];
  }

  /** A request that passes every check but the last is decided by it. */
  lemma RenderReachesLastCheck(table: string, column: string, schema: string, known: Option<set<string>>)
    requires ValidIdentifier(schema) && ValidIdentifier(table) && table != "" && ValidIdentifier(column)
    requires ValidIdentifier(DefaultIndexName(table, [column])) && (known.None? || column in known.value)
    ensures Render("create_index", Parameters(Some(table), [column], None), schema, known) ==
      Finish(CreateIndexOn(DefaultIndexName(table, [column]), schema, table, [column]), known.Some?)
  {
    hide Finish, ValidIdentifier, DefaultIndexName;
    var p := Parameters(Some(table), [column], None);
    assert KindOf("create_index") == Some(CreateIndex);
    assert IndexNameOf(p, table) == DefaultIndexName(table, [column]);
    assert forall c | c in [column] :: c == column;
  }

  /**
   The renderer's own check is reachable: a request for an index on a column named `set`,
   with no index name, passes every earlier check and is then rejected.
   */
  lemma KeywordCheckIsReachable(schema: string, table: string, known: Option<set<string>>)
    requires ValidIdentifier(schema) && ValidIdentifier(table) && Core(table) == table
    requires known.None? || ['s', 'e', 't'] in known.value
    ensures
      Render("create_index", Parameters(Some(table), [['s', 'e', 't']], None), schema, known) == Err(ForbiddenKeyword)
  {
    hide Render, Finish, DefaultIndexName;
    var column := ['s', 'e', 't'];
    var st := CreateIndexOn(DefaultIndexName(table, [column]), schema, table, [column]);
    SetIsKeyword(column);
    DefaultNameOfSet(table);
    ValidIndexStatement(st);
    assert Identifiers(st)[3] == column;
    FinishIff(st, known.Some?);
    RenderReachesLastCheck(table, column, schema, known);
  }
}
