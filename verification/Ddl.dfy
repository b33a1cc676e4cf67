/** The `CREATE TABLE` text a bulk ingest generates, and how it reads back through the lexer. */
module Ddl {
  import opened Wrappers
  import opened Lexing
  import opened Trimming
  import opened Splitting
  import opened Classification
  import Timestamps

  // ---- Identifiers ---------------------------------------------------------------------------------

  predicate IsControl(c: char) {
    c <= '\U{1F}' || '\U{7F}' <= c <= '\U{9F}'
  }

  /** What backticks can hold under both of Spanner's parsers. */
  predicate Quotable(name: string) {
    name != [] && forall i :: 0 <= i < |name| ==> name[i] != '`' && name[i] != '\\' && !IsControl(name[i])
  }

  /** `quote_ident`; `None` is its `InvalidArgument`. */
  function QuoteIdent(ident: string): Option<string> {
    if Quotable(ident) then Some("`" + ident + "`") else None
  }

  /** `qualified_table`: an empty schema is the default one. */
  function QualifiedTable(schema: Option<string>, table: string): Option<string> {
    if schema.Some? && schema.value != [] then
      (if Quotable(schema.value) && Quotable(table)
       then Some(QuoteIdent(schema.value).value + "." + QuoteIdent(table).value) else None)
    else QuoteIdent(table)
  }

  // ---- Column types --------------------------------------------------------------------------------

  datatype ArrowType =
    | Int8 | Int16 | Int32 | Int64 | UInt8 | UInt16 | UInt32 | UInt64
    | Float16 | Float32 | Float64 | Boolean
    | Utf8 | LargeUtf8 | Utf8View
    | Binary | LargeBinary | BinaryView | FixedSizeBinary(width: int)
    | Date32 | Date64 | Timestamp(unit: Timestamps.TimeUnit, zone: Option<string>) | Decimal128(precision: nat, scale: int)
    | List(item: Field) | LargeList(item: Field)
    | Dictionary(key: ArrowType, value: ArrowType)
    | Unsupported

  datatype Field = Field(name: string, ty: ArrowType, nullable: bool, metadata: map<string, string>)

  const ExtensionName := "ARROW:extension:name"
  const ExtensionMetadata := "ARROW:extension:metadata"

  function Arrayed(element: Option<string>): Option<string> {
    if element.Some? then Some("ARRAY<" + element.value + ">") else None
  }

  /** `spanner_column_type`. */
  function ColumnType(ty: ArrowType): Option<string> {
    match ty
    case Int8 | Int16 | Int32 | Int64 | UInt8 | UInt16 | UInt32 => Some("INT64")
    case Float16 | Float32 => Some("FLOAT32")
    case Float64 => Some("FLOAT64")
    case Boolean => Some("BOOL")
    case Utf8 | LargeUtf8 | Utf8View => Some("STRING(MAX)")
    case Binary | LargeBinary | BinaryView | FixedSizeBinary(_) => Some("BYTES(MAX)")
    case Date32 | Date64 => Some("DATE")
    case Timestamp(_, _) => Some("TIMESTAMP")
    case Decimal128(_, _) => Some("NUMERIC")
    case List(item) => Arrayed(ColumnType(item.ty))
    case LargeList(item) => Arrayed(ColumnType(item.ty))
    case Dictionary(_, value) => ColumnType(value)
    case UInt64 | Unsupported => None
  }

  /** `is_json_field`: the tag counts on string storage only, seen through one dictionary. */
  predicate IsJson(field: Field) {
    var storage := if field.ty.Dictionary? then field.ty.value else field.ty;
    && (storage.Utf8? || storage.LargeUtf8? || storage.Utf8View?)
    && ExtensionName in field.metadata && field.metadata[ExtensionName] == "arrow.json"
  }

  /** `spanner_field_type`. */
  function FieldType(field: Field): Option<string>
    decreases field
  {
    if IsJson(field) then Some("JSON")
    else if field.ty.List? || field.ty.LargeList? then Arrayed(FieldType(field.ty.item))
    else ColumnType(field.ty)
  }

  // ---- The statement -------------------------------------------------------------------------------

  predicate Acceptable(field: Field) {
    FieldType(field).Some? && Quotable(field.name)
  }

  predicate AcceptableTable(schema: Option<string>, table: string) {
    Quotable(table) && (schema.Some? && schema.value != [] ==> Quotable(schema.value))
  }

  function ColumnText(field: Field): string
    requires Acceptable(field)
  {
    QuoteIdent(field.name).value + " " + FieldType(field).value
  }

  function JoinCommas(columns: seq<string>): string {
    if columns == [] then []
    else if |columns| == 1 then columns[0]
    else JoinCommas(columns[..|columns| - 1]) + ", " + columns[|columns| - 1]
  }

  predicate AllAcceptable(fields: seq<Field>) {
    forall i :: 0 <= i < |fields| ==> Acceptable(fields[i])
  }

  function ColumnTexts(fields: seq<Field>): seq<string>
    requires AllAcceptable(fields)
  {
    seq(|fields|, i requires 0 <= i < |fields| => ColumnText(fields[i]))
  }

  function Guard(ifNotExists: bool): string {
    if ifNotExists then "IF NOT EXISTS " else ""
  }

  function TableText(table: string, schema: Option<string>, fields: seq<Field>, ifNotExists: bool): string
    requires AcceptableTable(schema, table) && AllAcceptable(fields)
  {
    "CREATE TABLE " + Guard(ifNotExists) + QualifiedTable(schema, table).value + " (" + JoinCommas(ColumnTexts(fields)) + ")"
  }

  /** `create_table_sql`: refuses exactly the schemas with an unmappable type or an unquotable name. */
  method CreateTableSql(table: string, schema: Option<string>, fields: seq<Field>, ifNotExists: bool)
    returns (sql: Option<string>)
    ensures sql.Some? <==> AcceptableTable(schema, table) && AllAcceptable(fields)
    ensures sql.Some? ==> sql.value == TableText(table, schema, fields, ifNotExists)
    ensures sql.Some? ==> Split(sql.value) == [sql.value] && IsDdl(sql.value)
    ensures sql.Some? ==> NamesIn(sql.value) == TableNames(schema, table) + FieldNames(fields)
    ensures sql.Some? ==> Tokens(sql.value) == StatementTokens(table, schema, fields, ifNotExists)
  {
    hide Lex, IsDdl, Tokens, StatementTokens, FieldType, NamesIn, Split, Quotable, JoinCommas;
    var columns: seq<string> := [];
    var i := 0;
    while i < |fields|
      invariant 0 <= i <= |fields| == |fields[..i]| + |fields| - i && AllAcceptable(fields[..i])
      invariant columns == ColumnTexts(fields[..i])
    {
      var columnType, name := FieldType(fields[i]), QuoteIdent(fields[i].name);
      if columnType.None? || name.None? {
        return None;
      }
      columns := columns + [name.value + " " + columnType.value];
      i := i + 1;
    }
    assert fields[..i] == fields;
    var qualified := QualifiedTable(schema, table);
    if qualified.None? {
      return None;
    }
    TableTextReads(table, schema, fields, ifNotExists);
    return Some("CREATE TABLE " + Guard(ifNotExists) + qualified.value + " (" + JoinCommas(columns) + ")");
  }

  // ---- Reading it back -----------------------------------------------------------------------------

  /** The quoted names of a lexeme list, in order, without their quotes. */
  function Names(ls: seq<Lexeme>): seq<string> {
    if ls == [] then []
    else (if ls[0].Quoted? && |ls[0].text| >= 2 then [ls[0].text[1..|ls[0].text| - 1]] else []) + Names(ls[1..])
  }

  function NamesIn(sql: string): seq<string> {
    Names(Lex(sql))
  }

  function TableNames(schema: Option<string>, table: string): seq<string> {
    (if schema.Some? && schema.value != [] then [schema.value] else []) + [table]
  }

  function FieldNames(fields: seq<Field>): seq<string> {
    seq(|fields|, i requires 0 <= i < |fields| => fields[i].name)
  }

  /** The tokens of a text: its lexemes without comments and spaces. */
  function Tokens(s: string): seq<Lexeme> {
    Sig(Lex(s))
  }

  function Ident(name: string): Lexeme {
    Quoted("`" + name + "`")
  }

  function TableTokens(schema: Option<string>, table: string): seq<Lexeme> {
    (if schema.Some? && schema.value != [] then [Ident(schema.value), Other('.')] else []) + [Ident(table)]
  }

  /** Every column's name and type, with commas between. */
  function ColumnTokens(fields: seq<Field>): seq<Lexeme>
    requires AllAcceptable(fields)
  {
    if fields == [] then []
    else
      var most, last := fields[..|fields| - 1], fields[|fields| - 1];
      ColumnTokens(most) + (if most == [] then [] else [Other(',')]) + [Ident(last.name)] + Tokens(FieldType(last).value)
  }

  /** `CREATE TABLE [IF NOT EXISTS] table (columns)`. */
  function StatementTokens(table: string, schema: Option<string>, fields: seq<Field>, ifNotExists: bool): seq<Lexeme>
    requires AllAcceptable(fields)
  {
    [Word("CREATE"), Word("TABLE")] + (if ifNotExists then [Word("IF"), Word("NOT"), Word("EXISTS")] else [])
    + TableTokens(schema, table) + [Other('(')] + ColumnTokens(fields) + [Other(')')]
  }

  lemma {:induction false} NamesConcat(a: seq<Lexeme>, b: seq<Lexeme>)
    ensures Names(a + b) == Names(a) + Names(b)
  {
    if a == [] {
      assert a + b == b;
    } else {
      assert (a + b)[1..] == a[1..] + b;
      NamesConcat(a[1..], b);
    }
  }

  /** The lexemes generated text is made of: words, backticked names and separators. */
  predicate Tame(l: Lexeme) {
    match l
    case Word(_) => true
    case Quoted(text) => Closed(l) && text[0] == '`'
    case Comment(_) => false
    case Other(c) => c in " (),.<>"
  }

  /** A fragment that holds only tame lexemes, and these names. */
  predicate Spelt(s: string, names: seq<string>) {
    s != [] && (forall i :: 0 <= i < |Lex(s)| ==> Tame(Lex(s)[i])) && NamesIn(s) == names
  }

  lemma {:induction false} SpeltLast(s: string, names: seq<string>)
    requires Spelt(s, names)
    ensures Lex(s) != []
    ensures var l := Lex(s)[|Lex(s)| - 1]; Proper(l) && Tame(l) && (l.Word? ==> IsIdent(s[|s| - 1]))
  {
    hide Lex, Names, Coherent, Closed, First, IsIdent;
    var pre, last := LastText(s);
    assert Lex(s)[|Lex(s)| - 1] == last;
    assert s[|s| - 1] == last.Text()[|last.Text()| - 1];
    if last.Word? {
      WordEndsInIdent(last);
    }
  }

  /** Fragments concatenate unless a word would grow across the seam. */
  lemma {:induction false} SpeltConcat(a: string, b: string, m: seq<string>, n: seq<string>)
    requires Spelt(a, m) && Spelt(b, n)
    requires !IsIdent(a[|a| - 1]) || !IsIdent(b[0])
    ensures Lex(a + b) == Lex(a) + Lex(b)
    ensures Spelt(a + b, m + n) && Tokens(a + b) == Tokens(a) + Tokens(b)
  {
    hide Lex, Names, Sig;
    SpeltLast(a, m);
    Seam(a, b);
    NamesConcat(Lex(a), Lex(b));
    SigConcat(Lex(a), Lex(b));
  }

  /** A fragment without names in front of, or behind, another one. */
  lemma {:induction false} SpeltBefore(a: string, b: string, n: seq<string>)
    requires Spelt(a, []) && Spelt(b, n)
    requires !IsIdent(a[|a| - 1]) || !IsIdent(b[0])
    ensures Lex(a + b) == Lex(a) + Lex(b)
    ensures Spelt(a + b, n) && Tokens(a + b) == Tokens(a) + Tokens(b)
  {
    hide Lex, Spelt, Tokens;
    SpeltConcat(a, b, [], n);
    assert [] + n == n;
  }

  lemma {:induction false} SpeltAfter(a: string, b: string, m: seq<string>)
    requires Spelt(a, m) && Spelt(b, [])
    requires !IsIdent(a[|a| - 1]) || !IsIdent(b[0])
    ensures Spelt(a + b, m) && Tokens(a + b) == Tokens(a) + Tokens(b)
  {
    hide Lex, Spelt, Tokens;
    SpeltConcat(a, b, m, []);
    assert m + [] == m;
  }

  /** A word, a separator and a backticked name are one lexeme each. */
  lemma {:induction false} OneLexeme(l: Lexeme)
    requires Proper(l) && Tame(l)
    ensures Lex(l.Text()) == [l]
    ensures Spelt(l.Text(), Names([l])) && Tokens(l.Text()) == if l == Other(' ') then [] else [l]
  {
    hide Lex, Names, Closed, First, IsSpace;
    assert TextOf([l]) == l.Text() + [] == l.Text();
    LexOfText([l]);
    SeparatorsAreNoSpaces();
    assert [l][1..] == [] && Sig([]) == [];
  }

  lemma {:induction false} SeparatorsAreNoSpaces()
    ensures IsSpace(' ') && forall c :: c in "(),.<>" ==> !IsSpace(c)
  {
    SpaceIsPlain(' ');
  }

  lemma {:induction false} WordSpelt(w: string)
    requires w != [] && forall i :: 0 <= i < |w| ==> IsIdent(w[i])
    ensures Lex(w) == [Word(w)] && Spelt(w, []) && Tokens(w) == [Word(w)]
  {
    hide Lex, Tokens;
    WordExtent(w[1..], |w| - 1);
    OneLexeme(Word(w));
  }

  lemma {:induction false} SeparatorSpelt(c: char)
    requires c in " (),.<>"
    ensures Spelt([c], []) && Tokens([c]) == if c == ' ' then [] else [Other(c)]
  {
    hide Lex, Tokens;
    OneLexeme(Other(c));
  }

  lemma {:induction false} PlainExtent(name: string)
    requires forall i :: 0 <= i < |name| ==> name[i] != '`' && name[i] != '\\'
    ensures PlainBody(name + "`", '`') == Scan(|name| + 1, true)
  {
    if name != [] {
      assert (name + "`")[1..] == name[1..] + "`";
      PlainExtent(name[1..]);
    }
  }

  /** A quoted identifier is one lexeme, holding the identifier unchanged. */
  lemma {:induction false} IdentSpelt(name: string)
    requires Quotable(name)
    ensures Spelt("`" + name + "`", [name]) && Tokens("`" + name + "`") == [Ident(name)]
  {
    hide Lex, Names, Tokens, IsControl;
    var t := "`" + name + "`";
    assert t[1..] == name + "`";
    PlainExtent(name);
    assert t[..|t|] == t;
    OneLexeme(Quoted(t));
    NamesOfOne(name);
  }

  lemma {:induction false} NamesOfOne(name: string)
    ensures Names([Quoted("`" + name + "`")]) == [name]
  {
    var t := "`" + name + "`";
    assert t[1..|t| - 1] == name;
    assert Names([Quoted(t)]) == [name] + Names([]);
  }

  // ---- Types ---------------------------------------------------------------------------------------

  /** A fragment without names that begins with a word. */
  predicate TypeSpelt(s: string) {
    Spelt(s, []) && IsIdent(s[0])
  }

  lemma {:induction false} SizedSpelt(w: string)
    requires w != [] && forall i :: 0 <= i < |w| ==> IsIdent(w[i])
    ensures TypeSpelt(w + "(MAX)")
  {
    hide Lex, Spelt, Tokens;
    WordSpelt(w);
    WordSpelt("MAX");
    SeparatorSpelt('(');
    SeparatorSpelt(')');
    SpeltAfter(w, "(", []);
    SpeltAfter(w + "(", "MAX", []);
    SpeltAfter(w + "(" + "MAX", ")", []);
    assert w + "(" + "MAX" + ")" == w + "(MAX)";
  }

  lemma {:induction false} ArraySpelt(element: string)
    requires TypeSpelt(element)
    ensures TypeSpelt("ARRAY<" + element + ">")
  {
    hide Lex, Spelt, Tokens;
    WordSpelt("ARRAY");
    SeparatorSpelt('<');
    SeparatorSpelt('>');
    SpeltAfter("ARRAY", "<", []);
    assert "ARRAY" + "<" == "ARRAY<";
    SpeltAfter("ARRAY<", element, []);
    SpeltAfter("ARRAY<" + element, ">", []);
  }

  lemma {:induction false} WordTypeSpelt(t: string)
    requires t in ["INT64", "FLOAT32", "FLOAT64", "BOOL", "DATE", "TIMESTAMP", "NUMERIC"]
    ensures TypeSpelt(t)
  {
    hide Lex, Spelt;
    WordSpelt(t);
  }

  lemma {:induction false} ScalarTypeSpelt(ty: ArrowType)
    requires ColumnType(ty).Some? && !ty.List? && !ty.LargeList? && !ty.Dictionary?
    ensures TypeSpelt(ColumnType(ty).value)
  {
    hide TypeSpelt;
    SizedSpelt("STRING");
    SizedSpelt("BYTES");
    assert "STRING" + "(MAX)" == "STRING(MAX)" && "BYTES" + "(MAX)" == "BYTES(MAX)";
    var t := ColumnType(ty).value;
    if t != "STRING(MAX)" && t != "BYTES(MAX)" {
      WordTypeSpelt(t);
    }
  }

  lemma {:induction false} ColumnTypeSpelt(ty: ArrowType)
    requires ColumnType(ty).Some?
    ensures TypeSpelt(ColumnType(ty).value)
  {
    hide Lex, Spelt;
    match ty
    case List(item) =>
      ColumnTypeSpelt(item.ty);
      ArraySpelt(ColumnType(item.ty).value);
    case LargeList(item) =>
      ColumnTypeSpelt(item.ty);
      ArraySpelt(ColumnType(item.ty).value);
    case Dictionary(_, value) =>
      ColumnTypeSpelt(value);
    case _ =>
      ScalarTypeSpelt(ty);
  }

  lemma {:induction false} FieldTypeSpelt(field: Field)
    requires FieldType(field).Some?
    ensures TypeSpelt(FieldType(field).value)
    decreases field
  {
    hide Lex, Spelt;
    if IsJson(field) {
      WordSpelt("JSON");
    } else if field.ty.List? || field.ty.LargeList? {
      FieldTypeSpelt(field.ty.item);
      ArraySpelt(FieldType(field.ty.item).value);
    } else {
      ColumnTypeSpelt(field.ty);
    }
  }

  // ---- Printable text ------------------------------------------------------------------------------

  /** No control characters: nothing below U+0020 and nothing from U+007F to U+009F. */
  predicate Printable(s: string) {
    forall i :: 0 <= i < |s| ==> s[i] as int >= 0x20 && !(0x7F <= s[i] as int <= 0x9F)
  }

  lemma {:induction false} PrintableConcat(a: string, b: string)
    ensures Printable(a + b) <==> Printable(a) && Printable(b)
  {
    if Printable(a + b) {
      assert forall i :: 0 <= i < |a| ==> a[i] == (a + b)[i];
      assert forall i :: 0 <= i < |b| ==> b[i] == (a + b)[|a| + i];
    }
  }

  lemma {:induction false} ArrayPrintable(element: string)
    requires Printable(element)
    ensures Printable("ARRAY<" + element + ">")
  {
    PrintableConcat("ARRAY<", element);
    PrintableConcat("ARRAY<" + element, ">");
  }

  lemma {:induction false} ColumnTypePrintable(ty: ArrowType)
    requires ColumnType(ty).Some?
    ensures Printable(ColumnType(ty).value)
  {
    hide Printable;
    match ty
    case List(item) =>
      ColumnTypePrintable(item.ty);
      ArrayPrintable(ColumnType(item.ty).value);
    case LargeList(item) =>
      ColumnTypePrintable(item.ty);
      ArrayPrintable(ColumnType(item.ty).value);
    case Dictionary(_, value) =>
      ColumnTypePrintable(value);
    case _ =>
      ScalarTypePrintable(ty);
  }

  lemma {:induction false} ScalarTypePrintable(ty: ArrowType)
    requires ColumnType(ty).Some? && !ty.List? && !ty.LargeList? && !ty.Dictionary?
    ensures Printable(ColumnType(ty).value)
  {
  }

  lemma {:induction false} FieldTypePrintable(field: Field)
    requires FieldType(field).Some?
    ensures Printable(FieldType(field).value)
    decreases field
  {
    hide ColumnType;
    if !IsJson(field) {
      if field.ty.List? || field.ty.LargeList? {
        FieldTypePrintable(field.ty.item);
        ArrayPrintable(FieldType(field.ty.item).value);
      } else {
        ColumnTypePrintable(field.ty);
      }
    }
  }

  lemma {:induction false} ColumnPrintable(field: Field)
    requires Acceptable(field)
    ensures Printable(ColumnText(field))
  {
    hide FieldType;
    IdentPrintable(field.name);
    FieldTypePrintable(field);
    var name := "`" + field.name + "`";
    PrintableConcat(name, " ");
    PrintableConcat(name + " ", FieldType(field).value);
  }

  lemma {:induction false} IdentPrintable(name: string)
    requires Quotable(name)
    ensures Printable("`" + name + "`")
  {
    PrintableConcat("`", name);
    PrintableConcat("`" + name, "`");
  }

  lemma {:induction false} ColumnsPrintable(fields: seq<Field>)
    requires AllAcceptable(fields)
    ensures Printable(JoinCommas(ColumnTexts(fields)))
  {
    hide FieldType, Acceptable, ColumnText;
    if fields != [] {
      var k := |fields| - 1;
      var pre, last := JoinCommas(ColumnTexts(fields[..k])), ColumnText(fields[k]);
      ColumnPrintable(fields[k]);
      ColumnsPrintable(fields[..k]);
      assert ColumnTexts(fields)[..k] == ColumnTexts(fields[..k]);
      PrintableConcat(pre, ", ");
      PrintableConcat(pre + ", ", last);
    }
  }

  /** Generated text holds no control character: names are kept as they are, but those that hold one are refused. */
  lemma {:induction false} TablePrintable(table: string, schema: Option<string>, fields: seq<Field>, ifNotExists: bool)
    requires AcceptableTable(schema, table) && AllAcceptable(fields)
    ensures Printable(TableText(table, schema, fields, ifNotExists))
  {
    hide JoinCommas, ColumnTexts, Acceptable, Printable, Quotable;
    var columns, qualified := JoinCommas(ColumnTexts(fields)), QualifiedTable(schema, table).value;
    ColumnsPrintable(fields);
    QualifiedPrintable(schema, table);
    FixedPrintable(ifNotExists);
    PrintableConcat("CREATE TABLE ", Guard(ifNotExists));
    PrintableConcat("CREATE TABLE " + Guard(ifNotExists), qualified);
    PrintableConcat("CREATE TABLE " + Guard(ifNotExists) + qualified, " (");
    PrintableConcat("CREATE TABLE " + Guard(ifNotExists) + qualified + " (", columns);
    PrintableConcat("CREATE TABLE " + Guard(ifNotExists) + qualified + " (" + columns, ")");
  }

  lemma {:induction false} FixedPrintable(ifNotExists: bool)
    ensures Printable("CREATE TABLE ") && Printable(Guard(ifNotExists)) && Printable(" (") && Printable(")")
  {
  }

  lemma {:induction false} QualifiedPrintable(schema: Option<string>, table: string)
    requires AcceptableTable(schema, table)
    ensures Printable(QualifiedTable(schema, table).value)
  {
    hide Quotable;
    IdentPrintable(table);
    if schema.Some? && schema.value != [] {
      IdentPrintable(schema.value);
      PrintableConcat("`" + schema.value + "`", ".");
      PrintableConcat("`" + schema.value + "`" + ".", "`" + table + "`");
    }
  }

  // ---- The whole text -------------------------------------------------------------------------------

  lemma {:induction false} ColumnSpelt(field: Field)
    requires Acceptable(field)
    ensures Spelt(ColumnText(field), [field.name])
    ensures Tokens(ColumnText(field)) == [Ident(field.name)] + Tokens(FieldType(field).value)
    ensures ColumnText(field) != [] && ColumnText(field)[0] == '`'
  {
    hide Lex, Spelt, Tokens, FieldType, Quotable;
    IdentSpelt(field.name);
    SeparatorSpelt(' ');
    FieldTypeSpelt(field);
    var name := "`" + field.name + "`";
    SpeltAfter(name, " ", [field.name]);
    SpeltAfter(name + " ", FieldType(field).value, [field.name]);
  }

  lemma {:induction false} CommaSpelt()
    ensures Spelt(", ", []) && Tokens(", ") == [Other(',')]
  {
    hide Lex, Spelt, Tokens;
    SeparatorSpelt(',');
    SeparatorSpelt(' ');
    SpeltAfter(",", " ", []);
    assert "," + " " == ", ";
  }

  lemma {:induction false} ColumnsSpelt(fields: seq<Field>)
    requires fields != [] && AllAcceptable(fields)
    ensures Spelt(JoinCommas(ColumnTexts(fields)), FieldNames(fields))
    ensures Tokens(JoinCommas(ColumnTexts(fields))) == ColumnTokens(fields)
    ensures JoinCommas(ColumnTexts(fields)) != [] && JoinCommas(ColumnTexts(fields))[0] == '`'
  {
    hide Lex, Spelt, Tokens, Ident, Acceptable, ColumnText;
    var k := |fields| - 1;
    var last := fields[k];
    ColumnSpelt(last);
    if k == 0 {
      assert FieldNames(fields) == [last.name];
      OneColumnTokens(fields);
    } else {
      ColumnsSpelt(fields[..k]);
      ColumnAppended(fields);
    }
  }

  lemma {:induction false} OneColumnTokens(fields: seq<Field>)
    requires |fields| == 1 && AllAcceptable(fields)
    ensures ColumnTokens(fields) == [Ident(fields[0].name)] + Tokens(FieldType(fields[0]).value)
  {
    hide Tokens, Ident, FieldType;
    assert fields[..0] == [] && ColumnTokens([]) == [];
  }

  lemma {:induction false} ColumnAppended(fields: seq<Field>)
    requires |fields| > 1 && AllAcceptable(fields)
    requires var pre := fields[..|fields| - 1];
             && Spelt(JoinCommas(ColumnTexts(pre)), FieldNames(pre))
             && JoinCommas(ColumnTexts(pre)) != [] && JoinCommas(ColumnTexts(pre))[0] == '`'
             && Tokens(JoinCommas(ColumnTexts(pre))) == ColumnTokens(pre)
    ensures Spelt(JoinCommas(ColumnTexts(fields)), FieldNames(fields))
    ensures Tokens(JoinCommas(ColumnTexts(fields))) == ColumnTokens(fields)
    ensures JoinCommas(ColumnTexts(fields)) != [] && JoinCommas(ColumnTexts(fields))[0] == '`'
  {
    hide Lex, Spelt, Tokens, Ident, Acceptable, ColumnText, FieldType, IsIdent;
    var k := |fields| - 1;
    var pre, last := fields[..k], fields[k];
    ColumnSpelt(last);
    CommaSpelt();
    assert ColumnTexts(fields)[..k] == ColumnTexts(pre);
    var text, column := JoinCommas(ColumnTexts(pre)), ColumnText(last);
    PunctuationIsNoWord();
    SpeltAfter(text, ", ", FieldNames(pre));
    SpeltConcat(text + ", ", column, FieldNames(pre), [last.name]);
    assert FieldNames(fields) == FieldNames(pre) + [last.name];
    assert JoinCommas(ColumnTexts(fields)) == text + ", " + column;
    ColumnTokensStep(fields, Tokens(column));
  }

  lemma {:induction false} PunctuationIsNoWord()
    ensures forall c :: c in " (),.<>`" ==> !IsIdent(c)
  {
  }

  lemma {:induction false} ColumnTokensStep(fields: seq<Field>, column: seq<Lexeme>)
    requires |fields| > 1 && AllAcceptable(fields)
    requires column == [Ident(fields[|fields| - 1].name)] + Tokens(FieldType(fields[|fields| - 1]).value)
    ensures ColumnTokens(fields) == ColumnTokens(fields[..|fields| - 1]) + [Other(',')] + column
  {
    hide Tokens, Ident, FieldType;
    var pre := ColumnTokens(fields[..|fields| - 1]) + [Other(',')];
    var last := fields[|fields| - 1];
    assert pre + [Ident(last.name)] + Tokens(FieldType(last).value) == pre + column;
  }

  lemma {:induction false} TableSpelt(schema: Option<string>, table: string)
    requires AcceptableTable(schema, table)
    ensures Spelt(QualifiedTable(schema, table).value, TableNames(schema, table))
    ensures Tokens(QualifiedTable(schema, table).value) == TableTokens(schema, table)
    ensures QualifiedTable(schema, table).value[0] == '`'
  {
    hide Lex, Spelt, Tokens, Ident, Quotable;
    IdentSpelt(table);
    if schema.Some? && schema.value != [] {
      IdentSpelt(schema.value);
      SeparatorSpelt('.');
      var quoted := "`" + schema.value + "`";
      SpeltAfter(quoted, ".", [schema.value]);
      SpeltConcat(quoted + ".", "`" + table + "`", [schema.value], [table]);
    } else {
      assert TableNames(schema, table) == [table];
    }
  }

  lemma {:induction false} WordsSpelt(first: string, second: string)
    requires first != [] && forall i :: 0 <= i < |first| ==> IsIdent(first[i])
    requires second != [] && forall i :: 0 <= i < |second| ==> IsIdent(second[i])
    ensures Spelt(" " + second, []) && Spelt(first + " " + second, [])
    ensures Tokens(" " + second) == [Word(second)] && Tokens(first + " " + second) == [Word(first), Word(second)]
  {
    hide Lex, Spelt, Tokens;
    WordSpelt(first);
    WordSpelt(second);
    SeparatorSpelt(' ');
    SpeltAfter(" ", second, []);
    SpeltAfter(first, " " + second, []);
    assert first + (" " + second) == first + " " + second;
  }

  /** The text between the first word and the table name. */
  function Opening(ifNotExists: bool): string {
    " TABLE " + Guard(ifNotExists)
  }

  lemma {:induction false} OpeningSpelt(ifNotExists: bool)
    ensures Spelt(Opening(ifNotExists), [])
    ensures Tokens(Opening(ifNotExists)) == [Word("TABLE")] + if ifNotExists then [Word("IF"), Word("NOT"), Word("EXISTS")] else []
    ensures Opening(ifNotExists) != [] && Opening(ifNotExists)[0] == ' ' && Opening(ifNotExists)[|Opening(ifNotExists)| - 1] == ' '
  {
    hide Lex, Spelt, Tokens;
    SeparatorSpelt(' ');
    WordsSpelt("CREATE", "TABLE");
    assert " " + "TABLE" == " TABLE" && " TABLE" + " " == " TABLE ";
    SpeltAfter(" TABLE", " ", []);
    if ifNotExists {
      WordsSpelt("IF", "NOT");
      WordsSpelt("NOT", "EXISTS");
      SpeltAfter("IF" + " " + "NOT", " " + "EXISTS", []);
      assert "IF" + " " + "NOT" + (" " + "EXISTS") == "IF NOT EXISTS" && "IF NOT EXISTS" + " " == "IF NOT EXISTS ";
      SpeltAfter("IF NOT EXISTS", " ", []);
      SpeltAfter(" TABLE ", "IF NOT EXISTS ", []);
    } else {
      assert Opening(false) == " TABLE ";
    }
  }

  /** The parenthesised column list, from the blank before it on. A table may have no columns. */
  function Closing(fields: seq<Field>): string
    requires AllAcceptable(fields)
  {
    " (" + JoinCommas(ColumnTexts(fields)) + ")"
  }

  lemma {:induction false} ClosingSpelt(fields: seq<Field>)
    requires AllAcceptable(fields)
    ensures Spelt(Closing(fields), FieldNames(fields))
    ensures Tokens(Closing(fields)) == [Other('(')] + ColumnTokens(fields) + [Other(')')]
  {
    hide Lex, Spelt, Tokens, Acceptable, JoinCommas, ColumnTexts;
    SeparatorSpelt(' ');
    SeparatorSpelt('(');
    SeparatorSpelt(')');
    SpeltAfter(" ", "(", []);
    assert " " + "(" == " (";
    var columns := JoinCommas(ColumnTexts(fields));
    if fields == [] {
      SpeltAfter(" (", ")", []);
      NoColumns();
      assert FieldNames(fields) == [];
      assert " (" + [] + ")" == " (" + ")";
    } else {
      ColumnsSpelt(fields);
      SpeltBefore(" (", columns, FieldNames(fields));
      SpeltAfter(" (" + columns, ")", FieldNames(fields));
    }
  }

  lemma {:induction false} NoColumns()
    ensures JoinCommas(ColumnTexts([])) == []
  {
  }

  /** The text after its first word. */
  function Body(table: string, schema: Option<string>, fields: seq<Field>, ifNotExists: bool): string
    requires AcceptableTable(schema, table) && AllAcceptable(fields)
  {
    Opening(ifNotExists) + QualifiedTable(schema, table).value + Closing(fields)
  }

  lemma {:induction false} BodySpelt(table: string, schema: Option<string>, fields: seq<Field>, ifNotExists: bool)
    requires AcceptableTable(schema, table) && AllAcceptable(fields)
    ensures Spelt(Body(table, schema, fields, ifNotExists), TableNames(schema, table) + FieldNames(fields))
    ensures [Word("CREATE")] + Tokens(Body(table, schema, fields, ifNotExists)) == StatementTokens(table, schema, fields, ifNotExists)
    ensures var body := Body(table, schema, fields, ifNotExists);
            body != [] && body[0] == ' ' && body[|body| - 1] == ')'
  {
    hide Lex, Spelt, Tokens, TableTokens, ColumnTokens, Acceptable, JoinCommas, ColumnTexts, Quotable, Opening, Guard;
    OpeningSpelt(ifNotExists);
    TableSpelt(schema, table);
    ClosingSpelt(fields);
    var opening, qualified := Opening(ifNotExists), QualifiedTable(schema, table).value;
    SpeltBefore(opening, qualified, TableNames(schema, table));
    SpeltConcat(opening + qualified, Closing(fields), TableNames(schema, table), FieldNames(fields));
  }

  /** Generated text is exactly one statement, is DDL, and its tokens are the statement's, so its quoted lexemes are
      the schema, table and column names in order and unchanged. */
  lemma {:induction false} TableTextReads(table: string, schema: Option<string>, fields: seq<Field>, ifNotExists: bool)
    requires AcceptableTable(schema, table) && AllAcceptable(fields)
    ensures var sql := TableText(table, schema, fields, ifNotExists);
            && Split(sql) == [sql] && IsDdl(sql) && NamesIn(sql) == TableNames(schema, table) + FieldNames(fields)
            && Tokens(sql) == StatementTokens(table, schema, fields, ifNotExists)
  {
    hide Lex, Tokens, StatementTokens, Body, TableText, Acceptable, Spelt, NamesIn, Split, IsDdl, TableNames, FieldNames;
    BodySpelt(table, schema, fields, ifNotExists);
    CreatedReads(Body(table, schema, fields, ifNotExists), TableNames(schema, table) + FieldNames(fields));
    TableTextParts(table, schema, fields, ifNotExists);
  }

  lemma {:induction false} ParenthesisIsNoSpace()
    ensures !IsSpace(')')
  {
  }

  lemma {:induction false} CreatedReads(body: string, names: seq<string>)
    requires Spelt(body, names) && body[0] == ' ' && body[|body| - 1] == ')'
    ensures var sql := "CREATE" + body; Split(sql) == [sql] && IsDdl(sql) && NamesIn(sql) == names
    ensures Tokens("CREATE" + body) == [Word("CREATE")] + Tokens(body)
  {
    hide Lex, Tokens, NamesIn, Split, Tame, IsDdl, HasStatement, IsSpace;
    WordSpelt("CREATE");
    SpeltBefore("CREATE", body, names);
    CreateIsDdl(body);
    SpaceIsPlain('C');
    ParenthesisIsNoSpace();
    SpeltIsStatement("CREATE" + body, names);
    SplitOfStatement("CREATE" + body);
  }

  lemma {:induction false} TableTextParts(table: string, schema: Option<string>, fields: seq<Field>, ifNotExists: bool)
    requires AcceptableTable(schema, table) && AllAcceptable(fields)
    ensures TableText(table, schema, fields, ifNotExists) == "CREATE" + Body(table, schema, fields, ifNotExists)
  {
    hide JoinCommas, ColumnTexts, Quotable, Guard, Acceptable;
    var guard, qualified, closing := Guard(ifNotExists), QualifiedTable(schema, table).value, Closing(fields);
    assert "CREATE TABLE " == "CREATE" + " TABLE ";
    assert "CREATE TABLE " + guard + qualified + closing == "CREATE" + (" TABLE " + guard + qualified + closing);
    assert TableText(table, schema, fields, ifNotExists) == "CREATE TABLE " + guard + qualified + closing;
  }

  lemma {:induction false} SpeltIsStatement(sql: string, names: seq<string>)
    requires Spelt(sql, names) && Trimmed(sql) && HasStatement(Lex(sql))
    ensures IsStatement(sql)
  {
    hide Lex, HasStatement, NamesIn;
  }

  lemma {:induction false} CreateIsDdl(body: string)
    requires Lex("CREATE" + body) == [Word("CREATE")] + Lex(body)
    ensures IsDdl("CREATE" + body) && HasStatement(Lex("CREATE" + body))
  {
    hide Lex;
    var ls := Lex("CREATE" + body);
    assert Significant(ls[0]);
    assert Sig(ls) == [Word("CREATE")] + Sig(ls[1..]);
    LetterExtent("CREATE", 6);
    assert "CREATE"[..6] == "CREATE";
    assert KeywordOf("CREATE" + body) == Some(DdlKeywords[0]);
  }
}
