/** The column types an ingest creates, against the Arrow types the read path gives those columns. */
module IngestTypes {
  import opened Wrappers
  import opened Ddl
  import opened Timestamps

  datatype SpannerType =
    | SqlInt64 | SqlFloat32 | SqlFloat64 | SqlBool | SqlString | SqlBytes | SqlDate | SqlTimestamp | SqlNumeric | SqlJson
    | SqlArray(element: SpannerType)

  function TypeText(t: SpannerType): string {
    match t
    case SqlInt64 => "INT64"
    case SqlFloat32 => "FLOAT32"
    case SqlFloat64 => "FLOAT64"
    case SqlBool => "BOOL"
    case SqlString => "STRING(MAX)"
    case SqlBytes => "BYTES(MAX)"
    case SqlDate => "DATE"
    case SqlTimestamp => "TIMESTAMP"
    case SqlNumeric => "NUMERIC"
    case SqlJson => "JSON"
    case SqlArray(element) => "ARRAY<" + TypeText(element) + ">"
  }

  /** No two types have the same text. */
  lemma {:induction false} TypeTextUnique(a: SpannerType, b: SpannerType)
    requires TypeText(a) == TypeText(b)
    ensures a == b
  {
    var s := TypeText(a);
    if a.SqlArray? && b.SqlArray? {
      assert s[6..|s| - 1] == TypeText(a.element) && s[6..|s| - 1] == TypeText(b.element);
      TypeTextUnique(a.element, b.element);
    } else {
      Marks(a);
      Marks(b);
    }
  }

  /** What tells the texts of different types apart. */
  lemma {:induction false} Marks(t: SpannerType)
    ensures var s := TypeText(t);
            && |s| >= 4 && s[0] in "IFBSDTNJA"
            && (s[0] == 'I' <==> t.SqlInt64?) && (s[0] == 'F' <==> t.SqlFloat32? || t.SqlFloat64?)
            && (s[0] == 'B' <==> t.SqlBool? || t.SqlBytes?) && (s[0] == 'S' <==> t.SqlString?)
            && (s[0] == 'D' <==> t.SqlDate?) && (s[0] == 'T' <==> t.SqlTimestamp?) && (s[0] == 'N' <==> t.SqlNumeric?)
            && (s[0] == 'J' <==> t.SqlJson?) && (s[0] == 'A' <==> t.SqlArray?)
            && (t.SqlFloat32? ==> s == "FLOAT32") && (t.SqlFloat64? ==> s == "FLOAT64" && s[5] == '6')
            && (t.SqlBool? ==> |s| == 4) && (t.SqlBytes? ==> |s| == 10)
  {
  }

  datatype Precision = NanosecondsErrorOnOverflow | Microseconds
  {
    function Unit(): TimeUnit {
      if NanosecondsErrorOnOverflow? then Nanosecond else Microsecond
    }
  }

  const JsonMetadata := map[ExtensionName := "arrow.json", ExtensionMetadata := ""]

  /** `arrow_field` for a result column or a list item: always nullable, and tagged only when JSON. */
  function ReadField(name: string, t: SpannerType, precision: Precision): Field {
    Field(name, ReadType(t, precision), true, if t.SqlJson? then JsonMetadata else map[])
  }

  /** `arrow_type`. An array of arrays falls back to text. */
  function ReadType(t: SpannerType, precision: Precision): ArrowType {
    match t
    case SqlInt64 => Int64
    case SqlFloat32 => Float32
    case SqlFloat64 => Float64
    case SqlBool => Boolean
    case SqlString => Utf8
    case SqlBytes => Binary
    case SqlDate => Date32
    case SqlTimestamp => Timestamp(precision.Unit(), Some("UTC"))
    case SqlNumeric => Decimal128(38, 9)
    case SqlJson => Utf8
    case SqlArray(element) =>
      if element.SqlArray? then Utf8
      else List(Field("item", ReadType(element, precision), true, if element.SqlJson? then JsonMetadata else map[]))
  }

  /** The fields that read back as they were ingested: nullable at every depth, carrying no metadata but the
      JSON tag on text, and of the read path's own type for their column: timestamps in UTC at the
      connection's precision, list items named as the read path names them, no list directly in a list. */
  predicate ReadsBack(f: Field, precision: Precision) {
    f.nullable &&
    match f.ty
    case Utf8 => f.metadata == map[] || f.metadata == JsonMetadata
    case Int64 | Float32 | Float64 | Boolean | Binary | Date32 => f.metadata == map[]
    case Timestamp(unit, zone) => f.metadata == map[] && unit == precision.Unit() && zone == Some("UTC")
    case Decimal128(digits, scale) => f.metadata == map[] && digits == 38 && scale == 9
    case List(item) => f.metadata == map[] && item.name == "item" && !item.ty.List? && ReadsBack(item, precision)
    case _ => false
  }

  function ArrayOf(element: Option<SpannerType>): Option<SpannerType> {
    if element.Some? then Some(SqlArray(element.value)) else None
  }

  function ColumnSqlType(ty: ArrowType): Option<SpannerType> {
    match ty
    case Int8 | Int16 | Int32 | Int64 | UInt8 | UInt16 | UInt32 => Some(SqlInt64)
    case Float16 | Float32 => Some(SqlFloat32)
    case Float64 => Some(SqlFloat64)
    case Boolean => Some(SqlBool)
    case Utf8 | LargeUtf8 | Utf8View => Some(SqlString)
    case Binary | LargeBinary | BinaryView | FixedSizeBinary(_) => Some(SqlBytes)
    case Date32 | Date64 => Some(SqlDate)
    case Timestamp(_, _) => Some(SqlTimestamp)
    case Decimal128(_, _) => Some(SqlNumeric)
    case List(item) => ArrayOf(ColumnSqlType(item.ty))
    case LargeList(item) => ArrayOf(ColumnSqlType(item.ty))
    case Dictionary(_, value) => ColumnSqlType(value)
    case UInt64 | Unsupported => None
  }

  function FieldSqlType(f: Field): Option<SpannerType>
    decreases f
  {
    if IsJson(f) then Some(SqlJson)
    else if f.ty.List? || f.ty.LargeList? then ArrayOf(FieldSqlType(f.ty.item))
    else ColumnSqlType(f.ty)
  }

  function TextOfType(t: Option<SpannerType>): Option<string> {
    if t.Some? then Some(TypeText(t.value)) else None
  }

  lemma {:induction false} ColumnTypeSpells(ty: ArrowType)
    ensures ColumnType(ty) == TextOfType(ColumnSqlType(ty))
  {
    match ty
    case List(item) => ColumnTypeSpells(item.ty);
    case LargeList(item) => ColumnTypeSpells(item.ty);
    case Dictionary(_, value) => ColumnTypeSpells(value);
    case _ =>
  }

  /** The generated type text spells exactly one Spanner type, or is refused. */
  lemma {:induction false} FieldTypeSpells(f: Field)
    ensures FieldType(f) == TextOfType(FieldSqlType(f))
    decreases f
  {
    if !IsJson(f) {
      if f.ty.List? || f.ty.LargeList? {
        FieldTypeSpells(f.ty.item);
      } else {
        ColumnTypeSpells(f.ty);
      }
    }
  }

  /** A created column reads back as exactly the ingested field if and only if `ReadsBack` holds of it. */
  lemma {:induction false} ReadsBackExactly(f: Field, t: SpannerType, precision: Precision)
    requires FieldType(f) == Some(TypeText(t))
    ensures ReadField(f.name, t, precision) == f <==> ReadsBack(f, precision)
    decreases f
  {
    hide TypeText, FieldType;
    FieldTypeSpells(f);
    TypeTextUnique(FieldSqlType(f).value, t);
    JsonTagged(f);
    if !IsJson(f) && (f.ty.List? || f.ty.LargeList?) {
      FieldTypeSpells(f.ty.item);
      ReadsBackExactly(f.ty.item, t.element, precision);
    }
  }

  lemma {:induction false} JsonTagged(f: Field)
    ensures f.metadata == JsonMetadata && f.ty.Utf8? ==> IsJson(f)
    ensures f.metadata == map[] ==> !IsJson(f)
  {
  }

  /** Accepted fields that do not read back as they were: a narrower integer, a timestamp without a zone, and
      a column that is not nullable. */
  lemma {:induction false} WidenedOnReadBack(name: string, precision: Precision)
    ensures var narrow, local, required := Field(name, Int32, true, map[]),
              Field(name, Timestamp(Second, None), true, map[]), Field(name, Int64, false, map[]);
            && FieldType(narrow) == Some(TypeText(SqlInt64)) && ReadField(name, SqlInt64, precision) != narrow
            && FieldType(local) == Some(TypeText(SqlTimestamp)) && ReadField(name, SqlTimestamp, precision) != local
            && FieldType(required) == Some(TypeText(SqlInt64)) && ReadField(name, SqlInt64, precision) != required
  {
    FieldTypeSpells(Field(name, Int32, true, map[]));
    FieldTypeSpells(Field(name, Timestamp(Second, None), true, map[]));
    FieldTypeSpells(Field(name, Int64, false, map[]));
  }
}
