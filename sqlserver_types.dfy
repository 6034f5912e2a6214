/** The SQL Server type mapping in both directions: a native type name and its parameters read
    as an abstract ADQL type, and an abstract type written as a native column declaration. */
module SQLServerTypes {
  import opened Wrappers
  import opened JavaStrings
  import opened AdqlTree

  /** The length written for character and binary types declared without one. */
  const DEFAULT_VARIABLE_LENGTH: nat := 2048

  /** The length parameter: the first parameter parsed as an int, or NO_LENGTH when there is
      none or it does not parse. */
  function LengthParameter(params: Option<seq<string>>): (len: int)
    ensures params.None? || |params.value| == 0 ==> len == NO_LENGTH
    ensures params.Some? && |params.value| > 0 && ParseInt(params.value[0]).Some? ==>
              len == ParseInt(params.value[0]).value
    ensures params.Some? && |params.value| > 0 && ParseInt(params.value[0]).None? ==> len == NO_LENGTH
  {
    if params.Some? && |params.value| > 0 then
      match ParseInt(params.value[0])
      case Some(v) => v
      case None => NO_LENGTH
    else NO_LENGTH
  }

  /** A type without length. */
  function Unsized(tag: DbDatatype): DbType
  {
    DbType(tag, NO_LENGTH)
  }

  /** The native names of the timestamp family. */
  predicate IsTimestampName(name: string)
  {
    name == "timestamp" || name == "datetime" || name == "datetime2" || name == "datetimeoffset"
    || name == "smalldatetime" || name == "time" || name == "date"
  }

  /** The abstract type of a lower-cased native name, given the parsed length. */
  function TypeOfName(name: string, lengthParam: int): Option<DbType>
  {
    if name == "smallint" || name == "tinyint" || name == "bit" then Some(Unsized(SMALLINT))
    else if name == "int" then Some(Unsized(INTEGER))
    else if name == "bigint" || name == "unsigned bigint" then Some(Unsized(BIGINT))
    else if name == "real" || (name == "float" && 1 <= lengthParam <= 24) then Some(Unsized(REAL))
    else if name == "float" || name == "decimal" || name == "numeric" then Some(Unsized(DOUBLE))
    else if name == "binary" then Some(DbType(BINARY, lengthParam))
    else if name == "varbinary" then Some(DbType(VARBINARY, lengthParam))
    else if name == "char" || name == "nchar" then Some(DbType(CHAR, lengthParam))
    else if name == "varchar" || name == "nvarchar" then Some(DbType(VARCHAR, lengthParam))
    else if name == "image" then Some(Unsized(BLOB))
    else if name == "text" || name == "ntext" then Some(Unsized(CLOB))
    else if IsTimestampName(name) then Some(Unsized(TIMESTAMP))
    else None
  }

  /** convertTypeFromDB. The JDBC type code and the raw type name are not consulted; a null or
      blank name gives null, and the name is compared in lower case. */
  function ConvertTypeFromDB(dbmsType: int, rawDbmsTypeName: string, dbmsTypeName: Option<string>,
                             params: Option<seq<string>>): (r: Option<DbType>)
    ensures dbmsTypeName.None? || IsBlank(dbmsTypeName.value) ==> r.None?
    ensures dbmsTypeName.Some? && !IsBlank(dbmsTypeName.value) ==>
              r == TypeOfName(ToLowerCase(dbmsTypeName.value), LengthParameter(params))
  {
    if dbmsTypeName.None? || IsBlank(dbmsTypeName.value) then None
    else TypeOfName(ToLowerCase(dbmsTypeName.value), LengthParameter(params))
  }

  /** The enumeration name of an abstract datatype. */
  function TagName(tag: DbDatatype): string
  {
    match tag
    case SMALLINT => "SMALLINT" case INTEGER => "INTEGER" case BIGINT => "BIGINT" case REAL => "REAL"
    case DOUBLE => "DOUBLE" case BINARY => "BINARY" case VARBINARY => "VARBINARY" case CHAR => "CHAR"
    case VARCHAR => "VARCHAR" case BLOB => "BLOB" case CLOB => "CLOB" case TIMESTAMP => "TIMESTAMP"
    case POINT => "POINT" case REGION => "REGION" case UNKNOWN => "UNKNOWN"
    case UNKNOWN_NUMERIC => "UNKNOWN_NUMERIC"
  }

  /** The types declared with a length. */
  predicate Sized(tag: DbDatatype)
  {
    tag == CHAR || tag == VARCHAR || tag == BINARY || tag == VARBINARY
  }

  /** The length a sized type is declared with. */
  function DeclaredLength(length: int): (n: nat)
    ensures n > 0
    ensures length > 0 ==> n == length
    ensures length <= 0 ==> n == DEFAULT_VARIABLE_LENGTH
  {
    if length > 0 then length else DEFAULT_VARIABLE_LENGTH
  }

  /** convertTypeToDB. Every declaration written is a name, optionally followed by a
      parenthesised decimal length: the rendering of DeclarationOf. */
  function ConvertTypeToDB(t: Option<DbType>): (r: string)
    ensures r == Render(DeclarationOf(t))
  {
    if t.None? then "varchar(" + NatToString(DEFAULT_VARIABLE_LENGTH) + ")"
    else
      TagNamesInLowerCase();
      match t.value.tag
      case SMALLINT => ToLowerCase(TagName(t.value.tag))
      case REAL => ToLowerCase(TagName(t.value.tag))
      case BIGINT => ToLowerCase(TagName(t.value.tag))
      case CHAR => TagName(t.value.tag) + "(" + NatToString(DeclaredLength(t.value.length)) + ")"
      case VARCHAR => TagName(t.value.tag) + "(" + NatToString(DeclaredLength(t.value.length)) + ")"
      case BINARY => TagName(t.value.tag) + "(" + NatToString(DeclaredLength(t.value.length)) + ")"
      case VARBINARY => TagName(t.value.tag) + "(" + NatToString(DeclaredLength(t.value.length)) + ")"
      case INTEGER => "int"
      case DOUBLE => assert NatToString(53) == "53"; "float(53)"
      case TIMESTAMP => "datetime"
      case BLOB => "image"
      case CLOB => "text"
      case _ => "varchar"
  }

  // ---------------------------------------------------------------- reading a declaration back

  /** A native declaration: a type name with an optional length argument. */
  datatype Declaration = Declaration(name: string, length: Option<nat>)

  function Render(d: Declaration): string
  {
    d.name + (if d.length.Some? then "(" + NatToString(d.length.value) + ")" else "")
  }

  /** The parameters a DBMS would report for a declaration. */
  function Params(d: Declaration): Option<seq<string>>
  {
    if d.length.Some? then Some([NatToString(d.length.value)]) else None
  }

  /** The declaration convertTypeToDB writes, split into name and length. */
  function DeclarationOf(t: Option<DbType>): Declaration
  {
    if t.None? then Declaration("varchar", Some(DEFAULT_VARIABLE_LENGTH))
    else
      match t.value.tag
      case SMALLINT => Declaration("smallint", None)
      case REAL => Declaration("real", None)
      case BIGINT => Declaration("bigint", None)
      case CHAR => Declaration("CHAR", Some(DeclaredLength(t.value.length)))
      case VARCHAR => Declaration("VARCHAR", Some(DeclaredLength(t.value.length)))
      case BINARY => Declaration("BINARY", Some(DeclaredLength(t.value.length)))
      case VARBINARY => Declaration("VARBINARY", Some(DeclaredLength(t.value.length)))
      case INTEGER => Declaration("int", None)
      case DOUBLE => Declaration("float", Some(53))
      case TIMESTAMP => Declaration("datetime", None)
      case BLOB => Declaration("image", None)
      case CLOB => Declaration("text", None)
      case _ => Declaration("varchar", None)
  }

  /** The lower-case spellings of the enumeration names that are written or read lower-cased. */
  lemma TagNamesInLowerCase()
    ensures ToLowerCase("SMALLINT") == "smallint" && ToLowerCase("REAL") == "real"
    ensures ToLowerCase("BIGINT") == "bigint" && ToLowerCase("CHAR") == "char"
    ensures ToLowerCase("VARCHAR") == "varchar" && ToLowerCase("BINARY") == "binary"
    ensures ToLowerCase("VARBINARY") == "varbinary"
  {
  }

  /** What reading a written declaration back gives: the same type, with the length it was
      declared with for sized types; POINT, REGION and unknown types come back as a VARCHAR
      without length, and a missing type as VARCHAR(2048). */
  function ReadBack(t: Option<DbType>): DbType
  {
    if t.None? then DbType(VARCHAR, DEFAULT_VARIABLE_LENGTH)
    else if Sized(t.value.tag) then DbType(t.value.tag, DeclaredLength(t.value.length))
    else if t.value.tag in {SMALLINT, INTEGER, BIGINT, REAL, DOUBLE, TIMESTAMP, BLOB, CLOB} then Unsized(t.value.tag)
    else Unsized(VARCHAR)
  }

  /** Reading a declaration back: its name in lower case, its length as the one parameter. */
  function ReadDeclaration(d: Declaration): Option<DbType>
  {
    ConvertTypeFromDB(0, d.name, Some(d.name), Params(d))
  }

  /** Writing a type and reading the declaration back loses nothing but what ReadBack says. */
  lemma RoundTrip(t: Option<DbType>)
    requires t.Some? ==> t.value.length <= MAX_INT
    ensures ReadDeclaration(DeclarationOf(t)) == Some(ReadBack(t))
  {
    var d := DeclarationOf(t);
    DeclarationShape(t);
    NotBlank(d.name);
    ParamsLength(d);
    var len := LengthParameter(Params(d));
    if t.Some? && Sized(t.value.tag) {
      RoundTripSized(t.value, len);
    } else {
      ToLowerCaseOfLower(d.name);
      RoundTripUnsized(t, len);
    }
  }

  lemma DeclarationShape(t: Option<DbType>)
    requires t.Some? ==> t.value.length <= MAX_INT
    ensures var d := DeclarationOf(t);
            && |d.name| > 0 && d.name[0] > ' '
            && (d.length.Some? ==> d.length.value <= MAX_INT)
            && (t.None? ==> d.length == Some(DEFAULT_VARIABLE_LENGTH))
            && (t.Some? && Sized(t.value.tag) ==> d.length == Some(DeclaredLength(t.value.length)))
            && (t.Some? && t.value.tag == DOUBLE ==> d.length == Some(53))
            && (t.Some? && !Sized(t.value.tag) && t.value.tag != DOUBLE ==> d.length.None?)
            && (t.None? || !Sized(t.value.tag) ==> forall i :: 0 <= i < |d.name| ==> !('A' <= d.name[i] <= 'Z'))
  {
  }

  /** The length parameter of a declaration is its length, or NO_LENGTH without one. */
  lemma ParamsLength(d: Declaration)
    requires d.length.Some? ==> d.length.value <= MAX_INT
    ensures LengthParameter(Params(d)) == if d.length.Some? then d.length.value else NO_LENGTH
  {
    if d.length.Some? {
      ParseIntOfNatToString(d.length.value);
    }
  }

  lemma RoundTripSized(t: DbType, len: int)
    requires Sized(t.tag) && len == DeclaredLength(t.length)
    ensures TypeOfName(ToLowerCase(DeclarationOf(Some(t)).name), len) == Some(ReadBack(Some(t)))
  {
    TagNamesInLowerCase();
  }

  lemma RoundTripUnsized(t: Option<DbType>, len: int)
    requires t.Some? ==> !Sized(t.value.tag)
    requires t.None? ==> len == DEFAULT_VARIABLE_LENGTH
    requires t.Some? && t.value.tag == DOUBLE ==> len == 53
    requires t.Some? && t.value.tag != DOUBLE ==> len == NO_LENGTH
    ensures TypeOfName(DeclarationOf(t).name, len) == Some(ReadBack(t))
  {
  }

  lemma NotBlank(s: string)
    requires |s| > 0 && s[0] > ' '
    ensures !IsBlank(s)
  {
    BlankIff(s);
  }

  // ---------------------------------------------------------------- properties of the mapping

  /** The mapping ignores the case of the name. */
  lemma FromDBIgnoresCase(dbmsType: int, raw: string, name: string, params: Option<seq<string>>)
    ensures ConvertTypeFromDB(dbmsType, raw, Some(name), params)
            == ConvertTypeFromDB(dbmsType, raw, Some(ToLowerCase(name)), params)
  {
    BlankIgnoresCase(name);
    ToLowerCaseIdempotent(name);
  }

  /** `float` is REAL for a precision of 1 to 24 and DOUBLE otherwise (a missing or unparsable
      precision included), whatever its case. */
  lemma FloatPrecision(name: string, params: Option<seq<string>>)
    requires ToLowerCase(name) == "float"
    ensures var len := LengthParameter(params);
            ConvertTypeFromDB(0, name, Some(name), params)
            == Some(Unsized(if 1 <= len <= 24 then REAL else DOUBLE))
  {
    assert name[0] > ' ' by { assert ToLowerCase(name)[0] == 'f'; }
    NotBlank(name);
  }

  /** Types declared with a length take it from the first parameter, or NO_LENGTH when it is
      missing or does not parse. */
  lemma SizedTypesKeepTheirLength(name: string, params: Option<seq<string>>)
    requires ToLowerCase(name) in {"binary", "varbinary", "char", "nchar", "varchar", "nvarchar"}
    ensures ConvertTypeFromDB(0, name, Some(name), params).Some?
    ensures ConvertTypeFromDB(0, name, Some(name), params).value.length == LengthParameter(params)
    ensures params.None? ==> ConvertTypeFromDB(0, name, Some(name), params).value.length == NO_LENGTH
  {
    assert |name| > 0 && name[0] > ' ' by {
      assert LowerChar(name[0]) == ToLowerCase(name)[0];
    }
    NotBlank(name);
    SizedNames(ToLowerCase(name), LengthParameter(params));
  }

  lemma SizedNames(lower: string, len: int)
    requires lower in {"binary", "varbinary", "char", "nchar", "varchar", "nvarchar"}
    ensures TypeOfName(lower, len).Some? && TypeOfName(lower, len).value.length == len
  {
  }

  /** The lower-cased names the mapping recognises. */
  const RECOGNISED_NAMES: set<string> :=
    {"smallint", "tinyint", "bit", "int", "bigint", "unsigned bigint", "real", "float", "decimal",
     "numeric", "binary", "varbinary", "char", "nchar", "varchar", "nvarchar", "image", "text",
     "ntext", "timestamp", "datetime", "datetime2", "datetimeoffset", "smalldatetime", "time", "date"}

  /** A name that is not one of the recognised ones, in any case, gives null. */
  lemma UnknownNameIsNull(dbmsType: int, raw: string, name: string, params: Option<seq<string>>)
    requires ToLowerCase(name) !in RECOGNISED_NAMES
    ensures ConvertTypeFromDB(dbmsType, raw, Some(name), params).None?
  {
    if !IsBlank(name) {
      UnrecognisedName(ToLowerCase(name), LengthParameter(params));
    }
  }

  /** A non-blank recognised name, in any case, always gives a type. */
  lemma KnownNameHasType(dbmsType: int, raw: string, name: string, params: Option<seq<string>>)
    requires !IsBlank(name) && ToLowerCase(name) in RECOGNISED_NAMES
    ensures ConvertTypeFromDB(dbmsType, raw, Some(name), params).Some?
  {
    RecognisedName(ToLowerCase(name), LengthParameter(params));
  }

  lemma UnrecognisedName(lower: string, len: int)
    requires lower !in RECOGNISED_NAMES
    ensures TypeOfName(lower, len).None?
  {
  }

  lemma RecognisedName(lower: string, len: int)
    requires lower in RECOGNISED_NAMES
    ensures TypeOfName(lower, len).Some?
  {
  }

  /** A sized type is always declared with a positive length, its own when it has one. */
  lemma SizedDeclarations(t: DbType)
    requires Sized(t.tag)
    ensures ConvertTypeToDB(Some(t)) == TagName(t.tag) + "(" + NatToString(DeclaredLength(t.length)) + ")"
    ensures t.length > 0 ==> ConvertTypeToDB(Some(t)) == TagName(t.tag) + "(" + NatToString(t.length) + ")"
    ensures t.length <= 0 ==> ConvertTypeToDB(Some(t)) == TagName(t.tag) + "(2048)"
  {
    assert NatToString(2048) == "2048";
  }

  /** Geometries and unrecognised types are declared as a bare `varchar`; a missing type as
      `varchar(2048)`. */
  lemma FallbackDeclarations(t: DbType)
    requires t.tag in {POINT, REGION, UNKNOWN, UNKNOWN_NUMERIC}
    ensures ConvertTypeToDB(Some(t)) == "varchar"
    ensures ConvertTypeToDB(None) == "varchar(2048)"
  {
    assert NatToString(2048) == "2048";
  }
}
