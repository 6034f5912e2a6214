/** The parts of the already-parsed ADQL query tree, and of the database metadata attached to it,
    that the SQL Server translator reads. The tree is produced upstream and never changed here. */
module AdqlTree {
  import opened Wrappers

  /** The ADQL mathematical functions. */
  datatype MathFunctionType =
    | ABS | CEILING | DEGREES | EXP | FLOOR | LOG | LOG10 | MOD | PI | POWER | RADIANS
    | SQRT | TRUNCATE | RAND | ROUND | ACOS | ASIN | ATAN | ATAN2 | COS | COT | SIN | TAN

  /** Database metadata of a column: its ADQL name and its name in the database. */
  datatype DbColumn = DbColumn(adqlName: string, dbName: string)

  /** Database metadata of a table: catalog and schema names may be null. */
  datatype DbTable = DbTable(dbCatalogName: Option<string>, dbSchemaName: Option<string>, dbName: string)

  /** A table reference of the FROM clause: its exposed name and its metadata, if resolved. */
  datatype AdqlTable = AdqlTable(name: string, dbLink: Option<DbTable>)

  /** A column reference: name, whether it was written case-sensitively (the COLUMN flag of its
      case-sensitivity byte), the table that qualifies it and its metadata, if resolved. */
  datatype AdqlColumn = AdqlColumn(columnName: string, caseSensitive: bool, adqlTable: Option<AdqlTable>, dbLink: Option<DbColumn>)

  /** ADQL operands. Operands of any other kind are kept as their ADQL text. */
  datatype Operand =
    | ColumnRef(column: AdqlColumn)
    | Concatenation(operands: seq<Operand>)
    | Math(mathFunction: MathFunction)
    | OtherOperand(adql: string)

  datatype MathFunction = MathFunction(kind: MathFunctionType, parameters: seq<Operand>)

  /** One item of the SELECT list. */
  datatype SelectItem = SelectItem(operand: Operand, alias: Option<string>)

  /** The SELECT clause: its items, the separator declared between them, DISTINCT, and the
      row limit (negative when there is none). */
  datatype ClauseSelect = ClauseSelect(items: seq<SelectItem>, separator: string, distinct: bool, limit: int)

  /** Any other clause (WHERE, GROUP BY, HAVING, ORDER BY, a join's ON condition). */
  datatype Clause = Clause(items: seq<Operand>)

  /** FROM content: a table reference, or a join of two FROM contents. */
  datatype FromContent =
    | Table(table: AdqlTable)
    | Join(join: AdqlJoin)

  /** A join. `natural` marks NATURAL; a non-empty `usingColumns` is a USING list; `condition`
      is an explicit ON condition. */
  datatype AdqlJoin = AdqlJoin(left: FromContent, right: FromContent, joinType: string, natural: bool,
                               usingColumns: seq<AdqlColumn>, condition: Option<Clause>)

  datatype AdqlQuery = AdqlQuery(select: ClauseSelect, from: FromContent, where: Clause,
                                 groupBy: Clause, having: Clause, orderBy: Clause)

  /** The abstract ADQL datatypes. UNKNOWN and UNKNOWN_NUMERIC stand for types the translator
      does not recognise. */
  datatype DbDatatype =
    | SMALLINT | INTEGER | BIGINT | REAL | DOUBLE | BINARY | VARBINARY | CHAR | VARCHAR
    | BLOB | CLOB | TIMESTAMP | POINT | REGION | UNKNOWN | UNKNOWN_NUMERIC

  /** "No length specified". */
  const NO_LENGTH: int := -1

  /** An abstract type with its length parameter (a Java int). */
  datatype DbType = DbType(tag: DbDatatype, length: int)

  /** Why a join could not be resolved (ADQLJoin's UnresolvedJoinException): the column name
      looked up and whether the left operand's list was searched. */
  datatype UnresolvedJoinException = UnresolvedJoinException(columnName: string, leftList: bool)

  /** What a translation can fail with. */
  datatype TranslationError =
    | TranslationException(message: string, cause: Option<UnresolvedJoinException>)
      /** A function parameter the rule reads is absent: the source then dereferences null or
          indexes past the parameters and fails with a runtime exception. */
    | MissingParameter(kind: MathFunctionType, index: nat)
}
