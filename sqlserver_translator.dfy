/** The SQL Server dialect of the ADQL-to-SQL translator: its identifier case-sensitivity
    configuration, SELECT rendering with TOP, whole-query assembly, string concatenation and
    qualified schema and table names. */
module SQLServerTranslator {
  import opened Wrappers
  import opened JavaStrings
  import opened AdqlTree

  /** The kinds of SQL identifier whose quoting is configured. */
  datatype IdentifierField = CATALOG | SCHEMA | TABLE | COLUMN

  /** A translator is its case-sensitivity configuration, one flag per identifier kind; it is
      fixed at construction. */
  datatype Translator = Translator(catalog: bool, schema: bool, table: bool, column: bool)

  /** isCaseSensitive(field): the flag of that kind; a null field is never case-sensitive. */
  function IsCaseSensitive(t: Translator, field: Option<IdentifierField>): (r: bool)
    ensures field.None? ==> !r
    ensures field == Some(CATALOG) ==> r == t.catalog
    ensures field == Some(SCHEMA) ==> r == t.schema
    ensures field == Some(TABLE) ==> r == t.table
    ensures field == Some(COLUMN) ==> r == t.column
  {
    match field
    case None => false
    case Some(CATALOG) => t.catalog
    case Some(SCHEMA) => t.schema
    case Some(TABLE) => t.table
    case Some(COLUMN) => t.column
  }

  /** The no-argument constructor: every identifier kind is case-sensitive. */
  function NewTranslator(): (t: Translator)
    ensures forall f: IdentifierField :: IsCaseSensitive(t, Some(f))
  {
    Translator(true, true, true, true)
  }

  /** The constructor with one flag for all identifier kinds. */
  function NewTranslatorAll(allCaseSensitive: bool): (t: Translator)
    ensures forall f: IdentifierField :: IsCaseSensitive(t, Some(f)) == allCaseSensitive
  {
    Translator(allCaseSensitive, allCaseSensitive, allCaseSensitive, allCaseSensitive)
  }

  /** The constructor with one flag per identifier kind. */
  function NewTranslatorPerField(catalog: bool, schema: bool, table: bool, column: bool): (t: Translator)
    ensures IsCaseSensitive(t, Some(CATALOG)) == catalog && IsCaseSensitive(t, Some(SCHEMA)) == schema
    ensures IsCaseSensitive(t, Some(TABLE)) == table && IsCaseSensitive(t, Some(COLUMN)) == column
  {
    Translator(catalog, schema, table, column)
  }

  /** The translations this file relies on but does not define: the generic translator's
      rendering of each kind of sub-node, its identifier quoting (appendIdentifier, given the
      identifier and whether it is case-sensitive), its generic function rendering
      (getDefaultADQLFunction), and the ADQL text, exposed name and column list of a FROM
      operand. */
  datatype Callees = Callees(
    selectItem: SelectItem -> string,
    operand: Operand -> string,
    column: AdqlColumn -> string,
    fromContent: FromContent -> string,
    clause: Clause -> string,
    identifier: (string, bool) -> string,
    defaultFunction: MathFunction -> string,
    toAdql: FromContent -> string,
    nameOf: FromContent -> string,
    columnsOf: FromContent -> seq<DbColumn>)

  // ---------------------------------------------------------------- SELECT

  /** `SELECT`, then ` DISTINCT` when asked for, then ` TOP n ` when there is a row limit. */
  function SelectHead(clause: ClauseSelect): string
  {
    "SELECT" + (if clause.distinct then " DISTINCT" else "")
      + (if clause.limit >= 0 then " TOP " + NatToString(clause.limit) + " " else "")
  }

  /** The SELECT text: the head, then every item preceded by a space, and every item after the
      first also preceded by a space and the separator. */
  function SelectText(env: Callees, clause: ClauseSelect): string
    requires |clause.items| > 0
  {
    SelectHead(clause) + " " + JoinWith(MapToStrings(env.selectItem, clause.items), " " + clause.separator + " ")
  }

  /** translate(ClauseSelect). The row limit goes into the SELECT as TOP; an empty clause gives
      null. */
  method TranslateSelect(env: Callees, clause: ClauseSelect) returns (sql: Option<string>)
    ensures sql.None? <==> |clause.items| == 0
    ensures sql.Some? ==> sql.value == SelectText(env, clause)
  {
    ghost var ts := MapToStrings(env.selectItem, clause.items);
    ghost var delimiter := " " + clause.separator + " ";
    sql := None;
    for i := 0 to |clause.items|
      invariant i == 0 <==> sql.None?
      invariant i > 0 ==> sql == Some(SelectHead(clause) + " " + JoinWith(ts[..i], delimiter))
    {
      var text: string;
      if i == 0 {
        text := "SELECT" + (if clause.distinct then " DISTINCT" else "")
                + (if clause.limit >= 0 then " TOP " + NatToString(clause.limit) + " " else "");
      } else {
        text := sql.value + " " + clause.separator;
      }
      text := text + " " + env.selectItem(clause.items[i]);
      if i == 0 {
        assert ts[..1] == [ts[0]];
      } else {
        JoinWithSnoc(ts[..i], ts[i], delimiter);
        assert ts[..i + 1] == ts[..i] + [ts[i]];
        SelectStep(SelectHead(clause) + " ", JoinWith(ts[..i], delimiter), clause.separator, ts[i]);
      }
      sql := Some(text);
    }
    assert ts[..|clause.items|] == ts;
  }

  lemma SelectStep(head: string, joined: string, separator: string, item: string)
    ensures head + joined + " " + separator + " " + item == head + (joined + (" " + separator + " ") + item)
  {
  }

  // ---------------------------------------------------------------- whole query

  /** A clause on a new line, or nothing when it is empty. */
  function ClauseLine(env: Callees, clause: Clause): string
  {
    if |clause.items| == 0 then "" else "\n" + env.clause(clause)
  }

  /** translate(ADQLQuery): SELECT (with its TOP), FROM, then WHERE, GROUP BY, HAVING and
      ORDER BY when non-empty, each on a new line; nothing is ever added after ORDER BY. */
  method TranslateQuery(env: Callees, query: AdqlQuery) returns (sql: string)
    requires |query.select.items| > 0
    ensures sql == SelectText(env, query.select) + "\nFROM " + env.fromContent(query.from)
                   + ClauseLine(env, query.where) + ClauseLine(env, query.groupBy)
                   + ClauseLine(env, query.having) + ClauseLine(env, query.orderBy)
    ensures (|query.where.items| == 0 && |query.groupBy.items| == 0 && |query.having.items| == 0
             && |query.orderBy.items| == 0)
            ==> sql == SelectText(env, query.select) + "\nFROM " + env.fromContent(query.from)
  {
    var select := TranslateSelect(env, query.select);
    sql := select.value;
    sql := sql + "\nFROM " + env.fromContent(query.from);
    ghost var s0 := sql;
    if |query.where.items| != 0 {
      sql := sql + "\n" + env.clause(query.where);
    }
    ghost var s1 := sql;
    assert s1 == s0 + ClauseLine(env, query.where);
    if |query.groupBy.items| != 0 {
      sql := sql + "\n" + env.clause(query.groupBy);
    }
    ghost var s2 := sql;
    assert s2 == s1 + ClauseLine(env, query.groupBy);
    if |query.having.items| != 0 {
      sql := sql + "\n" + env.clause(query.having);
    }
    ghost var s3 := sql;
    assert s3 == s2 + ClauseLine(env, query.having);
    if |query.orderBy.items| != 0 {
      sql := sql + "\n" + env.clause(query.orderBy);
    }
    assert sql == s3 + ClauseLine(env, query.orderBy);
  }

  // ---------------------------------------------------------------- concatenation

  /** The list without its leading empty texts. */
  function DropLeadingEmpty(parts: seq<string>): (r: seq<string>)
    ensures r == [] || r[0] != ""
  {
    if parts == [] then [] else if parts[0] == "" then DropLeadingEmpty(parts[1..]) else parts
  }

  lemma {:induction false} DropLeadingEmptySnoc(parts: seq<string>, p: string)
    ensures DropLeadingEmpty(parts + [p]) ==
              if DropLeadingEmpty(parts) == [] then (if p == "" then [] else [p]) else DropLeadingEmpty(parts) + [p]
  {
    if parts != [] {
      assert (parts + [p])[1..] == parts[1..] + [p];
      DropLeadingEmptySnoc(parts[1..], p);
    } else {
      assert [] + [p] == [p];
    }
  }

  /** One step of the concatenation loop, stated on the joined text. */
  lemma ConcatenationStep(parts: seq<string>, p: string)
    ensures var acc := JoinWith(DropLeadingEmpty(parts), " + ");
            && (acc == "" <==> DropLeadingEmpty(parts) == [])
            && JoinWith(DropLeadingEmpty(parts + [p]), " + ") == (if |acc| > 0 then acc + " + " + p else acc + p)
  {
    var before := DropLeadingEmpty(parts);
    DropLeadingEmptySnoc(parts, p);
    if before != [] {
      JoinWithNonEmpty(before, " + ");
      JoinWithSnoc(before, p, " + ");
    } else {
      assert JoinWith([p], " + ") == p;
    }
  }

  /** translate(Concatenation): the operand translations joined by ` + `. A ` + ` is only
      written once something has been written, so leading empty translations are skipped. */
  method TranslateConcatenation(env: Callees, operands: seq<Operand>) returns (translated: string)
    ensures translated == JoinWith(DropLeadingEmpty(MapToStrings(env.operand, operands)), " + ")
  {
    ghost var ts := MapToStrings(env.operand, operands);
    translated := "";
    for i := 0 to |operands|
      invariant translated == JoinWith(DropLeadingEmpty(ts[..i]), " + ")
    {
      ConcatenationStep(ts[..i], ts[i]);
      assert ts[..i + 1] == ts[..i] + [ts[i]];
      if |translated| > 0 {
        translated := translated + " + ";
      }
      translated := translated + env.operand(operands[i]);
    }
    assert ts[..|operands|] == ts;
  }

  /** When every operand translates to a non-empty text, the concatenation is exactly the
      translations joined by ` + `; a single operand renders unchanged, none renders "". */
  lemma ConcatenationOfNonEmptyParts(env: Callees, operands: seq<Operand>)
    requires forall i :: 0 <= i < |operands| ==> env.operand(operands[i]) != ""
    ensures JoinWith(DropLeadingEmpty(MapToStrings(env.operand, operands)), " + ")
              == JoinWith(MapToStrings(env.operand, operands), " + ")
    ensures |operands| == 1 ==> JoinWith(DropLeadingEmpty(MapToStrings(env.operand, operands)), " + ") == env.operand(operands[0])
    ensures |operands| == 0 ==> JoinWith(DropLeadingEmpty(MapToStrings(env.operand, operands)), " + ") == ""
  {
  }

  // ---------------------------------------------------------------- qualified names

  /** getQualifiedSchemaName's text: `[catalog.]schema` with each part rendered by the
      identifier quoting, or "" when there is no table or it has no schema. */
  function QualifiedSchemaName(t: Translator, env: Callees, table: Option<DbTable>): string
  {
    if table.None? || table.value.dbSchemaName.None? then ""
    else
      (if table.value.dbCatalogName.Some?
       then env.identifier(table.value.dbCatalogName.value, IsCaseSensitive(t, Some(CATALOG))) + "."
       else "")
      + env.identifier(table.value.dbSchemaName.value, IsCaseSensitive(t, Some(SCHEMA)))
  }

  /** getQualifiedSchemaName, built piece by piece in a buffer. */
  method GetQualifiedSchemaName(t: Translator, env: Callees, table: Option<DbTable>) returns (name: string)
    ensures table.None? || table.value.dbSchemaName.None? ==> name == ""
    ensures name == QualifiedSchemaName(t, env, table)
  {
    if table.None? || table.value.dbSchemaName.None? {
      return "";
    }
    var buf := "";
    if table.value.dbCatalogName.Some? {
      buf := buf + env.identifier(table.value.dbCatalogName.value, IsCaseSensitive(t, Some(CATALOG)));
      buf := buf + ".";
    }
    buf := buf + env.identifier(table.value.dbSchemaName.value, IsCaseSensitive(t, Some(SCHEMA)));
    name := buf;
  }

  /** The reserved meta-schema whose tables are reached without the `dbo` namespace. */
  const META_SCHEMA: string := "TAP_SCHEMA"

  /** getQualifiedTableName: the schema part, then `.` when the schema part contains
      `TAP_SCHEMA` (case-sensitively), else `.dbo.` when the schema part is non-empty, then the
      table identifier; "" when there is no table. */
  method GetQualifiedTableName(t: Translator, env: Callees, table: Option<DbTable>) returns (name: string)
    ensures table.None? ==> name == ""
    ensures table.Some? ==>
              var schema := QualifiedSchemaName(t, env, table);
              var ident := env.identifier(table.value.dbName, t.table);
              && (Contains(schema, META_SCHEMA) ==> name == schema + "." + ident)
              && (!Contains(schema, META_SCHEMA) && schema != "" ==> name == schema + ".dbo." + ident)
              && (schema == "" ==> name == ident)
  {
    if table.None? {
      return "";
    }
    var buf := GetQualifiedSchemaName(t, env, table);
    var schema := GetQualifiedSchemaName(t, env, table);
    if Contains(schema, META_SCHEMA) {
      buf := buf + ".";
    } else {
      if |buf| > 0 {
        buf := buf + ".dbo.";
      }
    }
    buf := buf + env.identifier(table.value.dbName, IsCaseSensitive(t, Some(TABLE)));
    name := buf;
    if schema == "" {
      ContainsShorter(schema, META_SCHEMA);
    }
  }

  /** The containment test is case-sensitive: when schemas are rendered bare, a schema named
      `tap_schema` is treated as an ordinary schema and gets the `dbo` namespace. */
  lemma LowerCaseMetaSchemaIsOrdinary(t: Translator, env: Callees, tableName: string)
    requires env.identifier("tap_schema", t.schema) == "tap_schema"
    ensures var table := Some(DbTable(None, Some("tap_schema"), tableName));
            QualifiedSchemaName(t, env, table) == "tap_schema"
            && !Contains(QualifiedSchemaName(t, env, table), META_SCHEMA)
  {
    var s := "tap_schema";
    assert !(META_SCHEMA <= s) by { assert s[0] != META_SCHEMA[0]; }
    ContainsShorter(s[1..], META_SCHEMA);
  }

  /** The upper-case meta-schema rendered bare is reached without `dbo`. */
  lemma MetaSchemaIsContained(t: Translator, env: Callees, catalog: Option<string>, tableName: string)
    requires env.identifier(META_SCHEMA, t.schema) == META_SCHEMA
    ensures Contains(QualifiedSchemaName(t, env, Some(DbTable(catalog, Some(META_SCHEMA), tableName))), META_SCHEMA)
  {
    var table := Some(DbTable(catalog, Some(META_SCHEMA), tableName));
    var name := QualifiedSchemaName(t, env, table);
    if catalog.Some? {
      var prefix := env.identifier(catalog.value, t.catalog) + ".";
      assert name == prefix + META_SCHEMA;
      SuffixContained(prefix, META_SCHEMA);
    }
  }

  lemma {:induction false} SuffixContained(prefix: string, s: string)
    ensures Contains(prefix + s, s)
  {
    if prefix != [] {
      assert (prefix + s)[1..] == prefix[1..] + s;
      SuffixContained(prefix[1..], s);
    }
  }

  /** Qualified names never depend on how column identifiers are quoted. */
  lemma QualifiedNamesIgnoreColumnFlag(t: Translator, env: Callees, table: Option<DbTable>, column: bool)
    ensures QualifiedSchemaName(t.(column := column), env, table) == QualifiedSchemaName(t, env, table)
    ensures IsCaseSensitive(t.(column := column), Some(TABLE)) == IsCaseSensitive(t, Some(TABLE))
  {
  }
}
