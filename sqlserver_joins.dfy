/** How the SQL Server translator rewrites NATURAL and USING joins into explicit
    `ON left=right AND ...` conditions, looking every join column up in the column lists of
    the two joined operands. */
module SQLServerJoins {
  import opened Wrappers
  import opened JavaStrings
  import opened AdqlTree
  import opened SQLServerTranslator

  // ---------------------------------------------------------------- column lookup

  /** Whether a column of a list answers to `name`: exactly when the search is case-sensitive,
      up to ASCII case otherwise. */
  predicate NameMatches(name: string, caseSensitive: bool, column: DbColumn)
  {
    if caseSensitive then column.adqlName == name else ToLowerCase(column.adqlName) == ToLowerCase(name)
  }

  /** The columns of `list` answering to `name`, in list order. */
  function Matches(name: string, caseSensitive: bool, list: seq<DbColumn>): (r: seq<DbColumn>)
    ensures |r| <= |list|
  {
    if list == [] then []
    else (if NameMatches(name, caseSensitive, list[0]) then [list[0]] else []) + Matches(name, caseSensitive, list[1..])
  }

  /** A column is among the matches exactly when it is in the list and answers to the name. */
  lemma {:induction false} MatchesIff(name: string, caseSensitive: bool, list: seq<DbColumn>, c: DbColumn)
    ensures c in Matches(name, caseSensitive, list) <==> c in list && NameMatches(name, caseSensitive, c)
  {
    if list != [] {
      MatchesIff(name, caseSensitive, list[1..], c);
      assert list == [list[0]] + list[1..];
    }
  }

  /** ADQLJoin.findAtMostOneColumn: no match gives nothing, one match gives it, several
      matches fail. */
  function FindAtMostOneColumn(name: string, caseSensitive: bool, list: seq<DbColumn>, leftList: bool)
    : (r: Result<Option<DbColumn>, UnresolvedJoinException>)
    ensures r.Failure? <==> |Matches(name, caseSensitive, list)| > 1
    ensures r == Success(None) <==> |Matches(name, caseSensitive, list)| == 0
    ensures r.Success? && r.value.Some? ==>
              r.value.value in list && NameMatches(name, caseSensitive, r.value.value)
    ensures r.Failure? ==> r.error == UnresolvedJoinException(name, leftList)
  {
    var found := Matches(name, caseSensitive, list);
    if |found| == 0 then Success(None)
    else if |found| == 1 then
      MatchesIff(name, caseSensitive, list, found[0]);
      Success(Some(found[0]))
    else Failure(UnresolvedJoinException(name, leftList))
  }

  /** ADQLJoin.findExactlyOneColumn: the single match, or a failure on no match or several. */
  function FindExactlyOneColumn(name: string, caseSensitive: bool, list: seq<DbColumn>, leftList: bool)
    : (r: Result<DbColumn, UnresolvedJoinException>)
    ensures r.Failure? <==> |Matches(name, caseSensitive, list)| != 1
    ensures r.Success? ==> r.value in list && NameMatches(name, caseSensitive, r.value)
    ensures r.Success? ==> Matches(name, caseSensitive, list) == [r.value]
    ensures r.Failure? ==> r.error == UnresolvedJoinException(name, leftList)
  {
    var found := Matches(name, caseSensitive, list);
    if |found| == 1 then
      MatchesIff(name, caseSensitive, list, found[0]);
      Success(found[0])
    else Failure(UnresolvedJoinException(name, leftList))
  }

  // ---------------------------------------------------------------- join columns

  /** `new ADQLColumn(name)` for a plain column name. */
  function PlainColumn(name: string): AdqlColumn
  {
    AdqlColumn(name, false, None, None)
  }

  /** generateJoinColumn: a copy of the joined column (or a plain column named after the
      metadata), qualified by the operand when it is a table and by a new table carrying the
      operand's name otherwise, and linked to the metadata. */
  function GenerateJoinColumn(env: Callees, table: Option<FromContent>, colMeta: DbColumn, joinedColumn: Option<AdqlColumn>)
    : (c: AdqlColumn)
    ensures c.dbLink == Some(colMeta)
    ensures joinedColumn.None? ==> c.columnName == colMeta.adqlName && !c.caseSensitive
    ensures joinedColumn.Some? ==>
              c.columnName == joinedColumn.value.columnName && c.caseSensitive == joinedColumn.value.caseSensitive
    ensures table.Some? && table.value.Table? ==> c.adqlTable == Some(table.value.table)
    ensures table.Some? && table.value.Join? ==> c.adqlTable == Some(AdqlTable(env.nameOf(table.value), None))
    ensures table.None? ==> c.adqlTable == (if joinedColumn.Some? then joinedColumn.value.adqlTable else None)
  {
    var column := if joinedColumn.None? then PlainColumn(colMeta.adqlName) else joinedColumn.value;
    var qualified :=
      if table.None? then column
      else if table.value.Table? then column.(adqlTable := Some(table.value.table))
      else column.(adqlTable := Some(AdqlTable(env.nameOf(table.value), None)));
    qualified.(dbLink := Some(colMeta))
  }

  /** One equality of an ON condition: the generated left column `=` the generated right one. */
  function JoinEquality(env: Callees, join: AdqlJoin, leftCol: DbColumn, leftJoined: AdqlColumn,
                        rightCol: DbColumn, rightJoined: AdqlColumn): (p: string)
    ensures |p| > 0
  {
    env.column(GenerateJoinColumn(env, Some(join.left), leftCol, Some(leftJoined))) + "="
      + env.column(GenerateJoinColumn(env, Some(join.right), rightCol, Some(rightJoined)))
  }

  /** The NATURAL equality for a left column and its right match, each joined column being a
      plain column named after the metadata. */
  function NaturalEquality(env: Callees, join: AdqlJoin, leftCol: DbColumn, rightCol: DbColumn): (p: string)
    ensures |p| > 0
  {
    JoinEquality(env, join, leftCol, PlainColumn(leftCol.adqlName), rightCol, PlainColumn(rightCol.adqlName))
  }

  /** The USING equality for a USING column and its two matches. */
  function UsingEquality(env: Callees, join: AdqlJoin, usingCol: AdqlColumn, leftCol: DbColumn, rightCol: DbColumn): (p: string)
    ensures |p| > 0
  {
    JoinEquality(env, join, leftCol, usingCol, rightCol, usingCol)
  }

  // ---------------------------------------------------------------- NATURAL

  /** What one left column adds to the NATURAL equalities: nothing when the right list has no
      match, a failure when it has several or when the name is not unique on the left, one
      equality otherwise. */
  function NaturalStep(env: Callees, join: AdqlJoin, leftList: seq<DbColumn>, rightList: seq<DbColumn>,
                       leftCol: DbColumn, done: seq<string>): Result<seq<string>, UnresolvedJoinException>
  {
    var rightCol := FindAtMostOneColumn(leftCol.adqlName, false, rightList, false);
    if rightCol.Failure? then Failure(rightCol.error)
    else if rightCol.value.None? then Success(done)
    else
      var check := FindExactlyOneColumn(leftCol.adqlName, false, leftList, true);
      if check.Failure? then Failure(check.error)
      else Success(done + [NaturalEquality(env, join, leftCol, rightCol.value.value)])
  }

  /** The NATURAL equalities contributed by `cols`, a prefix of the left list, or the first
      failure. */
  function NaturalEqualities(env: Callees, join: AdqlJoin, leftList: seq<DbColumn>, rightList: seq<DbColumn>,
                             cols: seq<DbColumn>): Result<seq<string>, UnresolvedJoinException>
  {
    if cols == [] then Success([])
    else
      var before := NaturalEqualities(env, join, leftList, rightList, cols[..|cols| - 1]);
      if before.Failure? then before
      else NaturalStep(env, join, leftList, rightList, cols[|cols| - 1], before.value)
  }

  /** Whether a left column blocks NATURAL resolution: several right matches, or a right match
      while its name is not unique on the left. */
  predicate NaturalBlocked(leftList: seq<DbColumn>, rightList: seq<DbColumn>, leftCol: DbColumn)
  {
    var right := |Matches(leftCol.adqlName, false, rightList)|;
    right > 1 || (right == 1 && |Matches(leftCol.adqlName, false, leftList)| != 1)
  }

  /** The equalities of a successful NATURAL resolution, defined on their own: one per left
      column that has a right match, in left-list order, paired with that match. */
  function NaturalReference(env: Callees, join: AdqlJoin, rightList: seq<DbColumn>, cols: seq<DbColumn>): seq<string>
  {
    if cols == [] then []
    else
      var c := cols[|cols| - 1];
      var found := Matches(c.adqlName, false, rightList);
      NaturalReference(env, join, rightList, cols[..|cols| - 1])
        + (if |found| == 0 then [] else [NaturalEquality(env, join, c, found[0])])
  }

  /** NATURAL resolution fails exactly when some left column blocks it. */
  lemma {:induction false} NaturalFailsIff(env: Callees, join: AdqlJoin, leftList: seq<DbColumn>, rightList: seq<DbColumn>,
                                           cols: seq<DbColumn>)
    ensures NaturalEqualities(env, join, leftList, rightList, cols).Failure?
            <==> exists i :: 0 <= i < |cols| && NaturalBlocked(leftList, rightList, cols[i])
  {
    if cols != [] {
      var init := cols[..|cols| - 1];
      NaturalFailsIff(env, join, leftList, rightList, init);
      assert forall i :: 0 <= i < |init| ==> init[i] == cols[i];
      if exists i :: 0 <= i < |init| && NaturalBlocked(leftList, rightList, init[i]) {
        var i :| 0 <= i < |init| && NaturalBlocked(leftList, rightList, init[i]);
        assert NaturalBlocked(leftList, rightList, cols[i]);
      }
    }
  }

  /** A successful NATURAL resolution yields exactly the reference equalities. */
  lemma {:induction false} NaturalSuccessIsReference(env: Callees, join: AdqlJoin, leftList: seq<DbColumn>,
                                                     rightList: seq<DbColumn>, cols: seq<DbColumn>)
    requires NaturalEqualities(env, join, leftList, rightList, cols).Success?
    ensures NaturalEqualities(env, join, leftList, rightList, cols).value == NaturalReference(env, join, rightList, cols)
  {
    if cols != [] {
      NaturalSuccessIsReference(env, join, leftList, rightList, cols[..|cols| - 1]);
    }
  }

  /** When no left column has a right match, NATURAL resolution succeeds with no equality. */
  lemma {:induction false} NaturalWithoutCommonColumns(env: Callees, join: AdqlJoin, leftList: seq<DbColumn>,
                                                       rightList: seq<DbColumn>, cols: seq<DbColumn>)
    requires forall i :: 0 <= i < |cols| ==> |Matches(cols[i].adqlName, false, rightList)| == 0
    ensures NaturalEqualities(env, join, leftList, rightList, cols) == Success([])
  {
    if cols != [] {
      var init := cols[..|cols| - 1];
      assert forall i :: 0 <= i < |init| ==> init[i] == cols[i];
      NaturalWithoutCommonColumns(env, join, leftList, rightList, init);
    }
  }

  /** Once a prefix of the left list fails, the whole list fails with the same error. */
  lemma {:induction false} NaturalFailureSticks(env: Callees, join: AdqlJoin, leftList: seq<DbColumn>,
                                                rightList: seq<DbColumn>, cols: seq<DbColumn>, n: nat)
    requires n <= |cols| && NaturalEqualities(env, join, leftList, rightList, cols[..n]).Failure?
    ensures NaturalEqualities(env, join, leftList, rightList, cols) == NaturalEqualities(env, join, leftList, rightList, cols[..n])
    decreases |cols| - n
  {
    if n < |cols| {
      assert cols[..n + 1][..n] == cols[..n];
      NaturalFailureSticks(env, join, leftList, rightList, cols, n + 1);
    } else {
      assert cols[..n] == cols;
    }
  }

  // ---------------------------------------------------------------- USING

  /** What one USING column adds: its unique left match, then its unique right match, then one
      equality; a failure as soon as either lookup fails. */
  function UsingStep(env: Callees, join: AdqlJoin, leftList: seq<DbColumn>, rightList: seq<DbColumn>,
                     usingCol: AdqlColumn, done: seq<string>): Result<seq<string>, UnresolvedJoinException>
  {
    var leftCol := FindExactlyOneColumn(usingCol.columnName, usingCol.caseSensitive, leftList, true);
    if leftCol.Failure? then Failure(leftCol.error)
    else
      var rightCol := FindExactlyOneColumn(usingCol.columnName, usingCol.caseSensitive, rightList, false);
      if rightCol.Failure? then Failure(rightCol.error)
      else Success(done + [UsingEquality(env, join, usingCol, leftCol.value, rightCol.value)])
  }

  /** The USING equalities of `cols`, a prefix of the USING list, or the first failure. */
  function UsingEqualities(env: Callees, join: AdqlJoin, leftList: seq<DbColumn>, rightList: seq<DbColumn>,
                           cols: seq<AdqlColumn>): Result<seq<string>, UnresolvedJoinException>
  {
    if cols == [] then Success([])
    else
      var before := UsingEqualities(env, join, leftList, rightList, cols[..|cols| - 1]);
      if before.Failure? then before
      else UsingStep(env, join, leftList, rightList, cols[|cols| - 1], before.value)
  }

  /** Whether a USING column resolves: exactly one match on each side. */
  predicate UsingResolves(leftList: seq<DbColumn>, rightList: seq<DbColumn>, usingCol: AdqlColumn)
  {
    |Matches(usingCol.columnName, usingCol.caseSensitive, leftList)| == 1
    && |Matches(usingCol.columnName, usingCol.caseSensitive, rightList)| == 1
  }

  /** USING resolution fails exactly when some USING column does not resolve. */
  lemma {:induction false} UsingFailsIff(env: Callees, join: AdqlJoin, leftList: seq<DbColumn>, rightList: seq<DbColumn>,
                                         cols: seq<AdqlColumn>)
    ensures UsingEqualities(env, join, leftList, rightList, cols).Failure?
            <==> exists i :: 0 <= i < |cols| && !UsingResolves(leftList, rightList, cols[i])
  {
    if cols != [] {
      var init := cols[..|cols| - 1];
      UsingFailsIff(env, join, leftList, rightList, init);
      UsingEqualitiesSnoc(env, join, leftList, rightList, cols);
      var before := UsingEqualities(env, join, leftList, rightList, init);
      if before.Success? {
        UsingStepFailsIff(env, join, leftList, rightList, cols[|cols| - 1], before.value);
      }
      SomeUnresolvedSnoc(leftList, rightList, cols, init);
    }
  }

  /** The USING equalities of a non-empty list extend those of its prefix by one step. */
  lemma UsingEqualitiesSnoc(env: Callees, join: AdqlJoin, leftList: seq<DbColumn>, rightList: seq<DbColumn>,
                            cols: seq<AdqlColumn>)
    requires cols != []
    ensures var before := UsingEqualities(env, join, leftList, rightList, cols[..|cols| - 1]);
            UsingEqualities(env, join, leftList, rightList, cols)
            == if before.Failure? then before
               else UsingStep(env, join, leftList, rightList, cols[|cols| - 1], before.value)
  {
  }

  /** Some column of a non-empty list is unresolved exactly when one of its prefix is or its
      last one is. */
  lemma SomeUnresolvedSnoc(leftList: seq<DbColumn>, rightList: seq<DbColumn>, cols: seq<AdqlColumn>,
                           init: seq<AdqlColumn>)
    requires cols != [] && init == cols[..|cols| - 1]
    ensures (exists i :: 0 <= i < |cols| && !UsingResolves(leftList, rightList, cols[i]))
            <==> (exists i :: 0 <= i < |init| && !UsingResolves(leftList, rightList, init[i]))
                 || !UsingResolves(leftList, rightList, cols[|cols| - 1])
  {
    assert forall i :: 0 <= i < |init| ==> init[i] == cols[i];
  }

  lemma UsingStepFailsIff(env: Callees, join: AdqlJoin, leftList: seq<DbColumn>, rightList: seq<DbColumn>,
                          usingCol: AdqlColumn, done: seq<string>)
    ensures UsingStep(env, join, leftList, rightList, usingCol, done).Failure?
            <==> !UsingResolves(leftList, rightList, usingCol)
  {
  }

  /** A successful USING resolution has one equality per USING column, in declared order,
      between that column's unique left and right matches. */
  lemma {:induction false} UsingSuccessShape(env: Callees, join: AdqlJoin, leftList: seq<DbColumn>, rightList: seq<DbColumn>,
                                             cols: seq<AdqlColumn>)
    requires UsingEqualities(env, join, leftList, rightList, cols).Success?
    ensures var ps := UsingEqualities(env, join, leftList, rightList, cols).value;
            |ps| == |cols|
            && forall i :: 0 <= i < |cols| ==>
                 UsingResolves(leftList, rightList, cols[i])
                 && ps[i] == UsingEquality(env, join, cols[i],
                                        Matches(cols[i].columnName, cols[i].caseSensitive, leftList)[0],
                                        Matches(cols[i].columnName, cols[i].caseSensitive, rightList)[0])
  {
    if cols != [] {
      var init := cols[..|cols| - 1];
      UsingSuccessShape(env, join, leftList, rightList, init);
      assert forall i :: 0 <= i < |init| ==> init[i] == cols[i];
    }
  }

  /** Once a prefix of the USING list fails, the whole list fails with the same error. */
  lemma {:induction false} UsingFailureSticks(env: Callees, join: AdqlJoin, leftList: seq<DbColumn>,
                                              rightList: seq<DbColumn>, cols: seq<AdqlColumn>, n: nat)
    requires n <= |cols| && UsingEqualities(env, join, leftList, rightList, cols[..n]).Failure?
    ensures UsingEqualities(env, join, leftList, rightList, cols) == UsingEqualities(env, join, leftList, rightList, cols[..n])
    decreases |cols| - n
  {
    if n < |cols| {
      assert cols[..n + 1][..n] == cols[..n];
      UsingFailureSticks(env, join, leftList, rightList, cols, n + 1);
    } else {
      assert cols[..n] == cols;
    }
  }

  // ---------------------------------------------------------------- translate(ADQLJoin)

  /** The text before any condition: left operand, join type, right operand, each followed by
      a space. */
  function JoinHead(env: Callees, join: AdqlJoin): string
  {
    env.fromContent(join.left) + " " + join.joinType + " " + env.fromContent(join.right) + " "
  }

  /** The exception a failed NATURAL or USING resolution is reported with. */
  function JoinError(env: Callees, join: AdqlJoin, kind: string, cause: UnresolvedJoinException): TranslationError
  {
    TranslationException("Impossible to resolve the " + kind + " between " + env.toAdql(join.left) + " and "
                         + env.toAdql(join.right) + "!", Some(cause))
  }

  /** The translation of a join: the head, then `ON ` and the NATURAL or USING equalities
      joined by ` AND `, or else the translated ON condition when there is one. */
  function JoinText(env: Callees, join: AdqlJoin): Result<string, TranslationError>
  {
    var leftList := env.columnsOf(join.left);
    var rightList := env.columnsOf(join.right);
    if join.natural then
      match NaturalEqualities(env, join, leftList, rightList, leftList)
      case Failure(e) => Failure(JoinError(env, join, "NATURAL JOIN", e))
      case Success(ps) => Success(JoinHead(env, join) + "ON " + JoinWith(ps, " AND "))
    else if |join.usingColumns| > 0 then
      match UsingEqualities(env, join, leftList, rightList, join.usingColumns)
      case Failure(e) => Failure(JoinError(env, join, "JOIN USING", e))
      case Success(ps) => Success(JoinHead(env, join) + "ON " + JoinWith(ps, " AND "))
    else if join.condition.Some? then Success(JoinHead(env, join) + env.clause(join.condition.value))
    else Success(JoinHead(env, join))
  }

  /** The NATURAL branch of translate(ADQLJoin): the `AND`-joined equalities of every left
      column that has a right match, stopping at the first lookup that fails. */
  method ResolveNatural(env: Callees, join: AdqlJoin) returns (r: Result<string, UnresolvedJoinException>)
    ensures var ps := NaturalEqualities(env, join, env.columnsOf(join.left), env.columnsOf(join.right), env.columnsOf(join.left));
            && (ps.Failure? ==> r == Failure(ps.error))
            && (ps.Success? ==> r == Success(JoinWith(ps.value, " AND ")))
  {
    var leftList := env.columnsOf(join.left);
    var rightList := env.columnsOf(join.right);
    var buf := "";
    ghost var ps: seq<string> := [];
    var i := 0;
    while i < |leftList|
      invariant 0 <= i <= |leftList|
      invariant NaturalEqualities(env, join, leftList, rightList, leftList[..i]) == Success(ps)
      invariant buf == JoinWith(ps, " AND ")
      invariant |ps| > 0 <==> |buf| > 0
    {
      var leftCol := leftList[i];
      assert leftList[..i + 1][..i] == leftList[..i];
      var rightCol := FindAtMostOneColumn(leftCol.adqlName, false, rightList, false);
      if rightCol.Failure? {
        NaturalFailureSticks(env, join, leftList, rightList, leftList, i + 1);
        assert leftList[..|leftList|] == leftList;
        return Failure(rightCol.error);
      }
      if rightCol.value.Some? {
        var check := FindExactlyOneColumn(leftCol.adqlName, false, leftList, true);
        if check.Failure? {
          NaturalFailureSticks(env, join, leftList, rightList, leftList, i + 1);
          assert leftList[..|leftList|] == leftList;
          return Failure(check.error);
        }
        var p := NaturalEquality(env, join, leftCol, rightCol.value.value);
        if |buf| > 0 {
          JoinWithSnoc(ps, p, " AND ");
          buf := buf + " AND ";
        }
        buf := buf + p;
        ps := ps + [p];
      }
      i := i + 1;
    }
    assert leftList[..i] == leftList;
    r := Success(buf);
  }

  /** The USING branch of translate(ADQLJoin): for each USING column in order, its unique left
      and right matches as one equality, stopping at the first lookup that fails. */
  method ResolveUsing(env: Callees, join: AdqlJoin) returns (r: Result<string, UnresolvedJoinException>)
    ensures var ps := UsingEqualities(env, join, env.columnsOf(join.left), env.columnsOf(join.right), join.usingColumns);
            && (ps.Failure? ==> r == Failure(ps.error))
            && (ps.Success? ==> r == Success(JoinWith(ps.value, " AND ")))
  {
    var leftList := env.columnsOf(join.left);
    var rightList := env.columnsOf(join.right);
    var cols := join.usingColumns;
    var buf := "";
    ghost var ps: seq<string> := [];
    var i := 0;
    while i < |cols|
      invariant 0 <= i <= |cols|
      invariant UsingEqualities(env, join, leftList, rightList, cols[..i]) == Success(ps)
      invariant buf == JoinWith(ps, " AND ")
      invariant |ps| > 0 <==> |buf| > 0
    {
      var usingCol := cols[i];
      assert cols[..i + 1][..i] == cols[..i];
      var leftCol := FindExactlyOneColumn(usingCol.columnName, usingCol.caseSensitive, leftList, true);
      if leftCol.Failure? {
        UsingFailureSticks(env, join, leftList, rightList, cols, i + 1);
        assert cols[..|cols|] == cols;
        return Failure(leftCol.error);
      }
      var rightCol := FindExactlyOneColumn(usingCol.columnName, usingCol.caseSensitive, rightList, false);
      if rightCol.Failure? {
        UsingFailureSticks(env, join, leftList, rightList, cols, i + 1);
        assert cols[..|cols|] == cols;
        return Failure(rightCol.error);
      }
      var p := UsingEquality(env, join, usingCol, leftCol.value, rightCol.value);
      if |buf| > 0 {
        JoinWithSnoc(ps, p, " AND ");
        buf := buf + " AND ";
      }
      buf := buf + p;
      ps := ps + [p];
      i := i + 1;
    }
    assert cols[..i] == cols;
    r := Success(buf);
  }

  /** translate(ADQLJoin). */
  method TranslateJoin(env: Callees, join: AdqlJoin) returns (r: Result<string, TranslationError>)
    ensures r == JoinText(env, join)
  {
    var sql := env.fromContent(join.left);
    sql := sql + " " + join.joinType + " " + env.fromContent(join.right) + " ";
    if join.natural {
      var buf := ResolveNatural(env, join);
      if buf.Failure? {
        return Failure(JoinError(env, join, "NATURAL JOIN", buf.error));
      }
      sql := sql + "ON " + buf.value;
    } else if |join.usingColumns| > 0 {
      var buf := ResolveUsing(env, join);
      if buf.Failure? {
        return Failure(JoinError(env, join, "JOIN USING", buf.error));
      }
      sql := sql + "ON " + buf.value;
    } else if join.condition.Some? {
      sql := sql + env.clause(join.condition.value);
    }
    r := Success(sql);
  }

  // ---------------------------------------------------------------- properties of a join

  /** A NATURAL join fails, naming both operands, exactly when some left column blocks it;
      otherwise it reads `ON ` followed by the reference equalities joined by ` AND `. */
  lemma NaturalJoin(env: Callees, join: AdqlJoin)
    requires join.natural
    ensures var leftList := env.columnsOf(join.left);
            var rightList := env.columnsOf(join.right);
            && (JoinText(env, join).Failure?
                <==> exists i :: 0 <= i < |leftList| && NaturalBlocked(leftList, rightList, leftList[i]))
            && (JoinText(env, join).Failure? ==>
                  JoinText(env, join).error.TranslationException? && JoinText(env, join).error.cause.Some?)
            && (JoinText(env, join).Success? ==>
                  JoinText(env, join).value
                  == JoinHead(env, join) + "ON " + JoinWith(NaturalReference(env, join, rightList, leftList), " AND "))
  {
    var leftList := env.columnsOf(join.left);
    var rightList := env.columnsOf(join.right);
    NaturalFailsIff(env, join, leftList, rightList, leftList);
    if NaturalEqualities(env, join, leftList, rightList, leftList).Success? {
      NaturalSuccessIsReference(env, join, leftList, rightList, leftList);
    }
  }

  /** A NATURAL join whose operands share no column name ends in a bare `ON `. */
  lemma NaturalJoinWithoutCommonColumns(env: Callees, join: AdqlJoin)
    requires join.natural
    requires forall c :: c in env.columnsOf(join.left) ==> |Matches(c.adqlName, false, env.columnsOf(join.right))| == 0
    ensures JoinText(env, join) == Success(JoinHead(env, join) + "ON ")
  {
    var leftList := env.columnsOf(join.left);
    assert forall i :: 0 <= i < |leftList| ==> leftList[i] in leftList;
    NaturalWithoutCommonColumns(env, join, leftList, env.columnsOf(join.right), leftList);
    assert JoinWith([], " AND ") == "";
    assert JoinHead(env, join) + "ON " + "" == JoinHead(env, join) + "ON ";
  }

  /** A USING join fails, naming both operands, exactly when some USING column lacks a unique
      match on either side; otherwise it reads `ON ` followed by one equality per USING column,
      in order, joined by ` AND `. */
  lemma UsingJoin(env: Callees, join: AdqlJoin)
    requires !join.natural && |join.usingColumns| > 0
    ensures var leftList := env.columnsOf(join.left);
            var rightList := env.columnsOf(join.right);
            var cols := join.usingColumns;
            && (JoinText(env, join).Failure?
                <==> exists i :: 0 <= i < |cols| && !UsingResolves(leftList, rightList, cols[i]))
            && (JoinText(env, join).Failure? ==>
                  JoinText(env, join).error.TranslationException? && JoinText(env, join).error.cause.Some?)
            && (JoinText(env, join).Success? ==>
                  exists ps: seq<string> ::
                    && JoinText(env, join).value == JoinHead(env, join) + "ON " + JoinWith(ps, " AND ")
                    && |ps| == |cols|
                    && forall i :: 0 <= i < |cols| ==>
                         UsingResolves(leftList, rightList, cols[i])
                         && ps[i] == UsingEquality(env, join, cols[i],
                                                Matches(cols[i].columnName, cols[i].caseSensitive, leftList)[0],
                                                Matches(cols[i].columnName, cols[i].caseSensitive, rightList)[0]))
  {
    var leftList := env.columnsOf(join.left);
    var rightList := env.columnsOf(join.right);
    UsingFailsIff(env, join, leftList, rightList, join.usingColumns);
    var res := UsingEqualities(env, join, leftList, rightList, join.usingColumns);
    if res.Success? {
      UsingSuccessShape(env, join, leftList, rightList, join.usingColumns);
      var ps := res.value;
      assert JoinText(env, join).value == JoinHead(env, join) + "ON " + JoinWith(ps, " AND ");
    }
  }

  /** A join that is neither NATURAL nor USING is its head followed by its ON condition, if any. */
  lemma PlainJoin(env: Callees, join: AdqlJoin)
    requires !join.natural && |join.usingColumns| == 0
    ensures JoinText(env, join).Success?
    ensures join.condition.None? ==> JoinText(env, join).value == JoinHead(env, join)
    ensures join.condition.Some? ==> JoinText(env, join).value == JoinHead(env, join) + env.clause(join.condition.value)
  {
  }
}
