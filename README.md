# SQL Server ADQL translation and UWS blocking policies, in Dafny

This project models three pieces of the VOLLT libraries and proves properties about them.

- **The SQL Server dialect of the ADQL-to-SQL translator** (`SQLServerTranslator`). It covers:
  - the per-identifier case-sensitivity configuration;
  - SELECT rendering with `TOP n` instead of a trailing LIMIT;
  - whole-query assembly, where each non-empty clause goes on a new line;
  - string concatenation with ` + `;
  - rewriting NATURAL and USING joins into explicit `ON a=b AND ...` conditions;
  - qualified schema and table names, including the `TAP_SCHEMA` versus `.dbo.` rule;
  - the SQL Server spellings of some mathematical functions;
  - the type mapping in both directions.
- **The per-(job, user) limiting blocking policy of the UWS service** (`UserLimitedBlockingPolicy`). It is a class whose map from a `jobId;requester` key to a bounded FIFO queue of blocked threads is updated in place by `Block` and `Unblocked`.
- **The timeout clamp it inherits** (`LimitedBlockingPolicy`).

Modules:

| file | module | contents |
|---|---|---|
| `wrappers.dfy` | `Wrappers` | `Option`, `Result` |
| `java_strings.dfy` | `JavaStrings` | the Java string behaviour used: ASCII `toLowerCase`, `trim`, `Integer.parseInt`, `contains`, decimal printing, joining |
| `adql_tree.dfy` | `AdqlTree` | the query tree, DB metadata, `DBType`, exceptions |
| `sqlserver_translator.dfy` | `SQLServerTranslator` | case flags, SELECT, query, concatenation, qualified names, and the `Callees` record |
| `sqlserver_joins.dfy` | `SQLServerJoins` | column lookup, `generateJoinColumn`, NATURAL and USING resolution, `translate(ADQLJoin)` |
| `sqlserver_functions.dfy` | `SQLServerFunctions` | `translate(MathFunction)` |
| `sqlserver_types.dfy` | `SQLServerTypes` | `convertTypeFromDB`, `convertTypeToDB`, and reading a written declaration back |
| `limited_blocking_policy.dfy` | `LimitedBlockingPolicy` | the timeout clamp |
| `user_limited_blocking_policy.dfy` | `UserLimitedBlockingPolicy` | key building, the bounded queues, and the `Policy` class |

**Callees.** The translator calls code of its generic base class that is not part of this model: the sub-node `translate` methods, `appendIdentifier`, `getDefaultADQLFunction`, `toADQL()`, `getName()` and `getDBColumns()`. These are the function-valued fields of a `Callees` value, which every translation takes as a parameter. Every property proved therefore holds whatever those callees return.

**Lookup helpers.** `ADQLJoin.findExactlyOneColumn` and `findAtMostOneColumn` are not part of this model either. They are defined over one name-matching rule: exact equality when the search is case-sensitive, ASCII-case-insensitive equality otherwise. Their contracts say exactly when each one fails.

**One departure from the comments.** The `TAP_SCHEMA` test in `getQualifiedTableName` (src/adql/translator/SQLServerTranslator.java:318-319) carries a comment saying it is case-insensitive. The code calls `String.contains`, which is case-sensitive, and the model follows the code. `LowerCaseMetaSchemaIsOrdinary` proves that a schema rendered as `tap_schema` does not pass the containment test. With the cases stated by `GetQualifiedTableName`, it follows that such a schema gets the `.dbo.` namespace.

## Model

| member | source | states |
|---|---|---|
| LimitedBlockingPolicy.Default | src/uws/service/wait/LimitedBlockingPolicy.java:39-48 | the no-argument policy has the 60-second default timeout |
| LimitedBlockingPolicy.WithTimeout | src/uws/service/wait/LimitedBlockingPolicy.java:56-58 | a non-negative timeout is kept as given; a negative one gives the default policy |
| LimitedBlockingPolicy.Block | src/uws/service/wait/LimitedBlockingPolicy.java:61-63 | the result is the timeout when the duration is negative or above it, else the duration itself; it always lies in [0, timeout] and never exceeds a non-negative duration |
| LimitedBlockingPolicy.BlockIdempotent | src/uws/service/wait/LimitedBlockingPolicy.java:62 | clamping a clamped duration changes nothing |
| LimitedBlockingPolicy.Unblocked | src/uws/service/wait/LimitedBlockingPolicy.java:66 | unblocking leaves the policy unchanged |
| UserLimitedBlockingPolicy.Capacity | src/uws/service/wait/UserLimitedBlockingPolicy.java:155 | the capacity is maxNbBlocked when positive, else 3; it is always at least 1 |
| UserLimitedBlockingPolicy.BuildKey | src/uws/service/wait/UserLimitedBlockingPolicy.java:180-188 | the key is the job ID, `;`, then the user ID when the user and its ID are non-null, else the client address, else `???` |
| UserLimitedBlockingPolicy.BuildKeyInjective | src/uws/service/wait/UserLimitedBlockingPolicy.java:180-188 | for job IDs without `;`, equal keys mean the same job and the same requester text |
| UserLimitedBlockingPolicy.RequesterKindsShareKeys | src/uws/service/wait/UserLimitedBlockingPolicy.java:180-188 | the requester text does not record its origin: a user whose ID is a client address gets the key of anonymous requests from that address, and a user whose ID is `???` gets the key of calls without a request |
| UserLimitedBlockingPolicy.OfferThread | src/uws/service/wait/UserLimitedBlockingPolicy.java:196-219 | a queue with room takes the thread at its tail; a full queue either drops its head (returned as evicted) and takes the thread, keeping its length at capacity, or refuses exactly when unblockOld is clear; an accepted queue ends with the thread and holds 1..capacity threads |
| UserLimitedBlockingPolicy.OfferKeepsQueuesBounded | src/uws/service/wait/UserLimitedBlockingPolicy.java:196-222 | storing an accepted queue keeps every stored queue non-empty and within capacity |
| UserLimitedBlockingPolicy.RemoveFirst | src/uws/service/wait/UserLimitedBlockingPolicy.java:238-249 | removing a thread shortens the queue by one when present and leaves it unchanged when absent |
| UserLimitedBlockingPolicy.RemoveFirstMultiset | src/uws/service/wait/UserLimitedBlockingPolicy.java:238-249 | removal takes exactly one occurrence out of the queue's multiset when the thread is present |
| UserLimitedBlockingPolicy.RemoveFirstAt | src/uws/service/wait/UserLimitedBlockingPolicy.java:240-244 | when index i is the first occurrence, removal cuts the queue at i and nowhere else, so order is kept |
| UserLimitedBlockingPolicy.UnblockStep | src/uws/service/wait/UserLimitedBlockingPolicy.java:230-252 | other keys never change; an absent key or thread changes nothing; the key stays exactly when its queue had more than one thread, and then holds the queue without the first occurrence |
| UserLimitedBlockingPolicy.UnblockKeepsQueuesBounded | src/uws/service/wait/UserLimitedBlockingPolicy.java:244-248 | unblocking keeps every stored queue non-empty and within capacity, since emptied queues are dropped |
| UserLimitedBlockingPolicy.UnblockAfterAppend | src/uws/service/wait/UserLimitedBlockingPolicy.java:222-248 | unblocking a thread just appended to a queue that did not hold it restores the map exactly |
| UserLimitedBlockingPolicy.BlockThenUnblock | src/uws/service/wait/UserLimitedBlockingPolicy.java:196-248 | on a queue with room, blocking a new thread and then unblocking it returns the map to its former state |
| UserLimitedBlockingPolicy.Policy.Default | src/uws/service/wait/UserLimitedBlockingPolicy.java:99-101 | default timeout, capacity 3, evict-oldest strategy, no blocked thread |
| UserLimitedBlockingPolicy.Policy.WithTimeout | src/uws/service/wait/UserLimitedBlockingPolicy.java:115-117 | the given timeout (clamped to the default when negative), capacity 3, evict-oldest strategy |
| UserLimitedBlockingPolicy.Policy.WithLimits | src/uws/service/wait/UserLimitedBlockingPolicy.java:131-133 | the given timeout and capacity (defaulted when not positive), evict-oldest strategy |
| UserLimitedBlockingPolicy.Policy.constructor | src/uws/service/wait/UserLimitedBlockingPolicy.java:153-158 | the given timeout, capacity and strategy, an empty map, and the queue invariant established |
| UserLimitedBlockingPolicy.Policy.Block | src/uws/service/wait/UserLimitedBlockingPolicy.java:191-227 | an accepted thread ends its key's queue, which is the only entry that changes, and gets the inherited clamp of its duration; an evicted oldest thread is returned; a refusal changes nothing and returns 0; the queue invariant is kept |
| UserLimitedBlockingPolicy.Policy.Unblocked | src/uws/service/wait/UserLimitedBlockingPolicy.java:230-252 | the new map is UnblockStep of the old one for the thread's key, and the queue invariant is kept |
| SQLServerTranslator.IsCaseSensitive | src/adql/translator/SQLServerTranslator.java:136-138 | each identifier kind answers with its own flag, and a null kind is never case-sensitive |
| SQLServerTranslator.NewTranslator | src/adql/translator/SQLServerTranslator.java:106-108 | the no-argument translator is case-sensitive for every identifier kind |
| SQLServerTranslator.NewTranslatorAll | src/adql/translator/SQLServerTranslator.java:116-118 | one flag sets every identifier kind |
| SQLServerTranslator.NewTranslatorPerField | src/adql/translator/SQLServerTranslator.java:128-133 | each identifier kind gets its own flag |
| SQLServerTranslator.TranslateSelect | src/adql/translator/SQLServerTranslator.java:169-182 | an empty clause gives null; otherwise `SELECT`, then ` DISTINCT` if asked, then ` TOP n ` if limited, then every item after a space, with `separator` and a space before every item after the first |
| SQLServerTranslator.TranslateQuery | src/adql/translator/SQLServerTranslator.java:148-166 | the SELECT text, `\nFROM ` and the FROM text, then WHERE, GROUP BY, HAVING and ORDER BY in that order, each after `\n` and only when non-empty; with all four empty, nothing follows FROM, so no LIMIT is ever added |
| SQLServerTranslator.DropLeadingEmpty | src/adql/translator/SQLServerTranslator.java:187-189 | once leading empty translations are dropped, the first remaining part is non-empty |
| SQLServerTranslator.TranslateConcatenation | src/adql/translator/SQLServerTranslator.java:184-195 | the operand translations joined by ` + `, where a ` + ` is written only once something precedes it |
| SQLServerTranslator.ConcatenationOfNonEmptyParts | src/adql/translator/SQLServerTranslator.java:184-195 | with non-empty translations the result is the plain ` + ` join; one operand renders unchanged, and no operand renders "" |
| SQLServerTranslator.GetQualifiedSchemaName | src/adql/translator/SQLServerTranslator.java:278-302 | "" when the table or its schema is null, else `[catalog.]schema` with each part quoted per its kind |
| SQLServerTranslator.GetQualifiedTableName | src/adql/translator/SQLServerTranslator.java:305-338 | "" for a null table; else the schema part, then `.` if it contains `TAP_SCHEMA`, else `.dbo.` if it is non-empty, then the table identifier |
| SQLServerTranslator.LowerCaseMetaSchemaIsOrdinary | src/adql/translator/SQLServerTranslator.java:318-319 | the containment test is case-sensitive, so a bare `tap_schema` does not trigger the meta-schema rule |
| SQLServerTranslator.MetaSchemaIsContained | src/adql/translator/SQLServerTranslator.java:313-321 | a bare `TAP_SCHEMA` schema, with or without a catalog, triggers the meta-schema rule |
| SQLServerTranslator.QualifiedNamesIgnoreColumnFlag | src/adql/translator/SQLServerTranslator.java:278-338 | qualified names never depend on the column case-sensitivity flag |
| SQLServerJoins.Matches | src/adql/translator/SQLServerTranslator.java:215-220 | the matching sublist is never longer than the list it is taken from |
| SQLServerJoins.MatchesIff | src/adql/translator/SQLServerTranslator.java:215-220 | a column is among the matches exactly when it is in the list and answers to the name |
| SQLServerJoins.FindAtMostOneColumn | src/adql/translator/SQLServerTranslator.java:215 | nothing on no match, the match on one, and a failure naming the column and side on several |
| SQLServerJoins.FindExactlyOneColumn | src/adql/translator/SQLServerTranslator.java:220 | the unique match, or a failure naming the column and side on none or several |
| SQLServerJoins.GenerateJoinColumn | src/adql/translator/SQLServerTranslator.java:355-365 | the column keeps the joined column's name and case flag, is linked to the metadata, and is qualified by the operand when it is a table, else by a new table carrying the operand's name |
| SQLServerJoins.JoinEquality | src/adql/translator/SQLServerTranslator.java:224-226 | a join equality is never empty, so the `AND` test on the buffer length is a test for earlier equalities |
| SQLServerJoins.NaturalFailsIff | src/adql/translator/SQLServerTranslator.java:212-228 | NATURAL resolution fails exactly when some left column has several right matches, or has a right match with a name not unique on the left |
| SQLServerJoins.NaturalSuccessIsReference | src/adql/translator/SQLServerTranslator.java:212-228 | a successful NATURAL resolution yields one equality per left column with a right match, in left-list order |
| SQLServerJoins.NaturalWithoutCommonColumns | src/adql/translator/SQLServerTranslator.java:212-228 | with no common column name, NATURAL resolution yields no equality |
| SQLServerJoins.NaturalFailureSticks | src/adql/translator/SQLServerTranslator.java:212-233 | the first lookup failure is the failure of the whole NATURAL resolution |
| SQLServerJoins.ResolveNatural | src/adql/translator/SQLServerTranslator.java:204-233 | the NATURAL loop returns the ` AND ` join of the NATURAL equalities, or their first failure |
| SQLServerJoins.UsingFailsIff | src/adql/translator/SQLServerTranslator.java:236-264 | USING resolution fails exactly when some USING column lacks exactly one match on the left or on the right |
| SQLServerJoins.UsingSuccessShape | src/adql/translator/SQLServerTranslator.java:236-261 | a successful USING resolution has one equality per USING column, in declared order, between its unique left and right matches |
| SQLServerJoins.UsingFailureSticks | src/adql/translator/SQLServerTranslator.java:236-264 | the first lookup failure is the failure of the whole USING resolution |
| SQLServerJoins.ResolveUsing | src/adql/translator/SQLServerTranslator.java:236-264 | the USING loop returns the ` AND ` join of the USING equalities, or their first failure |
| SQLServerJoins.TranslateJoin | src/adql/translator/SQLServerTranslator.java:198-271 | the join text is the head, then `ON ` and the NATURAL or USING equalities, or else the ON condition; a failed resolution becomes a TranslationException naming both operands |
| SQLServerJoins.NaturalJoin | src/adql/translator/SQLServerTranslator.java:204-234 | a NATURAL join fails, with the lookup failure as cause, exactly when some left column blocks it; otherwise it ends with `ON ` and the reference equalities |
| SQLServerJoins.NaturalJoinWithoutCommonColumns | src/adql/translator/SQLServerTranslator.java:204-230 | a NATURAL join of operands sharing no column name ends with a bare `ON ` |
| SQLServerJoins.UsingJoin | src/adql/translator/SQLServerTranslator.java:236-264 | a USING join fails, with the lookup failure as cause, exactly when some USING column does not resolve; otherwise it ends with `ON ` and one equality per USING column, in order |
| SQLServerJoins.PlainJoin | src/adql/translator/SQLServerTranslator.java:266-270 | a join that is neither NATURAL nor USING never fails and is its head, followed by its ON condition when there is one |
| SQLServerFunctions.Parameter | src/adql/translator/SQLServerTranslator.java:436 | a parameter is present exactly when its index is below the parameter count; reading a missing one fails, naming it |
| SQLServerFunctions.TranslateMath | src/adql/translator/SQLServerTranslator.java:428-459 | a rendering fails exactly when it reads a parameter the function lacks, and then names the first missing one |
| SQLServerFunctions.DefaultRendering | src/adql/translator/SQLServerTranslator.java:456-457 | every function without an override goes to the default renderer |
| SQLServerFunctions.FloatCoercion | src/adql/translator/SQLServerTranslator.java:443-452 | ABS, CEILING, DEGREES, FLOOR and RADIANS render as their lower-cased name applied to `convert(float, a)` |
| SQLServerFunctions.ModRendering | src/adql/translator/SQLServerTranslator.java:433-434 | MOD renders `convert(float, a) % convert(float, b)`, or "" with fewer than two arguments |
| SQLServerFunctions.Atan2Rendering | src/adql/translator/SQLServerTranslator.java:435-436 | ATAN2 renders `ATN2(a, b)`; with fewer than two arguments it fails on the first missing one |
| SQLServerFunctions.RoundRendering | src/adql/translator/SQLServerTranslator.java:453-454 | ROUND renders `round(convert(float, a), b)`; with fewer than two arguments it fails on the first missing one |
| SQLServerFunctions.TruncateRendering | src/adql/translator/SQLServerTranslator.java:430-432 | TRUNCATE renders `round(convert(float, a, b),1)`, or `round(convert(float, ),1)` with fewer than two arguments |
| SQLServerFunctions.OverridesReadTwoParameters | src/adql/translator/SQLServerTranslator.java:430-454 | no override reads beyond the second parameter |
| SQLServerTypes.LengthParameter | src/adql/translator/SQLServerTranslator.java:471-477 | the first parameter parsed as an int, or NO_LENGTH when it is missing or unparsable |
| SQLServerTypes.ConvertTypeFromDB | src/adql/translator/SQLServerTranslator.java:462-518 | a null or blank name gives null; otherwise the type of the lower-cased name with the parsed length |
| SQLServerTypes.FromDBIgnoresCase | src/adql/translator/SQLServerTranslator.java:464-468 | the mapping gives the same result for a name and for its lower-cased form |
| SQLServerTypes.FloatPrecision | src/adql/translator/SQLServerTranslator.java:483-487 | `float`, in any case, is REAL for a precision of 1 to 24 and DOUBLE otherwise, including when the precision is missing or unparsable |
| SQLServerTypes.SizedTypesKeepTheirLength | src/adql/translator/SQLServerTranslator.java:489-500 | binary, varbinary, (n)char and (n)varchar keep the parsed length, which is NO_LENGTH without parameters |
| SQLServerTypes.UnknownNameIsNull | src/adql/translator/SQLServerTranslator.java:478-517 | a name whose lower-case form is none of the 26 names the mapping lists (smallint through date) gives null |
| SQLServerTypes.KnownNameHasType | src/adql/translator/SQLServerTranslator.java:478-514 | a non-blank name whose lower-case form is one of those 26 names always gives a type |
| SQLServerTypes.DeclaredLength | src/adql/translator/SQLServerTranslator.java:536 | a declared length is always positive: the type's own when positive, else 2048 |
| SQLServerTypes.SizedDeclarations | src/adql/translator/SQLServerTranslator.java:532-536 | CHAR, VARCHAR, BINARY and VARBINARY are written `TAG(len)` when len > 0, else `TAG(2048)` |
| SQLServerTypes.FallbackDeclarations | src/adql/translator/SQLServerTranslator.java:522-557 | POINT, REGION and unrecognised types are written `varchar`, and a null type `varchar(2048)` |
| SQLServerTypes.ConvertTypeToDB | src/adql/translator/SQLServerTranslator.java:521-559 | every written declaration is the rendering of DeclarationOf: a name, optionally followed by a parenthesised decimal length |
| SQLServerTypes.RoundTrip | src/adql/translator/SQLServerTranslator.java:462-559 | reading a written declaration back gives the same type, with its declared length for sized types; a null type comes back as VARCHAR(2048), and POINT, REGION and unknown types as VARCHAR without length |

## Left out

- Threading is left out: `Collections.synchronizedMap`, `synchronized(old)` and `notifyAll`. `Policy.Block` returns the evicted thread instead of waking it, and calls are taken one at a time.
- JobSummary.java and WaitObserver.java are not part of this model. They cover the servlet action, the WAIT parameter and the waiting thread itself. An accepted thread is not necessarily unblocked later, so no lemma claims that every block is paired with an unblock.
- Policy.Block and Policy.Unblocked state their effect on the map through OfferThread and UnblockStep, and the lemmas about those two functions carry the properties.
- The generic translator (JDBCTranslator) is not part of this model. It covers the sub-node translations, identifier quoting (appendIdentifier), getDefaultADQLFunction, `toADQL()`, `getName()` and `getDBColumns()`. These are parameters of type `Callees`, and they are taken to be total: a TranslationException thrown by a sub-node translation is not modelled.
- The IdentifierField bit encoding is not modelled: the case-sensitivity byte is four booleans.
- The geometry `translate` overrides only delegate to getDefaultADQLFunction, and translateGeometryFromDB and translateGeometryToDB always throw. None of them is modelled.
- ADQLJoin's search helpers are defined for this model over one name-matching rule. The text of UnresolvedJoinException's message is not modelled; the exception is the column name plus which side was searched.
- `new ADQLColumn(name)` is modelled as a plain, not case-sensitive column with that name. Parsing a dotted or quoted name is not modelled.
- TranslateJoin: `hasJoinedColumns()` is modelled as a non-empty USING list.
- TranslateQuery requires a non-empty SELECT. On an empty one, `translate(ClauseSelect)` returns null and the StringBuffer constructor would throw.
- TranslateSelect uses one separator for every item, where the source asks the clause for the separator of each index.
- TranslateMath: where the source reads a parameter the function does not have (ATAN2, ROUND, or ABS-style functions with too few arguments), it fails at run time. The model gives MissingParameter instead.
- Case mapping and digits are ASCII only. `String.toLowerCase` and `Integer.parseInt` on non-ASCII letters and digits are not modelled.
- ConvertTypeFromDB ignores the JDBC type code and the raw type name, as the source does. It models the parameter array as non-null strings.
- Java `long` and `int` widths are not modelled for timeouts and durations. `DbType.length` is an int field, and RoundTrip requires it to fit a Java int.
- `DEFAULT_VARIABLE_LENGTH` is the constant 2048. The source's field is mutable and static.
