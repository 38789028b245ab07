# INSERT VALUES rewrite-token generator

A Dafny model of the multi-row INSERT `VALUES` rewrite-token generator of the
sharding middleware (`InsertValuesTokenGenerator`). The generator looks at a
statement and decides whether a token is needed. A token is needed only for an
INSERT statement that has at least one `InsertValuesSegment`, that is, one
parenthesised row of the `VALUES` clause. When a token is built:

- its text span runs from the smallest row start offset to the largest row stop offset;
- it holds one entry per row of the optimized INSERT, in row order, with that
  row's value expressions;
- for a sharding INSERT, entry N carries the data nodes of the N-th sharding
  condition, which the original draws from a shared iterator one row at a time;
- for any other INSERT (an encrypt-only one, say) every entry carries an empty
  data-node list, meaning "valid on every data node".

Files:

- `wrappers.dfy`: `Option` and `Result`.
- `statements.dfy`: the statement, optimized statement, row, segment, sharding
  condition and data node values that the generator reads.
- `insert_values_token.dfy`: the token. `TokenValue` is its value. The class
  `InsertValuesToken` has a fixed span and a `seq` of entries that grows through
  `AddInsertValueToken`.
- `insert_values_token_generator.dfy`: the generator. `GeneratedToken` is the
  token as a function of the statement. `ZipEntries` pairs rows with the
  conditions the iterator has not yet handed out. The imperative methods
  `GenerateSQLToken`, `CreateInsertValuesToken`, `GetStartIndex` and
  `GetStopIndex` follow the original's loops and are proved against those
  functions. The lemmas state the properties.

The original signals two failures by throwing. The model returns them as
`Failure` results instead:

- `ClassCastError`: the SQL statement is an INSERT but the optimized statement
  is not an INSERT one, so the cast in the row loop fails.
- `NoSuchElementError`: a sharding INSERT has fewer sharding conditions than
  rows, so the iterator's `next()` fails.

Either way the partly built token is discarded, so the model returns only the
error.

A sharding INSERT's optimized statement is modelled as a kind of INSERT
optimized statement, so it always passes the cast. That class is not part of
this model. The assumption comes from lines 60-63 of the generator, which
open the sharding-condition iterator only for a sharding INSERT and then cast
the same statement to an INSERT one.

The private span helpers are only reached behind the "has segments" guard.
They therefore keep the original's demand of a non-empty segment list as a
`requires`, and every caller is proved to meet it.

## Model

| member | source | states |
|---|---|---|
| `InsertValuesTokenGenerator.GenerateSQLToken` | sharding-core/sharding-core-rewrite/src/main/java/org/apache/shardingsphere/core/rewrite/token/generator/InsertValuesTokenGenerator.java:45-51 | The returned token, its absence or its error equals `GeneratedToken` of the rewrite statement alone. So the parameter builder, the encrypt rule and the cipher-column flag cannot affect it. A returned token is a new object. |
| `InsertValuesTokenGenerator.GeneratedToken` | sharding-core/sharding-core-rewrite/src/main/java/org/apache/shardingsphere/core/rewrite/token/generator/InsertValuesTokenGenerator.java:45-51 | The generator's answer as a value. Anything other than "no token" (a token or an error) arises only for an INSERT statement with row segments. A present token has an INSERT optimized statement and one entry per row. `GeneratedTokenAbsentIff`, `GeneratedTokenFailsIff`, `GeneratedTokenSpan`, `GeneratedTokenRows` and `ConsumedConditionsDetermineToken` prove the full promises about it. |
| `InsertValuesTokenGenerator.IsNeedToGenerateSQLToken` | sharding-core/sharding-core-rewrite/src/main/java/org/apache/shardingsphere/core/rewrite/token/generator/InsertValuesTokenGenerator.java:53-55 | The line-54 guard. When it holds, the segment list is non-empty, so seeding the span loops with the first segment (lines 71 and 79) is safe. `GeneratedTokenAbsentIff` states that the guard failing is exactly the no-token case. |
| `InsertValuesTokenGenerator.CreatedToken` | sharding-core/sharding-core-rewrite/src/main/java/org/apache/shardingsphere/core/rewrite/token/generator/InsertValuesTokenGenerator.java:57-68 | The token built behind the guard, as a value. A built token's span covers every row segment and it has one entry per row. It fails with the class-cast error exactly when the optimized statement is not an INSERT one; any other failure is running out of conditions. |
| `InsertValuesTokenGenerator.ZipEntries` | sharding-core/sharding-core-rewrite/src/main/java/org/apache/shardingsphere/core/rewrite/token/generator/InsertValuesTokenGenerator.java:59-66 | The row loop as a recursion over the rows and the conditions the iterator has not yet handed out. A successful pairing has one entry per row. A failure is always the no-such-element error, and only happens when there is an iterator. |
| `InsertValuesTokenGenerator.GeneratedTokenAbsentIff` | sharding-core/sharding-core-rewrite/src/main/java/org/apache/shardingsphere/core/rewrite/token/generator/InsertValuesTokenGenerator.java:49-55 | No token (and no error) exactly when the SQL statement is not an INSERT or has no VALUES row segments. |
| `InsertValuesTokenGenerator.GeneratedTokenFailsIff` | sharding-core/sharding-core-rewrite/src/main/java/org/apache/shardingsphere/core/rewrite/token/generator/InsertValuesTokenGenerator.java:57-66 | For an INSERT with row segments, generation fails exactly in two cases. If the optimized statement is not an INSERT one, the error is the class cast. If a sharding INSERT has fewer conditions than rows, the error is running past the end of the iterator. Otherwise a token is present. |
| `InsertValuesTokenGenerator.GeneratedTokenSpan` | sharding-core/sharding-core-rewrite/src/main/java/org/apache/shardingsphere/core/rewrite/token/generator/InsertValuesTokenGenerator.java:58 | A generated token starts at or before every row segment's start and stops at or after every row segment's stop. Its start is some segment's start and its stop is some segment's stop. |
| `InsertValuesTokenGenerator.GeneratedTokenRows` | sharding-core/sharding-core-rewrite/src/main/java/org/apache/shardingsphere/core/rewrite/token/generator/InsertValuesTokenGenerator.java:59-66 | A generated token has exactly one entry per row, in row order, each with that row's value expressions unchanged. For a sharding INSERT there are at least as many conditions as rows, and entry i holds the data nodes of condition i. For any other INSERT every entry's data-node list is empty. |
| `InsertValuesTokenGenerator.ConsumedConditionsDetermineToken` | sharding-core/sharding-core-rewrite/src/main/java/org/apache/shardingsphere/core/rewrite/token/generator/InsertValuesTokenGenerator.java:59-64 | Replacing the sharding conditions leaves the result unchanged in these cases. For a sharding INSERT, either both lists hold at least one condition per row and agree on the first one-per-row conditions (extra conditions are never drawn), or both lists are too short (both fail on the iterator). For any other INSERT, the conditions are never read at all. |
| `InsertValuesTokenGenerator.CreateInsertValuesToken` | sharding-core/sharding-core-rewrite/src/main/java/org/apache/shardingsphere/core/rewrite/token/generator/InsertValuesTokenGenerator.java:57-68 | Building a token from a non-empty segment list gives either a new token whose span and entries equal `CreatedToken`, or that function's error. The loop appends one entry per row and advances the condition cursor once per row of a sharding INSERT. |
| `InsertValuesTokenGenerator.GetStartIndex` | sharding-core/sharding-core-rewrite/src/main/java/org/apache/shardingsphere/core/rewrite/token/generator/InsertValuesTokenGenerator.java:70-76 | The running minimum, seeded with the first segment, ends at or below every segment's start offset and equal to one of them, which is `MinStartIndex`. |
| `InsertValuesTokenGenerator.GetStopIndex` | sharding-core/sharding-core-rewrite/src/main/java/org/apache/shardingsphere/core/rewrite/token/generator/InsertValuesTokenGenerator.java:78-84 | The running maximum, seeded with the first segment, ends at or above every segment's stop offset and equal to one of them, which is `MaxStopIndex`. |
| `InsertValuesTokenGenerator.MinStartIndex` | sharding-core/sharding-core-rewrite/src/main/java/org/apache/shardingsphere/core/rewrite/token/generator/InsertValuesTokenGenerator.java:70-76 | The reference minimum of a non-empty segment list is at most every start offset and equal to one of them. |
| `InsertValuesTokenGenerator.MaxStopIndex` | sharding-core/sharding-core-rewrite/src/main/java/org/apache/shardingsphere/core/rewrite/token/generator/InsertValuesTokenGenerator.java:78-84 | The reference maximum of a non-empty segment list is at least every stop offset and equal to one of them. |
| `InsertValuesTokenGenerator.SpanIndependentOfSegmentOrder` | sharding-core/sharding-core-rewrite/src/main/java/org/apache/shardingsphere/core/rewrite/token/generator/InsertValuesTokenGenerator.java:48 | The segments come as a collection with no fixed iteration order. Any reordering of them gives the same start and stop offsets. |
| `InsertValuesTokenGenerator.ZipEntriesSucceedsIff` | sharding-core/sharding-core-rewrite/src/main/java/org/apache/shardingsphere/core/rewrite/token/generator/InsertValuesTokenGenerator.java:63-64 | Pairing rows with the iterator's conditions succeeds exactly when there is no iterator or the iterator holds at least one condition per row. Otherwise it fails with the no-such-element error. |
| `InsertValuesTokenGenerator.ZipEntriesAt` | sharding-core/sharding-core-rewrite/src/main/java/org/apache/shardingsphere/core/rewrite/token/generator/InsertValuesTokenGenerator.java:63-65 | A successful pairing has one entry per row. Entry i holds row i's expressions and the data nodes of condition i, or an empty list when there is no iterator. |
| `InsertValuesTokens.InsertValuesToken.constructor` | sharding-core/sharding-core-rewrite/src/main/java/org/apache/shardingsphere/core/rewrite/token/generator/InsertValuesTokenGenerator.java:58 | A new token has the given start and stop offsets and no entries. |
| `InsertValuesTokens.InsertValuesToken.AddInsertValueToken` | sharding-core/sharding-core-rewrite/src/main/java/org/apache/shardingsphere/core/rewrite/token/generator/InsertValuesTokenGenerator.java:65 | Appending a row adds exactly one entry, holding the given expressions and data nodes, after the existing ones. The span does not change. |

## Left out

- The `InsertValuesToken` class's own source file is not part of this model. The
  class is modelled from how the generator uses it: construction with a span,
  and appending one row at a time. Rendering the token to SQL text is not
  modelled, and neither is the per-data-node filtering a later assembly step
  does with the token.
- The parser's segment lookup (`findSQLSegments`) is taken as given: a statement
  carries the list of its VALUES row segments.
- How a sharding condition's data nodes are computed is routing, and the routing
  engine is not part of this model. A condition is modelled as its list of data nodes.
- The complex routing engine and its test are left out. Only the test is
  available, and its expected results depend on fixtures and sharding
  algorithms that are not part of this model.
- `ShardingConditionOptimizedStatement` only holds data and delegates to a
  table collection that is not part of this model. It has no logic to state.
- The parameter builder and the encrypt rule are passed to the generator, which
  never reads them. They appear only as inputs to `GenerateSQLToken`.
- The original shares the data-node collection object of each sharding condition
  with the token. The model copies it as a value, so aliasing is not captured.
- Offsets are unbounded integers. Java's `int` cannot overflow here, because the
  span only takes the minimum and maximum of existing offsets.
