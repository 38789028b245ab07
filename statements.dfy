/** The values the insert-values token generator reads: the parsed SQL statement
    (as far as the generator looks at it), the optimized statement built from it,
    and the sharding conditions that routing computed for it. */
module Statements {

  /** One physical target: a data source and an actual table in it. */
  datatype DataNode = DataNode(dataSourceName: string, tableName: string)

  /** One value expression of a row of an INSERT ... VALUES clause, as the
      parser produced it. The generator only passes expressions along. */
  datatype ExpressionSegment = ExpressionSegment(text: string)

  /** The text span of one parenthesised row of a VALUES clause, as offsets into
      the original SQL text. */
  datatype InsertValuesSegment = InsertValuesSegment(startIndex: int, stopIndex: int)

  /** One row of an INSERT as the optimizer sees it. */
  datatype InsertValue = InsertValue(valueExpressions: seq<ExpressionSegment>)

  /** The routing outcome for one row: the data nodes that row goes to. */
  datatype ShardingCondition = ShardingCondition(dataNodes: seq<DataNode>)

  /** The parsed statement. Only its kind and the result of looking up its
      InsertValuesSegment nodes matter here; the lookup is done by the parser. */
  datatype SQLStatement =
    | InsertStatement(insertValuesSegments: seq<InsertValuesSegment>)
    | OtherStatement(insertValuesSegments: seq<InsertValuesSegment>)

  /** The optimized statement. A sharding INSERT and any other INSERT (an
      encrypt-only one, say) both carry their rows; other statements carry none. */
  datatype OptimizedStatement =
    | ShardingInsertOptimizedStatement(sqlStatement: SQLStatement, insertValues: seq<InsertValue>)
    | InsertOptimizedStatement(sqlStatement: SQLStatement, insertValues: seq<InsertValue>)
    | OtherOptimizedStatement(sqlStatement: SQLStatement)

  /** What the rewrite phase works on: the optimized statement and the sharding
      conditions, in row order for an INSERT. */
  datatype RewriteStatement =
    RewriteStatement(optimizedStatement: OptimizedStatement, shardingConditions: seq<ShardingCondition>)

  /** Collaborators that the generator receives but never reads; each is
      reduced to an identity. */
  datatype ParameterBuilder = ParameterBuilder(id: nat)
  datatype EncryptRule = EncryptRule(id: nat)
}
