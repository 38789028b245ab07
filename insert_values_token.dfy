/** The INSERT VALUES rewrite token: a text span of the original SQL and one
    entry per row, built up one row at a time. */
module InsertValuesTokens {
  import opened Statements

  /** One row of the token: the row's value expressions and the data nodes the
      row is valid for. An empty list of data nodes means "valid everywhere". */
  datatype InsertValueToken = InsertValueToken(values: seq<ExpressionSegment>, dataNodes: seq<DataNode>)

  /** The value a token holds once it is built. */
  datatype TokenValue = TokenValue(startIndex: int, stopIndex: int, insertValueTokens: seq<InsertValueToken>)

  class InsertValuesToken {
    const startIndex: int
    const stopIndex: int
    var insertValueTokens: seq<InsertValueToken>

    /** The token as a value. */
    function Value(): TokenValue
      reads this
    {
      TokenValue(startIndex, stopIndex, insertValueTokens)
    }

    constructor (startIndex: int, stopIndex: int)
      ensures this.startIndex == startIndex && this.stopIndex == stopIndex
      ensures insertValueTokens == []
    {
      this.startIndex := startIndex;
      this.stopIndex := stopIndex;
      insertValueTokens := [];
    }

    /** Appends one row; the span and the rows already there stay as they were. */
    method AddInsertValueToken(values: seq<ExpressionSegment>, dataNodes: seq<DataNode>)
      modifies this
      ensures insertValueTokens == old(insertValueTokens) + [InsertValueToken(values, dataNodes)]
    {
      insertValueTokens := insertValueTokens + [InsertValueToken(values, dataNodes)];
    }
  }
}
