/** Generator of the INSERT VALUES rewrite token.

    For an INSERT with at least one VALUES row segment it builds a token whose
    span runs from the smallest row start offset to the largest row stop offset
    and which holds, for every row in order, the row's value expressions and the
    data nodes the row is routed to: the N-th sharding condition's data nodes for
    a sharding INSERT, an empty list (valid everywhere) for any other INSERT.
    Any other statement gets no token.

    The runtime exceptions of the original are results here: the cast of the
    optimized statement to an INSERT one, and advancing the sharding-condition
    iterator past its end. */
module InsertValuesTokenGenerator {
  import opened Wrappers
  import opened Statements
  import opened InsertValuesTokens

  datatype GenerationError =
    | ClassCastError      // the SQL statement is an INSERT but the optimized statement is not
    | NoSuchElementError  // a sharding INSERT has fewer sharding conditions than rows

  // ---------------------------------------------------------------------------
  // Specification: the token as a value
  // ---------------------------------------------------------------------------

  /** A token is wanted for an INSERT statement that has VALUES row segments.
      Passing this guard is what makes it safe to seed the span computations
      with the first segment. */
  predicate IsNeedToGenerateSQLToken(optimizedStatement: OptimizedStatement, insertValuesSegments: seq<InsertValuesSegment>): (r: bool)
    ensures r ==> |insertValuesSegments| > 0
  {
    optimizedStatement.sqlStatement.InsertStatement? && |insertValuesSegments| > 0
  }

  /** The smallest start offset of the row segments. */
  function MinStartIndex(segments: seq<InsertValuesSegment>): (r: int)
    requires |segments| > 0
    ensures forall s :: s in segments ==> r <= s.startIndex
    ensures exists s :: s in segments && r == s.startIndex
  {
    if |segments| == 1 then segments[0].startIndex
    else
      var rest := MinStartIndex(segments[1..]);
      assert forall s :: s in segments[1..] ==> s in segments;
      if segments[0].startIndex < rest then segments[0].startIndex else rest
  }

  /** The largest stop offset of the row segments. */
  function MaxStopIndex(segments: seq<InsertValuesSegment>): (r: int)
    requires |segments| > 0
    ensures forall s :: s in segments ==> s.stopIndex <= r
    ensures exists s :: s in segments && r == s.stopIndex
  {
    if |segments| == 1 then segments[0].stopIndex
    else
      var rest := MaxStopIndex(segments[1..]);
      assert forall s :: s in segments[1..] ==> s in segments;
      if segments[0].stopIndex > rest then segments[0].stopIndex else rest
  }

  /** The entry the token holds for row `i`: that row's expressions, and the
      data nodes of sharding condition `i` when there are conditions at all. */
  function EntryAt(insertValues: seq<InsertValue>, conditions: Option<seq<ShardingCondition>>, i: nat): InsertValueToken
    requires i < |insertValues|
    requires conditions.Some? ==> i < |conditions.value|
  {
    InsertValueToken(insertValues[i].valueExpressions,
                     if conditions.None? then [] else conditions.value[i].dataNodes)
  }

  /** The rows of the token, pairing each row with the next sharding condition.
      `conditions` is what the iterator has not yet handed out, or None when
      there is no iterator (a non-sharding INSERT). */
  function ZipEntries(insertValues: seq<InsertValue>, conditions: Option<seq<ShardingCondition>>): (r: Result<seq<InsertValueToken>, GenerationError>)
    ensures r.Success? ==> |r.value| == |insertValues|
    ensures r.Failure? ==> r.error == NoSuchElementError && conditions.Some?
    decreases |insertValues|
  {
    if insertValues == [] then Success([])
    else if conditions.Some? && conditions.value == [] then Failure(NoSuchElementError)
    else
      var dataNodes := if conditions.None? then [] else conditions.value[0].dataNodes;
      var remaining := if conditions.None? then None else Some(conditions.value[1..]);
      match ZipEntries(insertValues[1..], remaining)
      case Success(tail) => Success([InsertValueToken(insertValues[0].valueExpressions, dataNodes)] + tail)
      case Failure(e) => Failure(e)
  }

  /** The sharding conditions a row iterator is opened on, if any. */
  function ConditionIterator(rewriteStatement: RewriteStatement): Option<seq<ShardingCondition>>
  {
    if rewriteStatement.optimizedStatement.ShardingInsertOptimizedStatement?
    then Some(rewriteStatement.shardingConditions) else None
  }

  /** The token built for a statement known to have row segments. */
  function CreatedToken(rewriteStatement: RewriteStatement, segments: seq<InsertValuesSegment>): (r: Result<TokenValue, GenerationError>)
    requires |segments| > 0
    ensures r.Success? ==> forall s :: s in segments ==>
              r.value.startIndex <= s.startIndex && s.stopIndex <= r.value.stopIndex
    ensures r.Success? ==> && !rewriteStatement.optimizedStatement.OtherOptimizedStatement?
                           && |r.value.insertValueTokens| == |rewriteStatement.optimizedStatement.insertValues|
    ensures r.Failure? ==> (r.error == ClassCastError <==> rewriteStatement.optimizedStatement.OtherOptimizedStatement?)
  {
    var optimized := rewriteStatement.optimizedStatement;
    if optimized.OtherOptimizedStatement? then Failure(ClassCastError)
    else
      match ZipEntries(optimized.insertValues, ConditionIterator(rewriteStatement))
      case Success(entries) => Success(TokenValue(MinStartIndex(segments), MaxStopIndex(segments), entries))
      case Failure(e) => Failure(e)
  }

  /** The generator's answer for a statement: no token, a token, or an error. */
  function GeneratedToken(rewriteStatement: RewriteStatement): (r: Result<Option<TokenValue>, GenerationError>)
    ensures !(r.Success? && r.value.None?) ==>
              && rewriteStatement.optimizedStatement.sqlStatement.InsertStatement?
              && |rewriteStatement.optimizedStatement.sqlStatement.insertValuesSegments| > 0
    ensures r.Success? && r.value.Some? ==>
              && !rewriteStatement.optimizedStatement.OtherOptimizedStatement?
              && |r.value.value.insertValueTokens| == |rewriteStatement.optimizedStatement.insertValues|
  {
    var segments := rewriteStatement.optimizedStatement.sqlStatement.insertValuesSegments;
    if !IsNeedToGenerateSQLToken(rewriteStatement.optimizedStatement, segments) then Success(None)
    else
      match CreatedToken(rewriteStatement, segments)
      case Success(token) => Success(Some(token))
      case Failure(e) => Failure(e)
  }

  /** The value held by a generated token object. */
  function GeneratedValue(r: Result<Option<InsertValuesToken>, GenerationError>): Result<Option<TokenValue>, GenerationError>
    reads if r.Success? && r.value.Some? then {r.value.value} else {}
  {
    match r
    case Failure(e) => Failure(e)
    case Success(None) => Success(None)
    case Success(Some(token)) => Success(Some(token.Value()))
  }

  // ---------------------------------------------------------------------------
  // The generator
  // ---------------------------------------------------------------------------

  /** Generates the token for a statement. The parameter builder, the encrypt
      rule and the cipher-column flag are accepted and never read: the result is
      a function of the statement alone. */
  method GenerateSQLToken(rewriteStatement: RewriteStatement, parameterBuilder: ParameterBuilder,
                          encryptRule: EncryptRule, isQueryWithCipherColumn: bool)
    returns (r: Result<Option<InsertValuesToken>, GenerationError>)
    ensures r.Success? && r.value.Some? ==> fresh(r.value.value)
    ensures GeneratedValue(r) == GeneratedToken(rewriteStatement)
  {
    var insertValuesSegments := rewriteStatement.optimizedStatement.sqlStatement.insertValuesSegments;
    if IsNeedToGenerateSQLToken(rewriteStatement.optimizedStatement, insertValuesSegments) {
      var created := CreateInsertValuesToken(rewriteStatement, insertValuesSegments);
      match created
      case Success(token) => r := Success(Some(token));
      case Failure(e) => r := Failure(e);
    } else {
      r := Success(None);
    }
  }

  /** Builds the token: the span first, then one entry per row, drawing the
      next sharding condition for each row of a sharding INSERT. */
  method CreateInsertValuesToken(rewriteStatement: RewriteStatement, insertValuesSegments: seq<InsertValuesSegment>)
    returns (r: Result<InsertValuesToken, GenerationError>)
    requires |insertValuesSegments| > 0
    ensures r.Success? ==> fresh(r.value)
    ensures CreatedToken(rewriteStatement, insertValuesSegments)
            == if r.Success? then Success(r.value.Value()) else Failure(r.error)
  {
    var startIndex := GetStartIndex(insertValuesSegments);
    var stopIndex := GetStopIndex(insertValuesSegments);
    var result := new InsertValuesToken(startIndex, stopIndex);
    var optimized := rewriteStatement.optimizedStatement;
    var hasIterator := optimized.ShardingInsertOptimizedStatement?;
    var shardingConditions := rewriteStatement.shardingConditions;
    var cursor := 0;
    if optimized.OtherOptimizedStatement? {
      return Failure(ClassCastError);
    }
    var insertValues := optimized.insertValues;
    ghost var conditionIterator := ConditionIterator(rewriteStatement);
    for i := 0 to |insertValues|
      invariant cursor == (if hasIterator then i else 0)
      invariant hasIterator ==> i <= |shardingConditions|
      invariant |result.insertValueTokens| == i
      invariant forall k :: 0 <= k < i ==> result.insertValueTokens[k] == EntryAt(insertValues, conditionIterator, k)
    {
      var dataNodes: seq<DataNode>;
      if hasIterator {
        if cursor >= |shardingConditions| {
          ZipEntriesSucceedsIff(insertValues, conditionIterator);
          return Failure(NoSuchElementError);
        }
        dataNodes := shardingConditions[cursor].dataNodes;
        cursor := cursor + 1;
      } else {
        dataNodes := [];
      }
      result.AddInsertValueToken(insertValues[i].valueExpressions, dataNodes);
    }
    ZipEntriesSucceedsIff(insertValues, conditionIterator);
    ZipEntriesAt(insertValues, conditionIterator);
    assert result.insertValueTokens == ZipEntries(insertValues, conditionIterator).value;
    r := Success(result);
  }

  /** The smallest start offset, by a running minimum seeded with the first segment. */
  method GetStartIndex(insertValuesSegments: seq<InsertValuesSegment>) returns (result: int)
    requires |insertValuesSegments| > 0
    ensures forall s :: s in insertValuesSegments ==> result <= s.startIndex
    ensures exists s :: s in insertValuesSegments && result == s.startIndex
    ensures result == MinStartIndex(insertValuesSegments)
  {
    result := insertValuesSegments[0].startIndex;
    for i := 0 to |insertValuesSegments|
      invariant forall s :: s in insertValuesSegments[..i] ==> result <= s.startIndex
      invariant exists s :: s in insertValuesSegments && result == s.startIndex
    {
      var each := insertValuesSegments[i];
      result := if result > each.startIndex then each.startIndex else result;
    }
    assert insertValuesSegments[..|insertValuesSegments|] == insertValuesSegments;
  }

  /** The largest stop offset, by a running maximum seeded with the first segment. */
  method GetStopIndex(insertValuesSegments: seq<InsertValuesSegment>) returns (result: int)
    requires |insertValuesSegments| > 0
    ensures forall s :: s in insertValuesSegments ==> s.stopIndex <= result
    ensures exists s :: s in insertValuesSegments && result == s.stopIndex
    ensures result == MaxStopIndex(insertValuesSegments)
  {
    result := insertValuesSegments[0].stopIndex;
    for i := 0 to |insertValuesSegments|
      invariant forall s :: s in insertValuesSegments[..i] ==> s.stopIndex <= result
      invariant exists s :: s in insertValuesSegments && result == s.stopIndex
    {
      var each := insertValuesSegments[i];
      result := if result < each.stopIndex then each.stopIndex else result;
    }
    assert insertValuesSegments[..|insertValuesSegments|] == insertValuesSegments;
  }

  // ---------------------------------------------------------------------------
  // Properties
  // ---------------------------------------------------------------------------

  /** Pairing rows with conditions fails exactly when a sharding iterator runs
      out before the rows do, and then with NoSuchElementError. */
  lemma {:induction false} ZipEntriesSucceedsIff(insertValues: seq<InsertValue>, conditions: Option<seq<ShardingCondition>>)
    ensures ZipEntries(insertValues, conditions).Success?
            <==> (conditions.None? || |insertValues| <= |conditions.value|)
    ensures ZipEntries(insertValues, conditions).Failure?
            ==> ZipEntries(insertValues, conditions).error == NoSuchElementError
    decreases |insertValues|
  {
    if insertValues != [] && !(conditions.Some? && conditions.value == []) {
      var remaining := if conditions.None? then None else Some(conditions.value[1..]);
      ZipEntriesSucceedsIff(insertValues[1..], remaining);
    }
  }

  /** A successful pairing has one entry per row, in row order, each holding
      that row's expressions unchanged and the data nodes of the condition at
      the same position (none when there is no iterator). */
  lemma {:induction false} ZipEntriesAt(insertValues: seq<InsertValue>, conditions: Option<seq<ShardingCondition>>)
    requires ZipEntries(insertValues, conditions).Success?
    ensures conditions.Some? ==> |insertValues| <= |conditions.value|
    ensures |ZipEntries(insertValues, conditions).value| == |insertValues|
    ensures forall i :: 0 <= i < |insertValues| ==>
              ZipEntries(insertValues, conditions).value[i] == EntryAt(insertValues, conditions, i)
    decreases |insertValues|
  {
    if insertValues != [] {
      var remaining := if conditions.None? then None else Some(conditions.value[1..]);
      ZipEntriesAt(insertValues[1..], remaining);
      var entries := ZipEntries(insertValues, conditions).value;
      forall i | 0 <= i < |insertValues|
        ensures entries[i] == EntryAt(insertValues, conditions, i)
      {
        if i > 0 {
          assert entries[i] == EntryAt(insertValues[1..], remaining, i - 1);
        }
      }
    }
  }

  /** No token exactly when the statement is not an INSERT or has no row
      segments; that answer is never an error. */
  lemma GeneratedTokenAbsentIff(rewriteStatement: RewriteStatement)
    ensures GeneratedToken(rewriteStatement) == Success(None)
            <==> !(rewriteStatement.optimizedStatement.sqlStatement.InsertStatement?
                   && |rewriteStatement.optimizedStatement.sqlStatement.insertValuesSegments| > 0)
  {
  }

  /** For an INSERT with row segments the generator fails exactly when the
      optimized statement is not an INSERT one (ClassCastError) or when it is a
      sharding INSERT with fewer conditions than rows (NoSuchElementError);
      otherwise a token is present. */
  lemma GeneratedTokenFailsIff(rewriteStatement: RewriteStatement)
    requires rewriteStatement.optimizedStatement.sqlStatement.InsertStatement?
    requires |rewriteStatement.optimizedStatement.sqlStatement.insertValuesSegments| > 0
    ensures var optimized := rewriteStatement.optimizedStatement;
            GeneratedToken(rewriteStatement).Failure?
            <==> (|| optimized.OtherOptimizedStatement?
                  || (optimized.ShardingInsertOptimizedStatement?
                      && |rewriteStatement.shardingConditions| < |optimized.insertValues|))
    ensures GeneratedToken(rewriteStatement).Failure? ==>
              GeneratedToken(rewriteStatement).error
              == if rewriteStatement.optimizedStatement.OtherOptimizedStatement?
                 then ClassCastError else NoSuchElementError
    ensures GeneratedToken(rewriteStatement).Success? ==> GeneratedToken(rewriteStatement).value.Some?
  {
    var optimized := rewriteStatement.optimizedStatement;
    if !optimized.OtherOptimizedStatement? {
      ZipEntriesSucceedsIff(optimized.insertValues, ConditionIterator(rewriteStatement));
    }
  }

  /** The span of a generated token starts at the smallest row start and stops
      at the largest row stop, so it covers every row segment. */
  lemma GeneratedTokenSpan(rewriteStatement: RewriteStatement)
    requires GeneratedToken(rewriteStatement).Success? && GeneratedToken(rewriteStatement).value.Some?
    ensures var token := GeneratedToken(rewriteStatement).value.value;
            var segments := rewriteStatement.optimizedStatement.sqlStatement.insertValuesSegments;
            && (forall s :: s in segments ==> token.startIndex <= s.startIndex && s.stopIndex <= token.stopIndex)
            && (exists s :: s in segments && token.startIndex == s.startIndex)
            && (exists s :: s in segments && token.stopIndex == s.stopIndex)
  {
  }

  /** A generated token has one entry per row of the optimized INSERT, in row
      order, carrying that row's expressions unchanged; for a sharding INSERT
      entry i carries the data nodes of sharding condition i, for any other
      INSERT an empty list. */
  lemma GeneratedTokenRows(rewriteStatement: RewriteStatement)
    requires GeneratedToken(rewriteStatement).Success? && GeneratedToken(rewriteStatement).value.Some?
    ensures var optimized := rewriteStatement.optimizedStatement;
            var entries := GeneratedToken(rewriteStatement).value.value.insertValueTokens;
            && optimized.sqlStatement.InsertStatement?
            && !optimized.OtherOptimizedStatement?
            && |entries| == |optimized.insertValues|
            && (optimized.ShardingInsertOptimizedStatement? ==>
                  |optimized.insertValues| <= |rewriteStatement.shardingConditions|)
            && forall i :: 0 <= i < |entries| ==>
                 && entries[i].values == optimized.insertValues[i].valueExpressions
                 && entries[i].dataNodes
                    == if optimized.ShardingInsertOptimizedStatement?
                       then rewriteStatement.shardingConditions[i].dataNodes
                       else []
  {
    var optimized := rewriteStatement.optimizedStatement;
    ZipEntriesAt(optimized.insertValues, ConditionIterator(rewriteStatement));
  }

  /** The row segments are a collection whose iteration order is not fixed: any
      reordering of them gives the same span. */
  lemma SpanIndependentOfSegmentOrder(a: seq<InsertValuesSegment>, b: seq<InsertValuesSegment>)
    requires |a| > 0 && multiset(a) == multiset(b)
    ensures |b| > 0
    ensures MinStartIndex(a) == MinStartIndex(b)
    ensures MaxStopIndex(a) == MaxStopIndex(b)
  {
    assert forall s :: s in a <==> s in b by {
      forall s ensures s in a <==> s in b {
        assert s in a <==> s in multiset(a);
        assert s in b <==> s in multiset(b);
      }
    }
    assert |b| > 0 by {
      assert a[0] in b;
    }
  }

  /** Only the conditions the rows consume matter. A sharding INSERT gives the
      same answer for two condition lists that both hold at least one condition
      per row and agree on the first |rows| of them, and also for two lists that
      are both too short (both fail on the iterator). Any other INSERT reads no
      condition at all. */
  lemma ConsumedConditionsDetermineToken(rewriteStatement: RewriteStatement, otherConditions: seq<ShardingCondition>)
    requires var optimized := rewriteStatement.optimizedStatement;
             var conditions := rewriteStatement.shardingConditions;
             optimized.ShardingInsertOptimizedStatement? ==>
               || (&& |optimized.insertValues| <= |conditions|
                   && |optimized.insertValues| <= |otherConditions|
                   && conditions[..|optimized.insertValues|] == otherConditions[..|optimized.insertValues|])
               || (|conditions| < |optimized.insertValues| && |otherConditions| < |optimized.insertValues|)
    ensures GeneratedToken(rewriteStatement)
            == GeneratedToken(rewriteStatement.(shardingConditions := otherConditions))
  {
    var optimized := rewriteStatement.optimizedStatement;
    var other := rewriteStatement.(shardingConditions := otherConditions);
    if !optimized.OtherOptimizedStatement? {
      var values := optimized.insertValues;
      var it1, it2 := ConditionIterator(rewriteStatement), ConditionIterator(other);
      ZipEntriesSucceedsIff(values, it1);
      ZipEntriesSucceedsIff(values, it2);
      if ZipEntries(values, it1).Success? {
        ZipEntriesAt(values, it1);
        ZipEntriesAt(values, it2);
        var e1, e2 := ZipEntries(values, it1).value, ZipEntries(values, it2).value;
        forall i | 0 <= i < |values| ensures e1[i] == e2[i] {
          if optimized.ShardingInsertOptimizedStatement? {
            assert rewriteStatement.shardingConditions[i]
                   == rewriteStatement.shardingConditions[..|values|][i];
          }
        }
        assert e1 == e2;
      }
    }
  }
}
