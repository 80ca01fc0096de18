/**
 * Running the accepted statements against the review database (src/logic.ts,
 * `formatQueryResponse` and `runQueries`). The SQLite engine is an oracle: given the
 * statements already run in this batch and the next one, it either throws with a
 * message or returns a list of result sets.
 */
module Executor {
  import opened Wrappers
  import opened Text

  /** A cell as the engine returns it: a number, a text, a blob or NULL. */
  datatype SqlValue = SqlNumber(number: real) | SqlText(text: string) | SqlBlob(bytes: seq<bv8>) | SqlNull

  /** One result set: the column names and one list of cells per row. */
  datatype QueryExecResult = QueryExecResult(columns: seq<string>, values: seq<seq<SqlValue>>)

  datatype ExecOutcome = Threw(message: string) | Returned(results: seq<QueryExecResult>)

  /** The engine, applied to the statements already run in the batch and the next statement;
      the first argument stands for the database state those statements left behind. */
  type Exec = (seq<string>, string) -> ExecOutcome

  /** A row as a record from column name to cell. */
  type Row = map<string, SqlValue>

  /** What `runQueries` hands on: rows per statement that ran, and the statements that failed. */
  datatype QueryResponses = QueryResponses(success: map<string, seq<Row>>, fail: seq<string>)

  /** The text of the error `formatQueryResponse` throws, and the part of it `runQueries`
      recognises. */
  const OneEntryPhrase: string := "to be an array with one entry."
  const OneEntryError: string := "Expected query response " + OneEntryPhrase

  /** The single row recorded for a statement that did not give exactly one result set
      (the text's spelling is the program's). */
  const NoRowsMessage: string := "now rows returned"
  const SentinelRows: seq<Row> := [map["message" := SqlText(NoRowsMessage)]]

  /** `columns[index]` used as a property name: past the end it is `undefined`, which names
      the property "undefined". */
  function ColumnKey(columns: seq<string>, index: nat): string
  {
    if index < |columns| then columns[index] else "undefined"
  }

  /** The record `row.forEach` builds: cell by cell, each cell stored under its column's name,
      so that a later cell under the same name replaces an earlier one. Its keys are exactly
      the names of the cells' columns. */
  function RowObject(columns: seq<string>, row: seq<SqlValue>): (converted: Row)
    ensures forall index :: 0 <= index < |row| ==> ColumnKey(columns, index) in converted
    ensures forall k <- converted :: exists index :: 0 <= index < |row| && ColumnKey(columns, index) == k
    decreases |row|
  {
    if row == [] then map[]
    else
      var prev := RowObject(columns, row[..|row| - 1]);
      assert forall index :: 0 <= index < |row| - 1 ==> row[..|row| - 1][index] == row[index];
      prev[ColumnKey(columns, |row| - 1) := row[|row| - 1]]
  }

  lemma RowObjectStep(columns: seq<string>, row: seq<SqlValue>, index: nat)
    requires index < |row|
    ensures RowObject(columns, row[..index + 1]) == RowObject(columns, row[..index])[ColumnKey(columns, index) := row[index]]
  {
    assert row[..index + 1][..index] == row[..index];
  }

  /** The rows of one result set. */
  function Rows(result: QueryExecResult): seq<Row>
  {
    seq(|result.values|, i requires 0 <= i < |result.values| => RowObject(result.columns, result.values[i]))
  }

  /** `formatQueryResponse`: fails with `OneEntryError` unless there is exactly one result
      set; otherwise one record per row of that set, in order. */
  method FormatQueryResponse(response: seq<QueryExecResult>) returns (r: Result<seq<Row>>)
    ensures |response| != 1 ==> r == Err(OneEntryError)
    ensures |response| == 1 ==> r.Ok? && |r.value| == |response[0].values|
    ensures |response| == 1 ==> forall i :: 0 <= i < |r.value| ==> r.value[i] == RowObject(response[0].columns, response[0].values[i])
  {
    if |response| != 1 {
      return Err(OneEntryError);
    }
    var columns := response[0].columns;
    var rows: seq<Row> := [];
    var i := 0;
    while i < |response[0].values|
      invariant 0 <= i <= |response[0].values|
      invariant |rows| == i
      invariant forall k :: 0 <= k < i ==> rows[k] == RowObject(columns, response[0].values[k])
    {
      var converted := ConvertRow(columns, response[0].values[i]);
      rows := rows + [converted];
      i := i + 1;
    }
    return Ok(rows);
  }

  /** The `row.forEach` of `formatQueryResponse`: cell by cell into an empty record. */
  method ConvertRow(columns: seq<string>, row: seq<SqlValue>) returns (converted: Row)
    ensures converted == RowObject(columns, row)
  {
    converted := map[];
    var index := 0;
    while index < |row|
      invariant 0 <= index <= |row|
      invariant converted == RowObject(columns, row[..index])
    {
      RowObjectStep(columns, row, index);
      converted := converted[ColumnKey(columns, index) := row[index]];
      index := index + 1;
    }
    assert row[..|row|] == row;
  }

  /** Where one statement ends up: rows under its key, or the fail list. */
  datatype Settled = Succeeded(rows: seq<Row>) | Failed

  /** The fate of one statement: an engine error lands in `fail` unless its message contains
      `OneEntryPhrase`; a list of result sets other than exactly one gives the sentinel row;
      exactly one gives its rows. */
  function Settle(outcome: ExecOutcome): Settled
  {
    match outcome
    case Threw(message) => if Includes(message, OneEntryPhrase) then Succeeded(SentinelRows) else Failed
    case Returned(results) => if |results| == 1 then Succeeded(Rows(results[0])) else Succeeded(SentinelRows)
  }

  /** The state `runQueries` has built after the given statements, in order. */
  function Batch(exec: Exec, queries: seq<string>): QueryResponses
    decreases |queries|
  {
    if queries == [] then QueryResponses(map[], [])
    else
      var n := |queries| - 1;
      Record(Batch(exec, queries[..n]), queries[n], Settle(exec(queries[..n], queries[n])))
  }

  /** Adds one settled statement to the state: its rows under its text, or its text to `fail`. */
  function Record(state: QueryResponses, query: string, outcome: Settled): QueryResponses
  {
    match outcome
    case Succeeded(rows) => state.(success := state.success[query := rows])
    case Failed => state.(fail := state.fail + [query])
  }

  /** `runQueries`: every statement is run, in order, whatever happened to the ones before. */
  method RunQueries(exec: Exec, queries: seq<string>) returns (response: QueryResponses)
    ensures response == Batch(exec, queries)
  {
    response := QueryResponses(map[], []);
    var i := 0;
    while i < |queries|
      invariant 0 <= i <= |queries|
      invariant response == Batch(exec, queries[..i])
    {
      var query := queries[i];
      assert queries[..i + 1][..i] == queries[..i];
      var outcome := exec(queries[..i], query);
      var settled: Result<seq<Row>>;
      match outcome {
        case Threw(message) =>
          settled := Err(message);
        case Returned(results) =>
          settled := FormatQueryResponse(results);
          if |results| != 1 {
            assert Includes(OneEntryError, OneEntryPhrase) by {
              InfixEnd("Expected query response ", OneEntryPhrase);
            }
          } else {
            assert settled.value == Rows(results[0]);
          }
      }
      match settled {
        case Ok(rows) =>
          response := response.(success := response.success[query := rows]);
        case Err(message) =>
          if Includes(message, OneEntryPhrase) {
            response := response.(success := response.success[query := SentinelRows]);
          } else {
            response := response.(fail := response.fail + [query]);
          }
      }
      i := i + 1;
    }
    assert queries[..|queries|] == queries;
  }

  // ---- what the batch promises ----

  /** The statement at position `i` of a batch ran with exactly the statements before it. */
  function OutcomeAt(exec: Exec, queries: seq<string>, i: nat): Settled
    requires i < |queries|
  {
    Settle(exec(queries[..i], queries[i]))
  }

  /** A statement is in `fail` exactly when one of its runs failed, and `fail` holds
      nothing else. */
  lemma {:induction false} FailExactly(exec: Exec, queries: seq<string>, q: string)
    ensures q in Batch(exec, queries).fail <==>
      exists i :: 0 <= i < |queries| && queries[i] == q && OutcomeAt(exec, queries, i) == Failed
    decreases |queries|
  {
    if queries != [] {
      var n := |queries| - 1;
      var prefix := queries[..n];
      FailExactly(exec, prefix, q);
      PrefixOutcomes(exec, queries);
      RecordStep(Batch(exec, prefix), queries[n], OutcomeAt(exec, queries, n), q);
      if q in Batch(exec, queries).fail {
        if q in Batch(exec, prefix).fail {
          var i :| 0 <= i < n && prefix[i] == q && OutcomeAt(exec, prefix, i) == Failed;
          assert queries[i] == q && OutcomeAt(exec, queries, i) == Failed;
        } else {
          assert queries[n] == q && OutcomeAt(exec, queries, n) == Failed;
        }
      }
      if exists i :: 0 <= i < |queries| && queries[i] == q && OutcomeAt(exec, queries, i) == Failed {
        var i :| 0 <= i < |queries| && queries[i] == q && OutcomeAt(exec, queries, i) == Failed;
        if i < n {
          assert prefix[i] == q && OutcomeAt(exec, prefix, i) == Failed;
        }
      }
    }
  }

  /** A statement has rows exactly when one of its runs succeeded, and there are no others. */
  lemma {:induction false} SuccessExactly(exec: Exec, queries: seq<string>, q: string)
    ensures q in Batch(exec, queries).success <==>
      exists i :: 0 <= i < |queries| && queries[i] == q && OutcomeAt(exec, queries, i).Succeeded?
    decreases |queries|
  {
    if queries != [] {
      var n := |queries| - 1;
      var prefix := queries[..n];
      SuccessExactly(exec, prefix, q);
      PrefixOutcomes(exec, queries);
      RecordStep(Batch(exec, prefix), queries[n], OutcomeAt(exec, queries, n), q);
      if q in Batch(exec, queries).success {
        if q in Batch(exec, prefix).success {
          var i :| 0 <= i < n && prefix[i] == q && OutcomeAt(exec, prefix, i).Succeeded?;
          assert queries[i] == q && OutcomeAt(exec, queries, i).Succeeded?;
        } else {
          assert queries[n] == q && OutcomeAt(exec, queries, n).Succeeded?;
        }
      }
      if exists i :: 0 <= i < |queries| && queries[i] == q && OutcomeAt(exec, queries, i).Succeeded? {
        var i :| 0 <= i < |queries| && queries[i] == q && OutcomeAt(exec, queries, i).Succeeded?;
        if i < n {
          assert prefix[i] == q && OutcomeAt(exec, prefix, i).Succeeded?;
        }
      }
    }
  }

  /** Recording a statement adds it to `fail` when it failed and to the keys of `success`
      when it succeeded, and changes no other statement's membership in either. */
  lemma RecordStep(state: QueryResponses, query: string, outcome: Settled, q: string)
    ensures q in Record(state, query, outcome).fail <==> q in state.fail || (outcome == Failed && q == query)
    ensures q in Record(state, query, outcome).success <==> q in state.success || (outcome.Succeeded? && q == query)
  {
  }

  /** No statement is lost: each one is a `success` key or an element of `fail`. */
  lemma EveryStatementSettles(exec: Exec, queries: seq<string>)
    ensures forall i :: 0 <= i < |queries| ==>
      queries[i] in Batch(exec, queries).success || queries[i] in Batch(exec, queries).fail
  {
    forall i | 0 <= i < |queries|
      ensures queries[i] in Batch(exec, queries).success || queries[i] in Batch(exec, queries).fail
    {
      if OutcomeAt(exec, queries, i) == Failed {
        FailExactly(exec, queries, queries[i]);
      } else {
        SuccessExactly(exec, queries, queries[i]);
      }
    }
  }

  /** The rows kept for a statement are those of its last successful run: a later run
      replaces the rows of an earlier one, and a later failure leaves them in place. */
  lemma {:induction false} LastSuccessWins(exec: Exec, queries: seq<string>, i: nat)
    requires i < |queries| && OutcomeAt(exec, queries, i).Succeeded?
    requires forall k :: i < k < |queries| && queries[k] == queries[i] ==> OutcomeAt(exec, queries, k) == Failed
    ensures queries[i] in Batch(exec, queries).success
    ensures Batch(exec, queries).success[queries[i]] == OutcomeAt(exec, queries, i).rows
    decreases |queries|
  {
    var n := |queries| - 1;
    PrefixOutcomes(exec, queries);
    if i < n {
      LastSuccessWins(exec, queries[..n], i);
    }
  }

  /** The outcomes of a batch's prefix are those of the batch. */
  lemma PrefixOutcomes(exec: Exec, queries: seq<string>)
    requires queries != []
    ensures var n := |queries| - 1;
      forall i :: 0 <= i < n ==> queries[..n][i] == queries[i] && OutcomeAt(exec, queries[..n], i) == OutcomeAt(exec, queries, i)
  {
    var n := |queries| - 1;
    forall i | 0 <= i < n
      ensures queries[..n][i] == queries[i] && OutcomeAt(exec, queries[..n], i) == OutcomeAt(exec, queries, i)
    {
      assert queries[..n][..i] == queries[..i];
    }
  }

  /** The error `formatQueryResponse` throws is the one `runQueries` recognises, so a
      statement that gives no result set, or several, is recorded with the sentinel row. */
  lemma SentinelOnOtherCounts(results: seq<QueryExecResult>)
    requires |results| != 1
    ensures Settle(Returned(results)) == Succeeded(SentinelRows)
  {
  }

  /** An engine error whose message happens to contain the recognised phrase is recorded as a
      success with the sentinel row, not as a failure. */
  lemma PhraseInEngineError(prefix: string, suffix: string)
    ensures Settle(Threw(prefix + OneEntryPhrase + suffix)) == Succeeded(SentinelRows)
  {
    InfixEnd(prefix, OneEntryPhrase);
    InfixGrow(OneEntryPhrase, prefix + OneEntryPhrase, suffix);
  }

  /** The last cell stored under a name is the one the record keeps. */
  lemma {:induction false} RowLastCellWins(columns: seq<string>, row: seq<SqlValue>, index: nat)
    requires index < |row|
    requires forall k :: index < k < |row| ==> ColumnKey(columns, k) != ColumnKey(columns, index)
    ensures RowObject(columns, row)[ColumnKey(columns, index)] == row[index]
    decreases |row|
  {
    if index < |row| - 1 {
      var prefix := row[..|row| - 1];
      assert prefix[index] == row[index];
      assert forall k :: index < k < |prefix| ==> ColumnKey(columns, k) != ColumnKey(columns, index);
      RowLastCellWins(columns, prefix, index);
    }
  }

  /** With distinct column names and no more cells than columns, the record maps each
      column to its own cell. */
  lemma RowByColumn(columns: seq<string>, row: seq<SqlValue>)
    requires |row| <= |columns|
    requires forall j, k :: 0 <= j < k < |columns| ==> columns[j] != columns[k]
    ensures forall j :: 0 <= j < |row| ==> columns[j] in RowObject(columns, row) && RowObject(columns, row)[columns[j]] == row[j]
  {
    forall j | 0 <= j < |row|
      ensures columns[j] in RowObject(columns, row) && RowObject(columns, row)[columns[j]] == row[j]
    {
      RowLastCellWins(columns, row, j);
    }
  }

  /** A statement that appears twice can be in both `success` and `fail`: here its first run
      fails and its second returns one empty result set. */
  lemma DuplicateInBoth()
    ensures var exec: Exec := (before: seq<string>, q: string) =>
        if before == [] then Threw("no such table: Reviews") else Returned([QueryExecResult([], [])]);
      var r := Batch(exec, ["SELECT 1;", "SELECT 1;"]);
      "SELECT 1;" in r.success && r.fail == ["SELECT 1;"]
  {
    var exec: Exec := (before: seq<string>, q: string) =>
      if before == [] then Threw("no such table: Reviews") else Returned([QueryExecResult([], [])]);
    var qs := ["SELECT 1;", "SELECT 1;"];
    assert qs[..1] == ["SELECT 1;"] && qs[..1][..0] == [];
    assert !Includes("no such table: Reviews", OneEntryPhrase) by {
      assert |"no such table: Reviews"| < |OneEntryPhrase|;
    }
  }
}
