/**
 Row construction and batch insertion (`database.py`).

 The MySQL connection is not modelled. What `cursor.execute`, `commit` and
 `cursor.close` do for one row is an oracle: given the attempt's position in
 the batch and the row's values, it says whether `insert_tune` returned
 `True` (all three succeeded), returned `False` (one of them raised a MySQL
 `Error`, which `insert_tune` catches; the row may already be committed when
 only `close` failed), or raised anything else (which `insert_tune` does not
 catch, so it leaves the batch).
 */
module Database {
  import opened Base

  /** The column list of the `INSERT` statement, in order. */
  const Columns: seq<string> :=
    ["book_number", "reference_number", "title", "type", "meter", "key_signature", "abc_notation", "file_path"]

  /** A tune as the parser hands it over: a dictionary from field names to text. */
  type TuneDict = map<string, string>

  /** One bound parameter of the statement. */
  datatype SqlValue = SqlInt(n: int) | SqlText(s: string)

  /** `tune.get(key, '')`. */
  function Lookup(tune: TuneDict, key: string): string {
    if key in tune then tune[key] else ""
  }

  /** The dictionary key a tune column is read from: the column's own name, except that `key_signature` reads `key`. */
  function SourceKey(column: string): string {
    if column == "key_signature" then "key" else column
  }

  /**
   The `values` tuple of `insert_tune`. It lines up with `Columns`: the book
   number first, the file path last, and every column between them holds the
   tune's entry for that column's key, or `''` when the tune has none.
   */
  function RowValues(tune: TuneDict, bookNumber: int, filePath: string): (row: seq<SqlValue>)
    ensures |row| == |Columns|
    ensures row[0] == SqlInt(bookNumber)
    ensures row[|Columns| - 1] == SqlText(filePath)
    ensures forall c :: 1 <= c < |Columns| - 1 ==> row[c] == SqlText(Lookup(tune, SourceKey(Columns[c])))
  {
    [ SqlInt(bookNumber),
      SqlText(Lookup(tune, "reference_number")),
      SqlText(Lookup(tune, "title")),
      SqlText(Lookup(tune, "type")),
      SqlText(Lookup(tune, "meter")),
      SqlText(Lookup(tune, "key")),
      SqlText(Lookup(tune, "abc_notation")),
      SqlText(filePath) ]
  }

  /** What one `insert_tune` call does. */
  datatype InsertOutcome =
    | Inserted  // execute, commit and close all succeeded; `insert_tune` returns True
    | Rejected  // a MySQL `Error` was caught; `insert_tune` returns False
    | Raised    // any other exception escaped `insert_tune`

  /** The insert oracle: attempt position within the batch and row values to outcome. */
  type Inserter = (nat, seq<SqlValue>) -> InsertOutcome

  /** The outcome the oracle gives for every tune of the batch, were each attempted. */
  function Attempts(tunes: seq<TuneDict>, bookNumber: int, filePath: string, insert: Inserter): seq<InsertOutcome> {
    seq(|tunes|, i requires 0 <= i < |tunes| => insert(i, RowValues(tunes[i], bookNumber, filePath)))
  }

  /** How many of `outcomes` are `insert_tune` calls that returned `True`. */
  function CountInserted(outcomes: seq<InsertOutcome>): nat {
    if |outcomes| == 0 then 0
    else CountInserted(outcomes[..|outcomes| - 1]) + (if outcomes[|outcomes| - 1] == Inserted then 1 else 0)
  }

  /** A batch in which no `insert_tune` call returned `True` counts zero. */
  lemma {:induction false} NothingInserted(outcomes: seq<InsertOutcome>)
    requires forall k :: 0 <= k < |outcomes| ==> outcomes[k] != Inserted
    ensures CountInserted(outcomes) == 0
  {
    if |outcomes| > 0 {
      NothingInserted(outcomes[..|outcomes| - 1]);
    }
  }

  /** What `insert_tunes_batch` ends with. */
  datatype BatchOutcome =
    | Counted(count: nat)      // the loop finished and returned `count`
    | Aborted(counted: nat)    // an exception left the loop when `counted` calls had returned `True`

  /** Position `k` is the first attempt that raised. */
  predicate FirstRaised(outcomes: seq<InsertOutcome>, k: int) {
    0 <= k < |outcomes| && outcomes[k] == Raised && forall j :: 0 <= j < k ==> outcomes[j] != Raised
  }

  /**
   The counting loop of `insert_tunes_batch`, one attempt at a time. It
   returns the number of calls that returned `True` when no attempt raised;
   otherwise it stops at the first attempt that raised, having counted exactly
   the calls before it that returned `True`. A rejected row never stops the
   loop.
   */
  function Tally(outcomes: seq<InsertOutcome>): (r: BatchOutcome)
    ensures r.Counted? <==> Raised !in outcomes
    ensures r.Counted? ==> r.count == CountInserted(outcomes) <= |outcomes|
    ensures r.Aborted? ==> exists k :: FirstRaised(outcomes, k) && r.counted == CountInserted(outcomes[..k])
  {
    if |outcomes| == 0 then Counted(0)
    else
      var before, last := outcomes[..|outcomes| - 1], outcomes[|outcomes| - 1];
      assert outcomes == before + [last];
      match Tally(before)
      case Aborted(c) =>
        var k :| FirstRaised(before, k) && c == CountInserted(before[..k]);
        assert before[..k] == outcomes[..k];
        Aborted(c)
      case Counted(c) =>
        if last == Raised then
          assert FirstRaised(outcomes, |outcomes| - 1);
          Aborted(c)
        else if last == Inserted then Counted(c + 1)
        else Counted(c)
  }

  /**
   `insert_tunes_batch`: every tune is attempted in order through the
   `insert` oracle, a rejected insert does not stop later ones, and the count
   returned is the number of calls that returned `True`, at most the number of tunes. An
   exception other than a MySQL error leaves the loop at once.
   */
  method InsertTunesBatch(tunes: seq<TuneDict>, bookNumber: int, filePath: string, insert: Inserter)
    returns (r: BatchOutcome)
    ensures r == Tally(Attempts(tunes, bookNumber, filePath, insert))
    ensures r.Counted? ==> r.count <= |tunes|
    ensures |tunes| == 0 ==> r == Counted(0)
  {
    ghost var outcomes := Attempts(tunes, bookNumber, filePath, insert);
    var count := 0;
    for i := 0 to |tunes|
      invariant Raised !in outcomes[..i]
      invariant count == CountInserted(outcomes[..i])
    {
      var outcome := insert(i, RowValues(tunes[i], bookNumber, filePath));
      assert outcomes[..i + 1] == outcomes[..i] + [outcome];
      if outcome == Raised {
        assert FirstRaised(outcomes, i);
        return Aborted(count);
      }
      if outcome == Inserted {
        count := count + 1;
      }
    }
    assert outcomes[..|tunes|] == outcomes;
    return Counted(count);
  }
}
