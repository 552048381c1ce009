/**
 The loading run of `main.py`: connect, prepare the schema, discover the
 files under `abc_books`, then parse and insert file by file while counting.

 Connecting is reduced to whether `connect_to_database` returned a connection
 and schema creation to whether `create_database_schema` returned `True`; the file
 system to a snapshot of the root listing plus a reader from path to text,
 and the database to an insert oracle that also sees which file (by its
 position in the discovered list) the row comes from. Console output is not
 modelled; what the run prints is reported as a `RunReport`.
 */
module Pipeline {
  import opened Base
  import opened AbcParser
  import opened FileLoader
  import opened Database

  /** The root directory the run searches. */
  const BooksRoot: string := "abc_books"

  /**
   File contents by path as text-mode reading delivers them: UTF-8 with
   undecodable bytes dropped, and `\r\n` and `\r` turned into `\n`. `None`
   when opening or reading the file raises.
   */
  type Reader = string -> Option<string>

  /** The database seen by the whole run: file position, attempt position within the file, row values. */
  type Store = (nat, nat, seq<SqlValue>) -> InsertOutcome

  /** What happened to one discovered file. */
  datatype FileReport =
    | Loaded(path: string, count: nat)  // tunes were parsed and the batch returned `count`
    | NoTunes(path: string)             // the parse gave no tunes; nothing was inserted
    | Failed(path: string)              // an exception escaped the batch and was caught per file

  /** How the run ended. */
  datatype RunReport =
    | ConnectionFailed
    | SchemaFailed
    | DiscoveryFailed(error: ListError)  // `find_abc_files` raised; nothing catches it
    | Completed(filesFound: nat, filesProcessed: nat, totalTunes: nat, files: seq<FileReport>)

  /** `parse_abc_file(path)`: a file that cannot be read yields no tunes. */
  function ReadTunes(path: string, read: Reader): seq<Tune> {
    match read(path)
    case None => []
    case Some(content) => ParseAbcFile(content)
  }

  /** The list of dictionaries handed to the batch insert. */
  function TuneDicts(tunes: seq<Tune>): seq<TuneDict> {
    seq(|tunes|, k requires 0 <= k < |tunes| => AsDict(tunes[k]))
  }

  /** The insert oracle of the file at position `index`. */
  function FileInserter(index: nat, store: Store): Inserter {
    (attempt: nat, row: seq<SqlValue>) => store(index, attempt, row)
  }

  /** Every insert outcome the tunes of the file at position `index` would meet. */
  function FileAttempts(index: nat, file: SourceFile, read: Reader, store: Store): seq<InsertOutcome> {
    Attempts(TuneDicts(ReadTunes(file.path, read)), file.bookNumber, file.path, FileInserter(index, store))
  }

  /**
   The body of the per-file `try`. A file with no tunes is reported and
   skipped; otherwise it counts as loaded exactly when no insert raised, with
   the number of inserts that returned `True`, and as failed otherwise.
   */
  function ProcessFile(index: nat, file: SourceFile, read: Reader, store: Store): (r: FileReport)
    ensures r.path == file.path
    ensures r.NoTunes? <==> ReadTunes(file.path, read) == []
    ensures r.Loaded? <==> ReadTunes(file.path, read) != [] && Raised !in FileAttempts(index, file, read, store)
    ensures r.Loaded? ==> r.count == CountInserted(FileAttempts(index, file, read, store)) <= |ReadTunes(file.path, read)|
  {
    var tunes := ReadTunes(file.path, read);
    if |tunes| == 0 then NoTunes(file.path)
    else
      match Tally(FileAttempts(index, file, read, store))
      case Counted(count) => Loaded(file.path, count)
      case Aborted(_) => Failed(file.path)
  }

  /** `files_processed`: the files whose batch returned, whatever its count. */
  function CountLoaded(files: seq<FileReport>): (n: nat)
    ensures n <= |files|
  {
    if |files| == 0 then 0
    else CountLoaded(files[..|files| - 1]) + (if files[|files| - 1].Loaded? then 1 else 0)
  }

  /** `total_tunes`: the counts the batches returned, summed. */
  function SumLoaded(files: seq<FileReport>): nat {
    if |files| == 0 then 0
    else SumLoaded(files[..|files| - 1]) + (match files[|files| - 1] case Loaded(_, c) => c case _ => 0)
  }

  /** How many tunes the parser found across `files`. */
  function TunesFound(files: seq<SourceFile>, read: Reader): nat {
    if |files| == 0 then 0
    else TunesFound(files[..|files| - 1], read) + |ReadTunes(files[|files| - 1].path, read)|
  }

  /**
   One turn of the run's loop: parse, and insert the batch when the parse
   found tunes. The report it returns is the one `ProcessFile` describes.
   */
  method LoadFile(index: nat, file: SourceFile, read: Reader, store: Store) returns (report: FileReport)
    ensures report == ProcessFile(index, file, read, store)
  {
    var tunes := ReadTunes(file.path, read);
    if |tunes| == 0 {
      return NoTunes(file.path);
    }
    var batch := InsertTunesBatch(TuneDicts(tunes), file.bookNumber, file.path, FileInserter(index, store));
    if batch.Counted? {
      report := Loaded(file.path, batch.count);
    } else {
      report := Failed(file.path);
    }
  }

  /** `ys` holds, in order, `f` of each position of `xs` and the element there. */
  ghost predicate Pointwise<A, B>(xs: seq<A>, ys: seq<B>, f: (nat, A) -> B) {
    |xs| == |ys| && forall k :: 0 <= k < |xs| ==> ys[k] == f(k, xs[k])
  }

  /** Appending the image of the next element extends a pointwise correspondence. */
  lemma PointwiseAppend<A, B>(xs: seq<A>, ys: seq<B>, y: B, f: (nat, A) -> B)
    requires |xs| == |ys| + 1
    requires Pointwise(xs[..|ys|], ys, f)
    requires y == f(|ys|, xs[|ys|])
    ensures Pointwise(xs, ys + [y], f)
  {
  }

  /** `ProcessFile` for a fixed reader and store, as a function of position and file. */
  function Processor(read: Reader, store: Store): (nat, SourceFile) -> FileReport {
    (index: nat, file: SourceFile) => ProcessFile(index, file, read, store)
  }

  /**
   The state of the loop after the first `i` files: one report per file in
   order, and the two counters are exactly the number of loaded files and
   the sum of their counts, which stays within the tunes parsed so far.
   */
  ghost predicate Progress(found: seq<SourceFile>, i: nat, files: seq<FileReport>, processed: nat, total: nat,
                           read: Reader, store: Store) {
    && i <= |found|
    && Pointwise(found[..i], files, Processor(read, store))
    && processed == CountLoaded(files)
    && total == SumLoaded(files) <= TunesFound(found[..i], read)
  }

  /** One turn of the loop keeps `Progress`, the counters moving by the new file's share. */
  lemma LoopStep(found: seq<SourceFile>, i: nat, files: seq<FileReport>, processed: nat, total: nat,
                 report: FileReport, read: Reader, store: Store)
    requires Progress(found, i, files, processed, total, read, store)
    requires i < |found|
    requires report == ProcessFile(i, found[i], read, store)
    ensures Progress(found, i + 1, files + [report],
                     processed + (if report.Loaded? then 1 else 0),
                     total + (if report.Loaded? then report.count else 0), read, store)
  {
    assert found[..i + 1][..i] == found[..i] && found[..i + 1][i] == found[i];
    PointwiseAppend(found[..i + 1], files, report, Processor(read, store));
    CountStep(files, report);
    SumStep(files, report, found[..i + 1], read);
  }

  /** Appending a report moves the processed counter by one exactly when that file loaded. */
  lemma CountStep(files: seq<FileReport>, report: FileReport)
    ensures CountLoaded(files + [report]) == CountLoaded(files) + (if report.Loaded? then 1 else 0)
  {
  }

  /** Appending a report adds its count to the total, which stays within the tunes parsed. */
  lemma SumStep(files: seq<FileReport>, report: FileReport, found: seq<SourceFile>, read: Reader)
    requires |found| == |files| + 1
    requires SumLoaded(files) <= TunesFound(found[..|files|], read)
    requires report.Loaded? ==> report.count <= |ReadTunes(found[|files|].path, read)|
    ensures SumLoaded(files + [report]) == SumLoaded(files) + (if report.Loaded? then report.count else 0)
    ensures SumLoaded(files + [report]) <= TunesFound(found, read)
  {
  }

  /** After the last file, `Progress` is the loop's result. */
  lemma LoopDone(found: seq<SourceFile>, files: seq<FileReport>, processed: nat, total: nat, read: Reader, store: Store)
    requires Progress(found, |found|, files, processed, total, read, store)
    ensures |files| == |found|
    ensures forall i :: 0 <= i < |found| ==> files[i] == ProcessFile(i, found[i], read, store)
    ensures processed == CountLoaded(files) <= |found|
    ensures total == SumLoaded(files) <= TunesFound(found, read)
  {
    assert found[..|found|] == found;
  }

  /**
   The loop of `load_all_tunes` over the discovered files. Every file is
   processed in order, an exception inside one file's batch only marks that
   file failed, and the two counters are exactly the number of loaded files
   and the sum of their counts.
   */
  method LoadFiles(found: seq<SourceFile>, read: Reader, store: Store)
    returns (filesProcessed: nat, totalTunes: nat, files: seq<FileReport>)
    ensures |files| == |found|
    ensures forall i :: 0 <= i < |found| ==> files[i] == ProcessFile(i, found[i], read, store)
    ensures filesProcessed == CountLoaded(files) <= |found|
    ensures totalTunes == SumLoaded(files) <= TunesFound(found, read)
  {
    files, totalTunes, filesProcessed := [], 0, 0;
    for i := 0 to |found|
      invariant Progress(found, i, files, filesProcessed, totalTunes, read, store)
    {
      var report := LoadFile(i, found[i], read, store);
      LoopStep(found, i, files, filesProcessed, totalTunes, report, read, store);
      if report.Loaded? {
        totalTunes := totalTunes + report.count;
        filesProcessed := filesProcessed + 1;
      }
      files := files + [report];
    }
    LoopDone(found, files, filesProcessed, totalTunes, read, store);
  }

  /**
   `load_all_tunes`. A failed connection or schema ends the run before
   discovery, and a discovery error escapes the run. Otherwise the run
   reports every discovered file, never more processed files than it found,
   nor more tunes loaded than it parsed.
   */
  method LoadAllTunes(connected: bool, schemaReady: bool, listing: Option<seq<Entry>>, read: Reader, store: Store)
    returns (r: RunReport)
    ensures !connected ==> r == ConnectionFailed
    ensures connected && !schemaReady ==> r == SchemaFailed
    ensures connected && schemaReady && FindAbcFiles(BooksRoot, listing).Failure? ==>
      r == DiscoveryFailed(FindAbcFiles(BooksRoot, listing).error)
    ensures connected && schemaReady && FindAbcFiles(BooksRoot, listing).Success? ==>
      var found := FindAbcFiles(BooksRoot, listing).value;
      r.Completed? && r.filesFound == |found| == |r.files|
      && (forall i :: 0 <= i < |found| ==> r.files[i] == ProcessFile(i, found[i], read, store))
      && r.filesProcessed == CountLoaded(r.files) <= r.filesFound
      && r.totalTunes == SumLoaded(r.files) <= TunesFound(found, read)
  {
    if !connected {
      return ConnectionFailed;
    }
    if !schemaReady {
      return SchemaFailed;
    }
    var discovered := FindAbcFiles(BooksRoot, listing);
    if discovered.Failure? {
      return DiscoveryFailed(discovered.error);
    }
    var filesProcessed, totalTunes, files := LoadFiles(discovered.value, read, store);
    return Completed(|discovered.value|, filesProcessed, totalTunes, files);
  }

  /**
   A file whose tunes were all rejected by the database still counts as
   processed, with a count of zero: the counter records files whose batch
   returned, not files that contributed rows.
   */
  lemma ZeroInsertFileIsProcessed(index: nat, file: SourceFile, read: Reader, store: Store)
    requires ReadTunes(file.path, read) != []
    requires forall k :: 0 <= k < |FileAttempts(index, file, read, store)| ==> FileAttempts(index, file, read, store)[k] == Rejected
    ensures ProcessFile(index, file, read, store) == Loaded(file.path, 0)
  {
    NothingInserted(FileAttempts(index, file, read, store));
  }

  /**
   Each parsed field lands in its own column of the insert, with the tune's
   key going to `key_signature`.
   */
  lemma ParsedTuneRow(t: Tune, bookNumber: int, filePath: string)
    ensures Columns[5] == "key_signature"
    ensures RowValues(AsDict(t), bookNumber, filePath) ==
      [SqlInt(bookNumber), SqlText(t.referenceNumber), SqlText(t.title), SqlText(t.tuneType),
       SqlText(t.meter), SqlText(t.key), SqlText(t.abcNotation), SqlText(filePath)]
  {
  }
}
