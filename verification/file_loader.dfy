/**
 Collection discovery (`file_loader.py`): the `.abc` files one level below a
 root whose folder names are numbers.

 The file system is given as a snapshot. The root listing is `None` when
 `os.listdir(root)` raises; each entry records its name, whether
 `os.path.isdir` holds for it, and its own listing (`None` when listing it
 raises). There is no deeper structure: nothing below the first level is read.
 */
module FileLoader {
  import opened Base
  import opened Text
  import opened Positions

  datatype Entry = Entry(name: string, isDirectory: bool, listing: Option<seq<string>>)

  /** One `(book_number, file_path)` pair. */
  datatype SourceFile = SourceFile(bookNumber: nat, path: string)

  /** Where `os.listdir` raised: on the root, or on a numbered folder. */
  datatype ListError = RootNotListable | FolderNotListable(folder: string)

  /** `os.path.isdir(folder_path) and folder_name.isdigit()`. */
  predicate IsBookFolder(e: Entry) {
    e.isDirectory && IsDigits(e.name)
  }

  /** `file_name.endswith('.abc')`; there is no check that the child is a regular file. */
  predicate IsAbcName(name: string) {
    EndsWith(name, ".abc")
  }

  /** The pair for file `child` of numbered folder `folder`: `(int(folder), join(join(root, folder), child))`. */
  function FileOf(root: string, folder: string, child: string): SourceFile
    requires IsDigits(folder)
  {
    SourceFile(DecimalValue(folder), PathJoin(PathJoin(root, folder), child))
  }

  /** The pair for a file name of the folder `folderPath` of book `book`. */
  function FileIn(book: nat, folderPath: string): string -> SourceFile {
    child => SourceFile(book, PathJoin(folderPath, child))
  }

  /** The pairs one numbered folder contributes, in its listing order: one per `.abc` name. */
  function BookFiles(root: string, folder: string, children: seq<string>): seq<SourceFile>
    requires IsDigits(folder)
  {
    Select(children, IsAbcName, FileIn(DecimalValue(folder), PathJoin(root, folder)))
  }

  /** The folder loop over the root's entries, raising at the first unlistable numbered folder. */
  function CollectBooks(root: string, entries: seq<Entry>): Result<seq<SourceFile>, ListError> {
    if |entries| == 0 then Success([])
    else if !IsBookFolder(entries[0]) then CollectBooks(root, entries[1..])
    else match entries[0].listing
      case None => Failure(FolderNotListable(entries[0].name))
      case Some(children) =>
        match CollectBooks(root, entries[1..])
        case Failure(e) => Failure(e)
        case Success(rest) => Success(BookFiles(root, entries[0].name, children) + rest)
  }

  /** Entry `i` is the first numbered folder whose listing raises. */
  predicate FirstUnlistable(entries: seq<Entry>, i: int) {
    && 0 <= i < |entries|
    && IsBookFolder(entries[i]) && entries[i].listing.None?
    && forall j :: 0 <= j < i && IsBookFolder(entries[j]) ==> entries[j].listing.Some?
  }

  /** `find_abc_files(root)` over the snapshot `listing` of `root`. */
  function FindAbcFiles(root: string, listing: Option<seq<Entry>>): Result<seq<SourceFile>, ListError> {
    match listing
    case None => Failure(RootNotListable)
    case Some(entries) => CollectBooks(root, entries)
  }

  /**
   The folder loop fails exactly when some numbered folder cannot be listed,
   and then with the first such folder; non-numbered and non-directory
   entries are never listed, so they cannot make it fail.
   */
  lemma {:induction false} CollectBooksFails(root: string, entries: seq<Entry>)
    ensures CollectBooks(root, entries).Success? <==>
      forall i :: 0 <= i < |entries| && IsBookFolder(entries[i]) ==> entries[i].listing.Some?
    ensures CollectBooks(root, entries).Failure? ==>
      exists i :: FirstUnlistable(entries, i) && CollectBooks(root, entries).error == FolderNotListable(entries[i].name)
    decreases |entries|
  {
    if |entries| > 0 {
      CollectBooksFails(root, entries[1..]);
      assert forall i :: 1 <= i < |entries| ==> entries[i] == entries[1..][i - 1];
      var r := CollectBooks(root, entries);
      if r.Failure? && !(IsBookFolder(entries[0]) && entries[0].listing.None?) {
        var i :| FirstUnlistable(entries[1..], i) && CollectBooks(root, entries[1..]).error == FolderNotListable(entries[1..][i].name);
        assert FirstUnlistable(entries, i + 1);
      }
      if r.Failure? && IsBookFolder(entries[0]) && entries[0].listing.None? {
        assert FirstUnlistable(entries, 0);
      }
    }
  }

  /** The numbered folders among `entries`, in listing order. */
  function BookFolders(entries: seq<Entry>): (r: seq<Entry>)
    ensures forall e :: e in r ==> e in entries && IsBookFolder(e)
    ensures forall i :: 0 <= i < |entries| && IsBookFolder(entries[i]) ==> entries[i] in r
  {
    if |entries| == 0 then []
    else
      var rest := BookFolders(entries[1..]);
      assert forall i :: 1 <= i < |entries| ==> entries[i] == entries[1..][i - 1];
      (if IsBookFolder(entries[0]) then [entries[0]] else []) + rest
  }

  /** `BookFolders` keeps the entries `IsBookFolder` accepts, as they are. */
  lemma {:induction false} BookFoldersSelect(entries: seq<Entry>)
    ensures BookFolders(entries) == Select(entries, IsBookFolder, (e: Entry) => e)
    decreases |entries|
  {
    if |entries| > 0 {
      BookFoldersSelect(entries[1..]);
    }
  }

  /** The `k`-th kept entry is the entry at the `k`-th numbered-directory position, so listing order is kept. */
  lemma BookFoldersInOrder(entries: seq<Entry>)
    ensures |BookFolders(entries)| == |Kept(entries, IsBookFolder)|
    ensures forall k :: 0 <= k < |BookFolders(entries)| ==>
      Kept(entries, IsBookFolder)[k] < |entries| && BookFolders(entries)[k] == entries[Kept(entries, IsBookFolder)[k]]
  {
    BookFoldersSelect(entries);
    SelectPick(entries, IsBookFolder, (e: Entry) => e);
  }

  /**
   Non-directory entries and directories whose names are not all digits
   contribute nothing: dropping them changes neither the result nor the error.
   */
  lemma {:induction false} OnlyBookFoldersMatter(root: string, entries: seq<Entry>)
    ensures CollectBooks(root, entries) == CollectBooks(root, BookFolders(entries))
    decreases |entries|
  {
    if |entries| > 0 {
      OnlyBookFoldersMatter(root, entries[1..]);
      if IsBookFolder(entries[0]) {
        var kept := BookFolders(entries);
        assert kept == [entries[0]] + BookFolders(entries[1..]);
        assert kept[0] == entries[0] && kept[1..] == BookFolders(entries[1..]);
      } else {
        assert BookFolders(entries) == BookFolders(entries[1..]);
      }
    }
  }

  /** Entry `i`'s child `j` is returned: `i` is a listed numbered folder and child `j` ends in `.abc`. */
  predicate Qualifies(entries: seq<Entry>, i: int, j: int) {
    && 0 <= i < |entries|
    && IsBookFolder(entries[i])
    && entries[i].listing.Some?
    && 0 <= j < |entries[i].listing.value|
    && IsAbcName(entries[i].listing.value[j])
  }

  /** The pair returned for entry `i`'s child `j`. */
  function FileAt(root: string, entries: seq<Entry>, i: int, j: int): SourceFile
    requires Qualifies(entries, i, j)
  {
    var folder := entries[i].name;
    FileOf(root, folder, entries[i].listing.value[j])
  }

  /** `(i, j)` comes before `(i', j')`: folder listing order first, then child listing order. */
  predicate Before(p: (nat, nat), q: (nat, nat)) {
    p.0 < q.0 || (p.0 == q.0 && p.1 < q.1)
  }

  /** Child positions `js` of the folder at entry `i`. */
  function InFolder(i: nat, js: seq<nat>): (r: seq<(nat, nat)>)
    ensures |r| == |js|
    ensures forall k :: 0 <= k < |r| ==> r[k] == (i, js[k])
  {
    seq(|js|, k requires 0 <= k < |js| => (i, js[k]))
  }

  /** Positions of the entries after the first, renumbered as positions in the whole listing. */
  function NextFolder(ps: seq<(nat, nat)>): (r: seq<(nat, nat)>)
    ensures |r| == |ps|
    ensures forall k :: 0 <= k < |r| ==> r[k] == (ps[k].0 + 1, ps[k].1)
  {
    seq(|ps|, k requires 0 <= k < |ps| => (ps[k].0 + 1, ps[k].1))
  }

  /** The `(entry, child)` positions the folder loop visits and keeps, in visiting order. */
  function FilePositions(entries: seq<Entry>): seq<(nat, nat)> {
    if |entries| == 0 then []
    else
      (if IsBookFolder(entries[0]) && entries[0].listing.Some?
       then InFolder(0, Kept(entries[0].listing.value, IsAbcName))
       else [])
      + NextFolder(FilePositions(entries[1..]))
  }

  /** A numbered folder contributes one pair per `.abc` child, in its listing order. */
  lemma BookFilesPick(root: string, folder: string, children: seq<string>)
    requires IsDigits(folder)
    ensures |BookFiles(root, folder, children)| == |Kept(children, IsAbcName)|
    ensures forall k :: 0 <= k < |BookFiles(root, folder, children)| ==>
      Kept(children, IsAbcName)[k] < |children| &&
      BookFiles(root, folder, children)[k] ==
        FileOf(root, folder, children[Kept(children, IsAbcName)[k]])
  {
    SelectPick(children, IsAbcName, FileIn(DecimalValue(folder), PathJoin(root, folder)));
  }

  /** Each of `files` is the file at the matching position of `ps`, and that position qualifies. */
  ghost predicate Matches(root: string, entries: seq<Entry>, files: seq<SourceFile>, ps: seq<(nat, nat)>) {
    && |files| == |ps|
    && forall k :: 0 <= k < |ps| ==> Qualifies(entries, ps[k].0, ps[k].1) && files[k] == FileAt(root, entries, ps[k].0, ps[k].1)
  }

  lemma MatchesConcat(root: string, entries: seq<Entry>, f1: seq<SourceFile>, p1: seq<(nat, nat)>, f2: seq<SourceFile>, p2: seq<(nat, nat)>)
    requires Matches(root, entries, f1, p1) && Matches(root, entries, f2, p2)
    ensures Matches(root, entries, f1 + f2, p1 + p2)
  {
    var f, p := f1 + f2, p1 + p2;
    forall k | 0 <= k < |p|
      ensures Qualifies(entries, p[k].0, p[k].1) && f[k] == FileAt(root, entries, p[k].0, p[k].1)
    {
      if k < |p1| {
        assert p[k] == p1[k] && f[k] == f1[k];
      } else {
        assert p[k] == p2[k - |p1|] && f[k] == f2[k - |p1|];
      }
    }
  }

  lemma MatchesNextFolder(root: string, entries: seq<Entry>, files: seq<SourceFile>, ps: seq<(nat, nat)>)
    requires |entries| > 0 && Matches(root, entries[1..], files, ps)
    ensures Matches(root, entries, files, NextFolder(ps))
  {
    var qs := NextFolder(ps);
    forall k | 0 <= k < |qs|
      ensures Qualifies(entries, qs[k].0, qs[k].1) && files[k] == FileAt(root, entries, qs[k].0, qs[k].1)
    {
      assert entries[qs[k].0] == entries[1..][ps[k].0];
    }
  }

  lemma MatchesFirstFolder(root: string, entries: seq<Entry>)
    requires |entries| > 0 && IsBookFolder(entries[0]) && entries[0].listing.Some?
    ensures Matches(root, entries, BookFiles(root, entries[0].name, entries[0].listing.value),
                    InFolder(0, Kept(entries[0].listing.value, IsAbcName)))
  {
    var children := entries[0].listing.value;
    BookFilesPick(root, entries[0].name, children);
    KeptIncrease(children, IsAbcName);
  }

  /** Each returned pair is the file at its position, and that position qualifies. */
  lemma {:induction false} FilePositionsPick(root: string, entries: seq<Entry>)
    requires CollectBooks(root, entries).Success?
    ensures Matches(root, entries, CollectBooks(root, entries).value, FilePositions(entries))
    decreases |entries|
  {
    if |entries| > 0 {
      FilePositionsPick(root, entries[1..]);
      var tail := CollectBooks(root, entries[1..]).value;
      MatchesNextFolder(root, entries, tail, FilePositions(entries[1..]));
      var e := entries[0];
      if IsBookFolder(e) {
        MatchesFirstFolder(root, entries);
        MatchesConcat(root, entries,
          BookFiles(root, e.name, e.listing.value), InFolder(0, Kept(e.listing.value, IsAbcName)),
          tail, NextFolder(FilePositions(entries[1..])));
      } else {
        assert FilePositions(entries) == [] + NextFolder(FilePositions(entries[1..]));
      }
    }
  }

  /** Positions come in folder listing order, then child listing order. */
  lemma {:induction false} FilePositionsOrdered(entries: seq<Entry>)
    ensures forall k :: 0 <= k < |FilePositions(entries)| ==> FilePositions(entries)[k].0 < |entries|
    ensures forall k, l :: 0 <= k < l < |FilePositions(entries)| ==>
      Before(FilePositions(entries)[k], FilePositions(entries)[l])
    decreases |entries|
  {
    if |entries| > 0 {
      FilePositionsOrdered(entries[1..]);
      var e := entries[0];
      if IsBookFolder(e) && e.listing.Some? {
        KeptIncrease(e.listing.value, IsAbcName);
      }
    }
  }

  /** `ps` lists every qualifying `(entry, child)` position. */
  ghost predicate Covers(entries: seq<Entry>, ps: seq<(nat, nat)>) {
    forall i, j :: Qualifies(entries, i, j) ==> (i, j) in ps
  }

  lemma CoversFirstFolder(entries: seq<Entry>, i: nat, j: nat)
    requires Qualifies(entries, i, j) && i == 0
    ensures (i, j) in InFolder(0, Kept(entries[0].listing.value, IsAbcName))
  {
    var js := Kept(entries[0].listing.value, IsAbcName);
    KeptExact(entries[0].listing.value, IsAbcName);
    var k :| 0 <= k < |js| && js[k] == j;
    assert InFolder(0, js)[k] == (i, j);
  }

  lemma CoversNextFolder(entries: seq<Entry>, ps: seq<(nat, nat)>, i: nat, j: nat)
    requires |entries| > 0 && Covers(entries[1..], ps)
    requires Qualifies(entries, i, j) && i > 0
    ensures (i, j) in NextFolder(ps)
  {
    assert entries[i] == entries[1..][i - 1];
    assert Qualifies(entries[1..], i - 1, j);
    var k :| 0 <= k < |ps| && ps[k] == (i - 1, j);
    assert NextFolder(ps)[k] == (i, j);
  }

  /** Every qualifying `(entry, child)` position is visited. */
  lemma {:induction false} FilePositionsComplete(entries: seq<Entry>)
    ensures Covers(entries, FilePositions(entries))
    decreases |entries|
  {
    if |entries| > 0 {
      FilePositionsComplete(entries[1..]);
      var e := entries[0];
      var head := if IsBookFolder(e) && e.listing.Some? then InFolder(0, Kept(e.listing.value, IsAbcName)) else [];
      var tail := NextFolder(FilePositions(entries[1..]));
      assert FilePositions(entries) == head + tail;
      forall i, j | Qualifies(entries, i, j)
        ensures (i, j) in head + tail
      {
        if i == 0 {
          CoversFirstFolder(entries, i, j);
        } else {
          CoversNextFolder(entries, FilePositions(entries[1..]), i, j);
        }
      }
    }
  }

  /**
   `find_abc_files` returns exactly the qualifying files, each once, in
   folder listing order and then child listing order: `at[k]` is the
   `(entry, child)` position of the `k`-th returned pair, positions strictly
   increase, and every qualifying position appears.
   */
  lemma FindAbcFilesExact(root: string, listing: Option<seq<Entry>>) returns (at: seq<(nat, nat)>)
    requires FindAbcFiles(root, listing).Success?
    ensures listing.Some?
    ensures |at| == |FindAbcFiles(root, listing).value|
    ensures forall k :: 0 <= k < |at| ==>
      Qualifies(listing.value, at[k].0, at[k].1) &&
      FindAbcFiles(root, listing).value[k] == FileAt(root, listing.value, at[k].0, at[k].1)
    ensures forall k, l :: 0 <= k < l < |at| ==> Before(at[k], at[l])
    ensures forall i, j :: Qualifies(listing.value, i, j) ==> (i, j) in at
  {
    at := FilePositions(listing.value);
    FilePositionsPick(root, listing.value);
    assert Matches(root, listing.value, FindAbcFiles(root, listing).value, at);
    FilePositionsOrdered(listing.value);
    FilePositionsComplete(listing.value);
  }
}
