# ABC tune ingest pipeline: a Dafny model

This project models the ingest core of an ABC tune collection loader. The
loader:

- finds the `.abc` files in numbered book folders under `abc_books`;
- splits each file into tunes at lines that begin with `X:`;
- extracts the reference number, title, rhythm type, meter and key of each
  tune from its line prefixes;
- inserts one row per tune into a MySQL table;
- counts the files processed and the tunes loaded.

Layout, one module per file:

- `base.dfy` (`Base`): `Option` and `Result`.
- `text.dfy` (`Text`): the Python string operations the loader relies on:
  - `str.strip()` over the exact `str.isspace` character set;
  - `split('\n')` and `'\n'.join`;
  - `endswith`, and `isdigit()` with `int()`;
  - `os.path.join` as POSIX defines it.
- `positions.dfy` (`Positions`): the positions a filtering loop keeps. It describes both the parser's section filter and the loader's file-name filter.
- `abc_parser.dfy` (`AbcParser`): `parse_abc_file` and `parse_single_tune`.
- `file_loader.dfy` (`FileLoader`): `find_abc_files`. It works over a snapshot of the directory tree.
- `database.dfy` (`Database`): the row built by `insert_tune`, and the counting loop of `insert_tunes_batch`.
- `pipeline.dfy` (`Pipeline`): `load_all_tunes` in `main.py`.

Everything outside the program is a parameter:

- Connecting and schema creation are reduced to two booleans. One says whether `connect_to_database` returned a connection rather than `None` (`main.py:25-26`). The other says whether `create_database_schema` returned `True` (`main.py:33`).
- The root listing is a value. It is `None` when `os.listdir` raises.
  - Each entry records its name, whether it is a directory, and its own listing.
- File reading is a function from path to optional text. The text is what text-mode reading delivers. It is decoded as UTF-8 with undecodable bytes dropped (`errors='ignore'`, so decoding itself never fails). Universal-newline translation has turned `\r\n` and `\r` into `\n`. `None` means `open` or `read` raised, for example on a missing file.
- One insert is an oracle. It sees the file position, the attempt position and the row values. It answers:
  - `Inserted`: `execute`, `commit` and `cursor.close()` all succeeded, and `insert_tune` returned `True`;
  - `Rejected`: one of them raised a MySQL `Error`, which `insert_tune` turns into `False`. The row may already be committed when only `close` failed;
  - `Raised`: any other exception, which leaves the batch.

### Behaviour worth knowing

- **Title.** The title is filled only while it is still empty (`abc_parser.py:77`). The comment at `abc_parser.py:76` says "take the first one if multiple". An empty `T:` line therefore does not block a later one: the title is the first non-empty `T:` value.
- **Processed files.** `files_processed` is incremented whenever the parse returned tunes and the batch returned (`main.py:54-59`). This holds even when every insert was rejected and the count is 0 (`Pipeline.ZeroInsertFileIsProcessed`).
- **Unreadable book folder.** The `os.listdir` of a numbered folder (`file_loader.py:33`) is unguarded. `find_abc_files` is called outside any `try` (`main.py:41`). An unreadable book folder therefore ends the whole run (`RunReport.DiscoveryFailed`).
- **One level only.** The docstring at `file_loader.py:9` says "Recursively". The code reads the root and each numbered folder, and nothing deeper.
- **Kept records.** `parse_abc_file` keeps every record `parse_single_tune` returns. The `if tune_dict` test never fails, because the dictionary always has six keys (`AbcParser.AsDict`).

## Model

| member | source | states |
|---|---|---|
| `Text.TrimStartSuffix` | abc_parser.py:70 | `lstrip()` leaves a suffix: everything removed is whitespace, and what is left does not start with whitespace |
| `Text.TrimEndPrefix` | abc_parser.py:70 | `rstrip()` leaves a prefix: everything removed is whitespace, and what is left does not end with whitespace |
| `Text.StripFramed` | abc_parser.py:70 | `strip()` returns a slice of the line that has only whitespace on either side |
| `Text.StripEnds` | abc_parser.py:70 | the stripped text neither starts nor ends with whitespace |
| `Text.StripUnique` | abc_parser.py:70 | any slice framed by whitespace that neither starts nor ends with whitespace is the result of `strip()`; this characterises `strip()` independently of how it scans |
| `Text.SplitLines` | abc_parser.py:67 | `split('\n')` yields at least one piece, no piece holds a newline, and joining the pieces with newlines gives back the text |
| `Text.DecimalString` | file_loader.py:30 | the decimal rendering of a number is a non-empty string of ASCII digits |
| `Text.DecimalRoundTrip` | file_loader.py:30 | `int(str(n)) == n` for every natural `n` |
| `Text.LeadingZeroIgnored` | file_loader.py:30 | a folder named with a leading zero yields the same book number as without it |
| `Text.PathJoin` | file_loader.py:26 | an absolute second component replaces the first; otherwise the result is the two components joined with one `/`, or with none when the first is empty or already ends in `/` |
| `AbcParser.NextBreak` | abc_parser.py:30 | finds the first newline followed by `X:` at or after a position, or reports that none exists |
| `AbcParser.SplitTunes` | abc_parser.py:30 | splitting at each newline followed by `X:`: there is at least one section, the sections joined with the consumed newlines give back the content, every section after the first starts with `X:`, and no section contains such a newline |
| `AbcParser.SplitTunesUnique` | abc_parser.py:30 | any cut of the content into pieces with those properties is exactly the split, so the split is determined by them |
| `AbcParser.ApplyLineLastWins` | abc_parser.py:69-90 | one line sets the reference number, type, meter or key exactly when its stripped text starts with that field's tag and `:`; otherwise the field is unchanged |
| `AbcParser.ApplyLineTitle` | abc_parser.py:76-78 | a `T:` line sets the title only while the title is empty; no other line changes it |
| `AbcParser.ExtractFields` | abc_parser.py:67-90 | the line loop never changes the stored notation |
| `AbcParser.ExtractLastWins` | abc_parser.py:69-90 | after the loop, each of `X`, `R`, `M` and `K` holds the value of the last line declaring it, or its starting value if no line declares it |
| `AbcParser.ExtractFirstTitle` | abc_parser.py:69-78 | once set, the title is kept; from an empty title, the loop leaves the first non-empty declared title, or the empty string |
| `AbcParser.ParseSingleTune` | abc_parser.py:58-65 | the returned record keeps the tune text verbatim as its notation |
| `AbcParser.ParseSingleTuneLastWins` | abc_parser.py:58-90 | reference number, type, meter and key are each the last declared value, or `''` when undeclared |
| `AbcParser.ParseSingleTuneTitle` | abc_parser.py:58-78 | the title is the first non-empty `T:` value, or `''` |
| `AbcParser.ParseAbcFileKeepsTuneSections` | abc_parser.py:30-40 | there is one record per section whose stripped text starts with `X:`, in file order; a section is kept if and only if it starts that way; record `k` is the parse of the `k`-th kept section |
| `AbcParser.ParseAbcFileRecords` | abc_parser.py:32-40 | there are no more records than sections, and each record's notation is one of the split's sections, declares `X:`, and parses to that record |
| `AbcParser.AsDict` | abc_parser.py:58-65 | the tune dictionary has exactly the six keys `reference_number`, `title`, `type`, `meter`, `key`, `abc_notation` |
| `FileLoader.CollectBooksFails` | file_loader.py:25-36 | discovery over a listed root succeeds if and only if every numbered directory can be listed; otherwise it fails naming the first such folder that cannot |
| `FileLoader.BookFolders` | file_loader.py:29 | an entry is kept if and only if it is a numbered directory of the listing |
| `FileLoader.BookFoldersInOrder` | file_loader.py:25-29 | the kept entries are the numbered directories in listing order, one per qualifying position |
| `FileLoader.OnlyBookFoldersMatter` | file_loader.py:29 | non-directories and non-numeric folder names change neither the result nor the error |
| `FileLoader.BookFilesPick` | file_loader.py:30-36 | a numbered folder yields one pair per child ending in `.abc`, in listing order, each `(int(folder), join(join(root, folder), child))` |
| `FileLoader.FindAbcFilesExact` | file_loader.py:22-38 | the returned pairs are exactly the `.abc` children of listable numbered directories, each once, ordered first by folder and then by child listing order |
| `Database.RowValues` | database.py:92-101 | the eight values line up with the column list: book number first, file path last, and each column in between reads its dictionary key with `''` as default; `key_signature` reads `key` |
| `Database.NothingInserted` | database.py:126-130 | a batch in which no `insert_tune` call returns `True` counts 0 |
| `Database.Tally` | database.py:126-130 | the batch returns a count if and only if no insert raises, and the count is the number of `insert_tune` calls that returned `True`, at most the number of tunes; otherwise it stops at the first raising insert, having counted exactly the calls before it that returned `True` |
| `Database.InsertTunesBatch` | database.py:113-130 | the loop attempts the tunes in order, continues after a rejected insert, and ends with the outcome `Tally` describes |
| `Pipeline.ProcessFile` | main.py:50-66 | a file is reported with no tunes exactly when its parse is empty; it is loaded exactly when the parse is non-empty and no insert raised, with the count of inserts that returned `True`, which is at most the number of tunes; otherwise it failed |
| `Pipeline.CountLoaded` | main.py:59 | the processed counter never exceeds the number of files |
| `Pipeline.LoadFile` | main.py:52-63 | one turn of the file loop parses the file, inserts its tunes when there are any, and reports as `ProcessFile` describes |
| `Pipeline.LoadFiles` | main.py:46-66 | every discovered file is reported, in order; the processed counter equals the number of loaded files, at most the number found; the total equals the sum of their counts, at most the number of tunes parsed |
| `Pipeline.LoadAllTunes` | main.py:10-75 | a failed connection or schema ends the run before discovery, and a discovery error ends it; otherwise the run completes with the reports and counters `LoadFiles` describes |
| `Pipeline.ZeroInsertFileIsProcessed` | main.py:54-59 | a file whose tunes are all rejected still counts as processed, with a count of 0 |
| `Pipeline.ParsedTuneRow` | database.py:92-101 | each parsed field lands in its own column of the insert, and the tune's key lands in `key_signature` |

## Left out

- Reading files. `open(..., encoding='utf-8', errors='ignore')` and UTF-8 decoding are the reader parameter. The broad `except` in `parse_abc_file` is modelled as a read failure that yields no tunes, since the pure parse cannot raise.
- Non-ASCII digits. `IsDigits` accepts only `0`-`9`, while Python's `isdigit()` also accepts other Unicode digits.
- Path conventions. `os.path.join` follows POSIX only; Windows `ntpath` rules are not modelled.
- MySQL. Connecting, schema creation, `cursor.execute`, `commit` and `close` are booleans or the insert oracle. Any state the database keeps between inserts, such as duplicate rows, is visible only through that oracle. The counts are what `insert_tune` returned, not the rows stored. When `close` raises after `commit`, the row is stored but the call returned `False` and is not counted.
- Console output. Every `print`, including the progress lines and the final summary, is not modelled. The run's result is returned as a `RunReport` instead.
- Uncaught exceptions in the driver. Exceptions other than `Exception` subclasses, such as `KeyboardInterrupt`, are not modelled.
- Determinism. Discovery is a function of the snapshot, and splitting and field extraction are functions of the text, so repeat runs over the same files agree by construction. No lemma is stated for it.
- Concrete examples. The literal-text examples from the module docstrings, such as the `hnair0.abc` tune, are not stated as lemmas.
- Other modules. `analysis.py` and `ui.py` (filtering, statistics, menus, export) and the `__main__` test blocks are not part of this model.
