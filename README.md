# adof: change-log commits and the path database, in Dafny

This project models the two pieces of logic in `adof`, a small dotfile tool:

- **The commit path** (`src/git/commit.rs`). The diff between the HEAD
  tree and the staged index is a stream of line events. Each event has an
  optional new-file path and a one-character origin. The tool keeps one
  counter triple per file (added, removed, context lines) and renders one
  line `<path> +<added> -<removed> ~<context>` per file. It joins the lines
  with newlines, and the commit message is the timestamp, a blank line,
  then that log. The commit gets HEAD as its only parent when HEAD
  resolves, and no parent otherwise. Its author and committer fall back to
  `Unknown` and `unknown@example.com`, each field on its own.
- **The path database** (`src/database/`). This is a table from an original
  file path to the path of its tracked copy. Recording a mapping is
  first-write-wins. Looking up a key that has no entry fails. The table is
  stored under `<base>/do_not_touch//path_databse.json`.

Modules:

| file | module | models |
|---|---|---|
| `wrappers.dfy` | `Wrappers` | `Option` and `Result` |
| `format.dfy` | `Format` | the decimal rendering of an unsigned integer and the joining of lines, each with its inverse |
| `commit.dfy` | `Commit` | aggregation, rendering, message, parents, identity |
| `database.dfy` | `Database` | `DataTable`, first-write-wins insertion, lookup, the store path |
| `database_add.dfy` | `DatabaseAdd` | recording one mapping, into an existing or a new store |

Each operation comes with an inverse or a reference definition, and a lemma connects the two:

- Aggregation is checked against a reference definition, `Summary`. Each
  file's triple is the number of its `+`, `-` and ` ` events.
- The per-line update (`SummaryStep`) and the independence from event order
  (`SummaryOrderIndependent`) are proved about that reference definition.
- Rendering has a parser, `ParseLine`, and a round trip through it. So a
  log line fixes its file and its counters, and two files never share a
  line.
- Joining has a split, with round trips in both directions.
- Insertion is related to lookup.

The diff source, HEAD and the git config are inputs. The diff is a
`seq<LineEvent>`; HEAD and each config field are an `Option`. The timestamp
is an opaque string. The persisted store is `Option<map<string, string>>`,
where `None` means that no store file exists.

## Model

| member | source | states |
|---|---|---|
| `Commit.Aggregate` | src/git/commit.rs:38-54 | The counter map built by running the callback over every line event equals the reference summary: one entry per path seen, holding the counts of its `+`, `-` and ` ` events. |
| `Commit.SummaryStep` | src/git/commit.rs:41-50 | A line whose delta has no new-file path changes nothing. Otherwise the path gets an entry (starting from zero), only the counter named by `+`, `-` or ` ` rises, by one, any other origin changes no counter, and every other file keeps its entry. |
| `Commit.HeaderLineCreatesZeroEntry` | src/git/commit.rs:43 | The first line of a file creates its entry at (0, 0, 0) even when its origin is none of `+`, `-` and ` ` (a file or hunk header). |
| `Commit.OccurrencesIsMultiplicity` | src/git/commit.rs:45-50 | The count for a file and origin is the multiplicity of that event in the multiset of the diff's events. |
| `Commit.FilesArePaths` | src/git/commit.rs:41-43 | The files with an entry are exactly the paths carried by some event, whatever the order of the events. |
| `Commit.SummaryOrderIndependent` | src/git/commit.rs:40-54 | Two diffs that hold the same events in different orders give the same per-file counts. |
| `Commit.Line` | src/git/commit.rs:59 | A file's line starts with the file's path and ends with a counter digit. After the path it holds no newline. |
| `Commit.LineRoundTrip` | src/git/commit.rs:59 | A rendered line `<file> +<a> -<r> ~<c>` parses back, from the right, to exactly that file and those counters, whatever the file name holds. |
| `Commit.LineInjective` | src/git/commit.rs:59 | Two files, or two different triples, never render the same line. |
| `Commit.ChangeLines` | src/git/commit.rs:56-61 | The loop over the map yields one line per file: as many lines as files, the line of every file, only lines of files, and no line twice, in an order the model leaves open. |
| `Commit.GetChangeLogs` | src/git/commit.rs:21-64 | The log is a newline-join of the summary's lines, one per file, in some order. |
| `Commit.EmptyLogIffNoFiles` | src/git/commit.rs:56-63 | The log of a counter map is the empty string exactly when the map is empty, which is when no event carried a path. |
| `Commit.LogHasNoTrailingNewline` | src/git/commit.rs:63 | A non-empty log ends with a counter digit, so there is no trailing newline. |
| `Commit.LogSplitsIntoFileLines` | src/git/commit.rs:56-63 | If some file is present and no file name holds a newline, splitting the log at newlines gives exactly one line per file, each as rendered. |
| `Commit.TwoFileScenario` | src/git/commit.rs:40-54 | Events `a.txt +`, `a.txt +`, `a.txt ' '`, `b.txt -` give exactly `a.txt` (2, 0, 1) and `b.txt` (0, 1, 0). |
| `Commit.TwoFileScenarioLines` | src/git/commit.rs:59 | Those two entries render as `a.txt +2 -0 ~1` and `b.txt +0 -1 ~0`. |
| `Commit.TwoFileScenarioLog` | src/git/commit.rs:56-63 | The log of that scenario is `a.txt +2 -0 ~1`, a newline and `b.txt +0 -1 ~0`, or the same two lines the other way round. |
| `Commit.TwoFileLog` | src/git/commit.rs:56-63 | The log of two files is their two lines joined by one newline, in one order or the other. |
| `Commit.CommitMessage` | src/git/commit.rs:66-68 | The message is the timestamp, then two newlines, then the log, with nothing else. |
| `Commit.MessageLines` | src/git/commit.rs:66-68 | If the timestamp has no newline, the message's lines are the timestamp, one blank line, then the log's lines. |
| `Commit.EmptyDiffMessage` | src/git/commit.rs:66-68 | With no file touched, the message is exactly the timestamp followed by `\n\n`. |
| `Commit.Parents` | src/git/commit.rs:77-80 | The parent list is empty exactly when HEAD does not resolve, and is exactly the HEAD commit when it does. |
| `Commit.Identity` | src/git/commit.rs:82-88 | The name is the configured `user.name`, or `Unknown` when there is none. The e-mail is the configured `user.email`, or `unknown@example.com`. |
| `Commit.IdentityFieldsIndependent` | src/git/commit.rs:83-88 | The chosen name depends only on the configured name, and the chosen e-mail only on the configured e-mail. |
| `Commit.CommitChanges` | src/git/commit.rs:70-113 | The commit updates `HEAD` with the given message. Author and committer are the same chosen identity. There are zero parents without HEAD and exactly HEAD with it. |
| `Commit.CommitAll` | src/git/commit.rs:8-13 | The commit's message is the timestamp, a blank line and a change log of the diff. The rest of the request is the parent and identity choice. |
| `Format.Decimal` | src/git/commit.rs:59 | A counter renders as a non-empty string of digits, with no leading zero except for `0` itself, that reads back as the counter. |
| `Format.Join` | src/git/commit.rs:63 | Joining no lines gives the empty string. |
| `Format.JoinShape` | src/git/commit.rs:63 | One line joins as itself. A longer join starts with the first line followed by the separator, and ends with the last line. Its length is the lines' total length plus one separator per pair of neighbours, so nothing follows the last line. |
| `Format.SplitJoin` | src/git/commit.rs:63 | If no line holds the separator, splitting the newline-join of one or more lines gives those lines back. |
| `Format.JoinSplit` | src/git/commit.rs:63 | Splitting a string at a character and joining the pieces with that character gives the string back. |
| `Database.DataTable.constructor` | src/database/mod.rs:17-21 | A new table is empty. |
| `Database.DataTable.Loaded` | src/database/mod.rs:35-40 | An existing store loads as exactly the table it holds. |
| `Database.DataTable.EntryOrInsert` | src/database/add.rs:11-14 | The table afterwards is the first-write-wins insertion of the pair into the table before. |
| `Database.FirstWriteWins` | src/database/add.rs:11-14 | After insertion the key is present. A value it already had is kept, and the new value is ignored. A new key maps to the new value. Every other key keeps its value, and no key is removed. |
| `Database.FirstWriteWinsIdempotent` | src/database/add.rs:11-14 | Inserting the same pair twice gives the same table as inserting it once. |
| `Database.Lookup` | src/database/mod.rs:42-46 | Looking up a present key gives exactly its value. An absent key is a `KeyNotFound` failure, and a missing store is a read failure. The table is a value, so a lookup cannot change it. |
| `Database.LookupAfterInsert` | src/database/add.rs:11-14 | After recording `(a, b)` for a new `a`, looking up `a` gives `b`. |
| `Database.LookupAfterTwoInserts` | src/database/add.rs:11-14 | After recording `(a, b)` and then `(a, c)`, looking up `a` still gives `b`. |
| `Database.LookupNeverInserted` | src/database/mod.rs:44 | A key that the table lacked and that no later recording named is not found. |
| `Database.DatabasePath` | src/database/mod.rs:24-33 | The store path is the base directory followed by `/do_not_touch//path_databse.json`, with the doubled slash and the spelling as written. It starts with the base directory and ends in `path_databse.json`. |
| `Database.DatabasePathInjective` | src/database/mod.rs:24-33 | Different base directories give different store paths. |
| `DatabaseAdd.AddFilesToDatabase` | src/database/add.rs:5-29 | The written table has the original path as a key. An existing store keeps that key's earlier value, every other key and value, and gains no other key. A missing store, or a new key, gets the copied path. A missing store gives exactly the one-entry table. |
| `DatabaseAdd.FreshStoreIsSingleton` | src/database/add.rs:18-25 | Inserting into a new, empty table gives exactly the one-entry table. |

## Left out

- The git2 calls are foreign library calls and are not modelled: opening the repository, resolving HEAD, reading the index, computing the diff, writing the tree and the commit, and reading the config. The diff is an input sequence of line events, and HEAD and the config fields are `Option` inputs. A failed commit write or a HEAD that resolves to no commit would panic on `unwrap`; these paths are not modelled.
- The timestamp comes from the local clock, and its formatting depends on the locale. It is an opaque string input.
- Commit.CommitChanges: `Signature::now` reads the clock and fails on some names, for example an empty `user.name`. The source then panics on `unwrap` at src/git/commit.rs:90, and no commit is written. The model keeps only the chosen name and e-mail, so it still returns a request in that case.
- Commit.CommitAll: HEAD is resolved twice in the source, once for the diff base and once for the parent. The model uses one HEAD input, so a HEAD that moves between the two reads is not modelled.
- The file-system effects are not modelled: creating the store directory, checking that the store exists, creating, reading and writing the file. The store is an `Option` of its table.
- The JSON serialisation and parsing of `DataTable` are not modelled. A store whose file cannot be parsed is not modelled either.
- `get_adof_dir` and `src/database/remove.rs` are not part of this model. The base directory is a parameter of `DatabasePath`.
- Commit.Aggregate: the counters are unbounded `nat`s. The source uses `usize`, whose overflow after 2^64 lines is not modelled.
- Commit.ChangeLines: the source's order is the `HashMap` iteration order. The model picks an arbitrary remaining key each time, so every property holds for every order.
- Database.Lookup: the source runs the lookup through `get_table_struct` and panics on failure. The model returns a `Result` instead of panicking.
