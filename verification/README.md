# Codamigo: a verified model of its index, search and embedding core

This project models the parts of codamigo where a fast form has to agree with a simple one, in Dafny, and
proves that it does. Each file models one source file or one protocol:

- `Regex.dfy`, `Gitignore.dfy` — ignore lines, the glob-to-regex compiler and the fragment of regular
  expressions it emits, against the segment-wise meaning of gitignore(5).
- `Departures.dfy`, `Utf8.dfy` — where the compiler departs from that meaning, and for exactly which patterns.
- `Paths.dfy`, `Walker.dfy` — the ignore-layer stack that a depth-first walk pushes, pops and leaves behind,
  against a path-wise specification; and the per-path `Match` that must agree with it.
- `Store.dfy` — the tables, the transactions that change them statement by statement (any of which may fail),
  and what every sequence of them keeps.
- `Locator.dfy` — which chunk covers a line, and where each parsed edge goes.
- `Indexer.dfy` — the staged incremental pipeline: read, hash, skip, chunk, embed, write, delete.
- `Bucket.dfy`, `Embedder.dfy` — shape bucketing and batched embedding against embedding one text at a time.
- `DrainProtocol.dfy`, `CompileProtocol.dfy` — closing while calls are in flight, and compiling each shape
  once, as step systems with any number of goroutines.
- `GenerationCache.dfy` — the lock-free-read, locked-rebuild caches behind the repository map and the symbol
  index, under every interleaving.
- `References.dfy`, `Callees.dfy` — which definition a reference means, and what a symbol refers to.
- `Impact.dfy` — callers and their callers, by breadth-first search over a graph of names.
- `Freshness.dfy` — a search reconciled with the disk, composed with the indexer's staleness check.
- `Poll.dfy` — the snapshot-diff watcher.
- `Search.dfy` — reciprocal rank fusion, filtering and paging.
- `Seqs.dfy`, `Wrappers.dfy` — sequences filtered by a predicate, optional values.

Code that changes fields, slices and maps step by step is modelled by classes and methods that do the same,
each proved against a specification function; the properties are then lemmas about those functions or
postconditions of the methods. The three protocols are transition systems: a run is any sequence of enabled
steps, and the theorems are about every state of every run.

`dafny verify dfyconfig.toml` checks the whole project.

## Readings of the source

Where the code and its own documentation, or an expectation one might have, part ways, the model follows the
code:

- The glob compiler departs from gitignore(5) in four ways. Go's `.` does not match a newline, so a compiled
  `**`, and with it every unanchored pattern, does not reach through a directory whose name holds one. A `**`
  inside a longer segment crosses slashes. Each byte of a pattern is quoted as a character of its own, so the
  line `é` compiles to a regular expression for `Ã©`. And a backslash, which is special only before a leading `#`
  or `!`, stands for itself everywhere else. `Departures.CompiledAsDocumented` has the exact condition for
  patterns without bracket expressions; on newline-free paths whole-segment stars and unanchored patterns are as
  documented too.
- The stack drops a layer for any relative path that begins with two dots, so the rules of a directory never
  reach its own entries whose names do; rules further out reach them.
- `Match` loads every ancestor's own layer before testing that ancestor, `Walk` after. The promise that they
  agree fails in two ways, each with its exact condition in `Walker.WhenMatchDiffers`: an ancestor that ignores
  itself as "." makes Match miss files, and skipped ancestors that all re-include themselves make it accept
  files that Walk leaves out.
- The parse cache of ignore files is never invalidated: the rules are those of the files when first read, and
  the model takes the ignore files as fixed.
- `Index` promises nil on cancellation. A run that did not finish returns nil exactly when it ended in a batch
  under a dead context, which then hides the batch's error. When the cancellation is noticed in the walk or
  between batches (a walk error under a dead context included), the run goes on to list the indexed files under
  that context, which database/sql refuses, so that an error comes back. That refusal is also what keeps such a run from deleting
  what it did not reach.
- `IndexFiles` invokes its callback also after a batch loop that stopped early. A run of either kind that wrote
  some groups and then failed does not call back, so the derived caches go on answering for the store before it,
  until something else invalidates them.
- Padding is bounded by max(8, 2n - 2), slightly better than the doubling suggests.
- A poll reports a write only for a strictly later modification time: a file restored with an older one is not
  reported.

## Terms

- The view of a file is everything stored under its path: rows of all tables, edges, imports and the file row.
- A file is settled when the hash recorded for it is that of its content on disk; its fresh rows are those that
  indexing that content from scratch gives; it is withheld when a chunk of it failed to embed, and then keeps
  the view it had.
- A run of a protocol is any sequence of enabled steps from the initial state.

## Assumptions

- A content hash is identified with what was hashed, so equal hashes mean equal contents, and paths hold no
  NUL.
- The chunker and the embedding of a text are deterministic functions; the embedder may fail on any text. The
  ignore files and a tree do not change during a walk, and the disk does not change during one indexing run;
  across the three phases of a reconciled search it may.
- Inference on a row depends only on as many of its leading tokens as are not padding.
- Regular expressions are compiled by an arbitrary engine. Only where it is said what a pattern matches, the engine
  is taken to read its text as UTF-8 and, if it compiles what a pattern without bracket expressions turns into, to
  accept what the expressions of `Regex.dfy` accept (`Gitignore.SomeEngine` gives such an engine); on all other
  texts it stays arbitrary. Ignore lines are byte strings, paths strings of characters.
- A database call may fail at any statement, and a failed transaction leaves nothing. Ranked lists come from
  the database as given, without repetitions, best first, cut at the limit asked for.
- No other writer commits to the store while a reconciled search runs.
- Scores are rationals, counters and lengths unbounded integers.
- Worker goroutines of the pipeline's read and chunk stages are taken in order, stopping at the first error;
  the batches of an embedding call run in any order.

## Model

| member | source | states |
|---|---|---|
| Regex.CompileText | walker/gitignore.go:46 | the text the glob compiler emits, read back by the regular-expression parser, is the expression it was printed from: nothing is lost or reinterpreted between the pieces and the compiled pattern |
| Gitignore.GitignoreToRegex | walker/gitignore.go:81-132 | for every pattern the text the loop builds, bracket expressions copied through and bytes quoted one by one; without bracket expressions that text is the printed form of exactly the intended pieces, and if also the double stars are whole segments, any engine that compiles it accepts a path of non-empty segments iff the segment-wise matcher does |
| Gitignore.CompilerPreservesMeaning | walker/gitignore.go:89-128 | for every pattern whose double stars are whole segments, the pieces, which without bracket expressions are what the text prints, accept a path iff the segments match: leading and middle `**` stand for zero or more newline-free segments, a trailing `/**` for one or more, every other segment for exactly one |
| Gitignore.GroupSkipsSegments | walker/gitignore.go:86-98 | an optional directory group in front of any expression accepts exactly the skipping of zero or more whole, newline-free segments |
| Gitignore.WithinSegment | walker/gitignore.go:102-127 | inside a segment the emitted pieces accept precisely what the glob matches and never cross a slash |
| Gitignore.SlashFreeTestsLastSegment | walker/gitignore.go:85-87 | a pattern without a slash accepts a path iff its last segment matches, at any depth |
| Gitignore.TextAccepts | walker/gitignore.go:46 | the text of a pattern without bracket expressions accepts exactly what its pieces accept, in every engine that compiles it |
| Gitignore.SupportedLines | walker/gitignore.go:25-74 | what the compiled lines of a file say of a path is what they mean segment by segment, for lines that compile, without bracket expressions and with double stars only as whole segments |
| Departures.StarsStopAtNewlines | walker/gitignore.go:86-104 | the code's segments and those of the manual, its escapes apart, match the same paths iff there is no `**` or an empty segment |
| Departures.CompiledAsDocumented | walker/gitignore.go:81-132 | the exact condition: the text compiled from the bytes of a pattern without bracket expressions and empty segments accepts the documented paths and no others iff the pattern is anchored, ASCII, and holds neither two adjacent stars nor a backslash |
| Departures.DocumentedWithoutNewlines | walker/gitignore.go:93-104 | on newline-free paths it is enough, anchored or not, that the pattern is ASCII, has no bracket expression and no backslash, and its double stars are whole segments |
| Departures.BelowBrokenDirectory | walker/gitignore.go:94-97 | concretely, a leading `**` does not reach a file in a directory whose name holds a newline |
| Departures.EmbeddedStarsCrossDirectories | walker/gitignore.go:102-104 | a compiled anchored pattern without bracket expressions, and with no segment `**` and no empty one, accepts a path of another number of segments iff it holds two adjacent stars: stars inside a longer segment cross directories |
| Departures.EmbeddedStarsExample | walker/gitignore.go:102-104 | concretely, `a**b` ignores ax/yb |
| Departures.BytesTakenForCharacters | walker/gitignore.go:125-126 | because each byte is quoted as a character of its own, a pattern without bracket expressions and empty segments is compiled to what its characters mean iff all of them are ASCII |
| Departures.HighCharacterMissed | walker/gitignore.go:125-126 | concretely, a line of one character that is not ASCII never matches the file of that name |
| Departures.EscapedCharacterMissed | walker/gitignore.go:124-126 | concretely, a line of a backslash and a character never matches the file named by that character, which is documented |
| Gitignore.MatchResult | walker/gitignore.go:148-165 | the verdict is that of the last rule that applies and matches; directory-only rules never apply to files |
| Gitignore.CompileLine | walker/gitignore.go:27-72 | a line becomes the rule that says of every path what the line says: comments, escapes, negation, directory-only marks, anchoring; there is a rule iff the line holds a pattern whose text compiles |
| Gitignore.CompileGitIgnore | walker/gitignore.go:25-74 | for every file and every engine the compiled rules give each path the verdict of the lines read one by one; for supported lines that is the segment-wise verdict |
| Gitignore.SilentLine | walker/gitignore.go:28-36 | blank lines and comments say nothing of any path |
| Gitignore.LineRead | walker/gitignore.go:28-72 | any other line, read off its text: trailing blanks go; `!` includes again, a backslash before `#` or `!` is dropped; a trailing slash restricts it to directories; it is anchored iff a slash leads it or stands inside; then the verdict is that of the compiled text of what is left |
| Gitignore.LineReadable | walker/gitignore.go:28-72 | every line that is not silent can be taken apart like that |
| Gitignore.BracketText | walker/gitignore.go:113-124 | a bracket expression goes into the text up to its first `]` as it stands, except that a leading `!` becomes `^` |
| Gitignore.LastDecides | walker/gitignore.go:148-165 | the verdict of several lines is that of the last one that says anything |
| Walker.IgnoreStack.PopTo | walker/walker.go:59-73 | pops exactly the layers above the deepest one that is the root's or lies on the way to the directory |
| Walker.IgnoreStack.LoadDir | walker/walker.go:84-122 | pushes the directory's layer unless it is there or has no rules, cold or warm cache alike, and keeps the cache true to the ignore files |
| Walker.IgnoreStack.Match | walker/walker.go:124-137 | the last layer with a verdict decides, over layers whose directory holds the path |
| Walker.StaleSilent | walker/walker.go:127-130 | a layer left over from elsewhere in the tree says nothing about a path outside its directory |
| Walker.ChainSays | walker/walker.go:124-137 | a stack holding the root's and the ancestors' layers judges a path exactly as the path-wise rules of its ancestors do |
| Walker.StackJudges | walker/walker.go:231-240 | whatever stale layers lie on top, the stack judges a path below the current directory by that path's proper ancestors alone |
| Walker.Walker.ShouldSkipDir | walker/walker.go:299-310 | skips a reserved directory or one that the stack's rules ignore |
| Walker.Walker.MatchFile | walker/walker.go:312-354 | decides the per-file part of the path-wise specification, which Walker.PassesExactly spells out |
| Walker.PassesExactly | walker/walker.go:312-354 | a file passes iff its name is neither .gitignore nor .caignore, the rules of the directories above do not ignore it, no exclude glob hits its name or path, an include glob hits one if there are any, and the filter accepts it |
| Walker.Walker.EnterDir | walker/walker.go:235-238 | turns any stack left by earlier directories into one for the directory entered |
| Walker.Walker.Visit | walker/walker.go:218-266 | yields the chosen files below one node, in order, from whatever the stack held, up to where the consumer stops; for every ignore file |
| Walker.Walker.Walk | walker/walker.go:209-271 | for all ignore files and from whatever layers earlier complete or broken-off walks left, every path yielded is a file of the tree, not ignored and passing each test, below no directory named .git or .codamigo and below none that its own proper ancestors' rules ignore; unless stopped every such file is yielded; in order, none twice, and a prefix when stopped |
| Walker.OnlyPassing | walker/walker.go:218-266 | what a path yielded by a walk has to be, test by test, from the walk's list alone |
| Walker.AllPassing | walker/walker.go:218-266 | every file that passes all these tests is on the list of a walk that was not stopped |
| Walker.ListedExactly | walker/walker.go:209-217 | a path is listed iff following its names through the tree leads to a file |
| Walker.OpenExactly | walker/walker.go:299-310 | for Walk no directory above a file is skipped iff none is named .git or .codamigo and the rules of their own proper ancestors ignore none |
| Walker.OpenWithOwnExactly | walker/walker.go:284-310 | for Match the same, each directory's own rules included |
| Walker.ChosenExactly | walker/walker.go:207-208 | the list a walk yields holds a file of the tree iff the path-wise specification wants it |
| Walker.FilesDistinct | walker/walker.go:209-271 | no file is listed twice in a tree |
| Walker.YieldsDistinct | walker/walker.go:209-271 | no file is yielded twice, however the walk ends |
| Walker.Walker.Match | walker/walker.go:275-297 | equals the path-wise specification in which every ancestor's own rules are also asked about the ancestor itself, as the path "."; spelled out: true iff the file passes every test, no directory above is named .git or .codamigo, and none is ignored by the rules of its ancestors and its own |
| Walker.MatchAgreesWithWalk | walker/walker.go:273-297 | if no proper ancestor's own rules say anything about ".", Match and Walk agree on the file |
| Walker.WhenMatchDiffers | walker/walker.go:284-296 | from the rules alone, two iffs: Match misses a file Walk yields iff the file passes, no directory above is skipped and one ignores itself as "."; it accepts a file Walk leaves out iff the file passes, some directory above is skipped, none is reserved or ignores itself, and each one ignored by its ancestors re-includes itself |
| Walker.NestedDotStar | walker/walker.go:284-296 | a nested line `.*` makes Match miss a file: a concrete tree |
| Walker.ReincludedDirectory | walker/walker.go:284-296 | a nested line `!*` below a rule for its directory makes Match accept a file that Walk leaves out: a concrete tree |
| Walker.LayerInside | walker/walker.go:124-137 | what a layer says of any path inside its directory: nothing if what is left of the path begins with two dots, otherwise what its lines say of it |
| Walker.TopDotDotEscapes | walker/walker.go:128 | so a name with two dots at the top of the tree escapes every rule |
| Walker.NestedDotDotReached | walker/walker.go:128 | while below another directory the layers further out still ignore it |
| Walker.JudgedMeans | walker/walker.go:124-137 | with supported lines everywhere, the verdict on an entry is what the lines mean segment by segment, directory by directory |
| Store.RecordIDInjective | store/store.go:196-202 | the NUL separator makes ids determine both path and content |
| Store.SqliteStore.Upsert | store/sqlite.go:333-417 | the committed tables hold each record, later ones winning, with its derived rows; a failed call or a wrong dimension changes nothing |
| Store.UpsertedExactly | store/sqlite.go:360-409 | column by column, of the last record of an id: the chunk row's path, language, content, hash, kind, name, parent and lines, the vector row's language and embedding, and full-text rows of the tokenized content, name and parent |
| Store.SqliteStore.Delete | store/sqlite.go:419-461 | the rows of the ids leave all three tables, or nothing changes |
| Store.SqliteStore.DeleteByFile | store/sqlite.go:463-511 | a file's chunks, derived rows, edges, imports and file row all go, or nothing changes |
| Store.SqliteStore.ReplaceByFiles | store/sqlite.go:525-672 | each entry replaces what its file had, all entries or none |
| Store.ReplacedExactly | store/sqlite.go:544-660 | after it the file row of a path is the last entry's hash, time and size, and the edges and imports of the path are that entry's, in order, stamped with the path |
| Store.ReplacedChunk | store/sqlite.go:625-660 | and each of its records, the last of its id, is stored column by column in the three tables |
| Store.ReplacedOnly | store/sqlite.go:544-560 | while no other chunk of the path is left |
| Store.DeletedExactly | store/sqlite.go:431-452 | deleted ids are in none of the tables |
| Store.FileDeletedExactly | store/sqlite.go:463-523 | of a deleted file no chunk, vector, full-text row, edge, import or file row is left |
| Store.SqliteStore.FileStates | store/sqlite.go:1029-1071 | exactly the recorded states of the given paths, over any number of batches |
| Store.SqliteStore.FileHashes | store/sqlite.go:986-1027 | exactly the recorded hashes of the given paths |
| Store.SqliteStore.EmbeddingsByContentHash | store/sqlite.go:1094-1149 | a vector for exactly the hashes some chunk has: that of the chunk with the least id of the hash |
| Store.RowAtPutAll | store/sqlite.go:360-409 | after storing records an id holds the last record given for it, with its derived rows, and any other id what it held |
| Store.RowAtDrop | store/sqlite.go:431-452 | after dropping ids nothing is left of them in any table, and every other id is as it was |
| Store.ReachableConsistent | store/sqlite.go:333-672 | after any sequence of operations, failed ones included, chunks, vec and fts hold the same ids with exactly one derived row each |
| Store.ConsistentMeans | store/sqlite.go:333-672 | what that consistency says in terms of the tables |
| Store.DropFileView | store/sqlite.go:463-523 | deleting a file removes everything stored for it and nothing stored for any other file |
| Store.ReplaceView | store/sqlite.go:544-660 | replacing a file stores its entry and leaves every other file's rows, edges and imports alone, when ids are record ids |
| Store.ReplaceAllView | store/sqlite.go:525-672 | over many entries the last one for a file counts |
| Locator.ChunkLocator.constructor | indexer/graph.go:86-95 | the spans are sorted stably and none is lost |
| Locator.ChunkLocator.At | indexer/graph.go:100-110 | finds a chunk iff some span covers the line, and then the covering one with the greatest start, last in input order among equals |
| Locator.FindsInnermost | indexer/graph.go:97-99 | for nested-or-apart spans listed outer-first that is the innermost span covering the line |
| Locator.MapEdges | indexer/graph.go:23-68 | every edge is attributed to the chunk covering its line, imports go to the imports, and only an uncovered edge without a source is dropped |
| Locator.EachEdgeOnce | indexer/graph.go:23-68 | kept, imported and dropped edges together are the edges given, each once |
| Indexer.ReplaceFresh | indexer/indexer.go:593-601 | writing a file's entry keeps the invariant that each file's rows are those of the content whose hash is recorded |
| Indexer.DropInv | indexer/indexer.go:185-191 | so does removing a file |
| Indexer.StoredEmbedding | indexer/indexer.go:492-495 | under it every stored vector is that of its own chunk's content |
| Indexer.Indexer.ReadAndHash | indexer/indexer.go:342-393 | one result per path; outside the root and over the limit give none; the whole stage fails iff a path in the root cannot be read |
| Indexer.Indexer.KeepChanged | indexer/indexer.go:408-421 | keeps exactly the files whose stored hash differs and reports the others as skipped |
| Indexer.Indexer.ChunkAll | indexer/indexer.go:434-469 | one analysis per file; a file of unknown language is kept without chunks and reported as skipped |
| Indexer.Indexer.CollectUncached | indexer/indexer.go:497-507 | lists every uncached chunk exactly once, with the place it came from |
| Indexer.Indexer.Distribute | indexer/indexer.go:529-544 | each result goes to the chunk it was computed for; a file is marked failed iff one of its chunks failed |
| Indexer.AllDeliverable | indexer/indexer.go:517-589 | every chunk of a file not marked failed has its own embedding at hand, from the cache or from the batch, whichever chunk supplied the cached one |
| Indexer.AttemptsOwn | indexer/indexer.go:529-545 | the files withheld are exactly those with a failed chunk of their own |
| Indexer.NoneWithheld | indexer/indexer.go:529-545 | where the embedder fails on no text, no file is withheld |
| Indexer.Indexer.BuildRecords | indexer/indexer.go:565-589 | each record carries the embedding of its own content |
| Indexer.Indexer.BuildEntries | indexer/indexer.go:557-602 | one entry, as a fresh index would build it, for every file not failed; one failure report for every other |
| Indexer.Indexer.WriteAll | indexer/indexer.go:604-616 | groups are written in order; a failing group leaves those before it written and nothing of itself; only written files are reported as processed |
| Indexer.Indexer.ProcessStageBatch | indexer/indexer.go:341-619 | however it ends only files of the batch change, and those to their fresh rows; if it ends well every file is settled or withheld for a failed chunk of its own, and every occurrence of a path in the root is reported once |
| Indexer.OneVerdict | indexer/indexer.go:28-44 | over a whole run that ends well, a path named once gets exactly one notification: a failure iff one of its own chunks failed, a skip iff it was unchanged, not indexable or of no known language, a success only if its rows were written |
| Indexer.VerdictExactly | indexer/indexer.go:28-44 | the same in terms of disk, store and chunker: a skip iff the file is unreadable or too large, its hash is the recorded one, or its language is unknown |
| Indexer.Indexer.IndexBatch | indexer/indexer.go:314-325 | the same over all batches, notifications included; told to stop it reports no error and leaves the rest alone, and under a context dead from the start it does nothing |
| Indexer.Indexer.Prune | indexer/indexer.go:177-191 | files not reported by the walk lose everything, no other file changes, and under a cancelled context nothing is deleted |
| Indexer.Indexer.Index | indexer/indexer.go:158-202 | a finished run leaves every reported file settled or withheld and nothing for any other; however it ends each file is as it was, fresh, or gone because a complete walk did not report it, and every notification is true; it returns nil iff it finished or a batch failed under a dead context; a run stopped in a batch, between batches or in the walk deletes nothing; the callback fires iff it finished |
| Indexer.IndexedExactly | indexer/indexer.go:158-202 | what a finished run indexes, from the walk and the disk alone: for every reported file in the root, readable and within the limit, the hash of its content is recorded unless one of its chunks failed to embed; other reported files are as they were; of files not reported no row is left |
| Indexer.SettledEdges | indexer/graph.go:23-68 | which edges a settled file has when the graph is on, from its analysis alone: those that are no imports and have a source name or a chunk over their line, in order, with source, kind, target, qualifier and line, starting in the covering chunk that starts last; and no others |
| Indexer.SettledImports | indexer/graph.go:34-42 | which imports: those of the analysis, in order, and no others |
| Indexer.SettledWithoutGraph | indexer/indexer.go:459-462 | with the graph off, or without a parsed analysis, neither edges nor imports |
| Indexer.SettledChunks | indexer/indexer.go:565-602 | which chunks: for each of the analysis, the last of its content, rows with its language, content, hash, kind, name, parent and lines, its own vector and its tokenized full-text columns |
| Indexer.SettledOnly | indexer/indexer.go:593-601 | and no other chunk; the file row records hash and size |
| Indexer.CancelledBefore | indexer/indexer.go:153-202 | against the documented nil: a run cancelled before it starts reports an error, whatever the tree, and does nothing |
| Indexer.Indexer.Sort | indexer/indexer.go:208-241 | selects the existing, matching paths and removes what is gone |
| Indexer.Indexer.IndexFiles | indexer/indexer.go:207-256 | the same for given paths: selected ones are settled or withheld, those gone are removed, all others untouched; nil iff it finished, stopped between batches or in a batch under a dead context; the callback fires in the first two cases |
| Indexer.FilesIndexedExactly | indexer/indexer.go:207-256 | in terms of the disk: given paths that are in the root, readable, matching and within the limit have the hash of their content recorded unless one of their chunks failed to embed; those gone have no row left unless the database fails; all others are as they were |
| Indexer.Indexer.StaleFiles | indexer/indexer.go:273-312 | reports exactly the given paths in the root that are missing or cannot be examined, unreadable with another recorded time or size, or readable, within the limit, and of another recorded hash, equal time and size aside |
| Indexer.SettledIsFresh | indexer/indexer.go:153-157 | a file whose recorded hash is that of its content on disk has exactly the rows of a fresh index |
| Indexer.SettledUntouched | indexer/indexer.go:408-421 | a reported file whose content did not change is left alone, however the run ends, so a second run on an unchanged disk does nothing |
| Indexer.IncrementalEqualsScratch | indexer/indexer.go:153-202 | after a finished incremental run from any consistent store and a finished run from an empty one, every file both could embed has equal rows (but for the recorded mtime), files not reported have none, and oversized or failed files keep what they had |
| Indexer.SameTables | indexer/indexer.go:153-202 | if every reported file is within the limit and embeds, the two stores have equal chunks, vectors, full-text rows and hashes |
| Indexer.StaleExactly | indexer/indexer.go:258-272 | where equal mtime and size mean equal content, a readable file within the limits is reported stale iff its stored rows are not those of its content on disk |
| Bucket.SeqBuckets | localembed/bucket.go:35-44 | the powers of two from 8 below the maximum, then the maximum; an error iff the maximum is below 1 |
| Bucket.SeqLadderExactly | localembed/bucket.go:35-44 | it starts at 8, or at a smaller maximum, and doubles until the maximum |
| Bucket.BatchBuckets | localembed/bucket.go:50-62 | strictly ascending from 1 to the maximum, of 1, 8 and the maximum without what exceeds it |
| Bucket.BatchLadderExactly | localembed/bucket.go:50-62 | it is [1], [1, max] or [1, 8, max] for a maximum of 1, up to 8, or above |
| Bucket.RoundUp | localembed/bucket.go:122-129 | the rung that Bucket.RungMeans characterizes |
| Bucket.RungMeans | localembed/bucket.go:122-129 | that rung is the smallest one that holds n, or the last one if none does |
| Bucket.PaddingBounded | localembed/bucket.go:31-44 | n tokens are padded to no more than max(8, 2n - 2) |
| Bucket.Bucketize | localembed/bucket.go:71-118 | for every padded length the batches of that length hold exactly the texts that pad to it, in order, all but the last full; all shapes are on the ladders, rows are the smallest rung that holds the batch, and batches are as few as the largest batch allows |
| Bucket.EachTextOnce | localembed/bucket.go:64-70 | hence every text is in exactly one batch, once, with room for all its tokens unless it exceeds the longest length |
| Embedder.Shared.RunBatch | localembed/embedder.go:545-619 | one vector per text of the batch, that of the text's own tokens, or none at all |
| Embedder.Shared.RunOne | localembed/embedder.go:478-488 | a batch writes the results of its own texts and of no others |
| Embedder.Shared.RunAll | localembed/embedder.go:474-490 | in any order of the batches and with any of them failing, each text ends with its own vector or with its batch's error |
| Embedder.Shared.Tokenize | localembed/embedder.go:449-461 | blank texts get an error, all others are tokenized once, in order: all tokens of prefix and text, or the first maxSeqLen if there are more |
| Embedder.Shared.EmbedBatchPartial | localembed/embedder.go:413-492 | exactly one of vector and error per text; a vector is the embedding of the tokens of prefix and text, cut at maxSeqLen only if there are more, without as many at the end as are padding tokens; an error means closed, cancelled, blank, or that the text's own batch failed |
| Embedder.Shared.SingleExactly | localembed/embedder.go:495-508 | what one text alone embeds to, from the tokenizer and the model only: its tokens, cut only beyond maxSeqLen |
| Embedder.Embed | localembed/embedder.go:393-399 | the single-text call gives that same vector |
| Embedder.EmbedBatch | localembed/embedder.go:402-411 | all the vectors or none, none if any text is blank |
| Embedder.PartitionOneToOne | localembed/embedder.go:474-488 | the positions in the batches and the texts correspond one to one, which is why no lock is needed |
| Embedder.PaddingUnseen | localembed/embedder.go:270-278 | the tokens the model attends to, as many leading ones as are not the pad token, are the same however far a row is padded, and all of the text's unless it holds the pad token |
| Embedder.ContentExactly | localembed/embedder.go:270-278 | those tokens are as many as the row has besides padding tokens |
| DrainProtocol.InvNext | localembed/embedder.go:621-682 | every step of every goroutine keeps the lock, the in-flight count, the seal after closing and the order of release |
| DrainProtocol.NoCallAfterRelease | localembed/embedder.go:624-682 | in every interleaving, once a resource is released no call is in flight and none ever enters again |
| DrainProtocol.ReleasedOnceByOwner | localembed/embedder.go:647-681 | resources are released at most once each, all by one goroutine that closed the owning handle |
| DrainProtocol.TimedOutReleasesNothing | localembed/embedder.go:668-675 | a close that timed out releases nothing, then or later |
| DrainProtocol.NeverStuck | localembed/embedder.go:624-682 | while any goroutine is inside the protocol some goroutine inside it can move |
| CompileProtocol.InvNext | localembed/embedder.go:516-538 | every step keeps the lock, what each goroutine knows of the compiled shapes, and one success per shape in the cache |
| CompileProtocol.OneCompilation | localembed/embedder.go:128-139 | at most one compilation is in progress |
| CompileProtocol.CompiledOnceBeforeUse | localembed/embedder.go:516-579 | each shape is compiled successfully at most once, and a batch executes only after its own was |
| CompileProtocol.NeverRefused | localembed/embedder.go:284-289 | the compiled shapes never exceed the product of the ladders, so a cache sized for it never refuses one |
| GenerationCache.InvNext | query/query.go:243-283 | every step of readers, writers and invalidations keeps: cached data is as new as its generation, which is at most the counter, and answers are as new as the counter was when the call began |
| GenerationCache.NeverStale | query/query.go:253-283 | a call that begins after an invalidation never returns data older than the store was at that invalidation, in every interleaving |
| GenerationCache.CacheMonotone | query/graph.go:75-106 | the cached generation never decreases nor exceeds the counter, and no generation is rebuilt twice |
| GenerationCache.CurrentIfInvalidated | query/query.go:240-245 | with no write after the invalidation the answer is for the store as it is |
| GenerationCache.OldUntilInvalidated | query/query.go:240-283 | as long as nothing invalidates, every call answers with the version cached, and so for the present store iff nothing was written: what a run that wrote and then failed leaves behind |
| References.BuildIndex | query/graph.go:95-104 | symbols by name in listing order, and by id |
| References.CandidatesExactly | query/graph.go:95-104 | under a name are the symbols of that name and no others, in listing order |
| References.Resolve | query/graph.go:318-344 | the choice that References.BestMeans and References.FirstOfBest characterize, among all symbols of the name |
| References.BestMeans | query/graph.go:307-344 | that choice fails only without candidates and otherwise is the first candidate of the best rank |
| References.FirstOfBest | query/graph.go:318-344 | that is the first candidate in the referring file; without one the first in the module of the qualifier; without either the first of all |
| References.NearExactly | query/graph.go:349-373 | being in the module of the qualifier, spelled out: of the first import with that alias, or if there is none of the first whose last segment it is |
| References.BaseExactly | query/graph.go:355-359 | that last segment is what follows the last slash, trailing slashes aside |
| References.ModuleExactly | query/graph.go:366-373 | a file is of a module iff its directory is the module or ends with it after a slash, dots and slashes around the module aside; a file at the top is of none |
| References.ModuleForQualifier | query/graph.go:346-361 | the module of the first import with that alias, or else of the first with that last segment, or none |
| References.Dedupe | query/graph.go:406-440 | in place on the same array, for either key: the first reference of each key, in order |
| References.DedupedKeeps | query/graph.go:406-440 | no key is lost and none is left twice |
| References.DedupedFirst | query/graph.go:406-440 | left are exactly the references before which there is none of the same key, in order |
| Impact.CallersOf | query/graph.go:243-305 | a reference for exactly the named definitions with an edge to the symbol, named by the parser or else by the chunk |
| Impact.Callers | query/graph.go:175-190 | one reference for each name and file of a definition with an edge to the symbol, none twice, each that of such an edge; unless the database fails, the missing graph is reported iff there are no edges at all |
| Impact.CallerFrom | query/graph.go:175-190 | each reference returned is the one of some edge to the symbol |
| Impact.RefForExactly | query/graph.go:256-303 | each field of such a reference: named by the parser, by the chunk only where the parser had no name; at the first definition of the name in the edge's file, or else the first of all, or the chunk, or the edge itself |
| Impact.CallsExactly | query/graph.go:243-275 | who calls a name, from the edges: target name, and the parser's source name or, only where it is empty, the chunk's |
| Callees.Callees | query/graph.go:111-167 | exactly the edges from definitions of the symbol, each site (name, qualifier, kind, file and line) reported and once, at the definition it most likely means; only unresolved references to types are dropped |
| Callees.EverySite | query/graph.go:136-167 | no such edge is missed and no two references agree in all of name, qualifier, kind, file and line |
| Callees.EachFromEdge | query/graph.go:136-167 | each reference is at the site of such an edge, and resolved iff a definition has the name |
| Callees.LocatedAt | query/graph.go:150-156 | it is located at the first definition of the name in the edge's file, without one at the first in the module of its qualifier, without either at the first of all |
| Impact.MapDistances | query/graph.go:207-233 | shortest distances over chains of callers satisfy the level-by-level equations, cycles included |
| Impact.Impact | query/graph.go:196-239 | exactly the names at shortest reverse-call distance 1 to the depth, which is 2 if none is given and 10 at most, each once with that distance, nearest first, each with a reference to a name one nearer |
| Freshness.Truncate | query/query.go:208-224 | the longest prefix within the budget, never empty unless there was nothing |
| Freshness.TotalNext | query/query.go:214-223 | the budget counts a quarter of each content's length |
| Freshness.ClassifyStale | mcp/server.go:465-485 | the stale ones among the results' files, for the store and the disk as they are |
| Freshness.StaleNowExactly | indexer/indexer.go:273-312 | stale, in terms of disk and store: in the root, and gone, or of another time or size and another hash than recorded, unless too large to be indexed |
| Freshness.UnflaggedHonest | mcp/server.go:449-456 | a result whose file is not among them is current |
| Freshness.Server.Refresh | mcp/server.go:421-446 | re-indexes, searches and checks again; a stale file that could be re-indexed is settled; re-indexing finishes unless the store fails, it is cancelled, a file cannot be read or analysed, or the embedder does not answer for every text |
| Freshness.Server.SearchWithFreshness | mcp/server.go:405-459 | which tier is taken: of the files of the first finding exactly the stale ones are outdated; of 1 to threshold outdated files all that can be re-indexed are settled and the results are those of a second search, and if re-indexing fails those of the first; with none or more the store and the callbacks are untouched and the results are the first's; in every case only cut at the end. Unless a staleness check failed, a result is flagged iff its file was stale at the last check, and none is silently stale; after a failed check nothing is flagged |
| Freshness.HitsAreStored | query/query.go:160-188 | what the fused search returns meets what reconciliation assumes of a search |
| Poll.PollWatcher.Poll | watcher/poll.go:142-196 | despite the two maps changing places, the batch is the exact difference of the last two scans, with writes for strictly later times only and no path twice |
| Poll.SnapshotExactly | watcher/poll.go:113-140 | a scan records exactly the files that match and whose time could be read, with the time read last |
| Poll.PollWatcher.NextInterval | watcher/poll.go:52-59 | the base, twice the base after one idle poll, four times after more |
| Poll.PollWatcher.Watch | watcher/poll.go:61-102 | over every sequence of scans the batches sent, replayed on the first scan's files, give the last scan's files; the waits follow the idle streak |
| Poll.BatchesExactly | watcher/poll.go:142-196 | each batch of a run tells, against the scan before it, exactly what was created, what has a later time and what is gone, no path twice |
| Poll.SentExactly | watcher/poll.go:76-86 | what is sent are the batches that are not empty, in order |
| Poll.WaitsExactly | watcher/poll.go:76-92 | the wait after a batch is the base, after one empty batch twice the base, after more four times the base |
| Poll.ReplayDiff | watcher/poll.go:176-193 | replaying one batch in any order turns the old file set into the new one |
| Poll.ReplayHistory | watcher/poll.go:142-196 | so does replaying all of them |
| Search.Rank | store/sqlite.go:782-803 | all candidates of either list, each once, scored by reciprocal ranks, best first |
| Search.DominanceOrder | store/sqlite.go:782-803 | a candidate placed no worse in both lists and better in one comes first |
| Search.FetchRecords | store/sqlite.go:904-984 | exactly the stored candidates that pass the filters |
| Search.Assemble | store/sqlite.go:816-841 | the slice from offset to offset + limit of the filtered ranking, which Search.PagePlaces spells out |
| Search.PagePlaces | store/sqlite.go:816-841 | a result on a page stands at a place of the ranking whose candidate is stored and meets the language, name, kind and path filters, behind exactly max(offset, 0) and the results before it; a page is short only if there are no more such places |
| Search.SearchOnce | store/sqlite.go:698-844 | one round: both lists cut at the fetch limit, ranked, filtered and paged |
| Search.Search | store/sqlite.go:674-696 | every result is stored, meets every filter, the path filter included, and has the fused score of the lists fetched; results are found in ranking order behind exactly max(offset, 0) such candidates, none is left out, and fewer than limit only if there are no more; without filters one round, with filters a short page only after the widest of three |
| Search.NothingMissed | store/sqlite.go:682 | with at least 59 results in reach, nothing outside the fetched lists could have scored above that many of what was fetched |
| Search.WideEnough | store/sqlite.go:682 | 59 is exactly where the window becomes wide enough |
| Search.SmallWindowMisses | store/sqlite.go:682 | for every smaller number two concrete lists hide an entry that scores above the last one in reach |
| Search.PageMissesNothing | store/sqlite.go:674-696 | without filters and with at least 59 results in reach, if a candidate of either list was not fetched, the page is full and every hit on it scores at least as high as that candidate |

## Left out

- GitignoreToRegex: says what the text of a bracket expression is, not what it matches; that is the engine's.
- CompileLine: likewise, whether a text with a bracket expression compiles is the engine's.
- CompiledAsDocumented: for patterns without a bracket expression, whose meaning is the engine's, and without an empty segment, which documents nothing.
- EmbeddedStarsCrossDirectories: for anchored patterns without a bracket expression or a segment that is `**` or empty; of unanchored ones there is the example.
- BytesTakenForCharacters: for patterns without a bracket expression or an empty segment.
- Resolve: the directory of a file is taken from a path without empty or dot segments, as the store's are.
- EdgesBySource: the edges may come in any order, while the store sorts them by line.
- EdgesByTargetName: the edges may come in any order, while the store sorts them by file and line.
- Match: takes the path in segments below the root; turning absolute paths into such is not modelled.
- Watch: a run ends between batches; a batch that is about to be sent when the watcher is told to stop is lost.
- Scan: the list of files a scan comes across is given, with `.git` and `.codamigo` already skipped, and the watcher's patterns are a given predicate.
- Symbolic links, directory-read errors and `IsIgnored` in the walker, and the lock around its parse cache.
- Include and exclude globs of the walker and the path globs of a search are given predicates.
- SQLite itself: write-ahead logging, pools, the indexed-at time of a file row, KNN and BM25 ranking, tokenization of full-text rows.
- The contents of the repository map and its rendering.
- The refresh-index request of the search tool and its rate limit; the query-embedding cache.
- Timers, semaphores and wall-clock time are steps that may happen whenever the code allows them; liveness beyond the absence of a stuck state is not stated.
- Downloading and loading a model, choosing a backend, the tokenizer, tree-sitter, configuration, the command line, the terminal interface and the protocol server around the search.
- Floating-point rounding of scores and embeddings, and integer widths.
