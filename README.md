# Bangumi archive ingestion, modelled in Dafny

This project models the core of `bangumi-archive-tool`. The tool downloads the
Bangumi data archive and loads it into a database, in two parts:

- **The run (`CreateArchiveDatabase`).** It fetches the release manifest and
  adds that row to the database context. It then downloads the zipped data
  bundle, following a single 302 redirect, unpacks it and lists its
  `*.jsonlines` files. Each file is dispatched by name to one of eight entity
  types, or skipped when its name is none of them. Most stage failures return a
  failed `Result` with an `Error: ...` message. Four things end the run with an
  exception instead: a manifest body that cannot be read, a manifest url that
  is not a valid URI, a file that fails to parse, and a cleanup exception other
  than `IOException`.
- **The file reader (`DeserializeOfficialFile<T>`).** It reads a file in rounds
  of at most 200,000 lines and drops lines that are exactly empty. It splits
  each non-empty chunk into batches of `max(1, n / 20000)` consecutive lines and
  deserializes the batches into the slots of an array. Subjects get ids from a
  counter that starts at 1 for each file. It then adds every record to the table
  of its own type, in slot order, and saves the context once per chunk.

Modules, one per file:

| module | file | what it holds |
|---|---|---|
| `Wrappers` | wrappers.dfy | `Option` |
| `Models` | models.dfy | The entity classes as datatypes. `Record` is the sum of the eight entity types. |
| `Seqs` | seqs.dfy | Flattening and projecting sequences. |
| `LineReader` | line_reader.dfy | The rounds of the outer reading loop. |
| `Partition` | partition.dfy | The `GroupBy(index / batchSize)` partition. |
| `Deserializer` | deserializer.dfy | The abstract line parser, subject numbering, and the batches run by `Task.WhenAll`. |
| `Database` | database.dfy | The tables, routing by type, and the context class with `Add` and `SaveChanges`. |
| `Ingest` | ingest.dfy | The specification of a file's ingestion and the imperative `DeserializeOfficialFile`. |
| `Dispatch` | dispatch.dfy | `GetFileNameWithoutExtension`, `ToLower` and the eight-way name switch. |
| `Orchestrator` | orchestrator.dfy | The stage outcomes, the file loop, and the imperative `CreateArchiveDatabase`. |
| `SubjectBlobs` | subject_blobs.dfy | The `Tags` / `Score_Details` accessors, as written and as intended. |

Modelling choices:

- **Parsing.** `JsonSerializer.Deserialize<T>` is an abstract `Parser`. Given a
  kind and a line, it gives `Malformed(message)` (it throws), `Null`, or a record
  of that kind.
- **Concurrency.** The async lambdas passed to `Task.WhenAll` contain no
  `await`, so the model runs them one after another in batch order. A throwing
  batch leaves its slot empty and the later batches still run. The chunk then
  fails with the first fault in batch order.
- **The store.** `ArchiveDbContext` has three fields:
  - `tracked`: the rows the context tracks;
  - `committed`: the rows saved;
  - `saves`: how many saves have happened.

  `SaveChanges` commits every tracked row.
- **The environment.** Everything outside the process is a value of
  `Environment`: each HTTP request, reading the manifest body and the body of a
  rejected bundle response, checking the bundle url is a valid URI, saving the
  bundle, extraction, the directory listing, and the cleanup. Each appears only
  as the outcome the code observes (a response with a status and body, or the
  message of the exception thrown).

Where the code's log text and its behaviour disagree, the model follows the
behaviour:

- **A failing data file.** The log says "This file will be skipped. Continuing."
  but the code rethrows (`Program.cs:296-300`), so the run ends.
- **A failing follow-up request.** The log mentions "Failed to download
  file(s)", but the returned message is only `Error: <status>: <body>`
  (`Program.cs:160-170`).

## Model

| member | source | states |
|---|---|---|
| LineReader.Kept | bangumi-archive-tool/Program.cs:346-348 | Defines the lines a round keeps: the input lines that are not the empty string, in order. Its result is never longer than the input. |
| LineReader.RoundLength | bangumi-archive-tool/Program.cs:344 | Defines how many raw lines one round consumes: 200,000, or what remains if fewer. |
| LineReader.KeptMembership | bangumi-archive-tool/Program.cs:346-348 | A line is kept exactly when it occurs in the input and is not the empty string, so whitespace-only lines are kept. |
| LineReader.Rounds | bangumi-archive-tool/Program.cs:341-349 | No round holds more than 200,000 lines. |
| LineReader.RoundCount | bangumi-archive-tool/Program.cs:341-345 | The file is read in ceil(lines / 200,000) rounds. |
| LineReader.RoundsLossless | bangumi-archive-tool/Program.cs:336-351 | The rounds' kept lines, concatenated, are the file's non-empty lines in order. |
| Partition.BatchCount | bangumi-archive-tool/Program.cs:356-358 | Defines the number of groups `GroupBy` forms: none for no lines, else (n - 1) / size + 1. |
| Partition.Group | bangumi-archive-tool/Program.cs:355-357 | Defines the group with key k: the lines, in order, whose index divided by the batch size is k. |
| Partition.Batches | bangumi-archive-tool/Program.cs:353-358 | Defines the batches: group 0, group 1, ... of the chunk, in key order. |
| Partition.BatchSize | bangumi-archive-tool/Program.cs:353 | The batch size is at least 1, and at most the line count when there are lines. |
| Partition.BatchShape | bangumi-archive-tool/Program.cs:353-358 | Batch k is the slice starting at k * size. It is non-empty and holds exactly `size` lines unless it is the last batch. |
| Partition.BatchTotal | bangumi-archive-tool/Program.cs:353-358 | There are no batches exactly when there are no lines. Otherwise (count - 1) * size < n <= count * size, so the count is ceil(n / size). |
| Partition.PartitionExact | bangumi-archive-tool/Program.cs:353-358 | The batches are consecutive, non-empty and full except the last, and their concatenation is the chunk. |
| Partition.BatchesPrefix | bangumi-archive-tool/Program.cs:354-358 | The first j batches concatenate to the chunk's first min(j * size, n) lines. |
| Deserializer.Parser | bangumi-archive-tool/Program.cs:369 | Defines `Deserialize<T>` as an abstract function of the kind and the line: it throws, yields null, or yields a record of that kind. |
| Deserializer.Feed | bangumi-archive-tool/Program.cs:364-381 | Defines one iteration of the batch's `foreach`: a throwing line faults; null is skipped; a Subject gets the next id and the counter advances; the record is kept. |
| Deserializer.ParseLines | bangumi-archive-tool/Program.cs:363-381 | Defines the sequential pass over lines from a start id: the records and the next id, or the first fault. |
| Deserializer.DoneIffClean | bangumi-archive-tool/Program.cs:364-381 | A sequential pass over lines completes exactly when no line's parse throws. |
| Deserializer.FaultIsFirstMalformed | bangumi-archive-tool/Program.cs:367-377 | A fault is the first throwing line, with that line's exception message, and every line before it parses. |
| Deserializer.RecordsFollowLines | bangumi-archive-tool/Program.cs:363-381 | The records gathered are the non-null parse results in line order. Apart from a Subject's id they are exactly those results. |
| Deserializer.SubjectIdsDense | bangumi-archive-tool/Program.cs:369-371 | Subjects get ids start, start+1, ... in line order. One id is used per parsed Subject, and the counter ends at start plus their number. |
| Deserializer.RecordsAreValues | bangumi-archive-tool/Program.cs:363-381 | For every type but Subject, a completed pass gathers exactly the non-null parse results, in line order. |
| Deserializer.RecordsOfKind | bangumi-archive-tool/Program.cs:369 | Every record deserialized as T is of type T. |
| Deserializer.RunBatches | bangumi-archive-tool/Program.cs:360-386 | The array of slots has one slot per batch. |
| Deserializer.BatchesAgree | bangumi-archive-tool/Program.cs:360-390 | Running the batches in order has the same effect as one sequential pass over the chunk. Either no batch faults and the slots, read in index order, are the pass's records and counter, or the first fault in batch order is the pass's fault. |
| Database.Route | bangumi-archive-tool/Program.cs:392-418 | Defines adding one record: it is appended to the table of its own type. |
| Database.RouteAll | bangumi-archive-tool/Program.cs:388-420 | Defines adding records one after another, in order. |
| Database.AddInfo | bangumi-archive-tool/Program.cs:119 | Defines tracking the manifest row: it is appended to the manifest table. |
| Database.RouteAllByKind | bangumi-archive-tool/Program.cs:392-418 | After adding records, each table is its old rows followed by exactly the records of its own type, in order. The manifest table is unchanged. |
| Database.SingleKindOthersUnchanged | bangumi-archive-tool/Program.cs:392-418 | Records of a single type leave every other table, and the manifest table, unchanged. |
| Database.SingleKindOwnTable | bangumi-archive-tool/Program.cs:392-418 | Records of a single type all land in that type's table, in order, one row per record, for each of the eight types. |
| Database.SingleKindTouchesOneTable | bangumi-archive-tool/Program.cs:392-418 | Records of a single type change only that type's table, which gains every one of them in order, for each of the eight types. |
| Database.RouteAllExtends | bangumi-archive-tool/Program.cs:388-420 | Adding records only appends, so saved rows remain a prefix of the tracked rows. |
| Database.ArchiveDbContext.constructor | bangumi-archive-tool/Program.cs:15-16 | A context over an existing database starts with nothing pending and no saves. |
| Database.ArchiveDbContext.AddArchiveInfo | bangumi-archive-tool/Program.cs:119 | The manifest row is tracked but not saved. |
| Database.ArchiveDbContext.Add | bangumi-archive-tool/Program.cs:392-418 | `AddAsync` appends the record to its own table only, unsaved. |
| Database.ArchiveDbContext.SaveChanges | bangumi-archive-tool/Program.cs:422 | Every tracked row becomes committed, and the save count grows by one. |
| Ingest.ChunkStep | bangumi-archive-tool/Program.cs:351-423 | Defines one round of the outer loop: an empty chunk is skipped; a faulting chunk ends the file with nothing added; otherwise its slots are routed in index order and saved once. |
| Ingest.IngestChunks | bangumi-archive-tool/Program.cs:341-424 | Defines the rounds one after another, from a given store and counter. |
| Ingest.IngestFile | bangumi-archive-tool/Program.cs:333-425 | Defines a whole file: the rounds of its raw lines, with the subject counter starting at 1. |
| Ingest.IngestChunksCommits | bangumi-archive-tool/Program.cs:388-422 | Reading a file never touches the manifest table. With no save the committed rows are unchanged. After a save they include the manifest rows tracked at the start. |
| Ingest.ChunkStepSequential | bangumi-archive-tool/Program.cs:353-422 | A non-empty chunk fails exactly when the sequential pass over it faults, with that fault and nothing added. Otherwise its records are routed in line order and saved once. |
| Ingest.IngestChunksSequential | bangumi-archive-tool/Program.cs:341-424 | Over all chunks: the file faults exactly when the pass over all kept lines faults, with the same first fault. Otherwise the tables gain those records in order, there is one save per non-empty chunk, and everything tracked is committed. |
| Ingest.FaultIsFinal | bangumi-archive-tool/Program.cs:373-386 | Once a chunk has faulted, the remaining chunks change nothing. |
| Ingest.FailFast | bangumi-archive-tool/Program.cs:373-386 | When the first unclean chunk faults, the store is exactly as it was after the clean chunks before it. Those chunks' records are tracked in line order. |
| Ingest.IngestFileSequential | bangumi-archive-tool/Program.cs:333-425 | A file faults exactly when one of its kept lines throws, with the first such line's fault. Otherwise its records are routed in order with one save per non-empty round, and are committed. |
| Ingest.SubjectFileIds | bangumi-archive-tool/Program.cs:340-371 | A clean subject file appends one row per parsed Subject, with ids 1..N in line order across chunks. Every other table is unchanged. |
| Ingest.FileRowsAreValues | bangumi-archive-tool/Program.cs:379-418 | For a non-subject file, the rows appended are exactly the non-null parse results, in line order. |
| Ingest.ReadRound | bangumi-archive-tool/Program.cs:343-349 | One round reads min(200,000, remaining) lines and keeps exactly the non-empty ones. |
| Ingest.DeserializeBatch | bangumi-archive-tool/Program.cs:361-384 | The batch loop returns exactly what the sequential pass gives: the records and the counter, or the first fault. |
| Ingest.FaultIsFinalInBatch | bangumi-archive-tool/Program.cs:373-376 | After a throwing line the rest of the batch does not run. |
| Ingest.DeserializeBatches | bangumi-archive-tool/Program.cs:360-386 | The slots array, faults and counter are what RunBatches specifies. |
| Ingest.AddSlots | bangumi-archive-tool/Program.cs:388-420 | The slots are added in index order, each record to its own table, and nothing is saved. |
| Ingest.IngestChunk | bangumi-archive-tool/Program.cs:353-423 | Processing one chunk takes the store and the counter exactly as one step of the file specification does. |
| Ingest.DeserializeOfficialFile | bangumi-archive-tool/Program.cs:333-425 | The imperative reader leaves the store and reports the fault exactly as IngestFile specifies. |
| Dispatch.FileName | bangumi-archive-tool/Program.cs:256 | Defines `Path.GetFileName`: what follows the last '/'. |
| Dispatch.FileStem | bangumi-archive-tool/Program.cs:256 | Defines `Path.GetFileNameWithoutExtension`: the file name up to its last '.', or all of it when it has none. |
| Dispatch.Lower | bangumi-archive-tool/Program.cs:256 | Defines `ToLower` on the letters A-Z. |
| Dispatch.KindName | bangumi-archive-tool/Program.cs:259-290 | Defines the case label of each of the eight types. |
| Dispatch.KindOfName | bangumi-archive-tool/Program.cs:257-294 | Defines the switch: each of the eight labels selects its type, and any other name selects nothing. |
| Dispatch.KindOfPath | bangumi-archive-tool/Program.cs:256-294 | Defines the type a data file's path selects, if any. |
| Dispatch.LastIndexOf | bangumi-archive-tool/Program.cs:256 | The position found holds the separator and no later position does, or the separator is absent. |
| Dispatch.KindOfNameExact | bangumi-archive-tool/Program.cs:257-294 | A name selects a type exactly when it equals that type's name, and any other name selects nothing. |
| Dispatch.KindNamesDistinct | bangumi-archive-tool/Program.cs:257-294 | The eight names are pairwise distinct, so the switch is unambiguous and reaches every type. |
| Dispatch.UnknownName | bangumi-archive-tool/Program.cs:291-293 | A name reaches the default branch exactly when it is none of the eight labels. |
| Dispatch.NoDotAfterStem | bangumi-archive-tool/Program.cs:234 | In `<stem>.jsonlines` the only '.' after the stem is the extension's, so the stem is what remains when the extension is removed. |
| Dispatch.StemOfDataFile | bangumi-archive-tool/Program.cs:256 | `<dir>/<stem>.jsonlines` has file name without extension `<stem>`, for any stem without a '/', dots included. |
| Dispatch.DispatchDataFile | bangumi-archive-tool/Program.cs:256-294 | A data file selects a type exactly when its lower-cased stem is that type's name. It is skipped exactly when that stem is none of them; so `subject.v2.jsonlines` is skipped. |
| Orchestrator.IsSuccessStatusCode | bangumi-archive-tool/Program.cs:94 | Defines a success status: a code from 200 to 299. |
| Orchestrator.ManifestStage | bangumi-archive-tool/Program.cs:77-129 | Defines the manifest stage: a request exception, a non-2xx status, a malformed body or a null manifest each stop the run with their message. A body that cannot be read (lines 97, 102 and 112, outside any `try`) raises. Otherwise the manifest proceeds. |
| Orchestrator.Rejected | bangumi-archive-tool/Program.cs:162-171 | Defines the failure for a non-2xx bundle or follow-up response: its status and body, or the download message when reading the body throws, since the read is inside the download `try`. |
| Orchestrator.SaveZip | bangumi-archive-tool/Program.cs:173-195 | Defines writing the bundle to disk: an exception there is a download failure. |
| Orchestrator.DownloadStage | bangumi-archive-tool/Program.cs:134-207 | Defines the bundle download: 2xx is saved; exactly a 302 makes one follow-up request, which must be 2xx; any other status fails with the rejected response's status and body, or with the download message when reading that body throws (lines 164, 169, 181 and 186, inside the `try`); any other exception fails with the download message. |
| Orchestrator.PrepareStage | bangumi-archive-tool/Program.cs:131-249 | Defines building the bundle request from the manifest url, which raises when the url is not a valid URI (line 134, outside any `try`). Then download, extraction and listing follow in order, each stopping the run with its message on failure. |
| Orchestrator.IngestFiles | bangumi-archive-tool/Program.cs:251-309 | Defines the file loop: an unknown name is skipped, a known file is ingested as its type, and a fault ends the loop. |
| Orchestrator.RunSpec | bangumi-archive-tool/Program.cs:60-331 | Defines the whole run: the manifest row is tracked before the download; a stage failure returns a failed Result; an unreadable manifest body, an invalid bundle url, a file fault, or a cleanup exception other than `IOException` is raised; otherwise success. |
| Orchestrator.FilesFaultIsFinal | bangumi-archive-tool/Program.cs:296-301 | After a file faults, later files are not processed. |
| Orchestrator.FilesCleanIff | bangumi-archive-tool/Program.cs:251-309 | The file loop completes exactly when no kept line of any known file throws. |
| Orchestrator.FilesFaultIsFirstUnclean | bangumi-archive-tool/Program.cs:251-309 | A loop fault comes from a kept line of a known file, with that line's message, and every earlier file is clean. |
| Orchestrator.UnknownFilesIgnored | bangumi-archive-tool/Program.cs:291-293 | Unknown files change nothing. The loop ends as it would over the known files alone. |
| Orchestrator.IngestFilesCommits | bangumi-archive-tool/Program.cs:251-309 | The file loop never touches the manifest table, and commits only by saving everything tracked. |
| Orchestrator.DownloadSucceedsIff | bangumi-archive-tool/Program.cs:137-207 | The bundle is saved exactly when it was saved after a 2xx response, or after a 302 whose single follow-up request got a 2xx response. |
| Orchestrator.RedirectOnlyOn302 | bangumi-archive-tool/Program.cs:153-176 | The follow-up request influences nothing unless the bundle response is a 302. |
| Orchestrator.ManifestStopsIff | bangumi-archive-tool/Program.cs:80-129 | The run stops at the manifest exactly on a request exception, or on a readable body with a non-2xx status or that is not a manifest; it then returns a failure. It raises exactly when the response body cannot be read. Either way the store is untouched. |
| Orchestrator.InvalidUrlRaises | bangumi-archive-tool/Program.cs:119-135 | A manifest url that is not a valid URI raises that exception after the manifest row is tracked and before any bundle request: nothing is committed, and the bundle responses play no part. |
| Orchestrator.RunSucceedsIff | bangumi-archive-tool/Program.cs:80-330 | A run returns success exactly when four things hold: the manifest is stored; the bundle is downloaded, extracted and listed; every known file is clean; and cleanup raises nothing other than an `IOException`. |
| Orchestrator.LastFileFault | bangumi-archive-tool/Program.cs:251-301 | When the loop first faults on the last file, every earlier file is clean, the last file has a known name, and the fault is one of its kept lines that throws, with that line's message. |
| Orchestrator.FileFaultRaises | bangumi-archive-tool/Program.cs:296-330 | Once the file loop faults, the run raises that file's exception with the store the loop left. The cleanup block is never reached, so its outcome plays no part. |
| Orchestrator.RunRaisesIff | bangumi-archive-tool/Program.cs:94-330 | A run ends in an exception exactly when the manifest body cannot be read, or the manifest url is not a valid URI, or all stages before the file loop proceeded and then either a known file is unclean or the cleanup throws something other than an `IOException`. |
| Orchestrator.ReturnedResults | bangumi-archive-tool/Program.cs:54-330 | A returned `Result` never has a database path. It succeeds exactly when it has no message. A failed one's message starts with "Error: ". |
| Orchestrator.ManifestRowCommit | bangumi-archive-tool/Program.cs:119-422 | Starting with nothing pending, a run that saves nothing commits nothing. A run that saves commits exactly the fetched manifest row to the manifest table. |
| Orchestrator.FetchBundle | bangumi-archive-tool/Program.cs:136-207 | The imperative download returns exactly the failure message DownloadStage specifies, or none. |
| Orchestrator.IngestListedFiles | bangumi-archive-tool/Program.cs:251-309 | The imperative file loop leaves the store and reports the fault exactly as IngestFiles specifies. |
| Orchestrator.CreateArchiveDatabase | bangumi-archive-tool/Program.cs:60-331 | The imperative run returns or raises, and leaves the store, exactly as RunSpec says. |
| SubjectBlobs.Tags | bangumi-archive-tool/Program.cs:463 | Defines the `Tags` getter: it deserializes `Tags_Json`. |
| SubjectBlobs.SetTagsAsWritten | bangumi-archive-tool/Program.cs:464 | Defines the `Tags` setter as written: it stores the serialized list in `Score_Details_Json`. |
| SubjectBlobs.SetTags | bangumi-archive-tool/Program.cs:464-467 | Defines the `Tags` setter as intended: it stores the serialized list in `Tags_Json`. |
| SubjectBlobs.ScoreDetails | bangumi-archive-tool/Program.cs:481 | Defines the `Score_Details` getter: it deserializes `Score_Details_Json`. |
| SubjectBlobs.SetScoreDetails | bangumi-archive-tool/Program.cs:482 | Defines the `Score_Details` setter: it stores the serialized map in `Score_Details_Json`. |
| SubjectBlobs.SetTagsAsWrittenLosesTags | bangumi-archive-tool/Program.cs:460-464 | As written, setting `Tags` to a new list does not change what `Tags` reads back, and it overwrites the score details with the tag list's JSON. |
| SubjectBlobs.TagsRoundTrip | bangumi-archive-tool/Program.cs:460-467 | The intended setter round-trips through the getter and leaves the score details alone. |
| SubjectBlobs.ScoreDetailsRoundTrip | bangumi-archive-tool/Program.cs:478-485 | The `Score_Details` setter round-trips through its getter and leaves the tags alone. |

## Left out

- Network: `HttpClient`, the user-agent and bearer headers, timeouts, and where the bundle URL and redirect target come from. Each request is only its observed outcome.
- Filesystem: saving the zip, `ZipFile.ExtractToDirectory`, `Directory.GetFiles` and deleting temporary files are each an outcome. The listing order is taken as given.
- Reading a data file: opening a listed file (`File.OpenRead`, line 337) and reading its lines (`ReadLineAsync`, line 346) are assumed to succeed. A data file is the sequence of lines they yield. In the source, a failure there is rethrown at line 300 and ends the run with an exception; the model has no such path.
- Orchestrator.RunRaisesIff: lists the raise paths of the model: an unreadable manifest body, an invalid bundle url, an unclean known file, and a cleanup exception other than `IOException`. It does not include a failure to open or read a data file (previous line), or a throwing `AddAsync` or `SaveChangesAsync` (the Database engine line), which are not modelled.
- Orchestrator.UriCheck: whether a url is a valid URI, and the message of the exception when it is not, are taken as given rather than derived from the rules of `System.Uri`.
- Database engine: EF Core, SQLite, migrations, key configuration and the change tracker's identity rules. A `SaveChangesAsync` or `AddAsync` that throws is not modelled; a save always commits everything tracked.
- JSON: `System.Text.Json` is the abstract `Parser` and the abstract `Codec`. Its exception messages, and the serializer's calls to the unmapped property setters while it reads a line, are not modelled.
- `double` and `decimal` fields (`Score`, `Sort`) are opaque bit patterns.
- `GC.Collect`, `GC.WaitForPendingFinalizers`, all console output and `Main`'s argument handling have no effect on the model.
- Threads: the batches run sequentially, which is how lambdas with no `await` behave. No atomic counter is modelled.
- Dispatch.Lower: lower-cases A-Z as the invariant culture does. The source's `ToLower` follows the current culture, so under a Turkish or Azerbaijani culture `'I'` becomes `'ı'`, and `EPISODE.jsonlines` is skipped where the model picks the episode table. Letters outside A-Z are left as they are.
- Dispatch.FileStem: takes only '/' as a directory separator, not '\\' as on Windows.
- Deserializer.SubjectIdsDense: the counter is an unbounded integer. The source's 32-bit `lineCount` would wrap after 2^31 - 1 subjects.
- Orchestrator.Status: the status name printed in messages is taken as given rather than derived from `HttpStatusCode`.
- Orchestrator.ManifestStage: the message of the exception that adding a `null` manifest throws is a fixed string.
- SubjectBlobs.Tags: the `?? "[]"` and `?? "{}"` fallbacks for null columns are not modelled. Strings in the model are never null.
- The `Favorite` accessor pair (lines 491-495) is not modelled. It has the same shape as `Score_Details`.

## Findings

| source | as written | input that shows it | evidently intended | confidence | as-written member | corrected member |
|---|---|---|---|---|---|---|
| bangumi-archive-tool/Program.cs:464 | The `Tags` setter (line 464) serializes the list into `Score_Details_Json`. | Any subject whose stored tags are `[]`, with `Tags` set to `[{"name":"a","count":1}]`: `Tags` still reads `[]`, and the score details now hold the tag JSON. | The setter writes `Tags_Json`, as the getter on line 463 reads it. | high; not executed | SubjectBlobs.SetTagsAsWrittenLosesTags | SubjectBlobs.TagsRoundTrip |
