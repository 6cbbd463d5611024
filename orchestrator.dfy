/**
 * CreateArchiveDatabase: fetch the manifest, record it, fetch and unpack the
 * data bundle, ingest every known data file, clean up. Each stage either
 * proceeds or ends the run with a failed Result. A failed read of the manifest
 * body, a bundle url that is not a URI, a faulting data file or a cleanup
 * error other than an I/O error ends it with an exception instead.
 */
module Orchestrator {
  import opened Wrappers
  import opened Models
  import opened LineReader
  import opened Deserializer
  import opened Database
  import opened Ingest
  import opened Dispatch

  /** An HTTP status: its code and the name its enum value prints as. */
  datatype Status = Status(code: int, name: string)

  /** `IsSuccessStatusCode`: the 2xx range. */
  predicate IsSuccessStatusCode(s: Status) {
    200 <= s.code <= 299
  }

  /** `HttpStatusCode.Redirect`. */
  const REDIRECT: int := 302

  /** What a `SendAsync` delivers: a response, or the message of the exception it threw. */
  datatype Http = Response(status: Status, body: string) | Threw(message: string)

  /** A file-system step that completes or throws. */
  datatype Io = Completed | Failed(message: string)

  /** Removing the temporary files: done, an `IOException`, or any other exception. */
  datatype Cleanup = Removed | IOFailure | OtherFailure(message: string)

  /** Deserializing the manifest body: an exception, JSON `null`, or a manifest. */
  datatype ManifestJson = ManifestMalformed(message: string) | ManifestNull | Manifest(info: ArchiveDatabaseInfo)

  /** An extracted `*.jsonlines` file: its path and its lines. */
  datatype JsonFile = JsonFile(path: string, lines: seq<string>)

  /** `Directory.GetFiles` on the extraction folder. */
  datatype Listing = Listed(files: seq<JsonFile>) | ListingFailed(message: string)

  /**
   * Building the bundle request from the manifest's url: the message of the
   * exception a url that is not a valid URI throws, or None.
   */
  type UriCheck = string -> Option<string>

  /**
   * Everything the run depends on outside the process, as the outcomes it
   * observes: the manifest request, reading its body, its deserialization,
   * building the bundle request, the bundle request, the follow-up request
   * a 302 triggers, reading the body of a rejected bundle or follow-up
   * response, saving and extracting the bundle, listing the extracted
   * files, the cleanup, and the line deserializer.
   */
  datatype Environment = Environment(
    manifest: Http,
    manifestRead: Io,
    manifestJson: ManifestJson,
    uri: UriCheck,
    bundle: Http,
    redirect: Http,
    rejectedRead: Io,
    saveZip: Io,
    extract: Io,
    listing: Listing,
    cleanup: Cleanup,
    parse: Parser)

  /** The value CreateArchiveDatabase returns; the database path is never filled in. */
  datatype Result = Result(isSuccess: bool, databasePath: Option<string>, exceptionMessage: Option<string>)

  /** A run returns a Result or ends with an exception. */
  datatype Outcome = Returned(result: Result) | Raised(message: string)

  /** The store after a run, with the run's outcome. */
  datatype RunEnd = RunEnd(outcome: Outcome, db: Db)

  /**
   * A stage proceeds with a value, stops the run with a failed Result, or
   * ends it with an exception thrown outside any `try`.
   */
  datatype Stage<T> = Proceed(value: T) | Stop(message: string) | Raise(message: string)

  const SUCCESS: Result := Result(true, None, None)

  function Failure(message: string): Result {
    Result(false, None, Some(message))
  }

  /** Every failure message the run returns has this shape. */
  function Error(detail: string): string {
    "Error: " + detail
  }

  const MANIFEST_DOWNLOAD: string := "Failed to download manifest file: "
  const MANIFEST_STORE: string := "Failed to deserialize or storage manifest file: "
  const DOWNLOAD: string := "Failed to download file(s): "
  const EXTRACT: string := "Failed to extract zip file: "
  const LISTING: string := "Failed to read extracted json files. Is there any permission issue with temp folders? Details: "

  /** Message of the `ArgumentNullException` that adding a `null` manifest throws. */
  const NULL_ENTITY: string := "Value cannot be null. (Parameter 'entity')"

  /** Message for a response whose status is not 2xx: its status name, then its body. */
  function StatusError(status: Status, body: string): string {
    Error(status.name + ": " + body)
  }

  /**
   * The manifest request and its deserialization. The body is read outside
   * any `try`, on the failure path and the success path alike.
   */
  function ManifestStage(env: Environment): Stage<ArchiveDatabaseInfo> {
    match env.manifest
    case Threw(m) => Stop(Error(MANIFEST_DOWNLOAD + m))
    case Response(status, body) =>
      if env.manifestRead.Failed? then Raise(env.manifestRead.message)
      else if !IsSuccessStatusCode(status) then Stop(StatusError(status, body))
      else
        match env.manifestJson
        case ManifestMalformed(m) => Stop(Error(MANIFEST_STORE + m))
        case ManifestNull => Stop(Error(MANIFEST_STORE + NULL_ENTITY))
        case Manifest(info) => Proceed(info)
  }

  /**
   * A non-2xx bundle or follow-up response: its body is read inside the
   * download `try`, so a read that throws is a download failure.
   */
  function Rejected(env: Environment, status: Status, body: string): string {
    match env.rejectedRead
    case Completed => StatusError(status, body)
    case Failed(m) => Error(DOWNLOAD + m)
  }

  /** Writing the downloaded bundle to disk. */
  function SaveZip(env: Environment): Option<string> {
    match env.saveZip
    case Completed => None
    case Failed(m) => Some(Error(DOWNLOAD + m))
  }

  /**
   * The bundle download: a 2xx response is saved; exactly a 302 triggers one
   * follow-up request, whose response must itself be 2xx; any other status
   * fails, with the rejected response's status and body. Returns the failure
   * message, if any.
   */
  function DownloadStage(env: Environment): Option<string> {
    match env.bundle
    case Threw(m) => Some(Error(DOWNLOAD + m))
    case Response(status, body) =>
      if IsSuccessStatusCode(status) then SaveZip(env)
      else if status.code == REDIRECT then
        match env.redirect
        case Threw(m) => Some(Error(DOWNLOAD + m))
        case Response(followStatus, followBody) =>
          if IsSuccessStatusCode(followStatus) then SaveZip(env)
          else Some(Rejected(env, followStatus, followBody))
      else Some(Rejected(env, status, body))
  }

  /**
   * Building the request for the bundle at `url` (outside any `try`), then
   * download, extraction and listing, giving the data files in listing order.
   */
  function PrepareStage(env: Environment, url: string): Stage<seq<JsonFile>> {
    if env.uri(url).Some? then Raise(env.uri(url).value)
    else
    match DownloadStage(env)
    case Some(m) => Stop(m)
    case None =>
      match env.extract
      case Failed(m) => Stop(Error(EXTRACT + m))
      case Completed =>
        match env.listing
        case ListingFailed(m) => Stop(Error(LISTING + m))
        case Listed(files) => Proceed(files)
  }

  /** The store after some files, and the fault that ended the loop, if any. */
  datatype FilesRun = FilesRun(db: Db, fault: Option<Fault>)

  /** The `foreach` over data files: unknown names are skipped, a fault ends the loop. */
  function IngestFiles(parse: Parser, files: seq<JsonFile>, db: Db): FilesRun {
    if files == [] then FilesRun(db, None)
    else
      var prev := IngestFiles(parse, files[..|files| - 1], db);
      var file := files[|files| - 1];
      if prev.fault.Some? || KindOfPath(file.path).None? then prev
      else
        var out := IngestFile(parse, KindOfPath(file.path).value, file.lines, prev.db);
        FilesRun(out.db, out.fault)
  }

  /** The whole run, starting from the store `db`. */
  function RunSpec(env: Environment, db: Db): RunEnd {
    match ManifestStage(env)
    case Stop(m) => RunEnd(Returned(Failure(m)), db)
    case Raise(m) => RunEnd(Raised(m), db)
    case Proceed(info) =>
      var recorded := db.(tracked := AddInfo(db.tracked, info));
      match PrepareStage(env, info.url)
      case Stop(m) => RunEnd(Returned(Failure(m)), recorded)
      case Raise(m) => RunEnd(Raised(m), recorded)
      case Proceed(files) =>
        var ingested := IngestFiles(env.parse, files, recorded);
        if ingested.fault.Some? then RunEnd(Raised(ingested.fault.value.message), ingested.db)
        else
          match env.cleanup
          case OtherFailure(m) => RunEnd(Raised(m), ingested.db)
          case _ => RunEnd(Returned(SUCCESS), ingested.db)
  }

  /** A data file is clean when its name is unknown or none of its kept lines throws. */
  predicate FileClean(parse: Parser, file: JsonFile) {
    KindOfPath(file.path).Some? ==> Clean(parse, KindOfPath(file.path).value, Kept(file.lines))
  }

  /** The files whose names select a type. */
  function KnownFiles(files: seq<JsonFile>): seq<JsonFile> {
    if files == [] then []
    else KnownFiles(files[..|files| - 1]) + (if KindOfPath(files[|files| - 1].path).Some? then [files[|files| - 1]] else [])
  }

  /** Once a file has faulted, the remaining files are not looked at. */
  lemma {:induction false} FilesFaultIsFinal(parse: Parser, files: seq<JsonFile>, db: Db, j: nat)
    requires j <= |files| && IngestFiles(parse, files[..j], db).fault.Some?
    ensures IngestFiles(parse, files, db) == IngestFiles(parse, files[..j], db)
    decreases |files| - j
  {
    if j < |files| {
      var longer := files[..j + 1];
      assert longer[..|longer| - 1] == files[..j];
      assert IngestFiles(parse, longer, db) == IngestFiles(parse, files[..j], db);
      FilesFaultIsFinal(parse, files, db, j + 1);
    } else {
      assert files[..j] == files;
    }
  }

  /** Every file of `files` is clean. */
  predicate AllClean(parse: Parser, files: seq<JsonFile>) {
    forall i :: 0 <= i < |files| ==> FileClean(parse, files[i])
  }

  lemma AllCleanSnoc(parse: Parser, files: seq<JsonFile>)
    requires files != []
    ensures AllClean(parse, files) <==> AllClean(parse, files[..|files| - 1]) && FileClean(parse, files[|files| - 1])
  {
    var init := files[..|files| - 1];
    assert forall i :: 0 <= i < |init| ==> init[i] == files[i];
  }

  /** One iteration of the file loop after a clean prefix: it faults exactly when the file is unclean. */
  lemma FilesStep(parse: Parser, files: seq<JsonFile>, db: Db)
    requires files != [] && IngestFiles(parse, files[..|files| - 1], db).fault.None?
    ensures IngestFiles(parse, files, db).fault.None? <==> FileClean(parse, files[|files| - 1])
  {
    var prev, file := IngestFiles(parse, files[..|files| - 1], db), files[|files| - 1];
    if KindOfPath(file.path).Some? {
      IngestFileSequential(parse, KindOfPath(file.path).value, file.lines, prev.db);
    }
  }

  /** The file loop completes exactly when every known file is clean. */
  lemma {:induction false} FilesCleanIff(parse: Parser, files: seq<JsonFile>, db: Db)
    ensures IngestFiles(parse, files, db).fault.None? <==> AllClean(parse, files)
  {
    if files != [] {
      var init := files[..|files| - 1];
      FilesCleanIff(parse, init, db);
      AllCleanSnoc(parse, files);
      if IngestFiles(parse, init, db).fault.None? {
        FilesStep(parse, files, db);
      }
    }
  }

  /**
   * A fault comes from the first unclean file: every file before it is
   * clean, it is a known file, and the fault is a kept line of it that throws,
   * with that line's message.
   */
  lemma {:induction false} FilesFaultIsFirstUnclean(parse: Parser, files: seq<JsonFile>, db: Db)
    ensures var run := IngestFiles(parse, files, db);
      run.fault.Some? ==>
        exists i :: 0 <= i < |files| && AllClean(parse, files[..i])
          && KindOfPath(files[i].path).Some?
          && run.fault.value.line in Kept(files[i].lines)
          && parse(KindOfPath(files[i].path).value, run.fault.value.line) == Malformed(run.fault.value.message)
  {
    if files != [] {
      var init, file := files[..|files| - 1], files[|files| - 1];
      var prev := IngestFiles(parse, init, db);
      var run := IngestFiles(parse, files, db);
      if prev.fault.Some? {
        FilesFaultIsFirstUnclean(parse, init, db);
        var i :| 0 <= i < |init| && AllClean(parse, init[..i])
          && KindOfPath(init[i].path).Some?
          && prev.fault.value.line in Kept(init[i].lines)
          && parse(KindOfPath(init[i].path).value, prev.fault.value.line) == Malformed(prev.fault.value.message);
        assert init[..i] == files[..i] && init[i] == files[i];
      } else if run.fault.Some? {
        LastFileFault(parse, files, db);
      }
    }
  }

  /** The last file faults after a clean prefix: it is known, and the fault is one of its kept lines. */
  lemma LastFileFault(parse: Parser, files: seq<JsonFile>, db: Db)
    requires files != [] && IngestFiles(parse, files[..|files| - 1], db).fault.None?
    requires IngestFiles(parse, files, db).fault.Some?
    ensures var run, file := IngestFiles(parse, files, db), files[|files| - 1];
      && AllClean(parse, files[..|files| - 1])
      && KindOfPath(file.path).Some?
      && run.fault.value.line in Kept(file.lines)
      && parse(KindOfPath(file.path).value, run.fault.value.line) == Malformed(run.fault.value.message)
  {
    var init, file := files[..|files| - 1], files[|files| - 1];
    var prev, run := IngestFiles(parse, init, db), IngestFiles(parse, files, db);
    var kind := KindOfPath(file.path).value;
    FilesCleanIff(parse, init, db);
    IngestFileSequential(parse, kind, file.lines, prev.db);
    DoneIffClean(parse, kind, Kept(file.lines), 1);
    FaultIsFirstMalformed(parse, kind, Kept(file.lines), 1);
  }

  /** Files with unknown names change nothing: the loop runs as over the known ones alone. */
  lemma {:induction false} UnknownFilesIgnored(parse: Parser, files: seq<JsonFile>, db: Db)
    ensures IngestFiles(parse, files, db) == IngestFiles(parse, KnownFiles(files), db)
  {
    if files != [] {
      var init, file := files[..|files| - 1], files[|files| - 1];
      UnknownFilesIgnored(parse, init, db);
      if KindOfPath(file.path).Some? {
        var known := KnownFiles(init) + [file];
        assert KnownFiles(files) == known;
        assert known[..|known| - 1] == KnownFiles(init);
        assert IngestFiles(parse, known, db) == IngestFiles(parse, files, db);
      } else {
        assert KnownFiles(files) == KnownFiles(init);
        assert IngestFiles(parse, files, db) == IngestFiles(parse, init, db);
      }
    }
  }

  /** The file loop, like each file, never touches the manifest table and commits only by saving all. */
  lemma {:induction false} IngestFilesCommits(parse: Parser, files: seq<JsonFile>, db: Db)
    ensures var out := IngestFiles(parse, files, db);
      && out.db.tracked.archiveInfo == db.tracked.archiveInfo
      && out.db.saves >= db.saves
      && (out.db.saves == db.saves ==> out.db.committed == db.committed)
      && (out.db.saves > db.saves ==> out.db.committed.archiveInfo == db.tracked.archiveInfo)
  {
    if files != [] {
      var init, file := files[..|files| - 1], files[|files| - 1];
      IngestFilesCommits(parse, init, db);
      var prev := IngestFiles(parse, init, db);
      if prev.fault.None? && KindOfPath(file.path).Some? {
        IngestChunksCommits(parse, KindOfPath(file.path).value, Rounds(file.lines), FileRun(prev.db, 1, None));
      }
    }
  }

  /**
   * The bundle is on disk exactly when it was saved after a 2xx response,
   * or after a 302 whose one follow-up request got a 2xx response.
   */
  lemma DownloadSucceedsIff(env: Environment)
    ensures DownloadStage(env).None? <==>
      && env.saveZip.Completed?
      && env.bundle.Response?
      && (|| IsSuccessStatusCode(env.bundle.status)
          || (env.bundle.status.code == REDIRECT && env.redirect.Response? && IsSuccessStatusCode(env.redirect.status)))
  {
  }

  /** The follow-up request matters only after a 302. */
  lemma RedirectOnlyOn302(env: Environment, db: Db, follow: Http)
    requires !(env.bundle.Response? && env.bundle.status.code == REDIRECT)
    ensures RunSpec(env.(redirect := follow), db) == RunSpec(env, db)
  {
    if ManifestStage(env).Proceed? {
      var url := ManifestStage(env).value.url;
      assert PrepareStage(env.(redirect := follow), url) == PrepareStage(env, url);
    }
  }

  /**
   * A manifest url that is not a valid URI ends the run with that exception
   * once the manifest row is tracked, before any bundle request is sent: the
   * row is not committed, and the bundle's responses play no part.
   */
  lemma InvalidUrlRaises(env: Environment, db: Db, bundle: Http, redirect: Http)
    requires ManifestStage(env).Proceed? && env.uri(ManifestStage(env).value.url).Some?
    ensures RunSpec(env, db) == RunEnd(Raised(env.uri(ManifestStage(env).value.url).value),
                                       db.(tracked := AddInfo(db.tracked, ManifestStage(env).value)))
    ensures RunSpec(env.(bundle := bundle, redirect := redirect), db) == RunSpec(env, db)
  {
  }

  /**
   * A run succeeds exactly when the manifest is stored, the bundle is
   * downloaded, extracted and listed, every known file is clean, and the
   * cleanup ends without an exception other than an I/O error.
   */
  lemma RunSucceedsIff(env: Environment, db: Db)
    ensures RunSpec(env, db).outcome == Returned(SUCCESS) <==>
      && ManifestStage(env).Proceed?
      && PrepareStage(env, ManifestStage(env).value.url).Proceed?
      && AllClean(env.parse, PrepareStage(env, ManifestStage(env).value.url).value)
      && !env.cleanup.OtherFailure?
  {
    if ManifestStage(env).Proceed? {
      var info := ManifestStage(env).value;
      if PrepareStage(env, info.url).Proceed? {
        FilesCleanIff(env.parse, PrepareStage(env, info.url).value, db.(tracked := AddInfo(db.tracked, info)));
      }
    }
  }

  /**
   * The manifest stage stops the run exactly on a request exception, or on a
   * body that was read and either came with a non-2xx status or does not
   * deserialize to a manifest; the run then returns a failure. A response
   * whose body cannot be read raises instead. Either way the store is
   * untouched.
   */
  lemma ManifestStopsIff(env: Environment, db: Db)
    ensures ManifestStage(env).Stop? <==>
      || env.manifest.Threw?
      || (env.manifestRead.Completed? && (!IsSuccessStatusCode(env.manifest.status) || !env.manifestJson.Manifest?))
    ensures ManifestStage(env).Raise? <==> env.manifest.Response? && env.manifestRead.Failed?
    ensures ManifestStage(env).Stop? ==>
      RunSpec(env, db).outcome == Returned(Failure(ManifestStage(env).message)) && RunSpec(env, db).db == db
    ensures ManifestStage(env).Raise? ==>
      RunSpec(env, db).outcome == Raised(env.manifestRead.message) && RunSpec(env, db).db == db
  {
  }

  /**
   * Fail-fast across files: once the file loop faults, the run raises that
   * file's exception with the store the loop left, and the cleanup block is
   * never reached, so its outcome plays no part.
   */
  lemma FileFaultRaises(env: Environment, db: Db, c: Cleanup)
    requires ManifestStage(env).Proceed?
    requires PrepareStage(env, ManifestStage(env).value.url).Proceed?
    ensures var info := ManifestStage(env).value;
      var loop := IngestFiles(env.parse, PrepareStage(env, info.url).value, db.(tracked := AddInfo(db.tracked, info)));
      loop.fault.Some? ==>
        && RunSpec(env, db) == RunEnd(Raised(loop.fault.value.message), loop.db)
        && RunSpec(env.(cleanup := c), db) == RunSpec(env, db)
  {
    var env2 := env.(cleanup := c);
    assert ManifestStage(env2) == ManifestStage(env);
    assert PrepareStage(env2, ManifestStage(env).value.url) == PrepareStage(env, ManifestStage(env).value.url);
  }

  /**
   * A run ends in an exception exactly when the manifest body cannot be
   * read, or the manifest's url is not a valid URI, or every stage before the
   * file loop proceeded and then some known file is unclean or the cleanup
   * throws something other than an I/O error.
   */
  lemma RunRaisesIff(env: Environment, db: Db)
    ensures RunSpec(env, db).outcome.Raised? <==>
      || ManifestStage(env).Raise?
      || (&& ManifestStage(env).Proceed?
          && (|| PrepareStage(env, ManifestStage(env).value.url).Raise?
              || (&& PrepareStage(env, ManifestStage(env).value.url).Proceed?
                  && (|| !AllClean(env.parse, PrepareStage(env, ManifestStage(env).value.url).value)
                      || env.cleanup.OtherFailure?))))
  {
    if ManifestStage(env).Proceed? {
      var info := ManifestStage(env).value;
      if PrepareStage(env, info.url).Proceed? {
        FilesCleanIff(env.parse, PrepareStage(env, info.url).value, db.(tracked := AddInfo(db.tracked, info)));
      }
    }
  }

  /**
   * A returned Result never carries a database path; a successful one has
   * no message, a failed one an "Error: " message.
   */
  lemma ReturnedResults(env: Environment, db: Db)
    ensures var outcome := RunSpec(env, db).outcome;
      outcome.Returned? ==>
        && outcome.result.databasePath.None?
        && (outcome.result.isSuccess <==> outcome.result.exceptionMessage.None?)
        && (!outcome.result.isSuccess ==> "Error: " <= outcome.result.exceptionMessage.value)
  {
  }

  /**
   * Starting from a context with nothing pending, the manifest row is
   * committed only by a chunk's save: a run that saves nothing commits
   * nothing (the tracked row is lost), and a run that saves commits exactly
   * the manifest row it fetched to the manifest table.
   */
  lemma ManifestRowCommit(env: Environment, db: Db)
    requires db.tracked == db.committed
    ensures var end := RunSpec(env, db);
      && (end.db.saves == db.saves ==> end.db.committed == db.committed)
      && (end.db.saves > db.saves ==>
            && ManifestStage(env).Proceed?
            && end.db.committed.archiveInfo == db.committed.archiveInfo + [ManifestStage(env).value])
  {
    if ManifestStage(env).Proceed? {
      var info := ManifestStage(env).value;
      if PrepareStage(env, info.url).Proceed? {
        IngestFilesCommits(env.parse, PrepareStage(env, info.url).value, db.(tracked := AddInfo(db.tracked, info)));
      }
    }
  }

  /**
   * The bundle download of CreateArchiveDatabase: returns the failure
   * message exactly as DownloadStage says.
   */
  method FetchBundle(env: Environment) returns (error: Option<string>)
    ensures error == DownloadStage(env)
  {
    match env.bundle {
      case Threw(m) =>
        return Some(Error(DOWNLOAD + m));
      case Response(status, body) =>
        if !IsSuccessStatusCode(status) {
          if status.code == REDIRECT {
            match env.redirect {
              case Threw(m) =>
                return Some(Error(DOWNLOAD + m));
              case Response(followStatus, followBody) =>
                if !IsSuccessStatusCode(followStatus) {
                  return Some(Rejected(env, followStatus, followBody));
                }
            }
          } else {
            return Some(Rejected(env, status, body));
          }
        }
    }
    if env.saveZip.Failed? {
      return Some(Error(DOWNLOAD + env.saveZip.message));
    }
    return None;
  }

  /** The file loop over the first `i + 1` files, in terms of the loop over the first `i`. */
  lemma IngestFilesSnoc(parse: Parser, files: seq<JsonFile>, db: Db, i: nat)
    requires i < |files|
    ensures var prev := IngestFiles(parse, files[..i], db);
      IngestFiles(parse, files[..i + 1], db) ==
        if prev.fault.Some? || KindOfPath(files[i].path).None? then prev
        else FilesRun(IngestFile(parse, KindOfPath(files[i].path).value, files[i].lines, prev.db).db,
                      IngestFile(parse, KindOfPath(files[i].path).value, files[i].lines, prev.db).fault)
  {
    assert files[..i + 1][..i] == files[..i];
  }

  /** The `foreach` over data files: the store and the fault are as IngestFiles says. */
  method IngestListedFiles(store: ArchiveDbContext, parse: Parser, files: seq<JsonFile>) returns (fault: Option<Fault>)
    requires store.Valid()
    modifies store
    ensures store.Valid()
    ensures IngestFiles(parse, files, old(store.State())) == FilesRun(store.State(), fault)
  {
    ghost var start := store.State();
    var i := 0;
    while i < |files|
      invariant i <= |files|
      invariant store.Valid()
      invariant IngestFiles(parse, files[..i], start) == FilesRun(store.State(), None)
    {
      IngestFilesSnoc(parse, files, start, i);
      var kind := KindOfPath(files[i].path);
      if kind.Some? {
        fault := DeserializeOfficialFile(store, parse, kind.value, files[i].lines);
        if fault.Some? {
          FilesFaultIsFinal(parse, files, start, i + 1);
          return;
        }
      }
      i := i + 1;
    }
    assert files[..i] == files;
    fault := None;
  }

  /**
   * CreateArchiveDatabase: returns, raises, and leaves the store exactly as
   * RunSpec says.
   */
  method CreateArchiveDatabase(store: ArchiveDbContext, env: Environment) returns (outcome: Outcome)
    requires store.Valid()
    modifies store
    ensures store.Valid()
    ensures RunEnd(outcome, store.State()) == RunSpec(env, old(store.State()))
  {
    if env.manifest.Threw? {
      return Returned(Failure(Error(MANIFEST_DOWNLOAD + env.manifest.message)));
    }
    if env.manifestRead.Failed? {
      return Raised(env.manifestRead.message);
    }
    if !IsSuccessStatusCode(env.manifest.status) {
      return Returned(Failure(StatusError(env.manifest.status, env.manifest.body)));
    }
    var info: ArchiveDatabaseInfo;
    match env.manifestJson {
      case ManifestMalformed(m) =>
        return Returned(Failure(Error(MANIFEST_STORE + m)));
      case ManifestNull =>
        return Returned(Failure(Error(MANIFEST_STORE + NULL_ENTITY)));
      case Manifest(i) =>
        info := i;
    }
    store.AddArchiveInfo(info);

    var uriError := env.uri(info.url);
    if uriError.Some? {
      return Raised(uriError.value);
    }

    var downloadError := FetchBundle(env);
    if downloadError.Some? {
      return Returned(Failure(downloadError.value));
    }
    if env.extract.Failed? {
      return Returned(Failure(Error(EXTRACT + env.extract.message)));
    }
    if env.listing.ListingFailed? {
      return Returned(Failure(Error(LISTING + env.listing.message)));
    }

    var fault := IngestListedFiles(store, env.parse, env.listing.files);
    if fault.Some? {
      return Raised(fault.value.message);
    }
    if env.cleanup.OtherFailure? {
      return Raised(env.cleanup.message);
    }
    return Returned(SUCCESS);
  }
}
