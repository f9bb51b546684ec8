/**
 * The commands of bin/cli.js that tie the pieces to the filesystem: `update`
 * (the version gate, then the local synchroniser), and `session list`,
 * `session status` and `session close`, which find the orchestrator
 * directory, read one record or all of them, and, for `close`, delete or
 * rewrite the record at the end.
 */
module Commands {
  import opened Common
  import opened Fs
  import Semver
  import Sync
  import SyncRun
  import Install
  import Sessions

  // ---------------------------------------------------------------- update

  /** The closing line `update` prints (bin/cli.js:811-819). */
  datatype UpdateReport = AlreadyUpToDate | GlobalsAndLocal | GlobalsOnly

  /** Whether the local synchroniser runs: the globals were updated, or `--force` was given (bin/cli.js:810). */
  function RunsLocal(fs: FileMap, home: Path, version: string, force: bool): bool {
    Semver.NeedsUpdate(force, Install.ReadVersion(fs, home), version) || force
  }

  /** The orchestrator directory `updateLocal` works on, when it runs and finds one. */
  function LocalTarget(fs: FileMap, pkg: FileMap, home: Path, cwd: Path, version: string, force: bool): Option<Path> {
    if RunsLocal(fs, home, version, force)
    then Sync.FindOrchDir(Install.AfterInstall(fs, pkg, home, version, force), cwd)
    else None
  }

  /** What `update` leaves: the globals installed when the gate passes, then the local sync when it runs and finds a target. */
  function AfterUpdate(fs: FileMap, pkg: FileMap, home: Path, cwd: Path, version: string, force: bool): FileMap {
    var g := Install.AfterInstall(fs, pkg, home, version, force);
    match LocalTarget(fs, pkg, home, cwd, version, force)
    case None => g
    case Some(o) => Sync.Synced(g, pkg, o, version)
  }

  /** The closing line, from whether the globals were updated, `--force` and whether a local target was found. */
  function Report(updated: bool, force: bool, localUpdated: bool): (r: UpdateReport)
    ensures r == AlreadyUpToDate <==> !updated && !force
    ensures r == GlobalsAndLocal <==> (updated || force) && localUpdated
    ensures r == GlobalsOnly <==> (updated || force) && !localUpdated
  {
    if !updated && !force then AlreadyUpToDate
    else if localUpdated then GlobalsAndLocal
    else GlobalsOnly
  }

  /** The `update [--force]` command (bin/cli.js:806-821). */
  method Update(fsys: FileSystem, pkg: FileMap, home: Path, cwd: Path, version: string, force: bool)
    returns (report: UpdateReport)
    requires fsys.Valid() && TreeShaped(pkg)
    requires Semver.NeedsUpdate(force, Install.ReadVersion(fsys.entries, home), version) ==>
               Install.InstallSafe(fsys.entries, pkg, home)
    requires LocalTarget(fsys.entries, pkg, home, cwd, version, force).Some? ==>
               SyncRun.UpdateSafe(Install.AfterInstall(fsys.entries, pkg, home, version, force), pkg,
                                  LocalTarget(fsys.entries, pkg, home, cwd, version, force).value)
    modifies fsys
    ensures fsys.Valid()
    ensures fsys.entries == AfterUpdate(old(fsys.entries), pkg, home, cwd, version, force)
    ensures report == Report(Semver.NeedsUpdate(force, Install.ReadVersion(old(fsys.entries), home), version), force,
                             LocalTarget(old(fsys.entries), pkg, home, cwd, version, force).Some?)
  {
    var updated := Install.InstallGlobals(fsys, pkg, home, version, force);
    var localUpdated := false;
    if updated || force {
      localUpdated := SyncRun.UpdateLocal(fsys, pkg, cwd, version);
    }
    report := Report(updated, force, localUpdated);
  }

  /** Without `--force`, an up-to-date installation is left exactly as it was. */
  lemma UpToDateUnchanged(fs: FileMap, pkg: FileMap, home: Path, cwd: Path, version: string)
    requires !Semver.NeedsUpdate(false, Install.ReadVersion(fs, home), version)
    ensures AfterUpdate(fs, pkg, home, cwd, version, false) == fs
  {
  }

  /** The local synchroniser runs exactly when the version gate passes; `--force` passes it. */
  lemma LocalRunsIffGate(fs: FileMap, home: Path, version: string, force: bool)
    ensures RunsLocal(fs, home, version, force) == Semver.NeedsUpdate(force, Install.ReadVersion(fs, home), version)
    ensures force ==> RunsLocal(fs, home, version, force)
  {
    Semver.UpdateGate(force, Install.ReadVersion(fs, home), version);
  }

  /** The local sync never touches the global version marker. */
  lemma MarkerNotSynced(fs: FileMap, pkg: FileMap, o: Path, home: Path, version: string)
    requires Install.VersionFile(home) in fs
    ensures Install.ReadVersion(Sync.Synced(fs, pkg, o, version), home) == Install.ReadVersion(fs, home)
  {
    Sync.SyncedAgrees(fs, pkg, o, version);
    MarkerKeptAt(Sync.Synced(fs, pkg, o, version), fs, pkg, o, home, version);
  }

  lemma MarkerKeptAt(g: FileMap, fs: FileMap, pkg: FileMap, o: Path, home: Path, version: string)
    requires Sync.Agrees(g, fs, pkg, o, version)
    requires Install.VersionFile(home) in fs
    ensures Install.ReadVersion(g, home) == Install.ReadVersion(fs, home)
  {
    var p := Install.VersionFile(home);
    assert Sync.Classify(fs, pkg, o, p) == Sync.Preserved by {
      MarkerClassify(fs, pkg, o, home);
    }
    Sync.PreservedAt(g, fs, pkg, o, version, p);
  }

  /** The version marker, a file that exists, is never a path the synchroniser manages. */
  lemma MarkerClassify(fs: FileMap, pkg: FileMap, o: Path, home: Path)
    requires Install.VersionFile(home) in fs
    ensures Sync.Classify(fs, pkg, o, Install.VersionFile(home)) == Sync.Preserved
  {
    var p := Install.VersionFile(home);
    var n := ".orchestrator-version";
    assert p[|p| - 1] == n;
    assert !Strings.EndsWith(n, ".sh") && !Strings.EndsWith(n, ".md");
    assert n !in Sync.ObsoleteNames();
  }

  /** An unforced `update` when the marker already holds the package version changes nothing. */
  lemma UnforcedAtVersion(g: FileMap, pkg: FileMap, home: Path, cwd: Path, version: string)
    requires version != "" && Install.ReadVersion(g, home) == Some(version)
    ensures AfterUpdate(g, pkg, home, cwd, version, false) == g
  {
    Semver.NeedsUpdateSameVersion(version);
  }

  /** After an update that ran, the marker reads back as the package version. */
  lemma MarkerAfterUpdate(fs: FileMap, pkg: FileMap, home: Path, cwd: Path, version: string, force: bool)
    requires Strings.IsTrimmed(version)
    requires Semver.NeedsUpdate(force, Install.ReadVersion(fs, home), version)
    ensures Install.ReadVersion(AfterUpdate(fs, pkg, home, cwd, version, force), home) == Some(version)
  {
    var g1 := Install.AfterInstall(fs, pkg, home, version, force);
    assert g1 == Install.Installed(fs, pkg, home, version);
    Install.InstalledMarker(fs, pkg, home, version);
    match LocalTarget(fs, pkg, home, cwd, version, force)
    case None =>
    case Some(o) =>
      MarkerNotSynced(g1, pkg, o, home, version);
  }

  /**
   * Running `update` without `--force` right after an update that ran changes
   * nothing: the version marker now matches the package.
   */
  lemma SecondUpdateUnchanged(fs: FileMap, pkg: FileMap, home: Path, cwd: Path, version: string, force: bool)
    requires Strings.IsTrimmed(version) && version != ""
    requires Semver.NeedsUpdate(force, Install.ReadVersion(fs, home), version)
    ensures var g := AfterUpdate(fs, pkg, home, cwd, version, force);
            AfterUpdate(g, pkg, home, cwd, version, false) == g
  {
    MarkerAfterUpdate(fs, pkg, home, cwd, version, force);
    UnforcedAtVersion(AfterUpdate(fs, pkg, home, cwd, version, force), pkg, home, cwd, version);
  }

  // ---------------------------------------------------------------- sessions on disk

  function SessionsPath(o: Path): Path { o + [".sessions"] }

  /** `.sessions/<name>.json`. */
  function SessionFile(o: Path, name: string): Path { o + [".sessions", name + ".json"] }

  /**
   * `session list`: `readSessions` over the listing of `.sessions/`, `order`
   * being its names in directory order. (A `.sessions` that is a file makes
   * `readdirSync` throw.)
   */
  function ListSessions(fs: FileMap, o: Path, order: seq<string>, parse: string -> Option<Sessions.Session>): (r: seq<Sessions.Session>)
    requires forall n :: n in order <==> SessionsPath(o) + [n] in fs
    requires SessionsPath(o) in fs ==> IsDir(fs, SessionsPath(o))
    ensures SessionsPath(o) !in fs ==> r == []
    ensures |r| <= |order|
  {
    if SessionsPath(o) !in fs then []
    else
      var entries := seq(|order|, i requires 0 <= i < |order| =>
                       Sessions.DirEntry(order[i], ReadText(fs, SessionsPath(o) + [order[i]])));
      Sessions.ReadSessions(Some(entries), parse)
  }

  /** How a command that names one record ends before or instead of acting on it. */
  datatype Lookup =
    | NoOrchestrator            // neither `cwd` nor `cwd/orchestrator` holds `workspace.md`: exit 1
    | MissingName               // no session name given: exit 1
    | NotFound                  // no record file of that name: exit 1
    | Corrupt                   // the record cannot be read or parsed: `JSON.parse` throws
    | Found(session: Sessions.Session)

  /** Finding and reading the record a `session status`/`session close` names (bin/cli.js:883-887, 911-922, 952-962). */
  function LookUp(fs: FileMap, cwd: Path, name: string, parse: string -> Option<Sessions.Session>): (r: Lookup)
    ensures r.Found? ==> Sync.FindOrchDir(fs, cwd).Some? && name != "" &&
                          SessionFile(Sync.FindOrchDir(fs, cwd).value, name) in fs
    ensures r == NoOrchestrator <==> Sync.FindOrchDir(fs, cwd).None?
    ensures r == NotFound <==>
              Sync.FindOrchDir(fs, cwd).Some? && name != "" && SessionFile(Sync.FindOrchDir(fs, cwd).value, name) !in fs
    ensures r == MissingName <==> Sync.FindOrchDir(fs, cwd).Some? && name == ""
    ensures r == Corrupt <==>
              Sync.FindOrchDir(fs, cwd).Some? && name != "" && SessionFile(Sync.FindOrchDir(fs, cwd).value, name) in fs &&
              (ReadText(fs, SessionFile(Sync.FindOrchDir(fs, cwd).value, name)).None? ||
               parse(ReadText(fs, SessionFile(Sync.FindOrchDir(fs, cwd).value, name)).value).None?)
    ensures r.Found? ==>
              ReadText(fs, SessionFile(Sync.FindOrchDir(fs, cwd).value, name)).Some? &&
              parse(ReadText(fs, SessionFile(Sync.FindOrchDir(fs, cwd).value, name)).value) == Some(r.session)
  {
    match Sync.FindOrchDir(fs, cwd)
    case None => NoOrchestrator
    case Some(o) =>
      if name == "" then MissingName
      else if SessionFile(o, name) !in fs then NotFound
      else match ReadText(fs, SessionFile(o, name))
        case None => Corrupt
        case Some(text) => match parse(text)
          case None => Corrupt
          case Some(s) => Found(s)
  }

  /** `session status <name>`: the lookup, then one report per binding. */
  function SessionStatus(fs: FileMap, cwd: Path, name: string, parse: string -> Option<Sessions.Session>,
                         hasGit: string -> bool, gitLog: string -> Option<string>): (r: Option<seq<Sessions.RepoStatus>>)
    ensures r.Some? <==> LookUp(fs, cwd, name, parse).Found?
    ensures r.Some? ==> |r.value| == |LookUp(fs, cwd, name, parse).session.repos|
    ensures r.Some? ==> r.value == Sessions.StatusReport(LookUp(fs, cwd, name, parse).session, hasGit, gitLog)
  {
    match LookUp(fs, cwd, name, parse)
    case Found(s) => Some(Sessions.StatusReport(s, hasGit, gitLog))
    case _ => None
  }

  /** What `session close` did. */
  datatype CloseOutcome = NotClosed(why: Lookup) | Closed(run: Sessions.CloseRun)

  /** What the record file holds after the close: gone, rewritten, or as it was. */
  function Disposed(fs: FileMap, file: Path, d: Sessions.Disposition, serialize: Sessions.Session -> string): FileMap {
    match d
    case RecordDeleted => fs - {file}
    case MarkedClosed(rec) => Write(fs, file, Text(serialize(rec)))
    case Interrupted => fs
  }

  /**
   * `session close <name>` (bin/cli.js:951-1040): the lookup, the three
   * phases, then the record deleted or rewritten by `serialize`
   * (`JSON.stringify(session, null, 2) + "\n"`). Nothing else on disk changes.
   */
  method SessionClose(fsys: FileSystem, cwd: Path, name: string, parse: string -> Option<Sessions.Session>,
                      serialize: Sessions.Session -> string, answers: seq<string>, prOk: string -> bool,
                      deleteOk: string -> bool, unpushedLog: string -> string) returns (out: CloseOutcome)
    requires fsys.Valid()
    modifies fsys
    ensures fsys.Valid()
    ensures var l := LookUp(old(fsys.entries), cwd, name, parse);
            if !l.Found? then out == NotClosed(l) && fsys.entries == old(fsys.entries)
            else
              var run := Sessions.CloseSpec(l.session, answers, prOk, deleteOk, unpushedLog);
              var file := SessionFile(Sync.FindOrchDir(old(fsys.entries), cwd).value, name);
              out == Closed(run) && fsys.entries == Disposed(old(fsys.entries), file, run.disposition, serialize)
  {
    var l := LookUp(fsys.entries, cwd, name, parse);
    if !l.Found? {
      return NotClosed(l);
    }
    var o := Sync.FindOrchDir(fsys.entries, cwd).value;
    var file := SessionFile(o, name);
    var run := Sessions.CloseSession(l.session, answers, prOk, deleteOk, unpushedLog);
    if run.disposition.RecordDeleted? {
      fsys.Unlink(file);
    } else if run.disposition.MarkedClosed? {
      assert IsDir(fsys.entries, Parent(file)) by {
        AncestorsAreDirs(fsys.entries, file, |o| + 1);
        assert file[..|o| + 1] == SessionsPath(o) == Parent(file);
      }
      fsys.WriteFile(file, Text(serialize(run.disposition.record)));
    }
    return Closed(run);
  }

  /**
   * The close touches the record file and nothing else; it is gone exactly
   * when the last answer is `y`/`Y`, and otherwise holds the record with
   * status `closed` (unless the answers ran out).
   */
  lemma CloseTouchesOnlyRecord(fs: FileMap, file: Path, d: Sessions.Disposition, serialize: Sessions.Session -> string, q: Path)
    requires q != file
    ensures Get(Disposed(fs, file, d, serialize), q) == Get(fs, q)
    ensures d == Sessions.RecordDeleted ==> file !in Disposed(fs, file, d, serialize)
    ensures d.MarkedClosed? ==> ReadText(Disposed(fs, file, d, serialize), file) == Some(serialize(d.record))
  {
  }
}
