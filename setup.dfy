/**
 * First-time setup, `setupWorkspace` (bin/cli.js:508-679): the directory
 * skeleton of `orchestrator/`, the reference templates, the scaffold
 * documents written only when absent, the hooks and the hook registration,
 * the scan of sibling repositories and the service-profile summary.
 * `Setup` is the run phase by phase as a function of the filesystem;
 * `SetupWorkspace` runs it on the `FileSystem` object.
 */
module Setup {
  import opened Common
  import opened Strings
  import opened Fs
  import Hooks
  import Projects
  import Sync

  // ---------------------------------------------------------------- layout

  function OrchOf(ws: Path): Path { ws + ["orchestrator"] }
  function GitignorePath(o: Path): Path { o + [".gitignore"] }
  function ProfilesPath(o: Path): Path { o + ["plans", "service-profiles.md"] }
  function WorkspaceTemplate(o: Path): Path { o + ["templates", "workspace.template.md"] }
  function ConstitutionTemplate(o: Path): Path { o + ["templates", "constitution.template.md"] }

  /** The nine directories `mkdirp` creates, in source order (bin/cli.js:514-522). */
  function SkeletonDirs(o: Path): (r: seq<Path>)
    ensures |r| == 9
  {
    [Sync.HooksDir(o), Sync.PlansDir(o), Sync.TemplatesDir(o), Sync.SessionsDir(o)] + Sync.E2eLeaves(o)
  }

  /** The text the `WorkspaceStub(project)` content stands for: `workspace.md` when no template is at hand. */
  function WorkspaceStubText(project: string): string {
    "# Workspace: " + project + "\n\n## Projet\n[UNCONFIGURED]\n"
  }

  /** The text the `ConstitutionStub(project)` content stands for: the lines of `constitution.md` when no template is at hand, joined with line breaks. */
  function ConstitutionStubText(project: string): string {
    "# Constitution — " + project + "\n" + "\n"
    + "> Define your project's non-negotiable engineering principles here.\n"
    + "> The orchestrator and every teammate must follow these rules without exception.\n" + "\n"
    + "## Rules\n" + "\n"
    + "1. **[Rule name].** [Description — what, why, and when it applies]\n" + "\n"
    + "2. **[Rule name].** [Description]\n" + "\n"
    + "<!-- Add more rules as needed. Keep each rule actionable and verifiable. -->"
  }

  /** The text the `Gitignore` content stands for: the `.gitignore` lines, joined with line breaks; the last, empty, line leaves a final break. */
  const GitignoreText: string :=
    ".claude/bash-commands.log\n.claude/worktrees/\n.claude/modified-files.log\n"
    + ".sessions/\n"
    + "plans/*.md\n!plans/_TEMPLATE.md\n!plans/service-profiles.md\n"
    + "e2e/chrome/screenshots/\ne2e/chrome/gifs/\ne2e/reports/\n"
    + "e2e/docker-compose.e2e.yml\ne2e/e2e-config.md\n"

  /** The text a content tag of this run stands for; `None` for the tags rendered elsewhere. */
  function StubText(c: Content): (r: Option<string>)
    ensures r.Some? <==> c.WorkspaceStub? || c.ConstitutionStub? || c.Gitignore?
  {
    match c
    case WorkspaceStub(project) => Some(WorkspaceStubText(project))
    case ConstitutionStub(project) => Some(ConstitutionStubText(project))
    case Gitignore => Some(GitignoreText)
    case _ => None
  }

  // ---------------------------------------------------------------- the phases as functions

  /** No ancestor of (or equal to) one of `dirs` is a file, so `mkdirp` of each succeeds. */
  predicate NoFileAbove(f: FileMap, dirs: seq<Path>) {
    forall k, i :: 0 <= k < |dirs| && 0 <= i <= |dirs[k]| ==> !IsFile(f, dirs[k][..i])
  }

  /** `q` is an ancestor of (or equal to) one of `dirs`. */
  predicate UnderAny(q: Path, dirs: seq<Path>) {
    exists k :: 0 <= k < |dirs| && IsPrefix(q, dirs[k])
  }

  lemma UnderAnySnoc(q: Path, dirs: seq<Path>)
    requires dirs != []
    ensures UnderAny(q, dirs) <==> UnderAny(q, dirs[..|dirs| - 1]) || IsPrefix(q, dirs[|dirs| - 1])
  {
    var init := dirs[..|dirs| - 1];
    if UnderAny(q, dirs) {
      var k :| 0 <= k < |dirs| && IsPrefix(q, dirs[k]);
      if k < |dirs| - 1 {
        assert init[k] == dirs[k];
      }
    }
    if UnderAny(q, init) {
      var k :| 0 <= k < |init| && IsPrefix(q, init[k]);
      assert dirs[k] == init[k];
    }
  }

  /** `mkdirp` of each path of `dirs`, in order. */
  function MkdirAllSeq(fs: FileMap, dirs: seq<Path>): (r: FileMap)
    ensures forall q :: Get(r, q) ==
              if q in fs then Some(fs[q])
              else if UnderAny(q, dirs) then Some(Dir)
              else None
    decreases |dirs|
  {
    if dirs == [] then fs
    else
      var r := MkdirAll(MkdirAllSeq(fs, dirs[..|dirs| - 1]), dirs[|dirs| - 1]);
      assert forall q :: UnderAny(q, dirs) <==> UnderAny(q, dirs[..|dirs| - 1]) || IsPrefix(q, dirs[|dirs| - 1]) by {
        forall q ensures UnderAny(q, dirs) <==> UnderAny(q, dirs[..|dirs| - 1]) || IsPrefix(q, dirs[|dirs| - 1]) {
          UnderAnySnoc(q, dirs);
        }
      }
      r
  }

  /** The package's `.md` templates copied into `templates/` when the package has them (bin/cli.js:526-532). */
  function CopyTemplates(fs: FileMap, pkg: FileMap, o: Path): FileMap
  {
    if Sync.PkgTemplates in pkg
    then CopyNames(fs, pkg, Sync.PkgTemplates, Sync.TemplatesDir(o), Sync.TemplateNames(pkg), None)
    else fs
  }

  /**
   * A scaffold document (bin/cli.js:534-562): left alone when present; else
   * copied from its local template when that exists; else written from `stub`.
   * (A template that is a directory makes the copy throw; `SetupSafe` rules it out.)
   */
  function ScaffoldDoc(fs: FileMap, doc: Path, tpl: Path, stub: Content): (r: FileMap)
    ensures forall q :: q != doc ==> Get(r, q) == Get(fs, q)
    ensures doc in fs ==> r == fs
    ensures doc !in fs ==> Get(r, doc) == Some(if IsFile(fs, tpl) then fs[tpl] else File(stub, DefaultMode))
  {
    if doc in fs then fs
    else if IsFile(fs, tpl) then CopyEntry(fs, doc, fs[tpl])
    else Write(fs, doc, stub)
  }

  /** The package's `.sh` hooks copied into `.claude/hooks/` with mode 0755 (bin/cli.js:565-577). */
  function CopyHooks(fs: FileMap, pkg: FileMap, o: Path): FileMap
  {
    if Sync.PkgHooks in pkg
    then CopyNames(fs, pkg, Sync.PkgHooks, Sync.HooksDir(o), Sync.HookNames(pkg), Some(ExecMode))
    else fs
  }

  /** A generated document written only when absent (bin/cli.js:583-610). */
  function WriteIfMissing(fs: FileMap, p: Path, c: Content): (r: FileMap)
    ensures forall q :: q != p ==> Get(r, q) == Get(fs, q)
    ensures p in fs ==> r == fs
    ensures p !in fs ==> Get(r, p) == Some(File(c, DefaultMode))
  {
    if p in fs then fs else Write(fs, p, c)
  }

  // ---------------------------------------------------------------- the scan of sibling repositories

  /** A sibling the scan keeps: a directory other than `orchestrator/` holding `.git` (bin/cli.js:617-620). */
  predicate IsRepo(fs: FileMap, ws: Path, n: string) {
    n != "orchestrator" && IsDir(fs, ws + [n]) && ws + [n, ".git"] in fs
  }

  /** What the scan records of sibling `n`: its type and whether it has `CLAUDE.md` (bin/cli.js:621-623). */
  function RepoOf(fs: FileMap, ws: Path, n: string): Projects.RepoInfo {
    var d := ws + [n];
    Projects.RepoInfo(n, Projects.DetectProjectType(ChildNames(fs, d), ReadText(fs, d + ["package.json"])), d + ["CLAUDE.md"] in fs)
  }

  /** The repositories of a listing of the workspace, in listing order. */
  function ScanRepos(fs: FileMap, ws: Path, listing: seq<string>): seq<Projects.RepoInfo>
    decreases |listing|
  {
    if listing == [] then []
    else
      var n := listing[|listing| - 1];
      ScanRepos(fs, ws, listing[..|listing| - 1]) + (if IsRepo(fs, ws, n) then [RepoOf(fs, ws, n)] else [])
  }

  /** The names of the repositories without `CLAUDE.md`, in order. */
  function WithoutClaude(repos: seq<Projects.RepoInfo>): seq<string>
    decreases |repos|
  {
    if repos == [] then []
    else
      var r := repos[|repos| - 1];
      WithoutClaude(repos[..|repos| - 1]) + (if r.hasClaude then [] else [r.name])
  }

  /**
   * The scan loop (bin/cli.js:614-625): one pass over the listing, pushing
   * each repository onto `repos` and, when it lacks `CLAUDE.md`, its name
   * onto `without`.
   */
  method ScanSiblings(fs: FileMap, ws: Path, listing: seq<string>) returns (repos: seq<Projects.RepoInfo>, without: seq<string>)
    ensures repos == ScanRepos(fs, ws, listing)
    ensures without == WithoutClaude(repos)
  {
    repos, without := [], [];
    for i := 0 to |listing|
      invariant repos == ScanRepos(fs, ws, listing[..i])
      invariant without == WithoutClaude(repos)
    {
      var n := listing[i];
      assert listing[..i + 1][..i] == listing[..i];
      if !IsRepo(fs, ws, n) {
        continue;
      }
      var info := RepoOf(fs, ws, n);
      assert (repos + [info])[..|repos|] == repos;
      repos := repos + [info];
      if !info.hasClaude {
        without := without + [n];
      }
    }
    assert listing[..|listing|] == listing;
  }

  /** Every repository the scan records is a repository of the workspace, recorded as `RepoOf` says. */
  lemma {:induction false} ScanSound(fs: FileMap, ws: Path, listing: seq<string>, i: nat)
    requires i < |ScanRepos(fs, ws, listing)|
    ensures var r := ScanRepos(fs, ws, listing)[i]; IsRepo(fs, ws, r.name) && r == RepoOf(fs, ws, r.name)
    decreases |listing|
  {
    var init := listing[..|listing| - 1];
    if i < |ScanRepos(fs, ws, init)| {
      ScanSound(fs, ws, init, i);
    }
  }

  /** The scan records every repository the listing names (the order is kept: `ScanAppend`). */
  lemma {:induction false} ScanComplete(fs: FileMap, ws: Path, listing: seq<string>, n: string)
    requires n in listing && IsRepo(fs, ws, n)
    ensures exists i :: 0 <= i < |ScanRepos(fs, ws, listing)| && ScanRepos(fs, ws, listing)[i].name == n
    decreases |listing|
  {
    var init := listing[..|listing| - 1];
    var r0 := ScanRepos(fs, ws, init);
    var r := ScanRepos(fs, ws, listing);
    assert listing == init + [listing[|listing| - 1]];
    if n in init {
      ScanComplete(fs, ws, init, n);
      var i :| 0 <= i < |r0| && r0[i].name == n;
      assert r[i] == r0[i];
    } else {
      assert r[|r| - 1].name == n;
    }
  }

  /** `reposWithoutClaude` holds exactly the recorded repositories that lack `CLAUDE.md`. */
  lemma {:induction false} WithoutClaudeExactly(repos: seq<Projects.RepoInfo>)
    ensures |WithoutClaude(repos)| <= |repos|
    ensures forall n :: n in WithoutClaude(repos) <==> exists i :: 0 <= i < |repos| && repos[i].name == n && !repos[i].hasClaude
    decreases |repos|
  {
    if repos != [] {
      var init := repos[..|repos| - 1];
      WithoutClaudeExactly(init);
      forall n | exists i :: 0 <= i < |repos| && repos[i].name == n && !repos[i].hasClaude
        ensures n in WithoutClaude(repos)
      {
        var i :| 0 <= i < |repos| && repos[i].name == n && !repos[i].hasClaude;
        if i < |repos| - 1 {
          assert init[i] == repos[i];
        }
      }
      forall n | n in WithoutClaude(init)
        ensures exists i :: 0 <= i < |repos| && repos[i].name == n && !repos[i].hasClaude
      {
        var i :| 0 <= i < |init| && init[i].name == n && !init[i].hasClaude;
        assert repos[i] == init[i];
      }
    }
  }

  /**
   * `listing` is what `readdirSync(ws)` answers: each child of `ws` once. The
   * `orchestrator` entry is left free: the scan skips it, and the run creates it.
   */
  ghost predicate ListsWorkspace(fs: FileMap, ws: Path, listing: seq<string>) {
    (forall n :: n != "orchestrator" ==> (n in listing <==> ws + [n] in fs)) &&
    (forall i, j :: 0 <= i < j < |listing| ==> listing[i] != listing[j])
  }

  /** The scan's names come from the listing, and a listing without repeats gives each repository once. */
  lemma {:induction false} ScanDistinct(fs: FileMap, ws: Path, listing: seq<string>)
    requires forall i, j :: 0 <= i < j < |listing| ==> listing[i] != listing[j]
    ensures forall i :: 0 <= i < |ScanRepos(fs, ws, listing)| ==> ScanRepos(fs, ws, listing)[i].name in listing
    ensures forall i, j :: 0 <= i < j < |ScanRepos(fs, ws, listing)| ==>
              ScanRepos(fs, ws, listing)[i].name != ScanRepos(fs, ws, listing)[j].name
    decreases |listing|
  {
    if listing != [] {
      var init := listing[..|listing| - 1];
      var last := listing[|listing| - 1];
      assert listing == init + [last];
      ScanDistinct(fs, ws, init);
      assert forall k :: 0 <= k < |init| ==> init[k] == listing[k] && listing[k] != listing[|listing| - 1];
      assert last !in init;
      var r0 := ScanRepos(fs, ws, init);
      var r := ScanRepos(fs, ws, listing);
      forall i | 0 <= i < |r|
        ensures r[i].name in listing
      {
        if i < |r0| {
          assert r[i] == r0[i];
        }
      }
      forall i, j | 0 <= i < j < |r|
        ensures r[i].name != r[j].name
      {
        assert r[i] == r0[i];
        if j < |r0| {
          assert r[j] == r0[j];
        } else {
          assert r[j].name == last;
        }
      }
    }
  }

  /** Over the workspace's real listing the scan holds each repository of the workspace exactly once. */
  lemma ScanExactly(fs: FileMap, ws: Path, listing: seq<string>)
    requires ListsWorkspace(fs, ws, listing)
    ensures forall n :: IsRepo(fs, ws, n) <==>
              exists i :: 0 <= i < |ScanRepos(fs, ws, listing)| && ScanRepos(fs, ws, listing)[i].name == n
    ensures forall i, j :: 0 <= i < j < |ScanRepos(fs, ws, listing)| ==>
              ScanRepos(fs, ws, listing)[i].name != ScanRepos(fs, ws, listing)[j].name
  {
    ScanDistinct(fs, ws, listing);
    forall n | IsRepo(fs, ws, n)
      ensures exists i :: 0 <= i < |ScanRepos(fs, ws, listing)| && ScanRepos(fs, ws, listing)[i].name == n
    {
      ScanComplete(fs, ws, listing, n);
    }
    forall n | exists i :: 0 <= i < |ScanRepos(fs, ws, listing)| && ScanRepos(fs, ws, listing)[i].name == n
      ensures IsRepo(fs, ws, n)
    {
      var i :| 0 <= i < |ScanRepos(fs, ws, listing)| && ScanRepos(fs, ws, listing)[i].name == n;
      ScanSound(fs, ws, listing, i);
    }
  }

  /** The scan of a listing split in two is the scan of each part, in order. */
  lemma {:induction false} ScanAppend(fs: FileMap, ws: Path, a: seq<string>, b: seq<string>)
    ensures ScanRepos(fs, ws, a + b) == ScanRepos(fs, ws, a) + ScanRepos(fs, ws, b)
    decreases |b|
  {
    if b == [] {
      assert a + b == a;
    } else {
      var init := b[..|b| - 1];
      assert (a + b)[..|a + b| - 1] == a + init;
      assert (a + b)[|a + b| - 1] == b[|b| - 1];
      ScanAppend(fs, ws, a, init);
    }
  }

  /** One name of the listing: its repository when it is one, else nothing. */
  lemma ScanSingle(fs: FileMap, ws: Path, n: string)
    ensures ScanRepos(fs, ws, [n]) == if IsRepo(fs, ws, n) then [RepoOf(fs, ws, n)] else []
  {
    assert [n][..0] == [];
  }

  /** The names lacking `CLAUDE.md` of two runs of repositories are those of each run, in order. */
  lemma {:induction false} WithoutClaudeAppend(a: seq<Projects.RepoInfo>, b: seq<Projects.RepoInfo>)
    ensures WithoutClaude(a + b) == WithoutClaude(a) + WithoutClaude(b)
    decreases |b|
  {
    if b == [] {
      assert a + b == a;
    } else {
      var init := b[..|b| - 1];
      assert (a + b)[..|a + b| - 1] == a + init;
      assert (a + b)[|a + b| - 1] == b[|b| - 1];
      WithoutClaudeAppend(a, init);
    }
  }

  /** One repository: its name when it lacks `CLAUDE.md`, else nothing. */
  lemma WithoutClaudeSingle(r: Projects.RepoInfo)
    ensures WithoutClaude([r]) == if r.hasClaude then [] else [r.name]
  {
    assert [r][..0] == [];
  }

  // ---------------------------------------------------------------- the whole run

  /** The directory skeleton, then the package's templates (bin/cli.js:513-532). */
  function Templated(fs: FileMap, pkg: FileMap, o: Path): FileMap {
    CopyTemplates(MkdirAllSeq(fs, SkeletonDirs(o)), pkg, o)
  }

  /** `workspace.md`, then `constitution.md` (bin/cli.js:534-562). */
  function Scaffolded(fs: FileMap, o: Path, project: string): FileMap {
    var f3 := ScaffoldDoc(fs, Sync.WorkspaceDoc(o), WorkspaceTemplate(o), WorkspaceStub(project));
    ScaffoldDoc(f3, Sync.ConstitutionDoc(o), ConstitutionTemplate(o), ConstitutionStub(project))
  }

  /** Structure, templates, the two scaffold documents and the hooks (bin/cli.js:513-577). */
  function Structured(fs: FileMap, pkg: FileMap, o: Path, project: string): FileMap {
    CopyHooks(Scaffolded(Templated(fs, pkg, o), o, project), pkg, o)
  }

  /** `settings.json` always, then `CLAUDE.md`, the plan template and `.gitignore` when absent (bin/cli.js:579-611). */
  function Configured(fs: FileMap, o: Path, version: string): FileMap {
    var f6 := Write(fs, Sync.SettingsPath(o), SettingsDoc(Hooks.GenerateSettings()));
    var f7 := WriteIfMissing(f6, Sync.AgentContextPath(o), AgentContext(version));
    var f8 := WriteIfMissing(f7, Sync.PlanTemplatePath(o), PlanTemplate);
    WriteIfMissing(f8, GitignorePath(o), Gitignore)
  }

  /** The scan of the workspace, then `plans/service-profiles.md` written from it (bin/cli.js:613-649). */
  function Profiled(fs: FileMap, ws: Path, project: string, listing: seq<string>): FileMap {
    Write(fs, ProfilesPath(OrchOf(ws)), ServiceProfiles(project, ScanRepos(fs, ws, listing)))
  }

  /** Everything the run writes before the scan. */
  function Documented(fs: FileMap, pkg: FileMap, o: Path, project: string, version: string): FileMap {
    Configured(Structured(fs, pkg, o, project), o, version)
  }

  /**
   * `setupWorkspace(ws, project)`: every phase in source order, `listing`
   * being the names `readdirSync(ws)` returns, in its order.
   */
  function Setup(fs: FileMap, pkg: FileMap, ws: Path, project: string, version: string, listing: seq<string>): FileMap {
    Profiled(Documented(fs, pkg, OrchOf(ws), project, version), ws, project, listing)
  }

  // ---------------------------------------------------------------- what the run writes, and when no call throws

  /** The paths the run may write a file at. */
  predicate FileTarget(pkg: FileMap, o: Path, q: Path) {
    q == Sync.WorkspaceDoc(o) || q == Sync.ConstitutionDoc(o) || q == WorkspaceTemplate(o) || q == ConstitutionTemplate(o) ||
    q == Sync.SettingsPath(o) || q == Sync.AgentContextPath(o) || q == Sync.PlanTemplatePath(o) ||
    q == GitignorePath(o) || q == ProfilesPath(o) ||
    InDir(q, Sync.TemplatesDir(o), Sync.TemplateNames(pkg)) || InDir(q, Sync.HooksDir(o), Sync.HookNames(pkg))
  }

  /** From `f` to `g` only target paths changed, and each changed one now holds a file. */
  ghost predicate OnlyTargets(f: FileMap, g: FileMap, pkg: FileMap, o: Path) {
    forall q :: Get(g, q) == Get(f, q) || (FileTarget(pkg, o, q) && IsFile(g, q))
  }

  /** The package's `templates/` and `hooks/`, when present, are directories whose matching entries are files. */
  predicate PackageSafe(pkg: FileMap) {
    (Sync.PkgTemplates in pkg ==>
       IsDir(pkg, Sync.PkgTemplates) &&
       forall n :: n in ChildNames(pkg, Sync.PkgTemplates) && EndsWith(n, ".md") ==> IsFile(pkg, Sync.PkgTemplates + [n])) &&
    (Sync.PkgHooks in pkg ==>
       IsDir(pkg, Sync.PkgHooks) &&
       forall n :: n in ChildNames(pkg, Sync.PkgHooks) && EndsWith(n, ".sh") ==> IsFile(pkg, Sync.PkgHooks + [n]))
  }

  /**
   * The targets written whatever is there: `settings.json`, the service
   * profiles and the copies of the package's templates and hooks. The other
   * targets are written only when absent, so a directory there is skipped.
   */
  predicate Overwritten(pkg: FileMap, o: Path, q: Path) {
    q == Sync.SettingsPath(o) || q == ProfilesPath(o) ||
    InDir(q, Sync.TemplatesDir(o), Sync.TemplateNames(pkg)) || InDir(q, Sync.HooksDir(o), Sync.HookNames(pkg))
  }

  /** A scaffold document that is absent is copied from its local template only when that is no directory. */
  predicate TemplatesCopyable(fs: FileMap, o: Path) {
    (Sync.WorkspaceDoc(o) !in fs ==> !IsDir(fs, WorkspaceTemplate(o))) &&
    (Sync.ConstitutionDoc(o) !in fs ==> !IsDir(fs, ConstitutionTemplate(o)))
  }

  /**
   * `setupWorkspace` runs without an `fs` call throwing: no `mkdirp` meets a
   * file, no path written over is a directory, no scaffold document is copied
   * from a directory, and the package's sources are what the copies expect.
   */
  ghost predicate SetupSafe(fs: FileMap, pkg: FileMap, ws: Path) {
    var o := OrchOf(ws);
    NoFileAbove(fs, SkeletonDirs(o)) &&
    (forall q :: Overwritten(pkg, o, q) ==> !IsDir(fs, q)) &&
    TemplatesCopyable(fs, o) &&
    PackageSafe(pkg)
  }

  /**
   * After the structure step: the directories written into exist, no path
   * written over is a directory and the scaffold documents can be copied.
   */
  ghost predicate Ready(fs: FileMap, pkg: FileMap, o: Path) {
    IsDir(fs, o) && IsDir(fs, Sync.ClaudeDir(o)) &&
    (forall k :: 0 <= k < 9 ==> IsDir(fs, SkeletonDirs(o)[k])) &&
    (forall q :: Overwritten(pkg, o, q) ==> !IsDir(fs, q)) &&
    TemplatesCopyable(fs, o)
  }

  lemma OnlyTargetsTrans(f: FileMap, g: FileMap, h: FileMap, pkg: FileMap, o: Path)
    requires OnlyTargets(f, g, pkg, o) && OnlyTargets(g, h, pkg, o)
    ensures OnlyTargets(f, h, pkg, o)
  {
  }

  /** A step that writes only files at targets keeps `Ready`. */
  lemma ReadyKept(f: FileMap, g: FileMap, pkg: FileMap, o: Path)
    requires Ready(f, pkg, o) && OnlyTargets(f, g, pkg, o)
    ensures Ready(g, pkg, o)
  {
    SkeletonKept(f, g, pkg, o);
    CopyableKept(f, g, pkg, o);
    forall q | Overwritten(pkg, o, q)
      ensures !IsDir(g, q)
    {
      assert Get(g, q) == Get(f, q) || IsFile(g, q);
    }
  }

  /** A step that writes only files at targets leaves `o`, `.claude/` and the nine directories. */
  lemma SkeletonKept(f: FileMap, g: FileMap, pkg: FileMap, o: Path)
    requires OnlyTargets(f, g, pkg, o)
    ensures Get(g, o) == Get(f, o) && Get(g, Sync.ClaudeDir(o)) == Get(f, Sync.ClaudeDir(o))
    ensures forall k :: 0 <= k < 9 ==> Get(g, SkeletonDirs(o)[k]) == Get(f, SkeletonDirs(o)[k])
  {
    if FileTarget(pkg, o, o) {
      TargetBelow(pkg, o, o);
    }
    SkeletonNotTarget(pkg, o, 0, |o| + 1);
    assert SkeletonDirs(o)[0][..|o| + 1] == Sync.ClaudeDir(o);
    forall k | 0 <= k < 9
      ensures Get(g, SkeletonDirs(o)[k]) == Get(f, SkeletonDirs(o)[k])
    {
      SkeletonNotTarget(pkg, o, k, |SkeletonDirs(o)[k]|);
      assert SkeletonDirs(o)[k][..|SkeletonDirs(o)[k]|] == SkeletonDirs(o)[k];
    }
  }

  /** A step that writes only files at targets keeps the scaffold documents copyable. */
  lemma CopyableKept(f: FileMap, g: FileMap, pkg: FileMap, o: Path)
    requires TemplatesCopyable(f, o) && OnlyTargets(f, g, pkg, o)
    ensures TemplatesCopyable(g, o)
  {
    assert Get(g, Sync.WorkspaceDoc(o)) == Get(f, Sync.WorkspaceDoc(o)) || IsFile(g, Sync.WorkspaceDoc(o));
    assert Get(g, Sync.ConstitutionDoc(o)) == Get(f, Sync.ConstitutionDoc(o)) || IsFile(g, Sync.ConstitutionDoc(o));
    assert Get(g, WorkspaceTemplate(o)) == Get(f, WorkspaceTemplate(o)) || IsFile(g, WorkspaceTemplate(o));
    assert Get(g, ConstitutionTemplate(o)) == Get(f, ConstitutionTemplate(o)) || IsFile(g, ConstitutionTemplate(o));
  }

  /** No ancestor of a skeleton directory is a target. */
  lemma SkeletonNotTarget(pkg: FileMap, o: Path, k: nat, i: nat)
    requires k < 9 && i <= |SkeletonDirs(o)[k]|
    ensures !FileTarget(pkg, o, SkeletonDirs(o)[k][..i])
  {
    var q := SkeletonDirs(o)[k][..i];
    assert IsPrefix(q, SkeletonDirs(o)[k]);
    if FileTarget(pkg, o, q) {
      TargetsNotSkeleton(pkg, o, q);
      assert false;
    }
  }

  /** Every target lies strictly below `o`. */
  lemma TargetBelow(pkg: FileMap, o: Path, q: Path)
    requires FileTarget(pkg, o, q)
    ensures |q| > |o| && q[..|o|] == o
  {
    if InDir(q, Sync.TemplatesDir(o), Sync.TemplateNames(pkg)) {
      assert q[..|o|] == q[..|o| + 1][..|o|];
    } else if InDir(q, Sync.HooksDir(o), Sync.HookNames(pkg)) {
      assert q[..|o|] == q[..|o| + 2][..|o|];
    }
  }

  /** An ancestor of a skeleton directory longer than `o`: which names it can hold below `o`. */
  lemma SkeletonShape(o: Path, q: Path)
    requires UnderAny(q, SkeletonDirs(o)) && |q| > |o|
    ensures q[..|o|] == o
    ensures q[|o|] in {".claude", "plans", "templates", ".sessions", "e2e"}
    ensures |q| > |o| + 1 ==> q[|o|] in {".claude", "e2e"}
    ensures |q| > |o| + 1 && q[|o|] == ".claude" ==> |q| == |o| + 2 && q[|o| + 1] == "hooks"
  {
    var k :| 0 <= k < 9 && IsPrefix(q, SkeletonDirs(o)[k]);
    var d := SkeletonDirs(o)[k];
    assert q == d[..|q|];
    assert q[..|o|] == d[..|o|] == o;
    assert q[|o|] == d[|o|];
    if |q| > |o| + 1 {
      assert q[|o| + 1] == d[|o| + 1];
    }
  }

  /** No target is an ancestor of a skeleton directory, so the structure step never creates one. */
  lemma TargetsNotSkeleton(pkg: FileMap, o: Path, q: Path)
    requires FileTarget(pkg, o, q)
    ensures !UnderAny(q, SkeletonDirs(o))
  {
    if InDir(q, Sync.TemplatesDir(o), Sync.TemplateNames(pkg)) {
      CopiedNotSkeleton(o, q, Sync.TemplatesDir(o), Sync.TemplateNames(pkg));
    } else if InDir(q, Sync.HooksDir(o), Sync.HookNames(pkg)) {
      CopiedNotSkeleton(o, q, Sync.HooksDir(o), Sync.HookNames(pkg));
    } else {
      WrittenNotSkeleton(o, q);
    }
  }

  /** A copied template or hook is no ancestor of a skeleton directory. */
  lemma CopiedNotSkeleton(o: Path, q: Path, dir: Path, names: set<string>)
    requires dir == Sync.TemplatesDir(o) || dir == Sync.HooksDir(o)
    requires InDir(q, dir, names)
    ensures !UnderAny(q, SkeletonDirs(o))
  {
    assert q[..|o|] == q[..|dir|][..|o|];
    assert q[|o|] == dir[|o|];
    if UnderAny(q, SkeletonDirs(o)) {
      SkeletonShape(o, q);
      assert false;
    }
  }

  /** None of the documents the run writes is an ancestor of a skeleton directory. */
  lemma WrittenNotSkeleton(o: Path, q: Path)
    requires q == Sync.WorkspaceDoc(o) || q == Sync.ConstitutionDoc(o) || q == WorkspaceTemplate(o) || q == ConstitutionTemplate(o) ||
             q == Sync.SettingsPath(o) || q == Sync.AgentContextPath(o) || q == Sync.PlanTemplatePath(o) ||
             q == GitignorePath(o) || q == ProfilesPath(o)
    ensures !UnderAny(q, SkeletonDirs(o))
  {
    if UnderAny(q, SkeletonDirs(o)) {
      SkeletonShape(o, q);
      assert false;
    }
  }

  /** An ancestor of a skeleton directory is a directory once the structure step ran. */
  lemma SkeletonPrefixMade(fs: FileMap, ws: Path, k: nat, i: nat)
    requires k < 9 && i <= |SkeletonDirs(OrchOf(ws))[k]|
    requires !IsFile(fs, SkeletonDirs(OrchOf(ws))[k][..i])
    ensures IsDir(MkdirAllSeq(fs, SkeletonDirs(OrchOf(ws))), SkeletonDirs(OrchOf(ws))[k][..i])
  {
    var dirs := SkeletonDirs(OrchOf(ws));
    assert IsPrefix(dirs[k][..i], dirs[k]);
    assert UnderAny(dirs[k][..i], dirs);
  }

  /** The structure step makes `o`, `.claude/` and the nine directories. */
  lemma SkeletonDirsMade(fs: FileMap, ws: Path)
    requires NoFileAbove(fs, SkeletonDirs(OrchOf(ws)))
    ensures var o := OrchOf(ws); var f1 := MkdirAllSeq(fs, SkeletonDirs(o));
            IsDir(f1, o) && IsDir(f1, Sync.ClaudeDir(o)) && forall k :: 0 <= k < 9 ==> IsDir(f1, SkeletonDirs(o)[k])
  {
    var o := OrchOf(ws);
    var dirs := SkeletonDirs(o);
    SkeletonPrefixMade(fs, ws, 0, |o|);
    SkeletonPrefixMade(fs, ws, 0, |o| + 1);
    assert dirs[0][..|o|] == o && dirs[0][..|o| + 1] == Sync.ClaudeDir(o);
    forall k | 0 <= k < 9
      ensures IsDir(MkdirAllSeq(fs, dirs), dirs[k])
    {
      SkeletonPrefixMade(fs, ws, k, |dirs[k]|);
      assert dirs[k][..|dirs[k]|] == dirs[k];
    }
  }

  /** The structure step makes no path written over a directory, and keeps the scaffold documents copyable. */
  lemma SkeletonKeepsTargets(fs: FileMap, pkg: FileMap, o: Path)
    requires forall q :: Overwritten(pkg, o, q) ==> !IsDir(fs, q)
    requires TemplatesCopyable(fs, o)
    ensures forall q :: Overwritten(pkg, o, q) ==> !IsDir(MkdirAllSeq(fs, SkeletonDirs(o)), q)
    ensures TemplatesCopyable(MkdirAllSeq(fs, SkeletonDirs(o)), o)
  {
    forall q | Overwritten(pkg, o, q)
      ensures !IsDir(MkdirAllSeq(fs, SkeletonDirs(o)), q)
    {
      assert FileTarget(pkg, o, q);
      TargetsNotSkeleton(pkg, o, q);
    }
    WrittenNotSkeleton(o, Sync.WorkspaceDoc(o));
    WrittenNotSkeleton(o, Sync.ConstitutionDoc(o));
    WrittenNotSkeleton(o, WorkspaceTemplate(o));
    WrittenNotSkeleton(o, ConstitutionTemplate(o));
  }

  /** The structure step leaves the state `Ready`. */
  lemma SkeletonReady(fs: FileMap, pkg: FileMap, ws: Path)
    requires SetupSafe(fs, pkg, ws)
    ensures Ready(MkdirAllSeq(fs, SkeletonDirs(OrchOf(ws))), pkg, OrchOf(ws))
  {
    SkeletonDirsMade(fs, ws);
    SkeletonKeepsTargets(fs, pkg, OrchOf(ws));
  }

  // ---------------------------------------------------------------- each phase writes only its targets

  lemma TemplatesOnlyTargets(fs: FileMap, pkg: FileMap, o: Path)
    ensures OnlyTargets(fs, CopyTemplates(fs, pkg, o), pkg, o)
  {
  }

  lemma ScaffoldOnlyTargets(fs: FileMap, pkg: FileMap, o: Path, doc: Path, tpl: Path, stub: Content)
    requires FileTarget(pkg, o, doc)
    ensures OnlyTargets(fs, ScaffoldDoc(fs, doc, tpl, stub), pkg, o)
  {
  }

  lemma HooksOnlyTargets(fs: FileMap, pkg: FileMap, o: Path)
    ensures OnlyTargets(fs, CopyHooks(fs, pkg, o), pkg, o)
  {
  }

  lemma WriteOnlyTargets(fs: FileMap, pkg: FileMap, o: Path, p: Path, c: Content)
    requires FileTarget(pkg, o, p)
    ensures OnlyTargets(fs, Write(fs, p, c), pkg, o)
    ensures OnlyTargets(fs, WriteIfMissing(fs, p, c), pkg, o)
  {
  }

  lemma ScaffoldedOnlyTargets(fs: FileMap, pkg: FileMap, o: Path, project: string)
    ensures OnlyTargets(fs, Scaffolded(fs, o, project), pkg, o)
  {
    var f3 := ScaffoldDoc(fs, Sync.WorkspaceDoc(o), WorkspaceTemplate(o), WorkspaceStub(project));
    ScaffoldOnlyTargets(fs, pkg, o, Sync.WorkspaceDoc(o), WorkspaceTemplate(o), WorkspaceStub(project));
    ScaffoldOnlyTargets(f3, pkg, o, Sync.ConstitutionDoc(o), ConstitutionTemplate(o), ConstitutionStub(project));
    OnlyTargetsTrans(fs, f3, Scaffolded(fs, o, project), pkg, o);
  }

  lemma ConfiguredOnlyTargets(fs: FileMap, pkg: FileMap, o: Path, version: string)
    ensures OnlyTargets(fs, Configured(fs, o, version), pkg, o)
  {
    var f6 := Write(fs, Sync.SettingsPath(o), SettingsDoc(Hooks.GenerateSettings()));
    var f7 := WriteIfMissing(f6, Sync.AgentContextPath(o), AgentContext(version));
    var f8 := WriteIfMissing(f7, Sync.PlanTemplatePath(o), PlanTemplate);
    WriteOnlyTargets(fs, pkg, o, Sync.SettingsPath(o), SettingsDoc(Hooks.GenerateSettings()));
    WriteOnlyTargets(f6, pkg, o, Sync.AgentContextPath(o), AgentContext(version));
    OnlyTargetsTrans(fs, f6, f7, pkg, o);
    WriteOnlyTargets(f7, pkg, o, Sync.PlanTemplatePath(o), PlanTemplate);
    OnlyTargetsTrans(fs, f7, f8, pkg, o);
    WriteOnlyTargets(f8, pkg, o, GitignorePath(o), Gitignore);
    OnlyTargetsTrans(fs, f8, Configured(fs, o, version), pkg, o);
  }

  /** After the structure step the rest of the run writes only files at targets. */
  lemma RestOnlyTargets(fs: FileMap, pkg: FileMap, ws: Path, project: string, version: string, listing: seq<string>)
    ensures var o := OrchOf(ws);
            OnlyTargets(MkdirAllSeq(fs, SkeletonDirs(o)), Setup(fs, pkg, ws, project, version, listing), pkg, o)
  {
    var o := OrchOf(ws);
    var f1 := MkdirAllSeq(fs, SkeletonDirs(o));
    var f2 := Templated(fs, pkg, o);
    var f4 := Scaffolded(f2, o, project);
    var f5 := CopyHooks(f4, pkg, o);
    var f9 := Configured(f5, o, version);
    TemplatesOnlyTargets(f1, pkg, o);
    ScaffoldedOnlyTargets(f2, pkg, o, project);
    OnlyTargetsTrans(f1, f2, f4, pkg, o);
    HooksOnlyTargets(f4, pkg, o);
    OnlyTargetsTrans(f1, f4, f5, pkg, o);
    ConfiguredOnlyTargets(f5, pkg, o, version);
    OnlyTargetsTrans(f1, f5, f9, pkg, o);
    WriteOnlyTargets(f9, pkg, o, ProfilesPath(o), ServiceProfiles(project, ScanRepos(f9, ws, listing)));
    OnlyTargetsTrans(f1, f9, Setup(fs, pkg, ws, project, version, listing), pkg, o);
  }

  // ---------------------------------------------------------------- what the run promises

  /** `q` lies inside a sibling of `orchestrator/` in the workspace. */
  predicate Sibling(ws: Path, q: Path) {
    |q| > |ws| && q[..|ws|] == ws && q[|ws|] != "orchestrator"
  }

  lemma SkeletonUnderOrch(ws: Path, q: Path)
    requires UnderAny(q, SkeletonDirs(OrchOf(ws))) && |q| > |ws|
    ensures q[|ws|] == "orchestrator"
  {
    var dirs := SkeletonDirs(OrchOf(ws));
    var k :| 0 <= k < 9 && IsPrefix(q, dirs[k]);
    assert q[|ws|] == dirs[k][|ws|];
  }

  /** Setup changes nothing inside the sibling repositories. */
  lemma SiblingsUntouched(fs: FileMap, pkg: FileMap, ws: Path, project: string, version: string, listing: seq<string>, q: Path)
    requires Sibling(ws, q)
    ensures Get(Setup(fs, pkg, ws, project, version, listing), q) == Get(fs, q)
  {
    var o := OrchOf(ws);
    if FileTarget(pkg, o, q) {
      TargetBelow(pkg, o, q);
      assert q[|ws|] == q[..|o|][|ws|] == "orchestrator";
    }
    if UnderAny(q, SkeletonDirs(o)) {
      SkeletonUnderOrch(ws, q);
    }
    RestOnlyTargets(fs, pkg, ws, project, version, listing);
  }

  /** One sibling looks the same to the scan in two states that agree on the siblings. */
  lemma RepoFrame(f: FileMap, g: FileMap, ws: Path, n: string)
    requires forall q :: Sibling(ws, q) ==> Get(f, q) == Get(g, q)
    requires n != "orchestrator"
    ensures IsRepo(f, ws, n) == IsRepo(g, ws, n)
    ensures RepoOf(f, ws, n) == RepoOf(g, ws, n)
  {
    var d := ws + [n];
    assert Sibling(ws, d) && Sibling(ws, d + [".git"]) && Sibling(ws, d + ["package.json"]) && Sibling(ws, d + ["CLAUDE.md"]);
    assert ws + [n, ".git"] == d + [".git"];
    assert Get(f, d) == Get(g, d) && Get(f, d + [".git"]) == Get(g, d + [".git"]);
    assert Get(f, d + ["package.json"]) == Get(g, d + ["package.json"]);
    forall m
      ensures d + [m] in f <==> d + [m] in g
    {
      assert Sibling(ws, d + [m]);
    }
    assert ChildNames(f, d) == ChildNames(g, d);
  }

  /** The scan reads only siblings, so two states that agree on them scan alike. */
  lemma {:induction false} ScanFrame(f: FileMap, g: FileMap, ws: Path, listing: seq<string>)
    requires forall q :: Sibling(ws, q) ==> Get(f, q) == Get(g, q)
    ensures ScanRepos(f, ws, listing) == ScanRepos(g, ws, listing)
    decreases |listing|
  {
    if listing != [] {
      ScanFrame(f, g, ws, listing[..|listing| - 1]);
      var n := listing[|listing| - 1];
      if n != "orchestrator" {
        RepoFrame(f, g, ws, n);
      }
    }
  }

  /** The scan, run after the orchestrator's files are written, sees the siblings as they were before setup. */
  lemma ScanSeesOriginal(fs: FileMap, pkg: FileMap, ws: Path, project: string, version: string, listing: seq<string>)
    ensures ScanRepos(Documented(fs, pkg, OrchOf(ws), project, version), ws, listing) == ScanRepos(fs, ws, listing)
  {
    var f9 := Documented(fs, pkg, OrchOf(ws), project, version);
    forall q | Sibling(ws, q)
      ensures Get(f9, q) == Get(fs, q)
    {
      SiblingsUntouched(fs, pkg, ws, project, version, listing, q);
      assert q != ProfilesPath(OrchOf(ws)) by {
        assert ProfilesPath(OrchOf(ws))[|ws|] == "orchestrator";
      }
    }
    ScanFrame(f9, fs, ws, listing);
  }

  /** `service-profiles.md` is always rewritten, from the repositories the scan found. */
  lemma ProfilesWritten(fs: FileMap, pkg: FileMap, ws: Path, project: string, version: string, listing: seq<string>)
    ensures var r := Setup(fs, pkg, ws, project, version, listing);
            IsFile(r, ProfilesPath(OrchOf(ws))) &&
            r[ProfilesPath(OrchOf(ws))].content == ServiceProfiles(project, ScanRepos(fs, ws, listing))
  {
    ScanSeesOriginal(fs, pkg, ws, project, version, listing);
  }

  /** A state that `SetupSafe` admits ends with the skeleton made and no target a directory. */
  lemma SetupReady(fs: FileMap, pkg: FileMap, ws: Path, project: string, version: string, listing: seq<string>)
    requires SetupSafe(fs, pkg, ws)
    ensures Ready(Setup(fs, pkg, ws, project, version, listing), pkg, OrchOf(ws))
  {
    SkeletonReady(fs, pkg, ws);
    RestOnlyTargets(fs, pkg, ws, project, version, listing);
    ReadyKept(MkdirAllSeq(fs, SkeletonDirs(OrchOf(ws))), Setup(fs, pkg, ws, project, version, listing), pkg, OrchOf(ws));
  }

  /** The structure step leaves every target as it was. */
  lemma SkeletonLeavesTarget(fs: FileMap, pkg: FileMap, o: Path, d: Path)
    requires FileTarget(pkg, o, d)
    ensures Get(MkdirAllSeq(fs, SkeletonDirs(o)), d) == Get(fs, d)
  {
    TargetsNotSkeleton(pkg, o, d);
  }

  /** The template copy as seen at `templates/<n>`: the package's file when it has one, else what was there. */
  lemma TemplateCopied(fs: FileMap, pkg: FileMap, o: Path, n: string)
    requires EndsWith(n, ".md")
    ensures Get(CopyTemplates(MkdirAllSeq(fs, SkeletonDirs(o)), pkg, o), Sync.TemplatesDir(o) + [n]) ==
            if Sync.PkgTemplates in pkg && IsFile(pkg, Sync.PkgTemplates + [n]) then Some(pkg[Sync.PkgTemplates + [n]])
            else Get(fs, Sync.TemplatesDir(o) + [n])
  {
    var q := Sync.TemplatesDir(o) + [n];
    assert q[..|o| + 1] == Sync.TemplatesDir(o) && q[|o| + 1] == n;
    assert n in Sync.TemplateNames(pkg) <==> IsFile(pkg, Sync.PkgTemplates + [n]);
    if UnderAny(q, SkeletonDirs(o)) {
      SkeletonShape(o, q);
      assert false;
    }
  }

  /** The steps after the scaffold documents leave them alone. */
  lemma AfterScaffoldKeeps(f4: FileMap, pkg: FileMap, ws: Path, project: string, version: string, listing: seq<string>, d: Path)
    requires d == Sync.WorkspaceDoc(OrchOf(ws)) || d == Sync.ConstitutionDoc(OrchOf(ws))
    ensures Get(Profiled(Configured(CopyHooks(f4, pkg, OrchOf(ws)), OrchOf(ws), version), ws, project, listing), d) == Get(f4, d)
  {
    var o := OrchOf(ws);
    var f5 := CopyHooks(f4, pkg, o);
    assert !InDir(d, Sync.HooksDir(o), Sync.HookNames(pkg));
    assert Get(f5, d) == Get(f4, d);
    assert d != Sync.SettingsPath(o) && d != ProfilesPath(o) && d != Sync.PlanTemplatePath(o);
    assert d != Sync.AgentContextPath(o) && d != GitignorePath(o) by {
      assert d[|o|] != Sync.AgentContextPath(o)[|o|] && d[|o|] != GitignorePath(o)[|o|];
    }
  }

  /** The two scaffold steps, seen at the two documents. */
  lemma ScaffoldedAt(f2: FileMap, o: Path, project: string)
    ensures Get(Scaffolded(f2, o, project), Sync.WorkspaceDoc(o)) ==
              if Sync.WorkspaceDoc(o) in f2 then Get(f2, Sync.WorkspaceDoc(o))
              else if IsFile(f2, WorkspaceTemplate(o)) then Some(f2[WorkspaceTemplate(o)])
              else Some(File(WorkspaceStub(project), DefaultMode))
    ensures Get(Scaffolded(f2, o, project), Sync.ConstitutionDoc(o)) ==
              if Sync.ConstitutionDoc(o) in f2 then Get(f2, Sync.ConstitutionDoc(o))
              else if IsFile(f2, ConstitutionTemplate(o)) then Some(f2[ConstitutionTemplate(o)])
              else Some(File(ConstitutionStub(project), DefaultMode))
  {
    var f3 := ScaffoldDoc(f2, Sync.WorkspaceDoc(o), WorkspaceTemplate(o), WorkspaceStub(project));
    assert Sync.WorkspaceDoc(o)[|o|] != Sync.ConstitutionDoc(o)[|o|];
    assert WorkspaceTemplate(o) != ConstitutionTemplate(o) by {
      assert WorkspaceTemplate(o)[|o| + 1] != ConstitutionTemplate(o)[|o| + 1];
    }
    assert Get(f3, Sync.ConstitutionDoc(o)) == Get(f2, Sync.ConstitutionDoc(o));
    assert Get(f3, ConstitutionTemplate(o)) == Get(f2, ConstitutionTemplate(o));
  }

  /** The structure and template steps leave the two scaffold documents as they were. */
  lemma TemplatedKeepsDocs(fs: FileMap, pkg: FileMap, o: Path)
    ensures Get(Templated(fs, pkg, o), Sync.WorkspaceDoc(o)) == Get(fs, Sync.WorkspaceDoc(o))
    ensures Get(Templated(fs, pkg, o), Sync.ConstitutionDoc(o)) == Get(fs, Sync.ConstitutionDoc(o))
  {
    SkeletonLeavesTarget(fs, pkg, o, Sync.WorkspaceDoc(o));
    SkeletonLeavesTarget(fs, pkg, o, Sync.ConstitutionDoc(o));
  }

  /** `workspace.md`: kept when present; else the template, as copied from the package or already local; else the stub. */
  lemma WorkspaceDocOutcome(fs: FileMap, pkg: FileMap, ws: Path, project: string, version: string, listing: seq<string>)
    ensures var o := OrchOf(ws); var t := Sync.PkgTemplates + ["workspace.template.md"];
            Get(Setup(fs, pkg, ws, project, version, listing), Sync.WorkspaceDoc(o)) ==
              if Sync.WorkspaceDoc(o) in fs then Get(fs, Sync.WorkspaceDoc(o))
              else if Sync.PkgTemplates in pkg && IsFile(pkg, t) then Some(pkg[t])
              else if IsFile(fs, WorkspaceTemplate(o)) then Some(fs[WorkspaceTemplate(o)])
              else Some(File(WorkspaceStub(project), DefaultMode))
  {
    var o := OrchOf(ws);
    var d := Sync.WorkspaceDoc(o);
    var f4 := Scaffolded(Templated(fs, pkg, o), o, project);
    assert Get(Setup(fs, pkg, ws, project, version, listing), d) == Get(f4, d) by {
      AfterScaffoldKeeps(f4, pkg, ws, project, version, listing, d);
    }
    WorkspaceScaffolded(fs, pkg, o, project);
  }

  lemma WorkspaceScaffolded(fs: FileMap, pkg: FileMap, o: Path, project: string)
    ensures var t := Sync.PkgTemplates + ["workspace.template.md"];
            Get(Scaffolded(Templated(fs, pkg, o), o, project), Sync.WorkspaceDoc(o)) ==
              if Sync.WorkspaceDoc(o) in fs then Get(fs, Sync.WorkspaceDoc(o))
              else if Sync.PkgTemplates in pkg && IsFile(pkg, t) then Some(pkg[t])
              else if IsFile(fs, WorkspaceTemplate(o)) then Some(fs[WorkspaceTemplate(o)])
              else Some(File(WorkspaceStub(project), DefaultMode))
  {
    var t := Sync.PkgTemplates + ["workspace.template.md"];
    TemplatedKeepsDocs(fs, pkg, o);
    TemplateCopied(fs, pkg, o, "workspace.template.md");
    assert Sync.TemplatesDir(o) + ["workspace.template.md"] == WorkspaceTemplate(o);
    ScaffoldedFromTemplated(Templated(fs, pkg, o), fs, pkg, o, project, Sync.WorkspaceDoc(o), WorkspaceTemplate(o), t, WorkspaceStub(project));
  }

  /**
   * A scaffold document after the two scaffold steps, given what the steps
   * before left at it and at its template.
   */
  lemma ScaffoldedFromTemplated(f2: FileMap, fs: FileMap, pkg: FileMap, o: Path, project: string, doc: Path, tpl: Path, t: Path, stub: Content)
    requires (doc == Sync.WorkspaceDoc(o) && tpl == WorkspaceTemplate(o) && stub == WorkspaceStub(project)) ||
             (doc == Sync.ConstitutionDoc(o) && tpl == ConstitutionTemplate(o) && stub == ConstitutionStub(project))
    requires Get(f2, doc) == Get(fs, doc)
    requires Get(f2, tpl) == if Sync.PkgTemplates in pkg && IsFile(pkg, t) then Some(pkg[t]) else Get(fs, tpl)
    ensures Get(Scaffolded(f2, o, project), doc) ==
              if doc in fs then Get(fs, doc)
              else if Sync.PkgTemplates in pkg && IsFile(pkg, t) then Some(pkg[t])
              else if IsFile(fs, tpl) then Some(fs[tpl])
              else Some(File(stub, DefaultMode))
  {
    ScaffoldedAt(f2, o, project);
  }

  /** `constitution.md`: kept when present; else the template, as copied from the package or already local; else the stub. */
  lemma ConstitutionDocOutcome(fs: FileMap, pkg: FileMap, ws: Path, project: string, version: string, listing: seq<string>)
    ensures var o := OrchOf(ws); var t := Sync.PkgTemplates + ["constitution.template.md"];
            Get(Setup(fs, pkg, ws, project, version, listing), Sync.ConstitutionDoc(o)) ==
              if Sync.ConstitutionDoc(o) in fs then Get(fs, Sync.ConstitutionDoc(o))
              else if Sync.PkgTemplates in pkg && IsFile(pkg, t) then Some(pkg[t])
              else if IsFile(fs, ConstitutionTemplate(o)) then Some(fs[ConstitutionTemplate(o)])
              else Some(File(ConstitutionStub(project), DefaultMode))
  {
    var o := OrchOf(ws);
    var d := Sync.ConstitutionDoc(o);
    var f4 := Scaffolded(Templated(fs, pkg, o), o, project);
    assert Get(Setup(fs, pkg, ws, project, version, listing), d) == Get(f4, d) by {
      AfterScaffoldKeeps(f4, pkg, ws, project, version, listing, d);
    }
    ConstitutionScaffolded(fs, pkg, o, project);
  }

  lemma ConstitutionScaffolded(fs: FileMap, pkg: FileMap, o: Path, project: string)
    ensures var t := Sync.PkgTemplates + ["constitution.template.md"];
            Get(Scaffolded(Templated(fs, pkg, o), o, project), Sync.ConstitutionDoc(o)) ==
              if Sync.ConstitutionDoc(o) in fs then Get(fs, Sync.ConstitutionDoc(o))
              else if Sync.PkgTemplates in pkg && IsFile(pkg, t) then Some(pkg[t])
              else if IsFile(fs, ConstitutionTemplate(o)) then Some(fs[ConstitutionTemplate(o)])
              else Some(File(ConstitutionStub(project), DefaultMode))
  {
    var t := Sync.PkgTemplates + ["constitution.template.md"];
    TemplatedKeepsDocs(fs, pkg, o);
    TemplateCopied(fs, pkg, o, "constitution.template.md");
    assert Sync.TemplatesDir(o) + ["constitution.template.md"] == ConstitutionTemplate(o);
    ScaffoldedFromTemplated(Templated(fs, pkg, o), fs, pkg, o, project, Sync.ConstitutionDoc(o), ConstitutionTemplate(o), t, ConstitutionStub(project));
  }

  // ---------------------------------------------------------------- what each stage leaves alone

  lemma TemplatesLeave(f: FileMap, pkg: FileMap, o: Path, d: Path)
    requires |d| != |o| + 2 || d[..|o| + 1] != Sync.TemplatesDir(o)
    ensures Get(CopyTemplates(f, pkg, o), d) == Get(f, d)
  {
  }

  lemma ScaffoldedLeave(f: FileMap, o: Path, project: string, d: Path)
    requires d != Sync.WorkspaceDoc(o) && d != Sync.ConstitutionDoc(o)
    ensures Get(Scaffolded(f, o, project), d) == Get(f, d)
  {
  }

  lemma HooksLeave(f: FileMap, pkg: FileMap, o: Path, d: Path)
    requires |d| != |o| + 3
    ensures Get(CopyHooks(f, pkg, o), d) == Get(f, d)
  {
  }

  lemma ConfiguredLeave(f: FileMap, o: Path, version: string, d: Path)
    requires d != Sync.SettingsPath(o) && d != Sync.AgentContextPath(o) && d != Sync.PlanTemplatePath(o) && d != GitignorePath(o)
    ensures Get(Configured(f, o, version), d) == Get(f, d)
  {
  }

  /** The paths written after the structure steps are not among theirs. */
  lemma LaterPathsApart(o: Path, d: Path)
    requires d == Sync.SettingsPath(o) || d == Sync.AgentContextPath(o) || d == Sync.PlanTemplatePath(o) || d == GitignorePath(o)
    ensures |d| != |o| + 2 || d[..|o| + 1] != Sync.TemplatesDir(o)
    ensures d != Sync.WorkspaceDoc(o) && d != Sync.ConstitutionDoc(o) && |d| != |o| + 3
  {
    if d == Sync.SettingsPath(o) {
      assert d[..|o| + 1][|o|] == ".claude";
    } else if d == Sync.PlanTemplatePath(o) {
      assert d[..|o| + 1][|o|] == "plans";
    } else {
      assert d[|o|] != "workspace.md" && d[|o|] != "constitution.md";
    }
  }

  /** The structure steps leave the paths written later as they were. */
  lemma StructuredLeaves(fs: FileMap, pkg: FileMap, o: Path, project: string, d: Path)
    requires d == Sync.SettingsPath(o) || d == Sync.AgentContextPath(o) || d == Sync.PlanTemplatePath(o) || d == GitignorePath(o)
    ensures Get(Structured(fs, pkg, o, project), d) == Get(fs, d)
  {
    var f1 := MkdirAllSeq(fs, SkeletonDirs(o));
    var f2 := CopyTemplates(f1, pkg, o);
    var f4 := Scaffolded(f2, o, project);
    LaterPathsApart(o, d);
    SkeletonLeavesTarget(fs, pkg, o, d);
    TemplatesLeave(f1, pkg, o, d);
    ScaffoldedLeave(f2, o, project, d);
    HooksLeave(f4, pkg, o, d);
  }

  /** The four configuration writes, seen at their own paths. */
  lemma ConfiguredAt(f: FileMap, o: Path, version: string)
    ensures var r := Configured(f, o, version);
            Get(r, Sync.SettingsPath(o)) == Some(File(SettingsDoc(Hooks.GenerateSettings()), WrittenMode(f, Sync.SettingsPath(o)))) &&
            Get(r, Sync.AgentContextPath(o)) ==
              (if Sync.AgentContextPath(o) in f then Get(f, Sync.AgentContextPath(o)) else Some(File(AgentContext(version), DefaultMode))) &&
            Get(r, Sync.PlanTemplatePath(o)) ==
              (if Sync.PlanTemplatePath(o) in f then Get(f, Sync.PlanTemplatePath(o)) else Some(File(PlanTemplate, DefaultMode))) &&
            Get(r, GitignorePath(o)) ==
              (if GitignorePath(o) in f then Get(f, GitignorePath(o)) else Some(File(Gitignore, DefaultMode)))
  {
    assert Sync.SettingsPath(o)[|o|] != Sync.PlanTemplatePath(o)[|o|];
    assert Sync.AgentContextPath(o)[|o|] != GitignorePath(o)[|o|];
  }

  /**
   * `CLAUDE.md`, `plans/_TEMPLATE.md` and `.gitignore`: each kept when present,
   * else written with its generated content.
   */
  lemma GeneratedDocsOutcome(fs: FileMap, pkg: FileMap, ws: Path, project: string, version: string, listing: seq<string>)
    ensures var o := OrchOf(ws); var r := Setup(fs, pkg, ws, project, version, listing);
            Get(r, Sync.AgentContextPath(o)) ==
              (if Sync.AgentContextPath(o) in fs then Get(fs, Sync.AgentContextPath(o)) else Some(File(AgentContext(version), DefaultMode))) &&
            Get(r, Sync.PlanTemplatePath(o)) ==
              (if Sync.PlanTemplatePath(o) in fs then Get(fs, Sync.PlanTemplatePath(o)) else Some(File(PlanTemplate, DefaultMode))) &&
            Get(r, GitignorePath(o)) ==
              (if GitignorePath(o) in fs then Get(fs, GitignorePath(o)) else Some(File(Gitignore, DefaultMode)))
  {
    var o := OrchOf(ws);
    var f5 := Structured(fs, pkg, o, project);
    StructuredLeaves(fs, pkg, o, project, Sync.AgentContextPath(o));
    StructuredLeaves(fs, pkg, o, project, Sync.PlanTemplatePath(o));
    StructuredLeaves(fs, pkg, o, project, GitignorePath(o));
    ConfiguredAt(f5, o, version);
    assert Sync.PlanTemplatePath(o)[|o| + 1] != ProfilesPath(o)[|o| + 1];
  }

  /** `settings.json` is always regenerated, keeping the mode of a file already there. */
  lemma SettingsRegenerated(fs: FileMap, pkg: FileMap, ws: Path, project: string, version: string, listing: seq<string>)
    ensures var o := OrchOf(ws);
            Get(Setup(fs, pkg, ws, project, version, listing), Sync.SettingsPath(o)) ==
              Some(File(SettingsDoc(Hooks.GenerateSettings()), WrittenMode(fs, Sync.SettingsPath(o))))
  {
    var o := OrchOf(ws);
    var f5 := Structured(fs, pkg, o, project);
    StructuredLeaves(fs, pkg, o, project, Sync.SettingsPath(o));
    ConfiguredAt(f5, o, version);
    assert WrittenMode(f5, Sync.SettingsPath(o)) == WrittenMode(fs, Sync.SettingsPath(o));
    assert Sync.SettingsPath(o)[|o|] != ProfilesPath(o)[|o|];
  }

  /** Every `.sh` file of the package's `hooks/` ends up in `.claude/hooks/` with mode 0755. */
  lemma HookInstalled(fs: FileMap, pkg: FileMap, ws: Path, project: string, version: string, listing: seq<string>, n: string)
    requires Sync.PkgHooks in pkg && IsFile(pkg, Sync.PkgHooks + [n]) && EndsWith(n, ".sh")
    ensures Get(Setup(fs, pkg, ws, project, version, listing), Sync.HooksDir(OrchOf(ws)) + [n]) ==
              Some(File(pkg[Sync.PkgHooks + [n]].content, ExecMode))
  {
    var o := OrchOf(ws);
    var q := Sync.HooksDir(o) + [n];
    var f5 := CopyHooks(Scaffolded(Templated(fs, pkg, o), o, project), pkg, o);
    assert Get(f5, q) == Some(File(pkg[Sync.PkgHooks + [n]].content, ExecMode)) by {
      HookCopied(Scaffolded(Templated(fs, pkg, o), o, project), pkg, o, n);
    }
    assert Get(Setup(fs, pkg, ws, project, version, listing), q) == Get(f5, q) by {
      ConfiguredLeave(f5, o, version, q);
    }
  }

  /** The hook copy as seen at `.claude/hooks/<n>`, for a script the package has. */
  lemma HookCopied(f: FileMap, pkg: FileMap, o: Path, n: string)
    requires Sync.PkgHooks in pkg && IsFile(pkg, Sync.PkgHooks + [n]) && EndsWith(n, ".sh")
    ensures Get(CopyHooks(f, pkg, o), Sync.HooksDir(o) + [n]) == Some(File(pkg[Sync.PkgHooks + [n]].content, ExecMode))
  {
    var q := Sync.HooksDir(o) + [n];
    assert q[..|o| + 2] == Sync.HooksDir(o) && q[|o| + 2] == n;
    assert n in Sync.HookNames(pkg);
  }

  /**
   * A document written only when absent (`workspace.md`, `constitution.md`,
   * `CLAUDE.md`, `plans/_TEMPLATE.md`, `.gitignore`) may be a directory:
   * `existsSync` skips it, so `SetupSafe` does not rule it out.
   */
  lemma SkippedDirSafe(fs: FileMap, pkg: FileMap, ws: Path, d: Path)
    requires SetupSafe(fs, pkg, ws)
    requires var o := OrchOf(ws);
             d == Sync.WorkspaceDoc(o) || d == Sync.ConstitutionDoc(o) ||
             d == Sync.AgentContextPath(o) || d == Sync.PlanTemplatePath(o) || d == GitignorePath(o)
    ensures SetupSafe(fs[d := Dir], pkg, ws)
  {
    var o := OrchOf(ws);
    var g := fs[d := Dir];
    assert forall q :: IsFile(g, q) ==> IsFile(fs, q);
    assert NoFileAbove(g, SkeletonDirs(o));
    SkippedNotOverwritten(pkg, o, d);
    assert forall q :: Overwritten(pkg, o, q) ==> !IsDir(g, q);
    assert d != WorkspaceTemplate(o) && d != ConstitutionTemplate(o);
    assert TemplatesCopyable(g, o);
  }

  /** A directory at a document written only when absent is left in place by the run. */
  lemma SkippedDirKept(fs: FileMap, pkg: FileMap, ws: Path, project: string, version: string, listing: seq<string>, d: Path)
    requires var o := OrchOf(ws);
             d == Sync.WorkspaceDoc(o) || d == Sync.ConstitutionDoc(o) ||
             d == Sync.AgentContextPath(o) || d == Sync.PlanTemplatePath(o) || d == GitignorePath(o)
    requires IsDir(fs, d)
    ensures Get(Setup(fs, pkg, ws, project, version, listing), d) == Some(Dir)
  {
    var o := OrchOf(ws);
    if d == Sync.WorkspaceDoc(o) {
      WorkspaceDocOutcome(fs, pkg, ws, project, version, listing);
    } else if d == Sync.ConstitutionDoc(o) {
      ConstitutionDocOutcome(fs, pkg, ws, project, version, listing);
    } else {
      GeneratedDocsOutcome(fs, pkg, ws, project, version, listing);
    }
  }

  /** The documents written only when absent are not written over. */
  lemma SkippedNotOverwritten(pkg: FileMap, o: Path, d: Path)
    requires d == Sync.WorkspaceDoc(o) || d == Sync.ConstitutionDoc(o) ||
             d == Sync.AgentContextPath(o) || d == Sync.PlanTemplatePath(o) || d == GitignorePath(o)
    ensures !Overwritten(pkg, o, d)
  {
    if d == Sync.PlanTemplatePath(o) {
      assert d[|o|] == "plans" && d[|o| + 1] == "_TEMPLATE.md";
      assert Sync.SettingsPath(o)[|o|] == ".claude";
      assert ProfilesPath(o)[|o| + 1] == "service-profiles.md";
      assert Sync.TemplatesDir(o)[|o|] == "templates";
    } else {
      assert |d| == |o| + 1;
    }
  }

  /** After setup, `update` and the `session` commands run from `orchestrator/` find it. */
  lemma SetupThenFound(fs: FileMap, pkg: FileMap, ws: Path, project: string, version: string, listing: seq<string>)
    ensures Sync.FindOrchDir(Setup(fs, pkg, ws, project, version, listing), OrchOf(ws)) == Some(OrchOf(ws))
  {
    WorkspaceDocOutcome(fs, pkg, ws, project, version, listing);
  }

  // ---------------------------------------------------------------- the run on the filesystem object

  /** The nine `mkdirp` calls (bin/cli.js:514-522). */
  method MakeSkeleton(fsys: FileSystem, o: Path)
    requires fsys.Valid()
    requires NoFileAbove(fsys.entries, SkeletonDirs(o))
    modifies fsys
    ensures fsys.Valid() && fsys.entries == MkdirAllSeq(old(fsys.entries), SkeletonDirs(o))
  {
    MakeAll(fsys, SkeletonDirs(o));
  }

  /** `mkdirp` of each of `dirs`, in order. */
  method MakeAll(fsys: FileSystem, dirs: seq<Path>)
    requires fsys.Valid()
    requires NoFileAbove(fsys.entries, dirs)
    modifies fsys
    ensures fsys.Valid() && fsys.entries == MkdirAllSeq(old(fsys.entries), dirs)
  {
    ghost var fs0 := fsys.entries;
    for j := 0 to |dirs|
      invariant fsys.Valid()
      invariant fsys.entries == MkdirAllSeq(fs0, dirs[..j])
      invariant NoFileAbove(fsys.entries, dirs)
    {
      assert dirs[..j + 1][..j] == dirs[..j];
      assert forall i :: 0 <= i <= |dirs[j]| ==> !IsFile(fsys.entries, dirs[j][..i]);
      MkdirKeepsNoFile(fsys.entries, dirs[j], dirs);
      fsys.MakeDirs(dirs[j]);
    }
    assert dirs[..|dirs|] == dirs;
  }

  /** A `mkdirp` makes no file, so no ancestor of `dirs` that was not a file becomes one. */
  lemma MkdirKeepsNoFile(f: FileMap, d: Path, dirs: seq<Path>)
    requires NoFileAbove(f, dirs)
    ensures NoFileAbove(MkdirAll(f, d), dirs)
  {
    forall k, i | 0 <= k < |dirs| && 0 <= i <= |dirs[k]|
      ensures !IsFile(MkdirAll(f, d), dirs[k][..i])
    {
      assert !IsFile(f, dirs[k][..i]);
    }
  }

  /** The `.md` templates of the package copied into `templates/` (bin/cli.js:526-532). */
  method CopyTemplatesStep(fsys: FileSystem, pkg: FileMap, o: Path)
    requires fsys.Valid() && PackageSafe(pkg) && Ready(fsys.entries, pkg, o)
    modifies fsys
    ensures fsys.Valid() && Ready(fsys.entries, pkg, o)
    ensures fsys.entries == CopyTemplates(old(fsys.entries), pkg, o)
  {
    if Sync.PkgTemplates in pkg {
      assert SkeletonDirs(o)[2] == Sync.TemplatesDir(o);
      forall n | n in ChildNames(pkg, Sync.PkgTemplates) && EndsWith(n, ".md")
        ensures IsFile(pkg, Sync.PkgTemplates + [n]) && !IsDir(fsys.entries, Sync.TemplatesDir(o) + [n])
      {
        var q := Sync.TemplatesDir(o) + [n];
        assert q[..|o| + 1] == Sync.TemplatesDir(o) && q[|o| + 1] == n;
        assert Overwritten(pkg, o, q);
      }
      fsys.CopyMatching(pkg, Sync.PkgTemplates, Sync.TemplatesDir(o), ".md", None);
    }
    TemplatesOnlyTargets(old(fsys.entries), pkg, o);
    ReadyKept(old(fsys.entries), fsys.entries, pkg, o);
  }

  /** One scaffold document (bin/cli.js:534-562). */
  method ScaffoldStep(fsys: FileSystem, pkg: FileMap, o: Path, doc: Path, tpl: Path, stub: Content)
    requires fsys.Valid() && Ready(fsys.entries, pkg, o)
    requires (doc == Sync.WorkspaceDoc(o) && tpl == WorkspaceTemplate(o)) || (doc == Sync.ConstitutionDoc(o) && tpl == ConstitutionTemplate(o))
    modifies fsys
    ensures fsys.Valid() && Ready(fsys.entries, pkg, o)
    ensures fsys.entries == ScaffoldDoc(old(fsys.entries), doc, tpl, stub)
  {
    if doc !in fsys.entries {
      assert Parent(doc) == o;
      if tpl in fsys.entries {
        fsys.CopyFile(fsys.entries, tpl, doc);
      } else {
        fsys.WriteFile(doc, stub);
      }
    }
    ScaffoldOnlyTargets(old(fsys.entries), pkg, o, doc, tpl, stub);
    ReadyKept(old(fsys.entries), fsys.entries, pkg, o);
  }

  /** The `.sh` hooks of the package copied into `.claude/hooks/` and made executable (bin/cli.js:565-577). */
  method CopyHooksStep(fsys: FileSystem, pkg: FileMap, o: Path)
    requires fsys.Valid() && PackageSafe(pkg) && Ready(fsys.entries, pkg, o)
    modifies fsys
    ensures fsys.Valid() && Ready(fsys.entries, pkg, o)
    ensures fsys.entries == CopyHooks(old(fsys.entries), pkg, o)
  {
    if Sync.PkgHooks in pkg {
      assert SkeletonDirs(o)[0] == Sync.HooksDir(o);
      forall n | n in ChildNames(pkg, Sync.PkgHooks) && EndsWith(n, ".sh")
        ensures IsFile(pkg, Sync.PkgHooks + [n]) && !IsDir(fsys.entries, Sync.HooksDir(o) + [n])
      {
        var q := Sync.HooksDir(o) + [n];
        assert q[..|o| + 2] == Sync.HooksDir(o) && q[|o| + 2] == n;
        assert Overwritten(pkg, o, q);
      }
      fsys.CopyMatching(pkg, Sync.PkgHooks, Sync.HooksDir(o), ".sh", Some(ExecMode));
    }
    HooksOnlyTargets(old(fsys.entries), pkg, o);
    ReadyKept(old(fsys.entries), fsys.entries, pkg, o);
  }

  /** `fs.writeFileSync` at a path written over whose directory exists. */
  method WriteStep(fsys: FileSystem, pkg: FileMap, o: Path, p: Path, c: Content)
    requires fsys.Valid() && Ready(fsys.entries, pkg, o)
    requires Overwritten(pkg, o, p) && p != [] && IsDir(fsys.entries, Parent(p))
    modifies fsys
    ensures fsys.Valid() && Ready(fsys.entries, pkg, o)
    ensures fsys.entries == Write(old(fsys.entries), p, c)
  {
    fsys.WriteFile(p, c);
    WriteOnlyTargets(old(fsys.entries), pkg, o, p, c);
    ReadyKept(old(fsys.entries), fsys.entries, pkg, o);
  }

  /** `if (!fs.existsSync(p)) fs.writeFileSync(p, c)` at a target whose directory exists. */
  method WriteIfMissingStep(fsys: FileSystem, pkg: FileMap, o: Path, p: Path, c: Content)
    requires fsys.Valid() && Ready(fsys.entries, pkg, o)
    requires FileTarget(pkg, o, p) && p != [] && IsDir(fsys.entries, Parent(p))
    modifies fsys
    ensures fsys.Valid() && Ready(fsys.entries, pkg, o)
    ensures fsys.entries == WriteIfMissing(old(fsys.entries), p, c)
  {
    if p !in fsys.entries {
      fsys.WriteFile(p, c);
    }
    WriteOnlyTargets(old(fsys.entries), pkg, o, p, c);
    ReadyKept(old(fsys.entries), fsys.entries, pkg, o);
  }

  /** The directories the configuration writes and the profile summary go into. */
  lemma ConfigureLayout(o: Path)
    ensures Parent(Sync.SettingsPath(o)) == Sync.ClaudeDir(o)
    ensures Parent(Sync.AgentContextPath(o)) == o && Parent(GitignorePath(o)) == o
    ensures Parent(Sync.PlanTemplatePath(o)) == SkeletonDirs(o)[1] && Parent(ProfilesPath(o)) == SkeletonDirs(o)[1]
  {
  }

  /** The skeleton, then the templates (bin/cli.js:513-532). */
  method TemplatedRun(fsys: FileSystem, pkg: FileMap, ws: Path)
    requires fsys.Valid() && SetupSafe(fsys.entries, pkg, ws)
    modifies fsys
    ensures fsys.Valid() && Ready(fsys.entries, pkg, OrchOf(ws))
    ensures fsys.entries == Templated(old(fsys.entries), pkg, OrchOf(ws))
  {
    ghost var fs0 := fsys.entries;
    MakeSkeleton(fsys, OrchOf(ws));
    SkeletonReady(fs0, pkg, ws);
    CopyTemplatesStep(fsys, pkg, OrchOf(ws));
  }

  /** `workspace.md`, then `constitution.md` (bin/cli.js:534-562). */
  method ScaffoldRun(fsys: FileSystem, pkg: FileMap, o: Path, project: string)
    requires fsys.Valid() && Ready(fsys.entries, pkg, o)
    modifies fsys
    ensures fsys.Valid() && Ready(fsys.entries, pkg, o)
    ensures fsys.entries == Scaffolded(old(fsys.entries), o, project)
  {
    ScaffoldStep(fsys, pkg, o, Sync.WorkspaceDoc(o), WorkspaceTemplate(o), WorkspaceStub(project));
    ScaffoldStep(fsys, pkg, o, Sync.ConstitutionDoc(o), ConstitutionTemplate(o), ConstitutionStub(project));
  }

  /** Structure, templates, scaffold documents and hooks (bin/cli.js:513-577). */
  method StructureRun(fsys: FileSystem, pkg: FileMap, ws: Path, project: string)
    requires fsys.Valid() && SetupSafe(fsys.entries, pkg, ws)
    modifies fsys
    ensures fsys.Valid() && Ready(fsys.entries, pkg, OrchOf(ws))
    ensures fsys.entries == Structured(old(fsys.entries), pkg, OrchOf(ws), project)
  {
    TemplatedRun(fsys, pkg, ws);
    ScaffoldRun(fsys, pkg, OrchOf(ws), project);
    CopyHooksStep(fsys, pkg, OrchOf(ws));
  }

  /** `settings.json`, `CLAUDE.md`, the plan template and `.gitignore` (bin/cli.js:579-611). */
  method ConfigureRun(fsys: FileSystem, pkg: FileMap, o: Path, version: string)
    requires fsys.Valid() && Ready(fsys.entries, pkg, o)
    modifies fsys
    ensures fsys.Valid() && Ready(fsys.entries, pkg, o)
    ensures fsys.entries == Configured(old(fsys.entries), o, version)
  {
    ConfigureLayout(o);
    WriteStep(fsys, pkg, o, Sync.SettingsPath(o), SettingsDoc(Hooks.GenerateSettings()));
    WriteIfMissingStep(fsys, pkg, o, Sync.AgentContextPath(o), AgentContext(version));
    WriteIfMissingStep(fsys, pkg, o, Sync.PlanTemplatePath(o), PlanTemplate);
    WriteIfMissingStep(fsys, pkg, o, GitignorePath(o), Gitignore);
  }

  /**
   * `setupWorkspace(ws, project)` (bin/cli.js:508-679): the filesystem ends as
   * `Setup` says; the repositories and the names lacking `CLAUDE.md` are those
   * of the workspace as it was before the run.
   */
  method SetupWorkspace(fsys: FileSystem, pkg: FileMap, ws: Path, project: string, version: string, listing: seq<string>)
    returns (repos: seq<Projects.RepoInfo>, without: seq<string>)
    requires fsys.Valid() && SetupSafe(fsys.entries, pkg, ws)
    requires ListsWorkspace(fsys.entries, ws, listing)
    modifies fsys
    ensures fsys.Valid()
    ensures fsys.entries == Setup(old(fsys.entries), pkg, ws, project, version, listing)
    ensures repos == ScanRepos(old(fsys.entries), ws, listing)
    ensures forall n :: IsRepo(old(fsys.entries), ws, n) <==> exists i :: 0 <= i < |repos| && repos[i].name == n
    ensures forall i, j :: 0 <= i < j < |repos| ==> repos[i].name != repos[j].name
    ensures without == WithoutClaude(repos)
  {
    var o := OrchOf(ws);
    ghost var fs0 := fsys.entries;
    StructureRun(fsys, pkg, ws, project);
    ConfigureRun(fsys, pkg, o, version);
    repos, without := ScanSiblings(fsys.entries, ws, listing);
    ScanSeesOriginal(fs0, pkg, ws, project, version, listing);
    ScanExactly(fs0, ws, listing);
    ConfigureLayout(o);
    WriteStep(fsys, pkg, o, ProfilesPath(o), ServiceProfiles(project, repos));
  }
}
