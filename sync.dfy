/**
 * The local synchroniser `updateLocal` (bin/cli.js:414-505): where the
 * orchestrator directory is found, which artifacts it regenerates, which it
 * creates only when missing and which it never touches. `UpdateSteps` is
 * the run in source order; `Synced` classifies every path on its own; the
 * two agree (`UpdateIsClassified`), and the properties are proved on the
 * classification.
 */
module Sync {
  import opened Common
  import opened Strings
  import opened Fs
  import Hooks

  // ---------------------------------------------------------------- layout

  function WorkspaceDoc(o: Path): Path { o + ["workspace.md"] }
  function ConstitutionDoc(o: Path): Path { o + ["constitution.md"] }
  function ClaudeDir(o: Path): Path { o + [".claude"] }
  function HooksDir(o: Path): Path { o + [".claude", "hooks"] }
  function SettingsPath(o: Path): Path { o + [".claude", "settings.json"] }
  function TemplatesDir(o: Path): Path { o + ["templates"] }
  function AgentContextPath(o: Path): Path { o + ["CLAUDE.md"] }
  function PlansDir(o: Path): Path { o + ["plans"] }
  function PlanTemplatePath(o: Path): Path { o + ["plans", "_TEMPLATE.md"] }
  function SessionsDir(o: Path): Path { o + [".sessions"] }
  function E2eDir(o: Path): Path { o + ["e2e"] }

  /** The directories `mkdirp` creates for the `e2e/` tree, in source order. */
  function E2eLeaves(o: Path): seq<Path> {
    [o + ["e2e", "tests"], o + ["e2e", "chrome", "scenarios"], o + ["e2e", "chrome", "screenshots"],
     o + ["e2e", "chrome", "gifs"], o + ["e2e", "reports"]]
  }

  /** `p` is one of the `e2e/` leaves or an ancestor of one. */
  predicate OnE2ePath(p: Path, o: Path) {
    exists i :: 0 <= i < 5 && IsPrefix(p, E2eLeaves(o)[i])
  }

  /** Hook scripts and templates in the package tree (`global-skills/`). */
  const PkgHooks: Path := ["hooks"]
  const PkgTemplates: Path := ["templates"]

  function ObsoleteNames(): set<string> {
    set n | n in Hooks.ObsoleteHooks
  }

  function HookNames(pkg: FileMap): set<string> {
    FilesEndingWith(pkg, PkgHooks, ".sh")
  }

  function TemplateNames(pkg: FileMap): set<string> {
    FilesEndingWith(pkg, PkgTemplates, ".md")
  }

  // ---------------------------------------------------------------- findOrchDir

  /**
   * The orchestrator directory seen from `cwd`: `cwd` itself when it holds
   * `workspace.md`, else `cwd/orchestrator` when that does, else none.
   */
  function FindOrchDir(fs: FileMap, cwd: Path): (o: Option<Path>)
    ensures o.Some? ==> WorkspaceDoc(o.value) in fs
    ensures o.None? <==> WorkspaceDoc(cwd) !in fs && WorkspaceDoc(cwd + ["orchestrator"]) !in fs
    ensures o.Some? ==> o.value == cwd || o.value == cwd + ["orchestrator"]
    ensures WorkspaceDoc(cwd) in fs ==> o == Some(cwd)
  {
    if WorkspaceDoc(cwd) in fs then Some(cwd)
    else if WorkspaceDoc(cwd + ["orchestrator"]) in fs then Some(cwd + ["orchestrator"])
    else None
  }

  // ---------------------------------------------------------------- the run, in source order

  /** The e2e tree: five recursive `mkdirSync` calls. */
  function MakeE2e(fs: FileMap, o: Path): FileMap {
    var l := E2eLeaves(o);
    MkdirAll(MkdirAll(MkdirAll(MkdirAll(MkdirAll(fs, l[0]), l[1]), l[2]), l[3]), l[4])
  }

  lemma MakeE2eAt(fs: FileMap, o: Path)
    ensures forall q :: Get(MakeE2e(fs, o), q) ==
              if q in fs then Some(fs[q]) else if OnE2ePath(q, o) then Some(Dir) else None
  {
    var l := E2eLeaves(o);
    forall q
      ensures Get(MakeE2e(fs, o), q) == if q in fs then Some(fs[q]) else if OnE2ePath(q, o) then Some(Dir) else None
    {
      if OnE2ePath(q, o) {
        var i :| 0 <= i < 5 && IsPrefix(q, l[i]);
      }
      assert OnE2ePath(q, o) <==>
        IsPrefix(q, l[0]) || IsPrefix(q, l[1]) || IsPrefix(q, l[2]) || IsPrefix(q, l[3]) || IsPrefix(q, l[4]);
    }
  }

  /** Hooks: the obsolete scripts removed, then every `.sh` of the package copied in with mode 0755. */
  function SyncHooks(fs: FileMap, pkg: FileMap, o: Path): (r: FileMap)
    ensures forall q :: Get(r, q) ==
              var h := HooksDir(o);
              if h in fs && PkgHooks in pkg && InDir(q, h, HookNames(pkg))
              then Some(File(pkg[PkgHooks + [q[|h|]]].content, ExecMode))
              else if h in fs && InDir(q, h, ObsoleteNames()) then None
              else Get(fs, q)
  {
    var h := HooksDir(o);
    var f1 := if h in fs then RemoveNames(fs, h, ObsoleteNames()) else fs;
    if h in fs && PkgHooks in pkg then CopyNames(f1, pkg, PkgHooks, h, HookNames(pkg), Some(ExecMode)) else f1
  }

  /** `settings.json` rewritten when `.claude/` exists. */
  function RegenerateSettings(fs: FileMap, o: Path): (r: FileMap)
    ensures forall q :: Get(r, q) ==
              if ClaudeDir(o) in fs && q == SettingsPath(o)
              then Some(File(SettingsDoc(Hooks.GenerateSettings()), WrittenMode(fs, q)))
              else Get(fs, q)
  {
    if ClaudeDir(o) in fs then Write(fs, SettingsPath(o), SettingsDoc(Hooks.GenerateSettings())) else fs
  }

  /** Every `.md` template of the package copied in, when both template directories exist. */
  function SyncTemplates(fs: FileMap, pkg: FileMap, o: Path): (r: FileMap)
    ensures forall q :: Get(r, q) ==
              var t := TemplatesDir(o);
              if PkgTemplates in pkg && t in fs && InDir(q, t, TemplateNames(pkg))
              then Some(pkg[PkgTemplates + [q[|t|]]])
              else Get(fs, q)
  {
    if PkgTemplates in pkg && TemplatesDir(o) in fs
    then CopyNames(fs, pkg, PkgTemplates, TemplatesDir(o), TemplateNames(pkg), None) else fs
  }

  /** `plans/_TEMPLATE.md` rewritten when `plans/` exists. */
  function RegeneratePlanTemplate(fs: FileMap, o: Path): (r: FileMap)
    ensures forall q :: Get(r, q) ==
              if PlansDir(o) in fs && q == PlanTemplatePath(o) then Some(File(PlanTemplate, WrittenMode(fs, q)))
              else Get(fs, q)
  {
    if PlansDir(o) in fs then Write(fs, PlanTemplatePath(o), PlanTemplate) else fs
  }

  /** `.sessions/` created when missing. */
  function EnsureSessions(fs: FileMap, o: Path): (r: FileMap)
    ensures forall q :: Get(r, q) ==
              if q !in fs && SessionsDir(o) !in fs && IsPrefix(q, SessionsDir(o)) then Some(Dir) else Get(fs, q)
  {
    if SessionsDir(o) !in fs then MkdirAll(fs, SessionsDir(o)) else fs
  }

  /** The `e2e/` tree created when `e2e/` is missing. */
  function EnsureE2e(fs: FileMap, o: Path): (r: FileMap)
    ensures forall q :: Get(r, q) ==
              if q !in fs && E2eDir(o) !in fs && OnE2ePath(q, o) then Some(Dir) else Get(fs, q)
  {
    MakeE2eAt(fs, o);
    if E2eDir(o) !in fs then MakeE2e(fs, o) else fs
  }

  /** The phases that regenerate artifacts: hooks, settings, templates, `CLAUDE.md`, the plan template. */
  function Generated(fs: FileMap, pkg: FileMap, o: Path, version: string): FileMap {
    var f2 := SyncHooks(fs, pkg, o);
    var f3 := RegenerateSettings(f2, o);
    var f4 := SyncTemplates(f3, pkg, o);
    var f5 := Write(f4, AgentContextPath(o), AgentContext(version));
    RegeneratePlanTemplate(f5, o)
  }

  /** The effect of `updateLocal` on orchestrator directory `o`, phase by phase as the source runs. */
  function UpdateSteps(fs: FileMap, pkg: FileMap, o: Path, version: string): FileMap {
    EnsureE2e(EnsureSessions(Generated(fs, pkg, o, version), o), o)
  }

  // ---------------------------------------------------------------- the classification

  /** How the synchroniser treats a path. */
  datatype Artifact =
    | HookScript(name: string)  // generated: copied from the package, mode 0755
    | ObsoleteHook              // obsolete: removed
    | SettingsFile              // generated: the hook registration document
    | Template(name: string)    // generated: copied from the package
    | AgentContextFile          // generated: `CLAUDE.md`
    | PlanTemplateFile          // generated: `plans/_TEMPLATE.md`
    | ScaffoldDir               // scaffold: created when missing
    | Preserved                 // everything else, `workspace.md` and `constitution.md` included

  function Classify(fs: FileMap, pkg: FileMap, o: Path, p: Path): Artifact {
    var h := HooksDir(o);
    if h in fs && PkgHooks in pkg && InDir(p, h, HookNames(pkg)) then HookScript(p[|h|])
    else if h in fs && InDir(p, h, ObsoleteNames()) then ObsoleteHook
    else if ClaudeDir(o) in fs && p == SettingsPath(o) then SettingsFile
    else if PkgTemplates in pkg && TemplatesDir(o) in fs && InDir(p, TemplatesDir(o), TemplateNames(pkg))
    then Template(p[|TemplatesDir(o)|])
    else if p == AgentContextPath(o) then AgentContextFile
    else if PlansDir(o) in fs && p == PlanTemplatePath(o) then PlanTemplateFile
    else if p !in fs && ((SessionsDir(o) !in fs && IsPrefix(p, SessionsDir(o))) ||
                         (E2eDir(o) !in fs && OnE2ePath(p, o)))
    then ScaffoldDir
    else Preserved
  }

  /** What `updateLocal` leaves at `p`, read off its classification. */
  function SyncedAt(fs: FileMap, pkg: FileMap, o: Path, version: string, p: Path): Option<Entry> {
    match Classify(fs, pkg, o, p)
    case HookScript(n) => Some(File(pkg[PkgHooks + [n]].content, ExecMode))
    case ObsoleteHook => None
    case SettingsFile => Some(File(SettingsDoc(Hooks.GenerateSettings()), WrittenMode(fs, p)))
    case Template(n) => Some(pkg[PkgTemplates + [n]])
    case AgentContextFile => Some(File(AgentContext(version), WrittenMode(fs, p)))
    case PlanTemplateFile => Some(File(PlanTemplate, WrittenMode(fs, p)))
    case ScaffoldDir => Some(Dir)
    case Preserved => Get(fs, p)
  }

  /** Every path the run may create. */
  function Introduced(pkg: FileMap, o: Path): set<Path> {
    (set n | n in HookNames(pkg) :: HooksDir(o) + [n])
    + (set n | n in TemplateNames(pkg) :: TemplatesDir(o) + [n])
    + {SettingsPath(o), AgentContextPath(o), PlanTemplatePath(o)}
    + ScaffoldPaths(o)
  }

  /** `.sessions/`, the `e2e/` tree and their ancestors. */
  function ScaffoldPaths(o: Path): (r: set<Path>)
    ensures forall q :: q in r <==> IsPrefix(q, SessionsDir(o)) || OnE2ePath(q, o)
  {
    var l := E2eLeaves(o);
    var r := Prefixes(SessionsDir(o)) + Prefixes(l[0]) + Prefixes(l[1]) + Prefixes(l[2]) + Prefixes(l[3]) + Prefixes(l[4]);
    assert forall q :: OnE2ePath(q, o) <==>
      IsPrefix(q, l[0]) || IsPrefix(q, l[1]) || IsPrefix(q, l[2]) || IsPrefix(q, l[3]) || IsPrefix(q, l[4]);
    r
  }

  /** The filesystem after `updateLocal`, path by path. */
  function Synced(fs: FileMap, pkg: FileMap, o: Path, version: string): (r: FileMap)
    ensures forall p :: Get(r, p) == SyncedAt(fs, pkg, o, version, p)
  {
    var r := map p | p in fs.Keys + Introduced(pkg, o) && SyncedAt(fs, pkg, o, version, p).Some?
                   :: SyncedAt(fs, pkg, o, version, p).value;
    SyncedDomain(fs, pkg, o, version);
    r
  }

  lemma SyncedDomain(fs: FileMap, pkg: FileMap, o: Path, version: string)
    ensures forall p :: SyncedAt(fs, pkg, o, version, p).Some? ==> p in fs.Keys + Introduced(pkg, o)
  {
    forall p | SyncedAt(fs, pkg, o, version, p).Some?
      ensures p in fs.Keys + Introduced(pkg, o)
    {
      var a := Classify(fs, pkg, o, p);
      if a.HookScript? || a.Template? {
        CopiedIntroduced(fs, pkg, o, p);
      } else if a.ScaffoldDir? {
        ScaffoldIntroduced(pkg, o, p);
      } else {
        assert a.Preserved? ==> p in fs;
      }
    }
  }

  lemma CopiedIntroduced(fs: FileMap, pkg: FileMap, o: Path, p: Path)
    requires Classify(fs, pkg, o, p).HookScript? || Classify(fs, pkg, o, p).Template?
    ensures p in Introduced(pkg, o)
  {
    var h := HooksDir(o);
    var t := TemplatesDir(o);
    if Classify(fs, pkg, o, p).HookScript? {
      var n := p[|h|];
      assert p == h + [n] && n in HookNames(pkg);
      assert p in (set n | n in HookNames(pkg) :: HooksDir(o) + [n]);
    } else {
      var n := p[|t|];
      assert p == t + [n] && n in TemplateNames(pkg);
      assert p in (set n | n in TemplateNames(pkg) :: TemplatesDir(o) + [n]);
    }
  }

  lemma ScaffoldIntroduced(pkg: FileMap, o: Path, p: Path)
    requires IsPrefix(p, SessionsDir(o)) || OnE2ePath(p, o)
    ensures p in Introduced(pkg, o)
  {
    assert p in ScaffoldPaths(o);
  }

  /** `p` lies below `o`, in the entry `name` of `o`. */
  predicate Under(p: Path, o: Path, name: string) {
    |p| > |o| && p[..|o|] == o && p[|o|] == name
  }

  /** Where each managed path lies. */
  lemma Regions(o: Path, p: Path, names: set<string>)
    ensures InDir(p, HooksDir(o), names) ==> Under(p, o, ".claude")
    ensures p == SettingsPath(o) ==> Under(p, o, ".claude")
    ensures InDir(p, TemplatesDir(o), names) ==> Under(p, o, "templates")
    ensures p == AgentContextPath(o) ==> Under(p, o, "CLAUDE.md")
    ensures p == PlanTemplatePath(o) ==> Under(p, o, "plans")
    ensures IsPrefix(p, SessionsDir(o)) ==>
              !Under(p, o, ".claude") && !Under(p, o, "templates") && !Under(p, o, "CLAUDE.md") && !Under(p, o, "plans")
    ensures OnE2ePath(p, o) ==>
              !Under(p, o, ".claude") && !Under(p, o, "templates") && !Under(p, o, "CLAUDE.md") && !Under(p, o, "plans")
  {
    if InDir(p, HooksDir(o), names) {
      assert p[..|o|] == HooksDir(o)[..|o|];
    }
    if InDir(p, TemplatesDir(o), names) {
      assert p[..|o|] == TemplatesDir(o)[..|o|];
    }
    if IsPrefix(p, SessionsDir(o)) && |p| > |o| {
      assert p[|o|] == SessionsDir(o)[|o|];
    }
    if OnE2ePath(p, o) {
      var i :| 0 <= i < 5 && IsPrefix(p, E2eLeaves(o)[i]);
      if |p| > |o| {
        assert p[|o|] == E2eLeaves(o)[i][|o|];
      }
    }
  }

  /** The scaffold phases touch nothing inside the four managed entries of `o`. */
  lemma ScaffoldPhasesSkip(fs: FileMap, o: Path, p: Path)
    requires Under(p, o, ".claude") || Under(p, o, "templates") || Under(p, o, "CLAUDE.md") || Under(p, o, "plans")
    ensures Get(EnsureE2e(EnsureSessions(fs, o), o), p) == Get(fs, p)
  {
    Regions(o, p, {});
  }

  /** What the scaffold phases leave at a path outside the four managed entries. */
  lemma ScaffoldPhasesAt(fs: FileMap, o: Path, p: Path)
    ensures Get(EnsureE2e(EnsureSessions(fs, o), o), p) ==
              if p !in fs && ((SessionsDir(o) !in fs && IsPrefix(p, SessionsDir(o))) || (E2eDir(o) !in fs && OnE2ePath(p, o)))
              then Some(Dir) else Get(fs, p)
  {
    assert E2eDir(o)[|o|] != SessionsDir(o)[|o|];
    assert !IsPrefix(E2eDir(o), SessionsDir(o));
    assert Get(EnsureSessions(fs, o), E2eDir(o)) == Get(fs, E2eDir(o));
  }

  /** The phases before the scaffold ones touch only the four managed entries of `o`. */
  lemma GeneratedPhasesSkip(fs: FileMap, pkg: FileMap, o: Path, version: string, p: Path)
    requires !Under(p, o, ".claude") && !Under(p, o, "templates") && !Under(p, o, "CLAUDE.md") && !Under(p, o, "plans")
    ensures Get(Generated(fs, pkg, o, version), p) == Get(fs, p)
  {
    Regions(o, p, HookNames(pkg));
    Regions(o, p, TemplateNames(pkg));
    Regions(o, p, ObsoleteNames());
  }

  /** The run in source order ends where the classification says, at every path. */
  lemma StepsAt(fs: FileMap, pkg: FileMap, o: Path, version: string, p: Path)
    ensures Get(UpdateSteps(fs, pkg, o, version), p) == SyncedAt(fs, pkg, o, version, p)
  {
    if Under(p, o, ".claude") || Under(p, o, "templates") || Under(p, o, "CLAUDE.md") || Under(p, o, "plans") {
      StepsManaged(fs, pkg, o, version, p);
    } else {
      StepsOutside(fs, pkg, o, version, p);
    }
  }

  /** Inside the four managed entries only the regenerating phases act. */
  lemma StepsManaged(fs: FileMap, pkg: FileMap, o: Path, version: string, p: Path)
    requires Under(p, o, ".claude") || Under(p, o, "templates") || Under(p, o, "CLAUDE.md") || Under(p, o, "plans")
    ensures Get(UpdateSteps(fs, pkg, o, version), p) == SyncedAt(fs, pkg, o, version, p)
  {
    var f6 := Generated(fs, pkg, o, version);
    ScaffoldPhasesSkip(f6, o, p);
    assert Get(f6, p) == SyncedAt(fs, pkg, o, version, p) by {
      GeneratedAt(fs, pkg, o, version, p);
    }
  }

  lemma GeneratedAt(fs: FileMap, pkg: FileMap, o: Path, version: string, p: Path)
    requires Under(p, o, ".claude") || Under(p, o, "templates") || Under(p, o, "CLAUDE.md") || Under(p, o, "plans")
    ensures Get(Generated(fs, pkg, o, version), p) == SyncedAt(fs, pkg, o, version, p)
  {
    if Under(p, o, ".claude") {
      AtClaude(fs, pkg, o, version, p);
    } else if Under(p, o, "templates") {
      AtTemplates(fs, pkg, o, version, p);
    } else if Under(p, o, "CLAUDE.md") {
      AtAgentContext(fs, pkg, o, version, p);
    } else {
      AtPlans(fs, pkg, o, version, p);
    }
  }

  /** Outside them only the scaffold phases act. */
  lemma StepsOutside(fs: FileMap, pkg: FileMap, o: Path, version: string, p: Path)
    requires !Under(p, o, ".claude") && !Under(p, o, "templates") && !Under(p, o, "CLAUDE.md") && !Under(p, o, "plans")
    ensures Get(UpdateSteps(fs, pkg, o, version), p) == SyncedAt(fs, pkg, o, version, p)
  {
    // The scaffold entries themselves are not touched by the earlier phases.
    var s, e := SessionsDir(o), E2eDir(o);
    assert Under(s, o, ".sessions") && Under(e, o, "e2e");
    GeneratedPhasesSkip(fs, pkg, o, version, p);
    GeneratedPhasesSkip(fs, pkg, o, version, s);
    GeneratedPhasesSkip(fs, pkg, o, version, e);
    ScaffoldAfter(Generated(fs, pkg, o, version), fs, o, p);
    SyncedAtScaffold(fs, pkg, o, version, p);
  }

  /** Where the earlier phases left `p`, `.sessions/` and `e2e/` alone, the scaffold phases act on them as on `fs`. */
  lemma ScaffoldAfter(f6: FileMap, fs: FileMap, o: Path, p: Path)
    requires Get(f6, p) == Get(fs, p)
    requires Get(f6, SessionsDir(o)) == Get(fs, SessionsDir(o)) && Get(f6, E2eDir(o)) == Get(fs, E2eDir(o))
    ensures Get(EnsureE2e(EnsureSessions(f6, o), o), p) ==
              if p !in fs && ((SessionsDir(o) !in fs && IsPrefix(p, SessionsDir(o))) || (E2eDir(o) !in fs && OnE2ePath(p, o)))
              then Some(Dir) else Get(fs, p)
  {
    ScaffoldPhasesAt(f6, o, p);
  }

  /** Outside the four managed entries the classification is the scaffold rule. */
  lemma SyncedAtScaffold(fs: FileMap, pkg: FileMap, o: Path, version: string, p: Path)
    requires !Under(p, o, ".claude") && !Under(p, o, "templates") && !Under(p, o, "CLAUDE.md") && !Under(p, o, "plans")
    ensures SyncedAt(fs, pkg, o, version, p) ==
              if p !in fs && ((SessionsDir(o) !in fs && IsPrefix(p, SessionsDir(o))) || (E2eDir(o) !in fs && OnE2ePath(p, o)))
              then Some(Dir) else Get(fs, p)
  {
    AtScaffold(fs, pkg, o, p);
  }

  lemma AtScaffold(fs: FileMap, pkg: FileMap, o: Path, p: Path)
    requires !Under(p, o, ".claude") && !Under(p, o, "templates") && !Under(p, o, "CLAUDE.md") && !Under(p, o, "plans")
    ensures Classify(fs, pkg, o, p) ==
              if p !in fs && ((SessionsDir(o) !in fs && IsPrefix(p, SessionsDir(o))) || (E2eDir(o) !in fs && OnE2ePath(p, o)))
              then ScaffoldDir else Preserved
  {
    Regions(o, p, HookNames(pkg));
    Regions(o, p, TemplateNames(pkg));
    Regions(o, p, ObsoleteNames());
  }

  lemma AtClaude(fs: FileMap, pkg: FileMap, o: Path, version: string, p: Path)
    requires Under(p, o, ".claude")
    ensures Get(Generated(fs, pkg, o, version), p) == SyncedAt(fs, pkg, o, version, p)
  {
    var f3 := RegenerateSettings(SyncHooks(fs, pkg, o), o);
    LatePhasesSkipClaude(f3, pkg, o, version, p);
    EarlyPhasesAtClaude(fs, pkg, o, p);
    Regions(o, p, {});
  }

  /** Templates, `CLAUDE.md` and the plan template lie outside `.claude/`. */
  lemma LatePhasesSkipClaude(f3: FileMap, pkg: FileMap, o: Path, version: string, p: Path)
    requires Under(p, o, ".claude")
    ensures Get(RegeneratePlanTemplate(Write(SyncTemplates(f3, pkg, o), AgentContextPath(o), AgentContext(version)), o), p)
            == Get(f3, p)
  {
    Regions(o, p, TemplateNames(pkg));
  }

  /** Inside `.claude/` the hook and settings phases do what the classification says. */
  lemma EarlyPhasesAtClaude(fs: FileMap, pkg: FileMap, o: Path, p: Path)
    ensures Get(RegenerateSettings(SyncHooks(fs, pkg, o), o), p) ==
              var h := HooksDir(o);
              if h in fs && PkgHooks in pkg && InDir(p, h, HookNames(pkg))
              then Some(File(pkg[PkgHooks + [p[|h|]]].content, ExecMode))
              else if h in fs && InDir(p, h, ObsoleteNames()) then None
              else if ClaudeDir(o) in fs && p == SettingsPath(o)
              then Some(File(SettingsDoc(Hooks.GenerateSettings()), WrittenMode(fs, p)))
              else Get(fs, p)
  {
    var f2 := SyncHooks(fs, pkg, o);
    assert Get(f2, ClaudeDir(o)) == Get(fs, ClaudeDir(o));
    assert SettingsPath(o)[|o| + 1] != HooksDir(o)[|o| + 1];
    assert Get(f2, SettingsPath(o)) == Get(fs, SettingsPath(o));
  }

  /** Outside `.claude/` the hook and settings phases change nothing. */
  lemma EarlyPhasesSkip(fs: FileMap, pkg: FileMap, o: Path, p: Path)
    requires !Under(p, o, ".claude")
    ensures Get(RegenerateSettings(SyncHooks(fs, pkg, o), o), p) == Get(fs, p)
  {
    Regions(o, p, HookNames(pkg));
    Regions(o, p, ObsoleteNames());
  }

  /** Outside `templates/` the template phase changes nothing. */
  lemma TemplatesPhaseSkip(f3: FileMap, pkg: FileMap, o: Path, p: Path)
    requires !Under(p, o, "templates")
    ensures Get(SyncTemplates(f3, pkg, o), p) == Get(f3, p)
  {
    Regions(o, p, TemplateNames(pkg));
  }

  lemma AtTemplates(fs: FileMap, pkg: FileMap, o: Path, version: string, p: Path)
    requires Under(p, o, "templates")
    ensures Get(Generated(fs, pkg, o, version), p) == SyncedAt(fs, pkg, o, version, p)
  {
    var t := TemplatesDir(o);
    assert Under(t, o, "templates");
    var f3 := RegenerateSettings(SyncHooks(fs, pkg, o), o);
    var f4 := SyncTemplates(f3, pkg, o);
    EarlyPhasesSkip(fs, pkg, o, p);
    EarlyPhasesSkip(fs, pkg, o, t);
    assert Get(Generated(fs, pkg, o, version), p) == Get(f4, p) by {
      Regions(o, p, {});
    }
    assert SyncedAt(fs, pkg, o, version, p) ==
             if PkgTemplates in pkg && t in fs && InDir(p, t, TemplateNames(pkg))
             then Some(pkg[PkgTemplates + [p[|t|]]]) else Get(fs, p) by {
      SyncedAtTemplates(fs, pkg, o, version, p);
    }
  }

  lemma SyncedAtTemplates(fs: FileMap, pkg: FileMap, o: Path, version: string, p: Path)
    requires Under(p, o, "templates")
    ensures var t := TemplatesDir(o);
            SyncedAt(fs, pkg, o, version, p) ==
              if PkgTemplates in pkg && t in fs && InDir(p, t, TemplateNames(pkg))
              then Some(pkg[PkgTemplates + [p[|t|]]]) else Get(fs, p)
  {
    Regions(o, p, HookNames(pkg));
    Regions(o, p, ObsoleteNames());
  }

  lemma AtAgentContext(fs: FileMap, pkg: FileMap, o: Path, version: string, p: Path)
    requires Under(p, o, "CLAUDE.md")
    ensures Get(Generated(fs, pkg, o, version), p) == SyncedAt(fs, pkg, o, version, p)
  {
    var f3 := RegenerateSettings(SyncHooks(fs, pkg, o), o);
    var f4 := SyncTemplates(f3, pkg, o);
    EarlyPhasesSkip(fs, pkg, o, p);
    TemplatesPhaseSkip(f3, pkg, o, p);
    assert Get(Generated(fs, pkg, o, version), p) == Get(Write(f4, AgentContextPath(o), AgentContext(version)), p) by {
      Regions(o, p, {});
    }
    assert SyncedAt(fs, pkg, o, version, p) ==
             if p == AgentContextPath(o) then Some(File(AgentContext(version), WrittenMode(fs, p))) else Get(fs, p) by {
      SyncedAtAgentContext(fs, pkg, o, version, p);
    }
  }

  lemma SyncedAtAgentContext(fs: FileMap, pkg: FileMap, o: Path, version: string, p: Path)
    requires Under(p, o, "CLAUDE.md")
    ensures SyncedAt(fs, pkg, o, version, p) ==
              if p == AgentContextPath(o) then Some(File(AgentContext(version), WrittenMode(fs, p))) else Get(fs, p)
  {
    Regions(o, p, HookNames(pkg));
    Regions(o, p, TemplateNames(pkg));
    Regions(o, p, ObsoleteNames());
  }

  lemma AtPlans(fs: FileMap, pkg: FileMap, o: Path, version: string, p: Path)
    requires Under(p, o, "plans")
    ensures Get(Generated(fs, pkg, o, version), p) == SyncedAt(fs, pkg, o, version, p)
  {
    var pl := PlansDir(o);
    assert Under(pl, o, "plans");
    EarlyPhasesSkipPlans(fs, pkg, o, version, p);
    EarlyPhasesSkipPlans(fs, pkg, o, version, pl);
    assert SyncedAt(fs, pkg, o, version, p) ==
             if pl in fs && p == PlanTemplatePath(o) then Some(File(PlanTemplate, WrittenMode(fs, p))) else Get(fs, p) by {
      SyncedAtPlans(fs, pkg, o, version, p);
    }
  }

  lemma SyncedAtPlans(fs: FileMap, pkg: FileMap, o: Path, version: string, p: Path)
    requires Under(p, o, "plans")
    ensures SyncedAt(fs, pkg, o, version, p) ==
              if PlansDir(o) in fs && p == PlanTemplatePath(o) then Some(File(PlanTemplate, WrittenMode(fs, p))) else Get(fs, p)
  {
    Regions(o, p, HookNames(pkg));
    Regions(o, p, TemplateNames(pkg));
    Regions(o, p, ObsoleteNames());
  }

  /** Hooks, settings, templates and `CLAUDE.md` lie outside `plans/`. */
  lemma EarlyPhasesSkipPlans(fs: FileMap, pkg: FileMap, o: Path, version: string, p: Path)
    requires Under(p, o, "plans")
    ensures Get(Write(SyncTemplates(RegenerateSettings(SyncHooks(fs, pkg, o), o), pkg, o), AgentContextPath(o), AgentContext(version)), p)
            == Get(fs, p)
  {
    EarlyPhasesSkip(fs, pkg, o, p);
    TemplatesPhaseSkip(RegenerateSettings(SyncHooks(fs, pkg, o), o), pkg, o, p);
    Regions(o, p, {});
  }

  /** The run in source order is the classification. */
  lemma UpdateIsClassified(fs: FileMap, pkg: FileMap, o: Path, version: string)
    ensures UpdateSteps(fs, pkg, o, version) == Synced(fs, pkg, o, version)
  {
    forall p
      ensures Get(UpdateSteps(fs, pkg, o, version), p) == Get(Synced(fs, pkg, o, version), p)
    {
      StepsAt(fs, pkg, o, version, p);
    }
    Extensional(UpdateSteps(fs, pkg, o, version), Synced(fs, pkg, o, version));
  }

  // ---------------------------------------------------------------- what the run promises

  /**
   * The lemmas below each come in two forms: one about `Synced(...)`, and one
   * (suffixed `At`) about any map `g` that agrees with the classification at
   * every path, which carries the proof.
   */
  ghost predicate Agrees(g: FileMap, fs: FileMap, pkg: FileMap, o: Path, version: string) {
    forall p :: Get(g, p) == SyncedAt(fs, pkg, o, version, p)
  }

  lemma SyncedAgrees(fs: FileMap, pkg: FileMap, o: Path, version: string)
    ensures Agrees(Synced(fs, pkg, o, version), fs, pkg, o, version)
  {
  }

  /** A preserved path keeps its entry. */
  lemma PreservedAt(g: FileMap, fs: FileMap, pkg: FileMap, o: Path, version: string, p: Path)
    requires Agrees(g, fs, pkg, o, version) && Classify(fs, pkg, o, p) == Preserved
    ensures Get(g, p) == Get(fs, p)
  {
  }

  /** Outside `.claude/`, `templates/`, `CLAUDE.md`, `plans/` and the scaffold paths nothing changes. */
  lemma NothingElseChanges(fs: FileMap, pkg: FileMap, o: Path, version: string, p: Path)
    requires !Under(p, o, ".claude") && !Under(p, o, "templates") && !Under(p, o, "CLAUDE.md") && !Under(p, o, "plans")
    requires p !in ScaffoldPaths(o)
    ensures Get(Synced(fs, pkg, o, version), p) == Get(fs, p)
  {
    SyncedAgrees(fs, pkg, o, version);
    assert Classify(fs, pkg, o, p) == Preserved by {
      AtScaffold(fs, pkg, o, p);
    }
    PreservedAt(Synced(fs, pkg, o, version), fs, pkg, o, version, p);
  }

  /** `workspace.md` and `constitution.md` are never touched. */
  lemma PreservesDocuments(fs: FileMap, pkg: FileMap, o: Path, version: string)
    ensures Get(Synced(fs, pkg, o, version), WorkspaceDoc(o)) == Get(fs, WorkspaceDoc(o))
    ensures Get(Synced(fs, pkg, o, version), ConstitutionDoc(o)) == Get(fs, ConstitutionDoc(o))
  {
    var w, c := WorkspaceDoc(o), ConstitutionDoc(o);
    assert Classify(fs, pkg, o, w) == Preserved by {
      DocumentClassify(fs, pkg, o, w);
    }
    assert Classify(fs, pkg, o, c) == Preserved by {
      DocumentClassify(fs, pkg, o, c);
    }
    SyncedAgrees(fs, pkg, o, version);
    PreservedAt(Synced(fs, pkg, o, version), fs, pkg, o, version, w);
    PreservedAt(Synced(fs, pkg, o, version), fs, pkg, o, version, c);
  }

  lemma DocumentClassify(fs: FileMap, pkg: FileMap, o: Path, d: Path)
    requires d == WorkspaceDoc(o) || d == ConstitutionDoc(o)
    ensures Classify(fs, pkg, o, d) == Preserved
  {
    assert d[|o|] == "workspace.md" || d[|o|] == "constitution.md";
    Regions(o, d, {});
    assert !IsPrefix(d, SessionsDir(o));
    NotOnE2ePath(o, d);
    AtScaffold(fs, pkg, o, d);
  }

  /** A direct child of `o` other than `e2e` is not on the `e2e/` tree. */
  lemma NotOnE2ePath(o: Path, p: Path)
    requires |p| == |o| + 1 && p[..|o|] == o && p[|o|] != "e2e"
    ensures !OnE2ePath(p, o)
  {
    forall i | 0 <= i < 5
      ensures !IsPrefix(p, E2eLeaves(o)[i])
    {
      assert E2eLeaves(o)[i][|o|] == "e2e";
    }
  }

  /**
   * When `.claude/hooks/` exists, a hook name ends up as follows: a `.sh`
   * file of the package is copied in with mode 0755; otherwise an obsolete
   * name is removed; any other entry is left alone.
   */
  lemma HooksSynced(fs: FileMap, pkg: FileMap, o: Path, version: string, n: string)
    requires HooksDir(o) in fs && TreeShaped(pkg)
    ensures var q := HooksDir(o) + [n];
            Get(Synced(fs, pkg, o, version), q) ==
              if IsFile(pkg, PkgHooks + [n]) && EndsWith(n, ".sh") then Some(File(pkg[PkgHooks + [n]].content, ExecMode))
              else if n in Hooks.ObsoleteHooks then None
              else Get(fs, q)
  {
    SyncedAgrees(fs, pkg, o, version);
    HooksAt(Synced(fs, pkg, o, version), fs, pkg, o, version, n);
  }

  lemma HooksAt(g: FileMap, fs: FileMap, pkg: FileMap, o: Path, version: string, n: string)
    requires Agrees(g, fs, pkg, o, version)
    requires HooksDir(o) in fs && TreeShaped(pkg)
    ensures var q := HooksDir(o) + [n];
            Get(g, q) ==
              if IsFile(pkg, PkgHooks + [n]) && EndsWith(n, ".sh") then Some(File(pkg[PkgHooks + [n]].content, ExecMode))
              else if n in Hooks.ObsoleteHooks then None
              else Get(fs, q)
  {
    if IsFile(pkg, PkgHooks + [n]) {
      assert Parent(PkgHooks + [n]) == PkgHooks;
    }
    var q := HooksDir(o) + [n];
    assert Get(g, q) == SyncedAt(fs, pkg, o, version, q);
    HookClassify(fs, pkg, o, n);
  }

  lemma HookClassify(fs: FileMap, pkg: FileMap, o: Path, n: string)
    requires HooksDir(o) in fs
    ensures var q := HooksDir(o) + [n];
            Classify(fs, pkg, o, q) ==
              if PkgHooks in pkg && n in HookNames(pkg) then HookScript(n)
              else if n in Hooks.ObsoleteHooks then ObsoleteHook
              else Preserved
  {
    var h := HooksDir(o);
    var q := h + [n];
    assert q[..|h|] == h && q[|h|] == n;
    Regions(o, q, {});
  }

  /** `settings.json` is the generated document exactly when `.claude/` exists. */
  lemma SettingsSynced(fs: FileMap, pkg: FileMap, o: Path, version: string)
    ensures Get(Synced(fs, pkg, o, version), SettingsPath(o)) ==
              if ClaudeDir(o) in fs then Some(File(SettingsDoc(Hooks.GenerateSettings()), WrittenMode(fs, SettingsPath(o))))
              else Get(fs, SettingsPath(o))
  {
    SyncedAgrees(fs, pkg, o, version);
    SettingsAt(Synced(fs, pkg, o, version), fs, pkg, o, version);
  }

  lemma SettingsAt(g: FileMap, fs: FileMap, pkg: FileMap, o: Path, version: string)
    requires Agrees(g, fs, pkg, o, version)
    ensures Get(g, SettingsPath(o)) ==
              if ClaudeDir(o) in fs then Some(File(SettingsDoc(Hooks.GenerateSettings()), WrittenMode(fs, SettingsPath(o))))
              else Get(fs, SettingsPath(o))
  {
    assert Get(g, SettingsPath(o)) == SyncedAt(fs, pkg, o, version, SettingsPath(o));
    SettingsClassify(fs, pkg, o);
  }

  lemma SettingsClassify(fs: FileMap, pkg: FileMap, o: Path)
    ensures Classify(fs, pkg, o, SettingsPath(o)) == if ClaudeDir(o) in fs then SettingsFile else Preserved
  {
    var q := SettingsPath(o);
    Regions(o, q, {});
    assert !InDir(q, HooksDir(o), HookNames(pkg)) && !InDir(q, HooksDir(o), ObsoleteNames());
  }

  /**
   * When `templates/` exists, an `.md` file of the package's templates is
   * copied over the local one; any other entry there is left alone.
   */
  lemma TemplatesSynced(fs: FileMap, pkg: FileMap, o: Path, version: string, n: string)
    requires TreeShaped(pkg)
    ensures var q := TemplatesDir(o) + [n];
            Get(Synced(fs, pkg, o, version), q) ==
              if TemplatesDir(o) in fs && IsFile(pkg, PkgTemplates + [n]) && EndsWith(n, ".md") then Some(pkg[PkgTemplates + [n]])
              else Get(fs, q)
  {
    SyncedAgrees(fs, pkg, o, version);
    TemplatesAt(Synced(fs, pkg, o, version), fs, pkg, o, version, n);
  }

  lemma TemplatesAt(g: FileMap, fs: FileMap, pkg: FileMap, o: Path, version: string, n: string)
    requires Agrees(g, fs, pkg, o, version)
    requires TreeShaped(pkg)
    ensures var q := TemplatesDir(o) + [n];
            Get(g, q) ==
              if TemplatesDir(o) in fs && IsFile(pkg, PkgTemplates + [n]) && EndsWith(n, ".md") then Some(pkg[PkgTemplates + [n]])
              else Get(fs, q)
  {
    if IsFile(pkg, PkgTemplates + [n]) {
      assert Parent(PkgTemplates + [n]) == PkgTemplates;
    }
    var q := TemplatesDir(o) + [n];
    assert Get(g, q) == SyncedAt(fs, pkg, o, version, q);
    TemplateClassify(fs, pkg, o, n);
  }

  lemma TemplateClassify(fs: FileMap, pkg: FileMap, o: Path, n: string)
    ensures var q := TemplatesDir(o) + [n];
            Classify(fs, pkg, o, q) ==
              if PkgTemplates in pkg && TemplatesDir(o) in fs && n in TemplateNames(pkg) then Template(n) else Preserved
  {
    var t := TemplatesDir(o);
    var q := t + [n];
    assert q[..|t|] == t && q[|t|] == n;
    Regions(o, q, {});
    assert !InDir(q, HooksDir(o), HookNames(pkg)) && !InDir(q, HooksDir(o), ObsoleteNames());
  }

  /** `CLAUDE.md` is always rewritten with the package version. */
  lemma AgentContextSynced(fs: FileMap, pkg: FileMap, o: Path, version: string)
    ensures Get(Synced(fs, pkg, o, version), AgentContextPath(o)) == Some(File(AgentContext(version), WrittenMode(fs, AgentContextPath(o))))
  {
    SyncedAgrees(fs, pkg, o, version);
    AgentContextAt(Synced(fs, pkg, o, version), fs, pkg, o, version);
  }

  lemma AgentContextAt(g: FileMap, fs: FileMap, pkg: FileMap, o: Path, version: string)
    requires Agrees(g, fs, pkg, o, version)
    ensures Get(g, AgentContextPath(o)) == Some(File(AgentContext(version), WrittenMode(fs, AgentContextPath(o))))
  {
    assert Get(g, AgentContextPath(o)) == SyncedAt(fs, pkg, o, version, AgentContextPath(o));
    AgentContextClassify(fs, pkg, o);
  }

  lemma AgentContextClassify(fs: FileMap, pkg: FileMap, o: Path)
    ensures Classify(fs, pkg, o, AgentContextPath(o)) == AgentContextFile
  {
    var q := AgentContextPath(o);
    Regions(o, q, {});
    assert !InDir(q, HooksDir(o), HookNames(pkg)) && !InDir(q, HooksDir(o), ObsoleteNames());
    assert !InDir(q, TemplatesDir(o), TemplateNames(pkg));
  }

  /** `plans/_TEMPLATE.md` is rewritten exactly when `plans/` exists. */
  lemma PlanTemplateSynced(fs: FileMap, pkg: FileMap, o: Path, version: string)
    ensures Get(Synced(fs, pkg, o, version), PlanTemplatePath(o)) ==
              if PlansDir(o) in fs then Some(File(PlanTemplate, WrittenMode(fs, PlanTemplatePath(o))))
              else Get(fs, PlanTemplatePath(o))
  {
    SyncedAgrees(fs, pkg, o, version);
    PlanTemplateAt(Synced(fs, pkg, o, version), fs, pkg, o, version);
  }

  lemma PlanTemplateAt(g: FileMap, fs: FileMap, pkg: FileMap, o: Path, version: string)
    requires Agrees(g, fs, pkg, o, version)
    ensures Get(g, PlanTemplatePath(o)) ==
              if PlansDir(o) in fs then Some(File(PlanTemplate, WrittenMode(fs, PlanTemplatePath(o))))
              else Get(fs, PlanTemplatePath(o))
  {
    assert Get(g, PlanTemplatePath(o)) == SyncedAt(fs, pkg, o, version, PlanTemplatePath(o));
    PlanTemplateClassify(fs, pkg, o);
  }

  lemma PlanTemplateClassify(fs: FileMap, pkg: FileMap, o: Path)
    ensures Classify(fs, pkg, o, PlanTemplatePath(o)) == if PlansDir(o) in fs then PlanTemplateFile else Preserved
  {
    var q := PlanTemplatePath(o);
    Regions(o, q, {});
    assert !InDir(q, HooksDir(o), HookNames(pkg)) && !InDir(q, HooksDir(o), ObsoleteNames());
    assert !InDir(q, TemplatesDir(o), TemplateNames(pkg));
  }

  /** `.sessions/` exists afterwards; an existing one, and everything in it, is left alone. */
  lemma SessionsSynced(fs: FileMap, pkg: FileMap, o: Path, version: string, q: Path)
    requires IsPrefix(SessionsDir(o), q)
    ensures SessionsDir(o) !in fs ==> IsDir(Synced(fs, pkg, o, version), SessionsDir(o))
    ensures SessionsDir(o) in fs ==> Get(Synced(fs, pkg, o, version), q) == Get(fs, q)
  {
    SyncedAgrees(fs, pkg, o, version);
    SessionsAt(Synced(fs, pkg, o, version), fs, pkg, o, version, q);
  }

  lemma SessionsAt(g: FileMap, fs: FileMap, pkg: FileMap, o: Path, version: string, q: Path)
    requires Agrees(g, fs, pkg, o, version)
    requires IsPrefix(SessionsDir(o), q)
    ensures SessionsDir(o) !in fs ==> IsDir(g, SessionsDir(o))
    ensures SessionsDir(o) in fs ==> Get(g, q) == Get(fs, q)
  {
    var s := SessionsDir(o);
    if s !in fs {
      assert Classify(fs, pkg, o, s) == ScaffoldDir by {
        SessionsClassify(fs, pkg, o, s);
      }
      assert Get(g, s) == SyncedAt(fs, pkg, o, version, s) == Some(Dir);
    } else {
      assert Classify(fs, pkg, o, q) == Preserved by {
        SessionsClassify(fs, pkg, o, q);
      }
      assert Get(g, q) == SyncedAt(fs, pkg, o, version, q);
    }
  }

  /** Below `.sessions/` only the directory itself is scaffold, and only when it is missing. */
  lemma SessionsClassify(fs: FileMap, pkg: FileMap, o: Path, q: Path)
    requires IsPrefix(SessionsDir(o), q)
    ensures Classify(fs, pkg, o, q) == if q == SessionsDir(o) && q !in fs then ScaffoldDir else Preserved
  {
    assert q[|o|] == ".sessions";
    Regions(o, q, {});
    NotOnE2eBelow(o, q);
    AtScaffold(fs, pkg, o, q);
  }

  /** A path below a child of `o` other than `e2e` is not on the `e2e/` tree. */
  lemma NotOnE2eBelow(o: Path, q: Path)
    requires |q| > |o| && q[..|o|] == o && q[|o|] != "e2e"
    ensures !OnE2ePath(q, o)
  {
    forall i | 0 <= i < 5
      ensures !IsPrefix(q, E2eLeaves(o)[i])
    {
      assert E2eLeaves(o)[i][|o|] == "e2e";
    }
  }

  /** An existing `e2e/`, and everything in it, is never touched. */
  lemma E2eKept(fs: FileMap, pkg: FileMap, o: Path, version: string, q: Path)
    requires IsPrefix(E2eDir(o), q) && E2eDir(o) in fs
    ensures Get(Synced(fs, pkg, o, version), q) == Get(fs, q)
  {
    assert Classify(fs, pkg, o, q) == Preserved by {
      E2eClassify(fs, pkg, o, q);
    }
    SyncedAgrees(fs, pkg, o, version);
    PreservedAt(Synced(fs, pkg, o, version), fs, pkg, o, version, q);
  }

  /** When `e2e/` is missing, its five leaves (and so their ancestors) are directories afterwards. */
  lemma E2eCreated(fs: FileMap, pkg: FileMap, o: Path, version: string, i: nat)
    requires TreeShaped(fs) && E2eDir(o) !in fs && i < 5
    ensures IsDir(Synced(fs, pkg, o, version), E2eLeaves(o)[i])
  {
    SyncedAgrees(fs, pkg, o, version);
    E2eCreatedAt(Synced(fs, pkg, o, version), fs, pkg, o, version, i);
  }

  lemma E2eCreatedAt(g: FileMap, fs: FileMap, pkg: FileMap, o: Path, version: string, i: nat)
    requires Agrees(g, fs, pkg, o, version)
    requires TreeShaped(fs) && E2eDir(o) !in fs && i < 5
    ensures IsDir(g, E2eLeaves(o)[i])
  {
    var l := E2eLeaves(o)[i];
    E2eLeafClassify(fs, pkg, o, i);
    assert Get(g, l) == SyncedAt(fs, pkg, o, version, l) == Some(Dir);
  }

  /** Without `e2e/`, each of its five leaves is a scaffold directory. */
  lemma E2eLeafClassify(fs: FileMap, pkg: FileMap, o: Path, i: nat)
    requires TreeShaped(fs) && E2eDir(o) !in fs && i < 5
    ensures Classify(fs, pkg, o, E2eLeaves(o)[i]) == ScaffoldDir
  {
    var l := E2eLeaves(o)[i];
    assert IsPrefix(E2eDir(o), l) && IsPrefix(l, l);
    assert l[..|o| + 1] == E2eDir(o);
    if l in fs {
      AncestorsAreDirs(fs, l, |o| + 1);
      assert false;
    }
    assert OnE2ePath(l, o);
    E2eClassify(fs, pkg, o, l);
  }

  lemma E2eClassify(fs: FileMap, pkg: FileMap, o: Path, q: Path)
    requires IsPrefix(E2eDir(o), q)
    ensures Classify(fs, pkg, o, q) == if q !in fs && E2eDir(o) !in fs && OnE2ePath(q, o) then ScaffoldDir else Preserved
  {
    assert q[|o|] == "e2e";
    Regions(o, q, {});
    assert !IsPrefix(q, SessionsDir(o)) by {
      if |q| > |o| { assert SessionsDir(o)[|o|] == ".sessions"; }
    }
    AtScaffold(fs, pkg, o, q);
  }

  // ---------------------------------------------------------------- running it twice

  /** A managed directory of `o` is itself only ever preserved. */
  lemma ManagedDirClassify(fs: FileMap, pkg: FileMap, o: Path, d: Path)
    requires d == ClaudeDir(o) || d == HooksDir(o) || d == TemplatesDir(o) || d == PlansDir(o)
    ensures Classify(fs, pkg, o, d) == Preserved
  {
    Regions(o, d, {});
    assert !InDir(d, HooksDir(o), HookNames(pkg)) && !InDir(d, HooksDir(o), ObsoleteNames());
    assert !InDir(d, TemplatesDir(o), TemplateNames(pkg));
  }

  /** After a run the directories the run tests for are as before, and `.sessions/` and `e2e/` exist. */
  lemma ConditionsAfter(fs: FileMap, pkg: FileMap, o: Path, version: string)
    ensures var g := Synced(fs, pkg, o, version);
            (ClaudeDir(o) in g <==> ClaudeDir(o) in fs) && (HooksDir(o) in g <==> HooksDir(o) in fs) &&
            (TemplatesDir(o) in g <==> TemplatesDir(o) in fs) && (PlansDir(o) in g <==> PlansDir(o) in fs) &&
            SessionsDir(o) in g && E2eDir(o) in g
  {
    SyncedAgrees(fs, pkg, o, version);
    ConditionsAt(Synced(fs, pkg, o, version), fs, pkg, o, version);
  }

  lemma ConditionsAt(g: FileMap, fs: FileMap, pkg: FileMap, o: Path, version: string)
    requires Agrees(g, fs, pkg, o, version)
    ensures (ClaudeDir(o) in g <==> ClaudeDir(o) in fs) && (HooksDir(o) in g <==> HooksDir(o) in fs) &&
            (TemplatesDir(o) in g <==> TemplatesDir(o) in fs) && (PlansDir(o) in g <==> PlansDir(o) in fs) &&
            SessionsDir(o) in g && E2eDir(o) in g
  {
    ManagedDirAt(g, fs, pkg, o, version, ClaudeDir(o));
    ManagedDirAt(g, fs, pkg, o, version, HooksDir(o));
    ManagedDirAt(g, fs, pkg, o, version, TemplatesDir(o));
    ManagedDirAt(g, fs, pkg, o, version, PlansDir(o));
    SessionsAt(g, fs, pkg, o, version, SessionsDir(o));
    var e := E2eDir(o);
    assert Classify(fs, pkg, o, e) == if e !in fs then ScaffoldDir else Preserved by {
      assert IsPrefix(e, E2eLeaves(o)[0]);
      E2eClassify(fs, pkg, o, e);
    }
    assert Get(g, e) == SyncedAt(fs, pkg, o, version, e);
  }

  lemma ManagedDirAt(g: FileMap, fs: FileMap, pkg: FileMap, o: Path, version: string, d: Path)
    requires Agrees(g, fs, pkg, o, version)
    requires d == ClaudeDir(o) || d == HooksDir(o) || d == TemplatesDir(o) || d == PlansDir(o)
    ensures d in g <==> d in fs
  {
    assert Classify(fs, pkg, o, d) == Preserved by {
      ManagedDirClassify(fs, pkg, o, d);
    }
    PreservedAt(g, fs, pkg, o, version, d);
  }

  /** Every path is classified alike before and after a run, up to scaffold that now exists. */
  lemma ClassifyAfter(fs: FileMap, pkg: FileMap, o: Path, version: string, p: Path)
    ensures var a := Classify(fs, pkg, o, p);
            Classify(Synced(fs, pkg, o, version), pkg, o, p) == if a.ScaffoldDir? then Preserved else a
  {
    SyncedAgrees(fs, pkg, o, version);
    ClassifyAt(Synced(fs, pkg, o, version), fs, pkg, o, version, p);
  }

  lemma ClassifyAt(g: FileMap, fs: FileMap, pkg: FileMap, o: Path, version: string, p: Path)
    requires Agrees(g, fs, pkg, o, version)
    ensures var a := Classify(fs, pkg, o, p);
            Classify(g, pkg, o, p) == if a.ScaffoldDir? then Preserved else a
  {
    ConditionsAt(g, fs, pkg, o, version);
  }

  /** A second run changes nothing at any path. */
  lemma SyncedAtTwice(fs: FileMap, pkg: FileMap, o: Path, version: string, p: Path)
    ensures SyncedAt(Synced(fs, pkg, o, version), pkg, o, version, p) == SyncedAt(fs, pkg, o, version, p)
  {
    SyncedAgrees(fs, pkg, o, version);
    TwiceAt(Synced(fs, pkg, o, version), fs, pkg, o, version, p);
  }

  lemma TwiceAt(g: FileMap, fs: FileMap, pkg: FileMap, o: Path, version: string, p: Path)
    requires Agrees(g, fs, pkg, o, version)
    ensures SyncedAt(g, pkg, o, version, p) == SyncedAt(fs, pkg, o, version, p)
  {
    ClassifyAt(g, fs, pkg, o, version, p);
    assert Get(g, p) == SyncedAt(fs, pkg, o, version, p);
  }

  /** `updateLocal` is idempotent: running it on its own result gives that result. */
  lemma {:induction false} UpdateIdempotent(fs: FileMap, pkg: FileMap, o: Path, version: string)
    ensures UpdateSteps(UpdateSteps(fs, pkg, o, version), pkg, o, version) == UpdateSteps(fs, pkg, o, version)
  {
    var g := Synced(fs, pkg, o, version);
    UpdateIsClassified(fs, pkg, o, version);
    UpdateIsClassified(g, pkg, o, version);
    SyncedAgrees(fs, pkg, o, version);
    SyncedAgrees(g, pkg, o, version);
    forall p
      ensures Get(Synced(g, pkg, o, version), p) == Get(g, p)
    {
      TwiceAt(g, fs, pkg, o, version, p);
    }
    Extensional(Synced(g, pkg, o, version), g);
  }
}
