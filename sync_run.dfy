/**
 * `updateLocal` (bin/cli.js:414-505) as the source runs it: one `fs` call
 * after another on the `FileSystem` object, each phase proved to leave the
 * state its specification function in `Sync` describes. The preconditions
 * are what keeps every `fs` call from throwing.
 */
module SyncRun {
  import opened Common
  import opened Strings
  import opened Fs
  import opened Sync
  import Hooks

  // ---------------------------------------------------------------- when no call throws

  /** `.claude/hooks/` is a directory; no obsolete name and no copied `.sh` name there is a directory. */
  predicate HooksSafe(fs: FileMap, pkg: FileMap, o: Path) {
    var h := HooksDir(o);
    h in fs ==>
      IsDir(fs, h) &&
      (forall n :: n in Hooks.ObsoleteHooks ==> !IsDir(fs, h + [n])) &&
      (PkgHooks in pkg ==>
         IsDir(pkg, PkgHooks) &&
         forall n :: n in ChildNames(pkg, PkgHooks) && EndsWith(n, ".sh") ==> IsFile(pkg, PkgHooks + [n]) && !IsDir(fs, h + [n]))
  }

  /** `.claude/` is a directory and `settings.json` in it is not. */
  predicate SettingsSafe(fs: FileMap, o: Path) {
    ClaudeDir(o) in fs ==> IsDir(fs, ClaudeDir(o)) && !IsDir(fs, SettingsPath(o))
  }

  /** Both template directories are directories and no copied `.md` name is a directory locally. */
  predicate TemplatesSafe(fs: FileMap, pkg: FileMap, o: Path) {
    var t := TemplatesDir(o);
    PkgTemplates in pkg && t in fs ==>
      IsDir(pkg, PkgTemplates) && IsDir(fs, t) &&
      forall n :: n in ChildNames(pkg, PkgTemplates) && EndsWith(n, ".md") ==> IsFile(pkg, PkgTemplates + [n]) && !IsDir(fs, t + [n])
  }

  /** `CLAUDE.md` is not a directory. */
  predicate AgentContextSafe(fs: FileMap, o: Path) {
    !IsDir(fs, AgentContextPath(o))
  }

  /** `plans/` is a directory and `_TEMPLATE.md` in it is not. */
  predicate PlanSafe(fs: FileMap, o: Path) {
    PlansDir(o) in fs ==> IsDir(fs, PlansDir(o)) && !IsDir(fs, PlanTemplatePath(o))
  }

  /** `o` and all its ancestors are directories. */
  predicate OrchDirs(fs: FileMap, o: Path) {
    forall i :: 0 <= i <= |o| ==> IsDir(fs, o[..i])
  }

  /** Nothing at or below `e2e/` is a file. */
  predicate E2eClear(fs: FileMap, o: Path) {
    forall q :: q in fs && IsPrefix(E2eDir(o), q) ==> fs[q].Dir?
  }

  /** `updateLocal` on `o` runs without an `fs` call throwing. */
  predicate UpdateSafe(fs: FileMap, pkg: FileMap, o: Path) {
    HooksSafe(fs, pkg, o) && SettingsSafe(fs, o) && TemplatesSafe(fs, pkg, o) && AgentContextSafe(fs, o) && PlanSafe(fs, o)
  }

  /** In a tree, the directory holding `workspace.md` and its ancestors are directories. */
  lemma OrchDirsOfWorkspace(fs: FileMap, o: Path)
    requires TreeShaped(fs) && WorkspaceDoc(o) in fs
    ensures OrchDirs(fs, o)
  {
    forall i | 0 <= i <= |o|
      ensures IsDir(fs, o[..i])
    {
      AncestorsAreDirs(fs, WorkspaceDoc(o), i);
      assert WorkspaceDoc(o)[..i] == o[..i];
    }
  }

  // ---------------------------------------------------------------- what each phase leaves alone

  lemma HooksKeep(fs: FileMap, pkg: FileMap, o: Path)
    ensures var f := SyncHooks(fs, pkg, o);
            (SettingsSafe(fs, o) ==> SettingsSafe(f, o)) && (TemplatesSafe(fs, pkg, o) ==> TemplatesSafe(f, pkg, o)) &&
            (AgentContextSafe(fs, o) ==> AgentContextSafe(f, o)) && (PlanSafe(fs, o) ==> PlanSafe(f, o)) &&
            (OrchDirs(fs, o) ==> OrchDirs(f, o))
  {
    var f := SyncHooks(fs, pkg, o);
    var h := HooksDir(o);
    assert SettingsPath(o)[|o| + 1] != h[|o| + 1];
    assert Get(f, ClaudeDir(o)) == Get(fs, ClaudeDir(o)) && Get(f, SettingsPath(o)) == Get(fs, SettingsPath(o));
    assert Get(f, AgentContextPath(o)) == Get(fs, AgentContextPath(o));
    assert Get(f, PlansDir(o)) == Get(fs, PlansDir(o)) && Get(f, PlanTemplatePath(o)) == Get(fs, PlanTemplatePath(o));
    assert Get(f, TemplatesDir(o)) == Get(fs, TemplatesDir(o));
    forall n
      ensures Get(f, TemplatesDir(o) + [n]) == Get(fs, TemplatesDir(o) + [n])
    {
      assert (TemplatesDir(o) + [n])[|o|] != h[|o|];
    }
    forall i | 0 <= i <= |o|
      ensures Get(f, o[..i]) == Get(fs, o[..i])
    {
    }
  }

  lemma SettingsKeep(fs: FileMap, o: Path)
    ensures var f := RegenerateSettings(fs, o);
            (forall pkg :: TemplatesSafe(fs, pkg, o) ==> TemplatesSafe(f, pkg, o)) &&
            (AgentContextSafe(fs, o) ==> AgentContextSafe(f, o)) && (PlanSafe(fs, o) ==> PlanSafe(f, o)) &&
            (OrchDirs(fs, o) ==> OrchDirs(f, o))
  {
    var f := RegenerateSettings(fs, o);
    forall n
      ensures Get(f, TemplatesDir(o) + [n]) == Get(fs, TemplatesDir(o) + [n])
    {
      assert (TemplatesDir(o) + [n])[|o|] != SettingsPath(o)[|o|];
    }
    assert Get(f, PlanTemplatePath(o)) == Get(fs, PlanTemplatePath(o)) by {
      assert PlanTemplatePath(o)[|o|] != SettingsPath(o)[|o|];
    }
  }

  lemma TemplatesKeep(fs: FileMap, pkg: FileMap, o: Path)
    ensures var f := SyncTemplates(fs, pkg, o);
            (AgentContextSafe(fs, o) ==> AgentContextSafe(f, o)) && (PlanSafe(fs, o) ==> PlanSafe(f, o)) &&
            (OrchDirs(fs, o) ==> OrchDirs(f, o))
  {
    var f := SyncTemplates(fs, pkg, o);
    var t := TemplatesDir(o);
    assert Get(f, PlanTemplatePath(o)) == Get(fs, PlanTemplatePath(o)) by {
      assert PlanTemplatePath(o)[|o|] != t[|o|];
    }
    assert Get(f, AgentContextPath(o)) == Get(fs, AgentContextPath(o)) by {
      assert AgentContextPath(o)[|o|] != t[|o|];
    }
    forall i | 0 <= i <= |o|
      ensures Get(f, o[..i]) == Get(fs, o[..i])
    {
    }
  }

  lemma AgentContextKeep(fs: FileMap, o: Path, version: string)
    ensures var f := Write(fs, AgentContextPath(o), AgentContext(version));
            (PlanSafe(fs, o) ==> PlanSafe(f, o)) && (OrchDirs(fs, o) ==> OrchDirs(f, o))
  {
    assert PlansDir(o)[|o|] != AgentContextPath(o)[|o|];
    assert PlanTemplatePath(o) != AgentContextPath(o);
  }

  lemma PlanKeep(fs: FileMap, o: Path)
    ensures OrchDirs(fs, o) ==> OrchDirs(RegeneratePlanTemplate(fs, o), o)
  {
  }

  // ---------------------------------------------------------------- the phases

  /** The obsolete hooks, each removed when present (bin/cli.js:427-431). */
  method RemoveObsolete(fsys: FileSystem, h: Path)
    requires fsys.Valid() && forall n :: n in Hooks.ObsoleteHooks ==> !IsDir(fsys.entries, h + [n])
    modifies fsys
    ensures fsys.Valid() && fsys.entries == RemoveNames(old(fsys.entries), h, ObsoleteNames())
  {
    var names := Hooks.ObsoleteHooks;
    ghost var removed: set<string> := {};
    for i := 0 to |names|
      invariant fsys.Valid()
      invariant removed == set n | n in names[..i]
      invariant fsys.entries == RemoveNames(old(fsys.entries), h, removed)
    {
      var p := h + [names[i]];
      ghost var before := fsys.entries;
      assert !IsDir(fsys.entries, p) by {
        assert Get(fsys.entries, p) == Get(old(fsys.entries), p) || Get(fsys.entries, p) == None;
      }
      if fsys.Exists(p) {
        fsys.Unlink(p);
      }
      RemoveNamesAdd(old(fsys.entries), before, h, removed, names[i]);
      removed := removed + {names[i]};
      assert names[..i + 1] == names[..i] + [names[i]];
    }
    assert names[..|names|] == names;
  }

  /** Removing one more name is removing its path, if present, from the earlier result. */
  lemma RemoveNamesAdd(fs: FileMap, cur: FileMap, dir: Path, names: set<string>, n: string)
    requires cur == RemoveNames(fs, dir, names)
    ensures RemoveNames(fs, dir, names + {n}) == (if dir + [n] in cur then cur - {dir + [n]} else cur)
  {
    var a := RemoveNames(fs, dir, names + {n});
    var b := if dir + [n] in cur then cur - {dir + [n]} else cur;
    forall q
      ensures Get(a, q) == Get(b, q)
    {
      if InDir(q, dir, {n}) {
        assert q == dir + [n];
      }
      if q == dir + [n] {
        assert q[..|dir|] == dir && q[|dir|] == n;
      }
    }
    Extensional(a, b);
  }

  /** Hooks: obsolete ones removed, then the package's `.sh` scripts copied in and made executable (bin/cli.js:424-446). */
  method SyncHooksStep(fsys: FileSystem, pkg: FileMap, o: Path)
    requires fsys.Valid() && HooksSafe(fsys.entries, pkg, o)
    modifies fsys
    ensures fsys.Valid() && fsys.entries == SyncHooks(old(fsys.entries), pkg, o)
  {
    var h := HooksDir(o);
    if fsys.Exists(h) {
      RemoveObsolete(fsys, h);
      if PkgHooks in pkg {
        assert forall n :: Get(fsys.entries, h + [n]) == Get(old(fsys.entries), h + [n]) || Get(fsys.entries, h + [n]) == None;
        assert Get(fsys.entries, h) == Get(old(fsys.entries), h) by {
          assert !InDir(h, h, ObsoleteNames());
        }
        fsys.CopyMatching(pkg, PkgHooks, h, ".sh", Some(ExecMode));
      }
    }
  }

  /** `settings.json` regenerated when `.claude/` exists (bin/cli.js:449-454). */
  method RegenerateSettingsStep(fsys: FileSystem, o: Path)
    requires fsys.Valid() && SettingsSafe(fsys.entries, o)
    modifies fsys
    ensures fsys.Valid() && fsys.entries == RegenerateSettings(old(fsys.entries), o)
  {
    if fsys.Exists(ClaudeDir(o)) {
      assert Parent(SettingsPath(o)) == ClaudeDir(o);
      fsys.WriteFile(SettingsPath(o), SettingsDoc(Hooks.GenerateSettings()));
    }
  }

  /** Templates copied when both template directories exist (bin/cli.js:457-468). */
  method SyncTemplatesStep(fsys: FileSystem, pkg: FileMap, o: Path)
    requires fsys.Valid() && TemplatesSafe(fsys.entries, pkg, o)
    modifies fsys
    ensures fsys.Valid() && fsys.entries == SyncTemplates(old(fsys.entries), pkg, o)
  {
    if PkgTemplates in pkg && fsys.Exists(TemplatesDir(o)) {
      fsys.CopyMatching(pkg, PkgTemplates, TemplatesDir(o), ".md", None);
    }
  }

  /** `CLAUDE.md` written (bin/cli.js:471-473). */
  method WriteAgentContextStep(fsys: FileSystem, o: Path, version: string)
    requires fsys.Valid() && AgentContextSafe(fsys.entries, o) && OrchDirs(fsys.entries, o)
    modifies fsys
    ensures fsys.Valid() && fsys.entries == Write(old(fsys.entries), AgentContextPath(o), AgentContext(version))
  {
    assert Parent(AgentContextPath(o)) == o[..|o|];
    fsys.WriteFile(AgentContextPath(o), AgentContext(version));
  }

  /** `plans/_TEMPLATE.md` written when `plans/` exists (bin/cli.js:476-480). */
  method RegeneratePlanTemplateStep(fsys: FileSystem, o: Path)
    requires fsys.Valid() && PlanSafe(fsys.entries, o)
    modifies fsys
    ensures fsys.Valid() && fsys.entries == RegeneratePlanTemplate(old(fsys.entries), o)
  {
    if fsys.Exists(PlansDir(o)) {
      assert Parent(PlanTemplatePath(o)) == PlansDir(o);
      fsys.WriteFile(PlanTemplatePath(o), PlanTemplate);
    }
  }

  /** `.sessions/` created when missing (bin/cli.js:483-487). */
  method EnsureSessionsStep(fsys: FileSystem, o: Path)
    requires fsys.Valid() && OrchDirs(fsys.entries, o)
    modifies fsys
    ensures fsys.Valid() && OrchDirs(fsys.entries, o)
    ensures fsys.entries == EnsureSessions(old(fsys.entries), o)
  {
    var s := SessionsDir(o);
    if !fsys.Exists(s) {
      forall i | 0 <= i <= |s|
        ensures !IsFile(fsys.entries, s[..i])
      {
        if i <= |o| {
          assert s[..i] == o[..i];
        } else {
          assert s[..i] == s;
        }
      }
      fsys.MakeDirs(s);
    }
  }

  /** One `mkdirp` of an `e2e/` leaf below an `e2e/` that holds only directories. */
  method MakeE2eLeaf(fsys: FileSystem, o: Path, l: Path)
    requires fsys.Valid() && OrchDirs(fsys.entries, o) && E2eClear(fsys.entries, o) && IsPrefix(E2eDir(o), l)
    modifies fsys
    ensures fsys.Valid() && OrchDirs(fsys.entries, o) && E2eClear(fsys.entries, o)
    ensures fsys.entries == MkdirAll(old(fsys.entries), l)
  {
    forall i | 0 <= i <= |l|
      ensures !IsFile(fsys.entries, l[..i])
    {
      if i <= |o| {
        assert l[..i] == o[..i];
      } else {
        assert IsPrefix(E2eDir(o), l[..i]);
      }
    }
    fsys.MakeDirs(l);
  }

  /** The `e2e/` tree created when `e2e/` is missing (bin/cli.js:490-498). */
  method EnsureE2eStep(fsys: FileSystem, o: Path)
    requires fsys.Valid() && OrchDirs(fsys.entries, o)
    modifies fsys
    ensures fsys.Valid() && fsys.entries == EnsureE2e(old(fsys.entries), o)
  {
    var e := E2eDir(o);
    if !fsys.Exists(e) {
      forall q | IsPrefix(e, q)
        ensures q !in fsys.entries
      {
        if q in fsys.entries {
          PrefixPresent(fsys.entries, q, e);
          assert false;
        }
      }
      var l := E2eLeaves(o);
      assert forall k :: 0 <= k < 5 ==> IsPrefix(e, l[k]);
      MakeE2eLeaf(fsys, o, l[0]);
      MakeE2eLeaf(fsys, o, l[1]);
      MakeE2eLeaf(fsys, o, l[2]);
      MakeE2eLeaf(fsys, o, l[3]);
      MakeE2eLeaf(fsys, o, l[4]);
    }
  }

  /**
   * `updateLocal()`: finds the orchestrator directory from `cwd` and, when
   * there is one, runs the phases in source order; returns whether it found one.
   */
  method UpdateLocal(fsys: FileSystem, pkg: FileMap, cwd: Path, version: string) returns (found: bool)
    requires fsys.Valid()
    requires FindOrchDir(fsys.entries, cwd).Some? ==> UpdateSafe(fsys.entries, pkg, FindOrchDir(fsys.entries, cwd).value)
    modifies fsys
    ensures fsys.Valid()
    ensures found <==> FindOrchDir(old(fsys.entries), cwd).Some?
    ensures !found ==> fsys.entries == old(fsys.entries)
    ensures found ==> fsys.entries == UpdateSteps(old(fsys.entries), pkg, FindOrchDir(old(fsys.entries), cwd).value, version)
    ensures found ==> fsys.entries == Synced(old(fsys.entries), pkg, FindOrchDir(old(fsys.entries), cwd).value, version)
  {
    var orch := FindOrchDir(fsys.entries, cwd);
    if orch.None? {
      return false;
    }
    var o := orch.value;
    ghost var f1 := fsys.entries;
    OrchDirsOfWorkspace(f1, o);
    HooksKeep(f1, pkg, o);
    SyncHooksStep(fsys, pkg, o);
    ghost var f2 := fsys.entries;
    SettingsKeep(f2, o);
    RegenerateSettingsStep(fsys, o);
    ghost var f3 := fsys.entries;
    TemplatesKeep(f3, pkg, o);
    SyncTemplatesStep(fsys, pkg, o);
    ghost var f4 := fsys.entries;
    AgentContextKeep(f4, o, version);
    WriteAgentContextStep(fsys, o, version);
    ghost var f5 := fsys.entries;
    PlanKeep(f5, o);
    RegeneratePlanTemplateStep(fsys, o);
    EnsureSessionsStep(fsys, o);
    EnsureE2eStep(fsys, o);
    UpdateIsClassified(f1, pkg, o, version);
    return true;
  }
}
