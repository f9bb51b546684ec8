/**
 * `installGlobals(force)` (bin/cli.js:146-196) and the `update` command
 * (bin/cli.js:806-821): the version gate, the copy of the package's skills,
 * rules and agents into `~/.claude`, and the version marker that makes a
 * second run without `--force` do nothing.
 */
module Install {
  import opened Common
  import opened Strings
  import opened Fs
  import Semver
  import Sync
  import SyncRun

  // ---------------------------------------------------------------- layout

  function ClaudeHome(home: Path): Path { home + [".claude"] }
  function VersionFile(home: Path): Path { home + [".claude", ".orchestrator-version"] }
  function SkillsHome(home: Path): Path { home + [".claude", "skills"] }
  function RulesHome(home: Path): Path { home + [".claude", "rules"] }
  function AgentsHome(home: Path): Path { home + [".claude", "agents"] }

  /** Rules and agents in the package tree (`global-skills/`). */
  const PkgRules: Path := ["rules"]
  const PkgAgents: Path := ["agents"]

  /** Package directories that are not skills. */
  const SkipDirs: set<string> := {"rules", "agents", "hooks", "templates"}

  /** The skills: every directory at the top of the package tree except the four above. */
  function SkillNames(pkg: FileMap): (names: set<string>)
    ensures forall n :: n in names <==> IsDir(pkg, [n]) && n !in SkipDirs
  {
    var root: Path := [];
    var names := set n | n in ChildNames(pkg, root) && IsDir(pkg, [n]) && n !in SkipDirs;
    forall n
      ensures n in names <==> IsDir(pkg, [n]) && n !in SkipDirs
    {
      assert root + [n] == [n];
    }
    names
  }

  // ---------------------------------------------------------------- the version marker

  /** `readVersion()`: the trimmed marker text, `None` when it cannot be read. */
  function ReadVersion(fs: FileMap, home: Path): (v: Option<string>)
    ensures v.Some? ==> IsFile(fs, VersionFile(home))
  {
    match ReadText(fs, VersionFile(home))
    case None => None
    case Some(t) => Some(Trim(t))
  }

  // ---------------------------------------------------------------- the copy, as a function

  /** `q` is a path below `gs` whose first name is one of `names` and whose rest is in the package tree. */
  predicate InSkill(pkg: FileMap, gs: Path, names: set<string>, q: Path) {
    |q| > |gs| && q[..|gs|] == gs && q[|gs|] in names && q[|gs|..] in pkg
  }

  /** Each skill directory of `names` mirrored below `gs`. */
  function CopySkills(fs: FileMap, pkg: FileMap, gs: Path, names: set<string>): (r: FileMap)
    ensures forall q :: Get(r, q) ==
              if InSkill(pkg, gs, names, q) then Some(Mirrored(fs, pkg[q[|gs|..]], q)) else Get(fs, q)
  {
    var added := set p | p in pkg.Keys && |p| >= 1 && p[0] in names :: gs + p;
    forall q | InSkill(pkg, gs, names, q)
      ensures q in added
    {
      var p := q[|gs|..];
      assert gs + p == q;
    }
    map q | q in fs.Keys + added ::
      if InSkill(pkg, gs, names, q) then Mirrored(fs, pkg[q[|gs|..]], q) else fs[q]
  }

  /** One more skill copied is one more `copyDir` over the earlier copies. */
  lemma CopySkillsAdd(fs: FileMap, pkg: FileMap, gs: Path, names: set<string>, n: string)
    requires n !in names && IsDir(pkg, [n])
    requires forall i :: 0 <= i <= |gs| ==> gs[..i] in fs
    ensures CopySkills(fs, pkg, gs, names + {n}) == CopyTree(CopySkills(fs, pkg, gs, names), pkg, [n], gs + [n])
  {
    var a := CopySkills(fs, pkg, gs, names + {n});
    var b := CopyTree(CopySkills(fs, pkg, gs, names), pkg, [n], gs + [n]);
    forall q
      ensures Get(a, q) == Get(b, q)
    {
      if IsPrefix(gs + [n], q) {
        CopySkillsAddInside(fs, pkg, gs, names, n, q);
      } else {
        CopySkillsAddOutside(fs, pkg, gs, names, n, q);
      }
    }
    Extensional(a, b);
  }

  /** Below the new skill directory both sides mirror the package's skill. */
  lemma CopySkillsAddInside(fs: FileMap, pkg: FileMap, gs: Path, names: set<string>, n: string, q: Path)
    requires n !in names && IsDir(pkg, [n]) && IsPrefix(gs + [n], q)
    ensures Get(CopySkills(fs, pkg, gs, names + {n}), q) == Get(CopyTree(CopySkills(fs, pkg, gs, names), pkg, [n], gs + [n]), q)
  {
    var d := gs + [n];
    var cur := CopySkills(fs, pkg, gs, names);
    var r := q[|gs|..];
    assert r == [n] + q[|d|..] && r[0] == n by {
      assert q[..|gs|] == gs && q[|gs|] == n;
    }
    assert InSkill(pkg, gs, names + {n}, q) <==> r in pkg;
    assert Get(cur, q) == Get(fs, q) by {
      assert !InSkill(pkg, gs, names, q);
    }
    if r in pkg {
      assert Mirrored(cur, pkg[r], q) == Mirrored(fs, pkg[r], q);
    } else {
      assert q != d;
    }
  }

  /** Elsewhere the new copy adds nothing: the ancestors of the skill directory already exist. */
  lemma CopySkillsAddOutside(fs: FileMap, pkg: FileMap, gs: Path, names: set<string>, n: string, q: Path)
    requires n !in names && !IsPrefix(gs + [n], q)
    requires forall i :: 0 <= i <= |gs| ==> gs[..i] in fs
    ensures Get(CopySkills(fs, pkg, gs, names + {n}), q) == Get(CopyTree(CopySkills(fs, pkg, gs, names), pkg, [n], gs + [n]), q)
  {
    var d := gs + [n];
    var cur := CopySkills(fs, pkg, gs, names);
    assert Get(CopySkills(fs, pkg, gs, names + {n}), q) == Get(cur, q) by {
      InSkillOutside(pkg, gs, names, n, q);
    }
    if IsPrefix(q, d) {
      assert q == gs[..|q|] && q in fs;
      assert !InSkill(pkg, gs, names, q);
      assert q in cur;
    }
  }

  lemma InSkillOutside(pkg: FileMap, gs: Path, names: set<string>, n: string, q: Path)
    requires !IsPrefix(gs + [n], q)
    ensures InSkill(pkg, gs, names + {n}, q) == InSkill(pkg, gs, names, q)
  {
  }

  /** The global install when the gate passes, phase by phase as the source runs. */
  function Installed(fs: FileMap, pkg: FileMap, home: Path, version: string): FileMap {
    var f1 := MkdirAll(MkdirAll(MkdirAll(fs, SkillsHome(home)), RulesHome(home)), AgentsHome(home));
    var f2 := CopySkills(f1, pkg, SkillsHome(home), SkillNames(pkg));
    var f3 := if PkgRules in pkg then CopyNames(f2, pkg, PkgRules, RulesHome(home), FilesEndingWith(pkg, PkgRules, ".md"), None) else f2;
    var f4 := if PkgAgents in pkg then CopyNames(f3, pkg, PkgAgents, AgentsHome(home), FilesEndingWith(pkg, PkgAgents, ".md"), None) else f3;
    var f5 := MkdirAll(f4, ClaudeHome(home));
    Write(f5, VersionFile(home), Text(version + "\n"))
  }

  /** What `installGlobals(force)` leaves: the install when the gate passes, else nothing changed. */
  function AfterInstall(fs: FileMap, pkg: FileMap, home: Path, version: string, force: bool): FileMap {
    if Semver.NeedsUpdate(force, ReadVersion(fs, home), version) then Installed(fs, pkg, home, version) else fs
  }

  // ---------------------------------------------------------------- when no call throws

  /** No file where the global directories go. */
  predicate HomeDirsSafe(fs: FileMap, home: Path) {
    (forall i :: 0 <= i <= |ClaudeHome(home)| ==> !IsFile(fs, ClaudeHome(home)[..i])) &&
    !IsFile(fs, SkillsHome(home)) && !IsFile(fs, RulesHome(home)) && !IsFile(fs, AgentsHome(home))
  }

  /** No file where a skill directory goes, and no directory where a skill file goes. */
  predicate SkillsSafe(fs: FileMap, pkg: FileMap, gs: Path) {
    forall p :: p in pkg && |p| >= 1 && p[0] in SkillNames(pkg) ==>
      (pkg[p].File? ==> !IsDir(fs, gs + p)) && (pkg[p].Dir? ==> !IsFile(fs, gs + p))
  }

  /** The package's `.md` files of `src` are files and none of their targets below `dst` is a directory. */
  predicate MarkdownSafe(fs: FileMap, pkg: FileMap, src: Path, dst: Path) {
    src in pkg ==>
      IsDir(pkg, src) &&
      forall n :: n in ChildNames(pkg, src) && EndsWith(n, ".md") ==> IsFile(pkg, src + [n]) && !IsDir(fs, dst + [n])
  }

  /** `installGlobals` runs without an `fs` call throwing. */
  predicate InstallSafe(fs: FileMap, pkg: FileMap, home: Path) {
    HomeDirsSafe(fs, home) && SkillsSafe(fs, pkg, SkillsHome(home)) &&
    MarkdownSafe(fs, pkg, PkgRules, RulesHome(home)) && MarkdownSafe(fs, pkg, PkgAgents, AgentsHome(home)) &&
    !IsDir(fs, VersionFile(home))
  }

  /** The global directories and their ancestors are directories. */
  predicate HomeDirsMade(fs: FileMap, home: Path) {
    (forall i :: 0 <= i <= |ClaudeHome(home)| ==> IsDir(fs, ClaudeHome(home)[..i])) &&
    IsDir(fs, SkillsHome(home)) && IsDir(fs, RulesHome(home)) && IsDir(fs, AgentsHome(home))
  }

  // ---------------------------------------------------------------- what each phase leaves alone

  lemma MkdirsKeep(fs: FileMap, pkg: FileMap, home: Path)
    requires HomeDirsSafe(fs, home)
    ensures var f := MkdirAll(MkdirAll(MkdirAll(fs, SkillsHome(home)), RulesHome(home)), AgentsHome(home));
            HomeDirsMade(f, home) &&
            (SkillsSafe(fs, pkg, SkillsHome(home)) ==> SkillsSafe(f, pkg, SkillsHome(home))) &&
            (MarkdownSafe(fs, pkg, PkgRules, RulesHome(home)) ==> MarkdownSafe(f, pkg, PkgRules, RulesHome(home))) &&
            (MarkdownSafe(fs, pkg, PkgAgents, AgentsHome(home)) ==> MarkdownSafe(f, pkg, PkgAgents, AgentsHome(home))) &&
            (!IsDir(fs, VersionFile(home)) ==> !IsDir(f, VersionFile(home)))
  {
    HomeDirsMadeBy(fs, home);
    HomeDirsDeep(fs, home, VersionFile(home));
    MkdirsKeepSkills(fs, pkg, home);
    MkdirsKeepMarkdown(fs, pkg, home, PkgRules, RulesHome(home));
    MkdirsKeepMarkdown(fs, pkg, home, PkgAgents, AgentsHome(home));
  }

  lemma MkdirsKeepSkills(fs: FileMap, pkg: FileMap, home: Path)
    ensures var f := MkdirAll(MkdirAll(MkdirAll(fs, SkillsHome(home)), RulesHome(home)), AgentsHome(home));
            SkillsSafe(fs, pkg, SkillsHome(home)) ==> SkillsSafe(f, pkg, SkillsHome(home))
  {
    forall p | p in pkg && |p| >= 1 && p[0] in SkillNames(pkg)
      ensures Get(MkdirAll(MkdirAll(MkdirAll(fs, SkillsHome(home)), RulesHome(home)), AgentsHome(home)), SkillsHome(home) + p)
              == Get(fs, SkillsHome(home) + p)
    {
      HomeDirsDeep(fs, home, SkillsHome(home) + p);
    }
  }

  lemma MkdirsKeepMarkdown(fs: FileMap, pkg: FileMap, home: Path, src: Path, dst: Path)
    requires dst == RulesHome(home) || dst == AgentsHome(home)
    ensures var f := MkdirAll(MkdirAll(MkdirAll(fs, SkillsHome(home)), RulesHome(home)), AgentsHome(home));
            MarkdownSafe(fs, pkg, src, dst) ==> MarkdownSafe(f, pkg, src, dst)
  {
    forall m
      ensures Get(MkdirAll(MkdirAll(MkdirAll(fs, SkillsHome(home)), RulesHome(home)), AgentsHome(home)), dst + [m])
              == Get(fs, dst + [m])
    {
      HomeDirsDeep(fs, home, dst + [m]);
    }
  }

  /** The three `mkdirp` calls change nothing but the three directories and their ancestors. */
  lemma HomeDirsDeep(fs: FileMap, home: Path, q: Path)
    requires |q| > |SkillsHome(home)| || q == VersionFile(home)
    ensures Get(MkdirAll(MkdirAll(MkdirAll(fs, SkillsHome(home)), RulesHome(home)), AgentsHome(home)), q) == Get(fs, q)
  {
    if q == VersionFile(home) {
      var k := |home| + 1;
      assert q[k] == ".orchestrator-version";
      assert SkillsHome(home)[k] == "skills" && RulesHome(home)[k] == "rules" && AgentsHome(home)[k] == "agents";
    }
    assert !IsPrefix(q, SkillsHome(home));
    assert !IsPrefix(q, RulesHome(home));
    assert !IsPrefix(q, AgentsHome(home));
  }

  lemma HomeDirsMadeBy(fs: FileMap, home: Path)
    requires HomeDirsSafe(fs, home)
    ensures HomeDirsMade(MkdirAll(MkdirAll(MkdirAll(fs, SkillsHome(home)), RulesHome(home)), AgentsHome(home)), home)
  {
    var f1 := MkdirAll(fs, SkillsHome(home));
    var f2 := MkdirAll(f1, RulesHome(home));
    var f := MkdirAll(f2, AgentsHome(home));
    var c := ClaudeHome(home);
    forall i | 0 <= i <= |c|
      ensures IsDir(f, c[..i])
    {
      assert IsPrefix(c[..i], SkillsHome(home)) by {
        assert SkillsHome(home)[..i] == c[..i];
      }
      assert IsDir(f1, c[..i]);
    }
    assert IsPrefix(SkillsHome(home), SkillsHome(home));
    assert IsPrefix(RulesHome(home), RulesHome(home));
    assert IsPrefix(AgentsHome(home), AgentsHome(home));
    assert IsDir(f1, SkillsHome(home));
    assert IsDir(f2, RulesHome(home));
  }

  lemma SkillsKeep(fs: FileMap, pkg: FileMap, home: Path)
    ensures var f := CopySkills(fs, pkg, SkillsHome(home), SkillNames(pkg));
            (HomeDirsMade(fs, home) ==> HomeDirsMade(f, home)) &&
            (MarkdownSafe(fs, pkg, PkgRules, RulesHome(home)) ==> MarkdownSafe(f, pkg, PkgRules, RulesHome(home))) &&
            (MarkdownSafe(fs, pkg, PkgAgents, AgentsHome(home)) ==> MarkdownSafe(f, pkg, PkgAgents, AgentsHome(home))) &&
            (!IsDir(fs, VersionFile(home)) ==> !IsDir(f, VersionFile(home)))
  {
    var gs := SkillsHome(home);
    assert VersionFile(home)[|home| + 1] != gs[|home| + 1];
    SkillsKeepDirs(fs, pkg, home);
    SkillsKeepMarkdown(fs, pkg, home, PkgRules, RulesHome(home));
    SkillsKeepMarkdown(fs, pkg, home, PkgAgents, AgentsHome(home));
  }

  lemma SkillsKeepDirs(fs: FileMap, pkg: FileMap, home: Path)
    ensures HomeDirsMade(fs, home) ==> HomeDirsMade(CopySkills(fs, pkg, SkillsHome(home), SkillNames(pkg)), home)
  {
    var gs := SkillsHome(home);
    assert RulesHome(home)[|home| + 1] != gs[|home| + 1];
    assert AgentsHome(home)[|home| + 1] != gs[|home| + 1];
  }

  lemma SkillsKeepMarkdown(fs: FileMap, pkg: FileMap, home: Path, src: Path, dst: Path)
    requires dst == RulesHome(home) || dst == AgentsHome(home)
    ensures var f := CopySkills(fs, pkg, SkillsHome(home), SkillNames(pkg));
            MarkdownSafe(fs, pkg, src, dst) ==> MarkdownSafe(f, pkg, src, dst)
  {
    var gs := SkillsHome(home);
    forall n
      ensures !InSkill(pkg, gs, SkillNames(pkg), dst + [n])
    {
      assert (dst + [n])[|home| + 1] != gs[|home| + 1];
    }
  }

  lemma RulesKeep(fs: FileMap, pkg: FileMap, home: Path)
    requires PkgRules in pkg ==> forall n :: n in FilesEndingWith(pkg, PkgRules, ".md") ==> IsFile(pkg, PkgRules + [n])
    ensures var f := if PkgRules in pkg then CopyNames(fs, pkg, PkgRules, RulesHome(home), FilesEndingWith(pkg, PkgRules, ".md"), None) else fs;
            (HomeDirsMade(fs, home) ==> HomeDirsMade(f, home)) &&
            (MarkdownSafe(fs, pkg, PkgAgents, AgentsHome(home)) ==> MarkdownSafe(f, pkg, PkgAgents, AgentsHome(home))) &&
            (!IsDir(fs, VersionFile(home)) ==> !IsDir(f, VersionFile(home)))
  {
    forall n
      ensures (AgentsHome(home) + [n])[..|RulesHome(home)|] != RulesHome(home)
    {
      assert (AgentsHome(home) + [n])[|home| + 1] != RulesHome(home)[|home| + 1];
    }
  }

  lemma AgentsKeep(fs: FileMap, pkg: FileMap, home: Path)
    requires PkgAgents in pkg ==> forall n :: n in FilesEndingWith(pkg, PkgAgents, ".md") ==> IsFile(pkg, PkgAgents + [n])
    ensures var f := if PkgAgents in pkg then CopyNames(fs, pkg, PkgAgents, AgentsHome(home), FilesEndingWith(pkg, PkgAgents, ".md"), None) else fs;
            (HomeDirsMade(fs, home) ==> HomeDirsMade(f, home)) &&
            (!IsDir(fs, VersionFile(home)) ==> !IsDir(f, VersionFile(home)))
  {
  }

  // ---------------------------------------------------------------- the run

  /** `needsUpdate(force)` with the installed version already read, comparing through `semverCompare`. */
  method NeedsUpdateStep(force: bool, installed: Option<string>, version: string) returns (r: bool)
    ensures r == Semver.NeedsUpdate(force, installed, version)
  {
    if force {
      return true;
    }
    if installed.None? || installed.value == "" {
      return true;
    }
    var c := Semver.SemverCompare(version, installed.value);
    return c > 0;
  }

  /** The three `mkdirp` calls for the global skills, rules and agents directories. */
  method MakeHomeDirs(fsys: FileSystem, home: Path)
    requires fsys.Valid() && HomeDirsSafe(fsys.entries, home)
    modifies fsys
    ensures fsys.Valid()
    ensures fsys.entries == MkdirAll(MkdirAll(MkdirAll(old(fsys.entries), SkillsHome(home)), RulesHome(home)), AgentsHome(home))
  {
    HomeDirClear(fsys.entries, home, SkillsHome(home));
    MkdirKeepsSafe(fsys.entries, home, SkillsHome(home));
    fsys.MakeDirs(SkillsHome(home));
    HomeDirClear(fsys.entries, home, RulesHome(home));
    MkdirKeepsSafe(fsys.entries, home, RulesHome(home));
    fsys.MakeDirs(RulesHome(home));
    HomeDirClear(fsys.entries, home, AgentsHome(home));
    fsys.MakeDirs(AgentsHome(home));
  }

  /** Where no file blocks the global directories, `mkdirp` of any of them cannot throw. */
  lemma HomeDirClear(fs: FileMap, home: Path, d: Path)
    requires HomeDirsSafe(fs, home)
    requires d == SkillsHome(home) || d == RulesHome(home) || d == AgentsHome(home)
    ensures forall i :: 0 <= i <= |d| ==> !IsFile(fs, d[..i])
  {
    var c := ClaudeHome(home);
    forall i | 0 <= i <= |d|
      ensures !IsFile(fs, d[..i])
    {
      if i <= |c| { assert d[..i] == c[..i]; } else { assert d[..i] == d; }
    }
  }

  /** Each `mkdirp` of a global directory leaves the others as safe as before. */
  lemma MkdirKeepsSafe(fs: FileMap, home: Path, d: Path)
    requires HomeDirsSafe(fs, home)
    requires d == SkillsHome(home) || d == RulesHome(home) || d == AgentsHome(home)
    ensures HomeDirsSafe(MkdirAll(fs, d), home)
  {
    var c := ClaudeHome(home);
    var k := |home| + 1;
    assert SkillsHome(home)[k] == "skills" && RulesHome(home)[k] == "rules" && AgentsHome(home)[k] == "agents";
    forall i | 0 <= i <= |c|
      ensures !IsFile(MkdirAll(fs, d), c[..i])
    {
      assert d[..i] == c[..i];
    }
  }

  /** One skill copied: `copyDir(global-skills/<n>, ~/.claude/skills/<n>)`. */
  method InstallSkill(fsys: FileSystem, pkg: FileMap, gs: Path, n: string, ghost base: FileMap, ghost copied: set<string>)
    requires fsys.Valid() && TreeShaped(pkg) && n in SkillNames(pkg) && n !in copied
    requires forall i :: 0 <= i <= |gs| ==> IsDir(base, gs[..i])
    requires SkillsSafe(base, pkg, gs)
    requires fsys.entries == CopySkills(base, pkg, gs, copied)
    modifies fsys
    ensures fsys.Valid() && fsys.entries == CopySkills(base, pkg, gs, copied + {n})
  {
    SkillCopySafe(base, pkg, gs, copied, n);
    fsys.CopyDir(pkg, [n], gs + [n]);
    CopySkillsAdd(base, pkg, gs, copied, n);
  }

  lemma SkillCopySafe(base: FileMap, pkg: FileMap, gs: Path, copied: set<string>, n: string)
    requires n in SkillNames(pkg) && n !in copied
    requires forall i :: 0 <= i <= |gs| ==> IsDir(base, gs[..i])
    requires SkillsSafe(base, pkg, gs)
    ensures TreeCopySafe(CopySkills(base, pkg, gs, copied), pkg, [n], gs + [n])
  {
    var cur := CopySkills(base, pkg, gs, copied);
    var d := gs + [n];
    forall i | 0 <= i <= |d|
      ensures !IsFile(cur, d[..i])
    {
      if i <= |gs| {
        assert d[..i] == gs[..i];
      } else {
        assert d[..i] == d && d[|gs|..] == [n];
      }
    }
    forall p | p in pkg && IsPrefix([n], p)
      ensures (pkg[p].File? ==> !IsDir(cur, d + p[1..])) && (pkg[p].Dir? ==> !IsFile(cur, d + p[1..]))
    {
      assert d + p[1..] == gs + p;
      assert (gs + p)[|gs|] == n;
    }
  }

  /** The skills loop over the package's top-level listing (bin/cli.js:165-172). */
  method InstallSkills(fsys: FileSystem, pkg: FileMap, gs: Path)
    requires fsys.Valid() && TreeShaped(pkg)
    requires forall i :: 0 <= i <= |gs| ==> IsDir(fsys.entries, gs[..i])
    requires SkillsSafe(fsys.entries, pkg, gs)
    modifies fsys
    ensures fsys.Valid() && fsys.entries == CopySkills(old(fsys.entries), pkg, gs, SkillNames(pkg))
  {
    var root: Path := [];
    var todo := ChildNames(pkg, root);
    ghost var listing := todo;
    ghost var done: set<string> := {};
    while todo != {}
      invariant fsys.Valid()
      invariant todo + done == listing && todo !! done
      invariant fsys.entries == CopySkills(old(fsys.entries), pkg, gs, done * SkillNames(pkg))
      decreases todo
    {
      var n :| n in todo;
      VisitedAdd(done, n, SkillNames(pkg));
      if IsDir(pkg, [n]) && n !in SkipDirs {
        InstallSkill(fsys, pkg, gs, n, old(fsys.entries), done * SkillNames(pkg));
      }
      todo := todo - {n};
      done := done + {n};
    }
    AllSkillsVisited(pkg, done);
  }

  /** A full pass over the top-level listing has copied exactly the skills. */
  lemma VisitedAdd(done: set<string>, n: string, names: set<string>)
    ensures (done + {n}) * names == if n in names then done * names + {n} else done * names
  {
  }

  lemma AllSkillsVisited(pkg: FileMap, done: set<string>)
    requires done == ChildNames(pkg, [])
    ensures done * SkillNames(pkg) == SkillNames(pkg)
  {
    var root: Path := [];
    forall m | m in SkillNames(pkg)
      ensures m in done
    {
      assert root + [m] == [m];
    }
  }

  /** `writeVersion(v)`: the marker `v` and a newline. */
  method WriteVersion(fsys: FileSystem, home: Path, version: string)
    requires fsys.Valid() && HomeDirsMade(fsys.entries, home) && !IsDir(fsys.entries, VersionFile(home))
    modifies fsys
    ensures fsys.Valid()
    ensures fsys.entries == Write(MkdirAll(old(fsys.entries), ClaudeHome(home)), VersionFile(home), Text(version + "\n"))
  {
    fsys.MakeDirs(ClaudeHome(home));
    assert Parent(VersionFile(home)) == ClaudeHome(home);
    fsys.WriteFile(VersionFile(home), Text(version + "\n"));
  }

  /** The body of `installGlobals` once the gate has passed (bin/cli.js:160-195). */
  method RunInstall(fsys: FileSystem, pkg: FileMap, home: Path, version: string)
    requires fsys.Valid() && TreeShaped(pkg) && InstallSafe(fsys.entries, pkg, home)
    modifies fsys
    ensures fsys.Valid() && fsys.entries == Installed(old(fsys.entries), pkg, home, version)
  {
    ghost var f0 := fsys.entries;
    MkdirsKeep(f0, pkg, home);
    MakeHomeDirs(fsys, home);
    ghost var f1 := fsys.entries;
    SkillsKeep(f1, pkg, home);
    SkillsHomeMade(f1, home);
    InstallSkills(fsys, pkg, SkillsHome(home));
    CopyMarkdown(fsys, pkg, home, version);
  }

  lemma SkillsHomeMade(f: FileMap, home: Path)
    requires HomeDirsMade(f, home)
    ensures forall i :: 0 <= i <= |SkillsHome(home)| ==> IsDir(f, SkillsHome(home)[..i])
  {
    forall i | 0 <= i <= |SkillsHome(home)|
      ensures IsDir(f, SkillsHome(home)[..i])
    {
      if i <= |ClaudeHome(home)| { assert SkillsHome(home)[..i] == ClaudeHome(home)[..i]; }
      else { assert SkillsHome(home)[..i] == SkillsHome(home); }
    }
  }

  /** Rules and agents copied, then the version marker written (bin/cli.js:174-194). */
  method CopyMarkdown(fsys: FileSystem, pkg: FileMap, home: Path, version: string)
    requires fsys.Valid() && HomeDirsMade(fsys.entries, home)
    requires MarkdownSafe(fsys.entries, pkg, PkgRules, RulesHome(home)) && MarkdownSafe(fsys.entries, pkg, PkgAgents, AgentsHome(home))
    requires !IsDir(fsys.entries, VersionFile(home))
    modifies fsys
    ensures fsys.Valid()
    ensures var f2 := old(fsys.entries);
            var f3 := if PkgRules in pkg then CopyNames(f2, pkg, PkgRules, RulesHome(home), FilesEndingWith(pkg, PkgRules, ".md"), None) else f2;
            var f4 := if PkgAgents in pkg then CopyNames(f3, pkg, PkgAgents, AgentsHome(home), FilesEndingWith(pkg, PkgAgents, ".md"), None) else f3;
            fsys.entries == Write(MkdirAll(f4, ClaudeHome(home)), VersionFile(home), Text(version + "\n"))
  {
    ghost var f2 := fsys.entries;
    RulesKeep(f2, pkg, home);
    if PkgRules in pkg {
      fsys.CopyMatching(pkg, PkgRules, RulesHome(home), ".md", None);
    }
    ghost var f3 := fsys.entries;
    AgentsKeep(f3, pkg, home);
    if PkgAgents in pkg {
      fsys.CopyMatching(pkg, PkgAgents, AgentsHome(home), ".md", None);
    }
    WriteVersion(fsys, home, version);
  }

  /** `installGlobals(force)`: returns whether the gate let it run. */
  method InstallGlobals(fsys: FileSystem, pkg: FileMap, home: Path, version: string, force: bool) returns (updated: bool)
    requires fsys.Valid() && TreeShaped(pkg)
    requires Semver.NeedsUpdate(force, ReadVersion(fsys.entries, home), version) ==> InstallSafe(fsys.entries, pkg, home)
    modifies fsys
    ensures fsys.Valid()
    ensures updated == Semver.NeedsUpdate(force, ReadVersion(old(fsys.entries), home), version)
    ensures fsys.entries == AfterInstall(old(fsys.entries), pkg, home, version, force)
  {
    var installed := ReadVersion(fsys.entries, home);
    updated := NeedsUpdateStep(force, installed, version);
    if updated {
      RunInstall(fsys, pkg, home, version);
    }
  }

  // ---------------------------------------------------------------- the marker closes the gate

  /** After an install the marker reads back as the package version. */
  lemma InstalledMarker(fs: FileMap, pkg: FileMap, home: Path, version: string)
    requires Strings.IsTrimmed(version)
    ensures ReadVersion(Installed(fs, pkg, home, version), home) == Some(version)
  {
    TrimLine(version);
  }

  /**
   * A second `installGlobals(false)` with the same package does nothing: the
   * marker written by the first closes the version gate.
   */
  lemma SecondInstallSkipped(fs: FileMap, pkg: FileMap, home: Path, version: string, force: bool)
    requires Strings.IsTrimmed(version) && version != ""
    requires Semver.NeedsUpdate(force, ReadVersion(fs, home), version)
    ensures var g := AfterInstall(fs, pkg, home, version, force);
            !Semver.NeedsUpdate(false, ReadVersion(g, home), version) &&
            AfterInstall(g, pkg, home, version, false) == g
  {
    InstalledMarker(fs, pkg, home, version);
    Semver.NeedsUpdateSameVersion(version);
  }
}
