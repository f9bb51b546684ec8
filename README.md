# cc-workspace CLI core, modelled in Dafny

`cc-workspace` is a command-line tool that installs an "orchestrator" for
multi-repository work with Claude agents. It copies skills, rules and agents
into `~/.claude/`. It creates an `orchestrator/` directory next to the
sibling repositories of a workspace, holding hooks, a generated
`settings.json`, templates, plans, session records and an `e2e/` skeleton.
It keeps that directory in step with the package on `update`. It manages
session records through `session list | status | close`.

This project models the core of `bin/cli.js` on an abstract filesystem and
proves properties of that model.

- **Filesystem.** `Fs.FileMap` maps paths (sequences of names) to entries.
  An entry is a directory or a file, and a file has content and a mode. The
  `Fs.FileSystem` class holds that map in a field. Its methods are
  `mkdirSync({recursive})`, `writeFileSync`, `copyFileSync`, `unlinkSync`
  and `chmodSync`, plus `copyDir` and the filtered copy loops. Each method
  keeps the map tree-shaped, and each has preconditions that rule out the
  cases where Node's `fs` would throw.
- **Version gate.** `semverCompare` compares the first three dot-separated
  components as numbers. `needsUpdate` decides whether the globals are
  reinstalled, and the `update` command then runs the local sync under the
  gate at line 810.
- **Global install.** `installGlobals` mirrors the skill directories. It
  copies the rule and agent files and then writes the version marker.
- **Local sync.** `updateLocal` is specified by a classification of every
  path:
  - generated hook scripts, `settings.json`, templates, `CLAUDE.md` and
    `plans/_TEMPLATE.md`;
  - obsolete hook scripts, which are removed;
  - scaffold directories (`.sessions/` and `e2e/`), created only when
    missing;
  - everything else, which is preserved.

  The method is proved equal to the per-path function `Sync.Synced`, and
  the function is proved idempotent.
- **First-time setup.** `setupWorkspace` first creates the directory
  skeleton and copies the templates. `workspace.md` and `constitution.md`
  are scaffolded only when absent. Next come the hooks, then the
  regenerated `settings.json`, then the `CLAUDE.md`, plan template and
  `.gitignore` files, each written only when missing. Last come the sibling
  repository scan and `plans/service-profiles.md`. `detectProjectType` is
  proved to be a first-match rule over two priority tables.
- **Hook registration.** `generateSettings` is a constant table, and its
  shape is stated as lemmas.
- **Session records.** `readSessions` takes an abstract JSON parser. The
  `session status` report shows at most 10 commit lines per repository.
  `session close` runs in three phases over a scripted list of answers,
  with oracles for the `gh` and `git` calls.

Modules, one per file:
- `Common` (`common.dfy`);
- `Strings` (`strings.dfy`): split, join, trim and the like;
- `Semver` (`semver.dfy`);
- `Fs` (`filesystem.dfy`);
- `Hooks` (`hooks.dfy`);
- `Projects` (`projects.dfy`);
- `Install` (`install.dfy`);
- `Sync` (`sync.dfy`): the specification of `updateLocal`;
- `SyncRun` (`sync_run.dfy`): its imperative run;
- `Setup` (`setup.dfy`);
- `Sessions` (`sessions.dfy`);
- `Commands` (`commands.dfy`): `update` and the session commands on the
  filesystem.

Where the project's own description and `bin/cli.js` disagree, the model
follows the code:
- Without `--force`, `needsUpdate` is false also when the installed version
  is newer than the package.
- `updateLocal` never creates `plans/`. It rewrites `plans/_TEMPLATE.md`
  only when `plans/` exists.
- `updateLocal` regenerates `settings.json` only when `.claude/` exists.
- No code path sets the session status `closing`. `session close` writes
  `closed`.
- A record that cannot be parsed makes `session status` and `session close`
  throw. Only `session list` skips it. The model reports the throw as
  `Commands.Corrupt`.

## Model

| member | source | states |
|---|---|---|
| Strings.Split | bin/cli.js:86-87 | `split` yields at least one part, no part holds the separator, and joining the parts gives the input back |
| Strings.SplitJoin | bin/cli.js:86-87 | splitting the join of separator-free parts gives the same parts back (the other half of the round trip) |
| Strings.SplitConcat | bin/cli.js:86-87 | splitting around one separator is the concatenation of the two splits |
| Strings.SplitCount | bin/cli.js:939 | the number of parts is the number of separators plus one |
| Strings.ContainsAt | bin/cli.js:106 | `includes` holds exactly when the keyword occurs at some index |
| Strings.TrimStart | bin/cli.js:76 | the result is a suffix of the input and does not start with JS whitespace |
| Strings.TrimEnd | bin/cli.js:76 | the result is a prefix of the input and does not end with JS whitespace |
| Strings.TrimLine | bin/cli.js:76-82 | trimming a trimmed version written with a trailing newline gives the version back |
| Strings.Lower | bin/cli.js:983 | `toLowerCase` keeps the length and lowers ASCII letters position by position |
| Semver.LexCompare | bin/cli.js:88-92 | the loop's result is -1, 0 or 1, and 0 exactly when all three components are equal |
| Semver.LexFirstDifference | bin/cli.js:88-92 | the first differing component decides the sign of the comparison |
| Semver.SemverCompare | bin/cli.js:85-93 | the loop over `i < 3` returns the comparison of the three components, always -1, 0 or 1 |
| Semver.LexAntisymmetric | bin/cli.js:88-92 | swapping the arguments negates the component comparison |
| Semver.LexTransitive | bin/cli.js:88-92 | the component order is transitive |
| Semver.CompareSelf | bin/cli.js:85-93 | every version compares equal to itself |
| Semver.CompareAntisymmetric | bin/cli.js:85-93 | `semverCompare(a, b) == -semverCompare(b, a)` |
| Semver.CompareTransitive | bin/cli.js:85-93 | `semverCompare` is a transitive order |
| Semver.CompareIgnoresTail | bin/cli.js:88 | components after the third do not affect the result |
| Semver.DecimalString | bin/cli.js:86 | the decimal digits of `n` read back as `n` |
| Semver.KeyOfFormat | bin/cli.js:86-87 | reading a formatted `major.minor.patch` gives the three numbers back |
| Semver.CompareFormatted | bin/cli.js:85-93 | on formatted versions `semverCompare` is the lexicographic order of the numbers |
| Semver.NeedsUpdateSkips | bin/cli.js:95-100 | without force, the install is skipped exactly when a non-empty installed version is at least the package's |
| Semver.NeedsUpdateForced | bin/cli.js:96 | `--force` always reinstalls |
| Semver.NeedsUpdateSameVersion | bin/cli.js:95-100 | reinstalling the same version is skipped |
| Semver.NeedsUpdateScenarios | bin/cli.js:95-100 | older installed → update; equal → skip; forced → update; newer installed → skip |
| Semver.UpdateGate | bin/cli.js:810 | `updated \|\| force` equals the version gate itself |
| Fs.Prefixes | bin/cli.js:61 | the set holds exactly the ancestors of a path, itself included |
| Fs.AncestorsAreDirs | bin/cli.js:61 | in a tree-shaped map every ancestor of an entry is a directory |
| Fs.Write | bin/cli.js:80-83 | `writeFileSync` replaces the one path with a file of the new content, keeps an existing file's mode, and changes nothing else |
| Fs.CopyEntry | bin/cli.js:63 | `copyFileSync` puts the source file at the target and changes nothing else |
| Fs.MkdirAll | bin/cli.js:61 | recursive `mkdirSync` adds the missing ancestors of the path as directories and keeps every existing entry |
| Fs.RemoveNames | bin/cli.js:434-437 | exactly the named children of the directory disappear |
| Fs.FilesEndingWith | bin/cli.js:440-441 | the names are exactly the files of the directory with the suffix |
| Fs.CopyNames | bin/cli.js:440-444 | each selected file lands in the target directory (mode set when asked), and nothing else changes |
| Fs.ChildNames | bin/cli.js:67 | `readdirSync` lists exactly the children of the directory |
| Fs.CopyTree | bin/cli.js:65-72 | `copyDir` mirrors the source subtree below the target: package files overwrite, existing directories stay |
| Fs.CopyTreeShaped | bin/cli.js:65-72 | a safe `copyDir` keeps the tree shape |
| Fs.FileSystem.MakeDirs | bin/cli.js:61 | in place: the new map is `MkdirAll` of the old one |
| Fs.FileSystem.WriteFile | bin/cli.js:80-83 | in place: the new map is `Write` of the old one |
| Fs.FileSystem.CopyFile | bin/cli.js:63 | in place: the new map is `CopyEntry` of the old one |
| Fs.FileSystem.Unlink | bin/cli.js:436 | in place: exactly the file is removed |
| Fs.FileSystem.Chmod | bin/cli.js:443 | in place: only the file's mode changes |
| Fs.FileSystem.CopyDir | bin/cli.js:65-72 | the recursive copy equals `CopyTree` |
| Fs.FileSystem.CopyMatching | bin/cli.js:439-446 | the readdir-and-filter loop equals `CopyNames` over the matching files |
| Hooks.GenerateSettings | bin/cli.js:201-259 | the env table; nine distinct events, one group with one command each; a matcher exactly on PreToolUse and PostToolUse; every command runs a `.sh` script under the hooks directory; no obsolete script is registered |
| Hooks.TableRows | bin/cli.js:218-258 | the registration table has nine well-formed rows with distinct events |
| Hooks.ScriptOfCommandLine | bin/cli.js:207 | the script name can be read back from its command line |
| Hooks.RegisteredScripts | bin/cli.js:223-257 | the registered scripts, one per event, in document order |
| Projects.FirstMarker | bin/cli.js:109-114 | the first rule whose marker file exists decides; no earlier rule matches |
| Projects.DetectIsFirstMatch | bin/cli.js:103-124 | `detectProjectType` is the first match over the marker table, then over the `package.json` keyword table |
| Install.SkillNames | bin/cli.js:163-166 | the skills are exactly the top-level package directories other than rules, agents, hooks and templates |
| Install.ReadVersion | bin/cli.js:75-78 | a version is read only from an existing marker file |
| Install.CopySkills | bin/cli.js:165-169 | each skill directory is mirrored under `~/.claude/skills`, nothing else changes |
| Install.InstallSkills | bin/cli.js:165-169 | the loop over the package listing equals `CopySkills` of all skills |
| Install.NeedsUpdateStep | bin/cli.js:95-100 | the gate computed step by step equals `needsUpdate` |
| Install.RunInstall | bin/cli.js:160-195 | the install run equals the `Installed` specification |
| Install.InstallGlobals | bin/cli.js:146-197 | returns the gate; installs when it passes, changes nothing when it does not |
| Install.InstalledMarker | bin/cli.js:80-83 | after the install the marker reads back as the package version |
| Install.SecondInstallSkipped | bin/cli.js:146-153 | right after an install, an unforced second run is skipped and changes nothing |
| Sync.FindOrchDir | bin/cli.js:416-424 | `cwd` if it holds `workspace.md`, else `cwd/orchestrator` if that does, else none |
| Sync.ScaffoldPaths | bin/cli.js:483-498 | the scaffold paths are `.sessions/` and the five `e2e/` leaves with their ancestors |
| Sync.Synced | bin/cli.js:414-506 | each path of the result is given by its classification |
| Sync.SyncedDomain | bin/cli.js:414-506 | the sync introduces only hook scripts, templates, generated files and scaffold directories |
| Sync.UpdateIsClassified | bin/cli.js:414-506 | the eight phases in source order equal the per-path classification |
| Sync.NothingElseChanges | bin/cli.js:500-501 | paths outside `.claude/`, `templates/`, `CLAUDE.md`, `plans/` and the scaffolds are untouched |
| Sync.PreservesDocuments | bin/cli.js:500-501 | `workspace.md` and `constitution.md` are never changed |
| Sync.HooksSynced | bin/cli.js:429-448 | when the hooks directory exists: package `.sh` scripts are copied with mode 0755, obsolete ones are removed, others are kept |
| Sync.HookClassify | bin/cli.js:429-448 | a hook path is generated, obsolete or preserved, in that priority |
| Sync.SettingsSynced | bin/cli.js:450-455 | `settings.json` is regenerated exactly when `.claude/` exists |
| Sync.SettingsClassify | bin/cli.js:450-455 | `settings.json` is generated exactly when `.claude/` exists |
| Sync.TemplatesSynced | bin/cli.js:457-469 | package `.md` templates overwrite local ones only when both template directories exist |
| Sync.TemplateClassify | bin/cli.js:457-469 | a template path is generated exactly when both directories exist and the package has it |
| Sync.AgentContextSynced | bin/cli.js:471-474 | `CLAUDE.md` is always rewritten with the generated content |
| Sync.PlanTemplateSynced | bin/cli.js:476-481 | `plans/_TEMPLATE.md` is rewritten exactly when `plans/` exists |
| Sync.PlanTemplateClassify | bin/cli.js:476-481 | the plan template is generated exactly when `plans/` exists |
| Sync.SessionsSynced | bin/cli.js:483-488 | `.sessions/` is created when missing; an existing one is left as it is |
| Sync.E2eKept | bin/cli.js:490-498 | an existing `e2e/` and everything under it are left as they are |
| Sync.E2eCreated | bin/cli.js:490-498 | a missing `e2e/` gets all five leaf directories |
| Sync.E2eClassify | bin/cli.js:490-498 | an `e2e/` path is scaffold exactly when `e2e/` and the path are missing and it lies on a leaf path |
| Sync.ManagedDirClassify | bin/cli.js:429-481 | the managed directories themselves are never created or removed |
| Sync.ConditionsAfter | bin/cli.js:414-506 | the sync keeps which managed directories exist and leaves `.sessions/` and `e2e/` present |
| Sync.ClassifyAfter | bin/cli.js:414-506 | after a sync every path keeps its class, except that scaffolds become preserved |
| Sync.SyncedAtTwice | bin/cli.js:414-506 | syncing a synced tree gives the same entry at every path |
| Sync.UpdateIdempotent | bin/cli.js:414-506 | running `updateLocal` twice equals running it once |
| SyncRun.OrchDirsOfWorkspace | bin/cli.js:416-424 | a found orchestrator directory and its ancestors are directories |
| SyncRun.RemoveObsolete | bin/cli.js:433-437 | the loop over the four obsolete names removes exactly those that exist |
| SyncRun.SyncHooksStep | bin/cli.js:429-448 | the hooks phase equals `SyncHooks` |
| SyncRun.RegenerateSettingsStep | bin/cli.js:450-455 | the settings phase equals `RegenerateSettings` |
| SyncRun.SyncTemplatesStep | bin/cli.js:457-469 | the templates phase equals `SyncTemplates` |
| SyncRun.WriteAgentContextStep | bin/cli.js:471-474 | the `CLAUDE.md` phase is one write |
| SyncRun.RegeneratePlanTemplateStep | bin/cli.js:476-481 | the plan-template phase equals `RegeneratePlanTemplate` |
| SyncRun.EnsureSessionsStep | bin/cli.js:483-488 | the `.sessions/` phase equals `EnsureSessions` |
| SyncRun.EnsureE2eStep | bin/cli.js:490-498 | the `e2e/` phase equals `EnsureE2e` |
| SyncRun.UpdateLocal | bin/cli.js:414-506 | returns whether an orchestrator was found; unchanged if not, else the new tree is `Synced` of the old |
| Setup.SkeletonDirs | bin/cli.js:514-522 | the skeleton has nine directories |
| Setup.MkdirAllSeq | bin/cli.js:514-522 | the nine `mkdirp` calls add exactly the missing ancestors of the skeleton and keep every entry |
| Setup.ScaffoldDoc | bin/cli.js:534-561 | an existing document is kept; otherwise the local template is copied, or else the stub is written; nothing else changes |
| Setup.WriteIfMissing | bin/cli.js:583-610 | an existing file is kept, a missing one is written, nothing else changes |
| Setup.ScanSiblings | bin/cli.js:612-626 | the loop over the listing yields `ScanRepos` and exactly its repositories without `CLAUDE.md` |
| Setup.ScanSound | bin/cli.js:617-623 | every scanned entry is a non-orchestrator directory with `.git`, described by `detectProjectType` and its `CLAUDE.md` flag |
| Setup.ScanComplete | bin/cli.js:617-623 | every listed repository is scanned |
| Setup.ScanDistinct | bin/cli.js:617-625 | the scanned names come from the listing, and a listing without repeats gives each repository once |
| Setup.ScanExactly | bin/cli.js:617-625 | over the workspace's real listing, a name is scanned exactly when it is a non-orchestrator directory with `.git`, and only once |
| Setup.WithoutClaudeExactly | bin/cli.js:624 | the warning list holds exactly the scanned repositories without `CLAUDE.md` |
| Setup.ScanAppend | bin/cli.js:617-625 | scanning a listing in two parts gives the two scans one after the other, so repositories keep listing order |
| Setup.ScanSingle | bin/cli.js:618-623 | one listed name yields its repository record when it is a non-orchestrator directory with `.git`, and nothing otherwise |
| Setup.WithoutClaudeAppend | bin/cli.js:624 | the warning list of two runs of repositories is the two lists one after the other, so names keep order and multiplicity |
| Setup.WithoutClaudeSingle | bin/cli.js:624 | one repository contributes its name exactly when it lacks `CLAUDE.md` |
| Setup.OnlyTargetsTrans | bin/cli.js:508-655 | setup steps that touch only their target files compose |
| Setup.ReadyKept | bin/cli.js:525-655 | once the skeleton exists, steps that write only target files keep it, keep every overwritten path a non-directory and keep the scaffold documents copyable |
| Setup.TargetsNotSkeleton | bin/cli.js:514-610 | no file setup writes lies on a skeleton directory |
| Setup.SkeletonReady | bin/cli.js:514-522 | after the skeleton, the orchestrator, `.claude/` and the nine directories are directories, and no path written over has become one |
| Setup.RestOnlyTargets | bin/cli.js:525-655 | after the skeleton, setup changes only its target files, and each becomes a file |
| Setup.SiblingsUntouched | bin/cli.js:508-655 | no sibling repository entry changes |
| Setup.ScanSeesOriginal | bin/cli.js:612-626 | the scan after the writes sees exactly the repositories of the original tree |
| Setup.ProfilesWritten | bin/cli.js:642-654 | `plans/service-profiles.md` holds the profiles of the scanned repositories |
| Setup.SetupReady | bin/cli.js:508-655 | after setup, the skeleton directories exist and no path written over (`settings.json`, service profiles, template and hook copies) is a directory |
| Setup.SkippedDirSafe | bin/cli.js:534-610 | a directory at `workspace.md`, `constitution.md`, `CLAUDE.md`, `plans/_TEMPLATE.md` or `.gitignore` does not make the run throw, because `existsSync` skips it |
| Setup.SkippedDirKept | bin/cli.js:534-610 | such a directory is left in place by the run |
| Setup.StubText | bin/cli.js:534-610 | exactly the two scaffold stubs and `.gitignore` have their literal text spelled out here |
| Setup.TemplateCopied | bin/cli.js:525-532 | each package `.md` template lands in `templates/`; other names keep their old entry |
| Setup.WorkspaceDocOutcome | bin/cli.js:525-544 | `workspace.md`: kept if present, else the package template, else a local template, else the stub |
| Setup.ConstitutionDocOutcome | bin/cli.js:525-561 | `constitution.md`: kept if present, else the package template, else a local template, else the stub |
| Setup.GeneratedDocsOutcome | bin/cli.js:583-610 | `CLAUDE.md`, `plans/_TEMPLATE.md` and `.gitignore` are kept when present and generated with the default mode when missing |
| Setup.SettingsRegenerated | bin/cli.js:579-581 | `settings.json` is always the generated document, keeping a previous file's mode |
| Setup.HookInstalled | bin/cli.js:564-577 | each package `.sh` hook is installed with mode 0755 |
| Setup.SetupThenFound | bin/cli.js:508-655 | after setup the session commands find the new orchestrator from inside it |
| Setup.MakeSkeleton | bin/cli.js:514-522 | the nine `mkdirp` calls equal `MkdirAllSeq` |
| Setup.CopyTemplatesStep | bin/cli.js:525-532 | the templates loop equals `CopyTemplates` and keeps the skeleton |
| Setup.ScaffoldStep | bin/cli.js:534-561 | one document scaffolded in place equals `ScaffoldDoc` |
| Setup.CopyHooksStep | bin/cli.js:564-577 | the hooks loop equals `CopyHooks` |
| Setup.SetupWorkspace | bin/cli.js:508-679 | the whole run equals `Setup` of the old tree; given the workspace's listing, it returns each repository of the old tree exactly once, and those without `CLAUDE.md` |
| Sessions.ReadSessions | bin/cli.js:770-781 | no `.sessions/` gives no records; never more records than entries |
| Sessions.ParseAllAppend | bin/cli.js:773-780 | reading is entry by entry, in directory order |
| Sessions.CorruptRecordSkipped | bin/cli.js:775-780 | an unreadable or unparsable entry is dropped without affecting the others |
| Sessions.OneGoodOneBad | bin/cli.js:770-781 | a good record next to a corrupt one is listed alone |
| Sessions.ShownLines | bin/cli.js:939 | at most 10 lines are shown, as a prefix of the output's lines; all lines when there are at most 10 |
| Sessions.StatusReport | bin/cli.js:925-948 | one report per binding, in order; commits are read only for created branches whose repo has `.git`; a failed read is reported for that repo only; shown commits are the first lines (at most 10) of that repo's trimmed log |
| Sessions.AcceptsExactly | bin/cli.js:983 | an answer accepts exactly when it is `y` or `Y` |
| Sessions.Created | bin/cli.js:975-976 | only bindings whose branch was created are offered |
| Sessions.UnpushedCount | bin/cli.js:1005-1006 | the corrected count: one more than the number of newlines |
| Sessions.UnpushedCountAsWrittenIsOne | bin/cli.js:1006 | the count as written is 1 for any output without a backslash, however many lines it has |
| Sessions.UnpushedCountEscapedSubject | bin/cli.js:1006 | one commit whose subject holds the two characters `\n` counts as 2 as written, 1 corrected |
| Sessions.UnpushedCountFinding | bin/cli.js:1006 | two commits: 1 as written, 2 corrected |
| Sessions.AttemptsSnoc | bin/cli.js:974-991 | each offer consumes one answer, and a call is made only on acceptance |
| Sessions.OfferPullRequests | bin/cli.js:974-991 | the first loop makes the PR calls `Attempts` prescribes and says whether the answers lasted |
| Sessions.OfferBranchDeletions | bin/cli.js:994-1022 | the second loop warns before each offer and makes the deletion calls `Attempts` prescribes |
| Sessions.CloseSession | bin/cli.js:972-1034 | the three phases equal `CloseSpec`; its warnings carry the corrected count of `Sessions.UnpushedCount`, not the count as written at line 1006 |
| Sessions.AttemptsExactly | bin/cli.js:980-1015 | a call is made for a binding exactly when its own answer accepts |
| Sessions.CreatedExactly | bin/cli.js:975-976 | a binding is offered exactly when it is in the record and its branch was created |
| Sessions.CallsOnlyForCreated | bin/cli.js:972-1022 | no `gh` or `git` call is made for a repository whose branch was not created |
| Sessions.FailuresIsolated | bin/cli.js:984-1021 | a failing call changes neither later prompts nor the final disposition |
| Sessions.RecordOutcome | bin/cli.js:1024-1034 | with k created branches, the close ends exactly when the answers last 2k+1; the record is deleted exactly on `y`/`Y`, otherwise rewritten with status `closed` |
| Sessions.CloseScenario | bin/cli.js:972-1034 | two repositories, one created branch, answers y/n/n: one PR, no deletion, record marked closed |
| Commands.Report | bin/cli.js:811-819 | "already up to date" exactly when neither updated nor forced; "globals + local" exactly when updated or forced and the local sync ran, "globals only" exactly when updated or forced and it did not |
| Commands.Update | bin/cli.js:806-821 | the globals are installed under the gate, then the local sync runs exactly when `updated \|\| force` and an orchestrator is found |
| Commands.UpToDateUnchanged | bin/cli.js:806-821 | an unforced update of an up-to-date install changes nothing |
| Commands.LocalRunsIffGate | bin/cli.js:810 | the local sync runs exactly when the gate passes, always under `--force` |
| Commands.MarkerNotSynced | bin/cli.js:414-506 | the local sync never changes the global version marker |
| Commands.UnforcedAtVersion | bin/cli.js:806-821 | an unforced update when the marker holds the package version changes nothing |
| Commands.MarkerAfterUpdate | bin/cli.js:806-821 | after an update that ran, the marker reads back as the package version |
| Commands.SecondUpdateUnchanged | bin/cli.js:806-821 | an unforced `update` right after a successful one changes nothing |
| Commands.ListSessions | bin/cli.js:890-893 | `session list` reads nothing without `.sessions/` and never lists more than its entries; a `.sessions` that is a file is excluded, since `readdirSync` throws there |
| Commands.LookUp | bin/cli.js:911-922 | each outcome holds exactly in its own case: no orchestrator, an empty name, a missing record file, a record that cannot be read or parsed; a found session is the one the record file parses to |
| Commands.SessionStatus | bin/cli.js:910-949 | a report exactly when the record is found; the report is `StatusReport` of the found record, one entry per binding |
| Commands.SessionClose | bin/cli.js:951-1040 | when the record is not found nothing changes; otherwise the close runs as `CloseSpec` and only the record file is deleted or rewritten |
| Commands.CloseTouchesOnlyRecord | bin/cli.js:1024-1034 | every other path is unchanged; a deleted record is gone; a closed record reads back as the serialized session |

## Left out

- Console output is not modelled: banners, `log`, `ok`, `warn`, `fail`, colours, `typeBadge`, `sessionStatusBadge` and the counters shown in messages.
- The exit codes and `process.exit` are not modelled. The failure cases are returned as values (`Commands.Lookup`).
- Commands that do not change the modelled state are left out: `doctor`, `version`, `help` and the argument dispatch.
- The `init` command's wiring is left out. It calls `installGlobals(false)` and then `setupWorkspace`, and both are modelled on their own.
- The bodies of `claudeMdContent` and `planTemplateContent` are long constant texts. They are represented by the content tags `AgentContext(version)` and `PlanTemplate`. The two scaffold stubs and the `.gitignore` text are likewise the tags `WorkspaceStub(project)`, `ConstitutionStub(project)` and `Gitignore`; their letters are spelled out by `Setup.WorkspaceStubText`, `Setup.ConstitutionStubText` and `Setup.GitignoreText`, but the contracts speak of the tags.
- The service-profile text is represented by `ServiceProfiles(project, repos)`. Its `Generated:` date stamp comes from the clock and is not modelled.
- `JSON.parse` and `JSON.stringify` are parameters `parse` and `serialize`. `session list` passes the same parser to every record.
- `readline` is a scripted sequence of answers.
- The `git` and `gh` subprocesses are oracles. They say whether a call succeeded, whether `.git` exists, the log output and the unpushed-commit output.
- `path.resolve`, `process.cwd()` and `HOME` are path parameters.
- The order of `readdirSync` is a `listing` parameter for the sibling scan and an `order` parameter for `.sessions/`. Elsewhere copy loops are modelled as sets of names, because there the order does not change the result.
- `Semver.Part` treats only strings of decimal digits as numbers, and other components count as 0. JavaScript's `Number` also accepts surrounding whitespace, a sign, hexadecimal, exponents and `Infinity`, and those cases are not modelled.
- `Semver.Part` compares components exactly as unbounded integers. JavaScript's `Number` rounds components above 2^53 to doubles, so `9007199254740993.0.0` and `9007199254740992.0.0` compare equal in the source (0) but not in the model (1).
- `Strings.Lower` lowers ASCII letters only. No other character lowers to `y`, so the `[y/N]` decision is unaffected.
- Node's `fs` throws in some cases: writing where a directory stands, copying from a directory, creating a directory through a file, or listing a file as a directory. Those cases are preconditions of the modelled operations: `Install.InstallSafe`, `SyncRun.UpdateSafe`, `Setup.SetupSafe` and the `.sessions` requirement of `Commands.ListSessions`. `Setup.SetupSafe` excludes only the paths `setupWorkspace` writes over (`settings.json`, the service profiles, the template and hook copies) and a local template that would be copied; a directory where a document is written only when absent is admitted (`Setup.SkippedDirSafe`).
- Permissions, symbolic links, the file timestamps, concurrent changes to the disk and partial failure midway through a command are not modelled.
- Sessions.ReadSessions: does not model `JSON.parse` yielding a falsy value as separate from failing. Both drop the entry, as `.filter(Boolean)` does.
- Commands.LookUp: a record file that parses to a falsy JSON value (`0`, `false`, `""`) is reported as `Corrupt`, because the shared `parse` answers `None` for it. In the source such a value does not throw (only `null` does, at `session.name`), and `session status` and `session close` go on with no bindings; `close` then writes the value back unchanged.
- UnpushedCountAsWrittenIsOne: covers output without a backslash only. A commit subject holding the two characters `\n` makes the count as written larger (`Sessions.UnpushedCountEscapedSubject`).
- Commands.ListSessions: states its bounds only. Per-entry behaviour is stated by `Sessions.ParseAllAppend` and `Sessions.CorruptRecordSkipped`.

## Findings

| source | as written | input that shows it | evidently intended | confidence | as-written member | corrected member |
|---|---|---|---|---|---|---|
| bin/cli.js:1006 | `unpushed.split("\\n").length` splits on a literal backslash followed by `n`, so output without a backslash (the usual `--oneline` log) counts as 1 unpushed commit however many lines it has | `git log` output `"c1\nc2"` (two commits): reported as 1 | split on the newline character, which counts one per line: 2 | high (not executed) | Sessions.UnpushedCountAsWritten (shown by Sessions.UnpushedCountFinding and Sessions.UnpushedCountAsWrittenIsOne) | Sessions.UnpushedCount (used by Sessions.WarningFor) |
