/**
 * Session records under `.sessions/` and the two session commands that act on
 * them in bin/cli.js: `readSessions` (used by `session list`), the report of
 * `session status`, and the three-phase interactive `session close`.
 * Prompts are a scripted sequence of answers; the git and gh subprocesses are
 * oracles that say, per repository, whether the call succeeds.
 */
module Sessions {
  import opened Common
  import opened Strings

  /** One entry of a record's `repos` object. */
  datatype RepoBinding = RepoBinding(path: string, sourceBranch: string, sessionBranch: string, branchCreated: bool)

  /**
   * A parsed record: its fields, the `repos` object in `Object.entries` order,
   * and any other properties of the JSON object, kept as they were read.
   */
  datatype Session = Session(
    name: string, status: string, created: string,
    repos: seq<(string, RepoBinding)>, others: seq<(string, string)>)

  // ---------------------------------------------------------------- readSessions

  /** A directory entry of `.sessions/`: its name and its text when it reads as a file. */
  datatype DirEntry = DirEntry(name: string, text: Option<string>)

  /**
   * What one entry contributes: the record, when the name ends in `.json`, the
   * file can be read and `parse` accepts its text. `parse` stands for
   * `JSON.parse` followed by `.filter(Boolean)`: it answers `None` where
   * `JSON.parse` throws and where it yields a falsy value.
   */
  function ParseEntry(e: DirEntry, parse: string -> Option<Session>): Option<Session> {
    if EndsWith(e.name, ".json") && e.text.Some? then parse(e.text.value) else None
  }

  /** The records one entry contributes: none or one. */
  function Records(e: DirEntry, parse: string -> Option<Session>): seq<Session> {
    match ParseEntry(e, parse) case Some(s) => [s] case None => []
  }

  function ParseAll(entries: seq<DirEntry>, parse: string -> Option<Session>): seq<Session>
    decreases |entries|
  {
    if entries == [] then [] else Records(entries[0], parse) + ParseAll(entries[1..], parse)
  }

  /** `readSessions(orchDir)`: `dir` is the listing of `.sessions/` in directory order, `None` when it is missing. */
  function ReadSessions(dir: Option<seq<DirEntry>>, parse: string -> Option<Session>): (r: seq<Session>)
    ensures dir == None ==> r == []
    ensures dir.Some? ==> |r| <= |dir.value|
  {
    match dir
    case None => []
    case Some(entries) => ParseAllLength(entries, parse); ParseAll(entries, parse)
  }

  lemma {:induction false} ParseAllLength(entries: seq<DirEntry>, parse: string -> Option<Session>)
    ensures |ParseAll(entries, parse)| <= |entries|
    decreases |entries|
  {
    if entries != [] {
      ParseAllLength(entries[1..], parse);
    }
  }

  /**
   * Listing is compositional: the records of two runs of entries are the
   * records of each, in order. With `ParseAllSingle` this pins the result down
   * to the parsed records, in directory order.
   */
  lemma {:induction false} ParseAllAppend(a: seq<DirEntry>, b: seq<DirEntry>, parse: string -> Option<Session>)
    ensures ParseAll(a + b, parse) == ParseAll(a, parse) + ParseAll(b, parse)
    decreases |a|
  {
    if a != [] {
      assert (a + b)[0] == a[0];
      assert (a + b)[1..] == a[1..] + b;
      ParseAllAppend(a[1..], b, parse);
    } else {
      assert a + b == b;
    }
  }

  /** One entry gives its record when it parses and nothing when it does not. */
  lemma ParseAllSingle(e: DirEntry, parse: string -> Option<Session>)
    ensures ParseAll([e], parse) == if ParseEntry(e, parse).Some? then [ParseEntry(e, parse).value] else []
  {
    assert [e][1..] == [];
  }

  /** A corrupt record is skipped and never stops the records after it from being listed. */
  lemma CorruptRecordSkipped(a: seq<DirEntry>, bad: DirEntry, b: seq<DirEntry>, parse: string -> Option<Session>)
    requires ParseEntry(bad, parse) == None
    ensures ReadSessions(Some(a + [bad] + b), parse) == ReadSessions(Some(a + b), parse)
  {
    ParseAllAppend(a + [bad], b, parse);
    ParseAllAppend(a, [bad], parse);
    ParseAllAppend(a, b, parse);
    ParseAllSingle(bad, parse);
  }

  /** One well-formed and one malformed record: exactly the well-formed one is listed. */
  lemma OneGoodOneBad(good: DirEntry, bad: DirEntry, parse: string -> Option<Session>)
    requires ParseEntry(good, parse).Some? && ParseEntry(bad, parse) == None
    ensures ReadSessions(Some([good, bad]), parse) == [ParseEntry(good, parse).value]
  {
    ParseAllAppend([good], [bad], parse);
    assert [good] + [bad] == [good, bad];
    ParseAllSingle(good, parse);
    ParseAllSingle(bad, parse);
  }

  // ---------------------------------------------------------------- session status

  /** At most this many commit lines are shown per repository. */
  const MaxShownCommits: nat := 10

  /** `commits.split("\n").slice(0, 10)`. */
  function ShownLines(commits: string): (r: seq<string>)
    ensures |r| <= MaxShownCommits && |r| <= |Split(commits, '\n')|
    ensures r == Split(commits, '\n')[..|r|]
    ensures |Split(commits, '\n')| <= MaxShownCommits ==> r == Split(commits, '\n')
  {
    var lines := Split(commits, '\n');
    if |lines| <= MaxShownCommits then lines else lines[..MaxShownCommits]
  }

  /** What `session status` shows for one repository. */
  datatype CommitView =
    | NotShown                    // branch not created, or no `.git` in the repository
    | Shown(lines: seq<string>)   // the first lines of the log
    | CouldNotRead                // the git subprocess failed or timed out

  datatype RepoStatus = RepoStatus(name: string, binding: RepoBinding, commits: CommitView)

  /**
   * The view of one repository. `hasGit` says whether the resolved repository
   * has a `.git` entry; `gitLog` is the output of the log subprocess (which falls
   * back to `(no commits yet)` inside the shell), `None` when it throws.
   */
  function ViewOf(name: string, b: RepoBinding, hasGit: string -> bool, gitLog: string -> Option<string>): CommitView {
    if !b.branchCreated || !hasGit(name) then NotShown
    else match gitLog(name)
      case None => CouldNotRead
      case Some(out) => Shown(ShownLines(Trim(out)))
  }

  /**
   * The body of `session status`: one report per binding, in order, each
   * depending on that repository alone, so a failure in one repository is
   * reported for it only.
   */
  function StatusReport(s: Session, hasGit: string -> bool, gitLog: string -> Option<string>): (r: seq<RepoStatus>)
    ensures |r| == |s.repos|
    ensures forall i :: 0 <= i < |r| ==> r[i].name == s.repos[i].0 && r[i].binding == s.repos[i].1
    ensures forall i :: 0 <= i < |r| ==> r[i].commits.Shown? ==> |r[i].commits.lines| <= MaxShownCommits
    ensures forall i :: 0 <= i < |r| ==>
              (r[i].commits != NotShown <==> s.repos[i].1.branchCreated && hasGit(s.repos[i].0))
    ensures forall i :: 0 <= i < |r| ==>
              (r[i].commits == CouldNotRead <==>
                 s.repos[i].1.branchCreated && hasGit(s.repos[i].0) && gitLog(s.repos[i].0) == None)
    ensures forall i :: 0 <= i < |r| && r[i].commits.Shown? ==>
              gitLog(s.repos[i].0).Some? && r[i].commits.lines == ShownLines(Trim(gitLog(s.repos[i].0).value))
  {
    seq(|s.repos|, i requires 0 <= i < |s.repos| =>
      RepoStatus(s.repos[i].0, s.repos[i].1, ViewOf(s.repos[i].0, s.repos[i].1, hasGit, gitLog)))
  }

  // ---------------------------------------------------------------- session close

  /** `answer.toLowerCase() === "y"`. */
  predicate Accepts(answer: string) {
    Lower(answer) == "y"
  }

  /** Exactly the answers `y` and `Y` accept. */
  lemma AcceptsExactly(answer: string)
    ensures Accepts(answer) <==> answer == "y" || answer == "Y"
  {
    if Accepts(answer) {
      assert |answer| == 1 && LowerChar(answer[0]) == 'y';
      assert answer == [answer[0]];
    }
  }

  /** A subprocess call made for one repository, and whether it succeeded. */
  datatype Attempt = Attempt(repo: string, succeeded: bool)

  /** What happens to the record at the end of the close. */
  datatype Disposition =
    | RecordDeleted               // the file is unlinked
    | MarkedClosed(record: Session) // the file is rewritten with this record
    | Interrupted                 // the answers ran out: the record is left as it was

  /** Everything a close does: PR attempts, unpushed warnings, branch deletions, the record, answers read. */
  datatype CloseRun = CloseRun(
    prs: seq<Attempt>, warnings: seq<Warning>, deletions: seq<Attempt>,
    disposition: Disposition, consumed: nat)

  /** The bindings whose session branch was created, in order: only they are prompted for. */
  function Created(repos: seq<(string, RepoBinding)>): (c: seq<(string, RepoBinding)>)
    ensures |c| <= |repos|
    ensures forall k :: 0 <= k < |c| ==> c[k].1.branchCreated
    decreases |repos|
  {
    if repos == [] then []
    else (if repos[0].1.branchCreated then [repos[0]] else []) + Created(repos[1..])
  }

  /** The prompts of one phase: binding `i` is paired with answer `i` while answers last. */
  function Attempts(c: seq<(string, RepoBinding)>, answers: seq<string>, ok: string -> bool): seq<Attempt>
    decreases |c|
  {
    if c == [] || answers == [] then []
    else (if Accepts(answers[0]) then [Attempt(c[0].0, ok(c[0].0))] else [])
         + Attempts(c[1..], answers[1..], ok)
  }

  /** The warning printed before the deletion prompt of a branch with unpushed commits. */
  datatype Warning = Warning(repo: string, commits: nat)

  /** The number of commit lines in the trimmed output of the unpushed-commits query. */
  function UnpushedCount(out: string): (n: nat)
    ensures n == Count(out, '\n') + 1
  {
    SplitCount(out, '\n');
    |Split(out, '\n')|
  }

  /**
   * The count as bin/cli.js:1006 computes it: the separator there is the
   * two-character text backslash, `n`, not a line break.
   */
  function UnpushedCountAsWritten(out: string): nat {
    CountText(out, "\\n") + 1
  }

  /**
   * For output without a backslash (the usual case: a subject rarely holds
   * one) the count as written is 1, however many lines there are.
   */
  lemma UnpushedCountAsWrittenIsOne(out: string)
    requires '\\' !in out
    ensures UnpushedCountAsWritten(out) == 1
  {
    CountTextAbsent(out, "\\n");
  }

  /** A single commit whose subject holds the two characters `\n` counts as 2 as written. */
  lemma UnpushedCountEscapedSubject()
    ensures UnpushedCountAsWritten("a1 fix \\n") == 2
    ensures UnpushedCount("a1 fix \\n") == 1
  {
    var out := "a1 fix \\n";
    assert out == "a1 fix " + "\\n";
    CountTextSkip("a1 fix ", "\\n", "\\n");
    assert StartsWith("\\n", "\\n") && "\\n"[2..] == [];
    SplitPlain(out, '\n');
  }

  /** Two unpushed commits: the warning as written says 1, the line count is 2. */
  lemma UnpushedCountFinding()
    ensures UnpushedCountAsWritten("c1\nc2") == 1
    ensures UnpushedCount("c1\nc2") == 2
  {
    var out := "c1\nc2";
    UnpushedCountAsWrittenIsOne(out);
    assert out == "c1" + ['\n'] + "c2";
    SplitAtFirst("c1", "c2", '\n');
    SplitPlain("c2", '\n');
  }

  /**
   * The warnings for the bindings of `c`, in order. `unpushedLog` is the output
   * of the query for commits on no remote, `""` where the subprocess throws;
   * a binding is warned about when the trimmed output is not empty.
   */
  function Warned(c: seq<(string, RepoBinding)>, unpushedLog: string -> string): seq<Warning>
    decreases |c|
  {
    if c == [] then [] else WarningFor(c[0].0, unpushedLog) + Warned(c[1..], unpushedLog)
  }

  /** The warning for one repository, if its trimmed query output is not empty. */
  function WarningFor(name: string, unpushedLog: string -> string): seq<Warning> {
    var out := Trim(unpushedLog(name));
    if out != "" then [Warning(name, UnpushedCount(out))] else []
  }

  /**
   * The close, stated phase by phase: with `k` created branches, answers
   * `0..k-1` decide the PRs, answers `k..2k-1` the branch deletions, answer
   * `2k` the record. Where the answers run out the close stops.
   */
  function CloseSpec(s: Session, answers: seq<string>, prOk: string -> bool,
                     deleteOk: string -> bool, unpushedLog: string -> string): CloseRun
  {
    var k := |Created(s.repos)|;
    var prs := Attempts(Created(s.repos), answers, prOk);
    if |answers| < k then CloseRun(prs, [], [], Interrupted, |answers|)
    else CloseTail(s, prs, answers[k..], deleteOk, unpushedLog)
  }

  /** Phases 2 and 3, once the PR answers are in: `rest` holds the answers after them. */
  function CloseTail(s: Session, prs: seq<Attempt>, rest: seq<string>,
                     deleteOk: string -> bool, unpushedLog: string -> string): CloseRun
  {
    var c := Created(s.repos);
    var k := |c|;
    var reached := if |rest| < k then c[..|rest| + 1] else c;
    var warnings := Warned(reached, unpushedLog);
    var deletions := Attempts(c, rest, deleteOk);
    if |rest| <= k then CloseRun(prs, warnings, deletions, Interrupted, k + |rest|)
    else
      var record := if Accepts(rest[k]) then RecordDeleted else MarkedClosed(s.(status := "closed"));
      CloseRun(prs, warnings, deletions, record, 2 * k + 1)
  }

  lemma {:induction false} CreatedAppend(a: seq<(string, RepoBinding)>, b: seq<(string, RepoBinding)>)
    ensures Created(a + b) == Created(a) + Created(b)
    decreases |a|
  {
    if a != [] {
      assert (a + b)[0] == a[0];
      assert (a + b)[1..] == a[1..] + b;
      CreatedAppend(a[1..], b);
    } else {
      assert a + b == b;
    }
  }

  lemma CreatedStep(repos: seq<(string, RepoBinding)>, i: nat)
    requires i < |repos|
    ensures Created(repos[..i + 1]) == Created(repos[..i]) + (if repos[i].1.branchCreated then [repos[i]] else [])
    ensures Created(repos) == Created(repos[..i + 1]) + Created(repos[i + 1..])
  {
    CreatedPrefix(repos, i);
    CreatedSplit(repos, i + 1);
  }

  lemma CreatedPrefix(repos: seq<(string, RepoBinding)>, i: nat)
    requires i < |repos|
    ensures Created(repos[..i + 1]) == Created(repos[..i]) + (if repos[i].1.branchCreated then [repos[i]] else [])
  {
    assert repos[..i + 1] == repos[..i] + [repos[i]];
    CreatedAppend(repos[..i], [repos[i]]);
    CreatedSingle(repos[i]);
  }

  lemma CreatedSplit(repos: seq<(string, RepoBinding)>, j: nat)
    requires j <= |repos|
    ensures Created(repos) == Created(repos[..j]) + Created(repos[j..])
  {
    assert repos == repos[..j] + repos[j..];
    CreatedAppend(repos[..j], repos[j..]);
  }

  lemma CreatedSingle(x: (string, RepoBinding))
    ensures Created([x]) == if x.1.branchCreated then [x] else []
  {
    assert [x][1..] == [];
  }

  /** Appending a binding adds its prompt's outcome, if an answer is left for it. */
  lemma {:induction false} AttemptsSnoc(c: seq<(string, RepoBinding)>, x: (string, RepoBinding), answers: seq<string>, ok: string -> bool)
    ensures Attempts(c + [x], answers, ok) ==
              Attempts(c, answers, ok) +
              (if |c| < |answers| && Accepts(answers[|c|]) then [Attempt(x.0, ok(x.0))] else [])
    decreases |c|
  {
    if c != [] && answers != [] {
      assert (c + [x])[1..] == c[1..] + [x];
      AttemptsSnoc(c[1..], x, answers[1..], ok);
    } else if c == [] && answers != [] {
      assert [x][1..] == [];
    }
  }

  /** Bindings past the last answer are never prompted for. */
  lemma {:induction false} AttemptsBeyond(c: seq<(string, RepoBinding)>, d: seq<(string, RepoBinding)>, answers: seq<string>, ok: string -> bool)
    requires |answers| <= |c|
    ensures Attempts(c + d, answers, ok) == Attempts(c, answers, ok)
    decreases |c|
  {
    if c != [] && answers != [] {
      assert (c + d)[1..] == c[1..] + d;
      AttemptsBeyond(c[1..], d, answers[1..], ok);
    }
  }

  lemma {:induction false} WarnedSnoc(c: seq<(string, RepoBinding)>, x: (string, RepoBinding), unpushedLog: string -> string)
    ensures Warned(c + [x], unpushedLog) == Warned(c, unpushedLog) + WarningFor(x.0, unpushedLog)
    decreases |c|
  {
    if c != [] {
      assert (c + [x])[1..] == c[1..] + [x];
      WarnedSnoc(c[1..], x, unpushedLog);
    } else {
      assert [x][1..] == [];
    }
  }

  /**
   * Phase 1 of `session close`: for each created branch in turn, ask whether
   * to open a PR and, on `y`, call `gh pr create`. `complete` is false when the
   * answers ran out before every created branch was asked about.
   */
  method OfferPullRequests(repos: seq<(string, RepoBinding)>, answers: seq<string>, prOk: string -> bool)
    returns (prs: seq<Attempt>, complete: bool)
    ensures prs == Attempts(Created(repos), answers, prOk)
    ensures complete <==> |Created(repos)| <= |answers|
  {
    var next := 0;
    prs := [];
    var i := 0;
    ghost var c: seq<(string, RepoBinding)> := [];
    while i < |repos|
      invariant 0 <= i <= |repos|
      invariant c == Created(repos[..i])
      invariant next == |c| <= |answers|
      invariant prs == Attempts(c, answers, prOk)
    {
      CreatedStep(repos, i);
      var name := repos[i].0;
      if repos[i].1.branchCreated {
        if next == |answers| {
          AnswersRunOut(repos, i, answers, prOk);
          return prs, false;
        }
        AttemptsSnoc(c, repos[i], answers, prOk);
        var answer := answers[next];
        next := next + 1;
        if Accepts(answer) {
          prs := prs + [Attempt(name, prOk(name))];
        }
        c := c + [repos[i]];
      }
      assert c == Created(repos[..i + 1]);
      i := i + 1;
    }
    assert repos[..i] == repos;
    return prs, true;
  }

  /**
   * Phase 2 of `session close`: for each created branch in turn, warn when it
   * has commits on no remote, then ask whether to delete it and, on `y`,
   * call `git branch -D`. `rest` are the answers left after phase 1.
   */
  method OfferBranchDeletions(repos: seq<(string, RepoBinding)>, rest: seq<string>,
                              deleteOk: string -> bool, unpushedLog: string -> string)
    returns (warnings: seq<Warning>, deletions: seq<Attempt>, complete: bool)
    ensures deletions == Attempts(Created(repos), rest, deleteOk)
    ensures complete <==> |Created(repos)| <= |rest|
    ensures warnings == Warned(if |rest| < |Created(repos)| then Created(repos)[..|rest| + 1] else Created(repos), unpushedLog)
  {
    var next := 0;
    warnings, deletions := [], [];
    var i := 0;
    ghost var c: seq<(string, RepoBinding)> := [];
    while i < |repos|
      invariant 0 <= i <= |repos|
      invariant c == Created(repos[..i])
      invariant next == |c| <= |rest|
      invariant warnings == Warned(c, unpushedLog)
      invariant deletions == Attempts(c, rest, deleteOk)
    {
      CreatedPrefix(repos, i);
      var name := repos[i].0;
      if repos[i].1.branchCreated {
        WarnedSnoc(c, repos[i], unpushedLog);
        warnings := warnings + WarningFor(name, unpushedLog);
        if next == |rest| {
          DeletionsRunOut(repos, i, c, rest, deleteOk, unpushedLog);
          return warnings, deletions, false;
        }
        AttemptsSnoc(c, repos[i], rest, deleteOk);
        var answer := rest[next];
        next := next + 1;
        if Accepts(answer) {
          deletions := deletions + [Attempt(name, deleteOk(name))];
        }
        c := c + [repos[i]];
      }
      assert c == Created(repos[..i + 1]);
      i := i + 1;
    }
    assert repos[..i] == repos;
    return warnings, deletions, true;
  }

  /** Phase 2 stops at created binding `i`: it was warned about, and nothing from it on is deleted. */
  lemma DeletionsRunOut(repos: seq<(string, RepoBinding)>, i: nat, c: seq<(string, RepoBinding)>, rest: seq<string>,
                        deleteOk: string -> bool, unpushedLog: string -> string)
    requires i < |repos| && repos[i].1.branchCreated && c == Created(repos[..i]) && |c| == |rest|
    ensures Attempts(Created(repos), rest, deleteOk) == Attempts(c, rest, deleteOk)
    ensures |rest| < |Created(repos)|
    ensures Warned(Created(repos)[..|rest| + 1], unpushedLog) == Warned(c + [repos[i]], unpushedLog)
  {
    AnswersRunOut(repos, i, rest, deleteOk);
    CreatedStep(repos, i);
  }

  /** The answers run out at created binding `i`: no binding from `i` on is prompted for. */
  lemma AnswersRunOut(repos: seq<(string, RepoBinding)>, i: nat, answers: seq<string>, ok: string -> bool)
    requires i < |repos| && repos[i].1.branchCreated && |Created(repos[..i])| == |answers|
    ensures Attempts(Created(repos), answers, ok) == Attempts(Created(repos[..i]), answers, ok)
    ensures |answers| < |Created(repos)|
    ensures Created(repos)[..|answers| + 1] == Created(repos[..i + 1])
  {
    AttemptsBeyond(Created(repos[..i]), Created(repos[i..]), answers, ok);
    CreatedSplit(repos, i);
    CreatedNonEmpty(repos, i);
    CreatedStep(repos, i);
  }

  lemma CreatedNonEmpty(repos: seq<(string, RepoBinding)>, i: nat)
    requires i < |repos| && repos[i].1.branchCreated
    ensures |Created(repos[i..])| >= 1
  {
    assert repos[i..] == [repos[i]] + repos[i + 1..];
    CreatedAppend([repos[i]], repos[i + 1..]);
    CreatedSingle(repos[i]);
  }

  /**
   * The `session close` flow: phase 1 offers the PRs, phase 2 the branch
   * deletions, phase 3 the deletion of the record, which is otherwise marked
   * closed.
   */
  method CloseSession(s: Session, answers: seq<string>, prOk: string -> bool,
                      deleteOk: string -> bool, unpushedLog: string -> string) returns (run: CloseRun)
    ensures run == CloseSpec(s, answers, prOk, deleteOk, unpushedLog)
  {
    var prs, complete := OfferPullRequests(s.repos, answers, prOk);
    if !complete {
      return CloseRun(prs, [], [], Interrupted, |answers|);
    }
    run := FinishClose(s, prs, answers[|Created(s.repos)|..], deleteOk, unpushedLog);
  }

  /** Phase 2 offers the branch deletions, phase 3 decides the record. */
  method FinishClose(s: Session, prs: seq<Attempt>, rest: seq<string>,
                     deleteOk: string -> bool, unpushedLog: string -> string) returns (run: CloseRun)
    ensures run == CloseTail(s, prs, rest, deleteOk, unpushedLog)
  {
    var k := |Created(s.repos)|;
    var warnings, deletions, complete := OfferBranchDeletions(s.repos, rest, deleteOk, unpushedLog);
    if !complete || |rest| == k {
      return CloseRun(prs, warnings, deletions, Interrupted, k + |rest|);
    }
    var record := if Accepts(rest[k]) then RecordDeleted else MarkedClosed(s.(status := "closed"));
    return CloseRun(prs, warnings, deletions, record, 2 * k + 1);
  }


  // ---------------------------------------------------------------- properties of the close

  /** Binding `i` was asked about, the answer accepted, and the call made gave `a`. */
  predicate Offered(c: seq<(string, RepoBinding)>, answers: seq<string>, ok: string -> bool, i: int, a: Attempt) {
    0 <= i < |c| && i < |answers| && Accepts(answers[i]) && a == Attempt(c[i].0, ok(c[i].0))
  }

  /** A call is made for a binding exactly when its own answer accepts. */
  lemma {:induction false} AttemptsExactly(c: seq<(string, RepoBinding)>, answers: seq<string>, ok: string -> bool, a: Attempt)
    ensures a in Attempts(c, answers, ok) <==> exists i :: Offered(c, answers, ok, i, a)
    decreases |c|
  {
    if c == [] || answers == [] {
      assert forall i :: !Offered(c, answers, ok, i, a);
    } else {
      var head := if Accepts(answers[0]) then [Attempt(c[0].0, ok(c[0].0))] else [];
      AttemptsExactly(c[1..], answers[1..], ok, a);
      assert Attempts(c, answers, ok) == head + Attempts(c[1..], answers[1..], ok);
      if a in Attempts(c, answers, ok) {
        if a in head {
          assert Offered(c, answers, ok, 0, a);
        } else {
          var j :| Offered(c[1..], answers[1..], ok, j, a);
          assert Offered(c, answers, ok, j + 1, a);
        }
      }
      if i :| Offered(c, answers, ok, i, a) {
        if i == 0 {
          assert a in head;
        } else {
          assert Offered(c[1..], answers[1..], ok, i - 1, a);
        }
      }
    }
  }

  /** The bindings asked about are exactly those whose branch was created. */
  lemma {:induction false} CreatedExactly(repos: seq<(string, RepoBinding)>, x: (string, RepoBinding))
    ensures x in Created(repos) <==> x in repos && x.1.branchCreated
    decreases |repos|
  {
    if repos != [] {
      CreatedExactly(repos[1..], x);
      assert repos == [repos[0]] + repos[1..];
    }
  }

  /** Each close call (PR or branch deletion) is for a binding of the record whose branch was created. */
  lemma CallsOnlyForCreated(s: Session, answers: seq<string>, prOk: string -> bool,
                            deleteOk: string -> bool, unpushedLog: string -> string, a: Attempt)
    requires a in CloseSpec(s, answers, prOk, deleteOk, unpushedLog).prs
          || a in CloseSpec(s, answers, prOk, deleteOk, unpushedLog).deletions
    ensures exists b :: (a.repo, b) in s.repos && b.branchCreated
  {
    var c := Created(s.repos);
    var k := |c|;
    var i: int;
    if a in CloseSpec(s, answers, prOk, deleteOk, unpushedLog).prs {
      AttemptsExactly(c, answers, prOk, a);
      i :| Offered(c, answers, prOk, i, a);
    } else {
      AttemptsExactly(c, answers[k..], deleteOk, a);
      i :| Offered(c, answers[k..], deleteOk, i, a);
    }
    CreatedExactly(s.repos, c[i]);
    assert (a.repo, c[i].1) == c[i];
  }

  /** The repositories named by a run of calls. */
  function Repos(calls: seq<Attempt>): (r: seq<string>)
    ensures |r| == |calls| && forall i :: 0 <= i < |r| ==> r[i] == calls[i].repo
  {
    seq(|calls|, i requires 0 <= i < |calls| => calls[i].repo)
  }

  /** Which calls are made never depends on how earlier calls went. */
  lemma {:induction false} CallsIgnoreOutcomes(c: seq<(string, RepoBinding)>, answers: seq<string>, ok1: string -> bool, ok2: string -> bool)
    ensures Repos(Attempts(c, answers, ok1)) == Repos(Attempts(c, answers, ok2))
    decreases |c|
  {
    if c != [] && answers != [] {
      CallsIgnoreOutcomes(c[1..], answers[1..], ok1, ok2);
      var h1 := if Accepts(answers[0]) then [Attempt(c[0].0, ok1(c[0].0))] else [];
      var h2 := if Accepts(answers[0]) then [Attempt(c[0].0, ok2(c[0].0))] else [];
      ReposAppend(h1, Attempts(c[1..], answers[1..], ok1));
      ReposAppend(h2, Attempts(c[1..], answers[1..], ok2));
    }
  }

  lemma ReposAppend(a: seq<Attempt>, b: seq<Attempt>)
    ensures Repos(a + b) == Repos(a) + Repos(b)
  {
  }

  /**
   * Failure isolation: a failing `gh pr create` or `git branch -D` changes
   * which calls succeeded and nothing else: the same repositories are
   * attempted, the same warnings are printed and the record ends the same.
   */
  lemma FailuresIsolated(s: Session, answers: seq<string>, prOk1: string -> bool, prOk2: string -> bool,
                         deleteOk1: string -> bool, deleteOk2: string -> bool, unpushedLog: string -> string)
    ensures var r1 := CloseSpec(s, answers, prOk1, deleteOk1, unpushedLog);
            var r2 := CloseSpec(s, answers, prOk2, deleteOk2, unpushedLog);
            Repos(r1.prs) == Repos(r2.prs) && Repos(r1.deletions) == Repos(r2.deletions) &&
            r1.warnings == r2.warnings && r1.disposition == r2.disposition && r1.consumed == r2.consumed
  {
    var c := Created(s.repos);
    CallsIgnoreOutcomes(c, answers, prOk1, prOk2);
    if |answers| >= |c| {
      CallsIgnoreOutcomes(c, answers[|c|..], deleteOk1, deleteOk2);
    }
  }

  /**
   * The last prompt decides the record: with every prompt answered, it is
   * deleted exactly when the final answer is `y`/`Y`, and otherwise rewritten
   * with status `closed` and every other field as it was. With fewer answers
   * the record is left alone.
   */
  lemma RecordOutcome(s: Session, answers: seq<string>, prOk: string -> bool,
                      deleteOk: string -> bool, unpushedLog: string -> string)
    ensures var k := |Created(s.repos)|;
            var r := CloseSpec(s, answers, prOk, deleteOk, unpushedLog);
            (|answers| <= 2 * k <==> r.disposition == Interrupted) &&
            (|answers| > 2 * k ==>
               r.consumed == 2 * k + 1 &&
               (r.disposition == RecordDeleted <==> answers[2 * k] == "y" || answers[2 * k] == "Y") &&
               (r.disposition.MarkedClosed? ==>
                  r.disposition.record == Session(s.name, "closed", s.created, s.repos, s.others)))
  {
    var k := |Created(s.repos)|;
    if |answers| > 2 * k {
      assert answers[k..][k] == answers[2 * k];
      AcceptsExactly(answers[2 * k]);
    }
  }

  /**
   * Session `alpha` binds `api` (branch created) and `web` (not created).
   * Answering `y`, `n`, `n` opens one PR, for `api`, deletes no branch and
   * marks the record closed.
   */
  lemma CloseScenario(prOk: string -> bool, deleteOk: string -> bool, unpushedLog: string -> string)
    ensures var api := RepoBinding("../api", "main", "session/alpha", true);
            var web := RepoBinding("../web", "main", "session/alpha", false);
            var s := Session("alpha", "active", "2026-01-01", [("api", api), ("web", web)], []);
            var r := CloseSpec(s, ["y", "n", "n"], prOk, deleteOk, unpushedLog);
            r.prs == [Attempt("api", prOk("api"))] && r.deletions == [] &&
            r.disposition == MarkedClosed(s.(status := "closed")) && r.consumed == 3
  {
    var api := RepoBinding("../api", "main", "session/alpha", true);
    var web := RepoBinding("../web", "main", "session/alpha", false);
    var repos := [("api", api), ("web", web)];
    assert Created(repos[1..][1..]) == [];
    assert Created(repos[1..]) == [];
    assert Created(repos) == [("api", api)];
    var answers := ["y", "n", "n"];
    AcceptsExactly("y");
    AcceptsExactly("n");
    assert Attempts([("api", api)], answers, prOk) == [Attempt("api", prOk("api"))];
    assert Attempts([("api", api)], answers[1..], deleteOk) == [];
  }
}
