/**
 * The hook-registration document written to `.claude/settings.json`
 * (`generateSettings` in bin/cli.js): a fixed table of lifecycle events, each with
 * one `bash <hooks>/<script>` command, turned into the settings value that is
 * serialised on every call.
 */
module Hooks {
  import opened Common
  import opened Strings

  /** Where every registered command finds its script. */
  const HookPath: string := "${CLAUDE_PROJECT_DIR:-.}/.claude/hooks"

  /** The hook scripts that `updateLocal` deletes because later versions dropped them. */
  const ObsoleteHooks: seq<string> := [
    "block-orchestrator-writes.sh", "worktree-create-context.sh",
    "verify-cycle-complete.sh", "guard-session-checkout.sh"]

  /** The lifecycle events the document registers hooks for. */
  datatype Event =
    | PreToolUse | SessionStart | UserPromptSubmit | SubagentStart | PermissionRequest
    | PostToolUse | TeammateIdle | TaskCompleted | Notification
  {
    /** The key of the event in the `hooks` object. */
    function Name(): string {
      match this
      case PreToolUse => "PreToolUse"
      case SessionStart => "SessionStart"
      case UserPromptSubmit => "UserPromptSubmit"
      case SubagentStart => "SubagentStart"
      case PermissionRequest => "PermissionRequest"
      case PostToolUse => "PostToolUse"
      case TeammateIdle => "TeammateIdle"
      case TaskCompleted => "TaskCompleted"
      case Notification => "Notification"
    }
  }

  /** One row of the registration table: the event, its optional tool matcher, the script, the timeout in seconds. */
  datatype Registration = Registration(event: Event, matcher: Option<string>, script: string, timeout: nat)

  /** The table, in the order the document lists it. */
  const Table: seq<Registration> := [
    Registration(PreToolUse, Some("Teammate"), "validate-spawn-prompt.sh", 5),
    Registration(SessionStart, None, "session-start-context.sh", 10),
    Registration(UserPromptSubmit, None, "user-prompt-guard.sh", 3),
    Registration(SubagentStart, None, "subagent-start-context.sh", 5),
    Registration(PermissionRequest, None, "permission-auto-approve.sh", 3),
    Registration(PostToolUse, Some("Write|Edit|MultiEdit"), "track-file-modifications.sh", 3),
    Registration(TeammateIdle, None, "teammate-idle-check.sh", 5),
    Registration(TaskCompleted, None, "task-completed-check.sh", 3),
    Registration(Notification, None, "notify-user.sh", 5)]

  /** `{ type: "command", command, timeout }`. */
  datatype Command = Command(kind: string, command: string, timeout: nat)

  /** `{ matcher?, hooks: [...] }`. */
  datatype Group = Group(matcher: Option<string>, hooks: seq<Command>)

  /** One key of the `hooks` object with its array of groups. */
  datatype EventHooks = EventHooks(event: Event, groups: seq<Group>)

  /** The whole document: the `env` object and the `hooks` object, keys in order. */
  datatype Settings = Settings(env: seq<(string, string)>, hooks: seq<EventHooks>)

  /** The command line a registration runs. */
  function CommandLine(script: string): string {
    "bash " + HookPath + "/" + script
  }

  /** The script a command line runs: what follows the hooks directory. */
  function ScriptOf(line: string): string {
    var prefix := "bash " + HookPath + "/";
    if StartsWith(line, prefix) then line[|prefix|..] else ""
  }

  /** `hook(...)`, `withMatcher(...)` and `withoutMatcher(...)` applied to one row. */
  function GroupOf(r: Registration): Group {
    Group(r.matcher, [Command("command", CommandLine(r.script), r.timeout)])
  }

  /** The environment variables the document sets. */
  const Env: seq<(string, string)> := [
    ("CLAUDE_CODE_EXPERIMENTAL_AGENT_TEAMS", "1"),
    ("CLAUDE_CODE_SUBAGENT_MODEL", "sonnet")]

  /** The expected matcher of an event: only the two tool-use events carry one. */
  function MatcherFor(event: Event): Option<string> {
    match event
    case PreToolUse => Some("Teammate")
    case PostToolUse => Some("Write|Edit|MultiEdit")
    case _ => None
  }

  /**
   * `generateSettings`: the same value on every call. Nine distinct events, each
   * with exactly one group holding exactly one `bash <hooks>/<script>` command; a
   * matcher only on `PreToolUse` and `PostToolUse`; no obsolete script registered.
   */
  function GenerateSettings(): (s: Settings)
    ensures s.env == Env
    ensures |s.hooks| == 9
    ensures forall i, j :: 0 <= i < j < |s.hooks| ==> s.hooks[i].event != s.hooks[j].event
    ensures forall i :: 0 <= i < |s.hooks| ==>
              |s.hooks[i].groups| == 1 && |s.hooks[i].groups[0].hooks| == 1
    ensures forall i :: 0 <= i < |s.hooks| ==>
              s.hooks[i].groups[0].matcher == MatcherFor(s.hooks[i].event)
    ensures forall i :: 0 <= i < |s.hooks| ==>
              var c := s.hooks[i].groups[0].hooks[0];
              c.kind == "command" && c.command == CommandLine(ScriptOf(c.command)) &&
              EndsWith(ScriptOf(c.command), ".sh") && ScriptOf(c.command) !in ObsoleteHooks
  {
    TableRows();
    var hooks := seq(|Table|, i requires 0 <= i < |Table| => EventHooks(Table[i].event, [GroupOf(Table[i])]));
    forall i | 0 <= i < |Table|
      ensures ScriptOf(CommandLine(Table[i].script)) == Table[i].script
    {
      ScriptOfCommandLine(Table[i].script);
    }
    Settings(Env, hooks)
  }

  /** What a well-formed row looks like. */
  predicate RowOk(r: Registration) {
    r.matcher == MatcherFor(r.event) && EndsWith(r.script, ".sh") && r.script !in ObsoleteHooks
  }

  /** Every row of the table is well formed, and no event appears twice. */
  lemma TableRows()
    ensures |Table| == 9
    ensures forall i :: 0 <= i < |Table| ==> RowOk(Table[i])
    ensures forall i, j :: 0 <= i < j < |Table| ==> Table[i].event != Table[j].event
  {
    forall i | 0 <= i < |Table| ensures RowOk(Table[i]) {
      RowIsOk(i);
    }
  }

  lemma RowIsOk(i: nat)
    requires i < |Table|
    ensures RowOk(Table[i])
  {
    var r := Table[i];
    assert EndsWith(r.script, ".sh") by {
      assert r.script[|r.script| - 3..] == ".sh";
    }
    assert r.script !in ObsoleteHooks;
  }

  /** `ScriptOf` recovers the script from its command line. */
  lemma ScriptOfCommandLine(script: string)
    ensures ScriptOf(CommandLine(script)) == script
  {
    var prefix := "bash " + HookPath + "/";
    assert CommandLine(script) == prefix + script;
    assert (prefix + script)[..|prefix|] == prefix;
  }

  /** The scripts the document registers, in table order. */
  function RegisteredScripts(): (r: seq<string>)
    ensures |r| == |GenerateSettings().hooks|
    ensures forall i :: 0 <= i < |r| ==>
              GenerateSettings().hooks[i].groups[0].hooks[0].command == CommandLine(r[i])
  {
    seq(|Table|, i requires 0 <= i < |Table| => Table[i].script)
  }
}
