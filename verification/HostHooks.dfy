/** Our handlers in a host's hook configuration, changed in place: stripped, added,
    and never touching anyone else's. */
module HostHooks {
  import opened Options

  datatype Paths = Paths(launcher: string, current: string, home: string)
  datatype Host = Host(name: string, nudge: bool, promptHook: bool)

  /** A handler's command, if it is a string, and the rest of it. */
  datatype Handler = Handler(command: Option<string>, rest: string)
  datatype Group = NoGroup(json: string) | Group(matcher: Option<string>, rest: string, handlers: seq<Handler>)

  /** What stands under an event. */
  datatype Entry = NoList | Groups(groups: seq<Group>)

  datatype Excluded = Absent | NotAList | Commands(commands: seq<string>)

  /** The sandbox object: its list of excluded commands, and whether it has other keys. */
  datatype Sandbox = Missing | NoObject | Object(excluded: Excluded, others: string)

  const SANDBOX_EXCLUDE := "agents-inc *"
  const PATTERNS := ["agents-inc", "gask.sh", "mask.sh", "oask.sh", "agent.sh", "codex exec"]

  // ---- Whose a handler is

  function HookCommand(paths: Paths, event: string): string {
    paths.launcher + " hook " + event
  }

  function AtRouteCommand(paths: Paths): string {
    "bash " + paths.current + "/skills/codex-bridge/scripts/at_route.sh"
  }

  predicate Owned(paths: Paths, command: Option<string>) {
    command.Some? && (paths.launcher + " hook " <= command.value || command.value == AtRouteCommand(paths))
  }

  predicate Legacy(paths: Paths, command: Option<string>) {
    command.Some? && (command.value == "bash ~/.claude/scripts/at_route.sh" ||
                      command.value == "bash " + paths.home + "/.claude/scripts/at_route.sh")
  }

  predicate Drops(paths: Paths, legacy: bool, h: Handler) {
    Owned(paths, h.command) || (legacy && Legacy(paths, h.command))
  }

  // ---- Stripping

  function Kept(paths: Paths, legacy: bool, handlers: seq<Handler>): seq<Handler> {
    if handlers == [] then []
    else
      var last := handlers[|handlers| - 1];
      Kept(paths, legacy, handlers[..|handlers| - 1]) + if Drops(paths, legacy, last) then [] else [last]
  }

  /** A group without handlers left goes too; what is no group stays. */
  function StripGroup(paths: Paths, legacy: bool, g: Group): seq<Group> {
    if g.NoGroup? then [g]
    else if Kept(paths, legacy, g.handlers) == [] then []
    else [g.(handlers := Kept(paths, legacy, g.handlers))]
  }

  function StripGroups(paths: Paths, legacy: bool, groups: seq<Group>): seq<Group> {
    if groups == [] then []
    else StripGroups(paths, legacy, groups[..|groups| - 1]) + StripGroup(paths, legacy, groups[|groups| - 1])
  }

  function GroupsOf(e: Entry): seq<Group> {
    if e.Groups? then e.groups else []
  }

  /** An event with nothing left under it goes too. */
  function Strip(paths: Paths, legacy: bool, hooks: map<string, Entry>): map<string, Entry> {
    map event | event in hooks && StripGroups(paths, legacy, GroupsOf(hooks[event])) != [] ::
      Groups(StripGroups(paths, legacy, GroupsOf(hooks[event])))
  }

  /** Some events are still to strip. */
  predicate HalfStripped(paths: Paths, legacy: bool, was: map<string, Entry>, now: map<string, Entry>,
                         todo: set<string>)
  {
    && (forall event | event in now :: event in was)
    && (forall event | event in was ::
          if event in todo then event in now && now[event] == was[event]
          else
            var groups := StripGroups(paths, legacy, GroupsOf(was[event]));
            (event in now <==> groups != []) && (event in now ==> now[event] == Groups(groups)))
  }

  lemma HalfStrippedNext(paths: Paths, legacy: bool, was: map<string, Entry>, now: map<string, Entry>,
                         todo: set<string>, event: string)
    requires HalfStripped(paths, legacy, was, now, todo) && event in todo && todo <= was.Keys
    ensures event in now
    ensures var groups := StripGroups(paths, legacy, GroupsOf(now[event]));
            HalfStripped(paths, legacy, was,
                         if groups != [] then now[event := Groups(groups)] else now - {event}, todo - {event})
  {
    hide StripGroups;
  }

  lemma HalfStrippedAll(paths: Paths, legacy: bool, was: map<string, Entry>)
    ensures HalfStripped(paths, legacy, was, was, was.Keys)
  {
    hide StripGroups;
  }

  lemma StrippedWhole(paths: Paths, legacy: bool, was: map<string, Entry>, now: map<string, Entry>)
    requires HalfStripped(paths, legacy, was, now, {})
    ensures now == Strip(paths, legacy, was)
  {
    hide StripGroups;
  }

  function Without(commands: seq<string>): seq<string> {
    if commands == [] then []
    else Without(commands[..|commands| - 1]) +
         if commands[|commands| - 1] == SANDBOX_EXCLUDE then [] else [commands[|commands| - 1]]
  }

  function StripSandbox(s: Sandbox): Sandbox {
    if !s.Object? || !s.excluded.Commands? then s
    else
      var left := Without(s.excluded.commands);
      if left != [] then s.(excluded := Commands(left))
      else if s.others == "" then Missing else s.(excluded := Absent)
  }

  // ---- Adding

  const OUR_EVENTS := ["SessionStart", "PreToolUse", "PostToolUse", "UserPromptSubmit"]

  function AtStart(paths: Paths, host: Host): seq<Group> {
    [Group(None, "", [Handler(Some(HookCommand(paths, "session-start --host " + host.name)), "timeout 10")])]
  }

  function BeforeTool(paths: Paths): seq<Group> {
    var nudge := Handler(Some(HookCommand(paths, "agent-nudge")), "timeout 5");
    [Group(Some("Agent|Task"), "", [nudge]),
     Group(Some("Bash"), "", seq(|PATTERNS|, i requires 0 <= i < |PATTERNS| =>
             nudge.(rest := "timeout 5, if Bash(*" + PATTERNS[i] + "*)"))),
     Group(Some("mcp__.*__DelegateAgent"), "", [nudge])]
  }

  function AfterTool(paths: Paths): seq<Group> {
    var done := Handler(Some(HookCommand(paths, "agent-done")), "timeout 5");
    [Group(Some("Agent|Task"), "", [done]), Group(Some("mcp__.*__DelegateAgent"), "", [done])]
  }

  function AtPrompt(paths: Paths): seq<Group> {
    [Group(None, "", [Handler(Some(AtRouteCommand(paths)), "timeout 130")])]
  }

  function Ours(paths: Paths, host: Host, event: string): seq<Group> {
    if event == "SessionStart" then AtStart(paths, host)
    else if event == "PreToolUse" && host.nudge then BeforeTool(paths)
    else if event == "PostToolUse" && host.nudge then AfterTool(paths)
    else if event == "UserPromptSubmit" && host.promptHook then AtPrompt(paths)
    else []
  }

  function EntryGroups(hooks: map<string, Entry>, event: string): seq<Group> {
    if event in hooks then GroupsOf(hooks[event]) else []
  }

  /** Our groups behind whatever stands under each of the given events. */
  function AddedAmong(paths: Paths, host: Host, hooks: map<string, Entry>, events: seq<string>): map<string, Entry> {
    map event | event in hooks.Keys + (set e | e in events) && (event in hooks || Ours(paths, host, event) != []) ::
      if event !in events || Ours(paths, host, event) == [] then hooks[event]
      else Groups(EntryGroups(hooks, event) + Ours(paths, host, event))
  }

  function Added(paths: Paths, host: Host, hooks: map<string, Entry>): map<string, Entry> {
    AddedAmong(paths, host, hooks, OUR_EVENTS)
  }

  lemma AddedAmongNone(paths: Paths, host: Host, hooks: map<string, Entry>)
    ensures AddedAmong(paths, host, hooks, OUR_EVENTS[..0]) == hooks
  {
    hide Ours;
  }

  lemma AddedAmongNext(paths: Paths, host: Host, hooks: map<string, Entry>, i: nat)
    requires i < |OUR_EVENTS|
    ensures var was := AddedAmong(paths, host, hooks, OUR_EVENTS[..i]);
            var event := OUR_EVENTS[i];
            var ours := Ours(paths, host, event);
            AddedAmong(paths, host, hooks, OUR_EVENTS[..i + 1]) ==
            if ours == [] then was else was[event := Groups(EntryGroups(was, event) + ours)]
  {
    OurEventsDiffer(i);
    assert OUR_EVENTS[..i + 1] == OUR_EVENTS[..i] + [OUR_EVENTS[i]];
    hide *;
    AddedOneMore(paths, host, hooks, OUR_EVENTS[..i], OUR_EVENTS[i]);
  }

  lemma OurEventsDiffer(i: nat)
    requires i < |OUR_EVENTS|
    ensures OUR_EVENTS[i] !in OUR_EVENTS[..i]
  {
    assert OUR_EVENTS[1][0] == 'P' && OUR_EVENTS[2][1] == 'o' && OUR_EVENTS[3][0] == 'U' && OUR_EVENTS[0][0] == 'S';
  }

  lemma AddedOneMore(paths: Paths, host: Host, hooks: map<string, Entry>, events: seq<string>, event: string)
    requires event !in events
    ensures var was := AddedAmong(paths, host, hooks, events);
            var ours := Ours(paths, host, event);
            AddedAmong(paths, host, hooks, events + [event]) ==
            if ours == [] then was else was[event := Groups(EntryGroups(was, event) + ours)]
  {
    hide Ours, OUR_EVENTS;
    assert forall e :: e in events + [event] <==> e in events || e == event;
    assert EntryGroups(AddedAmong(paths, host, hooks, events), event) == EntryGroups(hooks, event);
  }

  function AddSandbox(s: Sandbox): Sandbox {
    match s
    case Missing => Object(Commands([SANDBOX_EXCLUDE]), "")
    case NoObject => s
    case Object(Absent, _) => s.(excluded := Commands([SANDBOX_EXCLUDE]))
    case Object(NotAList, _) => s
    case Object(Commands(commands), _) =>
      if SANDBOX_EXCLUDE in commands then s else s.(excluded := Commands(commands + [SANDBOX_EXCLUDE]))
  }

  datatype Config = Config(hooks: map<string, Entry>, sandbox: Sandbox)

  function StripAll(paths: Paths, legacy: bool, c: Config): Config {
    Config(Strip(paths, legacy, c.hooks), StripSandbox(c.sandbox))
  }

  function AddAll(paths: Paths, host: Host, c: Config): Config {
    var bare := StripAll(paths, true, c);
    Config(Added(paths, host, bare.hooks), if host.name == "claude" then AddSandbox(bare.sandbox) else bare.sandbox)
  }

  // ---- In place

  class HookConfig {
    var hooks: map<string, Entry>
    var sandbox: Sandbox

    ghost function View(): Config
      reads this
    {
      Config(hooks, sandbox)
    }

    constructor (hooks: map<string, Entry>, sandbox: Sandbox)
      ensures View() == Config(hooks, sandbox)
    {
      this.hooks, this.sandbox := hooks, sandbox;
    }

    method StripSandboxExclusion()
      modifies this`sandbox
      ensures sandbox == StripSandbox(old(sandbox))
    {
      if !sandbox.Object? || !sandbox.excluded.Commands? {
        return;
      }
      var commands := sandbox.excluded.commands;
      var left: seq<string> := [];
      for i := 0 to |commands|
        invariant left == Without(commands[..i])
      {
        assert commands[..i + 1][..i] == commands[..i];
        if commands[i] != SANDBOX_EXCLUDE {
          left := left + [commands[i]];
        }
      }
      assert commands[..|commands|] == commands;
      sandbox := sandbox.(excluded := Commands(left));
      if left == [] {
        sandbox := sandbox.(excluded := Absent);
        if sandbox.others == "" {
          sandbox := Missing;
        }
      }
    }

    method KeepHandlers(paths: Paths, legacy: bool, handlers: seq<Handler>) returns (kept: seq<Handler>)
      ensures kept == Kept(paths, legacy, handlers)
    {
      kept := [];
      for i := 0 to |handlers|
        invariant kept == Kept(paths, legacy, handlers[..i])
      {
        assert handlers[..i + 1][..i] == handlers[..i];
        if !Drops(paths, legacy, handlers[i]) {
          kept := kept + [handlers[i]];
        }
      }
      assert handlers[..|handlers|] == handlers;
    }

    method KeepGroups(paths: Paths, legacy: bool, groups: seq<Group>) returns (left: seq<Group>)
      ensures left == StripGroups(paths, legacy, groups)
    {
      left := [];
      for i := 0 to |groups|
        invariant left == StripGroups(paths, legacy, groups[..i])
      {
        assert groups[..i + 1][..i] == groups[..i];
        if groups[i].NoGroup? {
          left := left + [groups[i]];
        } else {
          var kept := KeepHandlers(paths, legacy, groups[i].handlers);
          if kept != [] {
            left := left + [groups[i].(handlers := kept)];
          }
        }
      }
      assert groups[..|groups|] == groups;
    }

    method StripHooks(paths: Paths, legacy: bool)
      modifies this
      ensures View() == StripAll(paths, legacy, old(View()))
    {
      StripSandboxExclusion();
      var todo := hooks.Keys;
      HalfStrippedAll(paths, legacy, hooks);
      while todo != {}
        invariant todo <= old(hooks).Keys && sandbox == StripSandbox(old(sandbox))
        invariant HalfStripped(paths, legacy, old(hooks), hooks, todo)
        decreases |todo|
      {
        hide *;
        var event :| event in todo;
        HalfStrippedNext(paths, legacy, old(hooks), hooks, todo, event);
        var groups := KeepGroups(paths, legacy, GroupsOf(hooks[event]));
        if groups != [] {
          hooks := hooks[event := Groups(groups)];
        } else {
          hooks := hooks - {event};
        }
        todo := todo - {event};
      }
      StrippedWhole(paths, legacy, old(hooks), hooks);
    }

    method AddHooks(paths: Paths, host: Host)
      modifies this
      ensures View() == AddAll(paths, host, old(View()))
    {
      StripHooks(paths, true);
      ghost var bare := hooks;
      AddedAmongNone(paths, host, bare);
      for i := 0 to |OUR_EVENTS|
        invariant sandbox == StripSandbox(old(sandbox))
        invariant hooks == AddedAmong(paths, host, bare, OUR_EVENTS[..i])
      {
        hide Ours, AddedAmong;
        var event := OUR_EVENTS[i];
        var groups := Ours(paths, host, event);
        AddedAmongNext(paths, host, bare, i);
        if groups != [] {
          hooks := hooks[event := Groups(EntryGroups(hooks, event) + groups)];
        }
      }
      assert OUR_EVENTS[..|OUR_EVENTS|] == OUR_EVENTS;
      if host.name == "claude" {
        sandbox := AddSandbox(sandbox);
      }
    }
  }

  // ---- What adding and stripping keep

  lemma {:induction false} StripConcat(paths: Paths, legacy: bool, a: seq<Group>, b: seq<Group>)
    ensures StripGroups(paths, legacy, a + b) == StripGroups(paths, legacy, a) + StripGroups(paths, legacy, b)
    decreases |b|
  {
    hide StripGroup;
    if b == [] {
      assert a + b == a;
    } else {
      StripConcat(paths, legacy, a, b[..|b| - 1]);
      assert (a + b)[..|a + b| - 1] == a + b[..|b| - 1];
    }
  }

  lemma {:induction false} KeptAll(paths: Paths, legacy: bool, handlers: seq<Handler>)
    requires forall h | h in handlers :: !Drops(paths, legacy, h)
    ensures Kept(paths, legacy, handlers) == handlers
  {
    if handlers != [] {
      KeptAll(paths, legacy, handlers[..|handlers| - 1]);
      assert handlers == handlers[..|handlers| - 1] + [handlers[|handlers| - 1]];
    }
  }

  lemma {:induction false} KeptNone(paths: Paths, legacy: bool, handlers: seq<Handler>)
    requires forall h | h in handlers :: Drops(paths, legacy, h)
    ensures Kept(paths, legacy, handlers) == []
  {
    if handlers != [] {
      KeptNone(paths, legacy, handlers[..|handlers| - 1]);
      assert handlers[|handlers| - 1] in handlers;
    }
  }

  lemma {:induction false} KeptAreForeign(paths: Paths, legacy: bool, handlers: seq<Handler>)
    ensures forall h | h in Kept(paths, legacy, handlers) :: h in handlers && !Drops(paths, legacy, h)
  {
    if handlers != [] {
      KeptAreForeign(paths, legacy, handlers[..|handlers| - 1]);
      assert handlers[|handlers| - 1] in handlers;
    }
  }

  /** What was stripped of legacy handlers too stays as it is under any further strip. */
  lemma StripGroupFixed(paths: Paths, legacy: bool, g: Group)
    ensures var once := StripGroup(paths, true, g);
            |once| <= 1 && (once != [] ==> StripGroup(paths, legacy, once[0]) == once)
  {
    if g.Group? {
      KeptAreForeign(paths, true, g.handlers);
      KeptAll(paths, legacy, Kept(paths, true, g.handlers));
    }
  }

  lemma {:induction false} StripFixed(paths: Paths, legacy: bool, groups: seq<Group>)
    ensures var once := StripGroups(paths, true, groups); StripGroups(paths, legacy, once) == once
  {
    if groups != [] {
      var front, last := groups[..|groups| - 1], groups[|groups| - 1];
      StripFixed(paths, legacy, front);
      StripGroupFixed(paths, legacy, last);
      var once := StripGroup(paths, true, last);
      StripConcat(paths, legacy, StripGroups(paths, true, front), once);
      if once != [] {
        assert once == [once[0]] && once[..0] == [];
        assert StripGroups(paths, legacy, once) ==
               StripGroups(paths, legacy, once[..0]) + StripGroup(paths, legacy, once[0]);
      }
    }
  }

  predicate AllOwned(paths: Paths, groups: seq<Group>) {
    forall g | g in groups :: g.Group? && forall h | h in g.handlers :: Owned(paths, h.command)
  }

  lemma OursAreOwned(paths: Paths, host: Host, event: string)
    ensures AllOwned(paths, Ours(paths, host, event))
  {
    hide AtRouteCommand, PATTERNS;
    var mark := paths.launcher + " hook ";
    assert forall e :: mark <= HookCommand(paths, e);
  }

  lemma {:induction false} StripsAllOwned(paths: Paths, legacy: bool, groups: seq<Group>)
    requires AllOwned(paths, groups)
    ensures StripGroups(paths, legacy, groups) == []
  {
    if groups != [] {
      StripsAllOwned(paths, legacy, groups[..|groups| - 1]);
      assert groups[|groups| - 1] in groups;
      KeptNone(paths, legacy, groups[|groups| - 1].handlers);
    }
  }

  lemma AddedGroups(paths: Paths, host: Host, hooks: map<string, Entry>, event: string)
    ensures EntryGroups(Added(paths, host, hooks), event) == EntryGroups(hooks, event) + Ours(paths, host, event)
  {
    if Ours(paths, host, event) != [] { OurEventsOnly(paths, host, event); }
    hide Ours;
  }

  lemma StrippedGroups(paths: Paths, host: Host, legacy: bool, hooks: map<string, Entry>, event: string)
    ensures var bare := Strip(paths, true, hooks);
            StripGroups(paths, legacy, EntryGroups(Added(paths, host, bare), event)) == EntryGroups(bare, event)
  {
    var bare := Strip(paths, true, hooks);
    AddedGroups(paths, host, bare, event);
    OursAreOwned(paths, host, event);
    StripsAllOwned(paths, legacy, Ours(paths, host, event));
    StripConcat(paths, legacy, EntryGroups(bare, event), Ours(paths, host, event));
    if event in hooks {
      StripFixed(paths, legacy, GroupsOf(hooks[event]));
    }
    hide Ours, StripGroups, Added, AllOwned;
  }

  lemma StrippedIsList(paths: Paths, hooks: map<string, Entry>, event: string)
    ensures var bare := Strip(paths, true, hooks);
            && (event in bare <==> EntryGroups(bare, event) != [])
            && (event in bare ==> bare[event] == Groups(EntryGroups(bare, event)))
  {
    hide StripGroups;
  }

  /** Stripping what was added gives back exactly the hooks that were there,
      without ours and the legacy ones; the install and the removal agree on it. */
  lemma StripUndoesAdd(paths: Paths, host: Host, legacy: bool, hooks: map<string, Entry>)
    ensures var bare := Strip(paths, true, hooks); Strip(paths, legacy, Added(paths, host, bare)) == bare
  {
    var bare := Strip(paths, true, hooks);
    var added := Added(paths, host, bare);
    forall event
      ensures StripGroups(paths, legacy, EntryGroups(added, event)) == EntryGroups(bare, event)
      ensures event in bare <==> EntryGroups(bare, event) != []
      ensures event in bare ==> event in added && bare[event] == Groups(EntryGroups(bare, event))
    {
      StrippedGroups(paths, host, legacy, hooks, event);
      StrippedIsList(paths, hooks, event);
    }
    BackToBare(paths, legacy, added, bare);
  }

  lemma BackToBare(paths: Paths, legacy: bool, added: map<string, Entry>, bare: map<string, Entry>)
    requires forall event :: StripGroups(paths, legacy, EntryGroups(added, event)) == EntryGroups(bare, event)
    requires forall event :: event in bare <==> EntryGroups(bare, event) != []
    requires forall event | event in bare :: event in added && bare[event] == Groups(EntryGroups(bare, event))
    ensures Strip(paths, legacy, added) == bare
  {
    hide StripGroups;
    forall event ensures event in Strip(paths, legacy, added) <==> event in bare {
      assert StripGroups(paths, legacy, EntryGroups(added, event)) == EntryGroups(bare, event);
    }
    forall event | event in bare ensures Strip(paths, legacy, added)[event] == bare[event] {
      assert StripGroups(paths, legacy, EntryGroups(added, event)) == EntryGroups(bare, event);
    }
  }

  lemma OurEventsOnly(paths: Paths, host: Host, event: string)
    requires Ours(paths, host, event) != []
    ensures event in OUR_EVENTS
  {
    assert OUR_EVENTS[0] == "SessionStart" && OUR_EVENTS[1] == "PreToolUse";
    assert OUR_EVENTS[2] == "PostToolUse" && OUR_EVENTS[3] == "UserPromptSubmit";
  }

  lemma {:induction false} WithoutForeign(commands: seq<string>)
    ensures SANDBOX_EXCLUDE !in Without(commands)
    ensures SANDBOX_EXCLUDE !in commands ==> Without(commands) == commands
    ensures Without(commands + [SANDBOX_EXCLUDE]) == Without(commands)
  {
    assert (commands + [SANDBOX_EXCLUDE])[..|commands|] == commands;
    if commands != [] {
      WithoutForeign(commands[..|commands| - 1]);
      assert commands == commands[..|commands| - 1] + [commands[|commands| - 1]];
    }
  }

  /** Ours is gone from a stripped list, and stripping it again changes nothing. */
  predicate Bare(s: Sandbox) {
    s.Object? && s.excluded.Commands? ==>
      s.excluded.commands != [] && SANDBOX_EXCLUDE !in s.excluded.commands
        && Without(s.excluded.commands) == s.excluded.commands
  }

  lemma StrippedIsBare(s: Sandbox)
    ensures Bare(StripSandbox(s))
  {
    hide Without, SANDBOX_EXCLUDE;
    if s.Object? && s.excluded.Commands? {
      WithoutForeign(s.excluded.commands);
      WithoutForeign(Without(s.excluded.commands));
    }
  }

  lemma SandboxSettles(bare: Sandbox)
    requires Bare(bare)
    ensures AddSandbox(StripSandbox(AddSandbox(bare))) == AddSandbox(bare)
  {
    hide SANDBOX_EXCLUDE, Without, Bare;
    WithoutOurs();
    if bare.Object? && bare.excluded.Commands? {
      BareList(bare);
    }
  }

  lemma WithoutOurs()
    ensures Without([SANDBOX_EXCLUDE]) == []
  {
    hide SANDBOX_EXCLUDE;
    assert [SANDBOX_EXCLUDE][..0] == [];
  }

  lemma BareList(bare: Sandbox)
    requires Bare(bare) && bare.Object? && bare.excluded.Commands?
    ensures var commands := bare.excluded.commands;
            && SANDBOX_EXCLUDE !in commands && commands != [] && Without(commands + [SANDBOX_EXCLUDE]) == commands
  {
    WithoutForeign(bare.excluded.commands);
  }

  lemma BareStays(bare: Sandbox)
    requires Bare(bare)
    ensures StripSandbox(bare) == bare
  {
    hide Without;
  }

  /** Wiring a host twice is wiring it once. */
  lemma AddIdempotent(paths: Paths, host: Host, c: Config)
    ensures AddAll(paths, host, AddAll(paths, host, c)) == AddAll(paths, host, c)
  {
    StripUndoesAdd(paths, host, true, c.hooks);
    StrippedIsBare(c.sandbox);
    SandboxSettles(StripSandbox(c.sandbox));
    BareStays(StripSandbox(c.sandbox));
  }

  // ---- Which command stands where

  /** Handlers of ours stand under these matchers, each with this command and timeout, and nowhere else. */
  ghost predicate Stand(paths: Paths, groups: seq<Group>, matchers: set<Option<string>>, command: string,
                        timeout: string)
  {
    && (forall g, h | g in groups && g.Group? && h in g.handlers && Owned(paths, h.command) ::
          g.matcher in matchers && h.command == Some(command) && timeout <= h.rest)
    && (forall m | m in matchers :: exists g, h :: g in groups && g.Group? && h in g.handlers && g.matcher == m
                                                   && h.command == Some(command))
  }

  lemma StartStands(paths: Paths, host: Host)
    ensures Stand(paths, AtStart(paths, host), {None},
                  paths.launcher + " hook " + ("session-start --host " + host.name), "timeout 10")
  {
    var g := AtStart(paths, host)[0];
    assert g in AtStart(paths, host) && g.handlers[0] in g.handlers;
  }

  lemma OneStands(paths: Paths, g: Group, command: string, timeout: string)
    requires g.Group? && g.handlers != []
    requires forall h | h in g.handlers :: h.command == Some(command) && timeout <= h.rest
    ensures Stand(paths, [g], {g.matcher}, command, timeout)
  {
    assert g in [g] && g.handlers[0] in g.handlers;
    hide Owned;
  }

  lemma BothStand(paths: Paths, left: seq<Group>, right: seq<Group>, m: set<Option<string>>, n: set<Option<string>>,
                  command: string, timeout: string)
    requires Stand(paths, left, m, command, timeout) && Stand(paths, right, n, command, timeout)
    ensures Stand(paths, left + right, m + n, command, timeout)
  {
    hide Owned;
  }

  lemma BeforeStands(paths: Paths)
    ensures Stand(paths, BeforeTool(paths), {Some("Agent|Task"), Some("Bash"), Some("mcp__.*__DelegateAgent")},
                  paths.launcher + " hook " + "agent-nudge", "timeout 5")
  {
    var groups := BeforeTool(paths);
    var command := paths.launcher + " hook " + "agent-nudge";
    assert |groups[1].handlers| > 0;
    OneStands(paths, groups[0], command, "timeout 5");
    OneStands(paths, groups[1], command, "timeout 5");
    OneStands(paths, groups[2], command, "timeout 5");
    var m0, m1, m2 := groups[0].matcher, groups[1].matcher, groups[2].matcher;
    assert groups == [groups[0]] + [groups[1]] + [groups[2]];
    hide Stand, BeforeTool;
    BothStand(paths, [groups[0]], [groups[1]], {m0}, {m1}, command, "timeout 5");
    BothStand(paths, [groups[0]] + [groups[1]], [groups[2]], {m0} + {m1}, {m2}, command, "timeout 5");
    assert {m0} + {m1} + {m2} == {m0, m1, m2};
  }

  /** A Bash call is nudged by one handler for each pattern. */
  lemma BashNudges(paths: Paths)
    ensures var g := BeforeTool(paths)[1];
            && g.matcher == Some("Bash") && |g.handlers| == 6
            && (forall k | 0 <= k < 6 :: g.handlers[k].command == Some(paths.launcher + " hook " + "agent-nudge"))
            && g.handlers[0].rest == "timeout 5, if Bash(*" + "agent" + "s-inc" + "*)"
            && g.handlers[1].rest == "timeout 5, if Bash(*" + "gask.sh" + "*)"
            && g.handlers[2].rest == "timeout 5, if Bash(*" + "mask.sh" + "*)"
            && g.handlers[3].rest == "timeout 5, if Bash(*" + "oask.sh" + "*)"
            && g.handlers[4].rest == "timeout 5, if Bash(*" + "agent.sh" + "*)"
            && g.handlers[5].rest == "timeout 5, if Bash(*" + "codex exec" + "*)"
  {
    assert PATTERNS[0] == "agent" + "s-inc";
    assert PATTERNS[1] == "gask.sh" && PATTERNS[2] == "mask.sh" && PATTERNS[3] == "oask.sh";
    assert PATTERNS[4] == "agent.sh" && PATTERNS[5] == "codex exec";
  }

  lemma AfterStands(paths: Paths)
    ensures Stand(paths, AfterTool(paths), {Some("Agent|Task"), Some("mcp__.*__DelegateAgent")},
                  paths.launcher + " hook " + "agent-done", "timeout 5")
  {
    var groups := AfterTool(paths);
    assert forall k | 0 <= k < 2 :: groups[k] in groups && groups[k].handlers[0] in groups[k].handlers;
  }

  lemma PromptStands(paths: Paths)
    ensures Stand(paths, AtPrompt(paths), {None}, "bash " + paths.current + "/skills/codex-bridge/scripts/at_route.sh",
                  "timeout 130")
  {
    var g := AtPrompt(paths)[0];
    assert g in AtPrompt(paths) && g.handlers[0] in g.handlers;
  }

  predicate NoneOwned(paths: Paths, groups: seq<Group>) {
    forall g, h | g in groups && g.Group? && h in g.handlers :: !Owned(paths, h.command)
  }

  lemma {:induction false} StrippedNoneOwned(paths: Paths, groups: seq<Group>)
    ensures NoneOwned(paths, StripGroups(paths, true, groups))
  {
    if groups != [] {
      var n := |groups| - 1;
      StrippedNoneOwned(paths, groups[..n]);
      if groups[n].Group? { KeptAreForeign(paths, true, groups[n].handlers); }
      hide Owned, Kept;
    }
  }

  lemma StandsBehind(paths: Paths, bare: seq<Group>, ours: seq<Group>, matchers: set<Option<string>>, command: string,
                     timeout: string)
    requires NoneOwned(paths, bare) && Stand(paths, ours, matchers, command, timeout)
    ensures Stand(paths, bare + ours, matchers, command, timeout)
  {
    hide Owned;
    assert forall g :: g in bare + ours <==> g in bare || g in ours;
  }

  lemma AddedBehind(paths: Paths, host: Host, c: Config, event: string)
    returns (bare: seq<Group>)
    ensures NoneOwned(paths, bare)
    ensures EntryGroups(AddAll(paths, host, c).hooks, event) == bare + Ours(paths, host, event)
  {
    var stripped := Strip(paths, true, c.hooks);
    AddedGroups(paths, host, stripped, event);
    bare := EntryGroups(stripped, event);
    if event in c.hooks { StrippedNoneOwned(paths, GroupsOf(c.hooks[event])); }
    hide Ours, StripGroups, Added, Owned;
  }

  /** After wiring a host, our commands stand exactly under these events and matchers:
      the nudge before and the note after a tool, for a host that has them, the
      session start, and the prompt hook; whatever the configuration held before. */
  lemma CommandsStand(paths: Paths, host: Host, c: Config)
    ensures var hooks := AddAll(paths, host, c).hooks;
            && Stand(paths, EntryGroups(hooks, "SessionStart"), {None},
                     paths.launcher + " hook " + ("session-start --host " + host.name), "timeout 10")
            && (host.nudge ==>
                  Stand(paths, EntryGroups(hooks, "PreToolUse"),
                        {Some("Agent|Task"), Some("Bash"), Some("mcp__.*__DelegateAgent")},
                        paths.launcher + " hook " + "agent-nudge", "timeout 5"))
            && (host.nudge ==>
                  Stand(paths, EntryGroups(hooks, "PostToolUse"), {Some("Agent|Task"), Some("mcp__.*__DelegateAgent")},
                        paths.launcher + " hook " + "agent-done", "timeout 5"))
            && (host.promptHook ==>
                  Stand(paths, EntryGroups(hooks, "UserPromptSubmit"), {None},
                        "bash " + paths.current + "/skills/codex-bridge/scripts/at_route.sh", "timeout 130"))
  {
    hide *;
    var start := AddedBehind(paths, host, c, "SessionStart");
    var before := AddedBehind(paths, host, c, "PreToolUse");
    var after := AddedBehind(paths, host, c, "PostToolUse");
    var prompt := AddedBehind(paths, host, c, "UserPromptSubmit");
    OursNamed(paths, host);
    StartStands(paths, host);
    StandsBehind(paths, start, AtStart(paths, host), {None},
                 paths.launcher + " hook " + ("session-start --host " + host.name), "timeout 10");
    if host.nudge {
      BeforeStands(paths);
      StandsBehind(paths, before, BeforeTool(paths),
                   {Some("Agent|Task"), Some("Bash"), Some("mcp__.*__DelegateAgent")},
                   paths.launcher + " hook " + "agent-nudge", "timeout 5");
      AfterStands(paths);
      StandsBehind(paths, after, AfterTool(paths), {Some("Agent|Task"), Some("mcp__.*__DelegateAgent")},
                   paths.launcher + " hook " + "agent-done", "timeout 5");
    }
    if host.promptHook {
      PromptStands(paths);
      StandsBehind(paths, prompt, AtPrompt(paths), {None},
                   "bash " + paths.current + "/skills/codex-bridge/scripts/at_route.sh", "timeout 130");
    }
  }

  lemma OursNamed(paths: Paths, host: Host)
    ensures Ours(paths, host, "SessionStart") == AtStart(paths, host)
    ensures host.nudge ==> Ours(paths, host, "PreToolUse") == BeforeTool(paths)
    ensures host.nudge ==> Ours(paths, host, "PostToolUse") == AfterTool(paths)
    ensures host.promptHook ==> Ours(paths, host, "UserPromptSubmit") == AtPrompt(paths)
  {
    hide AtStart, BeforeTool, AfterTool, AtPrompt;
  }

  /** Elsewhere, and where the host has no such hook, nothing of ours is left. */
  lemma NothingElseStands(paths: Paths, host: Host, c: Config, event: string)
    requires event != "SessionStart" && !(host.nudge && event in {"PreToolUse", "PostToolUse"})
    requires !(host.promptHook && event == "UserPromptSubmit")
    ensures NoneOwned(paths, EntryGroups(AddAll(paths, host, c).hooks, event))
  {
    var bare := AddedBehind(paths, host, c, event);
    assert Ours(paths, host, event) == [];
    assert bare + [] == bare;
    hide Ours, AddAll, NoneOwned;
  }

  /** Exactly these handlers are taken out: those that call our launcher's hooks, our
      prompt script, and, where the legacy ones go too, the script of former versions. */
  lemma DropsIff(paths: Paths, legacy: bool, h: Handler)
    ensures Drops(paths, legacy, h) <==>
            h.command.Some? &&
            var c, hook := h.command.value, paths.launcher + " hook ";
            || (|c| >= |hook| && c[..|hook|] == hook)
            || c == "bash " + paths.current + "/skills/codex-bridge/scripts/at_route.sh"
            || (legacy && (c == "bash ~/.claude/scripts/at_route.sh" ||
                           c == "bash " + paths.home + "/.claude/scripts/at_route.sh"))
  {}

  /** For Claude the sandbox lists our exclusion once, behind the other entries in their
      order, wherever there can be a list; for every other host it is taken out. */
  lemma SandboxListed(paths: Paths, host: Host, c: Config)
    ensures var s := AddAll(paths, host, c).sandbox;
            && (host.name == "claude" && !c.sandbox.NoObject? &&
                (c.sandbox.Object? ==> !c.sandbox.excluded.NotAList?) ==>
                  s.Object? && s.excluded == Commands(ForeignCommands(c.sandbox) + ["agents-inc *"]))
            && (host.name != "claude" && s.Object? && s.excluded.Commands? ==>
                  "agents-inc *" !in s.excluded.commands && s.excluded.commands == ForeignCommands(c.sandbox))
  {
    hide Strip, Added, Without, ForeignIn, SANDBOX_EXCLUDE;
    ExclusionIs();
    if c.sandbox.Object? && c.sandbox.excluded.Commands? {
      WithoutForeign(c.sandbox.excluded.commands);
      ForeignAre(c.sandbox.excluded.commands);
    } else {
      assert ForeignCommands(c.sandbox) == [];
    }
  }

  /** Stripping keeps the other entries in their order and the other keys; the sandbox
      goes exactly when none of either is left. */
  lemma SandboxStripped(s: Sandbox)
    requires s.Object? && s.excluded.Commands?
    ensures StripSandbox(s) == Missing <==> ForeignCommands(s) == [] && s.others == ""
    ensures var left := StripSandbox(s);
            left != Missing ==>
              && left.Object? && left.others == s.others
              && (left.excluded == Absent <==> ForeignCommands(s) == [])
              && (left.excluded != Absent ==> left.excluded == Commands(ForeignCommands(s)))
  {
    hide Without, ForeignIn;
    ForeignAre(s.excluded.commands);
  }

  lemma ExclusionIs()
    ensures SANDBOX_EXCLUDE == "agents-inc *"
  {}

  function ForeignIn(commands: seq<string>): seq<string> {
    if commands == [] then []
    else (if commands[0] == "agents-inc *" then [] else [commands[0]]) + ForeignIn(commands[1..])
  }

  function ForeignCommands(s: Sandbox): seq<string> {
    if s.Object? && s.excluded.Commands? then ForeignIn(s.excluded.commands) else []
  }

  lemma {:induction false} ForeignMore(commands: seq<string>, last: string)
    ensures ForeignIn(commands + [last]) == ForeignIn(commands) + if last == "agents-inc *" then [] else [last]
  {
    if commands == [] {
      assert commands + [last] == [last] && [last][1..] == [];
    } else {
      assert (commands + [last])[1..] == commands[1..] + [last];
      ForeignMore(commands[1..], last);
    }
  }

  lemma {:induction false} ForeignAre(commands: seq<string>)
    ensures Without(commands) == ForeignIn(commands)
  {
    if commands != [] {
      var n := |commands| - 1;
      ForeignAre(commands[..n]);
      ForeignMore(commands[..n], commands[n]);
      assert commands == commands[..n] + [commands[n]];
    }
  }

  // ---- Everyone else's handlers

  datatype Foreign = Foreign(matcher: Option<string>, rest: string, handler: Handler) | Other(json: string)

  function Tagged(g: Group, handlers: seq<Handler>): seq<Foreign>
    requires g.Group?
  {
    seq(|handlers|, i requires 0 <= i < |handlers| => Foreign(g.matcher, g.rest, handlers[i]))
  }

  /** The handlers that are not ours nor legacy, each with its group's matcher, in order. */
  function ForeignOf(paths: Paths, groups: seq<Group>): seq<Foreign> {
    if groups == [] then []
    else
      var last := groups[|groups| - 1];
      ForeignOf(paths, groups[..|groups| - 1]) +
      if last.NoGroup? then [Other(last.json)] else Tagged(last, Kept(paths, true, last.handlers))
  }

  lemma Regroup<T>(a: seq<T>, b: seq<T>, c: seq<T>)
    ensures a + (b + c) == (a + b) + c
  {}

  lemma {:induction false} ForeignConcat(paths: Paths, a: seq<Group>, b: seq<Group>)
    ensures ForeignOf(paths, a + b) == ForeignOf(paths, a) + ForeignOf(paths, b)
    decreases |b|
  {
    hide Kept;
    if b == [] {
      assert a + b == a;
    } else {
      ForeignConcat(paths, a, b[..|b| - 1]);
      assert (a + b)[..|a + b| - 1] == a + b[..|b| - 1] && (a + b)[|a + b| - 1] == b[|b| - 1];
      var front := b[..|b| - 1];
      hide Tagged;
      Regroup(ForeignOf(paths, a), ForeignOf(paths, front), ForeignOf(paths, b)[|ForeignOf(paths, front)|..]);
    }
  }

  lemma {:induction false} StripKeepsForeign(paths: Paths, groups: seq<Group>)
    ensures ForeignOf(paths, StripGroups(paths, true, groups)) == ForeignOf(paths, groups)
  {
    if groups != [] {
      var front, last := groups[..|groups| - 1], groups[|groups| - 1];
      var once := StripGroup(paths, true, last);
      StripKeepsForeign(paths, front);
      ForeignConcat(paths, StripGroups(paths, true, front), once);
      if last.Group? {
        KeptAreForeign(paths, true, last.handlers);
        KeptAll(paths, true, Kept(paths, true, last.handlers));
      }
      if once != [] {
        assert once == [once[0]] && once[..0] == [];
        assert ForeignOf(paths, once[..0]) == [];
      }
    }
  }

  lemma {:induction false} OwnedIsNotForeign(paths: Paths, groups: seq<Group>)
    requires AllOwned(paths, groups)
    ensures ForeignOf(paths, groups) == []
  {
    if groups != [] {
      OwnedIsNotForeign(paths, groups[..|groups| - 1]);
      assert groups[|groups| - 1] in groups;
      KeptNone(paths, true, groups[|groups| - 1].handlers);
    }
  }

  /** Wiring a host keeps, under every event, each handler that is not ours nor
      legacy, with its matcher and in order. */
  lemma AddKeepsForeign(paths: Paths, host: Host, c: Config, event: string)
    ensures ForeignOf(paths, EntryGroups(AddAll(paths, host, c).hooks, event)) ==
            ForeignOf(paths, EntryGroups(c.hooks, event))
  {
    var bare := Strip(paths, true, c.hooks);
    var ours := Ours(paths, host, event);
    OursAreOwned(paths, host, event);
    OwnedIsNotForeign(paths, ours);
    if event in c.hooks {
      StripKeepsForeign(paths, GroupsOf(c.hooks[event]));
    }
    ForeignConcat(paths, EntryGroups(bare, event), ours);
    AddedGroups(paths, host, bare, event);
    hide Ours, ForeignOf, StripGroups, Added;
  }
}
