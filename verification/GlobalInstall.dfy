/**
 The edits that `install-global` and `uninstall-global` make to `.claude.json` and `.claude/settings.json`
 (src/bin/team_mode_service.rs).  JSON objects are maps: the program's JSON library keeps no key order.
 */
module GlobalInstall {
  import opened Wrappers
  import opened Search

  datatype Json = Null | Bool(b: bool) | Num(n: int) | Str(s: string) | Arr(items: seq<Json>) | Obj(fields: map<string, Json>)

  datatype File = Missing | Unparsable | Document(value: Json)

  datatype Fault = ParseError | RootNotObject | FieldNotObject | EventNotArray | ServerConflict

  const SERVER := "team-mode"
  const STOP := "Stop"
  const POST := "PostToolUse"
  const STOP_COMMAND := "team_mode_service hook async-wake"
  const POST_COMMAND := "team_mode_service hook mid-turn"

  /** `global_team_mode_mcp_server_json` */
  function ServerEntry(): Json {
    Obj(map["command" := Str("team_mode_service"), "args" := Arr([Str("relay")]), "env" := Obj(map[])])
  }

  /** `global_stop_hook_entry` */
  function StopEntry(): Json {
    Obj(map["hooks" := Arr([Obj(map["type" := Str("command"), "command" := Str(STOP_COMMAND),
                                    "asyncRewake" := Bool(true), "timeout" := Num(7200)])])])
  }

  /** `global_post_tool_use_hook_entry` */
  function PostEntry(): Json {
    Obj(map["hooks" := Arr([Obj(map["type" := Str("command"), "command" := Str(POST_COMMAND)])])])
  }

  /** `json_contains_command` */
  predicate HasCommand(j: Json, needle: string)
    decreases j
  {
    match j
    case Str(s) => Find(s, needle).Some?
    case Arr(items) => exists i :: 0 <= i < |items| && HasCommand(items[i], needle)
    case Obj(fields) => exists k :: k in fields && HasCommand(fields[k], needle)
    case _ => false
  }

  predicate EventHasCommand(hooks: map<string, Json>, event: string, needle: string) {
    event in hooks && HasCommand(hooks[event], needle)
  }

  // ---------------------------------------------------------------------------
  // Edits
  // ---------------------------------------------------------------------------

  /** `read_json_file`, with the default a missing file stands for, down to the root object. */
  function Root(f: File, missing: map<string, Json>): Result<map<string, Json>, Fault> {
    match f
    case Missing => Ok(missing)
    case Unparsable => Err(ParseError)
    case Document(Obj(fields)) => Ok(fields)
    case Document(_) => Err(RootNotObject)
  }

  /** `ensure_object_field`: the field's object, empty when the field is absent. */
  function ObjectField(root: map<string, Json>, key: string): Result<map<string, Json>, Fault> {
    if key !in root then Ok(map[])
    else if root[key].Obj? then Ok(root[key].fields)
    else Err(FieldNotObject)
  }

  /** `append_hook_entry` */
  function Append(hooks: map<string, Json>, event: string, entry: Json): Result<map<string, Json>, Fault> {
    if event !in hooks then Ok(hooks[event := Arr([entry])])
    else if hooks[event].Arr? then Ok(hooks[event := Arr(hooks[event].items + [entry])])
    else Err(EventNotArray)
  }

  function AppendUnlessPresent(hooks: map<string, Json>, event: string, needle: string, entry: Json)
    : Result<map<string, Json>, Fault>
  {
    if EventHasCommand(hooks, event, needle) then Ok(hooks) else Append(hooks, event, entry)
  }

  /** `merged_global_mcp_json`; None leaves the file as it is. */
  function MergedMcp(f: File): Result<Option<Json>, Fault> {
    match Root(f, map["mcpServers" := Obj(map[])])
    case Err(e) => Err(e)
    case Ok(root) =>
      match ObjectField(root, "mcpServers")
      case Err(e) => Err(e)
      case Ok(servers) =>
        if SERVER in servers then (if servers[SERVER] == ServerEntry() then Ok(None) else Err(ServerConflict))
        else Ok(Some(Obj(root["mcpServers" := Obj(servers[SERVER := ServerEntry()])])))
  }

  /** `merged_global_claude_settings_json` */
  function MergedSettings(f: File): Result<Option<Json>, Fault> {
    match Root(f, map[])
    case Err(e) => Err(e)
    case Ok(root) =>
      match ObjectField(root, "hooks")
      case Err(e) => Err(e)
      case Ok(hooks) =>
        match AppendUnlessPresent(hooks, STOP, STOP_COMMAND, StopEntry())
        case Err(e) => Err(e)
        case Ok(hooks1) =>
          match AppendUnlessPresent(hooks1, POST, POST_COMMAND, PostEntry())
          case Err(e) => Err(e)
          case Ok(hooks2) =>
            if EventHasCommand(hooks, STOP, STOP_COMMAND) && EventHasCommand(hooks1, POST, POST_COMMAND) then Ok(None)
            else Ok(Some(Obj(root["hooks" := Obj(hooks2)])))
  }

  function Written(f: File, out: Option<Json>): File {
    if out.Some? then Document(out.value) else f
  }

  /** `Vec::retain` with the condition of `remove_hook_entry_command` */
  function Retain(entries: seq<Json>, needle: string): seq<Json> {
    if entries == [] then []
    else Retain(entries[..|entries| - 1], needle)
         + if HasCommand(entries[|entries| - 1], needle) then [] else [entries[|entries| - 1]]
  }

  /** `remove_hook_entry_command` */
  function RemoveEntries(hooks: map<string, Json>, event: string, needle: string): Result<map<string, Json>, Fault> {
    if event !in hooks then Ok(hooks)
    else if !hooks[event].Arr? then Err(EventNotArray)
    else
      var kept := Retain(hooks[event].items, needle);
      Ok(if kept == [] then hooks - {event} else hooks[event := Arr(kept)])
  }

  /** `global_mcp_json_is_empty_shell`, `global_settings_json_is_empty_shell` */
  predicate IsShell(root: map<string, Json>, key: string) {
    root == map[] || root == map[key := Obj(map[])]
  }

  function Shelled(root: map<string, Json>, key: string): File {
    if IsShell(root, key) then Missing else Document(Obj(root))
  }

  /** The MCP half of `uninstall_global_at` */
  function UninstalledMcp(f: File): Result<File, Fault> {
    if f.Missing? then Ok(Missing)
    else match Root(f, map[])
      case Err(e) => Err(e)
      case Ok(root) =>
        var root' := if "mcpServers" in root && root["mcpServers"].Obj?
                     then root["mcpServers" := Obj(root["mcpServers"].fields - {SERVER})] else root;
        Ok(Shelled(root', "mcpServers"))
  }

  /** The settings half of `uninstall_global_at` */
  function UninstalledSettings(f: File): Result<File, Fault> {
    if f.Missing? then Ok(Missing)
    else match Root(f, map[])
      case Err(e) => Err(e)
      case Ok(root) =>
        if "hooks" !in root then Ok(Shelled(root, "hooks"))
        else match ObjectField(root, "hooks")
          case Err(e) => Err(e)
          case Ok(hooks) =>
            match RemoveEntries(hooks, STOP, STOP_COMMAND)
            case Err(e) => Err(e)
            case Ok(hooks1) =>
              match RemoveEntries(hooks1, POST, POST_COMMAND)
              case Err(e) => Err(e)
              case Ok(hooks2) => Ok(Shelled(root["hooks" := Obj(hooks2)], "hooks"))
  }

  // ---------------------------------------------------------------------------
  // What a file says
  // ---------------------------------------------------------------------------

  /** The root fields; a missing file has none. */
  function Fields(f: File): map<string, Json> {
    match f
    case Document(Obj(fields)) => fields
    case _ => map[]
  }

  function FieldsOf(f: File, key: string): map<string, Json> {
    var r := Fields(f);
    if key in r && r[key].Obj? then r[key].fields else map[]
  }

  /** The entries of a hook event, in order; an absent event has none. */
  function Entries(f: File, event: string): seq<Json> {
    var hooks := FieldsOf(f, "hooks");
    if event in hooks && hooks[event].Arr? then hooks[event].items else []
  }

  /** Both files agree outside one root field. */
  ghost predicate SameBesides(f: File, g: File, key: string) {
    Fields(f) - {key} == Fields(g) - {key}
  }

  /** Both files agree on every hook event but the two that are edited. */
  ghost predicate SameOtherEvents(f: File, g: File) {
    FieldsOf(f, "hooks") - {STOP, POST} == FieldsOf(g, "hooks") - {STOP, POST}
  }

  predicate NoneHas(entries: seq<Json>, needle: string) {
    forall i | 0 <= i < |entries| :: !HasCommand(entries[i], needle)
  }

  // ---------------------------------------------------------------------------
  // Hook entries
  // ---------------------------------------------------------------------------

  lemma FindItself(s: string)
    ensures Find(s, s) == Some(0)
  {
    assert s[0..|s|] == s;
  }

  lemma HasNested(fields: map<string, Json>, key: string, needle: string)
    requires key in fields && HasCommand(fields[key], needle)
    ensures HasCommand(Obj(fields), needle)
  {
  }

  /** The entries that are installed are the ones the checks look for. */
  lemma EntriesCarryTheirCommand()
    ensures HasCommand(StopEntry(), STOP_COMMAND) && HasCommand(PostEntry(), POST_COMMAND)
  {
    FindItself(STOP_COMMAND);
    FindItself(POST_COMMAND);
    var stop := StopEntry().fields["hooks"];
    HasNested(stop.items[0].fields, "command", STOP_COMMAND);
    HasNested(StopEntry().fields, "hooks", STOP_COMMAND);
    var post := PostEntry().fields["hooks"];
    HasNested(post.items[0].fields, "command", POST_COMMAND);
    HasNested(PostEntry().fields, "hooks", POST_COMMAND);
  }

  lemma {:induction false} RetainFacts(entries: seq<Json>, needle: string)
    ensures |Retain(entries, needle)| <= |entries|
    ensures Retain(entries, needle) == entries <==> NoneHas(entries, needle)
    ensures NoneHas(Retain(entries, needle), needle)
  {
    if entries != [] {
      var n := |entries| - 1;
      RetainFacts(entries[..n], needle);
      assert entries == entries[..n] + [entries[n]];
      assert NoneHas(entries, needle) ==> NoneHas(entries[..n], needle);
      if NoneHas(entries[..n], needle) && !HasCommand(entries[n], needle) {
        assert forall i | 0 <= i < n :: entries[i] == entries[..n][i];
      }
      if Retain(entries, needle) == entries {
        assert Retain(entries[..n], needle) == entries[..n];
        assert forall i | 0 <= i < n :: entries[i] == entries[..n][i];
      }
    }
  }

  lemma RetainAppended(entries: seq<Json>, entry: Json, needle: string)
    requires HasCommand(entry, needle)
    ensures Retain(entries + [entry], needle) == Retain(entries, needle)
  {
    assert (entries + [entry])[..|entries|] == entries;
  }

  lemma AppendedHasCommand(entries: seq<Json>, entry: Json, needle: string)
    requires HasCommand(entry, needle)
    ensures HasCommand(Arr(entries + [entry]), needle)
  {
    assert (entries + [entry])[|entries|] == entry;
  }

  // ---------------------------------------------------------------------------
  // Installing and uninstalling the MCP server
  // ---------------------------------------------------------------------------

  /** An install adds the server and nothing else, and repeating it changes nothing. */
  lemma McpInstalls(f: File)
    requires MergedMcp(f).Ok?
    ensures var g := Written(f, MergedMcp(f).value);
            && MergedMcp(g) == Ok(None)
            && SameBesides(f, g, "mcpServers")
            && FieldsOf(g, "mcpServers") == FieldsOf(f, "mcpServers")[SERVER := ServerEntry()]
  {
    hide ServerEntry;
  }

  /**
   Uninstalling after an install keeps every other field and every other server, and so restores the server table
   exactly when it had no `team-mode` server; the file goes when nothing but an empty server table is left.
   */
  lemma McpRoundTrip(f: File)
    requires MergedMcp(f).Ok?
    ensures var g := Written(f, MergedMcp(f).value);
            && UninstalledMcp(g).Ok?
            && var h := UninstalledMcp(g).value;
               && SameBesides(f, h, "mcpServers")
               && FieldsOf(h, "mcpServers") == FieldsOf(f, "mcpServers") - {SERVER}
               && (FieldsOf(h, "mcpServers") == FieldsOf(f, "mcpServers") <==> SERVER !in FieldsOf(f, "mcpServers"))
               && (h.Missing? <==> Fields(f).Keys <= {"mcpServers"} && FieldsOf(f, "mcpServers").Keys <= {SERVER})
  {
    hide ServerEntry;
    McpInstalls(f);
    var g := Written(f, MergedMcp(f).value);
    var servers := FieldsOf(f, "mcpServers");
    assert servers[SERVER := ServerEntry()] - {SERVER} == servers - {SERVER};
    var root := Fields(g);
    var root' := root["mcpServers" := Obj(servers - {SERVER})];
    assert UninstalledMcp(g) == Ok(Shelled(root', "mcpServers"));
    assert root' - {"mcpServers"} == root - {"mcpServers"};
    assert Fields(f) - {"mcpServers"} == root - {"mcpServers"};
    if IsShell(root', "mcpServers") {
      assert "mcpServers" in root' && root' == map["mcpServers" := Obj(map[])];
      assert servers - {SERVER} == map[] && forall k | k in servers && k != SERVER :: k in servers - {SERVER};
      assert forall k | k in Fields(f) && k != "mcpServers" :: k in root' - {"mcpServers"};
    }
    if Fields(f).Keys <= {"mcpServers"} && servers.Keys <= {SERVER} {
      assert servers - {SERVER} == map[];
      assert forall k | k in root' && k != "mcpServers" :: k in Fields(f) - {"mcpServers"};
      assert root' == map["mcpServers" := Obj(map[])];
    }
  }

  // ---------------------------------------------------------------------------
  // Installing and uninstalling the hooks
  // ---------------------------------------------------------------------------

  function ItemsOf(hooks: map<string, Json>, event: string): seq<Json> {
    if event in hooks && hooks[event].Arr? then hooks[event].items else []
  }

  /** The event is absent or an array; otherwise an uninstall refuses the file. */
  predicate ArrayOrAbsent(hooks: map<string, Json>, event: string) {
    event !in hooks || hooks[event].Arr?
  }

  /** What one event holds after an append that is skipped when the command is already there. */
  lemma AppendFacts(hooks: map<string, Json>, event: string, needle: string, entry: Json)
    requires HasCommand(entry, needle) && AppendUnlessPresent(hooks, event, needle, entry).Ok?
    ensures var after := AppendUnlessPresent(hooks, event, needle, entry).value;
            && EventHasCommand(after, event, needle)
            && after - {event} == hooks - {event}
            && ItemsOf(after, event) == ItemsOf(hooks, event)
                 + (if EventHasCommand(hooks, event, needle) then [] else [entry])
            && Retain(ItemsOf(after, event), needle) == Retain(ItemsOf(hooks, event), needle)
            && (ArrayOrAbsent(after, event) <==> ArrayOrAbsent(hooks, event))
  {
    hide HasCommand, Retain;
    AppendedHasCommand(ItemsOf(hooks, event), entry, needle);
    RetainAppended(ItemsOf(hooks, event), entry, needle);
    assert [] + [entry] == [entry];
    var after := AppendUnlessPresent(hooks, event, needle, entry).value;
    if !EventHasCommand(hooks, event, needle) {
      assert after == hooks[event := Arr(ItemsOf(hooks, event) + [entry])];
    }
  }

  lemma RemoveFacts(hooks: map<string, Json>, event: string, needle: string)
    requires RemoveEntries(hooks, event, needle).Ok?
    ensures var after := RemoveEntries(hooks, event, needle).value;
            && after - {event} == hooks - {event}
            && ItemsOf(after, event) == Retain(ItemsOf(hooks, event), needle)
            && (event in after ==> event in hooks && hooks[event].Arr?)
            && (event in after <==> Retain(ItemsOf(hooks, event), needle) != [])
  {
  }

  /** How the hook tables before and after an install compare. */
  ghost predicate InstalledOver(a: map<string, Json>, b: map<string, Json>) {
    && a - {STOP, POST} == b - {STOP, POST}
    && EventHasCommand(b, STOP, STOP_COMMAND) && EventHasCommand(b, POST, POST_COMMAND)
    && ItemsOf(b, STOP) == ItemsOf(a, STOP) + (if EventHasCommand(a, STOP, STOP_COMMAND) then [] else [StopEntry()])
    && ItemsOf(b, POST) == ItemsOf(a, POST) + (if EventHasCommand(a, POST, POST_COMMAND) then [] else [PostEntry()])
    && (ArrayOrAbsent(b, STOP) <==> ArrayOrAbsent(a, STOP)) && (ArrayOrAbsent(b, POST) <==> ArrayOrAbsent(a, POST))
    && Retain(ItemsOf(b, STOP), STOP_COMMAND) == Retain(ItemsOf(a, STOP), STOP_COMMAND)
    && Retain(ItemsOf(b, POST), POST_COMMAND) == Retain(ItemsOf(a, POST), POST_COMMAND)
  }

  lemma AppendBoth(hooks: map<string, Json>)
    ensures var r1 := AppendUnlessPresent(hooks, STOP, STOP_COMMAND, StopEntry());
            r1.Ok? ==>
              var r2 := AppendUnlessPresent(r1.value, POST, POST_COMMAND, PostEntry());
              r2.Ok? ==> InstalledOver(hooks, r2.value)
                         && (EventHasCommand(r1.value, POST, POST_COMMAND) <==> EventHasCommand(hooks, POST, POST_COMMAND))
  {
    EntriesCarryTheirCommand();
    hide StopEntry, PostEntry, HasCommand, Retain, Append, AppendUnlessPresent;
    assert STOP != POST;
    var r1 := AppendUnlessPresent(hooks, STOP, STOP_COMMAND, StopEntry());
    if r1.Ok? {
      var hooks1 := r1.value;
      AppendFacts(hooks, STOP, STOP_COMMAND, StopEntry());
      Untouched(hooks, hooks1, STOP, POST);
      var r2 := AppendUnlessPresent(hooks1, POST, POST_COMMAND, PostEntry());
      if r2.Ok? {
        var hooks2 := r2.value;
        AppendFacts(hooks1, POST, POST_COMMAND, PostEntry());
        Untouched(hooks1, hooks2, POST, STOP);
        assert hooks - {STOP, POST} == (hooks - {STOP}) - {POST} && hooks1 - {STOP, POST} == (hooks1 - {STOP}) - {POST};
        assert hooks1 - {STOP, POST} == (hooks1 - {POST}) - {STOP} && hooks2 - {STOP, POST} == (hooks2 - {POST}) - {STOP};
      }
    }
  }

  /** An install appends at most one entry per event, leaves all else alone, and repeating it changes nothing. */
  lemma HooksInstall(f: File)
    requires MergedSettings(f).Ok?
    ensures var g := Written(f, MergedSettings(f).value);
            && MergedSettings(g) == Ok(None)
            && SameBesides(f, g, "hooks")
            && g.Document? && g.value.Obj? && "hooks" in g.value.fields && g.value.fields["hooks"].Obj?
            && InstalledOver(FieldsOf(f, "hooks"), FieldsOf(g, "hooks"))
  {
    hide StopEntry, PostEntry, HasCommand, Retain, Append, AppendUnlessPresent, InstalledOver;
    var hooks := FieldsOf(f, "hooks");
    assert ObjectField(Fields(f), "hooks") == Ok(hooks);
    AppendBoth(hooks);
    var hooks1 := AppendUnlessPresent(hooks, STOP, STOP_COMMAND, StopEntry()).value;
    var hooks2 := AppendUnlessPresent(hooks1, POST, POST_COMMAND, PostEntry()).value;
    InstalledHasBoth(hooks, hooks2);
    PresentMeansUnchanged(hooks, STOP, STOP_COMMAND, StopEntry());
    PresentMeansUnchanged(hooks1, POST, POST_COMMAND, PostEntry());
    PresentMeansUnchanged(hooks2, STOP, STOP_COMMAND, StopEntry());
    PresentMeansUnchanged(hooks2, POST, POST_COMMAND, PostEntry());
    var g := Written(f, MergedSettings(f).value);
    assert FieldsOf(g, "hooks") == hooks2;
  }

  lemma InstalledHasBoth(a: map<string, Json>, b: map<string, Json>)
    ensures InstalledOver(a, b) ==> EventHasCommand(b, STOP, STOP_COMMAND) && EventHasCommand(b, POST, POST_COMMAND)
  {
  }

  lemma PresentMeansUnchanged(hooks: map<string, Json>, event: string, needle: string, entry: Json)
    ensures EventHasCommand(hooks, event, needle) ==> AppendUnlessPresent(hooks, event, needle, entry) == Ok(hooks)
  {
  }

  /** An edit of one event does not show in another. */
  lemma Untouched(a: map<string, Json>, b: map<string, Json>, edited: string, other: string)
    requires a - {edited} == b - {edited} && edited != other
    ensures (other in a <==> other in b) && (other in a ==> b[other] == a[other])
    ensures ItemsOf(a, other) == ItemsOf(b, other)
  {
    assert other in a <==> other in a - {edited};
    assert other in b <==> other in b - {edited};
    assert other in a ==> (a - {edited})[other] == a[other];
    assert other in b ==> (b - {edited})[other] == b[other];
  }

  lemma ShellShowsTheSame(root: map<string, Json>, key: string)
    requires key in root && root[key].Obj?
    ensures Fields(Shelled(root, key)) - {key} == root - {key} && FieldsOf(Shelled(root, key), key) == root[key].fields
  {
    if IsShell(root, key) {
      assert root == map[key := Obj(map[])];
      assert root - {key} == map[];
    }
  }

  /** The two removals of an uninstall on a table of hooks. */
  lemma RemoveBoth(hooks: map<string, Json>)
    requires ArrayOrAbsent(hooks, STOP) && ArrayOrAbsent(hooks, POST)
    ensures var r1 := RemoveEntries(hooks, STOP, STOP_COMMAND);
            && r1.Ok?
            && var r2 := RemoveEntries(r1.value, POST, POST_COMMAND);
               && r2.Ok?
               && r2.value - {STOP, POST} == hooks - {STOP, POST}
               && ItemsOf(r2.value, STOP) == Retain(ItemsOf(hooks, STOP), STOP_COMMAND)
               && ItemsOf(r2.value, POST) == Retain(ItemsOf(hooks, POST), POST_COMMAND)
  {
    hide Retain;
    assert STOP != POST;
    var hooks1 := RemoveEntries(hooks, STOP, STOP_COMMAND).value;
    RemoveFacts(hooks, STOP, STOP_COMMAND);
    Untouched(hooks, hooks1, STOP, POST);
    var hooks2 := RemoveEntries(hooks1, POST, POST_COMMAND).value;
    RemoveFacts(hooks1, POST, POST_COMMAND);
    Untouched(hooks1, hooks2, POST, STOP);
    assert hooks - {STOP, POST} == (hooks - {STOP}) - {POST} && hooks1 - {STOP, POST} == (hooks1 - {STOP}) - {POST};
    assert hooks1 - {STOP, POST} == (hooks1 - {POST}) - {STOP} && hooks2 - {STOP, POST} == (hooks2 - {POST}) - {STOP};
  }

  /**
   Uninstalling after an install keeps every other field, event and entry in order, and drops from the two events
   exactly the entries that carry the command; so an event is restored exactly when it held none of those before.
   It fails exactly when one of the events is something other than an array.
   */
  lemma HooksRoundTrip(f: File)
    requires MergedSettings(f).Ok?
    ensures var g := Written(f, MergedSettings(f).value);
            && (UninstalledSettings(g).Ok? <==> ArrayOrAbsent(FieldsOf(f, "hooks"), STOP)
                                                && ArrayOrAbsent(FieldsOf(f, "hooks"), POST))
            && (UninstalledSettings(g).Ok? ==>
                  var h := UninstalledSettings(g).value;
                  && SameBesides(f, h, "hooks") && SameOtherEvents(f, h)
                  && Entries(h, STOP) == Retain(Entries(f, STOP), STOP_COMMAND)
                  && Entries(h, POST) == Retain(Entries(f, POST), POST_COMMAND)
                  && (Entries(h, STOP) == Entries(f, STOP) <==> NoneHas(Entries(f, STOP), STOP_COMMAND))
                  && (Entries(h, POST) == Entries(f, POST) <==> NoneHas(Entries(f, POST), POST_COMMAND)))
  {
    HooksInstall(f);
    RetainFacts(Entries(f, STOP), STOP_COMMAND);
    RetainFacts(Entries(f, POST), POST_COMMAND);
    hide StopEntry, PostEntry, HasCommand, Retain, MergedSettings;
    var g := Written(f, MergedSettings(f).value);
    UninstallShows(g.value.fields);
  }

  /** An install accepts a Stop hook given as a plain command string; the uninstall after it refuses the file. */
  lemma StringHookCannotBeUninstalled()
    ensures var f := Document(Obj(map["hooks" := Obj(map[STOP := Str(STOP_COMMAND)])]));
            MergedSettings(f).Ok? && UninstalledSettings(Written(f, MergedSettings(f).value)).Err?
  {
    var hooks := map[STOP := Str(STOP_COMMAND)];
    var f := Document(Obj(map["hooks" := Obj(hooks)]));
    FindItself(STOP_COMMAND);
    assert STOP != POST;
    hide PostEntry, StopEntry;
    assert AppendUnlessPresent(hooks, STOP, STOP_COMMAND, StopEntry()) == Ok(hooks);
    assert AppendUnlessPresent(hooks, POST, POST_COMMAND, PostEntry()).Ok?;
    assert MergedSettings(f).Ok?;
    HooksRoundTrip(f);
  }

  /** The view of a settings file after an uninstall, or the refusal. */
  lemma UninstallShows(root: map<string, Json>)
    requires "hooks" in root && root["hooks"].Obj?
    ensures var hooks := root["hooks"].fields;
            var r := UninstalledSettings(Document(Obj(root)));
            && (r.Ok? <==> ArrayOrAbsent(hooks, STOP) && ArrayOrAbsent(hooks, POST))
            && (r.Ok? ==>
                  && Fields(r.value) - {"hooks"} == root - {"hooks"}
                  && FieldsOf(r.value, "hooks") - {STOP, POST} == hooks - {STOP, POST}
                  && Entries(r.value, STOP) == Retain(ItemsOf(hooks, STOP), STOP_COMMAND)
                  && Entries(r.value, POST) == Retain(ItemsOf(hooks, POST), POST_COMMAND))
  {
    hide HasCommand, Retain;
    var hooks := root["hooks"].fields;
    assert STOP != POST;
    if ArrayOrAbsent(hooks, STOP) && ArrayOrAbsent(hooks, POST) {
      RemoveBoth(hooks);
      hide RemoveEntries;
      var hooks1 := RemoveEntries(hooks, STOP, STOP_COMMAND).value;
      var hooks2 := RemoveEntries(hooks1, POST, POST_COMMAND).value;
      var root' := root["hooks" := Obj(hooks2)];
      assert UninstalledSettings(Document(Obj(root))) == Ok(Shelled(root', "hooks"));
      ShellShowsTheSame(root', "hooks");
      assert root' - {"hooks"} == root - {"hooks"};
    } else if ArrayOrAbsent(hooks, STOP) {
      RemoveFacts(hooks, STOP, STOP_COMMAND);
      Untouched(hooks, RemoveEntries(hooks, STOP, STOP_COMMAND).value, STOP, POST);
    }
  }

  // ---------------------------------------------------------------------------
  // Any file, whoever wrote it
  // ---------------------------------------------------------------------------

  /** The root object of a file that has one. */
  predicate HasRoot(f: File) { f.Document? && f.value.Obj? }

  /** Why a file is refused before any edit; None for one with a root object, and for no file. */
  function Unreadable(f: File): Option<Fault> {
    if f.Unparsable? then Some(ParseError)
    else if f.Document? && !f.value.Obj? then Some(RootNotObject)
    else None
  }

  /** A field that is there and no object. */
  predicate BadField(f: File, key: string) {
    key in Fields(f) && !Fields(f)[key].Obj?
  }

  /** When an MCP install refuses a file, when it leaves it alone, and when it writes: for every file. */
  lemma McpInstallMeans(f: File)
    ensures var r, servers := MergedMcp(f), FieldsOf(f, "mcpServers");
            && (Unreadable(f).Some? ==> r == Err(Unreadable(f).value))
            && (Unreadable(f).None? ==>
                  && (r == Err(FieldNotObject) <==> BadField(f, "mcpServers"))
                  && (r == Err(ServerConflict) <==> SERVER in servers && servers[SERVER] != ServerEntry())
                  && (r == Ok(None) <==> SERVER in servers && servers[SERVER] == ServerEntry())
                  && (r.Ok? && r.value.Some? <==> !BadField(f, "mcpServers") && SERVER !in servers))
  {
    hide ServerEntry;
  }

  /** The server that is installed. */
  lemma InstalledServer()
    ensures ServerEntry().Obj?
    ensures ServerEntry().fields.Keys == {"command", "args", "env"}
    ensures ServerEntry().fields["command"] == Str("team_mode_service") && ServerEntry().fields["args"] == Arr([Str("relay")])
    ensures ServerEntry().fields["env"] == Obj(map[])
  {
  }

  /**
   An MCP uninstall of any file: it refuses only what cannot be read; a file without a table of servers stays as it
   is; otherwise the table loses the one server; and the file goes exactly when nothing is left in it.
   */
  lemma McpUninstallMeans(f: File)
    ensures var r, left := UninstalledMcp(f), FieldsOf(f, "mcpServers") - {SERVER};
            && (Unreadable(f).Some? ==> r == Err(Unreadable(f).value))
            && (f == Missing ==> r == Ok(Missing))
            && (HasRoot(f) ==>
                  && r.Ok?
                  && (r.value == Missing <==>
                        Fields(f) == map[] || (Fields(f).Keys == {"mcpServers"} && !BadField(f, "mcpServers") && left == map[]))
                  && (r.value != Missing ==>
                        && HasRoot(r.value)
                        && Fields(r.value).Keys == Fields(f).Keys
                        && (forall k | k in Fields(f) ::
                              Fields(r.value)[k] == if k == "mcpServers" && !BadField(f, k) then Obj(left) else Fields(f)[k])))
  {
    if HasRoot(f) {
      var root := Fields(f);
      var root' := if "mcpServers" in root && root["mcpServers"].Obj?
                   then root["mcpServers" := Obj(root["mcpServers"].fields - {SERVER})] else root;
      assert UninstalledMcp(f) == Ok(Shelled(root', "mcpServers"));
      ShellIs(root', "mcpServers");
      assert root' == map[] <==> root == map[];
      assert root'.Keys == root.Keys;
    }
  }

  /** An object that is empty, or has one field that is an empty object. */
  lemma ShellIs(root: map<string, Json>, key: string)
    ensures Shelled(root, key) == Missing <==> root == map[] || (root.Keys == {key} && root[key] == Obj(map[]))
    ensures Shelled(root, key) != Missing ==> Shelled(root, key) == Document(Obj(root))
  {
    if root.Keys == {key} && root[key] == Obj(map[]) {
      assert root == map[key := Obj(map[])];
    }
  }

  /** An event that an append would meet and that is no array. */
  predicate Blocks(hooks: map<string, Json>, event: string, needle: string) {
    event in hooks && !hooks[event].Arr? && !HasCommand(hooks[event], needle)
  }

  /** When a hook install refuses a file, and when it leaves it alone: for every file. */
  lemma HooksInstallMeans(f: File)
    ensures var r, hooks := MergedSettings(f), FieldsOf(f, "hooks");
            && (Unreadable(f).Some? ==> r == Err(Unreadable(f).value))
            && (Unreadable(f).None? ==>
                  && (r == Err(FieldNotObject) <==> BadField(f, "hooks"))
                  && (r == Err(EventNotArray) <==>
                        !BadField(f, "hooks") && (Blocks(hooks, STOP, STOP_COMMAND) || Blocks(hooks, POST, POST_COMMAND)))
                  && (r == Ok(None) <==>
                        !BadField(f, "hooks") && EventHasCommand(hooks, STOP, STOP_COMMAND) && EventHasCommand(hooks, POST, POST_COMMAND))
                  && (r.Err? ==> r.error == FieldNotObject || r.error == EventNotArray))
  {
    hide HasCommand, StopEntry, PostEntry;
    assert STOP != POST;
  }

  /**
   A hook uninstall of any file: it refuses what cannot be read, a `hooks` that is no object and an event that is no
   array; a file without `hooks` stays as it is; otherwise `UninstallShows` says what is left; and the file goes exactly
   when nothing is.
   */
  lemma HooksUninstallMeans(f: File)
    ensures var r, hooks := UninstalledSettings(f), FieldsOf(f, "hooks");
            && (Unreadable(f).Some? ==> r == Err(Unreadable(f).value))
            && (f == Missing ==> r == Ok(Missing))
            && (HasRoot(f) ==>
                  && (r == Err(FieldNotObject) <==> BadField(f, "hooks"))
                  && (r.Ok? <==> !BadField(f, "hooks") && ArrayOrAbsent(hooks, STOP) && ArrayOrAbsent(hooks, POST))
                  && ("hooks" !in Fields(f) ==> r == Ok(if Fields(f) == map[] then Missing else f))
                  && (r.Ok? && "hooks" in Fields(f) ==>
                        (r.value == Missing <==>
                           && Fields(f).Keys == {"hooks"} && hooks.Keys <= {STOP, POST}
                           && Retain(ItemsOf(hooks, STOP), STOP_COMMAND) == [] && Retain(ItemsOf(hooks, POST), POST_COMMAND) == [])))
  {
    if HasRoot(f) && !BadField(f, "hooks") {
      if "hooks" in Fields(f) {
        UninstallShows(Fields(f));
        var hooks := FieldsOf(f, "hooks");
        if ArrayOrAbsent(hooks, STOP) && ArrayOrAbsent(hooks, POST) {
          GoneWhenNothingIsLeft(Fields(f));
        }
      } else {
        ShellIs(Fields(f), "hooks");
      }
    }
    hide HasCommand, Retain;
  }

  lemma GoneWhenNothingIsLeft(root: map<string, Json>)
    requires "hooks" in root && root["hooks"].Obj?
    requires ArrayOrAbsent(root["hooks"].fields, STOP) && ArrayOrAbsent(root["hooks"].fields, POST)
    ensures var hooks, r := root["hooks"].fields, UninstalledSettings(Document(Obj(root)));
            r == Ok(Missing) <==>
              && root.Keys == {"hooks"} && hooks.Keys <= {STOP, POST}
              && Retain(ItemsOf(hooks, STOP), STOP_COMMAND) == [] && Retain(ItemsOf(hooks, POST), POST_COMMAND) == []
  {
    hide HasCommand, Retain;
    var hooks := root["hooks"].fields;
    RemoveBoth(hooks);
    RemoveFacts(hooks, STOP, STOP_COMMAND);
    var hooks1 := RemoveEntries(hooks, STOP, STOP_COMMAND).value;
    RemoveFacts(hooks1, POST, POST_COMMAND);
    assert STOP != POST;
    Untouched(hooks, hooks1, STOP, POST);
    var hooks2 := RemoveEntries(hooks1, POST, POST_COMMAND).value;
    Untouched(hooks1, hooks2, POST, STOP);
    hide RemoveEntries;
    var root' := root["hooks" := Obj(hooks2)];
    assert UninstalledSettings(Document(Obj(root))) == Ok(Shelled(root', "hooks"));
    ShellIs(root', "hooks");
    assert root'.Keys == root.Keys && root'["hooks"] == Obj(hooks2);
    EmptyAfterBoth(hooks, hooks2);
  }

  lemma EmptyAfterBoth(hooks: map<string, Json>, left: map<string, Json>)
    requires left - {STOP, POST} == hooks - {STOP, POST}
    ensures left == map[] <==> hooks.Keys <= {STOP, POST} && STOP !in left && POST !in left
  {
    if left == map[] {
      forall k | k in hooks ensures k in {STOP, POST} {
        assert k in hooks - {STOP, POST} ==> k in left - {STOP, POST};
      }
    }
    if hooks.Keys <= {STOP, POST} && STOP !in left && POST !in left {
      forall k ensures k !in left {
        assert k in left ==> k in left - {STOP, POST};
      }
      assert left.Keys == {};
    }
  }

  /** The string `text` stands somewhere inside `j`. */
  ghost predicate StringIn(j: Json, text: string)
    decreases j
  {
    match j
    case Str(t) => t == text
    case Arr(items) => exists i :: 0 <= i < |items| && StringIn(items[i], text)
    case Obj(fields) => exists k :: k in fields && StringIn(fields[k], text)
    case _ => false
  }

  /** A value has a command exactly when some string at any depth of it contains the command. */
  lemma {:induction false} CommandIsInAString(j: Json, needle: string)
    ensures HasCommand(j, needle) <==> exists text :: StringIn(j, text) && Contains(text, needle)
    decreases j
  {
    match j
    case Str(t) =>
      FindMeans(t, needle);
      assert StringIn(j, t);
    case Arr(items) =>
      forall i | 0 <= i < |items|
        ensures HasCommand(items[i], needle) <==> exists text :: StringIn(items[i], text) && Contains(text, needle)
      {
        CommandIsInAString(items[i], needle);
      }
      ItemsHaveStrings(items, needle);
    case Obj(fields) =>
      forall k | k in fields
        ensures HasCommand(fields[k], needle) <==> exists text :: StringIn(fields[k], text) && Contains(text, needle)
      {
        CommandIsInAString(fields[k], needle);
      }
      FieldsHaveStrings(fields, needle);
    case _ =>
  }

  lemma ItemsHaveStrings(items: seq<Json>, needle: string)
    requires forall i | 0 <= i < |items| ::
               HasCommand(items[i], needle) <==> exists text :: StringIn(items[i], text) && Contains(text, needle)
    ensures HasCommand(Arr(items), needle) <==> exists text :: StringIn(Arr(items), text) && Contains(text, needle)
  {
    hide Contains;
    if HasCommand(Arr(items), needle) {
      var i :| 0 <= i < |items| && HasCommand(items[i], needle);
      var text :| StringIn(items[i], text) && Contains(text, needle);
      assert StringIn(Arr(items), text);
    }
  }

  lemma FieldsHaveStrings(fields: map<string, Json>, needle: string)
    requires forall k | k in fields ::
               HasCommand(fields[k], needle) <==> exists text :: StringIn(fields[k], text) && Contains(text, needle)
    ensures HasCommand(Obj(fields), needle) <==> exists text :: StringIn(Obj(fields), text) && Contains(text, needle)
  {
    hide Contains;
    if HasCommand(Obj(fields), needle) {
      var k :| k in fields && HasCommand(fields[k], needle);
      var text :| StringIn(fields[k], text) && Contains(text, needle);
      assert StringIn(Obj(fields), text);
    }
  }

  /** The Stop hook that is installed: one command, which may rewake within two hours. */
  lemma InstalledStopHook() returns (stop: map<string, Json>)
    ensures StopEntry() == Obj(map["hooks" := Arr([Obj(stop)])])
    ensures stop.Keys == {"type", "command", "asyncRewake", "timeout"}
    ensures stop["type"] == Str("command") && stop["command"] == Str("team_mode_service hook async-wake")
    ensures stop["asyncRewake"] == Bool(true) && stop["timeout"] == Num(7200)
  {
    stop := map["type" := Str("command"), "command" := Str(STOP_COMMAND), "asyncRewake" := Bool(true), "timeout" := Num(7200)];
  }

  /** The other hook that is installed: one command, and nothing about waking. */
  lemma InstalledPostHook() returns (post: map<string, Json>)
    ensures PostEntry() == Obj(map["hooks" := Arr([Obj(post)])])
    ensures post.Keys == {"type", "command"}
    ensures post["type"] == Str("command") && post["command"] == Str("team_mode_service hook mid-turn")
  {
    post := map["type" := Str("command"), "command" := Str(POST_COMMAND)];
  }

  // ---------------------------------------------------------------------------
  // Editing in place
  // ---------------------------------------------------------------------------

  /** The object under `hooks`, which the edits change in place. */
  class HookTable {
    var hooks: map<string, Json>

    constructor (hooks: map<string, Json>)
      ensures this.hooks == hooks
    {
      this.hooks := hooks;
    }

    method AppendHookEntry(event: string, entry: Json) returns (fault: Option<Fault>)
      modifies this
      ensures Append(old(hooks), event, entry) == if fault.None? then Ok(hooks) else Err(fault.value)
    {
      ghost var before := hooks;
      if event !in hooks {
        hooks := hooks[event := Arr([])];
      }
      if !hooks[event].Arr? {
        return Some(EventNotArray);
      }
      assert [] + [entry] == [entry] && hooks - {event} == before - {event};
      assert hooks[event := Arr([entry])] == before[event := Arr([entry])];
      hooks := hooks[event := Arr(hooks[event].items + [entry])];
      fault := None;
    }

    method RemoveHookEntryCommand(event: string, needle: string) returns (fault: Option<Fault>)
      modifies this
      ensures RemoveEntries(old(hooks), event, needle) == if fault.None? then Ok(hooks) else Err(fault.value)
    {
      hide HasCommand;
      if event !in hooks {
        return None;
      }
      if !hooks[event].Arr? {
        return Some(EventNotArray);
      }
      var entries := hooks[event].items;
      var kept: seq<Json> := [];
      for i := 0 to |entries|
        invariant kept == Retain(entries[..i], needle)
      {
        assert entries[..i + 1][..i] == entries[..i];
        if !HasCommand(entries[i], needle) {
          kept := kept + [entries[i]];
        }
      }
      assert entries[..|entries|] == entries;
      if kept == [] {
        hooks := hooks - {event};
      } else {
        hooks := hooks[event := Arr(kept)];
      }
      fault := None;
    }
  }

  method MergeSettings(f: File) returns (r: Result<Option<Json>, Fault>)
    ensures r == MergedSettings(f)
  {
    hide HasCommand, StopEntry, PostEntry, Append;
    var root := Root(f, map[]);
    if root.Err? {
      return Err(root.error);
    }
    var hooks := ObjectField(root.value, "hooks");
    if hooks.Err? {
      return Err(hooks.error);
    }
    var table := new HookTable(hooks.value);
    var changed := false;
    if !EventHasCommand(table.hooks, STOP, STOP_COMMAND) {
      var fault := table.AppendHookEntry(STOP, StopEntry());
      if fault.Some? {
        return Err(fault.value);
      }
      changed := true;
    }
    if !EventHasCommand(table.hooks, POST, POST_COMMAND) {
      var fault := table.AppendHookEntry(POST, PostEntry());
      if fault.Some? {
        return Err(fault.value);
      }
      changed := true;
    }
    r := Ok(if changed then Some(Obj(root.value["hooks" := Obj(table.hooks)])) else None);
  }

  method RemoveGlobalHooks(f: File) returns (r: Result<File, Fault>)
    ensures r == UninstalledSettings(f)
  {
    hide RemoveEntries;
    if f.Missing? {
      return Ok(Missing);
    }
    var root := Root(f, map[]);
    if root.Err? {
      return Err(root.error);
    }
    if "hooks" !in root.value {
      return Ok(Shelled(root.value, "hooks"));
    }
    if !root.value["hooks"].Obj? {
      return Err(FieldNotObject);
    }
    var table := new HookTable(root.value["hooks"].fields);
    var fault := table.RemoveHookEntryCommand(STOP, STOP_COMMAND);
    if fault.Some? {
      return Err(fault.value);
    }
    fault := table.RemoveHookEntryCommand(POST, POST_COMMAND);
    if fault.Some? {
      return Err(fault.value);
    }
    r := Ok(Shelled(root.value["hooks" := Obj(table.hooks)], "hooks"));
  }

  // ---------------------------------------------------------------------------
  // The two files
  // ---------------------------------------------------------------------------

  /** The home directory's two files; each method makes its edits in the order the program does. */
  class Home {
    var mcp: File
    var settings: File

    constructor (mcp: File, settings: File)
      ensures this.mcp == mcp && this.settings == settings
    {
      this.mcp, this.settings := mcp, settings;
    }

    /** An error in the settings leaves the MCP file already written. */
    method InstallGlobal() returns (r: Option<Fault>)
      modifies this
      ensures MergedMcp(old(mcp)).Err? ==>
                r == Some(MergedMcp(old(mcp)).error) && mcp == old(mcp) && settings == old(settings)
      ensures MergedMcp(old(mcp)).Ok? ==> mcp == Written(old(mcp), MergedMcp(old(mcp)).value)
      ensures MergedMcp(old(mcp)).Ok? && MergedSettings(old(settings)).Err? ==>
                r == Some(MergedSettings(old(settings)).error) && settings == old(settings)
      ensures r.None? <==> MergedMcp(old(mcp)).Ok? && MergedSettings(old(settings)).Ok?
      ensures r.None? ==> settings == Written(old(settings), MergedSettings(old(settings)).value)
      ensures r.None? ==> MergedMcp(mcp) == Ok(None) && MergedSettings(settings) == Ok(None)
    {
      var newMcp := MergedMcp(mcp);
      if newMcp.Err? {
        return Some(newMcp.error);
      }
      McpInstalls(mcp);
      if newMcp.value.Some? {
        mcp := Document(newMcp.value.value);
      }
      var newSettings := MergeSettings(settings);
      if newSettings.Err? {
        return Some(newSettings.error);
      }
      HooksInstall(settings);
      if newSettings.value.Some? {
        settings := Document(newSettings.value.value);
      }
      r := None;
    }

    method UninstallGlobal() returns (r: Option<Fault>)
      modifies this
      ensures UninstalledMcp(old(mcp)).Err? ==>
                r == Some(UninstalledMcp(old(mcp)).error) && mcp == old(mcp) && settings == old(settings)
      ensures UninstalledMcp(old(mcp)).Ok? ==> mcp == UninstalledMcp(old(mcp)).value
      ensures UninstalledMcp(old(mcp)).Ok? && UninstalledSettings(old(settings)).Err? ==>
                r == Some(UninstalledSettings(old(settings)).error) && settings == old(settings)
      ensures r.None? <==> UninstalledMcp(old(mcp)).Ok? && UninstalledSettings(old(settings)).Ok?
      ensures r.None? ==> settings == UninstalledSettings(old(settings)).value
    {
      var newMcp := UninstalledMcp(mcp);
      if newMcp.Err? {
        return Some(newMcp.error);
      }
      mcp := newMcp.value;
      var newSettings := RemoveGlobalHooks(settings);
      if newSettings.Err? {
        return Some(newSettings.error);
      }
      settings := newSettings.value;
      r := None;
    }
  }
}
