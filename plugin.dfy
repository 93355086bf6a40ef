/** The plugin: mode selection, hook dispatch with persisted state, and the
    instance a handler runs on. */
module SmuxiPlugin {
  import opened Wrappers
  import opened Paths
  import opened Hooks
  import Environment
  import opened Commands
  import opened Files
  import opened Installer

  /** A loaded state document. Its serialisation is not modelled: the state
      file's content is this value, read and written verbatim. */
  datatype Yaml = Scalar(text: string) | Sequence(items: seq<Yaml>) | Mapping(entries: map<string, Yaml>)

  /** The state a hook starts with when it has no state file: `{}`. */
  const EmptyState: Yaml := Mapping(map[])

  /** What a handler can see of the instance it runs on. */
  datatype Invocation = Invocation(
    environment: Environment.Env,
    variables: Environment.Context,
    baseDirectory: Path,
    stateDirectory: Path,
    hookName: string,
    scriptName: string,
    state: Yaml)

  /** What a handler does: the `command` calls it makes, in order, and either
      the state it leaves behind when it returns, or that it raised. */
  datatype Reaction = Returned(calls: seq<CommandCall>, state: Yaml) | Raised(calls: seq<CommandCall>)

  /** The user's handler methods, one behaviour per handler id. */
  type Handler = (HandlerId, Invocation) -> Reaction

  /** The state files, by path. */
  class StateStore {
    var files: map<Path, Yaml>

    constructor (files: map<Path, Yaml>)
      ensures this.files == files
    {
      this.files := files;
    }
  }

  /** An instance of the plugin, created for one hook invocation. */
  class Plugin {
    const environment: Environment.Env
    const baseDirectory: Path
    const stateDirectory: Path
    const hookName: string
    const scriptName: string
    var state: Yaml
    /** The instance variables that `VARIABLE_TABLE` names. */
    var variables: Environment.Context
    /** The lines printed to standard output. */
    var output: seq<string>

    /** `initialize`: records the options, then copies each table variable
        from the environment into its field. */
    constructor (environment: Environment.Env, baseDirectory: Path, stateDirectory: Path,
                 hookName: string, scriptName: string, state: Yaml)
      ensures View() == Invocation(environment, Environment.EventContext(environment), baseDirectory,
                                   stateDirectory, hookName, scriptName, state)
      ensures output == []
    {
      var variables := Environment.CopyVariables(environment, Environment.VariableTable);
      this.environment := environment;
      this.baseDirectory := baseDirectory;
      this.stateDirectory := stateDirectory;
      this.hookName := hookName;
      this.scriptName := scriptName;
      this.state := state;
      this.variables := variables;
      this.output := [];
    }

    function View(): Invocation
      reads this
    {
      Invocation(environment, variables, baseDirectory, stateDirectory, hookName, scriptName, state)
    }

    /** `command(type, name, data)`: prints one command line for Smuxi. */
    method Command(commandType: string, name: string, data: Option<string>)
      modifies this`output
      ensures output == old(output) + [CommandLine(CommandCall(commandType, name, data))]
    {
      output := output + [CommandLine(CommandCall(commandType, name, data))];
    }

    /** `session_command(name, data)`. */
    method SessionCommand(name: string, data: Option<string>)
      modifies this`output
      ensures output == old(output) + [CommandLine(CommandCall(SessionCommandType, name, data))]
    {
      Command(SessionCommandType, name, data);
    }

    /** `protocol_manager_command(name, data)`. */
    method ProtocolManagerCommand(name: string, data: Option<string>)
      modifies this`output
      ensures output == old(output) + [CommandLine(CommandCall(ProtocolManagerCommandType, name, data))]
    {
      Command(ProtocolManagerCommandType, name, data);
    }

    /** `puts(message)`: echoes a message to the Smuxi user. */
    method Puts(message: string)
      modifies this`output
      ensures output == old(output) + [CommandLine(CommandCall(SessionCommandType, EchoCommandName, Some(message)))]
    {
      SessionCommand(EchoCommandName, Some(message));
    }

    /** `public_send(method_name)`: runs the handler on this instance. Its
        `command` calls are printed in order; its state is kept only when it
        returns. */
    method Run(id: HandlerId, handler: Handler) returns (returned: bool)
      modifies this`output, this`state
      ensures var reaction := handler(id, old(View()));
        && returned == reaction.Returned?
        && output == old(output) + Lines(reaction.calls)
        && state == (if reaction.Returned? then reaction.state else old(state))
    {
      var reaction := handler(id, View());
      var i := 0;
      while i < |reaction.calls|
        invariant 0 <= i <= |reaction.calls|
        invariant output == old(output) + Lines(reaction.calls[..i])
        invariant state == old(state)
      {
        var call := reaction.calls[i];
        Command(call.commandType, call.name, call.data);
        assert Lines(reaction.calls[..i + 1]) == Lines(reaction.calls[..i]) + [CommandLine(call)];
        i := i + 1;
      }
      assert reaction.calls[..i] == reaction.calls;
      returned := reaction.Returned?;
      if returned {
        state := reaction.state;
      }
    }
  }

  // ---------------------------------------------------------------------
  // Dispatch

  datatype Outcome =
    | Ok
      /** The executable path does not contain the marker exactly once with
          something after it. */
    | MalformedPath(path: string)
      /** `raise "Hook ... unsupported"`. */
    | Unsupported(hookName: string)
      /** The table names a method the plugin does not implement (`NoMethodError`). */
    | NoHandler(id: HandlerId)
      /** The handler raised. */
    | HandlerRaised(id: HandlerId)
      /** `make_symlink` found the link path occupied during `install`. */
    | LinkOccupied(link: Path)

  /** The effect of one hook invocation: its outcome, the state files after
      it, and what it printed. */
  datatype HookResult = HookResult(outcome: Outcome, files: map<Path, Yaml>, output: seq<string>)

  /** The state a hook starts from: its state file, or `{}` when missing. */
  function LoadState(files: map<Path, Yaml>, stateFile: Path): Yaml {
    if stateFile in files then files[stateFile] else EmptyState
  }

  /** What the handler sees for a located hook. */
  function InvocationAt(loc: HookLocation, environment: Environment.Env, files: map<Path, Yaml>): Invocation {
    Invocation(environment, Environment.EventContext(environment), loc.BaseDirectory(),
               loc.StateDirectory(), loc.hookName, loc.scriptName, LoadState(files, loc.StateFile()))
  }

  /** `execute_hook`, as a function of the path, the environment, the state
      files before the call, the implemented handlers and their behaviour. */
  function HookRun(executablePath: string, environment: Environment.Env, files: map<Path, Yaml>,
                   implemented: set<HandlerId>, handler: Handler): HookResult
  {
    match Locate(executablePath)
    case None => HookResult(MalformedPath(executablePath), files, [])
    case Some(loc) => DispatchHook(loc, environment, files, implemented, handler)
  }

  /** The table lookup and the handler call for a located hook. */
  function DispatchHook(loc: HookLocation, environment: Environment.Env, files: map<Path, Yaml>,
                        implemented: set<HandlerId>, handler: Handler): HookResult
  {
    if loc.hookName !in HookTable then HookResult(Unsupported(loc.hookName), files, [])
    else
      var id := HookTable[loc.hookName];
      if id !in implemented then HookResult(NoHandler(id), files, [])
      else Complete(id, loc.StateFile(), handler(id, InvocationAt(loc, environment, files)), files)
  }

  /** After the handler: print its commands, and write its state only when
      it returned. */
  function Complete(id: HandlerId, stateFile: Path, reaction: Reaction, files: map<Path, Yaml>): HookResult {
    match reaction
    case Raised(calls) => HookResult(HandlerRaised(id), files, Lines(calls))
    case Returned(calls, state) => HookResult(Ok, files[stateFile := state], Lines(calls))
  }

  /** An unknown hook name is an error carrying that name; no handler runs
      and no state file is written. */
  lemma UnsupportedHookWritesNothing(executablePath: string, environment: Environment.Env, files: map<Path, Yaml>,
                                     implemented: set<HandlerId>, handler: Handler)
    requires Locate(executablePath).Some? && Locate(executablePath).value.hookName !in HookTable
    ensures HookRun(executablePath, environment, files, implemented, handler)
         == HookResult(Unsupported(Locate(executablePath).value.hookName), files, [])
  {
  }

  /** Every failed invocation leaves the state files as they were. */
  lemma FailureWritesNothing(executablePath: string, environment: Environment.Env, files: map<Path, Yaml>,
                             implemented: set<HandlerId>, handler: Handler)
    ensures var r := HookRun(executablePath, environment, files, implemented, handler);
      !r.outcome.Ok? ==> r.files == files
  {
    match Locate(executablePath)
    case None =>
    case Some(loc) =>
      assert HookRun(executablePath, environment, files, implemented, handler)
          == DispatchHook(loc, environment, files, implemented, handler);
      if loc.hookName in HookTable && HookTable[loc.hookName] in implemented {
        var id := HookTable[loc.hookName];
        var reaction := handler(id, InvocationAt(loc, environment, files));
        assert DispatchHook(loc, environment, files, implemented, handler)
            == Complete(id, loc.StateFile(), reaction, files);
      }
  }

  /** A known, implemented hook runs exactly the handler the table names,
      once, on the loaded state (or `{}`) and the table's fields, and when it
      returns its state overwrites exactly this hook's state file. */
  lemma KnownHookRunsItsHandler(executablePath: string, environment: Environment.Env, files: map<Path, Yaml>,
                                implemented: set<HandlerId>, handler: Handler)
    requires Locate(executablePath).Some?
    requires Locate(executablePath).value.hookName in HookTable
    requires HookTable[Locate(executablePath).value.hookName] in implemented
    ensures var loc := Locate(executablePath).value;
      var id := HookTable[loc.hookName];
      var seen := InvocationAt(loc, environment, files);
      var reaction := handler(id, seen);
      var r := HookRun(executablePath, environment, files, implemented, handler);
      && seen.state == (if loc.StateFile() in files then files[loc.StateFile()] else EmptyState)
      && (forall f: Environment.Field :: f in seen.variables)
      && r.output == Lines(reaction.calls)
      && (reaction.Returned? ==> r.outcome == Ok && r.files == files[loc.StateFile() := reaction.state])
      && (reaction.Raised? ==> r.outcome == HandlerRaised(id) && r.files == files)
      && (forall p :: p != loc.StateFile() ==> Get(r.files, p) == Get(files, p))
  {
    var loc := Locate(executablePath).value;
    var id := HookTable[loc.hookName];
    var reaction := handler(id, InvocationAt(loc, environment, files));
    assert HookRun(executablePath, environment, files, implemented, handler)
        == Complete(id, loc.StateFile(), reaction, files);
    Environment.EventContextCopies(environment);
  }

  /** State carries over between invocations: the next invocation of the same
      hook and script starts from the state the handler returned, and every
      other state file loads as before. A failed invocation leaves every
      state file loading as before. */
  lemma StateCarriesOver(loc: HookLocation, environment: Environment.Env, files: map<Path, Yaml>,
                         implemented: set<HandlerId>, handler: Handler,
                         nextEnvironment: Environment.Env, p: Path)
    ensures var r := DispatchHook(loc, environment, files, implemented, handler);
      && (r.outcome.Ok? ==>
            && loc.hookName in HookTable
            && handler(HookTable[loc.hookName], InvocationAt(loc, environment, files)).Returned?
            && InvocationAt(loc, nextEnvironment, r.files).state
               == handler(HookTable[loc.hookName], InvocationAt(loc, environment, files)).state)
      && (p != loc.StateFile() || !r.outcome.Ok? ==> LoadState(r.files, p) == LoadState(files, p))
  {
    if loc.hookName in HookTable && HookTable[loc.hookName] in implemented {
      var id := HookTable[loc.hookName];
      var reaction := handler(id, InvocationAt(loc, environment, files));
      assert DispatchHook(loc, environment, files, implemented, handler)
          == Complete(id, loc.StateFile(), reaction, files);
    }
  }

  /** `execute_hook(executable_path, environment)`: locate the hook, load its
      state, build the instance, dispatch through the table, and write the
      state back after the handler returns. */
  method ExecuteHook(executablePath: string, environment: Environment.Env, implemented: set<HandlerId>,
                     handler: Handler, store: StateStore)
    returns (outcome: Outcome, output: seq<string>)
    modifies store
    ensures HookRun(executablePath, environment, old(store.files), implemented, handler)
         == HookResult(outcome, store.files, output)
  {
    var location := Locate(executablePath);
    if location.None? {
      return MalformedPath(executablePath), [];
    }
    var loc := location.value;
    ghost var run := DispatchHook(loc, environment, store.files, implemented, handler);
    assert HookRun(executablePath, environment, store.files, implemented, handler) == run;
    var stateFile := loc.StateFile();
    var state := LoadState(store.files, stateFile);
    var instance := new Plugin(environment, loc.BaseDirectory(), loc.StateDirectory(),
                               loc.hookName, loc.scriptName, state);
    if loc.hookName !in HookTable {
      return Unsupported(loc.hookName), [];
    }
    var id := HookTable[loc.hookName];
    if id !in implemented {
      return NoHandler(id), [];
    }
    ghost var reaction := handler(id, instance.View());
    assert run == Complete(id, stateFile, reaction, store.files);
    var returned := instance.Run(id, handler);
    output := instance.output;
    if returned {
      store.files := store.files[stateFile := instance.state];
      outcome := Ok;
    } else {
      outcome := HandlerRaised(id);
    }
  }

  // ---------------------------------------------------------------------
  // Mode selection

  datatype Mode = InstallMode | UninstallMode | HookMode

  /** The first command-line argument chooses the mode. */
  function SelectMode(arguments: seq<string>): (m: Mode)
    ensures m == InstallMode <==> arguments != [] && arguments[0] == "install"
    ensures m == UninstallMode <==> arguments != [] && arguments[0] == "uninstall"
  {
    if arguments != [] && arguments[0] == "install" then InstallMode
    else if arguments != [] && arguments[0] == "uninstall" then UninstallMode
    else HookMode
  }

  /** `execute(executable_path, environment, arguments)`. The installer
      works under `baseDirectory`; the hook run touches only the state files
      and the installer only the filesystem. */
  method Execute(executablePath: string, environment: Environment.Env, arguments: seq<string>,
                 baseDirectory: Path, implemented: set<HandlerId>, handler: Handler,
                 fs: FileSystem, store: StateStore)
    returns (outcome: Outcome, output: seq<string>, ghost progress: seq<Path>)
    modifies fs, store
    ensures var hookPaths := UsedHookPaths(baseDirectory, implemented);
      match SelectMode(arguments)
      case InstallMode =>
        var r := InstallAll(old(fs.entries), hookPaths, executablePath);
        && fs.entries == r.entries && progress == r.progress && output == []
        && outcome == (if r.blocked.Some? then LinkOccupied(r.blocked.value) else Ok)
        && store.files == old(store.files)
      case UninstallMode =>
        var r := UninstallAll(old(fs.entries), hookPaths, executablePath);
        && fs.entries == r.entries && progress == r.progress && output == [] && outcome == Ok
        && store.files == old(store.files)
      case HookMode =>
        && HookRun(executablePath, environment, old(store.files), implemented, handler)
           == HookResult(outcome, store.files, output)
        && fs.entries == old(fs.entries) && progress == []
  {
    var mode := SelectMode(arguments);
    output, progress := [], [];
    match mode
    case InstallMode =>
      var blocked;
      blocked, progress := Install(executablePath, baseDirectory, implemented, fs);
      outcome := if blocked.Some? then LinkOccupied(blocked.value) else Ok;
    case UninstallMode =>
      progress := Uninstall(executablePath, baseDirectory, implemented, fs);
      outcome := Ok;
    case HookMode =>
      outcome, output := ExecuteHook(executablePath, environment, implemented, handler, store);
  }
}
