# Smuxi hooks API for Ruby — a Dafny model

This project models the plugin base class of the Smuxi hooks API for Ruby
(`GodObject::SmuxiHooks::Plugin`). Smuxi runs an external executable for
each chat event. The event data arrives in `SMUXI_*` environment variables,
and the executable answers by printing command lines. The plugin class has
four jobs:

- It works out which hook fired from the executable's path
  `<config>/smuxi/hooks/<hook name>/<script>`.
- It copies the known environment variables into instance fields.
- It loads the per-hook, per-script state file
  `<config>/smuxi/hook-state/<hook name>/<script>/state.yml`, runs the
  handler that `HOOK_TABLE` names, and writes the state back.
- In `install`/`uninstall` mode, it adds or removes the symlinks
  `<base>/hooks/<hook name>/<executable name>` for every hook the plugin
  implements.

Modules follow those parts:

- `Paths`: splitting on the marker `/smuxi/hooks/`, basename and dirname, and the state file location.
- `Hooks`: `HOOK_TABLE` and the used hook methods, names and paths.
- `Environment`: `VARIABLE_TABLE` and the event context.
- `Commands`: the command-line format, plus the host's reading of a line, which serves as its inverse.
- `Files`: an abstract filesystem as a class over `map<Path, Entry>`.
- `Installer`: install and uninstall, each a loop method specified by a recursive function.
- `SmuxiPlugin`: the plugin instance as a class, the state store, `execute_hook` and `execute`.

`execute_hook` writes the state with `state_file.open('w')` and does not
create the state directory (`lib/god_object/smuxi_hooks/plugin.rb:160`). The
model's write only replaces the file's entry in the state store.

The tables are the constants `Hooks.HookTable` (`HOOK_TABLE`, lines 47-57) and
`Environment.VariableTable` (`VARIABLE_TABLE`, lines 61-87). Their properties
are stated by the `Hooks.HookTableBijective` and `Environment.VariableTableWellFormed` rows below.

The handler is a parameter. It is a function from the handler id and what
the instance exposes (an `Invocation`) to a `Reaction`: the `command` calls it
makes, and either its final state or the fact that it raised. The plugin's
implemented methods, which Ruby finds by reflection, are an explicit
`set<HandlerId>`.

## Model

| member | source | states |
|---|---|---|
| `SmuxiPlugin.SelectMode` | lib/god_object/smuxi_hooks/plugin.rb:106-115 | `install` and only `install` as first argument selects installation, `uninstall` and only it selects uninstallation; anything else, or no argument, runs the hook |
| `SmuxiPlugin.Execute` | lib/god_object/smuxi_hooks/plugin.rb:106-115 | install mode changes the filesystem exactly as the install function says and reports a blocked link as `LinkOccupied`; uninstall mode exactly as the uninstall function says; any other first argument runs `execute_hook` (`HookRun`) on the state store. The state store and the filesystem are separate objects in the model (see Left out) |
| `Paths.FindMarker` | lib/god_object/smuxi_hooks/plugin.rb:126-128 | the result is the first index at or after `from` where `/smuxi/hooks/` starts, and `None` only when there is none |
| `Paths.SplitExecutablePath` | lib/god_object/smuxi_hooks/plugin.rb:126-128 | a result is the unique marker's prefix and a non-empty suffix that rebuild the path; a failure means the marker is missing, repeated, or last |
| `Paths.SplitRoundTrip` | lib/god_object/smuxi_hooks/plugin.rb:126-128 | splitting `prefix + "/smuxi/hooks/" + rel` with a single marker and non-empty `rel` yields exactly `prefix` and `rel` |
| `Paths.Join` | lib/god_object/smuxi_hooks/plugin.rb:130-138 | definition with no contract of its own: `Pathname#+` with a relative name, as one `/` between the parts (see Left out) |
| `Paths.Basename` | lib/god_object/smuxi_hooks/plugin.rb:133 | definition with no contract of its own: what follows the last `/` (see Left out) |
| `Paths.Dirname` | lib/god_object/smuxi_hooks/plugin.rb:134 | definition with no contract of its own: what precedes the last `/`, or `.` (see Left out) |
| `Paths.HookLocation.BaseDirectory` | lib/god_object/smuxi_hooks/plugin.rb:130-131 | definition with no contract of its own: `<config>/smuxi` |
| `Paths.HookLocation.StateDirectory` | lib/god_object/smuxi_hooks/plugin.rb:135-138 | definition with no contract of its own: `<base>/hook-state/<hook>/<script>` |
| `Paths.HookLocation.StateFile` | lib/god_object/smuxi_hooks/plugin.rb:140 | definition with no contract of its own: `<state directory>/state.yml`; the `Paths.StateFileInjective` row states its property |
| `Paths.LastSlash` | lib/god_object/smuxi_hooks/plugin.rb:132-134 | the index found holds a `/` with none after it; `None` exactly when there is no `/` |
| `Paths.BasenameDirname` | lib/god_object/smuxi_hooks/plugin.rb:132-134 | the script name has no `/`; dirname, `/` and basename rebuild the relative path; without a `/` the script is the whole path and the hook name is `.` |
| `Paths.Locate` | lib/god_object/smuxi_hooks/plugin.rb:126-134 | a located hook has a slash-free script name, the marker only after the config directory, and the path is `config + marker + hook + "/" + script` (or `config + marker + script` with hook `.`); it fails exactly when the split does |
| `Paths.LocateComposed` | lib/god_object/smuxi_hooks/plugin.rb:126-134 | a path built from a config directory, hook name and slash-free script name (single marker) decomposes into exactly those three |
| `Paths.StateFileInjective` | lib/god_object/smuxi_hooks/plugin.rb:135-140 | under one base directory, equal state files imply equal hook names and script names: state is scoped to the (hook, script) pair |
| `Hooks.HookNameOf` | lib/god_object/smuxi_hooks/plugin.rb:47-57 | every handler id is a value of the table, registered under the returned name (`HOOK_TABLE.invert`) |
| `Hooks.HookTableBijective` | lib/god_object/smuxi_hooks/plugin.rb:47-57 | every handler id is a table value, inverting then looking up gives back every name, the table is injective, and the value order lists every id once |
| `Hooks.Filter` | lib/god_object/smuxi_hooks/plugin.rb:220 | the result holds exactly the elements of the input that are kept, is duplicate-free when the input is, and is no longer |
| `Hooks.UsedHookMethods` | lib/god_object/smuxi_hooks/plugin.rb:219-221 | the used methods are exactly the implemented ids that are table values, each once |
| `Hooks.UsedHookNames` | lib/god_object/smuxi_hooks/plugin.rb:225-231 | one name per used method, in order, each a table key whose value is that method; the names are exactly the keys whose handler is implemented, without duplicates |
| `Hooks.HooksDirectory` | lib/god_object/smuxi_hooks/plugin.rb:238 | definition with no contract of its own: `<base>/hooks` |
| `Hooks.UsedHookPaths` | lib/god_object/smuxi_hooks/plugin.rb:237-243 | the i-th path is `base/hooks/<i-th used name>`, and the paths are distinct |
| `Environment.FieldIndex` | lib/god_object/smuxi_hooks/plugin.rb:61-87 | every field of the instance has an entry in `VARIABLE_TABLE` |
| `Environment.VariableTableWellFormed` | lib/god_object/smuxi_hooks/plugin.rb:61-87 | the table has 25 entries, no two feeding the same field |
| `Environment.ContextOf` | lib/god_object/smuxi_hooks/plugin.rb:312-315 | definition with no contract of its own: the fields after copying a table prefix, one `instance_variable_set` per entry |
| `Environment.EventContext` | lib/god_object/smuxi_hooks/plugin.rb:304-316 | definition with no contract of its own: the fields after copying the whole table |
| `Environment.ContextOfCopies` | lib/god_object/smuxi_hooks/plugin.rb:312-315 | after copying a table prefix, exactly that prefix's fields are set, each to its variable's value verbatim or `None` when unset |
| `Environment.EventContextCopies` | lib/god_object/smuxi_hooks/plugin.rb:312-315 | every field is set, and each table field equals its environment variable verbatim, `None` exactly when the variable is absent |
| `Environment.ContextOfIgnoresOthers` | lib/god_object/smuxi_hooks/plugin.rb:312-315 | environments that agree on the table's variables give the same fields |
| `Environment.UnknownVariableIgnored` | lib/god_object/smuxi_hooks/plugin.rb:312-315 | setting or removing a variable outside the table changes no field |
| `Environment.CopyVariables` | lib/god_object/smuxi_hooks/plugin.rb:312-315 | the copy loop over a table leaves exactly the fields the table's copy steps define |
| `SmuxiPlugin.Plugin.constructor` | lib/god_object/smuxi_hooks/plugin.rb:304-316 | the instance records the options, has printed nothing, and its fields are the event context of its environment |
| `SmuxiPlugin.Plugin.Command` | lib/god_object/smuxi_hooks/plugin.rb:324-329 | prints exactly one line, the formatted command, after what was printed before |
| `SmuxiPlugin.Plugin.SessionCommand` | lib/god_object/smuxi_hooks/plugin.rb:336-338 | prints one command line of type `Session.Command` |
| `SmuxiPlugin.Plugin.ProtocolManagerCommand` | lib/god_object/smuxi_hooks/plugin.rb:345-347 | prints one command line of type `ProtocolManager.Command` |
| `SmuxiPlugin.Plugin.Puts` | lib/god_object/smuxi_hooks/plugin.rb:352-354 | prints `Session.Command /echo <message>` |
| `Commands.CommandLine` | lib/god_object/smuxi_hooks/plugin.rb:325-326 | definition with no contract of its own: `<type> /<name>`, plus a space and the data whenever data is given; its properties are the `Commands.ParseCommandLineRoundTrip`, `Commands.ParseCommandLineExact` and `Commands.EmptyDataAddsSpace` rows |
| `Commands.Lines` | lib/god_object/smuxi_hooks/plugin.rb:324-329 | one line per command call, in call order, and the host reads every call whose type and name have no space back from its line |
| `Commands.ParseCommandLineRoundTrip` | lib/god_object/smuxi_hooks/plugin.rb:324-329 | a command whose type and name contain no space is read back from its line as the same type, name and data, including absent versus empty data |
| `Commands.ParseCommandLineExact` | lib/god_object/smuxi_hooks/plugin.rb:324-329 | any line the host can read is exactly the line of the command it reads, with space-free type and name |
| `Commands.EmptyDataAddsSpace` | lib/god_object/smuxi_hooks/plugin.rb:326 | empty data still appends the separating space, so it differs from no data |
| `SmuxiPlugin.LoadState` | lib/god_object/smuxi_hooks/plugin.rb:142-146 | definition with no contract of its own: the file's content, or `{}` when there is none; the `SmuxiPlugin.KnownHookRunsItsHandler` row states what a handler is given |
| `SmuxiPlugin.InvocationAt` | lib/god_object/smuxi_hooks/plugin.rb:142-155 | definition with no contract of its own: the options `execute_hook` passes to `new` for a located hook |
| `SmuxiPlugin.HookRun` | lib/god_object/smuxi_hooks/plugin.rb:125-166 | definition with no contract of its own: `execute_hook` as a function of the state files; the `SmuxiPlugin.ExecuteHook` row is the method proved equal to it, and the lemma rows below state its properties |
| `SmuxiPlugin.DispatchHook` | lib/god_object/smuxi_hooks/plugin.rb:157-165 | definition with no contract of its own: the table lookup and handler call for a located hook |
| `SmuxiPlugin.Complete` | lib/god_object/smuxi_hooks/plugin.rb:158-162 | definition with no contract of its own: print the handler's lines, and write its state only when it returned |
| `SmuxiPlugin.StateCarriesOver` | lib/god_object/smuxi_hooks/plugin.rb:142-146 | after a successful invocation, the next invocation of the same hook and script starts from the state the handler returned; every other state file, and every file after a failed invocation, loads as before |
| `SmuxiPlugin.Plugin.Run` | lib/god_object/smuxi_hooks/plugin.rb:158 | the handler runs once on the instance's view; its command lines are printed in order; the state is the handler's when it returned and unchanged when it raised |
| `SmuxiPlugin.ExecuteHook` | lib/god_object/smuxi_hooks/plugin.rb:125-166 | outcome, state files afterwards and printed lines are those of the dispatch function `HookRun` applied to the state files before |
| `SmuxiPlugin.UnsupportedHookWritesNothing` | lib/god_object/smuxi_hooks/plugin.rb:157-165 | a hook name outside the table gives `Unsupported(name)`, prints nothing and leaves every state file as it was |
| `SmuxiPlugin.FailureWritesNothing` | lib/god_object/smuxi_hooks/plugin.rb:157-165 | no failed invocation (malformed path, unknown hook, missing method, raising handler) changes a state file |
| `SmuxiPlugin.KnownHookRunsItsHandler` | lib/god_object/smuxi_hooks/plugin.rb:142-165 | for a known, implemented hook the table's handler sees the loaded state or `{}` and every field; its lines are printed; when it returns, only this hook's state file changes, to its final state; when it raises nothing is written |
| `Files.Ancestors` | lib/god_object/smuxi_hooks/plugin.rb:257 | the directories `mkpath` creates for a path: every non-empty prefix ending before a `/`, and the path itself |
| `Files.FileSystem.IsSymlink` | lib/god_object/smuxi_hooks/plugin.rb:260 | definition with no contract of its own: `symlink?` looks at the entry itself, not at what it points to |
| `Files.MkPath` | lib/god_object/smuxi_hooks/plugin.rb:257 | afterwards the path and all its ancestors exist; existing entries are unchanged; every new entry is a directory among the ancestors |
| `Files.FileSystem.MakePath` | lib/god_object/smuxi_hooks/plugin.rb:257 | the filesystem becomes `mkpath` of the old one |
| `Files.FileSystem.Unlink` | lib/god_object/smuxi_hooks/plugin.rb:260 | removes exactly that entry |
| `Files.FileSystem.MakeSymlink` | lib/god_object/smuxi_hooks/plugin.rb:261 | creates the link to the target exactly when the path is free, and otherwise fails and changes nothing |
| `Installer.LinkPath` | lib/god_object/smuxi_hooks/plugin.rb:254-258 | definition with no contract of its own: the hook path joined with the executable's basename |
| `Installer.LinkPaths` | lib/god_object/smuxi_hooks/plugin.rb:258 | the i-th link path is the link path of the i-th hook path, and distinct hook paths give distinct link paths |
| `Installer.InstallHook` | lib/god_object/smuxi_hooks/plugin.rb:257-261 | definition with no contract of its own: one iteration of `install`'s loop on the entries |
| `Installer.InstallAll` | lib/god_object/smuxi_hooks/plugin.rb:256-262 | definition with no contract of its own: the iterations over all hook paths, stopping at the first failing `make_symlink` |
| `Installer.LinkHook` | lib/god_object/smuxi_hooks/plugin.rb:257-261 | one iteration of the loop changes the filesystem as one install step does, reports its link path, and fails exactly when that step is blocked |
| `Installer.LinkHooks` | lib/god_object/smuxi_hooks/plugin.rb:256-262 | the loop over any hook paths leaves the filesystem, callback paths and failure point of the install function |
| `Installer.Install` | lib/god_object/smuxi_hooks/plugin.rb:252-263 | the loop leaves the filesystem, callback paths and failure point of the install function over the used hook paths |
| `Installer.InstallProgress` | lib/god_object/smuxi_hooks/plugin.rb:256-262 | the callback fires once per hook path with `hookPath/executableName`, in order, up to the failing one; a successful install reports every link path |
| `Installer.InstallEstablishes` | lib/god_object/smuxi_hooks/plugin.rb:256-262 | after a successful install every hook directory and its ancestors exist and every link path is a symlink to the executable |
| `Installer.InstallPreserves` | lib/god_object/smuxi_hooks/plugin.rb:257-261 | no entry disappears, and only symlinks are replaced: regular files and directories keep their content |
| `Installer.InstallFrame` | lib/god_object/smuxi_hooks/plugin.rb:256-262 | a path that is neither a link path nor an ancestor of a hook path is unchanged |
| `Installer.InstallStopsWhenBlocked` | lib/god_object/smuxi_hooks/plugin.rb:261 | once `make_symlink` has failed, the remaining hook paths change nothing |
| `Installer.InstallOverInstalled` | lib/god_object/smuxi_hooks/plugin.rb:256-262 | installing where everything is linked already leaves the filesystem unchanged and reports every link path |
| `Installer.InstallIdempotent` | lib/god_object/smuxi_hooks/plugin.rb:252-263 | installing a second time over the result of a first install gives back exactly the first run: the same filesystem, the same link paths reported, and, when the first run failed, a failure at the same link path |
| `Installer.BlockedAt` | lib/god_object/smuxi_hooks/plugin.rb:256-262 | a failed install failed at some iteration `k`: the first `k` hook paths went through, iteration `k` failed, and nothing came after it |
| `Installer.UninstallHook` | lib/god_object/smuxi_hooks/plugin.rb:278-280 | definition with no contract of its own: one iteration of `uninstall`'s loop |
| `Installer.UninstallAll` | lib/god_object/smuxi_hooks/plugin.rb:277-281 | definition with no contract of its own: the iterations over all hook paths |
| `Installer.WithoutLinks` | lib/god_object/smuxi_hooks/plugin.rb:280 | definition with no contract of its own: the entries without the symlinks at the given link paths, the closed form of `Installer.UninstallRemovesLinks` |
| `Installer.UnlinkHooks` | lib/god_object/smuxi_hooks/plugin.rb:277-281 | the loop over any hook paths leaves the filesystem and callback paths of the uninstall function |
| `Installer.Uninstall` | lib/god_object/smuxi_hooks/plugin.rb:273-282 | the loop leaves the filesystem and callback paths of the uninstall function over the used hook paths |
| `Installer.UninstallRemovesLinks` | lib/god_object/smuxi_hooks/plugin.rb:277-281 | uninstall removes exactly the symlinks at the link paths, whatever they point to, keeps all other entries, and reports every link path |
| `Installer.UninstallWithoutLinks` | lib/god_object/smuxi_hooks/plugin.rb:277-281 | with no symlink at any link path, uninstall leaves the filesystem unchanged |
| `Installer.UninstallIdempotent` | lib/god_object/smuxi_hooks/plugin.rb:273-282 | uninstalling twice gives the filesystem of uninstalling once, and the second run reports every link path again |

## Left out

- YAML: the state file's content is a `Yaml` value read and written verbatim. Parsing, dumping, and their failures are not modelled.
- Real filesystem and process effects: the filesystem is an abstract map. I/O errors are not modelled, except `make_symlink` finding its path occupied, which makes `install` stop with that path.
- Files.MkPath: a missing ancestor becomes a directory, and an ancestor occupied by a regular file or a symlink is left as it is. The model does not raise or follow links there, as the operating system would.
- Installer.InstallEstablishes: a hook directory "exists" when some entry sits at its path. That entry is a directory unless something else was already there.
- SmuxiPlugin.LoadState: the state file exists when the state store has an entry for it. Following symlinks (`exist?`) is not modelled.
- SmuxiPlugin.ExecuteHook: the state write always succeeds. A missing state directory, where `open('w')` would raise, is not modelled.
- `expand_path` and `base_directory_guess`: they depend on the working directory and `$HOME`. The executable path is taken as already absolute, and the installer's base directory is a parameter.
- `cli_install` and `cli_uninstall`: they only print fixed messages and exit. The progress callback is modelled as a ghost sequence of the paths it receives.
- Ruby reflection: `instance_methods` becomes the explicit set of implemented handler ids, and `public_send` becomes a match on the table's handler id. A table entry whose method is missing gives `NoHandler` (Ruby's `NoMethodError`).
- Paths.SplitExecutablePath: the marker must occur exactly once, counting overlapping occurrences, and be followed by something. Otherwise the model returns `MalformedPath`. Ruby's `nil` relative path and its choice of the middle piece for repeated markers are not reproduced.
- Paths.Join: `Pathname#+` is modelled as joining with one `/`. Pathname's clean-up is not modelled: a leading `..` resolved against the left part, `.` components, doubled slashes, an empty prefix. A hook name or script name containing `..` therefore gives a different state directory in the model than in Ruby.
- Paths.Dirname: `/x` gives the empty string rather than Pathname's `/`, and doubled slashes are kept. A trailing `/` is not dropped as Ruby's dirname drops it: for `engine/session/on-event-message/script/`, Ruby's hook is `engine/session/on-event-message`, while the model's hook is `engine/session/on-event-message/script`.
- Paths.Basename: a trailing `/` is not dropped as Ruby's basename drops it. For `…/script/`, Ruby's script name is `script`, while the model's is empty. Otherwise it is the part after the last `/`, as in Ruby.
- SmuxiPlugin.Execute: the state files are a `StateStore` separate from the installer's `FileSystem`, taken as disjoint from the `hooks/` tree that install and uninstall change. In the source, both live in one filesystem: `<base>/hook-state/…/state.yml` is written (line 160) in the same tree where `install` makes directories and links (lines 257-261). The model does not capture a link path or hook directory that coincides with a state file. Its statements that hook mode leaves the filesystem unchanged, and that install and uninstall leave the state store unchanged, hold by construction.
- Hooks.UsedHookMethods: the used methods are enumerated in the table's order. Ruby's `Set#&` enumerates the smaller of the two sets, which is the table's value set whenever the class has more than nine public methods. The order only decides the order of install and uninstall steps.
- `examples/chat_logger.rb`: an example handler that only appends one line to a log file.
- Concurrency: concurrent invocations racing on one state file are outside the model. Each invocation is one sequential run.
