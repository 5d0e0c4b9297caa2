# Devcontainer extension: a verified model

This project models the decision logic of the Zed `devcontainer` extension
(`extensions/devcontainer/src/devcontainer.rs`). The extension opens a
project in a development container driven by `docker` or `podman`. It finds
the project's `devcontainer.json` and detects a container runtime. It builds
the argument vector of the runtime's `run` verb and creates a detached
container kept alive by `sleep infinity`. It then runs the post-create
command in it with `sh -c`. The attach command inspects a container's
running state and starts it when it is stopped. The argument completion for
attach parses the `ID|NAME` lines of the runtime's `ps` output.

Modules, one per component:

- `Text`: the Rust string primitives the code relies on. These are `split`,
  `join`, `replace`, `lines` (a final line without `'\n'` is kept as it is;
  a line ended by `'\n'` also loses one `'\r'`), `trim` (Unicode
  White_Space) and decimal formatting of a `u16`.
- `Schema`: `DevcontainerConfig` as the datatype `Config`, JSON values,
  and one `Error` constructor per message the extension produces.
  `Message` gives each message's exact text.
- `Runtime`: the container runtime as an `Invoker`. An invoker is a total
  function from an argument vector (program name first) to either the
  process's output or a launch failure. Operations return the list of
  argument vectors they launched. "Nothing was launched" and "a `start` was
  launched" are therefore statements about that list. `DetectRuntime`
  models the `docker`/`podman` probe.
- `Provision`: `create_container`. `BuildRunArgs` grows the argument vector
  push by push, as the source does, and is proved equal to the declarative
  `RunArguments`. The lemmas state the layout of that vector exactly.
- `ContainerList`: the `ps` parser and `list_running_containers`.
- `AttachCommand`: the running/stopped decision and the attach command.
- `PostCreate`: the post-create command normaliser and its execution.
- `ConfigLookup`: the lookup order of the configuration files.
  `FindConfig` is the loop with an early return. It is proved equal to
  `LookupConfig`.
- `OpenCommand`: the open command. Every step before the post-create
  command stops it on failure. A post-create failure only becomes a
  warning.

Behaviour of the code that is easy to misread:

- A `start` launched by attach is an error only when it cannot be launched.
  Its exit status is never read (lines 316-319).
- Launch failure and a nonzero exit of `run` produce the same message
  prefix, `Failed to create container: ` (lines 152 and 155-158).
- `inspect` and `ps` are errors only when they cannot be launched. Their
  exit status is ignored. The running state is read from the standard
  output of `inspect` alone (line 308). An `inspect` that fails with an
  output that does not trim to `true` therefore reads as stopped, and
  attach then launches `start`.
- An array `postCreateCommand` with no string element is still run, as the
  empty command `sh -c ""` (lines 192-200).

## Model

| member | source | states |
|---|---|---|
| `Text.Split` | extensions/devcontainer/src/devcontainer.rs:82 | `split('\|')` yields at least one piece; no piece contains the separator; joining the pieces with the separator gives the line back |
| `Text.SplitJoin` | extensions/devcontainer/src/devcontainer.rs:82 | splitting pieces joined by a separator they do not contain gives exactly those pieces |
| `Text.SplitCount` | extensions/devcontainer/src/devcontainer.rs:82-83 | a line splits into exactly one more piece than it has separators, so "two parts" means "exactly one `\|`" |
| `Text.ReplaceChar` | extensions/devcontainer/src/devcontainer.rs:102 | `replace(' ', "-")` keeps the length and changes exactly the spaces, position by position |
| `Text.Lines` | extensions/devcontainer/src/devcontainer.rs:80 | no line of `lines()` contains `'\n'` |
| `Text.LinesTerminated` | extensions/devcontainer/src/devcontainer.rs:80 | `lines()` on lines each followed by `'\n'` (none containing `'\n'` or `'\r'`) returns exactly those lines |
| `Text.Trim` | extensions/devcontainer/src/devcontainer.rs:308 | `trim()` never lengthens; its result is empty or neither starts nor ends with whitespace; an all-whitespace string trims to empty |
| `Text.TrimSplits` | extensions/devcontainer/src/devcontainer.rs:308 | every string is its `trim()` between a whitespace prefix and a whitespace suffix, and the trimmed core neither starts nor ends with whitespace |
| `Text.TrimPadded` | extensions/devcontainer/src/devcontainer.rs:308 | trimming a core padded on both sides with whitespace returns the core |
| `Text.JoinWith` | extensions/devcontainer/src/devcontainer.rs:196 | `join` of no parts is empty; otherwise the first part is a prefix of the result, and the result is as long as the parts plus one separator between each two |
| `Text.JoinWithLast` | extensions/devcontainer/src/devcontainer.rs:196 | the join of two or more parts is the join of all but the last, one separator, then the last part; with the first-part clause this fixes every character |
| `Text.Decimal` | extensions/devcontainer/src/devcontainer.rs:130 | `{}` formatting of a port is a nonempty digit string that starts with `0` only for the number 0 |
| `Text.DecimalRoundTrip` | extensions/devcontainer/src/devcontainer.rs:130 | reading the formatted digits back gives the number |
| `Schema.Message` | extensions/devcontainer/src/devcontainer.rs:138-141 | the dockerfile error message ends with the configured dockerfile value |
| `Runtime.DetectRuntime` | extensions/devcontainer/src/devcontainer.rs:60-70 | `docker` iff `docker --version` launches; `podman` iff only `podman --version` does; no runtime iff neither; `podman` is probed only after `docker` fails to launch; exit status plays no part |
| `Provision.ContainerName` | extensions/devcontainer/src/devcontainer.rs:99-103 | the name is `zed-devcontainer-` followed by the configured name with every space replaced by `-`, or `zed-devcontainer` when no name is set; it never contains a space |
| `Provision.ContainerNameOfWords` | extensions/devcontainer/src/devcontainer.rs:102 | a name made of two space-separated words becomes the prefix, the first word, `-`, the second word |
| `Provision.ContainerNameExample` | extensions/devcontainer/src/devcontainer.rs:99-103 | `My App` gives `zed-devcontainer-My-App` |
| `Provision.ResolveImage` | extensions/devcontainer/src/devcontainer.rs:135-144 | the image is resolved iff `image` is set, and is that value; otherwise a set `dockerfile` gives the unsupported-dockerfile error naming it, else the no-image error |
| `Provision.RunArguments` | extensions/devcontainer/src/devcontainer.rs:99-147 | the argument vector can be built iff the image can be resolved, and otherwise fails with the image error: mounts, ports and `runArgs` never cause a failure |
| `Provision.BuildRunArgs` | extensions/devcontainer/src/devcontainer.rs:99-147 | the push-by-push builder returns exactly `RunArguments(config, projectPath)`, errors included |
| `Provision.RunArgumentsOutcome` | extensions/devcontainer/src/devcontainer.rs:135-144 | building succeeds iff `image` is set, whether or not `dockerfile` is; otherwise a set `dockerfile` gives the unsupported-dockerfile error naming it, else the no-image error |
| `Provision.RunArgumentsFrame` | extensions/devcontainer/src/devcontainer.rs:105-147 | a built vector starts `run -d --name N --mount W`, where W is `workspaceMount` or the default bind of the project at `/workspace`; it ends with `image sleep infinity`; its length is 6 + 2·mounts + 2·ports + extra args + 3 |
| `Provision.MountArgsAt` | extensions/devcontainer/src/devcontainer.rs:123-126 | the mount loop emits `--mount m` for each mount, at positions 2i and 2i+1 |
| `Provision.PortArgsAt` | extensions/devcontainer/src/devcontainer.rs:128-131 | the port loop emits `-p p:p` for each port, at positions 2j and 2j+1 |
| `Provision.RunArgumentsMounts` | extensions/devcontainer/src/devcontainer.rs:123-126 | right after the workspace mount, mount i appears as `--mount` at 6+2i followed by the mount at 7+2i, in declared order |
| `Provision.RunArgumentsPorts` | extensions/devcontainer/src/devcontainer.rs:128-131 | after the mounts, port j appears as `-p` followed by `p:p`, in declared order |
| `Provision.RunArgumentsExtra` | extensions/devcontainer/src/devcontainer.rs:133 | `runArgs` appear verbatim and in order right after the port pairs, followed only by the three final words |
| `Provision.PortOrderExample` | extensions/devcontainer/src/devcontainer.rs:128-131 | ports `[3000, 8080]` give `-p 3000:3000 -p 8080:8080` in that order |
| `Provision.DecimalExamples` | extensions/devcontainer/src/devcontainer.rs:130 | ports 3000 and 8080 map to `3000:3000` and `8080:8080` |
| `Provision.PortMappingSides` | extensions/devcontainer/src/devcontainer.rs:130 | a port mapping splits at `:` into two equal sides that both read back as the port: host port equals container port |
| `Provision.MountArgsFlags` | extensions/devcontainer/src/devcontainer.rs:123-126 | the mount loop contributes one `--mount` flag per declared mount, besides any mount whose value is itself `--mount` |
| `Provision.PortArgsFlags` | extensions/devcontainer/src/devcontainer.rs:128-131 | the port loop contributes no `--mount` word |
| `Provision.MountFlagCount` | extensions/devcontainer/src/devcontainer.rs:112-126 | when no configured string is literally `--mount`, the vector holds exactly 1 + mounts `--mount` words: one workspace mount and one per declared mount |
| `Provision.CreateResult` | extensions/devcontainer/src/devcontainer.rs:149-161 | the creation succeeds iff `run` launched and exited with status 0; on success it returns the container name; a launch failure and a nonzero exit give their own errors |
| `Provision.CreateContainer` | extensions/devcontainer/src/devcontainer.rs:94-162 | when the arguments cannot be built, that error is returned and nothing is launched; otherwise exactly one launch of `runtime` plus the built vector decides the result |
| `ContainerList.ParseLine` | extensions/devcontainer/src/devcontainer.rs:81-88 | a line is kept iff it contains exactly one `\|` |
| `ContainerList.ParseLineFields` | extensions/devcontainer/src/devcontainer.rs:82-84 | a kept line is `id\|name`, and neither field contains `\|` |
| `ContainerList.ParseLineRecord` | extensions/devcontainer/src/devcontainer.rs:81-88 | a line written as `id\|name` from fields without `\|` is read back as `(id, name)` |
| `ContainerList.FilterMap` | extensions/devcontainer/src/devcontainer.rs:79-89 | `filter_map` over the lines never yields more values than there are lines |
| `ContainerList.FilterMapAppend` | extensions/devcontainer/src/devcontainer.rs:79-89 | the records of two blocks of lines are those of the first followed by those of the second, so order is preserved and lines are parsed independently |
| `ContainerList.ParseLinesKeepsAll` | extensions/devcontainer/src/devcontainer.rs:81-88 | nothing is dropped iff every line holds exactly one `\|` |
| `ContainerList.ParsePsRoundTrip` | extensions/devcontainer/src/devcontainer.rs:72-89 | parsing what `ps --format "{{.ID}}\|{{.Names}}"` prints for some containers (fields without `\|`, `'\n'`, `'\r'`) returns those containers, in order |
| `ContainerList.ParsePsDropsMalformed` | extensions/devcontainer/src/devcontainer.rs:79-89 | a line without `\|` between two well-formed records is dropped without error and both records are kept, in order |
| `ContainerList.ParsePs` | extensions/devcontainer/src/devcontainer.rs:79-89 | the `ps` output yields no more records than lines, and no field of a record contains `\|` or `'\n'` |
| `ContainerList.ParsedFields` | extensions/devcontainer/src/devcontainer.rs:81-88 | over lines without `'\n'`, every kept record has fields without `\|` or `'\n'` |
| `ContainerList.ListRunningContainers` | extensions/devcontainer/src/devcontainer.rs:72-92 | one `ps` launch; the result is an error iff `ps` cannot be launched; otherwise it is the parse of its standard output, whatever its exit status |
| `AttachCommand.StatusOf` | extensions/devcontainer/src/devcontainer.rs:308 | a blank output reads as stopped; an output that reads as running has at least the four characters of `true` |
| `AttachCommand.StatusOfPadded` | extensions/devcontainer/src/devcontainer.rs:308 | surrounded by any whitespace, the output reads as running iff its core is exactly `true` |
| `AttachCommand.RunningIsPaddedTrue` | extensions/devcontainer/src/devcontainer.rs:308 | every output that reads as running is `true` padded with whitespace |
| `AttachCommand.RunningExamples` | extensions/devcontainer/src/devcontainer.rs:308 | `true` and `true\n` read as running |
| `AttachCommand.StoppedExamples` | extensions/devcontainer/src/devcontainer.rs:308 | `false\n` and the empty output read as stopped |
| `AttachCommand.Attach` | extensions/devcontainer/src/devcontainer.rs:295-338 | no arguments gives the missing-id error and no launch; the id is the arguments joined by spaces; a `start` is launched iff inspection reads as stopped, and only after `inspect`; only launch failures of `inspect` or `start` are errors; the report carries the status read and whether the container was started |
| `PostCreate.StringElements` | extensions/devcontainer/src/devcontainer.rs:192-196 | the kept strings are exactly the string elements of the array |
| `PostCreate.StringElementsOfStrings` | extensions/devcontainer/src/devcontainer.rs:192-196 | an array of strings keeps all of them, position by position |
| `PostCreate.StringElementsAppend` | extensions/devcontainer/src/devcontainer.rs:192-196 | non-string elements are skipped wherever they stand, and the strings keep their order |
| `PostCreate.CommandOf` | extensions/devcontainer/src/devcontainer.rs:189-198 | a command exists iff the value is present and is a string or an array; a string is used verbatim; an array gives its string elements joined by single spaces |
| `PostCreate.CommandOfTokens` | extensions/devcontainer/src/devcontainer.rs:192-196 | an array command is its strings joined by single spaces: splitting it at spaces gives the tokens back when none contains a space |
| `PostCreate.CommandOfMixed` | extensions/devcontainer/src/devcontainer.rs:192-196 | for any array with at least one string, none holding a space, splitting the command at spaces gives exactly the string elements: other elements are skipped and the order is kept |
| `PostCreate.CommandOfMixedExample` | extensions/devcontainer/src/devcontainer.rs:192-196 | `["echo", 1, "hi"]` runs `echo hi` |
| `PostCreate.CommandOfShellExample` | extensions/devcontainer/src/devcontainer.rs:192-196 | `["sh", "-c", "echo hi"]` runs `sh -c echo hi`, one flattened command line |
| `PostCreate.CommandOfExamples` | extensions/devcontainer/src/devcontainer.rs:189-198 | `["echo","hi"]` runs `echo hi`; an object or an absent value runs nothing; an array without strings runs the empty command |
| `PostCreate.ExecResult` | extensions/devcontainer/src/devcontainer.rs:169-181 | exec succeeds iff it launched and exited with 0, returning its standard output; a launch failure gives the exec-launch error with its reason; a nonzero or missing exit status gives the command-failed error with the standard error; its errors are hook errors |
| `PostCreate.ExecInContainer` | extensions/devcontainer/src/devcontainer.rs:164-182 | exactly one launch of `runtime exec NAME sh -c CMD`, whose result is read by `ExecResult` |
| `PostCreate.RunPostCreate` | extensions/devcontainer/src/devcontainer.rs:184-203 | without a usable command the outcome is success and nothing is launched; otherwise one `exec` of that command is launched, it fails iff the exec fails, and then with exactly the error `ExecResult` reads from that launch |
| `ConfigLookup.LookupIn` | extensions/devcontainer/src/devcontainer.rs:49-57 | lookup errors are only "not found" or a parse failure; "not found" holds iff no candidate path is readable |
| `ConfigLookup.LookupConfig` | extensions/devcontainer/src/devcontainer.rs:43-58 | the lookup fails only as not found or as a parse failure; "no devcontainer.json found" is reported iff neither `.devcontainer/devcontainer.json` nor `.devcontainer.json` is readable |
| `ConfigLookup.FindConfig` | extensions/devcontainer/src/devcontainer.rs:43-58 | the candidate loop with its early return computes `LookupConfig` |
| `ConfigLookup.LookupConfigCases` | extensions/devcontainer/src/devcontainer.rs:44-57 | `.devcontainer/devcontainer.json` is tried first, then `.devcontainer.json`, then the lookup fails as not found |
| `ConfigLookup.PrimaryDecides` | extensions/devcontainer/src/devcontainer.rs:49-53 | a readable `.devcontainer/devcontainer.json` decides alone; when it does not parse, that parse error is returned and there is no fallback |
| `ConfigLookup.SecondaryFallback` | extensions/devcontainer/src/devcontainer.rs:44-55 | `.devcontainer.json` is used when `.devcontainer/devcontainer.json` is not readable |
| `ConfigLookup.OnlyCandidatesMatter` | extensions/devcontainer/src/devcontainer.rs:44-57 | files other than the two candidates have no influence on the lookup |
| `OpenCommand.Open` | extensions/devcontainer/src/devcontainer.rs:218-268 | no arguments, or no configuration, fails before anything is launched; open succeeds iff configuration, runtime and container creation all succeed; when the runtime probe fails, the no-runtime error is returned after the probes alone; when the arguments cannot be built, that error is returned after the probes alone; when `run` fails, its creation error is returned after the probes and that one `run`; a post-create failure never fails it and appears as the report's warning; the launches are the probes, one `run`, then the post-create `exec` if any |

## Left out

- Launching processes: every `Command::new(...).output()` is an `Invoker`
  application. What `docker` or `podman` do with the arguments is not
  modelled.
- JSON parsing (`serde_json::from_str`, line 51): the text-to-`Config`
  parser is a parameter of the lookup.
  Unknown keys and type errors stay inside that parameter. JSON numbers are
  `real`s, because they only matter as "not a string".
- File reading (`fs::read_to_string`, line 50): the readable files are a
  map from path to content. A file that exists but cannot be read as UTF-8
  text is absent from the map, as it is for the source.
- `String::from_utf8_lossy`: standard output and error are taken as already
  decoded strings.
- The report texts of open, rebuild and attach, and the byte ranges of
  their output sections (lines 228-267, 276-293, 310-337). `OpenReport` and
  `AttachReport` keep the facts those texts show, except the configured
  name and image lines of the open report (lines 235-240).
- The rebuild command (lines 269-294): it looks up the configuration,
  detects the runtime and then emits fixed text. Its two checks are
  `LookupConfig` and `DetectRuntime`. The missing-worktree error and the
  text are not modelled.
- Argument completion for attach (lines 343-366): it is
  `ListRunningContainers` mapped to labels `name (id)`. The label formatting
  and the empty completions of the other commands are not modelled.
- Dispatch on the slash-command name, with its unknown-command error, and
  extension registration (lines 206-209, 217, 339, 364, 369).
- `postStartCommand` and `postAttachCommand`, like `context`,
  `workspaceFolder` and `remoteUser`, are fields of `Config` that no
  operation reads, as in the source.
