/**
 * The `devcontainer-open` command: find the configuration, detect the
 * runtime, create the container, then run the post-create command. Every
 * step but the last stops the command on failure; a failing post-create
 * command only leaves a warning in an otherwise successful report.
 */
module OpenCommand {
  import opened Wrappers
  import opened Text
  import opened Schema
  import opened Runtime
  import opened ConfigLookup
  import opened Provision
  import opened PostCreate

  /** What the open report conveys: project, runtime, container, and the post-create warning if any. */
  datatype OpenReport = OpenReport(projectPath: string, runtime: string, containerName: string, hookWarning: Option<Error>)

  /** The argument vector of the `run` launch, once configuration and runtime are known. */
  function CreateCommand(runtime: string, config: Config, projectPath: string): seq<string>
    requires RunArguments(config, projectPath).Ok?
  {
    [runtime] + RunArguments(config, projectPath).value
  }

  /** Every fail-fast step succeeds: a path is given, a configuration is found, a runtime is detected, and the container is created. */
  predicate Provisions(args: seq<string>, files: map<string, string>, parse: Parser, run: Invoker)
  {
    && args != []
    && var projectPath := JoinWith(args, " ");
    && LookupConfig(files, parse, projectPath).Ok?
    && DetectRuntime(run).result.Ok?
    && var config, runtime := LookupConfig(files, parse, projectPath).value, DetectRuntime(run).result.value;
    && RunArguments(config, projectPath).Ok?
    && CreateResult(config, run(CreateCommand(runtime, config, projectPath))).Ok?
  }

  method Open(args: seq<string>, files: map<string, string>, parse: Parser, run: Invoker)
    returns (r: Result<OpenReport, Error>, calls: seq<seq<string>>)
    ensures args == [] ==> r == Err(MissingProjectPath) && calls == []
    ensures args != [] && LookupConfig(files, parse, JoinWith(args, " ")).Err? ==>
      r == Err(LookupConfig(files, parse, JoinWith(args, " ")).error) && calls == []
    ensures args != [] && LookupConfig(files, parse, JoinWith(args, " ")).Ok? && DetectRuntime(run).result.Err? ==>
      r == Err(NoRuntime) && calls == DetectRuntime(run).calls
    ensures args != [] && LookupConfig(files, parse, JoinWith(args, " ")).Ok? && DetectRuntime(run).result.Ok? ==>
      var projectPath := JoinWith(args, " ");
      var config, runtime := LookupConfig(files, parse, projectPath).value, DetectRuntime(run).result.value;
      && (RunArguments(config, projectPath).Err? ==>
            r == Err(RunArguments(config, projectPath).error) && calls == DetectRuntime(run).calls)
      && (RunArguments(config, projectPath).Ok? && CreateResult(config, run(CreateCommand(runtime, config, projectPath))).Err? ==>
            r == Err(CreateResult(config, run(CreateCommand(runtime, config, projectPath))).error)
            && calls == DetectRuntime(run).calls + [CreateCommand(runtime, config, projectPath)])
    ensures r.Ok? <==> Provisions(args, files, parse, run)
    ensures r.Err? ==> !r.error.IsHookError()
    ensures r.Ok? ==>
      var projectPath := JoinWith(args, " ");
      var config, runtime := LookupConfig(files, parse, projectPath).value, DetectRuntime(run).result.value;
      var name := ContainerName(config.name);
      var hook := RunPostCreate(runtime, name, config, run);
      && r.value.projectPath == projectPath
      && r.value.runtime == runtime
      && r.value.containerName == name
      && (r.value.hookWarning.Some? <==> hook.result.Err?)
      && (hook.result.Err? ==> r.value.hookWarning.value == hook.result.error)
      && calls == DetectRuntime(run).calls + [CreateCommand(runtime, config, projectPath)] + hook.calls
  {
    if args == [] {
      return Err(MissingProjectPath), [];
    }
    var projectPath := JoinWith(args, " ");
    var config := FindConfig(files, parse, projectPath);
    if config.Err? {
      return Err(config.error), [];
    }
    var detected := DetectRuntime(run);
    calls := detected.calls;
    if detected.result.Err? {
      return Err(detected.result.error), calls;
    }
    var runtime := detected.result.value;
    var created, createCalls := CreateContainer(runtime, config.value, projectPath, run);
    calls := calls + createCalls;
    if created.Err? {
      return Err(created.error), calls;
    }
    var hook := RunPostCreate(runtime, created.value, config.value, run);
    calls := calls + hook.calls;
    var warning := if hook.result.Err? then Some(hook.result.error) else None;
    r := Ok(OpenReport(projectPath, runtime, created.value, warning));
  }
}
