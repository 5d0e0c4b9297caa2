/**
 * The `devcontainer-attach` command: inspect the container's running state,
 * start it when it is not running, and report.
 */
module AttachCommand {
  import opened Wrappers
  import opened Text
  import opened Schema
  import opened Runtime

  datatype Status = Running | Stopped

  /** The container runs exactly when `inspect` printed `true`, up to surrounding whitespace. */
  function StatusOf(stdout: string): (s: Status)
    ensures AllWhitespace(stdout) ==> s == Stopped
    ensures s == Running ==> |stdout| >= 4
  {
    if Trim(stdout) == "true" then Running else Stopped
  }

  /**
   * Whitespace around the inspect output does not matter, and anything but
   * `true` inside it (including nothing) reads as stopped.
   */
  lemma StatusOfPadded(lead: string, core: string, trail: string)
    requires AllWhitespace(lead) && AllWhitespace(trail)
    requires core == [] || (!IsWhitespace(core[0]) && !IsWhitespace(core[|core| - 1]))
    ensures StatusOf(lead + core + trail) == Running <==> core == "true"
  {
    TrimPadded(lead, core, trail);
  }

  /** Every output that reads as running is `true` padded with whitespace. */
  lemma RunningIsPaddedTrue(stdout: string) returns (lead: string, trail: string)
    requires StatusOf(stdout) == Running
    ensures AllWhitespace(lead) && AllWhitespace(trail)
    ensures stdout == lead + "true" + trail
  {
    lead, trail := TrimSplits(stdout);
  }

  /** `true` and `true\n` read as running. */
  lemma RunningExamples()
    ensures StatusOf("true") == Running
    ensures StatusOf("true\n") == Running
  {
    StatusOfPadded("", "true", "");
    assert "true" == "" + "true" + "";
    StatusOfPadded("", "true", "\n");
    assert "true\n" == "" + "true" + "\n";
  }

  /** `false\n` and the empty output read as stopped. */
  lemma StoppedExamples()
    ensures StatusOf("false\n") == Stopped
    ensures StatusOf("") == Stopped
  {
    StatusOfPadded("", "false", "\n");
    assert "false\n" == "" + "false" + "\n";
    StatusOfPadded("", "", "");
  }

  function InspectCommand(runtime: string, containerId: string): seq<string>
  {
    [runtime, "inspect", "--format", "{{.State.Running}}", containerId]
  }

  function StartCommand(runtime: string, containerId: string): seq<string>
  {
    [runtime, "start", containerId]
  }

  /** What the attach report conveys: which container, on which runtime, its status, and whether it was started. */
  datatype AttachReport = AttachReport(containerId: string, runtime: string, status: Status, started: bool)

  /**
   * `devcontainer-attach`: the arguments, joined by spaces, name the
   * container; a `start` is launched exactly when inspection reads as
   * stopped, and only a failure to launch it is an error.
   */
  method Attach(args: seq<string>, run: Invoker) returns (r: Result<AttachReport, Error>, calls: seq<seq<string>>)
    ensures args == [] ==> r == Err(MissingContainerId) && calls == []
    ensures args != [] && DetectRuntime(run).result.Err? ==>
      r == Err(NoRuntime) && calls == DetectRuntime(run).calls
    ensures args != [] && DetectRuntime(run).result.Ok? ==>
      var runtime, id := DetectRuntime(run).result.value, JoinWith(args, " ");
      var inspect := run(InspectCommand(runtime, id));
      && (inspect.LaunchFailed? ==>
            r == Err(InspectLaunchFailed(inspect.reason))
            && calls == DetectRuntime(run).calls + [InspectCommand(runtime, id)])
      && (inspect.Launched? ==>
            var status := StatusOf(inspect.output.stdout);
            && calls == DetectRuntime(run).calls + [InspectCommand(runtime, id)]
                        + (if status == Stopped then [StartCommand(runtime, id)] else [])
            && (StartCommand(runtime, id) in calls <==> status == Stopped)
            && (r.Ok? <==> status == Running || run(StartCommand(runtime, id)).Launched?)
            && (r.Ok? ==> r.value == AttachReport(id, runtime, status, status == Stopped))
            && (r.Err? ==> r.error == StartLaunchFailed(run(StartCommand(runtime, id)).reason)))
  {
    if args == [] {
      return Err(MissingContainerId), [];
    }
    var containerId := JoinWith(args, " ");
    var detected := DetectRuntime(run);
    calls := detected.calls;
    if detected.result.Err? {
      return Err(detected.result.error), calls;
    }
    var runtime := detected.result.value;
    var inspect := run(InspectCommand(runtime, containerId));
    calls := calls + [InspectCommand(runtime, containerId)];
    if inspect.LaunchFailed? {
      return Err(InspectLaunchFailed(inspect.reason)), calls;
    }
    var status := StatusOf(inspect.output.stdout);
    if status == Stopped {
      var start := run(StartCommand(runtime, containerId));
      calls := calls + [StartCommand(runtime, containerId)];
      if start.LaunchFailed? {
        return Err(StartLaunchFailed(start.reason)), calls;
      }
    }
    assert forall c :: c in detected.calls ==> |c| == 2;
    r := Ok(AttachReport(containerId, runtime, status, status == Stopped));
  }
}
