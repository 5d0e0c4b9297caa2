/**
 * The container runtime (`docker` or `podman`) seen from the extension: a
 * program it launches with an argument vector and whose exit status and
 * captured output it reads. Nothing about what the runtime does is assumed;
 * an `Invoker` gives the runtime's answer to every argument vector.
 */
module Runtime {
  import opened Wrappers
  import opened Schema

  /** What a launched process left behind; `status` is `None` when no exit code was reported. */
  datatype Output = Output(status: Option<int>, stdout: string, stderr: string)

  /** Launching a program either yields its output or fails with the OS's reason. */
  datatype Launch = Launched(output: Output) | LaunchFailed(reason: string)

  /** The runtime's answer to each argument vector (program name first). */
  type Invoker = seq<string> -> Launch

  /** An operation's result together with the argument vectors it launched, in order. */
  datatype Traced<T> = Traced(result: T, calls: seq<seq<string>>)

  const DockerProbe: seq<string> := ["docker", "--version"]
  const PodmanProbe: seq<string> := ["podman", "--version"]

  /**
   * `detect_container_runtime`: `docker` when `docker --version` can be
   * launched at all, else `podman` under the same test, else no runtime.
   * The exit status of the probe is never looked at.
   */
  function DetectRuntime(run: Invoker): (t: Traced<Result<string, Error>>)
    ensures t.result == Ok("docker") <==> run(DockerProbe).Launched?
    ensures t.result == Ok("podman") <==> run(DockerProbe).LaunchFailed? && run(PodmanProbe).Launched?
    ensures t.result == Err(NoRuntime) <==> run(DockerProbe).LaunchFailed? && run(PodmanProbe).LaunchFailed?
    ensures t.calls == if run(DockerProbe).Launched? then [DockerProbe] else [DockerProbe, PodmanProbe]
  {
    if run(DockerProbe).Launched? then Traced(Ok("docker"), [DockerProbe])
    else if run(PodmanProbe).Launched? then Traced(Ok("podman"), [DockerProbe, PodmanProbe])
    else Traced(Err(NoRuntime), [DockerProbe, PodmanProbe])
  }
}
