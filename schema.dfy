/**
 * The data the extension works on: the parsed `devcontainer.json`, the JSON
 * values its command fields may hold, and the errors its operations report.
 */
module Schema {
  import opened Wrappers

  /** A JSON value, as the command fields of the configuration keep them. */
  datatype Json =
    | JNull
    | JBool(b: bool)
    | JNumber(n: real)
    | JString(str: string)
    | JArray(items: seq<Json>)
    | JObject(members: seq<(string, Json)>)

  /** A TCP port, Rust's `u16`. */
  type Port = p: int | 0 <= p < 0x1_0000

  /**
   * `DevcontainerConfig`: every key is optional; absent list keys read as
   * empty lists and absent scalar keys as `None`.
   */
  datatype Config = Config(
    name: Option<string>,
    image: Option<string>,
    dockerfile: Option<string>,
    context: Option<string>,
    workspaceFolder: Option<string>,
    workspaceMount: Option<string>,
    mounts: seq<string>,
    runArgs: seq<string>,
    postCreateCommand: Option<Json>,
    postStartCommand: Option<Json>,
    postAttachCommand: Option<Json>,
    forwardPorts: seq<Port>,
    remoteUser: Option<string>)

  /** Every failure the extension reports, one constructor per message it can produce. */
  datatype Error =
    | MissingProjectPath
    | MissingContainerId
    | ConfigNotFound
    | ConfigParseFailed(detail: string)
    | NoRuntime
    | DockerfileUnsupported(dockerfile: string)
    | NoImage
    | CreateLaunchFailed(reason: string)
    | CreateFailed(stderr: string)
    | ExecLaunchFailed(reason: string)
    | CommandFailed(stderr: string)
    | ListLaunchFailed(reason: string)
    | InspectLaunchFailed(reason: string)
    | StartLaunchFailed(reason: string)
  {
    /** An error raised by running the post-create command in the container. */
    predicate IsHookError()
    {
      ExecLaunchFailed? || CommandFailed?
    }
  }

  const DockerfileMessagePrefix :=
    "Building from Dockerfile not yet implemented. Please build the image manually and specify it in 'image' field. Dockerfile: "

  /** The text the extension returns for each error. */
  function Message(e: Error): (m: string)
    ensures e.DockerfileUnsupported? ==>
      |m| >= |e.dockerfile| && m[|m| - |e.dockerfile|..] == e.dockerfile
  {
    match e
    case MissingProjectPath => "Please provide a project path"
    case MissingContainerId => "Please provide a container name or ID"
    case ConfigNotFound => "No devcontainer.json found in project"
    case ConfigParseFailed(detail) => "Failed to parse devcontainer.json: " + detail
    case NoRuntime => "Neither docker nor podman found. Please install a container runtime."
    case DockerfileUnsupported(dockerfile) => DockerfileMessagePrefix + dockerfile
    case NoImage => "No image or dockerfile specified in devcontainer.json"
    case CreateLaunchFailed(reason) => "Failed to create container: " + reason
    case CreateFailed(stderr) => "Failed to create container: " + stderr
    case ExecLaunchFailed(reason) => "Failed to execute command in container: " + reason
    case CommandFailed(stderr) => "Command failed: " + stderr
    case ListLaunchFailed(reason) => "Failed to list containers: " + reason
    case InspectLaunchFailed(reason) => "Failed to inspect container: " + reason
    case StartLaunchFailed(reason) => "Failed to start container: " + reason
  }
}
