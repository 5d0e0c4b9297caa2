/**
 * `create_container`: the argument vector for the runtime's `run` verb,
 * derived from the configuration and the project path, and the single
 * launch that creates the container.
 */
module Provision {
  import opened Wrappers
  import opened Text
  import opened Schema
  import opened Runtime

  const ContainerNamePrefix := "zed-devcontainer-"

  /**
   * The container's name: the prefix followed by the configured name with
   * every space turned into `-`, or `zed-devcontainer` when there is no name.
   */
  function ContainerName(name: Option<string>): (r: string)
    ensures ' ' !in r
    ensures name.None? ==> r == "zed-devcontainer"
    ensures name.Some? ==>
      |r| == |ContainerNamePrefix| + |name.value| && r[..|ContainerNamePrefix|] == ContainerNamePrefix
    ensures name.Some? ==> forall k :: 0 <= k < |name.value| ==>
      r[|ContainerNamePrefix| + k] == if name.value[k] == ' ' then '-' else name.value[k]
  {
    match name
    case None => "zed-devcontainer"
    case Some(n) =>
      var r := ContainerNamePrefix + ReplaceChar(n, ' ', '-');
      assert forall k :: 0 <= k < |r| ==> r[k] != ' ';
      r
  }

  /** The bind mount of the project at `/workspace` used when none is configured. */
  function DefaultWorkspaceMount(projectPath: string): string
  {
    "type=bind,source=" + projectPath + ",target=/workspace"
  }

  function WorkspaceMount(config: Config, projectPath: string): string
  {
    match config.workspaceMount
    case Some(m) => m
    case None => DefaultWorkspaceMount(projectPath)
  }

  /** `--mount m` for each declared mount, in order. */
  function MountArgs(mounts: seq<string>): seq<string>
  {
    if mounts == [] then []
    else MountArgs(mounts[..|mounts| - 1]) + ["--mount", mounts[|mounts| - 1]]
  }

  /** The `-p` value publishing a port on the same port of the host. */
  function PortMapping(port: Port): string
  {
    Decimal(port) + ":" + Decimal(port)
  }

  /** `-p p:p` for each forwarded port, in order. */
  function PortArgs(ports: seq<Port>): seq<string>
  {
    if ports == [] then []
    else PortArgs(ports[..|ports| - 1]) + ["-p", PortMapping(ports[|ports| - 1])]
  }

  /** The image to run: `image` when set, else an error naming what is missing. */
  function ResolveImage(config: Config): (r: Result<string, Error>)
    ensures r.Ok? <==> config.image.Some?
    ensures r.Ok? ==> r.value == config.image.value
    ensures r.Err? && config.dockerfile.Some? ==> r.error == DockerfileUnsupported(config.dockerfile.value)
    ensures r.Err? && config.dockerfile.None? ==> r.error == NoImage
  {
    if config.image.Some? then Ok(config.image.value)
    else if config.dockerfile.Some? then Err(DockerfileUnsupported(config.dockerfile.value))
    else Err(NoImage)
  }

  /** The arguments before the declared mounts: name and workspace mount. */
  function Header(config: Config, projectPath: string): seq<string>
  {
    ["run", "-d", "--name", ContainerName(config.name), "--mount", WorkspaceMount(config, projectPath)]
  }

  /** The whole argument vector of `run`, or why there is none. */
  function RunArguments(config: Config, projectPath: string): (r: Result<seq<string>, Error>)
    ensures r.Ok? <==> ResolveImage(config).Ok?
    ensures r.Err? ==> r.error == ResolveImage(config).error
  {
    match ResolveImage(config)
    case Err(e) => Err(e)
    case Ok(image) =>
      Ok(Header(config, projectPath) + MountArgs(config.mounts) + PortArgs(config.forwardPorts)
         + config.runArgs + [image, "sleep", "infinity"])
  }

  /** The builder as the source writes it: a vector grown push by push. */
  method BuildRunArgs(config: Config, projectPath: string) returns (r: Result<seq<string>, Error>)
    ensures r == RunArguments(config, projectPath)
  {
    var containerName := ContainerName(config.name);
    var args := ["run", "-d", "--name", containerName];
    var defaultMount := DefaultWorkspaceMount(projectPath);
    var workspaceMount := if config.workspaceMount.Some? then config.workspaceMount.value else defaultMount;
    args := args + ["--mount", workspaceMount];
    for i := 0 to |config.mounts|
      invariant args == Header(config, projectPath) + MountArgs(config.mounts[..i])
    {
      assert config.mounts[..i + 1][..i] == config.mounts[..i];
      args := args + ["--mount", config.mounts[i]];
    }
    assert config.mounts[..|config.mounts|] == config.mounts;
    var withMounts := args;
    for i := 0 to |config.forwardPorts|
      invariant args == withMounts + PortArgs(config.forwardPorts[..i])
    {
      assert config.forwardPorts[..i + 1][..i] == config.forwardPorts[..i];
      var port := config.forwardPorts[i];
      args := args + ["-p", Decimal(port) + ":" + Decimal(port)];
    }
    assert config.forwardPorts[..|config.forwardPorts|] == config.forwardPorts;
    args := args + config.runArgs;
    if config.image.Some? {
      args := args + [config.image.value];
    } else if config.dockerfile.Some? {
      return Err(DockerfileUnsupported(config.dockerfile.value));
    } else {
      return Err(NoImage);
    }
    args := args + ["sleep", "infinity"];
    assert args == Header(config, projectPath) + MountArgs(config.mounts) + PortArgs(config.forwardPorts)
      + config.runArgs + [config.image.value, "sleep", "infinity"];
    return Ok(args);
  }

  lemma {:induction false} MountArgsAt(mounts: seq<string>)
    ensures |MountArgs(mounts)| == 2 * |mounts|
    ensures forall i :: 0 <= i < |mounts| ==>
      MountArgs(mounts)[2 * i] == "--mount" && MountArgs(mounts)[2 * i + 1] == mounts[i]
  {
    if mounts != [] {
      MountArgsAt(mounts[..|mounts| - 1]);
    }
  }

  lemma {:induction false} PortArgsAt(ports: seq<Port>)
    ensures |PortArgs(ports)| == 2 * |ports|
    ensures forall j :: 0 <= j < |ports| ==>
      PortArgs(ports)[2 * j] == "-p" && PortArgs(ports)[2 * j + 1] == PortMapping(ports[j])
  {
    if ports != [] {
      PortArgsAt(ports[..|ports| - 1]);
    }
  }

  /** Building succeeds exactly when an image is configured; otherwise the dockerfile error wins over the no-image one. */
  lemma RunArgumentsOutcome(config: Config, projectPath: string)
    ensures RunArguments(config, projectPath).Ok? <==> config.image.Some?
    ensures config.image.None? && config.dockerfile.Some? ==>
      RunArguments(config, projectPath) == Err(DockerfileUnsupported(config.dockerfile.value))
    ensures config.image.None? && config.dockerfile.None? ==>
      RunArguments(config, projectPath) == Err(NoImage)
  {
  }

  /**
   * A successful argument vector starts with the detached `run`, the name
   * and the one workspace mount, and ends with the image and `sleep
   * infinity`; its length counts two words per mount and per port.
   */
  lemma RunArgumentsFrame(config: Config, projectPath: string)
    requires config.image.Some?
    ensures RunArguments(config, projectPath).Ok?
    ensures var a := RunArguments(config, projectPath).value;
      && |a| == 6 + 2 * |config.mounts| + 2 * |config.forwardPorts| + |config.runArgs| + 3
      && a[..6] == ["run", "-d", "--name", ContainerName(config.name), "--mount", WorkspaceMount(config, projectPath)]
      && a[|a| - 3..] == [config.image.value, "sleep", "infinity"]
  {
    var a := RunArguments(config, projectPath).value;
    var h := Header(config, projectPath);
    var rest := MountArgs(config.mounts) + PortArgs(config.forwardPorts) + config.runArgs;
    var t := [config.image.value, "sleep", "infinity"];
    assert a == h + rest + t;
    MountArgsAt(config.mounts);
    PortArgsAt(config.forwardPorts);
    assert a[..6] == h;
    assert a[|a| - 3..] == t;
  }

  /** After the workspace mount, each declared mount `m` appears as `--mount m`, in declared order. */
  lemma RunArgumentsMounts(config: Config, projectPath: string)
    requires config.image.Some?
    ensures RunArguments(config, projectPath).Ok?
    ensures var a := RunArguments(config, projectPath).value;
      && |a| >= 6 + 2 * |config.mounts|
      && forall i :: 0 <= i < |config.mounts| ==>
           a[6 + 2 * i] == "--mount" && a[7 + 2 * i] == config.mounts[i]
  {
    var a := RunArguments(config, projectPath).value;
    var ms := MountArgs(config.mounts);
    var rest := PortArgs(config.forwardPorts) + config.runArgs + [config.image.value, "sleep", "infinity"];
    var h := Header(config, projectPath);
    assert a == h + ms + rest;
    MountArgsAt(config.mounts);
    forall i | 0 <= i < |config.mounts|
      ensures a[6 + 2 * i] == "--mount" && a[7 + 2 * i] == config.mounts[i]
    {
      ConcatAt(h, ms, rest, 2 * i);
      ConcatAt(h, ms, rest, 2 * i + 1);
    }
  }

  /** After the mounts, each forwarded port `p` appears as `-p p:p`, in declared order. */
  lemma RunArgumentsPorts(config: Config, projectPath: string)
    requires config.image.Some?
    ensures RunArguments(config, projectPath).Ok?
    ensures var a := RunArguments(config, projectPath).value;
      var m := |config.mounts|;
      && |a| >= 6 + 2 * m + 2 * |config.forwardPorts|
      && forall j :: 0 <= j < |config.forwardPorts| ==>
           a[6 + 2 * m + 2 * j] == "-p" && a[7 + 2 * m + 2 * j] == PortMapping(config.forwardPorts[j])
  {
    var a := RunArguments(config, projectPath).value;
    var front := Header(config, projectPath) + MountArgs(config.mounts);
    var ps := PortArgs(config.forwardPorts);
    var rest := config.runArgs + [config.image.value, "sleep", "infinity"];
    assert a == front + ps + rest;
    MountArgsAt(config.mounts);
    PortArgsAt(config.forwardPorts);
    var m := |config.mounts|;
    assert |front| == 6 + 2 * m;
    forall j | 0 <= j < |config.forwardPorts|
      ensures a[6 + 2 * m + 2 * j] == "-p" && a[7 + 2 * m + 2 * j] == PortMapping(config.forwardPorts[j])
    {
      ConcatAt(front, ps, rest, 2 * j);
      ConcatAt(front, ps, rest, 2 * j + 1);
    }
  }

  lemma ConcatAt<T>(front: seq<T>, middle: seq<T>, back: seq<T>, i: nat)
    requires i < |middle|
    ensures (front + middle + back)[|front| + i] == middle[i]
  {
  }

  /** The extra `runArgs` come verbatim and in order after the port pairs, just before the image. */
  lemma RunArgumentsExtra(config: Config, projectPath: string)
    requires config.image.Some?
    ensures RunArguments(config, projectPath).Ok?
    ensures var a := RunArguments(config, projectPath).value;
      var at := 6 + 2 * |config.mounts| + 2 * |config.forwardPorts|;
      && |a| == at + |config.runArgs| + 3
      && a[at..at + |config.runArgs|] == config.runArgs
  {
    var a := RunArguments(config, projectPath).value;
    var front := Header(config, projectPath) + MountArgs(config.mounts) + PortArgs(config.forwardPorts);
    assert a == front + config.runArgs + [config.image.value, "sleep", "infinity"];
    MountArgsAt(config.mounts);
    PortArgsAt(config.forwardPorts);
    assert |front| == 6 + 2 * |config.mounts| + 2 * |config.forwardPorts|;
    assert a[|front|..|front| + |config.runArgs|] == config.runArgs;
  }

  /** Both sides of a port mapping read back as the port itself. */
  lemma PortMappingSides(port: Port)
    ensures Split(PortMapping(port), ':') == [Decimal(port), Decimal(port)]
    ensures DecimalValue(Decimal(port)) == port
  {
    var d := Decimal(port);
    assert ':' !in d by {
      forall k | 0 <= k < |d| ensures d[k] != ':' { }
    }
    assert JoinWith([d, d], [':']) == PortMapping(port);
    SplitJoin([d, d], ':');
    DecimalRoundTrip(port);
  }

  lemma {:induction false} MountArgsFlags(mounts: seq<string>)
    ensures multiset(MountArgs(mounts))["--mount"] == |mounts| + multiset(mounts)["--mount"]
  {
    if mounts != [] {
      var init, last := mounts[..|mounts| - 1], mounts[|mounts| - 1];
      MountArgsFlags(init);
      assert mounts == init + [last];
      assert MountArgs(mounts) == MountArgs(init) + ["--mount", last];
      assert multiset(MountArgs(mounts)) == multiset(MountArgs(init)) + multiset(["--mount", last]);
      assert multiset(mounts) == multiset(init) + multiset([last]);
    }
  }

  lemma {:induction false} PortArgsFlags(ports: seq<Port>)
    ensures multiset(PortArgs(ports))["--mount"] == 0
  {
    if ports != [] {
      var port := ports[|ports| - 1];
      assert PortMapping(port)[|Decimal(port)|] == ':';
      PortArgsFlags(ports[..|ports| - 1]);
    }
  }

  /**
   * The only `--mount` words are the workspace flag and one flag per
   * declared mount, as long as no configured string is itself `--mount`.
   */
  lemma MountFlagCount(config: Config, projectPath: string)
    requires config.image.Some? && config.image.value != "--mount"
    requires WorkspaceMount(config, projectPath) != "--mount"
    requires "--mount" !in config.mounts && "--mount" !in config.runArgs
    ensures multiset(RunArguments(config, projectPath).value)["--mount"] == 1 + |config.mounts|
  {
    var h, m, p := Header(config, projectPath), MountArgs(config.mounts), PortArgs(config.forwardPorts);
    var t := [config.image.value, "sleep", "infinity"];
    assert RunArguments(config, projectPath).value == h + m + p + config.runArgs + t;
    HeaderFlags(config, projectPath);
    MountArgsFlags(config.mounts);
    PortArgsFlags(config.forwardPorts);
    assert multiset(config.mounts)["--mount"] == 0;
    assert multiset(config.runArgs)["--mount"] == 0;
    assert multiset(t)["--mount"] == 0;
  }

  /** The fixed head of the vector holds the workspace `--mount` flag once. */
  lemma HeaderFlags(config: Config, projectPath: string)
    requires WorkspaceMount(config, projectPath) != "--mount"
    ensures multiset(Header(config, projectPath))["--mount"] == 1
  {
    var name := ContainerName(config.name);
    assert name[0] == 'z' && "--mount"[0] == '-';
    assert Header(config, projectPath) == ["run", "-d", "--name", name] + ["--mount", WorkspaceMount(config, projectPath)];
  }

  /** How the extension reads the answer to its one `run` launch. */
  function CreateResult(config: Config, launch: Launch): (r: Result<string, Error>)
    ensures r.Ok? <==> launch.Launched? && launch.output.status == Some(0)
    ensures r.Ok? ==> r.value == ContainerName(config.name)
    ensures launch.LaunchFailed? ==> r == Err(CreateLaunchFailed(launch.reason))
    ensures launch.Launched? && launch.output.status != Some(0) ==> r == Err(CreateFailed(launch.output.stderr))
  {
    match launch
    case LaunchFailed(reason) => Err(CreateLaunchFailed(reason))
    case Launched(output) =>
      if output.status != Some(0) then Err(CreateFailed(output.stderr)) else Ok(ContainerName(config.name))
  }

  /**
   * `create_container`: builds the arguments and launches `runtime run ...`
   * once; when the arguments cannot be built nothing is launched.
   */
  method CreateContainer(runtime: string, config: Config, projectPath: string, run: Invoker)
    returns (r: Result<string, Error>, calls: seq<seq<string>>)
    ensures RunArguments(config, projectPath).Err? ==>
      r == Err(RunArguments(config, projectPath).error) && calls == []
    ensures RunArguments(config, projectPath).Ok? ==>
      calls == [[runtime] + RunArguments(config, projectPath).value]
      && r == CreateResult(config, run(calls[0]))
    ensures r.Ok? ==> r.value == ContainerName(config.name) && |calls| == 1
  {
    var args := BuildRunArgs(config, projectPath);
    if args.Err? {
      return Err(args.error), [];
    }
    var argv := [runtime] + args.value;
    calls := [argv];
    r := CreateResult(config, run(argv));
  }

  /** Each space of a configured name becomes a `-` and nothing else changes. */
  lemma ContainerNameOfWords(first: string, second: string)
    requires ' ' !in first && ' ' !in second
    ensures ContainerName(Some(first + " " + second)) == ContainerNamePrefix + first + "-" + second
  {
    ReplaceSeparator(first, second, ' ', '-');
  }

  /** A configured name `My App` names the container `zed-devcontainer-My-App`. */
  lemma ContainerNameExample()
    ensures ContainerName(Some("My App")) == "zed-devcontainer-My-App"
  {
    ContainerNameOfWords("My", "App");
    assert "My" + " " + "App" == "My App";
    assert ContainerNamePrefix + "My" + "-" + "App" == "zed-devcontainer-My-App";
  }

  /** Forwarded ports `[3000, 8080]` give `-p 3000:3000` before `-p 8080:8080`. */
  lemma PortOrderExample(config: Config, projectPath: string)
    requires config.image.Some? && config.forwardPorts == [3000, 8080]
    ensures RunArguments(config, projectPath).Ok?
    ensures var a := RunArguments(config, projectPath).value;
      var at := 6 + 2 * |config.mounts|;
      |a| >= at + 4 && a[at..at + 4] == ["-p", "3000:3000", "-p", "8080:8080"]
  {
    RunArgumentsPorts(config, projectPath);
    DecimalExamples();
    var a := RunArguments(config, projectPath).value;
    var at := 6 + 2 * |config.mounts|;
    assert config.forwardPorts[0] == 3000 && config.forwardPorts[1] == 8080;
    assert a[at] == "-p" && a[at + 1] == PortMapping(3000);
    assert a[at + 2] == "-p" && a[at + 3] == PortMapping(8080);
  }

  lemma DecimalExamples()
    ensures PortMapping(3000) == "3000:3000" && PortMapping(8080) == "8080:8080"
  {
    Decimal3000();
    Decimal8080();
  }

  lemma Decimal3000()
    ensures Decimal(3000) == "3000"
  {
    assert DigitChar(0) == '0' && DigitChar(3) == '3';
    assert Decimal(30) == Decimal(3) + "0" == "30";
    assert Decimal(300) == Decimal(30) + "0" == "300";
  }

  lemma Decimal8080()
    ensures Decimal(8080) == "8080"
  {
    assert DigitChar(0) == '0' && DigitChar(8) == '8';
    assert Decimal(80) == Decimal(8) + "0" == "80";
    assert Decimal(808) == Decimal(80) + "8" == "808";
  }

}
