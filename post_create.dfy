/**
 * `run_post_create_commands`: the `postCreateCommand` field turned into one
 * shell command, run in the container with `sh -c`.
 */
module PostCreate {
  import opened Wrappers
  import opened Text
  import opened Schema
  import opened Runtime

  /** The string elements of a JSON array, in order; other elements are skipped. */
  function StringElements(items: seq<Json>): (r: seq<string>)
    ensures |r| <= |items|
    ensures forall s :: s in r <==> JString(s) in items
  {
    if items == [] then []
    else
      var rest := StringElements(items[1..]);
      assert forall j :: j in items <==> j == items[0] || j in items[1..];
      if items[0].JString? then [items[0].str] + rest else rest
  }

  lemma {:induction false} StringElementsOfStrings(items: seq<Json>)
    requires forall k :: 0 <= k < |items| ==> items[k].JString?
    ensures |StringElements(items)| == |items|
    ensures forall k :: 0 <= k < |items| ==> StringElements(items)[k] == items[k].str
  {
    if items != [] {
      StringElementsOfStrings(items[1..]);
    }
  }

  /**
   * The shell command a `postCreateCommand` value stands for: a string as
   * it is, an array as its string elements joined by single spaces, and
   * nothing for an absent value or any other JSON shape.
   */
  function CommandOf(command: Option<Json>): (r: Option<string>)
    ensures r.Some? <==> command.Some? && (command.value.JString? || command.value.JArray?)
    ensures command.Some? && command.value.JString? ==> r == Some(command.value.str)
    ensures command.Some? && command.value.JArray? ==> r == Some(JoinWith(StringElements(command.value.items), " "))
  {
    match command
    case None => None
    case Some(JString(s)) => Some(s)
    case Some(JArray(items)) => Some(JoinWith(StringElements(items), " "))
    case Some(_) => None
  }

  /**
   * The tokens of an array command survive the flattening: splitting the
   * command at spaces gives the array's strings back, as long as none of
   * them holds a space.
   */
  lemma CommandOfTokens(tokens: seq<string>)
    requires |tokens| >= 1
    requires forall k :: 0 <= k < |tokens| ==> ' ' !in tokens[k]
    ensures var items := seq(|tokens|, k requires 0 <= k < |tokens| => JString(tokens[k]));
      CommandOf(Some(JArray(items))).Some?
      && Split(CommandOf(Some(JArray(items))).value, ' ') == tokens
  {
    var items := seq(|tokens|, k requires 0 <= k < |tokens| => JString(tokens[k]));
    StringElementsOfStrings(items);
    assert StringElements(items) == tokens;
    SplitJoin(tokens, ' ');
  }

  /**
   * Any array command with strings in it, other elements included, splits at
   * spaces into exactly its string elements, as long as none of them holds a
   * space.
   */
  lemma CommandOfMixed(items: seq<Json>)
    requires StringElements(items) != []
    requires forall k :: 0 <= k < |StringElements(items)| ==> ' ' !in StringElements(items)[k]
    ensures CommandOf(Some(JArray(items))).Some?
    ensures Split(CommandOf(Some(JArray(items))).value, ' ') == StringElements(items)
  {
    SplitJoin(StringElements(items), ' ');
  }

  /** `["echo", 1, "hi"]` runs `echo hi`: the number is skipped. */
  lemma CommandOfMixedExample()
    ensures CommandOf(Some(JArray([JString("echo"), JNumber(1.0), JString("hi")]))) == Some("echo hi")
  {
    var mixed := [JString("echo"), JNumber(1.0), JString("hi")];
    StringElementsAppend([JString("echo"), JNumber(1.0)], [JString("hi")]);
    StringElementsAppend([JString("echo")], [JNumber(1.0)]);
    assert mixed == [JString("echo"), JNumber(1.0)] + [JString("hi")];
    assert [JString("echo"), JNumber(1.0)] == [JString("echo")] + [JNumber(1.0)];
    assert StringElements(mixed) == ["echo", "hi"];
    assert JoinWith(["echo", "hi"], " ") == "echo" + " " + "hi" == "echo hi";
  }

  /** `["sh", "-c", "echo hi"]` runs `sh -c echo hi`: the array is flattened into one line. */
  lemma CommandOfShellExample()
    ensures CommandOf(Some(JArray([JString("sh"), JString("-c"), JString("echo hi")]))) == Some("sh -c echo hi")
  {
    ShellElements();
    ShellJoin();
  }

  lemma ShellElements()
    ensures StringElements([JString("sh"), JString("-c"), JString("echo hi")]) == ["sh", "-c", "echo hi"]
  {
    var shell := [JString("sh"), JString("-c"), JString("echo hi")];
    StringElementsOfStrings(shell);
  }

  lemma ShellJoin()
    ensures JoinWith(["sh", "-c", "echo hi"], " ") == "sh -c echo hi"
  {
    var tokens := ["sh", "-c", "echo hi"];
    JoinWithLast(tokens, " ");
    assert tokens[..2] == ["sh", "-c"];
    assert JoinWith(["sh", "-c"], " ") == "sh -c";
    assert JoinWith(tokens, " ") == "sh -c" + " " + "echo hi";
  }

  /** Non-string elements of an array command are skipped, wherever they stand. */
  lemma {:induction false} StringElementsAppend(xs: seq<Json>, ys: seq<Json>)
    ensures StringElements(xs + ys) == StringElements(xs) + StringElements(ys)
  {
    if xs != [] {
      assert (xs + ys)[1..] == xs[1..] + ys;
      StringElementsAppend(xs[1..], ys);
    } else {
      assert xs + ys == ys;
    }
  }

  /**
   * `["echo", "hi"]` runs `echo hi`; an object runs nothing; an array with
   * no string in it still runs, as the empty command.
   */
  lemma CommandOfExamples()
    ensures CommandOf(Some(JArray([JString("echo"), JString("hi")]))) == Some("echo hi")
    ensures CommandOf(Some(JArray([JNumber(1.0), JNull]))) == Some("")
    ensures CommandOf(Some(JObject([("x", JNumber(1.0))]))) == None
    ensures CommandOf(None) == None
  {
    var items := [JString("echo"), JString("hi")];
    StringElementsOfStrings(items);
    assert StringElements(items) == ["echo", "hi"];
    assert JoinWith(["echo", "hi"], " ") == "echo" + " " + "hi" == "echo hi";
  }

  function ExecCommand(runtime: string, containerName: string, command: string): seq<string>
  {
    [runtime, "exec", containerName, "sh", "-c", command]
  }

  /** How the extension reads the answer to an `exec` launch: the output on exit status 0, else an error. */
  function ExecResult(launch: Launch): (r: Result<string, Error>)
    ensures r.Ok? <==> launch.Launched? && launch.output.status == Some(0)
    ensures r.Ok? ==> r.value == launch.output.stdout
    ensures launch.LaunchFailed? ==> r == Err(ExecLaunchFailed(launch.reason))
    ensures launch.Launched? && launch.output.status != Some(0) ==> r == Err(CommandFailed(launch.output.stderr))
    ensures r.Err? ==> r.error.IsHookError()
  {
    match launch
    case LaunchFailed(reason) => Err(ExecLaunchFailed(reason))
    case Launched(output) =>
      if output.status != Some(0) then Err(CommandFailed(output.stderr)) else Ok(output.stdout)
  }

  /** `exec_in_container`: one `sh -c` launch inside the container. */
  function ExecInContainer(runtime: string, containerName: string, command: string, run: Invoker)
    : (t: Traced<Result<string, Error>>)
    ensures t.calls == [ExecCommand(runtime, containerName, command)]
    ensures t.result == ExecResult(run(ExecCommand(runtime, containerName, command)))
  {
    var argv := ExecCommand(runtime, containerName, command);
    Traced(ExecResult(run(argv)), [argv])
  }

  /**
   * `run_post_create_commands`: with no usable command nothing is launched
   * and the outcome is success; otherwise the one command is executed and
   * its failure is the outcome.
   */
  function RunPostCreate(runtime: string, containerName: string, config: Config, run: Invoker)
    : (t: Traced<Result<(), Error>>)
    ensures CommandOf(config.postCreateCommand).None? ==> t == Traced(Ok(()), [])
    ensures CommandOf(config.postCreateCommand).Some? ==>
      var argv := ExecCommand(runtime, containerName, CommandOf(config.postCreateCommand).value);
      && t.calls == [argv]
      && (t.result.Ok? <==> ExecResult(run(argv)).Ok?)
      && (t.result.Err? ==> t.result.error == ExecResult(run(argv)).error)
    ensures t.result.Err? ==> t.result.error.IsHookError()
  {
    match CommandOf(config.postCreateCommand)
    case None => Traced(Ok(()), [])
    case Some(command) =>
      var exec := ExecInContainer(runtime, containerName, command, run);
      match exec.result
      case Err(e) => Traced(Err(e), exec.calls)
      case Ok(_) => Traced(Ok(()), exec.calls)
  }
}
