/**
 * `find_devcontainer_config`: where the configuration of a project is
 * looked for, and which file decides. The readable files are a map from
 * path to content; turning content into a `Config` is the `parse` parameter.
 */
module ConfigLookup {
  import opened Wrappers
  import opened Schema

  /** Reading a configuration's text: the configuration, or the parser's message. */
  type Parser = string -> Result<Config, string>

  function PrimaryPath(worktree: string): string
  {
    worktree + "/.devcontainer/devcontainer.json"
  }

  function SecondaryPath(worktree: string): string
  {
    worktree + "/.devcontainer.json"
  }

  /** The candidate files, in the order they are tried. */
  function Candidates(worktree: string): seq<string>
  {
    [PrimaryPath(worktree), SecondaryPath(worktree)]
  }

  /** The configuration read from a file's content. */
  function Interpret(parse: Parser, content: string): Result<Config, Error>
  {
    match parse(content)
    case Ok(config) => Ok(config)
    case Err(detail) => Err(ConfigParseFailed(detail))
  }

  /** The first readable path among `paths` decides, whether or not its content parses. */
  function LookupIn(files: map<string, string>, parse: Parser, paths: seq<string>): (r: Result<Config, Error>)
    ensures r.Err? ==> r.error == ConfigNotFound || r.error.ConfigParseFailed?
    ensures r == Err(ConfigNotFound) <==> forall p :: p in paths ==> p !in files
  {
    if paths == [] then Err(ConfigNotFound)
    else if paths[0] in files then Interpret(parse, files[paths[0]])
    else LookupIn(files, parse, paths[1..])
  }

  function LookupConfig(files: map<string, string>, parse: Parser, worktree: string): (r: Result<Config, Error>)
    ensures r.Err? ==> r.error == ConfigNotFound || r.error.ConfigParseFailed?
    ensures r == Err(ConfigNotFound) <==> PrimaryPath(worktree) !in files && SecondaryPath(worktree) !in files
  {
    var paths := Candidates(worktree);
    assert forall p :: p in paths <==> p == PrimaryPath(worktree) || p == SecondaryPath(worktree);
    LookupIn(files, parse, paths)
  }

  /** The lookup as the source writes it: a loop over the candidates with an early return. */
  method FindConfig(files: map<string, string>, parse: Parser, worktree: string) returns (r: Result<Config, Error>)
    ensures r == LookupConfig(files, parse, worktree)
  {
    var possiblePaths := Candidates(worktree);
    for i := 0 to |possiblePaths|
      invariant LookupIn(files, parse, possiblePaths[i..]) == LookupConfig(files, parse, worktree)
    {
      var path := possiblePaths[i];
      if path in files {
        var content := files[path];
        match parse(content)
        case Err(detail) =>
          return Err(ConfigParseFailed(detail));
        case Ok(config) =>
          return Ok(config);
      }
      assert possiblePaths[i..][1..] == possiblePaths[i + 1..];
    }
    return Err(ConfigNotFound);
  }

  /**
   * A readable `.devcontainer/devcontainer.json` decides alone: its parse
   * failure is the result, and `.devcontainer.json` is never consulted.
   */
  lemma PrimaryDecides(files: map<string, string>, parse: Parser, worktree: string)
    requires PrimaryPath(worktree) in files
    ensures LookupConfig(files, parse, worktree) == Interpret(parse, files[PrimaryPath(worktree)])
    ensures parse(files[PrimaryPath(worktree)]).Err? ==>
      LookupConfig(files, parse, worktree) == Err(ConfigParseFailed(parse(files[PrimaryPath(worktree)]).error))
  {
  }

  /** Unfolds the lookup over the two candidates. */
  lemma LookupConfigCases(files: map<string, string>, parse: Parser, worktree: string)
    ensures LookupConfig(files, parse, worktree) ==
      if PrimaryPath(worktree) in files then Interpret(parse, files[PrimaryPath(worktree)])
      else if SecondaryPath(worktree) in files then Interpret(parse, files[SecondaryPath(worktree)])
      else Err(ConfigNotFound)
  {
    var cs := Candidates(worktree);
    var tail := [SecondaryPath(worktree)];
    assert cs[0] == PrimaryPath(worktree) && cs[1..] == tail;
    assert tail[0] == SecondaryPath(worktree) && tail[1..] == [];
    assert LookupIn(files, parse, []) == Err(ConfigNotFound);
    assert LookupIn(files, parse, tail) ==
      if SecondaryPath(worktree) in files then Interpret(parse, files[SecondaryPath(worktree)])
      else Err(ConfigNotFound);
  }

  /** `.devcontainer.json` is read only when `.devcontainer/devcontainer.json` is not there. */
  lemma SecondaryFallback(files: map<string, string>, parse: Parser, worktree: string)
    requires PrimaryPath(worktree) !in files && SecondaryPath(worktree) in files
    ensures LookupConfig(files, parse, worktree) == Interpret(parse, files[SecondaryPath(worktree)])
  {
    LookupConfigCases(files, parse, worktree);
  }

  /** Only the readable files at the two candidate paths matter. */
  lemma OnlyCandidatesMatter(files: map<string, string>, other: map<string, string>, parse: Parser, worktree: string)
    requires forall p :: p in Candidates(worktree) ==> (p in files <==> p in other)
    requires forall p :: p in Candidates(worktree) && p in files ==> files[p] == other[p]
    ensures LookupConfig(files, parse, worktree) == LookupConfig(other, parse, worktree)
  {
    var cs := Candidates(worktree);
    assert cs[0] in cs && cs[1] in cs;
    LookupConfigCases(files, parse, worktree);
    LookupConfigCases(other, parse, worktree);
  }
}
