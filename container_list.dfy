/**
 * `list_running_containers`: the runtime's `ps` output, one `ID|NAME`
 * record per line, read into an ordered list of (id, name) pairs.
 */
module ContainerList {
  import opened Wrappers
  import opened Text
  import opened Schema
  import opened Runtime

  /** One line of `ps` output: kept only when it splits on `|` into exactly two fields. */
  function ParseLine(line: string): (r: Option<(string, string)>)
    ensures r.Some? <==> multiset(line)['|'] == 1
  {
    var parts := Split(line, '|');
    SplitCount(line, '|');
    if |parts| == 2 then Some((parts[0], parts[1])) else None
  }

  /** A kept line is `id|name`, and neither field contains `|`. */
  lemma ParseLineFields(line: string)
    requires ParseLine(line).Some?
    ensures var (id, name) := ParseLine(line).value;
      line == id + "|" + name && '|' !in id && '|' !in name
  {
    var parts := Split(line, '|');
    assert JoinWith(parts, ['|']) == parts[0] + "|" + parts[1];
  }

  /** A record written as `id|name` is read back as that record. */
  lemma ParseLineRecord(id: string, name: string)
    requires '|' !in id && '|' !in name
    ensures ParseLine(id + "|" + name) == Some((id, name))
  {
    assert JoinWith([id, name], ['|']) == id + "|" + name;
    SplitJoin([id, name], '|');
  }

  /** Rust's `filter_map` over lines: the `Some` values of `f`, in line order; the rest are dropped. */
  function FilterMap<T>(f: string -> Option<T>, lines: seq<string>): (kept: seq<T>)
    ensures |kept| <= |lines|
  {
    if lines == [] then []
    else
      match f(lines[0])
      case Some(x) => [x] + FilterMap(f, lines[1..])
      case None => FilterMap(f, lines[1..])
  }

  /** The records parsed from a runtime's `ps` standard output. */
  function ParsePs(stdout: string): (records: seq<(string, string)>)
    ensures |records| <= |Lines(stdout)|
    ensures forall k :: 0 <= k < |records| ==> FieldsWithin(records[k])
  {
    ParsedFields(Lines(stdout));
    FilterMap(ParseLine, Lines(stdout))
  }

  /** Neither field of a parsed record holds the field or the line separator. */
  predicate FieldsWithin(record: (string, string))
  {
    '|' !in record.0 && '|' !in record.1 && '\n' !in record.0 && '\n' !in record.1
  }

  lemma {:induction false} ParsedFields(lines: seq<string>)
    requires forall k :: 0 <= k < |lines| ==> '\n' !in lines[k]
    ensures forall k :: 0 <= k < |FilterMap(ParseLine, lines)| ==> FieldsWithin(FilterMap(ParseLine, lines)[k])
  {
    if lines != [] {
      ParsedFields(lines[1..]);
      var rest := FilterMap(ParseLine, lines[1..]);
      match ParseLine(lines[0])
      case Some(record) =>
        ParseLineWithin(lines[0]);
        var all := FilterMap(ParseLine, lines);
        assert all == [record] + rest;
        forall k | 0 <= k < |all| ensures FieldsWithin(all[k]) {
          if k > 0 {
            assert all[k] == rest[k - 1];
          }
        }
      case None =>
        assert FilterMap(ParseLine, lines) == rest;
    }
  }

  lemma ParseLineWithin(line: string)
    requires '\n' !in line && ParseLine(line).Some?
    ensures FieldsWithin(ParseLine(line).value)
  {
    ParseLineFields(line);
    var (id, name) := ParseLine(line).value;
    assert forall c :: c in id ==> c in line;
    assert forall c :: c in name ==> c in line;
  }

  /** Lines are read independently: two blocks of lines give the values of each, in order. */
  lemma {:induction false} FilterMapAppend<T>(f: string -> Option<T>, xs: seq<string>, ys: seq<string>)
    ensures FilterMap(f, xs + ys) == FilterMap(f, xs) + FilterMap(f, ys)
  {
    if xs != [] {
      assert (xs + ys)[0] == xs[0];
      assert (xs + ys)[1..] == xs[1..] + ys;
      FilterMapAppend(f, xs[1..], ys);
    } else {
      assert xs + ys == ys;
    }
  }

  /** Nothing is dropped exactly when `f` keeps every line. */
  lemma {:induction false} FilterMapKeepsAll<T>(f: string -> Option<T>, lines: seq<string>)
    ensures |FilterMap(f, lines)| == |lines| <==> forall k :: 0 <= k < |lines| ==> f(lines[k]).Some?
  {
    if lines != [] {
      FilterMapKeepsAll(f, lines[1..]);
      assert forall k :: 1 <= k < |lines| ==> lines[k] == lines[1..][k - 1];
    }
  }

  /** No `ps` line is dropped exactly when every line holds exactly one `|`. */
  lemma ParseLinesKeepsAll(lines: seq<string>)
    ensures |FilterMap(ParseLine, lines)| == |lines| <==>
      forall k :: 0 <= k < |lines| ==> multiset(lines[k])['|'] == 1
  {
    FilterMapKeepsAll(ParseLine, lines);
  }

  /** How a runtime prints records with the `{{.ID}}|{{.Names}}` format: one line each. */
  function FormatPs(records: seq<(string, string)>): string
  {
    if records == [] then "" else records[0].0 + "|" + records[0].1 + "\n" + FormatPs(records[1..])
  }

  predicate PrintableField(field: string)
  {
    '|' !in field && '\n' !in field && '\r' !in field
  }

  function RecordLines(records: seq<(string, string)>): (ls: seq<string>)
    ensures |ls| == |records|
    ensures forall k :: 0 <= k < |ls| ==> ls[k] == records[k].0 + "|" + records[k].1
  {
    if records == [] then [] else [records[0].0 + "|" + records[0].1] + RecordLines(records[1..])
  }

  lemma {:induction false} FormatPsTerminated(records: seq<(string, string)>)
    ensures FormatPs(records) == Terminated(RecordLines(records))
  {
    if records != [] {
      FormatPsTerminated(records[1..]);
    }
  }

  /** Parsing what the runtime prints for some containers gives back those containers, in order. */
  lemma ParsePsRoundTrip(records: seq<(string, string)>)
    requires forall k :: 0 <= k < |records| ==> PrintableField(records[k].0) && PrintableField(records[k].1)
    ensures ParsePs(FormatPs(records)) == records
  {
    var ls := RecordLines(records);
    FormatPsTerminated(records);
    RecordLinesSingle(records);
    LinesTerminated(ls);
    assert Lines(FormatPs(records)) == ls;
    RecordLinesParse(records);
  }

  /** A record of printable fields is written on one line. */
  lemma RecordLinesSingle(records: seq<(string, string)>)
    requires forall k :: 0 <= k < |records| ==> PrintableField(records[k].0) && PrintableField(records[k].1)
    ensures forall k :: 0 <= k < |records| ==> '\n' !in RecordLines(records)[k] && '\r' !in RecordLines(records)[k]
  {
    var ls := RecordLines(records);
    forall k | 0 <= k < |ls| ensures '\n' !in ls[k] && '\r' !in ls[k] {
      assert ls[k] == records[k].0 + "|" + records[k].1;
    }
  }

  lemma {:induction false} RecordLinesParse(records: seq<(string, string)>)
    requires forall k :: 0 <= k < |records| ==> '|' !in records[k].0 && '|' !in records[k].1
    ensures FilterMap(ParseLine, RecordLines(records)) == records
  {
    if records != [] {
      ParseLineRecord(records[0].0, records[0].1);
      RecordLinesParse(records[1..]);
    }
  }

  lemma LinesOfThree(first: string, middle: string, last: string)
    requires '\n' !in first && '\r' !in first && '\n' !in middle && '\r' !in middle
    requires '\n' !in last && last != []
    ensures Lines(first + "\n" + (middle + "\n" + last)) == [first, middle, last]
  {
    LinesCons(first, middle + "\n" + last);
    LinesCons(middle, last);
    LinesSingle(last);
    StripCarriageReturnNoop(first);
    StripCarriageReturnNoop(middle);
  }

  lemma ParseLinesOfThree(id1: string, name1: string, bad: string, id2: string, name2: string)
    requires '|' !in id1 && '|' !in name1 && '|' !in id2 && '|' !in name2 && '|' !in bad
    ensures FilterMap(ParseLine, [id1 + "|" + name1, bad, id2 + "|" + name2]) == [(id1, name1), (id2, name2)]
  {
    var ls := [id1 + "|" + name1, bad, id2 + "|" + name2];
    ParseLineRecord(id1, name1);
    ParseLineRecord(id2, name2);
    assert ParseLine(bad).None?;
    assert ls[1..][1..] == [id2 + "|" + name2];
    assert FilterMap(ParseLine, ls[1..][1..]) == [(id2, name2)];
    assert FilterMap(ParseLine, ls[1..]) == [(id2, name2)];
  }

  /**
   * A line without `|` between two well-formed records is dropped and the
   * records on either side are kept, in order; `abc123|mycontainer`,
   * `bad-line`, `xyz789|other` is one instance.
   */
  lemma ParsePsDropsMalformed(id1: string, name1: string, bad: string, id2: string, name2: string)
    requires PrintableField(id1) && PrintableField(name1) && PrintableField(id2) && PrintableField(name2)
    requires PrintableField(bad)
    ensures ParsePs(id1 + "|" + name1 + "\n" + bad + "\n" + id2 + "|" + name2) == [(id1, name1), (id2, name2)]
  {
    var l1, l2 := id1 + "|" + name1, id2 + "|" + name2;
    assert id1 + "|" + name1 + "\n" + bad + "\n" + id2 + "|" + name2 == l1 + "\n" + (bad + "\n" + l2);
    assert '\n' !in l1 && '\r' !in l1 && '\n' !in l2;
    LinesOfThree(l1, bad, l2);
    ParseLinesOfThree(id1, name1, bad, id2, name2);
  }

  const PsFormat := "{{.ID}}|{{.Names}}"

  function PsCommand(runtime: string): seq<string>
  {
    [runtime, "ps", "--format", PsFormat]
  }

  /**
   * `list_running_containers`: one `ps` launch; only a launch failure is an
   * error, and the exit status of `ps` is not consulted.
   */
  function ListRunningContainers(runtime: string, run: Invoker): (t: Traced<Result<seq<(string, string)>, Error>>)
    ensures t.calls == [PsCommand(runtime)]
    ensures t.result.Ok? <==> run(PsCommand(runtime)).Launched?
    ensures t.result.Ok? ==> t.result.value == ParsePs(run(PsCommand(runtime)).output.stdout)
    ensures t.result.Err? ==> t.result.error == ListLaunchFailed(run(PsCommand(runtime)).reason)
  {
    match run(PsCommand(runtime))
    case LaunchFailed(reason) => Traced(Err(ListLaunchFailed(reason)), [PsCommand(runtime)])
    case Launched(output) => Traced(Ok(ParsePs(output.stdout)), [PsCommand(runtime)])
  }
}
