/**
 * The string primitives of Rust's `str` that the extension relies on:
 * `split`, `join`, `replace`, `lines`, `trim`, and the decimal
 * formatting of an unsigned integer. Strings are sequences of characters.
 */
module Text {

  /** Index of the first `c` in `s`, or `|s|` when `s` holds no `c`. */
  function IndexOf(s: string, c: char): (i: nat)
    ensures i <= |s|
    ensures i < |s| ==> s[i] == c
    ensures forall k :: 0 <= k < i ==> s[k] != c
  {
    if s == [] then 0 else if s[0] == c then 0 else 1 + IndexOf(s[1..], c)
  }

  lemma IndexOfSeparator(a: string, c: char, b: string)
    requires c !in a
    ensures IndexOf(a + [c] + b, c) == |a|
  {
    var s := a + [c] + b;
    assert s[|a|] == c;
    assert forall k :: 0 <= k < |a| ==> s[k] == a[k];
  }

  /** Room the parts take when each one is followed by `sep`. */
  function SeparatedLength(parts: seq<string>, sep: string): nat
  {
    if parts == [] then 0 else |parts[0]| + |sep| + SeparatedLength(parts[1..], sep)
  }

  /** The parts joined with `sep` between neighbours, as Rust's `join`. */
  function JoinWith(parts: seq<string>, sep: string): (r: string)
    ensures parts == [] ==> r == []
    ensures parts != [] ==> |r| >= |parts[0]| && r[..|parts[0]|] == parts[0]
    ensures parts != [] ==> |r| + |sep| == SeparatedLength(parts, sep)
  {
    if |parts| == 0 then ""
    else if |parts| == 1 then parts[0]
    else parts[0] + sep + JoinWith(parts[1..], sep)
  }

  /**
   * Joining grows at the end: the last part follows the join of the others
   * and one separator. With `JoinWith`'s first part, this fixes every
   * character of the result.
   */
  lemma {:induction false} JoinWithLast(parts: seq<string>, sep: string)
    requires |parts| >= 2
    ensures JoinWith(parts, sep) == JoinWith(parts[..|parts| - 1], sep) + sep + parts[|parts| - 1]
  {
    if |parts| > 2 {
      var init := parts[..|parts| - 1];
      JoinWithLast(parts[1..], sep);
      assert parts[1..][..|parts| - 2] == init[1..];
      assert JoinWith(init, sep) == parts[0] + sep + JoinWith(init[1..], sep);
    } else {
      assert parts[..1] == [parts[0]];
    }
  }

  /**
   * Rust's `s.split(c)`: the maximal pieces between occurrences of `c`,
   * empty pieces included, so there is always at least one piece.
   */
  function Split(s: string, c: char): (parts: seq<string>)
    ensures |parts| >= 1
    ensures forall k :: 0 <= k < |parts| ==> c !in parts[k]
    ensures JoinWith(parts, [c]) == s
    decreases |s|
  {
    var i := IndexOf(s, c);
    if i == |s| then
      assert c !in s by {
        forall k | 0 <= k < |s| ensures s[k] != c { }
      }
      [s]
    else
      var rest := Split(s[i + 1..], c);
      var parts := [s[..i]] + rest;
      assert parts[1..] == rest;
      assert s == s[..i] + [c] + s[i + 1..];
      assert c !in s[..i];
      parts
  }

  /** Splitting produces one more piece than there are separators. */
  lemma {:induction false} SplitCount(s: string, c: char)
    ensures |Split(s, c)| == multiset(s)[c] + 1
    decreases |s|
  {
    var i := IndexOf(s, c);
    if i == |s| {
      assert c !in s by {
        forall k | 0 <= k < |s| ensures s[k] != c { }
      }
    } else {
      var before, after := s[..i], s[i + 1..];
      SplitCount(after, c);
      assert Split(s, c) == [before] + Split(after, c);
      assert s == before + [c] + after;
      assert multiset(before)[c] == 0;
      calc {
        multiset(s)[c];
        (multiset(before) + multiset([c]) + multiset(after))[c];
        1 + multiset(after)[c];
      }
    }
  }

  /** Splitting undoes joining, when no part contains the separator. */
  lemma {:induction false} SplitJoin(parts: seq<string>, c: char)
    requires |parts| >= 1
    requires forall k :: 0 <= k < |parts| ==> c !in parts[k]
    ensures Split(JoinWith(parts, [c]), c) == parts
  {
    if |parts| > 1 {
      var rest := JoinWith(parts[1..], [c]);
      assert JoinWith(parts, [c]) == parts[0] + [c] + rest;
      SplitAt(parts[0], c, rest);
      SplitJoin(parts[1..], c);
      assert parts == [parts[0]] + parts[1..];
    } else {
      SplitAbsent(parts[0], c);
    }
  }

  /** The first piece ends at the first separator. */
  lemma SplitAt(a: string, c: char, b: string)
    requires c !in a
    ensures Split(a + [c] + b, c) == [a] + Split(b, c)
  {
    var s := a + [c] + b;
    IndexOfSeparator(a, c, b);
    assert s[..|a|] == a;
    assert s[|a| + 1..] == b;
  }

  /** A string without the separator is a single piece. */
  lemma SplitAbsent(s: string, c: char)
    requires c !in s
    ensures Split(s, c) == [s]
  {
    assert IndexOf(s, c) == |s|;
  }

  /** Rust's `s.replace(from, to)` for single characters. */
  function ReplaceChar(s: string, from: char, to: char): (r: string)
    ensures |r| == |s|
    ensures forall k :: 0 <= k < |s| ==> r[k] == if s[k] == from then to else s[k]
  {
    if s == [] then [] else [if s[0] == from then to else s[0]] + ReplaceChar(s[1..], from, to)
  }

  /** Replacing a character that occurs once, between two runs without it. */
  lemma ReplaceSeparator(a: string, b: string, from: char, to: char)
    requires from !in a && from !in b
    ensures ReplaceChar(a + [from] + b, from, to) == a + [to] + b
  {
    var s := a + [from] + b;
    var r := ReplaceChar(s, from, to);
    var w := a + [to] + b;
    forall k | 0 <= k < |s| ensures r[k] == w[k] {
      if k < |a| {
        assert s[k] == a[k] && w[k] == a[k];
      } else if k > |a| {
        assert s[k] == b[k - |a| - 1] && w[k] == b[k - |a| - 1];
      } else {
        assert s[k] == from && w[k] == to;
      }
    }
  }

  /** A line that was followed by `'\n'` also loses one `'\r'` before it. */
  function StripCarriageReturn(line: string): string
  {
    if |line| > 0 && line[|line| - 1] == '\r' then line[..|line| - 1] else line
  }

  /**
   * Rust's `s.lines()`: pieces ended by `'\n'` (with one `'\r'` before it
   * removed); a final piece without `'\n'` is kept as it is, and an ending
   * `'\n'` does not start an empty last line.
   */
  function Lines(s: string): (ls: seq<string>)
    ensures forall k :: 0 <= k < |ls| ==> '\n' !in ls[k]
    decreases |s|
  {
    if s == [] then []
    else
      var i := IndexOf(s, '\n');
      if i == |s| then
        assert '\n' !in s by {
          forall k | 0 <= k < |s| ensures s[k] != '\n' { }
        }
        [s]
      else
        assert '\n' !in s[..i];
        [StripCarriageReturn(s[..i])] + Lines(s[i + 1..])
  }

  /** A text made of lines, each followed by `'\n'`. */
  function Terminated(ls: seq<string>): string
  {
    if ls == [] then "" else ls[0] + "\n" + Terminated(ls[1..])
  }

  lemma LinesCons(line: string, rest: string)
    requires '\n' !in line
    ensures Lines(line + "\n" + rest) == [StripCarriageReturn(line)] + Lines(rest)
  {
    var s := line + "\n" + rest;
    IndexOfSeparator(line, '\n', rest);
    assert s[..|line|] == line;
    assert s[|line| + 1..] == rest;
  }

  lemma StripCarriageReturnNoop(line: string)
    requires '\r' !in line
    ensures StripCarriageReturn(line) == line
  {
    if |line| > 0 {
      assert line[|line| - 1] in line;
    }
  }

  /** A text without `'\n'` is a single line. */
  lemma LinesSingle(line: string)
    requires line != [] && '\n' !in line
    ensures Lines(line) == [line]
  {
    assert forall k :: 0 <= k < |line| ==> line[k] != '\n';
  }

  /** Reading back lines written one per `'\n'` gives the same lines. */
  lemma {:induction false} LinesTerminated(ls: seq<string>)
    requires forall k :: 0 <= k < |ls| ==> '\n' !in ls[k] && '\r' !in ls[k]
    ensures Lines(Terminated(ls)) == ls
  {
    if ls != [] {
      LinesCons(ls[0], Terminated(ls[1..]));
      StripCarriageReturnNoop(ls[0]);
      LinesTerminated(ls[1..]);
    }
  }

  /** Rust's `char::is_whitespace`: the Unicode White_Space property. */
  predicate IsWhitespace(c: char)
  {
    var n := c as int;
    (0x09 <= n <= 0x0D) || n == 0x20 || n == 0x85 || n == 0xA0 || n == 0x1680
    || (0x2000 <= n <= 0x200A) || n == 0x2028 || n == 0x2029 || n == 0x202F
    || n == 0x205F || n == 0x3000
  }

  predicate AllWhitespace(s: string)
  {
    forall k :: 0 <= k < |s| ==> IsWhitespace(s[k])
  }

  /** Number of whitespace characters at the start of `s`. */
  function LeadingWhitespace(s: string): (n: nat)
    ensures n <= |s| && AllWhitespace(s[..n])
    ensures n < |s| ==> !IsWhitespace(s[n])
  {
    if s != [] && IsWhitespace(s[0]) then 1 + LeadingWhitespace(s[1..]) else 0
  }

  /** Number of whitespace characters at the end of `s`. */
  function TrailingWhitespace(s: string): (n: nat)
    ensures n <= |s| && AllWhitespace(s[|s| - n..])
    ensures n < |s| ==> !IsWhitespace(s[|s| - n - 1])
  {
    if s != [] && IsWhitespace(s[|s| - 1]) then 1 + TrailingWhitespace(s[..|s| - 1]) else 0
  }

  function TrimStart(s: string): string
  {
    s[LeadingWhitespace(s)..]
  }

  function TrimEnd(s: string): string
  {
    s[..|s| - TrailingWhitespace(s)]
  }

  /** Rust's `s.trim()`: leading and trailing whitespace removed. */
  function Trim(s: string): (r: string)
    ensures |r| <= |s|
    ensures r == [] || (!IsWhitespace(r[0]) && !IsWhitespace(r[|r| - 1]))
    ensures AllWhitespace(s) ==> r == []
  {
    TrimCoreEnds(s);
    TrimEnd(TrimStart(s))
  }

  /** Every string is its trimmed core between two runs of whitespace. */
  lemma TrimSplits(s: string) returns (lead: string, trail: string)
    ensures s == lead + Trim(s) + trail
    ensures AllWhitespace(lead) && AllWhitespace(trail)
    ensures Trim(s) == [] || (!IsWhitespace(Trim(s)[0]) && !IsWhitespace(Trim(s)[|Trim(s)| - 1]))
  {
    var t := TrimStart(s);
    lead := s[..LeadingWhitespace(s)];
    trail := t[|t| - TrailingWhitespace(t)..];
    TrimStartSplit(s);
    TrimEndSplit(t);
    assert s == lead + (Trim(s) + trail);
  }

  lemma TrimStartSplit(s: string)
    ensures s == s[..LeadingWhitespace(s)] + TrimStart(s)
  {
    SliceSplit(s, LeadingWhitespace(s));
  }

  lemma TrimEndSplit(t: string)
    ensures t == TrimEnd(t) + t[|t| - TrailingWhitespace(t)..]
  {
    SliceSplit(t, |t| - TrailingWhitespace(t));
  }

  lemma SliceSplit(s: string, i: nat)
    requires i <= |s|
    ensures s == s[..i] + s[i..]
  {
  }

  /** The trimmed core neither starts nor ends with whitespace, and a blank string trims to nothing. */
  lemma TrimCoreEnds(s: string)
    ensures var core := TrimEnd(TrimStart(s));
      core == [] || (!IsWhitespace(core[0]) && !IsWhitespace(core[|core| - 1]))
    ensures AllWhitespace(s) ==> TrimEnd(TrimStart(s)) == []
  {
    var t := TrimStart(s);
    var core := TrimEnd(t);
    if AllWhitespace(s) {
      assert s + [] == s;
      LeadingWhitespacePadded(s, []);
    }
    if core != [] {
      var n := LeadingWhitespace(s);
      assert !IsWhitespace(s[n]);
      assert core[0] == s[n];
      var m := TrailingWhitespace(t);
      assert !IsWhitespace(t[|t| - m - 1]);
      assert core[|core| - 1] == t[|t| - m - 1];
    }
  }

  lemma LeadingWhitespacePadded(lead: string, rest: string)
    requires AllWhitespace(lead)
    requires rest == [] || !IsWhitespace(rest[0])
    ensures LeadingWhitespace(lead + rest) == |lead|
  {
    var s := lead + rest;
    assert forall k :: 0 <= k < |lead| ==> s[k] == lead[k];
    assert rest != [] ==> s[|lead|] == rest[0];
  }

  lemma TrailingWhitespacePadded(rest: string, trail: string)
    requires AllWhitespace(trail)
    requires rest == [] || !IsWhitespace(rest[|rest| - 1])
    ensures TrailingWhitespace(rest + trail) == |trail|
  {
    var s := rest + trail;
    assert forall k :: |rest| <= k < |s| ==> s[k] == trail[k - |rest|];
    assert rest != [] ==> s[|rest| - 1] == rest[|rest| - 1];
  }

  /** Trimming a core padded with whitespace on both sides gives the core back. */
  lemma TrimPadded(lead: string, core: string, trail: string)
    requires AllWhitespace(lead) && AllWhitespace(trail)
    requires core == [] || (!IsWhitespace(core[0]) && !IsWhitespace(core[|core| - 1]))
    ensures Trim(lead + core + trail) == core
  {
    var s := lead + core + trail;
    if core == [] {
      assert s == (lead + trail) + [];
      assert AllWhitespace(lead + trail);
      LeadingWhitespacePadded(lead + trail, []);
    } else {
      assert s == lead + (core + trail);
      LeadingWhitespacePadded(lead, core + trail);
      assert TrimStart(s) == core + trail;
      TrailingWhitespacePadded(core, trail);
      assert (core + trail)[..|core|] == core;
    }
  }

  function DigitChar(d: nat): (c: char)
    requires d < 10
    ensures '0' <= c <= '9'
  {
    (('0' as int) + d) as char
  }

  predicate IsDigits(s: string)
  {
    forall k :: 0 <= k < |s| ==> '0' <= s[k] <= '9'
  }

  /** Rust's `{}` formatting of an unsigned integer: decimal, no leading zero. */
  function Decimal(n: nat): (r: string)
    ensures |r| >= 1 && IsDigits(r)
    ensures (r[0] == '0') == (n == 0)
    decreases n
  {
    if n < 10 then [DigitChar(n)] else Decimal(n / 10) + [DigitChar(n % 10)]
  }

  /** The number a string of decimal digits denotes. */
  function DecimalValue(s: string): nat
    requires IsDigits(s)
  {
    if s == [] then 0 else DecimalValue(s[..|s| - 1]) * 10 + (s[|s| - 1] as int - '0' as int)
  }

  /** Formatting a number and reading it back gives the number. */
  lemma {:induction false} DecimalRoundTrip(n: nat)
    ensures DecimalValue(Decimal(n)) == n
    decreases n
  {
    if n >= 10 {
      var d := Decimal(n / 10);
      assert (d + [DigitChar(n % 10)])[..|d|] == d;
      DecimalRoundTrip(n / 10);
    }
  }
}
