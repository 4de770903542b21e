/** How `read_line` cuts a listing into lines, and how the iterator strips each line's delimiter. */
module LineSplit {
  /**
   * How much one `read_line` consumes from `s`: up to and including the first
   * `'\n'`, or all of `s` when it has none.
   */
  function LineLength(s: string): (n: nat)
    ensures n <= |s|
    ensures s != [] ==> n > 0
    ensures n > 0 ==> '\n' !in s[..n - 1]
    ensures n < |s| ==> s[n - 1] == '\n'
  {
    if s == [] then 0
    else if s[0] == '\n' then 1
    else
      var n := 1 + LineLength(s[1..]);
      assert n > 1 ==> s[..n - 1] == [s[0]] + s[1..][..n - 2];
      n
  }

  /** A line without its delimiter: one trailing `'\n'` removed, a `'\r'` before it kept. */
  function StripNewline(line: string): (t: string)
    ensures t == line || line == t + ['\n']
    ensures t != line <==> line != [] && line[|line| - 1] == '\n'
  {
    if line != [] && line[|line| - 1] == '\n' then line[..|line| - 1] else line
  }

  /** The lines the iterator reads from `s`, each without its `'\n'`. */
  function Lines(s: string): (lines: seq<string>)
    ensures |lines| <= |s|
    ensures lines == [] <==> s == []
    decreases |s|
  {
    if s == [] then []
    else
      var n := LineLength(s);
      [StripNewline(s[..n])] + Lines(s[n..])
  }

  /** Lines joined, each followed by `'\n'`. */
  function JoinLines(lines: seq<string>): string
  {
    if lines == [] then "" else lines[0] + "\n" + JoinLines(lines[1..])
  }

  lemma LineLengthOfLine(line: string, rest: string)
    requires '\n' !in line
    ensures LineLength(line + "\n" + rest) == |line| + 1
  {
    var s := line + "\n" + rest;
    assert s[|line|] == '\n';
    assert forall i :: 0 <= i < |line| ==> s[i] == line[i];
  }

  lemma LineLengthOfLast(line: string)
    requires '\n' !in line
    ensures LineLength(line) == |line|
  {
  }

  /** A line ended by `'\n'` is read as that line, and reading goes on after it. */
  lemma LinesOfFirst(line: string, rest: string)
    requires '\n' !in line
    ensures Lines(line + "\n" + rest) == [line] + Lines(rest)
  {
    var s := line + "\n" + rest;
    LineLengthOfLine(line, rest);
    assert s[..|line| + 1] == line + "\n";
    assert s[|line| + 1..] == rest;
    assert StripNewline(line + "\n") == line;
  }

  /** A last line without `'\n'` is read as itself. */
  lemma LinesOfLast(last: string)
    requires '\n' !in last
    ensures Lines(last) == if last == [] then [] else [last]
  {
    if last != [] {
      LineLengthOfLast(last);
      assert last[..|last|] == last && last[|last|..] == [];
    }
  }

  lemma JoinLinesCons(lines: seq<string>, last: string)
    requires lines != []
    ensures JoinLines(lines) + last == lines[0] + "\n" + (JoinLines(lines[1..]) + last)
  {
  }

  lemma ConsAppend<T>(xs: seq<T>, ys: seq<T>)
    requires xs != []
    ensures xs + ys == [xs[0]] + (xs[1..] + ys)
  {
  }

  /**
   * A listing of lines without `'\n'`, each ended by `'\n'` except perhaps a
   * non-empty last one, is read back as exactly those lines.
   */
  lemma {:induction false} LinesOfJoin(lines: seq<string>, last: string)
    requires forall i :: 0 <= i < |lines| ==> '\n' !in lines[i]
    requires '\n' !in last
    ensures Lines(JoinLines(lines) + last) == lines + (if last == [] then [] else [last])
  {
    if lines == [] {
      assert JoinLines(lines) + last == last;
      LinesOfLast(last);
    } else {
      JoinLinesCons(lines, last);
      LinesOfFirst(lines[0], JoinLines(lines[1..]) + last);
      LinesOfJoin(lines[1..], last);
      ConsAppend(lines, if last == [] then [] else [last]);
    }
  }

  /**
   * The lines read from `start` on: the line `read_line` returns there, without
   * its `'\n'`, then the lines from where that read stopped.
   */
  lemma LinesFrom(data: string, start: nat, end: nat, line: string)
    requires start < |data|
    requires end == start + LineLength(data[start..]) && line == data[start..end]
    ensures Lines(data[start..]) == [StripNewline(line)] + Lines(data[end..])
  {
    var rest := data[start..];
    var n := LineLength(rest);
    assert rest[..n] == line;
    assert rest[n..] == data[end..];
  }
}
