/** Lines of text joined with "\n", as an array of lines is joined into the
    text the formatter returns, and the cut that takes them apart again. */
module TextLines {

  /** Array join with "\n" as the separator. */
  function Join(lines: seq<string>): (s: string)
    ensures |lines| == 0 ==> s == ""
    ensures |lines| >= 1 ==> |s| >= |lines[0]| && s[..|lines[0]|] == lines[0]
    ensures |lines| >= 1 ==> |s| >= |lines[|lines| - 1]|
  {
    if |lines| == 0 then ""
    else if |lines| == 1 then lines[0]
    else
      var head := lines[0] + "\n";
      assert (head + Join(lines[1..]))[..|lines[0]|] == head[..|lines[0]|];
      head + Join(lines[1..])
  }

  predicate NoNewline(line: string) {
    forall i :: 0 <= i < |line| ==> line[i] != '\n'
  }

  /** The text cut at every "\n": one piece more than it has newlines. */
  function Split(s: string): (pieces: seq<string>)
    ensures |pieces| >= 1
    decreases |s|
  {
    if s == [] then [""]
    else
      var rest := Split(s[1..]);
      if s[0] == '\n' then [""] + rest
      else [[s[0]] + rest[0]] + rest[1..]
  }

  /** A line without a newline is a single piece. */
  lemma {:induction false} SplitSingle(line: string)
    requires NoNewline(line)
    ensures Split(line) == [line]
    decreases |line|
  {
    if line != [] {
      SplitSingle(line[1..]);
      assert [line[0]] + line[1..] == line;
    }
  }

  /** A line without a newline, then "\n", then the rest: the line is the first piece. */
  lemma {:induction false} SplitAtFirstNewline(line: string, rest: string)
    requires NoNewline(line)
    ensures Split(line + "\n" + rest) == [line] + Split(rest)
    decreases |line|
  {
    var s := line + "\n" + rest;
    if line == [] {
      assert s[1..] == rest;
    } else {
      assert s[1..] == line[1..] + "\n" + rest;
      SplitAtFirstNewline(line[1..], rest);
      assert [line[0]] + line[1..] == line;
    }
  }

  /** Cutting the joined text gives the lines back, when no line holds a newline. */
  lemma {:induction false} SplitJoin(lines: seq<string>)
    requires |lines| >= 1
    requires forall i :: 0 <= i < |lines| ==> NoNewline(lines[i])
    ensures Split(Join(lines)) == lines
    decreases |lines|
  {
    if |lines| == 1 {
      SplitSingle(lines[0]);
    } else {
      SplitAtFirstNewline(lines[0], Join(lines[1..]));
      SplitJoin(lines[1..]);
      assert [lines[0]] + lines[1..] == lines;
    }
  }

  /** The joined text ends with the last line. */
  lemma {:induction false} JoinEndsWithLast(lines: seq<string>)
    requires |lines| >= 1
    ensures |Join(lines)| >= |lines[|lines| - 1]|
    ensures Join(lines)[|Join(lines)| - |lines[|lines| - 1]|..] == lines[|lines| - 1]
  {
    if |lines| > 1 {
      JoinEndsWithLast(lines[1..]);
    }
  }
}
