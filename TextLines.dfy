/**
 * Line-oriented text: the newline the report uses, joining lines with it
 * and splitting text back into lines.
 */
module TextLines {

  /** `Environment.NewLine`, taken to be a line feed. */
  const NewLine: string := "\n"

  /** Lines separated (not terminated) by `NewLine`. */
  function JoinLines(lines: seq<string>): string {
    if |lines| == 0 then ""
    else if |lines| == 1 then lines[0]
    else lines[0] + NewLine + JoinLines(lines[1..])
  }

  /** Joining a first line in front of further lines puts one line break between them. */
  lemma JoinLinesCons(first: string, rest: seq<string>)
    requires |rest| > 0
    ensures JoinLines([first] + rest) == first + NewLine + JoinLines(rest)
  {
    assert ([first] + rest)[1..] == rest;
  }

  /** `StringBuilder.AppendLine`: the line, then a line break, after the text so far. */
  function AppendLine(text: string, line: string): string {
    text + line + NewLine
  }

  /** Joining one more line puts a single line break before it. */
  lemma {:induction false} JoinLinesSnoc(lines: seq<string>, last: string)
    requires |lines| > 0
    ensures JoinLines(lines + [last]) == JoinLines(lines) + NewLine + last
    decreases |lines|
  {
    if |lines| > 1 {
      var rest := JoinLines(lines[1..]);
      assert (lines + [last])[1..] == lines[1..] + [last];
      JoinLinesSnoc(lines[1..], last);
      assert lines[0] + NewLine + (rest + NewLine + last) == (lines[0] + NewLine + rest) + NewLine + last;
    } else {
      assert lines + [last] == [lines[0], last];
      assert [lines[0], last][1..] == [last];
    }
  }

  /** Appending a line to joined lines that end in a line break gives the longer joined lines, ending in a line break. */
  lemma AppendLineJoins(lines: seq<string>, line: string)
    requires |lines| > 0
    ensures AppendLine(JoinLines(lines) + NewLine, line) == JoinLines(lines + [line]) + NewLine
  {
    JoinLinesSnoc(lines, line);
  }

  /** The position of the first occurrence of `c` in `s`. */
  function IndexOf(s: string, c: char): (i: nat)
    requires c in s
    ensures i < |s| && s[i] == c && c !in s[..i]
  {
    if s[0] == c then 0 else 1 + IndexOf(s[1..], c)
  }

  /** The pieces of `s` between line feeds; one piece when `s` has none. */
  function SplitLines(s: string): (lines: seq<string>)
    ensures |lines| >= 1
    ensures forall k :: 0 <= k < |lines| ==> '\n' !in lines[k]
    decreases |s|
  {
    if '\n' !in s then [s]
    else
      var i := IndexOf(s, '\n');
      [s[..i]] + SplitLines(s[i + 1..])
  }

  /** The first line feed after a line-feed-free prefix is the one right after it. */
  lemma IndexOfAfterLine(line: string, rest: string)
    requires '\n' !in line
    ensures '\n' in line + NewLine + rest
    ensures IndexOf(line + NewLine + rest, '\n') == |line|
  {
    var s := line + NewLine + rest;
    assert s[|line|] == '\n';
  }

  /** A line-feed-free line followed by a line break splits off as the first line. */
  lemma SplitLinesAfterLine(line: string, rest: string)
    requires '\n' !in line
    ensures SplitLines(line + NewLine + rest) == [line] + SplitLines(rest)
  {
    var s := line + NewLine + rest;
    IndexOfAfterLine(line, rest);
    assert s[..|line|] == line;
    assert s[|line| + 1..] == rest;
  }

  /** Splitting joined lines gives the lines back when none of them holds a line feed. */
  lemma {:induction false} SplitJoinLines(lines: seq<string>)
    requires |lines| > 0
    requires forall k :: 0 <= k < |lines| ==> '\n' !in lines[k]
    ensures SplitLines(JoinLines(lines)) == lines
    decreases |lines|
  {
    if |lines| > 1 {
      var rest := lines[1..];
      assert JoinLines(lines) == lines[0] + NewLine + JoinLines(rest);
      SplitLinesAfterLine(lines[0], JoinLines(rest));
      assert forall k :: 0 <= k < |rest| ==> rest[k] == lines[k + 1];
      SplitJoinLines(rest);
      assert lines == [lines[0]] + rest;
    }
  }
}
