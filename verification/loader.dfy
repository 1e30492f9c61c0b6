/** The target loader, `read_servers` (check_webservers.py:16-18), with the
    file opening taken out: the file is given by its text. Iterating a Python
    text file yields its lines with their '\n' terminator still attached;
    each is stripped, and blank ones are dropped. */
module Loader {
  import opened Text
  import opened Seqs

  /** Length of the first line of `text`, its '\n' included when there is one. */
  function FirstLineLength(text: string): (k: nat)
    requires |text| > 0
    ensures 0 < k <= |text|
  {
    if text[0] == '\n' || |text| == 1 then 1 else 1 + FirstLineLength(text[1..])
  }

  /** The first line stops at the first '\n', or at the end of the text. */
  lemma {:induction false} FirstLineShape(text: string)
    requires |text| > 0
    ensures forall i :: 0 <= i < FirstLineLength(text) - 1 ==> text[i] != '\n'
    ensures FirstLineLength(text) < |text| ==> text[FirstLineLength(text) - 1] == '\n'
    decreases |text|
  {
    if !(text[0] == '\n' || |text| == 1) {
      FirstLineShape(text[1..]);
      assert forall i :: 1 <= i < FirstLineLength(text) - 1 ==> text[i] == text[1..][i - 1];
    }
  }

  /** The shape of the lines a text file iterates into: no line is empty,
      no line holds a '\n' except as its last character, and every line but
      the last ends in '\n'. */
  predicate WellFormedLines(lines: seq<string>) {
    && (forall k :: 0 <= k < |lines| ==> |lines[k]| > 0)
    && (forall k, i :: 0 <= k < |lines| && 0 <= i < |lines[k]| - 1 ==> lines[k][i] != '\n')
    && (forall k :: 0 <= k < |lines| - 1 ==> lines[k][|lines[k]| - 1] == '\n')
  }

  /** A well-formed list of lines stays well formed when a line is put in
      front of it, provided that line is terminated or nothing follows it. */
  lemma WellFormedCons(line: string, rest: seq<string>)
    requires |line| > 0
    requires forall i :: 0 <= i < |line| - 1 ==> line[i] != '\n'
    requires line[|line| - 1] == '\n' || |rest| == 0
    requires WellFormedLines(rest)
    ensures WellFormedLines([line] + rest)
  {
  }

  /** The lines `for line in f` yields: well-formed lines that together spell
      out the file exactly. */
  function SplitLines(text: string): (lines: seq<string>)
    ensures Flatten(lines) == text
    ensures WellFormedLines(lines)
    decreases |text|
  {
    if |text| == 0 then []
    else
      var k := FirstLineLength(text);
      FirstLineShape(text);
      var rest := SplitLines(text[k..]);
      assert text == text[..k] + text[k..];
      assert ([text[..k]] + rest)[1..] == rest;
      WellFormedCons(text[..k], rest);
      [text[..k]] + rest
  }

  /** `[line.strip() for line in f if line.strip()]`: the stripped lines that
      are not blank, in file order. */
  function CleanLines(lines: seq<string>): (servers: seq<string>)
    ensures |servers| <= |lines|
    ensures forall k :: 0 <= k < |servers| ==> |servers[k]| > 0 && IsTrimmed(servers[k])
  {
    if |lines| == 0 then []
    else
      var t := Strip(lines[0]);
      (if |t| > 0 then [t] else []) + CleanLines(lines[1..])
  }

  /** The targets named in a file with the given text. */
  function Servers(text: string): (servers: seq<string>)
    ensures |servers| <= |SplitLines(text)|
    ensures forall k :: 0 <= k < |servers| ==> |servers[k]| > 0 && IsTrimmed(servers[k])
  {
    CleanLines(SplitLines(text))
  }

  /** Stripping a line that holds no '\n' except as its last character
      leaves no '\n' at all: the terminator is whitespace and goes. */
  lemma StripDropsNewline(line: string)
    requires forall i :: 0 <= i < |line| - 1 ==> line[i] != '\n'
    ensures forall p :: 0 <= p < |Strip(line)| ==> Strip(line)[p] != '\n'
  {
  }

  /** Each target is text from within a single line of the file: none
      holds a '\n'. */
  lemma ServersHoldNoNewline(text: string, x: string)
    requires x in Servers(text)
    ensures forall p :: 0 <= p < |x| ==> x[p] != '\n'
  {
    var lines := SplitLines(text);
    CleanLinesMembership(lines, x);
    var k :| 0 <= k < |lines| && Strip(lines[k]) == x;
    assert forall i :: 0 <= i < |lines[k]| - 1 ==> lines[k][i] != '\n';
    StripDropsNewline(lines[k]);
  }

  /** Every line stripped, blank or not. */
  function StripAll(lines: seq<string>): (r: seq<string>)
    ensures |r| == |lines|
    ensures forall k :: 0 <= k < |lines| ==> r[k] == Strip(lines[k])
  {
    if |lines| == 0 then [] else [Strip(lines[0])] + StripAll(lines[1..])
  }

  /** Cleaning works line by line: the targets of two pieces of a file are
      the targets of the first piece followed by those of the second. */
  lemma {:induction false} CleanLinesAppend(a: seq<string>, b: seq<string>)
    ensures CleanLines(a + b) == CleanLines(a) + CleanLines(b)
    decreases |a|
  {
    if |a| == 0 {
      assert a + b == b;
    } else {
      assert (a + b)[0] == a[0];
      assert (a + b)[1..] == a[1..] + b;
      CleanLinesAppend(a[1..], b);
    }
  }

  /** Cleaning keeps order: the targets are a subsequence of the stripped
      lines. */
  lemma {:induction false} CleanLinesIsSubsequence(lines: seq<string>)
    ensures IsSubsequence(CleanLines(lines), StripAll(lines))
    decreases |lines|
  {
    if |lines| > 0 {
      CleanLinesIsSubsequence(lines[1..]);
      var t := Strip(lines[0]);
      var s := StripAll(lines);
      assert s[1..] == StripAll(lines[1..]);
      if |t| > 0 {
        assert CleanLines(lines)[1..] == CleanLines(lines[1..]);
      } else {
        assert CleanLines(lines) == CleanLines(lines[1..]);
      }
    }
  }

  /** A string is a target exactly when it is non-empty and is what some
      line strips to; in particular no whitespace-only line yields one. */
  lemma {:induction false} CleanLinesMembership(lines: seq<string>, x: string)
    ensures x in CleanLines(lines) <==>
            |x| > 0 && exists i :: 0 <= i < |lines| && Strip(lines[i]) == x
    decreases |lines|
  {
    if |lines| > 0 {
      CleanLinesMembership(lines[1..], x);
      var t := Strip(lines[0]);
      assert CleanLines(lines) == (if |t| > 0 then [t] else []) + CleanLines(lines[1..]);
      if exists i :: 0 <= i < |lines| && Strip(lines[i]) == x {
        var i :| 0 <= i < |lines| && Strip(lines[i]) == x;
        if i > 0 {
          assert Strip(lines[1..][i - 1]) == x;
        }
      }
      if exists i :: 0 <= i < |lines| - 1 && Strip(lines[1..][i]) == x {
        var i :| 0 <= i < |lines| - 1 && Strip(lines[1..][i]) == x;
        assert Strip(lines[i + 1]) == x;
      }
    }
  }

  /** A line that is blank or whitespace only contributes nothing. */
  lemma BlankLineDropped(lines: seq<string>, line: string)
    requires AllWhitespace(line)
    ensures CleanLines(lines + [line]) == CleanLines(lines)
  {
    CleanLinesAppend(lines, [line]);
    StripEmptyIff(line);
    assert CleanLines([line]) == [];
  }

  /** The list comprehension as the loop it stands for. */
  method ReadServers(lines: seq<string>) returns (servers: seq<string>)
    ensures servers == CleanLines(lines)
  {
    servers := [];
    var n := 0;
    while n < |lines|
      invariant n <= |lines|
      invariant servers == CleanLines(lines[..n])
    {
      var line := lines[n];
      var t := Strip(line);
      ghost var done := lines[..n];
      CleanLinesSnoc(done, line);
      assert lines[..n + 1] == done + [line];
      if |t| > 0 {
        servers := servers + [t];
      }
      n := n + 1;
    }
    assert lines[..n] == lines;
  }

  lemma {:induction false} FirstLineLengthOf(line: string, rest: string)
    requires |line| > 0
    requires forall i :: 0 <= i < |line| - 1 ==> line[i] != '\n'
    requires line[|line| - 1] == '\n' || rest == ""
    ensures FirstLineLength(line + rest) == |line|
    decreases |line|
  {
    if |line| > 1 {
      assert (line + rest)[1..] == line[1..] + rest;
      FirstLineLengthOf(line[1..], rest);
    }
  }

  /** The other half of the round trip: well-formed lines, written out one
      after another, iterate back into exactly those lines. */
  lemma {:induction false} SplitLinesOfFlatten(lines: seq<string>)
    requires WellFormedLines(lines)
    ensures SplitLines(Flatten(lines)) == lines
    decreases |lines|
  {
    if |lines| > 0 {
      var line := lines[0];
      var rest := Flatten(lines[1..]);
      assert WellFormedLines(lines[1..]) by {
        forall k, i | 0 <= k < |lines| - 1 && 0 <= i < |lines[1..][k]| - 1
          ensures lines[1..][k][i] != '\n'
        {
          assert lines[1..][k] == lines[k + 1];
        }
      }
      assert forall i :: 0 <= i < |line| - 1 ==> line[i] != '\n' by {
        forall i | 0 <= i < |line| - 1 ensures line[i] != '\n' {
          assert lines[0][i] != '\n';
        }
      }
      assert line[|line| - 1] == '\n' || rest == "";
      FirstLineLengthOf(line, rest);
      assert (line + rest)[..|line|] == line;
      assert (line + rest)[|line|..] == rest;
      SplitLinesOfFlatten(lines[1..]);
    }
  }

  /** Lines, then one more line: cleaning handles the last on its own. */
  lemma CleanLinesSnoc(lines: seq<string>, line: string)
    ensures CleanLines(lines + [line]) ==
            CleanLines(lines) + (if |Strip(line)| > 0 then [Strip(line)] else [])
  {
    CleanLinesAppend(lines, [line]);
    assert [line][1..] == [];
  }

  /** One line, then more lines: cleaning handles the first on its own. */
  lemma CleanLinesCons(line: string, rest: seq<string>)
    ensures CleanLines([line] + rest) ==
            (if |Strip(line)| > 0 then [Strip(line)] else []) + CleanLines(rest)
  {
  }

  /** The example file "a\n\nb \n  \nc\n" names the targets a, b and c:
      blank and whitespace-only lines vanish, the rest lose their padding. */
  lemma ExampleFile()
    ensures Servers("a\n\nb \n  \nc\n") == ["a", "b", "c"]
  {
    var lines := ["a\n", "\n", "b \n", "  \n", "c\n"];
    assert Flatten(lines) == "a\n\nb \n  \nc\n" by {
      assert Flatten(lines[4..]) == "c\n";
      assert Flatten(lines[3..]) == "  \nc\n";
      assert Flatten(lines[2..]) == "b \n  \nc\n";
      assert Flatten(lines[1..]) == "\nb \n  \nc\n";
    }
    SplitLinesOfFlatten(lines);
    ExampleClean(lines);
  }

  /** Five lines of which the second and fourth are blank clean to the
      stripped first, third and fifth. */
  lemma CleanFive(l0: string, l1: string, l2: string, l3: string, l4: string)
    requires |Strip(l0)| > 0 && |Strip(l2)| > 0 && |Strip(l4)| > 0
    requires |Strip(l1)| == 0 && |Strip(l3)| == 0
    ensures CleanLines([l0, l1, l2, l3, l4]) == [Strip(l0), Strip(l2), Strip(l4)]
  {
    var s4 := [l4];
    var s3 := [l3] + s4;
    var s2 := [l2] + s3;
    var s1 := [l1] + s2;
    CleanLinesCons(l4, []);
    assert [l4] + [] == s4;
    CleanLinesCons(l3, s4);
    CleanLinesCons(l2, s3);
    CleanLinesCons(l1, s2);
    CleanLinesCons(l0, s1);
    assert [l0, l1, l2, l3, l4] == [l0] + s1;
  }

  lemma ExampleClean(lines: seq<string>)
    requires lines == ["a\n", "\n", "b \n", "  \n", "c\n"]
    ensures CleanLines(lines) == ["a", "b", "c"]
  {
    assert "" + "a" + "\n" == lines[0];
    StripUnique("", "a", "\n");
    assert "" + "b" + " \n" == lines[2];
    StripUnique("", "b", " \n");
    assert "" + "c" + "\n" == lines[4];
    StripUnique("", "c", "\n");
    StripEmptyIff(lines[1]);
    StripEmptyIff(lines[3]);
    CleanFive(lines[0], lines[1], lines[2], lines[3], lines[4]);
  }

  /** Each name followed by its line terminator. */
  function Terminate(names: seq<string>): (lines: seq<string>)
    ensures |lines| == |names|
    ensures forall k :: 0 <= k < |names| ==> lines[k] == names[k] + "\n"
  {
    if |names| == 0 then [] else [names[0] + "\n"] + Terminate(names[1..])
  }

  /** A name that can stand on a line of the file as a target: non-empty,
      trimmed, and without a line break inside. */
  predicate IsTargetName(name: string) {
    |name| > 0 && IsTrimmed(name) && forall i :: 0 <= i < |name| ==> name[i] != '\n'
  }

  /** A file that lists target names one per line, each ending in '\n',
      loads to exactly those names, in order. */
  lemma {:induction false} ServersOfListing(names: seq<string>)
    requires forall k :: 0 <= k < |names| ==> IsTargetName(names[k])
    ensures Servers(Flatten(Terminate(names))) == names
  {
    var lines := Terminate(names);
    assert WellFormedLines(lines) by {
      forall k, i | 0 <= k < |lines| && 0 <= i < |lines[k]| - 1
        ensures lines[k][i] != '\n'
      {
        assert lines[k][i] == names[k][i];
      }
    }
    SplitLinesOfFlatten(lines);
    CleanTerminated(names);
  }

  lemma {:induction false} CleanTerminated(names: seq<string>)
    requires forall k :: 0 <= k < |names| ==> |names[k]| > 0 && IsTrimmed(names[k])
    ensures CleanLines(Terminate(names)) == names
    decreases |names|
  {
    if |names| > 0 {
      var name := names[0];
      assert "" + name + "\n" == name + "\n";
      assert AllWhitespace("\n");
      StripUnique("", name, "\n");
      assert Terminate(names)[1..] == Terminate(names[1..]);
      CleanTerminated(names[1..]);
      CleanLinesCons(name + "\n", Terminate(names[1..]));
      assert Terminate(names) == [name + "\n"] + Terminate(names[1..]);
      assert names == [name] + names[1..];
    }
  }
}
