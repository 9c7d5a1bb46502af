/** The package's requirements list: the lines of the requirements file, each without
    its newline characters, and without the editable-install marker line when present.
    Reading the file is left out; its lines are the input. */
module Setup {
  import opened Tables

  /** The line that asks for the project itself to be installed in editable mode. */
  const HyphenEDot := "-e ."

  predicate NotNewline(c: char) {
    c != '\n'
  }

  /** `line.replace("\n", "")` */
  function StripNewlines(line: string): string {
    Filter(line, NotNewline)
  }

  /** A stripped line holds no newline and is the line read at its non-newline
      positions, in ascending order; a line without a newline is unchanged. */
  lemma StripNewlinesMeans(line: string)
    ensures '\n' !in StripNewlines(line)
    ensures var kept := KeptPositions(line, NotNewline);
            && |StripNewlines(line)| == |kept|
            && (forall i :: 0 <= i < |kept| ==> StripNewlines(line)[i] == line[kept[i]])
            && (forall i :: 0 <= i < |line| && line[i] != '\n' ==> i in kept)
    ensures '\n' !in line ==> StripNewlines(line) == line
  {
    FilterAtKeptPositions(line, NotNewline);
    if '\n' !in line {
      FilterKeepsAccepted(line, NotNewline);
    }
  }

  /** The list comprehension over the file's lines. */
  function StripAll(lines: seq<string>): (r: seq<string>)
    ensures |r| == |lines| && forall i :: 0 <= i < |lines| ==> r[i] == StripNewlines(lines[i])
  {
    seq(|lines|, i requires 0 <= i < |lines| => StripNewlines(lines[i]))
  }

  /** `list.remove(x)`: the first occurrence of `x` taken out. */
  function RemoveFirst(s: seq<string>, x: string): seq<string>
    requires x in s
  {
    var k := IndexOf(s, x);
    s[..k] + s[k + 1..]
  }

  /** Removal takes out the first copy of `x`: everything before it stays in place and
      everything after it, later copies of `x` included, moves up by one. */
  lemma RemoveFirstMeans(s: seq<string>, x: string)
    requires x in s
    ensures var k := IndexOf(s, x);
            && |RemoveFirst(s, x)| == |s| - 1
            && (forall i :: 0 <= i < k ==> RemoveFirst(s, x)[i] == s[i])
            && (forall i :: k <= i < |s| - 1 ==> RemoveFirst(s, x)[i] == s[i + 1])
  {
    var k := IndexOf(s, x);
    var r := RemoveFirst(s, x);
    forall i | 0 <= i < k ensures r[i] == s[i] {
      assert r[i] == s[..k][i];
    }
    forall i | k <= i < |s| - 1 ensures r[i] == s[i + 1] {
      assert r[i] == s[k + 1..][i - k];
    }
  }

  /** Exactly one copy of `x` goes. */
  lemma RemoveFirstCount(s: seq<string>, x: string)
    requires x in s
    ensures multiset(RemoveFirst(s, x)) == multiset(s) - multiset{x}
  {
    var k := IndexOf(s, x);
    var a, b := s[..k], s[k + 1..];
    assert s == a + [x] + b;
    assert multiset(s) == multiset(a) + multiset{x} + multiset(b);
    assert RemoveFirst(s, x) == a + b;
  }

  /** The requirements the package declares: the stripped lines, less the first marker. */
  function Requirements(lines: seq<string>): seq<string> {
    var stripped := StripAll(lines);
    if HyphenEDot in stripped then RemoveFirst(stripped, HyphenEDot) else stripped
  }

  /** `get_requirements` on the file's lines; the in-place removal reassigns the list. */
  method GetRequirements(lines: seq<string>) returns (requirements: seq<string>)
    ensures requirements == Requirements(lines)
  {
    requirements := StripAll(lines);
    if HyphenEDot in requirements {
      requirements := RemoveFirst(requirements, HyphenEDot);
    }
  }

  /** One line fewer exactly when a line is the marker once its newline is gone, no
      newline anywhere, the first marker line alone dropped, and every other line kept
      in file order. */
  lemma RequirementsMeans(lines: seq<string>)
    ensures var present := exists i :: 0 <= i < |lines| && StripNewlines(lines[i]) == HyphenEDot;
            |Requirements(lines)| == if present then |lines| - 1 else |lines|
    ensures forall i :: 0 <= i < |Requirements(lines)| ==> '\n' !in Requirements(lines)[i]
    ensures multiset(Requirements(lines)) == multiset(StripAll(lines)) - multiset{HyphenEDot}
    ensures forall i :: 0 <= i < |lines| && StripNewlines(lines[i]) != HyphenEDot ==>
              StripNewlines(lines[i]) in Requirements(lines)
    ensures HyphenEDot !in StripAll(lines) ==> Requirements(lines) == StripAll(lines)
    ensures HyphenEDot in StripAll(lines) ==>
              var k := IndexOf(StripAll(lines), HyphenEDot);
              forall i :: 0 <= i < |Requirements(lines)| ==>
                Requirements(lines)[i] == StripNewlines(lines[if i < k then i else i + 1])
  {
    var stripped := StripAll(lines);
    var r := Requirements(lines);
    if HyphenEDot in stripped {
      RemoveFirstMeans(stripped, HyphenEDot);
      RemoveFirstCount(stripped, HyphenEDot);
      var k := IndexOf(stripped, HyphenEDot);
      forall i | 0 <= i < |lines| && StripNewlines(lines[i]) != HyphenEDot
        ensures StripNewlines(lines[i]) in r
      {
        if i < k {
          assert r[i] == stripped[i];
        } else {
          assert i != k;
          assert r[i - 1] == stripped[i];
        }
      }
      forall i | 0 <= i < |r| ensures '\n' !in r[i] {
        if i < k {
          assert r[i] == stripped[i];
        } else {
          assert r[i] == stripped[i + 1];
        }
        StripNewlinesMeans(lines[if i < k then i else i + 1]);
      }
    } else {
      forall i | 0 <= i < |r| ensures '\n' !in r[i] {
        StripNewlinesMeans(lines[i]);
      }
    }
  }

  /** A requirements file that already lacks its marker and newlines comes back unchanged. */
  lemma CleanFileUnchanged(lines: seq<string>)
    requires forall i :: 0 <= i < |lines| ==> '\n' !in lines[i] && lines[i] != HyphenEDot
    ensures Requirements(lines) == lines
  {
    forall i | 0 <= i < |lines| ensures StripAll(lines)[i] == lines[i] {
      StripNewlinesMeans(lines[i]);
    }
  }
}
