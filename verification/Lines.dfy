/** Text as lines that keep their own endings, split where Python splits them. */
module Lines {
  /** The characters a line may end with; a carriage return takes the line feed
      after it along. */
  predicate IsBreak(c: char) {
    c == '\n' || c == '\r' || c == '\U{0B}' || c == '\U{0C}' || c == '\U{1C}' || c == '\U{1D}' || c == '\U{1E}'
    || c == '\U{85}' || c == '\U{2028}' || c == '\U{2029}'
  }

  /** How many characters the first line takes, its ending included. */
  function FirstLine(t: string): (n: nat)
    requires t != ""
    ensures 0 < n <= |t|
  {
    if IsBreak(t[0]) then if t[0] == '\r' && |t| > 1 && t[1] == '\n' then 2 else 1
    else if |t| == 1 then 1
    else 1 + FirstLine(t[1..])
  }

  function Split(t: string): seq<string>
    decreases |t|
  {
    if t == "" then [] else [t[..FirstLine(t)]] + Split(t[FirstLine(t)..])
  }

  function Join(lines: seq<string>): string {
    if lines == [] then "" else lines[0] + Join(lines[1..])
  }

  /** Nothing is lost and nothing is normalized. */
  lemma {:induction false} JoinSplit(t: string)
    ensures Join(Split(t)) == t
    decreases |t|
  {
    if t != "" {
      JoinSplit(t[FirstLine(t)..]);
      assert Split(t)[1..] == Split(t[FirstLine(t)..]);
    }
  }

  lemma {:induction false} JoinConcat(a: seq<string>, b: seq<string>)
    ensures Join(a + b) == Join(a) + Join(b)
  {
    if a == [] {
      assert a + b == b;
    } else {
      assert (a + b)[1..] == a[1..] + b;
      JoinConcat(a[1..], b);
    }
  }

  lemma JoinCons(l: string, lines: seq<string>)
    ensures Join([l] + lines) == l + Join(lines)
  {
    assert ([l] + lines)[1..] == lines;
  }

  /** Text whose last line has an ending. */
  predicate Complete(t: string) {
    t == "" || IsBreak(t[|t| - 1])
  }

  /** The one seam at which two pieces of text share a line ending. */
  predicate Seam(a: string, b: string) {
    a != "" && b != "" && a[|a| - 1] == '\r' && b[0] == '\n'
  }

  lemma {:induction false} FirstLineFront(a: string, b: string)
    requires a != "" && Complete(a)
    ensures FirstLine(a) < |a| ==> FirstLine(a + b) == FirstLine(a)
    ensures FirstLine(a) == |a| ==> FirstLine(a + b) == if Seam(a, b) then |a| + 1 else |a|
  {
    if IsBreak(a[0]) {
    } else {
      assert |a| > 1;
      assert (a + b)[1..] == a[1..] + b;
      FirstLineFront(a[1..], b);
    }
  }

  lemma {:induction false} FirstLineCut(x: string, y: string)
    requires x != "" && FirstLine(x + y) <= |x|
    ensures FirstLine(x) == FirstLine(x + y)
  {
    if !IsBreak(x[0]) {
      assert (x + y)[1..] == x[1..] + y;
      if |x| > 1 { FirstLineCut(x[1..], y); }
    }
  }

  lemma {:induction false} FirstLineRest(a: string)
    requires a != "" && Complete(a)
    ensures Complete(a[FirstLine(a)..])
  {
    if FirstLine(a) < |a| { assert a[FirstLine(a)..][|a| - FirstLine(a) - 1] == a[|a| - 1]; }
  }

  /** How two pieces of text split when the first is complete. */
  ghost predicate SplitsApart(a: string, b: string) {
    var front, back := Split(a), Split(b);
    if Seam(a, b)
    then front != [] && back != [] && back[0] == "\n"
      && Split(a + b) == front[..|front| - 1] + [front[|front| - 1] + "\n"] + back[1..]
    else Split(a + b) == front + back
  }

  lemma OneLineSeam(a: string, b: string)
    requires a != "" && FirstLine(a + b) == |a| + 1 && Seam(a, b)
    ensures Split(b) == ["\n"] + Split(b[1..]) && Split(a + b) == [a + "\n"] + Split(b[1..])
  {
    FirstLineFeed(b);
    SplitFirst(b);
    SplitFirst(a + b);
    assert (a + b)[..|a| + 1] == a + "\n" && (a + b)[|a| + 1..] == b[1..];
  }

  lemma OneLineApart(a: string, b: string)
    requires a != "" && FirstLine(a + b) == |a|
    ensures Split(a + b) == [a] + Split(b)
  {
    SplitFirst(a + b);
    assert (a + b)[..|a|] == a && (a + b)[|a|..] == b;
  }

  lemma OneLineSplits(a: string, b: string)
    requires a != "" && Complete(a) && FirstLine(a) == |a|
    ensures SplitsApart(a, b)
  {
    hide Split, FirstLine, Complete;
    FirstLineFront(a, b);
    OneLineWhole(a);
    if Seam(a, b) {
      OneLineSeam(a, b);
      assert [a][..0] == [] && Split(b)[1..] == Split(b[1..]);
    } else {
      OneLineApart(a, b);
    }
  }

  lemma OneLineWhole(a: string)
    requires a != "" && FirstLine(a) == |a|
    ensures Split(a) == [a]
  {
    hide Split, FirstLine;
    assert a + "" == a;
    OneLineApart(a, "");
    SplitNothing();
  }

  lemma SplitNothing()
    ensures Split("") == []
  {}

  lemma FirstLineFeed(b: string)
    requires b != "" && b[0] == '\n'
    ensures FirstLine(b) == 1 && b[..1] == "\n"
  {}

  lemma SplitFirst(t: string)
    requires t != ""
    ensures Split(t) == [t[..FirstLine(t)]] + Split(t[FirstLine(t)..])
  {}

  lemma FirstLineFirst(a: string, b: string)
    requires a != "" && Complete(a) && FirstLine(a) < |a|
    ensures var n := FirstLine(a);
      && Split(a) == [a[..n]] + Split(a[n..])
      && Split(a + b) == [a[..n]] + Split(a[n..] + b)
  {
    var n := FirstLine(a);
    FirstLineFront(a, b);
    assert (a + b)[..n] == a[..n] && (a + b)[n..] == a[n..] + b;
  }

  lemma MoreLinesSplit(first: string, rest: string, b: string)
    requires rest != "" && SplitsApart(rest, b)
    requires Split(first + rest) == [first] + Split(rest) && Split(first + rest + b) == [first] + Split(rest + b)
    ensures SplitsApart(first + rest, b)
  {
    hide Split;
    var back, whole := Split(rest), Split(first + rest);
    assert Seam(first + rest, b) == Seam(rest, b);
    if Seam(rest, b) {
      assert whole[..|whole| - 1] == [first] + back[..|back| - 1];
      assert whole[|whole| - 1] == back[|back| - 1];
    }
  }

  /** Complete text splits apart from what follows it, but for the seam, where a
      bare carriage return at the end of one takes in the line feed that starts the
      other. */
  lemma {:induction false} SplitConcat(a: string, b: string)
    requires Complete(a)
    ensures SplitsApart(a, b)
    decreases |a|
  {
    if a == "" {
      assert a + b == b;
    } else if FirstLine(a) == |a| {
      OneLineSplits(a, b);
    } else {
      var first, rest := a[..FirstLine(a)], a[FirstLine(a)..];
      FirstLineRest(a);
      SplitConcat(rest, b);
      FirstLineFirst(a, b);
      assert first + rest == a;
      MoreLinesSplit(first, rest, b);
    }
  }

  lemma {:induction false} SplitComplete(t: string)
    requires Complete(t)
    ensures forall l | l in Split(t) :: l != "" && Complete(l)
    decreases |t|
  {
    if t != "" {
      FirstLineRest(t);
      FirstLineEnds(t);
      SplitComplete(t[FirstLine(t)..]);
    }
  }

  lemma {:induction false} FirstLineEnds(t: string)
    requires t != "" && Complete(t)
    ensures Complete(t[..FirstLine(t)])
  {
    if !IsBreak(t[0]) {
      FirstLineEnds(t[1..]);
      assert t[..FirstLine(t)] == [t[0]] + t[1..][..FirstLine(t[1..])];
    }
  }

  /** A line as it stands in a file that ends its lines with line feeds. */
  ghost predicate IsLine(l: string) {
    Split(l) == [l] && l != "" && l[|l| - 1] == '\n'
  }

  /** Such lines, written one after another, split where they were joined. */
  lemma {:induction false} SplitJoin(lines: seq<string>)
    requires forall l | l in lines :: IsLine(l)
    ensures Split(Join(lines)) == lines && Complete(Join(lines))
  {
    if lines != [] {
      var l, rest := lines[0], lines[1..];
      assert lines == [l] + rest && l in lines;
      assert forall x | x in rest :: x in lines;
      SplitJoin(rest);
      SplitConcat(l, Join(rest));
      if rest != [] { assert Join(rest) != "" by { if Join(rest) == "" { SplitNothing(); } } }
      var t := Join(lines);
      assert Join(rest) != "" ==> t[|t| - 1] == Join(rest)[|Join(rest)| - 1];
    }
  }
}
