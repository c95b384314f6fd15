/** What a fragment hands the fold: its entries, cut at its class headings. */
module Fragments {
  import opened Wrappers
  import opened Lines
  import opened Headings
  import opened ChangelogParse
  import opened ChangelogAppend
  import opened ChangelogChecks

  /** The lines above the first class heading, and those under each. */
  datatype Fragment = Fragment(above: seq<string>, under: seq<(string, seq<string>)>)

  function Cut(lines: seq<string>): Fragment {
    if lines == [] then Fragment([], [])
    else
      var l, below := lines[0], Cut(lines[1..]);
      match Heading(l)
      case Some(name) => Fragment([], [(name, below.above)] + below.under)
      case None => Fragment([l] + below.above, below.under)
  }

  function DropBlank(lines: seq<string>): seq<string> {
    if lines != [] && AllSpace(lines[0]) then DropBlank(lines[1..]) else lines
  }

  function TrimBlank(lines: seq<string>): seq<string> {
    if lines != [] && AllSpace(lines[|lines| - 1]) then TrimBlank(lines[..|lines| - 1]) else lines
  }

  function Ended(t: string, nl: string): string {
    if t != "" && t[|t| - 1] != '\n' then t + nl else t
  }

  /** The text without its outer blank lines, ended with a line feed. */
  function Trim(text: string): string {
    Ended(Join(TrimBlank(DropBlank(Split(text)))), Newline(text))
  }

  method Trimming(text: string) returns (r: string)
    ensures r == Trim(text)
  {
    var lines := Split(text);
    while lines != [] && AllSpace(lines[0])
      invariant DropBlank(lines) == DropBlank(Split(text))
      decreases |lines|
    {
      lines := lines[1..];
    }
    while lines != [] && AllSpace(lines[|lines| - 1])
      invariant TrimBlank(lines) == TrimBlank(DropBlank(Split(text)))
      decreases |lines|
    {
      lines := lines[..|lines| - 1];
    }
    if lines != [] {
      var last := |lines| - 1;
      var a := Dropped(Split(text));
      var b := LeftOver(DropBlank(Split(text)));
      SplitNonempty(text);
      assert lines[last] in Split(text);
      LastLine(lines, Newline(text));
      if lines[last][|lines[last]| - 1] != '\n' { lines := lines[last := lines[last] + Newline(text)]; }
    }
    r := Join(lines);
  }

  lemma {:induction false} SplitNonempty(t: string)
    ensures forall l | l in Split(t) :: l != ""
    decreases |t|
  {
    if t != "" { SplitNonempty(t[FirstLine(t)..]); }
  }

  ghost predicate AllBlank(lines: seq<string>) {
    forall l | l in lines :: AllSpace(l)
  }

  lemma {:induction false} Dropped(lines: seq<string>) returns (a: seq<string>)
    ensures lines == a + DropBlank(lines) && AllBlank(a)
  {
    if lines != [] && AllSpace(lines[0]) {
      var more := Dropped(lines[1..]);
      a := [lines[0]] + more;
    } else {
      a := [];
    }
  }

  lemma {:induction false} LeftOver(lines: seq<string>) returns (b: seq<string>)
    ensures lines == TrimBlank(lines) + b && AllBlank(b)
  {
    var last := |lines| - 1;
    if lines != [] && AllSpace(lines[last]) {
      var more := LeftOver(lines[..last]);
      b := more + [lines[last]];
    } else {
      b := [];
    }
  }

  lemma LastLine(lines: seq<string>, nl: string)
    requires lines != [] && lines[|lines| - 1] != ""
    ensures var last := |lines| - 1;
      && Join(lines[last := lines[last] + nl]) == Join(lines) + nl
      && Join(lines) != "" && Join(lines)[|Join(lines)| - 1] == lines[last][|lines[last]| - 1]
  {
    hide Join;
    var last := |lines| - 1;
    var front, l := lines[..last], lines[last];
    assert lines == front + [l];
    JoinOne(front, l);
    assert lines[last := l + nl] == front + [l + nl];
    JoinOne(front, l + nl);
    AddAssociates(Join(front), l, nl);
  }

  lemma AddAssociates(a: string, b: string, c: string)
    ensures a + (b + c) == a + b + c
  {}

  lemma JoinOne(front: seq<string>, l: string)
    ensures Join(front + [l]) == Join(front) + l
  {
    JoinConcat(front, [l]);
    assert Join([l][1..]) == "";
  }

  function Entered(under: seq<(string, seq<string>)>): seq<(string, string)> {
    if under == [] then [] else [(under[0].0, Trim(Join(under[0].1)))] + Entered(under[1..])
  }

  /** What is found in the end, with some of it found and one entry being read. */
  function Finding(found: seq<(string, string)>, heading: Option<string>, body: seq<string>, below: Fragment)
    : seq<(string, string)>
  {
    found
    + (match heading case None => [] case Some(name) => [(name, Trim(Join(body + below.above)))])
    + Entered(below.under)
  }

  /** A fragment as the class and text of each entry it declares. */
  method EntriesOf(text: string) returns (found: seq<(string, string)>)
    ensures found == Entered(Cut(Split(text)).under)
  {
    hide Split, Heading, Trim, Join;
    var lines := Split(text);
    found := [];
    var heading: Option<string> := None;
    var body: seq<string> := [];
    assert lines[0..] == lines;
    for i := 0 to |lines|
      invariant Finding(found, heading, body, Cut(lines[i..])) == Entered(Cut(lines).under)
    {
      assert lines[i..][1..] == lines[i + 1..];
      var named := Heading(lines[i]);
      if named.Some? {
        CutHeading(found, heading, body, lines[i..], named.value);
        if heading.Some? {
          var entry := Trimming(Join(body));
          found := found + [(heading.value, entry)];
        } else {
          assert found + [] == found;
        }
        heading, body := named, [];
      } else {
        CutOther(found, heading, body, lines[i..]);
        if heading.Some? { body := body + [lines[i]]; }
      }
    }
    assert Cut(lines[|lines|..]) == Fragment([], []);
    assert body + [] == body;
    if heading.Some? {
      var entry := Trimming(Join(body));
      found := found + [(heading.value, entry)];
    }
  }

  /** A heading closes what was open and opens its own. */
  lemma CutHeading(found: seq<(string, string)>, heading: Option<string>, body: seq<string>, lines: seq<string>,
                   name: string)
    requires lines != [] && Heading(lines[0]) == Some(name)
    ensures var done := if heading.Some? then [(heading.value, Trim(Join(body)))] else [];
      Finding(found, heading, body, Cut(lines)) == Finding(found + done, Some(name), [], Cut(lines[1..]))
  {
    hide Trim, Join, Heading;
    var rest := Cut(lines[1..]);
    assert Cut(lines) == Fragment([], [(name, rest.above)] + rest.under);
    hide Cut;
    EnteredFirst(name, rest.above, rest.under);
    hide Entered;
    assert body + [] == body && [] + rest.above == rest.above;
    var more := [(name, Trim(Join(rest.above)))];
    if heading.Some? {
      var done := [(heading.value, Trim(Join(body)))];
      assert found + done + (more + Entered(rest.under)) == (found + done) + more + Entered(rest.under);
    } else {
      assert found + [] + (more + Entered(rest.under)) == (found + []) + more + Entered(rest.under);
    }
  }

  /** Any other line joins what is open. */
  lemma CutOther(found: seq<(string, string)>, heading: Option<string>, body: seq<string>, lines: seq<string>)
    requires lines != [] && Heading(lines[0]) == None
    ensures var body' := if heading.Some? then body + [lines[0]] else body;
      Finding(found, heading, body, Cut(lines)) == Finding(found, heading, body', Cut(lines[1..]))
  {
    hide Trim, Join, Heading;
    var rest := Cut(lines[1..]);
    assert Cut(lines) == Fragment([lines[0]] + rest.above, rest.under);
    assert body + ([lines[0]] + rest.above) == (body + [lines[0]]) + rest.above;
  }

  lemma EnteredFirst(name: string, above: seq<string>, under: seq<(string, seq<string>)>)
    ensures Entered([(name, above)] + under) == [(name, Trim(Join(above)))] + Entered(under)
  {
    assert ([(name, above)] + under)[1..] == under;
  }

  // What of a fragment comes out again

  /** Moving an entry moves its bytes: all that goes is blank lines, every one in front of
      the first line that says something and every one behind the last, and all that comes is
      a line ending where the last line has no line feed. */
  lemma TrimKeeps(text: string) returns (front: string, core: string, back: string)
    ensures text == front + core + back && AllSpace(front) && AllSpace(back)
    ensures core == "" ==> Trim(text) == ""
    ensures core != "" ==> !AllSpace(core)
    ensures core != "" ==> Trim(text) == core + if core[|core| - 1] == '\n' then "" else Newline(text)
    ensures exists a, c, b :: TrimmedTo(Split(text), a, c, b) && front == Join(a) && core == Join(c) && back == Join(b)
  {
    hide Split, AllSpace, Join, DropBlank, TrimBlank, Newline;
    var lines := Split(text);
    var a := Dropped(lines);
    var rest := DropBlank(lines);
    var b := LeftOver(rest);
    front, core, back := Join(a), Join(TrimBlank(rest)), Join(b);
    JoinSplit(text);
    JoinConcat(a, rest);
    JoinConcat(TrimBlank(rest), b);
    SpaceJoins(a);
    SpaceJoins(b);
    CoreSays(rest);
    TrimmedEnds(rest);
    DroppedFirst(lines);
    assert lines == a + TrimBlank(rest) + b;
    assert TrimmedTo(lines, a, TrimBlank(rest), b);
  }

  /** The lines without their outer blank ones. */
  ghost predicate TrimmedTo(lines: seq<string>, a: seq<string>, core: seq<string>, b: seq<string>) {
    && lines == a + core + b && AllBlank(a) && AllBlank(b)
    && (core != [] ==> !AllSpace(core[0]) && !AllSpace(core[|core| - 1]))
  }

  lemma {:induction false} DroppedFirst(lines: seq<string>)
    ensures DropBlank(lines) != [] ==> !AllSpace(DropBlank(lines)[0])
  {
    if lines != [] && AllSpace(lines[0]) { DroppedFirst(lines[1..]); }
  }

  lemma TrimmedEnds(lines: seq<string>)
    ensures var core := TrimBlank(lines);
      core != [] ==> lines != [] && core[0] == lines[0] && !AllSpace(core[|core| - 1])
  {
    TrimmedLast(lines);
    var b := LeftOver(lines);
    assert TrimBlank(lines) != [] ==> lines[0] == (TrimBlank(lines) + b)[0];
  }

  lemma {:induction false} SpaceJoins(lines: seq<string>)
    requires AllBlank(lines)
    ensures AllSpace(Join(lines))
  {
    if lines != [] {
      assert lines == [lines[0]] + lines[1..];
      SpaceJoins(lines[1..]);
      assert AllSpace(lines[0]);
    }
  }

  lemma CoreSays(lines: seq<string>)
    ensures Join(TrimBlank(lines)) != "" ==> !AllSpace(Join(TrimBlank(lines)))
  {
    TrimmedLast(lines);
    var core := TrimBlank(lines);
    if core != [] {
      var last := |core| - 1;
      assert core == core[..last] + [core[last]];
      JoinConcat(core[..last], [core[last]]);
      assert Join([core[last]][1..]) == "";
      var c :| c in core[last] && !IsSpace(c);
      assert c in Join(core);
    }
  }

  lemma {:induction false} TrimmedLast(lines: seq<string>)
    ensures var core := TrimBlank(lines); core != [] ==> !AllSpace(core[|core| - 1])
  {
    var last := |lines| - 1;
    if lines != [] && AllSpace(lines[last]) { TrimmedLast(lines[..last]); }
  }

  // What a fragment's entries are cut from

  /** Where a heading stands. */
  function Heads(lines: seq<string>): seq<nat> {
    if lines == [] then []
    else
      var last := |lines| - 1;
      Heads(lines[..last]) + if Heading(lines[last]).Some? then [last] else []
  }

  lemma {:induction false} HeadsExactly(lines: seq<string>)
    ensures forall i: nat :: i in Heads(lines) <==> i < |lines| && Heading(lines[i]).Some?
    ensures forall k, m | 0 <= k < m < |Heads(lines)| :: Heads(lines)[k] < Heads(lines)[m]
  {
    hide Heading;
    if lines != [] {
      var last := |lines| - 1;
      HeadsExactly(lines[..last]);
      var h := Heads(lines[..last]);
      assert forall k | 0 <= k < |h| :: h[k] in h;
    }
  }

  /** The entry of each heading, first to last, is the lines behind it up to the next one;
      above them all are the lines up to the first. */
  ghost predicate CutAt(f: Fragment, lines: seq<string>, heads: seq<nat>) {
    && (heads != [] ==> heads[0] < |lines|)
    && f.above == (if heads == [] then lines else lines[..heads[0]])
    && EntriesAt(f.under, lines, heads)
  }

  ghost predicate EntriesAt(under: seq<(string, seq<string>)>, lines: seq<string>, heads: seq<nat>) {
    |under| == |heads| && forall k | 0 <= k < |heads| :: EntryAt(under[k], lines, heads[k], Next(heads, k, |lines|))
  }

  function Next(heads: seq<nat>, k: nat, end: nat): nat { if k + 1 < |heads| then heads[k + 1] else end }

  ghost predicate EntryAt(entry: (string, seq<string>), lines: seq<string>, head: nat, next: nat) {
    && head < next <= |lines|
    && Some(entry.0) == Heading(lines[head]) && entry.1 == lines[head + 1..next]
  }

  lemma EntryOn(entry: (string, seq<string>), l: string, lines: seq<string>, head: nat, next: nat)
    requires EntryAt(entry, lines, head, next)
    ensures EntryAt(entry, [l] + lines, head + 1, next + 1)
  {
    hide Heading;
    assert ([l] + lines)[head + 1] == lines[head];
    assert ([l] + lines)[head + 2..next + 1] == lines[head + 1..next];
  }

  lemma HeadsFirst(l: string, lines: seq<string>)
    ensures var h := Heads([l] + lines);
      h == (if Heading(l).Some? then [0] else []) + Later(Heads(lines))
  {
    hide Heading;
    HeadsExactly(lines);
    HeadsExactly([l] + lines);
    SameHeads(l, lines, lines);
  }

  function Later(heads: seq<nat>): seq<nat> { seq(|heads|, i requires 0 <= i < |heads| => heads[i] + 1) }

  lemma {:induction false} SameHeads(l: string, lines: seq<string>, all: seq<string>)
    requires lines <= all
    ensures Heads([l] + lines) == (if Heading(l).Some? then [0] else []) + Later(Heads(lines))
    decreases |lines|
  {
    hide Heading;
    if lines == [] {
      assert [l] + lines == [l] && [l][..0] == [] && Heads([]) == [];
    } else {
      var last := |lines| - 1;
      SameHeads(l, lines[..last], all);
      assert ([l] + lines)[..|lines|] == [l] + lines[..last];
    }
  }

  /** A fragment is cut at its class headings and nowhere else. */
  lemma {:induction false} CutExactly(lines: seq<string>)
    ensures CutAt(Cut(lines), lines, Heads(lines))
  {
    hide Heading;
    if lines != [] {
      var l, rest := lines[0], lines[1..];
      assert lines == [l] + rest;
      CutExactly(rest);
      HeadsFirst(l, rest);
      CutMore(l, rest);
    }
  }

  lemma LaterAt(heads: seq<nat>, k: nat, end: nat)
    requires k < |heads|
    ensures |Later(heads)| == |heads| && Later(heads)[k] == heads[k] + 1
    ensures Next(Later(heads), k, end + 1) == Next(heads, k, end) + 1
  {}

  lemma EntriesOn(under: seq<(string, seq<string>)>, l: string, lines: seq<string>, heads: seq<nat>)
    requires EntriesAt(under, lines, heads)
    ensures EntriesAt(under, [l] + lines, Later(heads))
  {
    hide EntryAt, Next, Later;
    if heads == [] { NoneLater(); } else { LaterAt(heads, 0, |lines|); }
    var all := [l] + lines;
    assert |all| == |lines| + 1;
    forall k | 0 <= k < |heads| ensures EntryAt(under[k], all, Later(heads)[k], Next(Later(heads), k, |all|)) {
      LaterAt(heads, k, |lines|);
      EntryOn(under[k], l, lines, heads[k], Next(heads, k, |lines|));
    }
  }

  lemma NoneLater()
    ensures Later([]) == []
  {}

  lemma EntriesMore(first: (string, seq<string>), under: seq<(string, seq<string>)>, lines: seq<string>, h: seq<nat>)
    requires EntriesAt(under, lines, h) && EntryAt(first, lines, 0, if h == [] then |lines| else h[0])
    ensures EntriesAt([first] + under, lines, [0] + h)
  {
    hide EntryAt;
    var all, g := [first] + under, [0] + h;
    forall k | 0 <= k < |g| ensures EntryAt(all[k], lines, g[k], Next(g, k, |lines|)) {
      if k > 0 {
        assert all[k] == under[k - 1] && g[k] == h[k - 1] && Next(g, k, |lines|) == Next(h, k - 1, |lines|);
      }
    }
  }

  lemma CutMore(l: string, rest: seq<string>)
    requires CutAt(Cut(rest), rest, Heads(rest))
    requires Heads([l] + rest) == (if Heading(l).Some? then [0] else []) + Later(Heads(rest))
    ensures CutAt(Cut([l] + rest), [l] + rest, Heads([l] + rest))
  {
    hide Heading, Heads, EntriesAt, Later, EntryAt, Cut;
    var lines, below, h := [l] + rest, Cut(rest), Later(Heads(rest));
    EntriesOn(below.under, l, rest, Heads(rest));
    if Heads(rest) == [] { NoneLater(); } else { LaterAt(Heads(rest), 0, |rest|); }
    CutFirst(l, rest);
    if Heading(l).Some? {
      var first := (Heading(l).value, below.above);
      FirstEntry(l, rest, first, if h == [] then |lines| else h[0]);
      EntriesMore(first, below.under, lines, h);
    } else {
      assert [] + h == h;
      if h != [] { assert lines[..h[0]] == [l] + rest[..h[0] - 1]; }
    }
  }

  lemma FirstEntry(l: string, rest: seq<string>, first: (string, seq<string>), next: nat)
    requires Heading(l) == Some(first.0) && 0 < next <= |rest| + 1 && first.1 == rest[..next - 1]
    ensures EntryAt(first, [l] + rest, 0, next)
  {
    hide Heading;
    assert ([l] + rest)[1..next] == rest[..next - 1];
  }

  lemma CutFirst(l: string, rest: seq<string>)
    ensures var below := Cut(rest);
      Cut([l] + rest) == match Heading(l)
        case Some(name) => Fragment([], [(name, below.above)] + below.under)
        case None => Fragment([l] + below.above, below.under)
  {
    hide Heading;
    assert ([l] + rest)[1..] == rest;
  }

  // When an entry is one

  /** No line is read as a heading of either kind. */
  ghost predicate Quiet(lines: seq<string>) {
    forall l | l in lines :: !IsSection(l) && Heading(l) == None
  }

  lemma QuietConcat(a: seq<string>, b: seq<string>)
    ensures Quiet(a + b) <==> Quiet(a) && Quiet(b)
  {
    hide IsSection, Heading;
    assert (forall l | l in a :: l in a + b) && (forall l | l in b :: l in a + b);
  }

  lemma {:induction false} QuietNames(lines: seq<string>)
    ensures Quiet(lines) <==> NoSection(lines) && Names(lines) == []
  {
    hide IsSection, Heading;
    if lines != [] {
      assert lines == [lines[0]] + lines[1..];
      QuietConcat([lines[0]], lines[1..]);
      QuietNames(lines[1..]);
    }
  }

  lemma {:induction false} FirstLinePlus(t: string, c: char)
    requires t != ""
    ensures FirstLine(t) < |t| ==> FirstLine(t + [c]) == FirstLine(t)
    ensures FirstLine(t) == |t| ==> |t| <= FirstLine(t + [c]) <= |t| + 1
  {
    if !IsBreak(t[0]) {
      assert (t + [c])[1..] == t[1..] + [c];
      if |t| > 1 { FirstLinePlus(t[1..], c); } else { assert t[1..] + [c] == [c]; }
    }
  }

  lemma SplitWhole(t: string)
    requires t != "" && FirstLine(t) == |t|
    ensures Split(t) == [t]
  {
    hide Split, FirstLine;
    SplitFirst(t);
    SplitNothing();
    assert t[..|t|] == t && t[|t|..] == "";
  }

  /** One more character makes a line of its own, or joins the last. */
  lemma {:induction false} SplitPlus(t: string, c: char)
    requires t != ""
    ensures var lines, more := Split(t), Split(t + [c]);
      && lines != []
      && (more == lines + [[c]] || more == lines[..|lines| - 1] + [lines[|lines| - 1] + [c]])
    decreases |t|
  {
    hide Split, FirstLine;
    var n, u := FirstLine(t), t + [c];
    FirstLinePlus(t, c);
    SplitFirst(t);
    SplitFirst(u);
    if n < |t| {
      assert u[..n] == t[..n] && u[n..] == t[n..] + [c];
      SplitPlus(t[n..], c);
    } else {
      SplitWhole(t);
      if FirstLine(u) == n {
        assert u[..n] == t && u[n..] == [c];
        SplitWhole([c]);
      } else {
        SplitWhole(u);
      }
    }
  }

  /** Every line, read without its ending, is as `p` says. */
  ghost predicate Each(lines: seq<string>, p: string -> bool) {
    forall l | l in lines :: p(Bare(l))
  }

  function NoHeading(): string -> bool {
    (s: string) => !Opens(s, 2) && !Opens(s, 3)
  }

  lemma QuietIsEach(lines: seq<string>)
    ensures Quiet(lines) <==> Each(lines, NoHeading())
  {
    hide Bare, Opens, Title;
  }

  lemma EachConcat(a: seq<string>, b: seq<string>, p: string -> bool)
    ensures Each(a + b, p) <==> Each(a, p) && Each(b, p)
  {
    hide Bare;
    assert (forall l | l in a :: l in a + b) && (forall l | l in b :: l in a + b);
  }

  lemma EachBreak(l: string, c: char, p: string -> bool)
    requires (c == '\r' || c == '\n') && p("")
    ensures Each([l + [c]], p) <==> Each([l], p)
    ensures Each([[c]], p)
  {
    BareOne(l, c);
    BareOne("", c);
    assert "" + [c] == [c];
    assert l in [l] && l + [c] in [l + [c]];
  }

  lemma EachPlus(t: string, c: char, p: string -> bool)
    requires t != "" && (c == '\r' || c == '\n') && p("")
    ensures Each(Split(t + [c]), p) <==> Each(Split(t), p)
  {
    hide Split, Each;
    SplitPlus(t, c);
    var lines := Split(t);
    var front, last := lines[..|lines| - 1], lines[|lines| - 1];
    assert lines == front + [last];
    EachBreak(last, c, p);
    EachConcat(front, [last], p);
    EachConcat(front, [last + [c]], p);
    EachConcat(lines, [[c]], p);
  }

  lemma EachEnded(t: string, nl: string, p: string -> bool)
    requires IsEnding(nl) && p("")
    ensures Each(Split(Ended(t, nl)), p) <==> Each(Split(t), p)
    ensures Complete(Ended(t, nl))
  {
    hide Each, Split;
    if t != "" {
      EachPlus(t, '\n', p);
      EachPlus(t, '\r', p);
      EachPlus(t + ['\r'], '\n', p);
      assert t + "\r\n" == t + ['\r'] + ['\n'];
    }
  }

  /** Lines that splitting their own text gives back. */
  ghost predicate Whole(lines: seq<string>) { Split(Join(lines)) == lines }

  lemma WholeTail(lines: seq<string>)
    requires Whole(lines) && lines != []
    ensures lines[0] != "" && FirstLine(Join(lines)) == |lines[0]| && Whole(lines[1..])
  {
    var t := Join(lines);
    assert Split(t) == [t[..FirstLine(t)]] + Split(t[FirstLine(t)..]);
    assert t[FirstLine(t)..] == Join(lines[1..]);
  }

  lemma {:induction false} WholeBack(a: seq<string>, b: seq<string>)
    requires Whole(a + b)
    ensures Whole(b)
  {
    if a == [] {
      assert a + b == b;
    } else {
      WholeTail(a + b);
      assert (a + b)[1..] == a[1..] + b;
      WholeBack(a[1..], b);
    }
  }

  lemma {:induction false} WholeFront(a: seq<string>, b: seq<string>)
    requires Whole(a + b)
    ensures Whole(a)
  {
    if a != [] {
      WholeTail(a + b);
      assert (a + b)[1..] == a[1..] + b;
      WholeFront(a[1..], b);
      JoinConcat(a, b);
      FirstLineCut(Join(a), Join(b));
      var t := Join(a);
      assert t[..|a[0]|] == a[0] && t[|a[0]|..] == Join(a[1..]);
    }
  }

  lemma BlanksAreQuiet()
    ensures forall l | AllSpace(l) :: NoHeading()(Bare(l))
  {
    forall l | AllSpace(l) ensures NoHeading()(Bare(l)) {
      BareTrims(l);
      assert Bare(l) != "" ==> Bare(l)[0] == l[0] && l[0] in l;
    }
  }

  lemma NothingIsBlank()
    ensures AllSpace("") && Bare("") == ""
  {}

  /** What the lines of an entry are like before it is trimmed, they are like after, where
      blank lines are like that too. */
  lemma TrimmedLines(lines: seq<string>, p: string -> bool)
    requires Whole(lines) && forall l | AllSpace(l) :: p(Bare(l))
    ensures Each(Split(Trim(Join(lines))), p) <==> Each(lines, p)
    ensures Complete(Trim(Join(lines)))
  {
    hide Split, Bare, AllSpace, Join, DropBlank, TrimBlank, Newline, Complete, Ended;
    assert p("") by { NothingIsBlank(); }
    var text := Join(lines);
    var a := Dropped(lines);
    var rest := DropBlank(lines);
    var b := LeftOver(rest);
    var core := TrimBlank(rest);
    WholeBack(a, rest);
    WholeFront(core, b);
    EachConcat(a, rest, p);
    EachConcat(core, b, p);
    EachEnded(Join(core), Newline(text), p);
  }

  /** An entry is one the fold can place exactly when it says something and none of the
      lines it was read from is a heading. */
  lemma EntryExactly(lines: seq<string>)
    requires Whole(lines)
    ensures IsEntry(Trim(Join(lines))) <==> Trim(Join(lines)) != "" && Quiet(lines)
  {
    hide Split, Bare, AllSpace, Join, Trim, Complete, Opens, Each, Quiet;
    BlanksAreQuiet();
    TrimmedLines(lines, NoHeading());
    QuietIsEach(lines);
    QuietIsEach(Split(Trim(Join(lines))));
    QuietNames(Split(Trim(Join(lines))));
  }

  lemma {:induction false} AboveFirst(lines: seq<string>) returns (rest: seq<string>)
    ensures lines == Cut(lines).above + rest && forall l | l in Cut(lines).above :: Heading(l) == None
  {
    hide Heading;
    if lines != [] && Heading(lines[0]) == None {
      rest := AboveFirst(lines[1..]);
    } else {
      rest := lines;
    }
  }

  lemma {:induction false} CutWhole(lines: seq<string>)
    requires Whole(lines)
    ensures forall p | p in Cut(lines).under :: Whole(p.1) && forall l | l in p.1 :: Heading(l) == None
    ensures forall p, l | p in Cut(lines).under && l in p.1 :: l in lines
  {
    hide Heading, Whole;
    if lines != [] {
      WholeTail(lines);
      CutWhole(lines[1..]);
      var below := Cut(lines[1..]);
      var rest := AboveFirst(lines[1..]);
      WholeFront(below.above, rest);
      assert lines == [lines[0]] + lines[1..];
      forall p, l | p in Cut(lines).under && l in p.1 ensures l in lines {
        assert p in below.under || p.1 == below.above;
        assert l in lines[1..];
      }
    }
  }

  /** The fragment check leaves one thing open: a line of two hashes and nothing but
      space after them passes it and is a section heading to the fold. Every entry of a
      fragment that passed is one the fold can place, but for those that are empty and
      those with such a line. */
  lemma CheckedEntriesExactly(text: string, name: string, lines: seq<string>)
    requires (forall l | l in Split(text) :: !IsTopHeading(l)) && (name, lines) in Cut(Split(text)).under
    ensures IsEntry(Trim(Join(lines))) <==>
      Trim(Join(lines)) != "" && forall l | l in lines :: !(IsSection(l) && AllSpace(Bare(l)[2..]))
  {
    hide IsEntry, Trim, Heading, AllSpace, Bare, Join;
    CheckedLines(text, name, lines);
    EntryExactly(lines);
  }

  lemma CheckedLines(text: string, name: string, lines: seq<string>)
    requires (forall l | l in Split(text) :: !IsTopHeading(l)) && (name, lines) in Cut(Split(text)).under
    ensures Whole(lines)
    ensures forall l | l in lines :: Heading(l) == None && (IsSection(l) ==> AllSpace(Bare(l)[2..]))
  {
    hide IsTopHeading, Split, Cut, Heading, AllSpace, Bare, Join;
    JoinSplit(text);
    assert Whole(Split(text));
    CutWhole(Split(text));
    assert (name, lines).1 == lines;
    forall l | l in lines ensures IsSection(l) ==> AllSpace(Bare(l)[2..]) {
      if IsSection(l) { CheckMissesExactly(l); }
    }
  }

  /** No class heading, and no section heading but with nothing after its hashes. */
  function OnlyBareSections(): string -> bool {
    (s: string) => !Opens(s, 3) && (Opens(s, 2) ==> AllSpace(s[2..]))
  }

  lemma BareSections(lines: seq<string>)
    ensures Each(lines, OnlyBareSections()) <==>
      forall l | l in lines :: Heading(l) == None && (IsSection(l) ==> AllSpace(Bare(l)[2..]))
  {
    hide Bare, Opens, Title, AllSpace;
  }

  /** So where such an entry says something and still cannot be placed, one of its own
      lines is two hashes and space. */
  lemma UnplacedHasHashes(text: string, name: string, lines: seq<string>) returns (l: string)
    requires (forall l | l in Split(text) :: !IsTopHeading(l)) && (name, lines) in Cut(Split(text)).under
    requires Trim(Join(lines)) != "" && !IsEntry(Trim(Join(lines)))
    ensures l in Split(Trim(Join(lines))) && IsSection(l) && AllSpace(Bare(l)[2..])
  {
    hide IsTopHeading, Split, Cut, Heading, AllSpace, Bare, Join, Trim, Opens, Whole, Each, Complete, IsSection;
    var e := Trim(Join(lines));
    CheckedLines(text, name, lines);
    BareSections(lines);
    assert forall l | AllSpace(l) :: OnlyBareSections()(Bare(l)) by { BlanksAreQuiet(); }
    TrimmedLines(lines, OnlyBareSections());
    BareSections(Split(e));
    QuietNames(Split(e));
    l :| l in Split(e) && !(!IsSection(l) && Heading(l) == None);
  }
}
