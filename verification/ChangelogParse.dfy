/**
  The permissive parser and its printer: a preamble, then sections opened by any
  `##` heading, each held as raw lines.
*/
module ChangelogParse {
  import opened Wrappers
  import opened Lines
  import opened Headings

  /** A section as it is held: its heading line, and its body in pieces, which are
      lines when it was parsed and may be whole entries once it was folded into. */
  datatype Section = Section(heading: string, body: seq<string>)

  function SectionText(s: Section): string {
    s.heading + Join(s.body)
  }

  function SectionsText(ss: seq<Section>): string {
    if ss == [] then "" else SectionText(ss[0]) + SectionsText(ss[1..])
  }

  datatype Parsed = Parsed(preamble: seq<string>, sections: seq<Section>)

  /** What every line belongs to: the section opened last above it, or the preamble
      above them all. */
  function Group(lines: seq<string>): Parsed {
    if lines == [] then Parsed([], [])
    else
      var l, below := lines[0], Group(lines[1..]);
      if IsSection(l) then Parsed([], [Section(l, below.preamble)] + below.sections)
      else Parsed([l] + below.preamble, below.sections)
  }

  function Print(p: Parsed): string {
    Join(p.preamble) + SectionsText(p.sections)
  }

  lemma {:induction false} PrintGroup(lines: seq<string>)
    ensures Print(Group(lines)) == Join(lines)
  {
    if lines != [] {
      PrintGroup(lines[1..]);
      var below := Group(lines[1..]);
      if IsSection(lines[0]) {
        assert ([Section(lines[0], below.preamble)] + below.sections)[1..] == below.sections;
      } else {
        assert ([lines[0]] + below.preamble)[1..] == below.preamble;
      }
    }
  }

  /** Reading on by one line: it opens a section, or joins the last one open. */
  function Onto(p: Parsed, l: string): Parsed {
    if IsSection(l) then p.(sections := p.sections + [Section(l, [])])
    else if p.sections == [] then p.(preamble := p.preamble + [l])
    else
      var last := |p.sections| - 1;
      p.(sections := p.sections[last := p.sections[last].(body := p.sections[last].body + [l])])
  }

  lemma {:induction false} GroupOnto(lines: seq<string>, l: string)
    ensures Group(lines + [l]) == Onto(Group(lines), l)
  {
    if lines == [] {
      assert lines + [l] == [l];
    } else {
      assert (lines + [l])[1..] == lines[1..] + [l];
      GroupOnto(lines[1..], l);
    }
  }

  /** The parser's loop. Printing what it returns gives the text back, whatever the
      text is. */
  method Parse(text: string) returns (p: Parsed)
    ensures p == Group(Split(text))
    ensures Print(p) == text
  {
    var lines := Split(text);
    p := Parsed([], []);
    for i := 0 to |lines|
      invariant p == Group(lines[..i])
    {
      GroupOnto(lines[..i], lines[i]);
      assert lines[..i + 1] == lines[..i] + [lines[i]];
      if IsSection(lines[i]) {
        p := p.(sections := p.sections + [Section(lines[i], [])]);
      } else if p.sections != [] {
        var last := |p.sections| - 1;
        p := p.(sections := p.sections[last := p.sections[last].(body := p.sections[last].body + [lines[i]])]);
      } else {
        p := p.(preamble := p.preamble + [lines[i]]);
      }
    }
    assert lines[..|lines|] == lines;
    PrintGroup(lines);
    JoinSplit(text);
  }

  // What a text says, however its lines are cut

  /** A section as a reader sees it: its date, its text, its class headings. */
  datatype Seen = Seen(date: Option<string>, text: string, names: seq<string>)

  /** `text` and `names` are what stands above the first section. */
  datatype Outline = Outline(text: string, names: seq<string>, sections: seq<Seen>)

  const NOTHING := Outline("", [], [])

  function NameOf(l: string): seq<string> {
    match Heading(l) case None => [] case Some(name) => [name]
  }

  function Above(l: string, below: Outline): Outline {
    if IsSection(l) then Outline("", [], [Seen(DateOf(l), l + below.text, below.names)] + below.sections)
    else Outline(l + below.text, NameOf(l) + below.names, below.sections)
  }

  function AllAbove(lines: seq<string>, below: Outline): Outline {
    if lines == [] then below else Above(lines[0], AllAbove(lines[1..], below))
  }

  function OutlineOf(text: string): Outline {
    AllAbove(Split(text), NOTHING)
  }

  function Names(pieces: seq<string>): seq<string> {
    if pieces == [] then [] else NameOf(pieces[0]) + Names(pieces[1..])
  }

  function See(s: Section): Seen {
    Seen(DateOf(s.heading), SectionText(s), Names(s.body))
  }

  function SeeAll(ss: seq<Section>): seq<Seen> {
    if ss == [] then [] else [See(ss[0])] + SeeAll(ss[1..])
  }

  /** The outline is what the parser finds, seen from outside. */
  lemma {:induction false} OutlineIsParse(lines: seq<string>)
    ensures var p := Group(lines);
      AllAbove(lines, NOTHING) == Outline(Join(p.preamble), Names(p.preamble), SeeAll(p.sections))
  {
    if lines != [] {
      OutlineIsParse(lines[1..]);
      var below := Group(lines[1..]);
      if IsSection(lines[0]) {
        assert ([Section(lines[0], below.preamble)] + below.sections)[1..] == below.sections;
      } else {
        assert ([lines[0]] + below.preamble)[1..] == below.preamble;
      }
    }
  }

  lemma {:induction false} AllAboveConcat(a: seq<string>, b: seq<string>, below: Outline)
    ensures AllAbove(a + b, below) == AllAbove(a, AllAbove(b, below))
  {
    if a == [] {
      assert a + b == b;
    } else {
      assert (a + b)[1..] == a[1..] + b;
      AllAboveConcat(a[1..], b, below);
    }
  }

  /** A line feed pulled onto the end of the line above it changes nothing. */
  lemma FeedJoins(l: string, below: Outline)
    ensures Above(l + "\n", below) == Above(l, Above("\n", below))
  {
    BareFeed(l);
    BareOne("", '\n');
    assert "" + "\n" == "\n" && Bare("\n") == "";
    assert Above("\n", below) == Outline("\n" + below.text, below.names, below.sections) by {
      assert [] + below.names == below.names;
    }
    assert l + ("\n" + below.text) == l + "\n" + below.text;
  }

  lemma AllAboveOne(l: string, lines: seq<string>, below: Outline)
    ensures AllAbove([l] + lines, below) == Above(l, AllAbove(lines, below))
  {
    assert ([l] + lines)[1..] == lines;
  }

  lemma AllAboveLast(front: seq<string>, l: string, below: Outline)
    ensures AllAbove(front + [l], below) == AllAbove(front, Above(l, below))
  {
    AllAboveConcat(front, [l], below);
    AllAboveOne(l, [], below);
    assert [l] + [] == [l];
  }

  /** Complete text is read the same in front of other text as alone. */
  lemma OutlineConcat(a: string, b: string)
    requires Complete(a)
    ensures OutlineOf(a + b) == AllAbove(Split(a), OutlineOf(b))
  {
    hide Split, Above, AllAbove;
    SplitConcat(a, b);
    var front, back := Split(a), Split(b);
    if Seam(a, b) {
      var last := |front| - 1;
      var lead, l := front[..last], front[last];
      var rest := AllAbove(back[1..], NOTHING);
      AllAboveConcat(lead + [l + "\n"], back[1..], NOTHING);
      AllAboveLast(lead, l + "\n", rest);
      FeedJoins(l, rest);
      assert ["\n"] + back[1..] == back && lead + [l] == front;
      AllAboveOne("\n", back[1..], NOTHING);
      AllAboveLast(lead, l, OutlineOf(b));
    } else {
      AllAboveConcat(front, back, NOTHING);
    }
  }

  /** Pieces with no section heading in any of their lines. */
  ghost predicate Plain(piece: string) {
    Complete(piece) && forall l | l in Split(piece) :: !IsSection(l)
  }

  lemma PlainFirst(l: string, below: Outline)
    requires !IsSection(l)
    ensures Above(l, below) == Outline(l + below.text, NameOf(l) + below.names, below.sections)
  {}

  lemma {:induction false} PlainLines(lines: seq<string>, below: Outline)
    requires forall l | l in lines :: !IsSection(l)
    ensures AllAbove(lines, below) == Outline(Join(lines) + below.text, Names(lines) + below.names, below.sections)
  {
    hide IsSection, NameOf, Above;
    if lines != [] {
      var rest := lines[1..];
      assert lines[0] in lines;
      assert forall l | l in rest :: l in lines;
      PlainLines(rest, below);
      PlainFirst(lines[0], AllAbove(rest, below));
      assert lines[0] + (Join(rest) + below.text) == Join(lines) + below.text;
      assert NameOf(lines[0]) + (Names(rest) + below.names) == Names(lines) + below.names;
    }
  }

  /** The class headings of pieces, read line by line. */
  function PieceNames(pieces: seq<string>): seq<string> {
    if pieces == [] then [] else Names(Split(pieces[0])) + PieceNames(pieces[1..])
  }

  lemma {:induction false} PlainPieces(pieces: seq<string>, rest: string)
    requires forall x | x in pieces :: Plain(x)
    ensures OutlineOf(Join(pieces) + rest) ==
      var below := OutlineOf(rest);
      Outline(Join(pieces) + below.text, PieceNames(pieces) + below.names, below.sections)
  {
    hide OutlineOf, Split, Names, Plain;
    if pieces == [] {
      assert Join(pieces) + rest == rest;
    } else {
      var more := pieces[1..];
      assert pieces[0] in pieces;
      assert forall x | x in more :: x in pieces;
      PlainPieces(more, rest);
      PlainPiece(pieces[0], Join(more) + rest);
      assert Join(pieces) + rest == pieces[0] + (Join(more) + rest);
      PieceFirst(pieces, OutlineOf(rest));
    }
  }

  lemma PieceFirst(pieces: seq<string>, o: Outline)
    requires pieces != []
    ensures pieces[0] + (Join(pieces[1..]) + o.text) == Join(pieces) + o.text
    ensures Names(Split(pieces[0])) + (PieceNames(pieces[1..]) + o.names) == PieceNames(pieces) + o.names
  {}

  lemma PlainPiece(piece: string, rest: string)
    requires Plain(piece)
    ensures OutlineOf(piece + rest) ==
      var below := OutlineOf(rest);
      Outline(piece + below.text, Names(Split(piece)) + below.names, below.sections)
  {
    OutlineConcat(piece, rest);
    PlainLines(Split(piece), OutlineOf(rest));
    JoinSplit(piece);
  }

  /** A section as it is held, ready to be written among others. */
  ghost predicate Writable(s: Section) {
    && Split(s.heading) == [s.heading] && Complete(s.heading) && IsSection(s.heading)
    && forall x | x in s.body :: Plain(x)
  }

  function SeenWritten(s: Section): Seen {
    Seen(DateOf(s.heading), SectionText(s), PieceNames(s.body))
  }

  function SeenAll(ss: seq<Section>): seq<Seen> {
    if ss == [] then [] else [SeenWritten(ss[0])] + SeenAll(ss[1..])
  }

  lemma {:induction false} WrittenSections(ss: seq<Section>)
    requires forall s | s in ss :: Writable(s)
    ensures OutlineOf(SectionsText(ss)) == Outline("", [], SeenAll(ss))
  {
    hide OutlineOf, Writable, SeenWritten, SectionText;
    if ss == [] {
      OutlineNothing();
    } else {
      var s, more := ss[0], ss[1..];
      assert s in ss;
      assert forall x | x in more :: x in ss;
      WrittenSections(more);
      WrittenSection(s, SectionsText(more));
      SectionFirst(ss);
    }
  }

  lemma OutlineNothing()
    ensures OutlineOf("") == NOTHING
  {}

  lemma SectionFirst(ss: seq<Section>)
    requires ss != []
    ensures SectionsText(ss) == ss[0].heading + (Join(ss[0].body) + SectionsText(ss[1..]))
  {}

  lemma WrittenSection(s: Section, rest: string)
    requires Writable(s) && OutlineOf(rest).text == "" && OutlineOf(rest).names == []
    ensures OutlineOf(s.heading + (Join(s.body) + rest)) == Outline("", [], [SeenWritten(s)] + OutlineOf(rest).sections)
  {
    var tail := Join(s.body) + rest;
    OutlineConcat(s.heading, tail);
    PlainPieces(s.body, rest);
    hide OutlineOf, Split;
    assert Join(s.body) + "" == Join(s.body);
    assert PieceNames(s.body) + [] == PieceNames(s.body);
    assert AllAbove([s.heading], OutlineOf(tail)) == Above(s.heading, OutlineOf(tail));
  }

  /** Whatever is held in writable sections, written out and parsed again, is what
      was held: the same dates, the same texts, the same class headings. */
  lemma WrittenReadsBack(preamble: seq<string>, ss: seq<Section>)
    requires (forall x | x in preamble :: Plain(x)) && (forall s | s in ss :: Writable(s))
    ensures OutlineOf(Join(preamble) + SectionsText(ss)) ==
      Outline(Join(preamble), PieceNames(preamble), SeenAll(ss))
  {
    WrittenSections(ss);
    PlainPieces(preamble, SectionsText(ss));
    assert Join(preamble) + "" == Join(preamble);
  }
}
