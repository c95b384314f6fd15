/**
  What comes of a section heading the fold did not mean: one inside an entry, which gets
  past the check of fragments, and one without a date in the changelog.
*/
module ChangelogHashes {
  import opened Wrappers
  import opened Lines
  import opened Headings
  import opened ChangelogParse
  import opened ChangelogAppend
  import opened ChangelogFold
  import opened ChangelogChecks
  import opened ChangelogTwins
  import opened ChangelogRefused
  import opened Fragments

  /** Lines that open a section with no date. */
  function Undated(lines: seq<string>): nat {
    if lines == [] then 0
    else (if IsSection(lines[0]) && DateOf(lines[0]) == None then 1 else 0) + Undated(lines[1..])
  }

  function UndatedSeen(ss: seq<Seen>): nat {
    if ss == [] then 0 else (if ss[0].date == None then 1 else 0) + UndatedSeen(ss[1..])
  }

  function UndatedIn(): string -> nat {
    (p: string) => Undated(Split(p))
  }

  lemma {:induction false} UndatedAbove(lines: seq<string>, below: Outline)
    ensures UndatedSeen(AllAbove(lines, below).sections) == Undated(lines) + UndatedSeen(below.sections)
  {
    hide IsSection, DateOf, NameOf;
    if lines != [] {
      UndatedAbove(lines[1..], below);
      var o := AllAbove(lines, below);
      if IsSection(lines[0]) { assert o.sections[1..] == AllAbove(lines[1..], below).sections; }
    }
  }

  ghost predicate AllComplete(pieces: seq<string>) {
    forall p | p in pieces :: Complete(p)
  }

  /** Complete pieces, written one after another, read as holding the undated sections of
      each. */
  lemma {:induction false} UndatedPieces(pieces: seq<string>)
    requires AllComplete(pieces)
    ensures UndatedSeen(OutlineOf(Join(pieces)).sections) == Sum(UndatedIn(), pieces)
  {
    hide AllAbove, Split, Complete, Undated, UndatedSeen;
    if pieces == [] {
      NothingSeen();
    } else {
      var rest := pieces[1..];
      assert pieces[0] in pieces && forall p | p in rest :: p in pieces;
      UndatedPieces(rest);
      OutlineConcat(pieces[0], Join(rest));
      UndatedAbove(Split(pieces[0]), OutlineOf(Join(rest)));
    }
  }

  lemma NothingSeen()
    ensures UndatedSeen(OutlineOf("").sections) == 0
  {}

  lemma {:induction false} UndatedStay(ss: seq<Seen>, touched: set<string>)
    ensures UndatedSeen(ss) == NoneIn(Untouched(ss, touched))
  {
    if ss != [] {
      UndatedStay(ss[1..], touched);
      var all := Untouched(ss, touched);
      if Touched(ss[0].date, touched) {
        assert all == Untouched(ss[1..], touched);
      } else {
        assert all[1..] == Untouched(ss[1..], touched);
      }
    }
  }

  function NoneIn(kept: seq<(Option<string>, string)>): nat {
    if kept == [] then 0 else (if kept[0].0 == None then 1 else 0) + NoneIn(kept[1..])
  }

  // Folds of entries that end their lines, whatever the lines are

  ghost predicate LooselyReady(text: string, folding: Folding, dates: seq<string>) {
    && Complete(text) && (forall d | d in dates :: d in folding && IsDate(d) && AllAre(folding[d], Complete))
  }

  lemma MadeUpComplete(dates: seq<string>, nl: string)
    requires IsEnding(nl)
    ensures Weightless(Fails(Complete), dates, nl)
  {
    forall x: string ensures Complete(x + nl) {}
    assert "" + nl == nl;
  }

  /** Whatever stands in the changelog: an entry with an undated section heading among its
      lines makes the fold refuse its own output, which holds one section more that nobody
      meant to touch. */
  lemma HashesRefused(text: string, folding: Folding, dates: seq<string>, date: string, name: string, e: string,
                      l: string, touched: set<string>)
    requires LooselyReady(text, folding, dates)
    requires date in dates && name in CLASSES && name in folding[date] && e in folding[date][name]
    requires l in Split(e) && IsSection(l) && DateOf(l) == None
    ensures OutsideMoved(OutlineOf(text), OutlineOf(After(text, folding, dates)), touched)
  {
    hide Split, AfterPieces, After, Sum, Complete, IsDate, Newline, FoldingSum, AllAbove, Undated, UndatedSeen,
         Untouched, IsSection, DateOf, Weightless;
    var w := UndatedIn();
    AfterSum(w, text, folding, dates);
    FoldingMember(w, dates, folding, date, name, e);
    UndatedMember(Split(e), l);
    JoinSplit(text);
    SplitComplete(text);
    UndatedPieces(Split(text));
    MadeUpComplete(dates, Newline(text));
    EveryPiece(Complete, text, folding, dates);
    UndatedPieces(AfterPieces(text, folding, dates));
    UndatedStay(OutlineOf(text).sections, touched);
    UndatedStay(OutlineOf(After(text, folding, dates)).sections, touched);
  }

  lemma {:induction false} UndatedMember(lines: seq<string>, l: string)
    requires l in lines && IsSection(l) && DateOf(l) == None
    ensures Undated(lines) >= 1
  {
    hide IsSection, DateOf;
    if lines[0] != l { UndatedMember(lines[1..], l); }
  }

  // Every fragment the check lets through

  ghost predicate LetThrough(fragment: string) {
    forall l | l in Split(fragment) :: !IsTopHeading(l)
  }

  /** A fragment that passed the check declares this entry. */
  ghost predicate Declared(name: string, e: string) {
    exists fragment, lines ::
      LetThrough(fragment) && (name, lines) in Cut(Split(fragment)).under && e == Trim(Join(lines))
  }

  /** Every entry is one such a fragment declares, of a known class and not empty, as the
      check has it too. */
  ghost predicate FromFragments(folding: Folding) {
    forall date | date in folding :: AreDeclared(folding[date])
  }

  ghost predicate AreDeclared(entries: Entries) {
    forall name | name in entries :: name in CLASSES && AllDeclared(name, entries[name])
  }

  ghost predicate AllDeclared(name: string, entries: seq<string>) {
    forall e | e in entries :: e != "" && Declared(name, e)
  }

  lemma DeclaredEnds(name: string, e: string)
    requires Declared(name, e)
    ensures Complete(e)
  {
    hide LetThrough, Cut, Split, Trim, Join, Complete;
    var fragment, lines :|
      LetThrough(fragment) && (name, lines) in Cut(Split(fragment)).under && e == Trim(Join(lines));
    TrimEnds(Join(lines));
  }

  lemma TrimEnds(text: string)
    ensures Complete(Trim(text))
  {}

  lemma DeclaredHasHashes(name: string, e: string) returns (l: string)
    requires Declared(name, e) && e != "" && !IsEntry(e)
    ensures l in Split(e) && IsSection(l) && DateOf(l) == None
  {
    hide Cut, Split, Trim, Join, IsEntry, IsSection, DateOf, Bare, AllSpace, IsTopHeading;
    var fragment, lines :|
      LetThrough(fragment) && (name, lines) in Cut(Split(fragment)).under && e == Trim(Join(lines));
    l := UnplacedHasHashes(fragment, name, lines);
    SpaceIsNoDate(l);
  }

  /** The check and the fold joined: whatever checked fragments a folding is made of and
      whatever stands in the changelog, either every entry is one the fold can place, or
      it refuses what it wrote. */
  lemma PlacedOrRefused(text: string, folding: Folding, dates: seq<string>, touched: set<string>)
    requires Complete(text) && FromFragments(folding) && (forall date | date in folding :: IsDate(date))
    requires Ascending(dates) && (forall date :: date in dates <==> date in folding)
    ensures Ready(text, folding, dates) ||
      OutsideMoved(OutlineOf(text), OutlineOf(After(text, folding, dates)), touched)
  {
    hide Declared, IsEntry, IsDate, Complete, Split, IsSection, DateOf, OutlineOf, After, OutsideMoved, Ascending;
    if !Ready(text, folding, dates) {
      assert !AllFoldable(folding);
      var date, name, e :| date in folding && name in folding[date] && e in folding[date][name] && !IsEntry(e);
      assert AreDeclared(folding[date]) && AllDeclared(name, folding[date][name]);
      var l := DeclaredHasHashes(name, e);
      EntriesEnd(folding);
      HashesRefused(text, folding, dates, date, name, e, l, touched);
    }
  }

  lemma EntriesEnd(folding: Folding)
    requires FromFragments(folding)
    ensures forall date | date in folding :: AllAre(folding[date], Complete)
  {
    hide Declared, Complete;
    forall date, name, e | date in folding && name in folding[date] && e in folding[date][name] ensures Complete(e) {
      assert AreDeclared(folding[date]) && AllDeclared(name, folding[date][name]);
      DeclaredEnds(name, e);
    }
  }

  // Two texts it happens to

  const UNRELEASED := "## Unreleased\n"

  lemma UnreleasedTitle()
    ensures IsSection(UNRELEASED) && DateOf(UNRELEASED) == None
  {
    hide Bare, DateOf, IsSection, IsSpace, IsBreak;
    assert UNRELEASED == "## " + "Unreleased" + "\n";
    assert '\n' !in "Unreleased";
    WrittenTitle("Unreleased", "\n");
  }

  lemma UnreleasedLine()
    ensures IsLine(UNRELEASED) && IsSection(UNRELEASED) && DateOf(UNRELEASED) == None
  {
    hide DateOf, IsSection, Bare, Split, Complete;
    UnreleasedTitle();
    OneLineAlone("## Unreleased", "\n");
    assert "## Unreleased" + "\n" == UNRELEASED;
  }

  lemma XLine()
    ensures IsLine("x\n") && !IsSection("x\n") && !AllSpace("x\n")
  {
    OneLineAlone("x", "\n");
    assert "x" + "\n" == "x\n";
    BareEnding("x", "\n");
    assert 'x' in "x\n";
  }

  lemma TwoLines(a: string, b: string)
    requires IsLine(a) && IsLine(b)
    ensures Complete(a + b) && Split(a + b) == [a, b]
  {
    hide Split, Join, IsLine, Complete;
    SplitJoin([a, b]);
    JoinCons(a, [b]);
    JoinCons(b, []);
    JoinNothing();
    assert [a] + [b] == [a, b] && [b] + [] == [b] && b + "" == b;
  }

  lemma UnreleasedStands()
    ensures Complete(UNRELEASED + "x\n")
    ensures Standing(UNRELEASED + "x\n") == Parsed([], [Section(UNRELEASED, ["x\n"])])
  {
    hide Split, IsSection, DateOf, Group, Complete;
    UnreleasedLine();
    XLine();
    TwoLines(UNRELEASED, "x\n");
    GroupCons("x\n", []);
    GroupCons(UNRELEASED, ["x\n"]);
    assert [UNRELEASED] + ["x\n"] == [UNRELEASED, "x\n"] && ["x\n"] + [] == ["x\n"];
    assert Group([]) == Parsed([], []) by { GroupNone(); }
  }

  lemma GroupNone()
    ensures Group([]) == Parsed([], [])
  {}

  /** A changelog of one undated section, and the first dated one to go under it: the fold
      gives the undated one its blank line and then refuses the result over it. */
  lemma UnreleasedRefused()
    ensures var text, folding: Folding := UNRELEASED + "x\n", map[DAY := map["Added" := ["- c\n"]]];
      && Ready(text, folding, [DAY])
      && var d := Folded(text, folding, [DAY]);
         OutsideMoved(OutlineOf(text), OutlineOf(After(text, folding, [DAY])), d.created + d.appended)
  {
    var text, folding: Folding := UNRELEASED + "x\n", map[DAY := map["Added" := ["- c\n"]]];
    UnreleasedStands();
    UnreleasedLine();
    XLine();
    hide *;
    UnreleasedReady(text, folding);
    OutsideChangedExactly(text, folding, [DAY]);
    UnreleasedSpoilt();
  }

  lemma UnreleasedReady(text: string, folding: Folding)
    requires Complete(text) && folding == map[DAY := map["Added" := ["- c\n"]]]
    ensures Ready(text, folding, [DAY])
  {
    hide Split, IsSection, Heading, Complete, IsDate;
    PlainText("- c\n");
    DayIsDate();
  }

  lemma UnreleasedSpoilt()
    requires DateOf(UNRELEASED) == None && !AllSpace("x\n")
    ensures var ss := [Section(UNRELEASED, ["x\n"])]; !Stands(ss, DAY) && SpoiltBy(ss, 0, DAY)
  {
    hide DateOf, AllSpace;
  }

  const HASHES := "##  \n"
  const FRAGMENT := "### Added\n" + "- a\n" + HASHES + "- b\n"
  const HELD := "- a\n" + HASHES + "- b\n"

  lemma HashesLine()
    ensures IsLine(HASHES) && IsSection(HASHES) && DateOf(HASHES) == None && Heading(HASHES) == None
    ensures !IsTopHeading(HASHES) && !AllSpace(HASHES)
  {
    var s := "##  ";
    assert HASHES == s + "\n";
    OneLineAlone(s, "\n");
    BareEnding(s, "\n");
    assert s[2..] == "  ";
    CheckMissesExactly(HASHES);
    assert '#' in HASHES;
    assert s[2..][1..] == " " && " "[1..] == "";
    assert DropBlanks("") == "" && DropBlanks(" ") == DropBlanks(" "[1..]);
    assert DropBlanks(s[2..]) == DropBlanks(s[2..][1..]);
    assert |Title(s, 2)| == 1;
  }

  lemma EntryLine(l: string)
    requires l == "- a\n" || l == "- b\n" || l == "### Added\n"
    ensures IsLine(l) && !IsTopHeading(l) && !AllSpace(l)
  {
    OneLineAlone(l[..|l| - 1], "\n");
    assert l[..|l| - 1] + "\n" == l;
    assert l[0] in l && l[|l| - 2] == Trimmed(l[..|l| - 1])[|l| - 2];
    assert Trimmed(l) == l[..|l| - 1];
  }

  lemma FourLines(a: string, b: string, c: string, d: string)
    requires IsLine(a) && IsLine(b) && IsLine(c) && IsLine(d)
    ensures Complete(a + b + c + d) && Split(a + b + c + d) == [a, b, c, d]
    ensures Complete(b + c + d) && Split(b + c + d) == [b, c, d]
  {
    hide Split, Join, IsLine, Complete;
    SplitJoin([a, b, c, d]);
    SplitJoin([b, c, d]);
    JoinCons(a, [b, c, d]);
    JoinCons(b, [c, d]);
    JoinCons(c, [d]);
    JoinCons(d, []);
    JoinNothing();
    assert [a] + [b, c, d] == [a, b, c, d] && [b] + [c, d] == [b, c, d] && [c] + [d] == [c, d] && [d] + [] == [d];
    assert d + "" == d && a + (b + (c + d)) == a + b + c + d && b + (c + d) == b + c + d;
  }

  lemma FragmentSplit()
    ensures Split(FRAGMENT) == ["### Added\n", "- a\n", HASHES, "- b\n"]
    ensures Split(HELD) == ["- a\n", HASHES, "- b\n"] && Complete(HELD)
  {
    hide IsLine, Split, Complete;
    EntryLine("### Added\n");
    EntryLine("- a\n");
    EntryLine("- b\n");
    HashesLine();
    FourLines("### Added\n", "- a\n", HASHES, "- b\n");
  }

  lemma CutFour(a: string, b: string, c: string, d: string, name: string)
    requires Heading(a) == Some(name) && Heading(b) == Heading(c) == Heading(d) == None
    ensures Cut([a, b, c, d]) == Fragment([], [(name, [b, c, d])])
  {
    hide Heading, Cut;
    CutCons(d, []);
    CutCons(c, [d]);
    CutCons(b, [c, d]);
    CutCons(a, [b, c, d]);
    assert [d] + [] == [d] && [c] + [d] == [c, d] && [b] + [c, d] == [b, c, d] && [a] + [b, c, d] == [a, b, c, d];
    assert [(name, [b, c, d])] + [] == [(name, [b, c, d])];
  }

  lemma FragmentCut()
    ensures Cut(["### Added\n", "- a\n", HASHES, "- b\n"]) == Fragment([], [("Added", ["- a\n", HASHES, "- b\n"])])
  {
    hide Heading, IsLine, IsSection, IsEntry, DateOf, IsTopHeading, AllSpace;
    AddedAndFixed();
    PlainText("- a\n");
    PlainText("- b\n");
    HashesLine();
    CutFour("### Added\n", "- a\n", HASHES, "- b\n", "Added");
  }

  lemma CutCons(l: string, lines: seq<string>)
    ensures var below := Cut(lines);
      Cut([l] + lines) ==
        match Heading(l)
        case Some(name) => Fragment([], [(name, below.above)] + below.under)
        case None => Fragment([l] + below.above, below.under)
    ensures Cut([]) == Fragment([], [])
  {
    hide Heading;
    assert ([l] + lines)[1..] == lines;
  }

  lemma HeldTrims()
    ensures Join(["- a\n", HASHES, "- b\n"]) == HELD && Trim(HELD) == HELD
  {
    hide Split, AllSpace, Newline;
    FragmentSplit();
    JoinSplit(HELD);
    EntryLine("- a\n");
    EntryLine("- b\n");
    var lines := ["- a\n", HASHES, "- b\n"];
    assert DropBlank(lines) == lines && TrimBlank(lines) == lines;
    HeldEnds();
  }

  lemma HeldEnds()
    ensures HELD != "" && HELD[|HELD| - 1] == '\n'
  {}

  /** A fragment that passes the check of its headings and declares one entry, whose middle
      line is two hashes and two spaces. The entry is none the fold can place. */
  lemma HashesPassTheCheck()
    ensures forall l | l in Split(FRAGMENT) :: !IsTopHeading(l)
    ensures Entered(Cut(Split(FRAGMENT)).under) == [("Added", HELD)]
    ensures !IsEntry(HELD)
  {
    hide Split, IsTopHeading, Heading, IsSection, Trim, Join, IsLine, Complete;
    FragmentSplit();
    EntryLine("### Added\n");
    EntryLine("- a\n");
    EntryLine("- b\n");
    HashesLine();
    FragmentCut();
    HeldTrims();
    EnteredFirst("Added", ["- a\n", HASHES, "- b\n"], []);
    assert Entered([]) == [];
    assert HASHES in Split(HELD);
  }

  /** And whatever changelog it is folded into, the fold refuses what it wrote. */
  lemma HashesRefusedEverywhere(text: string, touched: set<string>)
    requires Complete(text)
    ensures var folding: Folding := map[DAY := map["Added" := [HELD]]];
      OutsideMoved(OutlineOf(text), OutlineOf(After(text, folding, [DAY])), touched)
  {
    var folding: Folding := map[DAY := map["Added" := [HELD]]];
    hide Split, Complete, IsDate, IsSection, DateOf, OutlineOf, After, IsLine, OutsideMoved;
    FragmentSplit();
    HashesLine();
    DayIsDate();
    assert HASHES in Split(HELD);
    HashesRefused(text, folding, [DAY], DAY, "Added", HELD, HASHES, touched);
  }
}
