/**
  When the fold finds its own sections malformed: never where dates are distinct, and
  otherwise in a case that can be read off the changelog beforehand.
*/
module ChangelogTwins {
  import opened Wrappers
  import opened Lines
  import opened Headings
  import opened ChangelogParse
  import opened ChangelogAppend
  import opened ChangelogFold
  import opened ChangelogNames
  import opened ChangelogChecks
  import opened Subsequence

  predicate FirstOfDate(ss: seq<Section>, i: nat)
    requires i < |ss|
  {
    forall j | 0 <= j < i :: DateIn(ss[j]) != DateIn(ss[i])
  }

  predicate LastOfDate(ss: seq<Section>, i: nat)
    requires i < |ss|
  {
    forall j | i < j < |ss| :: DateIn(ss[j]) != DateIn(ss[i])
  }

  /** The class headings of a standing section once the fold is done: the first section of
      a date that is folded gets the classes it has not. */
  function InTheEnd(ss: seq<Section>, i: nat, folding: Folding): seq<string>
    requires i < |ss|
  {
    NowNames(ss[i], FirstOfDate(ss, i), folding)
  }

  /** The fold counts the date among those it appended into: entries of that date are
      folded, or a section of it is given a blank line because a new one goes right behind it. */
  ghost predicate Judged(ss: seq<Section>, date: string, folding: Folding) {
    date in folding || exists j: nat, new' :: new' in folding && !Stands(ss, new') && FedBy(ss, j, new', Some(date))
  }

  /** Section `i` is held to section `k`, the last of its date, and has in the end lost one
      of its headings or come by one that is neither its nor one of the six. */
  ghost predicate Misjudged(ss: seq<Section>, i: nat, k: nat, folding: Folding) {
    && i < |ss| && k < |ss| && DateIn(ss[i]).Some? && DateIn(ss[k]) == DateIn(ss[i]) && LastOfDate(ss, k)
    && Judged(ss, DateIn(ss[i]).value, folding)
    && Departs(PieceNames(ss[k].body), InTheEnd(ss, i, folding))
  }

  ghost predicate Departs(was: seq<string>, now: seq<string>) {
    !Kept(was, now) || exists name | name in now :: name !in was && name !in CLASSES
  }

  // The headings of every woven section

  function EndNames(ss: seq<Section>, i: nat, owed: set<string>, folding: Folding): seq<string>
    requires i < |ss|
  {
    NowNames(ss[i], DateIn(ss[i]).Some? && DateIn(ss[i]).value in owed && FirstOfDate(ss, i), folding)
  }

  lemma EndNamesBelow(ss: seq<Section>, i: nat, owed: set<string>, folding: Folding)
    requires 0 < i < |ss|
    ensures EndNames(ss[1..], i - 1, Paid(ss[0], owed), folding) == EndNames(ss, i, owed, folding)
  {
    hide DateOf, NowNames;
    var rest := ss[1..];
    assert rest[i - 1] == ss[i];
    assert forall j | 0 <= j < |rest| :: rest[j] == ss[j + 1];
    assert FirstOfDate(ss, i) <==> FirstOfDate(rest, i - 1) && DateIn(ss[0]) != DateIn(ss[i]) by {
      if FirstOfDate(rest, i - 1) && DateIn(ss[0]) != DateIn(ss[i]) {
        forall j | 0 <= j < i ensures DateIn(ss[j]) != DateIn(ss[i]) {
          if j > 0 { assert rest[j - 1] == ss[j]; }
        }
      }
    }
  }

  ghost predicate SectionsTame(ss: seq<Section>) {
    forall s | s in ss :: AllTame(s.body)
  }

  ghost predicate Becomes(ss: seq<Section>, i: nat, owed: set<string>, folding: Folding, s: Section) {
    i < |ss| && s.heading == ss[i].heading && PieceNames(s.body) == EndNames(ss, i, owed, folding)
  }

  lemma HeadBecomes(ss: seq<Section>, fed: bool, owed: set<string>, folding: Folding, nl: string)
    requires ss != [] && SectionsTame(ss) && owed <= folding.Keys && AllFoldable(folding) && IsEnding(nl)
    ensures Becomes(ss, 0, owed, folding, Grown(ss[0], fed, owed, folding, nl))
  {
    hide AllTame, Grown, DateOf, PieceNames;
    GrownHeading(ss[0], fed, owed, folding, nl);
    GrownNames(ss[0], fed, owed, folding, nl);
  }

  /** Every standing section is there in the end, with those headings. */
  lemma {:induction false} WovenHas(ss: seq<Section>, news: seq<string>, owed: set<string>, folding: Folding,
                                    nl: string, i: nat) returns (s: Section)
    requires Foldings(news, owed, folding, nl) && AllFoldable(folding) && SectionsTame(ss) && i < |ss|
    ensures s in Weave(ss, news, owed, folding, nl) && Becomes(ss, i, owed, folding, s)
    decreases |ss| + |news|
  {
    hide Created, Grown, IsDate, AllFoldable, IsEnding, GoesBefore, AllTame, EndNames, Becomes;
    if news != [] && GoesBefore(ss, news[0]) {
      s := WovenHas(ss, news[1..], owed, folding, nl, i);
    } else {
      var fed := news != [] && GoesBefore(ss[1..], news[0]);
      if i == 0 {
        s := Grown(ss[0], fed, owed, folding, nl);
        HeadBecomes(ss, fed, owed, folding, nl);
      } else {
        s := WovenHas(ss[1..], news, Paid(ss[0], owed), folding, nl, i - 1);
        BecomesBelow(ss, i, owed, folding, s);
      }
    }
  }

  lemma BecomesBelow(ss: seq<Section>, i: nat, owed: set<string>, folding: Folding, s: Section)
    requires 0 < i
    ensures Becomes(ss[1..], i - 1, Paid(ss[0], owed), folding, s) ==> Becomes(ss, i, owed, folding, s)
    requires ss != []
  {
    hide EndNames;
    if i < |ss| { EndNamesBelow(ss, i, owed, folding); }
  }

  /** And every woven section is one of those or a new date's own. */
  lemma {:induction false} WovenIs(ss: seq<Section>, news: seq<string>, owed: set<string>, folding: Folding, nl: string,
                                   s: Section) returns (own: bool, i: nat)
    requires Foldings(news, owed, folding, nl) && AllFoldable(folding) && SectionsTame(ss)
    requires s in Weave(ss, news, owed, folding, nl)
    ensures own ==> exists d :: d in news && s == Created(d, folding[d], nl)
    ensures !own ==> Becomes(ss, i, owed, folding, s)
    decreases |ss| + |news|
  {
    hide Created, Grown, IsDate, AllFoldable, IsEnding, GoesBefore, AllTame, EndNames, Becomes;
    own, i := false, 0;
    if news != [] { GoesBeforeNone(news[0]); }
    if news != [] && GoesBefore(ss, news[0]) {
      if s == Created(news[0], folding[news[0]], nl) {
        own := true;
      } else {
        own, i := WovenIs(ss, news[1..], owed, folding, nl, s);
      }
    } else if ss != [] {
      var fed := news != [] && GoesBefore(ss[1..], news[0]);
      if s == Grown(ss[0], fed, owed, folding, nl) {
        HeadBecomes(ss, fed, owed, folding, nl);
      } else {
        var below;
        own, below := WovenIs(ss[1..], news, Paid(ss[0], owed), folding, nl, s);
        i := below + 1;
        BecomesBelow(ss, i, owed, folding, s);
      }
    }
  }

  // What each is compared with

  lemma {:induction false} LastDatedIs(ss: seq<Section>, k: nat)
    requires k < |ss| && DateIn(ss[k]).Some? && LastOfDate(ss, k)
    ensures LastDated(SeenAll(ss), DateIn(ss[k]).value) == Some(SeenWritten(ss[k]))
  {
    hide DateOf, SectionText, PieceNames;
    var last := |ss| - 1;
    SeenLast(ss);
    if k < last {
      assert forall j | 0 <= j < last :: ss[..last][j] == ss[j];
      LastDatedIs(ss[..last], k);
    }
  }

  lemma {:induction false} SomeLast(ss: seq<Section>, i: nat) returns (k: nat)
    requires i < |ss|
    ensures i <= k < |ss| && DateIn(ss[k]) == DateIn(ss[i]) && LastOfDate(ss, k)
    decreases |ss| - i
  {
    hide DateOf;
    if LastOfDate(ss, i) {
      k := i;
    } else {
      var j :| i < j < |ss| && DateIn(ss[j]) == DateIn(ss[i]);
      k := SomeLast(ss, j);
    }
  }

  /** What the fold's own check comes to for a section that stood. */
  lemma StandingJudged(ss: seq<Section>, i: nat, k: nat, s: Section, folding: Folding, created: set<string>,
                       appended: set<string>, now: seq<string>)
    requires i < |ss| && k < |ss| && DateIn(ss[i]).Some? && DateIn(ss[k]) == DateIn(ss[i]) && LastOfDate(ss, k)
    requires s.heading == ss[i].heading && PieceNames(s.body) == now
    requires created <= folding.Keys && forall d | d in created :: !Stands(ss, d)
    ensures Malformed(SeenWritten(s), SeenAll(ss), folding, created, appended) <==>
      DateIn(ss[i]).value in appended && Departs(PieceNames(ss[k].body), now)
  {
    hide DateOf, SectionText, PieceNames, Keeps, Kept;
    assert Dated(ss[i], DateIn(ss[i]).value);
    LastDatedIs(ss, k);
    KeepsExactly(PieceNames(ss[k].body), now);
  }

  lemma JudgedExactly(ss: seq<Section>, i: nat, folding: Folding, news: seq<string>, owed: set<string>)
    requires i < |ss| && DateIn(ss[i]).Some? && Descending(news)
    requires (forall d :: d in news <==> d in folding && !Stands(ss, d))
    requires (forall d :: d in owed <==> d in folding && Stands(ss, d))
    ensures DateIn(ss[i]).value in owed + FedLabels(ss, news) <==> Judged(ss, DateIn(ss[i]).value, folding)
  {
    var date := DateIn(ss[i]).value;
    assert Dated(ss[i], date) && date != "";
    hide FedBy, FedLabels, FedOne, DateOf, Less;
    FedLabelsExactly(ss, news, date);
    FedExactly(ss, news, Some(date));
  }

  lemma StandingTame(text: string)
    requires Complete(text)
    ensures SectionsTame(Standing(text).sections)
  {
    hide Split, Complete, Group, IsSection, Tame;
    StandingRaw(text);
    forall s | s in Standing(text).sections ensures AllTame(s.body) {
      forall l | l in s.body ensures Tame(l) {
        assert Raw(s) && Split(l) == [l];
        LineTame(l);
      }
    }
  }

  /** The fold finds one of its own sections malformed if and only if the changelog has a
      section that is judged by the last of its date and differs from it so. */
  lemma MalformedExactly(text: string, folding: Folding, dates: seq<string>)
    requires Ready(text, folding, dates)
    ensures var ss, d := Standing(text).sections, Folded(text, folding, dates);
      && d.created <= folding.Keys
      && ((exists seen | seen in OutlineOf(After(text, folding, dates)).sections ::
             Malformed(seen, OutlineOf(text).sections, folding, d.created, d.appended))
          <==> exists i: nat, k: nat :: Misjudged(ss, i, k, folding))
  {
    hide OutlineOf, Weave, Standing, After, News, FedLabels, Stands, Folded, PieceNames, SeenAll, SeenWritten, Writable,
         Newline, Malformed, Created, Wanted, Misjudged, Owed, SectionsTame, Becomes;
    var ss, d := Standing(text).sections, Folded(text, folding, dates);
    OnePass(text, folding, dates);
    BothSeen(text, folding, dates);
    StandingTame(text);
    if exists seen | seen in OutlineOf(After(text, folding, dates)).sections ::
        Malformed(seen, OutlineOf(text).sections, folding, d.created, d.appended) {
      var seen :| seen in OutlineOf(After(text, folding, dates)).sections
        && Malformed(seen, OutlineOf(text).sections, folding, d.created, d.appended);
      var s := SeenOf(d.sections, seen);
      MalformedMisjudged(ss, folding, dates, Newline(text), s, d);
    }
    if i: nat, k: nat :| Misjudged(ss, i, k, folding) {
      var s := MisjudgedMalformed(ss, folding, dates, Newline(text), i, k, d);
      SeenIn(d.sections, s);
      assert SeenWritten(s) in OutlineOf(After(text, folding, dates)).sections;
    }
  }

  lemma {:induction false} SeenIn(ss: seq<Section>, s: Section)
    requires s in ss
    ensures SeenWritten(s) in SeenAll(ss)
  {
    hide SeenWritten;
    if s != ss[0] { SeenIn(ss[1..], s); }
  }

  /** The facts the two halves share. */
  ghost predicate FoldedFrom(ss: seq<Section>, folding: Folding, dates: seq<string>, nl: string, d: Draft) {
    var news, owed := News(ss, dates), Owed(ss, dates);
    && Foldings(news, owed, folding, nl) && AllFoldable(folding) && SectionsTame(ss) && Descending(news)
    && d == Draft(Weave(ss, news, owed, folding, nl), set n | n in news :: n, owed + FedLabels(ss, news))
    && (forall n :: n in news <==> n in folding && !Stands(ss, n))
    && (forall n :: n in owed <==> n in folding && Stands(ss, n))
  }

  lemma MalformedMisjudged(ss: seq<Section>, folding: Folding, dates: seq<string>, nl: string, s: Section, d: Draft)
    requires FoldedFrom(ss, folding, dates, nl, d) && s in d.sections && d.created <= folding.Keys
    requires Malformed(SeenWritten(s), SeenAll(ss), folding, d.created, d.appended)
    ensures exists i: nat, k: nat :: Misjudged(ss, i, k, folding)
  {
    hide Weave, News, FedLabels, Stands, PieceNames, SeenAll, Created, Wanted, Owed, SectionsTame, FirstOfDate,
         LastOfDate, Judged, Departs, DateOf, NowNames;
    var news, owed := News(ss, dates), Owed(ss, dates);
    var own, i := WovenIs(ss, news, owed, folding, nl, s);
    if own {
      var date :| date in news && s == Created(date, folding[date], nl);
      CreatedPasses(date, folding, nl, SeenAll(ss), d.created, d.appended);
      assert false;
    }
    var k := SomeLast(ss, i);
    StandingJudged(ss, i, k, s, folding, d.created, d.appended, EndNames(ss, i, owed, folding));
    JudgedExactly(ss, i, folding, news, owed);
    EndIsEnd(ss, i, owed, folding);
    assert Misjudged(ss, i, k, folding);
  }

  lemma MisjudgedMalformed(ss: seq<Section>, folding: Folding, dates: seq<string>, nl: string, i: nat, k: nat, d: Draft)
    returns (s: Section)
    requires FoldedFrom(ss, folding, dates, nl, d) && d.created <= folding.Keys && Misjudged(ss, i, k, folding)
    ensures s in d.sections && Malformed(SeenWritten(s), SeenAll(ss), folding, d.created, d.appended)
  {
    hide Weave, News, FedLabels, Stands, PieceNames, SeenAll, Created, Wanted, Owed, SectionsTame, FirstOfDate,
         LastOfDate, Judged, Departs, DateOf, NowNames, Malformed, SeenWritten;
    var news, owed := News(ss, dates), Owed(ss, dates);
    s := WovenHas(ss, news, owed, folding, nl, i);
    StandingJudged(ss, i, k, s, folding, d.created, d.appended, EndNames(ss, i, owed, folding));
    JudgedExactly(ss, i, folding, news, owed);
    EndIsEnd(ss, i, owed, folding);
  }

  lemma EndIsEnd(ss: seq<Section>, i: nat, owed: set<string>, folding: Folding)
    requires i < |ss| && DateIn(ss[i]).Some? && forall n :: n in owed <==> n in folding && Stands(ss, n)
    ensures EndNames(ss, i, owed, folding) == InTheEnd(ss, i, folding)
  {
    assert Dated(ss[i], DateIn(ss[i]).value);
  }

  // One changelog it happens to

  const DAY := "2024-01-01"
  const DATED := "## 2024-01-01\n"
  const ADDED := "### Added\n"
  const FIXED := "### Fixed\n"
  const TWINS := DATED + ADDED + "- a\n" + DATED + FIXED + "- b\n"

  lemma PlainText(l: string)
    requires l == "- a\n" || l == "- b\n" || l == "- c\n"
    ensures IsLine(l) && !IsSection(l) && Heading(l) == None && IsEntry(l)
  {
    OneLineAlone(l[..3], "\n");
    assert l[..3] + "\n" == l;
    BareEnding(l[..3], "\n");
    assert Names([l][1..]) == [];
  }

  lemma DatedLine()
    ensures IsLine(DATED) && IsSection(DATED) && DateOf(DATED) == Some(DAY)
  {
    hide Split, IsSection, DateOf;
    assert DATED == "## " + DAY + "\n";
    WrittenDate(DAY, "\n");
    OneLineAlone("## " + DAY, "\n");
  }

  lemma ClassLine(name: string)
    requires name in CLASSES
    ensures var l := "### " + name + "\n"; IsLine(l) && !IsSection(l) && Heading(l) == Some(name)
  {
    ClassName(name);
    WrittenHeading(name, "\n");
    OneLineAlone("### " + name, "\n");
  }

  lemma AddedAndFixed()
    ensures IsLine(ADDED) && !IsSection(ADDED) && Heading(ADDED) == Some("Added")
    ensures IsLine(FIXED) && !IsSection(FIXED) && Heading(FIXED) == Some("Fixed")
  {
    assert ADDED == "### " + "Added" + "\n" && FIXED == "### " + "Fixed" + "\n";
    ClassLine("Added");
    ClassLine("Fixed");
  }

  const FIRST := Section(DATED, [ADDED, "- a\n"])
  const SECOND := Section(DATED, [FIXED, "- b\n"])

  lemma SixLines(a: string, b: string, c: string, d: string, e: string, f: string)
    requires IsLine(a) && IsLine(b) && IsLine(c) && IsLine(d) && IsLine(e) && IsLine(f)
    ensures Complete(a + b + c + d + e + f) && Split(a + b + c + d + e + f) == [a, b, c, d, e, f]
  {
    hide Split, Join, IsLine, Complete;
    JoinSix(a, b, c, d, e, f);
    SplitJoin([a, b, c, d, e, f]);
  }

  lemma TwinsSplit()
    ensures Complete(TWINS) && Split(TWINS) == [DATED, ADDED, "- a\n", DATED, FIXED, "- b\n"]
  {
    hide IsLine, Split, IsSection, Heading, DateOf, Complete;
    AddedAndFixed();
    DatedLine();
    PlainText("- a\n");
    PlainText("- b\n");
    SixLines(DATED, ADDED, "- a\n", DATED, FIXED, "- b\n");
  }

  lemma JoinSix(a: string, b: string, c: string, d: string, e: string, f: string)
    ensures Join([a, b, c, d, e, f]) == a + b + c + d + e + f
  {
    hide Join;
    JoinCons(a, [b, c, d, e, f]);
    JoinCons(b, [c, d, e, f]);
    JoinCons(c, [d, e, f]);
    JoinCons(d, [e, f]);
    JoinCons(e, [f]);
    JoinCons(f, []);
    assert [a] + [b, c, d, e, f] == [a, b, c, d, e, f] && [b] + [c, d, e, f] == [b, c, d, e, f];
    assert [c] + [d, e, f] == [c, d, e, f] && [d] + [e, f] == [d, e, f] && [e] + [f] == [e, f] && [f] + [] == [f];
    JoinNothing();
  }

  lemma JoinNothing()
    ensures Join([]) == ""
  {}

  lemma GroupCons(l: string, lines: seq<string>)
    ensures var below := Group(lines);
      Group([l] + lines) ==
        if IsSection(l) then Parsed([], [Section(l, below.preamble)] + below.sections)
        else Parsed([l] + below.preamble, below.sections)
  {
    assert ([l] + lines)[1..] == lines;
  }

  lemma GroupThree(h: string, a: string, b: string, lines: seq<string>)
    requires IsSection(h) && !IsSection(a) && !IsSection(b) && Group(lines).preamble == []
    ensures Group([h, a, b] + lines) == Parsed([], [Section(h, [a, b])] + Group(lines).sections)
  {
    hide IsSection, Group;
    GroupCons(b, lines);
    GroupCons(a, [b] + lines);
    GroupCons(h, [a] + ([b] + lines));
    assert [h] + ([a] + ([b] + lines)) == [h, a, b] + lines;
    assert [b] + [] == [b] && [a] + [b] == [a, b];
  }

  lemma GroupSix(h: string, a: string, b: string, c: string, d: string)
    requires IsSection(h) && !IsSection(a) && !IsSection(b) && !IsSection(c) && !IsSection(d)
    ensures Group([h, a, b, h, c, d]) == Parsed([], [Section(h, [a, b]), Section(h, [c, d])])
  {
    hide IsSection;
    GroupThree(h, c, d, []);
    hide Group;
    GroupThree(h, a, b, [h, c, d]);
    assert [h, c, d] + [] == [h, c, d] && [h, a, b] + [h, c, d] == [h, a, b, h, c, d];
  }

  lemma TwinsStand()
    ensures Complete(TWINS) && Standing(TWINS) == Parsed([], [FIRST, SECOND])
    ensures DateIn(FIRST) == DateIn(SECOND) == Some(DAY)
    ensures PieceNames(FIRST.body) == ["Added"] && PieceNames(SECOND.body) == ["Fixed"]
  {
    hide Split, IsSection, Heading, DateOf, Complete, Group;
    TwinsSplit();
    DatedLine();
    AddedAndFixed();
    PlainText("- a\n");
    PlainText("- b\n");
    GroupSix(DATED, ADDED, "- a\n", FIXED, "- b\n");
    TwoNames(ADDED, "- a\n");
    TwoNames(FIXED, "- b\n");
  }

  lemma TwoNames(a: string, b: string)
    requires Split(a) == [a] && Split(b) == [b] && Heading(b) == None
    ensures PieceNames([a, b]) == NameOf(a)
  {
    hide Split, Heading;
    assert [a, b] == [a] + [b];
    PieceNamesConcat([a], [b]);
    Alone(a);
    Alone(b);
    assert Names([a][1..]) == [] && Names([b][1..]) == [];
  }

  /** Two sections of one day, the first with what was added and the second with what was
      fixed. One more entry for what was added goes under the first, which keeps all it
      had; and the fold refuses the result, because the first has no heading for what was
      fixed. */
  lemma TwinsRefused()
    ensures var folding: Folding := map[DAY := map["Added" := ["- c\n"]]];
      && Ready(TWINS, folding, [DAY])
      && var d := Folded(TWINS, folding, [DAY]);
         d.created <= folding.Keys
         && exists seen | seen in OutlineOf(After(TWINS, folding, [DAY])).sections ::
              Malformed(seen, OutlineOf(TWINS).sections, folding, d.created, d.appended)
  {
    var folding: Folding := map[DAY := map["Added" := ["- c\n"]]];
    hide *;
    TwinsStand();
    TwinsReady(folding);
    MalformedExactly(TWINS, folding, [DAY]);
    TwinDeparts(folding);
  }

  lemma TwinsReady(folding: Folding)
    requires folding == map[DAY := map["Added" := ["- c\n"]]]
    ensures Ready(TWINS, folding, [DAY])
  {
    hide Split, IsSection, Heading, Complete, IsDate;
    TwinsSplit();
    PlainText("- c\n");
    DayIsDate();
  }

  lemma DayIsDate()
    ensures IsDate(DAY)
  {}

  lemma TwinDeparts(folding: Folding)
    requires folding == map[DAY := map["Added" := ["- c\n"]]]
    requires PieceNames(FIRST.body) == ["Added"] && PieceNames(SECOND.body) == ["Fixed"]
    requires DateIn(FIRST) == DateIn(SECOND) == Some(DAY)
    ensures Misjudged([FIRST, SECOND], 0, 1, folding)
  {
    hide DateOf, PieceNames;
    var now := InTheEnd([FIRST, SECOND], 0, folding);
    assert now == WithClasses(["Added"], CLASSES, folding[DAY]);
    StaysAlone(CLASSES, folding[DAY]);
    if Kept(["Fixed"], now) { KeptMember(["Fixed"], now, "Fixed"); }
  }

  lemma {:induction false} StaysAlone(classes: seq<string>, entries: Entries)
    requires AreClasses(classes) && entries.Keys == {"Added"}
    ensures WithClasses(["Added"], classes, entries) == ["Added"]
    decreases |classes|
  {
    if classes != [] { StaysAlone(classes[1..], entries); }
  }
}
