/**
  The fold from text to text, and what its own post-conditions come to on everything
  it is handed.
*/
module ChangelogChecks {
  import opened Wrappers
  import opened Lines
  import opened Headings
  import opened ChangelogParse
  import opened ChangelogAppend
  import opened ChangelogFold
  import opened Subsequence

  predicate HasReturnFeed(text: string) {
    exists i | 0 < i < |text| :: text[i] == '\n' && text[i - 1] == '\r'
  }

  /** What every line the fold makes up ends with. */
  function Newline(text: string): (nl: string)
    ensures IsEnding(nl)
  {
    if HasReturnFeed(text) then "\r\n" else "\n"
  }

  predicate EndsReturnFeed(l: string) { |l| >= 2 && l[|l| - 1] == '\n' && l[|l| - 2] == '\r' }

  lemma {:induction false} ReturnFeedFirst(t: string)
    requires t != ""
    ensures HasReturnFeed(t) <==> EndsReturnFeed(t[..FirstLine(t)]) || HasReturnFeed(t[FirstLine(t)..])
  {
    var n := FirstLine(t);
    FirstLineInside(t);
    if EndsReturnFeed(t[..n]) { assert t[n - 1] == '\n' && t[n - 2] == '\r'; }
    if i :| 0 < i < |t[n..]| && t[n..][i] == '\n' && t[n..][i - 1] == '\r' {
      assert t[n + i] == '\n' && t[n + i - 1] == '\r';
    }
    if i :| 0 < i < |t| && t[i] == '\n' && t[i - 1] == '\r' {
      if i < n {
        assert i == n - 1;
      } else if i > n {
        assert t[n..][i - n] == '\n' && t[n..][i - n - 1] == '\r';
      }
    }
  }

  /** Inside a line nothing breaks but its own ending, and a carriage return that ends it has
      no line feed behind it. */
  lemma {:induction false} FirstLineInside(t: string)
    requires t != ""
    ensures var n := FirstLine(t);
      && (forall i | 0 < i < n && t[i] == '\n' && t[i - 1] == '\r' :: i == n - 1)
      && (n < |t| && t[n - 1] == '\r' ==> t[n] != '\n')
  {
    if !IsBreak(t[0]) && |t| > 1 {
      FirstLineInside(t[1..]);
      var n := FirstLine(t);
      forall i | 0 < i < n && t[i] == '\n' && t[i - 1] == '\r' ensures i == n - 1 {
        if i > 1 { assert t[1..][i - 1] == '\n' && t[1..][i - 2] == '\r'; }
      }
    }
  }

  /** What the fold makes up ends in a carriage return and a line feed if and only if some
      line of the changelog does. */
  lemma {:induction false} NewlineExactly(text: string)
    ensures Newline(text) == "\r\n" <==> exists l | l in Split(text) :: EndsReturnFeed(l)
    ensures Newline(text) != "\r\n" ==> Newline(text) == "\n"
    decreases |text|
  {
    hide HasReturnFeed, EndsReturnFeed;
    if text == "" {
      assert !HasReturnFeed("") by { NoReturnFeed(); }
      SplitNothing();
    } else {
      ReturnFeedFirst(text);
      SplitFirst(text);
      NewlineExactly(text[FirstLine(text)..]);
      var first, rest := text[..FirstLine(text)], Split(text[FirstLine(text)..]);
      assert forall l :: l in Split(text) <==> l == first || l in rest;
    }
  }

  lemma NoReturnFeed()
    ensures !HasReturnFeed("")
  {}

  /** What a fold works with: a changelog whose last line has an ending, and checked
      entries under real dates, which are handled in order. */
  ghost predicate Ready(text: string, folding: Folding, dates: seq<string>) {
    && Complete(text) && AllFoldable(folding)
    && (forall date | date in folding :: IsDate(date))
    && Ascending(dates) && (forall date :: date in dates <==> date in folding)
  }

  function Standing(text: string): Parsed { Group(Split(text)) }

  function Folded(text: string, folding: Folding, dates: seq<string>): Draft
    requires forall date | date in dates :: date in folding
  {
    FoldDates(Standing(text).sections, dates, folding, Newline(text))
  }

  function After(text: string, folding: Folding, dates: seq<string>): string
    requires forall date | date in dates :: date in folding
  {
    Join(Standing(text).preamble) + SectionsText(Folded(text, folding, dates).sections)
  }

  method Assemble(text: string, folding: Folding, dates: seq<string>)
    returns (after: string, created: set<string>, appended: set<string>)
    requires forall date | date in dates :: date in folding
    ensures after == After(text, folding, dates)
    ensures created == Folded(text, folding, dates).created && appended == Folded(text, folding, dates).appended
  {
    var nl := Newline(text);
    var p := Parse(text);
    var a := new Assembly(p.sections, nl);
    for i := 0 to |dates|
      invariant a.nl == nl && a.Now() == FoldDates(p.sections, dates[..i], folding, nl)
    {
      hide FoldDate;
      assert dates[..i + 1][..i] == dates[..i];
      a.Fold(dates[i], folding[dates[i]]);
    }
    assert dates[..|dates|] == dates;
    after, created, appended := Join(p.preamble) + SectionsText(a.sections), a.created, a.appended;
  }

  // A parsed changelog, taken apart

  lemma {:induction false} FirstLineOnce(t: string)
    requires t != ""
    ensures FirstLine(t[..FirstLine(t)]) == FirstLine(t)
  {
    if !IsBreak(t[0]) && |t| > 1 {
      FirstLineOnce(t[1..]);
      var l := t[..FirstLine(t)];
      assert l[1..] == t[1..][..FirstLine(t[1..])];
    }
  }

  lemma {:induction false} LineAlone(t: string, l: string)
    requires l in Split(t)
    ensures Split(l) == [l]
    decreases |t|
  {
    var first, rest := t[..FirstLine(t)], t[FirstLine(t)..];
    if l == first {
      FirstLineOnce(t);
      assert l[..|l|] == l && l[|l|..] == "" && Split(l[|l|..]) == [];
    } else {
      assert Split(t) == [first] + Split(rest);
      LineAlone(rest, l);
    }
  }

  ghost predicate AreLines(lines: seq<string>) {
    forall l | l in lines :: Split(l) == [l] && Complete(l)
  }

  ghost predicate Raw(s: Section) {
    && AreLines([s.heading]) && IsSection(s.heading)
    && AreLines(s.body) && NoSection(s.body)
  }

  lemma {:induction false} GroupedPieces(lines: seq<string>)
    ensures Group(lines).preamble + Pieces(Group(lines).sections) == lines
  {
    hide IsSection;
    if lines != [] {
      GroupedPieces(lines[1..]);
      var p, below := Group(lines), Group(lines[1..]);
      if IsSection(lines[0]) {
        assert p.sections == [Section(lines[0], below.preamble)] + below.sections;
        assert p.sections[1..] == below.sections;
      }
      assert lines == [lines[0]] + lines[1..];
    }
  }

  ghost predicate NoSection(lines: seq<string>) {
    forall l | l in lines :: !IsSection(l)
  }

  lemma {:induction false} GroupedLines(lines: seq<string>)
    requires AreLines(lines)
    ensures AreLines(Group(lines).preamble) && NoSection(Group(lines).preamble)
    ensures forall s | s in Group(lines).sections :: Raw(s)
  {
    hide Split, Complete, IsSection;
    if lines != [] {
      var l, below := lines[0], Group(lines[1..]);
      assert l in lines && AreLines([l]);
      assert forall x | x in lines[1..] :: x in lines;
      GroupedLines(lines[1..]);
      assert IsSection(l) ==> Raw(Section(l, below.preamble));
    }
  }

  lemma {:induction false} LineNames(lines: seq<string>)
    requires AreLines(lines)
    ensures PieceNames(lines) == Names(lines)
  {
    hide Split, Heading;
    if lines != [] {
      assert lines == [lines[0]] + lines[1..];
      LineNames(lines[1..]);
      assert Names(Split(lines[0])) == NameOf(lines[0]) by { assert Names([lines[0]][1..]) == []; }
    }
  }

  lemma RawWritable(s: Section)
    requires Raw(s)
    ensures Writable(s) && SeenWritten(s) == See(s)
  {
    hide Split, Complete, IsSection, Heading, DateOf, Names, PieceNames;
    LineNames(s.body);
    assert s.heading in [s.heading];
    forall x | x in s.body ensures Plain(x) {}
  }

  /** Everything the parser finds in complete text is in whole lines. */
  lemma StandingRaw(text: string)
    requires Complete(text)
    ensures AreLines(Split(text))
    ensures AreLines(Standing(text).preamble) && forall l | l in Standing(text).preamble :: Plain(l)
    ensures forall s | s in Standing(text).sections :: Raw(s)
    ensures Standing(text).preamble + Pieces(Standing(text).sections) == Split(text)
  {
    hide Split, Complete, Group;
    SplitComplete(text);
    forall l | l in Split(text) ensures Split(l) == [l] { LineAlone(text, l); }
    GroupedLines(Split(text));
    GroupedPieces(Split(text));
  }

  lemma {:induction false} SeenIsSee(ss: seq<Section>)
    requires forall s | s in ss :: Raw(s)
    ensures SeenAll(ss) == SeeAll(ss) && forall s | s in ss :: Writable(s)
  {
    hide Raw, SeenWritten, See, Writable;
    if ss != [] {
      assert ss == [ss[0]] + ss[1..];
      RawWritable(ss[0]);
      SeenIsSee(ss[1..]);
    }
  }

  lemma OnePass(text: string, folding: Folding, dates: seq<string>)
    requires Ready(text, folding, dates)
    ensures var ss, nl := Standing(text).sections, Newline(text);
      var news, owed := News(ss, dates), Owed(ss, dates);
      && Foldings(news, owed, folding, nl)
      && Folded(text, folding, dates)
        == Draft(Weave(ss, news, owed, folding, nl), set d | d in news :: d, owed + FedLabels(ss, news))
      && Descending(news) && (forall d :: d in news <==> d in folding && !Stands(ss, d))
      && (forall d :: d in owed <==> d in folding && Stands(ss, d))
  {
    hide Weave, FedLabels, Stands, Group, Split, IsDate, Newline, News, IsEnding;
    var ss := Standing(text).sections;
    FoldIsOnePass(ss, dates, folding, Newline(text));
    NewsExactly(ss, dates);
    NewsDescending(ss, dates);
  }

  /** Both texts as a reader sees them: the one that was read, and the one written out
      and read again. */
  lemma BothSeen(text: string, folding: Folding, dates: seq<string>)
    requires Ready(text, folding, dates)
    ensures var p := Standing(text);
      && OutlineOf(text) == Outline(Join(p.preamble), PieceNames(p.preamble), SeenAll(p.sections))
      && OutlineOf(After(text, folding, dates))
        == Outline(Join(p.preamble), PieceNames(p.preamble), SeenAll(Folded(text, folding, dates).sections))
      && forall s | s in p.sections :: Writable(s)
  {
    hide Split, Group, Weave, News, Complete, IsDate, FoldDates, PieceNames, Names, Stands, Writable;
    var p := Standing(text);
    StandingRaw(text);
    SeenIsSee(p.sections);
    OutlineIsParse(Split(text));
    LineNames(p.preamble);
    OnePass(text, folding, dates);
    WovenWritable(p.sections, News(p.sections, dates), Owed(p.sections, dates), folding, Newline(text));
    WrittenReadsBack(p.preamble, Folded(text, folding, dates).sections);
  }

  /** The fold only inserts: the lines of the text are all in what it writes, in
      their order. */
  lemma FoldInsertsOnly(text: string, folding: Folding, dates: seq<string>)
    requires Ready(text, folding, dates)
    ensures var now := Standing(text).preamble + Pieces(Folded(text, folding, dates).sections);
      Kept(Split(text), now) && Join(now) == After(text, folding, dates)
  {
    hide Split, Group, Weave, News, Complete, IsDate, FoldDates, Kept, Pieces, Stands, Newline, Foldings;
    var p := Standing(text);
    var ss := Folded(text, folding, dates).sections;
    StandingRaw(text);
    OnePass(text, folding, dates);
    WeaveInsertsOnly(p.sections, News(p.sections, dates), Owed(p.sections, dates), folding, Newline(text));
    KeptSelf(p.preamble);
    KeptConcat(p.preamble, p.preamble, Pieces(p.sections), Pieces(ss));
    JoinConcat(p.preamble, Pieces(ss));
    JoinPieces(ss);
  }

  lemma {:induction false} JoinPieces(ss: seq<Section>)
    ensures Join(Pieces(ss)) == SectionsText(ss)
  {
    if ss != [] {
      JoinPieces(ss[1..]);
      var head := [ss[0].heading] + ss[0].body;
      JoinConcat(head, Pieces(ss[1..]));
      assert head[1..] == ss[0].body;
      assert Join(head) == SectionText(ss[0]);
    }
  }

  // The reasons for a refusal

  datatype Reason = NotOnce | ConflictMarker | OutsideChanged | MalformedSection

  predicate Touched(date: Option<string>, touched: set<string>) {
    date.Some? && date.value in touched
  }

  /** What the sections nobody meant to touch say. */
  function Untouched(ss: seq<Seen>, touched: set<string>): seq<(Option<string>, string)> {
    if ss == [] then []
    else (if Touched(ss[0].date, touched) then [] else [(ss[0].date, ss[0].text)]) + Untouched(ss[1..], touched)
  }

  predicate OutsideMoved(was: Outline, now: Outline, touched: set<string>) {
    was.text != now.text || Untouched(was.sections, touched) != Untouched(now.sections, touched)
  }

  /** What the section of a date is compared with: the last one that had it. */
  function LastDated(ss: seq<Seen>, date: string): Option<Seen> {
    if ss == [] then None
    else if ss[|ss| - 1].date == Some(date) then Some(ss[|ss| - 1])
    else LastDated(ss[..|ss| - 1], date)
  }

  predicate Malformed(s: Seen, was: seq<Seen>, folding: Folding, created: set<string>, appended: set<string>)
    requires created <= folding.Keys
  {
    match s.date
    case None => false
    case Some(date) =>
      if date in created then s.names != Wanted(CLASSES, folding[date])
      else if date in appended && LastDated(was, date).Some? then
        var before := LastDated(was, date).value.names;
        !Keeps(before, s.names) || exists name | name in s.names :: name !in before && name !in CLASSES
      else false
  }

  /** How often an entry occurs, counted from the left without overlap. */
  function Count(text: string, entry: string): nat {
    if entry == "" then |text| + 1
    else if |text| < |entry| then 0
    else if text[..|entry|] == entry then 1 + Count(text[|entry|..], entry)
    else Count(text[1..], entry)
  }

  lemma {:induction false} OccursAtLeastOnce(a: string, entry: string, b: string)
    requires entry != ""
    ensures Count(a + entry + b, entry) >= 1
  {
    var text := a + entry + b;
    if a == "" {
      assert text[..|entry|] == entry;
    } else if text[..|entry|] != entry {
      assert text[1..] == a[1..] + entry + b;
      OccursAtLeastOnce(a[1..], entry, b);
    }
  }

  // The byte-identity check fails in one case

  /** A date's own section would go right behind this one, which has the date `dated` says
      or none and does not end in a blank line. */
  ghost predicate FedBy(ss: seq<Section>, i: nat, date: string, dated: Option<string>) {
    && i < |ss| && DateIn(ss[i]) == dated && WantsFeed(ss[i])
    && (forall j | 0 <= j <= i :: !Older(ss[j], date)) && GoesBefore(ss[i + 1..], date)
  }

  ghost predicate SpoiltBy(ss: seq<Section>, i: nat, date: string) {
    FedBy(ss, i, date, None)
  }

  predicate FedOne(ss: seq<Section>, news: seq<string>, dated: Option<string>)
    decreases |ss| + |news|
  {
    if news != [] && GoesBefore(ss, news[0]) then FedOne(ss, news[1..], dated)
    else if ss == [] then false
    else
      (news != [] && DateIn(ss[0]) == dated && WantsFeed(ss[0]) && GoesBefore(ss[1..], news[0]))
      || FedOne(ss[1..], news, dated)
  }

  predicate Spoilt(ss: seq<Section>, news: seq<string>) {
    FedOne(ss, news, None)
  }

  lemma FedBelow(ss: seq<Section>, i: nat, date: string, dated: Option<string>)
    requires ss != [] && i > 0
    ensures FedBy(ss, i, date, dated) <==> !Older(ss[0], date) && FedBy(ss[1..], i - 1, date, dated)
  {
    hide WantsFeed, Less, DateOf;
    if i < |ss| {
      assert ss[1..][i - 1] == ss[i] && ss[1..][i..] == ss[i + 1..];
      assert forall j | 0 <= j < |ss[1..]| :: ss[1..][j] == ss[j + 1];
      if !Older(ss[0], date) && FedBy(ss[1..], i - 1, date, dated) {
        forall j | 0 <= j <= i ensures !Older(ss[j], date) {
          if j > 0 { assert !Older(ss[1..][j - 1], date); }
        }
      }
    }
  }

  lemma {:induction false} FedExactly(ss: seq<Section>, news: seq<string>, dated: Option<string>)
    requires Descending(news)
    ensures FedOne(ss, news, dated) <==> exists i: nat, date :: date in news && FedBy(ss, i, date, dated)
    decreases |ss| + |news|
  {
    hide WantsFeed, Less, DateOf, FedBy;
    if news != [] && GoesBefore(ss, news[0]) {
      FedExactly(ss, news[1..], dated);
      NothingBefore(ss, news[0], dated);
      assert news == [news[0]] + news[1..];
    } else if ss != [] {
      FedExactly(ss[1..], news, dated);
      FedHead(ss, news, dated);
    }
  }

  lemma NothingBefore(ss: seq<Section>, date: string, dated: Option<string>)
    requires GoesBefore(ss, date)
    ensures forall i: nat :: !FedBy(ss, i, date, dated)
  {}

  lemma FedHead(ss: seq<Section>, news: seq<string>, dated: Option<string>)
    requires Descending(news) && ss != [] && (news != [] ==> !GoesBefore(ss, news[0]))
    ensures (exists i: nat, date :: date in news && FedBy(ss, i, date, dated)) <==>
      (news != [] && DateIn(ss[0]) == dated && WantsFeed(ss[0]) && GoesBefore(ss[1..], news[0]))
      || (exists i: nat, date :: date in news && FedBy(ss[1..], i, date, dated))
  {
    hide WantsFeed, Less, DateOf, FedBy;
    if i: nat, date :| date in news && FedBy(ss, i, date, dated) {
      BelowFirst(news, date);
      if i == 0 {
        FedHere(ss, date, dated);
        if |ss| > 1 && date != news[0] { LessTrans(DateIn(ss[1]).value, date, news[0]); }
      } else {
        FedBelow(ss, i, date, dated);
      }
    }
    if news != [] && DateIn(ss[0]) == dated && WantsFeed(ss[0]) && GoesBefore(ss[1..], news[0]) {
      FedHere(ss, news[0], dated);
      assert news[0] in news;
    }
    if i: nat, date :| date in news && FedBy(ss[1..], i, date, dated) {
      BelowFirst(news, date);
      if Older(ss[0], date) && date != news[0] { LessTrans(DateIn(ss[0]).value, date, news[0]); }
      FedBelow(ss, i + 1, date, dated);
    }
  }

  lemma FedHere(ss: seq<Section>, date: string, dated: Option<string>)
    requires ss != []
    ensures FedBy(ss, 0, date, dated) <==>
      DateIn(ss[0]) == dated && !Older(ss[0], date) && WantsFeed(ss[0]) && GoesBefore(ss[1..], date)
  {}

  lemma BelowFirst(news: seq<string>, date: string)
    requires Descending(news) && date in news
    ensures date == news[0] || Less(date, news[0])
  {}

  lemma SpoiltExactly(ss: seq<Section>, news: seq<string>)
    requires Descending(news)
    ensures Spoilt(ss, news) <==> exists i: nat, date :: date in news && SpoiltBy(ss, i, date)
  {
    hide FedBy, FedOne;
    FedExactly(ss, news, None);
    forall i: nat, date ensures SpoiltBy(ss, i, date) <==> FedBy(ss, i, date, None) {}
  }

  /** The dates given a blank line are those of sections like these. */
  lemma {:induction false} FedLabelsExactly(ss: seq<Section>, news: seq<string>, date: string)
    requires date != ""
    ensures date in FedLabels(ss, news) <==> FedOne(ss, news, Some(date))
    decreases |ss| + |news|
  {
    hide DateOf, Less, WantsFeed;
    if news != [] && GoesBefore(ss, news[0]) {
      FedLabelsExactly(ss, news[1..], date);
    } else if ss != [] {
      FedLabelsExactly(ss[1..], news, date);
    }
  }

  /** Text is made longer by a line ending. */
  lemma FedReadsOtherwise(s: Section, nl: string)
    requires IsEnding(nl)
    ensures SectionText(Fed(s, nl)) == SectionText(s) <==> !WantsFeed(s)
  {
    if WantsFeed(s) {
      JoinConcat(s.body, [nl]);
      assert Join([nl]) == nl by { assert Join([nl][1..]) == ""; }
      assert |SectionText(Fed(s, nl))| == |SectionText(s)| + |nl|;
    }
  }

  function UntouchedOne(s: Seen, touched: set<string>): seq<(Option<string>, string)> {
    if Touched(s.date, touched) then [] else [(s.date, s.text)]
  }

  lemma UntouchedFirst(s: Section, ss: seq<Section>, touched: set<string>)
    ensures Untouched(SeenAll([s] + ss), touched)
      == UntouchedOne(SeenWritten(s), touched) + Untouched(SeenAll(ss), touched)
  {
    assert ([s] + ss)[1..] == ss && ([SeenWritten(s)] + SeenAll(ss))[1..] == SeenAll(ss);
  }

  lemma OneUntouched(s: Section, fed: bool, owed: set<string>, folding: Folding, nl: string, touched: set<string>)
    requires owed <= folding.Keys && owed <= touched && IsEnding(nl)
    requires fed && WantsFeed(s) ==> Label(s) in touched
    ensures var now := UntouchedOne(SeenWritten(Grown(s, fed, owed, folding, nl)), touched);
      var was := UntouchedOne(SeenWritten(s), touched);
      |was| == |now| && (was == now <==> !(fed && DateIn(s) == None && WantsFeed(s)))
  {
    hide IsEnding, DateOf, WantsFeed, Fed, GrownWith, SectionText, PieceNames;
    GrownHeading(s, fed, owed, folding, nl);
    FedReadsOtherwise(s, nl);
  }

  /** Outside the dates it says it touched, the fold changes nothing but an undated
      section it had to give a blank line. */
  lemma {:induction false} UntouchedExactly(ss: seq<Section>, news: seq<string>, owed: set<string>, folding: Folding,
                                            nl: string, touched: set<string>)
    requires Foldings(news, owed, folding, nl)
    requires owed + FedLabels(ss, news) <= touched && forall d | d in news :: d in touched
    ensures Untouched(SeenAll(ss), touched) == Untouched(SeenAll(Weave(ss, news, owed, folding, nl)), touched)
      <==> !Spoilt(ss, news)
    decreases |ss| + |news|
  {
    hide Created, IsDate, IsEnding, Less, DateOf, GoesBefore, WantsFeed, Grown, SeenWritten, Untouched, UntouchedOne,
         SeenAll;
    var woven := Weave(ss, news, owed, folding, nl);
    if news != [] { GoesBeforeNone(news[0]); }
    if news != [] && GoesBefore(ss, news[0]) {
      CreatedUntouched(news[0], folding[news[0]], nl, touched);
      UntouchedFirst(Created(news[0], folding[news[0]], nl), Weave(ss, news[1..], owed, folding, nl), touched);
      UntouchedExactly(ss, news[1..], owed, folding, nl, touched);
    } else if ss != [] {
      var fed := news != [] && GoesBefore(ss[1..], news[0]);
      var rest := Weave(ss[1..], news, Paid(ss[0], owed), folding, nl);
      OneUntouched(ss[0], fed, owed, folding, nl, touched);
      UntouchedFirst(ss[0], ss[1..], touched);
      UntouchedFirst(Grown(ss[0], fed, owed, folding, nl), rest, touched);
      assert ss == [ss[0]] + ss[1..];
      UntouchedExactly(ss[1..], news, Paid(ss[0], owed), folding, nl, touched);
      HeadsAndTails(UntouchedOne(SeenWritten(ss[0]), touched),
                    UntouchedOne(SeenWritten(Grown(ss[0], fed, owed, folding, nl)), touched),
                    Untouched(SeenAll(ss[1..]), touched), Untouched(SeenAll(rest), touched));
    }
  }

  lemma CreatedUntouched(date: string, entries: Entries, nl: string, touched: set<string>)
    requires IsDate(date) && IsEnding(nl) && date in touched
    ensures UntouchedOne(SeenWritten(Created(date, entries, nl)), touched) == []
  {
    CreatedDate(date, entries, nl);
  }

  lemma HeadsAndTails<T>(a: seq<T>, b: seq<T>, x: seq<T>, y: seq<T>)
    requires |a| == |b|
    ensures a + x == b + y <==> a == b && x == y
  {
    if a + x == b + y {
      assert a == (a + x)[..|a|] && b == (b + y)[..|a|] && x == (a + x)[|a|..] && y == (b + y)[|a|..];
    }
  }

  // From text to text

  /** The fold's byte-identity check refuses what the fold itself wrote in exactly one
      case, which can be seen in the changelog before anything is folded. */
  lemma OutsideChangedExactly(text: string, folding: Folding, dates: seq<string>)
    requires Ready(text, folding, dates)
    ensures var ss, d := Standing(text).sections, Folded(text, folding, dates);
      OutsideMoved(OutlineOf(text), OutlineOf(After(text, folding, dates)), d.created + d.appended)
      <==> exists i: nat, date :: date in folding && !Stands(ss, date) && SpoiltBy(ss, i, date)
  {
    hide OutlineOf, Weave, Standing, After, News, FedLabels, Untouched, Spoilt, SpoiltBy, Stands, Folded, PieceNames,
         SeenAll, Writable, Newline, Foldings;
    var ss, nl := Standing(text).sections, Newline(text);
    var news, owed, d := News(ss, dates), Owed(ss, dates), Folded(text, folding, dates);
    OnePass(text, folding, dates);
    BothSeen(text, folding, dates);
    UntouchedExactly(ss, news, owed, folding, nl, d.created + d.appended);
    SpoiltExactly(ss, news);
  }

  /** Where every woven section comes from. */
  lemma {:induction false} WovenFrom(ss: seq<Section>, news: seq<string>, owed: set<string>, folding: Folding,
                                     nl: string, s: Section)
    requires Foldings(news, owed, folding, nl) && AllFoldable(folding) && s in Weave(ss, news, owed, folding, nl)
    ensures (exists d :: d in news && s == Created(d, folding[d], nl))
      || (exists was :: was in ss && s.heading == was.heading && Grew(was.body, s.body))
    decreases |ss| + |news|
  {
    hide Created, Grown, IsDate, AllFoldable, IsEnding, GoesBefore, Grew;
    if news != [] { GoesBeforeNone(news[0]); }
    if news != [] && GoesBefore(ss, news[0]) {
      if s != Created(news[0], folding[news[0]], nl) { WovenFrom(ss, news[1..], owed, folding, nl, s); }
    } else if ss != [] {
      var fed := news != [] && GoesBefore(ss[1..], news[0]);
      GrownGrows(ss[0], fed, owed, folding, nl);
      if s != Grown(ss[0], fed, owed, folding, nl) {
        WovenFrom(ss[1..], news, Paid(ss[0], owed), folding, nl, s);
      }
    }
  }

  ghost predicate DistinctDates(ss: seq<Section>) {
    forall i, j | 0 <= i < j < |ss| && DateIn(ss[i]).Some? :: DateIn(ss[i]) != DateIn(ss[j])
  }

  lemma {:induction false} LastIsOnly(ss: seq<Section>, s: Section)
    requires DistinctDates(ss) && s in ss && DateIn(s).Some?
    ensures LastDated(SeenAll(ss), DateIn(s).value) == Some(SeenWritten(s))
  {
    hide DateOf, SectionText, PieceNames;
    var last := |ss| - 1;
    SeenLast(ss);
    if s != ss[last] {
      assert ss == ss[..last] + [ss[last]];
      LastIsOnly(ss[..last], s);
    }
  }

  lemma {:induction false} SeenLast(ss: seq<Section>)
    requires ss != []
    ensures SeenAll(ss) == SeenAll(ss[..|ss| - 1]) + [SeenWritten(ss[|ss| - 1])]
  {
    hide SeenWritten;
    if |ss| > 1 {
      SeenLast(ss[1..]);
      assert ss[1..][..|ss| - 2] == ss[..|ss| - 1][1..];
    } else {
      assert ss == [ss[0]] && SeenAll(ss[1..]) == [];
    }
  }

  lemma {:induction false} SeenOf(ss: seq<Section>, seen: Seen) returns (s: Section)
    requires seen in SeenAll(ss)
    ensures s in ss && seen == SeenWritten(s)
  {
    hide SeenWritten;
    if seen == SeenWritten(ss[0]) { s := ss[0]; } else { s := SeenOf(ss[1..], seen); }
  }

  /** A section that grew out of the one of its date passes; a created one does too. */
  lemma GrownPasses(ss: seq<Section>, was: Section, s: Section, folding: Folding, created: set<string>,
                    appended: set<string>)
    requires DistinctDates(ss) && was in ss && s.heading == was.heading && Grew(was.body, s.body)
    requires created <= folding.Keys && forall d | d in created :: !Stands(ss, d)
    ensures !Malformed(SeenWritten(s), SeenAll(ss), folding, created, appended)
  {
    hide DateOf, SectionText, PieceNames, Plain, Keeps;
    if DateIn(was).Some? {
      var i :| 0 <= i < |ss| && ss[i] == was;
      assert Dated(ss[i], DateIn(was).value);
      LastIsOnly(ss, was);
      KeepsExactly(PieceNames(was.body), PieceNames(s.body));
    }
  }

  /** No section the fold touched is ever found malformed, given that no two standing
      sections have one date. */
  lemma NeverMalformed(text: string, folding: Folding, dates: seq<string>)
    requires Ready(text, folding, dates) && DistinctDates(Standing(text).sections)
    ensures var d := Folded(text, folding, dates);
      && d.created <= folding.Keys
      && forall seen | seen in OutlineOf(After(text, folding, dates)).sections ::
           !Malformed(seen, OutlineOf(text).sections, folding, d.created, d.appended)
  {
    hide OutlineOf, Weave, Standing, After, News, FedLabels, Stands, Folded, PieceNames, SeenAll, SeenWritten, Writable,
         Newline, Malformed, Created, Grew, DistinctDates, Wanted;
    var ss, nl := Standing(text).sections, Newline(text);
    var news, owed, d := News(ss, dates), Owed(ss, dates), Folded(text, folding, dates);
    OnePass(text, folding, dates);
    BothSeen(text, folding, dates);
    forall seen | seen in OutlineOf(After(text, folding, dates)).sections
      ensures !Malformed(seen, OutlineOf(text).sections, folding, d.created, d.appended)
    {
      var s := SeenOf(d.sections, seen);
      WovenFrom(ss, news, owed, folding, nl, s);
      if date :| date in news && s == Created(date, folding[date], nl) {
        CreatedPasses(date, folding, nl, OutlineOf(text).sections, d.created, d.appended);
      } else {
        var was :| was in ss && s.heading == was.heading && Grew(was.body, s.body);
        GrownPasses(ss, was, s, folding, d.created, d.appended);
      }
    }
  }

  lemma CreatedPasses(date: string, folding: Folding, nl: string, was: seq<Seen>, created: set<string>,
                      appended: set<string>)
    requires date in created && created <= folding.Keys && IsDate(date) && Foldable(folding[date]) && IsEnding(nl)
    ensures !Malformed(SeenWritten(Created(date, folding[date], nl)), was, folding, created, appended)
  {
    hide IsDate, Foldable, IsEnding, Created, Wanted, PieceNames, Writable, DateOf;
    CreatedIsCanonical(date, folding[date], nl);
  }

  function DatesSeen(ss: seq<Seen>): seq<string> {
    if ss == [] then []
    else (match ss[0].date case None => [] case Some(date) => [date]) + DatesSeen(ss[1..])
  }

  lemma {:induction false} SeenDates(ss: seq<Section>)
    ensures DatesSeen(SeenAll(ss)) == Dates(ss)
  {
    hide DateOf, SectionText, PieceNames;
    if ss != [] {
      SeenDates(ss[1..]);
      assert SeenAll(ss)[1..] == SeenAll(ss[1..]);
    }
  }

  /** A changelog that runs from the newest date to the oldest still does. */
  lemma DatesStayDescending(text: string, folding: Folding, dates: seq<string>)
    requires Ready(text, folding, dates) && Descending(DatesSeen(OutlineOf(text).sections))
    ensures Descending(DatesSeen(OutlineOf(After(text, folding, dates)).sections))
  {
    hide OutlineOf, Weave, Standing, After, News, FedLabels, Stands, Folded, PieceNames, SeenAll, Writable, Newline,
         Foldings, Descending, Dates, DatesSeen;
    var ss := Standing(text).sections;
    OnePass(text, folding, dates);
    BothSeen(text, folding, dates);
    SeenDates(ss);
    SeenDates(Folded(text, folding, dates).sections);
    DescendingStays(ss, News(ss, dates), Owed(ss, dates), folding, Newline(text));
  }

  lemma {:induction false} PieceInside(pieces: seq<string>, e: string) returns (a: string, b: string)
    requires e in pieces
    ensures Join(pieces) == a + e + b
  {
    if pieces[0] == e {
      a, b := "", Join(pieces[1..]);
    } else {
      var front, back := PieceInside(pieces[1..], e);
      a, b := pieces[0] + front, back;
    }
  }

  lemma {:induction false} PieceOfSection(ss: seq<Section>, i: nat, e: string)
    requires i < |ss| && e in ss[i].body
    ensures e in Pieces(ss)
  {
    if i > 0 { PieceOfSection(ss[1..], i - 1, e); }
  }

  /** Every entry lands whole under its own date, so the text holds it at least once:
      where the once-only check refuses, an entry is there too often, never lost. */
  lemma EveryEntryLands(text: string, folding: Folding, dates: seq<string>, date: string, name: string, e: string)
    requires Ready(text, folding, dates)
    requires date in folding && name in folding[date] && e in folding[date][name]
    ensures Lands(Folded(text, folding, dates).sections, date, e)
    ensures Count(After(text, folding, dates), e) >= 1
  {
    hide Weave, Standing, News, FedLabels, Stands, Folded, Newline, Foldings, Count, Pieces, AllFoldable, IsDate;
    var ss, now := Standing(text).sections, Folded(text, folding, dates).sections;
    OnePass(text, folding, dates);
    EntriesLand(ss, News(ss, dates), Owed(ss, dates), folding, Newline(text), date, name, e);
    var i :| 0 <= i < |now| && Dated(now[i], date) && e in now[i].body;
    PieceOfSection(now, i, e);
    var a, b := PieceInside(Pieces(now), e);
    JoinPieces(now);
    var pre := Join(Standing(text).preamble);
    assert After(text, folding, dates) == (pre + a) + e + b;
    OccursIn(pre + a, e, b);
  }

  lemma OccursIn(a: string, e: string, b: string)
    ensures Count(a + e + b, e) >= 1
  {
    if e != "" { OccursAtLeastOnce(a, e, b); }
  }

  // The post-conditions as the fold evaluates them

  predicate StartsWith(l: string, mark: string) {
    |l| >= |mark| && l[..|mark|] == mark
  }

  predicate HasConflictMarker(text: string) {
    exists l | l in Split(text) ::
      StartsWith(l, "<<<<<<<") || StartsWith(l, ">>>>>>>") || StartsWith(l, "|||||||") || Trimmed(l) == "======="
  }

  predicate Repeated(folding: Folding, after: string) {
    exists date | date in folding :: exists name | name in folding[date] :: exists e | e in folding[date][name] ::
      Count(after, e) != 1
  }

  method PostConditions(before: string, after: string, folding: Folding, created: set<string>, appended: set<string>)
    returns (reasons: set<Reason>)
    requires created <= folding.Keys
    ensures NotOnce in reasons <==> Repeated(folding, after)
    ensures ConflictMarker in reasons <==> HasConflictMarker(after)
    ensures OutsideChanged in reasons <==> OutsideMoved(OutlineOf(before), OutlineOf(after), created + appended)
    ensures MalformedSection in reasons <==> exists s | s in OutlineOf(after).sections ::
      Malformed(s, OutlineOf(before).sections, folding, created, appended)
  {
    hide Split, Malformed, Untouched, Repeated, HasConflictMarker, Group, SeeAll, AllAbove, Print, Names;
    reasons := {};
    if Repeated(folding, after) { reasons := reasons + {NotOnce}; }
    if HasConflictMarker(after) { reasons := reasons + {ConflictMarker}; }
    var p := Parse(before);
    var q := Parse(after);
    OutlineIsParse(Split(before));
    OutlineIsParse(Split(after));
    var was, now := SeeAll(p.sections), SeeAll(q.sections);
    var touched := created + appended;
    if Join(p.preamble) != Join(q.preamble) || Untouched(was, touched) != Untouched(now, touched) {
      reasons := reasons + {OutsideChanged};
    }
    var malformed := AnyMalformed(now, was, folding, created, appended);
    if malformed { reasons := reasons + {MalformedSection}; }
  }

  method AnyMalformed(now: seq<Seen>, was: seq<Seen>, folding: Folding, created: set<string>, appended: set<string>)
    returns (found: bool)
    requires created <= folding.Keys
    ensures found <==> exists s | s in now :: Malformed(s, was, folding, created, appended)
  {
    hide Malformed;
    found := false;
    for i := 0 to |now|
      invariant found <==> exists j | 0 <= j < i :: Malformed(now[j], was, folding, created, appended)
    {
      if Malformed(now[i], was, folding, created, appended) { found := true; }
    }
  }

  /** So a fold over a changelog with distinct dates is refused only for an entry that
      would be there twice, for a conflict marker, or for the one undated section. */
  lemma RefusedOnlyFor(text: string, folding: Folding, dates: seq<string>)
    requires Ready(text, folding, dates) && DistinctDates(Standing(text).sections)
    requires forall date, i: nat | date in folding && !Stands(Standing(text).sections, date) ::
      !SpoiltBy(Standing(text).sections, i, date)
    ensures var d, after := Folded(text, folding, dates), After(text, folding, dates);
      && !OutsideMoved(OutlineOf(text), OutlineOf(after), d.created + d.appended)
      && d.created <= folding.Keys
      && !exists s | s in OutlineOf(after).sections ::
           Malformed(s, OutlineOf(text).sections, folding, d.created, d.appended)
  {
    hide *;
    OutsideChangedExactly(text, folding, dates);
    NeverMalformed(text, folding, dates);
  }
}
