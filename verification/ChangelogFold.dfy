/**
  Folding dates into a changelog, oldest first, and the one pass over the standing
  sections that says what comes of it.
*/
module ChangelogFold {
  import opened Wrappers
  import opened Headings
  import opened ChangelogParse
  import opened ChangelogAppend
  import opened Subsequence

  /** How strings compare. */
  predicate Less(a: string, b: string) {
    b != "" && (a == "" || a[0] < b[0] || (a[0] == b[0] && Less(a[1..], b[1..])))
  }

  lemma {:induction false} LessTrans(a: string, b: string, c: string)
    requires Less(a, b) && Less(b, c)
    ensures Less(a, c)
  {
    if a != "" && a[0] == b[0] == c[0] { LessTrans(a[1..], b[1..], c[1..]); }
  }

  lemma {:induction false} LessAsymmetric(a: string, b: string)
    requires Less(a, b)
    ensures !Less(b, a) && a != b
  {
    if a != "" && a[0] == b[0] { LessAsymmetric(a[1..], b[1..]); }
  }

  lemma {:induction false} LessTotal(a: string, b: string)
    ensures Less(a, b) || Less(b, a) || a == b
  {
    if a != "" && b != "" && a[0] == b[0] {
      LessTotal(a[1..], b[1..]);
      assert a == [a[0]] + a[1..] && b == [b[0]] + b[1..];
    }
  }

  ghost predicate Descending(dates: seq<string>) {
    forall i, j | 0 <= i < j < |dates| :: Less(dates[j], dates[i])
  }

  ghost predicate Ascending(dates: seq<string>) {
    forall i, j | 0 <= i < j < |dates| :: Less(dates[i], dates[j])
  }

  /** What is folded in, by date. */
  type Folding = map<string, Entries>

  function DateIn(s: Section): Option<string> { DateOf(s.heading) }

  predicate Dated(s: Section, date: string) { DateIn(s) == Some(date) }

  predicate Older(s: Section, date: string) { DateIn(s).Some? && Less(DateIn(s).value, date) }

  /** A section gets a blank line at its end if its last piece is none. */
  predicate WantsFeed(s: Section) { s.body != [] && !AllSpace(s.body[|s.body| - 1]) }

  function Fed(s: Section, nl: string): Section {
    if WantsFeed(s) then s.(body := s.body + [nl]) else s
  }

  /** What stands for a section among the dates appended into. */
  function Label(s: Section): string {
    match DateIn(s) case None => "" case Some(date) => date
  }

  predicate Stands(ss: seq<Section>, date: string) {
    exists i | 0 <= i < |ss| :: Dated(ss[i], date)
  }

  // One date

  datatype Draft = Draft(sections: seq<Section>, created: set<string>, appended: set<string>)

  /** A new section for the date goes in front of these. */
  predicate GoesBefore(ss: seq<Section>, date: string) { ss == [] || Older(ss[0], date) }

  function Slot(ss: seq<Section>, date: string, s: Section, nl: string): seq<Section> {
    if GoesBefore(ss, date) then [s] + ss
    else [if GoesBefore(ss[1..], date) then Fed(ss[0], nl) else ss[0]] + Slot(ss[1..], date, s, nl)
  }

  /** The section a new one is put behind, where that section wants a blank line. */
  function SlotLabels(ss: seq<Section>, date: string): set<string> {
    if GoesBefore(ss, date) then {}
    else if GoesBefore(ss[1..], date) then (if WantsFeed(ss[0]) then {Label(ss[0])} else {})
    else SlotLabels(ss[1..], date)
  }

  function GrownWith(s: Section, entries: Entries, nl: string): Section {
    s.(body := AppendAll(s.body, CLASSES, entries, nl))
  }

  /** The first section of the date takes the entries. */
  function GrowFirst(ss: seq<Section>, date: string, entries: Entries, nl: string): seq<Section> {
    if ss == [] then []
    else if Dated(ss[0], date) then [GrownWith(ss[0], entries, nl)] + ss[1..]
    else [ss[0]] + GrowFirst(ss[1..], date, entries, nl)
  }

  function FoldDate(d: Draft, date: string, entries: Entries, nl: string): Draft {
    if Stands(d.sections, date)
    then Draft(GrowFirst(d.sections, date, entries, nl), d.created, d.appended + {date})
    else Draft(Slot(d.sections, date, Created(date, entries, nl), nl), d.created + {date},
               d.appended + SlotLabels(d.sections, date))
  }

  function FoldDates(ss: seq<Section>, dates: seq<string>, folding: Folding, nl: string): Draft
    requires forall date | date in dates :: date in folding
  {
    if dates == [] then Draft(ss, {}, {})
    else
      var last := |dates| - 1;
      FoldDate(FoldDates(ss, dates[..last], folding, nl), dates[last], folding[dates[last]], nl)
  }

  // The same in one pass

  /** A standing section as the fold leaves it. */
  function Grown(s: Section, fed: bool, owed: set<string>, folding: Folding, nl: string): Section
    requires owed <= folding.Keys
  {
    var s' := if fed then Fed(s, nl) else s;
    match DateIn(s)
    case None => s'
    case Some(date) => if date in owed then GrownWith(s', folding[date], nl) else s'
  }

  function Paid(s: Section, owed: set<string>): set<string> {
    match DateIn(s) case None => owed case Some(date) => owed - {date}
  }

  /** The new dates merged into the standing sections: each goes in front of the first
      section older than it. The section it lands behind is given a blank line, and
      the first section of each date in `owed` takes that date's entries. */
  function Weave(ss: seq<Section>, news: seq<string>, owed: set<string>, folding: Folding, nl: string): seq<Section>
    requires owed <= folding.Keys && forall date | date in news :: date in folding
    decreases |ss| + |news|
  {
    if news != [] && GoesBefore(ss, news[0]) then
      [Created(news[0], folding[news[0]], nl)] + Weave(ss, news[1..], owed, folding, nl)
    else if ss == [] then []
    else
      [Grown(ss[0], news != [] && GoesBefore(ss[1..], news[0]), owed, folding, nl)]
      + Weave(ss[1..], news, Paid(ss[0], owed), folding, nl)
  }

  /** The sections that are given a blank line and want one. */
  function FedLabels(ss: seq<Section>, news: seq<string>): set<string>
    decreases |ss| + |news|
  {
    if news != [] && GoesBefore(ss, news[0]) then FedLabels(ss, news[1..])
    else if ss == [] then {}
    else
      (if news != [] && GoesBefore(ss[1..], news[0]) && WantsFeed(ss[0]) then {Label(ss[0])} else {})
      + FedLabels(ss[1..], news)
  }

  ghost predicate AllBelow(dates: seq<string>, date: string) {
    forall d | d in dates :: Less(d, date)
  }

  /** The facts about one step: every date handled so far lies below the next. */
  ghost predicate Next(news: seq<string>, owed: set<string>, date: string) {
    AllBelow(news, date) && forall d | d in owed :: Less(d, date)
  }

  lemma FedTwice(s: Section, nl: string)
    requires IsEnding(nl)
    ensures Fed(Fed(s, nl), nl) == Fed(s, nl) && !WantsFeed(Fed(s, nl))
  {}

  lemma CreatedDate(date: string, entries: Entries, nl: string)
    requires IsDate(date) && IsEnding(nl)
    ensures DateIn(Created(date, entries, nl)) == Some(date)
  {
    WrittenDate(date, nl);
  }

  ghost predicate Foldings(news: seq<string>, owed: set<string>, folding: Folding, nl: string) {
    && owed <= folding.Keys && (forall d | d in news :: d in folding)
    && (forall d | d in folding :: IsDate(d)) && IsEnding(nl)
  }

  /** Where the woven list opens for a later date, the standing one did. */
  lemma WovenGoesBefore(ss: seq<Section>, news: seq<string>, owed: set<string>, folding: Folding, nl: string,
                          date: string)
    requires Foldings(news, owed, folding, nl) && Next(news, owed, date)
    ensures GoesBefore(Weave(ss, news, owed, folding, nl), date) <==> GoesBefore(ss, date)
  {
    hide Created, GrownWith, IsDate, AllSpace, DateOf, IsEnding, Less, Fed;
    if news != [] && GoesBefore(ss, news[0]) {
      CreatedDate(news[0], folding[news[0]], nl);
      if ss != [] { LessTrans(DateIn(ss[0]).value, news[0], date); }
    } else if ss != [] {
      GrownHeading(ss[0], news != [] && GoesBefore(ss[1..], news[0]), owed, folding, nl);
    }
  }

  lemma GrownHeading(s: Section, fed: bool, owed: set<string>, folding: Folding, nl: string)
    requires owed <= folding.Keys
    ensures Grown(s, fed, owed, folding, nl).heading == s.heading
  {}

  lemma NotYet(ss: seq<Section>, news: seq<string>, owed: set<string>, folding: Folding, nl: string, date: string)
    requires Foldings(news, owed, folding, nl) && Next(news, owed, date) && !GoesBefore(ss, date) && !Stands(ss, date)
    ensures news != [] ==> !GoesBefore(ss, news[0])
    ensures news != [] && GoesBefore(ss[1..], news[0]) ==> GoesBefore(ss[1..], date)
    ensures DateIn(ss[0]).Some? ==> DateIn(ss[0]).value !in owed
  {
    hide IsDate, DateOf, IsEnding, Less;
    if news != [] && Older(ss[0], news[0]) { LessTrans(DateIn(ss[0]).value, news[0], date); }
    if news != [] && |ss| > 1 && Older(ss[1], news[0]) { LessTrans(DateIn(ss[1]).value, news[0], date); }
  }

  /** A new date above all the others is slotted in just where the pass puts it. */
  lemma {:induction false} SlotWeaves(ss: seq<Section>, news: seq<string>, owed: set<string>, folding: Folding,
                                      nl: string, date: string)
    requires Foldings(news, owed, folding, nl) && date in folding && Next(news, owed, date) && !Stands(ss, date)
    ensures Slot(Weave(ss, news, owed, folding, nl), date, Created(date, folding[date], nl), nl)
      == Weave(ss, [date] + news, owed, folding, nl)
    ensures FedLabels(ss, [date] + news)
      == FedLabels(ss, news) + SlotLabels(Weave(ss, news, owed, folding, nl), date)
    decreases |ss|
  {
    hide Created, GrownWith, IsDate, AllSpace, DateOf, IsEnding, Less, Fed;
    var woven := Weave(ss, news, owed, folding, nl);
    assert ([date] + news)[0] == date && ([date] + news)[1..] == news;
    WovenGoesBefore(ss, news, owed, folding, nl, date);
    if !GoesBefore(ss, date) {
      NotYet(ss, news, owed, folding, nl, date);
      var owed' := Paid(ss[0], owed);
      var rest := Weave(ss[1..], news, owed', folding, nl);
      assert forall i | 0 <= i < |ss[1..]| :: ss[1..][i] == ss[i + 1];
      SlotWeaves(ss[1..], news, owed', folding, nl, date);
      WovenGoesBefore(ss[1..], news, owed', folding, nl, date);
      assert woven == [Grown(ss[0], news != [] && GoesBefore(ss[1..], news[0]), owed, folding, nl)] + rest;
      assert woven[1..] == rest;
      FedTwice(ss[0], nl);
    }
  }

  /** A date that stands is folded into the section the pass folds it into. */
  lemma {:induction false} GrowWeaves(ss: seq<Section>, news: seq<string>, owed: set<string>, folding: Folding,
                                      nl: string, date: string)
    requires Foldings(news, owed, folding, nl) && date in folding && date !in news && date !in owed
    requires Stands(ss, date)
    ensures GrowFirst(Weave(ss, news, owed, folding, nl), date, folding[date], nl)
      == Weave(ss, news, owed + {date}, folding, nl)
    decreases |ss| + |news|
  {
    hide Created, GrownWith, IsDate, AllSpace, DateOf, IsEnding, Less, Fed, GoesBefore;
    var woven := Weave(ss, news, owed, folding, nl);
    if news != [] && GoesBefore(ss, news[0]) {
      CreatedDate(news[0], folding[news[0]], nl);
      var rest := Weave(ss, news[1..], owed, folding, nl);
      assert woven == [Created(news[0], folding[news[0]], nl)] + rest && woven[1..] == rest;
      GrowWeaves(ss, news[1..], owed, folding, nl, date);
    } else {
      var fed := news != [] && GoesBefore(ss[1..], news[0]);
      GrownHeading(ss[0], fed, owed, folding, nl);
      var rest := Weave(ss[1..], news, Paid(ss[0], owed), folding, nl);
      assert woven == [Grown(ss[0], fed, owed, folding, nl)] + rest && woven[1..] == rest;
      if Dated(ss[0], date) {
        assert Paid(ss[0], owed + {date}) == owed == Paid(ss[0], owed);
      } else {
        assert Stands(ss[1..], date) by {
          var i :| 0 <= i < |ss| && Dated(ss[i], date);
          assert ss[1..][i - 1] == ss[i];
        }
        assert Paid(ss[0], owed + {date}) == Paid(ss[0], owed) + {date};
        GrowWeaves(ss[1..], news, Paid(ss[0], owed), folding, nl, date);
      }
    }
  }

  /** The dates of the woven sections: those that stood and the new ones. */
  lemma {:induction false} WovenStands(ss: seq<Section>, news: seq<string>, owed: set<string>, folding: Folding,
                                       nl: string, date: string)
    requires Foldings(news, owed, folding, nl)
    ensures Stands(Weave(ss, news, owed, folding, nl), date) <==> Stands(ss, date) || date in news
    decreases |ss| + |news|
  {
    hide Created, GrownWith, IsDate, AllSpace, DateOf, IsEnding, Less, Fed, GoesBefore, Stands;
    var woven := Weave(ss, news, owed, folding, nl);
    if news != [] { GoesBeforeNone(news[0]); }
    if news != [] && GoesBefore(ss, news[0]) {
      CreatedDate(news[0], folding[news[0]], nl);
      var rest := Weave(ss, news[1..], owed, folding, nl);
      StandsFirst(Created(news[0], folding[news[0]], nl), rest, date);
      WovenStands(ss, news[1..], owed, folding, nl, date);
      assert news == [news[0]] + news[1..];
    } else if ss == [] {
      assert woven == [];
      StandsNone(date);
    } else {
      var fed := news != [] && GoesBefore(ss[1..], news[0]);
      GrownHeading(ss[0], fed, owed, folding, nl);
      StandsFirst(Grown(ss[0], fed, owed, folding, nl), Weave(ss[1..], news, Paid(ss[0], owed), folding, nl), date);
      StandsFirst(ss[0], ss[1..], date);
      assert [ss[0]] + ss[1..] == ss;
      WovenStands(ss[1..], news, Paid(ss[0], owed), folding, nl, date);
    }
  }

  lemma GoesBeforeNone(date: string)
    ensures GoesBefore([], date)
  {}

  lemma StandsNone(date: string)
    ensures !Stands([], date)
  {}

  lemma StandsFirst(s: Section, ss: seq<Section>, date: string)
    ensures Stands([s] + ss, date) <==> Dated(s, date) || Stands(ss, date)
  {
    if Stands(ss, date) {
      var i :| 0 <= i < |ss| && Dated(ss[i], date);
      assert ([s] + ss)[i + 1] == ss[i];
    }
    assert ([s] + ss)[0] == s;
  }

  // All the dates

  /** The dates that get a section of their own, newest first. */
  function News(ss: seq<Section>, dates: seq<string>): seq<string> {
    if dates == [] then []
    else
      var last := |dates| - 1;
      (if Stands(ss, dates[last]) then [] else [dates[last]]) + News(ss, dates[..last])
  }

  /** The dates some section has already. */
  function Owed(ss: seq<Section>, dates: seq<string>): set<string> {
    set date | date in dates && Stands(ss, date)
  }

  lemma {:induction false} NewsExactly(ss: seq<Section>, dates: seq<string>)
    ensures forall date :: date in News(ss, dates) <==> date in dates && !Stands(ss, date)
  {
    hide Stands;
    if dates != [] {
      var last := |dates| - 1;
      NewsExactly(ss, dates[..last]);
      assert dates == dates[..last] + [dates[last]];
    }
  }

  lemma {:induction false} NewsDescending(ss: seq<Section>, dates: seq<string>)
    requires Ascending(dates)
    ensures Descending(News(ss, dates))
  {
    hide Stands, Less;
    if dates != [] {
      var last := |dates| - 1;
      NewsDescending(ss, dates[..last]);
      NewsExactly(ss, dates[..last]);
      var more := News(ss, dates[..last]);
      assert forall i | 0 <= i < |more| :: more[i] in more;
      assert forall d | d in dates[..last] :: Less(d, dates[last]);
    }
  }

  /** Folding the dates in one by one, each splice made in what the last one left,
      comes to one pass over the sections that stood. */
  lemma {:induction false} FoldIsOnePass(ss: seq<Section>, dates: seq<string>, folding: Folding, nl: string)
    requires Ascending(dates) && (forall date | date in dates :: date in folding)
    requires (forall date | date in folding :: IsDate(date)) && IsEnding(nl)
    ensures var news, owed := News(ss, dates), Owed(ss, dates);
      && Foldings(news, owed, folding, nl)
      && FoldDates(ss, dates, folding, nl)
        == Draft(Weave(ss, news, owed, folding, nl), (set d | d in news), owed + FedLabels(ss, news))
  {
    hide IsDate, IsEnding, Less, Weave, FedLabels, Slot, News, SlotLabels, GrowFirst, Stands, Created;
    NewsExactly(ss, dates);
    if dates == [] {
      assert News(ss, dates) == [] by { NewsNone(ss); }
      assert Owed(ss, dates) == {};
      NothingToFold(ss, folding, nl);
    } else {
      var last := |dates| - 1;
      var before, date := dates[..last], dates[last];
      assert dates == before + [date];
      FoldIsOnePass(ss, before, folding, nl);
      NewsExactly(ss, before);
      var news, owed := News(ss, before), Owed(ss, before);
      assert Next(news, owed, date);
      LessNever(date);
      NewsLast(ss, dates);
      WovenStands(ss, news, owed, folding, nl, date);
      if Stands(ss, date) {
        assert [] + news == news;
        GrowWeaves(ss, news, owed, folding, nl, date);
        assert Owed(ss, dates) == owed + {date};
      } else {
        SlotWeaves(ss, news, owed, folding, nl, date);
        assert Owed(ss, dates) == owed;
      }
    }
  }

  lemma NewsNone(ss: seq<Section>)
    ensures News(ss, []) == []
  {}

  lemma NewsLast(ss: seq<Section>, dates: seq<string>)
    requires dates != []
    ensures var last := |dates| - 1;
      News(ss, dates) == (if Stands(ss, dates[last]) then [] else [dates[last]]) + News(ss, dates[..last])
  {}

  lemma LessNever(date: string)
    ensures !Less(date, date)
  {
    if Less(date, date) { LessAsymmetric(date, date); }
  }

  lemma {:induction false} NothingToFold(ss: seq<Section>, folding: Folding, nl: string)
    ensures Weave(ss, [], {}, folding, nl) == ss && FedLabels(ss, []) == {}
  {
    if ss != [] {
      assert Paid(ss[0], {}) == {};
      NothingToFold(ss[1..], folding, nl);
    }
  }

  // What the pass keeps

  ghost predicate AllFoldable(folding: Folding) {
    forall date | date in folding :: Foldable(folding[date])
  }

  function Pieces(ss: seq<Section>): seq<string> {
    if ss == [] then [] else [ss[0].heading] + ss[0].body + Pieces(ss[1..])
  }

  lemma GrownGrows(s: Section, fed: bool, owed: set<string>, folding: Folding, nl: string)
    requires owed <= folding.Keys && AllFoldable(folding) && IsEnding(nl)
    ensures var s' := Grown(s, fed, owed, folding, nl);
      s'.heading == s.heading && Grew(s.body, s'.body) && (Writable(s) ==> Writable(s'))
  {
    hide Grew, AppendAll, Plain, Foldable;
    var s' := if fed then Fed(s, nl) else s;
    assert Grew(s.body, s'.body) by { if fed { FedGrows(s, nl); } else { GrewSelf(s.body); } }
    if DateIn(s).Some? && DateIn(s).value in owed {
      AppendAllGrows(s'.body, CLASSES, folding[DateIn(s).value], nl);
      GrewTrans(s.body, s'.body, Grown(s, fed, owed, folding, nl).body);
    }
    GrewPlain(s.body, Grown(s, fed, owed, folding, nl).body);
  }

  lemma GrewPlain(was: seq<string>, now: seq<string>)
    requires Grew(was, now)
    ensures (forall x | x in was :: Plain(x)) ==> forall x | x in now :: Plain(x)
  {}

  lemma FedGrows(s: Section, nl: string)
    requires IsEnding(nl)
    ensures Grew(s.body, Fed(s, nl).body)
  {
    hide Grew, Plain;
    GrewSelf(s.body);
    WrittenFeed(nl);
    Alone(nl);
    InsertGrows(s.body, |s.body|, [nl]);
    assert s.body[..|s.body|] + [nl] + s.body[|s.body|..] == s.body + [nl];
  }

  /** The fold only puts in: every line of every section that stood is there, in
      its order, whatever was put between. */
  lemma {:induction false} WeaveInsertsOnly(ss: seq<Section>, news: seq<string>, owed: set<string>, folding: Folding,
                                            nl: string)
    requires Foldings(news, owed, folding, nl) && AllFoldable(folding)
    ensures Kept(Pieces(ss), Pieces(Weave(ss, news, owed, folding, nl)))
    decreases |ss| + |news|
  {
    hide Created, Grown, IsDate, IsEnding, GoesBefore, AllFoldable, Kept;
    var woven := Weave(ss, news, owed, folding, nl);
    if news != [] && GoesBefore(ss, news[0]) {
      var s := Created(news[0], folding[news[0]], nl);
      WeaveInsertsOnly(ss, news[1..], owed, folding, nl);
      KeptNothing([s.heading] + s.body);
      KeptConcat([], [s.heading] + s.body, Pieces(ss), Pieces(woven[1..]));
      assert [] + Pieces(ss) == Pieces(ss);
    } else if ss == [] {
      KeptNothing<string>([]);
    } else {
      var s := Grown(ss[0], news != [] && GoesBefore(ss[1..], news[0]), owed, folding, nl);
      GrownGrows(ss[0], news != [] && GoesBefore(ss[1..], news[0]), owed, folding, nl);
      WeaveInsertsOnly(ss[1..], news, Paid(ss[0], owed), folding, nl);
      KeptSelf([s.heading]);
      KeptConcat([s.heading], [s.heading], ss[0].body, s.body);
      KeptConcat([s.heading] + ss[0].body, [s.heading] + s.body, Pieces(ss[1..]), Pieces(woven[1..]));
    }
  }

  lemma {:induction false} WovenWritable(ss: seq<Section>, news: seq<string>, owed: set<string>, folding: Folding,
                                         nl: string)
    requires Foldings(news, owed, folding, nl) && AllFoldable(folding)
    requires forall s | s in ss :: Writable(s)
    ensures forall s | s in Weave(ss, news, owed, folding, nl) :: Writable(s)
    decreases |ss| + |news|
  {
    hide Created, Grown, IsDate, IsEnding, GoesBefore, Writable, Foldable;
    if news != [] && GoesBefore(ss, news[0]) {
      CreatedIsCanonical(news[0], folding[news[0]], nl);
      WovenWritable(ss, news[1..], owed, folding, nl);
    } else if ss != [] {
      GrownGrows(ss[0], news != [] && GoesBefore(ss[1..], news[0]), owed, folding, nl);
      WovenWritable(ss[1..], news, Paid(ss[0], owed), folding, nl);
    }
  }

  /** The dates sections have, in their order; a section with no date has none. */
  function Dates(ss: seq<Section>): seq<string> {
    if ss == [] then []
    else (match DateIn(ss[0]) case None => [] case Some(date) => [date]) + Dates(ss[1..])
  }

  ghost predicate DatesBelow(dates: seq<string>, date: string) {
    forall d | d in dates :: Less(d, date)
  }

  lemma DescendingFirst(date: string, dates: seq<string>)
    ensures Descending([date] + dates) <==> Descending(dates) && DatesBelow(dates, date)
  {
    var all := [date] + dates;
    hide Less;
    if Descending(all) {
      forall i | 0 <= i < |dates| ensures dates[i] == all[i + 1] && Less(dates[i], date) {
        assert Less(all[i + 1], all[0]);
      }
    }
    if Descending(dates) && DatesBelow(dates, date) {
      forall i, j | 0 <= i < j < |all| ensures Less(all[j], all[i]) {
        assert all[j] == dates[j - 1];
        if i > 0 { assert all[i] == dates[i - 1]; }
      }
    }
  }

  lemma BelowTrans(dates: seq<string>, date: string, above: string)
    requires DatesBelow(dates, date) && Less(date, above)
    ensures DatesBelow(dates, above)
  {
    forall d | d in dates ensures Less(d, above) { LessTrans(d, date, above); }
  }

  /** What the merge's next output stands above. */
  lemma NextAbove(ss: seq<Section>, news: seq<string>)
    requires Descending(Dates(ss)) && Descending(news) && (forall d | d in news :: !Stands(ss, d)) && news != []
    ensures Descending(news[1..]) && DatesBelow(news[1..], news[0])
    ensures GoesBefore(ss, news[0]) ==> DatesBelow(Dates(ss), news[0])
    ensures !GoesBefore(ss, news[0]) && DateIn(ss[0]).Some? ==> DatesBelow(news, DateIn(ss[0]).value)
  {
    hide Less, DateOf;
    DescendingFirst(news[0], news[1..]);
    assert [news[0]] + news[1..] == news;
    if ss != [] && DateIn(ss[0]).Some? {
      var date := DateIn(ss[0]).value;
      DescendingFirst(date, Dates(ss[1..]));
      if GoesBefore(ss, news[0]) {
        BelowTrans(Dates(ss[1..]), date, news[0]);
      } else {
        assert Dated(ss[0], date) && news[0] in news;
        LessTotal(date, news[0]);
        BelowTrans(news[1..], news[0], date);
      }
    }
  }

  lemma FirstDates(ss: seq<Section>)
    requires ss != []
    ensures Dates(ss) == if DateIn(ss[0]).Some? then [DateIn(ss[0]).value] + Dates(ss[1..]) else Dates(ss[1..])
  {}

  /** Descending dates stay descending. */
  lemma {:induction false} DescendingStays(ss: seq<Section>, news: seq<string>, owed: set<string>, folding: Folding,
                                           nl: string)
    requires Foldings(news, owed, folding, nl)
    requires Descending(Dates(ss)) && Descending(news) && forall d | d in news :: !Stands(ss, d)
    ensures Descending(Dates(Weave(ss, news, owed, folding, nl)))
    ensures forall d :: d in Dates(Weave(ss, news, owed, folding, nl)) <==> d in Dates(ss) || d in news
    decreases |ss| + |news|
  {
    hide Created, Grown, IsDate, IsEnding, Less, DateOf, GoesBefore, Descending, Dates;
    var woven := Weave(ss, news, owed, folding, nl);
    if news != [] { NextAbove(ss, news); GoesBeforeNone(news[0]); }
    if news != [] && GoesBefore(ss, news[0]) {
      CreatedDate(news[0], folding[news[0]], nl);
      DescendingStays(ss, news[1..], owed, folding, nl);
      FirstDates(woven);
      DescendingFirst(news[0], Dates(woven[1..]));
    } else if ss != [] {
      var fed := news != [] && GoesBefore(ss[1..], news[0]);
      GrownHeading(ss[0], fed, owed, folding, nl);
      FirstDates(ss);
      FirstDates(woven);
      if DateIn(ss[0]).Some? { DescendingFirst(DateIn(ss[0]).value, Dates(ss[1..])); }
      assert forall i | 0 <= i < |ss[1..]| :: ss[1..][i] == ss[i + 1];
      DescendingStays(ss[1..], news, Paid(ss[0], owed), folding, nl);
      if DateIn(ss[0]).Some? { DescendingFirst(DateIn(ss[0]).value, Dates(woven[1..])); }
    }
  }

  ghost predicate Lands(ss: seq<Section>, date: string, e: string) {
    exists i | 0 <= i < |ss| :: Dated(ss[i], date) && e in ss[i].body
  }

  lemma LandsFirst(s: Section, ss: seq<Section>, date: string, e: string)
    requires (Dated(s, date) && e in s.body) || Lands(ss, date, e)
    ensures Lands([s] + ss, date, e)
  {
    assert ([s] + ss)[0] == s;
    if !(Dated(s, date) && e in s.body) {
      var i :| 0 <= i < |ss| && Dated(ss[i], date) && e in ss[i].body;
      assert ([s] + ss)[i + 1] == ss[i];
    }
  }

  lemma GrownHolds(s: Section, fed: bool, owed: set<string>, folding: Folding, nl: string, date: string,
                   name: string, e: string)
    requires owed <= folding.Keys && AllFoldable(folding) && IsEnding(nl)
    requires date in owed && Dated(s, date) && name in folding[date] && e in folding[date][name]
    ensures e in Grown(s, fed, owed, folding, nl).body
  {
    hide AppendAll, Grew;
    AppendAllGrows((if fed then Fed(s, nl) else s).body, CLASSES, folding[date], nl);
  }

  /** Every entry lands, whole, in a section of its own date. */
  lemma {:induction false} EntriesLand(ss: seq<Section>, news: seq<string>, owed: set<string>, folding: Folding,
                                       nl: string, date: string, name: string, e: string)
    requires Foldings(news, owed, folding, nl) && AllFoldable(folding)
    requires (date in owed && Stands(ss, date)) || date in news
    requires date in folding && name in folding[date] && e in folding[date][name]
    ensures Lands(Weave(ss, news, owed, folding, nl), date, e)
    decreases |ss| + |news|
  {
    hide Created, Grown, IsDate, IsEnding, Less, DateOf, Foldable, Stands, Lands, GoesBefore;
    var woven := Weave(ss, news, owed, folding, nl);
    if news != [] { GoesBeforeNone(news[0]); }
    if news != [] && GoesBefore(ss, news[0]) {
      var s := Created(news[0], folding[news[0]], nl);
      CreatedIsCanonical(news[0], folding[news[0]], nl);
      if date != news[0] { EntriesLand(ss, news[1..], owed, folding, nl, date, name, e); }
      LandsFirst(s, woven[1..], date, e);
      assert woven == [s] + woven[1..];
    } else if ss == [] {
      StandsNone(date);
    } else {
      var fed := news != [] && GoesBefore(ss[1..], news[0]);
      var s := Grown(ss[0], fed, owed, folding, nl);
      GrownHeading(ss[0], fed, owed, folding, nl);
      StandsFirst(ss[0], ss[1..], date);
      assert [ss[0]] + ss[1..] == ss;
      if date in owed && Dated(ss[0], date) {
        GrownHolds(ss[0], fed, owed, folding, nl, date, name, e);
      } else {
        EntriesLand(ss[1..], news, Paid(ss[0], owed), folding, nl, date, name, e);
      }
      LandsFirst(s, woven[1..], date, e);
      assert woven == [s] + woven[1..];
    }
  }

  // The fold itself

  lemma {:induction false} GrowFirstAt(ss: seq<Section>, date: string, entries: Entries, nl: string, at: nat)
    requires at < |ss| && Dated(ss[at], date) && forall i | 0 <= i < at :: !Dated(ss[i], date)
    ensures GrowFirst(ss, date, entries, nl) == ss[at := GrownWith(ss[at], entries, nl)]
  {
    hide GrownWith, DateOf;
    if at > 0 { GrowFirstAt(ss[1..], date, entries, nl, at - 1); }
  }

  lemma {:induction false} SlotAt(ss: seq<Section>, date: string, s: Section, nl: string, at: nat)
    requires at <= |ss| && GoesBefore(ss[at..], date) && forall i | 0 <= i < at :: !Older(ss[i], date)
    ensures var fed := if at > 0 then ss[at - 1 := Fed(ss[at - 1], nl)] else ss;
      Slot(ss, date, s, nl) == fed[..at] + [s] + fed[at..]
    ensures SlotLabels(ss, date) == if at > 0 && WantsFeed(ss[at - 1]) then {Label(ss[at - 1])} else {}
  {
    hide Fed, WantsFeed, DateOf, Less;
    if at == 0 {
      assert ss[0..] == ss;
    } else {
      assert ss[1..][at - 1..] == ss[at..];
      SlotAt(ss[1..], date, s, nl, at - 1);
      if at > 1 { assert !GoesBefore(ss[1..], date); }
    }
  }

  /** The sections under the fold's hands, and the dates it has touched. */
  class Assembly {
    const nl: string
    var sections: seq<Section>
    var created: set<string>
    var appended: set<string>

    constructor (sections: seq<Section>, nl: string)
      ensures this.nl == nl && Now() == Draft(sections, {}, {})
    {
      this.nl, this.sections, created, appended := nl, sections, {}, {};
    }

    function Now(): Draft
      reads this
    {
      Draft(sections, created, appended)
    }

    method Standing(date: string) returns (at: nat)
      ensures at <= |sections| && (at < |sections| ==> Dated(sections[at], date))
      ensures forall i | 0 <= i < at :: !Dated(sections[i], date)
    {
      at := 0;
      while at < |sections| && !Dated(sections[at], date)
        invariant at <= |sections| && forall i | 0 <= i < at :: !Dated(sections[i], date)
      {
        at := at + 1;
      }
    }

    method FirstOlder(date: string) returns (at: nat)
      ensures at <= |sections| && GoesBefore(sections[at..], date)
      ensures forall i | 0 <= i < at :: !Older(sections[i], date)
    {
      at := 0;
      while at < |sections| && !Older(sections[at], date)
        invariant at <= |sections| && forall i | 0 <= i < at :: !Older(sections[i], date)
      {
        at := at + 1;
      }
    }

    /** One date's entries put in: into the first section of that date, or into a
        section of their own in front of the first older one. */
    method Fold(date: string, entries: Entries)
      modifies this
      ensures Now() == FoldDate(old(Now()), date, entries, nl)
    {
      hide DateOf, Less, AppendAll, Created, Slot, SlotLabels, GrowFirst;
      var standing := Standing(date);
      if standing == |sections| {
        assert !Stands(sections, date);
        var section := CreateSection(date, entries, nl);
        var at := FirstOlder(date);
        SlotAt(sections, date, section, nl, at);
        if at > 0 && sections[at - 1].body != [] && !AllSpace(sections[at - 1].body[|sections[at - 1].body| - 1]) {
          var above := sections[at - 1];
          sections := sections[at - 1 := above.(body := above.body + [nl])];
          appended := appended + {Label(above)};
        }
        sections := sections[..at] + [section] + sections[at..];
        created := created + {date};
      } else {
        assert Stands(sections, date);
        GrowFirstAt(sections, date, entries, nl, standing);
        var body := AppendEach(sections[standing].body, entries, nl);
        sections := sections[standing := sections[standing].(body := body)];
        appended := appended + {date};
      }
    }
  }
}
