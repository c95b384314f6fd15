/**
  What a fold adds up to, piece by piece, and what follows for the refusal of an entry that
  would be there more than once.
*/
module ChangelogRefused {
  import opened Lines
  import opened Headings
  import opened ChangelogParse
  import opened ChangelogAppend
  import opened ChangelogFold
  import opened ChangelogChecks

  // Weighing pieces

  function Sum(w: string -> nat, pieces: seq<string>): nat {
    if pieces == [] then 0 else w(pieces[0]) + Sum(w, pieces[1..])
  }

  lemma {:induction false} SumJoin(w: string -> nat, a: seq<string>, b: seq<string>)
    ensures Sum(w, a + b) == Sum(w, a) + Sum(w, b)
  {
    if a == [] {
      assert a + b == b;
    } else {
      assert (a + b)[1..] == a[1..] + b;
      SumJoin(w, a[1..], b);
    }
  }

  lemma {:induction false} SumMember(w: string -> nat, pieces: seq<string>, x: string)
    requires x in pieces
    ensures Sum(w, pieces) >= w(x)
  {
    if pieces[0] != x { SumMember(w, pieces[1..], x); }
  }

  /** What a date's entries weigh, class by class. */
  function EntriesSum(w: string -> nat, names: seq<string>, entries: Entries): nat {
    if names == [] then 0
    else (if names[0] in entries then Sum(w, entries[names[0]]) else 0) + EntriesSum(w, names[1..], entries)
  }

  function FoldingSum(w: string -> nat, dates: seq<string>, folding: Folding): nat
    requires forall d | d in dates :: d in folding
  {
    if dates == [] then 0
    else
      var last := |dates| - 1;
      FoldingSum(w, dates[..last], folding) + EntriesSum(w, CLASSES, folding[dates[last]])
  }

  lemma {:induction false} EntriesMember(w: string -> nat, names: seq<string>, entries: Entries, name: string,
                                         e: string)
    requires name in names && name in entries && e in entries[name]
    ensures EntriesSum(w, names, entries) >= w(e)
  {
    if names[0] == name {
      SumMember(w, entries[name], e);
    } else {
      EntriesMember(w, names[1..], entries, name, e);
    }
  }

  lemma {:induction false} FoldingMember(w: string -> nat, dates: seq<string>, folding: Folding, date: string,
                                         name: string, e: string)
    requires (forall d | d in dates :: d in folding) && date in dates
    requires name in CLASSES && name in folding[date] && e in folding[date][name]
    ensures FoldingSum(w, dates, folding) >= w(e)
  {
    var last := |dates| - 1;
    if dates[last] == date {
      EntriesMember(w, CLASSES, folding[date], name, e);
    } else {
      FoldingMember(w, dates[..last], folding, date, name, e);
    }
  }

  /** Neither a line ending nor a class heading the fold makes up weighs anything. */
  predicate Light(w: string -> nat, nl: string) {
    w(nl) == 0 && forall name | name in CLASSES :: w("### " + name + nl) == 0
  }

  lemma {:induction false} BlockSum(w: string -> nat, entries: seq<string>, nl: string)
    ensures Sum(w, Interleaved(entries, nl)) >= Sum(w, entries)
    ensures w(nl) == 0 ==> Sum(w, Interleaved(entries, nl)) == Sum(w, entries)
  {
    if |entries| > 1 {
      BlockSum(w, entries[1..], nl);
      SumJoin(w, [entries[0], nl], Interleaved(entries[1..], nl));
      assert Sum(w, [entries[0], nl]) == w(entries[0]) + w(nl) by { assert Sum(w, [nl]) == w(nl); }
    }
  }

  lemma SumOne(w: string -> nat, x: string)
    ensures Sum(w, [x]) == w(x)
  {
    assert [x][1..] == [];
  }

  lemma PutSum(w: string -> nat, p: Place, name: string, entries: seq<string>, nl: string)
    ensures Sum(w, Put(p, name, entries, nl)) >= Sum(w, entries)
    ensures w(nl) == w("### " + name + nl) == 0 ==> Sum(w, Put(p, name, entries, nl)) == Sum(w, entries)
  {
    SumOne(w, nl);
    SumOne(w, "### " + name + nl);
    SumJoin(w, ["### " + name + nl], [nl]);
    assert ["### " + name + nl] + [nl] == ["### " + name + nl, nl];
    hide Sum;
    BlockSum(w, entries, nl);
    var block := Interleaved(entries, nl);
    SumJoin(w, [nl], block);
    SumJoin(w, ["### " + name + nl, nl], block);
    SumJoin(w, ["### " + name + nl, nl] + block, [nl]);
    SumJoin(w, [nl], ["### " + name + nl, nl]);
    assert [nl] + ["### " + name + nl, nl] == [nl, "### " + name + nl, nl];
    SumJoin(w, [nl, "### " + name + nl, nl], block);
  }

  lemma AppendSum(w: string -> nat, body: seq<string>, name: string, entries: seq<string>, nl: string)
    requires name in CLASSES
    ensures Sum(w, AppendTo(body, name, entries, nl)) >= Sum(w, body) + Sum(w, entries)
    ensures Light(w, nl) ==> Sum(w, AppendTo(body, name, entries, nl)) == Sum(w, body) + Sum(w, entries)
  {
    hide Sum, Put;
    var p := PlaceOf(body, name);
    hide PlaceOf;
    PutSum(w, p, name, entries, nl);
    SumJoin(w, body[..p.at], body[p.at..]);
    assert body[..p.at] + body[p.at..] == body;
    SumJoin(w, body[..p.at], Put(p, name, entries, nl));
    SumJoin(w, body[..p.at] + Put(p, name, entries, nl), body[p.at..]);
  }

  lemma {:induction false} AppendAllSum(w: string -> nat, body: seq<string>, names: seq<string>, entries: Entries,
                                        nl: string)
    requires AreClasses(names)
    ensures Sum(w, AppendAll(body, names, entries, nl)) >= Sum(w, body) + EntriesSum(w, names, entries)
    ensures Light(w, nl) ==>
      Sum(w, AppendAll(body, names, entries, nl)) == Sum(w, body) + EntriesSum(w, names, entries)
    decreases |names|
  {
    hide Sum, AppendTo, Light;
    if names != [] {
      var name := names[0];
      assert name in names && AreClasses(names[1..]) by { assert forall x | x in names[1..] :: x in names; }
      var next := if name in entries then AppendTo(body, name, entries[name], nl) else body;
      if name in entries { AppendSum(w, body, name, entries[name], nl); }
      AppendAllSum(w, next, names[1..], entries, nl);
    }
  }

  lemma SumNothing(w: string -> nat)
    ensures Sum(w, []) == 0
  {}

  lemma {:induction false} CreatedSum(w: string -> nat, names: seq<string>, entries: Entries, nl: string)
    requires AreClasses(names)
    ensures Sum(w, CreatedFrom(names, entries, nl)) >= EntriesSum(w, names, entries)
    ensures Light(w, nl) ==> Sum(w, CreatedFrom(names, entries, nl)) == EntriesSum(w, names, entries)
  {
    SumNothing(w);
    hide Sum, Put;
    if names != [] {
      assert names[0] in names && AreClasses(names[1..]) by { assert forall x | x in names[1..] :: x in names; }
      CreatedSum(w, names[1..], entries, nl);
      SumJoin(w, ClassBlock(names[0], entries, nl), CreatedFrom(names[1..], entries, nl));
      if names[0] in entries { PutSum(w, Before(0), names[0], entries[names[0]], nl); }
    }
  }

  function SectionSum(w: string -> nat, s: Section): nat {
    w(s.heading) + Sum(w, s.body)
  }

  lemma PiecesFirst(w: string -> nat, s: Section, ss: seq<Section>)
    ensures Sum(w, Pieces([s] + ss)) == SectionSum(w, s) + Sum(w, Pieces(ss))
  {
    assert ([s] + ss)[1..] == ss;
    SumJoin(w, [s.heading] + s.body, Pieces(ss));
    SumJoin(w, [s.heading], s.body);
    assert Sum(w, [s.heading][1..]) == 0;
  }

  lemma FedSum(w: string -> nat, s: Section, nl: string)
    ensures SectionSum(w, Fed(s, nl)) >= SectionSum(w, s)
    ensures w(nl) == 0 ==> SectionSum(w, Fed(s, nl)) == SectionSum(w, s)
  {
    SumOne(w, nl);
    SumJoin(w, s.body, [nl]);
  }

  lemma {:induction false} GrowFirstSum(w: string -> nat, ss: seq<Section>, date: string, entries: Entries, nl: string)
    requires Stands(ss, date)
    ensures Sum(w, Pieces(GrowFirst(ss, date, entries, nl))) >= Sum(w, Pieces(ss)) + EntriesSum(w, CLASSES, entries)
    ensures Light(w, nl) ==>
      Sum(w, Pieces(GrowFirst(ss, date, entries, nl))) == Sum(w, Pieces(ss)) + EntriesSum(w, CLASSES, entries)
  {
    hide Sum, Pieces, DateOf, AppendAll, EntriesSum, Light;
    var s, rest := ss[0], ss[1..];
    assert ss == [s] + rest;
    PiecesFirst(w, s, rest);
    if Dated(s, date) {
      PiecesFirst(w, GrownWith(s, entries, nl), rest);
      AppendAllSum(w, s.body, CLASSES, entries, nl);
    } else {
      assert Stands(rest, date) by {
        var i :| 0 <= i < |ss| && Dated(ss[i], date);
        assert rest[i - 1] == ss[i];
      }
      GrowFirstSum(w, rest, date, entries, nl);
      PiecesFirst(w, s, GrowFirst(rest, date, entries, nl));
    }
  }

  lemma {:induction false} SlotSum(w: string -> nat, ss: seq<Section>, date: string, s: Section, nl: string)
    ensures Sum(w, Pieces(Slot(ss, date, s, nl))) >= Sum(w, Pieces(ss)) + SectionSum(w, s)
    ensures w(nl) == 0 ==> Sum(w, Pieces(Slot(ss, date, s, nl))) == Sum(w, Pieces(ss)) + SectionSum(w, s)
  {
    hide Sum, Pieces, DateOf, Less, Fed, SectionSum;
    if GoesBefore(ss, date) {
      PiecesFirst(w, s, ss);
    } else {
      var rest := ss[1..];
      var head := if GoesBefore(rest, date) then Fed(ss[0], nl) else ss[0];
      assert ss == [ss[0]] + rest;
      SlotSum(w, rest, date, s, nl);
      FedSum(w, ss[0], nl);
      PiecesFirst(w, ss[0], rest);
      PiecesFirst(w, head, Slot(rest, date, s, nl));
    }
  }

  lemma NewSum(w: string -> nat, date: string, entries: Entries, nl: string)
    ensures var s := Created(date, entries, nl);
      && SectionSum(w, s) >= EntriesSum(w, CLASSES, entries)
      && (Light(w, nl) && w("## " + date + nl) == 0 ==> SectionSum(w, s) == EntriesSum(w, CLASSES, entries))
  {
    hide Sum, EntriesSum, CreatedFrom;
    CreatedSum(w, CLASSES, entries, nl);
    SumOne(w, nl);
    SumJoin(w, [nl], CreatedFrom(CLASSES, entries, nl));
  }

  /** Nor do the date headings. */
  predicate Weightless(w: string -> nat, dates: seq<string>, nl: string) {
    Light(w, nl) && forall d | d in dates :: w("## " + d + nl) == 0
  }

  /** However pieces are weighed, a fold keeps the weight of what stood and adds at least
      that of the entries, and no more where what it makes up weighs nothing. */
  lemma {:induction false} FoldSum(w: string -> nat, ss: seq<Section>, dates: seq<string>, folding: Folding, nl: string)
    requires forall d | d in dates :: d in folding
    ensures Sum(w, Pieces(FoldDates(ss, dates, folding, nl).sections))
      >= Sum(w, Pieces(ss)) + FoldingSum(w, dates, folding)
    ensures Weightless(w, dates, nl) ==>
      Sum(w, Pieces(FoldDates(ss, dates, folding, nl).sections)) == Sum(w, Pieces(ss)) + FoldingSum(w, dates, folding)
  {
    hide Sum, SectionSum, Pieces, Slot, GrowFirst, EntriesSum, Stands, Created, Light;
    if dates != [] {
      var last := |dates| - 1;
      var d, date := FoldDates(ss, dates[..last], folding, nl), dates[last];
      assert Weightless(w, dates, nl) ==> Weightless(w, dates[..last], nl);
      FoldSum(w, ss, dates[..last], folding, nl);
      if Stands(d.sections, date) {
        GrowFirstSum(w, d.sections, date, folding[date], nl);
      } else {
        SlotSum(w, d.sections, date, Created(date, folding[date], nl), nl);
        NewSum(w, date, folding[date], nl);
        assert Light(w, nl) ==> w(nl) == 0 by { LightEnding(w, nl); }
      }
    }
  }

  lemma LightEnding(w: string -> nat, nl: string)
    ensures Light(w, nl) ==> w(nl) == 0
  {}

  // How often an entry occurs

  predicate OccursAt(t: string, e: string, i: nat) {
    i + |e| <= |t| && t[i..i + |e|] == e
  }

  /** Dropping no more than an entry's length from the front costs at most one. */
  lemma {:induction false} CountDrop(t: string, e: string, k: nat)
    requires e != "" && k <= |e| && k <= |t|
    ensures Count(t, e) <= 1 + Count(t[k..], e)
    decreases |t|, k
  {
    if k == 0 {
      assert t[0..] == t;
    } else if |t| < |e| {
    } else if t[..|e|] == e {
      CountSuffix(t[k..], e, |e| - k);
      assert t[k..][|e| - k..] == t[|e|..];
    } else {
      CountDrop(t[1..], e, k - 1);
      assert t[1..][k - 1..] == t[k..];
    }
  }

  lemma {:induction false} CountSuffix(t: string, e: string, k: nat)
    requires e != "" && k <= |t|
    ensures Count(t[k..], e) <= Count(t, e)
    decreases |t|, k
  {
    if k == 0 {
      assert t[0..] == t;
    } else {
      CountSuffix(t[1..], e, k - 1);
      assert t[1..][k - 1..] == t[k..];
      if |t| >= |e| && t[..|e|] == e {
        CountDrop(t[1..], e, |e| - 1);
        assert t[1..][|e| - 1..] == t[|e|..];
      }
    }
  }

  /** Two texts one after the other hold an entry at least as often as both do. */
  lemma {:induction false} CountJoin(a: string, b: string, e: string)
    requires e != ""
    ensures Count(a + b, e) >= Count(a, e) + Count(b, e)
    decreases |a|
  {
    var t := a + b;
    if a == "" {
      assert t == b;
    } else if |a| < |e| {
      CountSuffix(t, e, |a|);
      assert t[|a|..] == b;
    } else if a[..|e|] == e {
      assert t[..|e|] == e && t[|e|..] == a[|e|..] + b;
      CountJoin(a[|e|..], b, e);
    } else {
      assert t[..|e|] == a[..|e|] && t[1..] == a[1..] + b;
      CountJoin(a[1..], b, e);
    }
  }

  lemma OccursCounts(t: string, e: string, i: nat)
    requires e != "" && OccursAt(t, e, i)
    ensures Count(t, e) >= 1
  {
    assert t == t[..i] + e + t[i + |e|..];
    OccursAtLeastOnce(t[..i], e, t[i + |e|..]);
  }

  lemma {:induction false} Found(t: string, e: string) returns (i: nat)
    requires e != "" && Count(t, e) >= 1
    ensures OccursAt(t, e, i) && Count(t[i + |e|..], e) == Count(t, e) - 1
    decreases |t|
  {
    if t[..|e|] == e {
      i := 0;
      assert t[0..0 + |e|] == t[..|e|];
    } else {
      var j := Found(t[1..], e);
      i := j + 1;
      assert t[1..][j..j + |e|] == t[i..i + |e|] && t[1..][j + |e|..] == t[i + |e|..];
    }
  }

  /** Counted from the left without overlap, an entry is there twice if and only if it is
      at two places that do not overlap. */
  lemma TwiceExactly(t: string, e: string)
    requires e != ""
    ensures Count(t, e) >= 2 <==> exists i: nat, j: nat :: i + |e| <= j && OccursAt(t, e, i) && OccursAt(t, e, j)
  {
    if Count(t, e) >= 2 {
      var i := Found(t, e);
      var rest := t[i + |e|..];
      var k := Found(rest, e);
      assert t[i + |e| + k..i + |e| + k + |e|] == rest[k..k + |e|];
      assert OccursAt(t, e, i + |e| + k);
    }
    if i: nat, j: nat :| i + |e| <= j && OccursAt(t, e, i) && OccursAt(t, e, j) {
      assert t == t[..j] + t[j..];
      CountJoin(t[..j], t[j..], e);
      assert t[..j][i..i + |e|] == t[i..i + |e|] && t[j..][0..|e|] == t[j..j + |e|];
      OccursCounts(t[..j], e, i);
      OccursCounts(t[j..], e, 0);
    }
  }

  function Times(e: string): string -> nat {
    (p: string) => Count(p, e)
  }

  /** How often an entry stands in the lines of the changelog and in the entries of the
      fold, each looked at by itself, before anything is folded. */
  function Beforehand(text: string, folding: Folding, dates: seq<string>, e: string): nat
    requires forall d | d in dates :: d in folding
  {
    Sum(Times(e), Split(text)) + FoldingSum(Times(e), dates, folding)
  }

  ghost predicate TwiceBeforehand(text: string, folding: Folding, dates: seq<string>)
    requires forall d | d in dates :: d in folding
  {
    exists date, name, e :: date in folding && name in folding[date] && e in folding[date][name]
      && Beforehand(text, folding, dates, e) > 1
  }

  lemma {:induction false} CountPieces(pieces: seq<string>, e: string)
    requires e != ""
    ensures Count(Join(pieces), e) >= Sum(Times(e), pieces)
  {
    if pieces != [] {
      CountPieces(pieces[1..], e);
      CountJoin(pieces[0], Join(pieces[1..]), e);
    }
  }

  lemma AfterSum(w: string -> nat, text: string, folding: Folding, dates: seq<string>)
    requires Complete(text) && forall d | d in dates :: d in folding
    ensures Join(AfterPieces(text, folding, dates)) == After(text, folding, dates)
    ensures var before := Sum(w, Split(text)) + FoldingSum(w, dates, folding);
      && Sum(w, AfterPieces(text, folding, dates)) >= before
      && (Weightless(w, dates, Newline(text)) ==> Sum(w, AfterPieces(text, folding, dates)) == before)
  {
    hide Split, Group, FoldDates, Pieces, Sum, Complete, Newline, FoldingSum, SectionsText, Weightless;
    var p, now := Standing(text), Folded(text, folding, dates).sections;
    StandingRaw(text);
    SumJoin(w, p.preamble, Pieces(p.sections));
    FoldSum(w, p.sections, dates, folding, Newline(text));
    SumJoin(w, p.preamble, Pieces(now));
    JoinConcat(p.preamble, Pieces(now));
    JoinPieces(now);
  }

  /** The pieces a fold writes, one after another. */
  function AfterPieces(text: string, folding: Folding, dates: seq<string>): seq<string>
    requires forall d | d in dates :: d in folding
  {
    Standing(text).preamble + Pieces(Folded(text, folding, dates).sections)
  }

  /** An entry occurs in what the fold writes at least as often as it did before, in the
      lines of the changelog and in the entries. */
  lemma OccursForEach(text: string, folding: Folding, dates: seq<string>, e: string)
    requires Ready(text, folding, dates) && e != ""
    ensures Count(After(text, folding, dates), e) >= Beforehand(text, folding, dates, e)
  {
    hide After, AfterPieces, Sum, Split, FoldingSum, Count, Times, Weightless, IsDate;
    AfterSum(Times(e), text, folding, dates);
    CountPieces(AfterPieces(text, folding, dates), e);
  }

  /** So the once-only check refuses a fold exactly where some entry is at two places of the
      result that do not overlap, which it is wherever it stood more than once before. */
  lemma RepeatedExactly(text: string, folding: Folding, dates: seq<string>)
    requires Ready(text, folding, dates)
    ensures Repeated(folding, After(text, folding, dates)) <==>
      exists date, name, e, i: nat, j: nat ::
        && date in folding && name in folding[date] && e in folding[date][name]
        && i + |e| <= j && OccursAt(After(text, folding, dates), e, i) && OccursAt(After(text, folding, dates), e, j)
    ensures TwiceBeforehand(text, folding, dates) ==> Repeated(folding, After(text, folding, dates))
  {
    var after := After(text, folding, dates);
    hide After, Beforehand, Count, OccursAt, IsDate, Complete;
    forall date, name, e | date in folding && name in folding[date] && e in folding[date][name]
      ensures e != "" && Count(after, e) >= 1 && (Count(after, e) != 1 <==> Count(after, e) >= 2)
      ensures Count(after, e) >= Beforehand(text, folding, dates, e)
      ensures Count(after, e) >= 2 <==>
        exists i: nat, j: nat :: i + |e| <= j && OccursAt(after, e, i) && OccursAt(after, e, j)
    {
      assert Foldable(folding[date]) && AreEntries(folding[date][name]) && IsEntry(e);
      EveryEntryLands(text, folding, dates, date, name, e);
      OccursForEach(text, folding, dates, e);
      TwiceExactly(after, e);
    }
  }

  // What holds of every piece

  function Fails(p: string -> bool): string -> nat {
    (x: string) => if p(x) then 0 else 1
  }

  lemma {:induction false} SumFails(p: string -> bool, pieces: seq<string>)
    ensures Sum(Fails(p), pieces) == 0 <==> forall x | x in pieces :: p(x)
  {
    if pieces != [] {
      assert pieces == [pieces[0]] + pieces[1..];
      SumFails(p, pieces[1..]);
    }
  }

  ghost predicate AllAre(entries: Entries, p: string -> bool) {
    forall name, e | name in entries && e in entries[name] :: p(e)
  }

  lemma {:induction false} EntriesFail(p: string -> bool, names: seq<string>, entries: Entries)
    requires AllAre(entries, p)
    ensures EntriesSum(Fails(p), names, entries) == 0
  {
    if names != [] {
      EntriesFail(p, names[1..], entries);
      if names[0] in entries { SumFails(p, entries[names[0]]); }
    }
  }

  lemma {:induction false} FoldingFails(p: string -> bool, dates: seq<string>, folding: Folding)
    requires forall d | d in dates :: d in folding && AllAre(folding[d], p)
    ensures FoldingSum(Fails(p), dates, folding) == 0
  {
    hide AllAre, Fails;
    if dates != [] {
      var last := |dates| - 1;
      FoldingFails(p, dates[..last], folding);
      EntriesFail(p, CLASSES, folding[dates[last]]);
    }
  }

  /** What holds of every line of the changelog, of every entry and of all the fold makes
      up holds of every piece it writes. */
  lemma EveryPiece(p: string -> bool, text: string, folding: Folding, dates: seq<string>)
    requires Complete(text) && forall d | d in dates :: d in folding && AllAre(folding[d], p)
    requires forall l | l in Split(text) :: p(l)
    requires Weightless(Fails(p), dates, Newline(text))
    ensures forall x | x in AfterPieces(text, folding, dates) :: p(x)
  {
    hide Split, Sum, Complete, Newline, FoldingSum, AllAre, Weightless, Fails, AfterPieces;
    AfterSum(Fails(p), text, folding, dates);
    SumFails(p, Split(text));
    FoldingFails(p, dates, folding);
    SumFails(p, AfterPieces(text, folding, dates));
  }

  // An entry of one line

  predicate OneLine(e: string) { e != "" && FirstLine(e) == |e| }

  /** A piece whose ending nothing put behind it can change. */
  predicate Closed(x: string) { Complete(x) && (x == "" || x[|x| - 1] != '\r') }

  lemma {:induction false} CountApart(a: string, b: string, e: string)
    requires OneLine(e) && Closed(a)
    ensures Count(a + b, e) == Count(a, e) + Count(b, e)
    decreases |a|
  {
    var t := a + b;
    if a == "" {
      assert t == b;
    } else if |t| >= |e| && t[..|e|] == e {
      if |a| < |e| {
        assert e == a + e[|a|..];
        FirstLineFront(a, e[|a|..]);
        assert false;
      }
      assert a[..|e|] == e && t[|e|..] == a[|e|..] + b;
      CountApart(a[|e|..], b, e);
    } else {
      assert t[1..] == a[1..] + b;
      assert |a| >= |e| ==> t[..|e|] == a[..|e|];
      CountApart(a[1..], b, e);
    }
  }

  lemma {:induction false} CountPiecesExactly(pieces: seq<string>, e: string)
    requires OneLine(e) && forall x | x in pieces :: Closed(x)
    ensures Count(Join(pieces), e) == Sum(Times(e), pieces)
  {
    hide Closed, OneLine;
    if pieces == [] {
      assert e != "" by { OneLineSays(e); }
    } else {
      CountPiecesExactly(pieces[1..], e);
      CountApart(pieces[0], Join(pieces[1..]), e);
    }
  }

  lemma OneLineSays(e: string)
    requires OneLine(e)
    ensures e != ""
  {}

  /** No line of the changelog and no entry ends in a bare carriage return. */
  ghost predicate EndsClosed(text: string, folding: Folding, dates: seq<string>)
    requires forall d | d in dates :: d in folding
  {
    (forall l | l in Split(text) :: Closed(l)) && forall d | d in dates :: AllAre(folding[d], Closed)
  }

  lemma MadeUpClosed(dates: seq<string>, nl: string)
    requires IsEnding(nl)
    ensures Weightless(Fails(Closed), dates, nl)
  {
    assert nl[|nl| - 1] == '\n';
    forall x: string ensures Closed(x + nl) {
      assert (x + nl)[|x + nl| - 1] == '\n';
    }
    assert "" + nl == nl;
  }

  /** One line is counted after the fold exactly as often as before it, unless it is part of
      what the fold makes up. */
  lemma OneLineExactly(text: string, folding: Folding, dates: seq<string>, e: string)
    requires Complete(text) && (forall d | d in dates :: d in folding) && EndsClosed(text, folding, dates)
    requires OneLine(e) && Weightless(Times(e), dates, Newline(text))
    ensures Count(After(text, folding, dates), e) == Beforehand(text, folding, dates, e)
  {
    hide After, AfterPieces, Sum, Split, FoldingSum, Count, Times, Weightless, Newline, Complete, Closed, OneLine;
    AfterSum(Times(e), text, folding, dates);
    MadeUpClosed(dates, Newline(text));
    EveryPiece(Closed, text, folding, dates);
    CountPiecesExactly(AfterPieces(text, folding, dates), e);
  }

  lemma {:induction false} CountFront(t: string, e: string, n: nat)
    requires 0 < n <= |e|
    ensures Count(t, e) <= Count(t, e[..n])
    decreases |t|
  {
    if |t| < |e| {
    } else if t[..|e|] == e {
      assert t[..n] == e[..n];
      CountSuffix(t[n..], e[..n], |e| - n);
      assert t[n..][|e| - n..] == t[|e|..];
      CountFront(t[|e|..], e, n);
    } else {
      CountFront(t[1..], e, n);
      CountSuffix(t, e[..n], 1);
    }
  }

  function FirstOf(e: string): string {
    if e == "" then "" else e[..FirstLine(e)]
  }

  lemma FirstOfIsOneLine(e: string)
    requires e != ""
    ensures OneLine(FirstOf(e)) && (OneLine(e) ==> FirstOf(e) == e)
  {
    assert e[..FirstLine(e)] + e[FirstLine(e)..] == e;
    FirstLineCut(e[..FirstLine(e)], e[FirstLine(e)..]);
  }

  /** An entry whose first line stands once beforehand is there once. */
  lemma FirstLineDecides(text: string, folding: Folding, dates: seq<string>, e: string)
    requires Complete(text) && (forall d | d in dates :: d in folding) && EndsClosed(text, folding, dates)
    requires e != "" && Weightless(Times(FirstOf(e)), dates, Newline(text))
    ensures Count(After(text, folding, dates), e) <= Beforehand(text, folding, dates, FirstOf(e))
  {
    FirstOfIsOneLine(e);
    OneLineExactly(text, folding, dates, FirstOf(e));
    CountFront(After(text, folding, dates), e, FirstLine(e));
  }

  ghost predicate FirstLineTwice(text: string, folding: Folding, dates: seq<string>)
    requires forall d | d in dates :: d in folding
  {
    exists date, name, e :: date in folding && name in folding[date] && e in folding[date][name]
      && Beforehand(text, folding, dates, FirstOf(e)) > 1
  }

  /** What can be told before the fold: the check refuses where an entry stands more than
      once already, and nowhere but where an entry's first line does; of entries of one line
      each, that is exactly when. */
  lemma RepeatedBeforehand(text: string, folding: Folding, dates: seq<string>)
    requires Ready(text, folding, dates) && EndsClosed(text, folding, dates)
    requires forall date, name, e | date in folding && name in folding[date] && e in folding[date][name] ::
      Weightless(Times(FirstOf(e)), dates, Newline(text))
    ensures Repeated(folding, After(text, folding, dates)) ==> FirstLineTwice(text, folding, dates)
    ensures (forall date, name, e | date in folding && name in folding[date] && e in folding[date][name] :: OneLine(e))
      ==> (Repeated(folding, After(text, folding, dates)) <==> TwiceBeforehand(text, folding, dates))
  {
    var after := After(text, folding, dates);
    RepeatedExactly(text, folding, dates);
    hide After, Beforehand, Count, FirstOf, OneLine, Weightless, Newline, EndsClosed, IsDate, Complete;
    if Repeated(folding, after) {
      var date, name, e :| date in folding && name in folding[date] && e in folding[date][name] && Count(after, e) != 1;
      assert Foldable(folding[date]) && AreEntries(folding[date][name]) && IsEntry(e);
      EveryEntryLands(text, folding, dates, date, name, e);
      FirstLineDecides(text, folding, dates, e);
      FirstOfIsOneLine(e);
    }
  }
}
