/**
  Which class everything in a section is filed under, read off the headings above it, and
  what a fold does to that.
*/
module ChangelogFiled {
  import opened Wrappers
  import opened Lines
  import opened Headings
  import opened ChangelogParse
  import opened ChangelogAppend
  import opened ChangelogFold
  import opened ChangelogNames
  import opened ChangelogChecks
  import opened Subsequence
  import ChangelogTwins

  /** A piece that says something, and the class it is filed under, if any. */
  type Filing = (Option<string>, string)

  /** The class in force from a piece on: the last one its own lines name, or else the one
      that was in force. */
  function Leaves(piece: string, under: Option<string>): Option<string> {
    var names := Names(Split(piece));
    if names == [] then under else Some(names[|names| - 1])
  }

  /** Everything a body says, first to last, each under the last heading at or above it. */
  function FiledUnder(body: seq<string>, under: Option<string>): seq<Filing> {
    if body == [] then []
    else
      var now := Leaves(body[0], under);
      (if AllSpace(body[0]) then [] else [(now, body[0])]) + FiledUnder(body[1..], now)
  }

  function Filed(body: seq<string>): seq<Filing> { FiledUnder(body, None) }

  function InForce(body: seq<string>, under: Option<string>): Option<string> {
    if body == [] then under else InForce(body[1..], Leaves(body[0], under))
  }

  /** What some entries say, all under one class. */
  function Tagged(under: Option<string>, entries: seq<string>): seq<Filing> {
    if entries == [] then []
    else (if AllSpace(entries[0]) then [] else [(under, entries[0])]) + Tagged(under, entries[1..])
  }

  lemma FiledFirst(x: string, rest: seq<string>, under: Option<string>)
    ensures var now := Leaves(x, under);
      && FiledUnder([x] + rest, under) == (if AllSpace(x) then [] else [(now, x)]) + FiledUnder(rest, now)
      && InForce([x] + rest, under) == InForce(rest, now)
  {
    hide Leaves, AllSpace;
    assert ([x] + rest)[1..] == rest;
  }

  lemma FiledNothing(under: Option<string>)
    ensures FiledUnder([], under) == [] && InForce([], under) == under
  {}

  lemma {:induction false} FiledConcat(a: seq<string>, b: seq<string>, under: Option<string>)
    ensures FiledUnder(a + b, under) == FiledUnder(a, under) + FiledUnder(b, InForce(a, under))
    ensures InForce(a + b, under) == InForce(b, InForce(a, under))
  {
    hide Leaves, AllSpace, FiledUnder, InForce;
    if a == [] {
      assert a + b == b;
      FiledNothing(under);
    } else {
      var x, rest := a[0], a[1..];
      assert a == [x] + rest && a + b == [x] + (rest + b);
      FiledConcat(rest, b, Leaves(x, under));
      FiledFirst(x, rest, under);
      FiledFirst(x, rest + b, under);
    }
  }

  lemma FiledOne(x: string, under: Option<string>)
    ensures FiledUnder([x], under) == if AllSpace(x) then [] else [(Leaves(x, under), x)]
    ensures InForce([x], under) == Leaves(x, under)
  {
    assert [x][1..] == [];
  }

  /** Where nothing says a class, the one in force stays. */
  lemma {:induction false} SameInForce(body: seq<string>, under: Option<string>)
    requires forall x | x in body :: Names(Split(x)) == []
    ensures InForce(body, under) == under && FiledUnder(body, under) == Tagged(under, body)
  {
    hide Names, Split, AllSpace;
    if body != [] {
      assert body == [body[0]] + body[1..];
      SameInForce(body[1..], under);
    }
  }

  lemma {:induction false} BlankSaysNothing(body: seq<string>, under: Option<string>)
    requires forall i | 0 <= i < |body| :: AllSpace(body[i])
    ensures FiledUnder(body, under) == [] && Tagged(under, body) == []
  {
    hide AllSpace, Leaves;
    if body != [] {
      assert forall i | 0 <= i < |body[1..]| :: body[1..][i] == body[i + 1];
      BlankSaysNothing(body[1..], Leaves(body[0], under));
      BlankSaysNothing(body[1..], under);
    }
  }

  lemma {:induction false} TaggedConcat(under: Option<string>, a: seq<string>, b: seq<string>)
    ensures Tagged(under, a + b) == Tagged(under, a) + Tagged(under, b)
  {
    hide AllSpace;
    if a == [] {
      assert a + b == b;
    } else {
      assert (a + b)[1..] == a[1..] + b;
      TaggedConcat(under, a[1..], b);
    }
  }

  // What is put in

  lemma FeedSays(nl: string)
    requires IsEnding(nl)
    ensures AllSpace(nl) && Names(Split(nl)) == []
  {
    WrittenFeed(nl);
  }

  lemma ClassSays(name: string, nl: string)
    requires name in CLASSES && IsEnding(nl)
    ensures var h := "### " + name + nl;
      !AllSpace(h) && Heading(h) == Some(name) && forall under :: Leaves(h, under) == Some(name)
  {
    WrittenClass(name, nl);
    ClassName(name);
    WrittenHeading(name, nl);
    assert '#' in "### " + name + nl;
  }

  lemma {:induction false} BlockFiled(entries: seq<string>, nl: string, under: Option<string>)
    requires AreEntries(entries) && IsEnding(nl)
    ensures FiledUnder(Interleaved(entries, nl), under) == Tagged(under, entries)
    ensures InForce(Interleaved(entries, nl), under) == under
  {
    hide Plain, AllSpace, Names, Split, IsEnding;
    if entries != [] {
      assert entries[0] in entries && IsEntry(entries[0]);
      FiledOne(entries[0], under);
      if |entries| > 1 {
        var rest := entries[1..];
        assert forall e | e in rest :: e in entries;
        BlockFiled(rest, nl, under);
        FeedSays(nl);
        FiledOne(nl, under);
        FiledConcat([entries[0]], [nl], under);
        assert [entries[0]] + [nl] == [entries[0], nl];
        FiledConcat([entries[0], nl], Interleaved(rest, nl), under);
      } else {
        assert entries == [entries[0]] && Tagged(under, entries[1..]) == [];
      }
    }
  }

  /** The heading of a class and its entries, as they read. */
  function Headed(name: string, entries: seq<string>, nl: string): seq<Filing> {
    [(Some(name), "### " + name + nl)] + Tagged(Some(name), entries)
  }

  lemma PutFiled(p: Place, name: string, entries: seq<string>, nl: string, under: Option<string>)
    requires name in CLASSES && AreEntries(entries) && IsEnding(nl)
    ensures var put := Put(p, name, entries, nl);
      && FiledUnder(put, under) == (if p.Under? then Tagged(under, entries) else Headed(name, entries, nl))
      && InForce(put, under) == (if p.Under? then under else Some(name))
  {
    hide AllSpace, Names, Split, IsEnding, Leaves, AreEntries, Heading;
    var h, block, own := "### " + name + nl, Interleaved(entries, nl), Some(name);
    assert AllSpace(nl) && forall u :: Leaves(nl, u) == u by { FeedNames(nl); }
    ClassSays(name, nl);
    BlockFiled(entries, nl, under);
    BlockFiled(entries, nl, own);
    forall u ensures FiledUnder([nl], u) == [] && InForce([nl], u) == u { FiledOne(nl, u); }
    FiledOne(h, under);
    FiledConcat([nl], block, under);
    FiledConcat([h], [nl], under);
    FiledConcat([h] + [nl], block, under);
    FiledConcat([h] + [nl] + block, [nl], under);
    FiledConcat([nl], [h] + [nl] + block, under);
    assert [h] + [nl] == [h, nl] && [nl] + ([h] + [nl] + block) == [nl, h, nl] + block;
  }

  lemma FeedNames(nl: string)
    requires IsEnding(nl)
    ensures AllSpace(nl) && forall u :: Leaves(nl, u) == u
  {
    FeedSays(nl);
  }

  // One append

  lemma TameNamed(x: string, name: string, under: Option<string>)
    requires Tame(x) && name in CLASSES
    ensures Named(x, name) ==> Leaves(x, under) == Some(name)
    ensures Heading(x) == None ==> Names(Split(x)) == []
    ensures IsLater(x, name) ==> forall u :: Leaves(x, u) == Leaves(x, under)
  {}

  /** The class in force where the last entry of a class ends is that class. */
  lemma UnderInForce(body: seq<string>, name: string, start: nat, at: nat)
    requires AllTame(body) && name in CLASSES && start < at <= |body| && UnderLast(body, name, start, at)
    ensures InForce(body[..at], None) == Some(name)
  {
    hide Tame, Heading, Names, Split, AllSpace;
    var front, mid := body[..start], body[start + 1..at];
    assert body[..at] == front + [body[start]] + mid;
    var under := InForce(front, None);
    TameNamed(body[start], name, under);
    FiledOne(body[start], under);
    forall x | x in mid ensures Names(Split(x)) == [] {
      var i :| 0 <= i < |mid| && mid[i] == x;
      assert mid[i] == body[start + 1 + i];
      TameNamed(x, name, under);
    }
    SameInForce(mid, Some(name));
    FiledConcat(front, [body[start]], None);
    FiledConcat(front + [body[start]], mid, None);
  }

  /** What comes behind the place reads as it did, whatever class the place leaves in
      force. */
  lemma RestReads(body: seq<string>, name: string, p: Place)
    requires AllTame(body) && name in CLASSES && RightPlace(body, name, p)
    ensures FiledUnder(body[p.at..], if p.Under? then InForce(body[..p.at], None) else Some(name))
      == FiledUnder(body[p.at..], InForce(body[..p.at], None))
  {
    hide Tame, Heading, Names, Split, AllSpace, UnderLast;
    var back, under := body[p.at..], InForce(body[..p.at], None);
    match p
    case Under(_) =>
    case Before(at) =>
      assert back[0] == body[at];
      TameNamed(body[at], name, under);
    case AtEnd(at) =>
      BlankSaysNothing(back, under);
      BlankSaysNothing(back, Some(name));
  }

  /** An append leaves everything that stood under the class it was under, and puts the
      entries, in their order and behind a heading of their own where there was none, under
      theirs, behind all that stood there. */
  lemma AppendFiles(body: seq<string>, name: string, entries: seq<string>, nl: string) returns (at: nat)
    requires AllTame(body) && name in CLASSES && AreEntries(entries) && IsEnding(nl)
    ensures at <= |Filed(body)|
    ensures Filed(AppendTo(body, name, entries, nl))
      == Filed(body)[..at]
         + (if name in PieceNames(body) then Tagged(Some(name), entries) else Headed(name, entries, nl))
         + Filed(body)[at..]
    ensures ReadAlike(body) ==> forall f | f in Filed(body)[at..] :: f.0 != Some(name)
  {
    hide Tame, AllSpace, AreEntries, IsEnding, PieceNames, Tagged, Headed, FiledUnder, Heading, InForce;
    var p := PlaceOf(body, name);
    hide PlaceOf;
    var front, back, put := body[..p.at], body[p.at..], Put(p, name, entries, nl);
    assert front + back == body;
    var under := InForce(front, None);
    NamedStands(body, name);
    if p.Under? {
      var start :| 0 <= start < p.at && UnderLast(body, name, start, p.at);
      UnderInForce(body, name, start, p.at);
      assert Named(body[start], name);
    }
    assert p.Under? <==> name in PieceNames(body);
    PutFiled(p, name, entries, nl, under);
    RestReads(body, name, p);
    if ReadAlike(body) { AppendsLast(body, name, p); }
    hide Put, RightPlace, UnderLast, Named, IsLater;
    FiledConcat(front, back, None);
    FiledConcat(front, put, None);
    FiledConcat(front + put, back, None);
    at := |FiledUnder(front, None)|;
  }

  /** Every piece names what its lines name, as every line does. */
  ghost predicate ReadAlike(body: seq<string>) {
    forall x | x in body :: Names(Split(x)) == NameOf(x)
  }

  lemma {:induction false} NeverNamed(body: seq<string>, name: string, under: Option<string>)
    requires ReadAlike(body) && under != Some(name) && forall i | 0 <= i < |body| :: !Named(body[i], name)
    ensures forall f | f in FiledUnder(body, under) :: f.0 != Some(name)
  {
    hide Heading, Names, Split, AllSpace;
    if body != [] {
      var x, rest := body[0], body[1..];
      assert body == [x] + rest && !Named(x, name);
      assert forall i | 0 <= i < |rest| :: rest[i] == body[i + 1];
      NeverNamed(rest, name, Leaves(x, under));
    }
  }

  /** The entries go behind all the class has: what reads on behind the place is under other
      classes. */
  lemma AppendsLast(body: seq<string>, name: string, p: Place)
    requires ReadAlike(body) && name in CLASSES && RightPlace(body, name, p)
    ensures forall f | f in FiledUnder(body[p.at..], InForce(body[..p.at], None)) :: f.0 != Some(name)
  {
    hide Names, Split, AllSpace, FiledUnder, InForce;
    var at, front, back := p.at, body[..p.at], body[p.at..];
    assert ReadAlike(front) && ReadAlike(back);
    if p.Under? {
      var start :| 0 <= start < at && UnderLast(body, name, start, at);
      var end :| at <= end <= |body| && BlanksTo(body, at, end);
      var blanks, rest := body[at..end], body[end..];
      assert back == blanks + rest;
      forall i | 0 <= i < |blanks| ensures AllSpace(blanks[i]) { assert blanks[i] == body[at + i]; }
      BlankSaysNothing(blanks, InForce(front, None));
      FiledConcat(blanks, rest, InForce(front, None));
      OtherClass(rest, name, InForce(blanks, InForce(front, None)));
    } else {
      NotYetNamed(front, name, None);
      assert forall i | 0 <= i < |back| :: back[i] == body[at + i];
      NeverNamed(back, name, InForce(front, None));
    }
  }

  lemma OtherClass(rest: seq<string>, name: string, under: Option<string>)
    requires ReadAlike(rest) && (forall i | 0 <= i < |rest| :: !Named(rest[i], name))
    requires rest != [] ==> Heading(rest[0]).Some?
    ensures forall f | f in FiledUnder(rest, under) :: f.0 != Some(name)
  {
    hide Heading, Split, AllSpace;
    if rest == [] {
      FiledNothing(under);
    } else {
      NeverNamed(rest, name, None);
      assert Leaves(rest[0], None) == Leaves(rest[0], under) by { assert Names(Split(rest[0])) == NameOf(rest[0]); }
    }
  }

  lemma {:induction false} NotYetNamed(body: seq<string>, name: string, under: Option<string>)
    requires ReadAlike(body) && under != Some(name) && forall i | 0 <= i < |body| :: !Named(body[i], name)
    ensures InForce(body, under) != Some(name)
  {
    hide Heading, Names, Split, AllSpace;
    if body != [] {
      var x, rest := body[0], body[1..];
      assert body == [x] + rest && !Named(x, name);
      assert forall i | 0 <= i < |rest| :: rest[i] == body[i + 1];
      NotYetNamed(rest, name, Leaves(x, under));
    }
  }

  lemma PutsAreKept(was: seq<Filing>, at: nat, head: seq<Filing>, put: seq<Filing>)
    requires at <= |was|
    ensures var now := was[..at] + (head + put) + was[at..]; Kept(was, now) && Kept(put, now)
  {
    hide Kept;
    var now := was[..at] + (head + put) + was[at..];
    KeptInsert(was, at, head + put);
    KeptSelf(put);
    KeptNothing(was[..at] + head);
    KeptNothing(was[at..]);
    KeptConcat([], was[..at] + head, put, put);
    KeptConcat([] + put, was[..at] + head + put, [], was[at..]);
    assert [] + put + [] == put && was[..at] + head + put + was[at..] == now;
  }

  lemma AppendKeepsFiling(body: seq<string>, name: string, entries: seq<string>, nl: string)
    requires AllTame(body) && name in CLASSES && AreEntries(entries) && IsEnding(nl)
    ensures var now := AppendTo(body, name, entries, nl);
      AllTame(now) && Kept(Filed(body), Filed(now)) && Kept(Tagged(Some(name), entries), Filed(now))
  {
    hide AllTame, AreEntries, IsEnding, PieceNames, Tagged, Filed, AppendTo, Kept;
    var at := AppendFiles(body, name, entries, nl);
    AppendNames(body, name, entries, nl);
    var put := Tagged(Some(name), entries);
    PutsAreKept(Filed(body), at, [], put);
    assert [] + put == put;
    PutsAreKept(Filed(body), at, [(Some(name), "### " + name + nl)], put);
  }

  // Blank lines

  /** No two pieces that are not this blank line meet. */
  ghost predicate Spaced(pieces: seq<string>, nl: string) {
    forall i | 0 < i < |pieces| :: pieces[i - 1] == nl || pieces[i] == nl
  }

  lemma SpacedConcat(a: seq<string>, b: seq<string>, nl: string)
    requires Spaced(a, nl) && Spaced(b, nl)
    requires a == [] || b == [] || a[|a| - 1] == nl || b[0] == nl
    ensures Spaced(a + b, nl)
  {}

  lemma {:induction false} BlockSpaced(entries: seq<string>, nl: string)
    ensures Spaced(Interleaved(entries, nl), nl)
  {
    if |entries| > 1 {
      BlockSpaced(entries[1..], nl);
      SpacedConcat([entries[0], nl], Interleaved(entries[1..], nl), nl);
    }
  }

  /** What is put in has a blank line between each two pieces, and one in front of them all
      or, where they go in front of a heading, behind them; the rest is as it was. */
  lemma AppendSpaces(body: seq<string>, name: string, entries: seq<string>, nl: string)
      returns (at: nat, put: seq<string>)
    requires name in CLASSES
    ensures at <= |body| && AppendTo(body, name, entries, nl) == body[..at] + put + body[at..]
    ensures Spaced(put, nl) && put != []
    ensures put[0] == nl || (at < |body| && IsLater(body[at], name) && put[|put| - 1] == nl)
  {
    BlockSpaced(entries, nl);
    var p := PlaceOf(body, name);
    at, put := p.at, Put(p, name, entries, nl);
    var h, block := "### " + name + nl, Interleaved(entries, nl);
    SpacedConcat([nl], block, nl);
    SpacedConcat([h, nl], block, nl);
    SpacedConcat([h, nl] + block, [nl], nl);
    SpacedConcat([nl, h, nl], block, nl);
  }

  lemma {:induction false} CreatedFromSpaces(names: seq<string>, entries: Entries, nl: string)
    ensures var body := CreatedFrom(names, entries, nl); Spaced(body, nl) && (body != [] ==> body[|body| - 1] == nl)
  {
    if names != [] {
      CreatedFromSpaces(names[1..], entries, nl);
      var block := ClassBlock(names[0], entries, nl);
      if names[0] in entries {
        var h, lines := "### " + names[0] + nl, Interleaved(entries[names[0]], nl);
        BlockSpaced(entries[names[0]], nl);
        SpacedConcat([h, nl], lines, nl);
        SpacedConcat([h, nl] + lines, [nl], nl);
      }
      SpacedConcat(block, CreatedFrom(names[1..], entries, nl), nl);
    }
  }

  /** A created section starts and ends with a blank line and has one between each two
      pieces. */
  lemma CreatedSpaces(date: string, entries: Entries, nl: string)
    ensures var body := Created(date, entries, nl).body;
      Spaced(body, nl) && body[0] == nl && body[|body| - 1] == nl
  {
    hide CreatedFrom;
    CreatedFromSpaces(CLASSES, entries, nl);
    SpacedConcat([nl], CreatedFrom(CLASSES, entries, nl), nl);
  }

  // All of one date's entries

  /** So are all of a date's entries under their classes, each class's in their order, and
      what stood under the class it stood under. */
  lemma {:induction false} AppendAllFiles(body: seq<string>, names: seq<string>, entries: Entries, nl: string)
    requires AllTame(body) && AreClasses(names) && Foldable(entries) && IsEnding(nl)
    ensures var now := AppendAll(body, names, entries, nl);
      && Kept(Filed(body), Filed(now))
      && forall name | name in names && name in entries :: Kept(Tagged(Some(name), entries[name]), Filed(now))
    decreases |names|
  {
    hide AllTame, AppendTo, AreEntries, IsEnding, Tagged, Filed, Kept;
    if names == [] {
      KeptSelf(Filed(body));
    } else {
      var first, now := names[0], AppendAll(body, names, entries, nl);
      assert names == [first] + names[1..];
      var next := if first in entries then AppendTo(body, first, entries[first], nl) else body;
      if first in entries { AppendKeepsFiling(body, first, entries[first], nl); } else { KeptSelf(Filed(body)); }
      AppendAllFiles(next, names[1..], entries, nl);
      KeptTrans(Filed(body), Filed(next), Filed(now));
      forall name | name in names && name in entries ensures Kept(Tagged(Some(name), entries[name]), Filed(now)) {
        if name == first { KeptTrans(Tagged(Some(name), entries[name]), Filed(next), Filed(now)); }
      }
    }
  }

  /** A created section reads as the six in their order, each class it was given under a
      heading of its own with its entries behind it, and as nothing else. */
  function Canonical(names: seq<string>, entries: Entries, nl: string): seq<Filing> {
    if names == [] then []
    else
      (if names[0] in entries then Headed(names[0], entries[names[0]], nl) else []) + Canonical(names[1..], entries, nl)
  }

  lemma {:induction false} CreatedFromFiled(names: seq<string>, entries: Entries, nl: string, under: Option<string>)
    requires AreClasses(names) && Foldable(entries) && IsEnding(nl)
    ensures FiledUnder(CreatedFrom(names, entries, nl), under) == Canonical(names, entries, nl)
  {
    hide AreEntries, IsEnding, Headed, Put, Leaves, AllSpace;
    if names != [] {
      var first := names[0];
      assert first in names && AreClasses(names[1..]) by { assert forall x | x in names[1..] :: x in names; }
      var block := ClassBlock(first, entries, nl);
      if first in entries { PutFiled(Before(0), first, entries[first], nl, under); }
      CreatedFromFiled(names[1..], entries, nl, InForce(block, under));
      FiledConcat(block, CreatedFrom(names[1..], entries, nl), under);
    }
  }

  lemma CreatedFiles(date: string, entries: Entries, nl: string)
    requires Foldable(entries) && IsEnding(nl)
    ensures Filed(Created(date, entries, nl).body) == Canonical(CLASSES, entries, nl)
  {
    hide Canonical, CreatedFrom, Leaves, AllSpace, IsEnding, Foldable;
    CreatedFromFiled(CLASSES, entries, nl, None);
    FeedNames(nl);
    FiledOne(nl, None);
    FiledConcat([nl], CreatedFrom(CLASSES, entries, nl), None);
  }

  lemma CanonicalFirst(names: seq<string>, entries: Entries, nl: string)
    requires names != []
    ensures var first := if names[0] in entries then Headed(names[0], entries[names[0]], nl) else [];
      Canonical(names, entries, nl) == first + Canonical(names[1..], entries, nl)
  {}

  lemma HeadedHolds(name: string, entries: seq<string>, nl: string, rest: seq<Filing>)
    ensures Kept(Tagged(Some(name), entries), Headed(name, entries, nl) + rest)
  {
    hide Kept, Tagged;
    var h, put := [(Some(name), "### " + name + nl)], Tagged(Some(name), entries);
    KeptSelf(put);
    KeptNothing(h);
    KeptNothing(rest);
    KeptConcat([], h, put, put);
    KeptConcat([] + put, h + put, [], rest);
    assert [] + put + [] == put;
  }

  lemma {:induction false} CanonicalHolds(names: seq<string>, entries: Entries, nl: string, name: string)
    requires name in names && name in entries
    ensures Kept(Tagged(Some(name), entries[name]), Canonical(names, entries, nl))
  {
    hide Kept, Tagged, Canonical, Headed;
    var put, rest := Tagged(Some(name), entries[name]), Canonical(names[1..], entries, nl);
    CanonicalFirst(names, entries, nl);
    if names[0] == name {
      HeadedHolds(name, entries[name], nl, rest);
    } else {
      CanonicalHolds(names[1..], entries, nl, name);
      var front := if names[0] in entries then Headed(names[0], entries[names[0]], nl) else [];
      KeptNothing(front);
      KeptConcat([], front, put, rest);
      assert [] + put == put;
    }
  }

  // All the dates

  lemma FedFiled(s: Section, nl: string)
    requires IsEnding(nl)
    ensures Filed(Fed(s, nl).body) == Filed(s.body)
  {
    hide Leaves, AllSpace;
    FeedNames(nl);
    FiledOne(nl, InForce(s.body, None));
    FiledConcat(s.body, [nl], None);
  }

  /** A standing section reads as it did, and holds each class's entries of its date under
      the class where the date is owed them. */
  lemma GrownFiles(s: Section, fed: bool, owed: set<string>, folding: Folding, nl: string)
    requires AllTame(s.body) && owed <= folding.Keys && AllFoldable(folding) && IsEnding(nl)
    ensures var now := Grown(s, fed, owed, folding, nl).body;
      && Kept(Filed(s.body), Filed(now))
      && forall name | DateIn(s).Some? && DateIn(s).value in owed && name in folding[DateIn(s).value] ::
           Kept(Tagged(Some(name), folding[DateIn(s).value][name]), Filed(now))
  {
    hide AllTame, AppendAll, Foldable, Fed, IsEnding, Filed, Kept, Tagged, DateOf;
    FedFiled(s, nl);
    FedNames(s, nl);
    var s' := if fed then Fed(s, nl) else s;
    KeptSelf(Filed(s.body));
    if DateIn(s).Some? && DateIn(s).value in owed {
      var entries := folding[DateIn(s).value];
      AppendAllFiles(s'.body, CLASSES, entries, nl);
      assert forall name | name in entries :: name in CLASSES by { FoldableClasses(entries); }
    }
  }

  lemma FoldableClasses(entries: Entries)
    requires Foldable(entries)
    ensures forall name | name in entries :: name in CLASSES
  {}

  /** What the sections say: each piece with its section's heading and its class. */
  function Ledger(ss: seq<Section>): seq<(string, Filing)> {
    if ss == [] then [] else Marked(ss[0].heading, Filed(ss[0].body)) + Ledger(ss[1..])
  }

  function Marked(heading: string, filed: seq<Filing>): seq<(string, Filing)> {
    seq(|filed|, i requires 0 <= i < |filed| => (heading, filed[i]))
  }

  lemma MarkedKept(heading: string, was: seq<Filing>, now: seq<Filing>)
    requires Kept(was, now)
    ensures Kept(Marked(heading, was), Marked(heading, now))
  {
    var at :| Placing(at, was, now);
    assert Placing(at, Marked(heading, was), Marked(heading, now));
  }

  /** Through the whole fold everything that stood stays in its section and under its
      class, in its order. */
  lemma {:induction false} WeaveKeepsFiling(ss: seq<Section>, news: seq<string>, owed: set<string>, folding: Folding,
                                            nl: string)
    requires Foldings(news, owed, folding, nl) && AllFoldable(folding) && forall s | s in ss :: AllTame(s.body)
    ensures Kept(Ledger(ss), Ledger(Weave(ss, news, owed, folding, nl)))
    decreases |ss| + |news|
  {
    hide Created, Grown, IsDate, IsEnding, GoesBefore, AllFoldable, AllTame, Kept, Filed;
    var woven := Weave(ss, news, owed, folding, nl);
    if news != [] && GoesBefore(ss, news[0]) {
      var s := Created(news[0], folding[news[0]], nl);
      WeaveKeepsFiling(ss, news[1..], owed, folding, nl);
      assert woven[0] == s && woven[1..] == Weave(ss, news[1..], owed, folding, nl);
      KeptNothing(Marked(s.heading, Filed(s.body)));
      KeptConcat([], Marked(s.heading, Filed(s.body)), Ledger(ss), Ledger(woven[1..]));
      assert [] + Ledger(ss) == Ledger(ss);
    } else if ss == [] {
      KeptNothing<(string, Filing)>([]);
    } else {
      var fed := news != [] && GoesBefore(ss[1..], news[0]);
      var s := Grown(ss[0], fed, owed, folding, nl);
      GrownFiles(ss[0], fed, owed, folding, nl);
      GrownHeading(ss[0], fed, owed, folding, nl);
      WeaveKeepsFiling(ss[1..], news, Paid(ss[0], owed), folding, nl);
      assert woven[0] == s && woven[1..] == Weave(ss[1..], news, Paid(ss[0], owed), folding, nl);
      MarkedKept(s.heading, Filed(ss[0].body), Filed(s.body));
      KeptConcat(Marked(s.heading, Filed(ss[0].body)), Marked(s.heading, Filed(s.body)), Ledger(ss[1..]),
                 Ledger(woven[1..]));
    }
  }

  ghost predicate FirstDated(ss: seq<Section>, date: string, i: nat) {
    i < |ss| && Dated(ss[i], date) && forall j | 0 <= j < i :: !Dated(ss[j], date)
  }

  /** The first section of the date has all of a class's entries under that class, in order. */
  ghost predicate FiledIn(ss: seq<Section>, date: string, name: string, entries: seq<string>) {
    exists i: nat :: FirstDated(ss, date, i) && Kept(Tagged(Some(name), entries), Filed(ss[i].body))
  }

  lemma FiledInFirst(s: Section, ss: seq<Section>, date: string, name: string, entries: seq<string>)
    requires Dated(s, date) ==> Kept(Tagged(Some(name), entries), Filed(s.body))
    requires !Dated(s, date) ==> FiledIn(ss, date, name, entries)
    ensures FiledIn([s] + ss, date, name, entries)
  {
    hide Kept, Tagged, Filed, DateOf;
    if Dated(s, date) {
      assert FirstDated([s] + ss, date, 0);
    } else {
      var i: nat :| FirstDated(ss, date, i) && Kept(Tagged(Some(name), entries), Filed(ss[i].body));
      assert ([s] + ss)[i + 1] == ss[i] && FirstDated([s] + ss, date, i + 1);
    }
  }

  /** And the entries of each date and class land together in the first section of that
      date, under that class. */
  lemma {:induction false} EntriesFiled(ss: seq<Section>, news: seq<string>, owed: set<string>, folding: Folding,
                                        nl: string, date: string, name: string)
    requires Foldings(news, owed, folding, nl) && AllFoldable(folding) && forall s | s in ss :: AllTame(s.body)
    requires (date in owed && Stands(ss, date)) || (date in news && !Stands(ss, date))
    requires date in folding && name in folding[date]
    ensures FiledIn(Weave(ss, news, owed, folding, nl), date, name, folding[date][name])
    decreases |ss| + |news|
  {
    hide Created, Grown, IsDate, IsEnding, Less, DateOf, Foldable, Stands, FiledIn, GoesBefore, AllTame, Kept, Filed,
         Tagged, Canonical;
    var woven, entries := Weave(ss, news, owed, folding, nl), folding[date][name];
    if news != [] { GoesBeforeNone(news[0]); }
    if news != [] && GoesBefore(ss, news[0]) {
      var s := Created(news[0], folding[news[0]], nl);
      assert woven == [s] + Weave(ss, news[1..], owed, folding, nl);
      CreatedDate(news[0], folding[news[0]], nl);
      if date == news[0] {
        FoldableClasses(folding[date]);
        CreatedFiles(date, folding[date], nl);
        CanonicalHolds(CLASSES, folding[date], nl, name);
      } else {
        EntriesFiled(ss, news[1..], owed, folding, nl, date, name);
      }
      FiledInFirst(s, Weave(ss, news[1..], owed, folding, nl), date, name, entries);
    } else if ss == [] {
      StandsNone(date);
    } else {
      var fed := news != [] && GoesBefore(ss[1..], news[0]);
      var s, rest := Grown(ss[0], fed, owed, folding, nl), Weave(ss[1..], news, Paid(ss[0], owed), folding, nl);
      assert woven == [s] + rest;
      GrownHeading(ss[0], fed, owed, folding, nl);
      StandsFirst(ss[0], ss[1..], date);
      assert [ss[0]] + ss[1..] == ss;
      if Dated(ss[0], date) {
        GrownFiles(ss[0], fed, owed, folding, nl);
      } else {
        EntriesFiled(ss[1..], news, Paid(ss[0], owed), folding, nl, date, name);
      }
      FiledInFirst(s, rest, date, name, entries);
    }
  }

  // The text as it is read

  /** Where a reader of the lines so far is: the date of the section last opened, and the
      last class named in it. */
  datatype Reader = Reader(date: Option<string>, heading: Option<string>)

  const AT_THE_TOP := Reader(None, None)

  function ReadLine(r: Reader, l: string): Reader {
    if IsSection(l) then Reader(DateOf(l), None)
    else match Heading(l) case None => r case Some(name) => r.(heading := Some(name))
  }

  function ReadLines(r: Reader, lines: seq<string>): Reader
    decreases |lines|
  {
    if lines == [] then r else ReadLines(ReadLine(r, lines[0]), lines[1..])
  }

  function Reading(text: string): Reader { ReadLines(AT_THE_TOP, Split(text)) }

  lemma {:induction false} ReadConcat(r: Reader, a: seq<string>, b: seq<string>)
    ensures ReadLines(r, a + b) == ReadLines(ReadLines(r, a), b)
    decreases |a|
  {
    hide ReadLine;
    if a == [] {
      assert a + b == b;
    } else {
      assert (a + b)[1..] == a[1..] + b;
      ReadConcat(ReadLine(r, a[0]), a[1..], b);
    }
  }

  lemma ReadOne(r: Reader, l: string)
    ensures ReadLines(r, [l]) == ReadLine(r, l)
  {
    assert [l][1..] == [];
  }

  lemma ReadFeed(r: Reader, l: string)
    ensures ReadLine(r, l + "\n") == ReadLine(r, l) && ReadLine(r, "\n") == r
  {
    BareFeed(l);
    BareFeed("");
    assert "" + "\n" == "\n";
    BareIsNothing("\n");
  }

  /** Reading on over a seam is no different from reading the two texts. */
  lemma ReadOn(r: Reader, a: string, b: string)
    requires Complete(a)
    ensures ReadLines(r, Split(a + b)) == ReadLines(ReadLines(r, Split(a)), Split(b))
  {
    SplitConcat(a, b);
    var front, back := Split(a), Split(b);
    hide Split, ReadLine, ReadLines, Complete;
    if Seam(a, b) {
      var first, last, rest := front[..|front| - 1], front[|front| - 1], back[1..];
      ReadConcat(r, first + [last + "\n"], rest);
      ReadConcat(r, first, [last + "\n"]);
      ReadConcat(r, first, [last]);
      assert first + [last] == front && ["\n"] + rest == back;
      var r' := ReadLines(r, front);
      ReadConcat(r', ["\n"], rest);
      ReadOne(ReadLines(r, first), last + "\n");
      ReadOne(ReadLines(r, first), last);
      ReadOne(r', "\n");
      ReadFeed(ReadLines(r, first), last);
      ReadFeed(r', last);
    } else {
      ReadConcat(r, front, back);
    }
  }

  lemma {:induction false} ReadPlain(r: Reader, lines: seq<string>)
    requires forall l | l in lines :: !IsSection(l)
    ensures var names := Names(lines);
      ReadLines(r, lines) == if names == [] then r else r.(heading := Some(names[|names| - 1]))
    decreases |lines|
  {
    hide IsSection, Heading;
    if lines != [] {
      assert lines == [lines[0]] + lines[1..];
      ReadPlain(ReadLine(r, lines[0]), lines[1..]);
    }
  }

  /** A body read through leaves in force what its pieces leave in force. */
  lemma {:induction false} ReadBody(r: Reader, body: seq<string>)
    requires forall x | x in body :: Plain(x)
    ensures ReadLines(r, Split(Join(body))) == r.(heading := InForce(body, r.heading))
    ensures Complete(Join(body))
    decreases |body|
  {
    hide Split, Complete, IsSection, ReadLines, Names, Leaves, InForce;
    if body == [] {
      SplitNothing();
      ReadNothing(r);
      FiledNothing(r.heading);
      assert Complete("") by { NothingIsComplete(); }
    } else {
      var x, rest := body[0], body[1..];
      assert body == [x] + rest && Plain(x);
      var r' := ReadLines(r, Split(x));
      ReadPlain(r, Split(x));
      assert r'.heading == Leaves(x, r.heading) by { LeavesNames(x, r.heading); }
      ReadBody(r', rest);
      ReadOn(r, x, Join(rest));
      FiledFirst(x, rest, r.heading);
      CompleteJoins(x, Join(rest));
    }
  }

  lemma ReadNothing(r: Reader)
    ensures ReadLines(r, []) == r
  {}

  lemma NothingIsComplete()
    ensures Complete("")
  {}

  lemma LeavesNames(x: string, under: Option<string>)
    ensures var names := Names(Split(x)); Leaves(x, under) == if names == [] then under else Some(names[|names| - 1])
  {}

  lemma CompleteJoins(a: string, b: string)
    requires Complete(a) && Complete(b)
    ensures Complete(a + b)
  {
    if b != "" { assert (a + b)[|a + b| - 1] == b[|b| - 1]; } else { assert a + b == a; }
  }

  lemma {:induction false} SectionsComplete(ss: seq<Section>)
    requires forall s | s in ss :: Writable(s)
    ensures Complete(SectionsText(ss))
  {
    hide Split, Complete, IsSection;
    if ss == [] {
      NothingIsComplete();
    } else {
      var s := ss[0];
      assert s in ss && Writable(s);
      ReadBody(AT_THE_TOP, s.body);
      CompleteJoins(s.heading, Join(s.body));
      assert forall x | x in ss[1..] :: x in ss;
      SectionsComplete(ss[1..]);
      CompleteJoins(SectionText(s), SectionsText(ss[1..]));
    }
  }

  lemma {:induction false} SectionsJoin(a: seq<Section>, b: seq<Section>)
    ensures SectionsText(a + b) == SectionsText(a) + SectionsText(b)
  {
    hide SectionText;
    if a == [] {
      assert a + b == b;
    } else {
      assert (a + b)[1..] == a[1..] + b;
      SectionsJoin(a[1..], b);
    }
  }

  /** Inside a section of what is written, a reader is where the section's own pieces say,
      whatever stands above the section. */
  lemma ReadInside(above: string, heading: string, front: seq<string>)
    requires Complete(above) && Split(heading) == [heading] && Complete(heading) && IsSection(heading)
    requires forall x | x in front :: Plain(x)
    ensures Reading(above + heading + Join(front)) == Reader(DateOf(heading), InForce(front, None))
  {
    hide Split, Complete, ReadLines, DateOf, InForce;
    var r := ReadLines(AT_THE_TOP, Split(above));
    ReadOn(AT_THE_TOP, above, heading);
    ReadOne(r, heading);
    CompleteJoins(above, heading);
    ReadOn(AT_THE_TOP, above + heading, Join(front));
    ReadBody(Reader(DateOf(heading), None), front);
  }

  lemma {:induction false} FiledAt(body: seq<string>, under: Option<string>, name: Option<string>, e: string)
      returns (k: nat)
    requires (name, e) in FiledUnder(body, under) && Names(Split(e)) == []
    ensures k < |body| && body[k] == e && InForce(body[..k], under) == name
  {
    hide Names, Split, AllSpace;
    var x, rest := body[0], body[1..];
    if e == x && Leaves(x, under) == name {
      k := 0;
    } else {
      assert (name, e) in FiledUnder(rest, Leaves(x, under));
      var j := FiledAt(rest, Leaves(x, under), name, e);
      k := j + 1;
      assert body[..k] == [x] + rest[..j];
      FiledFirst(x, rest[..j], under);
    }
  }

  lemma {:induction false} TaggedMember(under: Option<string>, entries: seq<string>, e: string)
    requires e in entries && !AllSpace(e)
    ensures (under, e) in Tagged(under, entries)
  {
    if entries[0] != e { TaggedMember(under, entries[1..], e); }
  }

  /** From text to text: each entry that says anything stands in what is written where a
      reader is in a section of its date, under its class. */
  lemma EntryReads(text: string, folding: Folding, dates: seq<string>, date: string, name: string, e: string)
      returns (front: string, back: string)
    requires Ready(text, folding, dates)
    requires date in folding && name in folding[date] && e in folding[date][name] && !AllSpace(e)
    ensures After(text, folding, dates) == front + e + back
    ensures Reading(front) == Reader(Some(date), Some(name))
  {
    hide Weave, Standing, News, FedLabels, Stands, Folded, Newline, Foldings, AllFoldable, IsDate, Split, Tagged, Kept,
         FiledUnder, Tame, AllSpace, Writable, Complete, SectionsText, IsSection, DateOf, Heading, Reading, InForce;
    var p, now := Standing(text), Folded(text, folding, dates).sections;
    OnePass(text, folding, dates);
    ChangelogTwins.StandingTame(text);
    EntriesFiled(p.sections, News(p.sections, dates), Owed(p.sections, dates), folding, Newline(text), date, name);
    var i: nat :| FirstDated(now, date, i) && Kept(Tagged(Some(name), folding[date][name]), Filed(now[i].body));
    TaggedMember(Some(name), folding[date][name], e);
    KeptMember(Tagged(Some(name), folding[date][name]), Filed(now[i].body), (Some(name), e));
    EntryNames(folding, date, name, e);
    var k := FiledAt(now[i].body, None, Some(name), e);
    AllWritable(text, folding, dates);
    front, back := EntryIn(Join(p.preamble), now, i, k);
  }

  lemma EntryNames(folding: Folding, date: string, name: string, e: string)
    requires AllFoldable(folding) && date in folding && name in folding[date] && e in folding[date][name]
    ensures Names(Split(e)) == []
  {
    hide Names, Split, Plain;
    assert Foldable(folding[date]) && AreEntries(folding[date][name]) && IsEntry(e);
  }

  lemma AllWritable(text: string, folding: Folding, dates: seq<string>)
    requires Ready(text, folding, dates)
    ensures Complete(Join(Standing(text).preamble))
    ensures forall s | s in Folded(text, folding, dates).sections :: Writable(s)
  {
    hide Weave, Group, News, FedLabels, Stands, FoldDates, Newline, Foldings, AllFoldable, IsDate, Split, Writable,
         Complete, IsSection;
    var p := Standing(text);
    StandingRaw(text);
    ReadBody(AT_THE_TOP, p.preamble);
    OnePass(text, folding, dates);
    SeenIsSee(p.sections);
    WovenWritable(p.sections, News(p.sections, dates), Owed(p.sections, dates), folding, Newline(text));
  }

  lemma EntryIn(preamble: string, ss: seq<Section>, i: nat, k: nat) returns (front: string, back: string)
    requires Complete(preamble) && (forall s | s in ss :: Writable(s)) && i < |ss| && k < |ss[i].body|
    ensures preamble + SectionsText(ss) == front + ss[i].body[k] + back
    ensures Reading(front) == Reader(DateOf(ss[i].heading), InForce(ss[i].body[..k], None))
  {
    hide Complete, Split, Reading, IsSection, DateOf, InForce, SectionsText;
    var s := ss[i];
    assert Writable(s) && s in ss;
    var e, before, behind := s.body[k], s.body[..k], s.body[k + 1..];
    assert forall x | x in ss[..i] :: x in ss;
    SectionsComplete(ss[..i]);
    CompleteJoins(preamble, SectionsText(ss[..i]));
    var above := preamble + SectionsText(ss[..i]);
    front := above + s.heading + Join(before);
    back := Join(behind) + SectionsText(ss[i + 1..]);
    ReadInside(above, s.heading, before);
    assert ss == ss[..i] + ([s] + ss[i + 1..]);
    SectionsJoin(ss[..i], [s] + ss[i + 1..]);
    SectionsFirst(s, ss[i + 1..]);
    assert s.body == before + ([e] + behind);
    JoinConcat(before, [e] + behind);
    JoinCons(e, behind);
    hide Join;
    Regrouped(preamble, SectionsText(ss[..i]), s.heading, Join(before), e, Join(behind), SectionsText(ss[i + 1..]));
  }

  lemma Regrouped(a: string, b: string, c: string, d: string, e: string, f: string, g: string)
    ensures a + (b + (c + (d + (e + f)) + g)) == a + b + c + d + e + (f + g)
  {}

  lemma SectionsFirst(s: Section, ss: seq<Section>)
    ensures SectionsText([s] + ss) == s.heading + Join(s.body) + SectionsText(ss)
  {
    assert ([s] + ss)[1..] == ss;
  }
}
