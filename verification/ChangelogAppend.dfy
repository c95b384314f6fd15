/**
  One class's entries put into a section body, and the body of a section written
  from nothing.
*/
module ChangelogAppend {
  import opened Wrappers
  import opened Lines
  import opened Headings
  import opened ChangelogParse
  import opened Subsequence

  /** The six classes, in the order sections carry them. */
  const CLASSES := ["Added", "Changed", "Deprecated", "Removed", "Fixed", "Security"]

  /** What one date folds in: the entries of each class. */
  type Entries = map<string, seq<string>>

  function Order(name: string): (r: nat)
    requires name in CLASSES
    ensures r < |CLASSES| && CLASSES[r] == name
  {
    if name == "Added" then 0 else if name == "Changed" then 1 else if name == "Deprecated" then 2
    else if name == "Removed" then 3 else if name == "Fixed" then 4 else 5
  }

  /** Entries one under another, a blank line between each two. */
  function Interleaved(entries: seq<string>, nl: string): seq<string> {
    if |entries| <= 1 then entries else [entries[0], nl] + Interleaved(entries[1..], nl)
  }

  predicate Named(piece: string, name: string) { Heading(piece) == Some(name) }

  predicate IsLater(piece: string, name: string)
    requires name in CLASSES
  {
    match Heading(piece)
    case None => false
    case Some(other) => other in CLASSES && Order(other) > Order(name)
  }

  /** Where a class's entries go. */
  datatype Place =
    | Under(at: nat)   // after the last entry the class already has
    | Before(at: nat)  // under a new heading, before the first later class
    | AtEnd(at: nat)   // under a new heading, after everything

  /** What the place has to be, whatever search finds it. */
  ghost predicate RightPlace(body: seq<string>, name: string, p: Place)
    requires name in CLASSES
  {
    && p.at <= |body|
    && match p
       case Under(at) => exists start | 0 <= start < at :: UnderLast(body, name, start, at)
       case Before(at) =>
         && (forall i | 0 <= i < |body| :: !Named(body[i], name))
         && at < |body| && IsLater(body[at], name) && (forall i | 0 <= i < at :: !IsLater(body[i], name))
       case AtEnd(at) =>
         && (forall i | 0 <= i < |body| :: !Named(body[i], name) && !IsLater(body[i], name))
         && (forall i | at <= i < |body| :: AllSpace(body[i]))
         && (at > 0 ==> !AllSpace(body[at - 1]))
  }

  /** `start` is the last heading of the class, and `at` comes after everything but
      the blank pieces that stand before the next heading. */
  ghost predicate UnderLast(body: seq<string>, name: string, start: nat, at: nat)
    requires start < at <= |body|
  {
    && Named(body[start], name)
    && (forall i | start < i < |body| :: !Named(body[i], name))
    && (forall i | start < i < at :: Heading(body[i]) == None)
    && (at > start + 1 ==> !AllSpace(body[at - 1]))
    && exists end | at <= end <= |body| :: BlanksTo(body, at, end)
  }

  ghost predicate BlanksTo(body: seq<string>, at: nat, end: nat)
    requires at <= end <= |body|
  {
    && (forall i | at <= i < end :: AllSpace(body[i]) && Heading(body[i]) == None)
    && (end < |body| ==> Heading(body[end]).Some?)
  }

  /** The searches the fold makes: the last heading of the class, the heading after
      it, and back over the blank pieces; else the first later class; else the end. */
  method FindPlace(body: seq<string>, name: string) returns (p: Place)
    requires name in CLASSES
    ensures RightPlace(body, name, p)
  {
    var matching := LastNamed(body, name);
    if matching.Some? {
      var start := matching.value;
      var next := start + 1;
      while next < |body| && Heading(body[next]) == None
        invariant start < next <= |body|
        invariant forall i | start < i < next :: Heading(body[i]) == None
      {
        next := next + 1;
      }
      var end := next;
      while end > start + 1 && AllSpace(body[end - 1])
        invariant start < end <= next
        invariant forall i | end <= i < next :: AllSpace(body[i])
      {
        end := end - 1;
      }
      assert BlanksTo(body, end, next);
      assert UnderLast(body, name, start, end);
      return Under(end);
    }
    var later := 0;
    while later < |body| && !IsLater(body[later], name)
      invariant later <= |body|
      invariant forall i | 0 <= i < later :: !IsLater(body[i], name)
    {
      later := later + 1;
    }
    if later < |body| { return Before(later); }
    var end := |body|;
    while end > 0 && AllSpace(body[end - 1])
      invariant 0 <= end <= |body|
      invariant forall i | end <= i < |body| :: AllSpace(body[i])
    {
      end := end - 1;
    }
    return AtEnd(end);
  }

  method LastNamed(body: seq<string>, name: string) returns (r: Option<nat>)
    ensures r == None ==> forall i | 0 <= i < |body| :: !Named(body[i], name)
    ensures r.Some? ==> r.value < |body| && Named(body[r.value], name)
    ensures r.Some? ==> forall i | r.value < i < |body| :: !Named(body[i], name)
  {
    r := None;
    for index := 0 to |body|
      invariant r == None ==> forall i | 0 <= i < index :: !Named(body[i], name)
      invariant r.Some? ==> r.value < index && Named(body[r.value], name)
      invariant r.Some? ==> forall i | r.value < i < index :: !Named(body[i], name)
    {
      if Named(body[index], name) { r := Some(index); }
    }
  }

  /** There is one right place and no other, so a body is folded into in one way. */
  lemma OnePlace(body: seq<string>, name: string, p: Place, q: Place)
    requires name in CLASSES && RightPlace(body, name, p) && RightPlace(body, name, q)
    ensures p == q
  {
    hide Heading, IsLater, AllSpace;
    if p.Under? && q.Under? {
      var s :| 0 <= s < p.at && UnderLast(body, name, s, p.at);
      var t :| 0 <= t < q.at && UnderLast(body, name, t, q.at);
      SameEnd(body, name, s, p.at, q.at);
    }
  }

  lemma SameEnd(body: seq<string>, name: string, start: nat, at: nat, other: nat)
    requires start < at <= |body| && start < other <= |body|
    requires UnderLast(body, name, start, at) && UnderLast(body, name, start, other)
    ensures at == other
  {
    hide Heading, AllSpace;
    var end :| at <= end <= |body| && BlanksTo(body, at, end);
    var stop :| other <= stop <= |body| && BlanksTo(body, other, stop);
  }

  /** What is put in at the place. */
  function Put(p: Place, name: string, entries: seq<string>, nl: string): seq<string> {
    match p
    case Under(_) => [nl] + Interleaved(entries, nl)
    case Before(_) => ["### " + name + nl, nl] + Interleaved(entries, nl) + [nl]
    case AtEnd(_) => [nl, "### " + name + nl, nl] + Interleaved(entries, nl)
  }

  function LastOf(body: seq<string>, name: string): (r: Option<nat>)
    ensures r == None ==> forall i | 0 <= i < |body| :: !Named(body[i], name)
    ensures r.Some? ==> r.value < |body| && Named(body[r.value], name)
    ensures r.Some? ==> forall i | r.value < i < |body| :: !Named(body[i], name)
  {
    var last := |body| - 1;
    if body == [] then None else if Named(body[last], name) then Some(last) else LastOf(body[..last], name)
  }

  function NextHeading(body: seq<string>, from: nat): (next: nat)
    requires from <= |body|
    ensures from <= next <= |body| && (next < |body| ==> Heading(body[next]).Some?)
    ensures forall i | from <= i < next :: Heading(body[i]) == None
    decreases |body| - from
  {
    if from == |body| || Heading(body[from]).Some? then from else NextHeading(body, from + 1)
  }

  function FirstLater(body: seq<string>, name: string, from: nat): (later: nat)
    requires from <= |body| && name in CLASSES
    ensures from <= later <= |body| && (later < |body| ==> IsLater(body[later], name))
    ensures forall i | from <= i < later :: !IsLater(body[i], name)
    decreases |body| - from
  {
    if from == |body| || IsLater(body[from], name) then from else FirstLater(body, name, from + 1)
  }

  function BackOver(body: seq<string>, low: nat, high: nat): (end: nat)
    requires low <= high <= |body|
    ensures low <= end <= high && (end > low ==> !AllSpace(body[end - 1]))
    ensures forall i | end <= i < high :: AllSpace(body[i])
  {
    if high > low && AllSpace(body[high - 1]) then BackOver(body, low, high - 1) else high
  }

  function PlaceOf(body: seq<string>, name: string): (p: Place)
    requires name in CLASSES
    ensures RightPlace(body, name, p)
  {
    match LastOf(body, name)
    case Some(start) =>
      var next := NextHeading(body, start + 1);
      var end := BackOver(body, start + 1, next);
      assert BlanksTo(body, end, next);
      assert UnderLast(body, name, start, end);
      Under(end)
    case None =>
      var later := FirstLater(body, name, 0);
      if later < |body| then Before(later) else AtEnd(BackOver(body, 0, |body|))
  }

  function AppendTo(body: seq<string>, name: string, entries: seq<string>, nl: string): seq<string>
    requires name in CLASSES
  {
    var p := PlaceOf(body, name);
    body[..p.at] + Put(p, name, entries, nl) + body[p.at..]
  }

  /** `AppendTo`, with its place found by search. */
  method Append(body: seq<string>, name: string, entries: seq<string>, nl: string) returns (grown: seq<string>)
    requires name in CLASSES
    ensures grown == AppendTo(body, name, entries, nl)
  {
    var block := Block(entries, nl);
    var p := FindPlace(body, name);
    OnePlace(body, name, p, PlaceOf(body, name));
    match p
    case Under(at) => grown := body[..at] + ([nl] + block) + body[at..];
    case Before(at) => grown := body[..at] + (["### " + name + nl, nl] + block + [nl]) + body[at..];
    case AtEnd(at) => grown := body[..at] + ([nl, "### " + name + nl, nl] + block) + body[at..];
  }

  lemma InterleavedMore(entries: seq<string>, e: string, nl: string)
    ensures Interleaved(entries + [e], nl) == if entries == [] then [e] else Interleaved(entries, nl) + [nl, e]
  {
    if entries != [] {
      assert (entries + [e])[1..] == entries[1..] + [e];
      InterleavedMore(entries[1..], e, nl);
    }
  }

  method Block(entries: seq<string>, nl: string) returns (block: seq<string>)
    ensures block == Interleaved(entries, nl)
  {
    block := [];
    for position := 0 to |entries|
      invariant block == Interleaved(entries[..position], nl)
    {
      InterleavedMore(entries[..position], entries[position], nl);
      assert entries[..position + 1] == entries[..position] + [entries[position]];
      if position > 0 { block := block + [nl]; }
      block := block + [entries[position]];
    }
    assert entries[..|entries|] == entries;
  }

  // What an append leaves standing

  /** An entry as a fragment hands it over: whole lines, none of them a heading. */
  ghost predicate IsEntry(e: string) {
    e != "" && Plain(e) && Names(Split(e)) == []
  }

  ghost predicate AreEntries(entries: seq<string>) {
    forall e | e in entries :: IsEntry(e)
  }

  lemma {:induction false} PieceNamesConcat(a: seq<string>, b: seq<string>)
    ensures PieceNames(a + b) == PieceNames(a) + PieceNames(b)
  {
    hide Names, Split;
    if a == [] {
      assert a + b == b;
    } else {
      assert (a + b)[1..] == a[1..] + b;
      PieceNamesConcat(a[1..], b);
    }
  }

  lemma {:induction false} OneLine(s: string, nl: string)
    requires IsEnding(nl) && forall c | c in s :: !IsBreak(c)
    ensures FirstLine(s + nl) == |s + nl|
  {
    if s == "" {
      assert s + nl == nl;
    } else {
      assert s[0] in s;
      assert (s + nl)[1..] == s[1..] + nl;
      OneLine(s[1..], nl);
    }
  }

  lemma OneLineAlone(s: string, nl: string)
    requires IsEnding(nl) && forall c | c in s :: !IsBreak(c)
    ensures Split(s + nl) == [s + nl] && Complete(s + nl)
  {
    OneLine(s, nl);
    var l := s + nl;
    assert l[..|l|] == l && l[|l|..] == "";
    assert Split(l[|l|..]) == [];
  }

  lemma BareIsNothing(l: string)
    requires Bare(l) == ""
    ensures Heading(l) == None && !IsSection(l)
  {}

  lemma WrittenFeed(nl: string)
    requires IsEnding(nl)
    ensures Plain(nl) && Split(nl) == [nl] && Names(Split(nl)) == []
  {
    BareEnding("", nl);
    OneLineAlone("", nl);
    assert "" + nl == nl;
    BareIsNothing(nl);
    hide Split, IsSection, Heading, Complete, Bare;
    assert Names([nl][1..]) == [];
  }

  lemma ClassName(name: string)
    requires name in CLASSES
    ensures name != "" && forall c | c in name :: !IsSpace(c)
  {}

  lemma WrittenClass(name: string, nl: string)
    requires name in CLASSES && IsEnding(nl)
    ensures Plain("### " + name + nl) && Names(Split("### " + name + nl)) == [name]
  {
    ClassName(name);
    WrittenHeading(name, nl);
    var s := "### " + name;
    OneLineAlone(s, nl);
    assert Names([s + nl][1..]) == [];
  }

  lemma {:induction false} WrittenBlock(entries: seq<string>, nl: string)
    requires AreEntries(entries) && IsEnding(nl)
    ensures var block := Interleaved(entries, nl);
      && (forall x | x in block :: Plain(x)) && PieceNames(block) == [] && (forall e | e in entries :: e in block)
  {
    hide Plain, Names, Split, IsEnding;
    if |entries| > 1 {
      var rest := entries[1..];
      assert entries == [entries[0]] + rest && IsEntry(entries[0]);
      assert forall e | e in rest :: e in entries;
      WrittenBlock(rest, nl);
      WrittenFeed(nl);
      PieceNamesConcat([entries[0]], [nl]);
      PieceNamesConcat([entries[0], nl], Interleaved(entries[1..], nl));
      assert [entries[0]] + [nl] == [entries[0], nl];
      Alone(entries[0]);
      Alone(nl);
    } else if |entries| == 1 {
      Alone(entries[0]);
      assert entries == [entries[0]] && IsEntry(entries[0]);
    }
  }

  lemma Alone(piece: string)
    ensures PieceNames([piece]) == Names(Split(piece))
  {
    assert PieceNames([piece][1..]) == [];
  }

  /** Everything put in is plain, says no class but its own, and holds every entry. */
  lemma PutIsPlain(p: Place, name: string, entries: seq<string>, nl: string)
    requires name in CLASSES && AreEntries(entries) && IsEnding(nl)
    ensures forall x | x in Put(p, name, entries, nl) :: Plain(x)
    ensures PieceNames(Put(p, name, entries, nl)) == if p.Under? then [] else [name]
    ensures forall e | e in entries :: e in Put(p, name, entries, nl)
  {
    hide Plain, Names, Split, IsEnding;
    WrittenBlock(entries, nl);
    WrittenFeed(nl);
    WrittenClass(name, nl);
    var h, block := "### " + name + nl, Interleaved(entries, nl);
    Alone(nl);
    Alone(h);
    PieceNamesConcat([nl], block);
    PieceNamesConcat([h], [nl]);
    PieceNamesConcat([h] + [nl], block);
    PieceNamesConcat([h] + [nl] + block, [nl]);
    PieceNamesConcat([nl], [h] + [nl] + block);
    assert [h] + [nl] == [h, nl] && [nl] + ([h] + [nl] + block) == [nl, h, nl] + block;
  }

  /** One body grown out of another: nothing taken away or moved, no class heading
      but the six put in. */
  ghost predicate Grew(was: seq<string>, now: seq<string>) {
    && Kept(was, now)
    && Kept(PieceNames(was), PieceNames(now))
    && (forall name | name in PieceNames(now) :: name in PieceNames(was) || name in CLASSES)
    && ((forall x | x in was :: Plain(x)) ==> forall x | x in now :: Plain(x))
  }

  lemma GrewTrans(a: seq<string>, b: seq<string>, c: seq<string>)
    requires Grew(a, b) && Grew(b, c)
    ensures Grew(a, c)
  {
    hide Plain, PieceNames;
    KeptTrans(a, b, c);
    KeptTrans(PieceNames(a), PieceNames(b), PieceNames(c));
  }

  lemma GrewSelf(a: seq<string>)
    ensures Grew(a, a)
  {
    hide Plain, PieceNames;
    KeptSelf(a);
    KeptSelf(PieceNames(a));
  }

  lemma InsertGrows(body: seq<string>, at: nat, put: seq<string>)
    requires at <= |body|
    requires (forall x | x in put :: Plain(x)) && forall name | name in PieceNames(put) :: name in CLASSES
    ensures Grew(body, body[..at] + put + body[at..])
  {
    hide Plain, PieceNames, Kept;
    var now := body[..at] + put + body[at..];
    KeptInsert(body, at, put);
    var front, mid, back := PieceNames(body[..at]), PieceNames(put), PieceNames(body[at..]);
    assert body[..at] + body[at..] == body;
    PieceNamesConcat(body[..at], body[at..]);
    PieceNamesConcat(body[..at], put);
    PieceNamesConcat(body[..at] + put, body[at..]);
    InsertNames(front, mid, back);
    assert forall x | x in now :: x in body || x in put;
  }

  lemma InsertNames(front: seq<string>, mid: seq<string>, back: seq<string>)
    ensures Kept(front + back, front + mid + back)
    ensures forall name | name in front + mid + back :: name in front + back || name in mid
  {
    KeptInsert(front + back, |front|, mid);
    assert (front + back)[..|front|] == front && (front + back)[|front|..] == back;
  }

  /** An append only puts in, and every entry is in. */
  lemma AppendGrows(body: seq<string>, name: string, entries: seq<string>, nl: string)
    requires name in CLASSES && AreEntries(entries) && IsEnding(nl)
    ensures Grew(body, AppendTo(body, name, entries, nl))
    ensures forall e | e in entries :: e in AppendTo(body, name, entries, nl)
  {
    hide Plain, PieceNames, Put, PlaceOf, Grew, AreEntries, IsEnding;
    var p := PlaceOf(body, name);
    PutIsPlain(p, name, entries, nl);
    InsertGrows(body, p.at, Put(p, name, entries, nl));
  }

  // All of one date's entries

  ghost predicate Foldable(entries: Entries) {
    forall name | name in entries :: name in CLASSES && AreEntries(entries[name])
  }

  ghost predicate AreClasses(names: seq<string>) {
    forall name | name in names :: name in CLASSES
  }

  function AppendAll(body: seq<string>, names: seq<string>, entries: Entries, nl: string): seq<string>
    requires AreClasses(names)
    decreases |names|
  {
    if names == [] then body
    else
      var name := names[0];
      var next := if name in entries then AppendTo(body, name, entries[name], nl) else body;
      AppendAll(next, names[1..], entries, nl)
  }

  lemma {:induction false} AppendAllGrows(body: seq<string>, names: seq<string>, entries: Entries, nl: string)
    requires AreClasses(names) && Foldable(entries) && IsEnding(nl)
    ensures Grew(body, AppendAll(body, names, entries, nl))
    ensures forall name, e | name in names && name in entries && e in entries[name] ::
      e in AppendAll(body, names, entries, nl)
    decreases |names|
  {
    hide AppendTo, AreEntries, IsEnding;
    if names == [] {
      GrewSelf(body);
    } else {
      var first := names[0];
      assert names == [first] + names[1..];
      var next := if first in entries then AppendTo(body, first, entries[first], nl) else body;
      if first in entries { AppendGrows(body, first, entries[first], nl); } else { GrewSelf(body); }
      AppendAllGrows(next, names[1..], entries, nl);
      var all := AppendAll(body, names, entries, nl);
      GrewTrans(body, next, all);
      forall name, e | name in names && name in entries && e in entries[name] ensures e in all {
        if name == first { KeptMember(next, all, e); }
      }
    }
  }

  function ClassBlock(name: string, entries: Entries, nl: string): seq<string> {
    if name in entries then Put(Before(0), name, entries[name], nl) else []
  }

  /** The body of a section that did not stand before. */
  function CreatedFrom(names: seq<string>, entries: Entries, nl: string): seq<string> {
    if names == [] then [] else ClassBlock(names[0], entries, nl) + CreatedFrom(names[1..], entries, nl)
  }

  function Wanted(names: seq<string>, entries: Entries): seq<string> {
    if names == [] then []
    else (if names[0] in entries then [names[0]] else []) + Wanted(names[1..], entries)
  }

  function Created(date: string, entries: Entries, nl: string): Section {
    Section("## " + date + nl, [nl] + CreatedFrom(CLASSES, entries, nl))
  }

  lemma ClassBlockIsCanonical(name: string, entries: Entries, nl: string)
    requires name in CLASSES && Foldable(entries) && IsEnding(nl)
    ensures forall x | x in ClassBlock(name, entries, nl) :: Plain(x)
    ensures PieceNames(ClassBlock(name, entries, nl)) == if name in entries then [name] else []
    ensures name in entries ==> forall e | e in entries[name] :: e in ClassBlock(name, entries, nl)
  {
    hide Plain, Put, AreEntries, IsEnding;
    if name in entries { PutIsPlain(Before(0), name, entries[name], nl); }
  }

  lemma {:induction false} CreatedFromIsCanonical(names: seq<string>, entries: Entries, nl: string)
    requires AreClasses(names) && Foldable(entries) && IsEnding(nl)
    ensures forall x | x in CreatedFrom(names, entries, nl) :: Plain(x)
    ensures PieceNames(CreatedFrom(names, entries, nl)) == Wanted(names, entries)
    ensures forall name, e | name in names && name in entries && e in entries[name] ::
      e in CreatedFrom(names, entries, nl)
  {
    hide Plain, ClassBlock, Foldable, IsEnding, Names, Split;
    if names != [] {
      assert names == [names[0]] + names[1..];
      ClassBlockIsCanonical(names[0], entries, nl);
      CreatedFromIsCanonical(names[1..], entries, nl);
      PieceNamesConcat(ClassBlock(names[0], entries, nl), CreatedFrom(names[1..], entries, nl));
    }
  }

  /** A created section is canonical: its date, one heading for each class it was
      given in the order of the six, and every entry under it. */
  lemma CreatedIsCanonical(date: string, entries: Entries, nl: string)
    requires IsDate(date) && Foldable(entries) && IsEnding(nl)
    ensures var s := Created(date, entries, nl);
      && Writable(s) && DateOf(s.heading) == Some(date) && PieceNames(s.body) == Wanted(CLASSES, entries)
      && (forall name, e | name in entries && e in entries[name] :: e in s.body)
  {
    var s := Created(date, entries, nl);
    WrittenDate(date, nl);
    assert forall c | c in "## " + date :: !IsBreak(c);
    OneLineAlone("## " + date, nl);
    hide Plain, AreEntries, IsEnding, IsDate, CreatedFrom, Split;
    CreatedFromIsCanonical(CLASSES, entries, nl);
    WrittenFeed(nl);
    Alone(nl);
    PieceNamesConcat([nl], CreatedFrom(CLASSES, entries, nl));
  }

  lemma {:induction false} CreatedFromMore(names: seq<string>, name: string, entries: Entries, nl: string)
    ensures CreatedFrom(names + [name], entries, nl) == CreatedFrom(names, entries, nl) + ClassBlock(name, entries, nl)
  {
    hide ClassBlock;
    if names == [] {
      assert names + [name] == [name] && CreatedFrom([name][1..], entries, nl) == [];
    } else {
      assert (names + [name])[1..] == names[1..] + [name];
      CreatedFromMore(names[1..], name, entries, nl);
    }
  }

  method CreateSection(date: string, entries: Entries, nl: string) returns (s: Section)
    ensures s == Created(date, entries, nl)
  {
    hide CreatedFrom;
    var body, names := [nl], CLASSES;
    assert CreatedFrom([], entries, nl) == [] by { CreatedFromNone(entries, nl); }
    for i := 0 to |names|
      invariant body == [nl] + CreatedFrom(names[..i], entries, nl)
    {
      assert names[..i + 1] == names[..i] + [names[i]];
      CreatedFromMore(names[..i], names[i], entries, nl);
      if names[i] in entries {
        var block := Block(entries[names[i]], nl);
        body := body + (["### " + names[i] + nl, nl] + block + [nl]);
      }
    }
    assert names[..|names|] == names;
    s := Section("## " + date + nl, body);
  }

  lemma CreatedFromNone(entries: Entries, nl: string)
    ensures CreatedFrom([], entries, nl) == []
  {}

  method AppendEach(body: seq<string>, entries: Entries, nl: string) returns (grown: seq<string>)
    ensures grown == AppendAll(body, CLASSES, entries, nl)
  {
    var names := CLASSES;
    grown := body;
    for i := 0 to |names|
      invariant AppendAll(grown, names[i..], entries, nl) == AppendAll(body, names, entries, nl)
    {
      assert names[i..][0] == names[i] && names[i..][1..] == names[i + 1..];
      if names[i] in entries { grown := Append(grown, names[i], entries[names[i]], nl); }
    }
    assert names[|names|..] == [];
  }
}
