/** What a fold does to the class headings of a section, said of the headings alone. */
module ChangelogNames {
  import opened Wrappers
  import opened Lines
  import opened Headings
  import opened ChangelogParse
  import opened ChangelogAppend
  import opened ChangelogFold

  predicate Later(other: string, name: string)
    requires name in CLASSES
  {
    other in CLASSES && Order(other) > Order(name)
  }

  /** A class among headings: where it is already, or in front of the first later one, or
      at the end. */
  function WithClass(names: seq<string>, name: string): seq<string>
    requires name in CLASSES
  {
    if name in names then names else PutBefore(names, name)
  }

  function PutBefore(names: seq<string>, name: string): seq<string>
    requires name in CLASSES
  {
    if names == [] then [name]
    else if Later(names[0], name) then [name] + names
    else [names[0]] + PutBefore(names[1..], name)
  }

  function WithClasses(names: seq<string>, classes: seq<string>, entries: Entries): seq<string>
    requires AreClasses(classes)
    decreases |classes|
  {
    if classes == [] then names
    else
      WithClasses(if classes[0] in entries then WithClass(names, classes[0]) else names, classes[1..], entries)
  }

  /** A piece read whole says the class its lines say, or none. */
  ghost predicate Tame(piece: string) {
    || Names(Split(piece)) == NameOf(piece)
    || (Names(Split(piece)) == [] && (Heading(piece) == None || Heading(piece).value !in CLASSES))
  }

  ghost predicate AllTame(body: seq<string>) {
    forall x | x in body :: Tame(x)
  }

  lemma LineTame(l: string)
    requires Split(l) == [l]
    ensures Tame(l)
  {
    assert Names([l][1..]) == [];
  }

  // An entry is one

  lemma {:induction false} FirstLinePast(t: string, n: nat)
    requires 0 < n <= |t| && forall i | 0 <= i < n :: !IsBreak(t[i])
    ensures FirstLine(t) >= n
  {
    if n > 1 { FirstLinePast(t[1..], n - 1); }
  }

  /** What a line ending takes with it leaves no line feed behind where the whole had
      none. */
  lemma {:induction false} BareOfFront(e: string, m: nat)
    requires m <= |e| && '\n' !in Bare(e)
    ensures '\n' !in Bare(e[..m])
  {
    if m == |e| {
      assert e[..m] == e;
    } else if e[|e| - 1] == '\r' || e[|e| - 1] == '\n' {
      BareOfFront(e[..|e| - 1], m);
      assert e[..|e| - 1][..m] == e[..m];
    } else {
      BareTrims(e[..m]);
      assert Bare(e[..m]) == e[..m][..|Bare(e[..m])|];
    }
  }

  /** What a heading that names a class has in front of the class. */
  lemma {:induction false} BlanksBefore(s: string) returns (k: nat)
    ensures k <= |s| && DropBlanks(s) == s[k..] && forall i | 0 <= i < k :: IsBlank(s[i])
  {
    if s != "" && IsBlank(s[0]) {
      var below := BlanksBefore(s[1..]);
      k := below + 1;
      assert s[1..][below..] == s[k..];
      forall i | 0 <= i < k ensures IsBlank(s[i]) {
        if i > 0 { assert s[i] == s[1..][i - 1]; }
      }
    } else {
      k := 0;
      assert s[0..] == s;
    }
  }

  lemma {:induction false} TrimFirst(s: string)
    requires s != "" && !IsBlank(s[0])
    ensures TrimBlanks(s) != "" && TrimBlanks(s)[0] == s[0]
  {
    if |s| > 1 && IsBlank(s[|s| - 1]) { TrimFirst(s[..|s| - 1]); }
  }

  lemma ClassStarts(name: string)
    requires name in CLASSES
    ensures name != "" && !IsBreak(name[0]) && !IsBlank(name[0])
  {}

  /** Where a heading names a class, its first letter comes right behind blanks. */
  lemma ClassHeading(s: string) returns (k: nat)
    requires Opens(s, 3) && Title(s, 3) in CLASSES
    ensures 4 <= k < |s| && !IsBreak(s[k]) && !IsBlank(s[k]) && forall i | 3 <= i < k :: IsBlank(s[i])
  {
    var rest := DropBlanks(s[3..]);
    ClassStarts(Title(s, 3));
    var j := BlanksBefore(s[3..]);
    assert rest != "";
    DroppedStart(s[3..]);
    TrimFirst(rest);
    k := j + 3;
    assert rest[0] == s[k];
    forall i | 3 <= i < k ensures IsBlank(s[i]) { assert s[i] == s[3..][i - 3]; }
  }

  lemma {:induction false} DroppedStart(s: string)
    ensures DropBlanks(s) != "" ==> !IsBlank(DropBlanks(s)[0])
  {
    if s != "" && IsBlank(s[0]) { DroppedStart(s[1..]); }
  }

  lemma {:induction false} BareKeeps(l: string, k: nat)
    requires k < |l| && l[k] != '\r' && l[k] != '\n'
    ensures k < |Bare(l)| && Bare(l)[k] == l[k] && Bare(l) <= l
  {
    if l[|l| - 1] == '\r' || l[|l| - 1] == '\n' { BareKeeps(l[..|l| - 1], k); }
  }

  /** Text that names a class as one piece names something in its first line. */
  lemma ClassInFirstLine(e: string)
    requires Heading(e).Some? && Heading(e).value in CLASSES
    ensures Names(Split(e)) != []
  {
    var s := Bare(e);
    BareTrims(e);
    var k := ClassHeading(s);
    assert forall i | 0 <= i < k + 1 :: s[i] == e[i] && !IsBreak(e[i]);
    FirstLinePast(e, k + 1);
    var m := FirstLine(e);
    var l := e[..m];
    BareOfFront(e, m);
    BareKeeps(l, k);
    assert forall i | 0 <= i < k + 1 :: Bare(l)[i] == s[i];
    assert Split(e)[0] == l;
  }

  lemma EntryTame(e: string)
    requires IsEntry(e)
    ensures Tame(e)
  {
    if Heading(e).Some? && Heading(e).value in CLASSES { ClassInFirstLine(e); }
  }

  // What is put in is tame

  lemma {:induction false} BlockTame(entries: seq<string>, nl: string)
    requires AreEntries(entries) && IsEnding(nl)
    ensures AllTame(Interleaved(entries, nl))
  {
    hide Tame, IsEntry, IsEnding;
    if |entries| > 1 {
      var rest := entries[1..];
      assert entries == [entries[0]] + rest;
      assert forall e | e in rest :: e in entries;
      BlockTame(rest, nl);
      FeedTame(nl);
      EntryTame(entries[0]);
    } else if |entries| == 1 {
      assert entries == [entries[0]];
      EntryTame(entries[0]);
    }
  }

  lemma FeedTame(nl: string)
    requires IsEnding(nl)
    ensures Tame(nl)
  {
    WrittenFeed(nl);
    LineTame(nl);
  }

  lemma ClassLineTame(name: string, nl: string)
    requires name in CLASSES && IsEnding(nl)
    ensures Tame("### " + name + nl)
  {
    ClassName(name);
    OneLineAlone("### " + name, nl);
    LineTame("### " + name + nl);
  }

  lemma PutTame(p: Place, name: string, entries: seq<string>, nl: string)
    requires name in CLASSES && AreEntries(entries) && IsEnding(nl)
    ensures AllTame(Put(p, name, entries, nl))
  {
    hide Tame, AreEntries, IsEnding;
    BlockTame(entries, nl);
    FeedTame(nl);
    ClassLineTame(name, nl);
  }

  // Where a class stands

  lemma {:induction false} NamedStands(body: seq<string>, name: string)
    requires AllTame(body) && name in CLASSES
    ensures name in PieceNames(body) <==> exists i | 0 <= i < |body| :: Named(body[i], name)
  {
    hide Heading, Split;
    if body != [] {
      var rest := body[1..];
      assert body == [body[0]] + rest;
      assert Tame(body[0]) && forall x | x in rest :: x in body;
      NamedStands(rest, name);
      PieceNamesConcat([body[0]], rest);
      Alone(body[0]);
      if name in PieceNames(rest) {
        var i :| 0 <= i < |rest| && Named(rest[i], name);
        assert Named(body[i + 1], name);
      }
      if i :| 0 <= i < |body| && Named(body[i], name) {
        if i > 0 { assert Named(rest[i - 1], name); }
      }
      assert name in Names(Split(body[0])) <==> Named(body[0], name);
    }
  }

  lemma {:induction false} NoneLater(body: seq<string>, name: string)
    requires AllTame(body) && name in CLASSES && forall i | 0 <= i < |body| :: !IsLater(body[i], name)
    ensures forall other | other in PieceNames(body) :: !Later(other, name)
  {
    hide Heading, Split, Order;
    if body != [] {
      var rest := body[1..];
      assert body == [body[0]] + rest;
      assert Tame(body[0]) && forall x | x in rest :: x in body;
      assert forall i | 0 <= i < |rest| :: rest[i] == body[i + 1];
      NoneLater(rest, name);
      assert !IsLater(body[0], name);
    }
  }

  lemma {:induction false} PutBetween(front: seq<string>, back: seq<string>, name: string)
    requires name in CLASSES && (forall other | other in front :: !Later(other, name))
    requires back != [] ==> Later(back[0], name)
    ensures PutBefore(front + back, name) == front + [name] + back
  {
    hide Later;
    if front == [] {
      assert front + back == back;
    } else {
      assert (front + back)[1..] == front[1..] + back;
      PutBetween(front[1..], back, name);
    }
  }

  lemma {:induction false} BlankNames(body: seq<string>)
    requires AllTame(body) && forall i | 0 <= i < |body| :: AllSpace(body[i])
    ensures PieceNames(body) == []
  {
    hide Heading, Split, AllSpace;
    if body != [] {
      var rest := body[1..];
      assert body == [body[0]] + rest;
      assert Tame(body[0]) && forall x | x in rest :: x in body;
      assert forall i | 0 <= i < |rest| :: rest[i] == body[i + 1];
      BlankNames(rest);
      BlankNone(body[0]);
    }
  }

  lemma BlankNone(l: string)
    requires AllSpace(l)
    ensures Heading(l) == None
  {
    BareTrims(l);
    assert Bare(l) != "" ==> Bare(l)[0] == l[0] && l[0] in l;
  }

  /** What an append does to the class headings of a section: nothing where the class has
      one, and else one more, in its place among them. */
  lemma AppendNames(body: seq<string>, name: string, entries: seq<string>, nl: string)
    requires AllTame(body) && name in CLASSES && AreEntries(entries) && IsEnding(nl)
    ensures PieceNames(AppendTo(body, name, entries, nl)) == WithClass(PieceNames(body), name)
    ensures AllTame(AppendTo(body, name, entries, nl))
  {
    hide Tame, Heading, AllSpace, PieceNames, AreEntries, IsEnding, IsLater;
    var p := PlaceOf(body, name);
    hide PlaceOf;
    var front, back, put := body[..p.at], body[p.at..], Put(p, name, entries, nl);
    assert front + back == body;
    PutTame(p, name, entries, nl);
    PutIsPlain(p, name, entries, nl);
    PieceNamesConcat(front, back);
    PieceNamesConcat(front, put);
    PieceNamesConcat(front + put, back);
    assert AllTame(front) && AllTame(back);
    NamedStands(body, name);
    hide Put;
    match p
    case Under(at) =>
      var start :| 0 <= start < at && UnderLast(body, name, start, at);
      assert PieceNames(front) + [] + PieceNames(back) == PieceNames(body);
    case Before(at) =>
      NoneLater(front, name);
      LaterFirst(back, name);
      PutBetween(PieceNames(front), PieceNames(back), name);
    case AtEnd(at) =>
      NoneLater(front, name);
      BlankNames(back);
      PutBetween(PieceNames(front), [], name);
  }

  lemma LaterFirst(body: seq<string>, name: string)
    requires body != [] && AllTame(body) && name in CLASSES && IsLater(body[0], name)
    ensures PieceNames(body) != [] && Later(PieceNames(body)[0], name)
  {
    assert Tame(body[0]);
  }

  lemma {:induction false} AppendAllNames(body: seq<string>, classes: seq<string>, entries: Entries, nl: string)
    requires AllTame(body) && AreClasses(classes) && Foldable(entries) && IsEnding(nl)
    ensures PieceNames(AppendAll(body, classes, entries, nl)) == WithClasses(PieceNames(body), classes, entries)
    decreases |classes|
  {
    hide AllTame, AppendTo, WithClass, AreEntries, IsEnding, PieceNames;
    if classes != [] {
      var name := classes[0];
      assert name in classes;
      var next := if name in entries then AppendTo(body, name, entries[name], nl) else body;
      if name in entries { AppendNames(body, name, entries[name], nl); }
      assert AreClasses(classes[1..]) by { assert forall x | x in classes[1..] :: x in classes; }
      AppendAllNames(next, classes[1..], entries, nl);
    }
  }

  lemma FedNames(s: Section, nl: string)
    requires AllTame(s.body) && IsEnding(nl)
    ensures AllTame(Fed(s, nl).body) && PieceNames(Fed(s, nl).body) == PieceNames(s.body)
  {
    hide Tame;
    WrittenFeed(nl);
    FeedTame(nl);
    Alone(nl);
    PieceNamesConcat(s.body, [nl]);
  }

  /** The headings a standing section has in the end. */
  function NowNames(s: Section, grows: bool, folding: Folding): seq<string> {
    match DateIn(s)
    case None => PieceNames(s.body)
    case Some(date) =>
      if grows && date in folding then WithClasses(PieceNames(s.body), CLASSES, folding[date]) else PieceNames(s.body)
  }

  lemma GrownNames(s: Section, fed: bool, owed: set<string>, folding: Folding, nl: string)
    requires AllTame(s.body) && owed <= folding.Keys && AllFoldable(folding) && IsEnding(nl)
    ensures var grows := DateIn(s).Some? && DateIn(s).value in owed;
      PieceNames(Grown(s, fed, owed, folding, nl).body) == NowNames(s, grows, folding)
  {
    hide AllTame, AppendAll, WithClasses, PieceNames, Foldable, Fed, IsEnding;
    FedNames(s, nl);
    var s' := if fed then Fed(s, nl) else s;
    if DateIn(s).Some? && DateIn(s).value in owed {
      AppendAllNames(s'.body, CLASSES, folding[DateIn(s).value], nl);
    }
  }
}
