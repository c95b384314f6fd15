/**
  A reader of compact JSON text (sections 3 to 7 of RFC 8259), and what it makes of what the
  renderer writes, in either mode: the value again, but for a high surrogate and a low one that
  stood side by side in a text, which it takes for the one character they encode.
*/
module JsonReading {
  import opened Wrappers
  import opened Json

  // A string's characters

  predicate High(c: Point) { 0xD800 <= c < 0xDC00 }

  predicate Low(c: Point) { 0xDC00 <= c < 0xE000 }

  /** Each pair of surrogates, left to right, as the one character it encodes. */
  function Merged(t: Text): Text {
    if |t| < 2 then t
    else if High(t[0]) && Low(t[1]) then [0x10000 + (t[0] - 0xD800) * 0x400 + (t[1] - 0xDC00)] + Merged(t[2..])
    else [t[0]] + Merged(t[1..])
  }

  predicate Paired(t: Text) {
    exists i | 0 <= i < |t| - 1 :: High(t[i]) && Low(t[i + 1])
  }

  function HexDigit(c: Point): Option<nat> {
    if 48 <= c <= 57 then Some(c - 48)
    else if 97 <= c <= 102 then Some(c - 87)
    else if 65 <= c <= 70 then Some(c - 55)
    else None
  }

  function FourDigits(t: Text): Option<Point>
    requires |t| >= 4
  {
    var a, b, c, d := HexDigit(t[0]), HexDigit(t[1]), HexDigit(t[2]), HexDigit(t[3]);
    if a.None? || b.None? || c.None? || d.None? then None
    else Some(a.value * 4096 + b.value * 256 + c.value * 16 + d.value)
  }

  /** What a two-character escape stands for. */
  function Short(c: Point): Option<Point> {
    if c == QUOTE || c == BACKSLASH || c == 47 then Some(c)
    else if c == 98 then Some(8)
    else if c == 102 then Some(12)
    else if c == 110 then Some(10)
    else if c == 114 then Some(13)
    else if c == 116 then Some(9)
    else None
  }

  /** One character of a string, or half of one, and how much of the text spells it. */
  function ReadUnit(t: Text): (r: Option<(Point, nat)>)
    ensures r.Some? ==> 0 < r.value.1 <= |t|
  {
    if t == [] || t[0] < 0x20 || t[0] == QUOTE then None
    else if t[0] != BACKSLASH then Some((t[0], 1))
    else if |t| < 2 then None
    else if t[1] == 117 then
      if |t| < 6 then None else match FourDigits(t[2..]) case None => None case Some(u) => Some((u, 6))
    else match Short(t[1]) case None => None case Some(c) => Some((c, 2))
  }

  /** The units up to the closing quote, and what comes behind it. */
  function ReadUnits(t: Text): (r: Option<(Text, Text)>)
    ensures r.Some? ==> |r.value.1| < |t|
    decreases |t|
  {
    if t == [] then None
    else if t[0] == QUOTE then Some(([], t[1..]))
    else
      match ReadUnit(t)
      case None => None
      case Some(u) =>
        match ReadUnits(t[u.1..])
        case None => None
        case Some(more) => Some(([u.0] + more.0, more.1))
  }

  // Values

  /** What numbers, `true`, `false` and `null` are spelled with. */
  predicate IsLiteral(c: Point) {
    48 <= c <= 57 || 65 <= c <= 90 || 97 <= c <= 122 || c == 43 || c == 45 || c == 46
  }

  function LiteralLength(t: Text): (n: nat)
    ensures n <= |t|
  {
    if t == [] || !IsLiteral(t[0]) then 0 else 1 + LiteralLength(t[1..])
  }

  function ReadValue(t: Text): (r: Option<(Value, Text)>)
    ensures r.Some? ==> |r.value.1| < |t|
    decreases |t|, 0
  {
    if t == [] then None
    else if t[0] == QUOTE then
      match ReadUnits(t[1..]) case None => None case Some(s) => Some((Str(Merged(s.0)), s.1))
    else if t[0] == 91 then
      if |t| > 1 && t[1] == 93 then Some((Arr([]), t[2..]))
      else match ReadItems(t[1..]) case None => None case Some(s) => Some((Arr(s.0), s.1))
    else if t[0] == 123 then
      if |t| > 1 && t[1] == 125 then Some((Obj([]), t[2..]))
      else match ReadMembers(t[1..]) case None => None case Some(s) => Some((Obj(s.0), s.1))
    else
      var n := LiteralLength(t);
      if n == 0 then None else Some((Literal(t[..n]), t[n..]))
  }

  function ReadItems(t: Text): (r: Option<(seq<Value>, Text)>)
    ensures r.Some? ==> |r.value.1| < |t|
    decreases |t|, 1
  {
    match ReadValue(t)
    case None => None
    case Some(first) =>
      if first.1 == [] then None
      else if first.1[0] == 93 then Some(([first.0], first.1[1..]))
      else if first.1[0] != COMMA then None
      else match ReadItems(first.1[1..]) case None => None case Some(more) => Some(([first.0] + more.0, more.1))
  }

  function ReadMembers(t: Text): (r: Option<(seq<Member>, Text)>)
    ensures r.Some? ==> |r.value.1| < |t|
    decreases |t|, 1
  {
    if t == [] || t[0] != QUOTE then None
    else
      match ReadUnits(t[1..])
      case None => None
      case Some(name) =>
        if name.1 == [] || name.1[0] != COLON then None
        else
          match ReadValue(name.1[1..])
          case None => None
          case Some(v) =>
            var m := Member(Merged(name.0), v.0);
            if v.1 == [] then None
            else if v.1[0] == 125 then Some(([m], v.1[1..]))
            else if v.1[0] != COMMA then None
            else match ReadMembers(v.1[1..]) case None => None case Some(more) => Some(([m] + more.0, more.1))
  }

  /** A whole text as one value. */
  function Read(t: Text): Option<Value> {
    match ReadValue(t) case None => None case Some(v) => if v.1 == [] then Some(v.0) else None
  }

  // What the renderer writes, read

  /** A literal is spelled with what literals are spelled with. */
  ghost predicate Readable(v: Value)
    decreases v
  {
    match v
    case Str(_) => true
    case Literal(t) => t != [] && forall c | c in t :: IsLiteral(c)
    case Arr(items) => forall x | x in items :: Readable(x)
    case Obj(members) => forall m | m in members :: Readable(m.value)
  }

  /** The value with the pairs in its texts merged. */
  function MergedValue(v: Value): Value
    decreases v, 1
  {
    match v
    case Str(t) => Str(Merged(t))
    case Literal(_) => v
    case Arr(items) => Arr(MergedItems(items))
    case Obj(members) => Obj(MergedMembers(members))
  }

  function MergedItems(items: seq<Value>): seq<Value>
    decreases items, 0
  {
    if items == [] then [] else [MergedValue(items[0])] + MergedItems(items[1..])
  }

  function MergedMembers(members: seq<Member>): seq<Member>
    decreases members, 0
  {
    if members == [] then []
    else [Member(Merged(members[0].name), MergedValue(members[0].value))] + MergedMembers(members[1..])
  }

  /** The units a text is read as: an escaped character beyond the basic plane gives two. */
  function Units(t: Text, ascii: bool): Text {
    if t == [] then []
    else (if ascii && t[0] >= 0x10000 then Halves(t[0]) else [t[0]]) + Units(t[1..], ascii)
  }

  function Halves(c: Point): Text
    requires c >= 0x10000
  {
    [0xD800 + (c - 0x10000) / 0x400, 0xDC00 + (c - 0x10000) % 0x400]
  }

  lemma HexReads(d: nat)
    requires d < 16
    ensures HexDigit(Hex(d)) == Some(d)
  {}

  lemma UnicodeReads(unit: nat, rest: Text)
    requires unit < 0x10000
    ensures ReadUnit(Unicode(unit) + rest) == Some((unit, 6)) && (Unicode(unit) + rest)[6..] == rest
    ensures |Unicode(unit)| == 6 && Unicode(unit)[0] == BACKSLASH
  {
    var t := Unicode(unit) + rest;
    HexReads(unit / 4096);
    HexReads(unit / 256 % 16);
    HexReads(unit / 16 % 16);
    HexReads(unit % 16);
    hide Hex, HexDigit;
    var d := t[2..];
    assert d[0] == Hex(unit / 4096) && d[1] == Hex(unit / 256 % 16) && d[2] == Hex(unit / 16 % 16)
      && d[3] == Hex(unit % 16);
    assert unit == unit / 4096 * 4096 + unit / 256 % 16 * 256 + unit / 16 % 16 * 16 + unit % 16 by {
      FourDigitsSum(unit);
    }
  }

  lemma FourDigitsSum(unit: nat)
    requires unit < 0x10000
    ensures unit == unit / 4096 * 4096 + unit / 256 % 16 * 256 + unit / 16 % 16 * 16 + unit % 16
  {
    assert unit / 16 / 16 == unit / 256 && unit / 256 / 16 == unit / 4096;
  }

  /** One unit more in front of a string's end. */
  lemma UnitThen(front: Text, u: Point, rest: Text)
    requires front != [] && front[0] != QUOTE && ReadUnit(front + rest) == Some((u, |front|))
    ensures ReadUnits(front + rest) == match ReadUnits(rest)
      case None => None
      case Some(more) => Some(([u] + more.0, more.1))
  {
    assert (front + rest)[|front|..] == rest;
  }

  function Prepended(units: Text, r: Option<(Text, Text)>): Option<(Text, Text)> {
    match r case None => None case Some(more) => Some((units + more.0, more.1))
  }

  lemma UnicodeThen(unit: nat, rest: Text)
    requires unit < 0x10000
    ensures ReadUnits(Unicode(unit) + rest) == Prepended([unit], ReadUnits(rest))
  {
    UnicodeReads(unit, rest);
    hide Unicode, ReadUnit;
    UnitThen(Unicode(unit), unit, rest);
  }

  lemma ShortThen(c: Point, x: Point, rest: Text)
    requires x != 117 && Short(x) == Some(c)
    ensures ReadUnits([BACKSLASH, x] + rest) == Prepended([c], ReadUnits(rest))
  {
    var t := [BACKSLASH, x] + rest;
    assert t[0] == BACKSLASH && t[1] == x;
    assert ReadUnit(t) == Some((c, 2));
    UnitThen([BACKSLASH, x], c, rest);
  }

  lemma PlainThen(c: Point, rest: Text)
    requires c >= 0x20 && c != QUOTE && c != BACKSLASH
    ensures ReadUnits([c] + rest) == Prepended([c], ReadUnits(rest))
  {
    assert ([c] + rest)[0] == c;
    UnitThen([c], c, rest);
  }

  lemma HalvesThen(c: Point, rest: Text)
    requires c >= 0x10000
    ensures ReadUnits(Unicode(Halves(c)[0]) + Unicode(Halves(c)[1]) + rest) == Prepended(Halves(c), ReadUnits(rest))
  {
    hide Unicode;
    var a, b := Halves(c)[0], Halves(c)[1];
    UnicodeThen(b, rest);
    UnicodeThen(a, Unicode(b) + rest);
    assert Unicode(a) + (Unicode(b) + rest) == Unicode(a) + Unicode(b) + rest;
    assert Halves(c) == [a, b];
    PrependedTwice(a, b, ReadUnits(rest));
  }

  lemma PrependedTwice(a: Point, b: Point, r: Option<(Text, Text)>)
    ensures Prepended([a], Prepended([b], r)) == Prepended([a, b], r)
  {
    if r.Some? { assert [a] + ([b] + r.value.0) == [a, b] + r.value.0; }
  }

  lemma EscapeReads(c: Point, ascii: bool, rest: Text)
    ensures ReadUnits(Escaped(c, ascii) + rest)
      == Prepended(if ascii && c >= 0x10000 then Halves(c) else [c], ReadUnits(rest))
  {
    hide ReadUnits, Unicode, Prepended;
    if c == QUOTE || c == BACKSLASH { ShortThen(c, c, rest); }
    else if c == 8 { ShortThen(8, 98, rest); }
    else if c == 9 { ShortThen(9, 116, rest); }
    else if c == 10 { ShortThen(10, 110, rest); }
    else if c == 12 { ShortThen(12, 102, rest); }
    else if c == 13 { ShortThen(13, 114, rest); }
    else if c < 0x20 { UnicodeThen(c, rest); }
    else if !ascii || c < 0x7F { PlainThen(c, rest); }
    else if c < 0x10000 { UnicodeThen(c, rest); }
    else { HalvesThen(c, rest); }
  }

  lemma UnitsFirst(c: Point, rest: Text, ascii: bool)
    ensures Units([c] + rest, ascii) == (if ascii && c >= 0x10000 then Halves(c) else [c]) + Units(rest, ascii)
    ensures Units([], ascii) == []
  {
    assert ([c] + rest)[1..] == rest;
  }

  lemma EscapedFirst(c: Point, rest: Text, ascii: bool)
    ensures EscapedAll([c] + rest, ascii) == Escaped(c, ascii) + EscapedAll(rest, ascii)
    ensures EscapedAll([], ascii) == []
  {
    hide Escaped;
    assert ([c] + rest)[1..] == rest;
  }

  lemma StringEnds(rest: Text)
    ensures ReadUnits([QUOTE] + rest) == Some(([], rest))
  {
    assert ([QUOTE] + rest)[1..] == rest;
  }

  lemma {:induction false} TextReads(t: Text, ascii: bool, rest: Text)
    ensures ReadUnits(EscapedAll(t, ascii) + [QUOTE] + rest) == Some((Units(t, ascii), rest))
  {
    hide Escaped, Halves, EscapedAll, Units, ReadUnits;
    if t == [] {
      EscapedFirst(0, [], ascii);
      UnitsFirst(0, [], ascii);
      StringEnds(rest);
      assert [] + [QUOTE] + rest == [QUOTE] + rest;
    } else {
      var c, more := t[0], t[1..];
      assert t == [c] + more;
      var back := EscapedAll(more, ascii) + [QUOTE] + rest;
      TextReads(more, ascii, rest);
      EscapeReads(c, ascii, back);
      EscapedFirst(c, more, ascii);
      UnitsFirst(c, more, ascii);
      assert Escaped(c, ascii) + EscapedAll(more, ascii) + [QUOTE] + rest == Escaped(c, ascii) + back;
    }
  }

  lemma HalvesMerge(c: Point)
    requires c >= 0x10000
    ensures var h := Halves(c);
      && High(h[0]) && Low(h[1]) && !Low(h[0])
      && 0x10000 + (h[0] - 0xD800) * 0x400 + (h[1] - 0xDC00) == c
  {}

  lemma MergedPlain(a: Point, t: Text)
    requires t == [] || !High(a) || !Low(t[0])
    ensures Merged([a] + t) == [a] + Merged(t)
  {
    assert ([a] + t)[1..] == t;
  }

  lemma MergedPair(a: Point, b: Point, t: Text)
    requires High(a) && Low(b)
    ensures Merged([a, b] + t) == [0x10000 + (a - 0xD800) * 0x400 + (b - 0xDC00)] + Merged(t)
  {
    assert ([a, b] + t)[2..] == t;
  }

  /** Two halves of one character merge into it, and into nothing else. */
  lemma {:induction false} UnitsMerge(t: Text, ascii: bool)
    ensures Merged(Units(t, ascii)) == Merged(t)
    ensures t != [] ==> Units(t, ascii) != [] && (Low(Units(t, ascii)[0]) <==> Low(t[0]))
  {
    hide Merged, Units;
    if t == [] {
      UnitsFirst(0, [], ascii);
    } else {
      var c, rest := t[0], t[1..];
      assert t == [c] + rest;
      UnitsFirst(c, rest, ascii);
      UnitsMerge(rest, ascii);
      var more := Units(rest, ascii);
      if ascii && c >= 0x10000 {
        HalvesMerge(c);
        assert Halves(c) == [Halves(c)[0], Halves(c)[1]];
        MergedPair(Halves(c)[0], Halves(c)[1], more);
        MergedPlain(c, rest);
      } else if High(c) && rest != [] && Low(rest[0]) {
        var d, last := rest[0], rest[1..];
        UnitsMerge(last, ascii);
        assert rest == [d] + last;
        UnitsFirst(d, last, ascii);
        assert [c] + ([d] + Units(last, ascii)) == [c, d] + Units(last, ascii) && t == [c, d] + last;
        MergedPair(c, d, Units(last, ascii));
        MergedPair(c, d, last);
      } else {
        NothingRead(rest, ascii);
        MergedPlain(c, more);
        MergedPlain(c, rest);
      }
    }
  }

  lemma NothingRead(t: Text, ascii: bool)
    ensures Units(t, ascii) == [] <==> t == []
  {}

  lemma {:induction false} MergedIsSame(t: Text)
    ensures Merged(t) == t <==> !Paired(t)
    ensures |Merged(t)| <= |t|
  {
    if |t| >= 2 {
      if High(t[0]) && Low(t[1]) {
        MergedIsSame(t[2..]);
        assert Paired(t);
        assert |Merged(t)| < |t|;
      } else {
        var rest := t[1..];
        MergedIsSame(rest);
        assert t == [t[0]] + rest;
        if Paired(rest) {
          var i :| 0 <= i < |rest| - 1 && High(rest[i]) && Low(rest[i + 1]);
          assert High(t[i + 1]) && Low(t[i + 2]);
        }
        if Paired(t) {
          var i :| 0 <= i < |t| - 1 && High(t[i]) && Low(t[i + 1]);
          assert High(rest[i - 1]) && Low(rest[i]);
        }
        assert Merged(t) == t <==> Merged(rest) == rest by { assert Merged(t)[1..] == Merged(rest); }
      }
    }
  }

  lemma StringReads(t: Text, ascii: bool, rest: Text)
    ensures var all := Quoted(t, ascii) + rest;
      all != [] && all[0] == QUOTE && ReadUnits(all[1..]) == Some((Units(t, ascii), rest))
      && Merged(Units(t, ascii)) == Merged(t)
  {
    hide ReadUnits, Units, Merged, EscapedAll;
    TextReads(t, ascii, rest);
    UnitsMerge(t, ascii);
    assert (Quoted(t, ascii) + rest)[1..] == EscapedAll(t, ascii) + [QUOTE] + rest;
  }

  // Whole values

  /** Nothing of a literal spelled in front goes on here. */
  predicate Stops(rest: Text) { rest == [] || !IsLiteral(rest[0]) }

  lemma {:induction false} LiteralStops(t: Text, rest: Text)
    requires (forall c | c in t :: IsLiteral(c)) && Stops(rest)
    ensures LiteralLength(t + rest) == |t|
  {
    if t == [] {
      assert t + rest == rest;
    } else {
      assert (t + rest)[1..] == t[1..] + rest && t[0] in t && (t + rest)[0] == t[0];
      assert forall c | c in t[1..] :: c in t;
      LiteralStops(t[1..], rest);
    }
  }

  lemma LiteralReads(t: Text, rest: Text)
    requires t != [] && (forall c | c in t :: IsLiteral(c)) && Stops(rest)
    ensures ReadValue(t + rest) == Some((Literal(t), rest))
  {
    LiteralStops(t, rest);
    assert t[0] in t && (t + rest)[0] == t[0];
    assert (t + rest)[..|t|] == t && (t + rest)[|t|..] == rest;
  }

  /** Whatever stands behind it, what is written for a value is read as that value. */
  lemma {:induction false} RenderReads(v: Value, ascii: bool, rest: Text)
    requires Readable(v) && Stops(rest)
    ensures ReadValue(Render(v, ascii) + rest) == Some((MergedValue(v), rest))
    decreases v, 1
  {
    match v
    case Str(t) =>
      StringReads(t, ascii, rest);
      hide ReadUnits, Units, Merged, Quoted;
    case Literal(t) => LiteralReads(t, rest);
    case Arr(items) =>
      if items == [] { EmptyReads(ascii, rest); } else { ItemsRead(items, ascii, rest); ArrReads(items, ascii, rest); }
    case Obj(members) =>
      if members == [] { EmptyReads(ascii, rest); }
      else { MembersRead(members, ascii, rest); ObjReads(members, ascii, rest); }
  }

  lemma EmptyReads(ascii: bool, rest: Text)
    ensures ReadValue(Render(Arr([]), ascii) + rest) == Some((Arr([]), rest))
    ensures ReadValue(Render(Obj([]), ascii) + rest) == Some((Obj([]), rest))
  {
    var a, o := Render(Arr([]), ascii) + rest, Render(Obj([]), ascii) + rest;
    assert a[0] == 91 && a[1] == 93 && a[2..] == rest;
    assert o[0] == 123 && o[1] == 125 && o[2..] == rest;
  }

  /** A value never starts as an empty list or object ends. */
  lemma RenderStarts(v: Value, ascii: bool, rest: Text)
    requires Readable(v)
    ensures var t := Render(v, ascii) + rest; t != [] && t[0] != 93 && t[0] != 125
  {
    match v
    case Literal(t) => assert t[0] in t && (t + rest)[0] == t[0];
    case _ =>
  }

  lemma ListThen(t: Text)
    requires t != [] && (t[0] == 91 || t[0] == 123) && |t| > 1 && t[1] != 93 && t[1] != 125
    ensures t[0] == 91 ==>
      ReadValue(t) == match ReadItems(t[1..]) case None => None case Some(s) => Some((Arr(s.0), s.1))
    ensures t[0] == 123 ==>
      ReadValue(t) == match ReadMembers(t[1..]) case None => None case Some(s) => Some((Obj(s.0), s.1))
  {
    hide ReadItems, ReadMembers;
  }

  lemma Bracket(a: Point, inside: Text, b: Point, rest: Text)
    ensures [a] + inside + [b] + rest == [a] + (inside + [b] + rest)
    ensures ([a] + (inside + [b] + rest))[1..] == inside + [b] + rest
  {}

  lemma ArrReads(items: seq<Value>, ascii: bool, rest: Text)
    requires items != [] && Readable(items[0])
    requires ReadItems(RenderItems(items, ascii) + [93] + rest) == Some((MergedItems(items), rest))
    ensures ReadValue(Render(Arr(items), ascii) + rest) == Some((Arr(MergedItems(items)), rest))
  {
    hide ReadItems, MergedItems, ReadValue, RenderItems, Readable;
    var inside := RenderItems(items, ascii) + [93] + rest;
    ItemsFirst(items, ascii, rest);
    RenderStarts(items[0], ascii, inside[|Render(items[0], ascii)|..]);
    Bracket(91, RenderItems(items, ascii), 93, rest);
    assert Render(Arr(items), ascii) == [91] + RenderItems(items, ascii) + [93];
    hide Render;
    ListThen([91] + inside);
  }

  /** The first of the items, and what is written behind it. */
  lemma ItemsFirst(items: seq<Value>, ascii: bool, rest: Text)
    requires items != []
    ensures var back: Text := if |items| == 1 then [93] + rest
                              else [COMMA] + (RenderItems(items[1..], ascii) + [93] + rest);
      && RenderItems(items, ascii) + [93] + rest == Render(items[0], ascii) + back
      && (RenderItems(items, ascii) + [93] + rest)[|Render(items[0], ascii)|..] == back
  {
    hide Render;
    if |items| == 1 { assert RenderItems(items[1..], ascii) == []; }
  }

  lemma {:induction false} ItemsRead(items: seq<Value>, ascii: bool, rest: Text)
    requires items != [] && forall x | x in items :: Readable(x)
    ensures ReadItems(RenderItems(items, ascii) + [93] + rest) == Some((MergedItems(items), rest))
    decreases items, 0
  {
    var more := RenderItems(items[1..], ascii) + [93] + rest;
    var back: Text := if |items| == 1 then [93] + rest else [COMMA] + more;
    ItemsFirst(items, ascii, rest);
    RenderReads(items[0], ascii, back);
    if |items| > 1 { ItemsRead(items[1..], ascii, rest); }
    hide Render, RenderItems, ReadValue, MergedValue;
    assert back[1..] == if |items| == 1 then rest else more;
    if |items| == 1 { assert MergedItems(items[1..]) == [] && [MergedValue(items[0])] + [] == [MergedValue(items[0])]; }
  }

  lemma ObjReads(members: seq<Member>, ascii: bool, rest: Text)
    requires members != []
    requires ReadMembers(RenderMembers(members, ascii) + [125] + rest) == Some((MergedMembers(members), rest))
    ensures ReadValue(Render(Obj(members), ascii) + rest) == Some((Obj(MergedMembers(members)), rest))
  {
    hide ReadMembers, MergedMembers, ReadValue;
    var inside := RenderMembers(members, ascii) + [125] + rest;
    assert RenderMembers(members, ascii) != [] && RenderMembers(members, ascii)[0] == QUOTE;
    Bracket(123, RenderMembers(members, ascii), 125, rest);
    assert Render(Obj(members), ascii) == [123] + RenderMembers(members, ascii) + [125];
    hide Render, RenderMembers;
    ListThen([123] + inside);
  }

  lemma MembersFirst(members: seq<Member>, ascii: bool, rest: Text)
    requires members != []
    ensures var m := members[0];
      var back: Text := if |members| == 1 then [125] + rest
                        else [COMMA] + (RenderMembers(members[1..], ascii) + [125] + rest);
      RenderMembers(members, ascii) + [125] + rest
        == Quoted(m.name, ascii) + ([COLON] + (Render(m.value, ascii) + back))
  {
    hide Render, Quoted;
    var m, all := members[0], RenderMembers(members[1..], ascii);
    var comma: Text := if |members| == 1 then [] else [COMMA];
    assert RenderMembers(members, ascii) == Quoted(m.name, ascii) + [COLON] + Render(m.value, ascii) + comma + all;
    if |members| == 1 { assert all == []; }
    hide RenderMembers;
    Regrouped(Quoted(m.name, ascii), [COLON], Render(m.value, ascii), comma, all, [125], rest);
    if |members| == 1 { assert [] + ([] + [125] + rest) == [125] + rest; }
  }

  lemma Regrouped(a: Text, b: Text, c: Text, d: Text, e: Text, f: Text, g: Text)
    ensures a + b + c + d + e + f + g == a + (b + (c + (d + (e + f + g))))
  {}

  /** A member read, and what is made of what comes behind it. */
  lemma MemberThen(t: Text, units: Text, tail: Text, v: Value, back: Text)
    requires t != [] && t[0] == QUOTE && ReadUnits(t[1..]) == Some((units, [COLON] + tail))
    requires ReadValue(tail) == Some((v, back)) && back != []
    ensures var m := Member(Merged(units), v);
      && (back[0] == 125 ==> ReadMembers(t) == Some(([m], back[1..])))
      && (back[0] == COMMA ==> ReadMembers(t) == match ReadMembers(back[1..])
           case None => None
           case Some(more) => Some(([m] + more.0, more.1)))
  {
    hide ReadUnits, ReadValue, Merged;
    assert ([COLON] + tail)[1..] == tail;
  }

  lemma {:induction false} MembersRead(members: seq<Member>, ascii: bool, rest: Text)
    requires members != [] && forall m | m in members :: Readable(m.value)
    ensures ReadMembers(RenderMembers(members, ascii) + [125] + rest) == Some((MergedMembers(members), rest))
    decreases members, 0
  {
    hide Render, RenderMembers, ReadMembers, ReadValue, MergedValue, MergedMembers, ReadUnits, Units, Merged, Quoted;
    var m, more := members[0], RenderMembers(members[1..], ascii) + [125] + rest;
    var back: Text := if |members| == 1 then [125] + rest else [COMMA] + more;
    assert m in members;
    var t, tail := RenderMembers(members, ascii) + [125] + rest, Render(m.value, ascii) + back;
    MembersFirst(members, ascii, rest);
    StringReads(m.name, ascii, [COLON] + tail);
    RenderReads(m.value, ascii, back);
    MemberThen(t, Units(m.name, ascii), tail, MergedValue(m.value), back);
    if |members| > 1 { MembersRead(members[1..], ascii, rest); }
    assert back[1..] == if |members| == 1 then rest else more;
    FirstMerged(members);
  }

  lemma FirstMerged(members: seq<Member>)
    requires members != []
    ensures var m := Member(Merged(members[0].name), MergedValue(members[0].value));
      && MergedMembers(members) == [m] + MergedMembers(members[1..])
      && (|members| == 1 ==> MergedMembers(members) == [m])
  {
    hide Merged, MergedValue;
  }

  /** Over every value: what the renderer writes is read as that value, its pairs merged. */
  lemma ReadsBack(v: Value)
    requires Readable(v)
    ensures Read(Encoded(v)) == Some(MergedValue(v))
  {
    var ascii := !WellFormed(Render(v, false));
    RenderReads(v, ascii, []);
    assert Render(v, ascii) + [] == Render(v, ascii);
  }

  /** No text in the value, names included, has a high surrogate right in front of a low one. */
  ghost predicate Unpaired(v: Value)
    decreases v
  {
    match v
    case Str(t) => !Paired(t)
    case Literal(_) => true
    case Arr(items) => forall x | x in items :: Unpaired(x)
    case Obj(members) => forall m | m in members :: !Paired(m.name) && Unpaired(m.value)
  }

  lemma {:induction false} MergedSame(v: Value)
    ensures MergedValue(v) == v <==> Unpaired(v)
    decreases v, 1
  {
    hide Merged, Paired;
    match v
    case Str(t) => MergedIsSame(t);
    case Literal(_) =>
    case Arr(items) => ItemsSame(items);
    case Obj(members) => MembersSame(members);
  }

  lemma {:induction false} ItemsSame(items: seq<Value>)
    ensures MergedItems(items) == items <==> forall x | x in items :: Unpaired(x)
    ensures |MergedItems(items)| == |items|
    decreases items, 0
  {
    if items != [] {
      MergedSame(items[0]);
      ItemsSame(items[1..]);
      hide MergedValue, Unpaired;
      assert items == [items[0]] + items[1..] && MergedItems(items)[1..] == MergedItems(items[1..]);
    }
  }

  lemma {:induction false} MembersSame(members: seq<Member>)
    ensures MergedMembers(members) == members <==> forall m | m in members :: !Paired(m.name) && Unpaired(m.value)
    ensures |MergedMembers(members)| == |members|
    decreases members, 0
  {
    hide Merged, Paired;
    if members != [] {
      MergedSame(members[0].value);
      MergedIsSame(members[0].name);
      MembersSame(members[1..]);
      hide MergedValue, Unpaired;
      assert members == [members[0]] + members[1..] && MergedMembers(members)[1..] == MergedMembers(members[1..]);
    }
  }

  /** So it is read as the very same value exactly where no text holds such a pair. */
  lemma ReadsBackExactly(v: Value)
    requires Readable(v)
    ensures Read(Encoded(v)) == Some(v) <==> Unpaired(v)
  {
    ReadsBack(v);
    MergedSame(v);
  }

  // What is escaped

  /** It stands for itself between quotes. */
  predicate Plain(c: Point) { c >= 0x20 && c != QUOTE && c != BACKSLASH }

  lemma {:induction false} PlainAll(t: Text)
    ensures EscapedAll(t, false) == t <==> forall c | c in t :: Plain(c)
    ensures |EscapedAll(t, false)| >= |t|
  {
    if t != [] {
      PlainAll(t[1..]);
      assert t == [t[0]] + t[1..];
      hide EscapedAll;
      EscapedFirst(t[0], t[1..], false);
      if Plain(t[0]) {
        assert Escaped(t[0], false) == [t[0]];
        assert EscapedAll(t, false)[1..] == EscapedAll(t[1..], false);
      } else {
        assert |Escaped(t[0], false)| >= 2;
      }
    }
  }

  /** A text is written as it is if and only if each of its characters stands for itself and
      all of them can be encoded; a lone surrogate has all that is not ASCII escaped. */
  lemma WrittenAsItIs(t: Text)
    ensures Encoded(Str(t)) == [QUOTE] + t + [QUOTE] <==> WellFormed(t) && forall c | c in t :: Plain(c)
    ensures !WellFormed(t) ==> forall x | x in Encoded(Str(t)) :: x < 0x80
  {
    EscapeAllGrows(t);
    Bracketed(QUOTE, EscapedAll(t, false), QUOTE);
    PlainAll(t);
    hide EscapedAll;
    var raw := Quoted(t, false);
    assert raw[1..|raw| - 1] == EscapedAll(t, false);
    assert ([QUOTE] + t + [QUOTE])[1..|t| + 1] == t;
    if !WellFormed(t) {
      RenderGrows(Str(t));
      var c :| c in t && Surrogate(c);
      assert c in [QUOTE] + t + [QUOTE];
    }
  }
}
