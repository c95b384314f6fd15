/**
  The content renderer: JSON text of code points (escaping as in section 7 of RFC 8259),
  and how many UTF-8 bytes a text takes. Text arrives as Python strings do, so it may hold
  lone surrogates, which have no UTF-8 form; rendering then falls back to ASCII escapes,
  measuring raw text does not.
*/
module Json {
  import opened Wrappers

  type Point = c: nat | c < 0x110000
  type Text = seq<Point>

  /** Objects list their members in sorted key order, as the renderer emits them.
      A literal is a number, `true`, `false` or `null`, already spelled. */
  datatype Value =
    | Str(text: Text)
    | Literal(spelling: Text)
    | Arr(items: seq<Value>)
    | Obj(members: seq<Member>)

  datatype Member = Member(name: Text, value: Value)

  const QUOTE: Point := 34
  const BACKSLASH: Point := 92
  const COMMA: Point := 44
  const COLON: Point := 58

  predicate Surrogate(c: Point) { 0xD800 <= c < 0xE000 }

  predicate WellFormed(t: Text) { forall c | c in t :: !Surrogate(c) }

  function Bytes(c: Point): nat {
    if c < 0x80 then 1 else if c < 0x800 then 2 else if c < 0x10000 then 3 else 4
  }

  function Size(t: Text): nat {
    if t == [] then 0 else Bytes(t[0]) + Size(t[1..])
  }

  /** The UTF-8 length, or nothing where a lone surrogate has no encoding. */
  function Utf8Size(t: Text): Option<nat> {
    if WellFormed(t) then Some(Size(t)) else None
  }

  function Hex(d: nat): Point
    requires d < 16
  {
    if d < 10 then 48 + d else 87 + d
  }

  function Unicode(unit: nat): Text
    requires unit < 0x10000
  {
    [BACKSLASH, 117, Hex(unit / 4096), Hex(unit / 256 % 16), Hex(unit / 16 % 16), Hex(unit % 16)]
  }

  function Escaped(c: Point, ascii: bool): Text {
    if c == QUOTE || c == BACKSLASH then [BACKSLASH, c]
    else if c == 8 then [BACKSLASH, 98]
    else if c == 9 then [BACKSLASH, 116]
    else if c == 10 then [BACKSLASH, 110]
    else if c == 12 then [BACKSLASH, 102]
    else if c == 13 then [BACKSLASH, 114]
    else if c < 0x20 then Unicode(c)
    else if !ascii || c < 0x7F then [c]
    else if c < 0x10000 then Unicode(c)
    else Unicode(0xD800 + (c - 0x10000) / 0x400) + Unicode(0xDC00 + (c - 0x10000) % 0x400)
  }

  function EscapedAll(t: Text, ascii: bool): Text {
    if t == [] then [] else Escaped(t[0], ascii) + EscapedAll(t[1..], ascii)
  }

  function Quoted(t: Text, ascii: bool): Text {
    [QUOTE] + EscapedAll(t, ascii) + [QUOTE]
  }

  function Render(v: Value, ascii: bool): Text
    decreases v, 1
  {
    match v
    case Str(t) => Quoted(t, ascii)
    case Literal(t) => t
    case Arr(items) => [91] + RenderItems(items, ascii) + [93]
    case Obj(members) => [123] + RenderMembers(members, ascii) + [125]
  }

  function RenderItems(items: seq<Value>, ascii: bool): Text
    decreases items, 0
  {
    if items == [] then []
    else Render(items[0], ascii) + (if |items| == 1 then [] else [COMMA]) + RenderItems(items[1..], ascii)
  }

  function RenderMembers(members: seq<Member>, ascii: bool): Text
    decreases members, 0
  {
    if members == [] then []
    else
      var m := members[0];
      Quoted(m.name, ascii) + [COLON] + Render(m.value, ascii)
      + (if |members| == 1 then [] else [COMMA]) + RenderMembers(members[1..], ascii)
  }

  /** A literal's spelling is plain ASCII. */
  ghost predicate Spelled(v: Value)
    decreases v
  {
    match v
    case Str(_) => true
    case Literal(t) => forall c | c in t :: c < 0x80
    case Arr(items) => forall x | x in items :: Spelled(x)
    case Obj(members) => forall m | m in members :: Spelled(m.value)
  }

  /** Raw where the text can be encoded, ASCII escapes where it cannot. */
  function Encoded(v: Value): Text {
    var raw := Render(v, false);
    if WellFormed(raw) then raw else Render(v, true)
  }

  lemma {:induction false} SizeJoin(a: Text, b: Text)
    ensures Size(a + b) == Size(a) + Size(b)
    ensures WellFormed(a + b) <==> WellFormed(a) && WellFormed(b)
  {
    if a == [] {
      assert a + b == b;
    } else {
      SizeJoin(a[1..], b);
      assert (a + b)[1..] == a[1..] + b;
      assert a == [a[0]] + a[1..];
    }
  }

  /** An escape never takes fewer bytes than what it stands for, in either mode,
      and the ASCII one never fewer than the raw one. */
  lemma EscapeGrows(c: Point)
    ensures Bytes(c) <= Size(Escaped(c, false)) <= Size(Escaped(c, true))
    ensures forall x | x in Escaped(c, true) :: x < 0x80
    ensures WellFormed(Escaped(c, false)) <==> !Surrogate(c)
  {
    UnicodeSize(if c < 0x10000 then c else 0xD800 + (c - 0x10000) / 0x400);
    if c >= 0x10000 {
      UnicodeSize(0xDC00 + (c - 0x10000) % 0x400);
      SizeJoin(Unicode(0xD800 + (c - 0x10000) / 0x400), Unicode(0xDC00 + (c - 0x10000) % 0x400));
    }
    forall a, b ensures Size([a, b]) == Bytes(a) + Bytes(b) { SizeJoin([a], [b]); assert [a] + [b] == [a, b]; }
  }

  lemma UnicodeSize(unit: nat)
    requires unit < 0x10000
    ensures Size(Unicode(unit)) == 6 && forall x | x in Unicode(unit) :: x < 0x80
  {
    AsciiSize(Unicode(unit));
  }

  lemma {:induction false} AsciiSize(t: Text)
    requires forall x | x in t :: x < 0x80
    ensures Size(t) == |t|
  {
    if t != [] {
      assert forall x | x in t[1..] :: x in t;
      assert t[0] in t;
      AsciiSize(t[1..]);
    }
  }

  lemma {:induction false} EscapeAllGrows(t: Text)
    ensures Size(t) <= Size(EscapedAll(t, false)) <= Size(EscapedAll(t, true))
    ensures forall x | x in EscapedAll(t, true) :: x < 0x80
    ensures WellFormed(EscapedAll(t, false)) <==> WellFormed(t)
  {
    hide Escaped, Surrogate;
    if t != [] {
      EscapeGrows(t[0]);
      EscapeAllGrows(t[1..]);
      SizeJoin(Escaped(t[0], false), EscapedAll(t[1..], false));
      SizeJoin(Escaped(t[0], true), EscapedAll(t[1..], true));
      assert t == [t[0]] + t[1..];
    }
  }

  /** The same for whole values: the ASCII rendering is pure ASCII and never the
      shorter one. */
  lemma {:induction false} RenderGrows(v: Value)
    requires Spelled(v)
    ensures Size(Render(v, false)) <= Size(Render(v, true))
    ensures forall x | x in Render(v, true) :: x < 0x80
    decreases v, 1
  {
    match v
    case Str(t) => QuotedGrows(t);
    case Literal(_) =>
    case Arr(items) =>
      ItemsGrow(items);
      BracketsGrow(91, RenderItems(items, false), RenderItems(items, true), 93);
    case Obj(members) =>
      MembersGrow(members);
      BracketsGrow(123, RenderMembers(members, false), RenderMembers(members, true), 125);
  }

  lemma QuotedGrows(t: Text)
    ensures Size(Quoted(t, false)) <= Size(Quoted(t, true))
    ensures forall x | x in Quoted(t, true) :: x < 0x80
  {
    EscapeAllGrows(t);
    BracketsGrow(QUOTE, EscapedAll(t, false), EscapedAll(t, true), QUOTE);
  }

  lemma BracketsGrow(a: Point, raw: Text, escaped: Text, b: Point)
    requires a < 0x80 && b < 0x80 && Size(raw) <= Size(escaped) && forall x | x in escaped :: x < 0x80
    ensures Size([a] + raw + [b]) <= Size([a] + escaped + [b])
    ensures forall x | x in [a] + escaped + [b] :: x < 0x80
  {
    Bracketed(a, raw, b);
    Bracketed(a, escaped, b);
  }

  lemma {:induction false} ItemsGrow(items: seq<Value>)
    requires forall x | x in items :: Spelled(x)
    ensures Size(RenderItems(items, false)) <= Size(RenderItems(items, true))
    ensures forall x | x in RenderItems(items, true) :: x < 0x80
    decreases items, 0
  {
    if items != [] {
      RenderGrows(items[0]);
      ItemsGrow(items[1..]);
      ItemsSplit(items, false);
      ItemsSplit(items, true);
    }
  }

  lemma {:induction false} MembersGrow(members: seq<Member>)
    requires forall m | m in members :: Spelled(m.value)
    ensures Size(RenderMembers(members, false)) <= Size(RenderMembers(members, true))
    ensures forall x | x in RenderMembers(members, true) :: x < 0x80
    decreases members, 0
  {
    if members != [] {
      var m := members[0];
      assert m in members;
      RenderGrows(m.value);
      QuotedGrows(m.name);
      MembersGrow(members[1..]);
      MembersSplit(members, false);
      MembersSplit(members, true);
      PlainMember(members);
    }
  }

  lemma PlainMember(members: seq<Member>)
    requires members != []
    requires forall x | x in Quoted(members[0].name, true) :: x < 0x80
    requires forall x | x in Render(members[0].value, true) :: x < 0x80
    requires forall x | x in RenderMembers(members[1..], true) :: x < 0x80
    ensures forall x | x in RenderMembers(members, true) :: x < 0x80
  {
    var m := members[0];
    var comma: Text := if |members| == 1 then [] else [COMMA];
    var front := Quoted(m.name, true) + [COLON];
    var head := front + Render(m.value, true) + comma;
    assert forall x | x in front :: x < 0x80;
    assert forall x | x in head :: x < 0x80;
    assert RenderMembers(members, true) == head + RenderMembers(members[1..], true);
  }

  lemma Bracketed(a: Point, t: Text, b: Point)
    requires a < 0x80 && b < 0x80
    ensures Size([a] + t + [b]) == Size(t) + 2
    ensures WellFormed([a] + t + [b]) <==> WellFormed(t)
  {
    SizeJoin([a] + t, [b]);
    SizeJoin([a], t);
  }

  lemma ItemsSplit(items: seq<Value>, ascii: bool)
    requires items != []
    ensures Size(RenderItems(items, ascii)) == Size(Render(items[0], ascii)) + (if |items| == 1 then 0 else 1)
      + Size(RenderItems(items[1..], ascii))
    ensures WellFormed(RenderItems(items, ascii)) ==>
      WellFormed(Render(items[0], ascii)) && WellFormed(RenderItems(items[1..], ascii))
  {
    var comma: Text := if |items| == 1 then [] else [COMMA];
    SizeJoin(Render(items[0], ascii) + comma, RenderItems(items[1..], ascii));
    SizeJoin(Render(items[0], ascii), comma);
  }

  lemma MembersSplit(members: seq<Member>, ascii: bool)
    requires members != []
    ensures var m := members[0];
      && Size(RenderMembers(members, ascii)) == Size(Quoted(m.name, ascii)) + 1 + Size(Render(m.value, ascii))
           + (if |members| == 1 then 0 else 1) + Size(RenderMembers(members[1..], ascii))
      && (WellFormed(RenderMembers(members, ascii)) ==>
            WellFormed(Render(m.value, ascii)) && WellFormed(RenderMembers(members[1..], ascii)))
  {
    var m := members[0];
    var comma: Text := if |members| == 1 then [] else [COMMA];
    SizeJoin(Quoted(m.name, ascii) + [COLON] + Render(m.value, ascii) + comma, RenderMembers(members[1..], ascii));
    SizeJoin(Quoted(m.name, ascii) + [COLON] + Render(m.value, ascii), comma);
    SizeJoin(Quoted(m.name, ascii) + [COLON], Render(m.value, ascii));
    SizeJoin(Quoted(m.name, ascii), [COLON]);
  }

  /** What the renderer emits always has a UTF-8 form. */
  lemma EncodedIsWellFormed(v: Value)
    requires Spelled(v)
    ensures Utf8Size(Encoded(v)) == Some(Size(Encoded(v)))
  {
    RenderGrows(v);
  }

  // A model's output, as the export renders it

  function Ascii(s: string): Text {
    seq(|s|, i requires 0 <= i < |s| => s[i] as int)
  }

  function Joined(parts: seq<Text>): Text {
    if parts == [] then [] else parts[0] + Joined(parts[1..])
  }

  function TextPart(t: Text): Value {
    Obj([Member(Ascii("content"), Str(t)), Member(Ascii("type"), Str(Ascii("text")))])
  }

  function Parts(text: seq<Text>, calls: seq<Value>): seq<Value> {
    (if Joined(text) == [] then [] else [TextPart(Joined(text))]) + calls
  }

  function Output(text: seq<Text>, calls: seq<Value>): Value {
    Arr([Obj([Member(Ascii("parts"), Arr(Parts(text, calls))), Member(Ascii("role"), Str(Ascii("assistant")))])])
  }

  function TextBytes(text: seq<Text>): nat {
    if text == [] then 0 else Size(text[0]) + TextBytes(text[1..])
  }

  function CallBytes(calls: seq<Value>): nat {
    if calls == [] then 0 else Size(Encoded(calls[0])) + CallBytes(calls[1..])
  }

  lemma {:induction false} JoinedSize(text: seq<Text>)
    ensures Size(Joined(text)) == TextBytes(text)
  {
    if text != [] {
      JoinedSize(text[1..]);
      SizeJoin(text[0], Joined(text[1..]));
    }
  }

  /** Rendering a list of calls never takes fewer bytes than rendering each of
      them alone, whichever mode the list as a whole falls into. */
  lemma {:induction false} CallsInside(calls: seq<Value>, ascii: bool)
    requires forall c | c in calls :: Spelled(c)
    requires !ascii ==> WellFormed(RenderItems(calls, false))
    ensures CallBytes(calls) <= Size(RenderItems(calls, ascii))
  {
    if calls != [] {
      ItemsSplit(calls, ascii);
      CallsInside(calls[1..], ascii);
      assert calls[0] in calls;
      RenderGrows(calls[0]);
    }
  }

  lemma PartsInside(text: seq<Text>, calls: seq<Value>, ascii: bool)
    requires forall c | c in calls :: Spelled(c)
    requires !ascii ==> WellFormed(RenderItems(Parts(text, calls), false))
    ensures TextBytes(text) + CallBytes(calls) <= Size(RenderItems(Parts(text, calls), ascii))
  {
    JoinedSize(text);
    var t := Joined(text);
    if t == [] {
      assert Parts(text, calls) == calls;
      CallsInside(calls, ascii);
    } else {
      var parts := Parts(text, calls);
      assert parts[1..] == calls && parts[0] == TextPart(t);
      ItemsSplit(parts, ascii);
      CallsInside(calls, ascii);
      TextInside(t, ascii);
    }
  }

  lemma TextInside(t: Text, ascii: bool)
    ensures Size(t) <= Size(Render(TextPart(t), ascii))
  {
    var members := [Member(Ascii("content"), Str(t)), Member(Ascii("type"), Str(Ascii("text")))];
    MembersSplit(members, ascii);
    Bracketed(123, RenderMembers(members, ascii), 125);
    EscapeAllGrows(t);
    Bracketed(QUOTE, EscapedAll(t, ascii), QUOTE);
  }

  /** Charging every delta and every call by its raw bytes never charges more than the
      rendered output weighs. */
  lemma RawIsALowerBound(text: seq<Text>, calls: seq<Value>)
    requires forall c | c in calls :: Spelled(c)
    ensures TextBytes(text) + CallBytes(calls) <= Size(Encoded(Output(text, calls)))
  {
    var ascii := !WellFormed(Render(Output(text, calls), false));
    var parts := Arr(Parts(text, calls));
    var members := [Member(Ascii("parts"), parts), Member(Ascii("role"), Str(Ascii("assistant")))];
    assert Encoded(Output(text, calls)) == Render(Arr([Obj(members)]), ascii);
    Bracketed(91, RenderItems([Obj(members)], ascii), 93);
    ItemsSplit([Obj(members)], ascii);
    Bracketed(123, RenderMembers(members, ascii), 125);
    MembersSplit(members, ascii);
    Bracketed(91, RenderItems(Parts(text, calls), ascii), 93);
    PartsInside(text, calls, ascii);
  }
}
