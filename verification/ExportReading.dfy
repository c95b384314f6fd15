/**
  What the attributes of an exported pair say to whoever reads them: what was asked, and
  what was heard in answer.
*/
module ExportReading {
  import opened Wrappers
  import opened Json
  import opened JsonReading
  import opened ContentSlots
  import opened Staging

  /** A round as its caller knows it: what it asked and, in order, what it was answered. */
  datatype Asked = Asked(
    session: Session,
    system: Text,
    turns: seq<Value>,
    tools: seq<Value>,
    choice: Text,
    heard: seq<Event>)

  function TextHeard(heard: seq<Event>): seq<Text> {
    if heard == [] then []
    else
      var last := heard[|heard| - 1];
      TextHeard(heard[..|heard| - 1]) + if last.Delta? then [last.text] else []
  }

  function CallsHeard(heard: seq<Event>): seq<Value> {
    if heard == [] then []
    else
      var last := heard[|heard| - 1];
      CallsHeard(heard[..|heard| - 1]) + if last.Call? then [last.call] else []
  }

  lemma HeardMore(heard: seq<Event>, e: Event)
    ensures TextHeard(heard + [e]) == TextHeard(heard) + if e.Delta? then [e.text] else []
    ensures CallsHeard(heard + [e]) == CallsHeard(heard) + if e.Call? then [e.call] else []
  {
    assert (heard + [e])[..|heard|] == heard;
  }

  /** What an attribute says, by its name. */
  function Named(content: Content, name: string): Option<Text> {
    if content == [] then None
    else if content[0].0 == name then Some(content[0].1) else Named(content[1..], name)
  }

  /** The names, first to last. */
  function NamesOf(content: Content): seq<string> {
    if content == [] then [] else [content[0].0] + NamesOf(content[1..])
  }

  /** The attribute is JSON for this value. */
  predicate Reads(content: Content, name: string, v: Value) {
    Named(content, name).Some? && Read(Named(content, name).value) == Some(v)
  }

  function Field(v: Value, name: string): Option<Value> {
    if v.Obj? then FieldOf(v.members, Ascii(name)) else None
  }

  function FieldOf(members: seq<Member>, name: Text): Option<Value> {
    if members == [] then None
    else if members[0].name == name then Some(members[0].value) else FieldOf(members[1..], name)
  }

  /** A part that is this text. */
  predicate IsText(v: Value, t: Text) {
    Field(v, "type") == Some(Str(Ascii("text"))) && Field(v, "content") == Some(Str(Merged(t)))
  }

  ghost predicate AllReadable(vs: seq<Value>) {
    forall v | v in vs :: Readable(v)
  }

  ghost predicate SystemSays(content: Content, system: Text) {
    exists part :: Reads(content, SYSTEM, Arr([part])) && IsText(part, system)
  }

  /** One message of the assistant's: all the text heard as one part, where there was any,
      and behind it the calls in their order. */
  ghost predicate OutputSays(content: Content, heard: seq<Event>) {
    exists message, parts :: Reads(content, OUTPUT, Arr([message])) && IsReply(message, parts)
      && PartsAre(parts, Joined(TextHeard(heard)), MergedItems(CallsHeard(heard)))
  }

  predicate IsReply(message: Value, parts: seq<Value>) {
    Field(message, "role") == Some(Str(Ascii("assistant"))) && Field(message, "parts") == Some(Arr(parts))
  }

  predicate PartsAre(parts: seq<Value>, text: Text, calls: seq<Value>) {
    if text == [] then parts == calls else parts != [] && IsText(parts[0], text) && parts[1..] == calls
  }

  /** Each attribute, read under its own name, is what was asked and what was heard. */
  ghost predicate Says(content: Content, a: Asked) {
    && SystemSays(content, a.system)
    && (AllReadable(a.turns) ==> Reads(content, INPUT, Arr(MergedItems(a.turns))))
    && (AllReadable(a.tools) ==> Reads(content, TOOLS, Arr(MergedItems(a.tools))))
    && Named(content, CHOICE) == Some(a.choice)
    && (AllReadable(CallsHeard(a.heard)) ==> OutputSays(content, a.heard))
    && NamesOf(content) == [SYSTEM, INPUT, TOOLS, CHOICE, OUTPUT]
  }

  lemma {:induction false} AsciiMerged(s: Text)
    requires forall c | c in s :: c < 0x80
    ensures Merged(s) == s
  {
    MergedIsSame(s);
    assert forall i | 0 <= i < |s| :: s[i] in s;
  }

  lemma NameMerged(s: string)
    requires forall c | c in s :: c < '\U{80}'
    ensures Merged(Ascii(s)) == Ascii(s)
  {
    forall c | c in Ascii(s) ensures c < 0x80 {
      var i :| 0 <= i < |s| && Ascii(s)[i] == c;
      assert s[i] in s;
    }
    AsciiMerged(Ascii(s));
  }

  lemma FieldThere(m: Member, rest: seq<Member>, name: Text)
    ensures FieldOf([m] + rest, name) == if m.name == name then Some(m.value) else FieldOf(rest, name)
  {
    assert ([m] + rest)[1..] == rest;
  }

  /** An object of two fields of different names has each. */
  lemma TwoFields(a: string, v: Value, b: string, w: Value)
    requires |a| != |b|
    ensures var o := Obj([Member(Ascii(a), v), Member(Ascii(b), w)]); Field(o, a) == Some(v) && Field(o, b) == Some(w)
  {
    var m, n := Member(Ascii(a), v), Member(Ascii(b), w);
    assert |Ascii(a)| == |a| && |Ascii(b)| == |b|;
    hide Ascii, FieldOf;
    assert [m] + [n] == [m, n] && [n] + [] == [n];
    FieldThere(m, [n], Ascii(a));
    FieldThere(m, [n], Ascii(b));
    FieldThere(n, [], Ascii(b));
  }

  lemma MergedTwo(a: Member, b: Member)
    ensures MergedMembers([a, b])
      == [Member(Merged(a.name), MergedValue(a.value)), Member(Merged(b.name), MergedValue(b.value))]
  {
    hide Merged, MergedValue;
    assert [a, b][1..] == [b] && [b][1..] == [];
    assert MergedMembers([b]) == [Member(Merged(b.name), MergedValue(b.value))] + MergedMembers([]);
  }

  lemma TextPartReads(t: Text)
    ensures Readable(TextPart(t)) && IsText(MergedValue(TextPart(t)), t)
  {
    NameMerged("content");
    NameMerged("type");
    NameMerged("text");
    hide Merged, Ascii, MergedMembers, Field;
    MergedTwo(Member(Ascii("content"), Str(t)), Member(Ascii("type"), Str(Ascii("text"))));
    TwoFields("content", Str(Merged(t)), "type", Str(Ascii("text")));
  }

  lemma MergedOne(v: Value)
    ensures MergedItems([v]) == [MergedValue(v)]
  {
    hide MergedValue;
    assert [v][1..] == [] && MergedItems([]) == [];
  }

  lemma MergedFirst(v: Value, rest: seq<Value>)
    ensures MergedItems([v] + rest) == [MergedValue(v)] + MergedItems(rest)
  {
    hide MergedValue;
    assert ([v] + rest)[1..] == rest;
  }

  /** What a request says under its own names, with what is put behind it. */
  lemma RequestSays(system: Text, turns: seq<Value>, tools: seq<Value>, choice: Text, output: Text)
    ensures var content := Request(system, turns, tools, choice) + [(OUTPUT, output)];
      && Named(content, SYSTEM) == Some(Encoded(Arr([TextPart(system)])))
      && Named(content, INPUT) == Some(Encoded(Arr(turns))) && Named(content, TOOLS) == Some(Encoded(Arr(tools)))
      && Named(content, CHOICE) == Some(choice) && Named(content, OUTPUT) == Some(output)
      && NamesOf(content) == [SYSTEM, INPUT, TOOLS, CHOICE, OUTPUT]
  {
    hide Encoded, TextPart;
    var content := Request(system, turns, tools, choice) + [(OUTPUT, output)];
    NamedCons(content[0], content[1..]);
    NamedCons(content[1], content[2..]);
    NamedCons(content[2], content[3..]);
    NamedCons(content[3], content[4..]);
    NamedCons(content[4], []);
    assert content == [content[0]] + content[1..] && content[1..] == [content[1]] + content[2..]
      && content[2..] == [content[2]] + content[3..] && content[3..] == [content[3]] + content[4..]
      && content[4..] == [content[4]] + [];
  }

  lemma NamedCons(a: Attribute, rest: Content)
    ensures forall name :: Named([a] + rest, name) == if a.0 == name then Some(a.1) else Named(rest, name)
    ensures NamesOf([a] + rest) == [a.0] + NamesOf(rest) && NamesOf([]) == []
  {
    assert ([a] + rest)[1..] == rest;
  }

  lemma ListReads(content: Content, name: string, vs: seq<Value>)
    requires AllReadable(vs) && Named(content, name) == Some(Encoded(Arr(vs)))
    ensures Reads(content, name, Arr(MergedItems(vs)))
  {
    ReadsBack(Arr(vs));
  }

  /** The complete pair says what was asked and heard. */
  lemma PairSays(a: Asked, output: Text)
    requires output == Encoded(Output(TextHeard(a.heard), CallsHeard(a.heard)))
    ensures Says(Request(a.system, a.turns, a.tools, a.choice) + [(OUTPUT, output)], a)
  {
    var content := Request(a.system, a.turns, a.tools, a.choice) + [(OUTPUT, output)];
    RequestSays(a.system, a.turns, a.tools, a.choice, output);
    TextPartReads(a.system);
    MergedOne(TextPart(a.system));
    hide Encoded, Request, Output, TextPart, MergedValue, MergedItems, Readable, IsText, Read;
    ListReads(content, SYSTEM, [TextPart(a.system)]);
    if AllReadable(a.turns) { ListReads(content, INPUT, a.turns); }
    if AllReadable(a.tools) { ListReads(content, TOOLS, a.tools); }
    if AllReadable(CallsHeard(a.heard)) { OutputReads(content, a.heard); }
  }

  lemma OutputReads(content: Content, heard: seq<Event>)
    requires Named(content, OUTPUT) == Some(Encoded(Output(TextHeard(heard), CallsHeard(heard))))
    requires AllReadable(CallsHeard(heard))
    ensures OutputSays(content, heard)
  {
    hide Readable, MergedItems, MergedValue, IsText, Read, Encoded, Merged, Ascii, IsReply, PartsAre, Named, TextHeard,
         CallsHeard, Joined;
    var text, calls := TextHeard(heard), CallsHeard(heard);
    var parts := Parts(text, calls);
    var message := Obj([Member(Ascii("parts"), Arr(parts)), Member(Ascii("role"), Str(Ascii("assistant")))]);
    assert Output(text, calls) == Arr([message]);
    PartsRead(Joined(text), calls, parts);
    hide Parts, Output;
    MessageReads(parts);
    assert AllReadable([message]);
    ListReads(content, OUTPUT, [message]);
    MergedOne(message);
    assert Reads(content, OUTPUT, Arr([MergedValue(message)]));
  }

  lemma PartsRead(text: Text, calls: seq<Value>, parts: seq<Value>)
    requires AllReadable(calls) && parts == (if text == [] then [] else [TextPart(text)]) + calls
    ensures AllReadable(parts)
    ensures PartsAre(MergedItems(parts), text, MergedItems(calls))
  {
    if text == [] {
      assert parts == calls;
    } else {
      TextPartReads(text);
      MergedFirst(TextPart(text), calls);
      hide TextPart, MergedItems, IsText, Readable;
    }
  }

  lemma MessageReads(parts: seq<Value>)
    requires AllReadable(parts)
    ensures var message := Obj([Member(Ascii("parts"), Arr(parts)), Member(Ascii("role"), Str(Ascii("assistant")))]);
      Readable(message) && IsReply(MergedValue(message), MergedItems(parts))
  {
    NameMerged("parts");
    NameMerged("role");
    NameMerged("assistant");
    hide Merged, Ascii, MergedMembers, MergedItems, Field;
    MergedTwo(Member(Ascii("parts"), Arr(parts)), Member(Ascii("role"), Str(Ascii("assistant"))));
    TwoFields("parts", Arr(MergedItems(parts)), "role", Str(Ascii("assistant")));
  }
}
