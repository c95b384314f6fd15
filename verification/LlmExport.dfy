/**
  The opt-in export of model content.

  Requests are staged as they are sent, output is observed as it arrives, and each
  complete pair is handed to the fold of its event.

  Every pair a caller tries to export is said to have been exported, said to have
  failed, or still staged, and a pair is said exported only if it is on a span.
*/
module LlmExport {
  import opened Wrappers
  import opened Seqs
  import opened Json
  import opened ContentSlots
  import opened Staging
  import opened JsonReading
  import opened ExportReading

  /** The raw bytes an event adds to its round, or nothing where they cannot be
      measured. */
  function Added(e: Event): Option<nat> {
    match e
    case Delta(t) => Utf8Size(t)
    case Call(v) => Utf8Size(Encoded(v))
    case Other => Some(0)
  }

  function Observed(r: Round, e: Event): Round {
    match e
    case Delta(t) => r.(text := r.text + [t], outputSize := r.outputSize + Size(t))
    case Call(v) => r.(calls := r.calls + [v], outputSize := r.outputSize + Size(Encoded(v)))
    case Other => r
  }

  predicate Keeps(r: Round, e: Event, limits: Limits) {
    e.Other? || (Added(e).Some? && r.size + r.outputSize + Added(e).value <= limits.content)
  }

  function Final(r: Round): Content {
    r.request + [(OUTPUT, Encoded(Output(r.text, r.calls)))]
  }

  predicate Admits(r: Round, limits: Limits) {
    AttributeBytes(Final(r)).Some? && AttributeBytes(Final(r)).value <= limits.content
  }

  lemma {:induction false} TextBytesJoin(a: seq<Text>, b: seq<Text>)
    ensures TextBytes(a + b) == TextBytes(a) + TextBytes(b)
  {
    if a == [] { assert a + b == b; } else {
      assert (a + b)[1..] == a[1..] + b;
      TextBytesJoin(a[1..], b);
    }
  }

  lemma {:induction false} CallBytesJoin(a: seq<Value>, b: seq<Value>)
    ensures CallBytes(a + b) == CallBytes(a) + CallBytes(b)
  {
    if a == [] { assert a + b == b; } else {
      assert (a + b)[1..] == a[1..] + b;
      CallBytesJoin(a[1..], b);
    }
  }

  lemma ObservedCharged(r: Round, e: Event, limits: Limits)
    requires Charged(r, limits) && Keeps(r, e, limits) && (e.Call? ==> Spelled(e.call))
    ensures Charged(Observed(r, e), limits)
  {
    match e
    case Delta(t) =>
      TextBytesJoin(r.text, [t]);
      assert TextBytes([t]) == Size(t) + TextBytes([t][1..]);
    case Call(v) =>
      CallBytesJoin(r.calls, [v]);
      assert CallBytes([v]) == Size(Encoded(v)) + CallBytes([v][1..]);
    case Other =>
  }

  lemma FinalWeighs(r: Round)
    requires AttributeBytes(r.request) == Some(r.size) && forall c | c in r.calls :: Spelled(c)
    ensures AttributeBytes(Final(r)).Some?
    ensures AttributeBytes(Final(r)).value == r.size + Size(Encoded(Output(r.text, r.calls)))
    ensures r.size + TextBytes(r.text) + CallBytes(r.calls) <= AttributeBytes(Final(r)).value
  {
    AttributeJoin(r.request, (OUTPUT, Encoded(Output(r.text, r.calls))));
    RawIsALowerBound(r.text, r.calls);
    OutputSpelled(r.text, r.calls);
    EncodedIsWellFormed(Output(r.text, r.calls));
  }

  lemma OutputSpelled(text: seq<Text>, calls: seq<Value>)
    requires forall c | c in calls :: Spelled(c)
    ensures Spelled(Output(text, calls))
  {
    assert Spelled(TextPart(Joined(text)));
    assert Spelled(Arr(Parts(text, calls)));
  }

  /** A round dropped for its size could never have been finished: whatever came
      after, the complete pair would have been over the ceiling. */
  lemma DroppedWasHopeless(r: Round, e: Event, limits: Limits, text: seq<Text>, calls: seq<Value>)
    requires Charged(r, limits) && Added(e).Some? && !Keeps(r, e, limits)
    requires (e.Call? ==> Spelled(e.call)) && forall c | c in calls :: Spelled(c)
    ensures var more := Observed(r, e);
      !Admits(more.(text := more.text + text, calls := more.calls + calls), limits)
  {
    var more := Observed(r, e);
    var whole := more.(text := more.text + text, calls := more.calls + calls);
    if e.Delta? {
      TextBytesJoin(r.text, [e.text]);
      assert TextBytes([e.text]) == Size(e.text) + TextBytes([e.text][1..]);
    } else {
      CallBytesJoin(r.calls, [e.call]);
      assert CallBytes([e.call]) == Size(Encoded(e.call)) + CallBytes([e.call][1..]);
    }
    TextBytesJoin(more.text, text);
    CallBytesJoin(more.calls, calls);
    FinalWeighs(whole);
  }

  /** A round that could be finished with this event in it is kept exactly when
      the event's text can be encoded: only a lone surrogate costs a round that
      the final rendering would have escaped and admitted. */
  lemma KeptExactly(r: Round, e: Event, limits: Limits)
    requires Charged(r, limits) && (e.Call? ==> Spelled(e.call))
    requires Admits(Observed(r, e), limits)
    ensures Keeps(r, e, limits) <==> (e.Delta? ==> WellFormed(e.text))
  {
    if e.Call? { EncodedIsWellFormed(e.call); }
    if Added(e).Some? && !Keeps(r, e, limits) {
      var more := Observed(r, e);
      assert more.(text := more.text + [], calls := more.calls + []) == more;
      DroppedWasHopeless(r, e, limits, [], []);
    }
  }

  /** And such a loss happens: under a ceiling the escaped pair exactly meets. */
  lemma LoneSurrogateIsLost(r: Round)
    requires AttributeBytes(r.request) == Some(r.size) && forall c | c in r.calls :: Spelled(c)
    ensures var e := Delta([0xD800]);
      var limits := Limits(r.size + Size(Encoded(Output(r.text + [[0xD800]], r.calls))), 1, 1);
      Admits(Observed(r, e), limits) && !Keeps(r, e, limits)
  {
    hide Encoded, Size, Spelled, AttributeBytes, TextBytes, CallBytes;
    FinalWeighs(Observed(r, Delta([0xD800])));
    assert 0xD800 in [0xD800 as Point];
  }

  class LlmInputExport {
    const telemetry: Telemetry
    const limits: Limits
    var shelf: Shelf
    // By session: the round its last landed tool pair belongs to, and how much of that
    // round's ceiling its pairs have used up.
    var toolRound: map<Session, (Invocation, nat)>
    // What has been said, and what was asked.
    var exportedRounds: nat
    var failedRounds: nat
    var exportedTools: nat
    var failedTools: nat
    ghost var askedRounds: nat
    ghost var askedTools: nat
    // Of each round entered, what was asked and heard, and the how manyth it was; and the
    // tool pairs that landed, with the ends of sessions between them.
    ghost var asked: map<Invocation, Asked>
    ghost var entries: map<Invocation, nat>
    ghost var entered: nat
    ghost var toolLog: seq<ToolEvent>

    /** What holds between any two calls. */
    ghost predicate Valid()
      reads this, telemetry
    {
      && ShelfValid(shelf, limits)
      && (forall k | k in toolRound :: toolRound[k].1 <= limits.content)
      && telemetry.slots.staged == map[] && telemetry.slots.attached == {}
      && Accounted()
    }

    /** Each staged round is what was asked of it, with what it has been answered so far;
        each session lists its rounds as they came; and what a round's tool pairs have used
        up is what landed of them. */
    ghost predicate Follows()
      reads this
    {
      AllAre(shelf.rounds, asked) && InOrder(shelf, entries, entered) && ToolsAre(toolRound, toolLog)
    }

    /** Every pair asked for was exported, failed, or is still staged. */
    ghost predicate Accounted()
      reads this
    {
      && askedRounds == exportedRounds + failedRounds + |shelf.rounds|
      && askedTools == exportedTools + failedTools
    }

    constructor (telemetry: Telemetry, limits: Limits)
      requires telemetry.slots.staged == map[] && telemetry.slots.attached == {}
      ensures Valid() && Follows() && this.telemetry == telemetry && this.limits == limits
      ensures shelf.rounds == map[]
    {
      this.telemetry, this.limits := telemetry, limits;
      shelf := Shelf(map[], map[], map[]);
      toolRound := map[];
      exportedRounds, failedRounds, exportedTools, failedTools := 0, 0, 0, 0;
      askedRounds, askedTools, asked := 0, 0, map[];
      entries, entered, toolLog := map[], 0, [];
    }

    /** One round let go of, wherever it is, and said to have failed. */
    method DropRound(invocation: Invocation)
      requires Agrees(shelf) && Accounted()
      requires telemetry.slots.staged == map[] && telemetry.slots.attached == {}
      modifies this`shelf, this`failedRounds, telemetry`slots
      ensures Agrees(shelf) && Accounted()
      ensures telemetry.slots == old(telemetry.slots)
      ensures if invocation in old(shelf).rounds
              then shelf == Removed(old(shelf), invocation) && failedRounds == old(failedRounds) + 1
              else shelf == old(shelf) && failedRounds == old(failedRounds)
    {
      hide Agrees, Removed;
      if invocation !in shelf.rounds { return; }
      RemoveAgrees(shelf, invocation);
      RemovedRounds(shelf, invocation);
      telemetry.Discard(Generation(invocation));
      shelf, failedRounds := Removed(shelf, invocation), failedRounds + 1;
    }

    /** A request staged for a round about to be sent. */
    method Stage(session: Session, invocation: Invocation, system: Text, turns: seq<Value>,
                 tools: seq<Value>, choice: Text) returns (dropped: nat)
      requires Valid() && Follows()
      modifies this, telemetry`slots
      ensures Valid() && Follows() && telemetry.slots == old(telemetry.slots)
      ensures Staged(session, invocation, Request(system, turns, tools, choice), dropped)
      ensures asked == if invocation in old(shelf).rounds then old(asked)
                       else old(asked)[invocation := Asked(session, system, turns, tools, choice, [])]
      ensures entries == if invocation in old(shelf).rounds then old(entries)
                         else old(entries)[invocation := old(entered)]
      ensures OldestWent(old(shelf), shelf, entries, session)
    {
      hide ShelfValid, Entered, Trimmed, Charged, RoundIs, InOrder, ToolsAre, OldestWent;
      ghost var request := Request(system, turns, tools, choice);
      if AttributeBytes(Request(system, turns, tools, choice)).Some? {
        RequestPositive(system, turns, tools, choice);
      }
      hide Request, AttributeBytes;
      ghost var before, was, numbers := shelf, asked, entries;
      dropped := StageRendered(session, invocation, Request(system, turns, tools, choice));
      if invocation in before.rounds {
        NoneWent(shelf, entries, session);
      } else {
        asked := asked[invocation := Asked(session, system, turns, tools, choice, [])];
        entries, entered := entries[invocation := entered], entered + 1;
        StagedFollows(before, shelf, was, invocation, asked[invocation], request, dropped, limits);
        StagedInOrder(before, shelf, numbers, entered - 1, invocation, asked[invocation], request, dropped, limits);
      }
    }

    /** Where a request enters, the oldest rounds of its session give way until both
        of the session's bounds hold, and no more of them than that takes; one that
        is a repeat, cannot be measured or is over the ceiling fails at once. */
    twostate predicate Staged(session: Session, invocation: Invocation, request: Content, dropped: nat)
      reads this
    {
      && askedRounds == old(askedRounds) + 1
      && (if invocation in old(shelf).rounds || AttributeBytes(request) == None
             || AttributeBytes(request).value > limits.content
          then shelf == old(shelf) && dropped == 0 && failedRounds == old(failedRounds) + 1
          else
            var r := Round(session, invocation, request, AttributeBytes(request).value, 0, [], []);
            && Trimmed(Entered(old(shelf), r), shelf, session, dropped, limits)
            && failedRounds == old(failedRounds) + dropped)
      && exportedRounds == old(exportedRounds) && exportedTools == old(exportedTools)
      && failedTools == old(failedTools) && toolRound == old(toolRound) && askedTools == old(askedTools)
    }

    method StageRendered(session: Session, invocation: Invocation, request: Content) returns (dropped: nat)
      requires Valid() && (AttributeBytes(request).Some? ==> AttributeBytes(request).value > 0)
      modifies this`shelf, this`failedRounds, this`askedRounds, telemetry`slots
      ensures Valid() && telemetry.slots == old(telemetry.slots)
      ensures Staged(session, invocation, request, dropped)
    {
      hide ShelfValid, Trimmed, Entered;
      askedRounds := askedRounds + 1;
      dropped := 0;
      var size := AttributeBytes(request);
      if invocation in shelf.rounds || !Small(size, limits) {
        failedRounds := failedRounds + 1;
        return;
      }
      dropped := EnterRound(Round(session, invocation, request, size.value, 0, [], []));
    }

    method EnterRound(staged: Round) returns (dropped: nat)
      requires ShelfValid(shelf, limits) && staged.invocation !in shelf.rounds && staged.size > 0
      requires Charged(staged, limits)
      requires askedRounds == exportedRounds + failedRounds + |shelf.rounds| + 1
      requires askedTools == exportedTools + failedTools
      requires telemetry.slots.staged == map[] && telemetry.slots.attached == {}
      modifies this`shelf, this`failedRounds, telemetry`slots
      ensures ShelfValid(shelf, limits) && Accounted() && telemetry.slots == old(telemetry.slots)
      ensures Trimmed(Entered(old(shelf), staged), shelf, staged.session, dropped, limits)
      ensures failedRounds == old(failedRounds) + dropped
    {
      ghost var before := shelf;
      hide Trimmed;
      EnterAgrees(shelf, staged);
      MoreRounds(shelf.rounds, staged);
      shelf := Entered(shelf, staged);
      dropped := TrimSession(staged.session);
      StaysValid(before, Entered(before, staged), shelf, staged.session, dropped, staged, limits);
    }

    /** The eviction loop. It ends because every listed round is present, so each
        turn of it takes one round out of the list. */
    method TrimSession(session: Session) returns (dropped: nat)
      requires Agrees(shelf) && Accounted() && session in shelf.sessions
      requires telemetry.slots.staged == map[] && telemetry.slots.attached == {}
      modifies this`shelf, this`failedRounds, telemetry`slots
      ensures Agrees(shelf) && Accounted() && telemetry.slots == old(telemetry.slots)
      ensures Trimmed(old(shelf), shelf, session, dropped, limits)
      ensures failedRounds == old(failedRounds) + dropped
    {
      ghost var entered := shelf;
      dropped := 0;
      StartDropped(shelf, session);
      while session in shelf.sessions && Over(shelf, session, limits)
        invariant Agrees(shelf) && Accounted() && telemetry.slots == old(telemetry.slots)
        invariant Dropped(entered, shelf, session, dropped) && NoneFit(entered, session, dropped, limits)
        invariant failedRounds == old(failedRounds) + dropped
        decreases |entered.sessions[session]| - dropped
      {
        DropOneMore(entered, shelf, session, dropped, limits);
        DropRound(shelf.sessions[session][0]);
        dropped := dropped + 1;
      }
      AllTrimmed(entered, shelf, session, dropped, limits);
    }

    /** One piece of raw output, charged to its round or costing it. */
    method Observe(invocation: Invocation, e: Event)
      requires Valid() && Follows() && (e.Call? ==> Spelled(e.call))
      modifies this`shelf, this`failedRounds, this`asked, telemetry`slots
      ensures Valid() && Follows() && telemetry.slots == old(telemetry.slots)
      ensures asked == if invocation in old(shelf).rounds
                       then old(asked)[invocation := Hears(old(asked)[invocation], e)] else old(asked)
      ensures if invocation !in old(shelf).rounds
              then shelf == old(shelf) && failedRounds == old(failedRounds)
              else if Keeps(old(shelf).rounds[invocation], e, limits)
              then shelf == Rewritten(old(shelf), Observed(old(shelf).rounds[invocation], e))
                && failedRounds == old(failedRounds)
              else shelf == Removed(old(shelf), invocation) && failedRounds == old(failedRounds) + 1
    {
      hide ShelfValid, Keeps, Observed, Removed, Agrees, RoundIs, Hears, InOrder, ToolsAre;
      if invocation !in shelf.rounds { return; }
      ObservedInOrder(shelf, entries, entered, invocation, e, limits);
      var staged := shelf.rounds[invocation];
      ObservedFollows(shelf, asked, invocation, e, limits);
      asked := asked[invocation := Hears(asked[invocation], e)];
      if Keeps(staged, e, limits) {
        RewriteKeeps(shelf, invocation, e, limits);
        shelf := Rewritten(shelf, Observed(staged, e));
      } else {
        RemoveKeeps(shelf, invocation, limits);
        DropRound(invocation);
      }
    }

    /** A round's pair is said exported exactly when it was under the ceiling and
        this emission delivered it, and then it is on a span. */
    twostate predicate Finished(invocation: Invocation, emission: seq<Fold>)
      reads this, telemetry
    {
      if invocation !in old(shelf).rounds
      then shelf == old(shelf) && exportedRounds == old(exportedRounds)
        && failedRounds == old(failedRounds) && telemetry.slots.spans == old(telemetry.slots).spans
      else
        var r := old(shelf).rounds[invocation];
        var size := AttributeBytes(Final(r));
        var lands := size.Some? && size.value <= limits.content && telemetry.accepting && r.session in telemetry.live
          && Delivers(emission, Generation(invocation));
        && shelf == Removed(old(shelf), invocation)
        && exportedRounds == old(exportedRounds) + (if lands then 1 else 0)
        && failedRounds == old(failedRounds) + (if lands then 0 else 1)
        && (lands ==> telemetry.slots.spans == old(telemetry.slots).spans + [(Generation(invocation), Final(r))])
    }

    /** One round's end: its pair is handed over where it fits, and the emission runs once
        either way. */
    method Finish(invocation: Invocation, emission: seq<Fold>)
      requires Valid() && Follows()
      modifies this`shelf, this`exportedRounds, this`failedRounds, telemetry`slots
      ensures Valid() && Follows()
      ensures Finished(invocation, emission)
      ensures exportedRounds > old(exportedRounds) ==>
        && invocation in asked && telemetry.slots.spans != []
        && telemetry.slots.spans[|telemetry.slots.spans| - 1].0 == Generation(invocation)
        && Says(telemetry.slots.spans[|telemetry.slots.spans| - 1].1, asked[invocation])
    {
      hide ShelfValid, Removed, Final, Delivers, RoundIs, Says, InOrder, ToolsAre, AttributeBytes;
      if invocation !in shelf.rounds {
        QuietFolds(telemetry.slots, emission);
        telemetry.Emit(emission);
        return;
      }
      RemovedFollows(shelf, asked, invocation);
      RemovedInOrder(shelf, entries, entered, invocation, limits);
      var staged := TakeRound(invocation);
      FinalNonempty(staged);
      FinalSays(staged, asked[invocation]);
      var landed := Attempt(staged.session, Generation(invocation), Final(staged), Admits(staged, limits), emission);
      if landed {
        exportedRounds := exportedRounds + 1;
      } else {
        failedRounds := failedRounds + 1;
      }
    }

    method TakeRound(invocation: Invocation) returns (staged: Round)
      requires ShelfValid(shelf, limits) && invocation in shelf.rounds
      modifies this`shelf
      ensures staged == old(shelf).rounds[invocation] && shelf == Removed(old(shelf), invocation)
      ensures ShelfValid(shelf, limits) && |shelf.rounds| == |old(shelf).rounds| - 1
    {
      staged := shelf.rounds[invocation];
      RemoveKeeps(shelf, invocation, limits);
      FewerRounds(shelf.rounds, invocation);
      shelf := Removed(shelf, invocation);
    }

    /** The emission happens either way; the pair is part of it only if it fits. */
    method Attempt(session: Session, k: Key, content: Content, fits: bool, emission: seq<Fold>) returns (landed: bool)
      requires telemetry.slots.staged == map[] && telemetry.slots.attached == {} && content != []
      modifies telemetry`slots
      ensures telemetry.slots.staged == map[] && telemetry.slots.attached == {}
      ensures landed <==> fits && telemetry.accepting && session in telemetry.live && Delivers(emission, k)
      ensures landed ==> telemetry.slots.spans == old(telemetry.slots).spans + [(k, content)]
    {
      if fits {
        landed := Handoff(session, k, content, emission);
      } else {
        QuietFolds(telemetry.slots, emission);
        telemetry.Emit(emission);
        landed := false;
      }
    }

    /** Stage, emit, settle: what both kinds of pair are handed off by. */
    method Handoff(session: Session, k: Key, content: Content, emission: seq<Fold>) returns (landed: bool)
      requires telemetry.slots.staged == map[] && telemetry.slots.attached == {} && content != []
      modifies telemetry`slots
      ensures telemetry.slots.staged == map[] && telemetry.slots.attached == {}
      ensures landed <==> telemetry.accepting && session in telemetry.live && Delivers(emission, k)
      ensures landed ==> telemetry.slots.spans == old(telemetry.slots).spans + [(k, content)]
    {
      var taken := telemetry.Stage(session, k, content);
      if !taken {
        QuietFolds(telemetry.slots, emission);
        telemetry.Emit(emission);
        return false;
      }
      assert telemetry.slots == Slots(map[k := content], {}, old(telemetry.slots).spans);
      HandoffExactly(k, content, telemetry.slots.spans, emission);
      telemetry.Emit(emission);
      landed := telemetry.Settle(k);
    }

    /** A pair lands only where, with all of its round's that landed since the round before
        it was over, it keeps below the ceiling, and is then one more of them. */
    twostate predicate ToolLogged(session: Session, invocation: Invocation, content: Content)
      reads this
    {
      if exportedTools == old(exportedTools) then toolLog == old(toolLog)
      else
        && AttributeBytes(content).Some?
        && toolLog == old(toolLog) + [LandedTool(session, invocation, AttributeBytes(content).value)]
        && RoundTotal(old(toolLog), session, invocation) + AttributeBytes(content).value <= limits.content
    }

    /** One tool call's pair, held to the round's ceiling by what has landed. */
    method StageTool(session: Session, invocation: Invocation, position: nat, arguments: Arguments,
                     result: Text, emission: seq<Fold>)
      requires Valid() && Follows()
      modifies this`toolRound, this`exportedTools, this`failedTools, this`askedTools, this`toolLog, telemetry`slots
      ensures ToolLogged(session, invocation, ToolPair(arguments, result))
      ensures Valid() && Follows() && askedTools == old(askedTools) + 1
      ensures exportedTools > old(exportedTools) ==>
        telemetry.slots.spans != [] && ToolSays(telemetry.slots.spans[|telemetry.slots.spans| - 1].1, arguments, result)
      ensures var content, admitted := ToolPair(arguments, result), Landed(old(toolRound), session, invocation);
        var size := AttributeBytes(content);
        var lands := size.Some? && admitted + size.value <= limits.content && telemetry.accepting
          && session in telemetry.live && Delivers(emission, Tool(invocation, position));
        && exportedTools == old(exportedTools) + (if lands then 1 else 0)
        && failedTools == old(failedTools) + (if lands then 0 else 1)
        && toolRound
          == (if lands then old(toolRound)[session := (invocation, admitted + size.value)] else old(toolRound))
        && (lands ==> telemetry.slots.spans == old(telemetry.slots).spans + [(Tool(invocation, position), content)])
    {
      hide ShelfValid, AllAre, ToolSays, InOrder, ToolPair, AttributeBytes, Landed, RoundTotal, ToolsAre, Delivers;
      ToolPairSays(arguments, result);
      TakeTool(session, Tool(invocation, position), invocation, ToolPair(arguments, result), emission);
    }

    method TakeTool(session: Session, k: Key, invocation: Invocation, content: Content, emission: seq<Fold>)
      requires Valid() && ToolsAre(toolRound, toolLog) && content != []
      modifies this`toolRound, this`exportedTools, this`failedTools, this`askedTools, this`toolLog, telemetry`slots
      ensures Valid() && ToolsAre(toolRound, toolLog) && askedTools == old(askedTools) + 1
      ensures ToolLogged(session, invocation, content)
      ensures var admitted, size := Landed(old(toolRound), session, invocation), AttributeBytes(content);
        var lands := size.Some? && admitted + size.value <= limits.content && telemetry.accepting
          && session in telemetry.live && Delivers(emission, k);
        && exportedTools == old(exportedTools) + (if lands then 1 else 0)
        && failedTools == old(failedTools) + (if lands then 0 else 1)
        && toolRound
          == (if lands then old(toolRound)[session := (invocation, admitted + size.value)] else old(toolRound))
        && (lands ==> telemetry.slots.spans == old(telemetry.slots).spans + [(k, content)])
    {
      hide ShelfValid, AttributeBytes, Landed, RoundTotal, ToolsAre, Delivers;
      askedTools := askedTools + 1;
      var size := AttributeBytes(content);
      var admitted := Landed(toolRound, session, invocation);
      var fits := size.Some? && admitted + size.value <= limits.content;
      var landed := Attempt(session, k, content, fits, emission);
      if landed {
        exportedTools := exportedTools + 1;
        MoreLanded(toolRound, toolLog, session, invocation, size.value);
        toolRound := toolRound[session := (invocation, admitted + size.value)];
        toolLog := toolLog + [LandedTool(session, invocation, size.value)];
      } else {
        failedTools := failedTools + 1;
      }
    }

    /** A session over: every round it still had staged is said to have failed. */
    method SessionClosed(session: Session)
      requires Valid() && Follows()
      modifies this`shelf, this`failedRounds, this`toolRound, this`toolLog, telemetry`slots
      ensures Valid() && Follows() && telemetry.slots == old(telemetry.slots)
      ensures toolLog == old(toolLog) + [SessionOver(session)]
      ensures session !in shelf.sessions && session !in toolRound
      ensures failedRounds == old(failedRounds) + |ListOf(old(shelf), session)|
      ensures shelf.rounds.Keys <= old(shelf).rounds.Keys && shelf.sessions.Keys <= old(shelf).sessions.Keys
    {
      hide Removed, ShelfValid, Agrees, AllAre, InOrder, ToolsAre;
      var order := ListOf(shelf, session);
      var i := 0;
      ghost var before := shelf;
      while i < |order|
        invariant i <= |order|
        invariant ShelfValid(shelf, limits) && Accounted() && telemetry.slots == old(telemetry.slots)
        invariant AllAre(shelf.rounds, asked) && InOrder(shelf, entries, entered) && toolLog == old(toolLog)
        invariant ListOf(shelf, session) == order[i..] && toolRound == old(toolRound)
        invariant failedRounds == old(failedRounds) + i
        invariant shelf.rounds.Keys <= before.rounds.Keys && shelf.sessions.Keys <= before.sessions.Keys
      {
        assert order[i..][1..] == order[i + 1..];
        RemoveFirst(shelf, session, limits);
        RemovedFollows(shelf, asked, order[i]);
        RemovedInOrder(shelf, entries, entered, order[i], limits);
        DropRound(order[i]);
        i := i + 1;
      }
      SessionForgotten(toolRound, toolLog, session);
      toolRound := toolRound - {session};
      toolLog := toolLog + [SessionOver(session)];
      NothingListed(shelf, session, limits);
    }

    /** Drops every round there is, which leaves the two ledgers with nothing outstanding. */
    method Shutdown()
      requires Valid() && Follows()
      modifies this`shelf, this`failedRounds, this`toolRound, this`toolLog, telemetry`slots
      ensures Valid() && Follows() && shelf.rounds == map[] && shelf.sessions == map[] && toolRound == map[]
      ensures askedRounds == exportedRounds + failedRounds && askedTools == exportedTools + failedTools
    {
      while shelf.sessions != map[]
        invariant Valid() && Follows()
        decreases shelf.sessions.Keys
      {
        var session :| session in shelf.sessions;
        SessionClosed(session);
      }
      AllForgotten(toolLog);
      toolRound := map[];
      toolLog := toolLog + [AllOver];
      assert forall i :: i !in shelf.rounds;
      assert shelf.rounds == map[];
    }
  }

  /** A request entered, with the oldest giving way, or not entered at all. */
  ghost predicate StagedTo(before: Shelf, after: Shelf, i: Invocation, session: Session, request: Content,
                           dropped: nat, limits: Limits)
  {
    if Small(AttributeBytes(request), limits) then
      var r := Round(session, i, request, AttributeBytes(request).value, 0, [], []);
      Trimmed(Entered(before, r), after, session, dropped, limits)
    else after == before
  }

  // The order of rounds

  /** Each session lists its rounds in the order they were entered. */
  ghost predicate InOrder(s: Shelf, entries: map<Invocation, nat>, entered: nat) {
    && (forall i | i in s.rounds :: i in entries && entries[i] < entered)
    && (forall k | k in s.sessions :: ListedInOrder(s.sessions[k], entries))
  }

  ghost predicate ListedInOrder(order: seq<Invocation>, entries: map<Invocation, nat>) {
    && (forall i | i in order :: i in entries)
    && forall m, n | 0 <= m < n < |order| :: entries[order[m]] < entries[order[n]]
  }

  /** What went was of this session, and had been entered before all of it that is left. */
  ghost predicate OldestWent(before: Shelf, after: Shelf, entries: map<Invocation, nat>, session: Session) {
    forall a | a in before.rounds && a !in after.rounds ::
      && before.rounds[a].session == session
      && forall b | b in after.rounds && after.rounds[b].session == session ::
           a in entries && b in entries && entries[a] < entries[b]
  }

  lemma NoneWent(s: Shelf, entries: map<Invocation, nat>, session: Session)
    ensures OldestWent(s, s, entries, session)
  {}

  lemma TailInOrder(order: seq<Invocation>, n: nat, entries: map<Invocation, nat>)
    requires n <= |order| && ListedInOrder(order, entries)
    ensures ListedInOrder(order[n..], entries)
  {}

  lemma RestInOrder(order: seq<Invocation>, m: nat, entries: map<Invocation, nat>)
    requires m < |order| && ListedInOrder(order, entries)
    ensures ListedInOrder(order[..m] + order[m + 1..], entries)
  {}

  lemma MoreInOrder(order: seq<Invocation>, i: Invocation, n: nat, entries: map<Invocation, nat>)
    requires ListedInOrder(order, entries) && i !in order && forall x | x in order :: entries[x] < n
    ensures ListedInOrder(order + [i], entries[i := n])
  {
    var more := entries[i := n];
    assert forall m | 0 <= m < |order| :: order[m] in order && more[order[m]] == entries[order[m]];
  }

  lemma OthersInOrder(order: seq<Invocation>, i: Invocation, n: nat, entries: map<Invocation, nat>)
    requires ListedInOrder(order, entries) && i !in order
    ensures ListedInOrder(order, entries[i := n])
  {
    assert forall m | 0 <= m < |order| :: order[m] in order;
  }

  lemma RemovedList(s: Shelf, i: Invocation) returns (m: nat)
    requires Agrees(s) && i in s.rounds
    ensures var n, own := Removed(s, i), s.rounds[i].session;
      && Agrees(n) && own in s.sessions && m < |s.sessions[own]|
      && ListOf(n, own) == s.sessions[own][..m] + s.sessions[own][m + 1..]
      && (forall k | k != own :: ListOf(n, k) == ListOf(s, k))
  {
    RemoveAgrees(s, i);
    assert SessionAgrees(s, s.rounds[i].session);
    var order := s.sessions[s.rounds[i].session];
    m :| 0 <= m < |order| && order[m] == i;
    WithoutAt(order, m);
  }

  lemma RemovedInOrder(s: Shelf, entries: map<Invocation, nat>, entered: nat, i: Invocation, limits: Limits)
    requires ShelfValid(s, limits) && InOrder(s, entries, entered) && i in s.rounds
    ensures InOrder(Removed(s, i), entries, entered)
  {
    hide ListedInOrder, Agrees, Bounded, Charged;
    var m := RemovedList(s, i);
    var n, own := Removed(s, i), s.rounds[i].session;
    RestInOrder(s.sessions[own], m, entries);
    forall k | k in n.sessions ensures ListedInOrder(n.sessions[k], entries) {
      if k != own { ListedBefore(s, n, k); }
    }
    assert forall x | x in n.rounds :: x in s.rounds;
  }

  lemma ListedBefore(s: Shelf, n: Shelf, k: Session)
    requires Agrees(n) && k in n.sessions && ListOf(n, k) == ListOf(s, k)
    ensures k in s.sessions && n.sessions[k] == s.sessions[k]
  {
    assert SessionAgrees(n, k);
  }

  lemma ObservedInOrder(s: Shelf, entries: map<Invocation, nat>, entered: nat, i: Invocation, e: Event, limits: Limits)
    requires ShelfValid(s, limits) && InOrder(s, entries, entered) && i in s.rounds
    ensures InOrder(Rewritten(s, Observed(s.rounds[i], e)), entries, entered)
    ensures InOrder(Removed(s, i), entries, entered)
  {
    hide ShelfValid, InOrder, Observed, Removed, Rewritten;
    RemovedInOrder(s, entries, entered, i, limits);
    RewrittenInOrder(s, entries, entered, i, e, limits);
  }

  lemma RewrittenInOrder(s: Shelf, entries: map<Invocation, nat>, entered: nat, i: Invocation, e: Event,
                         limits: Limits)
    requires ShelfValid(s, limits) && InOrder(s, entries, entered) && i in s.rounds
    ensures InOrder(Rewritten(s, Observed(s.rounds[i], e)), entries, entered)
  {
    hide ListedInOrder, Observed, Bounded, Charged, SessionAgrees;
    assert s.rounds[i].invocation == i;
    ObservedIs(s.rounds[i], e);
  }

  lemma StagedInOrder(before: Shelf, after: Shelf, entries: map<Invocation, nat>, n: nat, i: Invocation, a: Asked,
                      request: Content, dropped: nat, limits: Limits)
    requires ShelfValid(before, limits) && ShelfValid(after, limits) && i !in before.rounds
    requires InOrder(before, entries, n)
    requires StagedTo(before, after, i, a.session, request, dropped, limits)
    ensures InOrder(after, entries[i := n], n + 1) && OldestWent(before, after, entries[i := n], a.session)
  {
    hide AttributeBytes, Fits, NoneFit, Bounded, Charged;
    if Small(AttributeBytes(request), limits) {
      var r := Round(a.session, i, request, AttributeBytes(request).value, 0, [], []);
      EnteredInOrder(before, r, entries, n);
      RoundsListed(before);
      TrimmedInOrder(before, Entered(before, r), after, entries[i := n], n + 1, a.session, dropped, limits);
    } else {
      RoundsListed(before);
      forall k | k in before.sessions ensures ListedInOrder(before.sessions[k], entries[i := n]) {
        OthersInOrder(before.sessions[k], i, n, entries);
      }
    }
  }

  lemma RoundsListed(s: Shelf)
    requires Agrees(s)
    ensures forall k, i | k in s.sessions && i in s.sessions[k] :: i in s.rounds && s.rounds[i].session == k
    ensures forall i | i in s.rounds :: s.rounds[i].session in s.sessions && i in s.sessions[s.rounds[i].session]
  {
    forall k | k in s.sessions ensures forall i | i in s.sessions[k] :: i in s.rounds && s.rounds[i].session == k {
      assert SessionAgrees(s, k);
    }
  }

  lemma EnteredInOrder(s: Shelf, r: Round, entries: map<Invocation, nat>, n: nat)
    requires Agrees(s) && InOrder(s, entries, n) && r.invocation !in s.rounds
    ensures InOrder(Entered(s, r), entries[r.invocation := n], n + 1)
  {
    RoundsListed(s);
    hide Agrees, ListedInOrder;
    var e := Entered(s, r);
    forall k | k in e.sessions ensures ListedInOrder(e.sessions[k], entries[r.invocation := n]) {
      if k == r.session {
        assert ListedInOrder(ListOf(s, k), entries) by { NothingInOrder(entries); }
        MoreInOrder(ListOf(s, k), r.invocation, n, entries);
      } else {
        OthersInOrder(s.sessions[k], r.invocation, n, entries);
      }
    }
  }

  lemma NothingInOrder(entries: map<Invocation, nat>)
    ensures ListedInOrder([], entries)
  {}

  lemma TrimmedInOrder(before: Shelf, entered: Shelf, after: Shelf, entries: map<Invocation, nat>, n: nat,
                       session: Session, dropped: nat, limits: Limits)
    requires Agrees(after) && InOrder(entered, entries, n) && Dropped(entered, after, session, dropped)
    requires forall i | i in before.rounds :: i in entered.rounds && entered.rounds[i] == before.rounds[i]
    requires forall i | i in entered.sessions[session] :: i in entered.rounds && entered.rounds[i].session == session
    ensures InOrder(after, entries, n)
    ensures OldestWent(before, after, entries, session)
  {
    var order := entered.sessions[session];
    TailInOrder(order, dropped, entries);
    RoundsListed(after);
    hide Agrees;
    forall a, b | a in before.rounds && a !in after.rounds && b in after.rounds && after.rounds[b].session == session
      ensures a in entries && b in entries && entries[a] < entries[b]
    {
      assert a in Elements(order[..dropped]) && b in order[dropped..];
      var m :| 0 <= m < dropped && order[m] == a;
      var l :| 0 <= l < |order[dropped..]| && order[dropped..][l] == b;
      assert order[dropped + l] == b;
    }
    forall k | k in after.sessions ensures ListedInOrder(after.sessions[k], entries) {
      if k != session { ListedBefore(entered, after, k); }
    }
  }

  // What of a round's tool pairs has landed

  datatype ToolEvent =
    | LandedTool(session: Session, invocation: Invocation, size: nat)
    | SessionOver(session: Session)
    | AllOver

  /** The bytes of the pairs that landed last of a session, as long as they are of one
      round. */
  function RoundTotal(log: seq<ToolEvent>, session: Session, invocation: Invocation): nat {
    if log == [] then 0
    else
      var front, last := log[..|log| - 1], log[|log| - 1];
      match last
      case AllOver => 0
      case SessionOver(s) => if s == session then 0 else RoundTotal(front, session, invocation)
      case LandedTool(s, i, size) =>
        if s != session then RoundTotal(front, session, invocation)
        else if i == invocation then RoundTotal(front, session, invocation) + size else 0
  }

  /** What each session's last round has used up is what has landed of it. */
  ghost predicate ToolsAre(rounds: map<Session, (Invocation, nat)>, log: seq<ToolEvent>) {
    forall s, i :: Landed(rounds, s, i) == RoundTotal(log, s, i)
  }

  lemma MoreLanded(rounds: map<Session, (Invocation, nat)>, log: seq<ToolEvent>, session: Session,
                   invocation: Invocation, size: nat)
    requires ToolsAre(rounds, log)
    ensures Landed(rounds, session, invocation) == RoundTotal(log, session, invocation)
    ensures ToolsAre(rounds[session := (invocation, Landed(rounds, session, invocation) + size)],
                     log + [LandedTool(session, invocation, size)])
  {
    assert (log + [LandedTool(session, invocation, size)])[..|log|] == log;
  }

  lemma SessionForgotten(rounds: map<Session, (Invocation, nat)>, log: seq<ToolEvent>, session: Session)
    requires ToolsAre(rounds, log)
    ensures ToolsAre(rounds - {session}, log + [SessionOver(session)])
  {
    assert (log + [SessionOver(session)])[..|log|] == log;
  }

  lemma AllForgotten(log: seq<ToolEvent>)
    ensures ToolsAre(map[], log + [AllOver])
  {}

  // What was asked and heard

  /** A staged round is this question, with this much of its answer. */
  ghost predicate RoundIs(r: Round, a: Asked) {
    && r.session == a.session && r.request == Request(a.system, a.turns, a.tools, a.choice)
    && r.text == TextHeard(a.heard) && r.calls == CallsHeard(a.heard)
  }

  ghost predicate AllAre(rounds: map<Invocation, Round>, asked: map<Invocation, Asked>) {
    forall i | i in rounds :: i in asked && RoundIs(rounds[i], asked[i])
  }

  function Hears(a: Asked, e: Event): Asked { a.(heard := a.heard + [e]) }

  /** A complete round says what was asked and heard. */
  lemma FinalSays(r: Round, a: Asked)
    requires RoundIs(r, a)
    ensures Says(Final(r), a)
  {
    hide Request, Output, Encoded, Says;
    PairSays(a, Encoded(Output(r.text, r.calls)));
  }

  lemma ObservedIsHeard(r: Round, a: Asked, e: Event)
    requires RoundIs(r, a)
    ensures RoundIs(Observed(r, e), Hears(a, e))
  {
    hide Request, TextHeard, CallsHeard;
    HeardMore(a.heard, e);
  }

  lemma ObservedFollows(s: Shelf, asked: map<Invocation, Asked>, i: Invocation, e: Event, limits: Limits)
    requires ShelfValid(s, limits) && AllAre(s.rounds, asked) && i in s.rounds
    ensures var now := asked[i := Hears(asked[i], e)];
      AllAre(Rewritten(s, Observed(s.rounds[i], e)).rounds, now) && AllAre(Removed(s, i).rounds, now)
  {
    hide RoundIs, Observed, Hears, Charged, Bounded, SessionAgrees;
    assert s.rounds[i].invocation == i;
    ObservedIs(s.rounds[i], e);
    ObservedIsHeard(s.rounds[i], asked[i], e);
  }

  lemma RemovedFollows(s: Shelf, asked: map<Invocation, Asked>, i: Invocation)
    requires AllAre(s.rounds, asked) && i in s.rounds
    ensures AllAre(Removed(s, i).rounds, asked)
  {
    hide RoundIs;
  }

  lemma StagedFollows(before: Shelf, after: Shelf, asked: map<Invocation, Asked>, i: Invocation, a: Asked,
                      request: Content, dropped: nat, limits: Limits)
    requires AllAre(before.rounds, asked) && i !in before.rounds && a.heard == []
    requires request == Request(a.system, a.turns, a.tools, a.choice)
    requires StagedTo(before, after, i, a.session, request, dropped, limits)
    ensures AllAre(after.rounds, asked[i := a])
  {
    hide Request, NoneFit;
    if Small(AttributeBytes(request), limits) {
      var r := Round(a.session, i, request, AttributeBytes(request).value, 0, [], []);
      assert RoundIs(r, a);
      hide RoundIs, AttributeBytes;
      var entered := Entered(before, r);
      assert AllAre(entered.rounds, asked[i := a]);
    }
  }

  /** A tool pair's two attributes, by name. */
  ghost predicate ToolSays(content: Content, arguments: Arguments, result: Text) {
    && Named(content, RESULT) == Some(result) && NamesOf(content) == [ARGUMENTS, RESULT]
    && match arguments
       case Raw(t) => Named(content, ARGUMENTS) == Some(t)
       case Parsed(v) => Readable(v) ==> Reads(content, ARGUMENTS, MergedValue(v))
  }

  lemma ToolPairSays(arguments: Arguments, result: Text)
    ensures ToolSays(ToolPair(arguments, result), arguments, result) && ToolPair(arguments, result) != []
  {
    hide Encoded, Read, MergedValue, Readable;
    var a, b := (ARGUMENTS, Spelling(arguments)), (RESULT, result);
    NamedCons(b, []);
    NamedCons(a, [b]);
    assert [a] + [b] == [a, b] && [b] + [] == [b];
    if arguments.Parsed? && Readable(arguments.object_) { ReadsBack(arguments.object_); }
  }

  /** A tool call's arguments, parsed or not. */
  datatype Arguments = Raw(text: Text) | Parsed(object_: Value)

  const ARGUMENTS := "gen_ai.tool.call.arguments"
  const RESULT := "gen_ai.tool.call.result"

  function ToolPair(arguments: Arguments, result: Text): Content {
    [(ARGUMENTS, Spelling(arguments)), (RESULT, result)]
  }

  function Spelling(a: Arguments): Text {
    match a case Raw(t) => t case Parsed(v) => Encoded(v)
  }

  /** What of this round's tool pairs has landed so far: a pair of another round
      means that round is over. */
  function Landed(rounds: map<Session, (Invocation, nat)>, session: Session, invocation: Invocation): nat {
    if session in rounds && rounds[session].0 == invocation then rounds[session].1 else 0
  }

  function Rewritten(s: Shelf, r: Round): Shelf {
    s.(rounds := s.rounds[r.invocation := r])
  }

  /** What the staging maps keep between calls. */
  ghost predicate ShelfValid(s: Shelf, limits: Limits) {
    && Agrees(s) && Bounded(s, limits)
    && forall i | i in s.rounds :: Charged(s.rounds[i], limits)
  }

  lemma RewriteKeeps(s: Shelf, i: Invocation, e: Event, limits: Limits)
    requires ShelfValid(s, limits) && i in s.rounds
    requires Keeps(s.rounds[i], e, limits) && (e.Call? ==> Spelled(e.call))
    ensures var n := Rewritten(s, Observed(s.rounds[i], e));
      ShelfValid(n, limits) && |n.rounds| == |s.rounds|
  {
    var r := s.rounds[i];
    assert r.invocation == i;
    ObservedIs(r, e);
    ObservedCharged(r, e, limits);
    OneRewritten(s, Observed(r, e), limits);
  }

  lemma OneRewritten(s: Shelf, r: Round, limits: Limits)
    requires ShelfValid(s, limits) && r.invocation in s.rounds && Charged(r, limits)
    requires r.size == s.rounds[r.invocation].size && r.session == s.rounds[r.invocation].session
    ensures ShelfValid(Rewritten(s, r), limits) && |Rewritten(s, r).rounds| == |s.rounds|
  {
    hide Charged, Agrees, Bounded;
    RewriteAgrees(s, r, limits);
  }

  lemma FinalNonempty(r: Round)
    ensures Final(r) != []
  {}

  lemma ObservedIs(r: Round, e: Event)
    ensures var n := Observed(r, e);
      n.invocation == r.invocation && n.session == r.session && n.size == r.size
  {}

  lemma NothingListed(s: Shelf, session: Session, limits: Limits)
    requires ShelfValid(s, limits) && ListOf(s, session) == []
    ensures session !in s.sessions
  {
    assert session in s.sessions ==> SessionAgrees(s, session);
  }

  lemma RemoveKeeps(s: Shelf, i: Invocation, limits: Limits)
    requires ShelfValid(s, limits) && i in s.rounds
    ensures ShelfValid(Removed(s, i), limits) && Agrees(s)
  {
    RemoveAgrees(s, i);
    RemoveBounded(s, i, limits);
  }

  lemma RemoveFirst(s: Shelf, session: Session, limits: Limits)
    requires ShelfValid(s, limits) && ListOf(s, session) != []
    ensures var i := ListOf(s, session)[0];
      && i in s.rounds
      && ShelfValid(Removed(s, i), limits)
      && ListOf(Removed(s, i), session) == ListOf(s, session)[1..]
      && Removed(s, i).sessions.Keys <= s.sessions.Keys && Removed(s, i).rounds.Keys <= s.rounds.Keys
    ensures Agrees(s)
  {
    var i := ListOf(s, session)[0];
    assert SessionAgrees(s, session);
    assert i in s.sessions[session];
    WithoutHead(ListOf(s, session));
    hide Without;
    RemoveAgrees(s, i);
    RemoveKeeps(s, i, limits);
  }

  lemma RewriteSession(s: Shelf, r: Round, k: Session, limits: Limits)
    requires Agrees(s) && Bounded(s, limits) && r.invocation in s.rounds && k in s.sessions
    requires r.size == s.rounds[r.invocation].size && r.session == s.rounds[r.invocation].session
    ensures var n := Rewritten(s, r); SessionAgrees(n, k) && Fits(n.sessions[k], n.rounds, limits)
  {
    var n := Rewritten(s, r);
    assert SessionAgrees(s, k) && Fits(s.sessions[k], s.rounds, limits);
    SumSame(s.sessions[k], s.rounds, n.rounds);
  }

  lemma RewriteAgrees(s: Shelf, r: Round, limits: Limits)
    requires Agrees(s) && Bounded(s, limits) && r.invocation in s.rounds
    requires r.size == s.rounds[r.invocation].size && r.session == s.rounds[r.invocation].session
    ensures Agrees(Rewritten(s, r)) && Bounded(Rewritten(s, r), limits)
    ensures |Rewritten(s, r).rounds| == |s.rounds|
  {
    hide SessionAgrees, Fits;
    var n := Rewritten(s, r);
    forall k | k in n.sessions ensures SessionAgrees(n, k) && Fits(n.sessions[k], n.rounds, limits) {
      RewriteSession(s, r, k, limits);
    }
    assert n.rounds.Keys == s.rounds.Keys;
    assert |n.rounds.Keys| == |n.rounds| && |s.rounds.Keys| == |s.rounds|;
  }

  lemma RemoveBounded(s: Shelf, i: Invocation, limits: Limits)
    requires Agrees(s) && Bounded(s, limits) && i in s.rounds
    ensures Bounded(Removed(s, i), limits)
  {
    RemoveAgrees(s, i);
    var n, session := Removed(s, i), s.rounds[i].session;
    forall k | k in n.sessions ensures Fits(n.sessions[k], n.rounds, limits) {
      assert SessionAgrees(n, k);
      assert k in s.sessions && SessionAgrees(s, k) && Fits(s.sessions[k], s.rounds, limits);
      if k == session {
        WithoutFacts(s.sessions[k], i, s.rounds);
        assert n.sessions[k] == ListOf(n, k);
      } else {
        assert n.sessions[k] == ListOf(n, k) == ListOf(s, k);
        assert HeldBy(n, k) == HeldBy(s, k);
      }
    }
  }

  predicate Over(s: Shelf, session: Session, limits: Limits)
    requires session in s.sessions
  {
    (if session in s.held then s.held[session] else 0) > limits.budget || |s.sessions[session]| > limits.rounds
  }

  ghost predicate NoneFit(entered: Shelf, session: Session, n: nat, limits: Limits)
    requires session in entered.sessions && n <= |entered.sessions[session]|
  {
    forall m | 0 <= m < n :: !Fits(entered.sessions[session][m..], entered.rounds, limits)
  }

  lemma DropOneMore(entered: Shelf, s: Shelf, session: Session, n: nat, limits: Limits)
    requires Agrees(entered) && Agrees(s) && Dropped(entered, s, session, n) && NoneFit(entered, session, n, limits)
    requires session in s.sessions && Over(s, session, limits)
    ensures n < |entered.sessions[session]| && s.sessions[session] != []
    ensures s.sessions[session][0] in s.rounds
    ensures Dropped(entered, Removed(s, s.sessions[session][0]), session, n + 1)
    ensures NoneFit(entered, session, n + 1, limits)
  {
    assert SessionAgrees(s, session);
    HeldIsSum(entered, s, session, n);
    DropOne(entered, s, session, n);
  }

  lemma AllTrimmed(entered: Shelf, s: Shelf, session: Session, n: nat, limits: Limits)
    requires Agrees(entered) && Agrees(s) && Dropped(entered, s, session, n) && NoneFit(entered, session, n, limits)
    requires session in s.sessions ==> !Over(s, session, limits)
    ensures Trimmed(entered, s, session, n, limits)
  {
    HeldIsSum(entered, s, session, n);
    if session in s.sessions { assert SessionAgrees(s, session); }
  }

  predicate Small(size: Option<nat>, limits: Limits) {
    size.Some? && size.value <= limits.content
  }

  /** The first `n` rounds of one session taken out, and nothing else touched. */
  ghost predicate Dropped(entered: Shelf, s: Shelf, session: Session, n: nat) {
    && session in entered.sessions && n <= |entered.sessions[session]|
    && ListOf(s, session) == entered.sessions[session][n..]
    && s.rounds == entered.rounds - Elements(entered.sessions[session][..n])
    && (forall k | k != session :: ListOf(s, k) == ListOf(entered, k) && HeldBy(s, k) == HeldBy(entered, k))
  }

  /** As few rounds taken out as leave both bounds met. */
  ghost predicate Trimmed(entered: Shelf, s: Shelf, session: Session, n: nat, limits: Limits) {
    && Dropped(entered, s, session, n)
    && Fits(entered.sessions[session][n..], entered.rounds, limits)
    && NoneFit(entered, session, n, limits)
  }

  lemma StartDropped(s: Shelf, session: Session)
    requires session in s.sessions
    ensures Dropped(s, s, session, 0)
  {
    assert Elements(s.sessions[session][..0]) == {};
    assert s.rounds - {} == s.rounds;
  }

  lemma HeldIsSum(entered: Shelf, s: Shelf, session: Session, n: nat)
    requires Agrees(entered) && Agrees(s) && Dropped(entered, s, session, n)
    ensures session in s.sessions ==> s.held[session] == Sum(entered.sessions[session][n..], entered.rounds)
    ensures session !in s.sessions ==> entered.sessions[session][n..] == []
  {
    if session in s.sessions {
      assert SessionAgrees(s, session);
      var left := entered.sessions[session][n..];
      SumSame(left, s.rounds, entered.rounds);
    }
  }

  /** Taking the oldest of what is left takes one more of the first ones. */
  lemma DropOne(entered: Shelf, s: Shelf, session: Session, n: nat)
    requires Agrees(entered) && Agrees(s) && Dropped(entered, s, session, n) && session in s.sessions
    ensures n < |entered.sessions[session]| && s.sessions[session] != []
    ensures s.sessions[session][0] in s.rounds
    ensures Dropped(entered, Removed(s, s.sessions[session][0]), session, n + 1)
  {
    assert SessionAgrees(s, session);
    var whole, order := entered.sessions[session], s.sessions[session];
    assert order[0] in order && order[0] == whole[n] && s.rounds[order[0]].session == session;
    RemoveAgrees(s, order[0]);
    WithoutHead(order);
    hide Without, Agrees, SessionAgrees;
    assert order[1..] == whole[n + 1..];
    FirstOnes(whole, n);
    assert s.rounds - {order[0]} == entered.rounds - Elements(whole[..n + 1]);
  }

  lemma FirstOnes(whole: seq<Invocation>, n: nat)
    requires n < |whole|
    ensures Elements(whole[..n + 1]) == Elements(whole[..n]) + {whole[n]}
  {
    assert whole[..n + 1] == whole[..n] + [whole[n]];
  }

  lemma SameListFits(a: Shelf, b: Shelf, k: Session, limits: Limits)
    requires k in a.sessions && k in b.sessions && SessionAgrees(a, k) && SessionAgrees(b, k)
    requires a.sessions[k] == b.sessions[k] && a.held[k] == b.held[k]
    ensures Fits(a.sessions[k], a.rounds, limits) <==> Fits(b.sessions[k], b.rounds, limits)
  {}

  lemma StaysBounded(before: Shelf, entered: Shelf, s: Shelf, session: Session, n: nat, r: Round, limits: Limits)
    requires Agrees(before) && Bounded(before, limits) && Agrees(entered) && Agrees(s)
    requires r.session == session && entered == Entered(before, r)
    requires Trimmed(entered, s, session, n, limits)
    ensures Bounded(s, limits)
  {
    forall k | k in s.sessions ensures Fits(s.sessions[k], s.rounds, limits) {
      hide Agrees, Bounded, Fits, NoneFit, Elements;
      if k == session { OwnFits(entered, s, k, n, limits); } else { OtherFits(before, entered, s, k, limits); }
    }
  }

  lemma OwnFits(entered: Shelf, s: Shelf, session: Session, n: nat, limits: Limits)
    requires Agrees(entered) && Agrees(s) && Trimmed(entered, s, session, n, limits) && session in s.sessions
    ensures Fits(s.sessions[session], s.rounds, limits)
  {
    assert SessionAgrees(s, session);
    HeldIsSum(entered, s, session, n);
  }

  lemma OtherFits(before: Shelf, entered: Shelf, s: Shelf, k: Session, limits: Limits)
    requires Agrees(before) && Bounded(before, limits) && Agrees(s) && k in s.sessions
    requires ListOf(s, k) == ListOf(entered, k) == ListOf(before, k)
    requires HeldBy(s, k) == HeldBy(entered, k) == HeldBy(before, k)
    ensures Fits(s.sessions[k], s.rounds, limits)
  {
    assert SessionAgrees(s, k);
    assert k in before.sessions && SessionAgrees(before, k);
    SameListFits(before, s, k, limits);
  }

  lemma StaysValid(before: Shelf, entered: Shelf, s: Shelf, session: Session, n: nat, r: Round, limits: Limits)
    requires ShelfValid(before, limits) && Charged(r, limits) && Agrees(entered) && Agrees(s)
    requires r.session == session && entered == Entered(before, r)
    requires Trimmed(entered, s, session, n, limits)
    ensures ShelfValid(s, limits)
  {
    hide Agrees, Charged, Fits, NoneFit;
    StaysBounded(before, entered, s, session, n, r, limits);
  }

  lemma MoreRounds(rounds: map<Invocation, Round>, r: Round)
    requires r.invocation !in rounds
    ensures |rounds[r.invocation := r]| == |rounds| + 1
  {
    assert rounds[r.invocation := r].Keys == rounds.Keys + {r.invocation};
    assert |rounds.Keys| == |rounds| && |rounds[r.invocation := r].Keys| == |rounds[r.invocation := r]|;
  }

  lemma RemovedRounds(s: Shelf, i: Invocation)
    requires i in s.rounds
    ensures |Removed(s, i).rounds| == |s.rounds| - 1
  {
    FewerRounds(s.rounds, i);
  }

  lemma FewerRounds(rounds: map<Invocation, Round>, i: Invocation)
    requires i in rounds
    ensures |rounds - {i}| == |rounds| - 1
  {
    assert (rounds - {i}).Keys == rounds.Keys - {i};
    assert |rounds.Keys| == |rounds| && |(rounds - {i}).Keys| == |rounds - {i}|;
  }
}
