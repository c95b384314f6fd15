/**
  What each event does to the spans, read off the events before it: whether its session is
  open, whether it is in a turn and which one, what that turn has had so far. Nothing here
  looks at a trace's own state.
*/
module TraceEvents {
  import opened Wrappers
  import opened TraceFold

  /** The last of these inputs is this session's, and this is what it says. */
  function LastOf(inputs: seq<Input>, s: string): Option<Event> {
    if inputs == [] then None
    else match inputs[|inputs| - 1]
      case Registered => None
      case Emitted(o, e, _) => if o == s then Some(e) else None
  }

  function Earlier(inputs: seq<Input>): seq<Input> {
    if inputs == [] then [] else inputs[..|inputs| - 1]
  }

  predicate OpensSession(inputs: seq<Input>, s: string) {
    LastOf(inputs, s) == Some(SessionOpen) && !Live(Earlier(inputs), s)
  }

  predicate OpensTurn(inputs: seq<Input>, s: string) {
    LastOf(inputs, s).Some? && LastOf(inputs, s).value.TurnStarted? && Live(Earlier(inputs), s)
    && !InTurn(Earlier(inputs), s)
  }

  /** What the turn the session is in was said to answer. */
  function UtteranceOf(inputs: seq<Input>, s: string): Option<string> {
    if inputs == [] then None
    else if OpensTurn(inputs, s) then LastOf(inputs, s).value.utterance
    else UtteranceOf(Earlier(inputs), s)
  }

  predicate SaysAsr(e: Event) {
    e.AsrOutcome? || (e.ProviderFailed? && e.stage == Asr)
  }

  /** Its turn has had a transcription, failed or not. */
  predicate HadAsr(inputs: seq<Input>, s: string) {
    inputs != [] && !OpensTurn(inputs, s)
    && ((LastOf(inputs, s).Some? && SaysAsr(LastOf(inputs, s).value) && InTurn(Earlier(inputs), s))
        || HadAsr(Earlier(inputs), s))
  }

  /** Its reply is being played back: playback started within a turn, and since then has
      not finished, nor has another turn begun or the session ended. */
  predicate Speaking(inputs: seq<Input>, s: string) {
    inputs != [] &&
    match LastOf(inputs, s)
    case Some(SpeakingStarted) => Speaking(Earlier(inputs), s) || InTurn(Earlier(inputs), s)
    case Some(SpeakingFinished) => false
    case Some(SessionClosed) => false
    case _ => Speaking(Earlier(inputs), s) && !OpensTurn(inputs, s)
  }

  predicate OpensPlayback(inputs: seq<Input>, s: string) {
    LastOf(inputs, s) == Some(SpeakingStarted) && InTurn(Earlier(inputs), s) && !Speaking(Earlier(inputs), s)
  }

  /** A turn has been started within another since the session opened. */
  predicate Reported(inputs: seq<Input>, s: string) {
    inputs != [] && !OpensSession(inputs, s)
    && ((LastOf(inputs, s).Some? && LastOf(inputs, s).value.TurnStarted? && InTurn(Earlier(inputs), s))
        || Reported(Earlier(inputs), s))
  }

  /** Which span each of these events made: the one behind all there were. */
  ghost function SessionId(inputs: seq<Input>, s: string): nat {
    if inputs == [] then 0
    else if OpensSession(inputs, s) then |Run(Earlier(inputs)).spans| else SessionId(Earlier(inputs), s)
  }

  ghost function TurnId(inputs: seq<Input>, s: string): nat {
    if inputs == [] then 0
    else if OpensTurn(inputs, s) then |Run(Earlier(inputs)).spans| else TurnId(Earlier(inputs), s)
  }

  ghost function PlaybackId(inputs: seq<Input>, s: string): nat {
    if inputs == [] then 0
    else if OpensPlayback(inputs, s) then |Run(Earlier(inputs)).spans| else PlaybackId(Earlier(inputs), s)
  }

  /** A session's trace is what its events say. */
  ghost predicate Said(t: Trace, inputs: seq<Input>, s: string) {
    && t.span == SessionId(inputs, s)
    && t.turn == (if InTurn(inputs, s) then Some(TurnId(inputs, s)) else None)
    && t.utterance == (if InTurn(inputs, s) then UtteranceOf(inputs, s) else None)
    && (InTurn(inputs, s) ==> (t.transcribed <==> HadAsr(inputs, s)))
    && t.playback == (if Speaking(inputs, s) then Some(PlaybackId(inputs, s)) else None)
    && (t.reported <==> Reported(inputs, s))
  }

  ghost predicate AllSaid(x: Exporter, inputs: seq<Input>, s: string) {
    && (s in x.sessions <==> Live(inputs, s))
    && (InTurn(inputs, s) || Speaking(inputs, s) ==> Live(inputs, s))
    && (s in x.sessions ==> Said(x.sessions[s], inputs, s))
  }

  /** One event of the session, on its trace. */
  ghost predicate TurnMoves(t: Trace, t': Trace, e: Event, made: nat) {
    && t'.span == t.span
    && t'.turn == (if e.TurnStarted? && t.turn == None then Some(made) else if e.ReplyFinished? then None else t.turn)
    && t'.utterance == (if e.TurnStarted? && t.turn == None then e.utterance
                        else if e.ReplyFinished? && t.turn.Some? then None else t.utterance)
  }

  ghost predicate RestMoves(t: Trace, t': Trace, e: Event, made: nat) {
    && t'.transcribed == (if e.TurnStarted? && t.turn == None then false
                          else t.transcribed || (SaysAsr(e) && t.turn.Some?))
    && t'.playback == (if (e.TurnStarted? && t.turn == None) || e.SpeakingFinished? then None
                       else if e.SpeakingStarted? && t.turn.Some? && t.playback == None then Some(made)
                       else t.playback)
    && t'.reported == (t.reported || (e.TurnStarted? && t.turn.Some?))
  }

  lemma NextMovesTurn(x: Exporter, s: string, e: Event, at: int)
    requires Placed(x) && s in x.sessions && !e.SessionClosed?
    ensures var x' := Next(x, s, e, at);
      s in x'.sessions && TurnMoves(x.sessions[s], x'.sessions[s], e, |x.spans|)
  {
    hide Within, TraceFold.Before;
  }

  lemma NextMovesRest(x: Exporter, s: string, e: Event, at: int)
    requires Placed(x) && s in x.sessions && !e.SessionClosed?
    ensures var x' := Next(x, s, e, at);
      s in x'.sessions && RestMoves(x.sessions[s], x'.sessions[s], e, |x.spans|)
  {
    hide Within, TraceFold.Before;
  }

  lemma NextOpens(x: Exporter, s: string, e: Event, at: int)
    requires Placed(x) && s !in x.sessions
    ensures var x' := Next(x, s, e, at);
      && (s in x'.sessions <==> e.SessionOpen?)
      && (e.SessionOpen? ==> x'.sessions[s] == Trace(|x.spans|, None, None, false, None, 0, false, []))
  {
    hide Within, Before;
  }

  lemma LastIs(front: seq<Input>, i: Input, s: string)
    ensures Earlier(front + [i]) == front
    ensures LastOf(front + [i], s) == if i.Emitted? && i.session == s then Some(i.event) else None
  {
    assert (front + [i])[..|front|] == front;
  }

  /** And on what the events say. */
  lemma MoreIsSaid(inputs: seq<Input>, s: string, e: Event, at: int)
    ensures var all, opens := inputs + [Emitted(s, e, at)], e.TurnStarted? && Live(inputs, s) && !InTurn(inputs, s);
      && UtteranceOf(all, s) == (if opens then e.utterance else UtteranceOf(inputs, s))
      && HadAsr(all, s) == (!opens && ((SaysAsr(e) && InTurn(inputs, s)) || HadAsr(inputs, s)))
      && Reported(all, s) == (!(e.SessionOpen? && !Live(inputs, s))
                              && ((e.TurnStarted? && InTurn(inputs, s)) || Reported(inputs, s)))
      && Speaking(all, s) == (if e.SpeakingStarted? then Speaking(inputs, s) || InTurn(inputs, s)
                              else Speaking(inputs, s) && !e.SpeakingFinished? && !e.SessionClosed? && !opens)
  {
    LastIs(inputs, Emitted(s, e, at), s);
    hide Run, Live, InTurn, LastOf, Earlier;
  }

  lemma MoreIds(inputs: seq<Input>, s: string, e: Event, at: int)
    ensures var all, n := inputs + [Emitted(s, e, at)], |Run(inputs).spans|;
      && SessionId(all, s) == (if e.SessionOpen? && !Live(inputs, s) then n else SessionId(inputs, s))
      && TurnId(all, s) == (if e.TurnStarted? && Live(inputs, s) && !InTurn(inputs, s) then n else TurnId(inputs, s))
      && PlaybackId(all, s)
         == (if e.SpeakingStarted? && InTurn(inputs, s) && !Speaking(inputs, s) then n else PlaybackId(inputs, s))
  {
    LastIs(inputs, Emitted(s, e, at), s);
    hide Run, Live, InTurn, LastOf, Earlier, Speaking;
  }

  lemma OwnSaid(inputs: seq<Input>, s: string, e: Event, at: int)
    requires Placed(Run(inputs)) && AllSaid(Run(inputs), inputs, s)
    ensures AllSaid(Next(Run(inputs), s, e, at), inputs + [Emitted(s, e, at)], s)
  {
    hide Run, Next, Placed, Live, InTurn, Since, UtteranceOf, HadAsr, Reported, Speaking, SessionId, TurnId, PlaybackId,
         SaysAsr;
    var x := Run(inputs);
    LastSays(inputs, s, e, at);
    NextTrace(x, s, e, at);
    MoreIsSaid(inputs, s, e, at);
    MoreIds(inputs, s, e, at);
    if s in x.sessions && !e.SessionClosed? {
      NextMovesTurn(x, s, e, at);
      NextMovesRest(x, s, e, at);
    } else if s !in x.sessions {
      NextOpens(x, s, e, at);
    }
  }

  lemma OtherSaid(x: Exporter, x': Exporter, inputs: seq<Input>, i: Input, s: string)
    requires AllSaid(x, inputs, s) && (i.Emitted? ==> i.session != s)
    requires (s in x'.sessions <==> s in x.sessions) && (s in x.sessions ==> x'.sessions[s] == x.sessions[s])
    ensures AllSaid(x', inputs + [i], s)
  {
    LastIs(inputs, i, s);
    assert (inputs + [i])[..|inputs|] == inputs;
    assert Live(inputs + [i], s) == Live(inputs, s) && InTurn(inputs + [i], s) == InTurn(inputs, s);
    hide Run, Live, InTurn, LastOf, Earlier;
  }

  lemma RunMore(inputs: seq<Input>, i: Input)
    ensures Placed(Run(inputs)) && Run(inputs + [i]) == Taken(Run(inputs), i)
  {
    assert (inputs + [i])[..|inputs|] == inputs;
    InvPlaced(Run(inputs));
  }

  /** Over every input, of every session. */
  lemma {:induction false} StateIsSaid(inputs: seq<Input>, s: string)
    ensures AllSaid(Run(inputs), inputs, s)
    ensures Run(inputs).deferring <==> Registered in inputs
  {
    hide Inv, Placed, Next, AllSaid;
    if inputs == [] {
      NothingSaid(s);
    } else {
      var front, i := inputs[..|inputs| - 1], inputs[|inputs| - 1];
      assert inputs == front + [i];
      StateIsSaid(front, s);
      RunMore(front, i);
      var x := Run(front);
      hide Run;
      match i
      case Registered => OtherSaid(x, Taken(x, i), front, i, s);
      case Emitted(o, e, at) =>
        DeferringStays(x, o, e, at);
        if o == s {
          OwnSaid(front, s, e, at);
        } else {
          OthersAreUntouched(x, o, e, at, s);
          OtherSaid(x, Taken(x, i), front, i, s);
        }
    }
  }

  lemma NothingSaid(s: string)
    ensures AllSaid(Run([]), [], s) && !Run([]).deferring
  {}

  lemma DeferringStays(x: Exporter, s: string, e: Event, at: int)
    requires Placed(x)
    ensures Next(x, s, e, at).deferring == x.deferring
  {
    hide Within, Before;
  }

  // What one more event does

  /** What a stage's span goes under: the turn the session is in, or else the session. */
  ghost function Home(inputs: seq<Input>, s: string): nat {
    if InTurn(inputs, s) then TurnId(inputs, s) else SessionId(inputs, s)
  }

  predicate Same(x: Exporter, x': Exporter) { x'.spans == x.spans && x'.handed == x.handed }

  predicate Adds(x: Exporter, x': Exporter, span: Span) { x'.spans == x.spans + [span] && x'.handed == x.handed }

  /** One span changes, as `becomes` says, and no other. */
  predicate Changes(x: Exporter, x': Exporter, id: nat, becomes: Span) {
    && id < |x.spans| == |x'.spans| && x'.handed == x.handed && x'.spans[id] == becomes
    && forall i | 0 <= i < |x.spans| && i != id :: x'.spans[i] == x.spans[i]
  }

  predicate Ends(x: Exporter, x': Exporter, id: nat, at: int) {
    id < |x.spans| && Changes(x, x', id, x.spans[id].(ends := x.spans[id].ends + [at]))
  }

  predicate Notes(x: Exporter, x': Exporter, id: nat, at: int) {
    id < |x.spans| && Changes(x, x', id, x.spans[id].(notes := x.spans[id].notes + [at]))
  }

  /** A stage that ran for `length` up to `at`, over as soon as it is known. */
  ghost predicate AddsStage(x: Exporter, x': Exporter, inputs: seq<Input>, s: string, kind: Kind, failed: bool, at: int,
                            length: Option<int>) {
    var start := match length case None => at case Some(n) => at - n;
    Adds(x, x', Span(kind, s, Some(Home(inputs, s)), None, start, [at], failed, []))
  }

  /** Of a session that is open, each event in terms of those before it. */
  ghost predicate Does(x: Exporter, x': Exporter, inputs: seq<Input>, s: string, e: Event, at: int) {
    var home, turn := Home(inputs, s), InTurn(inputs, s);
    match e
    case SessionOpen => Same(x, x')
    case SessionClosed => Ends(x, x', SessionId(inputs, s), at)
    case TurnStarted(_) =>
      if turn then Same(x, x') && x'.warnings == x.warnings + (if Reported(inputs, s) then 0 else 1)
      else Adds(x, x', Span(TurnSpan, s, None, Some(SessionId(inputs, s)), at, [], false, []))
    case ReplyFinished =>
      if !turn then Same(x, x')
      else if Registered !in inputs || UtteranceOf(inputs, s) == None then Ends(x, x', home, at)
      else x'.spans == x.spans && x'.handed == x.handed + [Handed(s, UtteranceOf(inputs, s).value, home, at)]
    case AsrOutcome(length) =>
      if turn && HadAsr(inputs, s) then Notes(x, x', home, at)
      else AddsStage(x, x', inputs, s, AsrSpan, false, at, length)
    case ProviderFailed(stage, length) =>
      (match stage
       case Asr => AddsStage(x, x', inputs, s, AsrSpan, true, at, length)
       case Llm => AddsStage(x, x', inputs, s, LlmSpan, true, at, length)
       case Tts => AddsStage(x, x', inputs, s, TtsSpan, true, at, length)
       case Unknown => Notes(x, x', home, at))
    case LlmRound(length) => AddsStage(x, x', inputs, s, LlmSpan, false, at, length)
    case ToolCall(length, isError) => AddsStage(x, x', inputs, s, ToolSpan, isError, at, length)
    case SentenceSynthesized(length) =>
      if Awaiting(DrainsOf(inputs[Since(inputs, s)..], s)) > 0 then Same(x, x')
      else AddsStage(x, x', inputs, s, TtsSpan, false, at, length)
    case SpeakingStarted =>
      if turn && !Speaking(inputs, s) then Adds(x, x', Span(PlaybackSpan, s, Some(home), None, at, [], false, []))
      else Notes(x, x', home, at)
    case SpeakingFinished =>
      if Speaking(inputs, s) then Ends(x, x', PlaybackId(inputs, s), at) else Notes(x, x', home, at)
    case Other => Notes(x, x', home, at)
  }

  /** What the trace of an open session comes to: every field an event is folded by. */
  ghost predicate Stands(x: Exporter, inputs: seq<Input>, s: string) {
    && s in x.sessions && Said(x.sessions[s], inputs, s)
    && (x.deferring <==> Registered in inputs)
    && x.sessions[s].awaiting == Awaiting(DrainsOf(inputs[Since(inputs, s)..], s))
  }

  lemma LiveStands(inputs: seq<Input>, s: string)
    requires Live(inputs, s)
    ensures Placed(Run(inputs)) && Stands(Run(inputs), inputs, s)
  {
    var x := Run(inputs);
    InvPlaced(x);
    StateIsSaid(inputs, s);
    TraceFollowsEvents(inputs, s);
    assert TraceOk(x, s);
    hide Run, Live, InTurn, Since, FateOk, AsrOk, HandedOk, ParentsOk, DrainsOf, Awaiting, Said, Placed;
  }

  lemma TurnDoes(x: Exporter, inputs: seq<Input>, s: string, e: Event, at: int)
    requires Placed(x) && Stands(x, inputs, s)
    requires e.SessionOpen? || e.SessionClosed? || e.TurnStarted? || e.ReplyFinished?
    ensures Does(x, Next(x, s, e, at), inputs, s, e, at)
  {
    hide InTurn, UtteranceOf, HadAsr, Speaking, SessionId, TurnId, PlaybackId, Awaiting, DrainsOf, Since;
  }

  lemma PlaybackDoes(x: Exporter, inputs: seq<Input>, s: string, e: Event, at: int)
    requires Placed(x) && Stands(x, inputs, s) && (e.SpeakingStarted? || e.SpeakingFinished? || e.Other?)
    ensures Does(x, Next(x, s, e, at), inputs, s, e, at)
  {
    hide InTurn, UtteranceOf, HadAsr, Speaking, SessionId, TurnId, PlaybackId, Awaiting, DrainsOf, Since;
  }

  lemma FailureDoes(x: Exporter, inputs: seq<Input>, s: string, e: Event, at: int)
    requires Placed(x) && Stands(x, inputs, s) && e.ProviderFailed?
    ensures Does(x, Next(x, s, e, at), inputs, s, e, at)
  {
    hide InTurn, UtteranceOf, HadAsr, Speaking, SessionId, TurnId, PlaybackId, Awaiting, DrainsOf, Since, Reported,
         OpenSession, CloseSession, OpenTurn, CloseTurn, OpenPlayback, ClosePlayback, StreamEnded;
  }

  lemma AsrDoes(x: Exporter, inputs: seq<Input>, s: string, e: Event, at: int)
    requires Placed(x) && Stands(x, inputs, s) && e.AsrOutcome?
    ensures Does(x, Next(x, s, e, at), inputs, s, e, at)
  {
    hide InTurn, UtteranceOf, HadAsr, Speaking, SessionId, TurnId, PlaybackId, Awaiting, DrainsOf, Since, Reported,
         OpenSession, CloseSession, OpenTurn, CloseTurn, OpenPlayback, ClosePlayback, StreamEnded, Failed;
  }

  lemma StageDoes(x: Exporter, inputs: seq<Input>, s: string, e: Event, at: int)
    requires Placed(x) && Stands(x, inputs, s) && (e.LlmRound? || e.ToolCall? || e.SentenceSynthesized?)
    ensures Does(x, Next(x, s, e, at), inputs, s, e, at)
  {
    hide InTurn, UtteranceOf, HadAsr, Speaking, SessionId, TurnId, PlaybackId, Awaiting, DrainsOf, Since, Reported,
         OpenSession, CloseSession, OpenTurn, CloseTurn, OpenPlayback, ClosePlayback, Failed, AsrEnded;
  }

  lemma LiveDoes(inputs: seq<Input>, s: string, e: Event, at: int)
    requires Live(inputs, s) && Placed(Run(inputs))
    ensures Does(Run(inputs), Next(Run(inputs), s, e, at), inputs, s, e, at)
  {
    hide Does, Next, Run, Stands, Placed;
    LiveStands(inputs, s);
    var x := Run(inputs);
    match e
    case SessionOpen | SessionClosed | TurnStarted(_) | ReplyFinished => TurnDoes(x, inputs, s, e, at);
    case SpeakingStarted | SpeakingFinished | Other => PlaybackDoes(x, inputs, s, e, at);
    case ProviderFailed(_, _) => FailureDoes(x, inputs, s, e, at);
    case AsrOutcome(_) => AsrDoes(x, inputs, s, e, at);
    case _ => StageDoes(x, inputs, s, e, at);
  }

  /** Over every input: what one more event of a session does to the spans is read off the
      events before it. A session that is not open is opened by its first event of that
      kind, and nothing else is said of it. */
  lemma EachEventDoes(inputs: seq<Input>, s: string, e: Event, at: int)
    ensures var x, x' := Run(inputs), Run(inputs + [Emitted(s, e, at)]);
      && (Live(inputs, s) ==> Does(x, x', inputs, s, e, at))
      && (!Live(inputs, s) && e.SessionOpen? ==> Adds(x, x', Span(SessionSpan, s, None, None, at, [], false, [])))
      && (!Live(inputs, s) && !e.SessionOpen? ==> Same(x, x'))
  {
    hide Does, Run, Inv, Placed;
    RunMore(inputs, Emitted(s, e, at));
    if Live(inputs, s) {
      LiveDoes(inputs, s, e, at);
    } else {
      StateIsSaid(inputs, s);
      assert s !in Run(inputs).sessions;
      hide Within, Before;
    }
  }

  /** What becomes of a turn's span when its reply is finished: with no collaborator
      registered by then, or no utterance to settle it under, it gets its one end there;
      otherwise it is handed over, once, with that utterance and that end, and gets none. */
  lemma FinishedTurn(inputs: seq<Input>, s: string, at: int)
    requires InTurn(inputs, s)
    ensures var x, x' := Run(inputs), Run(inputs + [Emitted(s, ReplyFinished, at)]);
      var id, u := TurnId(inputs, s), UtteranceOf(inputs, s);
      && id < |x.spans| == |x'.spans| && x.spans[id].kind == TurnSpan && x.spans[id].session == s && !IsHanded(x, id)
      && (Registered !in inputs || u == None ==> x'.spans[id].ends == [at] && x'.handed == x.handed)
      && (Registered in inputs && u.Some? ==>
            x'.spans[id].ends == [] && x'.handed == x.handed + [Handed(s, u.value, id, at)])
  {
    var x := Run(inputs);
    TraceFollowsEvents(inputs, s);
    StateIsSaid(inputs, s);
    EachEventDoes(inputs, s, ReplyFinished, at);
    OpenTurnIs(x, s);
    hide Run, Live, InTurn, UtteranceOf, TurnId, SessionId;
  }

  lemma OpenTurnIs(x: Exporter, s: string)
    requires Inv(x) && s in x.sessions && x.sessions[s].turn.Some?
    ensures var id := x.sessions[s].turn.value;
      id < |x.spans| && x.spans[id].kind == TurnSpan && x.spans[id].session == s && x.spans[id].ends == []
      && !IsHanded(x, id)
  {
    assert TraceOk(x, s);
    var id := x.sessions[s].turn.value;
    assert IsOpen(x, id) && FateOk(x, id);
  }

  /** And it stays so, whatever comes after. */
  lemma {:induction false} FateIsFinal(inputs: seq<Input>, more: seq<Input>, id: nat)
    requires id < |Run(inputs).spans| && !IsOpen(Run(inputs), id)
    ensures var x, y := Run(inputs), Run(inputs + more);
      id < |y.spans| && y.spans[id] == x.spans[id] && !IsOpen(y, id) && x.handed <= y.handed
    decreases |more|
  {
    hide Inv, Placed, IsOpen, Next;
    if more == [] {
      assert inputs + more == inputs;
    } else {
      var front, i := more[..|more| - 1], more[|more| - 1];
      assert inputs + more == (inputs + front) + [i];
      FateIsFinal(inputs, front, id);
      RunMore(inputs + front, i);
      var y := Run(inputs + front);
      hide Run;
      match i
      case Registered => RegisteredOpens(y, id);
      case Emitted(s, e, at) =>
        ClosedSpansAreFrozen(y, s, e, at, id);
        ClosedSpansStayClosed(y, s, e, at, id);
        HandedGrows(y, s, e, at);
    }
  }

  lemma RegisteredOpens(x: Exporter, id: nat)
    requires id < |x.spans|
    ensures IsOpen(x.(deferring := true), id) == IsOpen(x, id)
  {}

  lemma HandedGrows(x: Exporter, s: string, e: Event, at: int)
    requires Placed(x)
    ensures x.handed <= Next(x, s, e, at).handed
  {
    hide Within, Before;
  }
}
