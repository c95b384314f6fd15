/**
  The fold of a conversation's events into spans: one trace for the session, one for
  each turn, and the stages, each out of the event that says it is over.

  `Exporter` is all of it as a value and `Next` one event folded. What every run keeps is
  `Inv`: each open span is its session's own, each span has one fate, and a turn has one
  transcription that did not fail.

  Two fields are history and no step reads them: `dropped`, the spans let go of without an
  end, and a trace's `drains`, what the synthesis stage has said since the last turn opened.
  The latter is read off the events themselves further down, with nothing of the exporter.
*/
module TraceFold {
  import opened Wrappers

  datatype Stage = Asr | Llm | Tts | Unknown

  /** `length` is how long the event says its stage ran, in nanoseconds, if it says. */
  datatype Event =
    | SessionOpen
    | SessionClosed
    | TurnStarted(utterance: Option<string>)
    | ReplyFinished
    | AsrOutcome(length: Option<int>)
    | ProviderFailed(stage: Stage, length: Option<int>)
    | LlmRound(length: Option<int>)
    | ToolCall(length: Option<int>, isError: bool)
    | SentenceSynthesized(length: Option<int>)
    | SpeakingStarted
    | SpeakingFinished
    | Other

  datatype Kind = SessionSpan | TurnSpan | AsrSpan | LlmSpan | ToolSpan | TtsSpan | PlaybackSpan

  /** A span as the backend receives it: `ends` is every `end` call made on it, `notes`
      the time of every event added to it. */
  datatype Span = Span(kind: Kind, session: string, parent: Option<nat>, link: Option<nat>, start: int,
                       ends: seq<int>, failed: bool, notes: seq<int>)

  /** What is open of one session, and its counts. `drains` is history: since the last turn opened,
      whether each event of the synthesis stage was a failure or a stream's end. */
  datatype Trace = Trace(span: nat, turn: Option<nat>, playback: Option<nat>, transcribed: bool,
                         utterance: Option<string>, awaiting: nat, reported: bool, drains: seq<bool>)

  /** A turn root given up to be held until its transcript is settled. */
  datatype Handed = Handed(session: string, utterance: string, span: nat, end: int)

  /** `dropped` is history: the spans let go of without an end. */
  datatype Exporter = Exporter(sessions: map<string, Trace>, spans: seq<Span>, deferring: bool, handed: seq<Handed>,
                               dropped: set<nat>, warnings: nat)

  function Before(end: int, length: Option<int>): int {
    if length.Some? then end - length.value else end
  }

  /** What a stage's span goes under: the turn while one is open, else the session. */
  function Within(t: Trace): nat {
    if t.turn.Some? then t.turn.value else t.span
  }

  function SomeOf(o: Option<nat>): set<nat> {
    if o.Some? then {o.value} else {}
  }

  function Note(x: Exporter, id: nat, at: int): Exporter
    requires id < |x.spans|
  {
    x.(spans := x.spans[id := x.spans[id].(notes := x.spans[id].notes + [at])])
  }

  function End(x: Exporter, id: nat, at: int): Exporter
    requires id < |x.spans|
  {
    x.(spans := x.spans[id := x.spans[id].(ends := x.spans[id].ends + [at])])
  }

  function Start(x: Exporter, span: Span): Exporter {
    x.(spans := x.spans + [span])
  }

  /** A span that is started and ended by one event. */
  function Retrospect(x: Exporter, s: string, kind: Kind, failed: bool, at: int, length: Option<int>): Exporter
    requires s in x.sessions
  {
    Start(x, Span(kind, s, Some(Within(x.sessions[s])), None, Before(at, length), [at], failed, []))
  }

  ghost predicate Placed(x: Exporter) {
    forall s | s in x.sessions :: var t := x.sessions[s];
      && t.span < |x.spans| && (t.turn.Some? ==> t.turn.value < |x.spans|)
      && (t.playback.Some? ==> t.playback.value < |x.spans|)
  }

  function SpanEvent(x: Exporter, s: string, at: int): Exporter
    requires Placed(x)
  {
    if s in x.sessions then Note(x, Within(x.sessions[s]), at) else x
  }

  function OpenSession(x: Exporter, s: string, at: int): Exporter {
    if s in x.sessions then x
    else
      Start(x, Span(SessionSpan, s, None, None, at, [], false, []))
        .(sessions := x.sessions[s := Trace(|x.spans|, None, None, false, None, 0, false, [])])
  }

  function CloseSession(x: Exporter, s: string, at: int): Exporter
    requires Placed(x)
  {
    if s !in x.sessions then x
    else
      var t := x.sessions[s];
      End(x, t.span, at).(sessions := x.sessions - {s}, dropped := x.dropped + SomeOf(t.turn) + SomeOf(t.playback))
  }

  function OpenTurn(x: Exporter, s: string, utterance: Option<string>, at: int): Exporter {
    if s !in x.sessions then x
    else
      var t := x.sessions[s];
      if t.turn.Some? then
        x.(sessions := x.sessions[s := t.(reported := true)], warnings := x.warnings + (if t.reported then 0 else 1))
      else
        Start(x, Span(TurnSpan, s, None, Some(t.span), at, [], false, []))
          .(sessions := x.sessions[s := Trace(t.span, Some(|x.spans|), None, false, utterance, 0, t.reported, [])],
            dropped := x.dropped + SomeOf(t.playback))
  }

  function CloseTurn(x: Exporter, s: string, at: int): Exporter
    requires Placed(x)
  {
    if s !in x.sessions || x.sessions[s].turn == None then x
    else
      var t := x.sessions[s];
      var x' := x.(sessions := x.sessions[s := t.(turn := None, utterance := None)]);
      if !x.deferring || t.utterance == None then End(x', t.turn.value, at)
      else x'.(handed := x.handed + [Handed(s, t.utterance.value, t.turn.value, at)])
  }

  function AsrEnded(x: Exporter, s: string, failed: bool, length: Option<int>, at: int): Exporter
    requires Placed(x)
  {
    if s !in x.sessions then x
    else
      var t := x.sessions[s];
      if !failed && t.turn.Some? && t.transcribed then SpanEvent(x, s, at)
      else
        Retrospect(x, s, AsrSpan, failed, at, length)
          .(sessions := x.sessions[s := t.(transcribed := t.transcribed || t.turn.Some?)])
  }

  function Failed(x: Exporter, s: string, stage: Stage, length: Option<int>, at: int): Exporter
    requires Placed(x)
  {
    if stage == Asr then AsrEnded(x, s, true, length, at)
    else if stage == Unknown then SpanEvent(x, s, at)
    else if s !in x.sessions then x
    else
      var t := x.sessions[s];
      var x' := Retrospect(x, s, if stage == Llm then LlmSpan else TtsSpan, true, at, length);
      if stage == Llm then x'
      else x'.(sessions := x.sessions[s := t.(awaiting := t.awaiting + 1, drains := t.drains + [true])])
  }

  function StreamEnded(x: Exporter, s: string, length: Option<int>, at: int): Exporter {
    if s !in x.sessions then x
    else
      var t := x.sessions[s];
      var t' := t.(drains := t.drains + [false]);
      if t.awaiting > 0 then x.(sessions := x.sessions[s := t'.(awaiting := t.awaiting - 1)])
      else Retrospect(x, s, TtsSpan, false, at, length).(sessions := x.sessions[s := t'])
  }

  function OpenPlayback(x: Exporter, s: string, at: int): Exporter
    requires Placed(x)
  {
    if s !in x.sessions || x.sessions[s].turn == None || x.sessions[s].playback.Some? then SpanEvent(x, s, at)
    else
      var t := x.sessions[s];
      Start(x, Span(PlaybackSpan, s, t.turn, None, at, [], false, []))
        .(sessions := x.sessions[s := t.(playback := Some(|x.spans|))])
  }

  function ClosePlayback(x: Exporter, s: string, at: int): Exporter
    requires Placed(x)
  {
    if s !in x.sessions || x.sessions[s].playback == None then SpanEvent(x, s, at)
    else
      var t := x.sessions[s];
      End(x, t.playback.value, at).(sessions := x.sessions[s := t.(playback := None)])
  }

  /** One event, folded. */
  function Next(x: Exporter, s: string, e: Event, at: int): Exporter
    requires Placed(x)
  {
    match e
    case SessionOpen => OpenSession(x, s, at)
    case SessionClosed => CloseSession(x, s, at)
    case TurnStarted(utterance) => OpenTurn(x, s, utterance, at)
    case ReplyFinished => CloseTurn(x, s, at)
    case AsrOutcome(length) => AsrEnded(x, s, false, length, at)
    case ProviderFailed(stage, length) => Failed(x, s, stage, length, at)
    case LlmRound(length) => if s in x.sessions then Retrospect(x, s, LlmSpan, false, at, length) else x
    case ToolCall(length, isError) => if s in x.sessions then Retrospect(x, s, ToolSpan, isError, at, length) else x
    case SentenceSynthesized(length) => StreamEnded(x, s, length, at)
    case SpeakingStarted => OpenPlayback(x, s, at)
    case SpeakingFinished => ClosePlayback(x, s, at)
    case Other => SpanEvent(x, s, at)
  }

  // What every run keeps

  /** How many failures the later stream ends have yet to use up. */
  function Awaiting(drains: seq<bool>): nat {
    if drains == [] then 0
    else
      var last := |drains| - 1;
      var before := Awaiting(drains[..last]);
      if drains[last] then before + 1 else if before > 0 then before - 1 else 0
  }

  ghost predicate IsOpen(x: Exporter, i: nat)
    requires i < |x.spans|
  {
    var s := x.spans[i].session;
    s in x.sessions && (x.sessions[s].span == i || x.sessions[s].turn == Some(i) || x.sessions[s].playback == Some(i))
  }

  ghost predicate IsHanded(x: Exporter, i: nat) {
    exists h | h in x.handed :: h.span == i
  }

  ghost predicate Spans(x: Exporter, id: nat, kind: Kind, s: string) {
    id < |x.spans| && x.spans[id].kind == kind && x.spans[id].session == s
  }

  /** The open spans of a session are its own and of their kinds; a turn hangs on no
      span and is linked to its session's. */
  ghost predicate TraceOk(x: Exporter, s: string)
    requires s in x.sessions
  {
    var t := x.sessions[s];
    && Spans(x, t.span, SessionSpan, s)
    && (t.turn.Some? ==> Spans(x, t.turn.value, TurnSpan, s) && x.spans[t.turn.value].link == Some(t.span))
    && (t.playback.Some? ==> Spans(x, t.playback.value, PlaybackSpan, s))
    && t.awaiting == Awaiting(t.drains)
  }

  /** Every span is in one state: still open, ended once, handed over, or dropped. */
  ghost predicate FateOk(x: Exporter, i: nat)
    requires i < |x.spans|
  {
    && |x.spans[i].ends| <= 1
    && (IsOpen(x, i) ==> x.spans[i].ends == [] && !IsHanded(x, i) && i !in x.dropped)
    && (IsHanded(x, i) ==> x.spans[i].ends == [] && i !in x.dropped && x.spans[i].kind == TurnSpan)
    && (i in x.dropped ==> x.spans[i].ends == [])
    && (x.spans[i].ends != [] || IsOpen(x, i) || IsHanded(x, i) || i in x.dropped)
  }

  ghost predicate HandedOk(x: Exporter) {
    && (forall h | h in x.handed :: h.span < |x.spans|)
    && (forall i, j | 0 <= i < j < |x.handed| :: x.handed[i].span != x.handed[j].span)
    && (forall i | i in x.dropped :: i < |x.spans|)
  }

  /** Spans hang on spans made before them. */
  ghost predicate ParentsOk(x: Exporter) {
    forall i | 0 <= i < |x.spans| && x.spans[i].parent.Some? :: x.spans[i].parent.value < i
  }

  ghost predicate AsrUnder(x: Exporter, i: nat, turn: nat)
    requires i < |x.spans|
  {
    x.spans[i].kind == AsrSpan && x.spans[i].parent == Some(turn)
  }

  /** Of the transcriptions under one turn only the first can be anything but failed,
      and an open turn with none has not been marked as transcribed. */
  ghost predicate AsrOk(x: Exporter) {
    && (forall i, j, turn: nat | 0 <= i < j < |x.spans| && turn < |x.spans| && x.spans[turn].kind == TurnSpan
          && AsrUnder(x, i, turn) && AsrUnder(x, j, turn) :: x.spans[j].failed)
    && (forall s, i | s in x.sessions && x.sessions[s].turn.Some? && !x.sessions[s].transcribed && 0 <= i < |x.spans| ::
          !AsrUnder(x, i, x.sessions[s].turn.value))
  }

  ghost predicate Inv(x: Exporter) {
    && (forall s | s in x.sessions :: TraceOk(x, s))
    && (forall i | 0 <= i < |x.spans| :: FateOk(x, i))
    && HandedOk(x) && ParentsOk(x) && AsrOk(x)
  }

  lemma InvPlaced(x: Exporter)
    requires Inv(x)
    ensures Placed(x)
  {
    forall s | s in x.sessions ensures TraceOk(x, s) {}
  }

  /** What spans are does not change; there may be more of them. */
  ghost predicate Extends(x: Exporter, x': Exporter) {
    && |x.spans| <= |x'.spans|
    && forall i | 0 <= i < |x.spans| ::
         x'.spans[i].kind == x.spans[i].kind && x'.spans[i].session == x.spans[i].session
         && x'.spans[i].link == x.spans[i].link
  }

  lemma TraceStays(x: Exporter, x': Exporter, s: string)
    requires s in x.sessions && TraceOk(x, s) && Extends(x, x')
    requires s in x'.sessions && x'.sessions[s] == x.sessions[s]
    ensures TraceOk(x', s)
  {}

  /** All but one of the sessions' traces are as they were. */
  lemma OtherTracesStay(x: Exporter, x': Exporter, s: string)
    requires (forall o | o in x.sessions :: TraceOk(x, o)) && Extends(x, x')
    requires forall o | o in x'.sessions && o != s :: o in x.sessions && x'.sessions[o] == x.sessions[o]
    ensures forall o | o in x'.sessions && o != s :: TraceOk(x', o)
  {
    hide TraceOk, Extends;
    forall o | o in x'.sessions && o != s ensures TraceOk(x', o) { TraceStays(x, x', o); }
  }

  lemma NoteKeeps(x: Exporter, id: nat, at: int)
    requires Inv(x) && id < |x.spans|
    ensures Inv(Note(x, id, at))
  {
    hide Awaiting;
    var x' := Note(x, id, at);
    assert forall i | 0 <= i < |x.spans| :: FateOk(x, i);
    forall i | 0 <= i < |x'.spans| ensures FateOk(x', i) {
      assert FateOk(x, i);
      assert IsOpen(x', i) == IsOpen(x, i) && IsHanded(x', i) == IsHanded(x, i);
    }
    forall s | s in x'.sessions ensures TraceOk(x', s) { assert TraceOk(x, s); }
    assert forall i: nat, turn | i < |x.spans| :: AsrUnder(x', i, turn) == AsrUnder(x, i, turn);
  }

  lemma RetrospectKeeps(x: Exporter, s: string, kind: Kind, failed: bool, at: int, length: Option<int>)
    requires Inv(x) && s in x.sessions && kind in {LlmSpan, ToolSpan, TtsSpan}
    ensures Inv(Retrospect(x, s, kind, failed, at, length))
  {
    hide Awaiting;
    var x' := Retrospect(x, s, kind, failed, at, length);
    forall i | 0 <= i < |x'.spans| ensures FateOk(x', i) {
      if i < |x.spans| {
        assert FateOk(x, i);
        assert IsOpen(x', i) == IsOpen(x, i) && IsHanded(x', i) == IsHanded(x, i);
      }
    }
    forall s | s in x'.sessions ensures TraceOk(x', s) { assert TraceOk(x, s); }
    assert forall i: nat, turn | i < |x.spans| :: AsrUnder(x', i, turn) == AsrUnder(x, i, turn);
    assert TraceOk(x, s);
  }

  /** Nothing that happened to transcriptions when no step of theirs was taken. */
  lemma AsrCarries(x: Exporter, x': Exporter)
    requires AsrOk(x) && ParentsOk(x) && ParentsOk(x') && |x.spans| <= |x'.spans|
    requires forall i | 0 <= i < |x.spans| ::
      x'.spans[i].kind == x.spans[i].kind && x'.spans[i].parent == x.spans[i].parent
      && x'.spans[i].failed == x.spans[i].failed
    requires forall i | |x.spans| <= i < |x'.spans| :: x'.spans[i].kind != AsrSpan
    requires forall s | s in x'.sessions && x'.sessions[s].turn.Some? && !x'.sessions[s].transcribed ::
      x'.sessions[s].turn.value >= |x.spans|
      || (s in x.sessions && x.sessions[s].turn == x'.sessions[s].turn && !x.sessions[s].transcribed)
    ensures AsrOk(x')
  {
    forall i: nat, turn: nat | i < |x'.spans| && AsrUnder(x', i, turn)
      ensures i < |x.spans| && turn < |x.spans| && AsrUnder(x, i, turn)
    {
      assert x.spans[i].parent == Some(turn);
    }
  }

  lemma OpenSessionFates(x: Exporter, s: string, at: int)
    requires Inv(x)
    ensures var x' := OpenSession(x, s, at);
      (forall i | 0 <= i < |x'.spans| :: FateOk(x', i)) && HandedOk(x') && ParentsOk(x')
  {
    hide AsrOk;
    var x' := OpenSession(x, s, at);
    forall i | 0 <= i < |x'.spans| ensures FateOk(x', i) {
      if i < |x.spans| {
        assert FateOk(x, i);
        assert IsOpen(x', i) == IsOpen(x, i) && IsHanded(x', i) == IsHanded(x, i);
      }
    }
  }

  lemma OpenSessionKeeps(x: Exporter, s: string, at: int)
    requires Inv(x)
    ensures Inv(OpenSession(x, s, at))
  {
    hide Awaiting, FateOk, AsrOk, HandedOk, ParentsOk;
    var x' := OpenSession(x, s, at);
    if s !in x.sessions {
      OpenSessionFates(x, s, at);
      NoDrains();
      assert TraceOk(x', s);
      hide TraceOk;
      OtherTracesStay(x, x', s);
      AsrCarries(x, x');
    }
  }

  lemma NoDrains()
    ensures Awaiting([]) == 0
  {}

  lemma CloseSessionFates(x: Exporter, s: string, at: int)
    requires Inv(x) && Placed(x) && s in x.sessions
    ensures var x' := CloseSession(x, s, at);
      (forall i | 0 <= i < |x'.spans| :: FateOk(x', i)) && HandedOk(x') && ParentsOk(x')
  {
    hide Awaiting, AsrOk;
    var x' := CloseSession(x, s, at);
    var t := x.sessions[s];
    assert TraceOk(x, s);
    forall i | 0 <= i < |x'.spans| ensures FateOk(x', i) {
      hide HandedOk, ParentsOk, IsHanded, Placed;
      assert FateOk(x, i);
      assert IsHanded(x', i) == IsHanded(x, i) by { SameHanded(x, x', i); }
      assert IsOpen(x', i) == (IsOpen(x, i) && x.spans[i].session != s);
      assert i != t.span ==> x'.spans[i] == x.spans[i];
    }
  }

  lemma SameHanded(x: Exporter, x': Exporter, i: nat)
    requires x'.handed == x.handed
    ensures IsHanded(x', i) == IsHanded(x, i)
  {}

  lemma CloseSessionKeeps(x: Exporter, s: string, at: int)
    requires Inv(x) && Placed(x)
    ensures Inv(CloseSession(x, s, at))
  {
    hide Awaiting, FateOk, AsrOk, HandedOk, ParentsOk;
    var x' := CloseSession(x, s, at);
    if s in x.sessions {
      assert TraceOk(x, s);
      CloseSessionFates(x, s, at);
      forall o | o in x'.sessions ensures TraceOk(x', o) { assert TraceOk(x, o); }
      AsrCarries(x, x');
    }
  }

  lemma OpenTurnFates(x: Exporter, s: string, utterance: Option<string>, at: int)
    requires Inv(x) && s in x.sessions
    ensures var x' := OpenTurn(x, s, utterance, at);
      (forall i | 0 <= i < |x'.spans| :: FateOk(x', i)) && HandedOk(x') && ParentsOk(x')
  {
    hide Awaiting, AsrOk;
    var x' := OpenTurn(x, s, utterance, at);
    assert TraceOk(x, s);
    forall i | 0 <= i < |x'.spans| ensures FateOk(x', i) {
      assert IsHanded(x', i) == IsHanded(x, i);
      if i < |x.spans| {
        assert FateOk(x, i);
        assert x'.spans[i] == x.spans[i];
        assert IsOpen(x', i) == (IsOpen(x, i) && i !in x'.dropped);
      } else {
        assert IsOpen(x', i);
      }
    }
  }

  lemma OpenTurnTraces(x: Exporter, s: string, utterance: Option<string>, at: int)
    requires Inv(x) && s in x.sessions
    ensures var x' := OpenTurn(x, s, utterance, at); forall o | o in x'.sessions :: TraceOk(x', o)
  {
    hide Awaiting, FateOk, AsrOk, HandedOk, ParentsOk;
    var x' := OpenTurn(x, s, utterance, at);
    assert TraceOk(x, s);
    NoDrains();
    assert TraceOk(x', s);
    hide TraceOk;
    OtherTracesStay(x, x', s);
  }

  lemma OpenTurnKeeps(x: Exporter, s: string, utterance: Option<string>, at: int)
    requires Inv(x)
    ensures Inv(OpenTurn(x, s, utterance, at))
  {
    hide TraceOk, FateOk, AsrOk, HandedOk, ParentsOk;
    var x' := OpenTurn(x, s, utterance, at);
    if s in x.sessions {
      OpenTurnTraces(x, s, utterance, at);
      OpenTurnFates(x, s, utterance, at);
      AsrCarries(x, x');
    }
  }

  lemma CloseTurnFates(x: Exporter, s: string, at: int)
    requires Inv(x) && Placed(x) && s in x.sessions && x.sessions[s].turn.Some?
    ensures var x' := CloseTurn(x, s, at);
      (forall i | 0 <= i < |x'.spans| :: FateOk(x', i)) && HandedOk(x') && ParentsOk(x')
  {
    hide Awaiting, AsrOk;
    var x' := CloseTurn(x, s, at);
    var id := x.sessions[s].turn.value;
    assert TraceOk(x, s);
    assert FateOk(x, id) && IsOpen(x, id);
    assert forall h | h in x.handed :: h.span != id;
    forall i | 0 <= i < |x'.spans| ensures FateOk(x', i) {
      hide HandedOk, ParentsOk, IsHanded, Placed;
      assert FateOk(x, i);
      assert IsOpen(x', i) == (IsOpen(x, i) && i != id);
      HandedMore(x, x', i);
    }
  }

  lemma CloseTurnTraces(x: Exporter, s: string, at: int)
    requires Inv(x) && Placed(x) && s in x.sessions && x.sessions[s].turn.Some?
    ensures var x' := CloseTurn(x, s, at); forall o | o in x'.sessions :: TraceOk(x', o)
  {
    hide Awaiting, FateOk, AsrOk, HandedOk, ParentsOk, Placed;
    var x' := CloseTurn(x, s, at);
    assert TraceOk(x, s);
    assert TraceOk(x', s);
    hide TraceOk;
    OtherTracesStay(x, x', s);
  }

  lemma CloseTurnKeeps(x: Exporter, s: string, at: int)
    requires Inv(x) && Placed(x)
    ensures Inv(CloseTurn(x, s, at))
  {
    hide TraceOk, FateOk, AsrOk, HandedOk, ParentsOk;
    var x' := CloseTurn(x, s, at);
    if s in x.sessions && x.sessions[s].turn.Some? {
      CloseTurnTraces(x, s, at);
      CloseTurnFates(x, s, at);
      AsrCarries(x, x');
    }
  }

  lemma HandedMore(x: Exporter, x': Exporter, i: nat)
    requires x'.handed == x.handed || exists h :: x'.handed == x.handed + [h]
    ensures IsHanded(x', i) == (IsHanded(x, i) || (x'.handed != x.handed && x'.handed[|x'.handed| - 1].span == i))
  {}

  lemma AsrEndedFates(x: Exporter, s: string, failed: bool, length: Option<int>, at: int)
    requires Inv(x) && Placed(x) && s in x.sessions
    requires failed || x.sessions[s].turn == None || !x.sessions[s].transcribed
    ensures var x' := AsrEnded(x, s, failed, length, at);
      (forall i | 0 <= i < |x'.spans| :: FateOk(x', i)) && HandedOk(x') && ParentsOk(x')
  {
    hide Awaiting, AsrOk;
    var x' := AsrEnded(x, s, failed, length, at);
    assert TraceOk(x, s);
    forall i | 0 <= i < |x'.spans| ensures FateOk(x', i) {
      assert IsHanded(x', i) == IsHanded(x, i);
      if i < |x.spans| {
        assert FateOk(x, i);
        assert IsOpen(x', i) == IsOpen(x, i);
      }
    }
  }

  lemma AsrEndedTraces(x: Exporter, s: string, failed: bool, length: Option<int>, at: int)
    requires Inv(x) && Placed(x) && s in x.sessions
    requires failed || x.sessions[s].turn == None || !x.sessions[s].transcribed
    ensures var x' := AsrEnded(x, s, failed, length, at); forall o | o in x'.sessions :: TraceOk(x', o)
  {
    hide Awaiting, FateOk, AsrOk, HandedOk, ParentsOk, Placed;
    var x' := AsrEnded(x, s, failed, length, at);
    assert TraceOk(x, s);
    assert TraceOk(x', s);
    hide TraceOk;
    OtherTracesStay(x, x', s);
  }

  lemma AsrEndedKeeps(x: Exporter, s: string, failed: bool, length: Option<int>, at: int)
    requires Inv(x) && Placed(x)
    ensures Inv(AsrEnded(x, s, failed, length, at))
  {
    hide TraceOk, FateOk, AsrOk, HandedOk, ParentsOk;
    var x' := AsrEnded(x, s, failed, length, at);
    if s in x.sessions {
      var t := x.sessions[s];
      if !failed && t.turn.Some? && t.transcribed {
        NoteKeeps(x, Within(t), at);
      } else {
        AsrEndedFates(x, s, failed, length, at);
        AsrEndedTraces(x, s, failed, length, at);
        AsrEndedOnce(x, x', s, failed);
      }
    }
  }

  lemma AsrEndedOnce(x: Exporter, x': Exporter, s: string, failed: bool)
    requires Inv(x) && s in x.sessions && TraceOk(x, s) && |x'.spans| == |x.spans| + 1
    requires var t := x.sessions[s];
      && (failed || t.turn == None || !t.transcribed)
      && x'.sessions == x.sessions[s := t.(transcribed := t.transcribed || t.turn.Some?)]
      && x'.spans[..|x.spans|] == x.spans
      && x'.spans[|x.spans|].kind == AsrSpan && x'.spans[|x.spans|].parent == Some(Within(t))
      && x'.spans[|x.spans|].failed == failed
    ensures AsrOk(x')
  {
    hide Awaiting, FateOk;
    var n := |x.spans|;
    assert forall i: nat | i < n :: x'.spans[i] == x.spans[i];
    assert forall i: nat, turn | i < n :: AsrUnder(x', i, turn) == AsrUnder(x, i, turn);
    forall o, i | o in x'.sessions && x'.sessions[o].turn.Some? && !x'.sessions[o].transcribed && 0 <= i < |x'.spans|
      ensures !AsrUnder(x', i, x'.sessions[o].turn.value)
    {
      assert TraceOk(x, o);
    }
  }

  lemma FailedKeeps(x: Exporter, s: string, stage: Stage, length: Option<int>, at: int)
    requires Inv(x) && Placed(x)
    ensures Inv(Failed(x, s, stage, length, at))
  {
    hide Inv, Awaiting;
    if stage == Asr {
      AsrEndedKeeps(x, s, true, length, at);
    } else if stage == Unknown {
      if s in x.sessions { NoteKeeps(x, Within(x.sessions[s]), at); }
    } else if s in x.sessions {
      RetrospectKeeps(x, s, if stage == Llm then LlmSpan else TtsSpan, true, at, length);
      if stage == Tts { DrainKeeps(Retrospect(x, s, TtsSpan, true, at, length), s, true); }
    }
  }

  /** One more event of the synthesis stage on the count. */
  function Drained(x: Exporter, s: string, failed: bool): Exporter
    requires s in x.sessions
  {
    var t := x.sessions[s];
    var awaiting := if failed then t.awaiting + 1 else if t.awaiting > 0 then t.awaiting - 1 else 0;
    x.(sessions := x.sessions[s := t.(awaiting := awaiting, drains := t.drains + [failed])])
  }

  /** Only a session's own count changed. */
  ghost predicate SameShape(x: Exporter, x': Exporter) {
    && x'.spans == x.spans && x'.handed == x.handed && x'.dropped == x.dropped && x'.sessions.Keys == x.sessions.Keys
    && forall s | s in x.sessions ::
         x'.sessions[s].span == x.sessions[s].span && x'.sessions[s].turn == x.sessions[s].turn
         && x'.sessions[s].playback == x.sessions[s].playback && x'.sessions[s].transcribed == x.sessions[s].transcribed
  }

  lemma ShapeFates(x: Exporter, x': Exporter)
    requires Inv(x) && SameShape(x, x')
    ensures (forall i | 0 <= i < |x'.spans| :: FateOk(x', i)) && HandedOk(x') && ParentsOk(x') && AsrOk(x')
  {
    hide AsrOk, TraceOk;
    forall i | 0 <= i < |x'.spans| ensures FateOk(x', i) {
      hide HandedOk, ParentsOk, IsHanded;
      assert FateOk(x, i);
      SameHanded(x, x', i);
      assert IsOpen(x', i) == IsOpen(x, i);
    }
    assert ParentsOk(x');
    AsrCarries(x, x');
  }

  lemma DrainedShape(x: Exporter, s: string, failed: bool)
    requires s in x.sessions
    ensures SameShape(x, Drained(x, s, failed))
  {
    assert Drained(x, s, failed).sessions.Keys == x.sessions.Keys;
  }

  lemma DrainedTrace(x: Exporter, s: string, failed: bool)
    requires s in x.sessions && TraceOk(x, s)
    ensures TraceOk(Drained(x, s, failed), s)
  {
    var drains := x.sessions[s].drains;
    assert (drains + [failed])[..|drains|] == drains;
  }

  lemma DrainKeeps(x: Exporter, s: string, failed: bool)
    requires Inv(x) && s in x.sessions
    ensures Inv(Drained(x, s, failed))
  {
    hide TraceOk, FateOk, AsrOk, HandedOk, ParentsOk, SameShape;
    var x' := Drained(x, s, failed);
    DrainedShape(x, s, failed);
    ShapeFates(x, x');
    DrainedTrace(x, s, failed);
    OtherTracesStay(x, x', s);
  }

  lemma StreamEndedKeeps(x: Exporter, s: string, length: Option<int>, at: int)
    requires Inv(x)
    ensures Inv(StreamEnded(x, s, length, at))
  {
    hide Inv, Awaiting;
    if s in x.sessions {
      if x.sessions[s].awaiting > 0 {
        DrainKeeps(x, s, false);
      } else {
        RetrospectKeeps(x, s, TtsSpan, false, at, length);
        DrainKeeps(Retrospect(x, s, TtsSpan, false, at, length), s, false);
      }
    }
  }

  lemma OpenPlaybackFates(x: Exporter, s: string, at: int)
    requires Inv(x) && Placed(x) && s in x.sessions && x.sessions[s].turn.Some? && x.sessions[s].playback == None
    ensures var x' := OpenPlayback(x, s, at);
      (forall i | 0 <= i < |x'.spans| :: FateOk(x', i)) && HandedOk(x') && ParentsOk(x')
  {
    hide Awaiting, AsrOk;
    var x' := OpenPlayback(x, s, at);
    assert TraceOk(x, s);
    forall i | 0 <= i < |x'.spans| ensures FateOk(x', i) {
      assert IsHanded(x', i) == IsHanded(x, i);
      if i < |x.spans| {
        assert FateOk(x, i);
        assert IsOpen(x', i) == IsOpen(x, i);
      } else {
        assert IsOpen(x', i);
      }
    }
  }

  lemma OpenPlaybackKeeps(x: Exporter, s: string, at: int)
    requires Inv(x) && Placed(x)
    ensures Inv(OpenPlayback(x, s, at))
  {
    hide Awaiting, FateOk, AsrOk, HandedOk, ParentsOk;
    var x' := OpenPlayback(x, s, at);
    if s !in x.sessions {
    } else if x.sessions[s].turn == None || x.sessions[s].playback.Some? {
      assert TraceOk(x, s);
      NoteKeeps(x, Within(x.sessions[s]), at);
    } else {
      assert TraceOk(x, s);
      assert TraceOk(x', s);
      hide TraceOk;
      OpenPlaybackFates(x, s, at);
      OtherTracesStay(x, x', s);
      AsrCarries(x, x');
    }
  }

  lemma ClosePlaybackFates(x: Exporter, s: string, at: int)
    requires Inv(x) && Placed(x) && s in x.sessions && x.sessions[s].playback.Some?
    ensures var x' := ClosePlayback(x, s, at);
      (forall i | 0 <= i < |x'.spans| :: FateOk(x', i)) && HandedOk(x') && ParentsOk(x')
  {
    hide Awaiting, AsrOk;
    var x' := ClosePlayback(x, s, at);
    var id := x.sessions[s].playback.value;
    assert TraceOk(x, s);
    assert FateOk(x, id) && IsOpen(x, id);
    forall i | 0 <= i < |x'.spans| ensures FateOk(x', i) {
      hide HandedOk, ParentsOk, IsHanded, Placed;
      assert FateOk(x, i);
      SameHanded(x, x', i);
      assert IsOpen(x', i) == (IsOpen(x, i) && i != id);
    }
  }

  lemma ClosePlaybackKeeps(x: Exporter, s: string, at: int)
    requires Inv(x) && Placed(x)
    ensures Inv(ClosePlayback(x, s, at))
  {
    hide Awaiting, FateOk, AsrOk, HandedOk, ParentsOk;
    var x' := ClosePlayback(x, s, at);
    if s !in x.sessions {
    } else if x.sessions[s].playback == None {
      assert TraceOk(x, s);
      NoteKeeps(x, Within(x.sessions[s]), at);
    } else {
      assert TraceOk(x, s);
      ClosePlaybackFates(x, s, at);
      forall o | o in x'.sessions ensures TraceOk(x', o) { assert TraceOk(x, o); }
      AsrCarries(x, x');
    }
  }

  /** Whatever event comes next, on whatever session. */
  lemma NextKeepsInv(x: Exporter, s: string, e: Event, at: int)
    requires Inv(x) && Placed(x)
    ensures Inv(Next(x, s, e, at))
  {
    hide Inv;
    match e
    case SessionOpen => OpenSessionKeeps(x, s, at);
    case SessionClosed => CloseSessionKeeps(x, s, at);
    case TurnStarted(utterance) => OpenTurnKeeps(x, s, utterance, at);
    case ReplyFinished => CloseTurnKeeps(x, s, at);
    case AsrOutcome(length) => AsrEndedKeeps(x, s, false, length, at);
    case ProviderFailed(stage, length) => FailedKeeps(x, s, stage, length, at);
    case LlmRound(length) => if s in x.sessions { RetrospectKeeps(x, s, LlmSpan, false, at, length); }
    case ToolCall(length, isError) => if s in x.sessions { RetrospectKeeps(x, s, ToolSpan, isError, at, length); }
    case SentenceSynthesized(length) => StreamEndedKeeps(x, s, length, at);
    case SpeakingStarted => OpenPlaybackKeeps(x, s, at);
    case SpeakingFinished => ClosePlaybackKeeps(x, s, at);
    case Other => if s in x.sessions { NoteKeeps(x, Within(x.sessions[s]), at); }
  }

  // Runs

  /** What reaches the exporter: the transcript collaborator says it is there, or a
      session says something. */
  datatype Input = Registered | Emitted(session: string, event: Event, at: int)

  function Begin(): Exporter {
    Exporter(map[], [], false, [], {}, 0)
  }

  function Taken(x: Exporter, i: Input): Exporter
    requires Placed(x)
  {
    match i
    case Registered => x.(deferring := true)
    case Emitted(s, e, at) => Next(x, s, e, at)
  }

  lemma TakenKeepsInv(x: Exporter, i: Input)
    requires Inv(x) && Placed(x)
    ensures Inv(Taken(x, i))
  {
    match i
    case Registered =>
      var x' := x.(deferring := true);
      forall j | 0 <= j < |x.spans| ensures FateOk(x', j) {
        assert FateOk(x, j);
        assert IsOpen(x', j) == IsOpen(x, j) && IsHanded(x', j) == IsHanded(x, j);
      }
      forall s | s in x.sessions ensures TraceOk(x', s) { assert TraceOk(x, s); }
      assert forall j: nat, turn | j < |x.spans| :: AsrUnder(x', j, turn) == AsrUnder(x, j, turn);
    case Emitted(s, e, at) =>
      hide Inv;
      NextKeepsInv(x, s, e, at);
  }

  ghost function Run(inputs: seq<Input>): (x: Exporter)
    ensures Inv(x)
  {
    if inputs == [] then Begin()
    else
      var last := |inputs| - 1;
      var before := Run(inputs[..last]);
      InvPlaced(before);
      TakenKeepsInv(before, inputs[last]);
      Taken(before, inputs[last])
  }

  /** Whatever is emitted, no span is ended twice, none handed over is ended as well,
      and none is lost sight of: what is neither ended, handed over nor still open for
      its session was let go of on purpose. */
  lemma EverySpanHasOneFate(inputs: seq<Input>, i: nat)
    requires i < |Run(inputs).spans|
    ensures var x := Run(inputs);
      && |x.spans[i].ends| <= 1
      && (x.spans[i].ends == [] <==> IsOpen(x, i) || IsHanded(x, i) || i in x.dropped)
      && !(IsOpen(x, i) && IsHanded(x, i)) && !(IsOpen(x, i) && i in x.dropped) && !(IsHanded(x, i) && i in x.dropped)
  {
    assert FateOk(Run(inputs), i);
  }

  /** A turn has at most one transcription that is not marked failed, and it is the
      first there is. */
  lemma OneTranscription(inputs: seq<Input>, turn: nat, i: nat, j: nat)
    requires var x := Run(inputs);
      && i < j < |x.spans| && turn < |x.spans| && x.spans[turn].kind == TurnSpan
      && AsrUnder(x, i, turn) && AsrUnder(x, j, turn)
    ensures Run(inputs).spans[j].failed
  {
    assert AsrOk(Run(inputs));
  }

  /** An open turn stays the session's turn, under its own span, until its reply is
      finished or its session closes; no other event replaces it. */
  lemma OpenTurnIsNeverReplaced(x: Exporter, s: string, e: Event, at: int)
    requires Placed(x) && s in x.sessions && x.sessions[s].turn.Some?
    requires !e.ReplyFinished? && !e.SessionClosed?
    ensures var x' := Next(x, s, e, at);
      && s in x'.sessions && x'.sessions[s].turn == x.sessions[s].turn
      && forall i | |x.spans| <= i < |x'.spans| :: x'.spans[i].kind != TurnSpan
  {}

  /** Nor is it ended. */
  lemma OpenTurnIsNotEnded(x: Exporter, s: string, e: Event, at: int)
    requires Inv(x) && Placed(x) && s in x.sessions && x.sessions[s].turn.Some?
    requires !e.ReplyFinished? && !e.SessionClosed?
    ensures var id, x' := x.sessions[s].turn.value, Next(x, s, e, at);
      id < |x'.spans| && x'.spans[id].ends == []
  {
    hide Next, AsrOk, HandedOk, ParentsOk, Awaiting;
    NextKeepsInv(x, s, e, at);
    OpenTurnIsNeverReplaced(x, s, e, at);
    var id, x' := x.sessions[s].turn.value, Next(x, s, e, at);
    assert TraceOk(x', s);
    assert FateOk(x', id) && IsOpen(x', id);
  }

  /** An event of one session is not felt by another. */
  lemma OthersAreUntouched(x: Exporter, s: string, e: Event, at: int, o: string)
    requires Placed(x) && o != s
    ensures var x' := Next(x, s, e, at);
      (o in x'.sessions <==> o in x.sessions) && (o in x.sessions ==> x'.sessions[o] == x.sessions[o])
  {}

  /** Once a span is no longer open nothing about it changes. */
  lemma ClosedSpansAreFrozen(x: Exporter, s: string, e: Event, at: int, i: nat)
    requires Inv(x) && Placed(x) && i < |x.spans| && !IsOpen(x, i)
    ensures var x' := Next(x, s, e, at);
      |x'.spans| >= |x.spans| && x'.spans[i] == x.spans[i]
  {
    hide Awaiting, FateOk, AsrOk, HandedOk, ParentsOk;
    if s in x.sessions { assert TraceOk(x, s); }
  }

  /** And none is opened again. */
  lemma ClosedSpansStayClosed(x: Exporter, s: string, e: Event, at: int, i: nat)
    requires Inv(x) && Placed(x) && i < |x.spans| && !IsOpen(x, i)
    ensures var x' := Next(x, s, e, at); i < |x'.spans| && !IsOpen(x', i)
  {
    ClosedSpansAreFrozen(x, s, e, at, i);
    if x.spans[i].session == s {
      OwnStaysClosed(x, s, e, at, i);
    } else {
      hide Inv, Next, Placed;
      OthersAreUntouched(x, s, e, at, x.spans[i].session);
    }
  }

  lemma OwnStaysClosed(x: Exporter, s: string, e: Event, at: int, i: nat)
    requires Placed(x) && i < |x.spans| && x.spans[i].session == s && !IsOpen(x, i)
    ensures var x' := Next(x, s, e, at);
      i < |x'.spans| && (x'.spans[i] == x.spans[i] ==> !IsOpen(x', i))
  {
    match e
    case SessionOpen =>
    case TurnStarted(utterance) => hide Within;
    case SpeakingStarted => hide Within;
    case _ => hide OpenSession, OpenTurn, OpenPlayback;
  }

  // The failures a stream's end uses up

  function Fails(drains: seq<bool>): nat {
    if drains == [] then 0 else (if drains[|drains| - 1] then 1 else 0) + Fails(drains[..|drains| - 1])
  }

  /** Stream ends that made no span of their own. */
  function Absorbed(drains: seq<bool>): nat {
    if drains == [] then 0
    else
      var last := |drains| - 1;
      (if !drains[last] && Awaiting(drains[..last]) > 0 then 1 else 0) + Absorbed(drains[..last])
  }

  /** Every failure uses up one stream end that comes after it, or is still waiting for
      one; none uses up two, and no stream end is used up before its failure. */
  lemma {:induction false} EachFailureAbsorbsOne(drains: seq<bool>)
    ensures Fails(drains) == Absorbed(drains) + Awaiting(drains)
  {
    if drains != [] { EachFailureAbsorbsOne(drains[..|drains| - 1]); }
  }

  function Excess(drains: seq<bool>): int {
    if drains == [] then 0 else (if drains[|drains| - 1] then 1 else -1) + Excess(drains[..|drains| - 1])
  }

  /** What is waited for in the end is the largest excess of failures over ends that any
      stretch up to now has had: a stream end with no failure in front of it is not
      saved up for a later one. */
  lemma {:induction false} AwaitingIsLargestExcess(drains: seq<bool>)
    ensures forall from | 0 <= from <= |drains| :: Excess(drains[from..]) <= Awaiting(drains)
    ensures exists from | 0 <= from <= |drains| :: Excess(drains[from..]) == Awaiting(drains)
  {
    var n := |drains|;
    assert drains[n..] == [];
    if n > 0 {
      var last, front := drains[n - 1], drains[..n - 1];
      AwaitingIsLargestExcess(front);
      forall from | 0 <= from < n ensures Excess(drains[from..]) == Excess(front[from..]) + if last then 1 else -1 {
        var tail := drains[from..];
        assert tail[..|tail| - 1] == front[from..] && tail[|tail| - 1] == last;
      }
      var best :| 0 <= best <= n - 1 && Excess(front[best..]) == Awaiting(front);
      assert last || Awaiting(front) > 0 ==> Excess(drains[best..]) == Awaiting(drains);
      assert !last && Awaiting(front) == 0 ==> Excess(drains[n..]) == Awaiting(drains);
    }
  }

  // Read off the events themselves

  /** Whether the session is open after these inputs. */
  function Live(inputs: seq<Input>, s: string): bool {
    if inputs == [] then false
    else
      var before := Live(inputs[..|inputs| - 1], s);
      match inputs[|inputs| - 1]
      case Registered => before
      case Emitted(o, e, _) => if o != s then before else e.SessionOpen? || (before && !e.SessionClosed?)
  }

  /** Whether it is in a turn: one was started since it opened, and its reply has not been
      finished. */
  function InTurn(inputs: seq<Input>, s: string): bool {
    if inputs == [] then false
    else
      var front := inputs[..|inputs| - 1];
      match inputs[|inputs| - 1]
      case Registered => InTurn(front, s)
      case Emitted(o, e, _) =>
        if o != s then InTurn(front, s)
        else if e.TurnStarted? then Live(front, s)
        else InTurn(front, s) && !e.ReplyFinished? && !e.SessionClosed?
  }

  /** The last of these inputs opened the session, or a turn of it. */
  predicate JustOpened(inputs: seq<Input>, s: string) {
    inputs != [] &&
    var front, i := inputs[..|inputs| - 1], inputs[|inputs| - 1];
    i.Emitted? && i.session == s
    && ((i.event.SessionOpen? && !Live(front, s)) || (i.event.TurnStarted? && Live(front, s) && !InTurn(front, s)))
  }

  /** How many inputs came before what the session has heard since it, or its last turn,
      opened. */
  function Since(inputs: seq<Input>, s: string): (from: nat)
    ensures from <= |inputs|
  {
    if inputs == [] then 0
    else if JustOpened(inputs, s) then |inputs|
    else Since(inputs[..|inputs| - 1], s)
  }

  /** What an event says of the synthesis stage: a failure, or a stream's end. */
  function DrainOf(e: Event): seq<bool> {
    if e.SentenceSynthesized? then [false] else if e.ProviderFailed? && e.stage == Tts then [true] else []
  }

  /** The synthesis stage's failures and stream ends among them, in order. */
  function DrainsOf(inputs: seq<Input>, s: string): seq<bool> {
    if inputs == [] then []
    else
      DrainsOf(inputs[..|inputs| - 1], s) +
      match inputs[|inputs| - 1]
      case Registered => []
      case Emitted(o, e, _) =>
        if o != s then [] else DrainOf(e)
  }

  /** What a session's trace says of all this. */
  ghost predicate Follows(x: Exporter, inputs: seq<Input>, s: string) {
    && (s in x.sessions <==> Live(inputs, s))
    && (InTurn(inputs, s) ==> Live(inputs, s))
    && (s in x.sessions ==>
          (x.sessions[s].turn.Some? <==> InTurn(inputs, s))
          && x.sessions[s].drains == DrainsOf(inputs[Since(inputs, s)..], s))
  }

  lemma NextTrace(x: Exporter, s: string, e: Event, at: int)
    requires Placed(x)
    ensures var x' := Next(x, s, e, at);
      && (s in x'.sessions <==> e.SessionOpen? || (s in x.sessions && !e.SessionClosed?))
      && (s in x'.sessions && s !in x.sessions ==> x'.sessions[s].turn == None && x'.sessions[s].drains == [])
      && (s in x'.sessions && s in x.sessions ==>
            var t, t' := x.sessions[s], x'.sessions[s];
            && (t'.turn.Some? <==> e.TurnStarted? || (t.turn.Some? && !e.ReplyFinished?))
            && t'.drains == if e.TurnStarted? && t.turn == None then [] else t.drains + DrainOf(e))
  {
    hide Within, Before;
    if s in x.sessions { assert x.sessions[s].drains + [] == x.sessions[s].drains; }
  }

  lemma LastDrain(front: seq<Input>, s: string, e: Event, at: int, from: nat)
    requires from <= |front|
    ensures DrainsOf((front + [Emitted(s, e, at)])[from..], s) == DrainsOf(front[from..], s) + DrainOf(e)
    ensures DrainsOf((front + [Emitted(s, e, at)])[|front| + 1..], s) == []
  {
    var all := front + [Emitted(s, e, at)];
    assert all[from..] == front[from..] + [Emitted(s, e, at)];
    assert (front[from..] + [Emitted(s, e, at)])[..|front[from..]|] == front[from..];
  }

  lemma LastSays(front: seq<Input>, s: string, e: Event, at: int)
    ensures var inputs := front + [Emitted(s, e, at)];
      && Live(inputs, s) == (e.SessionOpen? || (Live(front, s) && !e.SessionClosed?))
      && InTurn(inputs, s) ==
           (if e.TurnStarted? then Live(front, s) else InTurn(front, s) && !e.ReplyFinished? && !e.SessionClosed?)
      && Since(inputs, s) ==
           if (e.SessionOpen? && !Live(front, s)) || (e.TurnStarted? && Live(front, s) && !InTurn(front, s))
           then |inputs| else Since(front, s)
  {
    assert (front + [Emitted(s, e, at)])[..|front|] == front;
  }

  lemma OwnFollows(x: Exporter, front: seq<Input>, s: string, e: Event, at: int)
    requires Placed(x) && Follows(x, front, s)
    ensures Follows(Next(x, s, e, at), front + [Emitted(s, e, at)], s)
  {
    hide Next, DrainsOf, DrainOf, Placed, Live, InTurn, Since;
    NextTrace(x, s, e, at);
    LastDrain(front, s, e, at, Since(front, s));
    LastSays(front, s, e, at);
  }

  /** What is no event of the session is nothing to it. */
  lemma OtherFollows(x: Exporter, x': Exporter, front: seq<Input>, i: Input, s: string)
    requires Follows(x, front, s) && (i.Emitted? ==> i.session != s)
    requires (s in x'.sessions <==> s in x.sessions) && (s in x.sessions ==> x'.sessions[s] == x.sessions[s])
    ensures Follows(x', front + [i], s)
  {
    var inputs, from := front + [i], Since(front, s);
    assert inputs[..|front|] == front;
    assert inputs[from..] == front[from..] + [i];
    assert (front[from..] + [i])[..|front[from..]|] == front[from..];
    assert DrainsOf(front[from..], s) + [] == DrainsOf(front[from..], s);
  }

  lemma TakenFollows(x: Exporter, front: seq<Input>, i: Input, s: string)
    requires Placed(x) && Follows(x, front, s)
    ensures Follows(Taken(x, i), front + [i], s)
  {
    hide Follows, Next, Placed;
    match i
    case Registered => OtherFollows(x, Taken(x, i), front, i, s);
    case Emitted(o, e, at) =>
      if o == s {
        OwnFollows(x, front, s, e, at);
      } else {
        OthersAreUntouched(x, o, e, at, s);
        OtherFollows(x, Taken(x, i), front, i, s);
      }
  }

  /** The count an exporter keeps is the one the session's own events give, read from where
      it, or its last turn, opened. */
  lemma {:induction false} TraceFollowsEvents(inputs: seq<Input>, s: string)
    ensures Follows(Run(inputs), inputs, s)
  {
    if inputs == [] {
    } else {
      var last := |inputs| - 1;
      TraceFollowsEvents(inputs[..last], s);
      InvPlaced(Run(inputs[..last]));
      TakenFollows(Run(inputs[..last]), inputs[..last], inputs[last], s);
      assert inputs[..last] + [inputs[last]] == inputs;
    }
  }

  /** So over every input: a stream's end makes a span exactly when, among the session's
      events since its last turn opened, no failure is left waiting for one; and otherwise
      it is used up. */
  lemma StreamEndsExactly(inputs: seq<Input>, s: string, length: Option<int>, at: int)
    requires Live(inputs, s)
    ensures var x, x' := Run(inputs), Run(inputs + [Emitted(s, SentenceSynthesized(length), at)]);
      var drains := DrainsOf(inputs[Since(inputs, s)..], s);
      && |x'.spans| == |x.spans| + (if Awaiting(drains) == 0 then 1 else 0)
      && Fails(drains) == Absorbed(drains) + Awaiting(drains)
  {
    WaitsFor(inputs, s);
    RunOnce(inputs, Emitted(s, SentenceSynthesized(length), at));
    hide *;
    StreamEndTaken(Run(inputs), s, length, at);
  }

  lemma WaitsFor(inputs: seq<Input>, s: string)
    requires Live(inputs, s)
    ensures var drains := DrainsOf(inputs[Since(inputs, s)..], s);
      && s in Run(inputs).sessions && Run(inputs).sessions[s].awaiting == Awaiting(drains)
      && Fails(drains) == Absorbed(drains) + Awaiting(drains)
  {
    hide Awaiting, Fails, Absorbed, FateOk, AsrOk;
    TraceFollowsEvents(inputs, s);
    assert TraceOk(Run(inputs), s);
    EachFailureAbsorbsOne(Run(inputs).sessions[s].drains);
  }

  lemma RunOnce(inputs: seq<Input>, i: Input)
    ensures Placed(Run(inputs)) && Run(inputs + [i]) == Taken(Run(inputs), i)
  {
    InvPlaced(Run(inputs));
    assert (inputs + [i])[..|inputs|] == inputs;
  }

  lemma StreamEndTaken(x: Exporter, s: string, length: Option<int>, at: int)
    requires Placed(x) && s in x.sessions
    ensures |Taken(x, Emitted(s, SentenceSynthesized(length), at)).spans|
      == |x.spans| + if x.sessions[s].awaiting == 0 then 1 else 0
  {}

  // The exporter's own steps

  class Telemetry {
    var sessions: map<string, Trace>
    var spans: seq<Span>
    var deferring: bool
    var handed: seq<Handed>
    ghost var dropped: set<nat>
    var warnings: nat

    ghost function View(): Exporter
      reads this
    {
      Exporter(sessions, spans, deferring, handed, dropped, warnings)
    }

    constructor ()
      ensures View() == Begin()
    {
      sessions, spans, deferring, handed, dropped, warnings := map[], [], false, [], {}, 0;
    }

    method StartSpan(span: Span) returns (id: nat)
      modifies this`spans
      ensures id == old(|spans|) && View() == Start(old(View()), span)
    {
      id := |spans|;
      spans := spans + [span];
    }

    method EndSpan(id: nat, at: int)
      requires id < |spans|
      modifies this`spans
      ensures View() == End(old(View()), id, at)
    {
      spans := spans[id := spans[id].(ends := spans[id].ends + [at])];
    }

    method AddEvent(s: string, at: int)
      requires Placed(View())
      modifies this`spans
      ensures View() == SpanEvent(old(View()), s, at)
    {
      if s in sessions {
        var id := Within(sessions[s]);
        spans := spans[id := spans[id].(notes := spans[id].notes + [at])];
      }
    }

    method RetrospectSpan(s: string, kind: Kind, failed: bool, at: int, length: Option<int>)
      requires s in sessions
      modifies this`spans
      ensures View() == Retrospect(old(View()), s, kind, failed, at, length)
    {
      ghost var before := spans;
      ghost var whole := Span(kind, s, Some(Within(sessions[s])), None, Before(at, length), [at], failed, []);
      var id := StartSpan(Span(kind, s, Some(Within(sessions[s])), None, Before(at, length), [], failed, []));
      EndSpan(id, at);
      assert [] + [at] == [at];
      assert spans == before + [whole];
    }

    method TakeSessionOpen(s: string, at: int)
      modifies this
      ensures View() == OpenSession(old(View()), s, at)
    {
      if s !in sessions {
        var id := StartSpan(Span(SessionSpan, s, None, None, at, [], false, []));
        sessions := sessions[s := Trace(id, None, None, false, None, 0, false, [])];
      }
    }

    method TakeSessionClosed(s: string, at: int)
      requires Placed(View())
      modifies this
      ensures View() == CloseSession(old(View()), s, at)
    {
      if s in sessions {
        var t := sessions[s];
        sessions := sessions - {s};
        dropped := dropped + SomeOf(t.turn) + SomeOf(t.playback);
        EndSpan(t.span, at);
      }
    }

    method TakeTurnStarted(s: string, utterance: Option<string>, at: int)
      modifies this
      ensures View() == OpenTurn(old(View()), s, utterance, at)
    {
      if s !in sessions { return; }
      var t := sessions[s];
      if t.turn.Some? {
        if !t.reported {
          sessions := sessions[s := t.(reported := true)];
          warnings := warnings + 1;
        }
        assert sessions[s] == t.(reported := true);
        return;
      }
      dropped := dropped + SomeOf(t.playback);
      t := t.(playback := None, transcribed := false, awaiting := 0, utterance := utterance, drains := []);
      var id := StartSpan(Span(TurnSpan, s, None, Some(t.span), at, [], false, []));
      sessions := sessions[s := t.(turn := Some(id))];
    }

    method TakeReplyFinished(s: string, at: int)
      requires Placed(View())
      modifies this
      ensures View() == CloseTurn(old(View()), s, at)
    {
      if s !in sessions || sessions[s].turn == None { return; }
      var t := sessions[s];
      sessions := sessions[s := t.(turn := None, utterance := None)];
      if !deferring || t.utterance == None {
        EndSpan(t.turn.value, at);
      } else {
        handed := handed + [Handed(s, t.utterance.value, t.turn.value, at)];
      }
    }

    method TakeAsr(s: string, failed: bool, length: Option<int>, at: int)
      requires Placed(View())
      modifies this
      ensures View() == AsrEnded(old(View()), s, failed, length, at)
    {
      if s !in sessions { return; }
      var t := sessions[s];
      if !failed && t.turn.Some? && t.transcribed {
        AddEvent(s, at);
        return;
      }
      RetrospectSpan(s, AsrSpan, failed, at, length);
      if t.turn.Some? && !t.transcribed { sessions := sessions[s := t.(transcribed := true)]; }
      assert sessions[s] == t.(transcribed := t.transcribed || t.turn.Some?);
    }

    method TakeProviderFailed(s: string, stage: Stage, length: Option<int>, at: int)
      requires Placed(View())
      modifies this
      ensures View() == Failed(old(View()), s, stage, length, at)
    {
      if stage == Asr {
        TakeAsr(s, true, length, at);
      } else if stage == Unknown {
        AddEvent(s, at);
      } else if s in sessions {
        RetrospectSpan(s, if stage == Llm then LlmSpan else TtsSpan, true, at, length);
        if stage == Tts {
          var t := sessions[s];
          sessions := sessions[s := t.(awaiting := t.awaiting + 1, drains := t.drains + [true])];
        }
      }
    }

    method TakeSynthesized(s: string, length: Option<int>, at: int)
      modifies this
      ensures View() == StreamEnded(old(View()), s, length, at)
    {
      if s !in sessions { return; }
      var t := sessions[s].(drains := sessions[s].drains + [false]);
      if t.awaiting > 0 {
        sessions := sessions[s := t.(awaiting := t.awaiting - 1)];
      } else {
        RetrospectSpan(s, TtsSpan, false, at, length);
        sessions := sessions[s := t];
      }
    }

    method TakeSpeakingStarted(s: string, at: int)
      requires Placed(View())
      modifies this
      ensures View() == OpenPlayback(old(View()), s, at)
    {
      if s !in sessions || sessions[s].turn == None || sessions[s].playback.Some? {
        AddEvent(s, at);
        return;
      }
      var t := sessions[s];
      var id := StartSpan(Span(PlaybackSpan, s, t.turn, None, at, [], false, []));
      sessions := sessions[s := t.(playback := Some(id))];
    }

    method TakeSpeakingFinished(s: string, at: int)
      requires Placed(View())
      modifies this
      ensures View() == ClosePlayback(old(View()), s, at)
    {
      if s !in sessions || sessions[s].playback == None {
        AddEvent(s, at);
        return;
      }
      var t := sessions[s];
      sessions := sessions[s := t.(playback := None)];
      EndSpan(t.playback.value, at);
    }

    /** The table of folds. Whatever comes, what every run keeps is kept. */
    method Fold(s: string, e: Event, at: int)
      requires Inv(View())
      modifies this
      ensures View() == Next(old(View()), s, e, at) && Inv(View())
    {
      hide Inv, Placed, OpenSession, CloseSession, OpenTurn, CloseTurn, AsrEnded, Failed, StreamEnded, OpenPlayback,
           ClosePlayback, SpanEvent, Retrospect;
      InvPlaced(View());
      NextKeepsInv(View(), s, e, at);
      match e
      case SessionOpen => TakeSessionOpen(s, at);
      case SessionClosed => TakeSessionClosed(s, at);
      case TurnStarted(utterance) => TakeTurnStarted(s, utterance, at);
      case ReplyFinished => TakeReplyFinished(s, at);
      case AsrOutcome(length) => TakeAsr(s, false, length, at);
      case ProviderFailed(stage, length) => TakeProviderFailed(s, stage, length, at);
      case LlmRound(length) => if s in sessions { RetrospectSpan(s, LlmSpan, false, at, length); }
      case ToolCall(length, isError) => if s in sessions { RetrospectSpan(s, ToolSpan, isError, at, length); }
      case SentenceSynthesized(length) => TakeSynthesized(s, length, at);
      case SpeakingStarted => TakeSpeakingStarted(s, at);
      case SpeakingFinished => TakeSpeakingFinished(s, at);
      case Other => AddEvent(s, at);
    }
  }
}
