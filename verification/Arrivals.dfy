/**
  What a recording holds, said of what reached it: each line's blocks, each turn's window
  and how far the events went, over every sequence of arrivals.
*/
module Arrivals {
  import opened Seqs
  import opened Timeline

  predicate IsAudio(a: Arrival) { a.Heard? || a.Said? }

  /** What reached the recording before anything ended it; audio of no samples is nothing. */
  function Accepted(limitS: real, arrivals: seq<Arrival>): seq<Arrival> {
    if arrivals == [] || !Continues(arrivals[0], limitS) then []
    else (if IsAudio(arrivals[0]) && arrivals[0].pcm == [] then [] else [arrivals[0]]) + Accepted(limitS, arrivals[1..])
  }

  ghost predicate AllContinue(limitS: real, arrivals: seq<Arrival>) {
    forall a | a in arrivals :: Continues(a, limitS)
  }

  predicate Counts(a: Arrival, limitS: real) {
    Continues(a, limitS) && !(IsAudio(a) && a.pcm == [])
  }

  lemma {:induction false} AcceptedMore(limitS: real, front: seq<Arrival>, a: Arrival)
    ensures Accepted(limitS, front + [a]) ==
      Accepted(limitS, front) + if AllContinue(limitS, front) && Counts(a, limitS) then [a] else []
    ensures AllContinue(limitS, front + [a]) <==> AllContinue(limitS, front) && Continues(a, limitS)
  {
    hide Continues;
    if front == [] {
      assert front + [a] == [a] && [a][1..] == [];
    } else {
      assert (front + [a])[1..] == front[1..] + [a];
      assert front == [front[0]] + front[1..];
      AcceptedMore(limitS, front[1..], a);
    }
  }

  /** What an arrival gives the recording. */
  datatype Kind = Microphone | Reply | KeptTurn

  predicate Is(a: Arrival, kind: Kind) {
    match kind
    case Microphone => a.Heard?
    case Reply => a.Said?
    case KeptTurn => a.Utterance? && a.kept
  }

  /** Where the arrivals of a kind are, first to last. */
  function Where(ins: seq<Arrival>, kind: Kind): seq<nat> {
    if ins == [] then []
    else
      var last := |ins| - 1;
      Where(ins[..last], kind) + if Is(ins[last], kind) then [last] else []
  }

  lemma {:induction false} WhereExactly(ins: seq<Arrival>, kind: Kind)
    ensures forall i: nat :: i in Where(ins, kind) <==> i < |ins| && Is(ins[i], kind)
    ensures forall k, m | 0 <= k < m < |Where(ins, kind)| :: Where(ins, kind)[k] < Where(ins, kind)[m]
  {
    if ins != [] {
      var last := |ins| - 1;
      WhereExactly(ins[..last], kind);
      var w := Where(ins[..last], kind);
      assert forall k | 0 <= k < |w| :: w[k] in w;
    }
  }

  lemma WhereMore(ins: seq<Arrival>, a: Arrival, kind: Kind)
    ensures Where(ins + [a], kind) == Where(ins, kind) + if Is(a, kind) then [|ins|] else []
  {
    assert (ins + [a])[..|ins|] == ins;
  }

  /** How far the file has been written by then: what audio came, less the flush's lag. */
  function Written(ins: seq<Arrival>): nat {
    if ins == [] then 0
    else
      var front, a := ins[..|ins| - 1], ins[|ins| - 1];
      if IsAudio(a) then Max(Written(front), FrameOf(a.at) - FLUSH_LAG) else Written(front)
  }

  lemma WrittenMore(ins: seq<Arrival>, a: Arrival)
    ensures Written(ins + [a]) == if IsAudio(a) then Max(Written(ins), FrameOf(a.at) - FLUSH_LAG) else Written(ins)
  {
    assert (ins + [a])[..|ins|] == ins;
  }

  /** One block with the samples that came, at its own frame, or right behind the line or
      the file where those reach further. */
  ghost predicate LaidFor(front: seq<Block>, b: Block, ins: seq<Arrival>, i: nat) {
    && i < |ins| && IsAudio(ins[i])
    && b == Block(Max(End(front), Max(FrameOf(ins[i].at), Written(ins[..i]))), ins[i].pcm)
  }

  /** The line is this audio, block by block and first to last. */
  ghost predicate Lays(line: seq<Block>, ins: seq<Arrival>, at: seq<nat>) {
    |line| == |at| && forall k | 0 <= k < |at| :: LaidFor(line[..k], line[k], ins, at[k])
  }

  lemma LaysOn(line: seq<Block>, ins: seq<Arrival>, at: seq<nat>, a: Arrival)
    requires Lays(line, ins, at)
    ensures Lays(line, ins + [a], at)
  {
    hide FrameOf, Written, End;
    forall k | 0 <= k < |at| ensures LaidFor(line[..k], line[k], ins + [a], at[k]) {
      assert LaidFor(line[..k], line[k], ins, at[k]);
      assert (ins + [a])[at[k]] == ins[at[k]] && (ins + [a])[..at[k]] == ins[..at[k]];
    }
  }

  lemma LaysMore(line: seq<Block>, ins: seq<Arrival>, at: seq<nat>, a: Arrival, b: Block)
    requires Lays(line, ins, at) && IsAudio(a)
    requires b == Block(Max(End(line), Max(FrameOf(a.at), Written(ins))), a.pcm)
    ensures Lays(line + [b], ins + [a], at + [|ins|])
  {
    hide FrameOf, Written, End;
    LaysOn(line, ins, at, a);
    var more, all, wh := line + [b], ins + [a], at + [|ins|];
    assert all[|ins|] == a && all[..|ins|] == ins && more[..|line|] == line;
    assert LaidFor(line, b, all, |ins|);
    hide LaidFor;
    forall k | 0 <= k < |wh| ensures LaidFor(more[..k], more[k], all, wh[k]) {
      if k < |at| { assert more[..k] == line[..k] && more[k] == line[k] && wh[k] == at[k]; }
    }
  }

  /** Where the window of the turn that began at `i` ends: at the next turn, kept or not. */
  function WindowEnd(ins: seq<Arrival>, i: nat): nat
    decreases |ins| - i
  {
    if i + 1 >= |ins| then |ins| else if ins[i + 1].Utterance? then i + 1 else WindowEnd(ins, i + 1)
  }

  lemma {:induction false} WindowEndExactly(ins: seq<Arrival>, i: nat)
    requires i < |ins|
    ensures i < WindowEnd(ins, i) <= |ins|
    ensures forall j | i < j < WindowEnd(ins, i) :: !ins[j].Utterance?
    ensures WindowEnd(ins, i) < |ins| ==> ins[WindowEnd(ins, i)].Utterance?
    decreases |ins| - i
  {
    if i + 1 < |ins| && !ins[i + 1].Utterance? { WindowEndExactly(ins, i + 1); }
  }

  lemma WindowEndMore(ins: seq<Arrival>, a: Arrival, i: nat)
    requires i < |ins|
    ensures WindowEnd(ins + [a], i) ==
      if WindowEnd(ins, i) == |ins| && !a.Utterance? then |ins| + 1 else WindowEnd(ins, i)
  {
    var all := ins + [a];
    WindowEndExactly(ins, i);
    WindowEndExactly(all, i);
    var e, f := WindowEnd(ins, i), WindowEnd(all, i);
    assert all[|ins|] == a;
    if e < |ins| { assert all[e] == ins[e]; }
    if f < |ins| { assert all[f] == ins[f]; }
  }

  /** How much of the reply had been paced before one moment. */
  function Replies(ins: seq<Arrival>, until: nat): nat
    requires until <= |ins|
  {
    |Where(ins[..until], Reply)|
  }

  /** The turn began with this arrival, and the reply blocks of its window are those paced
      between it and the next turn. */
  ghost predicate TurnIs(r: Record, k: nat, ins: seq<Arrival>, i: nat)
    requires k < |r.turns|
  {
    && i < |ins| && ins[i].Utterance?
    && WindowEnd(ins, i) <= |ins|
    && r.turns[k].utterance == ins[i].utterance && r.turns[k].heard == ins[i].heard
    && r.turns[k].lo == Replies(ins, i) && Hi(r, k) == Replies(ins, WindowEnd(ins, i))
  }

  ghost predicate TurnsAre(r: Record, ins: seq<Arrival>, at: seq<nat>) {
    |r.turns| == |at| && forall k | 0 <= k < |at| :: TurnIs(r, k, ins, at[k])
  }

  /** A turn is being answered: none began behind the last one kept. */
  ghost predicate Answering(ins: seq<Arrival>, at: seq<nat>) {
    at != [] && at[|at| - 1] < |ins| && WindowEnd(ins, at[|at| - 1]) == |ins|
  }

  /** The furthest of some frames, below zero for none. */
  function Furthest(frames: seq<nat>): int {
    if frames == [] then -1 else Max(Furthest(frames[..|frames| - 1]), frames[|frames| - 1])
  }

  /** The whole record, read off what was accepted. */
  ghost predicate Tells(r: Record, ins: seq<Arrival>) {
    && Lays(r.mic, ins, Where(ins, Microphone))
    && Lays(r.reply, ins, Where(ins, Reply))
    && TurnsAre(r, ins, Where(ins, KeptTurn))
    && r.cursor == Written(ins)
    && r.event == Furthest(r.track)
  }

  lemma ShutTells(r: Record, ins: seq<Arrival>)
    requires Tells(r, ins)
    ensures Tells(Shut(r), ins)
  {
    hide Lays, FrameOf, Written, Furthest;
    var n, at := Shut(r), Where(ins, KeptTurn);
    forall k | 0 <= k < |at| ensures TurnIs(n, k, ins, at[k]) {
      assert TurnIs(r, k, ins, at[k]) && Hi(n, k) == Hi(r, k);
    }
  }

  lemma RepliesMore(ins: seq<Arrival>, a: Arrival, until: nat)
    requires until <= |ins|
    ensures Replies(ins + [a], until) == Replies(ins, until)
    ensures Replies(ins + [a], |ins| + 1) == Replies(ins, |ins|) + if a.Said? then 1 else 0
  {
    hide Where;
    assert (ins + [a])[..until] == ins[..until];
    assert (ins + [a])[..|ins| + 1] == ins + [a] && ins[..|ins|] == ins;
    WhereMore(ins, a, Reply);
  }

  /** Every turn in front of the last has ended, and the last has while none is answered. */
  lemma EndedTurns(ins: seq<Arrival>, k: nat)
    requires k < |Where(ins, KeptTurn)|
    ensures Where(ins, KeptTurn)[k] < |ins|
    ensures k < |Where(ins, KeptTurn)| - 1 ==> WindowEnd(ins, Where(ins, KeptTurn)[k]) < |ins|
  {
    var at := Where(ins, KeptTurn);
    WhereExactly(ins, KeptTurn);
    assert at[k] in at;
    if k < |at| - 1 {
      assert at[k + 1] in at && at[k] < at[k + 1];
      WindowEndExactly(ins, at[k]);
    }
  }

  /** One more arrival that begins no turn: it goes to the window that is open. */
  lemma TurnGoesOn(r: Record, n: Record, ins: seq<Arrival>, a: Arrival, k: nat)
    requires !a.Utterance? && TurnsAre(r, ins, Where(ins, KeptTurn)) && k < |r.turns|
    requires |r.reply| == Replies(ins, |ins|) && (r.window <==> Answering(ins, Where(ins, KeptTurn)))
    requires n.turns == r.turns && n.window == r.window && |n.reply| == |r.reply| + if a.Said? then 1 else 0
    ensures TurnIs(n, k, ins + [a], Where(ins, KeptTurn)[k])
  {
    hide Where;
    var i := Where(ins, KeptTurn)[k];
    EndedTurns(ins, k);
    assert TurnIs(r, k, ins, i);
    WindowEndExactly(ins, i);
    WindowEndMore(ins, a, i);
    RepliesMore(ins, a, i);
    RepliesMore(ins, a, WindowEnd(ins, i));
    hide Replies;
    assert (ins + [a])[i] == ins[i];
  }

  /** One more turn closes the window in front, and opens its own where it is kept. */
  lemma TurnEnds(r: Record, ins: seq<Arrival>, a: Arrival, k: nat)
    requires a.Utterance? && TurnsAre(r, ins, Where(ins, KeptTurn)) && k < |r.turns|
    requires |r.reply| == Replies(ins, |ins|)
    ensures TurnIs(Turned(r, a.utterance, a.heard, a.kept), k, ins + [a], Where(ins, KeptTurn)[k])
  {
    hide Where;
    var i, n := Where(ins, KeptTurn)[k], Turned(r, a.utterance, a.heard, a.kept);
    EndedTurns(ins, k);
    assert TurnIs(r, k, ins, i);
    WindowEndExactly(ins, i);
    WindowEndMore(ins, a, i);
    RepliesMore(ins, a, i);
    RepliesMore(ins, a, WindowEnd(ins, i));
    hide Replies;
    assert (ins + [a])[i] == ins[i];
    assert Hi(n, k) == Hi(r, k);
  }

  lemma TurnBegins(r: Record, ins: seq<Arrival>, a: Arrival)
    requires a.Utterance? && a.kept && |r.reply| == Replies(ins, |ins|)
    ensures TurnIs(Turned(r, a.utterance, a.heard, true), |r.turns|, ins + [a], |ins|)
  {
    hide Where;
    var all, n := ins + [a], Turned(r, a.utterance, a.heard, true);
    assert |Shut(r).turns| == |r.turns|;
    assert WindowEnd(all, |ins|) == |all| && all[|ins|] == a;
    RepliesMore(ins, a, |ins|);
    hide Replies;
    assert Hi(n, |r.turns|) == |r.reply|;
  }

  // One step, and all of them

  /** What an open recording tells besides: whether a turn is being answered. */
  ghost predicate TellsOpen(r: Record, ins: seq<Arrival>) {
    Tells(r, ins) && (r.window <==> Answering(ins, Where(ins, KeptTurn)))
  }

  lemma AllReplies(r: Record, ins: seq<Arrival>)
    requires Tells(r, ins)
    ensures |r.reply| == Replies(ins, |ins|) && |r.turns| == |Where(ins, KeptTurn)|
  {
    assert ins[..|ins|] == ins;
  }

  lemma AnsweringOn(ins: seq<Arrival>, a: Arrival)
    requires !a.Utterance?
    ensures Answering(ins + [a], Where(ins, KeptTurn)) <==> Answering(ins, Where(ins, KeptTurn))
  {
    var at := Where(ins, KeptTurn);
    if at != [] {
      EndedTurns(ins, |at| - 1);
      WindowEndMore(ins, a, at[|at| - 1]);
      WindowEndExactly(ins, at[|at| - 1]);
    }
  }

  /** What begins no turn leaves the turns to those that are there. */
  lemma SameTurns(r: Record, n: Record, ins: seq<Arrival>, a: Arrival)
    requires TellsOpen(r, ins) && !a.Utterance? && n.turns == r.turns && n.window == r.window
    requires |n.reply| == |r.reply| + if a.Said? then 1 else 0
    ensures TurnsAre(n, ins + [a], Where(ins + [a], KeptTurn))
    ensures n.window <==> Answering(ins + [a], Where(ins + [a], KeptTurn))
  {
    AllReplies(r, ins);
    WhereMore(ins, a, KeptTurn);
    AnsweringOn(ins, a);
    hide FrameOf, Where, WindowEnd, Written, Lays, Replies, Answering, End;
    var at := Where(ins, KeptTurn);
    assert Where(ins + [a], KeptTurn) == at;
    forall k | 0 <= k < |at| ensures TurnIs(n, k, ins + [a], at[k]) { TurnGoesOn(r, n, ins, a, k); }
  }

  lemma SameLine(line: seq<Block>, ins: seq<Arrival>, a: Arrival, kind: Kind)
    requires Lays(line, ins, Where(ins, kind)) && !Is(a, kind)
    ensures Lays(line, ins + [a], Where(ins + [a], kind))
  {
    hide Lays, Where;
    WhereMore(ins, a, kind);
    assert Where(ins, kind) + [] == Where(ins, kind);
    LaysOn(line, ins, Where(ins, kind), a);
  }

  lemma MoreLine(line: seq<Block>, ins: seq<Arrival>, a: Arrival, kind: Kind)
    requires Lays(line, ins, Where(ins, kind)) && Is(a, kind) && IsAudio(a)
    ensures Lays(line + [Block(Max(End(line), Max(FrameOf(a.at), Written(ins))), a.pcm)], ins + [a],
                 Where(ins + [a], kind))
  {
    hide Lays, Where, FrameOf, Written, End;
    WhereMore(ins, a, kind);
    LaysMore(line, ins, Where(ins, kind), a, Block(Max(End(line), Max(FrameOf(a.at), Written(ins))), a.pcm));
  }

  lemma HeardTells(r: Record, ins: seq<Arrival>, a: Arrival)
    requires TellsOpen(r, ins) && a.Heard?
    ensures TellsOpen(Spoken(r, a.pcm, FrameOf(a.at)), ins + [a])
  {
    hide FrameOf, Where, WindowEnd, Written, Lays, Answering, End, TurnsAre;
    SameTurns(r, Spoken(r, a.pcm, FrameOf(a.at)), ins, a);
    MoreLine(r.mic, ins, a, Microphone);
    SameLine(r.reply, ins, a, Reply);
    WrittenMore(ins, a);
  }

  lemma SaidTells(r: Record, ins: seq<Arrival>, a: Arrival)
    requires TellsOpen(r, ins) && a.Said?
    ensures TellsOpen(Paced(r, a.pcm, FrameOf(a.at)), ins + [a])
  {
    hide FrameOf, Where, WindowEnd, Written, Lays, Answering, End, TurnsAre;
    SameTurns(r, Paced(r, a.pcm, FrameOf(a.at)), ins, a);
    SameLine(r.mic, ins, a, Microphone);
    MoreLine(r.reply, ins, a, Reply);
    WrittenMore(ins, a);
  }

  lemma TurnTells(r: Record, ins: seq<Arrival>, a: Arrival)
    requires TellsOpen(r, ins) && a.Utterance?
    ensures TellsOpen(Turned(r, a.utterance, a.heard, a.kept), ins + [a])
  {
    var n, at := Turned(r, a.utterance, a.heard, a.kept), Where(ins, KeptTurn);
    AllReplies(r, ins);
    WhereMore(ins, a, Microphone);
    WhereMore(ins, a, Reply);
    WhereMore(ins, a, KeptTurn);
    WrittenMore(ins, a);
    TurnAnswers(ins, a);
    assert n.mic == r.mic && n.reply == r.reply && n.cursor == r.cursor && n.window == a.kept;
    assert n.track == r.track && n.event == r.event && |n.turns| == |r.turns| + if a.kept then 1 else 0;
    hide FrameOf, Where, WindowEnd, Written, Lays, Replies, Answering, End, Turned;
    LaysOn(r.mic, ins, Where(ins, Microphone), a);
    LaysOn(r.reply, ins, Where(ins, Reply), a);
    forall k | 0 <= k < |at| ensures TurnIs(n, k, ins + [a], at[k]) { TurnEnds(r, ins, a, k); }
    if a.kept { TurnBegins(r, ins, a); }
    var wh := Where(ins + [a], KeptTurn);
    forall k | 0 <= k < |wh| ensures TurnIs(n, k, ins + [a], wh[k]) {
      if k < |at| { assert wh[k] == at[k]; }
    }
  }

  lemma TurnAnswers(ins: seq<Arrival>, a: Arrival)
    requires a.Utterance?
    ensures Answering(ins + [a], Where(ins + [a], KeptTurn)) <==> a.kept
  {
    var at := Where(ins, KeptTurn);
    WhereMore(ins, a, KeptTurn);
    if !a.kept && at != [] {
      EndedTurns(ins, |at| - 1);
      WindowEndMore(ins, a, at[|at| - 1]);
      WindowEndExactly(ins, at[|at| - 1]);
    }
  }

  lemma NotedTells(r: Record, ins: seq<Arrival>, a: Arrival)
    requires TellsOpen(r, ins) && a.Event?
    ensures TellsOpen(Noted(r, FrameOf(a.at)), ins + [a])
  {
    hide FrameOf, Where, WindowEnd, Written, Lays, Answering, End, TurnsAre, Furthest;
    SameTurns(r, Noted(r, FrameOf(a.at)), ins, a);
    SameLine(r.mic, ins, a, Microphone);
    SameLine(r.reply, ins, a, Reply);
    WrittenMore(ins, a);
    FurthestMore(r.track, Min(FrameOf(a.at), r.limit));
  }

  lemma FurthestMore(track: seq<nat>, f: nat)
    ensures Furthest(track + [f]) == Max(Furthest(track), f)
  {
    assert (track + [f])[..|track|] == track;
  }

  /** One arrival more, whatever it is. */
  lemma TakenTells(s: Recording, a: Arrival, limitS: real, ins: seq<Arrival>)
    requires Tells(s.record, ins) && (s.open ==> TellsOpen(s.record, ins))
    ensures var n, more := Taken(s, a, limitS), if s.open && Counts(a, limitS) then ins + [a] else ins;
      Tells(n.record, more) && (n.open ==> TellsOpen(n.record, more)) && (n.open <==> s.open && Continues(a, limitS))
  {
    hide Tells, Answering, FrameOf;
    if s.open && Counts(a, limitS) {
      match a
      case Heard(_, _) => HeardTells(s.record, ins, a);
      case Said(_, _) => SaidTells(s.record, ins, a);
      case Utterance(_, _, _, _) => TurnTells(s.record, ins, a);
      case Event(_) => NotedTells(s.record, ins, a);
    } else {
      ShutTells(s.record, ins);
    }
  }

  /** Over every limit and all arrivals, the recording holds what was accepted and nothing
      else: one block on the microphone's line for each piece of audio heard and one on the
      reply's for each one said, in their order, with the samples that came; one turn for
      each kept utterance with the reply of its own window. */
  lemma {:induction false} RecordTells(limitS: real, arrivals: seq<Arrival>)
    ensures var s, ins := Recorded(limitS, arrivals), Accepted(limitS, arrivals);
      && Tells(s.record, ins) && (s.open ==> TellsOpen(s.record, ins))
      && (s.open <==> AllContinue(limitS, arrivals))
  {
    hide Tells, Answering, Taken, FrameOf, Counts, Continues;
    if arrivals == [] {
      FreshTells(limitS);
    } else {
      var last := |arrivals| - 1;
      var front, a := arrivals[..last], arrivals[last];
      assert arrivals == front + [a];
      RecordTells(limitS, front);
      AcceptedMore(limitS, front, a);
      TakenTells(Recorded(limitS, front), a, limitS, Accepted(limitS, front));
      assert Accepted(limitS, front) + [] == Accepted(limitS, front);
    }
  }

  lemma FreshTells(limitS: real)
    ensures TellsOpen(Fresh(FrameOf(limitS)), [])
  {}

  lemma {:induction false} WrittenBehind(ins: seq<Arrival>, at: real)
    requires Prompt(ins, at)
    ensures Written(ins) <= FrameOf(at)
  {
    if ins != [] {
      var last := |ins| - 1;
      assert ins == ins[..last] + [ins[last]];
      WrittenBehind(ins[..last], at);
      if IsAudio(ins[last]) { LagIsBehind(ins[last].at, at); }
      hide FrameOf;
    }
  }

  /** Audio that comes no more than the flush's lag behind any before it lies at its own
      frame or right behind its line. */
  lemma LaidInTime(line: seq<Block>, ins: seq<Arrival>, at: seq<nat>, k: nat)
    requires Lays(line, ins, at) && k < |at| && Prompt(ins[..at[k]], ins[at[k]].at)
    ensures line[k] == Block(Max(End(line[..k]), FrameOf(ins[at[k]].at)), ins[at[k]].pcm)
  {
    hide FrameOf, End;
    assert LaidFor(line[..k], line[k], ins, at[k]);
    WrittenBehind(ins[..at[k]], ins[at[k]].at);
  }

  /** What each turn answers, the last of them where two go by one name. */
  function HeardClips(turns: seq<Turn>): map<string, seq<Sample>> {
    if turns == [] then map[]
    else
      var last := turns[|turns| - 1];
      HeardClips(turns[..|turns| - 1])[last.utterance := last.heard]
  }

  lemma {:induction false} HeardClipsExactly(turns: seq<Turn>)
    ensures forall u :: u in HeardClips(turns) <==> exists k | 0 <= k < |turns| :: turns[k].utterance == u
    ensures forall k | 0 <= k < |turns| && (forall j | k < j < |turns| :: turns[j].utterance != turns[k].utterance) ::
      turns[k].utterance in HeardClips(turns) && HeardClips(turns)[turns[k].utterance] == turns[k].heard
  {
    if turns != [] { HeardClipsExactly(turns[..|turns| - 1]); }
  }

  lemma ShutHeard(r: Record)
    ensures HeardClips(Shut(r).turns) == HeardClips(r.turns)
  {
    if r.window && r.turns != [] {
      var n := Shut(r);
      assert n.turns[..|n.turns| - 1] == r.turns[..|r.turns| - 1];
    }
  }

  lemma TurnedHeard(r: Record, utterance: string, heard: seq<Sample>, kept: bool)
    ensures HeardClips(Turned(r, utterance, heard, kept).turns)
      == if kept then HeardClips(r.turns)[utterance := heard] else HeardClips(r.turns)
  {
    ShutHeard(r);
    var n := Turned(r, utterance, heard, kept);
    if kept { assert n.turns[..|n.turns| - 1] == Shut(r).turns; }
  }

  lemma RecordedMore(limitS: real, arrivals: seq<Arrival>, a: Arrival)
    ensures Recorded(limitS, arrivals + [a]) == Taken(Recorded(limitS, arrivals), a, limitS)
  {
    assert (arrivals + [a])[..|arrivals|] == arrivals;
  }

  // What a turn's clip spans

  /** From the first block to the end of the last, of those that start below the limit, and
      no further than the limit. */
  ghost predicate Spans(blocks: seq<Block>, limit: nat, from: nat, to: nat) {
    && blocks != [] && blocks[0].at < limit && from == blocks[0].at
    && exists m :: LastBelow(blocks, limit, to, m)
  }

  ghost predicate LastBelow(blocks: seq<Block>, limit: nat, to: nat, m: int) {
    && 0 <= m < |blocks| && blocks[m].at < limit
    && to == Min(blocks[m].at + |blocks[m].pcm|, limit)
    && forall j | m < j < |blocks| :: limit <= blocks[j].at
  }

  lemma HullOfWindow(line: seq<Block>, lo: nat, hi: nat, m: nat, limit: nat)
    requires Ordered(line) && lo < m <= hi <= |line| && line[m - 1].at < limit
    requires forall j | m <= j < hi :: limit <= line[j].at
    ensures Spans(line[lo..hi], limit, line[lo].at, Min(End(line[..m]), limit))
  {
    hide Ordered, End;
    EarlierStartsBelow(line, lo, m);
    EndOfFront(line, m);
    var blocks, last := line[lo..hi], m - 1 - lo;
    assert blocks[last] == line[m - 1] && blocks[0] == line[lo];
    forall j | last < j < |blocks| ensures limit <= blocks[j].at { assert blocks[j] == line[lo + j]; }
    assert LastBelow(blocks, limit, Min(End(line[..m]), limit), last);
  }

  lemma EndOfFront(line: seq<Block>, m: nat)
    requires 0 < m <= |line|
    ensures End(line[..m]) == line[m - 1].at + |line[m - 1].pcm|
  {}

  /** The span of a turn is that of the reply blocks of its window, and there is none where
      none of them starts below the limit. */
  lemma SpanOfWindow(r: Record, i: nat)
    requires Sound(r) && i < |r.turns|
    ensures var blocks := r.reply[r.turns[i].lo..Hi(r, i)];
      && (Span(r, i).Some? ==> Spans(blocks, r.limit, Span(r, i).value.0, Span(r, i).value.1))
      && (Span(r, i).None? ==> forall b | b in blocks :: r.limit <= b.at)
  {
    hide Ordered, End, Spans;
    var lo, hi := r.turns[i].lo, Hi(r, i);
    var m := Within(r.reply, hi, r.limit);
    if lo < m {
      HullOfWindow(r.reply, lo, hi, m, r.limit);
    } else {
      forall b | b in r.reply[lo..hi] ensures r.limit <= b.at {
        var j :| lo <= j < hi && r.reply[j] == b;
      }
    }
  }
}
