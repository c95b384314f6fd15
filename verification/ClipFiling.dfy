/**
  A job's clips filed turn by turn, and an account of every one.

  The answers of everything outside are part of the input: whether a clip's file
  can be read, what each attempt to send it meets, whether a turn's reference is
  accepted. Everything below holds whatever those answers are.
*/
module ClipFiling {
  import opened Wrappers

  datatype Reason = StagingLost | TooLarge | Unreachable | RefusedBySide | Unreferenced

  datatype Name = Heard | Reply

  type Token = nat

  /** What one attempt meets: the clip lands, the far side or this one refuses, or it
      fails in a way that trying again may or may not change. */
  datatype Answer = Landed(media: Token) | Refused(why: Reason) | Failed(why: Reason, again: bool)

  /** `lost` is why its bytes cannot be had, where they cannot. */
  datatype Clip = Clip(reference: Name, lost: Option<Reason>, answers: nat -> Answer)

  /** `pinned` is whether the turn has a context with a trace; `accepts` is what the
      reference written onto it would answer. */
  datatype Turn = Turn(clips: seq<Clip>, pinned: bool, accepts: bool)

  // One upload

  datatype Sent = Sent(media: Option<Token>, reason: Option<Reason>, exhausted: bool, attempts: nat)

  /** An upload from its `attempt`th try on. */
  function Tried(answers: nat -> Answer, attempt: nat, retries: nat): Sent
    requires attempt <= retries
    decreases retries - attempt
  {
    match answers(attempt)
    case Landed(media) => Sent(Some(media), None, false, attempt + 1)
    case Refused(why) => Sent(None, Some(why), false, attempt + 1)
    case Failed(why, again) =>
      if !again then Sent(None, Some(why), false, attempt + 1)
      else if attempt == retries then Sent(None, Some(why), true, attempt + 1)
      else Tried(answers, attempt + 1, retries)
  }

  predicate Retryable(a: Answer) { a.Failed? && a.again }

  /** An upload makes no more than one attempt and its retries; every one but the last
      met a failure worth retrying, and only where the last did too is it exhausted. What it
      brings, and why it failed, is what the last attempt met. */
  lemma {:induction false} TriedExactly(answers: nat -> Answer, attempt: nat, retries: nat)
    requires attempt <= retries
    ensures var s := Tried(answers, attempt, retries);
      && attempt < s.attempts <= retries + 1
      && (forall k | attempt <= k < s.attempts - 1 :: Retryable(answers(k)))
      && (s.exhausted <==> forall k | attempt <= k <= retries :: Retryable(answers(k)))
      && (s.attempts == retries + 1 || !Retryable(answers(s.attempts - 1)))
      && (s.exhausted ==> s.attempts == retries + 1)
      && (match answers(s.attempts - 1)
          case Landed(media) => s.media == Some(media) && s.reason == None
          case Refused(why) => s.media == None && s.reason == Some(why)
          case Failed(why, _) => s.media == None && s.reason == Some(why))
    decreases retries - attempt
  {
    if Retryable(answers(attempt)) && attempt < retries { TriedExactly(answers, attempt + 1, retries); }
  }

  function Doubled(wait: real, times: nat): real {
    if times == 0 then wait else 2.0 * Doubled(wait, times - 1)
  }

  /** After how many of the first attempts no shutdown had been asked for. */
  function Patient(stopping: nat -> bool, attempts: nat): nat {
    if attempts == 0 then 0 else Patient(stopping, attempts - 1) + if stopping(attempts - 1) then 0 else 1
  }

  /** The retry loop. It waits after every attempt but the last, save those at which
      `stopping` holds, and each wait is twice the one before it. */
  method Retrying(answers: nat -> Answer, retries: nat, backoff: real, stopping: nat -> bool)
    returns (s: Sent, waits: seq<real>)
    ensures s == Tried(answers, 0, retries)
    ensures s.attempts > 0 && |waits| == Patient(stopping, s.attempts - 1)
    ensures forall k | 0 <= k < |waits| :: waits[k] == Doubled(backoff, k)
  {
    var reason := Unreachable;
    var wait := backoff;
    waits := [];
    for attempt := 0 to retries + 1
      invariant attempt <= retries ==> Tried(answers, attempt, retries) == Tried(answers, 0, retries)
      invariant attempt == retries + 1 ==> Tried(answers, 0, retries) == Sent(None, Some(reason), true, retries + 1)
      invariant |waits| == Patient(stopping, if attempt <= retries then attempt else retries)
      invariant wait == Doubled(backoff, |waits|) && forall k | 0 <= k < |waits| :: waits[k] == Doubled(backoff, k)
    {
      match answers(attempt) {
        case Landed(media) => return Sent(Some(media), None, false, attempt + 1), waits;
        case Refused(why) => return Sent(None, Some(why), false, attempt + 1), waits;
        case Failed(why, again) =>
          reason := why;
          if !again { return Sent(None, Some(reason), false, attempt + 1), waits; }
      }
      if attempt < retries && !stopping(attempt) {
        waits := waits + [wait];
        wait := 2.0 * wait;
      }
    }
    return Sent(None, Some(reason), true, retries + 1), waits;
  }

  /** One clip against its turn's trace; nothing is sent of a clip whose bytes cannot
      be had. */
  function Filing(clip: Clip, retries: nat): Sent {
    if clip.lost.Some? then Sent(None, clip.lost, false, 0) else Tried(clip.answers, 0, retries)
  }

  // One job

  /** The counts of a job's clips, and why the first failed one failed. */
  datatype Tally = Tally(attached: nat, unfiled: nat, failed: nat, skipped: nat, reason: Option<Reason>)

  function Failing(t: Tally, reason: Reason, clips: nat): Tally {
    t.(failed := t.failed + clips, reason := if t.reason == None then Some(reason) else t.reason)
  }

  function Total(t: Tally): nat { t.attached + t.unfiled + t.failed + t.skipped }

  /** A clip that was read and sent, and how that ended. */
  datatype Send = Send(turn: nat, clip: nat, sent: Sent)

  /** A reference that was written, with the clips it names. */
  datatype Reference = Reference(turn: nat, tokens: map<Name, Token>, accepted: bool)

  datatype Progress = Progress(filed: Tally, stopped: bool, sends: seq<Send>, references: seq<Reference>)

  const NONE := Progress(Tally(0, 0, 0, 0, None), false, [], [])

  function TakeClip(p: Progress, tokens: map<Name, Token>, turn: nat, i: nat, clip: Clip, retries: nat)
    : (Progress, map<Name, Token>)
  {
    if p.stopped then (p.(filed := p.filed.(skipped := p.filed.skipped + 1)), tokens)
    else
      var s := Filing(clip, retries);
      var p' := p.(stopped := s.exhausted, sends := p.sends + if clip.lost == None then [Send(turn, i, s)] else []);
      if s.reason.Some? then (p'.(filed := Failing(p.filed, s.reason.value, 1)), tokens)
      else if s.media.Some? then (p', tokens[clip.reference := s.media.value])
      else (p', tokens)
  }

  function TakeClips(p: Progress, turn: nat, clips: seq<Clip>, retries: nat): (Progress, map<Name, Token>) {
    if clips == [] then (p, map[])
    else
      var last := |clips| - 1;
      var (p', tokens) := TakeClips(p, turn, clips[..last], retries);
      TakeClip(p', tokens, turn, last, clips[last], retries)
  }

  function TakeReference(p: Progress, turn: nat, tokens: map<Name, Token>, accepts: bool): Progress {
    if tokens == map[] then p
    else
      p.(references := p.references + [Reference(turn, tokens, accepts)],
         filed := if accepts then p.filed.(attached := p.filed.attached + |tokens|)
                  else Failing(p.filed, Unreferenced, |tokens|))
  }

  function TakeTurn(p: Progress, number: nat, turn: Turn, retries: nat): Progress {
    if p.stopped then p.(filed := p.filed.(skipped := p.filed.skipped + |turn.clips|))
    else if !turn.pinned then p.(filed := p.filed.(unfiled := p.filed.unfiled + |turn.clips|))
    else
      var (p', tokens) := TakeClips(p, number, turn.clips, retries);
      TakeReference(p', number, tokens, turn.accepts)
  }

  function TakeTurns(turns: seq<Turn>, retries: nat): Progress {
    if turns == [] then NONE
    else
      var last := |turns| - 1;
      TakeTurn(TakeTurns(turns[..last], retries), last, turns[last], retries)
  }

  function Clips(turns: seq<Turn>): nat {
    if turns == [] then 0 else Clips(turns[..|turns| - 1]) + |turns[|turns| - 1].clips|
  }

  // Staging gives every clip of a turn a reference of its own

  /** What the capture kept of one turn. */
  datatype Kept = Kept(heard: Option<Clip>, reply: Option<Clip>, pinned: bool, accepts: bool)

  function Staged(k: Kept): Turn {
    Turn((if k.heard.Some? then [k.heard.value.(reference := Heard)] else [])
         + (if k.reply.Some? then [k.reply.value.(reference := Reply)] else []), k.pinned, k.accepts)
  }

  ghost predicate DistinctReferences(clips: seq<Clip>) {
    forall i, j | 0 <= i < j < |clips| :: clips[i].reference != clips[j].reference
  }

  /** This clip is there under this name, as it was kept. */
  ghost predicate StagedAs(clips: seq<Clip>, name: Name, kept: Option<Clip>) {
    && (kept.Some? <==> exists c | c in clips :: c.reference == name)
    && forall c | c in clips && c.reference == name :: c.lost == kept.value.lost && c.answers == kept.value.answers
  }

  lemma StagedDistinct(k: Kept)
    ensures DistinctReferences(Staged(k).clips)
    ensures StagedAs(Staged(k).clips, Heard, k.heard) && StagedAs(Staged(k).clips, Reply, k.reply)
  {
    var clips := Staged(k).clips;
    if k.heard.Some? { assert clips[0] in clips; }
    if k.reply.Some? { assert clips[|clips| - 1] in clips; }
  }

  // Nothing is lost count of

  /** The references of the clips taken so far. */
  ghost function Names(clips: seq<Clip>): set<Name> {
    set c | c in clips :: c.reference
  }

  lemma {:induction false} ClipsCounted(p: Progress, turn: nat, clips: seq<Clip>, retries: nat)
    requires DistinctReferences(clips)
    ensures var (p', tokens) := TakeClips(p, turn, clips, retries);
      && Total(p'.filed) + |tokens| == Total(p.filed) + |clips|
      && tokens.Keys <= Names(clips) && p'.references == p.references
  {
    if clips != [] {
      var last := |clips| - 1;
      ClipsCounted(p, turn, clips[..last], retries);
      assert clips == clips[..last] + [clips[last]];
      assert clips[last].reference !in Names(clips[..last]);
      TriedEnds(clips[last], retries);
    }
  }

  lemma TriedEnds(clip: Clip, retries: nat)
    ensures Filing(clip, retries).reason.Some? <==> Filing(clip, retries).media == None
  {
    TriedExactly(clip.answers, 0, retries);
  }

  /** Every staged clip is counted once: attached, unfiled, failed or skipped. */
  lemma {:induction false} EveryClipCounted(turns: seq<Turn>, retries: nat)
    requires forall t | t in turns :: DistinctReferences(t.clips)
    ensures Total(TakeTurns(turns, retries).filed) == Clips(turns)
  {
    if turns != [] {
      var last := |turns| - 1;
      EveryClipCounted(turns[..last], retries);
      ClipsCounted(TakeTurns(turns[..last], retries), last, turns[last].clips, retries);
    }
  }

  /** Were two clips of a turn under one reference, one token would hide the other and
      the counts would come up short. */
  lemma SharedReferenceLosesCount(a: Clip, b: Clip, retries: nat)
    requires a.reference == b.reference && a.lost == None && b.lost == None
    requires a.answers(0).Landed? && b.answers(0).Landed?
    ensures var turns := [Turn([a, b], true, true)];
      Total(TakeTurns(turns, retries).filed) == 1 && Clips(turns) == 2
  {
    var clips := [a, b];
    var turns := [Turn(clips, true, true)];
    assert turns[..0] == [] && clips[..1] == [a] && clips[..1][..0] == [];
    assert TakeClips(NONE, 0, [], retries) == (NONE, map[]);
    var (p1, t1) := TakeClips(NONE, 0, [a], retries);
    assert (p1, t1) == TakeClip(NONE, map[], 0, 0, a, retries);
    assert t1 == map[a.reference := a.answers(0).media] && p1.filed == NONE.filed && !p1.stopped;
    var (p2, t2) := TakeClips(NONE, 0, clips, retries);
    assert (p2, t2) == TakeClip(p1, t1, 0, 1, b, retries);
    assert t2 == map[a.reference := b.answers(0).media] && p2.filed == NONE.filed;
    assert TakeTurns(turns, retries) == TakeTurn(NONE, 0, turns[0], retries);
    assert TakeTurn(NONE, 0, turns[0], retries) == TakeReference(p2, 0, t2, true);
    assert |t2.Keys| == 1 && t2 != map[];
    assert Clips(turns[..0]) == 0;
  }

  ghost function Accepted(references: seq<Reference>): nat {
    if references == [] then 0
    else
      var last := references[|references| - 1];
      Accepted(references[..|references| - 1]) + if last.accepted then |last.tokens| else 0
  }

  lemma {:induction false} ClipsAttachNothing(p: Progress, turn: nat, clips: seq<Clip>, retries: nat)
    ensures var (p', tokens) := TakeClips(p, turn, clips, retries);
      p'.filed.attached == p.filed.attached && p'.references == p.references
  {
    if clips != [] { ClipsAttachNothing(p, turn, clips[..|clips| - 1], retries); }
  }

  /** What counts as attached is what stands in a reference that was accepted. */
  lemma {:induction false} AttachedIsReferenced(turns: seq<Turn>, retries: nat)
    ensures var p := TakeTurns(turns, retries); p.filed.attached == Accepted(p.references)
  {
    if turns != [] {
      var last := |turns| - 1;
      AttachedIsReferenced(turns[..last], retries);
      var before := TakeTurns(turns[..last], retries);
      ClipsAttachNothing(before, last, turns[last].clips, retries);
      var p := TakeTurns(turns, retries);
      if p.references != before.references {
        assert p.references[..|p.references| - 1] == before.references;
      }
    }
  }

  /** Every token a reference carries is one of its turn's clips that landed. */
  ghost predicate FromLanded(tokens: map<Name, Token>, turn: nat, sends: seq<Send>, clips: seq<Clip>) {
    forall name | name in tokens :: exists s | s in sends ::
      s.turn == turn && s.clip < |clips| && clips[s.clip].reference == name && s.sent.media == Some(tokens[name])
  }

  lemma {:induction false} TokensLanded(p: Progress, turn: nat, clips: seq<Clip>, retries: nat)
    ensures var (p', tokens) := TakeClips(p, turn, clips, retries);
      && FromLanded(tokens, turn, p'.sends, clips)
      && p.sends <= p'.sends
  {
    if clips != [] {
      var last := |clips| - 1;
      TokensLanded(p, turn, clips[..last], retries);
      var (q, before) := TakeClips(p, turn, clips[..last], retries);
      var (p', tokens) := TakeClips(p, turn, clips, retries);
      assert q.sends <= p'.sends;
      forall name | name in tokens
        ensures exists s | s in p'.sends ::
          s.turn == turn && s.clip < |clips| && clips[s.clip].reference == name && s.sent.media == Some(tokens[name])
      {
        if name in before && tokens[name] == before[name] {
          var s :| s in q.sends && s.turn == turn && s.clip < last && clips[..last][s.clip].reference == name
            && s.sent.media == Some(before[name]);
          assert s in p'.sends;
        } else {
          assert p'.sends[|p'.sends| - 1] == Send(turn, last, Filing(clips[last], retries));
        }
      }
    }
  }

  lemma {:induction false} ReferencesLanded(turns: seq<Turn>, retries: nat)
    ensures var p := TakeTurns(turns, retries); forall r | r in p.references ::
      && r.turn < |turns| && r.accepted == turns[r.turn].accepts
      && FromLanded(r.tokens, r.turn, p.sends, turns[r.turn].clips)
  {
    if turns != [] {
      var last := |turns| - 1;
      ReferencesLanded(turns[..last], retries);
      var before, p := TakeTurns(turns[..last], retries), TakeTurns(turns, retries);
      TokensLanded(before, last, turns[last].clips, retries);
      ClipsAttachNothing(before, last, turns[last].clips, retries);
      assert before.sends <= p.sends;
      forall r | r in p.references
        ensures r.turn < |turns| && r.accepted == turns[r.turn].accepts
        ensures FromLanded(r.tokens, r.turn, p.sends, turns[r.turn].clips)
      {
        if r in before.references {
          assert turns[..last][r.turn] == turns[r.turn];
          assert FromLanded(r.tokens, r.turn, before.sends, turns[r.turn].clips);
        }
      }
    }
  }

  // Once the backend is gone

  /** Clips are sent in order, none twice; a stop is the last thing sent having used up
      every retry, and nothing before it did. */
  ghost predicate InOrder(p: Progress, retries: nat) {
    && (forall i, j | 0 <= i < j < |p.sends| ::
          p.sends[i].turn < p.sends[j].turn
          || (p.sends[i].turn == p.sends[j].turn && p.sends[i].clip < p.sends[j].clip))
    && (forall i | 0 <= i < |p.sends| :: 1 <= p.sends[i].sent.attempts <= retries + 1)
    && (forall i | 0 <= i < |p.sends| - 1 :: !p.sends[i].sent.exhausted)
    && (p.stopped <==> p.sends != [] && p.sends[|p.sends| - 1].sent.exhausted)
  }

  ghost predicate Behind(p: Progress, turn: nat, clip: nat) {
    forall i | 0 <= i < |p.sends| :: p.sends[i].turn < turn || (p.sends[i].turn == turn && p.sends[i].clip < clip)
  }

  lemma SendInOrder(p: Progress, q: Progress, s: Sent, turn: nat, i: nat, retries: nat)
    requires InOrder(p, retries) && Behind(p, turn, i) && !p.stopped
    requires q.sends == p.sends + [Send(turn, i, s)] && q.stopped == s.exhausted && 1 <= s.attempts <= retries + 1
    ensures InOrder(q, retries) && Behind(q, turn, i + 1)
  {
    var n := |p.sends|;
    assert q.sends[n] == Send(turn, i, s);
    forall k | 0 <= k < n ensures q.sends[k] == p.sends[k] && !q.sends[k].sent.exhausted {
      if k == n - 1 { assert !p.sends[n - 1].sent.exhausted; }
    }
  }

  lemma StillInOrder(p: Progress, q: Progress, turn: nat, i: nat, retries: nat)
    requires InOrder(p, retries) && Behind(p, turn, i) && q.sends == p.sends && q.stopped == p.stopped
    ensures InOrder(q, retries) && Behind(q, turn, i + 1)
  {}

  lemma ClipInOrder(p: Progress, tokens: map<Name, Token>, turn: nat, i: nat, clip: Clip, retries: nat)
    requires InOrder(p, retries) && Behind(p, turn, i)
    ensures var p' := TakeClip(p, tokens, turn, i, clip, retries).0;
      InOrder(p', retries) && Behind(p', turn, i + 1) && (p.stopped ==> p'.sends == p.sends && p'.stopped)
  {
    hide Tried, InOrder, Behind;
    var p' := TakeClip(p, tokens, turn, i, clip, retries).0;
    if p.stopped || clip.lost.Some? {
      assert p'.sends == p.sends;
      StillInOrder(p, p', turn, i, retries);
    } else {
      TriedExactly(clip.answers, 0, retries);
      SendInOrder(p, p', Filing(clip, retries), turn, i, retries);
    }
  }

  lemma {:induction false} ClipsInOrder(p: Progress, turn: nat, clips: seq<Clip>, retries: nat)
    requires InOrder(p, retries) && Behind(p, turn, 0)
    ensures var p' := TakeClips(p, turn, clips, retries).0;
      InOrder(p', retries) && Behind(p', turn, |clips|) && (p.stopped ==> p'.sends == p.sends && p'.stopped)
  {
    hide InOrder, Behind, TakeClip;
    if clips != [] {
      var last := |clips| - 1;
      ClipsInOrder(p, turn, clips[..last], retries);
      var (q, tokens) := TakeClips(p, turn, clips[..last], retries);
      ClipInOrder(q, tokens, turn, last, clips[last], retries);
    }
  }

  lemma InOrderSame(p: Progress, q: Progress, retries: nat, turn: nat, clip: nat)
    requires p.sends == q.sends && p.stopped == q.stopped && InOrder(p, retries) && Behind(p, turn, clip)
    ensures InOrder(q, retries) && Behind(q, turn + 1, 0)
  {}

  /** However the job goes, its clips are sent in order and at most once, no upload makes
      more than its retries and one attempts, and after one that used them all up nothing
      is sent. */
  lemma {:induction false} SentInOrder(turns: seq<Turn>, retries: nat)
    ensures InOrder(TakeTurns(turns, retries), retries) && Behind(TakeTurns(turns, retries), |turns|, 0)
  {
    hide TakeClips;
    if turns != [] {
      var last := |turns| - 1;
      SentInOrder(turns[..last], retries);
      hide InOrder, Behind;
      var before, after := TakeTurns(turns[..last], retries), TakeTurns(turns, retries);
      ClipsInOrder(before, last, turns[last].clips, retries);
      var taken := TakeClips(before, last, turns[last].clips, retries).0;
      if before.stopped || !turns[last].pinned {
        InOrderSame(before, after, retries, last, 0);
      } else {
        InOrderSame(taken, after, retries, last, |turns[last].clips|);
      }
    }
  }

  /** A clip is skipped only once the backend is gone, and a reason is given exactly
      when something failed. */
  lemma {:induction false} ClipsExplained(p: Progress, turn: nat, clips: seq<Clip>, retries: nat)
    requires (p.filed.skipped > 0 ==> p.stopped) && (p.filed.reason.Some? <==> p.filed.failed > 0)
    ensures var p' := TakeClips(p, turn, clips, retries).0;
      && (p'.filed.skipped > 0 ==> p'.stopped) && (p'.filed.reason.Some? <==> p'.filed.failed > 0)
      && (p.stopped ==> p'.stopped)
  {
    if clips != [] { ClipsExplained(p, turn, clips[..|clips| - 1], retries); }
  }

  lemma {:induction false} Explained(turns: seq<Turn>, retries: nat)
    ensures var p := TakeTurns(turns, retries);
      (p.filed.skipped > 0 ==> p.stopped) && (p.filed.reason.Some? <==> p.filed.failed > 0)
  {
    if turns != [] {
      var last := |turns| - 1;
      Explained(turns[..last], retries);
      ClipsExplained(TakeTurns(turns[..last], retries), last, turns[last].clips, retries);
    }
  }

  // The worker's own steps

  class Filed {
    var attached: nat
    var unfiled: nat
    var failed: nat
    var skipped: nat
    var reason: Option<Reason>

    function View(): Tally
      reads this
    {
      Tally(attached, unfiled, failed, skipped, reason)
    }

    constructor ()
      ensures View() == NONE.filed
    {
      attached, unfiled, failed, skipped, reason := 0, 0, 0, 0, None;
    }

    method Fail(why: Reason, clips: nat)
      modifies this
      ensures View() == Failing(old(View()), why, clips)
    {
      failed := failed + clips;
      if reason == None { reason := Some(why); }
    }
  }

  method FileClip(clip: Clip, retries: nat, backoff: real, stopping: nat -> bool) returns (s: Sent)
    ensures s == Filing(clip, retries)
  {
    if clip.lost.Some? { return Sent(None, clip.lost, false, 0); }
    var waits;
    s, waits := Retrying(clip.answers, retries, backoff, stopping);
  }

  class Uploader {
    const retries: nat
    const backoff: real
    const stopping: nat -> bool
    var sends: seq<Send>
    var references: seq<Reference>

    constructor (retries: nat, backoff: real, stopping: nat -> bool)
      ensures this.retries == retries && sends == [] && references == []
    {
      this.retries, this.backoff, this.stopping, sends, references := retries, backoff, stopping, [], [];
    }

    /** One turn's clips up, and what landed of them in one reference. */
    method FileTurn(number: nat, turn: Turn, filed: Filed) returns (stopped: bool)
      requires turn.pinned
      modifies this, filed
      ensures Progress(filed.View(), stopped, sends, references)
        == TakeTurn(old(Progress(filed.View(), false, sends, references)), number, turn, retries)
    {
      ghost var before := Progress(filed.View(), false, sends, references);
      var tokens: map<Name, Token> := map[];
      stopped := false;
      for i := 0 to |turn.clips|
        invariant (Progress(filed.View(), stopped, sends, references), tokens)
          == TakeClips(before, number, turn.clips[..i], retries)
      {
        hide Filing;
        ghost var now := Progress(filed.View(), stopped, sends, references);
        assert turn.clips[..i + 1][..i] == turn.clips[..i] && turn.clips[..i + 1][i] == turn.clips[i];
        var clip := turn.clips[i];
        assert sends + [] == sends;
        if stopped {
          filed.skipped := filed.skipped + 1;
        } else {
          var s := FileClip(clip, retries, backoff, stopping);
          stopped := s.exhausted;
          if clip.lost == None { sends := sends + [Send(number, i, s)]; }
          if s.reason.Some? {
            filed.Fail(s.reason.value, 1);
          } else if s.media.Some? {
            tokens := tokens[clip.reference := s.media.value];
          }
        }
      }
      assert turn.clips[..|turn.clips|] == turn.clips;
      if tokens == map[] { return; }
      references := references + [Reference(number, tokens, turn.accepts)];
      if turn.accepts {
        filed.attached := filed.attached + |tokens|;
      } else {
        filed.Fail(Unreferenced, |tokens|);
      }
    }

    /** Every turn in the order they started. */
    method FileTurns(turns: seq<Turn>) returns (filed: Filed, stopped: bool)
      requires sends == [] && references == []
      modifies this
      ensures fresh(filed)
      ensures Progress(filed.View(), stopped, sends, references) == TakeTurns(turns, retries)
    {
      filed := new Filed();
      stopped := false;
      for k := 0 to |turns|
        invariant fresh(filed)
        invariant Progress(filed.View(), stopped, sends, references) == TakeTurns(turns[..k], retries)
      {
        hide TakeClips, TakeReference;
        assert turns[..k + 1][..k] == turns[..k] && turns[..k + 1][k] == turns[k];
        var turn := turns[k];
        if stopped {
          filed.skipped := filed.skipped + |turn.clips|;
        } else if !turn.pinned {
          filed.unfiled := filed.unfiled + |turn.clips|;
        } else {
          stopped := FileTurn(k, turn, filed);
        }
      }
      assert turns[..|turns|] == turns;
    }
  }
}
