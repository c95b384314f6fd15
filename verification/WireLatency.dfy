/**
  Reading a reply's latency off a capture: where the user's utterances were, where
  each one's energy fell, and where the answer to it began.
*/
module WireLatency {
  import opened Wrappers
  import opened Seqs

  const FRAME_MS: int := 20
  const VAD_GAP_MS := 1000.0
  const QUIET_FRAMES: int := 10
  const LOOKBACK_FRAMES: int := 100
  const HEARD_SLACK_MS := 1000.0

  /** One sample of the endpointer. */
  datatype Sample = Sample(at: real, speech: real, listening: bool)

  datatype Utterance = Utterance(start: real, decided: real)

  predicate Speaking(s: Sample) { s.listening && s.speech > 0.0 }

  // Utterances

  /** Sample `i` belongs to the utterance of the one before it. */
  predicate Linked(vad: seq<Sample>, boundaries: seq<real>, i: nat)
    requires i < |vad|
  {
    && i > 0 && Speaking(vad[i - 1]) && Speaking(vad[i])
    && vad[i].at - vad[i - 1].at <= VAD_GAP_MS
    && !exists b | b in boundaries :: vad[i - 1].at < b <= vad[i].at
  }

  /** The samples from `from` up to but not `to`. */
  datatype Run = Run(from: nat, to: nat)

  /** A run of speaking samples, each linked to the one before, that cannot be made
      longer at either end. */
  ghost predicate Maximal(vad: seq<Sample>, boundaries: seq<real>, r: Run) {
    && r.from < r.to <= |vad|
    && (forall i | r.from <= i < r.to :: Speaking(vad[i]))
    && (forall i | r.from < i < r.to :: Linked(vad, boundaries, i))
    && !Linked(vad, boundaries, r.from)
    && (r.to < |vad| ==> !Linked(vad, boundaries, r.to))
  }

  /** The end of the run that sample `i` is in. */
  function RunEnd(vad: seq<Sample>, boundaries: seq<real>, i: nat): (to: nat)
    requires i < |vad|
    ensures i < to <= |vad| && (to < |vad| ==> !Linked(vad, boundaries, to))
    ensures forall j | i < j < to :: Linked(vad, boundaries, j)
    decreases |vad| - i
  {
    if i + 1 == |vad| || !Linked(vad, boundaries, i + 1) then i + 1 else RunEnd(vad, boundaries, i + 1)
  }

  function RunsFrom(vad: seq<Sample>, boundaries: seq<real>, i: nat): seq<Run>
    requires i <= |vad|
    decreases |vad| - i
  {
    if i == |vad| then []
    else if !Speaking(vad[i]) then RunsFrom(vad, boundaries, i + 1)
    else
      var to := RunEnd(vad, boundaries, i);
      [Run(i, to)] + RunsFrom(vad, boundaries, to)
  }

  /** Exactly the maximal runs, in order and apart, and every speaking sample in one. */
  ghost predicate AreTheRuns(vad: seq<Sample>, boundaries: seq<real>, runs: seq<Run>, i: nat) {
    && (forall r | r in runs :: Maximal(vad, boundaries, r) && i <= r.from)
    && (forall k, l | 0 <= k < l < |runs| :: runs[k].to <= runs[l].from)
    && (forall j | i <= j < |vad| && Speaking(vad[j]) :: exists r | r in runs :: r.from <= j < r.to)
  }

  lemma {:induction false} RunsAreMaximal(vad: seq<Sample>, boundaries: seq<real>, i: nat)
    requires i <= |vad| && (i < |vad| ==> !Linked(vad, boundaries, i))
    ensures AreTheRuns(vad, boundaries, RunsFrom(vad, boundaries, i), i)
    decreases |vad| - i
  {
    if i == |vad| {
    } else if !Speaking(vad[i]) {
      RunsAreMaximal(vad, boundaries, i + 1);
    } else {
      var to := RunEnd(vad, boundaries, i);
      var rest := RunsFrom(vad, boundaries, to);
      RunsAreMaximal(vad, boundaries, to);
      var runs := [Run(i, to)] + rest;
      forall j | i <= j < to ensures Speaking(vad[j]) {
        if j > i { assert Linked(vad, boundaries, j); }
      }
      assert Maximal(vad, boundaries, Run(i, to));
      hide Maximal, Linked, Speaking;
      forall j | i <= j < |vad| && Speaking(vad[j]) ensures exists r | r in runs :: r.from <= j < r.to {
        if j < to {
          assert Run(i, to) in runs;
        } else {
          var r :| r in rest && r.from <= j < r.to;
          assert r in runs;
        }
      }
    }
  }

  /** Two maximal runs with a sample in common are one. */
  lemma MaximalApart(vad: seq<Sample>, boundaries: seq<real>, a: Run, b: Run, j: nat)
    requires Maximal(vad, boundaries, a) && Maximal(vad, boundaries, b)
    requires a.from <= j < a.to && b.from <= j < b.to
    ensures a == b
  {
    hide Linked, Speaking;
  }

  /** Nothing else is a list of the runs. */
  lemma {:induction false} OneListOfRuns(vad: seq<Sample>, boundaries: seq<real>, runs: seq<Run>, others: seq<Run>,
                                         i: nat)
    requires AreTheRuns(vad, boundaries, runs, i) && AreTheRuns(vad, boundaries, others, i)
    ensures runs == others
  {
    hide Linked, Speaking;
    if runs == [] {
      if others != [] { SameFirst(vad, boundaries, others, runs, i); }
    } else {
      SameFirst(vad, boundaries, runs, others, i);
      SameFirst(vad, boundaries, others, runs, i);
      assert runs[0].from == others[0].from;
      assert runs[0] in runs && others[0] in others;
      MaximalApart(vad, boundaries, runs[0], others[0], runs[0].from);
      RunsAfter(vad, boundaries, runs, i);
      RunsAfter(vad, boundaries, others, i);
      OneListOfRuns(vad, boundaries, runs[1..], others[1..], runs[0].to);
      assert runs == [runs[0]] + runs[1..] && others == [others[0]] + others[1..];
    }
  }

  lemma SameFirst(vad: seq<Sample>, boundaries: seq<real>, runs: seq<Run>, others: seq<Run>, i: nat)
    requires AreTheRuns(vad, boundaries, runs, i) && AreTheRuns(vad, boundaries, others, i) && runs != []
    ensures others != [] && others[0].from <= runs[0].from
  {
    hide Linked;
    var j := runs[0].from;
    assert runs[0] in runs && Maximal(vad, boundaries, runs[0]);
    assert Speaking(vad[j]);
    var r :| r in others && r.from <= j < r.to;
    var k :| 0 <= k < |others| && others[k] == r;
    assert others[0] in others;
  }

  lemma RunsAfter(vad: seq<Sample>, boundaries: seq<real>, runs: seq<Run>, i: nat)
    requires AreTheRuns(vad, boundaries, runs, i) && runs != []
    ensures AreTheRuns(vad, boundaries, runs[1..], runs[0].to)
  {
    hide Linked;
    assert runs == [runs[0]] + runs[1..];
    assert Maximal(vad, boundaries, runs[0]);
    forall r | r in runs[1..] ensures Maximal(vad, boundaries, r) && runs[0].to <= r.from {
      var k :| 0 <= k < |runs[1..]| && runs[1..][k] == r;
      assert runs[k + 1] == r;
    }
    forall j | runs[0].to <= j < |vad| && Speaking(vad[j]) ensures exists r | r in runs[1..] :: r.from <= j < r.to {
      var r :| r in runs && r.from <= j < r.to;
      assert r in runs[1..];
    }
  }

  /** What is reported of a run. A last sample at time zero counts as no time at all,
      and the first one's is used. */
  function Reported(vad: seq<Sample>, r: Run): Utterance
    requires r.from < r.to <= |vad|
  {
    var last := vad[r.to - 1].at;
    Utterance(vad[r.from].at, if last != 0.0 then last else vad[r.from].at)
  }

  /** That is the run's own first and last time exactly where the last is not zero, or is
      the first as well. */
  lemma ReportedIsTheRunExactly(vad: seq<Sample>, r: Run)
    requires r.from < r.to <= |vad|
    ensures var first, last := vad[r.from].at, vad[r.to - 1].at;
      Reported(vad, r) == Utterance(first, last) <==> last != 0.0 || first == last
  {}

  /** Two samples of speech, the second at time zero: one utterance is found, and it is
      said to have been decided ten milliseconds before its last sample. */
  lemma DecidedAtZeroIsLost()
    ensures var vad := [Sample(-10.0, 20.0, true), Sample(0.0, 30.0, true)];
      Maximal(vad, [], Run(0, 2)) && UtterancesFrom(vad, [], 0) == [Utterance(-10.0, -10.0)]
  {
    var vad := [Sample(-10.0, 20.0, true), Sample(0.0, 30.0, true)];
    assert Linked(vad, [], 1);
    RunEndPast(vad, [], 0, 1);
    assert RunEnd(vad, [], 0) == 2;
    UtterancesStep(vad, [], 0);
    assert UtterancesFrom(vad, [], 2) == [] by { NoneLeft(vad, []); }
  }

  ghost function ReportedAll(vad: seq<Sample>, runs: seq<Run>): seq<Utterance>
    requires forall r | r in runs :: r.from < r.to <= |vad|
  {
    seq(|runs|, k requires 0 <= k < |runs| => assert runs[k] in runs; Reported(vad, runs[k]))
  }

  lemma {:induction false} RunsInside(vad: seq<Sample>, boundaries: seq<real>, i: nat)
    requires i <= |vad|
    ensures forall r | r in RunsFrom(vad, boundaries, i) :: i <= r.from < r.to <= |vad|
    decreases |vad| - i
  {
    if i < |vad| {
      RunsInside(vad, boundaries, if Speaking(vad[i]) then RunEnd(vad, boundaries, i) else i + 1);
    }
  }

  ghost function UtterancesFrom(vad: seq<Sample>, boundaries: seq<real>, i: nat): seq<Utterance>
    requires i <= |vad|
  {
    RunsInside(vad, boundaries, i);
    ReportedAll(vad, RunsFrom(vad, boundaries, i))
  }

  lemma UtterancesStep(vad: seq<Sample>, boundaries: seq<real>, i: nat)
    requires i < |vad|
    ensures !Speaking(vad[i]) ==> UtterancesFrom(vad, boundaries, i) == UtterancesFrom(vad, boundaries, i + 1)
    ensures var to := RunEnd(vad, boundaries, i);
      Speaking(vad[i]) ==>
        UtterancesFrom(vad, boundaries, i) == [Reported(vad, Run(i, to))] + UtterancesFrom(vad, boundaries, to)
  {
    RunsInside(vad, boundaries, i);
    if Speaking(vad[i]) { RunsInside(vad, boundaries, RunEnd(vad, boundaries, i)); }
  }

  lemma {:induction false} RunEndPast(vad: seq<Sample>, boundaries: seq<real>, lo: nat, i: nat)
    requires lo < i <= |vad| && forall j | lo < j < i :: Linked(vad, boundaries, j)
    ensures i < |vad| && Linked(vad, boundaries, i) ==> RunEnd(vad, boundaries, lo) > i
    ensures i == |vad| || !Linked(vad, boundaries, i) ==> RunEnd(vad, boundaries, lo) == i
    decreases i - lo
  {
    if lo + 1 < i { RunEndPast(vad, boundaries, lo + 1, i); }
  }

  /** An open run that sample `i` does not continue is closed before it. */
  lemma RunCloses(vad: seq<Sample>, boundaries: seq<real>, lo: nat, i: nat)
    requires lo < i <= |vad| && Speaking(vad[lo]) && (forall j | lo < j < i :: Linked(vad, boundaries, j))
    requires i < |vad| ==> !Linked(vad, boundaries, i)
    ensures var last := vad[i - 1].at;
      UtterancesFrom(vad, boundaries, lo)
        == [Utterance(vad[lo].at, if last != 0.0 then last else vad[lo].at)] + UtterancesFrom(vad, boundaries, i)
  {
    hide UtterancesFrom, RunEnd, Linked;
    RunEndPast(vad, boundaries, lo, i);
    UtterancesStep(vad, boundaries, lo);
    SaysReported(vad, Run(lo, i));
  }

  lemma SilenceSkipped(vad: seq<Sample>, boundaries: seq<real>, i: nat)
    requires i < |vad| && !Speaking(vad[i])
    ensures UtterancesFrom(vad, boundaries, i) == UtterancesFrom(vad, boundaries, i + 1)
  {
    UtterancesStep(vad, boundaries, i);
  }

  /** The endpointer's utterances: what one pass finds is what is reported of exactly
      the maximal runs. `vad` is in the order of its times. */
  method Utterances(vad: seq<Sample>, boundaries: seq<real>) returns (found: seq<Utterance>)
    ensures found == UtterancesFrom(vad, boundaries, 0)
  {
    hide UtterancesFrom, RunsFrom;
    found := [];
    var start: Option<real> := None;
    var lastSpeaking: Option<real> := None;
    var previous: Option<real> := None;
    ghost var lo := 0;
    for i := 0 to |vad|
      invariant previous == if i == 0 then None else Some(vad[i - 1].at)
      invariant start.Some? <==> i > 0 && Speaking(vad[i - 1])
      invariant start.Some? ==> lo < i && start.value == vad[lo].at && lastSpeaking == Some(vad[i - 1].at)
      invariant start.Some? ==> Speaking(vad[lo]) && forall j | lo < j < i :: Linked(vad, boundaries, j)
      invariant UtterancesFrom(vad, boundaries, 0)
        == found + UtterancesFrom(vad, boundaries, if start.Some? then lo else i)
    {
      var s := vad[i];
      var speaking := s.listening && s.speech > 0.0;
      var gap := previous.Some? && s.at - previous.value > VAD_GAP_MS;
      var between := lastSpeaking.Some? && exists b | b in boundaries :: lastSpeaking.value < b <= s.at;
      assert start.Some? ==> (!speaking || gap || between) == !Linked(vad, boundaries, i);
      hide Linked;
      if start.Some? && (!speaking || gap || between) {
        RunCloses(vad, boundaries, lo, i);
        var decided := if lastSpeaking.value != 0.0 then lastSpeaking.value else start.value;
        found := found + [Utterance(start.value, decided)];
        start := None;
      }
      if speaking {
        if start == None {
          start := Some(s.at);
          lo := i;
        }
        lastSpeaking := Some(s.at);
      } else {
        SilenceSkipped(vad, boundaries, i);
      }
      previous := Some(s.at);
    }
    assert UtterancesFrom(vad, boundaries, |vad|) == [] by { NoneLeft(vad, boundaries); }
    if start.Some? {
      RunCloses(vad, boundaries, lo, |vad|);
      var decided := if lastSpeaking.value != 0.0 then lastSpeaking.value else start.value;
      found := found + [Utterance(start.value, decided)];
    }
  }

  lemma NoneLeft(vad: seq<Sample>, boundaries: seq<real>)
    ensures UtterancesFrom(vad, boundaries, |vad|) == []
  {}

  lemma SaysReported(vad: seq<Sample>, r: Run)
    requires r.from < r.to <= |vad|
    ensures var last := vad[r.to - 1].at;
      Reported(vad, r) == Utterance(vad[r.from].at, if last != 0.0 then last else vad[r.from].at)
  {}

  // Where the user stopped

  function Frame(ms: real): int { (ms / FRAME_MS as real).Floor }

  function FrameUp(ms: real): int { -(-(ms / FRAME_MS as real)).Floor }

  /** The frames searched: those up to the frame of the decision, and no further back
      than two seconds from it. */
  ghost predicate LookedAt(mic: seq<real>, decided: real, i: int) {
    var last := Min(|mic| - 1, Frame(decided));
    0 <= i < |mic| && last - LOOKBACK_FRAMES <= i <= last
  }

  ghost predicate SilentBack(mic: seq<real>, decided: real, threshold: real) {
    forall i | LookedAt(mic, decided, i) :: mic[i] < threshold
  }

  /** `last` is the last of them with speech energy. */
  ghost predicate LastActive(mic: seq<real>, decided: real, threshold: real, last: int) {
    && LookedAt(mic, decided, last) && mic[last] >= threshold
    && forall i | LookedAt(mic, decided, i) && last < i :: mic[i] < threshold
  }

  ghost predicate EndsAt(mic: seq<real>, decided: real, threshold: real, end: int) {
    exists last: int | 0 <= last < |mic| :: LastActive(mic, decided, threshold, last) && end == (last + 1) * FRAME_MS
  }

  /** Searches them backwards, and comes up with nothing exactly where none is active. */
  method SpeechEnd(mic: seq<real>, decided: real, threshold: real) returns (end: Option<int>)
    ensures end == None <==> SilentBack(mic, decided, threshold)
    ensures end.Some? ==> EndsAt(mic, decided, threshold, end.value)
  {
    var last := Min(|mic| - 1, Frame(decided));
    var first := Max(0, last - LOOKBACK_FRAMES);
    var index := last;
    while index >= first
      invariant index <= last
      invariant forall i | LookedAt(mic, decided, i) && index < i :: mic[i] < threshold
      decreases index
    {
      if mic[index] >= threshold {
        assert LastActive(mic, decided, threshold, index);
        return Some((index + 1) * FRAME_MS);
      }
      index := index - 1;
    }
    return None;
  }

  lemma OneEnd(mic: seq<real>, decided: real, threshold: real, end: int, other: int)
    requires EndsAt(mic, decided, threshold, end) && EndsAt(mic, decided, threshold, other)
    ensures end == other && !SilentBack(mic, decided, threshold)
  {
    hide LookedAt;
    var a: int :| 0 <= a < |mic| && LastActive(mic, decided, threshold, a) && end == (a + 1) * FRAME_MS;
    var b: int :| 0 <= b < |mic| && LastActive(mic, decided, threshold, b) && other == (b + 1) * FRAME_MS;
    assert a == b;
  }

  // Where the reply began

  datatype Reason = NothingTranscribed | NoTranscriptionEvent | NoSpeechEnergy | OutsideHeardBound
    | ReplyAlreadyPlaying | FillerAudioFirst | NoReplyAudio

  datatype Onset = At(ms: int) | No(why: Reason)

  /** No frame from `from` up to but not `to` is active; there is no sound before the
      recording began. */
  ghost predicate Quiet(reply: seq<real>, threshold: real, from: int, to: int)
    requires to <= |reply|
  {
    forall i | from <= i < to && 0 <= i :: reply[i] < threshold
  }

  /** The first active frame of a window. */
  ghost predicate FirstActive(reply: seq<real>, threshold: real, from: int, to: int, f: int) {
    0 <= from <= f < to <= |reply| && reply[f] >= threshold && Quiet(reply, threshold, from, f)
  }

  /** What the search comes to: the first active frame in the window, if enough quiet
      comes right before it, wherever in the recording that quiet lies. */
  ghost predicate RightOnset(reply: seq<real>, from: int, to: int, threshold: real, o: Onset)
    requires 0 <= from && to <= |reply|
  {
    match o
    case At(ms) => exists f: int | from <= f < to ::
      FirstActive(reply, threshold, from, to, f) && ms == f * FRAME_MS && Quiet(reply, threshold, f - QUIET_FRAMES, f)
    case No(why) =>
      if why == NoReplyAudio then Quiet(reply, threshold, from, to)
      else
        why == ReplyAlreadyPlaying && exists f: int | from <= f < to ::
          FirstActive(reply, threshold, from, to, f) && !Quiet(reply, threshold, f - QUIET_FRAMES, f)
  }

  /** The channels are as long as each other, so the window starts inside the recording
      or right behind it. */
  method ReplyOnset(reply: seq<real>, after: real, until: real, threshold: real) returns (o: Onset)
    requires Frame(after) <= |reply|
    ensures RightOnset(reply, Max(0, Frame(after)), Min(|reply|, FrameUp(until)), threshold, o)
  {
    var start, end := Max(0, Frame(after)), Min(|reply|, FrameUp(until));
    var quiet, index := 0, start - 1;
    while index >= 0 && quiet < QUIET_FRAMES && reply[index] < threshold
      invariant -1 <= index < start && quiet == start - 1 - index && quiet <= QUIET_FRAMES
      invariant Quiet(reply, threshold, index + 1, start)
    {
      quiet := quiet + 1;
      index := index - 1;
    }
    assert index < 0 ==> Quiet(reply, threshold, start - QUIET_FRAMES, start);
    ghost var back := index;
    if index < 0 { quiet := QUIET_FRAMES; }
    index := start;
    while index < end
      invariant start <= index <= |reply| && (start <= end ==> index <= end)
      invariant Quiet(reply, threshold, start, index) && Quiet(reply, threshold, back + 1, index)
      invariant quiet == (if back < 0 then QUIET_FRAMES else start - 1 - back) + (index - start)
      decreases end - index
    {
      if reply[index] >= threshold {
        assert FirstActive(reply, threshold, start, end, index);
        if quiet < QUIET_FRAMES {
          assert 0 <= back && reply[back] >= threshold && index - QUIET_FRAMES <= back < index;
          return No(ReplyAlreadyPlaying);
        }
        assert Quiet(reply, threshold, index - QUIET_FRAMES, index);
        return At(index * FRAME_MS);
      }
      quiet := quiet + 1;
      index := index + 1;
    }
    return No(NoReplyAudio);
  }

  /** There is one right answer. */
  lemma OneOnset(reply: seq<real>, from: int, to: int, threshold: real, o: Onset, p: Onset)
    requires 0 <= from && to <= |reply|
    requires RightOnset(reply, from, to, threshold, o) && RightOnset(reply, from, to, threshold, p)
    ensures o == p
  {}

  lemma FrameOf(frame: int)
    ensures Frame((frame * FRAME_MS) as real) == frame
  {
    assert (frame * FRAME_MS) as real / FRAME_MS as real == frame as real;
  }

  lemma BelowFrameUp(frame: int, ms: real)
    requires frame < FrameUp(ms)
    ensures (frame * FRAME_MS) as real < ms
  {
    var x := ms / FRAME_MS as real;
    assert frame as real < x;
    assert x * FRAME_MS as real == ms;
  }

  // One utterance's report

  datatype Report = Report(end: Option<int>, onset: Option<int>, latency: Option<int>, reason: Option<Reason>)

  /** The first of the times inside a window. */
  method FirstBetween(times: seq<real>, low: real, high: real) returns (r: Option<real>)
    ensures r == None ==> forall at | at in times :: !(low <= at < high)
    ensures r.Some? ==> r.value in times && low <= r.value < high
    ensures r.Some? ==> forall at | at in times && low <= at < high :: r.value <= at
  {
    r := None;
    for i := 0 to |times|
      invariant r == None ==> forall j | 0 <= j < i :: !(low <= times[j] < high)
      invariant r.Some? ==> r.value in times && low <= r.value < high
      invariant r.Some? ==> forall j | 0 <= j < i && low <= times[j] < high :: r.value <= times[j]
    {
      if low <= times[i] < high && (r == None || times[i] < r.value) { r := Some(times[i]); }
    }
  }

  datatype Track = Track(heard: seq<(real, real)>, nothingHeard: seq<real>, filler: seq<real>)

  function Times(heard: seq<(real, real)>): seq<real> {
    seq(|heard|, i requires 0 <= i < |heard| => heard[i].0)
  }

  /** The transcription that answers an utterance: the first one inside its window, with
      the duration the track gives first for that time. */
  ghost predicate HeardAs(heard: seq<(real, real)>, u: Utterance, next: real, at: real, duration: real) {
    && at in Times(heard) && u.decided <= at < next
    && (forall other | other in Times(heard) && u.decided <= other < next :: at <= other)
    && exists i | 0 <= i < |heard| :: heard[i] == (at, duration) && forall j | 0 <= j < i :: heard[j].0 != at
  }

  ghost predicate Unheard(heard: seq<(real, real)>, u: Utterance, next: real) {
    forall at | at in Times(heard) :: !(u.decided <= at < next)
  }

  method Duration(heard: seq<(real, real)>, at: real) returns (d: real)
    requires at in Times(heard)
    ensures exists i | 0 <= i < |heard| :: heard[i] == (at, d) && forall j | 0 <= j < i :: heard[j].0 != at
  {
    var i := 0;
    while heard[i].0 != at
      invariant i < |heard| && exists j | i <= j < |heard| :: heard[j].0 == at
      invariant forall j | 0 <= j < i :: heard[j].0 != at
      decreases |heard| - i
    {
      i := i + 1;
    }
    assert heard[i] == (at, heard[i].1);
    return heard[i].1;
  }

  /** The speech ends where the transcription says speech was, give or take a second. */
  predicate Bounded(end: int, at: real, duration: real) {
    at - duration * 1000.0 - HEARD_SLACK_MS <= end as real <= at + HEARD_SLACK_MS
  }

  /** A filler was said between the end of the speech and the first frame of sound. */
  ghost predicate FillerBetween(filler: seq<real>, end: int, onset: int) {
    exists at | at in filler :: end as real <= at < (onset + FRAME_MS) as real
  }

  ghost predicate Answers(reply: seq<real>, end: int, next: real, threshold: real, o: Onset) {
    RightOnset(reply, Max(0, Frame(end as real)), Min(|reply|, FrameUp(next)), threshold, o)
  }

  /** What there is to report of one utterance. */
  datatype Room = Room(u: Utterance, next: real, mic: seq<real>, reply: seq<real>, track: Track, micLevel: real,
                       replyLevel: real)

  /** Speech was heard to end here, where a transcription answers for it. */
  ghost predicate SpokenUntil(w: Room, end: int) {
    && EndsAt(w.mic, w.u.decided, w.micLevel, end)
    && exists at, duration | HeardAs(w.track.heard, w.u, w.next, at, duration) :: Bounded(end, at, duration)
  }

  /** Each reason, said of the room and of nothing the report computes. */
  ghost predicate Holds(w: Room, why: Reason) {
    match why
    case NothingTranscribed =>
      Unheard(w.track.heard, w.u, w.next) && exists at | at in w.track.nothingHeard :: w.u.decided <= at < w.next
    case NoTranscriptionEvent =>
      Unheard(w.track.heard, w.u, w.next) && forall at | at in w.track.nothingHeard :: !(w.u.decided <= at < w.next)
    case NoSpeechEnergy =>
      !Unheard(w.track.heard, w.u, w.next) && SilentBack(w.mic, w.u.decided, w.micLevel)
    case OutsideHeardBound =>
      exists end, at, duration | EndsAt(w.mic, w.u.decided, w.micLevel, end)
        && HeardAs(w.track.heard, w.u, w.next, at, duration) :: !Bounded(end, at, duration)
    case FillerAudioFirst =>
      exists end, ms | SpokenUntil(w, end) && Answers(w.reply, end, w.next, w.replyLevel, At(ms)) ::
        FillerBetween(w.track.filler, end, ms)
    case _ =>
      exists end | SpokenUntil(w, end) :: Answers(w.reply, end, w.next, w.replyLevel, No(why))
  }

  /** A report is a reason exactly where that reason holds, and a measurement exactly where
      none does. It gives the speech's end where a transcription bears it out, the onset
      where there is one after it, and the latency between them where no filler lies
      there. */
  ghost predicate Right(w: Room, r: Report) {
    && (forall why :: r.reason == Some(why) <==> Holds(w, why))
    && (forall end :: r.end == Some(end) <==> SpokenUntil(w, end))
    && (forall ms :: r.onset == Some(ms) <==>
          r.end.Some? && Answers(w.reply, r.end.value, w.next, w.replyLevel, At(ms)))
    && (r.latency.Some? <==> r.reason == None)
    && (r.latency.Some? ==> r.end.Some? && r.onset.Some? && r.latency.value == r.onset.value - r.end.value)
  }

  /** So there is one right report. */
  lemma OneReport(w: Room, r: Report, other: Report)
    requires Right(w, r) && Right(w, other)
    ensures r == other
  {
    hide Holds, SpokenUntil, Answers;
    SameOption(r.reason, other.reason);
    SameOption(r.end, other.end);
    forall ms ensures r.onset == Some(ms) <==> other.onset == Some(ms) {
      assert r.onset == Some(ms) <==> r.end.Some? && Answers(w.reply, r.end.value, w.next, w.replyLevel, At(ms));
    }
    SameOption(r.onset, other.onset);
  }

  lemma SameOption<T(!new)>(a: Option<T>, b: Option<T>)
    requires forall x :: a == Some(x) <==> b == Some(x)
    ensures a == b
  {
    if a.Some? { assert a == Some(a.value); }
    if b.Some? { assert b == Some(b.value); }
  }

  /** A measured latency is never negative and a whole number of frames; the reply begins
      before the next utterance, and nothing sounds between the two. */
  lemma MeasuredRight(w: Room, r: Report)
    requires Right(w, r) && r.latency.Some?
    ensures 0 <= r.latency.value && r.latency.value % FRAME_MS == 0 && r.onset.value as real < w.next
    ensures forall i | r.end.value <= i * FRAME_MS < r.onset.value :: 0 <= i < |w.reply| && w.reply[i] < w.replyLevel
    ensures !FillerBetween(w.track.filler, r.end.value, r.onset.value)
  {
    hide Answers, EndsAt;
    var end, ms := r.end.value, r.onset.value;
    assert SpokenUntil(w, end) && Answers(w.reply, end, w.next, w.replyLevel, At(ms));
    OnsetAfter(w.mic, w.u.decided, w.micLevel, end, w.reply, w.next, w.replyLevel, ms);
    assert r.reason != Some(FillerAudioFirst);
    assert !Holds(w, FillerAudioFirst);
  }

  lemma EndInside(mic: seq<real>, decided: real, threshold: real, end: int)
    requires EndsAt(mic, decided, threshold, end)
    ensures Frame(end as real) <= |mic|
  {
    var last: int :| 0 <= last < |mic| && LastActive(mic, decided, threshold, last) && end == (last + 1) * FRAME_MS;
    FrameOf(last + 1);
  }

  /** The reply's first frame comes no earlier than the user's last, and before the next
      utterance; between the two nothing sounds. */
  lemma OnsetAfter(mic: seq<real>, decided: real, micLevel: real, end: int, reply: seq<real>, next: real, level: real,
                   ms: int)
    requires EndsAt(mic, decided, micLevel, end) && Answers(reply, end, next, level, At(ms))
    ensures end <= ms && (ms - end) % FRAME_MS == 0 && ms as real < next
    ensures forall i | end <= i * FRAME_MS < ms :: 0 <= i < |reply| && reply[i] < level
  {
    var last: int :| 0 <= last < |mic| && LastActive(mic, decided, micLevel, last) && end == (last + 1) * FRAME_MS;
    FrameOf(last + 1);
    var to := Min(|reply|, FrameUp(next));
    var f: int :| last + 1 <= f < to && FirstActive(reply, level, last + 1, to, f) && ms == f * FRAME_MS;
    BelowFrameUp(f, next);
  }

  // Which reasons hold, as each question is answered

  lemma OneHearing(heard: seq<(real, real)>, u: Utterance, next: real, at: real, duration: real, at': real,
                   duration': real)
    requires HeardAs(heard, u, next, at, duration) && HeardAs(heard, u, next, at', duration')
    ensures at == at' && duration == duration' && !Unheard(heard, u, next)
  {
    hide Times;
  }

  lemma WhenUnheard(w: Room, r: Report)
    requires Unheard(w.track.heard, w.u, w.next) && r.end == r.onset == r.latency == None
    requires r.reason == Some(if exists at | at in w.track.nothingHeard :: w.u.decided <= at < w.next
                              then NothingTranscribed else NoTranscriptionEvent)
    ensures Right(w, r)
  {
    hide EndsAt, Answers, Times, SilentBack, FillerBetween;
    forall end ensures !SpokenUntil(w, end) {}
  }

  lemma WhenSilent(w: Room, at: real, duration: real)
    requires HeardAs(w.track.heard, w.u, w.next, at, duration) && SilentBack(w.mic, w.u.decided, w.micLevel)
    ensures Right(w, Report(None, None, None, Some(NoSpeechEnergy)))
  {
    hide Answers, SilentBack, FillerBetween, Times;
    OneHearing(w.track.heard, w.u, w.next, at, duration, at, duration);
    forall end ensures !EndsAt(w.mic, w.u.decided, w.micLevel, end) {
      if EndsAt(w.mic, w.u.decided, w.micLevel, end) { OneEnd(w.mic, w.u.decided, w.micLevel, end, end); }
    }
    hide EndsAt, HeardAs, Unheard;
  }

  /** Speech ended at `end`, and a transcription at `at` answers for it. */
  ghost predicate Found(w: Room, end: int, at: real, duration: real) {
    EndsAt(w.mic, w.u.decided, w.micLevel, end) && HeardAs(w.track.heard, w.u, w.next, at, duration)
  }

  lemma WhenFound(w: Room, end: int, at: real, duration: real)
    requires Found(w, end, at, duration)
    ensures !Unheard(w.track.heard, w.u, w.next) && !SilentBack(w.mic, w.u.decided, w.micLevel)
    ensures forall e :: SpokenUntil(w, e) <==> e == end && Bounded(end, at, duration)
    ensures Holds(w, OutsideHeardBound) <==> !Bounded(end, at, duration)
  {
    OneHearing(w.track.heard, w.u, w.next, at, duration, at, duration);
    OneEnd(w.mic, w.u.decided, w.micLevel, end, end);
    hide EndsAt, HeardAs, Unheard, SilentBack, Bounded;
    forall e ensures SpokenUntil(w, e) <==> e == end && Bounded(end, at, duration) {
      if EndsAt(w.mic, w.u.decided, w.micLevel, e) { OneEnd(w.mic, w.u.decided, w.micLevel, e, end); }
      forall a, d | HeardAs(w.track.heard, w.u, w.next, a, d) ensures a == at && d == duration {
        OneHearing(w.track.heard, w.u, w.next, a, d, at, duration);
      }
    }
    forall e, a, d | EndsAt(w.mic, w.u.decided, w.micLevel, e) && HeardAs(w.track.heard, w.u, w.next, a, d)
      ensures e == end && a == at && d == duration
    {
      OneEnd(w.mic, w.u.decided, w.micLevel, e, end);
      OneHearing(w.track.heard, w.u, w.next, a, d, at, duration);
    }
  }

  lemma WhenOutside(w: Room, end: int, at: real, duration: real)
    requires Found(w, end, at, duration) && !Bounded(end, at, duration)
    ensures Right(w, Report(None, None, None, Some(OutsideHeardBound)))
  {
    WhenFound(w, end, at, duration);
    hide Found, SpokenUntil, Unheard, SilentBack, EndsAt, HeardAs, Bounded, Answers;
    assert forall e :: !SpokenUntil(w, e);
  }

  lemma WhenNoOnset(w: Room, end: int, at: real, duration: real, why: Reason)
    requires Found(w, end, at, duration) && Bounded(end, at, duration)
    requires Answers(w.reply, end, w.next, w.replyLevel, No(why))
    ensures Right(w, Report(Some(end), None, None, Some(why)))
  {
    WhenFound(w, end, at, duration);
    OnlyAnswer(w, end, No(why));
    hide Found, SpokenUntil, Unheard, SilentBack, EndsAt, HeardAs, Bounded, Answers;
  }

  lemma WhenOnset(w: Room, end: int, at: real, duration: real, ms: int)
    requires Found(w, end, at, duration) && Bounded(end, at, duration)
    requires Answers(w.reply, end, w.next, w.replyLevel, At(ms))
    ensures Right(w, if FillerBetween(w.track.filler, end, ms)
                     then Report(Some(end), Some(ms), None, Some(FillerAudioFirst))
                     else Report(Some(end), Some(ms), Some(ms - end), None))
  {
    WhenFound(w, end, at, duration);
    OnlyAnswer(w, end, At(ms));
    hide Found, SpokenUntil, Unheard, SilentBack, EndsAt, HeardAs, Bounded, Answers, FillerBetween;
  }

  lemma OnlyAnswer(w: Room, end: int, o: Onset)
    requires Answers(w.reply, end, w.next, w.replyLevel, o)
    ensures forall p :: Answers(w.reply, end, w.next, w.replyLevel, p) <==> p == o
    ensures o.No? ==> o.why == NoReplyAudio || o.why == ReplyAlreadyPlaying
  {
    forall p | Answers(w.reply, end, w.next, w.replyLevel, p) ensures p == o {
      OneOnset(w.reply, Max(0, Frame(end as real)), Min(|w.reply|, FrameUp(w.next)), w.replyLevel, o, p);
    }
  }

  method Turn(w: Room) returns (r: Report)
    requires |w.mic| == |w.reply|
    ensures Right(w, r)
  {
    hide RightOnset, EndsAt, Frame, FrameUp, Times, Right, SilentBack;
    var heardAt := FirstBetween(Times(w.track.heard), w.u.decided, w.next);
    var nothingAt := FirstBetween(w.track.nothingHeard, w.u.decided, w.next);
    if heardAt == None {
      r := Report(None, None, None, Some(if nothingAt.Some? then NothingTranscribed else NoTranscriptionEvent));
      WhenUnheard(w, r);
      return;
    }
    var duration := Duration(w.track.heard, heardAt.value);
    assert HeardAs(w.track.heard, w.u, w.next, heardAt.value, duration);
    var end := SpeechEnd(w.mic, w.u.decided, w.micLevel);
    if end == None {
      WhenSilent(w, heardAt.value, duration);
      return Report(None, None, None, Some(NoSpeechEnergy));
    }
    var lowest := heardAt.value - duration * 1000.0 - HEARD_SLACK_MS;
    if !(lowest <= end.value as real <= heardAt.value + HEARD_SLACK_MS) {
      WhenOutside(w, end.value, heardAt.value, duration);
      return Report(None, None, None, Some(OutsideHeardBound));
    }
    EndInside(w.mic, w.u.decided, w.micLevel, end.value);
    var onset := ReplyOnset(w.reply, end.value as real, w.next, w.replyLevel);
    if onset.No? {
      WhenNoOnset(w, end.value, heardAt.value, duration, onset.why);
      return Report(end, None, None, Some(onset.why));
    }
    WhenOnset(w, end.value, heardAt.value, duration, onset.ms);
    var filler := FirstBetween(w.track.filler, end.value as real, (onset.ms + FRAME_MS) as real);
    if filler.Some? { return Report(end, Some(onset.ms), None, Some(FillerAudioFirst)); }
    return Report(end, Some(onset.ms), Some(onset.ms - end.value), None);
  }

  /** No utterance after this one begins before `next`, which one of them does, or which is
      the recording's end where there is none. */
  ghost predicate Bounds(found: seq<Utterance>, k: nat, frames: nat, next: real)
    requires k < |found|
  {
    && (forall m | k < m < |found| :: next <= found[m].start)
    && (if k + 1 == |found| then next == (frames * FRAME_MS) as real
        else exists m | k < m < |found| :: found[m].start == next)
  }

  ghost predicate InTime(vad: seq<Sample>) {
    forall i, j | 0 <= i < j < |vad| :: vad[i].at <= vad[j].at
  }

  /** Utterances are found in the order of their times. */
  lemma FoundInOrder(vad: seq<Sample>, boundaries: seq<real>, k: nat, m: nat)
    requires InTime(vad) && k < m < |UtterancesFrom(vad, boundaries, 0)|
    ensures UtterancesFrom(vad, boundaries, 0)[k].start <= UtterancesFrom(vad, boundaries, 0)[m].start
  {
    assert vad != [] ==> !Linked(vad, boundaries, 0);
    if vad == [] { NoneLeft(vad, boundaries); }
    RunsAreMaximal(vad, boundaries, 0);
    RunsInside(vad, boundaries, 0);
    hide Linked, Speaking, RunsFrom;
    var runs := RunsFrom(vad, boundaries, 0);
    assert runs[k] in runs && runs[m] in runs && runs[k].to <= runs[m].from;
  }

  lemma NextBounds(vad: seq<Sample>, boundaries: seq<real>, k: nat, frames: nat, next: real)
    requires InTime(vad) && k < |UtterancesFrom(vad, boundaries, 0)|
    requires var found := UtterancesFrom(vad, boundaries, 0);
      next == if k + 1 < |found| then found[k + 1].start else (frames * FRAME_MS) as real
    ensures Bounds(UtterancesFrom(vad, boundaries, 0), k, frames, next)
  {
    var found := UtterancesFrom(vad, boundaries, 0);
    forall m | k + 1 < m < |found| ensures next <= found[m].start {
      FoundInOrder(vad, boundaries, k + 1, m);
    }
    hide UtterancesFrom;
    if k + 1 < |found| { assert found[k + 1].start == next; }
  }

  /** The right report of an utterance, with the first of those after it for its bound. */
  ghost predicate RightOf(found: seq<Utterance>, k: nat, mic: seq<real>, reply: seq<real>, track: Track,
                          micLevel: real, replyLevel: real, r: Report)
    requires k < |found|
  {
    exists next ::
      Bounds(found, k, |mic|, next) && Right(Room(found[k], next, mic, reply, track, micLevel, replyLevel), r)
  }

  /** One report for every utterance, each bounded by the first of those after it: a reply
      that is measured for one begins before the next is heard. */
  method TurnsOf(mic: seq<real>, reply: seq<real>, vad: seq<Sample>, track: Track, micLevel: real, replyLevel: real)
    returns (found: seq<Utterance>, reports: seq<Report>)
    requires |mic| == |reply| && InTime(vad)
    ensures found == UtterancesFrom(vad, Times(track.heard) + track.nothingHeard, 0)
    ensures |reports| == |found|
    ensures forall k | 0 <= k < |found| :: RightOf(found, k, mic, reply, track, micLevel, replyLevel, reports[k])
  {
    ghost var boundaries := Times(track.heard) + track.nothingHeard;
    found := Utterances(vad, Times(track.heard) + track.nothingHeard);
    reports := [];
    hide Right, UtterancesFrom, Bounds, Times;
    for number := 0 to |found|
      invariant |reports| == number
      invariant forall k | 0 <= k < number :: RightOf(found, k, mic, reply, track, micLevel, replyLevel, reports[k])
    {
      var next := if number + 1 < |found| then found[number + 1].start else (|mic| * FRAME_MS) as real;
      NextBounds(vad, boundaries, number, |mic|, next);
      var r := Turn(Room(found[number], next, mic, reply, track, micLevel, replyLevel));
      reports := reports + [r];
    }
  }

  /** Two measured replies are of two utterances: the earlier one's begins before the later
      utterance does. */
  lemma RepliesInOrder(found: seq<Utterance>, k: nat, m: nat, frames: nat, next: real, w: Room, r: Report)
    requires k < m < |found| && Bounds(found, k, frames, next) && w.next == next && Right(w, r) && r.latency.Some?
    ensures r.onset.value as real < found[m].start
  {
    hide Right;
    MeasuredRight(w, r);
  }
}
