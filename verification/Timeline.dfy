/**
  The naive picture of a recording: blocks of samples written onto two infinite
  silent lines, and a file cut from them. Buffers appear only as `cursor`, how far the
  writer has committed, and `PlacedByTheClock` says when it does not decide a placement.
*/
module Timeline {
  import opened Wrappers
  import opened Seqs

  // A 16-bit sample. The capture moves samples and never computes on them.
  type Sample = int

  const CAPTURE_RATE: nat := 16000
  const FLUSH_LAG: nat := 4000  // a quarter of a second, in frames

  datatype Block = Block(at: nat, pcm: seq<Sample>)

  /** One past the last frame the line's blocks reach. */
  function End(line: seq<Block>): nat {
    if line == [] then 0 else line[|line| - 1].at + |line[|line| - 1].pcm|
  }

  /** The line at one frame: the newest block covering it, or silence. */
  function At(line: seq<Block>, f: nat): Sample {
    if line == [] then 0
    else
      var b := line[|line| - 1];
      if b.at <= f < b.at + |b.pcm| then b.pcm[f - b.at] else At(line[..|line| - 1], f)
  }

  function Cut(line: seq<Block>, from: nat, to: nat): seq<Sample>
    requires from <= to
  {
    seq(to - from, k requires 0 <= k => At(line, from + k))
  }

  /** No block starts before the one in front of it ends. */
  ghost predicate Ordered(line: seq<Block>) {
    line == [] || (Ordered(line[..|line| - 1]) && End(line[..|line| - 1]) <= line[|line| - 1].at)
  }

  lemma AtAppend(line: seq<Block>, b: Block, f: nat)
    ensures At(line + [b], f) == if b.at <= f < b.at + |b.pcm| then b.pcm[f - b.at] else At(line, f)
  {
    assert (line + [b])[..|line|] == line;
  }

  lemma OrderedAppend(line: seq<Block>, b: Block)
    requires Ordered(line) && End(line) <= b.at
    ensures Ordered(line + [b]) && End(line + [b]) == b.at + |b.pcm|
  {
    assert (line + [b])[..|line|] == line;
  }

  lemma {:induction false} SilentBeyond(line: seq<Block>, f: nat)
    requires Ordered(line) && End(line) <= f
    ensures At(line, f) == 0
  {
    if line != [] { SilentBeyond(line[..|line| - 1], f); }
  }

  lemma {:induction false} EndGrows(line: seq<Block>, i: nat)
    requires Ordered(line) && i <= |line|
    ensures Ordered(line[..i]) && End(line[..i]) <= End(line)
    ensures i < |line| ==> End(line[..i]) <= line[i].at <= End(line)
    decreases |line|
  {
    if i < |line| {
      var shorter := line[..|line| - 1];
      assert line[..i] == shorter[..i];
      EndGrows(shorter, i);
      if i < |shorter| { assert shorter[i] == line[i]; } else { assert line[..i] == shorter; }
    } else {
      assert line[..i] == line;
    }
  }

  /** Every accepted block lies where it was placed, unmodified. */
  lemma {:induction false} BlockLies(line: seq<Block>, i: nat, k: nat)
    requires Ordered(line) && i < |line| && k < |line[i].pcm|
    ensures At(line, line[i].at + k) == line[i].pcm[k]
    decreases |line|
  {
    var last := |line| - 1;
    if i < last {
      var shorter := line[..last];
      BlockLies(shorter, i, k);
      EndGrows(shorter, i + 1);
      assert End(shorter[..i + 1]) == line[i].at + |line[i].pcm|;
    }
  }

  /** And where no block was placed there is silence. */
  lemma {:induction false} SilentBetween(line: seq<Block>, f: nat)
    requires forall i | 0 <= i < |line| :: !(line[i].at <= f < line[i].at + |line[i].pcm|)
    ensures At(line, f) == 0
  {
    if line != [] {
      assert forall i | 0 <= i < |line| - 1 :: line[..|line| - 1][i] == line[i];
      SilentBetween(line[..|line| - 1], f);
    }
  }

  /** What is placed later never changes what lies before it. */
  lemma {:induction false} PrefixStands(line: seq<Block>, i: nat, f: nat)
    requires Ordered(line) && i <= |line| && f < End(line[..i])
    ensures At(line, f) == At(line[..i], f)
    decreases |line|
  {
    if i < |line| {
      var shorter := line[..|line| - 1];
      assert shorter[..i] == line[..i];
      EndGrows(shorter, i);
      PrefixStands(shorter, i, f);
    } else {
      assert line[..i] == line;
    }
  }

  // One session's record

  /** A turn, what it answers, and the stretch of reply blocks paced while its window was
      open. */
  datatype Turn = Turn(utterance: string, heard: seq<Sample>, lo: nat, hi: nat)

  /** `cursor` is how far the writer has committed; `event` is the furthest frame
      an event landed on, below zero for none, and `track` the frame of every event,
      first to last; `window` is whether the last turn's reply window is
      still open. */
  datatype Record = Record(
    limit: nat,
    cursor: nat,
    mic: seq<Block>,
    reply: seq<Block>,
    event: int,
    track: seq<nat>,
    turns: seq<Turn>,
    window: bool)

  function Fresh(limit: nat): Record {
    Record(limit, 0, [], [], -1, [], [], false)
  }

  function PlaceAt(r: Record, line: seq<Block>, frame: nat): nat {
    Max(End(line), Max(frame, r.cursor))
  }

  function Advance(r: Record, frame: nat): Record {
    r.(cursor := Max(r.cursor, frame - FLUSH_LAG))
  }

  function Spoken(r: Record, pcm: seq<Sample>, frame: nat): Record {
    Advance(r.(mic := r.mic + [Block(PlaceAt(r, r.mic, frame), pcm)]), frame)
  }

  function Paced(r: Record, pcm: seq<Sample>, frame: nat): Record {
    Advance(r.(reply := r.reply + [Block(PlaceAt(r, r.reply, frame), pcm)]), frame)
  }

  /** The open reply window, if any, ends with what has been paced so far. */
  function Shut(r: Record): Record {
    if r.window && r.turns != []
    then r.(turns := r.turns[|r.turns| - 1 := r.turns[|r.turns| - 1].(hi := |r.reply|)], window := false)
    else r.(window := false)
  }

  /** The window in front closes here, and a kept turn opens its own. */
  function Turned(r: Record, utterance: string, heard: seq<Sample>, kept: bool): Record {
    var shut := Shut(r);
    if kept then shut.(turns := shut.turns + [Turn(utterance, heard, |r.reply|, |r.reply|)], window := true)
    else shut
  }

  function Noted(r: Record, frame: nat): Record {
    var landed := Min(frame, r.limit);
    r.(event := Max(r.event, landed), track := r.track + [landed])
  }

  /** How many frames the closed file has. */
  function Frames(r: Record): nat {
    Min(Max(Max(End(r.mic), End(r.reply)), r.event + 1), r.limit)
  }

  function Hi(r: Record, i: nat): nat
    requires i < |r.turns|
  {
    if r.window && i == |r.turns| - 1 then |r.reply| else r.turns[i].hi
  }

  /** How many of the first `hi` blocks to keep so that the last one starts below
      the limit. */
  function Within(line: seq<Block>, hi: nat, limit: nat): (m: nat)
    requires hi <= |line|
    ensures m <= hi && (m > 0 ==> line[m - 1].at < limit)
    ensures forall i | m <= i < hi :: limit <= line[i].at
  {
    if hi == 0 || line[hi - 1].at < limit then hi else Within(line, hi - 1, limit)
  }

  /** Where turn `i`'s reply clip begins and ends on the file's own timeline: from
      its window's first block up to where its final block that starts below the limit
      ends, itself held to the limit. */
  function Span(r: Record, i: nat): Option<(nat, nat)>
    requires i < |r.turns| && r.turns[i].lo <= Hi(r, i) <= |r.reply|
  {
    var lo, m := r.turns[i].lo, Within(r.reply, Hi(r, i), r.limit);
    if lo < m then Some((r.reply[lo].at, Min(End(r.reply[..m]), r.limit))) else None
  }

  ghost predicate Sound(r: Record) {
    && Ordered(r.mic) && Ordered(r.reply)
    && (forall b | b in r.mic :: b.pcm != [])
    && (forall b | b in r.reply :: b.pcm != [])
    && r.cursor <= r.limit
    && r.cursor <= Max(End(r.mic), End(r.reply))
    && -1 <= r.event <= r.limit
    && (forall f | f in r.track :: f <= r.event)
    && (r.window ==> r.turns != [])
    && (forall i | 0 <= i < |r.turns| :: r.turns[i].lo <= Hi(r, i) <= |r.reply|)
    && (forall i, j | 0 <= i < j < |r.turns| :: Hi(r, i) <= r.turns[j].lo)
  }

  lemma SpokenSound(r: Record, pcm: seq<Sample>, frame: nat)
    requires Sound(r) && pcm != [] && frame <= r.limit
    ensures Sound(Spoken(r, pcm, frame))
  {
    OrderedAppend(r.mic, Block(PlaceAt(r, r.mic, frame), pcm));
  }

  lemma PacedSound(r: Record, pcm: seq<Sample>, frame: nat)
    requires Sound(r) && pcm != [] && frame <= r.limit
    ensures Sound(Paced(r, pcm, frame))
  {
    OrderedAppend(r.reply, Block(PlaceAt(r, r.reply, frame), pcm));
  }

  lemma ShutSound(r: Record)
    requires Sound(r)
    ensures Sound(Shut(r)) && |Shut(r).turns| == |r.turns| && Frames(Shut(r)) == Frames(r)
    ensures forall i | 0 <= i < |r.turns| ::
      Span(Shut(r), i) == Span(r, i) && Shut(r).turns[i].utterance == r.turns[i].utterance
  {
    var n := Shut(r);
    forall i | 0 <= i < |r.turns|
      ensures Hi(n, i) == Hi(r, i) && n.turns[i].lo == r.turns[i].lo
    {}
  }

  lemma TurnedSound(r: Record, utterance: string, heard: seq<Sample>, kept: bool)
    requires Sound(r)
    ensures Sound(Turned(r, utterance, heard, kept))
    ensures forall i | 0 <= i < |r.turns| ::
      i < |Turned(r, utterance, heard, kept).turns| &&
      Span(Turned(r, utterance, heard, kept), i) == Span(r, i)
  {
    var n := Turned(r, utterance, heard, kept);
    forall i | 0 <= i < |r.turns|
      ensures Hi(n, i) == Hi(r, i) && n.turns[i].lo == r.turns[i].lo
    {}
  }

  lemma {:induction false} WithinPrefix(line: seq<Block>, b: Block, hi: nat, limit: nat)
    requires hi <= |line|
    ensures Within(line + [b], hi, limit) == Within(line, hi, limit)
  {
    if hi != 0 && line[hi - 1].at >= limit { WithinPrefix(line, b, hi - 1, limit); }
  }

  lemma WithinAppend(line: seq<Block>, b: Block, limit: nat)
    requires Ordered(line) && End(line) <= b.at
    ensures b.at < limit ==>
      Within(line, |line|, limit) == |line| && Within(line + [b], |line| + 1, limit) == |line| + 1
    ensures limit <= b.at ==> Within(line + [b], |line| + 1, limit) == Within(line, |line|, limit)
  {
    WithinPrefix(line, b, |line|, limit);
  }

  /** Pacing a block leaves every window but the open one where it was. */
  lemma PacedSpans(r: Record, pcm: seq<Sample>, frame: nat, i: nat)
    requires Sound(r) && pcm != [] && frame <= r.limit && i < |r.turns|
    requires r.window ==> i < |r.turns| - 1
    ensures var n := Paced(r, pcm, frame);
      n.turns[i].lo <= Hi(n, i) <= |n.reply| && Span(n, i) == Span(r, i)
  {
    var b := Block(PlaceAt(r, r.reply, frame), pcm);
    WithinPrefix(r.reply, b, Hi(r, i), r.limit);
    var m := Within(r.reply, Hi(r, i), r.limit);
    assert (r.reply + [b])[..m] == r.reply[..m];
  }

  /** And moves the open one exactly as far as the block reaches below the limit. */
  lemma PacedWindow(r: Record, pcm: seq<Sample>, frame: nat)
    requires Sound(r) && pcm != [] && frame <= r.limit && r.window
    ensures var n, i, at := Paced(r, pcm, frame), |r.turns| - 1, PlaceAt(r, r.reply, frame);
      && n.turns[i].lo <= Hi(n, i) <= |n.reply|
      && (r.limit <= at ==> Span(n, i) == Span(r, i))
      && (at < r.limit ==>
            && (Span(r, i).Some? ==> Span(r, i).value.1 == End(r.reply))
            && Span(n, i) == Some((if Span(r, i).Some? then Span(r, i).value.0 else at,
                                   Min(at + |pcm|, r.limit))))
  {
    hide Within, Ordered, End;
    var b := Block(PlaceAt(r, r.reply, frame), pcm);
    OrderedAppend(r.reply, b);
    WithinAppend(r.reply, b, r.limit);
    PrefixOfAppend(r.reply, b, Within(r.reply, |r.reply|, r.limit));
  }

  lemma PrefixOfAppend(line: seq<Block>, b: Block, m: nat)
    requires m <= |line|
    ensures (line + [b])[..m] == line[..m]
    ensures line[..|line|] == line && (line + [b])[..|line| + 1] == line + [b]
  {}

  lemma {:induction false} EarlierStartsBelow(line: seq<Block>, lo: nat, m: nat)
    requires Ordered(line) && lo < m <= |line|
    ensures line[lo].at <= line[m - 1].at
    ensures line[lo].at + |line[lo].pcm| <= End(line[..m])
    decreases m
  {
    EndGrows(line, m);
    if lo < m - 1 {
      EarlierStartsBelow(line, lo, m - 1);
      EndGrows(line, m - 1);
    }
  }

  lemma SpanInside(r: Record, i: nat)
    requires Sound(r) && i < |r.turns| && Span(r, i).Some?
    ensures Span(r, i).value.0 < Span(r, i).value.1 <= Frames(r) <= r.limit
    ensures Span(r, i).value.1 <= End(r.reply[..Hi(r, i)])
  {
    var lo, hi := r.turns[i].lo, Hi(r, i);
    var m := Within(r.reply, hi, r.limit);
    EarlierStartsBelow(r.reply, lo, m);
    assert r.reply[lo] in r.reply;
    EndGrows(r.reply, hi);
    EndGrows(r.reply[..hi], m);
    assert r.reply[..hi][..m] == r.reply[..m];
  }

  /** The reply spans of a session's turns lie inside the closed file, each
      wholly before the next. */
  lemma SpansApart(r: Record, i: nat, j: nat)
    requires Sound(r) && i < j < |r.turns| && Span(r, i).Some? && Span(r, j).Some?
    ensures var a, b := Span(r, i).value, Span(r, j).value;
      a.0 < a.1 <= b.0 < b.1 <= Frames(r)
  {
    SpanInside(r, i);
    SpanInside(r, j);
    var hi, lo := Hi(r, i), r.turns[j].lo;
    EndGrows(r.reply, lo);
    EndGrows(r.reply[..lo], hi);
    assert r.reply[..lo][..hi] == r.reply[..hi];
  }

  /** Where a frame begins, in milliseconds and without rounding. */
  function OffsetMs(frame: nat): real {
    frame as real * 1000.0 / CAPTURE_RATE as real
  }

  lemma OffsetConvertsBack(frame: nat)
    ensures OffsetMs(frame) * 16.0 == frame as real
  {}

  // Event offsets

  /** A time in seconds as the frame it falls in, never before the first. */
  function FrameOf(at: real): nat {
    Max(0, (at * CAPTURE_RATE as real).Floor)
  }

  /** An event's offset in tenths of a millisecond: the nearest one, and the even
      one of two equally near (a frame is 5/8 of a tenth). */
  function Tenths(frame: nat): nat {
    var whole, left := (frame * 5) / 8, (frame * 5) % 8;
    if left < 4 || (left == 4 && whole % 2 == 0) then whole else whole + 1
  }

  /** The frame a reader of that offset arrives at. */
  function FrameRead(tenths: nat): nat {
    (tenths * 8) / 5
  }

  /** Rounding never carries an offset past its frame, nor back past the one
      before it. */
  lemma OffsetReadsBack(frame: nat)
    ensures FrameRead(Tenths(frame)) <= frame <= FrameRead(Tenths(frame)) + 1
  {
    var q, m := frame / 8, frame % 8;
    assert frame == 8 * q + m;
    assert (frame * 5) / 8 == 5 * q + (m * 5) / 8 && (frame * 5) % 8 == (m * 5) % 8;
  }

  /** Whether every moment inside a session's limit falls in a frame below it. */
  ghost predicate IndexesStrictly(limitS: real) {
    forall at | 0.0 <= at < limitS :: FrameOf(at) < FrameOf(limitS)
  }

  /** Exactly when every event's frame is strictly inside the limit: the limit is
      a whole number of frames. */
  lemma IndexesStrictlyExactly(limitS: real)
    requires limitS > 0.0
    ensures IndexesStrictly(limitS) <==> WholeFrames(limitS)
  {
    var whole := (limitS * 16000.0).Floor;
    if whole as real == limitS * 16000.0 {
      forall at | 0.0 <= at < limitS ensures FrameOf(at) < FrameOf(limitS) {
        assert at * 16000.0 < whole as real;
      }
    } else {
      var at := whole as real / 16000.0;
      assert 0.0 <= at < limitS;
      assert at * 16000.0 == whole as real;
      assert FrameOf(at) == whole == FrameOf(limitS);
    }
  }

  /** A limit of whole frames. */
  predicate WholeFrames(limitS: real) {
    (limitS * 16000.0).Floor as real == limitS * 16000.0
  }

  /** Any moment before such a limit falls in a frame below it, the recording's first
      included. */
  lemma FallsBelow(at: real, limitS: real)
    requires limitS > 0.0 && at < limitS && WholeFrames(limitS)
    ensures FrameOf(at) < FrameOf(limitS)
  {
    IndexesStrictlyExactly(limitS);
    if at <= 0.0 { assert FrameOf(at) == FrameOf(0.0); }
  }

  lemma NotedSound(r: Record, frame: nat)
    requires Sound(r)
    ensures Sound(Noted(r, frame))
  {
    var n := Noted(r, frame);
    forall i | 0 <= i < |r.turns| ensures Hi(n, i) == Hi(r, i) {}
  }

  // A recording, from its opening to its close

  /** What reaches it, `at` seconds after it opened, the end of its session included. */
  datatype Arrival =
    | Heard(pcm: seq<Sample>, at: real)
    | Said(pcm: seq<Sample>, at: real)
    | Utterance(utterance: string, heard: seq<Sample>, kept: bool, at: real)
    | Event(at: real)
    | Stop

  datatype Recording = Recording(record: Record, open: bool)

  /** Whatever comes at the limit or after it ends the recording instead of adding to it;
      no audio is nothing at all. */
  function Taken(s: Recording, a: Arrival, limitS: real): Recording {
    if !s.open || ((a.Heard? || a.Said?) && a.pcm == []) then s
    else if a.Stop? || a.at >= limitS then Recording(Shut(s.record), false)
    else
      match a
      case Heard(pcm, at) => s.(record := Spoken(s.record, pcm, FrameOf(at)))
      case Said(pcm, at) => s.(record := Paced(s.record, pcm, FrameOf(at)))
      case Utterance(utterance, heard, kept, at) => s.(record := Turned(s.record, utterance, heard, kept))
      case Event(at) => s.(record := Noted(s.record, FrameOf(at)))
  }

  function Recorded(limitS: real, arrivals: seq<Arrival>): Recording {
    if arrivals == [] then Recording(Fresh(FrameOf(limitS)), true)
    else Taken(Recorded(limitS, arrivals[..|arrivals| - 1]), arrivals[|arrivals| - 1], limitS)
  }

  /** The file's record once the recording is closed, however it came to be. */
  function Closed(limitS: real, arrivals: seq<Arrival>): Record {
    Shut(Recorded(limitS, arrivals).record)
  }

  lemma LagIsBehind(earlier: real, at: real)
    requires earlier <= at + 0.25
    ensures FrameOf(earlier) <= FrameOf(at) + FLUSH_LAG
  {
    assert (at + 0.25) * 16000.0 == at * 16000.0 + 4000.0;
    assert earlier * 16000.0 <= (at + 0.25) * 16000.0;
  }

  /** No audio so far was more than a quarter of a second ahead of this moment: in
      particular when audio arrives in the order of its times. */
  predicate Prompt(arrivals: seq<Arrival>, at: real) {
    forall a | a in arrivals && (a.Heard? || a.Said?) :: a.at <= at + 0.25
  }

  lemma {:induction false} CursorBehind(limitS: real, arrivals: seq<Arrival>, at: real)
    requires Prompt(arrivals, at)
    ensures Recorded(limitS, arrivals).record.cursor <= FrameOf(at)
  {
    if arrivals != [] {
      var last := |arrivals| - 1;
      var a := arrivals[last];
      assert arrivals == arrivals[..last] + [a];
      CursorBehind(limitS, arrivals[..last], at);
      if a.Heard? || a.Said? { LagIsBehind(a.at, at); }
      hide FrameOf;
    }
  }

  /** What has been flushed decides nothing: audio goes where its clock says, or right
      behind what its line holds already, as long as it comes no more than the flush's
      lag behind any audio before it. */
  lemma PlacedByTheClock(limitS: real, arrivals: seq<Arrival>, line: seq<Block>, at: real)
    requires Prompt(arrivals, at)
    ensures PlaceAt(Recorded(limitS, arrivals).record, line, FrameOf(at)) == Max(End(line), FrameOf(at))
  {
    CursorBehind(limitS, arrivals, at);
  }

  lemma {:induction false} RecordedSound(limitS: real, arrivals: seq<Arrival>)
    requires limitS > 0.0
    ensures var r := Recorded(limitS, arrivals).record; Sound(r) && r.limit == FrameOf(limitS)
    ensures WholeFrames(limitS) ==> forall f | f in Recorded(limitS, arrivals).record.track :: f < FrameOf(limitS)
  {
    hide FrameOf, WholeFrames, Sound;
    if arrivals == [] {
      FreshSound(limitS);
    } else {
      var last := |arrivals| - 1;
      RecordedSound(limitS, arrivals[..last]);
      TakenSound(Recorded(limitS, arrivals[..last]), arrivals[last], limitS);
    }
  }

  lemma FreshSound(limitS: real)
    ensures Sound(Fresh(FrameOf(limitS)))
  {}

  lemma TakenSound(s: Recording, a: Arrival, limitS: real)
    requires limitS > 0.0 && Sound(s.record) && s.record.limit == FrameOf(limitS)
    requires WholeFrames(limitS) ==> forall f | f in s.record.track :: f < FrameOf(limitS)
    ensures var r := Taken(s, a, limitS).record;
      && Sound(r) && r.limit == FrameOf(limitS)
      && (WholeFrames(limitS) ==> forall f | f in r.track :: f < FrameOf(limitS))
  {
    if !a.Stop? && a.at < limitS {
      assert FrameOf(a.at) <= FrameOf(limitS);
      if WholeFrames(limitS) { FallsBelow(a.at, limitS); }
    }
    hide Sound, FrameOf, WholeFrames;
    ShutSound(s.record);
    match a
    case Heard(pcm, at) => if pcm != [] && at < limitS { SpokenSound(s.record, pcm, FrameOf(at)); }
    case Said(pcm, at) => if pcm != [] && at < limitS { PacedSound(s.record, pcm, FrameOf(at)); }
    case Utterance(utterance, heard, kept, at) => TurnedSound(s.record, utterance, heard, kept);
    case Event(at) => NotedSound(s.record, FrameOf(at));
    case Stop =>
  }

  /** Every event noted lies strictly inside the closed file, and its rounded offset reads
      back as a frame no later than its own. */
  ghost predicate ReadsInside(r: Record) {
    forall f | f in r.track :: FrameRead(Tenths(f)) <= f < Frames(r)
  }

  /** Over every recording, whatever it was sent and when, exactly where the limit is a
      whole number of frames. */
  lemma EventsInsideTheFile(limitS: real)
    requires limitS > 0.0
    ensures (forall arrivals :: ReadsInside(Closed(limitS, arrivals))) <==> WholeFrames(limitS)
  {
    if WholeFrames(limitS) {
      forall arrivals ensures ReadsInside(Closed(limitS, arrivals)) {
        RecordedSound(limitS, arrivals);
        var r := Recorded(limitS, arrivals).record;
        ShutSound(r);
        forall f | f in Shut(r).track ensures FrameRead(Tenths(f)) <= f < Frames(Shut(r)) {
          OffsetReadsBack(f);
        }
      }
    } else {
      IndexesStrictlyExactly(limitS);
      var at: real :| 0.0 <= at < limitS && FrameOf(at) >= FrameOf(limitS);
      var arrivals := [Event(at)];
      assert arrivals[..0] == [];
      var r := Noted(Fresh(FrameOf(limitS)), FrameOf(at));
      assert Recorded(limitS, arrivals) == Recording(r, true);
      assert FrameOf(limitS) in Shut(r).track;
      assert !ReadsInside(Closed(limitS, arrivals));
    }
  }

  /** It ends nothing: it came in time, or was no audio. */
  predicate Continues(a: Arrival, limitS: real) {
    ((a.Heard? || a.Said?) && a.pcm == []) || (!a.Stop? && a.at < limitS)
  }

  /** The frames of the events that came before anything ended the recording. */
  function EventFrames(limitS: real, arrivals: seq<Arrival>): seq<nat> {
    if arrivals == [] then []
    else
      var front, a := arrivals[..|arrivals| - 1], arrivals[|arrivals| - 1];
      var noted := a.Event? && a.at < limitS && forall b | b in front :: Continues(b, limitS);
      EventFrames(limitS, front) + if noted then [Min(FrameOf(a.at), FrameOf(limitS))] else []
  }

  /** And the track is those events, every one and in order. */
  lemma {:induction false} TrackIsEvents(limitS: real, arrivals: seq<Arrival>)
    requires limitS > 0.0
    ensures Recorded(limitS, arrivals).record.track == EventFrames(limitS, arrivals)
    ensures Recorded(limitS, arrivals).open <==> forall a | a in arrivals :: Continues(a, limitS)
  {
    hide FrameOf, Sound;
    if arrivals != [] {
      var last := |arrivals| - 1;
      var front, a := arrivals[..last], arrivals[last];
      TrackIsEvents(limitS, front);
      RecordedSound(limitS, front);
      assert arrivals == front + [a];
      TakenNotes(Recorded(limitS, front), a, limitS);
      hide Taken, Shut, Turned;
    }
  }

  lemma TakenNotes(s: Recording, a: Arrival, limitS: real)
    ensures var n := Taken(s, a, limitS);
      && (n.open <==> s.open && Continues(a, limitS))
      && n.record.track == s.record.track
           + if s.open && a.Event? && a.at < limitS then [Min(FrameOf(a.at), s.record.limit)] else []
  {
    hide FrameOf;
    assert s.record.track + [] == s.record.track;
  }

  /** Without whole frames an event can land on the limit itself, which the
      closed file stops short of. */
  lemma FractionalLimitOvershoots()
    ensures var limitS, at := 0.0001, 0.00009;
      var r := Noted(Fresh(FrameOf(limitS)), FrameOf(at));
      0.0 <= at < limitS && FrameOf(at) >= Frames(r)
  {
    assert (0.0001 * 16000.0).Floor == 1;
    assert (0.00009 * 16000.0).Floor == 1;
  }
}
