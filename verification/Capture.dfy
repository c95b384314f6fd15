/**
  The recorder itself: two buffered channels, a file in which their
  committed frames alternate, and one clip per turn fed as its channel is.

  Every method is proved against the naive record of `Timeline`.
*/
module Capture {
  import opened Wrappers
  import opened Seqs
  import opened Timeline
  import opened Arrivals

  function Silence(n: nat): seq<Sample> {
    seq(n, _ => 0)
  }

  /** `pcm` written over `buffer` at `offset`, the gap padded with silence. */
  function Overlay(buffer: seq<Sample>, offset: nat, pcm: seq<Sample>): seq<Sample> {
    var end := offset + |pcm|;
    var padded := if |buffer| < end then buffer + Silence(end - |buffer|) else buffer;
    padded[..offset] + pcm + padded[end..]
  }

  ghost predicate Alternates(stereo: seq<Sample>, left: seq<Sample>, right: seq<Sample>) {
    && |left| == |right| && |stereo| == 2 * |left|
    && forall k | 0 <= k < |left| :: stereo[2 * k] == left[k] && stereo[2 * k + 1] == right[k]
  }

  /** The samples of two channels alternating, left first; nothing where the two differ in
      length. */
  method Interleave(left: seq<Sample>, right: seq<Sample>) returns (stereo: Option<seq<Sample>>)
    ensures stereo.None? <==> |left| != |right|
    ensures stereo.Some? ==> Alternates(stereo.value, left, right)
  {
    if |left| != |right| { return None; }
    var out := new Sample[2 * |left|];
    for k := 0 to |left|
      invariant forall m | 0 <= m < k :: out[2 * m] == left[m]
    {
      out[2 * k] := left[k];
    }
    for k := 0 to |right|
      invariant forall m | 0 <= m < |left| :: out[2 * m] == left[m]
      invariant forall m | 0 <= m < k :: out[2 * m + 1] == right[m]
    {
      out[2 * k + 1] := right[k];
    }
    return Some(out[..]);
  }

  /** The buffer that begins at frame `start` is this line from there on. */
  ghost predicate Buffers(buffer: seq<Sample>, start: nat, line: seq<Block>) {
    && Ordered(line)
    && End(line) <= start + |buffer| <= Max(End(line), start)
    && forall k | 0 <= k < |buffer| :: buffer[k] == At(line, start + k)
  }

  lemma OverlayBuffers(buffer: seq<Sample>, start: nat, line: seq<Block>, at: nat, pcm: seq<Sample>)
    requires Buffers(buffer, start, line) && Max(End(line), start) <= at
    ensures Buffers(Overlay(buffer, at - start, pcm), start, line + [Block(at, pcm)])
  {
    hide At, End, Ordered, Overlay;
    var b := Block(at, pcm);
    OrderedAppend(line, b);
    var more := Overlay(buffer, at - start, pcm);
    OverlayReads(buffer, at - start, pcm);
    forall k | 0 <= k < |more| ensures more[k] == At(line + [b], start + k) {
      AtAppend(line, b, start + k);
      if |buffer| <= k { SilentBeyond(line, start + k); }
    }
    EndAppend(line, b);
  }

  lemma EndAppend(line: seq<Block>, b: Block)
    requires Ordered(line) && End(line) <= b.at
    ensures End(line + [b]) == b.at + |b.pcm|
  {
    assert (line + [b])[..|line|] == line;
  }

  /** What an overlaid buffer holds where nothing was overwritten behind the block. */
  lemma OverlayReads(buffer: seq<Sample>, offset: nat, pcm: seq<Sample>)
    requires |buffer| <= offset
    ensures var more := Overlay(buffer, offset, pcm);
      && |more| == offset + |pcm|
      && (forall k | 0 <= k < |buffer| :: more[k] == buffer[k])
      && (forall k | |buffer| <= k < offset :: more[k] == 0)
      && (forall k | offset <= k < |more| :: more[k] == pcm[k - offset])
  {}

  /** The first `frames` frames of a buffer, silence-padded, and what is left. */
  function Front(buffer: seq<Sample>, frames: nat): seq<Sample> {
    seq(frames, k => if 0 <= k < |buffer| then buffer[k] else 0)
  }

  function Rest(buffer: seq<Sample>, frames: nat): seq<Sample> {
    if |buffer| < frames then [] else buffer[frames..]
  }

  /** These frames are the line's, from `start` on. */
  ghost predicate Reads(out: seq<Sample>, start: nat, line: seq<Block>) {
    forall k | 0 <= k < |out| :: out[k] == At(line, start + k)
  }

  lemma RestBuffers(buffer: seq<Sample>, start: nat, line: seq<Block>, frames: nat)
    requires Buffers(buffer, start, line)
    ensures Buffers(Rest(buffer, frames), start + frames, line)
    ensures Reads(Front(buffer, frames), start, line)
  {
    var front := Front(buffer, frames);
    forall k | 0 <= k < frames ensures front[k] == At(line, start + k) {
      if |buffer| <= k { SilentBeyond(line, start + k); }
    }
  }

  class Channel {
    var pending: seq<Sample>
    var nextFrame: nat

    constructor ()
      ensures pending == [] && nextFrame == 0
    {
      pending, nextFrame := [], 0;
    }

    method Add(pcm: seq<Sample>, at: nat, start: nat)
      requires start <= at
      modifies this
      ensures pending == Overlay(old(pending), at - start, pcm) && nextFrame == at + |pcm|
    {
      var offset := at - start;
      var end := offset + |pcm|;
      if |pending| < end {
        pending := pending + Silence(end - |pending|);
      }
      pending := pending[..offset] + pcm + pending[end..];
      nextFrame := at + |pcm|;
    }

    /** Gives up the buffer's front, made long enough with zeros, and keeps its rest. */
    method Take(frames: nat) returns (out: seq<Sample>)
      modifies this`pending
      ensures out == Front(old(pending), frames) && pending == Rest(old(pending), frames)
    {
      if |pending| < frames {
        pending := pending + Silence(frames - |pending|);
      }
      out := pending[..frames];
      pending := pending[frames..];
    }
  }

  /** One turn's reply clip. `from` and `to` are frames of the file's timeline. */
  datatype ReplyClip = ReplyClip(limit: nat, begun: bool, data: seq<Sample>, from: nat, to: nat, header: nat)

  function NewClip(limit: nat): ReplyClip {
    ReplyClip(limit, false, [], 0, 0, 0)
  }

  method PlaceInClip(clip: ReplyClip, pcm: seq<Sample>, at: nat) returns (placed: ReplyClip)
    requires clip.begun ==> clip.to <= at
    ensures pcm == [] || clip.limit <= at ==> placed == clip
    ensures pcm != [] && at < clip.limit ==>
      var end := Min(at + |pcm|, clip.limit);
      placed == ReplyClip(clip.limit, true,
        clip.data + Silence(if clip.begun then at - clip.to else 0) + pcm[..end - at],
        if clip.begun then clip.from else at, end, clip.header)
  {
    var end := Min(at + |pcm|, clip.limit);
    if end <= at { return clip; }
    var began := if clip.begun then clip else clip.(begun := true, from := at, to := at);
    placed := began.(data := began.data + Silence(at - began.to) + pcm[..end - at], to := end);
  }

  /** The header patched to the clip's length, where there is a file at all. */
  function CloseClip(clip: ReplyClip): ReplyClip {
    if clip.begun then clip.(header := 2 * |clip.data|) else clip
  }

  /** A clip is the reply line over its turn's span: the same frames, silence
      included, and no file where nothing was paced. */
  ghost predicate ClipHolds(clip: ReplyClip, r: Record, i: nat)
    requires i < |r.turns| && r.turns[i].lo <= Hi(r, i) <= |r.reply|
  {
    var span := Span(r, i);
    && clip.limit == r.limit
    && clip.begun == span.Some?
    && (span.None? ==> clip.data == [])
    && (span.Some? ==>
          && clip.from == span.value.0 <= clip.to == span.value.1
          && clip.data == Cut(r.reply, clip.from, clip.to))
  }

  ghost predicate TurnsHold(turns: seq<(string, ReplyClip)>, r: Record)
    requires Sound(r)
  {
    && |turns| == |r.turns|
    && forall i | 0 <= i < |turns| :: turns[i].0 == r.turns[i].utterance && ClipHolds(turns[i].1, r, i)
  }

  /** A clip whose window has closed has a header of its own length. */
  ghost predicate Patched(turns: seq<(string, ReplyClip)>, window: bool) {
    forall i | 0 <= i < |turns| && (window ==> i < |turns| - 1) && turns[i].1.begun ::
      turns[i].1.header == 2 * |turns[i].1.data|
  }

  /** A window's first block opens its clip where the block lies. */
  lemma FirstPlaced(line: seq<Block>, at: nat, pcm: seq<Sample>, limit: nat)
    requires Ordered(line) && End(line) <= at < limit && pcm != []
    ensures Cut(line + [Block(at, pcm)], at, Min(at + |pcm|, limit)) == pcm[..Min(at + |pcm|, limit) - at]
  {
    forall k | 0 <= k < Min(at + |pcm|, limit) - at ensures At(line + [Block(at, pcm)], at + k) == pcm[k] {
      AtAppend(line, Block(at, pcm), at + k);
    }
  }

  /** Every later block extends it, silence in the gap included. */
  lemma MorePlaced(line: seq<Block>, at: nat, pcm: seq<Sample>, limit: nat, from: nat, data: seq<Sample>)
    requires Ordered(line) && End(line) <= at < limit && from <= End(line)
    requires data == Cut(line, from, End(line))
    ensures var end := Min(at + |pcm|, limit);
      Cut(line + [Block(at, pcm)], from, end) == data + Silence(at - End(line)) + pcm[..end - at]
  {
    var end := Min(at + |pcm|, limit);
    var more := data + Silence(at - End(line)) + pcm[..end - at];
    assert |more| == end - from;
    forall k | 0 <= k < |more| ensures more[k] == At(line + [Block(at, pcm)], from + k) {
      AtAppend(line, Block(at, pcm), from + k);
      if End(line) <= from + k { SilentBeyond(line, from + k); }
    }
  }

  /** A clip already cut is not changed by what the line is given after it. */
  lemma CutStands(line: seq<Block>, b: Block, from: nat, to: nat)
    requires from <= to <= b.at
    ensures Cut(line + [b], from, to) == Cut(line, from, to)
  {
    forall f | from <= f < to ensures At(line + [b], f) == At(line, f) {
      AtAppend(line, b, f);
    }
  }

  /** A clip already cut stands while the line grows past it. */
  lemma ClosedClipStays(clip: ReplyClip, r: Record, pcm: seq<Sample>, frame: nat, i: nat)
    requires Sound(r) && pcm != [] && frame <= r.limit && i < |r.turns| && ClipHolds(clip, r, i)
    requires r.window ==> i < |r.turns| - 1
    ensures Sound(Paced(r, pcm, frame)) && ClipHolds(clip, Paced(r, pcm, frame), i)
  {
    PacedSound(r, pcm, frame);
    PacedSpans(r, pcm, frame, i);
    if Span(r, i).Some? {
      SpanInside(r, i);
      EndGrows(r.reply, Hi(r, i));
      CutStands(r.reply, Block(PlaceAt(r, r.reply, frame), pcm), clip.from, clip.to);
    }
  }

  /** What a clip becomes when it is given the block its line was just given. */
  ghost predicate PlacedAs(clip: ReplyClip, r: Record, pcm: seq<Sample>, frame: nat, placed: ReplyClip) {
    var at := PlaceAt(r, r.reply, frame);
    && (r.limit <= at ==> placed == clip)
    && (at < r.limit ==>
          var end := Min(at + |pcm|, r.limit);
          (clip.begun ==> clip.to <= at) &&
          placed == ReplyClip(clip.limit, true,
            clip.data + Silence(if clip.begun then at - clip.to else 0) + pcm[..end - at],
            if clip.begun then clip.from else at, end, clip.header))
  }

  lemma OpenClipBegins(clip: ReplyClip, r: Record, pcm: seq<Sample>, frame: nat, placed: ReplyClip)
    requires Sound(r) && pcm != [] && frame <= r.limit && r.window
    requires ClipHolds(clip, r, |r.turns| - 1) && PlacedAs(clip, r, pcm, frame, placed)
    requires PlaceAt(r, r.reply, frame) < r.limit && !clip.begun
    ensures Sound(Paced(r, pcm, frame)) && ClipHolds(placed, Paced(r, pcm, frame), |r.turns| - 1)
  {
    hide Sound, Ordered, At, End, PlaceAt, Cut, Span, Within;
    AnsweredTurn(r);
    var at, n := PlaceAt(r, r.reply, frame), Paced(r, pcm, frame);
    var end := Min(at + |pcm|, r.limit);
    PacedSound(r, pcm, frame);
    PacedWindow(r, pcm, frame);
    assert Ordered(r.reply) && End(r.reply) <= at by { EndsBeforePlace(r, frame); }
    FirstPlaced(r.reply, at, pcm, r.limit);
    assert placed.data == pcm[..end - at] by { assert clip.data + Silence(0) == []; }
  }

  lemma AnsweredTurn(r: Record)
    requires Sound(r) && r.window
    ensures r.turns != []
  {}

  lemma EndsBeforePlace(r: Record, frame: nat)
    requires Sound(r)
    ensures Ordered(r.reply) && End(r.reply) <= PlaceAt(r, r.reply, frame)
  {}

  lemma OpenClipGrows(clip: ReplyClip, r: Record, pcm: seq<Sample>, frame: nat, placed: ReplyClip)
    requires Sound(r) && pcm != [] && frame <= r.limit && r.window
    requires ClipHolds(clip, r, |r.turns| - 1) && PlacedAs(clip, r, pcm, frame, placed)
    requires PlaceAt(r, r.reply, frame) < r.limit && clip.begun
    ensures Sound(Paced(r, pcm, frame)) && ClipHolds(placed, Paced(r, pcm, frame), |r.turns| - 1)
  {
    PacedSound(r, pcm, frame);
    PacedWindow(r, pcm, frame);
    MorePlaced(r.reply, PlaceAt(r, r.reply, frame), pcm, r.limit, clip.from, clip.data);
  }

  /** The open one, given the same block at the same frame as the line, stays the
      line's own span. */
  lemma OpenClipFollows(clip: ReplyClip, r: Record, pcm: seq<Sample>, frame: nat, placed: ReplyClip)
    requires Sound(r) && pcm != [] && frame <= r.limit && r.window
    requires ClipHolds(clip, r, |r.turns| - 1) && PlacedAs(clip, r, pcm, frame, placed)
    ensures Sound(Paced(r, pcm, frame)) && ClipHolds(placed, Paced(r, pcm, frame), |r.turns| - 1)
  {
    var at, i := PlaceAt(r, r.reply, frame), |r.turns| - 1;
    if r.limit <= at {
      PacedSound(r, pcm, frame);
      PacedWindow(r, pcm, frame);
      if Span(r, i).Some? {
        OpenEndsBefore(clip, r, i);
        CutStands(r.reply, Block(at, pcm), clip.from, clip.to);
      }
    } else if clip.begun {
      OpenClipGrows(clip, r, pcm, frame, placed);
    } else {
      OpenClipBegins(clip, r, pcm, frame, placed);
    }
  }

  /** Where a closing recording is written out to is the naive file's end. */
  lemma FinishAt(r: Record, start: nat)
    requires Sound(r) && start == r.cursor
    ensures Max(start, Min(Max(Max(End(r.mic), End(r.reply)), r.event + 1), r.limit)) == Frames(r)
  {}

  class SessionCapture {
    const limitS: real
    const openedAt: real
    const mic: Channel
    const reply: Channel
    var startFrame: nat
    var wav: seq<Sample>
    var header: nat
    var dataBytes: nat
    var recording: bool
    var eventFrame: int
    var turns: seq<(string, ReplyClip)>
    var window: bool  // the last turn's clip is the open one
    var heard: map<string, seq<Sample>>
    ghost var record: Record
    ghost var arrivals: seq<Arrival>  // everything that reached it, first to last

    function Limit(): nat { FrameOf(limitS) }
    function Frame(now: real): nat { FrameOf(now - openedAt) }
    predicate Expired(now: real) { now - openedAt >= limitS }

    ghost function View(): Recording
      reads this
    {
      Recording(record, recording)
    }

    /** The first `frames` frames of the file are the two lines, interleaved. */
    ghost predicate FileHolds(frames: nat)
      reads this
    {
      FilePart(wav, frames, record.mic, record.reply) && dataBytes == 4 * frames
    }

    ghost predicate BuffersHold()
      reads this, mic, reply
    {
      && Buffers(mic.pending, startFrame, record.mic) && mic.nextFrame == End(record.mic)
      && Buffers(reply.pending, startFrame, record.reply) && reply.nextFrame == End(record.reply)
    }

    ghost predicate Valid()
      reads this, mic, reply
    {
      && mic != reply && limitS > 0.0
      && Sound(record) && record.limit == Limit()
      && eventFrame == record.event && window == record.window
      && TurnsHold(turns, record) && Patched(turns, window)
      && (recording ==> startFrame == record.cursor && FileHolds(startFrame) && BuffersHold())
      && (!recording ==> FileHolds(Frames(record)) && header == 4 * Frames(record) && !window)
    }

    /** The record is what the naive run makes of the arrivals, and the heard clips are those
        of its turns. */
    ghost predicate Follows()
      reads this
    {
      View() == Recorded(limitS, arrivals) && heard == HeardClips(record.turns)
    }

    constructor (limitS: real, openedAt: real)
      requires limitS > 0.0
      ensures Valid() && Follows() && recording && arrivals == []
      ensures this.limitS == limitS && this.openedAt == openedAt
      ensures fresh(mic) && fresh(reply)
    {
      this.limitS, this.openedAt := limitS, openedAt;
      mic := new Channel();
      reply := new Channel();
      startFrame, wav, header, dataBytes, recording := 0, [], 0, 0, true;
      eventFrame, turns, window, heard := -1, [], false, map[];
      record, arrivals := Fresh(FrameOf(limitS)), [];
    }

    /** Commits both channels up to a frame, never backwards. */
    method Flush(upTo: int)
      requires mic != reply && FileHolds(startFrame) && BuffersHold()
      modifies this`wav, this`dataBytes, this`startFrame, mic`pending, reply`pending
      ensures startFrame == Max(old(startFrame), upTo)
      ensures FileHolds(startFrame) && BuffersHold()
    {
      var frames := upTo - startFrame;
      if frames <= 0 { return; }
      hide Buffers, Reads, FilePart;
      RestBuffers(mic.pending, startFrame, record.mic, frames);
      RestBuffers(reply.pending, startFrame, record.reply, frames);
      var left := mic.Take(frames);
      var right := reply.Take(frames);
      var block := Interleave(left, right);
      ghost var before := wav;
      wav := wav + block.value;
      dataBytes := dataBytes + 2 * |block.value|;
      Committed(before, left, right, block.value, startFrame, record.mic, record.reply);
      startFrame := upTo;
    }

    method CloseWindow()
      requires Sound(record) && TurnsHold(turns, record) && window == record.window && Patched(turns, window)
      modifies this`turns, this`window, this`record
      ensures Patched(turns, window)
      ensures record == Shut(old(record)) && Sound(record) && Frames(record) == Frames(old(record))
      ensures !window && !record.window && TurnsHold(turns, record)
      ensures record == old(record).(turns := record.turns, window := false)
    {
      ShutSound(record);
      if window {
        var last := |turns| - 1;
        turns := turns[last := (turns[last].0, CloseClip(turns[last].1))];
        window := false;
      }
      record := Shut(record);
    }

    /** Commits every frame the naive file has, and sizes the header by them. */
    method Finish()
      requires mic != reply && FileHolds(startFrame) && BuffersHold()
      requires Sound(record) && startFrame == record.cursor && eventFrame == record.event && record.limit == Limit()
      modifies this`wav, this`dataBytes, this`startFrame, this`header, mic`pending, reply`pending
      ensures FileHolds(Frames(record)) && header == 4 * Frames(record)
    {
      FinishAt(record, startFrame);
      var end := Max(Max(mic.nextFrame, reply.nextFrame), eventFrame + 1);
      Flush(Min(end, Limit()));
      header := dataBytes;
    }

    /** Ends the recording, once. */
    method EndOnce()
      requires Valid()
      modifies this, mic, reply
      ensures Valid() && !recording && heard == old(heard) && arrivals == old(arrivals)
      ensures record == if old(recording) then Shut(old(record)) else old(record)
    {
      hide FilePart, Buffers, TurnsHold, Sound, Frames, HeardClips;
      if !recording { return; }
      recording := false;
      CloseWindow();
      Finish();
    }

    /** One arrival more is on the record: nothing else needs it. */
    ghost method Arrived(a: Arrival)
      requires Valid() && HeardClips(record.turns) == heard
      requires View() == Taken(Recorded(limitS, arrivals), a, limitS)
      modifies this`arrivals
      ensures Valid() && Follows() && arrivals == old(arrivals) + [a]
    {
      RecordedMore(limitS, arrivals, a);
      arrivals := arrivals + [a];
    }

    /** The session's end. */
    method Close()
      requires Valid() && Follows()
      modifies this, mic, reply
      ensures Valid() && Follows() && !recording && arrivals == old(arrivals) + [Stop]
      ensures View() == Taken(old(View()), Stop, limitS)
    {
      hide Valid, Shut, HeardClips;
      ShutHeard(record);
      EndOnce();
      Arrived(Stop);
    }

    /** One block put where it belongs on the microphone's line. */
    method PlaceMicrophone(pcm: seq<Sample>, at: nat, ghost next: Record)
      requires mic != reply && FileHolds(startFrame) && BuffersHold()
      requires Max(End(record.mic), startFrame) <= at
      requires next.mic == record.mic + [Block(at, pcm)] && next.reply == record.reply
      modifies mic, this`record
      ensures record == next && FileHolds(startFrame) && BuffersHold()
    {
      OverlayBuffers(mic.pending, startFrame, record.mic, at, pcm);
      MicrophoneKeepsFile(wav, startFrame, record.mic, record.reply, Block(at, pcm));
      EndAppend(record.mic, Block(at, pcm));
      hide Buffers, FilePart, Overlay, End;
      mic.Add(pcm, at, startFrame);
      record := next;
    }

    method PlaceReply(pcm: seq<Sample>, at: nat, ghost next: Record)
      requires mic != reply && FileHolds(startFrame) && BuffersHold()
      requires Max(End(record.reply), startFrame) <= at
      requires next.reply == record.reply + [Block(at, pcm)] && next.mic == record.mic
      modifies reply, this`record
      ensures record == next && FileHolds(startFrame) && BuffersHold()
    {
      OverlayBuffers(reply.pending, startFrame, record.reply, at, pcm);
      ReplyKeepsFile(wav, startFrame, record.mic, record.reply, Block(at, pcm));
      EndAppend(record.reply, Block(at, pcm));
      hide Buffers, FilePart, Overlay, End;
      reply.Add(pcm, at, startFrame);
      record := next;
    }

    /** Audio in time, placed and as much of it written as has settled. */
    method AddHeard(pcm: seq<Sample>, now: real)
      requires Valid() && recording && pcm != [] && !Expired(now)
      modifies this, mic, reply
      ensures Valid() && heard == old(heard) && recording && arrivals == old(arrivals)
      ensures record == Spoken(old(record), pcm, Frame(now))
    {
      var at := Max(mic.nextFrame, Max(Frame(now), startFrame));
      BelowLimit(now);
      SpokenTurns(turns, record, pcm, Frame(now));
      PlaceMicrophone(pcm, at, Spoken(record, pcm, Frame(now)));
      Flush(Frame(now) - FLUSH_LAG);
    }

    method AddSaid(pcm: seq<Sample>, now: real)
      requires Valid() && recording && pcm != [] && !Expired(now)
      modifies this, mic, reply
      ensures Valid() && heard == old(heard) && recording && arrivals == old(arrivals)
      ensures record == Paced(old(record), pcm, Frame(now))
    {
      var at := Max(reply.nextFrame, Max(Frame(now), startFrame));
      BelowLimit(now);
      FeedWindow(pcm, at, Frame(now));
      PlaceReply(pcm, at, Paced(record, pcm, Frame(now)));
      Flush(Frame(now) - FLUSH_LAG);
    }

    /** The microphone, as decoded. */
    method Microphone(pcm: seq<Sample>, now: real)
      requires Valid() && Follows()
      modifies this, mic, reply
      ensures Valid() && Follows() && arrivals == old(arrivals) + [Arrival.Heard(pcm, now - openedAt)]
      ensures View() == Taken(old(View()), Arrival.Heard(pcm, now - openedAt), limitS)
    {
      hide Valid, Spoken, Paced, Shut, FrameOf, HeardClips;
      ShutHeard(record);
      SpokenHeard(record, pcm, Frame(now));
      if recording && pcm != [] {
        if Expired(now) { EndOnce(); } else { AddHeard(pcm, now); }
      }
      Arrived(Arrival.Heard(pcm, now - openedAt));
    }

    /** And the reply as paced out, which the open window's clip is fed with too. */
    method Reply(pcm: seq<Sample>, now: real)
      requires Valid() && Follows()
      modifies this, mic, reply
      ensures Valid() && Follows() && arrivals == old(arrivals) + [Arrival.Said(pcm, now - openedAt)]
      ensures View() == Taken(old(View()), Arrival.Said(pcm, now - openedAt), limitS)
    {
      hide Valid, Spoken, Paced, Shut, FrameOf, HeardClips;
      ShutHeard(record);
      PacedHeard(record, pcm, Frame(now));
      if recording && pcm != [] {
        if Expired(now) { EndOnce(); } else { AddSaid(pcm, now); }
      }
      Arrived(Arrival.Said(pcm, now - openedAt));
    }

    /** The open window's clip, given what the line is about to be given. */
    method FeedWindow(pcm: seq<Sample>, at: nat, ghost frame: nat)
      requires Sound(record) && TurnsHold(turns, record) && window == record.window
      requires pcm != [] && frame <= record.limit && at == PlaceAt(record, record.reply, frame)
      requires Patched(turns, window)
      modifies this`turns
      ensures Patched(turns, window)
      ensures Sound(Paced(record, pcm, frame)) && TurnsHold(turns, Paced(record, pcm, frame))
    {
      ghost var before := turns;
      if window {
        var last := |turns| - 1;
        OpenEndsBefore(turns[last].1, record, last);
        var placed := PlaceInClip(turns[last].1, pcm, at);
        turns := turns[last := (turns[last].0, placed)];
      }
      PacedTurns(before, record, pcm, frame, turns);
    }

    /** A turn began: `Turned` on the record, with a clip of its own for what was heard where
        its id can name a file. */
    method UtteranceAudio(utterance: string, safeName: bool, pcm: seq<Sample>, now: real)
      requires Valid() && Follows()
      modifies this, mic, reply
      ensures Valid() && Follows()
      ensures arrivals == old(arrivals) + [Utterance(utterance, pcm, safeName, now - openedAt)]
      ensures View() == Taken(old(View()), Utterance(utterance, pcm, safeName, now - openedAt), limitS)
    {
      hide Valid, Turned, Shut, FrameOf, HeardClips;
      ShutHeard(record);
      TurnedHeard(record, utterance, pcm, safeName);
      if recording {
        if Expired(now) { EndOnce(); } else { BeginTurn(utterance, safeName, pcm); }
      }
      Arrived(Utterance(utterance, pcm, safeName, now - openedAt));
    }

    method BeginTurn(utterance: string, safeName: bool, pcm: seq<Sample>)
      requires Valid() && recording
      modifies this`turns, this`window, this`record, this`heard
      ensures Valid() && recording && record == Turned(old(record), utterance, pcm, safeName)
      ensures heard == if safeName then old(heard)[utterance := pcm] else old(heard)
    {
      CloseWindow();
      if !safeName { return; }
      heard := heard[utterance := pcm];
      NewTurn(turns, record, utterance, pcm);
      turns := turns + [(utterance, NewClip(Limit()))];
      window := true;
      record := Turned(record, utterance, pcm, true);
    }

    /** An event: `Noted` on the record. `tenths` is the offset of its frame, in tenths of a
        millisecond, and nothing where no event is taken. */
    method Event(now: real) returns (tenths: Option<nat>)
      requires Valid() && Follows()
      modifies this, mic, reply
      ensures Valid() && Follows() && arrivals == old(arrivals) + [Arrival.Event(now - openedAt)]
      ensures View() == Taken(old(View()), Arrival.Event(now - openedAt), limitS)
      ensures tenths == if recording then Some(Tenths(Frame(now))) else None
    {
      hide Valid, Noted, Shut, FrameOf, HeardClips;
      ShutHeard(record);
      NotedHeard(record, Frame(now));
      tenths := None;
      if recording {
        if Expired(now) { EndOnce(); } else { tenths := Note(now); }
      }
      Arrived(Arrival.Event(now - openedAt));
    }

    method Note(now: real) returns (tenths: Option<nat>)
      requires Valid() && recording && !Expired(now)
      modifies this`eventFrame, this`record
      ensures Valid() && record == Noted(old(record), Frame(now)) && tenths == Some(Tenths(Frame(now)))
    {
      BelowLimit(now);
      var frame := Min(Frame(now), Limit());
      eventFrame := Max(eventFrame, frame);
      NotedTurns(turns, record, Frame(now));
      record := Noted(record, Frame(now));
      return Some(Tenths(frame));
    }

    /** The closed file is what arrived. Each piece of audio accepted for a channel is laid
        down in order, and every sample of it below the limit is in the file, unmodified and
        at its own frame of that channel; every frame no audio covers is silence; the file
        reaches to the end of the audio and of the last event, and the header says four
        bytes a frame. */
    lemma ClosedFile()
      requires Valid() && Follows() && !recording
      ensures var ins := Accepted(limitS, arrivals);
        && Lays(record.mic, ins, Where(ins, Kind.Microphone)) && Lays(record.reply, ins, Where(ins, Kind.Reply))
        && |wav| == 2 * Min(Max(Max(End(record.mic), End(record.reply)), Furthest(EventFrames(limitS, arrivals)) + 1),
                            Limit())
      ensures header == 2 * |wav|
      ensures (forall b | b in record.mic :: Lies(wav, 0, b, Limit())) && Silent(wav, 0, record.mic)
      ensures (forall b | b in record.reply :: Lies(wav, 1, b, Limit())) && Silent(wav, 1, record.reply)
    {
      hide Lays, FrameOf, Furthest, Silent, Lies, TurnsHold, Recorded, EventFrames, Where, Ordered, At, Follows;
      RecordArrived();
      ChannelHolds(wav, 0, record.mic, record.limit, Frames(record));
      ChannelHolds(wav, 1, record.reply, record.limit, Frames(record));
    }

    lemma RecordArrived()
      requires Follows() && limitS > 0.0
      ensures var ins := Accepted(limitS, arrivals);
        && Lays(record.mic, ins, Where(ins, Kind.Microphone)) && Lays(record.reply, ins, Where(ins, Kind.Reply))
      ensures record.event == Furthest(EventFrames(limitS, arrivals))
    {
      hide Lays, FrameOf, Furthest, Recorded, TurnsAre, Where;
      RecordTells(limitS, arrivals);
      TrackIsEvents(limitS, arrivals);
    }

    /** Turn `k` of the session: the kept utterance it began with is its name, and the heard
        clip of that name is what the last such utterance brought. Its reply clip is channel
        1 of the closed file from the first to the last of the reply blocks paced in its
        window that start below the limit, silence included, and is there only where there
        is one. */
    ghost predicate TurnKept(k: nat, ins: seq<Arrival>, i: nat)
      requires k < |turns| && i < |ins| && ins[i].Utterance? && WindowEnd(ins, i) <= |ins|
      requires Replies(ins, i) <= Replies(ins, WindowEnd(ins, i)) <= |record.reply|
      reads this
    {
      && turns[k].0 == ins[i].utterance && turns[k].0 in heard
      && ClipSpans(turns[k].1, record.reply[Replies(ins, i)..Replies(ins, WindowEnd(ins, i))], Limit(), wav)
    }

    lemma ClipIsCut(k: nat, ins: seq<Arrival>, i: nat)
      requires Valid() && Follows() && !recording && k < |record.turns| && TurnIs(record, k, ins, i)
      ensures Replies(ins, i) <= Replies(ins, WindowEnd(ins, i)) <= |record.reply|
      ensures TurnKept(k, ins, i)
    {
      hide FrameOf, Recorded, WindowEnd, Replies, Spans, ClipSpans, ClipHolds, FilePart, HeardClips, Lays, Written;
      HeardClipsExactly(record.turns);
      assert Sound(record) && ClipHolds(turns[k].1, record, k) && turns[k].0 == record.turns[k].utterance;
      CutSpans(turns[k].1, record, k, wav);
    }

    /** The turns the recording kept are the kept utterances it accepted, in order, each with
        its clips, and their reply clips keep that order. */
    lemma ClipsAreCuts()
      requires Valid() && Follows() && !recording
      ensures var ins := Accepted(limitS, arrivals);
        var at := Where(ins, KeptTurn);
        && |turns| == |at|
        && forall k | 0 <= k < |at| ::
             && at[k] < |ins| && ins[at[k]].Utterance? && WindowEnd(ins, at[k]) <= |ins|
             && Replies(ins, at[k]) <= Replies(ins, WindowEnd(ins, at[k])) <= |record.reply|
             && TurnKept(k, ins, at[k])
             && ((forall j | k < j < |at| :: turns[j].0 != turns[k].0) ==> heard[turns[k].0] == ins[at[k]].heard)
      ensures forall i, j | 0 <= i < j < |turns| && turns[i].1.begun && turns[j].1.begun ::
        turns[i].1.to <= turns[j].1.from
    {
      hide FrameOf, At, Recorded, WindowEnd, Replies, Where, Lays, TurnKept, Spans, HeardClips, Furthest;
      var ins := Accepted(limitS, arrivals);
      RecordTells(limitS, arrivals);
      HeardClipsExactly(record.turns);
      var at := Where(ins, KeptTurn);
      forall k | 0 <= k < |at|
        ensures TurnIs(record, k, ins, at[k])
        ensures Replies(ins, at[k]) <= Replies(ins, WindowEnd(ins, at[k])) <= |record.reply|
        ensures TurnKept(k, ins, at[k])
      {
        assert TurnIs(record, k, ins, at[k]);
        ClipIsCut(k, ins, at[k]);
      }
      forall i, j | 0 <= i < j < |turns| && turns[i].1.begun && turns[j].1.begun
        ensures turns[i].1.to <= turns[j].1.from
      {
        SpansApart(record, i, j);
      }
    }

    lemma SpokenHeard(r: Record, pcm: seq<Sample>, frame: nat)
      ensures HeardClips(Spoken(r, pcm, frame).turns) == HeardClips(r.turns)
    {}

    lemma PacedHeard(r: Record, pcm: seq<Sample>, frame: nat)
      ensures HeardClips(Paced(r, pcm, frame).turns) == HeardClips(r.turns)
    {}

    lemma NotedHeard(r: Record, frame: nat)
      ensures HeardClips(Noted(r, frame).turns) == HeardClips(r.turns)
    {}

    lemma BelowLimit(now: real)
      requires !Expired(now)
      ensures Frame(now) <= Limit()
    {}
  }

  /** A closed clip of these reply blocks, against the file. */
  ghost predicate ClipSpans(clip: ReplyClip, blocks: seq<Block>, limit: nat, wav: seq<Sample>) {
    && (!clip.begun ==> clip.data == [] && forall b | b in blocks :: limit <= b.at)
    && (clip.begun ==>
          && Spans(blocks, limit, clip.from, clip.to)
          && clip.from < clip.to && 2 * clip.to <= |wav| && |clip.data| == clip.to - clip.from
          && clip.header == 2 * |clip.data|
          && forall f | clip.from <= f < clip.to :: clip.data[f - clip.from] == wav[2 * f + 1])
  }

  lemma CutSpans(clip: ReplyClip, r: Record, k: nat, wav: seq<Sample>)
    requires Sound(r) && k < |r.turns| && ClipHolds(clip, r, k) && FilePart(wav, Frames(r), r.mic, r.reply)
    requires clip.begun ==> clip.header == 2 * |clip.data|
    ensures ClipSpans(clip, r.reply[r.turns[k].lo..Hi(r, k)], r.limit, wav)
  {
    SpanOfWindow(r, k);
    if clip.begun { SpanInside(r, k); }
    hide Spans, Ordered, End, At, Sound, Frames;
  }

  /** The first frames of a file are the two lines, interleaved. */
  ghost predicate FilePart(wav: seq<Sample>, frames: nat, mic: seq<Block>, reply: seq<Block>) {
    && |wav| == 2 * frames
    && forall f | 0 <= f < frames :: wav[2 * f] == At(mic, f) && wav[2 * f + 1] == At(reply, f)
  }

  /** The file up to a frame, with the next frames of both channels put behind it. */
  lemma Committed(before: seq<Sample>, left: seq<Sample>, right: seq<Sample>, stereo: seq<Sample>, start: nat,
                  mic: seq<Block>, reply: seq<Block>)
    requires FilePart(before, start, mic, reply) && Alternates(stereo, left, right)
    requires Reads(left, start, mic) && Reads(right, start, reply)
    ensures FilePart(before + stereo, start + |left|, mic, reply)
  {
    hide At;
    var wav := before + stereo;
    forall f | 0 <= f < start + |left|
      ensures wav[2 * f] == At(mic, f) && wav[2 * f + 1] == At(reply, f)
    {
      if f < start {
        assert wav[2 * f] == before[2 * f] && wav[2 * f + 1] == before[2 * f + 1];
      } else {
        var k := f - start;
        assert wav[2 * f] == stereo[2 * k] && wav[2 * f + 1] == stereo[2 * k + 1];
        assert left[k] == At(mic, start + k) && right[k] == At(reply, start + k);
      }
    }
  }

  /** The samples of a block that lie below the limit are in a channel of the file,
      unmodified and each at its own frame. */
  ghost predicate Lies(wav: seq<Sample>, channel: nat, b: Block, limit: nat) {
    forall k | 0 <= k < |b.pcm| && b.at + k < limit ::
      var at := 2 * (b.at + k) + channel;
      at < |wav| && wav[at] == b.pcm[k]
  }

  /** A channel of the file is silent wherever no block lies. */
  ghost predicate Silent(wav: seq<Sample>, channel: nat, line: seq<Block>) {
    forall f: nat | 2 * f + channel < |wav| && Uncovered(line, f) :: wav[2 * f + channel] == 0
  }

  lemma SampleLies(wav: seq<Sample>, channel: nat, line: seq<Block>, frames: nat, i: nat, k: nat)
    requires Ordered(line) && |wav| == 2 * frames && channel < 2 && i < |line| && k < |line[i].pcm|
    requires End(line) <= frames || line[i].at + k < frames
    requires forall f | 0 <= f < frames :: wav[2 * f + channel] == At(line, f)
    ensures var at := 2 * (line[i].at + k) + channel; at < |wav| && wav[at] == line[i].pcm[k]
  {
    hide At, Ordered, End;
    BlockLies(line, i, k);
    BlockEnds(line, i);
    var f := line[i].at + k;
    assert f < frames && wav[2 * f + channel] == At(line, f);
  }

  lemma BlockIsThere(wav: seq<Sample>, channel: nat, line: seq<Block>, limit: nat, frames: nat, i: nat)
    requires Ordered(line) && |wav| == 2 * frames && channel < 2 && Min(End(line), limit) <= frames <= limit
    requires forall f | 0 <= f < frames :: wav[2 * f + channel] == At(line, f)
    requires i < |line|
    ensures Lies(wav, channel, line[i], limit)
  {
    hide At, Ordered, End;
    forall k | 0 <= k < |line[i].pcm| && line[i].at + k < limit
      ensures var at := 2 * (line[i].at + k) + channel; at < |wav| && wav[at] == line[i].pcm[k]
    {
      SampleLies(wav, channel, line, frames, i, k);
    }
  }

  lemma ChannelHolds(wav: seq<Sample>, channel: nat, line: seq<Block>, limit: nat, frames: nat)
    requires Ordered(line) && |wav| == 2 * frames && channel < 2 && Min(End(line), limit) <= frames <= limit
    requires forall f | 0 <= f < frames :: wav[2 * f + channel] == At(line, f)
    ensures (forall b | b in line :: Lies(wav, channel, b, limit)) && Silent(wav, channel, line)
  {
    hide At, Ordered, End, Lies;
    forall i | 0 <= i < |line| ensures Lies(wav, channel, line[i], limit) {
      BlockIsThere(wav, channel, line, limit, frames, i);
    }
    forall f: nat | 2 * f + channel < |wav| && Uncovered(line, f) ensures wav[2 * f + channel] == 0 {
      SilentBetween(line, f);
    }
  }

  ghost predicate Uncovered(line: seq<Block>, f: nat) {
    forall i | 0 <= i < |line| :: !(line[i].at <= f < line[i].at + |line[i].pcm|)
  }

  lemma BlockEnds(line: seq<Block>, i: nat)
    requires Ordered(line) && i < |line|
    ensures line[i].at + |line[i].pcm| <= End(line)
  {
    EndGrows(line, i + 1);
    assert line[..i + 1][i] == line[i];
  }

  lemma SpokenTurns(turns: seq<(string, ReplyClip)>, r: Record, pcm: seq<Sample>, frame: nat)
    requires Sound(r) && TurnsHold(turns, r) && pcm != [] && frame <= r.limit
    ensures Sound(Spoken(r, pcm, frame)) && TurnsHold(turns, Spoken(r, pcm, frame))
  {
    SpokenSound(r, pcm, frame);
    var n := Spoken(r, pcm, frame);
    forall i | 0 <= i < |turns| ensures turns[i].0 == n.turns[i].utterance && ClipHolds(turns[i].1, n, i) {
      assert Hi(n, i) == Hi(r, i) && Span(n, i) == Span(r, i);
    }
  }

  lemma NotedTurns(turns: seq<(string, ReplyClip)>, r: Record, frame: nat)
    requires Sound(r) && TurnsHold(turns, r)
    ensures Sound(Noted(r, frame)) && TurnsHold(turns, Noted(r, frame))
  {
    var n := Noted(r, frame);
    assert forall i | 0 <= i < |r.turns| :: Hi(n, i) == Hi(r, i);
    forall i | 0 <= i < |turns| ensures turns[i].0 == n.turns[i].utterance && ClipHolds(turns[i].1, n, i) {
      assert Span(n, i) == Span(r, i);
    }
  }

  lemma OpenEndsBefore(clip: ReplyClip, r: Record, i: nat)
    requires Sound(r) && r.window && i == |r.turns| - 1 && ClipHolds(clip, r, i)
    ensures clip.begun ==> clip.to <= End(r.reply)
  {
    if clip.begun {
      SpanInside(r, i);
      EndGrows(r.reply, Hi(r, i));
    }
  }

  lemma PacedTurns(turns: seq<(string, ReplyClip)>, r: Record, pcm: seq<Sample>, frame: nat,
                   placed: seq<(string, ReplyClip)>)
    requires Sound(r) && TurnsHold(turns, r) && pcm != [] && frame <= r.limit
    requires |placed| == |turns|
    requires forall i | 0 <= i < |turns| :: placed[i].0 == turns[i].0
    requires forall i | 0 <= i < |turns| :: (r.window ==> i < |turns| - 1) ==> placed[i] == turns[i]
    requires r.window ==> PlacedAs(turns[|turns| - 1].1, r, pcm, frame, placed[|turns| - 1].1)
    ensures Sound(Paced(r, pcm, frame)) && TurnsHold(placed, Paced(r, pcm, frame))
  {
    PacedSound(r, pcm, frame);
    forall i | 0 <= i < |turns|
      ensures placed[i].0 == Paced(r, pcm, frame).turns[i].utterance
      ensures ClipHolds(placed[i].1, Paced(r, pcm, frame), i)
    {
      if r.window ==> i < |turns| - 1 {
        ClosedClipStays(turns[i].1, r, pcm, frame, i);
      } else {
        OpenClipFollows(turns[i].1, r, pcm, frame, placed[i].1);
      }
    }
  }

  lemma NewTurn(turns: seq<(string, ReplyClip)>, r: Record, utterance: string, heard: seq<Sample>)
    requires Sound(r) && TurnsHold(turns, r) && !r.window
    ensures var n := Turned(r, utterance, heard, true);
      Sound(n) && TurnsHold(turns + [(utterance, NewClip(r.limit))], n)
  {
    TurnedSound(r, utterance, heard, true);
  }

  /** A block placed beyond what is committed leaves what is committed alone. */
  lemma MicrophoneKeepsFile(wav: seq<Sample>, frames: nat, mic: seq<Block>, reply: seq<Block>, b: Block)
    requires FilePart(wav, frames, mic, reply) && Ordered(mic) && End(mic) <= b.at && frames <= b.at
    ensures FilePart(wav, frames, mic + [b], reply)
  {
    hide At, End, Ordered;
    KeepsFile(mic, b, frames);
  }

  lemma ReplyKeepsFile(wav: seq<Sample>, frames: nat, mic: seq<Block>, reply: seq<Block>, b: Block)
    requires FilePart(wav, frames, mic, reply) && Ordered(reply) && End(reply) <= b.at && frames <= b.at
    ensures FilePart(wav, frames, mic, reply + [b])
  {
    hide At, End, Ordered;
    KeepsFile(reply, b, frames);
  }

  lemma KeepsFile(line: seq<Block>, b: Block, frames: nat)
    requires frames <= b.at
    ensures forall f | 0 <= f < frames :: At(line + [b], f) == At(line, f)
  {
    forall f | 0 <= f < frames ensures At(line + [b], f) == At(line, f) {
      AtAppend(line, b, f);
    }
  }
}
