/**
  What becomes of each clip of a job, said of the clips and of what outside answers, and
  nothing of the worker: a clip is skipped behind one that used up every retry, left unfiled
  where its turn has no trace, and otherwise lands or fails by itself.
*/
module ClipFates {
  import opened Wrappers
  import opened ClipFiling

  /** It was sent as often as it may be, and every attempt failed in a way worth retrying. */
  ghost predicate Exhausts(clip: Clip, retries: nat) {
    clip.lost == None && forall a | 0 <= a <= retries :: Retryable(clip.answers(a))
  }

  /** Its first attempt that is not worth retrying lands it. */
  ghost predicate LandsAs(clip: Clip, retries: nat, media: Token) {
    clip.lost == None && exists a | 0 <= a <= retries ::
      clip.answers(a) == Landed(media) && forall b | 0 <= b < a :: Retryable(clip.answers(b))
  }

  /** Its bytes are lost for this reason, or this is what its last attempt met. */
  ghost predicate FailsFor(clip: Clip, retries: nat, why: Reason) {
    if clip.lost.Some? then clip.lost == Some(why)
    else exists a | 0 <= a <= retries ::
      && (forall b | 0 <= b < a :: Retryable(clip.answers(b)))
      && (a == retries || !Retryable(clip.answers(a)))
      && match clip.answers(a)
         case Landed(_) => false
         case Refused(w) => w == why
         case Failed(w, _) => w == why
  }

  /** The clip at `i` of the turn at `k` comes behind one that was exhausted. */
  ghost predicate Ruined(turns: seq<Turn>, retries: nat, k: nat, i: nat) {
    exists l: nat, j: nat :: Ruins(turns, retries, l, j) && (l < k || (l == k && j < i))
  }

  ghost predicate Ruins(turns: seq<Turn>, retries: nat, l: nat, j: nat) {
    l < |turns| && j < |turns[l].clips| && turns[l].pinned && Exhausts(turns[l].clips[j], retries)
  }

  datatype Fate = Skipped | Unfiled | Lands | Fails

  ghost function FateOf(turns: seq<Turn>, retries: nat, k: nat, i: nat): Fate
    requires k < |turns| && i < |turns[k].clips|
  {
    if Ruined(turns, retries, k, i) then Skipped
    else if !turns[k].pinned then Unfiled
    else if exists media: Token :: LandsAs(turns[k].clips[i], retries, media) then Lands
    else Fails
  }

  /** How many of a turn's first clips have a fate, and of all clips of some turns. */
  ghost function CountIn(turns: seq<Turn>, retries: nat, k: nat, n: nat, fate: Fate): nat
    requires k < |turns| && n <= |turns[k].clips|
  {
    if n == 0 then 0
    else CountIn(turns, retries, k, n - 1, fate) + if FateOf(turns, retries, k, n - 1) == fate then 1 else 0
  }

  ghost function Count(turns: seq<Turn>, retries: nat, n: nat, fate: Fate): nat
    requires n <= |turns|
  {
    if n == 0 then 0
    else Count(turns, retries, n - 1, fate) + CountIn(turns, retries, n - 1, |turns[n - 1].clips|, fate)
  }

  /** Of the clips that land, those whose turn's reference is accepted, or is not. */
  ghost function Referenced(turns: seq<Turn>, retries: nat, n: nat, accepted: bool): nat
    requires n <= |turns|
  {
    if n == 0 then 0
    else
      Referenced(turns, retries, n - 1, accepted)
      + if turns[n - 1].accepts == accepted then CountIn(turns, retries, n - 1, |turns[n - 1].clips|, Lands) else 0
  }

  // What one upload comes to

  lemma FilingExactly(clip: Clip, retries: nat)
    ensures var s := Filing(clip, retries);
      && (s.exhausted <==> Exhausts(clip, retries))
      && (forall media: Token :: s.media == Some(media) <==> LandsAs(clip, retries, media))
      && (forall why :: s.reason == Some(why) <==> FailsFor(clip, retries, why))
      && (s.media.Some? <==> s.reason == None)
  {
    if clip.lost == None {
      TriedExactly(clip.answers, 0, retries);
      var s := Tried(clip.answers, 0, retries);
      hide Tried;
      var last := s.attempts - 1;
      LastAttempt(clip, retries, last, s);
    }
  }

  lemma LastAttempt(clip: Clip, retries: nat, last: nat, s: Sent)
    requires clip.lost == None && last <= retries && (forall b | 0 <= b < last :: Retryable(clip.answers(b)))
    requires s.exhausted <==> forall b | 0 <= b <= retries :: Retryable(clip.answers(b))
    requires last == retries || !Retryable(clip.answers(last))
    requires match clip.answers(last)
      case Landed(media) => s.media == Some(media) && s.reason == None
      case Refused(why) => s.media == None && s.reason == Some(why)
      case Failed(why, _) => s.media == None && s.reason == Some(why)
    ensures forall media: Token :: s.media == Some(media) <==> LandsAs(clip, retries, media)
    ensures forall why :: s.reason == Some(why) <==> FailsFor(clip, retries, why)
  {
    forall a: nat | a <= retries && (forall b | 0 <= b < a :: Retryable(clip.answers(b)))
        && (a == retries || !Retryable(clip.answers(a)))
      ensures a == last
    {
      assert a < last ==> Retryable(clip.answers(a));
      assert last < a ==> Retryable(clip.answers(last));
    }
  }

  // What the worker has counted part way

  lemma RuinedNext(turns: seq<Turn>, retries: nat, k: nat, i: nat)
    requires k < |turns| && i < |turns[k].clips|
    ensures Ruined(turns, retries, k, i + 1) <==>
      Ruined(turns, retries, k, i) || (turns[k].pinned && Exhausts(turns[k].clips[i], retries))
  {
    hide Exhausts;
    if turns[k].pinned && Exhausts(turns[k].clips[i], retries) { assert Ruins(turns, retries, k, i); }
    if Ruined(turns, retries, k, i + 1) {
      var l: nat, j: nat :| Ruins(turns, retries, l, j) && (l < k || (l == k && j < i + 1));
    }
  }

  lemma RuinedTurn(turns: seq<Turn>, retries: nat, k: nat)
    requires k < |turns|
    ensures Ruined(turns, retries, k + 1, 0) <==> Ruined(turns, retries, k, |turns[k].clips|)
  {
    hide Exhausts;
    if Ruined(turns, retries, k + 1, 0) {
      var l: nat, j: nat :| Ruins(turns, retries, l, j) && l < k + 1;
    }
    if Ruined(turns, retries, k, |turns[k].clips|) {
      var l: nat, j: nat :| Ruins(turns, retries, l, j) && (l < k || (l == k && j < |turns[k].clips|));
    }
  }

  lemma {:induction false} RuinedOn(turns: seq<Turn>, retries: nat, k: nat, i: nat, n: nat)
    requires i <= n && Ruined(turns, retries, k, i)
    ensures Ruined(turns, retries, k, n)
  {
    hide Exhausts;
    var l: nat, j: nat :| Ruins(turns, retries, l, j) && (l < k || (l == k && j < i));
  }

  /** What stands after the first clips of a turn, whatever stood before. */
  ghost predicate Counted(turns: seq<Turn>, retries: nat, k: nat, n: nat, p: Progress, q: Progress,
                          tokens: map<Name, Token>)
    requires k < |turns| && n <= |turns[k].clips|
  {
    && (q.stopped <==> Ruined(turns, retries, k, n))
    && q.filed.skipped == p.filed.skipped + CountIn(turns, retries, k, n, Skipped)
    && q.filed.failed == p.filed.failed + CountIn(turns, retries, k, n, Fails)
    && q.filed.attached == p.filed.attached && q.filed.unfiled == p.filed.unfiled
    && |tokens| == CountIn(turns, retries, k, n, Lands)
    && TokensAre(tokens, turns, retries, k, n)
  }

  /** Exactly the clips that landed, each under its own reference. */
  ghost predicate TokensAre(tokens: map<Name, Token>, turns: seq<Turn>, retries: nat, k: nat, n: nat)
    requires k < |turns| && n <= |turns[k].clips|
  {
    && (forall i | 0 <= i < n && FateOf(turns, retries, k, i) == Lands ::
          var clip := turns[k].clips[i];
          clip.reference in tokens && LandsAs(clip, retries, tokens[clip.reference]))
    && (forall name | name in tokens :: Landing(turns, retries, k, n, name))
  }

  /** One of a turn's first clips goes by this reference, and lands. */
  ghost predicate Landing(turns: seq<Turn>, retries: nat, k: nat, n: nat, name: Name)
    requires k < |turns| && n <= |turns[k].clips|
  {
    exists i | 0 <= i < n :: turns[k].clips[i].reference == name && FateOf(turns, retries, k, i) == Lands
  }

  lemma LandingNext(turns: seq<Turn>, retries: nat, k: nat, n: nat, name: Name)
    requires k < |turns| && n < |turns[k].clips|
    ensures Landing(turns, retries, k, n + 1, name) <==>
      Landing(turns, retries, k, n, name)
      || (turns[k].clips[n].reference == name && FateOf(turns, retries, k, n) == Lands)
  {
    hide FateOf;
    if Landing(turns, retries, k, n, name) {
      var i :| 0 <= i < n && turns[k].clips[i].reference == name && FateOf(turns, retries, k, i) == Lands;
      assert i < n + 1;
    }
  }

  lemma OneMore(tokens: map<Name, Token>, name: Name, media: Token)
    requires name !in tokens
    ensures |tokens[name := media]| == |tokens| + 1
  {
    assert tokens[name := media].Keys == tokens.Keys + {name};
    assert |tokens.Keys| == |tokens| && |tokens[name := media].Keys| == |tokens[name := media]|;
  }

  lemma MoreTokens(tokens: map<Name, Token>, turns: seq<Turn>, retries: nat, k: nat, n: nat, media: Token)
    requires k < |turns| && n < |turns[k].clips| && TokensAre(tokens, turns, retries, k, n)
    requires DistinctReferences(turns[k].clips)
    requires FateOf(turns, retries, k, n) == Lands && LandsAs(turns[k].clips[n], retries, media)
    ensures var name := turns[k].clips[n].reference;
      TokensAre(tokens[name := media], turns, retries, k, n + 1) && |tokens[name := media]| == |tokens| + 1
  {
    hide LandsAs, FateOf;
    var name := turns[k].clips[n].reference;
    assert !Landing(turns, retries, k, n, name);
    hide Landing;
    OneMore(tokens, name, media);
    forall x ensures Landing(turns, retries, k, n, x) ==> Landing(turns, retries, k, n + 1, x) {
      LandingNext(turns, retries, k, n, x);
    }
    LandingNext(turns, retries, k, n, name);
    assert forall i | 0 <= i < n :: turns[k].clips[i].reference != name;
  }

  lemma SameTokens(tokens: map<Name, Token>, turns: seq<Turn>, retries: nat, k: nat, n: nat)
    requires k < |turns| && n < |turns[k].clips| && TokensAre(tokens, turns, retries, k, n)
    requires FateOf(turns, retries, k, n) != Lands
    ensures TokensAre(tokens, turns, retries, k, n + 1)
  {
    hide LandsAs, FateOf, Landing;
    forall x ensures Landing(turns, retries, k, n, x) ==> Landing(turns, retries, k, n + 1, x) {
      LandingNext(turns, retries, k, n, x);
    }
  }

  lemma ClipCounts(turns: seq<Turn>, retries: nat, k: nat, n: nat, p: Progress, q: Progress, tokens: map<Name, Token>)
    requires k < |turns| && n < |turns[k].clips| && turns[k].pinned && DistinctReferences(turns[k].clips)
    requires Counted(turns, retries, k, n, p, q, tokens)
    ensures var (q', tokens') := TakeClip(q, tokens, k, n, turns[k].clips[n], retries);
      Counted(turns, retries, k, n + 1, p, q', tokens')
  {
    hide Exhausts, LandsAs, Ruined, Filing, DistinctReferences, TokensAre, FailsFor;
    var clip := turns[k].clips[n];
    FilingExactly(clip, retries);
    RuinedNext(turns, retries, k, n);
    var s := Filing(clip, retries);
    if q.stopped {
      SameTokens(tokens, turns, retries, k, n);
    } else if s.media.Some? {
      assert LandsAs(clip, retries, s.media.value);
      MoreTokens(tokens, turns, retries, k, n, s.media.value);
    } else {
      assert forall media: Token :: !LandsAs(clip, retries, media);
      SameTokens(tokens, turns, retries, k, n);
    }
  }

  lemma {:induction false} ClipsCount(turns: seq<Turn>, retries: nat, k: nat, n: nat, p: Progress)
    requires k < |turns| && n <= |turns[k].clips| && turns[k].pinned && DistinctReferences(turns[k].clips)
    requires p.stopped <==> Ruined(turns, retries, k, 0)
    ensures var (q, tokens) := TakeClips(p, k, turns[k].clips[..n], retries);
      Counted(turns, retries, k, n, p, q, tokens)
  {
    hide Counted, TakeClip;
    if n == 0 {
      assert Counted(turns, retries, k, 0, p, p, map[]) by { NothingCounted(turns, retries, k, p); }
    } else {
      ClipsCount(turns, retries, k, n - 1, p);
      var front := turns[k].clips[..n];
      assert front[..n - 1] == turns[k].clips[..n - 1] && front[n - 1] == turns[k].clips[n - 1];
      var (q, tokens) := TakeClips(p, k, turns[k].clips[..n - 1], retries);
      ClipCounts(turns, retries, k, n - 1, p, q, tokens);
    }
  }

  lemma NothingCounted(turns: seq<Turn>, retries: nat, k: nat, p: Progress)
    requires k < |turns| && (p.stopped <==> Ruined(turns, retries, k, 0))
    ensures Counted(turns, retries, k, 0, p, p, map[])
  {
    hide Ruined;
  }

  /** A turn all of whose clips have one fate. */
  lemma {:induction false} AllOne(turns: seq<Turn>, retries: nat, k: nat, n: nat, fate: Fate, other: Fate)
    requires k < |turns| && n <= |turns[k].clips|
    requires forall i | 0 <= i < n :: FateOf(turns, retries, k, i) == fate
    ensures CountIn(turns, retries, k, n, other) == if other == fate then n else 0
  {
    hide FateOf;
    if n > 0 { AllOne(turns, retries, k, n - 1, fate, other); }
  }

  /** What stands after the first turns. */
  ghost predicate Tallied(turns: seq<Turn>, retries: nat, n: nat, p: Progress)
    requires n <= |turns|
  {
    && (p.stopped <==> Ruined(turns, retries, n, 0))
    && p.filed.skipped == Count(turns, retries, n, Skipped)
    && p.filed.unfiled == Count(turns, retries, n, Unfiled)
    && p.filed.attached == Referenced(turns, retries, n, true)
    && p.filed.failed == Count(turns, retries, n, Fails) + Referenced(turns, retries, n, false)
  }

  lemma {:induction false} UnpinnedStays(turns: seq<Turn>, retries: nat, k: nat, n: nat)
    requires k < |turns| && n <= |turns[k].clips| && !turns[k].pinned
    ensures Ruined(turns, retries, k, n) <==> Ruined(turns, retries, k, 0)
  {
    hide Ruined, Exhausts;
    if n > 0 {
      UnpinnedStays(turns, retries, k, n - 1);
      RuinedNext(turns, retries, k, n - 1);
    }
  }

  /** A turn behind an exhausted clip. */
  lemma SkippedTurn(turns: seq<Turn>, retries: nat, n: nat, p: Progress)
    requires n < |turns| && Tallied(turns, retries, n, p) && p.stopped
    ensures Tallied(turns, retries, n + 1, TakeTurn(p, n, turns[n], retries))
  {
    var all := |turns[n].clips|;
    hide Ruined;
    RuinedTurn(turns, retries, n);
    RuinedOn(turns, retries, n, 0, all);
    forall i | 0 <= i < all ensures FateOf(turns, retries, n, i) == Skipped { RuinedOn(turns, retries, n, 0, i); }
    hide FateOf;
    AllOne(turns, retries, n, all, Skipped, Skipped);
    AllOne(turns, retries, n, all, Skipped, Unfiled);
    AllOne(turns, retries, n, all, Skipped, Lands);
    AllOne(turns, retries, n, all, Skipped, Fails);
  }

  lemma UnfiledTurn(turns: seq<Turn>, retries: nat, n: nat, p: Progress)
    requires n < |turns| && Tallied(turns, retries, n, p) && !p.stopped && !turns[n].pinned
    ensures Tallied(turns, retries, n + 1, TakeTurn(p, n, turns[n], retries))
  {
    var all := |turns[n].clips|;
    hide Ruined;
    RuinedTurn(turns, retries, n);
    UnpinnedStays(turns, retries, n, all);
    forall i | 0 <= i < all ensures FateOf(turns, retries, n, i) == Unfiled { UnpinnedStays(turns, retries, n, i); }
    hide FateOf;
    AllOne(turns, retries, n, all, Unfiled, Skipped);
    AllOne(turns, retries, n, all, Unfiled, Unfiled);
    AllOne(turns, retries, n, all, Unfiled, Lands);
    AllOne(turns, retries, n, all, Unfiled, Fails);
  }

  lemma {:induction false} PinnedFates(turns: seq<Turn>, retries: nat, k: nat, n: nat)
    requires k < |turns| && n <= |turns[k].clips| && turns[k].pinned
    ensures CountIn(turns, retries, k, n, Unfiled) == 0
  {
    hide Ruined, LandsAs;
    if n > 0 { PinnedFates(turns, retries, k, n - 1); }
  }

  lemma FiledTurn(turns: seq<Turn>, retries: nat, n: nat, p: Progress)
    requires n < |turns| && Tallied(turns, retries, n, p) && !p.stopped && turns[n].pinned
    requires DistinctReferences(turns[n].clips)
    ensures Tallied(turns, retries, n + 1, TakeTurn(p, n, turns[n], retries))
  {
    var clips := turns[n].clips;
    hide Ruined, FateOf, DistinctReferences, TakeClips, TokensAre, CountIn, Exhausts;
    RuinedTurn(turns, retries, n);
    ClipsCount(turns, retries, n, |clips|, p);
    assert clips[..|clips|] == clips;
    PinnedFates(turns, retries, n, |clips|);
  }

  lemma TurnTallies(turns: seq<Turn>, retries: nat, n: nat, p: Progress)
    requires n < |turns| && DistinctReferences(turns[n].clips) && Tallied(turns, retries, n, p)
    ensures Tallied(turns, retries, n + 1, TakeTurn(p, n, turns[n], retries))
  {
    hide Tallied, TakeTurn, DistinctReferences;
    if p.stopped {
      SkippedTurn(turns, retries, n, p);
    } else if !turns[n].pinned {
      UnfiledTurn(turns, retries, n, p);
    } else {
      FiledTurn(turns, retries, n, p);
    }
  }

  lemma {:induction false} FirstTurns(turns: seq<Turn>, retries: nat, n: nat)
    requires n <= |turns| && forall t | t in turns :: DistinctReferences(t.clips)
    ensures Tallied(turns, retries, n, TakeTurns(turns[..n], retries))
  {
    hide Tallied, TakeTurn, DistinctReferences;
    if n == 0 {
      assert Tallied(turns, retries, 0, NONE) by { NothingTallied(turns, retries); }
    } else {
      FirstTurns(turns, retries, n - 1);
      var front := turns[..n];
      assert front[..n - 1] == turns[..n - 1] && front[n - 1] == turns[n - 1];
      TurnTallies(turns, retries, n - 1, TakeTurns(turns[..n - 1], retries));
    }
  }

  lemma NothingTallied(turns: seq<Turn>, retries: nat)
    ensures Tallied(turns, retries, 0, NONE)
  {}

  /** The account of a job is that of its clips: each count is the number of clips of that
      fate, where those that landed are attached where their turn's reference was accepted
      and failed where it was not. */
  lemma FatesCounted(turns: seq<Turn>, retries: nat)
    requires forall t | t in turns :: DistinctReferences(t.clips)
    ensures var filed := TakeTurns(turns, retries).filed;
      && filed.skipped == Count(turns, retries, |turns|, Skipped)
      && filed.unfiled == Count(turns, retries, |turns|, Unfiled)
      && filed.attached == Referenced(turns, retries, |turns|, true)
      && filed.failed == Count(turns, retries, |turns|, Fails) + Referenced(turns, retries, |turns|, false)
  {
    hide DistinctReferences, Count, Referenced, Ruined;
    FirstTurns(turns, retries, |turns|);
    assert turns[..|turns|] == turns;
  }

  // The references

  /** Exactly one reference for each turn of which a clip landed, in order, with exactly
      those clips, accepted as the turn's context answers. */
  ghost predicate ReferencesAre(references: seq<Reference>, turns: seq<Turn>, retries: nat, n: nat)
    requires n <= |turns|
  {
    && (forall r | r in references ::
          && r.turn < n && r.accepted == turns[r.turn].accepts
          && TokensAre(r.tokens, turns, retries, r.turn, |turns[r.turn].clips|))
    && (forall i, j | 0 <= i < j < |references| :: references[i].turn < references[j].turn)
    && (forall k: nat | k < n ::
          CountIn(turns, retries, k, |turns[k].clips|, Lands) > 0 <==> HasReference(references, k))
  }

  ghost predicate HasReference(references: seq<Reference>, k: nat) {
    exists r | r in references :: r.turn == k
  }

  /** What a turn adds: its reference, where a clip of it landed. */
  ghost predicate ReferenceIs(more: seq<Reference>, turns: seq<Turn>, retries: nat, n: nat)
    requires n < |turns|
  {
    if CountIn(turns, retries, n, |turns[n].clips|, Lands) == 0 then more == []
    else
      && |more| == 1 && more[0].turn == n && more[0].accepted == turns[n].accepts
      && TokensAre(more[0].tokens, turns, retries, n, |turns[n].clips|)
  }

  lemma TurnReference(turns: seq<Turn>, retries: nat, n: nat, p: Progress)
    requires n < |turns| && DistinctReferences(turns[n].clips) && (p.stopped <==> Ruined(turns, retries, n, 0))
    ensures var q := TakeTurn(p, n, turns[n], retries);
      p.references <= q.references && ReferenceIs(q.references[|p.references|..], turns, retries, n)
  {
    var clips := turns[n].clips;
    hide Ruined, FateOf, DistinctReferences, TakeClips, TokensAre;
    if p.stopped || !turns[n].pinned {
      NoLanding(turns, retries, n, |clips|);
    } else {
      ClipsCount(turns, retries, n, |clips|, p);
      assert clips[..|clips|] == clips;
      ClipsAttachNothing(p, n, clips, retries);
    }
  }

  lemma {:induction false} NoLanding(turns: seq<Turn>, retries: nat, k: nat, n: nat)
    requires k < |turns| && n <= |turns[k].clips| && (Ruined(turns, retries, k, 0) || !turns[k].pinned)
    ensures CountIn(turns, retries, k, n, Lands) == 0
  {
    hide Ruined, LandsAs;
    if n > 0 {
      NoLanding(turns, retries, k, n - 1);
      if Ruined(turns, retries, k, 0) { RuinedOn(turns, retries, k, 0, n - 1); }
    }
  }

  lemma MoreReferences(references: seq<Reference>, turns: seq<Turn>, retries: nat, n: nat, more: seq<Reference>)
    requires n < |turns| && ReferencesAre(references, turns, retries, n)
    requires ReferenceIs(more, turns, retries, n)
    ensures ReferencesAre(references + more, turns, retries, n + 1)
  {
    hide TokensAre, CountIn;
    var all := references + more;
    forall r | r in all
      ensures r.turn < n + 1 && r.accepted == turns[r.turn].accepts
      ensures TokensAre(r.tokens, turns, retries, r.turn, |turns[r.turn].clips|)
    {
      assert r in references || (more != [] && r == more[0]);
    }
    forall i, j | 0 <= i < j < |all| ensures all[i].turn < all[j].turn {
      if j >= |references| { assert all[i] in references; }
    }
    forall k: nat | k < n + 1
      ensures CountIn(turns, retries, k, |turns[k].clips|, Lands) > 0 <==> HasReference(all, k)
    {
      if k < n {
        if r :| r in references && r.turn == k { assert r in all; }
      } else if more != [] {
        assert more[0] in all;
      }
    }
  }

  lemma {:induction false} FirstReferences(turns: seq<Turn>, retries: nat, n: nat)
    requires n <= |turns| && forall t | t in turns :: DistinctReferences(t.clips)
    ensures ReferencesAre(TakeTurns(turns[..n], retries).references, turns, retries, n)
  {
    hide TakeTurn, DistinctReferences, ReferencesAre, Tallied, CountIn;
    if n == 0 {
      assert ReferencesAre([], turns, retries, 0) by { NoReferences(turns, retries); }
    } else {
      FirstReferences(turns, retries, n - 1);
      FirstTurns(turns, retries, n - 1);
      var front := turns[..n];
      assert front[..n - 1] == turns[..n - 1] && front[n - 1] == turns[n - 1];
      var p := TakeTurns(turns[..n - 1], retries);
      TalliedStopped(turns, retries, n - 1, p);
      TurnReference(turns, retries, n - 1, p);
      var q := TakeTurn(p, n - 1, turns[n - 1], retries);
      var more := q.references[|p.references|..];
      assert q.references == p.references + more;
      MoreReferences(p.references, turns, retries, n - 1, more);
    }
  }

  lemma NoReferences(turns: seq<Turn>, retries: nat)
    ensures ReferencesAre([], turns, retries, 0)
  {}

  lemma TalliedStopped(turns: seq<Turn>, retries: nat, n: nat, p: Progress)
    requires n <= |turns| && Tallied(turns, retries, n, p)
    ensures p.stopped <==> Ruined(turns, retries, n, 0)
  {}

  lemma ReferencesExactly(turns: seq<Turn>, retries: nat)
    requires forall t | t in turns :: DistinctReferences(t.clips)
    ensures ReferencesAre(TakeTurns(turns, retries).references, turns, retries, |turns|)
  {
    FirstReferences(turns, retries, |turns|);
    assert turns[..|turns|] == turns;
  }

  // Why the first one failed

  /** The first of a turn's clips to fail failed for this reason. */
  ghost predicate FirstFails(turns: seq<Turn>, retries: nat, k: nat, n: nat, why: Reason)
    requires k < |turns| && n <= |turns[k].clips|
  {
    exists i: nat | i < n ::
      && FateOf(turns, retries, k, i) == Fails && FailsFor(turns[k].clips[i], retries, why)
      && CountIn(turns, retries, k, i, Fails) == 0
  }

  lemma {:induction false} ReasonPartWay(turns: seq<Turn>, retries: nat, k: nat, n: nat, p: Progress)
    requires k < |turns| && n <= |turns[k].clips| && turns[k].pinned && DistinctReferences(turns[k].clips)
    requires p.stopped <==> Ruined(turns, retries, k, 0)
    ensures var q := TakeClips(p, k, turns[k].clips[..n], retries).0;
      && (p.filed.reason.Some? ==> q.filed.reason == p.filed.reason)
      && (p.filed.reason == None ==>
            if CountIn(turns, retries, k, n, Fails) == 0 then q.filed.reason == None
            else q.filed.reason.Some? && FirstFails(turns, retries, k, n, q.filed.reason.value))
  {
    if n > 0 {
      hide Exhausts, LandsAs, Ruined, Filing, DistinctReferences, TokensAre, FailsFor, FirstFails;
      ReasonPartWay(turns, retries, k, n - 1, p);
      ClipsCount(turns, retries, k, n - 1, p);
      var front, clip := turns[k].clips[..n], turns[k].clips[n - 1];
      assert front[..n - 1] == turns[k].clips[..n - 1] && front[n - 1] == clip;
      var (q, tokens) := TakeClips(p, k, turns[k].clips[..n - 1], retries);
      FilingExactly(clip, retries);
      var s := Filing(clip, retries);
      if s.media.Some? { assert LandsAs(clip, retries, s.media.value); }
      if p.filed.reason == None { ReasonNext(turns, retries, k, n, q, tokens); }
    }
  }

  lemma ReasonNext(turns: seq<Turn>, retries: nat, k: nat, n: nat, q: Progress, tokens: map<Name, Token>)
    requires k < |turns| && 0 < n <= |turns[k].clips| && turns[k].pinned
    requires q.stopped <==> Ruined(turns, retries, k, n - 1)
    requires if CountIn(turns, retries, k, n - 1, Fails) == 0 then q.filed.reason == None
             else q.filed.reason.Some? && FirstFails(turns, retries, k, n - 1, q.filed.reason.value)
    ensures var q' := TakeClip(q, tokens, k, n - 1, turns[k].clips[n - 1], retries).0;
      if CountIn(turns, retries, k, n, Fails) == 0 then q'.filed.reason == None
      else q'.filed.reason.Some? && FirstFails(turns, retries, k, n, q'.filed.reason.value)
  {
    hide Exhausts, LandsAs, Ruined, Filing, FailsFor;
    var clip := turns[k].clips[n - 1];
    FilingExactly(clip, retries);
    var s := Filing(clip, retries);
    if s.media.Some? { assert LandsAs(clip, retries, s.media.value); }
    if CountIn(turns, retries, k, n - 1, Fails) > 0 {
      var i: nat :| i < n - 1 && FateOf(turns, retries, k, i) == Fails
        && FailsFor(turns[k].clips[i], retries, q.filed.reason.value) && CountIn(turns, retries, k, i, Fails) == 0;
      assert i < n;
    } else if !q.stopped && s.reason.Some? {
      assert FailsFor(clip, retries, s.reason.value) && FateOf(turns, retries, k, n - 1) == Fails;
      assert FirstFails(turns, retries, k, n, s.reason.value);
    }
  }

  /** Where nothing has failed before a turn: what its first failing clip failed for, or that
      its reference was not accepted; and a reason once given stays. */
  lemma ReasonIsTheFirst(turns: seq<Turn>, retries: nat, n: nat)
    requires n < |turns| && forall t | t in turns :: DistinctReferences(t.clips)
    ensures var before, after := TakeTurns(turns[..n], retries).filed, TakeTurns(turns[..n + 1], retries).filed;
      var all := |turns[n].clips|;
      && (before.reason.Some? ==> after.reason == before.reason)
      && (before.reason == None && CountIn(turns, retries, n, all, Fails) > 0 ==>
            after.reason.Some? && FirstFails(turns, retries, n, all, after.reason.value))
      && (before.reason == None && CountIn(turns, retries, n, all, Fails) == 0 ==>
            after.reason == if CountIn(turns, retries, n, all, Lands) > 0 && !turns[n].accepts
                            then Some(Unreferenced) else None)
  {
    var p, clips := TakeTurns(turns[..n], retries), turns[n].clips;
    FirstTurns(turns, retries, n);
    TalliedStopped(turns, retries, n, p);
    assert turns[..n + 1][..n] == turns[..n] && turns[..n + 1][n] == turns[n];
    hide Ruined, FateOf, DistinctReferences, TakeClips, TokensAre, FirstFails, Tallied;
    if p.stopped || !turns[n].pinned {
      NoLanding(turns, retries, n, |clips|);
      NoFailing(turns, retries, n, |clips|);
    } else {
      ReasonPartWay(turns, retries, n, |clips|, p);
      ClipsCount(turns, retries, n, |clips|, p);
      assert clips[..|clips|] == clips;
    }
  }

  lemma {:induction false} NoFailing(turns: seq<Turn>, retries: nat, k: nat, n: nat)
    requires k < |turns| && n <= |turns[k].clips| && (Ruined(turns, retries, k, 0) || !turns[k].pinned)
    ensures CountIn(turns, retries, k, n, Fails) == 0
  {
    hide Ruined, LandsAs;
    if n > 0 {
      NoFailing(turns, retries, k, n - 1);
      if Ruined(turns, retries, k, 0) { RuinedOn(turns, retries, k, 0, n - 1); }
    }
  }
}
