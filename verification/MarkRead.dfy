/**
  When two reads with an await between them saw one world.

  `Mark` answers nothing while an apply is changing serving state and a count of
  the settled ones otherwise. A reader samples it on both sides of a stored read
  and trusts the pair only when the two samples are equal and are numbers.
*/
module MarkRead {
  import opened Wrappers
  import opened Worlds

  datatype Event =
    | Enter
    | Swapped(world: World)
    | Leave
    | Published(was: string, becomes: string)
    | LetGo(held: set<World>)

  /** Applies do not overlap, and a world is installed only inside one. */
  predicate Possible(h: Holder, e: Event) {
    match e
    case Enter => !h.applying
    case Swapped(_) => h.applying
    case Leave => h.applying
    case Published(_, _) => true
    case LetGo(_) => true
  }

  function Happen(h: Holder, e: Event): Holder {
    match e
    case Enter => BeginApply(h)
    case Swapped(w) => Install(h, w, None)
    case Leave => EndApply(h)
    case Published(was, becomes) => Publish(h, was, becomes)
    case LetGo(held) => Disposed(h, held)
  }

  /** What the holder was at every instant, and what happened between them. */
  datatype Timeline = Timeline(states: seq<Holder>, events: seq<Event>)

  ghost predicate Linked(before: Holder, e: Event, after: Holder) {
    Possible(before, e) && after == Happen(before, e)
  }

  ghost predicate Lawful(line: Timeline) {
    && |line.states| == |line.events| + 1
    && forall t | 0 <= t < |line.events| :: Linked(line.states[t], line.events[t], line.states[t + 1])
  }

  /** An event that belongs to an apply. */
  predicate Moves(e: Event) {
    e.Enter? || e.Swapped? || e.Leave?
  }

  /** Nothing of any apply lies between the two instants, and none was open. */
  ghost predicate Still(line: Timeline, i: nat, j: nat)
    requires Lawful(line) && i <= j < |line.states|
  {
    && !line.states[i].applying
    && forall t | i <= t < j :: !Moves(line.events[t])
  }

  lemma LinkMoves(before: Holder, e: Event, after: Holder)
    requires Linked(before, e, after)
    ensures before.settled <= after.settled
    ensures !Moves(e) ==>
      after.settled == before.settled && after.applying == before.applying && after.current == before.current
    ensures before.applying && !after.applying ==> before.settled < after.settled
    ensures Moves(e) && !after.applying ==> before.settled < after.settled
  {}

  /** Between two instants the count only grows, and it grows for good as soon
      as an apply that began or ran in between has settled. */
  lemma {:induction false} CountMoves(line: Timeline, i: nat, j: nat)
    requires Lawful(line) && i <= j < |line.states|
    ensures line.states[i].settled <= line.states[j].settled
    ensures !Still(line, i, j) && !line.states[j].applying ==> line.states[i].settled < line.states[j].settled
    decreases j - i
  {
    if i < j {
      CountMoves(line, i, j - 1);
      LinkMoves(line.states[j - 1], line.events[j - 1], line.states[j]);
    }
  }

  lemma {:induction false} StillHolds(line: Timeline, i: nat, j: nat, t: nat)
    requires Lawful(line) && i <= t <= j < |line.states| && Still(line, i, j)
    ensures line.states[t].current == line.states[i].current
    ensures line.states[t].settled == line.states[i].settled && !line.states[t].applying
    decreases t
  {
    if i < t {
      StillHolds(line, i, j, t - 1);
      LinkMoves(line.states[t - 1], line.events[t - 1], line.states[t]);
    }
  }

  /** Two samples are one number exactly when nothing of an apply lies between
      them and none was open at the first; and then one world was current for
      the whole of the stretch. */
  lemma EqualMarksExactly(line: Timeline, i: nat, j: nat)
    requires Lawful(line) && i <= j < |line.states|
    ensures (Mark(line.states[i]) != None && Mark(line.states[i]) == Mark(line.states[j])) <==> Still(line, i, j)
    ensures Still(line, i, j) ==>
      forall t | i <= t <= j :: line.states[t].current == line.states[i].current && !line.states[t].applying
  {
    CountMoves(line, i, j);
    if Still(line, i, j) {
      forall t | i <= t <= j
        ensures line.states[t].current == line.states[i].current && !line.states[t].applying
      {
        StillHolds(line, i, j, t);
      }
      StillHolds(line, i, j, j);
    }
  }

  /** Equality alone would not do: two samples taken inside two different
      applies agree, and the world moved between them. */
  lemma TwoUnstableSamplesAgree(a: World, b: World)
    requires a != b
    ensures var events := [Enter, Swapped(b), Leave, Enter];
      var s1 := BeginApply(Boot(a));
      var s2 := Install(s1, b, None);
      var s3 := EndApply(s2);
      var line := Timeline([Boot(a), s1, s2, s3, BeginApply(s3)], events);
      && Lawful(line)
      && Mark(line.states[1]) == Mark(line.states[4])
      && line.states[1].current != line.states[4].current
  {}

  const DIFF_LOADS := 3

  /** One load: the instants at which the mark is sampled before and after. */
  datatype Load = Load(before: nat, after: nat)

  datatype Answer = Answer(running: World, load: nat)

  /** The stored-versus-running comparison's read loop, over whatever an apply
      does meanwhile. It answers exactly when one of its loads was undisturbed,
      with the first such load and the world current for the whole of it. */
  method DiffRead(line: Timeline, loads: seq<Load>) returns (answer: Option<Answer>)
    requires Lawful(line) && |loads| == DIFF_LOADS
    requires forall k | 0 <= k < |loads| :: loads[k].before <= loads[k].after < |line.states|
    ensures answer.None? <==> forall k | 0 <= k < |loads| :: !Still(line, loads[k].before, loads[k].after)
    ensures answer.Some? ==>
      var k := answer.value.load;
      && k < |loads|
      && Still(line, loads[k].before, loads[k].after)
      && (forall t | loads[k].before <= t <= loads[k].after ::
            line.states[t].current == answer.value.running && !line.states[t].applying)
      && (forall m | 0 <= m < k :: !Still(line, loads[m].before, loads[m].after))
  {
    for k := 0 to DIFF_LOADS
      invariant forall m | 0 <= m < k :: !Still(line, loads[m].before, loads[m].after)
    {
      var mark := Mark(line.states[loads[k].before]);
      EqualMarksExactly(line, loads[k].before, loads[k].after);
      if mark != None && Mark(line.states[loads[k].after]) == mark {
        return Some(Answer(line.states[loads[k].after].current, k));
      }
    }
    return None;
  }
}
