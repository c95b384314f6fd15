/**
  Every interleaving of conversations, applies and disposals over one server. A step is a
  stretch of the server's code with no await inside it; a disposal runs later than it was
  asked for, and each engine handed to the closer is closed at its own moment.
*/
module Lifecycle {
  import opened Wrappers
  import opened Worlds
  import opened Seqs

  type Session = nat

  /** A disposal waiting to run: the worlds held when it was created, and how
      many worlds had been installed by then. */
  datatype Task = Task(held: set<World>, installs: nat)

  datatype Phase = Serving | Exiting | Exited

  /** `unswept` is history: the worlds retired by swaps whose disposal has not come yet. */
  datatype System = System(
    holder: Holder,
    bound: map<Session, World>,
    tasks: seq<Task>,
    closing: set<Provider>,
    closed: seq<Provider>,
    installed: set<Provider>,
    seen: set<World>,
    installs: nat,
    phase: Phase,
    unswept: set<World>)

  datatype Step =
    | Bind(session: Session)
    | Remove(session: Session)
    | Swap(world: World)
    | DisposeAfterSwap
    | RunTask(index: nat)
    | CloseOne(provider: Provider)
    | BeginExit
    | EndExit

  function Start(first: World): System {
    System(Boot(first), map[], [], {}, [], first.providers, {first}, 0, Serving, {})
  }

  function Held(s: System): set<World> {
    s.bound.Values
  }

  function DisposeWith(s: System, held: set<World>): System {
    s.(holder := Disposed(s.holder, held),
       closing := s.closing + LastHeldBy(s.holder, held))
  }

  /** An engine of a new world is one the current world carries over, or one no
      world has had before; and the world itself is a new object. */
  predicate Enabled(s: System, step: Step) {
    match step
    case Bind(_) => s.phase == Serving
    case Remove(_) => true
    case Swap(w) => s.phase == Serving && w !in s.seen && w.providers * s.installed <= s.holder.current.providers
    case DisposeAfterSwap => s.phase == Serving
    case RunTask(i) => i < |s.tasks|
    case CloseOne(p) => p in s.closing
    case BeginExit => s.phase == Serving
    case EndExit => s.phase == Exiting
  }

  function Next(s: System, step: Step): System
    requires Enabled(s, step)
  {
    match step
    case Bind(k) => s.(bound := s.bound[k := s.holder.current])
    case Remove(k) =>
      if k !in s.bound then s
      else
        var left := s.bound - {k};
        s.(bound := left, tasks := s.tasks + [Task(left.Values, s.installs)])
    case Swap(w) =>
      s.(holder := Install(s.holder, w, None),
         installed := s.installed + w.providers,
         seen := s.seen + {w},
         installs := s.installs + 1,
         unswept := s.unswept + {s.holder.current})
    case DisposeAfterSwap => DisposeWith(s, Held(s)).(unswept := {})
    case RunTask(i) => DisposeWith(s.(tasks := s.tasks[..i] + s.tasks[i + 1..]), s.tasks[i].held)
    case CloseOne(p) => s.(closing := s.closing - {p}, closed := s.closed + [p])
    case BeginExit => DisposeWith(s, {}).(phase := Exiting)
    case EndExit => s.(closing := s.closing + s.holder.current.providers, phase := Exited)
  }

  ghost predicate Run(s: System, steps: seq<Step>)
    decreases |steps|
  {
    steps == [] || (Enabled(s, steps[0]) && Run(Next(s, steps[0]), steps[1..]))
  }

  ghost function After(s: System, steps: seq<Step>): System
    requires Run(s, steps)
    decreases |steps|
  {
    if steps == [] then s else After(Next(s, steps[0]), steps[1..])
  }

  /** The engines the worlds still around answer for. */
  function Owned(s: System): set<Provider> {
    if s.phase == Exited then {} else ProvidersOf(Around(s.holder))
  }

  /** Every engine ever installed is in exactly one place: closed, on its way to
      being closed, or owned by a world still around; and none was closed twice. */
  ghost predicate Accounted(s: System) {
    && s.installed == Elements(s.closed) + s.closing + Owned(s)
    && Elements(s.closed) !! s.closing
    && Elements(s.closed) !! Owned(s)
    && s.closing !! Owned(s)
    && Distinct(s.closed)
  }

  ghost predicate Inv(s: System) {
    && WellFormed(s.holder)
    && Elements(Around(s.holder)) <= s.seen
    && ProvidersOf(Around(s.holder)) <= s.installed
    && (s.phase != Serving ==> s.holder.retired == [])
    && Accounted(s)
  }

  lemma DisposeKeepsInv(s: System, held: set<World>)
    requires Inv(s)
    ensures Inv(DisposeWith(s, held))
  {
    DisposeSplits(s.holder, held);
    var n := DisposeWith(s, held);
    assert forall w | w in Around(n.holder) :: w in Around(s.holder);
    if s.phase != Serving {
      assert LettingGo(s.holder, held) == [] && n.holder.retired == [];
      assert LastHeldBy(s.holder, held) == {};
      assert Around(n.holder) == Around(s.holder);
    }
  }

  lemma NextKeepsInv(s: System, step: Step)
    requires Inv(s) && Enabled(s, step)
    ensures Inv(Next(s, step))
  {
    var n := Next(s, step);
    match step
    case Bind(_) =>
    case Remove(_) =>
    case Swap(w) =>
      assert w !in Elements(Around(s.holder));
      InstallWellFormed(s.holder, w, None);
      assert forall v | v in Around(n.holder) :: v == w || v in Elements(Around(s.holder)) by {
        assert Around(n.holder) == [w] + (s.holder.retired + [s.holder.current]);
      }
      assert s.holder.current.providers <= Owned(s) by {
        assert s.holder.current in Around(s.holder);
      }
    case DisposeAfterSwap => DisposeKeepsInv(s, Held(s));
    case RunTask(i) => DisposeKeepsInv(s.(tasks := s.tasks[..i] + s.tasks[i + 1..]), s.tasks[i].held);
    case CloseOne(p) =>
      assert p !in Elements(s.closed);
      assert Elements(n.closed) == Elements(s.closed) + {p};
    case BeginExit =>
      DisposeKeepsInv(s, {});
      DisposeAll(s.holder);
    case EndExit =>
      assert Around(s.holder) == [s.holder.current];
      assert ProvidersOf(Around(s.holder)) == s.holder.current.providers;
  }

  lemma {:induction false} RunKeepsInv(s: System, steps: seq<Step>)
    requires Inv(s) && Run(s, steps)
    ensures Inv(After(s, steps))
    decreases |steps|
  {
    if steps != [] {
      NextKeepsInv(s, steps[0]);
      RunKeepsInv(Next(s, steps[0]), steps[1..]);
    }
  }

  lemma StartInv(first: World)
    ensures Inv(Start(first))
  {
    assert Around(Boot(first)) == [first];
    assert ProvidersOf([first]) == first.providers;
  }

  /** Over every run from boot, whatever the interleaving: each engine ever
      installed is closed, closing or owned, never two of these, and never
      closed twice. */
  lemma EveryEngineAccounted(first: World, steps: seq<Step>)
    requires Run(Start(first), steps)
    ensures Accounted(After(Start(first), steps))
  {
    StartInv(first);
    RunKeepsInv(Start(first), steps);
  }

  /** Once the process has let go of everything and the closer has caught up,
      every engine ever installed has been closed exactly once. */
  lemma EverythingClosedOnce(first: World, steps: seq<Step>)
    requires Run(Start(first), steps)
    requires After(Start(first), steps).phase == Exited && After(Start(first), steps).closing == {}
    ensures var s := After(Start(first), steps);
      Distinct(s.closed) && Elements(s.closed) == s.installed
  {
    EveryEngineAccounted(first, steps);
  }

  // Every moment and every step of a run

  ghost predicate Throughout(s: System, steps: seq<Step>, holds: System -> bool)
    requires Run(s, steps)
    decreases |steps|
  {
    holds(s) && (steps == [] || Throughout(Next(s, steps[0]), steps[1..], holds))
  }

  ghost predicate EveryStep(s: System, steps: seq<Step>, fits: (System, Step) -> bool)
    requires Run(s, steps)
    decreases |steps|
  {
    steps == [] || (fits(s, steps[0]) && EveryStep(Next(s, steps[0]), steps[1..], fits))
  }

  lemma {:induction false} ThroughoutAt(s: System, steps: seq<Step>, holds: System -> bool, n: nat)
    requires Run(s, steps) && Throughout(s, steps, holds) && n <= |steps|
    ensures Run(s, steps[..n]) && holds(After(s, steps[..n]))
    decreases |steps|
  {
    if n > 0 {
      ThroughoutAt(Next(s, steps[0]), steps[1..], holds, n - 1);
      assert steps[..n][1..] == steps[1..][..n - 1];
    }
  }

  // Who may still be speaking through a world

  /** Every conversation's world is still around. */
  ghost predicate HoldersKept(s: System) {
    forall k | k in s.bound :: s.bound[k] in Around(s.holder)
  }

  /** No engine of a world some conversation is bound to, nor of the current
      world, is closed or on its way to being closed. */
  ghost predicate EnginesOpen(s: System) {
    && (forall k | k in s.bound :: s.bound[k].providers !! (Elements(s.closed) + s.closing))
    && (s.phase != Exited ==> s.holder.current.providers !! (Elements(s.closed) + s.closing))
  }

  lemma KeptMeansOpen(s: System)
    requires Inv(s) && s.phase != Exited && HoldersKept(s)
    ensures EnginesOpen(s)
  {
    forall w | w in Around(s.holder) ensures w.providers <= Owned(s) {}
    assert s.holder.current in Around(s.holder);
  }

  /** What a disposal was told covers every conversation holding a retired world. */
  ghost predicate Covers(s: System, held: set<World>) {
    forall k | k in s.bound :: s.bound[k] == s.holder.current || s.bound[k] in held
  }

  /** Exactly when a disposal leaves every conversation its world. */
  lemma DisposalKeepsHoldersExactly(s: System, held: set<World>)
    requires Inv(s) && HoldersKept(s)
    ensures HoldersKept(DisposeWith(s, held)) <==> Covers(s, held)
  {
    DisposeSplits(s.holder, held);
    SelectMembers(s.holder.retired, held, true);
    var n := DisposeWith(s, held);
    assert forall w :: w in Around(n.holder) <==> w == s.holder.current || (w in s.holder.retired && w in held);
    assert forall w :: w in Around(s.holder) <==> w == s.holder.current || w in s.holder.retired;
  }

  /** A disposal about to run covers every conversation holding a retired world. */
  ghost predicate Told(s: System, step: Step) {
    match step
    case RunTask(i) => i < |s.tasks| && Covers(s, s.tasks[i].held)
    case BeginExit => Covers(s, {})
    case _ => true
  }

  lemma NextKeepsHoldersExactly(s: System, step: Step)
    requires Inv(s) && HoldersKept(s) && Enabled(s, step)
    ensures HoldersKept(Next(s, step)) <==> Told(s, step)
  {
    match step
    case Bind(_) =>
      assert s.holder.current in Around(s.holder);
    case Swap(w) =>
      assert forall v | v in Around(s.holder) :: v in Around(Next(s, step).holder) by {
        assert Around(Next(s, step).holder) == [w] + (s.holder.retired + [s.holder.current]);
      }
    case DisposeAfterSwap =>
      assert Covers(s, Held(s));
      DisposalKeepsHoldersExactly(s, Held(s));
    case RunTask(i) =>
      DisposalKeepsHoldersExactly(s.(tasks := s.tasks[..i] + s.tasks[i + 1..]), s.tasks[i].held);
    case BeginExit =>
      DisposalKeepsHoldersExactly(s, {});
    case _ =>
  }

  lemma {:induction false} RunKeepsHoldersExactly(s: System, steps: seq<Step>)
    requires Inv(s) && HoldersKept(s) && Run(s, steps)
    ensures Throughout(s, steps, HoldersKept) <==> EveryStep(s, steps, Told)
    decreases |steps|
  {
    if steps != [] {
      NextKeepsInv(s, steps[0]);
      NextKeepsHoldersExactly(s, steps[0]);
      if Told(s, steps[0]) { RunKeepsHoldersExactly(Next(s, steps[0]), steps[1..]); }
    }
  }

  /** Over every run from boot: every conversation keeps its world at every moment
      exactly when each disposal, as its body starts, has been told of all of them. */
  lemma HoldersKeptExactly(first: World, steps: seq<Step>)
    requires Run(Start(first), steps)
    ensures Throughout(Start(first), steps, HoldersKept) <==> EveryStep(Start(first), steps, Told)
  {
    StartInv(first);
    RunKeepsHoldersExactly(Start(first), steps);
  }

  lemma {:induction false} KeptThroughoutMeansOpen(s: System, steps: seq<Step>)
    requires Inv(s) && s.phase != Exited && Run(s, steps) && Throughout(s, steps, HoldersKept)
    requires forall step | step in steps :: step != EndExit
    ensures Throughout(s, steps, EnginesOpen)
    decreases |steps|
  {
    KeptMeansOpen(s);
    if steps != [] {
      assert steps[0] in steps;
      NextKeepsInv(s, steps[0]);
      assert forall step | step in steps[1..] :: step in steps;
      KeptThroughoutMeansOpen(Next(s, steps[0]), steps[1..]);
    }
  }

  /** Until the process lets go of the current world: where each disposal is told,
      nothing a conversation or the current world speaks through is ever closed. */
  lemma NoEngineClosedUnderAConversation(first: World, steps: seq<Step>)
    requires Run(Start(first), steps) && EveryStep(Start(first), steps, Told)
    requires forall step | step in steps :: step != EndExit
    ensures forall n | 0 <= n <= |steps| ::
      Run(Start(first), steps[..n]) && EnginesOpen(After(Start(first), steps[..n]))
  {
    StartInv(first);
    HoldersKeptExactly(first, steps);
    KeptThroughoutMeansOpen(Start(first), steps);
    forall n | 0 <= n <= |steps|
      ensures Run(Start(first), steps[..n]) && EnginesOpen(After(Start(first), steps[..n]))
    {
      ThroughoutAt(Start(first), steps, EnginesOpen, n);
    }
  }

  // When an engine goes under a conversation

  /** Some retired world outside `held` uses this engine; the current world does
      not, and neither does any retired world in `held`. */
  predicate OnlyMissedUse(h: Holder, held: set<World>, p: Provider) {
    && p !in h.current.providers
    && (exists w :: w in h.retired && w !in held && p in w.providers)
    && (forall w | w in h.retired && w in held :: p !in w.providers)
  }

  lemma OnlyMissedIsLastHeld(h: Holder, held: set<World>, p: Provider)
    ensures p in LastHeldBy(h, held) <==> OnlyMissedUse(h, held, p)
  {
    SelectMembers(h.retired, held, true);
    SelectMembers(h.retired, held, false);
    var kept := Around(Disposed(h, held));
    assert forall w :: w in kept <==> w == h.current || (w in h.retired && w in held);
    assert p in ProvidersOf(kept) <==> exists w :: w in kept && p in w.providers;
    assert h.current in kept;
  }

  /** Whether or not every conversation's world is still around, exactly when a
      disposal closes an engine under one: when some engine the conversation speaks
      through is used by retired worlds the disposal was not told of and by no other. */
  lemma DisposalClosesUnderAHolderExactly(s: System, held: set<World>)
    requires EnginesOpen(s)
    ensures !EnginesOpen(DisposeWith(s, held)) <==>
      exists k, p :: k in s.bound && p in s.bound[k].providers && OnlyMissedUse(s.holder, held, p)
  {
    var n := DisposeWith(s, held);
    forall p ensures p in LastHeldBy(s.holder, held) <==> OnlyMissedUse(s.holder, held, p) {
      OnlyMissedIsLastHeld(s.holder, held, p);
    }
    assert s.holder.current.providers !! LastHeldBy(s.holder, held);
    forall k | k in s.bound
      ensures s.bound[k].providers !! (Elements(n.closed) + n.closing) <==>
        forall p | p in s.bound[k].providers :: !OnlyMissedUse(s.holder, held, p)
    {
    }
  }

  /** No conversation speaks through an engine this step hands to the closer. */
  ghost predicate Spares(s: System, step: Step) {
    match step
    case DisposeAfterSwap => SparedBy(s, Held(s))
    case RunTask(i) => i < |s.tasks| && SparedBy(s, s.tasks[i].held)
    case BeginExit => SparedBy(s, {})
    case EndExit => forall k | k in s.bound :: s.bound[k].providers !! s.holder.current.providers
    case _ => true
  }

  ghost predicate SparedBy(s: System, held: set<World>) {
    forall k, p | k in s.bound && p in s.bound[k].providers :: !OnlyMissedUse(s.holder, held, p)
  }

  lemma NextKeepsEnginesExactly(s: System, step: Step)
    requires Inv(s) && EnginesOpen(s) && Enabled(s, step)
    ensures EnginesOpen(Next(s, step)) <==> Spares(s, step)
  {
    var n := Next(s, step);
    match step
    case DisposeAfterSwap => DisposalClosesUnderAHolderExactly(s, Held(s));
    case RunTask(i) =>
      var rest := s.(tasks := s.tasks[..i] + s.tasks[i + 1..]);
      assert EnginesOpen(rest);
      DisposalClosesUnderAHolderExactly(rest, s.tasks[i].held);
      assert rest.holder == s.holder && rest.bound == s.bound;
    case BeginExit =>
      DisposalClosesUnderAHolderExactly(s, {});
    case CloseOne(p) =>
      assert Elements(n.closed) == Elements(s.closed) + {p};
      assert Elements(n.closed) + n.closing == Elements(s.closed) + s.closing;
    case _ =>
  }

  lemma {:induction false} RunKeepsEnginesExactly(s: System, steps: seq<Step>)
    requires Inv(s) && EnginesOpen(s) && Run(s, steps)
    ensures Throughout(s, steps, EnginesOpen) <==> EveryStep(s, steps, Spares)
    decreases |steps|
  {
    if steps != [] {
      NextKeepsInv(s, steps[0]);
      NextKeepsEnginesExactly(s, steps[0]);
      if Spares(s, steps[0]) { RunKeepsEnginesExactly(Next(s, steps[0]), steps[1..]); }
    }
  }

  /** Over every run from boot to the exit: no engine is ever closed under a
      conversation or the current world exactly when each step spares them, which
      each step's own worlds decide before it is taken. */
  lemma EnginesOpenExactly(first: World, steps: seq<Step>)
    requires Run(Start(first), steps)
    ensures Throughout(Start(first), steps, EnginesOpen) <==> EveryStep(Start(first), steps, Spares)
  {
    StartInv(first);
    RunKeepsEnginesExactly(Start(first), steps);
  }

  // When a disposal is told

  ghost predicate TasksFresh(s: System) {
    forall t | t in s.tasks ::
      && t.installs <= s.installs
      && (t.installs == s.installs ==> Covers(s, t.held))
  }

  lemma NextKeepsTasksFresh(s: System, step: Step)
    requires TasksFresh(s) && Enabled(s, step)
    ensures TasksFresh(Next(s, step))
  {
    var n := Next(s, step);
    match step
    case Remove(k) =>
      forall t | t in n.tasks ensures t.installs <= n.installs && (t.installs == n.installs ==> Covers(n, t.held)) {
        if k in s.bound && t !in s.tasks {
          assert t == n.tasks[|n.tasks| - 1];
          assert forall j | j in n.bound :: n.bound[j] in n.bound.Values;
        }
      }
    case RunTask(i) => assert forall t | t in n.tasks :: t in s.tasks;
    case _ => assert n.tasks == s.tasks;
  }

  lemma {:induction false} RunKeepsTasksFresh(s: System, steps: seq<Step>)
    requires TasksFresh(s) && Run(s, steps)
    ensures TasksFresh(After(s, steps))
    decreases |steps|
  {
    if steps != [] {
      NextKeepsTasksFresh(s, steps[0]);
      RunKeepsTasksFresh(Next(s, steps[0]), steps[1..]);
    }
  }

  /** Wherever a run has come to: a disposal since whose creation no world was
      installed is told, whoever bound or left in between. */
  lemma TimelyIsTold(first: World, steps: seq<Step>, i: nat)
    requires Run(Start(first), steps) && i < |After(Start(first), steps).tasks|
    requires After(Start(first), steps).tasks[i].installs == After(Start(first), steps).installs
    ensures Told(After(Start(first), steps), RunTask(i))
  {
    RunKeepsTasksFresh(Start(first), steps);
    var s := After(Start(first), steps);
    assert s.tasks[i] in s.tasks;
  }

  // Nothing lingers

  /** Something is on its way that will let this world go: the disposal of the swap that
      retired it, or one that was not told of it. */
  ghost predicate Expected(s: System, w: World) {
    w in s.unswept || exists t | t in s.tasks :: w !in t.held
  }

  /** Every retired world is held by a conversation, or is on its way out. */
  ghost predicate NoneLingers(s: System) {
    forall w | w in s.holder.retired :: w in s.bound.Values || Expected(s, w)
  }

  lemma RemoveLeaves(s: System, k: Session)
    requires NoneLingers(s) && Enabled(s, Remove(k))
    ensures NoneLingers(Next(s, Remove(k)))
  {
    if k in s.bound {
      var n := Next(s, Remove(k));
      var left := s.bound - {k};
      assert n.tasks[|s.tasks|] == Task(left.Values, s.installs);
      forall w | w in n.holder.retired ensures w in left.Values || Expected(n, w) {
        if w !in s.bound.Values {
          assert Expected(s, w);
          if t :| t in s.tasks && w !in t.held { assert t in n.tasks; }
        } else if w !in left.Values {
          assert Task(left.Values, s.installs) in n.tasks;
        }
      }
    }
  }

  lemma TaskRuns(s: System, i: nat)
    requires Inv(s) && NoneLingers(s) && Enabled(s, RunTask(i))
    ensures NoneLingers(Next(s, RunTask(i)))
  {
    var n, held := Next(s, RunTask(i)), s.tasks[i].held;
    DisposeSplits(s.holder, held);
    forall w | w in n.holder.retired ensures w in n.bound.Values || Expected(n, w) {
      assert w in s.holder.retired && w in held;
      if w !in s.bound.Values && w !in s.unswept {
        var t :| t in s.tasks && w !in t.held;
        var j :| 0 <= j < |s.tasks| && s.tasks[j] == t;
        assert j != i;
        assert n.tasks[if j < i then j else j - 1] == t;
      }
    }
  }

  /** A conversation binds a world once. */
  ghost predicate BindsOnce(s: System, step: Step) {
    step.Bind? ==> step.session !in s.bound
  }

  lemma BindLeaves(s: System, k: Session)
    requires NoneLingers(s) && Enabled(s, Bind(k)) && k !in s.bound
    ensures NoneLingers(Next(s, Bind(k)))
  {
    var n := Next(s, Bind(k));
    forall w | w in n.holder.retired ensures w in n.bound.Values || Expected(n, w) {
      assert n.tasks == s.tasks && n.unswept == s.unswept;
      if j :| j in s.bound && s.bound[j] == w { assert n.bound[j] == w; }
    }
  }

  lemma NextLeaves(s: System, step: Step)
    requires Inv(s) && NoneLingers(s) && Enabled(s, step) && BindsOnce(s, step)
    ensures NoneLingers(Next(s, step))
  {
    var n := Next(s, step);
    match step
    case Bind(k) => BindLeaves(s, k);
    case Remove(k) => RemoveLeaves(s, k);
    case RunTask(i) => TaskRuns(s, i);
    case DisposeAfterSwap => DisposeSplits(s.holder, Held(s));
    case BeginExit => DisposeAll(s.holder);
    case Swap(w) => assert n.tasks == s.tasks && n.bound == s.bound;
    case _ => assert n.holder == s.holder && n.tasks == s.tasks && n.bound == s.bound && n.unswept == s.unswept;
  }

  lemma {:induction false} RunLeaves(s: System, steps: seq<Step>)
    requires Inv(s) && NoneLingers(s) && Run(s, steps) && EveryStep(s, steps, BindsOnce)
    ensures NoneLingers(After(s, steps))
    decreases |steps|
  {
    if steps != [] {
      NextKeepsInv(s, steps[0]);
      NextLeaves(s, steps[0]);
      RunLeaves(Next(s, steps[0]), steps[1..]);
    }
  }

  /** Over every run from boot in which conversations bind once: a retired world nobody
      speaks through is on its way out, and once no disposal is outstanding there is none. */
  lemma NothingLingers(first: World, steps: seq<Step>)
    requires Run(Start(first), steps) && EveryStep(Start(first), steps, BindsOnce)
    ensures var s := After(Start(first), steps);
      && NoneLingers(s)
      && (s.tasks == [] && s.unswept == {} ==> forall w | w in s.holder.retired :: w in s.bound.Values)
  {
    StartInv(first);
    RunLeaves(Start(first), steps);
  }

  // Two runs in which a conversation loses its engine

  lemma {:induction false} Then(s: System, steps: seq<Step>, step: Step)
    requires Run(s, steps) && Enabled(After(s, steps), step)
    ensures Run(s, steps + [step]) && After(s, steps + [step]) == Next(After(s, steps), step)
    decreases |steps|
  {
    if steps == [] {
      assert [] + [step] == [step];
    } else {
      Then(Next(s, steps[0]), steps[1..], step);
      assert (steps + [step])[1..] == steps[1..] + [step];
    }
  }

  const FIRST := World(0, {0}, map[])
  const SECOND := World(1, {1}, map[])
  const CARRIED := World(2, {0}, map[])
  const WAITING: seq<Step> := [] + [Bind(1)] + [Remove(1)] + [Bind(2)]
  const STALE: seq<Step> := WAITING + [Swap(SECOND)] + [RunTask(0)]
  const DROPPED: seq<Step> := WAITING + [Swap(CARRIED)] + [RunTask(0)]
  const UNHELD: seq<Step> := DROPPED + [Swap(SECOND)]

  /** The second of two conversations is bound to the first world, and the disposal
      created when the other left, before it came, still waits to run. */
  const WAITING_STATE: System :=
    System(Boot(FIRST), map[2 := FIRST], [Task({}, 0)], {}, [], {0}, {FIRST}, 0, Serving, {})

  lemma WaitingReached()
    ensures Run(Start(FIRST), WAITING) && After(Start(FIRST), WAITING) == WAITING_STATE
  {
    var s0 := Start(FIRST);
    Then(s0, [], Bind(1));
    var s1 := Next(s0, Bind(1));
    Then(s0, [] + [Bind(1)], Remove(1));
    var left := s1.bound - {1};
    assert forall k :: k !in left;
    assert left.Values == {};
    assert left == map[];
    Then(s0, [] + [Bind(1)] + [Remove(1)], Bind(2));
  }

  lemma SelectOne(w: World, held: set<World>, keep: bool)
    ensures Select([w], held, keep) == if (w in held) == keep then [w] else []
  {
    assert [w][1..] == [];
    assert Select([], held, keep) == [];
  }

  /** After `world` is installed in the waiting state, the waiting disposal lets the
      first world go, whose one engine is closed unless the new world carries it over. */
  lemma LosesTheFirst(world: World)
    requires world != FIRST
    ensures var steps := WAITING + [Swap(world)] + [RunTask(0)];
      && Run(Start(FIRST), steps)
      && After(Start(FIRST), steps) ==
         System(Disposed(Install(Boot(FIRST), world, None), {}), map[2 := FIRST], [], {0} - world.providers, [],
                {0} + world.providers, {FIRST, world}, 1, Serving, {FIRST})
      && After(Start(FIRST), steps).holder.retired == []
      && After(Start(FIRST), steps).holder.current == world
  {
    WaitingReached();
    Then(Start(FIRST), WAITING, Swap(world));
    var s := Next(WAITING_STATE, Swap(world));
    assert s.holder.retired == [FIRST];
    Then(Start(FIRST), WAITING + [Swap(world)], RunTask(0));
    SelectOne(FIRST, {}, true);
    SelectOne(FIRST, {}, false);
    assert LastHeldBy(s.holder, {}) == {0} - world.providers by {
      assert ProvidersOf([FIRST]) == {0};
      assert ProvidersOf([world]) == world.providers;
      assert Around(Disposed(s.holder, {})) == [world];
    }
  }

  /** The snapshot a removal took does not know the conversation that bound the
      same world before the body ran, and the first disposal closes its engine. */
  lemma StaleSnapshotClosesUnderAConversation()
    ensures Run(Start(FIRST), STALE) && !EnginesOpen(After(Start(FIRST), STALE))
  {
    LosesTheFirst(SECOND);
    var n := After(Start(FIRST), STALE);
    assert n.bound[2] == FIRST && 0 in n.closing;
  }

  /** It does so later where the new world carries the engine over: the stale
      disposal drops the conversation's world and closes nothing, and the next one,
      told of every bound world, closes the engine, for it looks at worlds around. */
  lemma ToldDisposalClosesUnderAConversation()
    ensures Run(Start(FIRST), DROPPED)
    ensures EnginesOpen(After(Start(FIRST), DROPPED)) && !HoldersKept(After(Start(FIRST), DROPPED))
    ensures Run(Start(FIRST), UNHELD) && EnginesOpen(After(Start(FIRST), UNHELD))
    ensures Covers(After(Start(FIRST), UNHELD), Held(After(Start(FIRST), UNHELD)))
    ensures Run(Start(FIRST), UNHELD + [DisposeAfterSwap])
    ensures !EnginesOpen(After(Start(FIRST), UNHELD + [DisposeAfterSwap]))
  {
    LosesTheFirst(CARRIED);
    var s := After(Start(FIRST), DROPPED);
    assert s.bound[2] == FIRST && Around(s.holder) == [CARRIED];
    Then(Start(FIRST), DROPPED, Swap(SECOND));
    var u := After(Start(FIRST), UNHELD);
    assert u.bound == map[2 := FIRST] && u.holder.retired == [CARRIED] && u.holder.current == SECOND;
    assert Held(u) == {FIRST};
    Then(Start(FIRST), UNHELD, DisposeAfterSwap);
    assert 0 in u.bound[2].providers && OnlyMissedUse(u.holder, Held(u), 0);
    DisposalClosesUnderAHolderExactly(u, Held(u));
  }
}
