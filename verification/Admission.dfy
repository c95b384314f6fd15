/**
  The door: who gets a slot, while a signal handler may shut it between any two
  statements, and a composition that may be published after it was told to.

  A signal is a function of the statement number: `signals(n)` says one is
  delivered just before statement `n`. A handler runs to its end where it lands.
*/
module Admission {
  import opened Wrappers
  import opened Worlds

  type Session = nat

  datatype Answer = Admitting | Draining | Full

  datatype Registry = Registry(
    max: nat,
    sessions: set<Session>,
    bound: map<Session, World>,
    draining: bool)

  /** The one classifier the door and the readiness probe share. */
  function Admission(r: Registry): Answer {
    if r.draining then Draining else if |r.sessions| >= r.max then Full else Admitting
  }

  /** Whether a signal lands before statement `n` or earlier. */
  function Signalled(signals: nat -> bool, n: nat): bool {
    signals(n) || (n > 0 && Signalled(signals, n - 1))
  }

  // The statements of `admit`: the classification's two reads, then the look at
  // its answer, the look for the session, the insertion, the second look at the
  // latch, the look at `held`, the giving back, and the return.
  const FIRST_REFUSAL: nat := 1
  const FULL_REFUSAL: nat := 2
  const SECOND_LOOK: nat := 5
  const ADMITTED: nat := 6
  const GIVEN_BACK: nat := 8

  /** What an admission decides: the latch as it stands at the first look and,
      once past capacity, at the second one. */
  function Decision(r: Registry, signals: nat -> bool): Answer {
    if r.draining || Signalled(signals, 0) then Draining
    else if |r.sessions| >= r.max then Full
    else if Signalled(signals, SECOND_LOOK) then Draining
    else Admitting
  }

  /** The statement an admission returns at, whichever way it goes. */
  function Reached(r: Registry, signals: nat -> bool): nat {
    if r.draining || Signalled(signals, 0) then FIRST_REFUSAL
    else if |r.sessions| >= r.max then FULL_REFUSAL
    else if Signalled(signals, SECOND_LOOK) then GIVEN_BACK
    else ADMITTED
  }

  datatype Call =
    | TryAdmit(session: Session, signals: nat -> bool)
    | Leave(session: Session)
    | Signal

  /** What a call leaves behind. A session not already held keeps a slot exactly
      when it is told `Admitting`; one already held keeps its slot whatever it is
      told; and the latch is set by whatever signal landed before the return. */
  function Called(r: Registry, c: Call): Registry {
    match c
    case TryAdmit(s, signals) =>
      r.(sessions := if Decision(r, signals) == Admitting then r.sessions + {s} else r.sessions,
         draining := r.draining || Signalled(signals, Reached(r, signals)))
    case Leave(s) => r.(sessions := r.sessions - {s}, bound := r.bound - {s})
    case Signal => r.(draining := true)
  }

  class SessionRegistry {
    var max: nat
    var sessions: set<Session>
    var bound: map<Session, World>
    var draining: bool

    function View(): Registry
      reads this
    {
      Registry(max, sessions, bound, draining)
    }

    constructor (limit: nat)
      ensures View() == Registry(limit, {}, map[], false)
    {
      max, sessions, bound, draining := limit, {}, map[], false;
    }

    method StopAdmitting()
      modifies this`draining
      ensures View() == Called(old(View()), Signal)
    {
      draining := true;
    }

    method Deliver(due: bool)
      modifies this`draining
      ensures draining == (old(draining) || due)
    {
      if due { StopAdmitting(); }
    }

    method Admit(session: Session, signals: nat -> bool) returns (answer: Answer)
      modifies this`sessions, this`draining
      ensures answer == Decision(old(View()), signals)
      ensures View() == Called(old(View()), TryAdmit(session, signals))
      ensures answer == Draining ==> draining
    {
      Deliver(signals(0));
      var latched := draining;
      Deliver(signals(1));
      if latched { return Draining; }
      var full := |sessions| >= max;
      Deliver(signals(2));
      if full { return Full; }
      Deliver(signals(3));
      var held := session in sessions;
      Deliver(signals(4));
      sessions := sessions + {session};
      Deliver(signals(5));
      var overtaken := draining;
      assert overtaken == (old(draining) || Signalled(signals, SECOND_LOOK));
      Deliver(signals(6));
      if overtaken {
        Deliver(signals(7));
        if !held {
          sessions := sessions - {session};
        }
        Deliver(signals(8));
        return Draining;
      }
      return Admitting;
    }

    method Bound(session: Session, world: World)
      modifies this`bound
      ensures bound == old(bound)[session := world]
    {
      bound := bound[session := world];
    }

    method Held() returns (worlds: set<World>)
      ensures worlds == bound.Values
    {
      worlds := bound.Values;
    }

    /** `disposing` is whether a disposal is asked for: only when a world went. */
    method Remove(session: Session) returns (disposing: bool)
      modifies this`sessions, this`bound
      ensures View() == Called(old(View()), Leave(session))
      ensures disposing <==> session in old(bound)
    {
      sessions := sessions - {session};
      disposing := session in bound;
      bound := bound - {session};
    }
  }

  // The registry over every run

  function CalledAll(r: Registry, calls: seq<Call>): Registry {
    if calls == [] then r else Called(CalledAll(r, calls[..|calls| - 1]), calls[|calls| - 1])
  }

  lemma CalledFacts(r: Registry, c: Call)
    ensures var n := Called(r, c);
      && n.max == r.max
      && (|r.sessions| <= r.max ==> |n.sessions| <= n.max)
      && (r.draining ==> n.draining && n.sessions <= r.sessions)
  {
    if c.Leave? {
      assert r.sessions - {c.session} <= r.sessions;
      SubsetSize(r.sessions - {c.session}, r.sessions);
    }
  }

  lemma {:induction false} SubsetSize<T>(a: set<T>, b: set<T>)
    requires a <= b
    ensures |a| <= |b|
  {
    if a != {} {
      var x :| x in a;
      SubsetSize(a - {x}, b - {x});
    }
  }

  /** Capacity is never passed, over every run of the door. */
  lemma {:induction false} CapacityHolds(limit: nat, calls: seq<Call>)
    ensures var end := CalledAll(Registry(limit, {}, map[], false), calls);
      |end.sessions| <= limit && end.max == limit
  {
    if calls != [] {
      CapacityHolds(limit, calls[..|calls| - 1]);
      CalledFacts(CalledAll(Registry(limit, {}, map[], false), calls[..|calls| - 1]), calls[|calls| - 1]);
    }
  }

  /** Once the latch is set it stays set, and no session gets a slot it did not
      have, whatever the door is asked afterwards. */
  lemma {:induction false} LatchHolds(r: Registry, calls: seq<Call>)
    requires r.draining
    ensures CalledAll(r, calls).draining && CalledAll(r, calls).sessions <= r.sessions
  {
    if calls != [] {
      LatchHolds(r, calls[..|calls| - 1]);
      CalledFacts(CalledAll(r, calls[..|calls| - 1]), calls[|calls| - 1]);
    }
  }

  // What each answer says of what has happened

  function Answered(limit: nat, calls: seq<Call>, i: nat): Option<Answer>
    requires i < |calls|
  {
    match calls[i]
    case TryAdmit(_, signals) => Some(Decision(CalledAll(Registry(limit, {}, map[], false), calls[..i]), signals))
    case _ => None
  }

  /** The session was told it is admitted by the call at `i`, and has not left since. */
  predicate HoldsSince(limit: nat, calls: seq<Call>, s: Session, i: nat) {
    && i < |calls| && calls[i].TryAdmit? && calls[i].session == s && Answered(limit, calls, i) == Some(Admitting)
    && forall j | i < j < |calls| :: calls[j] != Leave(s)
  }

  lemma SlotMoves(r: Registry, c: Call, s: Session)
    ensures s in Called(r, c).sessions <==>
      (c.TryAdmit? && c.session == s && Decision(r, c.signals) == Admitting) || (s in r.sessions && c != Leave(s))
  {
    hide Decision, Reached;
  }

  lemma HoldsOn(limit: nat, calls: seq<Call>, s: Session, i: nat)
    requires calls != [] && i < |calls| - 1
    ensures var last := |calls| - 1;
      HoldsSince(limit, calls, s, i) <==> HoldsSince(limit, calls[..last], s, i) && calls[last] != Leave(s)
  {
    hide Decision, CalledAll;
    assert calls[..|calls| - 1][..i] == calls[..i];
  }

  /** Over every run: a session has a slot if and only if some call told it so and it has
      not left since. */
  lemma {:induction false} SlotsExactly(limit: nat, calls: seq<Call>, s: Session)
    ensures s in CalledAll(Registry(limit, {}, map[], false), calls).sessions
      <==> exists i: nat :: HoldsSince(limit, calls, s, i)
  {
    if calls != [] {
      var last := |calls| - 1;
      var front, c := calls[..last], calls[last];
      SlotsExactly(limit, front, s);
      var before := CalledAll(Registry(limit, {}, map[], false), front);
      SlotMoves(before, c, s);
      forall i: nat | i < last
        ensures HoldsSince(limit, calls, s, i) <==> HoldsSince(limit, front, s, i) && c != Leave(s)
      {
        HoldsOn(limit, calls, s, i);
      }
      assert HoldsSince(limit, calls, s, last) <==>
        c.TryAdmit? && c.session == s && Decision(before, c.signals) == Admitting;
      hide HoldsSince, Called, CalledAll, Decision;
      if s in before.sessions && c != Leave(s) {
        var i: nat :| HoldsSince(limit, front, s, i);
        HoldsInside(limit, front, s, i);
      }
      if i: nat :| HoldsSince(limit, calls, s, i) {
        HoldsInside(limit, calls, s, i);
        if i < last { assert HoldsSince(limit, front, s, i); }
      }
    }
  }

  lemma HoldsInside(limit: nat, calls: seq<Call>, s: Session, i: nat)
    requires HoldsSince(limit, calls, s, i)
    ensures i < |calls|
  {}

  /** A signal of its own, or one that lands in an admission before it returns. */
  predicate BringsSignal(limit: nat, calls: seq<Call>, i: nat)
    requires i < |calls|
  {
    match calls[i]
    case Signal => true
    case Leave(_) => false
    case TryAdmit(_, signals) =>
      Signalled(signals, Reached(CalledAll(Registry(limit, {}, map[], false), calls[..i]), signals))
  }

  predicate SignalBefore(limit: nat, calls: seq<Call>) {
    exists i: nat | i < |calls| :: BringsSignal(limit, calls, i)
  }

  lemma {:induction false} LatchedExactly(limit: nat, calls: seq<Call>)
    ensures CalledAll(Registry(limit, {}, map[], false), calls).draining <==> SignalBefore(limit, calls)
  {
    if calls != [] {
      var last := |calls| - 1;
      var front := calls[..last];
      LatchedExactly(limit, front);
      forall i: nat | i < last ensures BringsSignal(limit, calls, i) == BringsSignal(limit, front, i) {
        assert front[..i] == calls[..i];
      }
      assert BringsSignal(limit, calls, last) <==> match calls[last]
        case Signal => true
        case Leave(_) => false
        case TryAdmit(_, signals) =>
          Signalled(signals, Reached(CalledAll(Registry(limit, {}, map[], false), front), signals));
      hide Decision, Reached, BringsSignal, Signalled;
      if SignalBefore(limit, front) {
        var i: nat :| i < last && BringsSignal(limit, front, i);
        assert BringsSignal(limit, calls, i);
      }
      if SignalBefore(limit, calls) {
        var i: nat :| i <= last && BringsSignal(limit, calls, i);
        if i < last { assert BringsSignal(limit, front, i); }
      }
    }
  }

  lemma {:induction false} SignalledExactly(signals: nat -> bool, n: nat)
    ensures Signalled(signals, n) <==> exists k: nat | k <= n :: signals(k)
  {
    if n > 0 { SignalledExactly(signals, n - 1); }
  }

  /** After any run, an admission is answered `Draining` where a signal has come before it,
      or comes by its first look or, with a slot free, by its second; `Full` where none did
      at first and as many sessions hold slots as may; and it gives a free slot away
      wherever no signal has come. */
  lemma AnswersExactly(limit: nat, calls: seq<Call>, signals: nat -> bool)
    ensures var r := CalledAll(Registry(limit, {}, map[], false), calls);
      var early := SignalBefore(limit, calls) || signals(0);
      var late := exists k: nat | k <= 5 :: signals(k);
      && (Decision(r, signals) == Admitting <==> !early && !late && |r.sessions| < limit)
      && (Decision(r, signals) == Full <==> !early && |r.sessions| == limit)
      && (Decision(r, signals) == Draining <==> early || (late && |r.sessions| < limit))
  {
    LatchedExactly(limit, calls);
    CapacityHolds(limit, calls);
    SignalledExactly(signals, SECOND_LOOK);
    SignalledExactly(signals, 0);
  }

  // A build signalled part way through

  class Application {
    var seedStopped: bool
    var composition: Option<SessionRegistry>

    constructor ()
      ensures !seedStopped && composition == None
    {
      seedStopped, composition := false, None;
    }

    /** The shutdown's call: the intent on the seed first, then whatever is
        already serving. */
    method StopAdmitting()
      modifies this`seedStopped, if composition.Some? then {composition.value} else {}
      ensures seedStopped
      ensures composition.Some? ==> composition.value.draining
    {
      seedStopped := true;
      if composition.Some? {
        composition.value.StopAdmitting();
      }
    }

    method Deliver(due: bool)
      modifies this`seedStopped, if composition.Some? then {composition.value} else {}
      ensures seedStopped == (old(seedStopped) || due)
      ensures composition.Some? ==> composition.value.draining == (old(composition.value.draining) || due)
    {
      if due { StopAdmitting(); }
    }

    /** The end of a build: publish, then apply what the seed was told. Whichever
        side of whichever statement a signal lands on, the registry the build
        returns is draining exactly when one has arrived. */
    method Publish(sessions: SessionRegistry, signals: nat -> bool)
      requires composition == None && !sessions.draining
      modifies this, sessions
      ensures composition == Some(sessions)
      ensures sessions.draining <==> old(seedStopped) || Signalled(signals, 4)
    {
      Deliver(signals(0));
      composition := Some(sessions);
      Deliver(signals(1));
      assert seedStopped == (old(seedStopped) || Signalled(signals, 1));
      var told := seedStopped;
      Deliver(signals(2));
      if told {
        Deliver(signals(3));
        composition.value.StopAdmitting();
        Deliver(signals(4));
      } else {
        Deliver(signals(3));
        Deliver(signals(4));
      }
      assert Signalled(signals, 4) == (signals(4) || signals(3) || signals(2) || Signalled(signals, 1));
    }
  }
}
