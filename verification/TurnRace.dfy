/**
  Every interleaving of the paths that end turn roots, with the shutdown.

  A step is one locked section of the exporter, one `end` of a span outside the
  lock, or one count. Any number of callers may be between popping a root and
  counting it out when another takes its step.

  A key and a span are each used once, and events are folded only while the
  exporter accepts them.
*/
module TurnRace {
  import opened Wrappers
  import opened OrderedDict
  import opened Seqs
  import opened HeldTurns

  /** A caller that popped a root: it ends it, then counts itself out. */
  datatype Owner = Owner(root: Root, ended: bool)

  datatype Phase = Running | Releasing | Waited | Down

  /** Where a root is: under its key, with the one caller that popped it, with
      the shutdown, or ended. */
  datatype Spot = HeldAt(key: Key) | With(caller: Caller) | Taken | Ended

  /** `made` is every root ever held, by its span, with the end time recorded for
      it; `ends` is every `end` call made on each of those spans, in order. The rest is
      history, which no step reads: `keys` in the order they were entered, the root entered
      under each, what became of each key, `evicted` in order, and of the tombstones those
      handed over and those that gave way. */
  datatype Race = Race(
    desk: Desk,
    owners: map<Caller, Owner>,
    accepting: bool,
    phase: Phase,
    taken: seq<Root>,
    made: map<nat, int>,
    ends: map<nat, seq<int>>,
    spot: map<nat, Spot>,
    keys: seq<Key>,
    filed: map<Key, Root>,
    settled: seq<Key>,
    evicted: seq<Key>,
    released: set<Key>,
    claimed: set<Key>,
    lapsed: set<Key>)

  datatype Step =
    | Close(key: Key, root: Root, caller: Caller)
    | Settle(key: Key, caller: Caller)
    | EndOwned(caller: Caller)
    | CountOut(caller: Caller)
    | Acknowledge(key: Key)
    | StopAccepting
    | TakeAll
    | EndTaken
    | FinishWait
    | ShutDown

  function Begin(bound: nat): Race {
    Race(Desk(bound, Empty(), [], 0), map[], true, Running, [], map[], map[], map[],
         [], map[], [], [], {}, {}, {})
  }

  /** A turn's key and its span are its own; a fold runs only while emissions are
      accepted, and the shutdown releases only once they are not. */
  ghost predicate Enabled(s: Race, step: Step) {
    match step
    case Close(key, root, c) => s.accepting && c !in s.owners && key !in s.keys && root.span !in s.made
    case Settle(_, c) => c !in s.owners
    case EndOwned(c) => c in s.owners && !s.owners[c].ended
    case CountOut(c) => c in s.owners && s.owners[c].ended
    case Acknowledge(_) => true
    case StopAccepting => true
    case TakeAll => !s.accepting && s.phase == Running
    case EndTaken => s.phase == Releasing && s.taken != []
    case FinishWait => s.phase == Releasing && s.taken == [] && s.desk.settling == 0
    case ShutDown => s.phase == Waited
  }

  ghost function Roots(d: Dict<Key, Root>): seq<Root>
    requires Valid(d)
  {
    seq(|d.order|, i requires 0 <= i < |d.order| => d.at[d.order[i]])
  }

  /** The tombstones that gave way, of those there were and the one an eviction adds. */
  function Lost(was: seq<Key>, out: Option<(Key, Root)>, now: seq<Key>): set<Key> {
    set k | k in was + (match out case None => [] case Some(e) => [e.0]) && k !in now
  }

  /** One `end` call on a span. */
  ghost function EndSpan(s: Race, root: Root): Race {
    s.(ends := s.ends[root.span := (if root.span in s.ends then s.ends[root.span] else []) + [root.end]],
       spot := s.spot[root.span := Ended])
  }

  ghost function Next(s: Race, step: Step): Race
    requires DeskValid(s.desk) && Enabled(s, step)
  {
    match step
    case Close(key, root, c) =>
      var (desk, out) := Hold(s.desk, key, root);
      var entered := s.(desk := desk,
        made := s.made[root.span := root.end],
        ends := s.ends[root.span := []],
        spot := s.spot[root.span := HeldAt(key)],
        keys := s.keys + [key],
        filed := s.filed[key := root],
        lapsed := s.lapsed + Lost(s.desk.omitted, out, desk.omitted));
      if out.None? then entered
      else entered.(owners := s.owners[c := Owner(out.value.1, false)],
                    spot := entered.spot[out.value.1.span := With(c)],
                    evicted := s.evicted + [out.value.0])
    case Settle(key, c) =>
      if key in s.desk.held.at then
        var root := s.desk.held.at[key];
        s.(desk := Pop(s.desk, key),
           owners := s.owners[c := Owner(root, false)],
           spot := s.spot[root.span := With(c)],
           settled := s.settled + [key])
      else s.(desk := Pop(s.desk, key), claimed := s.claimed + (if key in s.desk.omitted then {key} else {}))
    case EndOwned(c) =>
      EndSpan(s, s.owners[c].root).(owners := s.owners[c := Owner(s.owners[c].root, true)])
    case CountOut(c) =>
      s.(owners := s.owners - {c}, desk := s.desk.(settling := if s.desk.settling > 0 then s.desk.settling - 1 else 0))
    case Acknowledge(key) =>
      s.(desk := s.desk.(omitted := Without(s.desk.omitted, key)),
         claimed := s.claimed + (if key in s.desk.omitted then {key} else {}))
    case StopAccepting => s.(accepting := false)
    case TakeAll =>
      s.(desk := s.desk.(held := Empty()), taken := Roots(s.desk.held), phase := Releasing,
         spot := map p | p in s.spot :: if s.spot[p].HeldAt? then Taken else s.spot[p],
         released := s.released + s.desk.held.at.Keys)
    case EndTaken => EndSpan(s, s.taken[0]).(taken := s.taken[1..])
    case FinishWait => s.(phase := Waited)
    case ShutDown => s.(phase := Down)
  }

  ghost predicate Phases(s: Race) {
    && DeskValid(s.desk)
    && (s.phase != Running ==> !s.accepting && s.desk.held == Empty())
    && (s.phase != Releasing ==> s.taken == [])
    && (s.phase == Waited || s.phase == Down ==> s.owners == map[])
    && s.desk.settling == |s.owners|
  }

  ghost predicate IsMade(made: map<nat, int>, root: Root) {
    root.span in made && made[root.span] == root.end
  }

  ghost predicate InTaken(taken: seq<Root>, span: nat) {
    exists i :: 0 <= i < |taken| && taken[i].span == span
  }

  /** Every root is in exactly one place, and its end calls say which. */
  ghost predicate Placed(at: map<Key, Root>, owners: map<Caller, Owner>, taken: seq<Root>,
                         made: map<nat, int>, ends: map<nat, seq<int>>, spot: map<nat, Spot>) {
    && made.Keys == ends.Keys == spot.Keys
    && (forall k | k in at :: IsMade(made, at[k]) && spot[at[k].span] == HeldAt(k))
    && (forall c | c in owners && !owners[c].ended ::
          IsMade(made, owners[c].root) && spot[owners[c].root.span] == With(c))
    && (forall i | 0 <= i < |taken| :: IsMade(made, taken[i]) && spot[taken[i].span] == Taken)
    && (forall i, j | 0 <= i < j < |taken| :: taken[i].span != taken[j].span)
    && (forall p | p in spot ::
          match spot[p]
          case HeldAt(k) => k in at && at[k].span == p && ends[p] == []
          case With(c) => c in owners && !owners[c].ended && owners[c].root.span == p && ends[p] == []
          case Taken => InTaken(taken, p) && ends[p] == []
          case Ended => ends[p] == [made[p]])
  }

  ghost predicate Places(s: Race) {
    Placed(s.desk.held.at, s.owners, s.taken, s.made, s.ends, s.spot)
  }

  lemma EnterPlaced(at: map<Key, Root>, owners: map<Caller, Owner>, taken: seq<Root>,
                    made: map<nat, int>, ends: map<nat, seq<int>>, spot: map<nat, Spot>, key: Key, root: Root)
    requires Placed(at, owners, taken, made, ends, spot) && key !in at && root.span !in made
    ensures Placed(at[key := root], owners, taken, made[root.span := root.end], ends[root.span := []],
                   spot[root.span := HeldAt(key)])
  {}

  /** A root popped by a caller. */
  lemma PopPlaced(at: map<Key, Root>, owners: map<Caller, Owner>, taken: seq<Root>,
                  made: map<nat, int>, ends: map<nat, seq<int>>, spot: map<nat, Spot>, key: Key, c: Caller)
    requires Placed(at, owners, taken, made, ends, spot) && key in at && c !in owners
    ensures Placed(at - {key}, owners[c := Owner(at[key], false)], taken, made, ends, spot[at[key].span := With(c)])
  {}

  lemma EndPlaced(at: map<Key, Root>, owners: map<Caller, Owner>, taken: seq<Root>,
                  made: map<nat, int>, ends: map<nat, seq<int>>, spot: map<nat, Spot>, c: Caller)
    requires Placed(at, owners, taken, made, ends, spot) && c in owners && !owners[c].ended
    ensures var root := owners[c].root;
      && root.span in ends
      && Placed(at, owners[c := Owner(root, true)], taken, made, ends[root.span := ends[root.span] + [root.end]],
                spot[root.span := Ended])
  {
    assert owners[c].root.span in spot;
  }

  lemma CountPlaced(at: map<Key, Root>, owners: map<Caller, Owner>, taken: seq<Root>,
                    made: map<nat, int>, ends: map<nat, seq<int>>, spot: map<nat, Spot>, c: Caller)
    requires Placed(at, owners, taken, made, ends, spot) && c in owners && owners[c].ended
    ensures Placed(at, owners - {c}, taken, made, ends, spot)
  {}

  /** The roots held, as a list, are the roots held, each once. */
  lemma RootsListed(held: Dict<Key, Root>)
    requires Valid(held)
    requires forall j, k | j in held.at && k in held.at && held.at[j].span == held.at[k].span :: j == k
    ensures var roots := Roots(held);
      && (forall i | 0 <= i < |roots| :: held.order[i] in held.at && roots[i] == held.at[held.order[i]])
      && (forall i, j | 0 <= i < j < |roots| :: roots[i].span != roots[j].span)
      && (forall k | k in held.at :: InTaken(roots, held.at[k].span))
  {
    var roots := Roots(held);
    assert forall i | 0 <= i < |roots| :: held.order[i] in held.order;
    forall k | k in held.at ensures InTaken(roots, held.at[k].span) {
      var i :| 0 <= i < |held.order| && held.order[i] == k;
      assert roots[i].span == held.at[k].span;
    }
  }

  /** Everything held handed to the shutdown, as a list of the roots held. */
  lemma TakePlaced(at: map<Key, Root>, owners: map<Caller, Owner>, roots: seq<Root>,
                   made: map<nat, int>, ends: map<nat, seq<int>>, spot: map<nat, Spot>)
    requires Placed(at, owners, [], made, ends, spot)
    requires forall i | 0 <= i < |roots| :: IsMade(made, roots[i]) && spot[roots[i].span].HeldAt?
    requires forall i, j | 0 <= i < j < |roots| :: roots[i].span != roots[j].span
    requires forall k | k in at :: InTaken(roots, at[k].span)
    ensures Placed(map[], owners, roots, made, ends,
                   map p | p in spot :: if spot[p].HeldAt? then Taken else spot[p])
  {
    assert forall p | p in spot :: spot[p] != Taken;
  }

  lemma EndTakenPlaced(at: map<Key, Root>, owners: map<Caller, Owner>, taken: seq<Root>,
                       made: map<nat, int>, ends: map<nat, seq<int>>, spot: map<nat, Spot>)
    requires Placed(at, owners, taken, made, ends, spot) && taken != []
    ensures var root := taken[0];
      && root.span in ends
      && Placed(at, owners, taken[1..], made, ends[root.span := ends[root.span] + [root.end]], spot[root.span := Ended])
  {
    var after := spot[taken[0].span := Ended];
    assert taken[0].span in spot;
    forall p | p in after && after[p] == Taken ensures InTaken(taken[1..], p) {
      var i :| 0 <= i < |taken| && taken[i].span == p;
      assert taken[1..][i - 1].span == p;
    }
  }

  /** Every key ever entered is still held or has exactly one fate. */
  ghost predicate Fates(s: Race) {
    && Distinct(s.settled)
    && (forall k | k in s.desk.held.at :: k in s.keys && k !in s.settled && k !in s.evicted && k !in s.released)
    && (forall k | k in s.settled :: k in s.keys && k !in s.evicted && k !in s.released)
    && (forall k | k in s.evicted :: k in s.keys && k !in s.released)
    && (forall k | k in s.released :: k in s.keys)
    && (forall k | k in s.keys :: k in s.desk.held.at || k in s.settled || k in s.evicted || k in s.released)
  }

  ghost predicate Inv(s: Race) {
    Phases(s) && Places(s) && Fates(s)
  }

  lemma OwnerCount(owners: map<Caller, Owner>, c: Caller, o: Owner)
    ensures |owners[c := o]| == if c in owners then |owners| else |owners| + 1
    ensures |owners - {c}| == if c in owners then |owners| - 1 else |owners|
  {
    assert owners[c := o].Keys == owners.Keys + {c};
    assert (owners - {c}).Keys == owners.Keys - {c};
    assert |owners.Keys| == |owners|;
    assert |owners[c := o].Keys| == |owners[c := o]|;
    assert |(owners - {c}).Keys| == |owners - {c}|;
  }

  /** What entering a root does to the keys held, said without the order. */
  lemma HoldKeys(d: Desk, key: Key, root: Root)
    requires DeskValid(d) && key !in d.held.at
    ensures var (n, out) := Hold(d, key, root);
      && DeskValid(n)
      && (out.None? ==> n.held.at == d.held.at[key := root] && n.settling == d.settling)
      && (out.Some? ==>
            && out.value.0 in d.held.at[key := root]
            && out.value.1 == d.held.at[key := root][out.value.0]
            && n.held.at == d.held.at[key := root] - {out.value.0}
            && n.settling == d.settling + 1)
  {
    HoldValid(d, key, root);
    PutValid(d.held, key, root);
    var held := Put(d.held, key, root);
    if |held.order| > d.bound { assert held.order[0] in held.order; }
  }

  lemma CloseKeepsPlaces(s: Race, key: Key, root: Root, c: Caller)
    requires Inv(s) && Enabled(s, Close(key, root, c))
    ensures Places(Next(s, Close(key, root, c)))
  {
    HoldKeys(s.desk, key, root);
    var at := s.desk.held.at;
    assert key !in at;
    EnterPlaced(at, s.owners, s.taken, s.made, s.ends, s.spot, key, root);
    var out := Hold(s.desk, key, root).1;
    if out.Some? {
      PopPlaced(at[key := root], s.owners, s.taken, s.made[root.span := root.end], s.ends[root.span := []],
                s.spot[root.span := HeldAt(key)], out.value.0, c);
    }
  }

  lemma CloseKeepsRest(s: Race, key: Key, root: Root, c: Caller)
    requires Inv(s) && Enabled(s, Close(key, root, c))
    ensures Phases(Next(s, Close(key, root, c))) && Fates(Next(s, Close(key, root, c)))
  {
    hide Placed, Lost, Hold, Next, DeskValid, Phases, Fates;
    PhasesDesk(s);
    assert key !in s.desk.held.at by { HeldKeys(s); }
    ClosePhases(s, key, root, c);
    CloseFates(s, key, root, c);
  }

  lemma HeldKeys(s: Race)
    requires Fates(s)
    ensures forall k | k in s.desk.held.at :: k in s.keys
  {}

  lemma CloseFields(s: Race, key: Key, root: Root, c: Caller)
    requires DeskValid(s.desk) && Enabled(s, Close(key, root, c))
    ensures var n, (d, out) := Next(s, Close(key, root, c)), Hold(s.desk, key, root);
      && n.keys == s.keys + [key] && n.filed == s.filed[key := root]
      && n.settled == s.settled && n.released == s.released && n.claimed == s.claimed && n.desk == d
      && n.lapsed == s.lapsed + Lost(s.desk.omitted, out, d.omitted)
      && n.evicted == (match out case None => s.evicted case Some(e) => s.evicted + [e.0])
      && n.owners == match out case None => s.owners case Some(e) => s.owners[c := Owner(e.1, false)]
  {
    hide Hold, DeskValid, Lost;
  }

  lemma CloseFates(s: Race, key: Key, root: Root, c: Caller)
    requires Fates(s) && DeskValid(s.desk) && key !in s.desk.held.at && Enabled(s, Close(key, root, c))
    ensures Fates(Next(s, Close(key, root, c)))
  {
    hide Lost, Hold, Next, DeskValid, Distinct;
    HoldKeys(s.desk, key, root);
    CloseFields(s, key, root, c);
    var n := Next(s, Close(key, root, c));
    assert forall k :: k in n.keys <==> k in s.keys || k == key;
    match Hold(s.desk, key, root).1
    case None =>
      assert n.evicted == s.evicted;
    case Some(e) =>
      assert forall k :: k in n.evicted <==> k in s.evicted || k == e.0;
  }

  lemma ClosePhases(s: Race, key: Key, root: Root, c: Caller)
    requires Phases(s) && key !in s.desk.held.at && Enabled(s, Close(key, root, c))
    ensures Phases(Next(s, Close(key, root, c)))
  {
    hide Lost, Hold, DeskValid;
    PhasesDesk(s);
    HoldKeys(s.desk, key, root);
    OwnerCount(s.owners, c, Owner(root, false));
    var out := Hold(s.desk, key, root).1;
    if out.Some? { OwnerCount(s.owners, c, Owner(out.value.1, false)); }
  }

  lemma SettleKeepsPlaces(s: Race, key: Key, c: Caller)
    requires Inv(s) && Enabled(s, Settle(key, c))
    ensures Places(Next(s, Settle(key, c)))
  {
    hide Fates, Distinct;
    if key in s.desk.held.at {
      PopPlaced(s.desk.held.at, s.owners, s.taken, s.made, s.ends, s.spot, key, c);
    } else {
      DropAbsent(s.desk.held, key);
    }
  }

  lemma SettleKeepsPhases(s: Race, key: Key, c: Caller)
    requires Inv(s) && Enabled(s, Settle(key, c))
    ensures Phases(Next(s, Settle(key, c)))
  {
    hide Placed, Fates, DeskValid;
    PopValid(s.desk, key);
    if key in s.desk.held.at {
      assert s.phase == Running;
      hide Drop, Without;
      OwnerCount(s.owners, c, Owner(s.desk.held.at[key], false));
    } else {
      ValidDesk(s.desk);
      DropAbsent(s.desk.held, key);
    }
  }

  lemma ValidDesk(d: Desk)
    requires DeskValid(d)
    ensures Valid(d.held)
  {}

  lemma SettleKeepsFates(s: Race, key: Key, c: Caller)
    requires Inv(s) && Enabled(s, Settle(key, c))
    ensures Fates(Next(s, Settle(key, c)))
  {
    hide Placed, Phases, Without;
    assert DeskValid(s.desk) by { PhasesDesk(s); }
    if key in s.desk.held.at {
      SettledMore(s.settled, key);
    } else {
      assert s.desk.held.at - {key} == s.desk.held.at;
    }
  }

  lemma PhasesDesk(s: Race)
    requires Phases(s)
    ensures DeskValid(s.desk)
  {}

  lemma SettledMore(settled: seq<Key>, key: Key)
    requires Distinct(settled) && key !in settled
    ensures Distinct(settled + [key]) && forall k :: k in settled + [key] <==> k in settled || k == key
  {}

  lemma EndOwnedKeepsInv(s: Race, c: Caller)
    requires Inv(s) && Enabled(s, EndOwned(c))
    ensures Inv(Next(s, EndOwned(c)))
  {
    OwnerCount(s.owners, c, Owner(s.owners[c].root, true));
    EndPlaced(s.desk.held.at, s.owners, s.taken, s.made, s.ends, s.spot, c);
  }

  lemma CountOutKeepsInv(s: Race, c: Caller)
    requires Inv(s) && Enabled(s, CountOut(c))
    ensures Inv(Next(s, CountOut(c)))
  {
    OwnerCount(s.owners, c, s.owners[c]);
    CountPlaced(s.desk.held.at, s.owners, s.taken, s.made, s.ends, s.spot, c);
  }

  lemma TakeAllKeepsPlaces(s: Race)
    requires Inv(s) && Enabled(s, TakeAll)
    ensures Places(Next(s, TakeAll))
  {
    hide Fates;
    RootsListed(s.desk.held);
    TakePlaced(s.desk.held.at, s.owners, Roots(s.desk.held), s.made, s.ends, s.spot);
  }

  lemma TakeAllKeepsRest(s: Race)
    requires Inv(s) && Enabled(s, TakeAll)
    ensures Phases(Next(s, TakeAll)) && Fates(Next(s, TakeAll))
  {
    hide Placed, Roots;
  }

  lemma EndTakenKeepsInv(s: Race)
    requires Inv(s) && Enabled(s, EndTaken)
    ensures Inv(Next(s, EndTaken))
  {
    hide Placed;
    EndTakenPlaced(s.desk.held.at, s.owners, s.taken, s.made, s.ends, s.spot);
  }

  lemma QuietStepKeepsInv(s: Race, step: Step)
    requires Inv(s) && Enabled(s, step)
    requires step.Acknowledge? || step.StopAccepting? || step.FinishWait? || step.ShutDown?
    ensures Inv(Next(s, step))
  {
    match step
    case Acknowledge(key) => WithoutDistinct(s.desk.omitted, key);
    case FinishWait => OwnersGone(s.owners);
    case _ =>
  }

  lemma NextKeepsInv(s: Race, step: Step)
    requires Inv(s) && Enabled(s, step)
    ensures Inv(Next(s, step))
  {
    match step
    case Close(key, root, c) => CloseKeepsPlaces(s, key, root, c); CloseKeepsRest(s, key, root, c);
    case Settle(key, c) => SettleKeepsPlaces(s, key, c); SettleKeepsPhases(s, key, c); SettleKeepsFates(s, key, c);
    case EndOwned(c) => EndOwnedKeepsInv(s, c);
    case CountOut(c) => CountOutKeepsInv(s, c);
    case TakeAll => TakeAllKeepsPlaces(s); TakeAllKeepsRest(s);
    case EndTaken => EndTakenKeepsInv(s);
    case _ => QuietStepKeepsInv(s, step);
  }

  lemma OwnersGone(owners: map<Caller, Owner>)
    ensures |owners| == 0 ==> owners == map[]
  {
    if |owners| == 0 { assert |owners.Keys| == 0; }
  }

  ghost predicate Run(s: Race, steps: seq<Step>)
    requires Inv(s)
    decreases |steps|
  {
    steps == [] ||
    (Enabled(s, steps[0]) && (NextKeepsInv(s, steps[0]); Run(Next(s, steps[0]), steps[1..])))
  }

  ghost function After(s: Race, steps: seq<Step>): (n: Race)
    requires Inv(s) && Run(s, steps)
    ensures Inv(n)
    decreases |steps|
  {
    if steps == [] then s else (NextKeepsInv(s, steps[0]); After(Next(s, steps[0]), steps[1..]))
  }

  /** At every moment of every interleaving no root has been ended twice, none has
      been ended at any time but its own, and both maps are within their bound. */
  lemma NeverEndedTwice(bound: nat, steps: seq<Step>)
    requires Run(Begin(bound), steps)
    ensures var s := After(Begin(bound), steps);
      && (forall p | p in s.made :: p in s.ends && (s.ends[p] == [] || s.ends[p] == [s.made[p]]))
      && |s.desk.held.order| <= s.desk.bound && |s.desk.omitted| <= s.desk.bound
  {
    var s := After(Begin(bound), steps);
    forall p | p in s.made ensures p in s.ends && (s.ends[p] == [] || s.ends[p] == [s.made[p]]) {
      assert p in s.spot;
    }
  }

  /** Once the provider may be shut down, every root ever held has been ended
      exactly once, at its recorded time. */
  lemma AllEndedBeforeShutdown(bound: nat, steps: seq<Step>)
    requires Run(Begin(bound), steps)
    requires After(Begin(bound), steps).phase == Waited || After(Begin(bound), steps).phase == Down
    ensures var s := After(Begin(bound), steps);
      forall p | p in s.made :: p in s.ends && s.ends[p] == [s.made[p]]
  {
    var s := After(Begin(bound), steps);
    forall p | p in s.made ensures p in s.ends && s.ends[p] == [s.made[p]] {
      assert p in s.spot;
    }
  }

  /** And every key has had one fate: settled by exactly one caller, evicted, or
      released by the shutdown. */
  lemma OneFateEach(bound: nat, steps: seq<Step>)
    requires Run(Begin(bound), steps)
    ensures var s := After(Begin(bound), steps);
      && Distinct(s.settled)
      && (s.phase != Running ==> forall k | k in s.keys ::
            (k in s.settled || k in s.evicted || k in s.released)
            && !(k in s.settled && k in s.evicted) && !(k in s.settled && k in s.released)
            && !(k in s.evicted && k in s.released))
  {}

  // The wait comes to an end

  /** A step of the wait's own, or one by which an owner gets closer to counting out. */
  predicate Finishing(step: Step) {
    step.EndOwned? || step.CountOut? || step.EndTaken? || step.FinishWait?
  }

  function Unended(owners: map<Caller, Owner>): set<Caller> {
    set c | c in owners && !owners[c].ended
  }

  /** How many finishing steps there are to take before the wait is over. */
  function Work(s: Race): nat {
    |s.taken| + |s.owners| + |Unended(s.owners)| + if s.phase == Releasing then 1 else 0
  }

  lemma EndingLeaves(owners: map<Caller, Owner>, c: Caller)
    requires c in owners && !owners[c].ended
    ensures Unended(owners[c := Owner(owners[c].root, true)]) == Unended(owners) - {c}
    ensures |owners[c := Owner(owners[c].root, true)]| == |owners|
    ensures |Unended(owners) - {c}| == |Unended(owners)| - 1
  {
    OwnerCount(owners, c, Owner(owners[c].root, true));
    assert c in Unended(owners);
  }

  lemma CountingLeaves(owners: map<Caller, Owner>, c: Caller)
    requires c in owners && owners[c].ended
    ensures |owners - {c}| == |owners| - 1 && Unended(owners - {c}) == Unended(owners)
  {
    OwnerCount(owners, c, owners[c]);
  }

  lemma PastRunning(s: Race)
    requires Inv(s)
    ensures DeskValid(s.desk) && (s.phase != Running ==> !s.accepting && s.desk.held == Empty())
  {}

  /** Once the shutdown releases, no step of anyone makes work, and a finishing step
      takes one piece of it away. */
  lemma WorkFalls(s: Race, step: Step)
    requires Inv(s) && s.phase != Running && Enabled(s, step)
    ensures Next(s, step).phase != Running
    ensures Work(Next(s, step)) <= Work(s) - if Finishing(step) then 1 else 0
  {
    hide Inv, Next, Work, DeskValid;
    PastRunning(s);
    match step
    case Settle(key, c) => MissedWork(s, key, c);
    case EndOwned(c) => EndedWork(s, c);
    case CountOut(c) => CountedWork(s, c);
    case _ => OtherWork(s, step);
  }

  lemma EndedWork(s: Race, c: Caller)
    requires DeskValid(s.desk) && Enabled(s, EndOwned(c))
    ensures var n := Next(s, EndOwned(c)); n.phase == s.phase && Work(n) == Work(s) - 1
  {
    hide DeskValid, Unended;
    EndingLeaves(s.owners, c);
  }

  lemma CountedWork(s: Race, c: Caller)
    requires DeskValid(s.desk) && Enabled(s, CountOut(c))
    ensures var n := Next(s, CountOut(c)); n.phase == s.phase && Work(n) == Work(s) - 1
  {
    hide DeskValid, Unended;
    CountingLeaves(s.owners, c);
  }

  lemma MissedWork(s: Race, key: Key, c: Caller)
    requires DeskValid(s.desk) && s.desk.held == Empty() && Enabled(s, Settle(key, c))
    ensures var n := Next(s, Settle(key, c)); n.phase == s.phase && Work(n) == Work(s)
  {
    hide DeskValid, Pop, Unended;
    assert key !in s.desk.held.at;
  }

  lemma OtherWork(s: Race, step: Step)
    requires DeskValid(s.desk) && s.phase != Running && !s.accepting && Enabled(s, step)
    requires !step.Settle? && !step.EndOwned? && !step.CountOut?
    ensures Next(s, step).phase != Running
    ensures Work(Next(s, step)) <= Work(s) - if Finishing(step) then 1 else 0
  {
    hide DeskValid, Hold, Unended, Lost;
    assert !step.Close? && !step.TakeAll?;
  }

  lemma PhaseAfter(s: Race, step: Step)
    requires DeskValid(s.desk) && Enabled(s, step) && s.phase == Releasing && Finishing(step)
    ensures Next(s, step).phase == if step.FinishWait? then Waited else Releasing
  {
    hide DeskValid;
  }

  /** While it releases there always is a finishing step to take. */
  lemma WaitIsNeverStuck(s: Race) returns (step: Step)
    requires Inv(s) && s.phase == Releasing
    ensures Finishing(step) && Enabled(s, step)
  {
    hide Places, Fates;
    if s.taken != [] { return EndTaken; }
    if c :| c in s.owners {
      return if s.owners[c].ended then CountOut(c) else EndOwned(c);
    }
    assert s.owners == map[];
    return FinishWait;
  }

  lemma {:induction false} WaitCanEndFrom(s: Race) returns (more: seq<Step>)
    requires Inv(s) && s.phase == Releasing
    ensures Run(s, more) && After(s, more).phase == Waited
    ensures forall step | step in more :: Finishing(step)
    decreases Work(s)
  {
    hide Inv, Next;
    PastRunning(s);
    var step := WaitIsNeverStuck(s);
    WorkFalls(s, step);
    NextKeepsInv(s, step);
    more := [];
    PhaseAfter(s, step);
    if !step.FinishWait? { more := WaitCanEndFrom(Next(s, step)); }
    assert ([step] + more)[1..] == more;
    more := [step] + more;
  }

  /** However a run came to the shutdown's release, finishing steps alone lead from
      there to the end of its wait. */
  lemma WaitCanEnd(bound: nat, steps: seq<Step>) returns (more: seq<Step>)
    requires Run(Begin(bound), steps) && After(Begin(bound), steps).phase == Releasing
    ensures Run(After(Begin(bound), steps), more)
    ensures After(After(Begin(bound), steps), more).phase == Waited
    ensures forall step | step in more :: Finishing(step)
  {
    more := WaitCanEndFrom(After(Begin(bound), steps));
  }

  function FinishingSteps(steps: seq<Step>): nat {
    if steps == [] then 0 else (if Finishing(steps[0]) then 1 else 0) + FinishingSteps(steps[1..])
  }

  lemma {:induction false} WorkFallsAlong(s: Race, steps: seq<Step>)
    requires Inv(s) && s.phase != Running && Run(s, steps)
    ensures After(s, steps).phase != Running
    ensures FinishingSteps(steps) + Work(After(s, steps)) <= Work(s)
    decreases |steps|
  {
    hide Inv, Work, Next;
    PastRunning(s);
    if steps != [] {
      WorkFalls(s, steps[0]);
      NextKeepsInv(s, steps[0]);
      WorkFallsAlong(Next(s, steps[0]), steps[1..]);
    }
  }

  /** And no interleaving can put it off: from the release on there are never more
      finishing steps than there is work, and once that many were taken, between
      whatever others, the wait is over. */
  lemma WaitEnds(bound: nat, steps: seq<Step>, more: seq<Step>)
    requires Run(Begin(bound), steps) && After(Begin(bound), steps).phase == Releasing
    requires Run(After(Begin(bound), steps), more)
    ensures var s := After(Begin(bound), steps);
      && FinishingSteps(more) <= Work(s)
      && (FinishingSteps(more) == Work(s) ==> After(s, more).phase == Waited || After(s, more).phase == Down)
  {
    WorkFallsAlong(After(Begin(bound), steps), more);
  }

  /** What the uniqueness of keys is for: entering a root under a key already held
      loses the root that was there, exactly then. */
  lemma ReenteringLosesARoot(d: Desk, key: Key, root: Root)
    requires DeskValid(d) && forall k | k in d.held.at :: d.held.at[k] != root
    ensures var (n, out) := Hold(d, key, root);
      (forall k | k in d.held.at ::
         (k in n.held.at && n.held.at[k] == d.held.at[k]) || out == Some((k, d.held.at[k])))
      <==> key !in d.held.at
  {
    var (n, out) := Hold(d, key, root);
    PutValid(d.held, key, root);
    var held := Put(d.held, key, root);
    if key in d.held.at {
      assert held.at[key] == root != d.held.at[key];
    } else {
      HoldKeys(d, key, root);
    }
  }
}
