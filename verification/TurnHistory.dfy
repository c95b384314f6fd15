/**
  Which root overflow evicts, and which tombstones are kept, read off what has happened:
  the keys in the order they were entered, and what became of each.
*/
module TurnHistory {
  import opened Wrappers
  import opened OrderedDict
  import opened Seqs
  import opened HeldTurns
  import opened TurnRace

  /** Of some keys, in their order, those in a set. */
  function Only(keys: seq<Key>, live: set<Key>): seq<Key> {
    if keys == [] then [] else (if keys[0] in live then [keys[0]] else []) + Only(keys[1..], live)
  }

  lemma {:induction false} OnlyExactly(keys: seq<Key>, live: set<Key>)
    ensures forall k :: k in Only(keys, live) <==> k in keys && k in live
    ensures Distinct(keys) ==> Distinct(Only(keys, live))
  {
    hide Distinct;
    if keys != [] {
      var rest := Only(keys[1..], live);
      OnlyExactly(keys[1..], live);
      assert keys == [keys[0]] + keys[1..];
      DistinctFirst(keys[0], keys[1..]);
      DistinctFirst(keys[0], rest);
      assert [] + rest == rest;
    }
  }

  lemma {:induction false} OnlyMore(keys: seq<Key>, key: Key, live: set<Key>)
    ensures Only(keys + [key], live) == Only(keys, live) + if key in live then [key] else []
  {
    if keys == [] {
      assert keys + [key] == [key] && Only([key][1..], live) == [];
    } else {
      assert (keys + [key])[1..] == keys[1..] + [key];
      OnlyMore(keys[1..], key, live);
    }
  }

  lemma {:induction false} OnlyLess(keys: seq<Key>, live: set<Key>, key: Key)
    ensures Only(keys, live - {key}) == Without(Only(keys, live), key)
  {
    if keys != [] {
      OnlyLess(keys[1..], live, key);
      var rest := Only(keys[1..], live);
      if keys[0] in live { assert ([keys[0]] + rest)[1..] == rest; } else { assert [] + rest == rest; }
    }
  }

  lemma {:induction false} OnlySame(keys: seq<Key>, a: set<Key>, b: set<Key>)
    requires forall k | k in keys :: k in a <==> k in b
    ensures Only(keys, a) == Only(keys, b)
  {
    if keys != [] {
      assert keys == [keys[0]] + keys[1..];
      OnlySame(keys[1..], a, b);
    }
  }

  function Unfated(s: Race): set<Key> {
    set k | k in s.keys && k !in s.settled && k !in s.evicted && k !in s.released
  }

  /** The keys entered and neither settled, evicted nor released since, oldest first. */
  function Waiting(s: Race): seq<Key> { Only(s.keys, Unfated(s)) }

  function Unclaimed(s: Race): set<Key> {
    set k | k in s.evicted && k !in s.claimed && k !in s.lapsed
  }

  /** The keys evicted whose tombstone was neither handed over nor gave way since. */
  function Tombstones(s: Race): seq<Key> { Only(s.evicted, Unclaimed(s)) }

  /** The two maps are what the history says, in its order. */
  ghost predicate Recorded(s: Race) {
    && Distinct(s.keys) && Distinct(s.evicted)
    && s.desk.held.order == Waiting(s)
    && s.desk.omitted == Tombstones(s)
    && (forall k | k in s.desk.held.at :: k in s.filed && s.filed[k] == s.desk.held.at[k])
    && (forall k | k in s.claimed || k in s.lapsed :: k in s.evicted)
  }

  /** What a close does to the two maps, by their orders alone. */
  lemma HoldOrder(d: Desk, key: Key, root: Root)
    requires DeskValid(d) && key !in d.held.at && forall k | k in d.omitted :: k !in d.held.at && k != key
    ensures var (n, out) := Hold(d, key, root);
      var all := d.held.order + [key];
      && |all| <= d.bound + 1
      && (|all| <= d.bound ==> out == None && n.held.order == all && n.omitted == d.omitted)
      && (|all| > d.bound ==>
            && out.Some? && out.value.0 == all[0]
            && n.held.order == all[1..]
            && var tombs := d.omitted + [all[0]];
               n.omitted == (if |tombs| > d.bound then tombs[1..] else tombs))
  {
    var held := Put(d.held, key, root);
    PutValid(d.held, key, root);
    assert held.order == d.held.order + [key];
    if |held.order| > d.bound {
      WithoutHead(held.order);
      assert held.order[0] in held.order;
      var tombs := d.omitted + [held.order[0]];
      if |tombs| > d.bound { assert tombs[|tombs| - d.bound..] == tombs[1..]; }
    }
  }

  lemma DistinctMore(keys: seq<Key>, key: Key)
    requires Distinct(keys) && key !in keys
    ensures Distinct(keys + [key])
  {}

  /** Tombstones are of evicted keys, which are held no more. */
  lemma TombstonesApart(s: Race)
    requires Inv(s) && Recorded(s)
    ensures DeskValid(s.desk) && forall k | k in s.desk.omitted :: k in s.evicted && k in s.keys && k !in s.desk.held.at
  {
    hide Placed, Distinct;
    OnlyExactly(s.evicted, Unclaimed(s));
  }

  /** A close enters its key behind the others, and evicts the first of them all exactly
      where they are more than the bound; its tombstone goes behind the others, and the
      first of those gives way exactly where they are more than the bound. */
  ghost predicate ClosedAs(s: Race, n: Race, key: Key, root: Root, c: Caller) {
    var waiting := Waiting(s) + [key];
    && n.keys == s.keys + [key] && n.filed == s.filed[key := root]
    && n.settled == s.settled && n.released == s.released && n.claimed == s.claimed
    && |waiting| <= s.desk.bound + 1
    && (|waiting| <= s.desk.bound ==> n.evicted == s.evicted && n.lapsed == s.lapsed && n.owners == s.owners)
    && (|waiting| > s.desk.bound ==>
          && n.evicted == s.evicted + [waiting[0]]
          && waiting[0] in n.filed && n.owners == s.owners[c := Owner(n.filed[waiting[0]], false)]
          && var tombs := Tombstones(s) + [waiting[0]];
             n.lapsed == s.lapsed + if |tombs| > s.desk.bound then {tombs[0]} else {})
  }

  lemma LostExactly(was: seq<Key>, out: Option<(Key, Root)>, now: seq<Key>, bound: nat)
    requires Distinct(was) && |was| <= bound
    requires out == None ==> now == was
    requires out.Some? ==> out.value.0 !in was
    requires out.Some? ==>
      var tombs := was + [out.value.0]; now == if |tombs| > bound then tombs[1..] else tombs
    ensures Lost(was, out, now) == match out
      case None => {}
      case Some(e) => var tombs := was + [e.0]; if |tombs| > bound then {tombs[0]} else {}
  {
    if out.Some? {
      var tombs := was + [out.value.0];
      DistinctMore(was, out.value.0);
      assert tombs == [tombs[0]] + tombs[1..];
      DistinctFirst(tombs[0], tombs[1..]);
      assert was + [out.value.0] == tombs;
    } else {
      assert was + [] == was;
    }
  }

  /** The same of the step's own parts. */
  lemma HoldSays(d: Desk, key: Key, root: Root)
    requires DeskValid(d) && key !in d.held.at && forall k | k in d.omitted :: k !in d.held.at && k != key
    ensures var (n, out) := Hold(d, key, root);
      var all := d.held.order + [key];
      && |all| <= d.bound + 1
      && (|all| <= d.bound ==> out == None && Lost(d.omitted, out, n.omitted) == {})
      && (|all| > d.bound ==>
            && all[0] in d.held.at[key := root] && out == Some((all[0], d.held.at[key := root][all[0]]))
            && var tombs := d.omitted + [all[0]];
               Lost(d.omitted, out, n.omitted) == if |tombs| > d.bound then {tombs[0]} else {})
  {
    HoldOrder(d, key, root);
    HeldRoot(d, key, root);
    DeskDistinct(d);
    var (n, out) := Hold(d, key, root);
    hide Hold, DeskValid, Lost, Distinct;
    if out.Some? && out.value.0 != key { assert out.value.0 in d.held.order; }
    LostExactly(d.omitted, out, n.omitted, d.bound);
  }

  lemma CloseAs(s: Race, key: Key, root: Root, c: Caller)
    requires Inv(s) && Recorded(s) && Enabled(s, Close(key, root, c))
    ensures ClosedAs(s, Next(s, Close(key, root, c)), key, root, c)
  {
    hide Hold, Lost, DeskValid, Next, Inv, Recorded, Waiting, Tombstones;
    TombstonesApart(s);
    assert key !in s.desk.held.at by { InvFates(s); HeldKeys(s); }
    HoldSays(s.desk, key, root);
    CloseFields(s, key, root, c);
    RecordedOrders(s);
    assert s.lapsed + {} == s.lapsed;
  }

  lemma RecordedOrders(s: Race)
    requires Recorded(s)
    ensures Waiting(s) == s.desk.held.order && Tombstones(s) == s.desk.omitted
    ensures forall k | k in s.desk.held.at :: k in s.filed && s.filed[k] == s.desk.held.at[k]
  {}

  lemma DeskDistinct(d: Desk)
    requires DeskValid(d)
    ensures Distinct(d.omitted) && |d.omitted| <= d.bound && Valid(d.held)
  {}

  lemma HeldRoot(d: Desk, key: Key, root: Root)
    requires DeskValid(d)
    ensures var (n, out) := Hold(d, key, root);
      && (out.Some? ==> out.value.0 in d.held.at[key := root] && out.value.1 == d.held.at[key := root][out.value.0])
      && forall k | k in n.held.at :: k in d.held.at[key := root] && n.held.at[k] == d.held.at[key := root][k]
  {
    PutValid(d.held, key, root);
    var held := Put(d.held, key, root);
    if |held.order| > d.bound { assert held.order[0] in held.order; }
  }

  lemma WaitingAfter(s: Race, n: Race, key: Key, root: Root, c: Caller)
    requires Fates(s) && Distinct(s.keys) && key !in s.keys && ClosedAs(s, n, key, root, c)
    ensures var all := Waiting(s) + [key];
      && Waiting(n) == (if |all| > s.desk.bound then all[1..] else all)
      && all[0] !in s.evicted
  {
    var all := Waiting(s) + [key];
    FirstOut(s, key);
    OnlyMore(s.keys, key, Unfated(s) + {key});
    OnlySame(s.keys, Unfated(s), Unfated(s) + {key});
    hide Only, Distinct;
    if |all| > s.desk.bound {
      assert Unfated(n) == Unfated(s) + {key} - {all[0]};
      OnlyLess(n.keys, Unfated(s) + {key}, all[0]);
      WithoutHead(all);
    } else {
      assert Unfated(n) == Unfated(s) + {key};
    }
  }

  lemma CloseRecords(s: Race, key: Key, root: Root, c: Caller)
    requires Inv(s) && Recorded(s) && Enabled(s, Close(key, root, c))
    ensures Recorded(Next(s, Close(key, root, c)))
  {
    hide Placed, Only, Distinct, Hold, DeskValid, Fates, Unfated, Waiting;
    var n, all := Next(s, Close(key, root, c)), Waiting(s) + [key];
    CloseAs(s, key, root, c);
    TombstonesApart(s);
    assert key !in s.keys && key !in s.desk.held.at by { HeldKeys(s); }
    HoldOrder(s.desk, key, root);
    HeldRoot(s.desk, key, root);
    CloseFields(s, key, root, c);
    WaitingAfter(s, n, key, root, c);
    RecordedOrders(s);
    DistinctMore(s.keys, key);
    hide Next, Inv;
    if |all| > s.desk.bound {
      DistinctMore(s.evicted, all[0]);
    }
    TombsClosed(s, n, key, root, c);
  }

  lemma InvFates(s: Race)
    requires Inv(s)
    ensures Fates(s)
  {}

  lemma TombsClosed(s: Race, n: Race, key: Key, root: Root, c: Caller)
    requires Recorded(s) && ClosedAs(s, n, key, root, c) && (Waiting(s) + [key])[0] !in s.evicted
    ensures var all := Waiting(s) + [key];
      var tombs := Tombstones(s) + [all[0]];
      Tombstones(n) ==
        if |all| <= s.desk.bound then Tombstones(s) else if |tombs| > s.desk.bound then tombs[1..] else tombs
    ensures forall k | k in n.claimed || k in n.lapsed :: k in n.evicted
  {
    hide Distinct, Only, Waiting;
    var all := Waiting(s) + [key];
    if |all| > s.desk.bound {
      TombsAfter(s, n, all[0]);
      TombstoneMembers(s);
    } else {
      assert Unclaimed(n) == Unclaimed(s);
    }
  }

  lemma TombstoneMembers(s: Race)
    ensures forall k | k in Tombstones(s) :: k in s.evicted
  {
    OnlyExactly(s.evicted, Unclaimed(s));
  }

  lemma FirstOut(s: Race, key: Key)
    requires Fates(s) && Distinct(s.keys) && key !in s.keys
    ensures var all := Waiting(s) + [key];
      Distinct(all) && all[0] in Unfated(s) + {key} && all[0] !in s.evicted
  {
    OnlyExactly(s.keys, Unfated(s));
    hide Distinct, Only;
    DistinctMore(Waiting(s), key);
    var all := Waiting(s) + [key];
    assert all[0] in all;
  }

  lemma TombsAfter(s: Race, n: Race, e: Key)
    requires Distinct(s.evicted) && e !in s.evicted && n.evicted == s.evicted + [e] && n.claimed == s.claimed
    requires e !in s.claimed && e !in s.lapsed
    requires var tombs := Tombstones(s) + [e];
      n.lapsed == s.lapsed + if |tombs| > s.desk.bound then {tombs[0]} else {}
    ensures var tombs := Tombstones(s) + [e];
      Tombstones(n) == if |tombs| > s.desk.bound then tombs[1..] else tombs
  {
    var tombs := Tombstones(s) + [e];
    OnlyExactly(s.evicted, Unclaimed(s));
    hide Distinct, Only;
    DistinctMore(Tombstones(s), e);
    OnlyMore(s.evicted, e, Unclaimed(s) + {e});
    OnlySame(s.evicted, Unclaimed(s), Unclaimed(s) + {e});
    assert tombs[0] in tombs;
    if |tombs| > s.desk.bound {
      assert Unclaimed(n) == Unclaimed(s) + {e} - {tombs[0]};
      OnlyLess(n.evicted, Unclaimed(s) + {e}, tombs[0]);
      WithoutHead(tombs);
    } else {
      assert Unclaimed(n) == Unclaimed(s) + {e};
    }
  }

  lemma SettleRecords(s: Race, key: Key, c: Caller)
    requires Inv(s) && Recorded(s) && Enabled(s, Settle(key, c))
    ensures Recorded(Next(s, Settle(key, c)))
  {
    hide Placed, Only, Distinct, DeskValid, Phases, Inv, Fates, Recorded, Waiting, Tombstones;
    InvFates(s);
    TombstonesApart(s);
    if key in s.desk.held.at { SettledRecords(s, key, c); } else { HeldAbsent(s, key); MissedRecords(s, key, c); }
  }

  /** A held root taken: its key waits no longer. */
  lemma SettledRecords(s: Race, key: Key, c: Caller)
    requires Fates(s) && Recorded(s) && DeskValid(s.desk) && key in s.desk.held.at && key !in s.desk.omitted
    requires Enabled(s, Settle(key, c))
    ensures Recorded(Next(s, Settle(key, c)))
  {
    hide Only, Distinct, DeskValid;
    var n := Next(s, Settle(key, c));
    assert Unfated(n) == Unfated(s) - {key} && Unclaimed(n) == Unclaimed(s);
    OnlyLess(s.keys, Unfated(s), key);
    WithoutAbsent(s.desk.omitted, key);
    hide Unfated, Unclaimed, Fates;
  }

  lemma MissedRecords(s: Race, key: Key, c: Caller)
    requires Recorded(s) && DeskValid(s.desk) && key !in s.desk.held.at && Drop(s.desk.held, key) == s.desk.held
    requires Enabled(s, Settle(key, c))
    ensures Recorded(Next(s, Settle(key, c)))
  {
    hide Only, Distinct, DeskValid, Drop;
    var n := Next(s, Settle(key, c));
    ClaimedOne(s, n, key);
    assert Unfated(n) == Unfated(s);
    hide Unfated, Unclaimed, Tombstones;
  }

  lemma HeldAbsent(s: Race, key: Key)
    requires Inv(s) && key !in s.desk.held.at
    ensures Drop(s.desk.held, key) == s.desk.held
  {
    DropAbsent(s.desk.held, key);
  }

  /** A tombstone handed over is gone, and asking for none takes none. */
  lemma ClaimedOne(s: Race, n: Race, key: Key)
    requires Recorded(s) && n.evicted == s.evicted && n.lapsed == s.lapsed
    requires n.claimed == s.claimed + if key in s.desk.omitted then {key} else {}
    ensures Tombstones(n) == Without(s.desk.omitted, key)
    ensures forall k | k in n.claimed || k in n.lapsed :: k in n.evicted
  {
    OnlyExactly(s.evicted, Unclaimed(s));
    hide Only, Distinct;
    if key in s.desk.omitted {
      assert Unclaimed(n) == Unclaimed(s) - {key};
      OnlyLess(s.evicted, Unclaimed(s), key);
    } else {
      assert Unclaimed(n) == Unclaimed(s);
      WithoutAbsent(s.desk.omitted, key);
    }
  }

  lemma TakeAllRecords(s: Race)
    requires Inv(s) && Recorded(s) && Enabled(s, TakeAll)
    ensures Recorded(Next(s, TakeAll))
  {
    var n := Next(s, TakeAll);
    InvFates(s);
    hide Placed, Distinct, DeskValid, Phases, Inv, Roots;
    assert Unfated(n) == {};
    OnlyNone(s.keys);
    assert Unclaimed(n) == Unclaimed(s);
  }

  lemma {:induction false} OnlyNone(keys: seq<Key>)
    ensures Only(keys, {}) == []
  {
    if keys != [] { OnlyNone(keys[1..]); }
  }

  lemma NextRecords(s: Race, step: Step)
    requires Inv(s) && Recorded(s) && Enabled(s, step)
    ensures Recorded(Next(s, step))
  {
    hide Recorded, Fates, Placed, Next;
    match step
    case Close(key, root, c) => CloseRecords(s, key, root, c);
    case Settle(key, c) => SettleRecords(s, key, c);
    case TakeAll => TakeAllRecords(s);
    case Acknowledge(key) => AcknowledgeRecords(s, key);
    case _ => OtherRecords(s, step);
  }

  lemma AcknowledgeRecords(s: Race, key: Key)
    requires Recorded(s) && DeskValid(s.desk)
    ensures Recorded(Next(s, Acknowledge(key)))
  {
    hide Only, Distinct, DeskValid;
    var n := Next(s, Acknowledge(key));
    ClaimedOne(s, n, key);
    assert Unfated(n) == Unfated(s);
    hide Unfated, Unclaimed, Tombstones;
  }

  lemma OtherRecords(s: Race, step: Step)
    requires Recorded(s) && DeskValid(s.desk) && Enabled(s, step)
    requires !step.Close? && !step.Settle? && !step.TakeAll? && !step.Acknowledge?
    ensures Recorded(Next(s, step))
  {
    hide Only, Distinct, DeskValid;
    var n := Next(s, step);
    assert Unfated(n) == Unfated(s) && Unclaimed(n) == Unclaimed(s);
  }

  lemma {:induction false} RunRecords(s: Race, steps: seq<Step>)
    requires Inv(s) && Recorded(s) && Run(s, steps)
    ensures Recorded(After(s, steps)) && After(s, steps).desk.bound == s.desk.bound
    decreases |steps|
  {
    hide Recorded, Inv;
    if steps != [] {
      InvDesk(s);
      NextRecords(s, steps[0]);
      NextKeepsInv(s, steps[0]);
      BoundStays(s, steps[0]);
      RunRecords(Next(s, steps[0]), steps[1..]);
    }
  }

  lemma InvDesk(s: Race)
    requires Inv(s)
    ensures DeskValid(s.desk)
  {}

  lemma BoundStays(s: Race, step: Step)
    requires DeskValid(s.desk) && Enabled(s, step)
    ensures Next(s, step).desk.bound == s.desk.bound
  {
    hide DeskValid, Lost, Roots, Put, Drop, Newest;
  }

  lemma BeginRecords(bound: nat)
    ensures Recorded(Begin(bound))
  {}

  /** Over every run, whatever callers and shutdown do meanwhile: the roots held are those
      of the keys that wait, oldest first, and the tombstones kept are those that stand. */
  lemma HeldAreWaiting(bound: nat, steps: seq<Step>)
    requires Run(Begin(bound), steps)
    ensures var s := After(Begin(bound), steps);
      && s.desk.held.order == Waiting(s) && s.desk.omitted == Tombstones(s)
      && |Waiting(s)| <= bound && |Tombstones(s)| <= bound
      && forall k | k in Waiting(s) :: k in s.desk.held.at && k in s.filed && s.desk.held.at[k] == s.filed[k]
  {
    BeginRecords(bound);
    RunRecords(Begin(bound), steps);
    var s := After(Begin(bound), steps);
    hide Placed, Only, Distinct;
    assert forall k | k in s.desk.held.order :: k in s.desk.held.at;
  }

  /** And at every close of every run: the oldest of all that wait, the new key among them,
      is evicted exactly where they are one more than the bound, and the closing caller has
      its root to end; and so with the tombstones. */
  lemma EvictsOldest(bound: nat, steps: seq<Step>, key: Key, root: Root, c: Caller)
    requires Run(Begin(bound), steps) && Enabled(After(Begin(bound), steps), Close(key, root, c))
    ensures var s := After(Begin(bound), steps);
      s.desk.bound == bound && ClosedAs(s, Next(s, Close(key, root, c)), key, root, c)
  {
    BeginRecords(bound);
    RunRecords(Begin(bound), steps);
    CloseAs(After(Begin(bound), steps), key, root, c);
  }

  /** Nothing but a close evicts. */
  lemma OnlyClosesEvict(s: Race, step: Step)
    requires DeskValid(s.desk) && Enabled(s, step) && !step.Close?
    ensures var n := Next(s, step); n.keys == s.keys && n.evicted == s.evicted && n.lapsed == s.lapsed
  {
    hide DeskValid, Pop, Hold, Lost, Roots;
  }

  /** So with a positive bound the root just entered stays, and below the bound all do. */
  lemma NewestStays(bound: nat, steps: seq<Step>, key: Key, root: Root, c: Caller)
    requires Run(Begin(bound), steps) && Enabled(After(Begin(bound), steps), Close(key, root, c))
    ensures var s := After(Begin(bound), steps);
      var n := Next(s, Close(key, root, c));
      && (bound > 0 ==> key !in n.evicted && key in n.desk.held.at && n.desk.held.at[key] == root)
      && (|Waiting(s)| < bound ==> n.evicted == s.evicted)
  {
    var s := After(Begin(bound), steps);
    EvictsOldest(bound, steps, key, root, c);
    HeldAreWaiting(bound, steps);
    InvFates(s);
    HeldKeys(s);
    TombstonesApart(s) by { BeginRecords(bound); RunRecords(Begin(bound), steps); }
    CloseFields(s, key, root, c);
    hide Hold, Next, Inv, Only, Fates, Recorded, DeskValid, Waiting, Tombstones;
    if bound > 0 { NewRootHeld(s.desk, key, root); }
    if |Waiting(s)| >= bound > 0 { assert (Waiting(s) + [key])[0] in s.desk.held.order; }
  }

  lemma NewRootHeld(d: Desk, key: Key, root: Root)
    requires DeskValid(d) && key !in d.held.at && d.bound > 0
    requires forall k | k in d.omitted :: k !in d.held.at && k != key
    ensures var n := Hold(d, key, root).0; key in n.held.at && n.held.at[key] == root
    ensures forall k | k in d.held.order :: k != key
  {
    HoldKeys(d, key, root);
    HoldOrder(d, key, root);
    if |d.held.order| + 1 > d.bound { assert (d.held.order + [key])[0] in d.held.order; }
  }

  /** What a settle is answered: settled where the key waits, with the root entered under it;
      omitted where its tombstone stands; and missing for any other key. */
  lemma AnswersExactly(bound: nat, steps: seq<Step>, key: Key)
    requires Run(Begin(bound), steps)
    ensures var s := After(Begin(bound), steps);
      && (Outcome(s.desk, key) == Settled <==> key in Waiting(s))
      && (Outcome(s.desk, key) == Omitted <==> key in Tombstones(s))
      && (Outcome(s.desk, key) == Missing <==> key !in Waiting(s) && key !in Tombstones(s))
      && (key in Waiting(s) ==> key in s.desk.held.at && key in s.filed && s.desk.held.at[key] == s.filed[key])
  {
    BeginRecords(bound);
    RunRecords(Begin(bound), steps);
    var s := After(Begin(bound), steps);
    TombstonesApart(s);
    RecordedOrders(s);
    DeskKeys(s.desk);
    hide Inv, Waiting, Tombstones, Recorded, DeskValid, Run, After;
  }

  lemma DeskKeys(d: Desk)
    requires DeskValid(d)
    ensures forall k :: k in d.held.order <==> k in d.held.at
  {}
}
