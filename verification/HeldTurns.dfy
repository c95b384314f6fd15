/**
  Who ends a turn's root span.

  A finished turn's root is held until its transcript is settled. Four paths race
  for it: the collaborator that settles or releases it, the overflow that evicts
  the oldest, and the shutdown that ends whatever is left. Whoever pops it owns
  it, ends it outside the lock, and only then is counted out.
*/
module HeldTurns {
  import opened Wrappers
  import opened OrderedDict
  import opened Seqs

  type Key = (string, string)
  type Caller = nat

  /** A root span and the end time recorded for it when its turn closed. */
  datatype Root = Root(span: nat, end: int)

  datatype Desk = Desk(bound: nat, held: Dict<Key, Root>, omitted: seq<Key>, settling: nat)

  datatype Settlement = Settled | Omitted | Missing

  ghost predicate DeskValid(d: Desk) {
    && Valid(d.held) && |d.held.order| <= d.bound
    && (forall i, j | 0 <= i < j < |d.omitted| :: d.omitted[i] != d.omitted[j])
    && |d.omitted| <= d.bound
  }

  function Newest(keys: seq<Key>, bound: nat): seq<Key> {
    if |keys| > bound then keys[|keys| - bound..] else keys
  }

  /** Entering one root: at most one other is evicted, its key left as a tombstone
      behind the ones already there, the oldest of which give way. */
  function Hold(d: Desk, key: Key, root: Root): (Desk, Option<(Key, Root)>)
    requires DeskValid(d)
  {
    var held := Put(d.held, key, root);
    if |held.order| <= d.bound then (d.(held := held), None)
    else
      var oldest := held.order[0];
      var tombs := if oldest in d.omitted then d.omitted else d.omitted + [oldest];
      PutValid(d.held, key, root);
      (Desk(d.bound, Drop(held, oldest),
            Newest(tombs, d.bound),
            d.settling + 1),
       Some((oldest, held.at[oldest])))
  }

  function Pop(d: Desk, key: Key): Desk {
    Desk(d.bound, Drop(d.held, key), Without(d.omitted, key),
         if key in d.held.at then d.settling + 1 else d.settling)
  }

  function Outcome(d: Desk, key: Key): Settlement {
    if key in d.held.at then Settled else if key in d.omitted then Omitted else Missing
  }

  lemma HoldValid(d: Desk, key: Key, root: Root)
    requires DeskValid(d)
    ensures DeskValid(Hold(d, key, root).0)
  {
    hide Put, Drop;
    var held := Put(d.held, key, root);
    PutValid(d.held, key, root);
    PutGrows(d.held, key, root);
    if |held.order| > d.bound {
      DropValid(held, held.order[0]);
      assert held.order[0] in held.order;
    }
  }

  lemma PutNames(held: Dict<Key, Root>, key: Key, root: Root)
    requires Valid(held)
    ensures var put := Put(held, key, root); put.order != [] && put.order[0] in put.at
  {
    assert Put(held, key, root).order[0] in Put(held, key, root).order;
  }

  lemma PutGrows(held: Dict<Key, Root>, key: Key, root: Root)
    ensures |held.order| <= |Put(held, key, root).order| <= |held.order| + 1
  {}

  lemma PopValid(d: Desk, key: Key)
    requires DeskValid(d)
    ensures DeskValid(Pop(d, key))
  {
    DropValid(d.held, key);
    WithoutDistinct(d.omitted, key);
  }

  /** The locked sections, as the exporter performs them. */
  class Turns {
    var bound: nat
    var held: Dict<Key, Root>
    var omitted: seq<Key>
    var settling: nat

    function View(): Desk
      reads this
    {
      Desk(bound, held, omitted, settling)
    }

    constructor (deferred: nat)
      ensures View() == Desk(deferred, Empty(), [], 0) && DeskValid(View())
    {
      bound, held, omitted, settling := deferred, Empty(), [], 0;
    }

    method CloseTurn(key: Key, root: Root) returns (evicted: Option<(Key, Root)>)
      requires DeskValid(View())
      modifies this
      ensures (View(), evicted) == Hold(old(View()), key, root) && DeskValid(View())
    {
      HoldValid(View(), key, root);
      hide Put, Drop, DeskValid, Valid, Newest;
      PutNames(held, key, root);
      held := Put(held, key, root);
      evicted := None;
      if |held.order| > bound {
        var oldest := held.order[0];
        evicted := Some((oldest, held.at[oldest]));
        held := Drop(held, oldest);
        if oldest !in omitted {
          omitted := omitted + [oldest];
        }
        settling := settling + 1;
        TrimOmitted();
      }
    }

    /** The oldest tombstones give way. */
    method TrimOmitted()
      modifies this`omitted
      ensures omitted == Newest(old(omitted), bound)
    {
      ghost var tombs := omitted;
      while |omitted| > bound
        invariant |tombs| > bound ==> |omitted| >= bound
        invariant |omitted| <= |tombs| && omitted == tombs[|tombs| - |omitted|..]
        invariant |tombs| <= bound ==> omitted == tombs
      {
        omitted := omitted[1..];
      }
    }

    method PopTurn(key: Key) returns (root: Option<Root>, outcome: Settlement)
      requires DeskValid(View())
      modifies this
      ensures View() == Pop(old(View()), key) && DeskValid(View())
      ensures outcome == Outcome(old(View()), key)
      ensures root == if outcome == Settled then Some(old(held).at[key]) else None
    {
      PopValid(View(), key);
      DropAbsent(held, key);
      root := None;
      outcome := if key in omitted then Omitted else Missing;
      omitted := Without(omitted, key);
      if key in held.at {
        root, outcome := Some(held.at[key]), Settled;
        settling := settling + 1;
      }
      held := Drop(held, key);
    }

    /** A tombstone handed over to the collaborator, if there is one. */
    method Acknowledge(key: Key) returns (taken: bool)
      requires DeskValid(View())
      modifies this`omitted
      ensures taken <==> key in old(omitted)
      ensures View() == old(View()).(omitted := Without(old(omitted), key)) && DeskValid(View())
    {
      WithoutDistinct(omitted, key);
      WithoutMembers(omitted, key);
      taken := key in omitted;
      if taken {
        omitted := Without(omitted, key);
      } else {
        WithoutAbsent(omitted, key);
      }
    }

    /** The shutdown's half: every root still held, the longest held first. */
    method TakeAll() returns (roots: seq<Root>)
      requires DeskValid(View())
      modifies this`held
      ensures View() == old(View()).(held := Empty()) && DeskValid(View())
      ensures |roots| == |old(held).order|
      ensures forall i | 0 <= i < |roots| :: roots[i] == old(held).at[old(held).order[i]]
    {
      roots := [];
      for i := 0 to |held.order|
        invariant |roots| == i
        invariant forall j | 0 <= j < i :: roots[j] == held.at[held.order[j]]
      {
        assert held.order[i] in held.order;
        roots := roots + [held.at[held.order[i]]];
      }
      held := Empty();
    }

    method TurnSettled()
      requires settling > 0
      modifies this`settling
      ensures View() == old(View()).(settling := old(settling) - 1)
    {
      settling := settling - 1;
    }
  }

  lemma DropAbsent(d: Dict<Key, Root>, key: Key)
    requires Valid(d)
    ensures key !in d.at ==> Drop(d, key) == d
  {
    if key !in d.at {
      WithoutAbsent(d.order, key);
      assert d.at - {key} == d.at;
    }
  }
}
