/** The contexts kept for whoever asks after a session is over: the last ones opened. */
module Retention {
  import opened OrderedDict
  import opened Seqs

  /** Remembering one more, the oldest given up where there are too many. */
  function Retain<K, V>(d: Dict<K, V>, key: K, value: V, bound: nat): Dict<K, V> {
    var d' := Put(d, key, value);
    if |d'.order| > bound then Drop(d', d'.order[0]) else d'
  }

  class Retained<K(==,!new), V> {
    const bound: nat
    var held: Dict<K, V>

    constructor (bound: nat)
      ensures this.bound == bound && held == Empty()
    {
      this.bound, held := bound, Empty();
    }

    method Remember(key: K, value: V)
      requires Valid(held) && |held.order| <= bound
      modifies this
      ensures held == Retain(old(held), key, value, bound)
      ensures Valid(held) && |held.order| <= bound
    {
      PutValid(held, key, value);
      held := Put(held, key, value);
      ghost var put := held;
      while |held.order| > bound
        invariant Valid(held)
        invariant held == put || (held == Drop(put, put.order[0]) && |put.order| == bound + 1 && |held.order| == bound)
        decreases |held.order|
      {
        DropValid(held, held.order[0]);
        held := Drop(held, held.order[0]);
      }
    }
  }

  /** How many were entered behind a key. */
  ghost predicate BehindBy<K(!new), V>(d: Dict<K, V>, key: K, behind: nat) {
    behind < |d.order| && d.order[|d.order| - 1 - behind] == key
  }

  ghost function RetainAll<K(!new), V>(d: Dict<K, V>, opens: seq<(K, V)>, bound: nat): Dict<K, V> {
    if opens == [] then d
    else
      var last := |opens| - 1;
      Retain(RetainAll(d, opens[..last], bound), opens[last].0, opens[last].1, bound)
  }

  lemma RetainValid<K(!new), V>(d: Dict<K, V>, key: K, value: V, bound: nat)
    requires Valid(d) && |d.order| <= bound
    ensures Valid(Retain(d, key, value, bound)) && |Retain(d, key, value, bound).order| <= bound
  {
    PutValid(d, key, value);
    var d' := Put(d, key, value);
    if |d'.order| > bound { DropValid(d', d'.order[0]); }
  }

  lemma FirstDropped<K(!new), V>(d: Dict<K, V>)
    requires Valid(d) && d.order != []
    ensures Drop(d, d.order[0]).order == d.order[1..]
  {
    WithoutAbsent(d.order[1..], d.order[0]);
  }

  /** A session opened again keeps its place; a new one goes behind everyone, and a
      context is given up only when it has `bound` behind it. */
  lemma RetainStep<K(!new), V>(d: Dict<K, V>, key: K, behind: nat, other: K, value: V, bound: nat)
    requires Valid(d) && |d.order| <= bound && BehindBy(d, key, behind)
    ensures var d', now := Retain(d, other, value, bound), if other in d.at then behind else behind + 1;
      if now < bound then BehindBy(d', key, now) else key !in d'.at
  {
    var put := Put(d, other, value);
    PutValid(d, other, value);
    assert d.order[|d.order| - 1 - behind] in d.order;
    if |put.order| > bound { FirstDropped(put); }
  }

  /** How many of the opens entered a key that was not held at that moment. */
  ghost function Entries<K(!new), V>(d: Dict<K, V>, opens: seq<(K, V)>, bound: nat): nat {
    if opens == [] then 0
    else
      var last := |opens| - 1;
      Entries(d, opens[..last], bound)
      + if opens[last].0 in RetainAll(d, opens[..last], bound).at then 0 else 1
  }

  /** At every moment of these opens the key is held. */
  ghost predicate HeldThroughout<K(!new), V>(d: Dict<K, V>, key: K, opens: seq<(K, V)>, bound: nat) {
    forall k | 0 <= k <= |opens| :: key in RetainAll(d, opens[..k], bound).at
  }

  lemma LastOpen<K(!new), V>(d: Dict<K, V>, opens: seq<(K, V)>, bound: nat)
    requires opens != []
    ensures var last := |opens| - 1;
      var before := RetainAll(d, opens[..last], bound);
      && RetainAll(d, opens, bound) == Retain(before, opens[last].0, opens[last].1, bound)
      && Entries(d, opens, bound) == Entries(d, opens[..last], bound) + if opens[last].0 in before.at then 0 else 1
  {}

  lemma BehindHeld<K(!new), V>(d: Dict<K, V>, key: K, behind: nat)
    requires Valid(d) && BehindBy(d, key, behind)
    ensures key in d.at
  {
    assert d.order[|d.order| - 1 - behind] in d.order;
  }

  lemma NoneOpened<K(!new), V>(d: Dict<K, V>, bound: nat)
    ensures RetainAll(d, [], bound) == d && Entries(d, [], bound) == 0
  {}

  lemma {:induction false} HeldWhile<K(!new), V>(d: Dict<K, V>, key: K, behind: nat, opens: seq<(K, V)>, bound: nat)
    requires Valid(d) && |d.order| <= bound && BehindBy(d, key, behind)
    requires behind + Entries(d, opens, bound) < bound
    ensures var after := RetainAll(d, opens, bound);
      && Valid(after) && |after.order| <= bound && BehindBy(after, key, behind + Entries(d, opens, bound))
      && key in after.at
  {
    hide Valid, BehindBy, RetainAll, Entries, Retain;
    if opens == [] {
      NoneOpened(d, bound);
    } else {
      var last := |opens| - 1;
      var (k, v) := opens[last];
      LastOpen(d, opens, bound);
      HeldWhile(d, key, behind, opens[..last], bound);
      var before := RetainAll(d, opens[..last], bound);
      RetainStep(before, key, behind + Entries(d, opens[..last], bound), k, v, bound);
      RetainValid(before, k, v, bound);
    }
    BehindHeld(RetainAll(d, opens, bound), key, behind + Entries(d, opens, bound));
  }

  lemma {:induction false} EntriesGrow<K(!new), V>(d: Dict<K, V>, opens: seq<(K, V)>, k: nat, bound: nat)
    requires k <= |opens|
    ensures Entries(d, opens[..k], bound) <= Entries(d, opens, bound)
    decreases |opens| - k
  {
    if k == |opens| {
      assert opens[..k] == opens;
    } else {
      EntriesGrow(d, opens, k + 1, bound);
      assert opens[..k + 1][..k] == opens[..k];
    }
  }

  /** The open that fills the bound takes the context. */
  lemma {:induction false} HeldNoLonger<K(!new), V>(d: Dict<K, V>, key: K, behind: nat, opens: seq<(K, V)>, bound: nat)
    requires Valid(d) && |d.order| <= bound && BehindBy(d, key, behind)
    requires behind + Entries(d, opens, bound) >= bound
    ensures !HeldThroughout(d, key, opens, bound)
  {
    hide Valid, BehindBy, RetainAll, Entries, Retain;
    if opens == [] {
      NoneOpened(d, bound);
      BehindLess(d, key, behind);
      assert false;
    }
    var last := |opens| - 1;
    var front := opens[..last];
    var (k, v) := opens[last];
    LastOpen(d, opens, bound);
    if behind + Entries(d, front, bound) >= bound {
      HeldNoLonger(d, key, behind, front, bound);
      var n :| 0 <= n <= last && key !in RetainAll(d, front[..n], bound).at;
      assert front[..n] == opens[..n];
    } else {
      HeldWhile(d, key, behind, front, bound);
      RetainStep(RetainAll(d, front, bound), key, behind + Entries(d, front, bound), k, v, bound);
      assert opens[..|opens|] == opens;
    }
  }

  lemma BehindLess<K(!new), V>(d: Dict<K, V>, key: K, behind: nat)
    requires BehindBy(d, key, behind)
    ensures behind < |d.order|
  {}

  /** A context with `behind` entered after it is there for all of some opens if and only
      if they enter few enough keys that were not held: opens of sessions still held take
      nothing away. */
  lemma HeldThroughoutExactly<K(!new), V>(d: Dict<K, V>, key: K, behind: nat, opens: seq<(K, V)>, bound: nat)
    requires Valid(d) && |d.order| <= bound && BehindBy(d, key, behind)
    ensures HeldThroughout(d, key, opens, bound) <==> behind + Entries(d, opens, bound) < bound
  {
    if behind + Entries(d, opens, bound) < bound {
      forall k | 0 <= k <= |opens| ensures key in RetainAll(d, opens[..k], bound).at {
        EntriesGrow(d, opens, k, bound);
        HeldWhile(d, key, behind, opens[..k], bound);
      }
    } else {
      HeldNoLonger(d, key, behind, opens, bound);
    }
  }

  /** And so for a context just entered: fewer than the bound. */
  lemma StillThereExactly<K(!new), V>(d: Dict<K, V>, key: K, value: V, opens: seq<(K, V)>, bound: nat)
    requires Valid(d) && |d.order| <= bound && key !in d.at && bound > 0
    ensures var entered := Retain(d, key, value, bound);
      HeldThroughout(entered, key, opens, bound) <==> Entries(entered, opens, bound) < bound
  {
    PutValid(d, key, value);
    RetainValid(d, key, value, bound);
    var put := Put(d, key, value);
    if |put.order| > bound { FirstDropped(put); }
    HeldThroughoutExactly(Retain(d, key, value, bound), key, 0, opens, bound);
  }

  // Sessions that stay open

  /** What the exporter holds of sessions: those open, and the contexts kept. */
  datatype Sessions = Sessions(open: set<nat>, held: Dict<nat, nat>)

  datatype Step = Open(session: nat) | Close(session: nat)

  /** A session that is open already is not opened, nor kept, again. */
  function After(s: Sessions, step: Step, bound: nat): Sessions {
    match step
    case Open(k) =>
      if k in s.open then s else Sessions(s.open + {k}, Retain(s.held, k, k, bound))
    case Close(k) => s.(open := s.open - {k})
  }

  function AfterAll(steps: seq<Step>, bound: nat): Sessions {
    if steps == [] then Sessions({}, Empty())
    else After(AfterAll(steps[..|steps| - 1], bound), steps[|steps| - 1], bound)
  }

  /** Session zero opens and stays; then one session after another opens and closes. */
  function OneStays(visitors: nat): seq<Step> {
    if visitors == 0 then [Open(0)] else OneStays(visitors - 1) + [Open(visitors), Close(visitors)]
  }

  function Counted(from: nat, to: nat): seq<nat>
    requires from <= to
  {
    seq(to - from, i requires 0 <= i < to - from => from + i)
  }

  lemma AfterTwo(steps: seq<Step>, a: Step, b: Step, bound: nat)
    ensures AfterAll(steps + [a, b], bound) == After(After(AfterAll(steps, bound), a, bound), b, bound)
  {
    var all := steps + [a, b];
    assert all[..|all| - 1] == steps + [a] && (steps + [a])[..|steps|] == steps;
  }

  /** One more visitor comes and goes. */
  lemma OneMoreVisits(visitors: nat, bound: nat)
    requires visitors > 0 && AfterAll(OneStays(visitors - 1), bound).open == {0}
    ensures AfterAll(OneStays(visitors), bound) ==
      Sessions({0}, Retain(AfterAll(OneStays(visitors - 1), bound).held, visitors, visitors, bound))
  {
    hide Retain, AfterAll;
    AfterTwo(OneStays(visitors - 1), Open(visitors), Close(visitors), bound);
    assert {0} + {visitors} - {visitors} == {0};
  }

  /** Whatever the bound, that many visitors take the context of the session that stays,
      with never more than two sessions open: a bound above the number of sessions that
      may be open at once does not keep the context of one that is. */
  lemma {:induction false} OpenSessionLosesItsContext(bound: nat, visitors: nat)
    requires 0 < bound && visitors <= bound
    ensures var s := AfterAll(OneStays(visitors), bound);
      && s.open == {0} && Valid(s.held)
      && s.held.order == Counted(if visitors < bound then 0 else 1, visitors + 1)
      && (0 in s.held.at <==> visitors < bound)
  {
    hide Retain, Counted, AfterAll, OneStays, Valid;
    if visitors == 0 {
      OneOpened(bound);
    } else {
      OpenSessionLosesItsContext(bound, visitors - 1);
      VisitorKept(AfterAll(OneStays(visitors - 1), bound).held, visitors, bound);
      OneMoreVisits(visitors, bound);
    }
  }

  lemma FirstOpened(bound: nat)
    ensures AfterAll(OneStays(0), bound) == Sessions({0}, Retain(Empty(), 0, 0, bound))
  {
    hide Retain;
    assert [Open(0)][..0] == [];
    assert AfterAll([Open(0)], bound) == After(Sessions({}, Empty()), Open(0), bound);
  }

  lemma OneOpened(bound: nat)
    requires 0 < bound
    ensures var s := AfterAll(OneStays(0), bound);
      s.open == {0} && Valid(s.held) && s.held.order == Counted(0, 1) && 0 in s.held.at
  {
    hide AfterAll, OneStays;
    FirstOpened(bound);
    assert Counted(0, 1) == [0];
  }

  lemma VisitorKept(held: Dict<nat, nat>, visitor: nat, bound: nat)
    requires Valid(held) && held.order == Counted(0, visitor) && 0 < visitor <= bound
    ensures var d := Retain(held, visitor, visitor, bound);
      && Valid(d) && d.order == Counted(if visitor < bound then 0 else 1, visitor + 1)
      && (0 in d.at <==> visitor < bound)
  {
    assert visitor !in held.order;
    var put := Put(held, visitor, visitor);
    PutValid(held, visitor, visitor);
    RetainValid(held, visitor, visitor, bound);
    assert put.order == Counted(0, visitor + 1);
    if visitor == bound { FirstDropped(put); }
    assert put.order[1..] == Counted(1, visitor + 1);
    var d := Retain(held, visitor, visitor, bound);
    assert visitor < bound ==> d.order[0] == 0;
    assert 0 in d.order <==> 0 in d.at;
  }

  lemma {:induction false} OneStaysOpen(visitors: nat, bound: nat)
    ensures AfterAll(OneStays(visitors), bound).open == {0}
  {
    hide Retain, AfterAll, OneStays;
    if visitors == 0 {
      FirstOpened(bound);
    } else {
      OneStaysOpen(visitors - 1, bound);
      OneMoreVisits(visitors, bound);
    }
  }

  /** At no moment of that run are more than two sessions open. */
  lemma {:induction false} NeverMoreThanTwo(visitors: nat, k: nat, bound: nat)
    requires k <= |OneStays(visitors)|
    ensures |AfterAll(OneStays(visitors)[..k], bound).open| <= 2
    decreases visitors
  {
    var whole := OneStays(visitors);
    if k == |whole| {
      OneStaysOpen(visitors, bound);
      assert whole[..k] == whole;
    } else if visitors == 0 {
      assert whole[..k] == [];
    } else {
      var front := OneStays(visitors - 1);
      if k <= |front| {
        NeverMoreThanTwo(visitors - 1, k, bound);
        assert whole[..k] == front[..k];
      } else {
        OneStaysOpen(visitors - 1, bound);
        assert whole[..k] == front + [Open(visitors)];
        assert (front + [Open(visitors)])[..|front|] == front;
      }
    }
  }
}
