/**
  The telemetry half of a content handoff: one slot per operation, taken by the
  fold of that operation's event, and settled by whoever staged it.
*/
module ContentSlots {
  import opened Json

  type Session = string
  type Invocation = string

  /** A generation's slot, or one tool call's. */
  datatype Key = Generation(invocation: Invocation) | Tool(invocation: Invocation, position: nat)

  /** What goes on a span: attributes by name, each a text, as a dictionary lists them. */
  type Attribute = (string, Text)
  type Content = seq<Attribute>

  /** `spans` lists the pairs that reached a span, first to last. */
  datatype Slots = Slots(staged: map<Key, Content>, attached: set<Key>, spans: seq<(Key, Content)>)

  /** What an emission may bring about while a pair is staged: its own fold or any
      other's, with a live trace to write on or without one, or the shutdown
      clearing everything. */
  datatype Fold = Folded(key: Key, traced: bool) | Cleared

  function Apply(s: Slots, f: Fold): Slots {
    match f
    case Cleared => s.(staged := map[], attached := {})
    case Folded(k, traced) =>
      if k !in s.staged then s
      else
        var taken := s.(staged := s.staged - {k});
        if !traced then taken
        else taken.(spans := s.spans + [(k, s.staged[k])],
                    attached := if s.staged[k] == [] then s.attached else s.attached + {k})
  }

  function ApplyAll(s: Slots, emission: seq<Fold>): Slots
    decreases |emission|
  {
    if emission == [] then s else ApplyAll(Apply(s, emission[0]), emission[1..])
  }

  function Settled(s: Slots, k: Key): Slots {
    s.(staged := s.staged - {k}, attached := s.attached - {k})
  }

  /** This emission's own fold wrote the pair on a span, before anything else
      took it and with no clearing after. */
  ghost predicate Delivers(emission: seq<Fold>, k: Key) {
    exists i :: 0 <= i < |emission| && emission[i] == Folded(k, true)
      && (forall j | 0 <= j < i :: emission[j] != Cleared && emission[j] != Folded(k, false))
      && (forall j | 0 <= j < |emission| :: emission[j] != Cleared)
  }

  lemma {:induction false} QuietFolds(s: Slots, emission: seq<Fold>)
    requires s.staged == map[]
    ensures var n := ApplyAll(s, emission);
      && n.staged == map[] && n.spans == s.spans
      && n.attached == (if Cleared in emission then {} else s.attached)
    decreases |emission|
  {
    if emission != [] {
      QuietFolds(Apply(s, emission[0]), emission[1..]);
      assert emission == [emission[0]] + emission[1..];
    }
  }

  lemma DeliversLater(emission: seq<Fold>, k: Key)
    requires emission != [] && emission[0] != Cleared
    requires forall traced :: emission[0] != Folded(k, traced)
    ensures Delivers(emission, k) <==> Delivers(emission[1..], k)
  {
    var rest := emission[1..];
    assert forall j | 0 <= j < |rest| :: rest[j] == emission[j + 1];
    assert forall j | 1 <= j < |emission| :: emission[j] == rest[j - 1];
    assert emission[0] != Folded(k, true) && emission[0] != Folded(k, false);
    if Delivers(rest, k) {
      var i :| 0 <= i < |rest| && rest[i] == Folded(k, true)
        && (forall j | 0 <= j < i :: rest[j] != Cleared && rest[j] != Folded(k, false))
        && (forall j | 0 <= j < |rest| :: rest[j] != Cleared);
      assert emission[i + 1] == Folded(k, true);
    }
    if Delivers(emission, k) {
      var i :| 0 <= i < |emission| && emission[i] == Folded(k, true)
        && (forall j | 0 <= j < i :: emission[j] != Cleared && emission[j] != Folded(k, false))
        && (forall j | 0 <= j < |emission| :: emission[j] != Cleared);
      assert rest[i - 1] == Folded(k, true);
    }
  }

  /** With one pair staged and nothing else, the emission leaves a mark for the
      settle to find exactly when it delivered the pair, and then the pair is on
      a span; and a settle afterwards leaves no slot and no mark at all. */
  lemma {:induction false} HandoffExactly(k: Key, content: Content, spans: seq<(Key, Content)>, emission: seq<Fold>)
    requires content != []
    ensures var n := ApplyAll(Slots(map[k := content], {}, spans), emission);
      && (k in n.attached <==> Delivers(emission, k))
      && (k in n.attached ==> n.spans == spans + [(k, content)])
      && Settled(n, k).staged == map[] && Settled(n, k).attached == {}
    decreases |emission|
  {
    var s := Slots(map[k := content], {}, spans);
    if emission != [] {
      var f, rest := emission[0], emission[1..];
      assert emission == [f] + rest;
      if f == Cleared {
        QuietFolds(Apply(s, f), rest);
        assert emission[0] == Cleared;
      } else if f.key == k {
        assert s.staged - {k} == map[];
        QuietFolds(Apply(s, f), rest);
        if f.traced {
          if Cleared !in rest {
            assert forall j | 0 <= j < |emission| :: emission[j] in emission;
            assert emission[0] == Folded(k, true);
          }
        } else {
          assert emission[0] == Folded(k, false);
        }
      } else {
        DeliversLater(emission, k);
        HandoffExactly(k, content, spans, rest);
      }
    }
  }

  class Telemetry {
    var slots: Slots
    var live: set<Session>
    var accepting: bool

    constructor ()
      ensures slots == Slots(map[], {}, []) && live == {} && accepting
    {
      slots, live, accepting := Slots(map[], {}, []), {}, true;
    }

    /** Taken only for a session that is live, and while events are accepted. */
    method Stage(session: Session, k: Key, content: Content) returns (taken: bool)
      modifies this`slots
      ensures taken <==> accepting && session in live
      ensures slots == if taken then old(slots).(staged := old(slots).staged[k := content]) else old(slots)
    {
      taken := accepting && session in live;
      if taken {
        slots := slots.(staged := slots.staged[k := content]);
      }
    }

    method Emit(emission: seq<Fold>)
      modifies this`slots
      ensures slots == ApplyAll(old(slots), emission)
    {
      ghost var before := slots;
      var i := 0;
      while i < |emission|
        invariant 0 <= i <= |emission|
        invariant ApplyAll(before, emission) == ApplyAll(slots, emission[i..])
      {
        assert emission[i..][1..] == emission[i + 1..];
        slots := Apply(slots, emission[i]);
        i := i + 1;
      }
      assert emission[i..] == [];
    }

    method Settle(k: Key) returns (attached: bool)
      modifies this`slots
      ensures attached <==> k in old(slots).attached
      ensures slots == Settled(old(slots), k)
    {
      attached := k in slots.attached;
      slots := slots.(staged := slots.staged - {k}, attached := slots.attached - {k});
    }

    method Discard(k: Key)
      modifies this`slots
      ensures slots == old(slots).(staged := old(slots).staged - {k})
      ensures k !in old(slots).staged ==> slots == old(slots)
    {
      slots := slots.(staged := slots.staged - {k});
      assert k !in old(slots).staged ==> slots.staged == old(slots).staged;
    }
  }
}
