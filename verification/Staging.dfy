/**
  The export's three staging maps as one value: the rounds, each session's rounds,
  oldest first, and the request bytes each session holds.
*/
module Staging {
  import opened Wrappers
  import opened Seqs
  import opened Json
  import opened ContentSlots

  /** `text` and `calls` are what has been observed of the output so far. */
  datatype Round = Round(
    session: Session,
    invocation: Invocation,
    request: Content,
    size: nat,
    outputSize: nat,
    text: seq<Text>,
    calls: seq<Value>)

  /** A piece of a round's output, as it arrives. */
  datatype Event = Delta(text: Text) | Call(call: Value) | Other

  datatype Shelf = Shelf(
    rounds: map<Invocation, Round>,
    sessions: map<Session, seq<Invocation>>,
    held: map<Session, nat>)

  datatype Limits = Limits(content: nat, budget: nat, rounds: nat)

  const SYSTEM := "gen_ai.system_instructions"
  const INPUT := "gen_ai.input.messages"
  const TOOLS := "vinga.llm.tools"
  const CHOICE := "vinga.llm.tool_choice"
  const OUTPUT := "gen_ai.output.messages"

  /** The four attributes of a request, as they are rendered. */
  function Request(system: Text, turns: seq<Value>, tools: seq<Value>, choice: Text): Content {
    [(SYSTEM, Encoded(Arr([TextPart(system)]))), (INPUT, Encoded(Arr(turns))), (TOOLS, Encoded(Arr(tools))),
     (CHOICE, choice)]
  }

  /** The bytes of a set of attributes, or nothing where one cannot be encoded. */
  function AttributeBytes(attributes: Content): Option<nat> {
    if attributes == [] then Some(0)
    else
      var first, rest := Utf8Size(attributes[0].1), AttributeBytes(attributes[1..]);
      if first.None? || rest.None? then None else Some(first.value + rest.value)
  }

  function ListOf(s: Shelf, session: Session): seq<Invocation> {
    if session in s.sessions then s.sessions[session] else []
  }

  function HeldBy(s: Shelf, session: Session): nat {
    if session in s.held then s.held[session] else 0
  }

  function Entered(s: Shelf, r: Round): Shelf {
    Shelf(s.rounds[r.invocation := r],
          s.sessions[r.session := ListOf(s, r.session) + [r.invocation]],
          s.held[r.session := HeldBy(s, r.session) + r.size])
  }

  function Removed(s: Shelf, i: Invocation): Shelf
    requires i in s.rounds
  {
    var r := s.rounds[i];
    var order := Without(ListOf(s, r.session), i);
    var left := if HeldBy(s, r.session) <= r.size then 0 else HeldBy(s, r.session) - r.size;
    Shelf(s.rounds - {i},
          if order == [] then s.sessions - {r.session} else s.sessions[r.session := order],
          if left == 0 then s.held - {r.session} else s.held[r.session := left])
  }

  function Sum(order: seq<Invocation>, rounds: map<Invocation, Round>): nat {
    if order == [] then 0
    else (if order[0] in rounds then rounds[order[0]].size else 0) + Sum(order[1..], rounds)
  }

  ghost predicate SessionAgrees(s: Shelf, session: Session)
    requires session in s.sessions
  {
    var order := s.sessions[session];
    && order != [] && Distinct(order)
    && (forall i | i in order :: i in s.rounds && s.rounds[i].session == session)
    && session in s.held && s.held[session] == Sum(order, s.rounds)
  }

  /** The maps agree: a session's list holds exactly its staged rounds, without
      repeats, and its held bytes are the sum of their request sizes. */
  ghost predicate Agrees(s: Shelf) {
    && s.held.Keys == s.sessions.Keys
    && (forall k | k in s.sessions :: SessionAgrees(s, k))
    && (forall i | i in s.rounds ::
          && s.rounds[i].invocation == i && s.rounds[i].size > 0
          && s.rounds[i].session in s.sessions && i in s.sessions[s.rounds[i].session])
  }

  lemma {:induction false} WithoutFacts(order: seq<Invocation>, i: Invocation, rounds: map<Invocation, Round>)
    requires Distinct(order) && i in order && i in rounds
    ensures var w := Without(order, i);
      && Distinct(w) && |w| == |order| - 1
      && (forall x :: x in w <==> x in order && x != i)
      && Sum(w, rounds) + rounds[i].size == Sum(order, rounds)
  {
    hide Distinct;
    WithoutMembers(order, i);
    WithoutDistinct(order, i);
    var rest := order[1..];
    assert order == [order[0]] + rest;
    DistinctFirst(order[0], rest);
    if order[0] != i {
      WithoutFacts(rest, i, rounds);
      assert Without(order, i)[1..] == Without(rest, i);
    } else {
      WithoutAbsent(rest, i);
      assert Without(order, i) == rest;
    }
  }

  lemma {:induction false} SumSame(order: seq<Invocation>, a: map<Invocation, Round>, b: map<Invocation, Round>)
    requires forall i | i in order :: (i in a <==> i in b) && (i in a ==> a[i].size == b[i].size)
    ensures Sum(order, a) == Sum(order, b)
  {
    if order != [] {
      assert order[0] in order;
      assert forall i | i in order[1..] :: i in order;
      SumSame(order[1..], a, b);
    }
  }

  lemma {:induction false} SumJoin(a: seq<Invocation>, b: seq<Invocation>, rounds: map<Invocation, Round>)
    ensures Sum(a + b, rounds) == Sum(a, rounds) + Sum(b, rounds)
  {
    if a == [] {
      assert a + b == b;
    } else {
      assert (a + b)[1..] == a[1..] + b;
      SumJoin(a[1..], b, rounds);
    }
  }

  lemma {:induction false} SumPositive(order: seq<Invocation>, rounds: map<Invocation, Round>)
    requires forall i | i in order :: i in rounds && rounds[i].size > 0
    ensures Sum(order, rounds) == 0 <==> order == []
  {
    if order != [] { assert order[0] in order; }
  }

  lemma EnterAgrees(s: Shelf, r: Round)
    requires Agrees(s) && r.invocation !in s.rounds && r.size > 0
    ensures Agrees(Entered(s, r))
    ensures HeldBy(Entered(s, r), r.session) == Sum(ListOf(s, r.session) + [r.invocation], Entered(s, r).rounds)
  {
    var n := Entered(s, r);
    EnterOwn(s, r);
    forall k | k in n.sessions ensures SessionAgrees(n, k) {
      if k != r.session {
        assert SessionAgrees(s, k);
        SumSame(s.sessions[k], s.rounds, n.rounds);
      }
    }
  }

  lemma EnterOwn(s: Shelf, r: Round)
    requires Agrees(s) && r.invocation !in s.rounds && r.size > 0
    ensures var n := Entered(s, r);
      && SessionAgrees(n, r.session)
      && HeldBy(n, r.session) == Sum(ListOf(s, r.session) + [r.invocation], n.rounds)
  {
    var n := Entered(s, r);
    var order := ListOf(s, r.session);
    assert r.session in s.sessions ==> SessionAgrees(s, r.session);
    assert r.invocation !in order;
    SumSame(order, s.rounds, n.rounds);
    SumJoin(order, [r.invocation], n.rounds);
  }

  lemma RemoveOwn(s: Shelf, i: Invocation)
    requires Agrees(s) && i in s.rounds
    ensures var n, session := Removed(s, i), s.rounds[i].session;
      && ListOf(n, session) == Without(ListOf(s, session), i)
      && HeldBy(n, session) + s.rounds[i].size == HeldBy(s, session)
      && (session in n.sessions <==> session in n.held)
      && (session in n.sessions ==> SessionAgrees(n, session))
      && forall x | x in ListOf(s, session) && x != i :: session in n.sessions && x in n.sessions[session]
  {
    var n, session := Removed(s, i), s.rounds[i].session;
    assert SessionAgrees(s, session);
    var order, w := s.sessions[session], Without(s.sessions[session], i);
    WithoutFacts(order, i, s.rounds);
    SumSame(w, s.rounds, n.rounds);
    SumPositive(w, s.rounds);
  }

  lemma RemoveOther(s: Shelf, i: Invocation, k: Session)
    requires Agrees(s) && i in s.rounds && k in s.sessions && k != s.rounds[i].session
    ensures k in Removed(s, i).sessions && SessionAgrees(Removed(s, i), k)
  {
    var n := Removed(s, i);
    assert SessionAgrees(s, k);
    forall x | x in s.sessions[k] ensures x != i {}
    SumSame(s.sessions[k], s.rounds, n.rounds);
  }

  /** Taking one round out of all three maps leaves them agreeing, and moves
      nothing of any other session. */
  lemma RemoveAgrees(s: Shelf, i: Invocation)
    requires Agrees(s) && i in s.rounds
    ensures Agrees(Removed(s, i))
    ensures var n, session := Removed(s, i), s.rounds[i].session;
      && ListOf(n, session) == Without(ListOf(s, session), i)
      && HeldBy(n, session) + s.rounds[i].size == HeldBy(s, session)
      && (forall k | k != session :: ListOf(n, k) == ListOf(s, k) && HeldBy(n, k) == HeldBy(s, k))
  {
    var n, session := Removed(s, i), s.rounds[i].session;
    RemoveOwn(s, i);
    forall k | k in n.sessions ensures SessionAgrees(n, k) {
      if k != session { RemoveOther(s, i, k); }
    }
    forall x | x in n.rounds
      ensures n.rounds[x].session in n.sessions && x in n.sessions[n.rounds[x].session]
    {
      assert x in s.sessions[s.rounds[x].session];
    }
  }

  /** A list of rounds a session may hold at once. */
  predicate Fits(order: seq<Invocation>, rounds: map<Invocation, Round>, limits: Limits) {
    Sum(order, rounds) <= limits.budget && |order| <= limits.rounds
  }

  ghost predicate Bounded(s: Shelf, limits: Limits) {
    forall k | k in s.sessions :: Fits(s.sessions[k], s.rounds, limits)
  }

  /** What has been observed of a round is charged exactly, and never past the
      ceiling. */
  ghost predicate Charged(r: Round, limits: Limits) {
    && AttributeBytes(r.request) == Some(r.size)
    && r.outputSize == TextBytes(r.text) + CallBytes(r.calls)
    && r.size + r.outputSize <= limits.content
    && (forall t | t in r.text :: WellFormed(t))
    && (forall c | c in r.calls :: Spelled(c))
  }

  lemma {:induction false} AttributeJoin(a: Content, b: Attribute)
    ensures var was, more := AttributeBytes(a), Utf8Size(b.1);
      AttributeBytes(a + [b]) == if was.None? || more.None? then None else Some(was.value + more.value)
  {
    if a == [] {
      assert a + [b] == [b];
      assert [b][1..] == [];
    } else {
      assert (a + [b])[1..] == a[1..] + [b];
      AttributeJoin(a[1..], b);
    }
  }

  /** A rendered request is never empty, so a session holds no bytes exactly when it holds
      no round. */
  lemma RequestPositive(system: Text, turns: seq<Value>, tools: seq<Value>, choice: Text)
    requires AttributeBytes(Request(system, turns, tools, choice)).Some?
    ensures AttributeBytes(Request(system, turns, tools, choice)).value > 0
  {
    var v := Arr([TextPart(system)]);
    var ascii := !WellFormed(Render(v, false));
    Bracketed(91, RenderItems([TextPart(system)], ascii), 93);
    assert Encoded(v) == [91] + RenderItems([TextPart(system)], ascii) + [93];
  }
}
