/**
  The worlds a server serves, which of them wait to be let go of, and what each has not
  heard of the rename ledger. A `World` stands for one `Generation` object, and `id` for
  its identity, by which the source compares; a provider is its identity likewise.
*/
module Worlds {
  import opened Wrappers
  import opened Seqs

  type Provider = nat
  type AgentId = nat
  type Rename = (string, string)

  /** `names` is what this world's configuration calls each agent. */
  datatype World = World(id: nat, providers: set<Provider>, names: map<AgentId, string>)

  /** What the holder holds, as a value. */
  datatype Holder = Holder(
    current: World,
    retired: seq<World>,
    known: map<World, nat>,
    renames: seq<Rename>,
    settled: nat,
    applying: bool)

  function Boot(first: World): Holder {
    Holder(first, [], map[first := 0], [], 0, false)
  }

  /** The worlds of `ws` that are in `held`, or those that are not, in order. */
  function Select(ws: seq<World>, held: set<World>, keep: bool): seq<World> {
    if ws == [] then []
    else (if (ws[0] in held) == keep then [ws[0]] else []) + Select(ws[1..], held, keep)
  }

  function ProvidersOf(ws: seq<World>): set<Provider> {
    set w, p | w in ws && p in w.providers :: p
  }

  /** Every world still around: the one being served and the ones retired. */
  function Around(h: Holder): seq<World> {
    [h.current] + h.retired
  }

  function Install(h: Holder, w: World, known: Option<nat>): Holder {
    h.(current := w,
       retired := h.retired + [h.current],
       known := h.known[w := match known case None => |h.renames| case Some(k) => k])
  }

  function Publish(h: Holder, was: string, becomes: string): Holder {
    h.(renames := h.renames + [(was, becomes)])
  }

  function BeginApply(h: Holder): Holder {
    h.(applying := true)
  }

  function EndApply(h: Holder): Holder {
    h.(settled := h.settled + 1, applying := false)
  }

  function Mark(h: Holder): Option<nat> {
    if h.applying then None else Some(h.settled)
  }

  function LettingGo(h: Holder, held: set<World>): seq<World> {
    Select(h.retired, held, false)
  }

  /** The holder once every retired world outside `held` has been let go of. */
  function Disposed(h: Holder, held: set<World>): Holder {
    h.(retired := Select(h.retired, held, true),
       known := map w | w in h.known && w !in LettingGo(h, held) :: h.known[w])
  }

  /** The engines of the worlds let go of that no other world around uses. */
  function LastHeldBy(h: Holder, held: set<World>): set<Provider> {
    ProvidersOf(LettingGo(h, held)) - ProvidersOf(Around(Disposed(h, held)))
  }

  /** The part of the ledger a world's snapshot does not reflect. */
  function RenamesFor(h: Holder, w: World): seq<Rename>
    requires w in h.known ==> h.known[w] <= |h.renames|
  {
    h.renames[if w in h.known then h.known[w] else 0..]
  }

  lemma DistinctJoin<T>(a: seq<T>, b: seq<T>)
    requires Distinct(a) && Distinct(b) && Elements(a) !! Elements(b)
    ensures Distinct(a + b) && Elements(a + b) == Elements(a) + Elements(b)
  {
    assert forall i | 0 <= i < |a| :: a[i] in Elements(a);
    assert forall i | 0 <= i < |b| :: b[i] in Elements(b);
  }

  /** What every holder keeps: no world is listed twice, and the watermark map
      knows exactly the worlds that are around, none of them ahead of the ledger. */
  ghost predicate WellFormed(h: Holder) {
    && Distinct(Around(h))
    && (forall w :: w in h.known <==> w in Around(h))
    && (forall w | w in h.known :: h.known[w] <= |h.renames|)
  }

  lemma {:induction false} SelectMembers(ws: seq<World>, held: set<World>, keep: bool)
    ensures forall w :: w in Select(ws, held, keep) <==> w in ws && (w in held) == keep
  {
    if ws != [] {
      SelectMembers(ws[1..], held, keep);
      assert ws == [ws[0]] + ws[1..];
    }
  }

  lemma {:induction false} SelectDistinct(ws: seq<World>, held: set<World>, keep: bool)
    requires Distinct(ws)
    ensures Distinct(Select(ws, held, keep))
  {
    if ws != [] {
      assert forall i, j | 0 <= i < j < |ws[1..]| :: ws[1..][i] == ws[i + 1] && ws[1..][j] == ws[j + 1];
      SelectDistinct(ws[1..], held, keep);
      SelectMembers(ws[1..], held, keep);
    }
  }

  /** Retirement splits the retired worlds in two and touches nothing else:
      what is let go of, and what is still held, and no world is in both. */
  lemma {:induction false} DisposeSplits(h: Holder, held: set<World>)
    requires WellFormed(h)
    ensures WellFormed(Disposed(h, held))
    ensures forall w :: w in h.retired <==> w in LettingGo(h, held) || w in Disposed(h, held).retired
    ensures forall w | w in LettingGo(h, held) :: w !in held && w !in Around(Disposed(h, held))
    ensures forall w :: w in Disposed(h, held).retired <==> w in h.retired && w in held
    ensures ProvidersOf(Around(h)) == ProvidersOf(Around(Disposed(h, held))) + LastHeldBy(h, held)
    ensures ProvidersOf(Around(Disposed(h, held))) !! LastHeldBy(h, held)
  {
    var d := Disposed(h, held);
    SelectMembers(h.retired, held, true);
    SelectMembers(h.retired, held, false);
    assert Distinct(h.retired) by {
      assert forall i | 0 <= i < |h.retired| :: h.retired[i] == Around(h)[i + 1];
    }
    SelectDistinct(h.retired, held, true);
    assert h.current !in h.retired by {
      assert Around(h)[0] == h.current;
      assert forall i | 0 <= i < |h.retired| :: h.retired[i] == Around(h)[i + 1];
    }
    assert forall w :: w in Around(h) <==> w == h.current || w in h.retired;
    assert forall w :: w in Around(d) <==> w == h.current || w in d.retired;
  }

  lemma NonemptyHasMember(s: seq<World>)
    ensures s != [] ==> exists x :: x in s
  {
    if s != [] { assert s[0] in s; }
  }

  /** With nothing held, only the current world stays. */
  lemma DisposeAll(h: Holder)
    requires WellFormed(h)
    ensures Disposed(h, {}).retired == []
    ensures ProvidersOf(Around(h)) == h.current.providers + LastHeldBy(h, {})
    ensures h.current.providers !! LastHeldBy(h, {})
  {
    DisposeSplits(h, {});
    SelectMembers(h.retired, {}, true);
    var d := Disposed(h, {});
    NonemptyHasMember(d.retired);
    assert Around(d) == [h.current];
    assert ProvidersOf(Around(d)) == h.current.providers;
  }

  lemma InstallWellFormed(h: Holder, w: World, known: Option<nat>)
    requires WellFormed(h) && w !in Around(h)
    requires known.Some? ==> known.value <= |h.renames|
    ensures WellFormed(Install(h, w, known))
    ensures ProvidersOf(Around(Install(h, w, known))) == ProvidersOf(Around(h)) + w.providers
  {
    var n := Install(h, w, known);
    assert forall v :: v in Around(n) <==> v == w || v in Around(h) by {
      assert Around(n) == [w] + (h.retired + [h.current]);
    }
    assert Distinct(Around(n)) by {
      forall i, j | 0 <= i < j < |Around(n)| ensures Around(n)[i] != Around(n)[j] {
        if i > 0 && j < |Around(n)| - 1 {
          assert Around(n)[i] == Around(h)[i] && Around(n)[j] == Around(h)[j];
        } else if i > 0 {
          assert Around(n)[i] == Around(h)[i] && Around(n)[j] == Around(h)[0];
        } else {
          assert Around(n)[j] in Around(h) by {
            assert Around(n)[j] == if j < |Around(n)| - 1 then Around(h)[j] else Around(h)[0];
          }
        }
      }
    }
  }

  /** The holder itself: the fields an apply and a disposal update in place. */
  class Generations {
    var current: World
    var retired: seq<World>
    var known: map<World, nat>
    var renames: seq<Rename>
    var settled: nat
    var applying: bool

    function View(): Holder
      reads this
    {
      Holder(current, retired, known, renames, settled, applying)
    }

    constructor (first: World)
      ensures View() == Boot(first) && WellFormed(View())
    {
      current, retired, known := first, [], map[first := 0];
      renames, settled, applying := [], 0, false;
    }

    method Renamed(was: string, becomes: string)
      modifies this`renames
      ensures View() == Publish(old(View()), was, becomes)
    {
      renames := renames + [(was, becomes)];
    }

    method Watermark() returns (stands: nat)
      ensures stands == |renames|
    {
      stands := |renames|;
    }

    /** A world never stamped here is answered with the whole ledger. */
    method RenamesForWorld(w: World) returns (unheard: seq<Rename>)
      requires WellFormed(View())
      ensures unheard == RenamesFor(View(), w)
      ensures w !in Around(View()) ==> unheard == renames
    {
      unheard := renames[if w in known then known[w] else 0..];
    }

    method EnterApply()
      modifies this`applying
      ensures View() == BeginApply(old(View())) && Mark(View()) == None
    {
      applying := true;
    }

    method InstallWorld(w: World, at: Option<nat>)
      requires WellFormed(View()) && w !in Around(View())
      requires at.Some? ==> at.value <= |renames|
      modifies this
      ensures View() == Install(old(View()), w, at) && WellFormed(View())
    {
      InstallWellFormed(View(), w, at);
      known := known[w := match at case None => |renames| case Some(k) => k];
      retired := retired + [current];
      current := w;
    }

    method LeaveApply()
      modifies this`settled, this`applying
      ensures View() == EndApply(old(View()))
    {
      settled := settled + 1;
      applying := false;
    }

    /** The synchronous half of a disposal: everything up to the first await.
        `closing` is what it then hands to the closer, each engine once. */
    method Dispose(held: seq<World>) returns (closing: seq<Provider>)
      requires WellFormed(View())
      modifies this`retired, this`known
      ensures View() == Disposed(old(View()), Elements(held)) && WellFormed(View())
      ensures Distinct(closing)
      ensures Elements(closing) == LastHeldBy(old(View()), Elements(held))
    {
      ghost var before := View();
      var keeping := Elements(held);
      DisposeSplits(View(), keeping);
      hide WellFormed, Distinct, ProvidersOf, Around, Elements, Select;
      var lettingGo := Select(retired, keeping, false);
      retired := Select(retired, keeping, true);
      Forget(lettingGo);
      closing := LastOwned(lettingGo);
    }

    method Forget(lettingGo: seq<World>)
      modifies this`known
      ensures known == map w | w in old(known) && w !in lettingGo :: old(known)[w]
    {
      var i := 0;
      while i < |lettingGo|
        invariant 0 <= i <= |lettingGo|
        invariant known == map w | w in old(known) && w !in lettingGo[..i] :: old(known)[w]
      {
        known := known - {lettingGo[i]};
        assert lettingGo[..i + 1] == lettingGo[..i] + [lettingGo[i]];
        i := i + 1;
      }
      assert lettingGo[..i] == lettingGo;
    }

    /** What the given worlds use and neither the current nor a retired one does, without
        repeats. */
    method LastOwned(retiring: seq<World>) returns (owned: seq<Provider>)
      ensures Distinct(owned)
      ensures Elements(owned) == ProvidersOf(retiring) - ProvidersOf(Around(View()))
    {
      var kept := ProvidersOf([current] + retired);
      owned := [];
      var i := 0;
      while i < |retiring|
        invariant 0 <= i <= |retiring|
        invariant Distinct(owned)
        invariant Elements(owned) == ProvidersOf(retiring[..i]) - kept
      {
        var more := AddMissing(owned, retiring[i].providers - kept);
        assert retiring[..i + 1] == retiring[..i] + [retiring[i]];
        assert ProvidersOf(retiring[..i + 1]) == ProvidersOf(retiring[..i]) + retiring[i].providers;
        assert ProvidersOf(retiring[..i]) - kept + (retiring[i].providers - kept)
            == ProvidersOf(retiring[..i + 1]) - kept;
        owned := more;
        i := i + 1;
      }
      assert retiring[..i] == retiring;
    }

    /** End of the process: everything goes, held or not. What is handed to the
        closer is the retired worlds' engines first, then the current world's. */
    method Aclose() returns (retiredClosing: seq<Provider>, currentClosing: seq<Provider>)
      requires WellFormed(View())
      modifies this`retired, this`known
      ensures View() == Disposed(old(View()), {}) && WellFormed(View()) && retired == []
      ensures Distinct(retiredClosing + currentClosing)
      ensures Elements(retiredClosing + currentClosing) == ProvidersOf(Around(old(View())))
    {
      DisposeAll(View());
      assert Elements<World>([]) == {};
      retiredClosing := Dispose([]);
      currentClosing := AddMissing([], current.providers);
      DistinctJoin(retiredClosing, currentClosing);
    }
  }

  method AddMissing(have: seq<Provider>, more: set<Provider>) returns (all: seq<Provider>)
    requires Distinct(have)
    ensures Distinct(all)
    ensures Elements(all) == Elements(have) + more
  {
    all := have;
    var left := more;
    while left != {}
      invariant Distinct(all) && left <= more
      invariant Elements(all) == Elements(have) + (more - left)
      decreases left
    {
      var p :| p in left;
      left := left - {p};
      if p !in all {
        assert p !in Elements(all);
        assert Elements(all + [p]) == Elements(all) + {p};
        all := all + [p];
      }
      assert more - left == more - (left + {p}) + {p};
      assert p in Elements(all);
    }
  }
}
