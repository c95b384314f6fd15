/**
  Which name a conversation's rows are stored under. The conversation goes on
  speaking the names of the world it bound; the ledger and that world's watermark translate
  them. Agents have an identity here, so that "the same agent" can be said while names are
  freed, handed to strangers and renamed again.
*/
module Naming {
  import opened Wrappers
  import opened Worlds

  /** One rename folded into what a world calls its agents: every value equal to
      the old name becomes the new one, and the old name is made a key where it is none. */
  function Compose(moved: map<string, string>, r: Rename): map<string, string> {
    var onward := map k | k in moved :: if moved[k] == r.0 then r.1 else moved[k];
    if r.0 in moved then onward else onward[r.0 := r.1]
  }

  function ComposeAll(rs: seq<Rename>): map<string, string> {
    if rs == [] then map[] else Compose(ComposeAll(rs[..|rs| - 1]), rs[|rs| - 1])
  }

  function Resolve(moved: map<string, string>, name: string): string {
    if name in moved then moved[name] else name
  }

  /** A snapshot an apply has read and not installed yet. */
  datatype Candidate = Candidate(names: map<AgentId, string>, known: nat)

  datatype Desk = Desk(
    holder: Holder,
    stored: map<AgentId, string>,
    born: set<AgentId>,
    reading: Option<Candidate>)

  datatype Edit =
    | RenameAgent(agent: AgentId, becomes: string)
    | AddAgent(agent: AgentId, name: string)
    | DropAgent(agent: AgentId)
    | ReadStored
    | InstallRead(id: nat, providers: set<Provider>)
    | LetGo(held: set<World>)

  /** A rename's target must be free and not the name it already has; an added
      agent is a new one under a free name. A rename commits and publishes
      under one lock, which a read of the stored names takes as well, so each of the two
      is a single step here. */
  predicate Allowed(d: Desk, e: Edit) {
    match e
    case RenameAgent(a, n) => a in d.stored && n !in d.stored.Values
    case AddAgent(a, n) => a !in d.born && n !in d.stored.Values
    case DropAgent(a) => a in d.stored
    case ReadStored => true
    case InstallRead(id, ps) =>
      d.reading.Some? && World(id, ps, d.reading.value.names) !in Around(d.holder)
    case LetGo(_) => true
  }

  function Edited(d: Desk, e: Edit): Desk
    requires Allowed(d, e)
  {
    match e
    case RenameAgent(a, n) =>
      d.(holder := Publish(d.holder, d.stored[a], n), stored := d.stored[a := n])
    case AddAgent(a, n) => d.(stored := d.stored[a := n], born := d.born + {a})
    case DropAgent(a) => d.(stored := d.stored - {a})
    case ReadStored => d.(reading := Some(Candidate(d.stored, |d.holder.renames|)))
    case InstallRead(id, ps) =>
      var c := d.reading.value;
      d.(holder := Install(d.holder, World(id, ps, c.names), Some(c.known)), reading := None)
    case LetGo(held) => d.(holder := Disposed(d.holder, held))
  }

  function Opened(id: nat, providers: set<Provider>, stored: map<AgentId, string>): Desk {
    Desk(Boot(World(id, providers, stored)), stored, stored.Keys, None)
  }

  ghost predicate History(d: Desk, edits: seq<Edit>)
    decreases |edits|
  {
    edits == [] || (Allowed(d, edits[0]) && History(Edited(d, edits[0]), edits[1..]))
  }

  ghost function Later(d: Desk, edits: seq<Edit>): Desk
    requires History(d, edits)
    decreases |edits|
  {
    if edits == [] then d else Later(Edited(d, edits[0]), edits[1..])
  }

  ghost predicate OneNameEach(stored: map<AgentId, string>) {
    forall a, b | a in stored && b in stored && stored[a] == stored[b] :: a == b
  }

  /** Translating through the renames after `known` gives every agent still
      stored the name it is stored under. */
  ghost predicate Translates(d: Desk, names: map<AgentId, string>, known: nat) {
    && known <= |d.holder.renames|
    && forall a | a in names && a in d.stored ::
         Resolve(ComposeAll(d.holder.renames[known..]), names[a]) == d.stored[a]
  }

  ghost predicate Sound(d: Desk) {
    && WellFormed(d.holder)
    && OneNameEach(d.stored)
    && d.stored.Keys <= d.born
    && (forall w | w in Around(d.holder) ::
          w.names.Keys <= d.born && Translates(d, w.names, d.holder.known[w]))
    && (d.reading.Some? ==>
          && d.reading.value.names.Keys <= d.born
          && Translates(d, d.reading.value.names, d.reading.value.known))
  }

  /** One more rename moves exactly the agent it names, whoever else has been
      called that before. */
  lemma RenameTranslates(d: Desk, names: map<AgentId, string>, known: nat, a: AgentId, becomes: string)
    requires OneNameEach(d.stored) && Translates(d, names, known)
    requires a in d.stored && becomes !in d.stored.Values
    ensures Translates(Edited(d, RenameAgent(a, becomes)), names, known)
  {
    var n := Edited(d, RenameAgent(a, becomes));
    var r := (d.stored[a], becomes);
    var heard := d.holder.renames[known..];
    assert n.holder.renames[known..] == heard + [r];
    assert (heard + [r])[..|heard|] == heard;
    assert ComposeAll(heard + [r]) == Compose(ComposeAll(heard), r);
  }

  lemma EditedSound(d: Desk, e: Edit)
    requires Sound(d) && Allowed(d, e)
    ensures Sound(Edited(d, e))
  {
    var n := Edited(d, e);
    match e
    case RenameAgent(a, becomes) =>
      forall w | w in Around(d.holder) ensures Translates(n, w.names, d.holder.known[w]) {
        RenameTranslates(d, w.names, d.holder.known[w], a, becomes);
      }
      if d.reading.Some? {
        RenameTranslates(d, d.reading.value.names, d.reading.value.known, a, becomes);
      }
      assert Around(n.holder) == Around(d.holder);
      assert forall b | b in d.stored :: d.stored[b] in d.stored.Values;
    case AddAgent(a, name) =>
      assert forall b | b in d.stored :: d.stored[b] in d.stored.Values;
    case DropAgent(_) =>
    case ReadStored =>
      assert d.holder.renames[|d.holder.renames|..] == [];
    case InstallRead(id, ps) =>
      var w := World(id, ps, d.reading.value.names);
      InstallWellFormed(d.holder, w, Some(d.reading.value.known));
      forall v | v in Around(n.holder) ensures v == w || v in Around(d.holder) {
        assert Around(n.holder) == [w] + (d.holder.retired + [d.holder.current]);
      }
    case LetGo(held) =>
      DisposeSplits(d.holder, held);
  }

  lemma {:induction false} HistorySound(d: Desk, edits: seq<Edit>)
    requires Sound(d) && History(d, edits)
    ensures Sound(Later(d, edits))
    decreases |edits|
  {
    if edits != [] {
      EditedSound(d, edits[0]);
      HistorySound(Edited(d, edits[0]), edits[1..]);
    }
  }

  /** Over every history of renames, additions, removals, reads, applies and
      disposals: a world still around, given the rest of the ledger, names every
      agent it shares with the store as the store names it now. */
  lemma RowsFiledUnderCurrentNames(id: nat, providers: set<Provider>, stored: map<AgentId, string>, edits: seq<Edit>)
    requires OneNameEach(stored) && History(Opened(id, providers, stored), edits)
    ensures var d := Later(Opened(id, providers, stored), edits);
      && WellFormed(d.holder)
      && forall w, a | w in Around(d.holder) && a in w.names && a in d.stored ::
           Resolve(ComposeAll(RenamesFor(d.holder, w)), w.names[a]) == d.stored[a]
  {
    var d0 := Opened(id, providers, stored);
    assert Around(d0.holder) == [d0.holder.current];
    HistorySound(d0, edits);
  }

  /** Why the watermark is taken with the snapshot. A world stamped with the
      ledger's place at its install, after a rename younger than its snapshot,
      would never hear of that rename. */
  lemma StampedAtInstallMisfiles()
    ensures var before := map[0 := "a"];
      var d := Edited(Edited(Opened(0, {}, before), ReadStored), RenameAgent(0, "b"));
      var w := World(1, {}, before);
      var late := Install(d.holder, w, None);
      && d.stored[0] == "b"
      && RenamesFor(late, w) == []
      && Resolve(ComposeAll(RenamesFor(late, w)), w.names[0]) != d.stored[0]
  {
    var before: map<AgentId, string> := map[0 := "a"];
    assert "b" !in before.Values;
  }

  // A session seeded while a rename is being published

  /** Further renames folded into a map, one by one. */
  function Onto(moved: map<string, string>, rs: seq<Rename>): map<string, string> {
    if rs == [] then moved else Compose(Onto(moved, rs[..|rs| - 1]), rs[|rs| - 1])
  }

  /** A rename changes nothing exactly where its old name is a source already and no
      agent is called by it any longer. */
  lemma RepeatExactly(moved: map<string, string>, r: Rename)
    requires r.0 != r.1
    ensures Compose(moved, r) == moved <==> r.0 in moved && r.0 !in moved.Values
  {
    var more := Compose(moved, r);
    if r.0 in moved && r.0 in moved.Values {
      var k :| k in moved && moved[k] == r.0;
      assert more[k] == r.1;
    }
  }

  /** So the same rename heard again at once changes nothing. */
  lemma ComposeTwice(moved: map<string, string>, r: Rename)
    requires r.0 != r.1
    ensures Compose(Compose(moved, r), r) == Compose(moved, r)
  {
    RepeatExactly(Compose(moved, r), r);
  }

  lemma {:induction false} OntoJoin(moved: map<string, string>, a: seq<Rename>, b: seq<Rename>)
    ensures Onto(moved, a + b) == Onto(Onto(moved, a), b)
  {
    if b == [] {
      assert a + b == a;
    } else {
      var last := |b| - 1;
      assert (a + b)[..|a + b| - 1] == a + b[..last];
      OntoJoin(moved, a, b[..last]);
    }
  }

  lemma {:induction false} ComposedAreOnto(rs: seq<Rename>)
    ensures ComposeAll(rs) == Onto(map[], rs)
  {
    if rs != [] { ComposedAreOnto(rs[..|rs| - 1]); }
  }

  /** A rename is entered in the ledger first and marks the sessions recording after
      that. A session registered when `entered` of the renames unheard by its world
      were in the ledger, and `marked` of them had marked the sessions, is seeded with
      the former and marked by the rest of the latter. It ends with exactly the whole
      list, whichever moment that was: a rename caught between its two halves reaches it
      twice over and is applied once. */
  lemma RegisteredAtAnyMoment(unheard: seq<Rename>, entered: nat, marked: nat)
    requires marked <= entered <= |unheard| && entered <= marked + 1
    requires forall r | r in unheard :: r.0 != r.1
    ensures Onto(ComposeAll(unheard[..entered]), unheard[marked..]) == ComposeAll(unheard)
  {
    hide Compose, ComposeAll, Onto;
    var front, back := unheard[..entered], unheard[entered..];
    ComposedAreOnto(front);
    ComposedAreOnto(unheard);
    assert front + back == unheard;
    OntoJoin(map[], front, back);
    if marked < entered {
      var r := unheard[marked];
      assert front[..|front| - 1] == unheard[..marked] && front[|front| - 1] == r && r in unheard;
      ComposeLast(front);
      ComposeTwice(ComposeAll(unheard[..marked]), r);
      assert unheard[marked..] == [r] + back;
      OntoJoin(ComposeAll(front), [r], back);
      OntoOne(ComposeAll(front), r);
    }
  }

  lemma ComposeLast(rs: seq<Rename>)
    requires rs != []
    ensures ComposeAll(rs) == Compose(ComposeAll(rs[..|rs| - 1]), rs[|rs| - 1])
  {}

  lemma OntoOne(moved: map<string, string>, r: Rename)
    ensures Onto(moved, [r]) == Compose(moved, r)
  {
    hide Compose;
    assert [r][..0] == [];
    assert Onto(moved, [r][..0]) == moved;
  }

  /** Two renames behind it would not do: here the first of two, heard once more after
      the second, moves an agent that took the name it had freed. */
  lemma HeardLateMisfiles()
    ensures var unheard: seq<Rename> := [("a", "b"), ("c", "a")];
      && Resolve(ComposeAll(unheard), "c") == "a"
      && Resolve(Onto(ComposeAll(unheard), unheard), "c") == "b"
  {
    var first, second: Rename := ("a", "b"), ("c", "a");
    var unheard := [first, second];
    assert unheard[..1] == [first] && [first][..0] == [];
    assert ComposeAll([first]) == map["a" := "b"];
    assert ComposeAll(unheard) == map["a" := "b", "c" := "a"];
    var m := ComposeAll(unheard);
    assert Onto(m, [first]) == map["a" := "b", "c" := "b"];
    assert Onto(m, unheard) == Compose(Onto(m, [first]), second);
  }
}
