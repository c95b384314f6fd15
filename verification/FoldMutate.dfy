/**
  A fold's steps on the disk, each of which may fail; a failed write may leave any
  content behind.
*/
module FoldMutate {
  import opened Wrappers
  import opened Seqs

  /** What the fold reports when it does not get through. */
  datatype Refusal = CannotWrite | CannotRemove | NotRestored

  /** What a step that failed was for. */
  datatype Phase = Staging | Removing | Renaming | Restoring | Tidying

  datatype File = File(content: string, mode: nat)

  function First(broke: Option<Phase>, phase: Phase): Option<Phase> {
    if broke == None then Some(phase) else broke
  }

  /** The files `paths` name, gone. */
  function WithoutPaths(files: map<string, File>, paths: seq<string>): map<string, File> {
    map path | path in files && path !in paths :: files[path]
  }

  /** What the sources say is what the fragments held when they were read. */
  ghost predicate ReadFrom(sources: map<string, string>, files: map<string, File>) {
    forall path | path in sources && path in files :: files[path].content == sources[path]
  }

  ghost predicate Recorded(modes: map<string, nat>, files: map<string, File>, paths: seq<string>) {
    forall path | path in paths :: path in files && path in modes && modes[path] == files[path].mode
  }

  class Tree {
    var changelog: File
    var fragments: map<string, File>
    var staged: Option<File>

    /** How many steps have failed. */
    var faults: nat

    // What the first failure was of, whether a fragment could not be put back, and whether a
    // staged file could not be removed.
    ghost var broke: Option<Phase>
    ghost var unrestored: bool
    ghost var untidy: bool

    constructor (changelog: File, fragments: map<string, File>)
      ensures this.changelog == changelog && this.fragments == fragments && staged == None && faults == 0
      ensures broke == None && !unrestored && !untidy
    {
      this.changelog, this.fragments, staged, faults := changelog, fragments, None, 0;
      broke, unrestored, untidy := None, false, false;
    }

    /** Any step may fail. */
    method Step(ghost phase: Phase) returns (ok: bool)
      modifies this`faults, this`broke, this`unrestored, this`untidy
      ensures untidy == (old(untidy) || (!ok && phase == Tidying))
      ensures faults == if ok then old(faults) else old(faults) + 1
      ensures broke == if ok then old(broke) else First(old(broke), phase)
      ensures unrestored == (old(unrestored) || (!ok && phase == Restoring))
    {
      ok := *;
      if !ok {
        faults := faults + 1;
        broke := First(broke, phase);
        unrestored := unrestored || phase == Restoring;
        untidy := untidy || phase == Tidying;
      }
    }

    /** A file of its own for the new text, given the mode of the changelog. */
    method Stage(after: string) returns (ok: bool)
      modifies this`staged, this`faults, this`broke, this`unrestored, this`untidy
      ensures ok ==> staged == Some(File(after, changelog.mode))
      ensures ok <==> faults == old(faults)
      ensures faults >= old(faults)
      ensures broke == (if ok then old(broke) else First(old(broke), Staging)) && unrestored == old(unrestored)
      ensures ok ==> untidy == old(untidy)
      ensures !ok ==> staged == None || untidy || staged == old(staged)
    {
      ok := Step(Staging);
      if !ok { return; }
      var torn: string := *;
      ok := Step(Staging);
      staged := Some(File(if ok then after else torn, 0x180));
      if ok {
        ok := Step(Staging);
        if ok { staged := Some(File(after, changelog.mode)); }
      }
      if !ok { Discard(); }
    }

    /** A staged file is removed if it can be, and nothing is said if it cannot. */
    method Discard()
      modifies this`staged, this`faults, this`broke, this`unrestored, this`untidy
      ensures faults >= old(faults)
      ensures (broke == old(broke) || broke == First(old(broke), Tidying)) && unrestored == old(unrestored)
      ensures staged == None || (untidy && staged == old(staged))
    {
      var removed := Step(Tidying);
      if removed { staged := None; }
    }

    method StatMode(path: string) returns (mode: Option<nat>)
      modifies this`faults, this`broke, this`unrestored, this`untidy
      ensures mode.Some? ==> path in fragments && mode.value == fragments[path].mode
      ensures faults >= old(faults) && (path in fragments ==> (mode.Some? <==> faults == old(faults)))
      ensures broke == (if mode.Some? then old(broke) else First(old(broke), Removing))
      ensures unrestored == old(unrestored) && untidy == old(untidy)
    {
      var ok := Step(Removing);
      mode := if ok && path in fragments then Some(fragments[path].mode) else None;
      if mode == None { broke := First(broke, Removing); }
    }

    method Unlink(path: string) returns (ok: bool)
      modifies this`fragments, this`faults, this`broke, this`unrestored, this`untidy
      ensures ok ==> path in old(fragments) && fragments == old(fragments) - {path}
      ensures !ok ==> fragments == old(fragments)
      ensures faults >= old(faults) && (path in old(fragments) ==> (ok <==> faults == old(faults)))
      ensures broke == (if ok then old(broke) else First(old(broke), Removing)) && unrestored == old(unrestored)
      ensures untidy == old(untidy)
    {
      ok := Step(Removing);
      ok := ok && path in fragments;
      if !ok { broke := First(broke, Removing); }
      if ok { fragments := fragments - {path}; }
    }

    /** All of the staged file takes the changelog's place, or none of it. */
    method Replace() returns (ok: bool)
      requires staged.Some?
      modifies this`changelog, this`staged, this`faults, this`broke, this`unrestored, this`untidy
      ensures ok ==> changelog == old(staged).value && staged == None
      ensures !ok ==> changelog == old(changelog) && staged == old(staged)
      ensures ok <==> faults == old(faults)
      ensures faults >= old(faults)
      ensures broke == (if ok then old(broke) else First(old(broke), Renaming)) && unrestored == old(unrestored)
      ensures untidy == old(untidy)
    {
      ok := Step(Renaming);
      if ok { changelog, staged := staged.value, None; }
    }

    /** A fragment written again, content and mode. A failure may come before the file
        is there, in the middle of its content, or before its mode is set. */
    method PutBack(path: string, content: string, mode: nat) returns (ok: bool)
      modifies this`fragments, this`faults, this`broke, this`unrestored, this`untidy
      ensures ok ==> fragments == old(fragments)[path := File(content, mode)]
      ensures WithoutPaths(fragments, [path]) == WithoutPaths(old(fragments), [path])
      ensures ok <==> faults == old(faults)
      ensures faults >= old(faults)
      ensures broke == (if ok then old(broke) else First(old(broke), Restoring))
      ensures unrestored == (old(unrestored) || !ok) && untidy == old(untidy)
    {
      ok := Step(Restoring);
      if !ok { return; }
      var torn: string, given: nat := *, *;
      ok := Step(Restoring);
      fragments := fragments[path := File(if ok then content else torn, given)];
      if ok {
        ok := Step(Restoring);
        if ok { fragments := fragments[path := File(content, mode)]; }
      }
    }

    /** Undoes the removals, first to last. `was` is the fragments as they stood before
        any of them. */
    method Restore(removed: seq<string>, sources: map<string, string>, modes: map<string, nat>, reason: Refusal,
                   ghost was: map<string, File>)
      returns (reasons: seq<Refusal>)
      requires fragments == WithoutPaths(was, removed) && Distinct(removed) && reason != NotRestored
      requires ReadFrom(sources, was) && Recorded(modes, was, removed)
      requires forall path | path in removed :: path in sources
      requires broke.Some? && !unrestored
      modifies this`fragments, this`faults, this`broke, this`unrestored, this`untidy
      ensures broke == old(broke) && (NotRestored in reasons <==> unrestored) && untidy == old(untidy)
      ensures reasons == if faults == old(faults) then [reason] else [reason, NotRestored]
      ensures faults >= old(faults)
      ensures reasons == [reason] ==> fragments == was
      ensures WithoutPaths(fragments, removed) == WithoutPaths(was, removed)
    {
      WithoutNone(was, removed);
      for i := 0 to |removed|
        invariant fragments == WithoutPaths(was, removed[i..]) && faults == old(faults)
        invariant broke == old(broke) && !unrestored && untidy == old(untidy)
        invariant WithoutPaths(fragments, removed) == WithoutPaths(was, removed)
      {
        ghost var before := fragments;
        var path := removed[i];
        var ok := PutBack(path, sources[path], modes[path]);
        WithoutMore(before, fragments, path, removed);
        if !ok { return [reason, NotRestored]; }
        BackAgain(was, removed, i);
        assert File(sources[path], modes[path]) == was[path];
      }
      assert removed[|removed|..] == [];
      return [reason];
    }

    /** Stage, then remove the fragments, then rename. The list of reasons is empty
        exactly when nothing failed, and then the tree is in its new state. Any other list
        starts with what the first failure was of, and ends by saying so where a fragment
        could not be put back; the changelog is the old one then, and but for that every
        fragment is the old one too, content and mode. No staged file stays behind, unless it
        could not be removed, and files the fold did not read are never touched. */
    method Mutate(after: string, paths: seq<string>, sources: map<string, string>) returns (reasons: seq<Refusal>)
      requires Distinct(paths) && (forall path :: path in paths <==> path in sources)
      requires ReadFrom(sources, fragments) && staged == None && broke == None && !unrestored && !untidy
      modifies this
      ensures faults >= old(faults)
      ensures reasons == [] <==> broke == None
      ensures reasons != [] ==> broke.value in {Staging, Removing, Renaming}
      ensures reasons != [] ==> reasons[0] == if broke == Some(Removing) then CannotRemove else CannotWrite
      ensures NotRestored in reasons <==> unrestored
      ensures staged == None || untidy
      ensures (forall path | path in paths :: path in old(fragments)) ==> (reasons == [] <==> faults == old(faults))
      ensures reasons == [] ==>
        && changelog == File(after, old(changelog).mode) && staged == None
        && fragments == WithoutPaths(old(fragments), paths)
      ensures reasons == [] ==> forall path | path in paths :: path in old(fragments)
      ensures reasons != [] ==> changelog == old(changelog)
      ensures reasons != [] && NotRestored !in reasons ==> fragments == old(fragments)
      ensures WithoutPaths(fragments, paths) == WithoutPaths(old(fragments), paths)
      ensures reasons in {[], [CannotWrite], [CannotRemove], [CannotWrite, NotRestored], [CannotRemove, NotRestored]}
    {
      ghost var was := fragments;
      hide Distinct;
      var staging := Stage(after);
      if !staging { return [CannotWrite]; }
      var removed, modes := RemoveEach(paths);
      PrefixDistinct(paths, removed);
      if |removed| < |paths| {
        Discard();
        reasons := Restore(removed, sources, modes, CannotRemove, was);
        RestOfThem(fragments, was, paths, |removed|);
        return;
      }
      assert removed == paths;
      var renamed := Replace();
      if !renamed {
        Discard();
        reasons := Restore(removed, sources, modes, CannotWrite, was);
        return;
      }
      WithoutTwice(was, paths);
      return [];
    }

    /** The fragments removed one after another, up to the first that cannot be. */
    method RemoveEach(paths: seq<string>) returns (removed: seq<string>, modes: map<string, nat>)
      requires Distinct(paths) && broke == None && !unrestored
      modifies this`fragments, this`faults, this`broke, this`unrestored, this`untidy
      ensures removed <= paths && !unrestored && untidy == old(untidy)
      ensures broke == if removed == paths then None else Some(Removing)
      ensures fragments == WithoutPaths(old(fragments), removed) && Recorded(modes, old(fragments), removed)
      ensures faults >= old(faults)
      ensures (forall path | path in paths :: path in old(fragments)) ==> (removed == paths <==> faults == old(faults))
    {
      ghost var was := fragments;
      removed, modes := [], map[];
      for i := 0 to |paths|
        invariant removed == paths[..i] && broke == None && !unrestored && untidy == old(untidy)
        invariant faults >= old(faults) && ((forall path | path in paths :: path in was) ==> faults == old(faults))
        invariant fragments == WithoutPaths(was, removed) && Recorded(modes, was, removed)
      {
        var path := paths[i];
        assert path !in removed;
        var mode := StatMode(path);
        var gone := false;
        if mode.Some? {
          modes := modes[path := mode.value];
          gone := Unlink(path);
        }
        if !gone { return; }
        removed := removed + [path];
        assert fragments == WithoutPaths(was, removed);
      }
      assert removed == paths;
    }
  }

  lemma PrefixDistinct(paths: seq<string>, removed: seq<string>)
    requires Distinct(paths) && removed <= paths
    ensures Distinct(removed) && paths[..|removed|] == removed && (|removed| == |paths| ==> removed == paths)
  {}

  lemma WithoutNone(files: map<string, File>, paths: seq<string>)
    ensures WithoutPaths(WithoutPaths(files, paths), paths) == WithoutPaths(files, paths)
    ensures paths[0..] == paths
  {}

  lemma WithoutTwice(files: map<string, File>, paths: seq<string>)
    ensures WithoutPaths(WithoutPaths(files, paths), paths) == WithoutPaths(files, paths)
  {}

  lemma WithoutMore(a: map<string, File>, b: map<string, File>, path: string, paths: seq<string>)
    requires path in paths && WithoutPaths(a, [path]) == WithoutPaths(b, [path])
    ensures WithoutPaths(a, paths) == WithoutPaths(b, paths)
  {
    forall p | p !in paths ensures p in a <==> p in b
    ensures p in a ==> a[p] == b[p] {
      assert p in WithoutPaths(a, [path]) <==> p in WithoutPaths(b, [path]);
    }
  }

  lemma BackAgain(was: map<string, File>, removed: seq<string>, i: nat)
    requires i < |removed| && Distinct(removed) && removed[i] in was
    ensures WithoutPaths(was, removed[i..])[removed[i] := was[removed[i]]] == WithoutPaths(was, removed[i + 1..])
  {
    assert removed[i..] == [removed[i]] + removed[i + 1..];
    assert removed[i] !in removed[i + 1..];
  }

  lemma RestOfThem(a: map<string, File>, b: map<string, File>, paths: seq<string>, i: nat)
    requires i <= |paths| && WithoutPaths(a, paths[..i]) == WithoutPaths(b, paths[..i])
    ensures WithoutPaths(a, paths) == WithoutPaths(b, paths)
  {
    forall p | p !in paths ensures p in a <==> p in b
    ensures p in a ==> a[p] == b[p] {
      assert p in WithoutPaths(a, paths[..i]) <==> p in WithoutPaths(b, paths[..i]);
    }
  }
}
