/** One list kept inside another, in order, whatever was put between. */
module Subsequence {
  /** Where each element of the kept list lies in the other one. */
  ghost predicate Placing<T>(at: seq<nat>, was: seq<T>, now: seq<T>) {
    && |at| == |was|
    && (forall i | 0 <= i < |at| :: at[i] < |now| && now[at[i]] == was[i])
    && (forall i, j | 0 <= i < j < |at| :: at[i] < at[j])
  }

  ghost predicate Kept<T>(was: seq<T>, now: seq<T>) {
    exists at :: Placing(at, was, now)
  }

  /** The fold's own test: one pass over the new headings, each standing heading
      looked for in what the one before it left. */
  predicate Keeps<T(==)>(was: seq<T>, now: seq<T>)
    decreases |now|
  {
    if was == [] then true
    else if now == [] then false
    else if was[0] == now[0] then Keeps(was[1..], now[1..])
    else Keeps(was, now[1..])
  }

  /** The greedy pass decides exactly whether the one list is kept in the other. */
  lemma {:induction false} KeepsExactly<T>(was: seq<T>, now: seq<T>)
    ensures Keeps(was, now) <==> Kept(was, now)
    decreases |now|
  {
    if was == [] {
      assert Placing([], was, now);
    } else if now == [] {
      forall at ensures !Placing(at, was, now) {
        assert |at| == |was| ==> at[0] >= |now|;
      }
    } else if was[0] == now[0] {
      KeepsExactly(was[1..], now[1..]);
      MatchedHeads(was, now);
    } else {
      KeepsExactly(was, now[1..]);
      UnmatchedHeads(was, now);
    }
  }

  lemma Shift<T>(at: seq<nat>, was: seq<T>, now: seq<T>)
    requires now != [] && Placing(at, was, now[1..])
    ensures Placing(seq(|at|, i requires 0 <= i < |at| => at[i] + 1), was, now)
  {}

  lemma Unshift<T>(at: seq<nat>, was: seq<T>, now: seq<T>)
    requires now != [] && Placing(at, was, now) && (at != [] ==> at[0] > 0)
    ensures Placing(seq(|at|, i requires 0 <= i < |at| => if at[i] > 0 then at[i] - 1 else 0), was, now[1..])
  {}

  lemma MatchedHeads<T>(was: seq<T>, now: seq<T>)
    requires was != [] && now != [] && was[0] == now[0]
    ensures Kept(was, now) <==> Kept(was[1..], now[1..])
  {
    if Kept(was[1..], now[1..]) {
      var at :| Placing(at, was[1..], now[1..]);
      Shift(at, was[1..], now);
      var up := [0] + seq(|at|, i requires 0 <= i < |at| => at[i] + 1);
      assert Placing(up, was, now);
    }
    if Kept(was, now) {
      var at :| Placing(at, was, now);
      assert Placing(at[1..], was[1..], now) && (at[1..] != [] ==> at[1] > at[0]);
      Unshift(at[1..], was[1..], now);
    }
  }

  lemma UnmatchedHeads<T>(was: seq<T>, now: seq<T>)
    requires was != [] && now != [] && was[0] != now[0]
    ensures Kept(was, now) <==> Kept(was, now[1..])
  {
    if Kept(was, now[1..]) {
      var at :| Placing(at, was, now[1..]);
      Shift(at, was, now);
    }
    if Kept(was, now) {
      var at :| Placing(at, was, now);
      Unshift(at, was, now);
    }
  }

  lemma KeptSelf<T>(a: seq<T>)
    ensures Kept(a, a)
  {
    assert Placing(seq(|a|, i requires 0 <= i => i), a, a);
  }

  lemma KeptTrans<T>(a: seq<T>, b: seq<T>, c: seq<T>)
    requires Kept(a, b) && Kept(b, c)
    ensures Kept(a, c)
  {
    var f :| Placing(f, a, b);
    var g :| Placing(g, b, c);
    assert |g| == |b|;
    var h := seq(|f|, i requires 0 <= i < |f| => g[f[i]]);
    assert Placing(h, a, c);
  }

  lemma KeptConcat<T>(a: seq<T>, b: seq<T>, c: seq<T>, d: seq<T>)
    requires Kept(a, b) && Kept(c, d)
    ensures Kept(a + c, b + d)
  {
    var f :| Placing(f, a, b);
    var g :| Placing(g, c, d);
    var h := f + seq(|g|, i requires 0 <= i < |g| => |b| + g[i]);
    forall i, j | 0 <= i < j < |h| ensures h[i] < h[j] {}
    assert Placing(h, a + c, b + d);
  }

  lemma KeptNothing<T>(b: seq<T>)
    ensures Kept([], b)
  {
    assert Placing([], [], b);
  }

  /** Putting a block in anywhere keeps everything that was there. */
  lemma KeptInsert<T>(a: seq<T>, at: nat, block: seq<T>)
    requires at <= |a|
    ensures Kept(a, a[..at] + block + a[at..])
  {
    hide Kept;
    KeptSelf(a[..at]);
    KeptSelf(a[at..]);
    KeptNothing(block);
    KeptConcat(a[..at], a[..at], [], block);
    KeptConcat(a[..at] + [], a[..at] + block, a[at..], a[at..]);
    assert a[..at] + [] + a[at..] == a;
  }

  lemma KeptMember<T>(a: seq<T>, b: seq<T>, x: T)
    requires Kept(a, b) && x in a
    ensures x in b
  {
    var f :| Placing(f, a, b);
    var i :| 0 <= i < |a| && a[i] == x;
    assert b[f[i]] == x;
  }
}
