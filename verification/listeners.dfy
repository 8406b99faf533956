/** The listener lists of services/i18n.ts and services/auth.ts: callbacks are
    kept in registration order, told apart by identity, called in order by
    `forEach`, and unsubscribed with `filter(l => l !== callback)`. */
module Listeners {

  /** A registered callback, identified as JavaScript compares functions: by reference. */
  type ListenerId = nat

  /** `listeners.filter(l => l !== cb)` */
  function Without(ls: seq<ListenerId>, cb: ListenerId): (r: seq<ListenerId>)
    ensures cb !in r
    ensures forall x :: x != cb ==> multiset(r)[x] == multiset(ls)[x]
    ensures cb !in ls ==> r == ls
  {
    if ls == [] then []
    else
      var rest := Without(ls[1..], cb);
      assert ls == [ls[0]] + ls[1..];
      if ls[0] == cb then rest else [ls[0]] + rest
  }

  /** Unsubscribing keeps the relative order of the other callbacks. */
  lemma {:induction false} WithoutKeepsOrder(a: seq<ListenerId>, b: seq<ListenerId>, cb: ListenerId)
    ensures Without(a + b, cb) == Without(a, cb) + Without(b, cb)
  {
    if a != [] {
      assert (a + b)[1..] == a[1..] + b;
      WithoutKeepsOrder(a[1..], b, cb);
    } else {
      assert a + b == b;
    }
  }

  /** The calls `forEach(callback => callback(payload))` makes, in order. */
  function Deliveries<P>(ls: seq<ListenerId>, payload: P): (d: seq<(ListenerId, P)>)
    ensures |d| == |ls|
  {
    seq(|ls|, i requires 0 <= i < |ls| => (ls[i], payload))
  }

  /** Some registered callback throws when called. */
  predicate Raises(ls: seq<ListenerId>, throwing: set<ListenerId>) {
    exists j :: 0 <= j < |ls| && ls[j] in throwing
  }

  /** How many callbacks `forEach` calls: all of them, or up to and including the
      first that throws, since the exception ends the iteration. */
  function Reached(ls: seq<ListenerId>, throwing: set<ListenerId>): (k: nat)
    ensures k <= |ls|
  {
    if ls == [] then 0
    else if ls[0] in throwing then 1
    else 1 + Reached(ls[1..], throwing)
  }

  lemma {:induction false} ReachedAll(ls: seq<ListenerId>, throwing: set<ListenerId>)
    requires !Raises(ls, throwing)
    ensures Reached(ls, throwing) == |ls|
  {
    if ls != [] {
      assert ls[0] !in throwing;
      forall j | 0 <= j < |ls[1..]| ensures ls[1..][j] !in throwing {
        assert ls[1..][j] == ls[j + 1];
      }
      ReachedAll(ls[1..], throwing);
    }
  }

  lemma {:induction false} ReachedFirstThrower(ls: seq<ListenerId>, throwing: set<ListenerId>, i: nat)
    requires i < |ls| && ls[i] in throwing
    requires forall j :: 0 <= j < i ==> ls[j] !in throwing
    ensures Reached(ls, throwing) == i + 1
  {
    if i > 0 {
      assert ls[0] !in throwing;
      ReachedFirstThrower(ls[1..], throwing, i - 1);
    }
  }
}
