/** The entry set both bots keep per giveaway (a Python `set` of users or of
    user ids), the order in which Python hands its elements out, and the two
    ways the buttons change it. */
module Ledger {
  import opened Text

  /** Discord user ids; discord.py compares and hashes members by id. */
  type UserId = nat

  predicate Distinct(xs: seq<UserId>) {
    forall i, j :: 0 <= i < j < |xs| ==> xs[i] != xs[j]
  }

  /** `xs` lists every element of `s` exactly once: one possible order of
      Python's iteration over a set, which the language leaves unspecified. */
  ghost predicate IsEnumeration(xs: seq<UserId>, s: set<UserId>) {
    Distinct(xs) && forall x :: x in xs <==> x in s
  }

  /** `list(s)`, or a `for` over `s`: the elements of `s`, each once, in an
      order the model does not fix. */
  method ListOf(s: set<UserId>) returns (xs: seq<UserId>)
    ensures IsEnumeration(xs, s)
  {
    xs := [];
    var rest := s;
    while rest != {}
      invariant rest <= s
      invariant Distinct(xs)
      invariant forall x :: x in xs <==> x in s && x !in rest
      decreases |rest|
    {
      var x :| x in rest;
      xs := xs + [x];
      rest := rest - {x};
    }
  }

  /** An enumeration has exactly as many positions as the set has elements. */
  lemma {:induction false} EnumerationSize(xs: seq<UserId>, s: set<UserId>)
    requires IsEnumeration(xs, s)
    ensures |xs| == |s|
  {
    if |xs| > 0 {
      var last := xs[|xs| - 1];
      var init := xs[..|xs| - 1];
      assert xs == init + [last];
      assert last !in init;
      assert IsEnumeration(init, s - {last});
      EnumerationSize(init, s - {last});
    } else {
      assert s == {};
    }
  }

  /** `entries.add(u)`: the count grows by one exactly when `u` is new. */
  function Added(s: set<UserId>, u: UserId): (r: set<UserId>)
    ensures u in r && s <= r
    ensures r == s <==> u in s
    ensures |r| == if u in s then |s| else |s| + 1
  {
    s + {u}
  }

  /** `entries.remove(u)` on a member or `entries.discard(u)`: the count
      shrinks by one exactly when `u` was there. */
  function Removed(s: set<UserId>, u: UserId): (r: set<UserId>)
    ensures u !in r && r <= s
    ensures r == s <==> u !in s
    ensures |r| == if u in s then |s| - 1 else |s|
  {
    s - {u}
  }

  /** One press of the enter or exit button by a user. */
  datatype Action = Enter(user: UserId) | Leave(user: UserId)

  function Step(s: set<UserId>, a: Action): set<UserId> {
    match a
    case Enter(u) => Added(s, u)
    case Leave(u) => Removed(s, u)
  }

  /** The entry set after the presses in `acts`, taken in order. */
  function Replay(s: set<UserId>, acts: seq<Action>): set<UserId> {
    if |acts| == 0 then s else Step(Replay(s, acts[..|acts| - 1]), acts[|acts| - 1])
  }

  /** The last press by `u` in `acts`, if there is one. */
  function LastActionOf(u: UserId, acts: seq<Action>): Option<Action> {
    if |acts| == 0 then None
    else if acts[|acts| - 1].user == u then Some(acts[|acts| - 1])
    else LastActionOf(u, acts[..|acts| - 1])
  }

  /** Whether a user is entered depends only on that user's own last press:
      neither other users' presses nor repetitions of one's own are lost or
      double-counted. */
  lemma {:induction false} ReplayMembership(s: set<UserId>, acts: seq<Action>, u: UserId)
    ensures u in Replay(s, acts) <==>
      match LastActionOf(u, acts)
      case None => u in s
      case Some(a) => a.Enter?
  {
    if |acts| > 0 {
      ReplayMembership(s, acts[..|acts| - 1], u);
    }
  }

  /** Entering twice leaves the same set as entering once; leaving twice the
      same as leaving once. */
  lemma StepIdempotent(s: set<UserId>, a: Action)
    ensures Step(Step(s, a), a) == Step(s, a)
  {
  }
}
