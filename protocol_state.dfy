/** The state of a three-party one-time-pad allocation session and the pure
    rules that govern it: candidate selection, the safety check, committing a
    send, and the role swap that may follow it. The class in protocol.dfy
    updates the same state in place and is proved to agree with these functions. */
module ProtocolState {

  /** The three fixed party identities. */
  datatype Party = A | B | C

  /** The order in which the safety check visits the parties. */
  const Parties: seq<Party> := [A, B, C]

  datatype Option<T> = None | Some(value: T)

  /** A per-party dictionary: it always has exactly the keys A, B and C. */
  datatype PerParty<T> = PerParty(a: T, b: T, c: T) {
    function Get(p: Party): T {
      match p
      case A => a
      case B => b
      case C => c
    }

    function Update(p: Party, v: T): (r: PerParty<T>)
      ensures r.Get(p) == v
      ensures forall q :: q != p ==> r.Get(q) == Get(q)
    {
      match p
      case A => this.(a := v)
      case B => this.(b := v)
      case C => this.(c := v)
    }
  }

  /** One session. `middleLeft`/`middleRight` are the boundaries of the party
      that currently holds the middle role (the only entry of the source's
      boundary dictionaries that is ever read). */
  datatype State = State(
    n: int,
    d: int,
    lastUsed: PerParty<int>,
    hasSent: PerParty<bool>,
    middleLeft: int,
    middleRight: int,
    leftParty: Party,
    middleParty: Party,
    rightParty: Party,
    usedPads: set<int>,
    messagesSent: PerParty<nat>)

  function Abs(x: int): nat {
    if x < 0 then -x else x
  }

  /** The three role fields name three different parties. */
  predicate RolesArePermutation(s: State) {
    s.leftParty != s.middleParty && s.middleParty != s.rightParty && s.leftParty != s.rightParty
  }

  function TotalSent(m: PerParty<nat>): nat {
    m.a + m.b + m.c
  }

  /** Once the middle interval has grown past a single point, every pad in it
      has been issued. */
  predicate MiddleFilled(s: State) {
    forall x :: s.middleLeft < s.middleRight && s.middleLeft <= x <= s.middleRight ==> x in s.usedPads
  }

  /** The session invariant. */
  predicate Valid(s: State) {
    && s.n >= 1
    && s.d >= 0
    && RolesArePermutation(s)
    && (forall x :: x in s.usedPads ==> 1 <= x <= s.n)
    && s.middleLeft <= s.middleRight
    && MiddleFilled(s)
    && TotalSent(s.messagesSent) == |s.usedPads|
  }

  lemma EveryPartyHasOneRole(s: State, p: Party)
    requires RolesArePermutation(s)
    ensures p == s.leftParty || p == s.middleParty || p == s.rightParty
  {
  }

  /** A fresh session: A grows from the left, B from the right, C from the middle. */
  function Init(n: int, d: int): (s: State)
    requires n >= 1 && d >= 0
    ensures Valid(s)
    ensures s.n == n && s.d == d
    ensures s.usedPads == {} && TotalSent(s.messagesSent) == 0
    ensures s.leftParty == A && s.middleParty == C && s.rightParty == B
    ensures s.middleLeft == s.middleRight == n / 2
    ensures s.lastUsed.Get(A) == 0 && s.lastUsed.Get(B) == n + 1 && s.lastUsed.Get(C) == n / 2
    ensures !s.hasSent.Get(A) && !s.hasSent.Get(B) && !s.hasSent.Get(C)
  {
    State(n, d,
          PerParty(0, n + 1, n / 2),
          PerParty(false, false, false),
          n / 2, n / 2,
          A, C, B,
          {},
          PerParty(0, 0, 0))
  }

  /** Free slots strictly between the left grower's frontier and the middle interval. */
  function LeftGap(s: State): int
  {
    s.middleLeft - s.lastUsed.Get(s.leftParty) - 1
  }

  /** Free slots strictly between the middle interval and the right grower's frontier. */
  function RightGap(s: State): int
  {
    s.lastUsed.Get(s.rightParty) - s.middleRight - 1
  }

  /** The pad `party` would take next, chosen by its current role: an end
      grower steps one pad inward from its frontier, the middle grower takes a
      pad of its interval or one adjacent to it. */
  function NextPosition(s: State, party: Party): (x: int)
    ensures party == s.leftParty && party != s.middleParty ==> x == s.lastUsed.Get(party) + 1
    ensures party != s.leftParty && party != s.middleParty ==> x == s.lastUsed.Get(party) - 1
    ensures party == s.middleParty && s.middleLeft <= s.middleRight ==> s.middleLeft - 1 <= x <= s.middleRight + 1
  {
    if party == s.middleParty then
      if s.middleLeft == s.middleRight && s.middleLeft !in s.usedPads then s.middleLeft
      else if LeftGap(s) > RightGap(s) then s.middleLeft - 1
      else s.middleRight + 1
    else if party == s.leftParty then s.lastUsed.Get(party) + 1
    else s.lastUsed.Get(party) - 1
  }

  /** `x` keeps a distance greater than `d` from `other`'s position: both
      boundaries if `other` is the middle grower, its last pad (or start
      sentinel) otherwise. */
  predicate Clear(s: State, other: Party, x: int)
  {
    if other == s.middleParty then
      Abs(x - s.middleLeft) > s.d && Abs(x - s.middleRight) > s.d
    else
      Abs(x - s.lastUsed.Get(other)) > s.d
  }

  /** Whether `party` may take pad `x`. */
  predicate Safe(s: State, party: Party, x: int)
  {
    && 1 <= x <= s.n
    && x !in s.usedPads
    && forall other: Party :: other != party ==> Clear(s, other, x)
  }

  predicate Sendable(s: State, party: Party)
  {
    Safe(s, party, NextPosition(s, party))
  }

  /** The middle grower's candidate is its own unused seed point or the pad
      just outside its interval on the side with more free room (the right
      side on a tie), so the interval grows by exactly that pad. */
  lemma MiddleCandidate(s: State)
    requires Valid(s)
    ensures var x := NextPosition(s, s.middleParty);
      && (x == s.middleLeft ==> s.middleLeft == s.middleRight && x !in s.usedPads)
      && (x == s.middleLeft - 1 ==> (s.middleLeft < s.middleRight || s.middleLeft in s.usedPads) && LeftGap(s) > RightGap(s))
      && (x == s.middleRight + 1 ==> (s.middleLeft < s.middleRight || s.middleLeft in s.usedPads) && LeftGap(s) <= RightGap(s))
      && (x == s.middleLeft || x == s.middleLeft - 1 || x == s.middleRight + 1)
  {
  }

  /** The bookkeeping of a successful send, before any role swap: the pad is
      recorded, the sender's frontier, flag and counter are updated, and a
      middle sender's interval becomes the smallest interval that covers both
      the old interval and the pad (each boundary either stays or moves to the
      pad, and neither moves inward). */
  function Commit(s: State, party: Party): (r: State)
    requires Valid(s) && Sendable(s, party)
    ensures Valid(r)
    ensures var x := NextPosition(s, party);
      && x !in s.usedPads
      && r.usedPads == s.usedPads + {x}
      && |r.usedPads| == |s.usedPads| + 1
      && r.lastUsed.Get(party) == x
      && r.hasSent.Get(party)
      && r.messagesSent.Get(party) == s.messagesSent.Get(party) + 1
      && (party == s.middleParty ==>
            && r.middleLeft <= x <= r.middleRight
            && r.middleLeft <= s.middleLeft && s.middleRight <= r.middleRight
            && (r.middleLeft == s.middleLeft || r.middleLeft == x)
            && (r.middleRight == s.middleRight || r.middleRight == x))
    ensures forall q :: q != party ==>
      r.lastUsed.Get(q) == s.lastUsed.Get(q) && r.hasSent.Get(q) == s.hasSent.Get(q) && r.messagesSent.Get(q) == s.messagesSent.Get(q)
    ensures r.n == s.n && r.d == s.d
    ensures r.leftParty == s.leftParty && r.middleParty == s.middleParty && r.rightParty == s.rightParty
    ensures party != s.middleParty ==> r.middleLeft == s.middleLeft && r.middleRight == s.middleRight
  {
    var x := NextPosition(s, party);
    var ml := if party == s.middleParty && x < s.middleLeft then x else s.middleLeft;
    var mr := if party == s.middleParty && x > s.middleRight then x else s.middleRight;
    var r := State(s.n, s.d,
                   s.lastUsed.Update(party, x),
                   s.hasSent.Update(party, true),
                   ml, mr,
                   s.leftParty, s.middleParty, s.rightParty,
                   s.usedPads + {x},
                   s.messagesSent.Update(party, s.messagesSent.Get(party) + 1));
    assert MiddleFilled(r) by {
      if party == s.middleParty {
        MiddleCandidate(s);
      }
    }
    r
  }

  /** The left grower has come within d+1 of the middle interval. */
  predicate LeftContact(s: State)
  {
    Abs(s.middleLeft - s.lastUsed.Get(s.leftParty)) <= s.d + 1
  }

  /** The right grower has come within d+1 of the middle interval. */
  predicate RightContact(s: State)
  {
    Abs(s.lastUsed.Get(s.rightParty) - s.middleRight) <= s.d + 1
  }

  /** The left–middle swap: the middle grower resumes as the left grower from
      its right boundary; the old left grower becomes the middle grower, seeded
      halfway into the right-hand gap. */
  function SwapLeftMiddle(s: State): State
  {
    var rightPos := s.lastUsed.Get(s.rightParty);
    var newPos := (s.middleRight + rightPos) / 2;
    var oldLeft, oldMiddle := s.leftParty, s.middleParty;
    s.(lastUsed := s.lastUsed.Update(oldMiddle, s.middleRight).Update(oldLeft, newPos),
       leftParty := oldMiddle,
       middleParty := oldLeft,
       hasSent := s.hasSent.Update(oldLeft, true),
       middleLeft := newPos,
       middleRight := newPos)
  }

  /** The middle–right swap: the middle grower resumes as the right grower
      from its left boundary; the old right grower becomes the middle grower,
      seeded at the floor of the midpoint between the left grower's frontier
      and that boundary. Because the midpoint is rounded down in both swaps,
      this seed is never farther from the left grower, which keeps its role,
      than from the party that has just left the middle role, and strictly
      nearer the left grower when the gap between them is odd. */
  function SwapMiddleRight(s: State): State
  {
    var leftPos := s.lastUsed.Get(s.leftParty);
    var newPos := (leftPos + s.middleLeft) / 2;
    var oldRight, oldMiddle := s.rightParty, s.middleParty;
    s.(lastUsed := s.lastUsed.Update(oldMiddle, s.middleLeft).Update(oldRight, newPos),
       rightParty := oldMiddle,
       middleParty := oldRight,
       hasSent := s.hasSent.Update(oldRight, true),
       middleLeft := newPos,
       middleRight := newPos)
  }

  /** The repositioning check run after every successful send; the boolean
      says whether a swap took place. The left–middle test is tried first. */
  function Reposition(s: State): (r: (State, bool))
    requires Valid(s)
    ensures Valid(r.0)
    ensures r.0.usedPads == s.usedPads && r.0.messagesSent == s.messagesSent
    ensures r.0.n == s.n && r.0.d == s.d
    ensures r.1 <==> (LeftContact(s) && RightGap(s) + 1 > 2 * s.d)
                     || (RightContact(s) && LeftGap(s) + 1 > 2 * s.d)
    ensures !r.1 ==> r.0 == s
    ensures r.1 ==>
      || (&& r.0.leftParty == s.middleParty && r.0.middleParty == s.leftParty
          && r.0.rightParty == s.rightParty)
      || (&& r.0.rightParty == s.middleParty && r.0.middleParty == s.rightParty
          && r.0.leftParty == s.leftParty)
    ensures (r.1 && r.0.leftParty == s.middleParty) <==> LeftContact(s) && RightGap(s) + 1 > 2 * s.d
    ensures (r.1 && r.0.rightParty == s.middleParty) <==>
      !(LeftContact(s) && RightGap(s) + 1 > 2 * s.d) && RightContact(s) && LeftGap(s) + 1 > 2 * s.d
    ensures r.1 ==> r.0.middleLeft == r.0.middleRight && r.0.hasSent.Get(r.0.middleParty)
    ensures r.1 ==> r.0.lastUsed.Get(r.0.middleParty) == r.0.middleLeft
    ensures forall p :: p != r.0.middleParty ==> r.0.hasSent.Get(p) == s.hasSent.Get(p)
    ensures forall p :: s.hasSent.Get(p) ==> r.0.hasSent.Get(p)
  {
    var leftPos := s.lastUsed.Get(s.leftParty);
    var rightPos := s.lastUsed.Get(s.rightParty);
    if LeftContact(s) && rightPos - s.middleRight > s.d * 2 then
      (SwapLeftMiddle(s), true)
    else if RightContact(s) && s.middleLeft - leftPos > s.d * 2 then
      (SwapMiddleRight(s), true)
    else
      (s, false)
  }

  /** After a swap the new zero-width middle lies between the two end
      growers, at least d pads from the left grower and more than d pads
      from the right grower. The seed is half the gap, rounded down, to the
      right of the gap's left end: past the old right boundary in a
      left–middle swap, past the left grower's frontier in a middle–right
      swap. The party that has just left the middle role resumes from the old
      boundary facing the gap, and the party that kept its end role keeps
      its frontier. */
  lemma SwapSeedsBetweenFrontiers(s: State)
    requires Valid(s) && Reposition(s).1
    ensures var r := Reposition(s).0;
      && (r.leftParty == s.middleParty ==>
            && r.lastUsed.Get(r.leftParty) == s.middleRight
            && r.middleLeft == s.middleRight + (RightGap(s) + 1) / 2
            && r.rightParty == s.rightParty
            && r.lastUsed.Get(r.rightParty) == s.lastUsed.Get(s.rightParty))
      && (r.rightParty == s.middleParty ==>
            && r.lastUsed.Get(r.rightParty) == s.middleLeft
            && r.middleLeft == s.lastUsed.Get(s.leftParty) + (LeftGap(s) + 1) / 2
            && r.leftParty == s.leftParty
            && r.lastUsed.Get(r.leftParty) == s.lastUsed.Get(s.leftParty))
      && r.lastUsed.Get(r.leftParty) + s.d <= r.middleLeft
      && r.middleRight + s.d < r.lastUsed.Get(r.rightParty)
  {
    var leftPos := s.lastUsed.Get(s.leftParty);
    var rightPos := s.lastUsed.Get(s.rightParty);
    if LeftContact(s) && rightPos - s.middleRight > s.d * 2 {
      var g := rightPos - s.middleRight;
      assert (s.middleRight + rightPos) / 2 == s.middleRight + g / 2;
    } else {
      var g := s.middleLeft - leftPos;
      assert (leftPos + s.middleLeft) / 2 == leftPos + g / 2;
    }
  }

  /** The margin after a left–middle swap can be exactly d, not more: the
      swap is taken when right_pos − middle_right is 2d+1, and it seeds the
      new middle d pads right of the party that has just left the middle
      role, which is now the left grower. */
  lemma SwapCanLeaveMarginOfD()
    ensures exists s :: (Valid(s) && Reposition(s).1 &&
      var r := Reposition(s).0;
      && r.leftParty == s.middleParty
      && Abs(r.middleLeft - r.lastUsed.Get(r.leftParty)) == r.d)
  {
    var s := State(10, 1,
                   PerParty(4, 8, 5),
                   PerParty(true, true, true),
                   5, 5,
                   A, C, B,
                   {4, 5, 8},
                   PerParty(1, 1, 1));
    assert Valid(s);
    assert LeftContact(s);
    var r := Reposition(s).0;
    assert r.middleLeft == 6 && r.lastUsed.Get(r.leftParty) == 5;
  }

  /** The margin after a middle–right swap can also be exactly d: when
      middle_left − left_pos is 2d+1 the seed, rounded down, falls d pads
      right of the left grower, which keeps its role, while the party that
      has just left the middle role is d+1 pads further right. */
  lemma SwapMiddleRightCanLeaveMarginOfD()
    ensures exists s :: (Valid(s) && Reposition(s).1 &&
      var r := Reposition(s).0;
      && r.rightParty == s.middleParty
      && Abs(r.middleLeft - r.lastUsed.Get(r.leftParty)) == r.d
      && r.lastUsed.Get(r.rightParty) - r.middleRight == r.d + 1)
  {
    var s := State(10, 1,
                   PerParty(2, 7, 5),
                   PerParty(true, true, true),
                   5, 5,
                   A, C, B,
                   {2, 5, 7},
                   PerParty(1, 1, 1));
    assert Valid(s);
    assert !LeftContact(s) && RightContact(s);
    var r := Reposition(s).0;
    assert r.middleLeft == 3 && r.lastUsed.Get(r.leftParty) == 2 && r.lastUsed.Get(r.rightParty) == 5;
  }

  /** One call of send for `party`: blocked (no change, no pad) or the pad
      it was given, after bookkeeping and at most one role swap. */
  function Send(s: State, party: Party): (r: (State, Option<int>))
    requires Valid(s)
    ensures Valid(r.0)
    ensures r.0.n == s.n && r.0.d == s.d
    ensures r.1.None? <==> !Sendable(s, party)
    ensures r.1.None? ==> r.0 == s
    ensures r.1.Some? ==>
      var x := r.1.value;
      && x == NextPosition(s, party)
      && 1 <= x <= s.n
      && x !in s.usedPads
      && r.0.usedPads == s.usedPads + {x}
      && |r.0.usedPads| == |s.usedPads| + 1
      && r.0.hasSent.Get(party)
      && r.0.messagesSent.Get(party) == s.messagesSent.Get(party) + 1
    ensures forall q :: q != party ==> r.0.messagesSent.Get(q) == s.messagesSent.Get(q)
  {
    if !Sendable(s, party) then (s, None)
    else (Reposition(Commit(s, party)).0, Some(NextPosition(s, party)))
  }

  /** A subset of [1, n] has at most n elements. */
  lemma {:induction false} BoundedSetSize(xs: set<int>, n: int)
    requires n >= 0
    requires forall x :: x in xs ==> 1 <= x <= n
    ensures |xs| <= n
  {
    if n > 0 {
      var rest := xs - {n};
      BoundedSetSize(rest, n - 1);
      assert xs <= rest + {n};
    } else {
      assert forall x :: x !in xs;
    }
  }

  /** In every valid session at most n pads are used. */
  lemma UsedAtMostN(s: State)
    requires Valid(s)
    ensures |s.usedPads| <= s.n
  {
    BoundedSetSize(s.usedPads, s.n);
  }
}
