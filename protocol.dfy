/** The allocator object of `ThreePartyProtocol` in protocol.py: one
    session, its fields updated in place by SendMessage and
    RepositionIfNeeded. Each method follows the branch structure of the
    Python method it models and is proved to agree with the pure rules of
    ProtocolState, whose properties are proved there and in ProtocolRuns. */
module Protocol {
  import opened ProtocolState

  /** The integer part of the statistics report. */
  datatype Stats = Stats(total: int, used: nat, wasted: int, sent: PerParty<nat>)

  class ThreePartyProtocol {
    const n: int
    const d: int
    var lastUsed: PerParty<int>
    var hasSent: PerParty<bool>
    var middleLeft: int
    var middleRight: int
    var leftParty: Party
    var middleParty: Party
    var rightParty: Party
    var usedPads: set<int>
    var messagesSent: PerParty<nat>

    /** The session these fields represent. */
    function Snapshot(): State
      reads this
    {
      State(n, d, lastUsed, hasSent, middleLeft, middleRight,
            leftParty, middleParty, rightParty, usedPads, messagesSent)
    }

    predicate Valid()
      reads this
    {
      ProtocolState.Valid(Snapshot())
    }

    constructor (n: int, d: int)
      requires n >= 1 && d >= 0
      ensures Snapshot() == Init(n, d)
      ensures Valid()
    {
      this.n := n;
      this.d := d;
      lastUsed := PerParty(0, n + 1, n / 2);
      hasSent := PerParty(false, false, false);
      leftParty := A;
      middleParty := C;
      rightParty := B;
      middleLeft := n / 2;
      middleRight := n / 2;
      usedPads := {};
      messagesSent := PerParty(0, 0, 0);
      new;
      assert Snapshot() == Init(n, d);
    }

    /** The candidate pad for `party`. The not-yet-sent branch of
        get_next_position is kept; the postcondition shows it gives the same answer
        as the role-based rule, so the flag never changes the candidate. */
    method GetNextPosition(party: Party) returns (pos: int)
      requires Valid()
      ensures pos == NextPosition(Snapshot(), party)
    {
      var currentPos := lastUsed.Get(party);
      if !hasSent.Get(party) {
        if party == leftParty {
          return currentPos + 1;
        } else if party == rightParty {
          return currentPos - 1;
        }
      }
      if party == middleParty {
        var ml, mr := middleLeft, middleRight;
        if ml == mr && ml !in usedPads {
          return ml;
        }
        var leftPos := lastUsed.Get(leftParty);
        var rightPos := lastUsed.Get(rightParty);
        var leftGap := ml - leftPos - 1;
        var rightGap := rightPos - mr - 1;
        if leftGap > rightGap {
          return ml - 1;
        } else if rightGap > leftGap {
          return mr + 1;
        } else {
          return mr + 1;
        }
      } else if party == leftParty {
        return currentPos + 1;
      } else {
        return currentPos - 1;
      }
    }

    /** Whether `party` may take `position`: in range, unused, and more than
        d from every other party, visiting the parties in order and stopping
        at the first conflict. */
    method CheckSafety(party: Party, position: int) returns (ok: bool)
      requires Valid()
      ensures ok == Safe(Snapshot(), party, position)
    {
      if position < 1 || position > n {
        return false;
      }
      if position in usedPads {
        return false;
      }
      var i := 0;
      while i < |Parties|
        invariant 0 <= i <= |Parties|
        invariant forall j :: 0 <= j < i && Parties[j] != party ==> Clear(Snapshot(), Parties[j], position)
      {
        var other := Parties[i];
        if other != party {
          if other == middleParty {
            var lb, rb := middleLeft, middleRight;
            if Abs(position - lb) <= d {
              assert !Clear(Snapshot(), other, position);
              return false;
            }
            if Abs(position - rb) <= d {
              assert !Clear(Snapshot(), other, position);
              return false;
            }
          } else {
            var otherPos := lastUsed.Get(other);
            if Abs(position - otherPos) <= d {
              assert !Clear(Snapshot(), other, position);
              return false;
            }
          }
        }
        i := i + 1;
      }
      forall other: Party | other != party
        ensures Clear(Snapshot(), other, position)
      {
        match other
        case A => assert Parties[0] == A;
        case B => assert Parties[1] == B;
        case C => assert Parties[2] == C;
      }
      return true;
    }

    /** Whether `party`'s next candidate passes the safety check; changes nothing. */
    method CanSend(party: Party) returns (ok: bool)
      requires Valid()
      ensures ok == Sendable(Snapshot(), party)
    {
      var nextPos := GetNextPosition(party);
      ok := CheckSafety(party, nextPos);
    }

    /** Swaps the middle role with an end grower that has come within d+1 of
        the middle interval, when the gap on the other side has room for a
        new middle grower; reports whether it swapped. */
    method RepositionIfNeeded() returns (swapped: bool)
      requires Valid()
      modifies this
      ensures Snapshot() == Reposition(old(Snapshot())).0
      ensures swapped == Reposition(old(Snapshot())).1
    {
      var leftPos := lastUsed.Get(leftParty);
      var rightPos := lastUsed.Get(rightParty);
      var ml := middleLeft;
      var mr := middleRight;
      var threshold := d + 1;
      ghost var s := Snapshot();
      assert s == old(Snapshot());

      if Abs(ml - leftPos) <= threshold {
        var centerGap := rightPos - mr;
        if centerGap > d * 2 {
          var newPos := (mr + rightPos) / 2;
          var oldLeft := leftParty;
          var oldMiddle := middleParty;
          // the old middle resumes from its right boundary
          var resumed := lastUsed.Update(oldMiddle, mr).Update(oldLeft, newPos);
          ghost var t := SwapLeftMiddle(s);
          assert resumed == t.lastUsed;
          lastUsed, hasSent := resumed, hasSent.Update(oldLeft, true);
          leftParty, middleParty := oldMiddle, oldLeft;
          middleLeft, middleRight := newPos, newPos;
          assert Snapshot() == t;
          return true;
        }
      }

      if Abs(rightPos - mr) <= threshold {
        var centerGap := ml - leftPos;
        if centerGap > d * 2 {
          var newPos := (leftPos + ml) / 2;
          var oldRight := rightParty;
          var oldMiddle := middleParty;
          // the old middle resumes from its left boundary
          var resumed := lastUsed.Update(oldMiddle, ml).Update(oldRight, newPos);
          ghost var t := SwapMiddleRight(s);
          assert resumed == t.lastUsed;
          lastUsed, hasSent := resumed, hasSent.Update(oldRight, true);
          rightParty, middleParty := oldMiddle, oldRight;
          middleLeft, middleRight := newPos, newPos;
          assert Snapshot() == t;
          return true;
        }
      }

      assert !Reposition(s).1;
      return false;
    }

    /** Records `nextPos` as `party`'s pad: the bookkeeping of a successful
        send, before the repositioning check. */
    method CommitSend(party: Party, nextPos: int)
      requires Valid() && Sendable(Snapshot(), party)
      requires nextPos == NextPosition(Snapshot(), party)
      modifies this
      ensures Snapshot() == Commit(old(Snapshot()), party)
    {
      lastUsed := lastUsed.Update(party, nextPos);
      hasSent := hasSent.Update(party, true);
      usedPads := usedPads + {nextPos};
      messagesSent := messagesSent.Update(party, messagesSent.Get(party) + 1);
      if party == middleParty {
        if nextPos < middleLeft {
          middleLeft := nextPos;
        }
        if nextPos > middleRight {
          middleRight := nextPos;
        }
      }
    }

    /** Sends for `party`: None and no change when it is blocked; otherwise
        the pad it takes, recorded in the ledger, followed by at most one
        role swap. */
    method SendMessage(party: Party) returns (result: Option<int>)
      requires Valid()
      modifies this
      ensures Valid()
      ensures (Snapshot(), result) == Send(old(Snapshot()), party)
      ensures result.None? ==> unchanged(this)
    {
      var ok := CanSend(party);
      if !ok {
        return None;
      }
      var nextPos := GetNextPosition(party);
      CommitSend(party, nextPos);
      var _ := RepositionIfNeeded();
      return Some(nextPos);
    }

    /** The integer statistics: capacity, pads used, pads never issued, and
        the per-party counters. */
    method GetStats() returns (stats: Stats)
      requires Valid()
      ensures stats.total == n
      ensures stats.used == |usedPads| <= n
      ensures stats.wasted == n - stats.used >= 0
      ensures stats.used + stats.wasted == stats.total
      ensures stats.sent == messagesSent
      ensures stats.used == TotalSent(messagesSent)
    {
      UsedAtMostN(Snapshot());
      stats := Stats(n, |usedPads|, n - |usedPads|, messagesSent);
    }
  }
}
