/** Sessions driven by a schedule: the sequence of parties a driver asks to
    send, in order. Whatever the schedule, issued pads are distinct, fresh and
    in range, the ledger only grows, and at most n sends ever succeed. */
module ProtocolRuns {
  import opened ProtocolState

  /** The state after trying each party of `schedule` in turn, and the pads
      handed out by the sends that were not blocked, in order. */
  function Run(s: State, schedule: seq<Party>): (r: (State, seq<int>))
    requires Valid(s)
    ensures Valid(r.0)
    ensures r.0.n == s.n && r.0.d == s.d
    decreases |schedule|
  {
    if schedule == [] then (s, [])
    else
      var step := Send(s, schedule[0]);
      var rest := Run(step.0, schedule[1..]);
      (rest.0, (if step.1.Some? then [step.1.value] else []) + rest.1)
  }

  /** The ledger never loses a pad and no party's counter goes down. */
  lemma {:induction false} RunMonotone(s: State, schedule: seq<Party>)
    requires Valid(s)
    ensures s.usedPads <= Run(s, schedule).0.usedPads
    ensures forall p :: s.messagesSent.Get(p) <= Run(s, schedule).0.messagesSent.Get(p)
    decreases |schedule|
  {
    if schedule != [] {
      var step := Send(s, schedule[0]);
      RunMonotone(step.0, schedule[1..]);
    }
  }

  /** Every pad a run hands out lies in [1, n] and was unused when the run
      started, and the ledger grows by exactly the pads handed out. */
  lemma {:induction false} RunLedger(s: State, schedule: seq<Party>)
    requires Valid(s)
    ensures forall x :: x in Run(s, schedule).1 ==> 1 <= x <= s.n && x !in s.usedPads
    ensures forall x :: x in Run(s, schedule).0.usedPads <==> x in s.usedPads || x in Run(s, schedule).1
    decreases |schedule|
  {
    if schedule != [] {
      var step := Send(s, schedule[0]);
      RunLedger(step.0, schedule[1..]);
      var rest := Run(step.0, schedule[1..]).1;
      assert Run(s, schedule).1 == (if step.1.Some? then [step.1.value] else []) + rest;
    }
  }

  predicate NoDuplicates(xs: seq<int>) {
    forall i, j :: 0 <= i < j < |xs| ==> xs[i] != xs[j]
  }

  /** No pad is handed out twice within a run. */
  lemma {:induction false} RunIssuesUniquePads(s: State, schedule: seq<Party>)
    requires Valid(s)
    ensures NoDuplicates(Run(s, schedule).1)
    decreases |schedule|
  {
    if schedule != [] {
      var step := Send(s, schedule[0]);
      var rest := Run(step.0, schedule[1..]).1;
      RunIssuesUniquePads(step.0, schedule[1..]);
      RunLedger(step.0, schedule[1..]);
      assert NoDuplicates(rest);
      var pads := Run(s, schedule).1;
      if step.1.Some? {
        assert pads == [step.1.value] + rest;
        assert step.1.value in step.0.usedPads;
        forall i, j | 0 <= i < j < |pads| ensures pads[i] != pads[j] {
          assert pads[j] == rest[j - 1] && pads[j] in rest;
          assert pads[j] !in step.0.usedPads;
          if i == 0 {
            assert pads[i] == step.1.value;
          } else {
            assert pads[i] == rest[i - 1];
          }
        }
      } else {
        assert pads == rest;
      }
    }
  }

  /** Each successful send grows the ledger by one pad, so a run hands out
      exactly as many pads as the ledger grew by, and never more than the
      n - |used| pads that were left: any schedule ends in exhaustion or in
      blocked sends after finitely many successes. */
  lemma {:induction false} RunBounded(s: State, schedule: seq<Party>)
    requires Valid(s)
    ensures var (t, pads) := Run(s, schedule);
      && |pads| == |t.usedPads| - |s.usedPads|
      && |pads| <= s.n - |s.usedPads|
    decreases |schedule|
  {
    if schedule != [] {
      var step := Send(s, schedule[0]);
      RunBounded(step.0, schedule[1..]);
    }
    UsedAtMostN(Run(s, schedule).0);
  }

  /** The shape of a session with n = 10 and d = 1 whose roles have not
      swapped and whose middle grower has not moved from its seed 5. */
  predicate EarlyShape(s: State, leftPos: int, rightPos: int, used: set<int>) {
    && Valid(s) && s.n == 10 && s.d == 1
    && s.leftParty == A && s.middleParty == C && s.rightParty == B
    && s.lastUsed.Get(A) == leftPos && s.lastUsed.Get(B) == rightPos
    && s.middleLeft == 5 && s.middleRight == 5
    && s.usedPads == used
  }

  lemma FirstSendOfA()
    ensures EarlyShape(Send(Init(10, 1), A).0, 1, 11, {1}) && Send(Init(10, 1), A).1 == Some(1)
  {
    var s0 := Init(10, 1);
    assert Sendable(s0, A);
    assert !Reposition(Commit(s0, A)).1;
  }

  lemma FirstSendOfB(s: State)
    requires EarlyShape(s, 1, 11, {1})
    ensures EarlyShape(Send(s, B).0, 1, 10, {1, 10}) && Send(s, B).1 == Some(10)
  {
    assert Sendable(s, B);
    assert !Reposition(Commit(s, B)).1;
  }

  lemma FirstSendOfC(s: State)
    requires EarlyShape(s, 1, 10, {1, 10})
    ensures Send(s, C).1 == Some(5)
  {
    assert NextPosition(s, C) == 5;
    assert Sendable(s, C);
  }

  /** With n = 10 and d = 1, the first sends of A, B and C hand out the pads
      just inside the two sentinels and the middle seed. */
  lemma FirstSendsScenario()
    ensures Run(Init(10, 1), [A, B, C]).1 == [1, 10, 5]
  {
    var s0 := Init(10, 1);
    FirstSendOfA();
    var s1 := Send(s0, A).0;
    FirstSendOfB(s1);
    var s2 := Send(s1, B).0;
    FirstSendOfC(s2);
    assert [A, B, C][1..] == [B, C] && [B, C][1..] == [C] && [C][1..] == [];
    assert Run(s2, [C]).1 == [5];
    assert Run(s1, [B, C]).1 == [10, 5];
  }

  /** With n = 10 and d = 5 every party is blocked from the start: each
      first candidate (1, 10 and 5) lies within 5 of another party's
      sentinel or of the middle seed. */
  lemma WideMarginDeadlock()
    ensures forall p: Party :: !Sendable(Init(10, 5), p)
  {
    var s := Init(10, 5);
    assert !Clear(s, C, NextPosition(s, A));
    assert !Clear(s, C, NextPosition(s, B));
    assert !Clear(s, A, NextPosition(s, C));
  }
}
