# Three-party one-time-pad allocator in Dafny

This project models `ThreePartyProtocol`, a deterministic state machine. It hands out
"pads", integer positions in `[1, n]`, to three parties A, B and C so that:

- no pad is issued twice;
- a new pad keeps a margin `d` from the positions of the other parties.

Each party holds one role:

- the **left grower** consumes pads upward from the left end;
- the **right grower** consumes pads downward from the right end;
- the **middle grower** starts at `n / 2` and widens its interval `[middleLeft, middleRight]` toward whichever side has more free room. Ties go right.

After every successful send, a repositioning check may swap the middle role with one end role. The left–middle test is tried first:

- **Left–middle swap.** It fires when `|middle_left − left_pos| ≤ d + 1` and `right_pos − middle_right > 2d`. The old middle grower becomes the left grower, resuming from `middle_right`. The old left grower becomes the middle grower, seeded at `(middle_right + right_pos) // 2`.
- **Middle–right swap.** It fires when `|right_pos − middle_right| ≤ d + 1` and `middle_left − left_pos > 2d`. The old middle grower becomes the right grower, resuming from `middle_left`. The old right grower becomes the middle grower, seeded at `(left_pos + middle_left) // 2`.

The two swaps are not mirror images. Both seeds round down to the floor of the midpoint of their gap. So in both swaps the seed is never farther from the gap's left end than from its right end, and it is strictly nearer the left end when the gap is odd. In a left–middle swap that left end is the party that has just left the middle role. In a middle–right swap it is the left grower, which keeps its role.

The project has three modules:

- `ProtocolState` (`protocol_state.dfy`) holds the session state as a value and the pure rules:
  - candidate selection (`NextPosition`);
  - the safety check (`Safe`, `Sendable`);
  - the bookkeeping of a send (`Commit`);
  - the role swap (`Reposition`);
  - one whole send (`Send`);
  - the session invariant `Valid`: roles are a permutation, used pads lie in `[1, n]`, the middle interval is ordered and filled, and the counters sum to the number of used pads.

  Every rule preserves `Valid`.
- `Protocol` (`protocol.dfy`) is the class `ThreePartyProtocol` of protocol.py. Its fields are that class's attributes, updated in place. Each method follows the branch structure of the Python method it models and is proved to agree with the corresponding rule of `ProtocolState` through `Snapshot()`.
- `ProtocolRuns` (`protocol_runs.dfy`) drives a session with an arbitrary schedule of parties. For any schedule it proves that:
  - issued pads are distinct, fresh and in range;
  - the ledger and the counters only grow;
  - at most `n` sends succeed in total.

  It also proves two concrete sessions.

Two properties one might expect do not hold for the code, and the model follows the code:

- **A margin of more than `d` after every swap.** One might expect every state after a swap to keep all parties more than `d` apart. The code does not guarantee this. When the gap that receives the new middle is exactly `2d + 1` (`right_pos − middle_right` for a left–middle swap, `middle_left − left_pos` for a middle–right swap), the seed lies exactly `d` right of the left grower:
  - after a left–middle swap, that left grower is the party that has just left the middle role (`SwapCanLeaveMarginOfD`);
  - after a middle–right swap, it is the left grower that kept its role, while the party that has just left the middle role is `d + 1` away (`SwapMiddleRightCanLeaveMarginOfD`).

  `SwapSeedsBetweenFrontiers` proves what does hold: a margin of at least `d` to the left grower and more than `d` to the right grower.
- **A construction error for bad parameters.** The code does not validate `n` and `d` when a session is created. Here `n ≥ 1` and `d ≥ 0` are preconditions of the constructor.

## Model

| member | source | states |
|---|---|---|
| ProtocolState.Init | protocol.py:7-31 | A fresh session is valid and stores the given n and d. A is left, C is middle and B is right. The frontiers are 0, n+1 and n/2 (floor). The middle interval is the single point n/2. No pad is used, no party has sent, and every counter is 0. |
| Protocol.ThreePartyProtocol.constructor | protocol.py:7-31 | The new object's fields are exactly the initial session, which is valid. |
| ProtocolState.EveryPartyHasOneRole | protocol.py:22-24 | Given distinct role fields, each of A, B and C holds one of the three roles. |
| ProtocolState.NextPosition | protocol.py:33-67 | The candidate by role. An end grower steps one pad inward: the left grower takes last+1 and the right grower takes last−1. The middle grower's candidate lies in its interval or right next to it. |
| ProtocolState.LeftGap | protocol.py:56 | Definition, no contract. left_gap: the free slots strictly between the left grower's frontier and middle_left. |
| ProtocolState.RightGap | protocol.py:57 | Definition, no contract. right_gap: the free slots strictly between middle_right and the right grower's frontier. |
| ProtocolState.MiddleCandidate | protocol.py:43-62 | The middle grower's candidate takes one of three forms: its own seed (only when the interval is one point and unused), the pad left of the interval (only when the left gap is strictly larger), or the pad right of it (only when the left gap is not larger, so ties go right). |
| Protocol.ThreePartyProtocol.GetNextPosition | protocol.py:33-67 | The method keeps get_next_position's has-sent branch and returns exactly the role-based candidate. So whether a party has sent never changes its candidate: left is last+1, right is last−1, and the middle follows the gap rule. |
| Protocol.ThreePartyProtocol.CheckSafety | protocol.py:69-85 | The loop over the parties returns true iff all of the following hold: the position lies in [1, n], it is unused, and for every other party its distance is more than d. For the middle party that is the distance to both boundaries; for the others it is the distance to their last position. |
| Protocol.ThreePartyProtocol.CanSend | protocol.py:141-143 | Returns true iff the party's candidate passes the safety check. It has no `modifies` clause, so it changes nothing. |
| ProtocolState.Clear | protocol.py:74-84 | Definition, no contract. A position is clear of another party if its distance is more than d: to both boundaries when that party is the middle grower, and to its last position otherwise. |
| ProtocolState.Safe | protocol.py:69-85 | Definition, no contract. The position lies in [1, n], is unused, and is clear of every other party. It is the reference definition that CheckSafety's loop is proved equal to. |
| ProtocolState.Sendable | protocol.py:141-143 | Definition, no contract. The party's candidate is safe. |
| ProtocolRuns.WideMarginDeadlock | protocol.py:69-85 | With n = 10 and d = 5, every party is blocked from the start. |
| ProtocolState.Commit | protocol.py:148-159 | Committing a safe candidate keeps the session valid. The candidate is fresh. The ledger gains exactly that pad and grows by one. The sender's frontier becomes the pad, its flag is set and its counter rises by one. Other parties' fields and all roles are untouched. A middle sender's new interval is the smallest one that covers both the old interval and the pad: each boundary either stays or moves to the pad, and neither moves inward. Any other sender leaves the interval unchanged. |
| Protocol.ThreePartyProtocol.CommitSend | protocol.py:148-159 | The in-place bookkeeping leaves the object in exactly the committed state. |
| ProtocolState.LeftContact | protocol.py:95-98 | Definition, no contract. \|middle_left − left_pos\| ≤ d + 1. |
| ProtocolState.RightContact | protocol.py:118-119 | Definition, no contract. \|right_pos − middle_right\| ≤ d + 1. |
| ProtocolState.SwapLeftMiddle | protocol.py:101-116 | Definition, no contract; Reposition and SwapSeedsBetweenFrontiers together state each of its effects. The old middle party's frontier becomes middle_right and it takes the left role. The old left party becomes the middle grower, with frontier and zero-width interval at (middle_right + right_pos) // 2 and its flag set. |
| ProtocolState.SwapMiddleRight | protocol.py:122-137 | Definition, no contract; Reposition and SwapSeedsBetweenFrontiers together state each of its effects. The old middle party's frontier becomes middle_left and it takes the right role. The old right party becomes the middle grower, with frontier and zero-width interval at (left_pos + middle_left) // 2 and its flag set. |
| ProtocolState.Reposition | protocol.py:87-139 | Keeps the session valid and leaves the ledger, the counters, n and d unchanged. It swaps iff either \|middle_left − left_pos\| ≤ d+1 and right_pos − middle_right > 2d, or \|right_pos − middle_right\| ≤ d+1 and middle_left − left_pos > 2d. The left–middle swap is taken exactly when its own condition holds. The middle–right swap is taken exactly when its condition holds and the left–middle one does not. With no swap the state is unchanged. With a swap, exactly one end role is exchanged with the middle, the new middle interval is a single point, the new middle party's frontier is that point, and its flag is set. The flags of the other two parties are unchanged. Together with SwapSeedsBetweenFrontiers this fixes every field after a swap. |
| Protocol.ThreePartyProtocol.RepositionIfNeeded | protocol.py:87-139 | The in-place swap leaves the object in exactly the state `Reposition` gives, and returns whether a swap happened. |
| ProtocolState.SwapSeedsBetweenFrontiers | protocol.py:98-137 | After a swap, the party that left the middle resumes from the old boundary facing the gap: middle_right after a left–middle swap, middle_left after a middle–right swap. The new seed lies g // 2 pads right of the gap's left end, where g is the gap. For a left–middle swap that is middle_right + (right_pos − middle_right) // 2. For a middle–right swap it is left_pos + (middle_left − left_pos) // 2. The party that kept its end role keeps its frontier. The new seed is at least d from the left grower and more than d from the right grower. |
| ProtocolState.SwapCanLeaveMarginOfD | protocol.py:98-116 | A valid session exists in which a left–middle swap leaves the new middle exactly d from the new left grower, the party that has just left the middle role. |
| ProtocolState.SwapMiddleRightCanLeaveMarginOfD | protocol.py:118-137 | A valid session exists in which a middle–right swap leaves the new middle exactly d from the left grower, which kept its role, and d+1 from the party that has just left the middle role. |
| ProtocolState.Send | protocol.py:145-162 | A send keeps the session valid. It is blocked iff the candidate is unsafe, and a blocked send changes nothing. Otherwise it returns the candidate, which is in [1, n] and fresh. The ledger gains exactly that pad, the sender is flagged, and its counter rises by one. Other parties' counters never change. |
| Protocol.ThreePartyProtocol.SendMessage | protocol.py:145-162 | The in-place send keeps the object valid and gives exactly the state and the result of `Send`. A blocked send leaves every field unchanged. |
| ProtocolState.UsedAtMostN | protocol.py:150-153 | In every valid session at most n pads are used. |
| Protocol.ThreePartyProtocol.GetStats | protocol.py:164-171 | `total` is n and `used` is the ledger size, at most n. `wasted` is n − used and is non-negative, so used + wasted = total. `sent` is the per-party counters, whose sum is `used`. |
| ProtocolRuns.Run | protocol.py:145-162 | Trying the parties of any schedule in turn keeps the session valid and does not change n or d. |
| ProtocolRuns.RunMonotone | protocol.py:150-153 | Along any schedule the ledger never loses a pad and no counter decreases. |
| ProtocolRuns.RunLedger | protocol.py:146-152 | Every pad handed out along a schedule lies in [1, n] and was unused at the start. The final ledger is the start ledger plus exactly the pads handed out. |
| ProtocolRuns.RunIssuesUniquePads | protocol.py:146-152 | No pad is handed out twice along any schedule. |
| ProtocolRuns.RunBounded | protocol.py:146-153 | A run hands out exactly as many pads as the ledger grew by, and never more than the n − \|used\| pads that were left. |
| ProtocolRuns.FirstSendsScenario | protocol.py:16-67 | With n = 10 and d = 1, the first sends of A, B and C hand out pads 1, 10 and 5. |

## Left out

- The HTTP server, the terminal driver and the randomized simulation suite only call this class. They do I/O, randomness, timing and floating-point statistics, and are not part of this model.
- The `efficiency` entry of the statistics is a floating-point percentage. `Stats` carries only the integer entries.
- The boundary dictionaries keep stale entries for parties that are no longer in the middle role. Only the current middle party's entry is ever read, so the model keeps one `(middleLeft, middleRight)` pair for it.
- The per-party dictionaries become a record with one field per party (`PerParty`). The order of the loop over the parties is kept as the sequence `Parties`.
- Construction with `n < 1` or `d < 0` is excluded by a precondition, because the code performs no validation.
- ProtocolState.SwapSeedsBetweenFrontiers: proves only that the new middle is at least `d` from the left grower. A margin of more than `d` does not hold for the code, as SwapCanLeaveMarginOfD and SwapMiddleRightCanLeaveMarginOfD show.
