# Locked voter: escrow bookkeeping

A model of how the locked-voter program moves token balances. The program
locks governance tokens in escrows. Each escrow belongs to a locker. Balances
live in four counters:

- an escrow's active `amount`, which counts for voting;
- the escrow's `partialUnstakingAmount`, which is reserved in open
  early-exit tickets;
- each ticket's own `amount` (`PartialUnstaking`);
- the locker's `lockedSupply`. The relation the model tracks is
  `lockedSupply == Σ (amount + partialUnstakingAmount)` over the locker's
  escrows. A deposit raises both sides together, and the moves between an
  escrow's two counters (accumulate, merge, partial merge) never write the
  locker, so these keep it. A ticket withdraw lowers the escrow's total, so
  it keeps the relation only together with a supply decrement made by an
  instruction that is not part of this model. The administrative transfer
  as written breaks it. The relation is inferred from the modelled code; the
  program states no such invariant.

What the model covers:

- `State` (`state.rs`): the three accounts as classes. It has the primitives
  that update them in place: deposit, lock-window overwrite, and
  accumulate / merge / withdraw between the two escrow counters. It also has
  ticket shrinking and the pure remaining-duration helper. Accumulate, merge
  and withdraw each have a value-level partner function on `EscrowBalances`,
  the escrow's two counters. The deposit's partner, `IncreaseLocked`, works
  on the pair of the escrow's `amount` and the locker's `lockedSupply`.
  These functions carry the conservation facts and the inverse lemmas.
- `Ledger`: a locker's escrows written as a sequence of `EscrowBalances`,
  and an escrow's tickets as a sequence of amounts. The supply relation
  `lockedSupply == Σ (amount + partialUnstakingAmount)` is kept by a deposit
  (`IncreaseKeepsSupplyMatched`), an accumulate (`AccumulateKeepsSupplyMatched`)
  and a merge, partial or whole (`MergeKeepsSupplyMatched`). A withdraw keeps it
  only once the supply is lowered by the same amount
  (`WithdrawLowersSupplyBy`). A supply counting active amounts only is broken
  by any merge (`ActiveOnlySupplyBrokenByMerge`). The ticket relation
  `partialUnstakingAmount == Σ ticket.amount` is kept by opening a ticket,
  by a partial merge and by settling a ticket (`OpenKeepsTicketsMatched`,
  `PartialMergeKeepsTicketsMatched`, `WithdrawKeepsTicketsMatched`). The
  administrative transfer as written breaks the supply relation
  (`TransferAsWrittenLosesSourceAmount`).
- `PartialMerge` (`partial_merge_partial_unstaking.rs`): the account
  constraints, the validation gate, and the update that returns part of a
  ticket to its escrow.
- `Transfer` (`transfer_locked_amount.rs`): the request record and the
  administrator's execute step. The execute step is modelled as written and
  as corrected. Neither `new_transfer_request` nor `transfer_locked_amount`
  is registered as a handler in `lib.rs`, and the administrator constraint
  names `ADMIN_PUBKEY`, which is not defined (the module is `admin_pubkey`),
  so as shown the transfer cannot be invoked and its defect is latent.
- `Scenarios`: the supply checks of the unit tests in `state.rs`.

Conventions:

- `u64`, `i64` and `u8` are bounded newtypes. The program's
  `checked_add`/`checked_sub` are `Primitives.CheckedAdd`/`CheckedSub`, which
  return `None` exactly where Rust does.
- A failed `unwrap_int!` is `Err(IntegerOverflow)`.
- A violated Anchor `has_one` constraint is `Err(ConstraintHasOne)`, and the
  account is left unchanged. The model treats this as an error path, not a
  precondition.
- An account's address (`.key()`) is the `const key` of its class.
- The clock is the parameter `currentTime`.

The state primitives write in the program's order. A field is assigned as
soon as its own checked step succeeds (`state.rs:109-110`, `142-143`,
`149-150`). So when a later step fails, an earlier field is already
written, and the postconditions give that exact state. The failing
instruction is then reverted by the runtime. `PartialMergePartialUnstaking`
and `TransferLockedAmountCorrected` make that revert explicit: every error
leaves all state unchanged.

Two facts about the code shape the model:

- The transfer request's `amount` is documented as the "Amount to transfer"
  (`transfer_locked_amount.rs:19`), but the execute step credits the
  destination with nothing. See Findings.
- A partial merge lowers the escrow's `partialUnstakingAmount` itself, by
  calling `merge_partial_unstaking_amount`
  (`partial_merge_partial_unstaking.rs:30`). The escrow's counters and the
  ticket are two separate writes, related by the `Ledger` ticket lemmas.

`partial_merge_partial_unstaking.rs` does not compile as written, so the
model follows its evident intent:

- `validate` uses `amount` and `partial_unstake`, which are not in scope
  there (`partial_merge_partial_unstaking.rs:53-54`). `PartialMerge.Validate`
  takes the instruction's `amount` and the ticket as parameters.
- The handler calls `merge_partial_unstaking_amount` on the ticket
  (`partial_merge_partial_unstaking.rs:31`). `PartialUnstaking` only defines
  `cancel_partial_unstaking_amount` (`state.rs:182`). The model shrinks the
  ticket with `CancelPartialUnstakingAmount`.

## Model

| member | source | states |
|---|---|---|
| `State.Accumulate` | programs/locked-voter/src/state.rs:140-145 | succeeds iff `a <= amount` and the reserved counter does not overflow; on success the reserved counter grows by `a` and `amount + partialUnstakingAmount` is unchanged |
| `State.Merge` | programs/locked-voter/src/state.rs:147-152 | succeeds iff `amount + a` fits in `u64` and `a <= partialUnstakingAmount`; on success `amount` grows by `a` and the sum of both counters is unchanged |
| `State.Withdraw` | programs/locked-voter/src/state.rs:154-158 | succeeds iff `a <= partialUnstakingAmount`; `amount` is untouched and the escrow's total drops by exactly `a` |
| `State.IncreaseLocked` | programs/locked-voter/src/state.rs:103-112 | succeeds iff both the escrow amount and the locker supply can absorb `lockAmount`; the amount grows by `lockAmount` and `lockedSupply - amount` is preserved |
| `State.AccumulateThenMergeRestores` | programs/locked-voter/src/state.rs:140-152 | a successful accumulate of `a` followed by a merge of `a` succeeds and restores both counters exactly |
| `State.MergeThenAccumulateRestores` | programs/locked-voter/src/state.rs:140-152 | a successful merge of `a` followed by an accumulate of `a` succeeds and restores both counters exactly |
| `State.Locker.constructor` | programs/locked-voter/src/state.rs:6-26 | a default locker: zero supply and escrow count, zero keys, the given parameters |
| `State.Escrow.constructor` | programs/locked-voter/src/state.rs:52-84 | a default escrow: both counters zero, zero lock window, not max-locked, zero keys |
| `State.Escrow.RecordIncreaseLockedAmountEvent` | programs/locked-voter/src/state.rs:103-112 | succeeds iff `IncreaseLocked` does, and then sets the escrow amount and the locker supply to its result; on failure the error is `IntegerOverflow`, the supply is unchanged, and the amount holds the program's partial write when only the supply overflowed; no other field can change |
| `State.Escrow.RecordExtendLockDurationEvent` | programs/locked-voter/src/state.rs:114-123 | sets `escrowStartedAt` and `escrowEndsAt` to exactly the given values; the frame allows no other field to change |
| `State.Escrow.GetRemainingDurationUntilExpiration` | programs/locked-voter/src/state.rs:125-139 | the locker's `maxStakeDuration` for a max-lock escrow, whatever the time; otherwise `max(0, escrowEndsAt - currentTime)`; fails only when that `i64` difference overflows |
| `State.RemainingDurationNonIncreasing` | programs/locked-voter/src/state.rs:125-139 | the remaining duration never grows as time passes, and for a max-lock escrow it is the same at every time |
| `State.Escrow.AccumulatePartialUnstakingAmount` | programs/locked-voter/src/state.rs:140-145 | succeeds iff `Accumulate` does and then leaves the counters at its result; on failure the reserved counter is unchanged and `amount` is lowered only if the subtraction had succeeded |
| `State.Escrow.MergePartialUnstakingAmount` | programs/locked-voter/src/state.rs:147-152 | succeeds iff `Merge` does and then leaves the counters at its result; on failure the reserved counter is unchanged and `amount` is raised only if the addition had succeeded |
| `State.Escrow.WithdrawPartialUnstakingAmount` | programs/locked-voter/src/state.rs:154-158 | succeeds iff `Withdraw` does and then leaves the counters at its result; only the reserved counter can change |
| `State.PartialUnstaking.constructor` | programs/locked-voter/src/state.rs:161-175 | a ticket with the given escrow, amount, expiration and memo |
| `State.PartialUnstaking.CancelPartialUnstakingAmount` | programs/locked-voter/src/state.rs:181-185 | succeeds iff `a <= amount` and then lowers the ticket amount by `a`; escrow, expiration and memo cannot change |
| `Ledger.IncreaseKeepsSupplyMatched` | programs/locked-voter/src/state.rs:103-112 | if the locker supply equals the sum of both counters over its escrows, it still does after a successful deposit into any one escrow |
| `Ledger.IncreaseFailsOnlyOnSupply` | programs/locked-voter/src/state.rs:103-112 | while the supply matches, a deposit fails exactly when the supply would overflow, so the escrow's own addition never fails first |
| `Ledger.AccumulateKeepsSupplyMatched` | programs/locked-voter/src/state.rs:140-145 | a successful accumulate in any one escrow, with the locker untouched, keeps the supply equal to the sum of both counters over the escrows |
| `Ledger.MergeKeepsSupplyMatched` | programs/locked-voter/src/instructions/partial_merge_partial_unstaking.rs:30 | any successful escrow merge, such as the one a partial merge makes with the locker only read, keeps the supply equal to the sum of both counters over the escrows |
| `Ledger.ActiveOnlySupplyBrokenByMerge` | programs/locked-voter/src/instructions/partial_merge_partial_unstaking.rs:30 | if the supply equalled the sum of active amounts only, a successful merge of any positive amount would raise that sum by exactly the amount and break the equality |
| `Ledger.WithdrawLowersSupplyBy` | programs/locked-voter/src/state.rs:154-158 | while the supply matches, withdrawing any `a` up to one escrow's reserved counter succeeds, `a` fits under the supply, and the escrows match the supply lowered by `a` |
| `Ledger.OpenKeepsTicketsMatched` | programs/locked-voter/src/state.rs:140-145 | if the reserved counter equals the sum of the escrow's tickets, it still does after accumulating `a` and adding a ticket of `a` |
| `Ledger.PartialMergeKeepsTicketsMatched` | programs/locked-voter/src/instructions/partial_merge_partial_unstaking.rs:22-41 | a partial merge of `0 < a < ticket` keeps the reserved counter equal to the tickets' sum, and the ticket stays positive |
| `Ledger.PartialMergeFailsOnlyOnAmount` | programs/locked-voter/src/instructions/partial_merge_partial_unstaking.rs:30 | while the tickets match, merging less than one ticket's amount fails only if the active amount overflows, never on the reserved counter |
| `Ledger.WithdrawKeepsTicketsMatched` | programs/locked-voter/src/state.rs:154-158 | while the tickets match, withdrawing one ticket's whole amount always succeeds and leaves the reserved counter equal to the remaining tickets' sum |
| `Ledger.TransferAsWrittenLosesSourceAmount` | programs/locked-voter/src/instructions/transfer_locked_amount.rs:115-116 | zeroing the source without crediting the destination makes the escrows hold the supply minus the source's old amount, so the supply no longer matches |
| `Ledger.TransferAsWrittenExample` | programs/locked-voter/src/instructions/transfer_locked_amount.rs:115-116 | source 5 and destination 7 with no reserved amounts under supply 12 end as 0 and 7, which sum to 7 |
| `Ledger.TransferKeepsSupplyMatched` | programs/locked-voter/src/instructions/transfer_locked_amount.rs:107-120 | when the supply matches, the corrected transfer's credit cannot overflow, and moving the source's whole amount to the destination keeps the supply matched |
| `PartialMerge.AccountsMatch` | programs/locked-voter/src/instructions/partial_merge_partial_unstaking.rs:11-15 | the definition of the instruction's `has_one` constraints (escrow to locker and owner, ticket to escrow); `PartialMergePartialUnstaking` fails with `ConstraintHasOne` exactly when it is false |
| `PartialMerge.Validate` | programs/locked-voter/src/instructions/partial_merge_partial_unstaking.rs:43-57 | passes iff the remaining duration exists and reaches `minStakeDuration` and `0 < amount < ticket.amount`; the error is `IntegerOverflow` exactly when the duration fails, `LockupDurationTooShort` exactly when it is too short, and otherwise `AmountIsZero` or `AmountIsTooLarge` by the amount check; on success the ticket would stay positive |
| `PartialMerge.MaxLockValidationIgnoresTime` | programs/locked-voter/src/instructions/partial_merge_partial_unstaking.rs:45-52 | for a max-lock escrow the gate gives the same verdict at every time, and rejects for duration exactly when `maxStakeDuration < minStakeDuration` |
| `PartialMerge.PartialMergePartialUnstaking` | programs/locked-voter/src/instructions/partial_merge_partial_unstaking.rs:4-41 | fails with `ConstraintHasOne` on mismatched accounts, then with the gate's error, then with `IntegerOverflow` if the escrow merge fails; on success the escrow counters are `Merge`'s result, their sum is unchanged, and the ticket shrinks by exactly `amount` and stays positive; on any failure nothing changes; the locker is never written |
| `Transfer.TransferRequest.constructor` | programs/locked-voter/src/instructions/transfer_locked_amount.rs:10-21 | a zeroed request account |
| `Transfer.EscrowsMatch` | programs/locked-voter/src/instructions/transfer_locked_amount.rs:48-52 | the escrows' `has_one` constraints: when they hold, both escrows share one locker and the source belongs to the owner |
| `Transfer.TransferAccountsMatch` | programs/locked-voter/src/instructions/transfer_locked_amount.rs:95-103 | the execute step's `has_one` constraints: when they hold, the escrows match and the request names the source's own owner, the source and the destination |
| `Transfer.NewTransferRequest` | programs/locked-voter/src/instructions/transfer_locked_amount.rs:59-70 | if both escrows belong to the locker and the source to the owner, it records the owner, the source and destination addresses and the source's current amount; the escrows are only read; otherwise `ConstraintHasOne` and the request is unchanged |
| `Transfer.TransferLockedAmount` | programs/locked-voter/src/instructions/transfer_locked_amount.rs:107-120 | as written: `ConstraintHasOne` unless the escrows, owner and request match, and `AmountIsZero` on an empty source; on success the source is 0 and the destination is unchanged, so the pair loses the source's old amount; the request snapshot is not consulted; the supply, reserved counters and windows cannot change |
| `Transfer.TransferLockedAmountCorrected` | programs/locked-voter/src/instructions/transfer_locked_amount.rs:107-120 | as intended: same guards, and one escrow named as both source and destination (equal keys) is refused with `SourceIsDestination` before any write; on success, for two distinct escrow accounts, the source is 0, the destination gains the source's old amount, and their sum is unchanged; an overflowing credit fails with exactly `IntegerOverflow` and nothing changed |
| `Scenarios.ResetEscrow` | programs/locked-voter/src/state.rs:207-213 | the escrow's amount leaves the supply, and its amount and lock window are cleared |
| `Scenarios.OneWeekScenario` | programs/locked-voter/src/state.rs:234-285 | after one deposit and a one-week lock, the supply equals the escrow's amount; after the exit it is 0 |
| `Scenarios.TwoUsersScenario` | programs/locked-voter/src/state.rs:302-386 | after two deposits, the supply is the sum of both amounts; after each exit, it is the sum of the remaining ones, ending at 0 |

## Left out

- The voting-power decay (`voting_power_at_time`, `voting_power`, `state.rs:90-101`) delegates to `calculate_voter_power` in `locker.rs`. `locker.rs` is not part of this model, and the decay formula is not modelled. The time helper it builds on, `GetRemainingDurationUntilExpiration`, is modelled.
- The voting-power expectations of the unit tests are floating-point and depend on the unmodelled decay. This covers `assert_escrow` and the expected amounts in `state.rs:215-232` and `261-275`. Only the tests' supply checks are modelled.
- The clock (`Clock::get()`) is the parameter `currentTime`.
- The following Solana and Anchor plumbing is not modelled: bump seeds, `buffers`/`padding` fields, `LEN` constants, account initialisation and payer, the system program, and event emission.
- The administrator address constraint (`transfer_locked_amount.rs:5-8`, `83`) is not modelled. The execute step does not check who signed.
- Token custody transfers, governance voting and the other instructions are outside this model. The other instructions are creating lockers and escrows, extending and max-locking, withdrawing, and opening, merging and settling tickets. They are only reached here through the primitives they call and the `Ledger` lemmas about them.
- A ticket's `memo` is carried unchanged and has no behaviour.
- `NewTransferRequest`: Anchor's `init` rejects a request account that already exists. The model takes the request object as given.
- `Transfer.TransferLockedAmount`: one escrow account passed as both source and destination arrives as two copies. The model accepts that as two `Escrow` objects with the same `key` and gives each copy its own final value; which copy is written back last, and so what the one account ends with, is not modelled. The same object passed twice is excluded by a precondition.
- `Scenarios.ResetEscrow`: requires the escrow's amount not to exceed the supply. The test helper's plain `-=` would panic on underflow instead.

## Findings

| source | as written | input that shows it | evidently intended | confidence | as-written member | corrected member |
|---|---|---|---|---|---|---|
| programs/locked-voter/src/instructions/transfer_locked_amount.rs:115-116 | the source's `amount` is set to 0 before it is read for the destination's credit, so the destination is credited 0 | source amount 5, destination amount 7, supply 12: afterwards source 0, destination 7, the escrows sum to 7 while the supply stays 12 | refuse one escrow named as both source and destination, and for two distinct escrow accounts credit the destination with the source's amount from before zeroing (destination 12), which keeps the supply equal to the escrows' sum | high (not executed) | `Transfer.TransferLockedAmount`, `Ledger.TransferAsWrittenLosesSourceAmount`, `Ledger.TransferAsWrittenExample` | `Transfer.TransferLockedAmountCorrected`, `Ledger.TransferKeepsSupplyMatched` |
