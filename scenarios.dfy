/**
 * The bookkeeping half of the program's unit tests for deposits: after
 * each deposit and after each exit, the locker's supply equals the sum of
 * its escrows' amounts (no ticket is open, so the reserved counters are
 * 0). Voting-power expectations are not part of this
 * model.
 */
module Scenarios {
  import opened Primitives
  import opened Errors
  import opened State

  const HOUR: i64 := 3600
  const WEEK: i64 := 7 * 24 * 3600
  const MAX_TIME: u64 := 4 * 365 * 24 * 3600
  const CANONICAL_START_TIME: i64 := 1635379200
  const DEFAULT_LOCK_AMOUNT: u64 := 1_000_000_000_000_000

  /**
   * The test helper `reset_escrow`: the escrow's amount leaves the locker's
   * supply and its lock window is cleared.
   */
  method ResetEscrow(locker: Locker, escrow: Escrow)
    requires escrow.amount <= locker.lockedSupply
    modifies locker`lockedSupply, escrow`amount, escrow`escrowStartedAt, escrow`escrowEndsAt
    ensures locker.lockedSupply as int == old(locker.lockedSupply) as int - old(escrow.amount) as int
    ensures escrow.amount == 0 && escrow.escrowStartedAt == 0 && escrow.escrowEndsAt == 0
  {
    locker.lockedSupply := locker.lockedSupply - escrow.amount;
    escrow.amount := 0;
    escrow.escrowStartedAt := 0;
    escrow.escrowEndsAt := 0;
  }

  /**
   * One escrow deposits and locks for a week, then exits. Returns the
   * supply while locked and after the exit.
   */
  method OneWeekScenario() returns (lockedWhileOpen: u64, lockedAfterExit: u64)
    ensures lockedWhileOpen == DEFAULT_LOCK_AMOUNT
    ensures lockedAfterExit == 0
  {
    var locker := new Locker(1, LockerParams(1, 0, MAX_TIME, 0));
    var alice := new Escrow(2);
    var now := CANONICAL_START_TIME + HOUR;
    var r := alice.RecordIncreaseLockedAmountEvent(locker, DEFAULT_LOCK_AMOUNT);
    assert r == Ok;
    alice.RecordExtendLockDurationEvent(now, now + WEEK);
    assert locker.lockedSupply == alice.amount;
    lockedWhileOpen := locker.lockedSupply;
    ResetEscrow(locker, alice);
    lockedAfterExit := locker.lockedSupply;
  }

  /**
   * Two escrows deposit the same amount, for two weeks and one week, then
   * exit one after the other. Returns the supply while both are locked,
   * after the first exit, and after the second.
   */
  method TwoUsersScenario() returns (lockedBoth: u64, lockedAfterAlice: u64, lockedAfterBob: u64)
    ensures lockedBoth as int == 2 * DEFAULT_LOCK_AMOUNT as int
    ensures lockedAfterAlice == DEFAULT_LOCK_AMOUNT
    ensures lockedAfterBob == 0
  {
    var locker := new Locker(1, LockerParams(1, 0, MAX_TIME, 0));
    var alice := new Escrow(2);
    var bob := new Escrow(3);
    var now := CANONICAL_START_TIME + HOUR;
    var r := alice.RecordIncreaseLockedAmountEvent(locker, DEFAULT_LOCK_AMOUNT);
    assert r == Ok;
    alice.RecordExtendLockDurationEvent(now, now + 2 * WEEK);
    r := bob.RecordIncreaseLockedAmountEvent(locker, DEFAULT_LOCK_AMOUNT);
    assert r == Ok;
    bob.RecordExtendLockDurationEvent(now, now + WEEK);
    assert locker.lockedSupply as int == bob.amount as int + alice.amount as int;
    lockedBoth := locker.lockedSupply;
    ResetEscrow(locker, alice);
    assert locker.lockedSupply == bob.amount;
    lockedAfterAlice := locker.lockedSupply;
    ResetEscrow(locker, bob);
    lockedAfterBob := locker.lockedSupply;
  }
}
