/**
 * The `partial_merge_partial_unstaking` instruction: return part of an open
 * ticket to its escrow's active amount.
 *
 * The instruction runs in three stages: the account relationship
 * constraints, the validation gate, then the update of the escrow's two
 * counters and the ticket. A failure at any stage fails the whole
 * instruction and the runtime discards every write it made; the update
 * below restores the escrow's counters to say so explicitly.
 */
module PartialMerge {
  import opened Primitives
  import opened Errors
  import opened State

  /** The `has_one` constraints: the escrow belongs to the locker and the owner, the ticket to the escrow. */
  predicate AccountsMatch(locker: Locker, escrow: Escrow, ticket: PartialUnstaking, owner: Pubkey)
    reads escrow, ticket
  {
    escrow.locker == locker.key && escrow.owner == owner && ticket.escrow == escrow.key
  }

  /**
   * The validation gate: the escrow must stay locked for at least the
   * minimum stake duration, and `0 < amount < ticket.amount`, checked in
   * that order.
   */
  function Validate(locker: Locker, escrow: Escrow, ticket: PartialUnstaking, amount: u64, currentTime: i64): (r: Outcome)
    reads locker, escrow, ticket
    ensures var d := escrow.GetRemainingDurationUntilExpiration(currentTime, locker);
            && (r == Ok <==> d.Some? && d.value >= locker.params.minStakeDuration && 0 < amount < ticket.amount)
            && (r == Err(IntegerOverflow) <==> d.None?)
            && (r == Err(Program(LockupDurationTooShort)) <==> d.Some? && d.value < locker.params.minStakeDuration)
            && (r == Err(Program(AmountIsZero)) ==> amount == 0)
            && (r == Err(Program(AmountIsTooLarge)) ==> 0 < amount && ticket.amount <= amount)
    ensures r.Err? ==> r.error in {IntegerOverflow, Program(LockupDurationTooShort),
                                   Program(AmountIsZero), Program(AmountIsTooLarge)}
    ensures r == Ok ==> ticket.amount - amount > 0
  {
    match escrow.GetRemainingDurationUntilExpiration(currentTime, locker)
    case None => Err(IntegerOverflow)
    case Some(lockDuration) =>
      if lockDuration < locker.params.minStakeDuration then Err(Program(LockupDurationTooShort))
      else if amount == 0 then Err(Program(AmountIsZero))
      else if amount >= ticket.amount then Err(Program(AmountIsTooLarge))
      else Ok
  }

  /**
   * For a max-lock escrow the duration check does not depend on time: it
   * passes exactly when the locker's maximum stake duration reaches its
   * minimum.
   */
  lemma MaxLockValidationIgnoresTime(locker: Locker, escrow: Escrow, ticket: PartialUnstaking, amount: u64, t1: i64, t2: i64)
    requires escrow.isMaxLock
    ensures Validate(locker, escrow, ticket, amount, t1) == Validate(locker, escrow, ticket, amount, t2)
    ensures Validate(locker, escrow, ticket, amount, t1) == Err(Program(LockupDurationTooShort))
            <==> locker.params.maxStakeDuration < locker.params.minStakeDuration
  {
  }

  /**
   * Apply the instruction. On success the escrow's `amount` grows by
   * `amount`, its `partialUnstakingAmount` and the ticket shrink by it, and
   * the ticket stays open with a positive amount; on failure nothing
   * changes. The locker is only read.
   */
  method PartialMergePartialUnstaking(locker: Locker, escrow: Escrow, ticket: PartialUnstaking,
                                      owner: Pubkey, amount: u64, currentTime: i64)
    returns (r: Outcome)
    modifies escrow`amount, escrow`partialUnstakingAmount, ticket`amount
    ensures !old(AccountsMatch(locker, escrow, ticket, owner)) ==> r == Err(ConstraintHasOne)
    ensures (old(AccountsMatch(locker, escrow, ticket, owner)) &&
             old(Validate(locker, escrow, ticket, amount, currentTime)) != Ok)
            ==> r == old(Validate(locker, escrow, ticket, amount, currentTime))
    ensures r == Ok <==> (old(AccountsMatch(locker, escrow, ticket, owner)) &&
                          old(Validate(locker, escrow, ticket, amount, currentTime)) == Ok &&
                          Merge(old(escrow.Balances()), amount).Some?)
    ensures (old(AccountsMatch(locker, escrow, ticket, owner)) &&
             old(Validate(locker, escrow, ticket, amount, currentTime)) == Ok &&
             Merge(old(escrow.Balances()), amount).None?)
            ==> r == Err(IntegerOverflow)
    ensures r == Ok ==> escrow.Balances() == Merge(old(escrow.Balances()), amount).value
    ensures r == Ok ==> ticket.amount as int == old(ticket.amount) as int - amount as int > 0
    ensures r == Ok ==> Total(escrow.Balances()) == Total(old(escrow.Balances()))
    ensures r != Ok ==> escrow.Balances() == old(escrow.Balances()) && ticket.amount == old(ticket.amount)
  {
    if !AccountsMatch(locker, escrow, ticket, owner) {
      return Err(ConstraintHasOne);
    }
    r := Validate(locker, escrow, ticket, amount, currentTime);
    if r != Ok {
      return;
    }
    var savedAmount, savedPartial := escrow.amount, escrow.partialUnstakingAmount;
    var merged := escrow.MergePartialUnstakingAmount(amount);
    if !merged {
      escrow.amount, escrow.partialUnstakingAmount := savedAmount, savedPartial;
      return Err(IntegerOverflow);
    }
    var cancelled := ticket.CancelPartialUnstakingAmount(amount);
    // the gate guarantees amount < ticket.amount, so this step cannot fail
    assert cancelled;
    return Ok;
  }
}
