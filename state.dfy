/**
 * The accounts of the locked voter (`Locker`, `Escrow`, `PartialUnstaking`)
 * and the primitives that move balances between an escrow's two counters,
 * its locker's supply and a partial-unstaking ticket.
 *
 * Each primitive is modelled in the order the program writes: a field is
 * assigned as soon as its checked operation succeeds, so a failing later
 * step can leave an earlier field already written. The postconditions say
 * exactly which fields hold which values in that case; the instruction that
 * called the primitive then fails and the runtime discards its writes.
 */
module State {
  import opened Primitives
  import opened Errors

  /** Mutable configuration of a locker (`LockerParams`). */
  datatype LockerParams = LockerParams(
    maxStakeVoteMultiplier: u8,
    minStakeDuration: u64,
    maxStakeDuration: u64,
    proposalActivationMinVotes: u64)

  /** The two counters of an escrow: active `amount` and the part reserved in tickets. */
  datatype EscrowBalances = EscrowBalances(amount: u64, partialUnstakingAmount: u64)

  /** The value an escrow holds in both counters together. */
  function Total(b: EscrowBalances): (r: int)
  {
    b.amount as int + b.partialUnstakingAmount as int
  }

  /**
   * Value-level effect of `accumulate_partial_unstaking_amount`: move `a`
   * from the active amount into the partial-unstaking counter.
   */
  function Accumulate(b: EscrowBalances, a: u64): (r: Option<EscrowBalances>)
    ensures r.Some? <==> a <= b.amount && b.partialUnstakingAmount as int + a as int <= U64_MAX
    ensures r.Some? ==> Total(r.value) == Total(b)
    ensures r.Some? ==> r.value.partialUnstakingAmount as int == b.partialUnstakingAmount as int + a as int
  {
    match CheckedSub(b.amount, a)
    case None => None
    case Some(amount) =>
      match CheckedAdd(b.partialUnstakingAmount, a)
      case None => None
      case Some(partial) => Some(EscrowBalances(amount, partial))
  }

  /**
   * Value-level effect of `merge_partial_unstaking_amount`: move `a` back
   * from the partial-unstaking counter into the active amount.
   */
  function Merge(b: EscrowBalances, a: u64): (r: Option<EscrowBalances>)
    ensures r.Some? <==> b.amount as int + a as int <= U64_MAX && a <= b.partialUnstakingAmount
    ensures r.Some? ==> Total(r.value) == Total(b)
    ensures r.Some? ==> r.value.amount as int == b.amount as int + a as int
  {
    match CheckedAdd(b.amount, a)
    case None => None
    case Some(amount) =>
      match CheckedSub(b.partialUnstakingAmount, a)
      case None => None
      case Some(partial) => Some(EscrowBalances(amount, partial))
  }

  /**
   * Value-level effect of `withdraw_partial_unstaking_amount`: `a` leaves
   * the escrow from its partial-unstaking counter only.
   */
  function Withdraw(b: EscrowBalances, a: u64): (r: Option<EscrowBalances>)
    ensures r.Some? <==> a <= b.partialUnstakingAmount
    ensures r.Some? ==> r.value.amount == b.amount && Total(r.value) == Total(b) - a as int
  {
    match CheckedSub(b.partialUnstakingAmount, a)
    case None => None
    case Some(partial) => Some(EscrowBalances(b.amount, partial))
  }

  /**
   * Value-level effect of `record_increase_locked_amount_event` on the pair
   * (escrow amount, locker supply): both grow by `lockAmount`.
   */
  function IncreaseLocked(amount: u64, lockedSupply: u64, lockAmount: u64): (r: Option<(u64, u64)>)
    ensures r.Some? <==> (amount as int + lockAmount as int <= U64_MAX &&
                          lockedSupply as int + lockAmount as int <= U64_MAX)
    ensures r.Some? ==> r.value.1 as int - r.value.0 as int == lockedSupply as int - amount as int
    ensures r.Some? ==> r.value.0 as int == amount as int + lockAmount as int
  {
    match CheckedAdd(amount, lockAmount)
    case None => None
    case Some(a) =>
      match CheckedAdd(lockedSupply, lockAmount)
      case None => None
      case Some(s) => Some((a, s))
  }

  /** Accumulating and then merging the same amount restores both counters. */
  lemma AccumulateThenMergeRestores(b: EscrowBalances, a: u64)
    requires Accumulate(b, a).Some?
    ensures Merge(Accumulate(b, a).value, a) == Some(b)
  {
  }

  /** Merging and then accumulating the same amount restores both counters. */
  lemma MergeThenAccumulateRestores(b: EscrowBalances, a: u64)
    requires Merge(b, a).Some?
    ensures Accumulate(Merge(b, a).value, a) == Some(b)
  {
  }

  /** A group of escrows for one token mint. */
  class Locker {
    /** The account's address. */
    const key: Pubkey
    var base: Pubkey
    var tokenMint: Pubkey
    /** Total number of tokens locked in the locker's escrows. */
    var lockedSupply: u64
    var totalEscrow: u64
    var governor: Pubkey
    var params: LockerParams

    /** A zeroed locker (`Locker::default()`) with the given parameters. */
    constructor (key: Pubkey, params: LockerParams)
      ensures this.key == key && this.params == params
      ensures lockedSupply == 0 && totalEscrow == 0
      ensures base == 0 && tokenMint == 0 && governor == 0
    {
      this.key := key;
      this.params := params;
      base, tokenMint, governor := 0, 0, 0;
      lockedSupply, totalEscrow := 0, 0;
    }
  }

  /** One owner's locked position within a locker. */
  class Escrow {
    /** The account's address. */
    const key: Pubkey
    var locker: Pubkey
    var owner: Pubkey
    var tokens: Pubkey
    /** Tokens currently locked and counted for voting. */
    var amount: u64
    var escrowStartedAt: i64
    var escrowEndsAt: i64
    var voteDelegate: Pubkey
    var isMaxLock: bool
    /** Tokens reserved in this escrow's open partial-unstaking tickets. */
    var partialUnstakingAmount: u64

    /** A zeroed escrow (`Escrow::default()`). */
    constructor (key: Pubkey)
      ensures this.key == key
      ensures locker == 0 && owner == 0 && tokens == 0 && voteDelegate == 0
      ensures amount == 0 && partialUnstakingAmount == 0 && !isMaxLock
      ensures escrowStartedAt == 0 && escrowEndsAt == 0
    {
      this.key := key;
      locker, owner, tokens, voteDelegate := 0, 0, 0, 0;
      amount, partialUnstakingAmount := 0, 0;
      escrowStartedAt, escrowEndsAt := 0, 0;
      isMaxLock := false;
    }

    function Balances(): (r: EscrowBalances)
      reads this
    {
      EscrowBalances(amount, partialUnstakingAmount)
    }

    /**
     * Deposit `lockAmount`: the escrow's amount and the locker's supply both
     * grow by it. The escrow is written first; if the supply then overflows,
     * the escrow keeps its new amount and the instruction fails.
     */
    method RecordIncreaseLockedAmountEvent(locker: Locker, lockAmount: u64) returns (r: Outcome)
      modifies this`amount, locker`lockedSupply
      ensures var next := IncreaseLocked(old(amount), old(locker.lockedSupply), lockAmount);
              (r == Ok <==> next.Some?) &&
              (next.Some? ==> amount == next.value.0 && locker.lockedSupply == next.value.1)
      ensures r.Err? ==> r.error == IntegerOverflow
      ensures r.Err? ==> locker.lockedSupply == old(locker.lockedSupply)
      ensures r.Err? ==> amount == if old(amount) as int + lockAmount as int <= U64_MAX
                                   then old(amount) + lockAmount else old(amount)
    {
      var a := CheckedAdd(amount, lockAmount);
      if a.None? {
        return Err(IntegerOverflow);
      }
      amount := a.value;
      var s := CheckedAdd(locker.lockedSupply, lockAmount);
      if s.None? {
        return Err(IntegerOverflow);
      }
      locker.lockedSupply := s.value;
      return Ok;
    }

    /** Overwrite the lock window; nothing else changes. */
    method RecordExtendLockDurationEvent(nextEscrowStartedAt: i64, nextEscrowEndsAt: i64)
      modifies this`escrowStartedAt, this`escrowEndsAt
      ensures escrowStartedAt == nextEscrowStartedAt
      ensures escrowEndsAt == nextEscrowEndsAt
    {
      escrowStartedAt := nextEscrowStartedAt;
      escrowEndsAt := nextEscrowEndsAt;
    }

    /**
     * Time left before the escrow expires, as seen at `currentTime`: the
     * locker's maximum stake duration for a max-lock escrow, otherwise
     * max(0, escrowEndsAt - currentTime). The only failure is the `i64`
     * subtraction overflowing.
     */
    function GetRemainingDurationUntilExpiration(currentTime: i64, locker: Locker): (r: Option<u64>)
      reads this, locker
      ensures isMaxLock ==> r == Some(locker.params.maxStakeDuration)
      ensures !isMaxLock ==> (r.None? <==> escrowEndsAt as int - currentTime as int > I64_MAX)
      ensures !isMaxLock && r.Some? ==>
                r.value as int == if escrowEndsAt < currentTime then 0 else escrowEndsAt as int - currentTime as int
    {
      if isMaxLock then
        Some(locker.params.maxStakeDuration)
      else if escrowEndsAt < currentTime then
        Some(0)
      else
        match CheckedSubI64(escrowEndsAt, currentTime)
        case None => None
        case Some(duration) => Some(duration as int as u64)
    }

    /**
     * Move `a` from `amount` into `partialUnstakingAmount`. If the second
     * step overflows, `amount` has already been lowered.
     */
    method AccumulatePartialUnstakingAmount(a: u64) returns (ok: bool)
      modifies this`amount, this`partialUnstakingAmount
      ensures ok <==> Accumulate(old(Balances()), a).Some?
      ensures ok ==> Balances() == Accumulate(old(Balances()), a).value
      ensures !ok ==> partialUnstakingAmount == old(partialUnstakingAmount)
      ensures !ok ==> amount == if a <= old(amount) then old(amount) - a else old(amount)
    {
      var next := CheckedSub(amount, a);
      if next.None? {
        return false;
      }
      amount := next.value;
      var partial := CheckedAdd(partialUnstakingAmount, a);
      if partial.None? {
        return false;
      }
      partialUnstakingAmount := partial.value;
      return true;
    }

    /**
     * Move `a` from `partialUnstakingAmount` back into `amount`. If the
     * second step underflows, `amount` has already been raised.
     */
    method MergePartialUnstakingAmount(a: u64) returns (ok: bool)
      modifies this`amount, this`partialUnstakingAmount
      ensures ok <==> Merge(old(Balances()), a).Some?
      ensures ok ==> Balances() == Merge(old(Balances()), a).value
      ensures !ok ==> partialUnstakingAmount == old(partialUnstakingAmount)
      ensures !ok ==> amount == if old(amount) as int + a as int <= U64_MAX
                               then old(amount) + a else old(amount)
    {
      var next := CheckedAdd(amount, a);
      if next.None? {
        return false;
      }
      amount := next.value;
      var partial := CheckedSub(partialUnstakingAmount, a);
      if partial.None? {
        return false;
      }
      partialUnstakingAmount := partial.value;
      return true;
    }

    /** Release `a` from `partialUnstakingAmount`; `amount` is not touched. */
    method WithdrawPartialUnstakingAmount(a: u64) returns (ok: bool)
      modifies this`partialUnstakingAmount
      ensures ok <==> Withdraw(old(Balances()), a).Some?
      ensures ok ==> Balances() == Withdraw(old(Balances()), a).value
      ensures !ok ==> partialUnstakingAmount == old(partialUnstakingAmount)
    {
      var partial := CheckedSub(partialUnstakingAmount, a);
      if partial.None? {
        return false;
      }
      partialUnstakingAmount := partial.value;
      return true;
    }
  }

  /**
   * A remaining duration never grows as time passes, and for a max-lock
   * escrow it does not depend on time at all.
   */
  lemma RemainingDurationNonIncreasing(e: Escrow, locker: Locker, t1: i64, t2: i64)
    requires t1 <= t2
    requires e.GetRemainingDurationUntilExpiration(t1, locker).Some?
    ensures e.GetRemainingDurationUntilExpiration(t2, locker).Some?
    ensures e.GetRemainingDurationUntilExpiration(t2, locker).value
         <= e.GetRemainingDurationUntilExpiration(t1, locker).value
    ensures e.isMaxLock ==>
              e.GetRemainingDurationUntilExpiration(t2, locker) == e.GetRemainingDurationUntilExpiration(t1, locker)
  {
  }

  /** One pending early-exit ticket of an escrow. */
  class PartialUnstaking {
    /** The account's address. */
    const key: Pubkey
    var escrow: Pubkey
    var amount: u64
    var expiration: i64
    var memo: string

    constructor (key: Pubkey, escrow: Pubkey, amount: u64, expiration: i64, memo: string)
      ensures this.key == key && this.escrow == escrow && this.amount == amount
      ensures this.expiration == expiration && this.memo == memo
    {
      this.key := key;
      this.escrow := escrow;
      this.amount := amount;
      this.expiration := expiration;
      this.memo := memo;
    }

    /** Shrink the ticket by `a`; its escrow, expiration and memo stay as they are. */
    method CancelPartialUnstakingAmount(a: u64) returns (ok: bool)
      modifies this`amount
      ensures ok <==> a <= old(amount)
      ensures ok ==> amount as int == old(amount) as int - a as int
      ensures !ok ==> amount == old(amount)
    {
      var next := CheckedSub(amount, a);
      if next.None? {
        return false;
      }
      amount := next.value;
      return true;
    }
  }
}
