/**
 * The administrative transfer of an escrow's whole locked amount to another
 * escrow of the same locker, in two steps: the source's owner records a
 * `TransferRequest`, then the administrator executes it.
 *
 * The execute step is modelled twice. `TransferLockedAmount` follows the
 * program as written: it zeroes the source and only then reads the
 * source's amount to credit the destination, so the destination is
 * credited nothing. `TransferLockedAmountCorrected` reads the amount before
 * zeroing, which is what the transfer is for.
 */
module Transfer {
  import opened Primitives
  import opened Errors
  import opened State

  /** A recorded request to move the source escrow's locked amount. */
  class TransferRequest {
    /** The account's address. */
    const key: Pubkey
    var owner: Pubkey
    var escrowSource: Pubkey
    var escrowDestination: Pubkey
    /** The source's amount when the request was made. */
    var amount: u64

    /** A freshly initialised, zeroed request account. */
    constructor (key: Pubkey)
      ensures this.key == key
      ensures owner == 0 && escrowSource == 0 && escrowDestination == 0 && amount == 0
    {
      this.key := key;
      owner, escrowSource, escrowDestination, amount := 0, 0, 0, 0;
    }
  }

  /**
   * The escrows' `has_one` constraints: both escrows belong to the locker,
   * and the source to `owner`. So the two escrows share one locker.
   */
  predicate EscrowsMatch(owner: Pubkey, locker: Locker, escrowSource: Escrow, escrowDestination: Escrow)
    reads escrowSource, escrowDestination
    ensures EscrowsMatch(owner, locker, escrowSource, escrowDestination) ==>
              escrowSource.locker == escrowDestination.locker && escrowSource.owner == owner
  {
    escrowSource.locker == locker.key && escrowSource.owner == owner &&
    escrowDestination.locker == locker.key
  }

  /**
   * The execute step's `has_one` constraints: the escrows match, and the
   * request names exactly this owner, source and destination. So the
   * request's owner is the source escrow's owner.
   */
  predicate TransferAccountsMatch(owner: Pubkey, locker: Locker, escrowSource: Escrow,
                                  escrowDestination: Escrow, request: TransferRequest)
    reads escrowSource, escrowDestination, request
    ensures TransferAccountsMatch(owner, locker, escrowSource, escrowDestination, request) ==>
              EscrowsMatch(owner, locker, escrowSource, escrowDestination) &&
              request.owner == escrowSource.owner &&
              request.escrowSource == escrowSource.key && request.escrowDestination == escrowDestination.key
  {
    EscrowsMatch(owner, locker, escrowSource, escrowDestination) &&
    request.owner == owner && request.escrowSource == escrowSource.key &&
    request.escrowDestination == escrowDestination.key
  }

  /**
   * Record a request: the owner, both escrow addresses, and a snapshot of
   * the source's current amount. The escrows are only read.
   */
  method NewTransferRequest(request: TransferRequest, owner: Pubkey, locker: Locker,
                            escrowSource: Escrow, escrowDestination: Escrow)
    returns (r: Outcome)
    modifies request
    ensures r == Ok <==> EscrowsMatch(owner, locker, escrowSource, escrowDestination)
    ensures r.Err? ==> r.error == ConstraintHasOne && unchanged(request)
    ensures r == Ok ==> request.owner == owner && request.escrowSource == escrowSource.key
    ensures r == Ok ==> request.escrowDestination == escrowDestination.key
    ensures r == Ok ==> request.amount == escrowSource.amount
    ensures r == Ok ==> TransferAccountsMatch(owner, locker, escrowSource, escrowDestination, request)
  {
    if !EscrowsMatch(owner, locker, escrowSource, escrowDestination) {
      return Err(ConstraintHasOne);
    }
    request.owner := owner;
    request.escrowSource := escrowSource.key;
    request.escrowDestination := escrowDestination.key;
    request.amount := escrowSource.amount;
    return Ok;
  }

  /**
   * Execute a request, as the program is written. The source must hold a
   * nonzero amount; it is zeroed, and the destination is credited with the
   * source's amount read after zeroing, that is with nothing. The two
   * escrows together lose the source's old amount. The request's snapshot,
   * the locker's supply, the reserved counters and the lock windows are
   * not touched.
   */
  method TransferLockedAmount(owner: Pubkey, locker: Locker, escrowSource: Escrow,
                              escrowDestination: Escrow, request: TransferRequest)
    returns (r: Outcome)
    requires escrowSource != escrowDestination
    modifies escrowSource`amount, escrowDestination`amount
    ensures !old(TransferAccountsMatch(owner, locker, escrowSource, escrowDestination, request))
            ==> r == Err(ConstraintHasOne)
    ensures r == Ok <==> (old(TransferAccountsMatch(owner, locker, escrowSource, escrowDestination, request)) &&
                          old(escrowSource.amount) > 0)
    ensures r == Err(Program(AmountIsZero)) <==>
              (old(TransferAccountsMatch(owner, locker, escrowSource, escrowDestination, request)) &&
               old(escrowSource.amount) == 0)
    ensures r == Ok ==> escrowSource.amount == 0 && escrowDestination.amount == old(escrowDestination.amount)
    ensures r == Ok ==> escrowSource.amount as int + escrowDestination.amount as int
                        == old(escrowSource.amount) as int + old(escrowDestination.amount) as int
                           - old(escrowSource.amount) as int
    ensures r != Ok ==> escrowSource.amount == old(escrowSource.amount)
                        && escrowDestination.amount == old(escrowDestination.amount)
  {
    if !TransferAccountsMatch(owner, locker, escrowSource, escrowDestination, request) {
      return Err(ConstraintHasOne);
    }
    if escrowSource.amount == 0 {
      return Err(Program(AmountIsZero));
    }
    escrowSource.amount := 0;
    var credited := CheckedAdd(escrowDestination.amount, escrowSource.amount);
    // adding the just-zeroed source amount cannot overflow
    assert credited.Some?;
    escrowDestination.amount := credited.value;
    return Ok;
  }

  /**
   * Execute a request as intended. One escrow account named as both source
   * and destination would arrive as two copies, and crediting the second
   * copy with the first one's amount would double that account; so the
   * request is refused with `SourceIsDestination` before anything is
   * written. Otherwise the destination is credited with the source's amount
   * as it was before zeroing, so the two escrows together keep their value.
   * If the credit overflows, nothing changes.
   */
  method TransferLockedAmountCorrected(owner: Pubkey, locker: Locker, escrowSource: Escrow,
                                       escrowDestination: Escrow, request: TransferRequest)
    returns (r: Outcome)
    modifies escrowSource`amount, escrowDestination`amount
    ensures !old(TransferAccountsMatch(owner, locker, escrowSource, escrowDestination, request))
            ==> r == Err(ConstraintHasOne)
    ensures r == Err(SourceIsDestination) <==>
              (old(TransferAccountsMatch(owner, locker, escrowSource, escrowDestination, request)) &&
               escrowSource.key == escrowDestination.key)
    ensures r == Ok <==> (old(TransferAccountsMatch(owner, locker, escrowSource, escrowDestination, request)) &&
                          escrowSource.key != escrowDestination.key &&
                          old(escrowSource.amount) > 0 &&
                          old(escrowSource.amount) as int + old(escrowDestination.amount) as int <= U64_MAX)
    ensures r == Err(Program(AmountIsZero)) <==>
              (old(TransferAccountsMatch(owner, locker, escrowSource, escrowDestination, request)) &&
               escrowSource.key != escrowDestination.key &&
               old(escrowSource.amount) == 0)
    ensures r == Err(IntegerOverflow) <==>
              (old(TransferAccountsMatch(owner, locker, escrowSource, escrowDestination, request)) &&
               escrowSource.key != escrowDestination.key &&
               old(escrowSource.amount) > 0 &&
               old(escrowSource.amount) as int + old(escrowDestination.amount) as int > U64_MAX)
    ensures r == Ok ==> escrowSource != escrowDestination
    ensures r == Ok ==> escrowSource.amount == 0
    ensures r == Ok ==> escrowDestination.amount as int
                        == old(escrowDestination.amount) as int + old(escrowSource.amount) as int
    ensures r == Ok ==> escrowSource.amount as int + escrowDestination.amount as int
                        == old(escrowSource.amount) as int + old(escrowDestination.amount) as int
    ensures r != Ok ==> escrowSource.amount == old(escrowSource.amount)
                        && escrowDestination.amount == old(escrowDestination.amount)
  {
    if !TransferAccountsMatch(owner, locker, escrowSource, escrowDestination, request) {
      return Err(ConstraintHasOne);
    }
    if escrowSource.key == escrowDestination.key {
      return Err(SourceIsDestination);
    }
    if escrowSource.amount == 0 {
      return Err(Program(AmountIsZero));
    }
    var amount := escrowSource.amount;
    escrowSource.amount := 0;
    var credited := CheckedAdd(escrowDestination.amount, amount);
    if credited.None? {
      escrowSource.amount := amount;
      return Err(IntegerOverflow);
    }
    escrowDestination.amount := credited.value;
    return Ok;
  }
}
