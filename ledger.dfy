/**
 * Conservation across accounts.
 *
 * A locker's escrows are listed as a sequence of their two counters
 * (`EscrowBalances`), and an escrow's open tickets as a sequence of their
 * amounts. Each lemma shows what one primitive or instruction, applied at
 * one position of such a list, does to the relation between the list and
 * the aggregate counter above it.
 *
 * The relation the modelled primitives keep for the locker counts BOTH
 * counters of every escrow: `lockedSupply == Σ (amount +
 * partialUnstakingAmount)`. A deposit adds to `amount` and to the supply
 * together, while moving value between an escrow's two counters
 * (accumulate, merge, partial merge) leaves the supply alone. A relation
 * counting `amount` only would be broken by every such move
 * (`ActiveOnlySupplyBrokenByMerge`).
 */
module Ledger {
  import opened Primitives
  import opened State

  function Sum(s: seq<u64>): (r: int)
  {
    if s == [] then 0 else s[0] as int + Sum(s[1..])
  }

  /** Both counters, summed over the escrows. */
  function SumTotals(escrows: seq<EscrowBalances>): (r: int)
  {
    if escrows == [] then 0 else Total(escrows[0]) + SumTotals(escrows[1..])
  }

  /** The active amounts only, summed over the escrows. */
  function SumActive(escrows: seq<EscrowBalances>): (r: int)
  {
    if escrows == [] then 0 else escrows[0].amount as int + SumActive(escrows[1..])
  }

  /** `lockedSupply` matches the tokens held by its locker's escrows. */
  predicate SupplyMatches(lockedSupply: u64, escrows: seq<EscrowBalances>)
  {
    lockedSupply as int == SumTotals(escrows)
  }

  /** `partialUnstakingAmount` matches the amounts of the escrow's open tickets. */
  predicate TicketsMatch(partialUnstakingAmount: u64, tickets: seq<u64>)
  {
    partialUnstakingAmount as int == Sum(tickets)
  }

  lemma {:induction false} SumNonNegative(s: seq<u64>)
    ensures Sum(s) >= 0
  {
    if s != [] {
      SumNonNegative(s[1..]);
    }
  }

  /** Replacing one element changes the sum by the difference. */
  lemma {:induction false} SumUpdate(s: seq<u64>, i: nat, v: u64)
    requires i < |s|
    ensures Sum(s[i := v]) == Sum(s) - s[i] as int + v as int
  {
    if i == 0 {
      assert s[i := v][1..] == s[1..];
    } else {
      assert s[i := v][1..] == s[1..][i - 1 := v];
      SumUpdate(s[1..], i - 1, v);
    }
  }

  lemma {:induction false} SumConcat(s: seq<u64>, t: seq<u64>)
    ensures Sum(s + t) == Sum(s) + Sum(t)
  {
    if s == [] {
      assert s + t == t;
    } else {
      assert (s + t)[1..] == s[1..] + t;
      SumConcat(s[1..], t);
    }
  }

  /** No single element exceeds the sum. */
  lemma {:induction false} ElementAtMostSum(s: seq<u64>, i: nat)
    requires i < |s|
    ensures s[i] as int <= Sum(s)
  {
    SumUpdate(s, i, 0);
    SumNonNegative(s[i := 0]);
  }

  lemma {:induction false} SumTotalsNonNegative(escrows: seq<EscrowBalances>)
    ensures SumTotals(escrows) >= 0
  {
    if escrows != [] {
      SumTotalsNonNegative(escrows[1..]);
    }
  }

  /** Replacing one escrow changes the summed totals by the difference of its totals. */
  lemma {:induction false} SumTotalsUpdate(escrows: seq<EscrowBalances>, i: nat, b: EscrowBalances)
    requires i < |escrows|
    ensures SumTotals(escrows[i := b]) == SumTotals(escrows) - Total(escrows[i]) + Total(b)
  {
    if i == 0 {
      assert escrows[i := b][1..] == escrows[1..];
    } else {
      assert escrows[i := b][1..] == escrows[1..][i - 1 := b];
      SumTotalsUpdate(escrows[1..], i - 1, b);
    }
  }

  /** Replacing one escrow changes the summed active amounts by the difference of its amounts. */
  lemma {:induction false} SumActiveUpdate(escrows: seq<EscrowBalances>, i: nat, b: EscrowBalances)
    requires i < |escrows|
    ensures SumActive(escrows[i := b]) == SumActive(escrows) - escrows[i].amount as int + b.amount as int
  {
    if i == 0 {
      assert escrows[i := b][1..] == escrows[1..];
    } else {
      assert escrows[i := b][1..] == escrows[1..][i - 1 := b];
      SumActiveUpdate(escrows[1..], i - 1, b);
    }
  }

  /** No two distinct escrows together hold more than the summed totals. */
  lemma PairAtMostSumTotals(escrows: seq<EscrowBalances>, i: nat, j: nat)
    requires i < |escrows| && j < |escrows| && i != j
    ensures Total(escrows[i]) + Total(escrows[j]) <= SumTotals(escrows)
  {
    var zero := EscrowBalances(0, 0);
    SumTotalsUpdate(escrows, i, zero);
    SumTotalsUpdate(escrows[i := zero], j, zero);
    SumTotalsNonNegative(escrows[i := zero][j := zero]);
  }

  /** No escrow holds more than the summed totals. */
  lemma TotalAtMostSumTotals(escrows: seq<EscrowBalances>, i: nat)
    requires i < |escrows|
    ensures Total(escrows[i]) <= SumTotals(escrows)
  {
    SumTotalsUpdate(escrows, i, EscrowBalances(0, 0));
    SumTotalsNonNegative(escrows[i := EscrowBalances(0, 0)]);
  }

  /**
   * A deposit into escrow `i` keeps the locker's supply equal to what its
   * escrows hold.
   */
  lemma IncreaseKeepsSupplyMatched(lockedSupply: u64, escrows: seq<EscrowBalances>, i: nat, lockAmount: u64)
    requires i < |escrows| && SupplyMatches(lockedSupply, escrows)
    requires IncreaseLocked(escrows[i].amount, lockedSupply, lockAmount).Some?
    ensures var next := IncreaseLocked(escrows[i].amount, lockedSupply, lockAmount).value;
            SupplyMatches(next.1, escrows[i := escrows[i].(amount := next.0)])
  {
    var next := IncreaseLocked(escrows[i].amount, lockedSupply, lockAmount).value;
    SumTotalsUpdate(escrows, i, escrows[i].(amount := next.0));
  }

  /**
   * While the supply matches, a deposit fails exactly when the supply
   * overflows: the escrow's own addition never fails first.
   */
  lemma IncreaseFailsOnlyOnSupply(lockedSupply: u64, escrows: seq<EscrowBalances>, i: nat, lockAmount: u64)
    requires i < |escrows| && SupplyMatches(lockedSupply, escrows)
    ensures IncreaseLocked(escrows[i].amount, lockedSupply, lockAmount).None?
            <==> lockedSupply as int + lockAmount as int > U64_MAX
  {
    TotalAtMostSumTotals(escrows, i);
  }

  /**
   * Moving `a` into escrow `i`'s reserved counter (accumulate) leaves the
   * locker untouched and keeps its supply matched.
   */
  lemma AccumulateKeepsSupplyMatched(lockedSupply: u64, escrows: seq<EscrowBalances>, i: nat, a: u64)
    requires i < |escrows| && SupplyMatches(lockedSupply, escrows)
    requires Accumulate(escrows[i], a).Some?
    ensures SupplyMatches(lockedSupply, escrows[i := Accumulate(escrows[i], a).value])
  {
    SumTotalsUpdate(escrows, i, Accumulate(escrows[i], a).value);
  }

  /**
   * Merging `a` back into escrow `i`'s active amount, whole ticket or part
   * of one (the partial merge's `merge_partial_unstaking_amount` step; the
   * locker is not written), keeps the locker's supply matched.
   */
  lemma MergeKeepsSupplyMatched(lockedSupply: u64, escrows: seq<EscrowBalances>, i: nat, a: u64)
    requires i < |escrows| && SupplyMatches(lockedSupply, escrows)
    requires Merge(escrows[i], a).Some?
    ensures SupplyMatches(lockedSupply, escrows[i := Merge(escrows[i], a).value])
  {
    SumTotalsUpdate(escrows, i, Merge(escrows[i], a).value);
  }

  /**
   * A supply counting active amounts only is NOT what the program keeps:
   * a successful merge of any positive `a`, with the locker untouched,
   * raises the active sum by exactly `a` and breaks that relation.
   */
  lemma ActiveOnlySupplyBrokenByMerge(lockedSupply: u64, escrows: seq<EscrowBalances>, i: nat, a: u64)
    requires i < |escrows| && lockedSupply as int == SumActive(escrows)
    requires 0 < a && Merge(escrows[i], a).Some?
    ensures SumActive(escrows[i := Merge(escrows[i], a).value]) == lockedSupply as int + a as int
    ensures lockedSupply as int != SumActive(escrows[i := Merge(escrows[i], a).value])
  {
    SumActiveUpdate(escrows, i, Merge(escrows[i], a).value);
  }

  /**
   * Withdrawing `a` from escrow `i`'s reserved counter takes it out of the
   * escrows, so the supply matches again only once it is lowered by `a`.
   */
  lemma WithdrawLowersSupplyBy(lockedSupply: u64, escrows: seq<EscrowBalances>, i: nat, a: u64)
    requires i < |escrows| && SupplyMatches(lockedSupply, escrows)
    requires a <= escrows[i].partialUnstakingAmount
    ensures a <= lockedSupply && Withdraw(escrows[i], a).Some?
    ensures SupplyMatches(lockedSupply - a, escrows[i := Withdraw(escrows[i], a).value])
  {
    TotalAtMostSumTotals(escrows, i);
    SumTotalsUpdate(escrows, i, Withdraw(escrows[i], a).value);
  }

  /**
   * Opening a ticket for `a` (accumulate, then add the ticket) keeps the
   * escrow's reserved counter equal to the sum of its tickets.
   */
  lemma OpenKeepsTicketsMatched(b: EscrowBalances, tickets: seq<u64>, a: u64)
    requires TicketsMatch(b.partialUnstakingAmount, tickets)
    requires Accumulate(b, a).Some?
    ensures TicketsMatch(Accumulate(b, a).value.partialUnstakingAmount, tickets + [a])
  {
    SumConcat(tickets, [a]);
    assert [a][1..] == [];
  }

  /**
   * A partial merge of `a` out of ticket `k` keeps the reserved counter
   * equal to the sum of the tickets, and the ticket stays open with a
   * positive amount.
   */
  lemma PartialMergeKeepsTicketsMatched(b: EscrowBalances, tickets: seq<u64>, k: nat, a: u64)
    requires k < |tickets| && TicketsMatch(b.partialUnstakingAmount, tickets)
    requires 0 < a < tickets[k]
    requires Merge(b, a).Some?
    ensures TicketsMatch(Merge(b, a).value.partialUnstakingAmount, tickets[k := tickets[k] - a])
    ensures tickets[k := tickets[k] - a][k] > 0
  {
    SumUpdate(tickets, k, tickets[k] - a);
  }

  /**
   * While the tickets match, merging less than one ticket's amount cannot
   * underflow the reserved counter: it fails only if `amount` overflows.
   */
  lemma PartialMergeFailsOnlyOnAmount(b: EscrowBalances, tickets: seq<u64>, k: nat, a: u64)
    requires k < |tickets| && TicketsMatch(b.partialUnstakingAmount, tickets)
    requires a < tickets[k]
    ensures Merge(b, a).None? <==> b.amount as int + a as int > U64_MAX
  {
    ElementAtMostSum(tickets, k);
  }

  /**
   * Settling ticket `k` (withdraw its whole amount, then close it) keeps the
   * reserved counter equal to the sum of the remaining tickets, and never
   * fails while the tickets match.
   */
  lemma WithdrawKeepsTicketsMatched(b: EscrowBalances, tickets: seq<u64>, k: nat)
    requires k < |tickets| && TicketsMatch(b.partialUnstakingAmount, tickets)
    ensures Withdraw(b, tickets[k]).Some?
    ensures TicketsMatch(Withdraw(b, tickets[k]).value.partialUnstakingAmount, tickets[..k] + tickets[k + 1..])
  {
    ElementAtMostSum(tickets, k);
    assert tickets == tickets[..k] + [tickets[k]] + tickets[k + 1..];
    SumConcat(tickets[..k] + [tickets[k]], tickets[k + 1..]);
    SumConcat(tickets[..k], [tickets[k]]);
    SumConcat(tickets[..k], tickets[k + 1..]);
    assert [tickets[k]][1..] == [];
  }

  /**
   * The administrative transfer AS WRITTEN zeroes the source escrow `i`'s
   * amount and leaves the destination unchanged. Starting from a matching
   * supply, the escrows then hold the supply minus the source's old amount,
   * so the supply no longer matches: that value is destroyed.
   */
  lemma TransferAsWrittenLosesSourceAmount(lockedSupply: u64, escrows: seq<EscrowBalances>, i: nat)
    requires i < |escrows| && SupplyMatches(lockedSupply, escrows)
    requires escrows[i].amount > 0
    ensures SumTotals(escrows[i := escrows[i].(amount := 0)]) == lockedSupply as int - escrows[i].amount as int
    ensures !SupplyMatches(lockedSupply, escrows[i := escrows[i].(amount := 0)])
  {
    SumTotalsUpdate(escrows, i, escrows[i].(amount := 0));
  }

  /** A concrete instance: source 5, destination 7, supply 12 becomes amounts 0 and 7. */
  lemma TransferAsWrittenExample()
    ensures SupplyMatches(12, [EscrowBalances(5, 0), EscrowBalances(7, 0)])
    ensures SumTotals([EscrowBalances(5, 0), EscrowBalances(7, 0)][0 := EscrowBalances(0, 0)]) == 7
  {
    var before := [EscrowBalances(5, 0), EscrowBalances(7, 0)];
    var after := [EscrowBalances(0, 0), EscrowBalances(7, 0)];
    assert before[0 := EscrowBalances(0, 0)] == after;
    assert before[1..] == after[1..] == [EscrowBalances(7, 0)];
    assert [EscrowBalances(7, 0)][1..] == [];
  }

  /**
   * The corrected transfer zeroes escrow `i`'s amount and credits it to
   * escrow `j`: the supply keeps matching, and the credit cannot overflow.
   */
  lemma TransferKeepsSupplyMatched(lockedSupply: u64, escrows: seq<EscrowBalances>, i: nat, j: nat)
    requires i < |escrows| && j < |escrows| && i != j
    requires SupplyMatches(lockedSupply, escrows)
    ensures escrows[i].amount as int + escrows[j].amount as int <= U64_MAX
    ensures var moved := escrows[i := escrows[i].(amount := 0)];
            SupplyMatches(lockedSupply, moved[j := escrows[j].(amount := escrows[j].amount + escrows[i].amount)])
  {
    PairAtMostSumTotals(escrows, i, j);
    var moved := escrows[i := escrows[i].(amount := 0)];
    SumTotalsUpdate(escrows, i, moved[i]);
    SumTotalsUpdate(moved, j, escrows[j].(amount := escrows[j].amount + escrows[i].amount));
  }
}
