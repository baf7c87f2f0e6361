/**
 * The contractor credit ledger (server.js:582-819): the balance arithmetic of a
 * credit sale and of a payment, the replay of a contractor's transaction log,
 * and the sums of the credit report.
 */
module Ledger {
  import opened Wrappers
  import opened Types

  /** server.js:669-673: a credit sale is accepted when the new balance does not exceed the limit. */
  predicate WithinLimit(current: real, total: real, limit: real) {
    current + total <= limit
  }

  /** server.js:766: a payment lowers the balance and floors it at zero. */
  function PaymentBalance(current: real, amount: real): (r: real)
    ensures r >= 0.0
    ensures r >= current - amount
    ensures r == 0.0 || r == current - amount
    ensures r == 0.0 <==> amount >= current
    ensures amount >= 0.0 && current >= 0.0 ==> r <= current
  {
    if 0.0 > current - amount then 0.0 else current - amount
  }

  /**
   * The effect of one ledger row on the balance: a credit sale adds its amount,
   * a payment is applied as above. No handler writes an adjustment row, so it
   * is given no effect.
   */
  function Step(balance: real, t: CreditTxn): real {
    match t.kind
    case CreditSale => balance + t.amount
    case Payment => PaymentBalance(balance, t.amount)
    case Adjustment => balance
  }

  /** The balance obtained by applying the log, oldest row first, to a fresh contractor's 0. */
  function Replay(log: seq<CreditTxn>): real {
    if log == [] then 0.0 else Step(Replay(log[..|log| - 1]), log[|log| - 1])
  }

  /** Every row's `balance_after` is the balance after that row. */
  predicate Chained(log: seq<CreditTxn>) {
    forall k :: 0 <= k < |log| ==> log[k].balanceAfter == Replay(log[..k + 1])
  }

  /** The log explains the stored balance. */
  predicate Consistent(log: seq<CreditTxn>, balance: real) {
    Chained(log) && Replay(log) == balance
  }

  /** Appending a row whose snapshot is the stepped balance keeps the log consistent with that balance. */
  lemma LedgerAppend(log: seq<CreditTxn>, t: CreditTxn)
    requires Chained(log)
    requires t.balanceAfter == Step(Replay(log), t)
    ensures Consistent(log + [t], t.balanceAfter)
  {
    var log' := log + [t];
    assert log'[..|log'| - 1] == log;
    forall k | 0 <= k < |log'|
      ensures log'[k].balanceAfter == Replay(log'[..k + 1])
    {
      if k < |log| {
        assert log'[..k + 1] == log[..k + 1];
      } else {
        assert log'[..k + 1] == log';
      }
    }
  }

  /** The rows of one contractor, in log order (`WHERE contractor_id = $1`). */
  function TxnsOf(txns: seq<CreditTxn>, cid: int): (r: seq<CreditTxn>)
    ensures |r| <= |txns|
    ensures forall k :: 0 <= k < |r| ==> r[k].contractorId == cid
  {
    if txns == [] then []
    else
      var last := txns[|txns| - 1];
      TxnsOf(txns[..|txns| - 1], cid) + (if last.contractorId == cid then [last] else [])
  }

  lemma TxnsOfAppend(txns: seq<CreditTxn>, t: CreditTxn, cid: int)
    ensures TxnsOf(txns + [t], cid) == TxnsOf(txns, cid) + (if t.contractorId == cid then [t] else [])
  {
    assert (txns + [t])[..|txns|] == txns;
  }

  /** A contractor no row mentions has an empty log. */
  lemma {:induction false} TxnsOfNone(txns: seq<CreditTxn>, cid: int)
    requires forall k :: 0 <= k < |txns| ==> txns[k].contractorId != cid
    ensures TxnsOf(txns, cid) == []
  {
    if txns != [] {
      TxnsOfNone(txns[..|txns| - 1], cid);
    }
  }

  /** A row is in a contractor's log exactly when it is in the whole log and names that contractor. */
  lemma {:induction false} TxnsOfMembership(txns: seq<CreditTxn>, cid: int, t: CreditTxn)
    ensures t in TxnsOf(txns, cid) <==> t in txns && t.contractorId == cid
  {
    if txns != [] {
      var init := txns[..|txns| - 1];
      TxnsOfMembership(init, cid, t);
      assert txns == init + [txns[|txns| - 1]];
    }
  }

  // ---------------------------------------------------------------- the credit report (server.js:799-819)

  /** `SUM(amount)` over the rows of one type, as a number (0 when there are none). */
  function SumOfKind(log: seq<CreditTxn>, kind: TxnType): real {
    if log == [] then 0.0
    else SumOfKind(log[..|log| - 1], kind) + (if log[|log| - 1].kind == kind then log[|log| - 1].amount else 0.0)
  }

  function CountOfKind(log: seq<CreditTxn>, kind: TxnType): (n: nat)
    ensures n <= |log|
  {
    if log == [] then 0
    else CountOfKind(log[..|log| - 1], kind) + (if log[|log| - 1].kind == kind then 1 else 0)
  }

  /** SQL `SUM` is NULL over no rows. */
  function SqlSum(log: seq<CreditTxn>, kind: TxnType): (r: Option<real>)
    ensures r.None? <==> CountOfKind(log, kind) == 0
    ensures r.Some? ==> r.value == SumOfKind(log, kind)
  {
    if CountOfKind(log, kind) == 0 then None else Some(SumOfKind(log, kind))
  }

  /** The sub-selects of the credit report for one contractor. */
  datatype CreditReport = CreditReport(transactionCount: nat, totalDebts: Option<real>, totalPaid: Option<real>)

  function ReportOf(txns: seq<CreditTxn>, cid: int): CreditReport {
    var log := TxnsOf(txns, cid);
    CreditReport(|log|, SqlSum(log, CreditSale), SqlSum(log, Payment))
  }

  /**
   * A row as the server writes it: a credit sale's amount is a stored sale
   * total, never negative (the `sales` CHECK on `total_amount`), and a payment's
   * amount is positive (server.js:751).
   */
  predicate AmountOk(t: CreditTxn) {
    (t.kind == CreditSale ==> t.amount >= 0.0) && (t.kind == Payment ==> t.amount > 0.0)
  }

  /** With no row of a type, its sum is 0. */
  lemma {:induction false} NoRowsSumZero(log: seq<CreditTxn>, kind: TxnType)
    requires CountOfKind(log, kind) == 0
    ensures SumOfKind(log, kind) == 0.0
  {
    if log != [] {
      NoRowsSumZero(log[..|log| - 1], kind);
    }
  }

  /** Credit-sale amounts as the server records them: never negative. */
  predicate SalesNonNegative(log: seq<CreditTxn>) {
    forall k :: 0 <= k < |log| ==> (log[k].kind == CreditSale ==> log[k].amount >= 0.0)
  }

  predicate PaymentsPositive(log: seq<CreditTxn>) {
    forall k :: 0 <= k < |log| ==> (log[k].kind == Payment ==> log[k].amount > 0.0)
  }

  /**
   * The replayed balance lies between what was charged minus what was paid and
   * what was charged: the floor at zero only ever forgives overpayments.
   */
  lemma {:induction false} ReplayBetweenNetAndDebts(log: seq<CreditTxn>)
    requires SalesNonNegative(log) && PaymentsPositive(log)
    ensures 0.0 <= Replay(log)
    ensures SumOfKind(log, CreditSale) - SumOfKind(log, Payment) <= Replay(log) <= SumOfKind(log, CreditSale)
  {
    if log != [] {
      var init := log[..|log| - 1];
      assert SalesNonNegative(init) by {
        forall k | 0 <= k < |init| ensures (init[k].kind == CreditSale ==> init[k].amount >= 0.0) {
          assert init[k] == log[k];
        }
      }
      assert PaymentsPositive(init) by {
        forall k | 0 <= k < |init| ensures (init[k].kind == Payment ==> init[k].amount > 0.0) {
          assert init[k] == log[k];
        }
      }
      ReplayBetweenNetAndDebts(init);
    }
  }

  /** When the log has no payments, the balance is the sum of the credit sales. */
  lemma {:induction false} ReplayWithoutPayments(log: seq<CreditTxn>)
    requires CountOfKind(log, Payment) == 0
    requires forall k :: 0 <= k < |log| ==> log[k].kind != Adjustment
    ensures Replay(log) == SumOfKind(log, CreditSale)
  {
    if log != [] {
      var init := log[..|log| - 1];
      assert forall k :: 0 <= k < |init| ==> init[k] == log[k];
      ReplayWithoutPayments(init);
    }
  }

  // ---------------------------------------------------------------- history (server.js:629-634)

  const HistoryLimit: nat := 50

  /** `ORDER BY created_at DESC LIMIT 50`: the rows are created in log order, so the newest come first. */
  function History(log: seq<CreditTxn>): (r: seq<CreditTxn>)
    ensures |r| == if |log| < HistoryLimit then |log| else HistoryLimit
    ensures forall i :: 0 <= i < |r| ==> r[i] == log[|log| - 1 - i]
  {
    var n := if |log| < HistoryLimit then |log| else HistoryLimit;
    seq(n, i requires 0 <= i < n => log[|log| - 1 - i])
  }

  /**
   * With ids increasing along the log, the history lists ids in decreasing order,
   * and every row it leaves out is older than every row it shows.
   */
  lemma HistoryNewestFirst(log: seq<CreditTxn>)
    requires forall i, j :: 0 <= i < j < |log| ==> log[i].id < log[j].id
    ensures forall i, j :: 0 <= i < j < |History(log)| ==> History(log)[i].id > History(log)[j].id
    ensures forall k, i :: 0 <= k < |log| - |History(log)| && 0 <= i < |History(log)| ==>
      log[k].id < History(log)[i].id
  {
    var h := History(log);
    forall i, j | 0 <= i < j < |h| ensures h[i].id > h[j].id {
      assert h[i] == log[|log| - 1 - i] && h[j] == log[|log| - 1 - j];
    }
    forall k, i | 0 <= k < |log| - |h| && 0 <= i < |h| ensures log[k].id < h[i].id {
      assert h[i] == log[|log| - 1 - i];
    }
  }
}
