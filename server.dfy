/**
 * The request handlers of the API server (server.js) over the tables they
 * touch. Each handler is given twice: as a function `...Outcome` from the
 * tables before the request to the tables after it, the HTTP status and the
 * response body, and as a method of the class `Store` that performs the same
 * INSERTs and UPDATEs one after the other and is proved to end in that
 * outcome. The lemmas below the functions state what the handlers promise and
 * that they keep the database invariant `DbOk`, whose heart is that each
 * contractor's balance is the replay of its own transaction log.
 */
module Server {
  import opened Wrappers
  import opened Types
  import opened Text
  import Numbering
  import Ledger

  const Created: int := 201
  const BadRequest: int := 400
  const Unauthorized: int := 401
  const Forbidden: int := 403
  const NotFound: int := 404
  const Conflict: int := 409
  const ServerError: int := 500

  /** The tables the handlers read and write. Row ids are SERIAL: the n-th row inserted has id n. */
  datatype Db = Db(
    users: seq<User>,
    contractors: map<int, Contractor>,
    nextContractorId: int,
    txns: seq<CreditTxn>,
    sales: seq<Sale>,
    saleItems: seq<SaleItemRow>,
    refunds: seq<Refund>)

  /** What a request leaves behind: the tables, the status code and the JSON body (None on an error). */
  datatype Outcome<T> = Outcome(db: Db, status: int, body: Option<T>)

  function SaleNumbers(sales: seq<Sale>): (r: seq<string>)
    ensures |r| == |sales|
    ensures forall k :: 0 <= k < |sales| ==> r[k] == sales[k].saleNumber
  {
    seq(|sales|, k requires 0 <= k < |sales| => sales[k].saleNumber)
  }

  function RefundNumbers(refunds: seq<Refund>): (r: seq<string>)
    ensures |r| == |refunds|
    ensures forall k :: 0 <= k < |refunds| ==> r[k] == refunds[k].refundNumber
  {
    seq(|refunds|, k requires 0 <= k < |refunds| => refunds[k].refundNumber)
  }

  function Usernames(users: seq<User>): (r: seq<string>)
    ensures |r| == |users|
    ensures forall k :: 0 <= k < |users| ==> r[k] == users[k].username
  {
    seq(|users|, k requires 0 <= k < |users| => users[k].username)
  }

  // ---------------------------------------------------------------- the database invariant

  ghost predicate ContractorsOk(cs: map<int, Contractor>, next: int) {
    next >= 1 && forall id :: id in cs ==> cs[id].id == id && 1 <= id < next
  }

  /**
   * Every ledger row belongs to a known contractor and has an amount of the
   * right sign; the server writes no adjustment rows.
   */
  ghost predicate TxnsOk(cs: map<int, Contractor>, txns: seq<CreditTxn>) {
    forall k :: 0 <= k < |txns| ==>
      txns[k].id == k + 1 && txns[k].contractorId in cs && txns[k].kind != Adjustment && Ledger.AmountOk(txns[k])
  }

  /**
   * Each contractor's `total_credits` is the replay of its log and every row's
   * `balance_after` is the balance it left; the balance is never negative and
   * stays within the credit limit unless it is zero.
   */
  ghost predicate BalancesOk(cs: map<int, Contractor>, txns: seq<CreditTxn>) {
    forall id :: id in cs ==>
      && Ledger.Consistent(Ledger.TxnsOf(txns, id), cs[id].totalCredits)
      && cs[id].totalCredits >= 0.0
      && (cs[id].totalCredits <= cs[id].creditLimit || cs[id].totalCredits == 0.0)
  }

  /** The CHECK, UNIQUE and REFERENCES constraints on `sales` and `sale_items`. */
  ghost predicate SalesOk(cs: map<int, Contractor>, sales: seq<Sale>, items: seq<SaleItemRow>) {
    && (forall k :: 0 <= k < |sales| ==>
          && sales[k].id == k + 1
          && SaleRowOk(sales[k])
          && (sales[k].contractorId.Some? ==> sales[k].contractorId.value in cs))
    && (forall i, j :: 0 <= i < j < |sales| ==> sales[i].saleNumber != sales[j].saleNumber)
    && (forall k :: 0 <= k < |items| ==> 1 <= items[k].saleId <= |sales| && SaleItemOk(items[k].item))
  }

  /** The CHECK, UNIQUE and REFERENCES constraints on `refunds`. */
  ghost predicate RefundsOk(sales: seq<Sale>, refunds: seq<Refund>) {
    && (forall k :: 0 <= k < |refunds| ==>
          refunds[k].id == k + 1 && RefundAmountOk(refunds[k].amount) && 1 <= refunds[k].saleId <= |sales|)
    && (forall i, j :: 0 <= i < j < |refunds| ==> refunds[i].refundNumber != refunds[j].refundNumber)
  }

  /** `users.username` is UNIQUE. */
  ghost predicate UsersOk(users: seq<User>) {
    && (forall k :: 0 <= k < |users| ==> users[k].id == k + 1)
    && (forall i, j :: 0 <= i < j < |users| ==> users[i].username != users[j].username)
  }

  ghost predicate DbOk(db: Db) {
    && ContractorsOk(db.contractors, db.nextContractorId)
    && TxnsOk(db.contractors, db.txns)
    && BalancesOk(db.contractors, db.txns)
    && SalesOk(db.contractors, db.sales, db.saleItems)
    && RefundsOk(db.sales, db.refunds)
    && UsersOk(db.users)
  }

  // ---------------------------------------------------------------- the invariant under small changes

  /** Ledger rows and sales that point at known contractors still do when contractors are added or updated. */
  lemma TxnsOkGrow(cs: map<int, Contractor>, cs': map<int, Contractor>, txns: seq<CreditTxn>)
    requires TxnsOk(cs, txns) && cs.Keys <= cs'.Keys
    ensures TxnsOk(cs', txns)
  {
  }

  lemma SalesOkGrow(cs: map<int, Contractor>, cs': map<int, Contractor>, sales: seq<Sale>, items: seq<SaleItemRow>)
    requires SalesOk(cs, sales, items) && cs.Keys <= cs'.Keys
    ensures SalesOk(cs', sales, items)
  {
  }

  /** A contractor whose row keeps its id. */
  lemma ContractorsOkUpdate(cs: map<int, Contractor>, next: int, cid: int, c': Contractor)
    requires ContractorsOk(cs, next) && cid in cs && c'.id == cid
    ensures ContractorsOk(cs[cid := c'], next)
  {
  }

  /** A new contractor with the next id and a zero balance: it has no ledger rows yet, so its balance is their replay. */
  lemma ContractorAddedOk(db: Db, c: Contractor, db': Db)
    requires DbOk(db) && c.id == db.nextContractorId && c.totalCredits == 0.0
    requires db' == db.(contractors := db.contractors[c.id := c], nextContractorId := c.id + 1)
    ensures DbOk(db')
    ensures Ledger.TxnsOf(db.txns, c.id) == []
  {
    var cs := db.contractors;
    var cs' := cs[c.id := c];
    assert c.id !in cs;
    assert forall k :: 0 <= k < |db.txns| ==> db.txns[k].contractorId != c.id;
    Ledger.TxnsOfNone(db.txns, c.id);
    TxnsOkGrow(cs, cs', db.txns);
    SalesOkGrow(cs, cs', db.sales, db.saleItems);
    forall id | id in cs'
      ensures Ledger.Consistent(Ledger.TxnsOf(db.txns, id), cs'[id].totalCredits)
    {
      if id == c.id {
        assert Ledger.Consistent([], 0.0);
      } else {
        assert cs'[id] == cs[id];
      }
    }
  }

  /** The empty tables with the seeded users. */
  function Fresh(users: seq<User>): Db {
    Db(users, map[], 1, [], [], [], [])
  }

  lemma FreshOk(users: seq<User>)
    requires UsersOk(users)
    ensures DbOk(Fresh(users))
  {
  }

  /** server.js:705-715 and 769-780, read back: a contractor's balance is its log replayed from 0. */
  lemma BalanceIsReplay(db: Db, id: int)
    requires DbOk(db) && id in db.contractors
    ensures db.contractors[id].totalCredits == Ledger.Replay(Ledger.TxnsOf(db.txns, id))
    ensures db.contractors[id].totalCredits >= 0.0
  {
  }

  // ---------------------------------------------------------------- authentication (server.js:50-57)

  /** `authHeader && authHeader.split(' ')[1]`: the second space-separated field, when it is non-empty. */
  function BearerToken(header: Option<string>): (r: Option<string>)
    ensures r.Some? ==> r.value != "" && Truthy(header)
  {
    if !Truthy(header) then None
    else
      var fields := SplitOn(header.value, ' ');
      if |fields| >= 2 && fields[1] != "" then Some(fields[1]) else None
  }

  /** The header `Bearer <token>` yields the token; no header yields none, and the request gets 401. */
  lemma BearerTokenOfHeader(token: string)
    requires token != "" && ' ' !in token
    ensures BearerToken(Some("Bearer " + token)) == Some(token)
    ensures BearerToken(None) == None
  {
    assert "Bearer " + token == "Bearer" + [' '] + token;
    SplitOnFirst("Bearer", ' ', token);
    SplitOnNone(token, ' ');
  }

  // ---------------------------------------------------------------- sale rows and their lines

  /** Index of the first line that breaks a CHECK of `sale_items`, or the number of lines when none does. */
  function FirstBadItem(items: seq<SaleItem>): (n: nat)
    ensures n <= |items|
    ensures forall k :: 0 <= k < n ==> SaleItemOk(items[k])
    ensures n < |items| ==> !SaleItemOk(items[n])
  {
    if items == [] then 0
    else if !SaleItemOk(items[0]) then 0
    else 1 + FirstBadItem(items[1..])
  }

  function RowsOf(saleId: int, items: seq<SaleItem>): (r: seq<SaleItemRow>)
    ensures |r| == |items|
    ensures forall k :: 0 <= k < |items| ==> r[k] == SaleItemRow(saleId, items[k])
  {
    seq(|items|, k requires 0 <= k < |items| => SaleItemRow(saleId, items[k]))
  }

  /** The INSERT into `sales` succeeds: the CHECK constraints hold and the number is not taken. */
  predicate SaleInsertable(db: Db, sale: Sale) {
    SaleRowOk(sale) && sale.saleNumber !in SaleNumbers(db.sales)
  }

  /**
   * server.js:314-328 and 686-702: the sale row, then its lines one at a time.
   * There is no transaction: when a line is rejected, the sale row and the lines
   * before it stay and the request fails with 500.
   */
  function InsertSaleOutcome(db: Db, sale: Sale, items: seq<SaleItem>): Outcome<Sale> {
    if !SaleInsertable(db, sale) then Outcome(db, ServerError, None)
    else
      var n := FirstBadItem(items);
      var db' := db.(sales := db.sales + [sale], saleItems := db.saleItems + RowsOf(sale.id, items[..n]));
      if n < |items| then Outcome(db', ServerError, None) else Outcome(db', Created, Some(sale))
  }

  lemma InsertSaleOk(db: Db, sale: Sale, items: seq<SaleItem>)
    requires DbOk(db)
    requires sale.id == |db.sales| + 1
    requires sale.contractorId.Some? ==> sale.contractorId.value in db.contractors
    ensures DbOk(InsertSaleOutcome(db, sale, items).db)
    ensures InsertSaleOutcome(db, sale, items).status == Created ==> SaleRowOk(sale)
  {
    if SaleInsertable(db, sale) {
      var o := InsertSaleOutcome(db, sale, items);
      var n := FirstBadItem(items);
      var sales' := db.sales + [sale];
      var rows := db.saleItems + RowsOf(sale.id, items[..n]);
      assert o.db.sales == sales' && o.db.saleItems == rows;
      forall i, j | 0 <= i < j < |sales'| ensures sales'[i].saleNumber != sales'[j].saleNumber {
        if j == |db.sales| {
          assert SaleNumbers(db.sales)[i] == sales'[i].saleNumber;
        }
      }
      forall k | 0 <= k < |rows| ensures 1 <= rows[k].saleId <= |sales'| && SaleItemOk(rows[k].item) {
        if k >= |db.saleItems| {
          assert rows[k] == SaleItemRow(sale.id, items[k - |db.saleItems|]);
        }
      }
      assert SalesOk(db.contractors, sales', rows);
      assert RefundsOk(sales', db.refunds);
    }
  }

  // ---------------------------------------------------------------- POST /api/sales (server.js:292-348)

  datatype SaleRequest = SaleRequest(
    items: seq<SaleItem>,
    subtotal: real,
    discountAmount: real,
    discountPercentage: real,
    totalAmount: real,
    paymentMethod: PaymentMethod,
    knetReference: Option<string>,
    chequeNumber: Option<string>,
    notes: Option<string>)

  /** The row server.js:314-318 inserts: status completed, the cashier as `user_id`, no contractor. */
  function RecordedSale(db: Db, actor: User, req: SaleRequest, day: int, number: string): Sale {
    Sale(|db.sales| + 1, number, actor.id, None, req.subtotal, req.discountAmount, req.discountPercentage,
         req.totalAmount, req.paymentMethod, req.knetReference, req.chequeNumber, req.notes, Completed, day)
  }

  function RecordSaleOutcome(db: Db, actor: User, req: SaleRequest, day: int): Outcome<Sale> {
    match Numbering.NextSaleNumber(SaleNumbers(db.sales))
    case None => Outcome(db, ServerError, None)
    case Some(number) => InsertSaleOutcome(db, RecordedSale(db, actor, req, day, number), req.items)
  }

  /**
   * A recorded sale is completed, carries the next sale number and the cashier's id,
   * and the request's lines follow it; it fails exactly when the numbering, a CHECK
   * or the uniqueness of the number does.
   */
  lemma RecordSaleSpec(db: Db, actor: User, req: SaleRequest, day: int)
    requires DbOk(db)
    ensures DbOk(RecordSaleOutcome(db, actor, req, day).db)
    ensures var o := RecordSaleOutcome(db, actor, req, day);
      o.status == Created <==>
        && Numbering.NextSaleNumber(SaleNumbers(db.sales)).Some?
        && Numbering.NextSaleNumber(SaleNumbers(db.sales)).value !in SaleNumbers(db.sales)
        && SaleRowOk(RecordedSale(db, actor, req, day, Numbering.NextSaleNumber(SaleNumbers(db.sales)).value))
        && (forall k :: 0 <= k < |req.items| ==> SaleItemOk(req.items[k]))
    ensures var o := RecordSaleOutcome(db, actor, req, day);
      o.status == Created ==>
        && o.body.Some?
        && o.db.sales == db.sales + [o.body.value]
        && o.body.value.status == Completed
        && o.body.value.userId == actor.id
        && o.body.value.paymentMethod == req.paymentMethod
        && o.body.value.totalAmount == req.totalAmount
        && Some(o.body.value.saleNumber) == Numbering.NextSaleNumber(SaleNumbers(db.sales))
        && o.db.saleItems == db.saleItems + RowsOf(o.body.value.id, req.items)
        && o.db.contractors == db.contractors && o.db.txns == db.txns
    ensures var o := RecordSaleOutcome(db, actor, req, day);
      o.status == Created || o.status == ServerError
  {
    var o := RecordSaleOutcome(db, actor, req, day);
    var next := Numbering.NextSaleNumber(SaleNumbers(db.sales));
    if next.Some? {
      var sale := RecordedSale(db, actor, req, day, next.value);
      InsertSaleOk(db, sale, req.items);
      if o.status == Created {
        assert req.items[..|req.items|] == req.items;
      }
    }
  }

  /** While the largest sale suffix is below 999999 the generated number is never already taken. */
  lemma RecordSaleNumberFresh(db: Db)
    requires Numbering.MaxSuffix(SaleNumbers(db.sales), Numbering.SalePrefix, 11).Some?
    requires Numbering.MaxSuffix(SaleNumbers(db.sales), Numbering.SalePrefix, 11).value < 999999
    ensures Numbering.NextSaleNumber(SaleNumbers(db.sales)).Some?
    ensures Numbering.NextSaleNumber(SaleNumbers(db.sales)).value !in SaleNumbers(db.sales)
  {
    Numbering.SaleNumberFresh(SaleNumbers(db.sales));
  }

  // ---------------------------------------------------------------- POST /api/contractors (server.js:586-611)

  datatype ContractorRequest = ContractorRequest(
    name: Option<string>,
    companyName: Option<string>,
    phone: Option<string>,
    email: Option<string>,
    address: Option<string>,
    creditLimit: Option<real>)

  const DefaultCreditLimit: real := 10000.0

  /** `x || null`: an absent or empty string is stored as NULL. */
  function OrNull(s: Option<string>): (r: Option<string>)
    ensures r.None? <==> !Truthy(s)
    ensures r.Some? ==> r == s
  {
    if Truthy(s) then s else None
  }

  /** `credit_limit || 10000`: an absent or zero limit becomes 10000. */
  function LimitOrDefault(limit: Option<real>): (r: real)
    ensures limit.None? || limit.value == 0.0 ==> r == DefaultCreditLimit
    ensures limit.Some? && limit.value != 0.0 ==> r == limit.value
  {
    if limit.Some? && limit.value != 0.0 then limit.value else DefaultCreditLimit
  }

  function NewContractor(id: int, req: ContractorRequest): Contractor
    requires req.name.Some?
  {
    Contractor(id, Trim(req.name.value), OrNull(req.companyName), OrNull(req.phone), OrNull(req.email),
               OrNull(req.address), LimitOrDefault(req.creditLimit), 0.0, Active)
  }

  function CreateContractorOutcome(db: Db, req: ContractorRequest): Outcome<Contractor> {
    if !HasText(req.name) then Outcome(db, BadRequest, None)
    else
      var c := NewContractor(db.nextContractorId, req);
      Outcome(db.(contractors := db.contractors[c.id := c], nextContractorId := db.nextContractorId + 1), Created, Some(c))
  }

  /**
   * A blank name is refused with nothing written. Otherwise the new contractor has
   * a fresh id, the trimmed name, a zero balance and an empty log, so its balance
   * is the replay of its log from the start; nobody else changes.
   */
  lemma CreateContractorSpec(db: Db, req: ContractorRequest)
    requires DbOk(db)
    ensures DbOk(CreateContractorOutcome(db, req).db)
    ensures var o := CreateContractorOutcome(db, req);
      !HasText(req.name) ==> o.status == BadRequest && o.db == db
    ensures var o := CreateContractorOutcome(db, req);
      HasText(req.name) ==>
        && o.status == Created && o.body.Some?
        && var c := o.body.value;
        && c.id !in db.contractors && o.db.contractors == db.contractors[c.id := c]
        && c.name == Trim(req.name.value) && c.name != []
        && c.totalCredits == 0.0 && c.status == Active
        && c.creditLimit == LimitOrDefault(req.creditLimit)
        && Ledger.TxnsOf(o.db.txns, c.id) == []
        && o.db.txns == db.txns && o.db.sales == db.sales && o.db.saleItems == db.saleItems
        && o.db.refunds == db.refunds && o.db.users == db.users
  {
    if HasText(req.name) {
      var c := NewContractor(db.nextContractorId, req);
      ContractorAddedOk(db, c, CreateContractorOutcome(db, req).db);
      assert c.id !in db.contractors;
    }
  }

  // ---------------------------------------------------------------- POST /api/credit-sales (server.js:640-733)

  datatype CreditSaleRequest = CreditSaleRequest(
    contractorId: int,
    items: seq<SaleItem>,
    subtotal: real,
    discountAmount: real,
    discountPercentage: real,
    totalAmount: real,
    notes: Option<string>)

  /** The row server.js:686-690 inserts: a completed credit sale of the contractor. */
  function CreditSaleRow(db: Db, actor: User, req: CreditSaleRequest, day: int, number: string): Sale {
    Sale(|db.sales| + 1, number, actor.id, Some(req.contractorId), req.subtotal, req.discountAmount,
         req.discountPercentage, req.totalAmount, Credit, None, None, req.notes, Completed, day)
  }

  /** server.js:704-715: the contractor's new balance and the ledger row that records it. */
  function ChargeOutcome(db: Db, actor: User, req: CreditSaleRequest, sale: Sale): Outcome<Sale>
    requires req.contractorId in db.contractors
  {
    var c := db.contractors[req.contractorId];
    var balance := c.totalCredits + req.totalAmount;
    var t := CreditTxn(|db.txns| + 1, req.contractorId, Some(sale.id), CreditSale, req.totalAmount,
                       "Sale " + sale.saleNumber, balance, actor.id);
    Outcome(db.(contractors := db.contractors[req.contractorId := c.(totalCredits := balance)], txns := db.txns + [t]),
            Created, Some(sale))
  }

  function CreditSaleOutcome(db: Db, actor: User, req: CreditSaleRequest, day: int): Outcome<Sale> {
    if req.contractorId !in db.contractors then Outcome(db, NotFound, None)
    else
      var c := db.contractors[req.contractorId];
      if !Ledger.WithinLimit(c.totalCredits, req.totalAmount, c.creditLimit) then Outcome(db, BadRequest, None)
      else match Numbering.NextSaleNumber(SaleNumbers(db.sales))
        case None => Outcome(db, ServerError, None)
        case Some(number) =>
          var sale := CreditSaleRow(db, actor, req, day, number);
          var ins := InsertSaleOutcome(db, sale, req.items);
          if ins.status != Created then ins else ChargeOutcome(ins.db, actor, req, sale)
  }

  /** An unknown contractor gets 404 and a limit overrun 400, with nothing written; reaching the limit exactly is allowed. */
  lemma CreditSaleRejections(db: Db, actor: User, req: CreditSaleRequest, day: int)
    ensures var o := CreditSaleOutcome(db, actor, req, day);
      req.contractorId !in db.contractors ==> o.status == NotFound && o.db == db
    ensures var o := CreditSaleOutcome(db, actor, req, day);
      req.contractorId in db.contractors ==>
        var c := db.contractors[req.contractorId];
        && (c.totalCredits + req.totalAmount > c.creditLimit ==> o.status == BadRequest && o.db == db)
        && (c.totalCredits + req.totalAmount == c.creditLimit ==> o.status != BadRequest && o.status != NotFound)
  {
  }

  /** One contractor's log after a row for `cid` is appended. */
  lemma AppendTxnBalance(txns: seq<CreditTxn>, balance: real, t: CreditTxn, id: int, newBalance: real)
    requires Ledger.Consistent(Ledger.TxnsOf(txns, id), balance)
    requires t.contractorId == id  ==> t.balanceAfter == Ledger.Step(balance, t) && newBalance == t.balanceAfter
    requires t.contractorId != id ==> newBalance == balance
    ensures Ledger.Consistent(Ledger.TxnsOf(txns + [t], id), newBalance)
  {
    Ledger.TxnsOfAppend(txns, t, id);
    if t.contractorId == id {
      Ledger.LedgerAppend(Ledger.TxnsOf(txns, id), t);
    } else {
      assert Ledger.TxnsOf(txns + [t], id) == Ledger.TxnsOf(txns, id);
    }
  }

  /** Appending a ledger row for a known contractor and storing the stepped balance keeps the ledger invariants. */
  lemma AppendTxnOk(cs: map<int, Contractor>, txns: seq<CreditTxn>, cid: int, c': Contractor, t: CreditTxn)
    requires TxnsOk(cs, txns) && BalancesOk(cs, txns)
    requires cid in cs && c'.id == cs[cid].id
    requires t.id == |txns| + 1 && t.contractorId == cid && t.kind != Adjustment && Ledger.AmountOk(t)
    requires t.balanceAfter == Ledger.Step(cs[cid].totalCredits, t) && c'.totalCredits == t.balanceAfter
    requires c'.totalCredits >= 0.0 && (c'.totalCredits <= c'.creditLimit || c'.totalCredits == 0.0)
    ensures TxnsOk(cs[cid := c'], txns + [t]) && BalancesOk(cs[cid := c'], txns + [t])
  {
    var cs' := cs[cid := c'];
    var txns' := txns + [t];
    assert TxnsOk(cs', txns') by {
      forall k | 0 <= k < |txns'|
        ensures txns'[k].id == k + 1 && txns'[k].contractorId in cs' && txns'[k].kind != Adjustment
        ensures Ledger.AmountOk(txns'[k])
      {
        if k < |txns| {
          assert txns'[k] == txns[k];
        }
      }
    }
    forall id | id in cs'
      ensures Ledger.Consistent(Ledger.TxnsOf(txns', id), cs'[id].totalCredits)
    {
      AppendTxnBalance(txns, cs[id].totalCredits, t, id, cs'[id].totalCredits);
    }
  }

  /** The same at the level of the whole database: only the contractor and the log change. */
  lemma TxnAppendedOk(db: Db, cid: int, c': Contractor, t: CreditTxn, db': Db)
    requires DbOk(db)
    requires cid in db.contractors && c'.id == cid
    requires t.id == |db.txns| + 1 && t.contractorId == cid && t.kind != Adjustment && Ledger.AmountOk(t)
    requires t.balanceAfter == Ledger.Step(db.contractors[cid].totalCredits, t) && c'.totalCredits == t.balanceAfter
    requires c'.totalCredits >= 0.0 && (c'.totalCredits <= c'.creditLimit || c'.totalCredits == 0.0)
    requires db' == db.(contractors := db.contractors[cid := c'], txns := db.txns + [t])
    ensures DbOk(db')
  {
    var cs' := db.contractors[cid := c'];
    AppendTxnOk(db.contractors, db.txns, cid, c', t);
    ContractorsOkUpdate(db.contractors, db.nextContractorId, cid, c');
    SalesOkGrow(db.contractors, cs', db.sales, db.saleItems);
  }

  /** Charging an inserted, valid credit sale keeps the invariant. */
  lemma ChargeOk(db: Db, actor: User, req: CreditSaleRequest, sale: Sale)
    requires DbOk(db)
    requires req.contractorId in db.contractors
    requires Ledger.WithinLimit(db.contractors[req.contractorId].totalCredits, req.totalAmount,
                                db.contractors[req.contractorId].creditLimit)
    requires req.totalAmount >= 0.0
    ensures DbOk(ChargeOutcome(db, actor, req, sale).db)
  {
    var c := db.contractors[req.contractorId];
    var balance := c.totalCredits + req.totalAmount;
    var t := CreditTxn(|db.txns| + 1, req.contractorId, Some(sale.id), CreditSale, req.totalAmount,
                       "Sale " + sale.saleNumber, balance, actor.id);
    var c' := c.(totalCredits := balance);
    assert c.totalCredits >= 0.0;
    assert Ledger.Step(c.totalCredits, t) == balance;
    TxnAppendedOk(db, req.contractorId, c', t, ChargeOutcome(db, actor, req, sale).db);
  }

  /** A credit sale, accepted or not, keeps the invariant. */
  lemma CreditSaleOk(db: Db, actor: User, req: CreditSaleRequest, day: int)
    requires DbOk(db)
    ensures DbOk(CreditSaleOutcome(db, actor, req, day).db)
  {
    if req.contractorId in db.contractors {
      var c := db.contractors[req.contractorId];
      var next := Numbering.NextSaleNumber(SaleNumbers(db.sales));
      if Ledger.WithinLimit(c.totalCredits, req.totalAmount, c.creditLimit) && next.Some? {
        var sale := CreditSaleRow(db, actor, req, day, next.value);
        var ins := InsertSaleOutcome(db, sale, req.items);
        InsertSaleOk(db, sale, req.items);
        if ins.status == Created {
          ChargeOk(ins.db, actor, req, sale);
        }
      }
    }
  }

  /**
   * An accepted credit sale stores a completed credit sale for the contractor, sets
   * its balance to exactly the old balance plus the total, and appends one
   * credit-sale row whose amount is the total and whose snapshot is the new balance.
   */
  lemma CreditSaleAccepted(db: Db, actor: User, req: CreditSaleRequest, day: int)
    ensures var o := CreditSaleOutcome(db, actor, req, day);
      o.status == Created ==>
        && req.contractorId in db.contractors && req.contractorId in o.db.contractors
        && var old_ := db.contractors[req.contractorId].totalCredits;
        && o.db.contractors[req.contractorId].totalCredits == old_ + req.totalAmount
        && old_ + req.totalAmount <= db.contractors[req.contractorId].creditLimit
        && o.body.Some?
        && var s := o.body.value;
        && o.db.sales == db.sales + [s]
        && s.paymentMethod == Credit && s.status == Completed && s.contractorId == Some(req.contractorId)
        && s.totalAmount == req.totalAmount
        && o.db.saleItems == db.saleItems + RowsOf(s.id, req.items)
        && o.db.txns == db.txns + [CreditTxn(|db.txns| + 1, req.contractorId, Some(s.id), CreditSale, req.totalAmount,
                                             "Sale " + s.saleNumber, old_ + req.totalAmount, actor.id)]
  {
    var o := CreditSaleOutcome(db, actor, req, day);
    if o.status == Created {
      assert req.items[..|req.items|] == req.items;
    }
  }

  // ---------------------------------------------------------------- POST /api/credit-payments (server.js:748-796)

  datatype PaymentRequest = PaymentRequest(
    contractorId: int,
    amount: Option<real>,
    paymentMethod: Option<string>,
    description: Option<string>)

  /** The JSON body of an accepted payment. */
  datatype Receipt = Receipt(txn: CreditTxn, contractorBalance: real)

  /** `description || `${payment_method} payment``; an absent method prints as `undefined`. */
  function PaymentDescription(description: Option<string>, payMethod: Option<string>): (r: string)
    ensures Truthy(description) ==> r == description.value
    ensures !Truthy(description) ==> r == (if payMethod.Some? then payMethod.value else "undefined") + " payment"
  {
    if Truthy(description) then description.value
    else (if payMethod.Some? then payMethod.value else "undefined") + " payment"
  }

  function PaymentOutcome(db: Db, actor: User, req: PaymentRequest): Outcome<Receipt> {
    if req.amount.None? || req.amount.value <= 0.0 then Outcome(db, BadRequest, None)
    else if req.contractorId !in db.contractors then Outcome(db, NotFound, None)
    else
      var c := db.contractors[req.contractorId];
      var balance := Ledger.PaymentBalance(c.totalCredits, req.amount.value);
      var t := CreditTxn(|db.txns| + 1, req.contractorId, None, Payment, req.amount.value,
                         PaymentDescription(req.description, req.paymentMethod), balance, actor.id);
      Outcome(db.(contractors := db.contractors[req.contractorId := c.(totalCredits := balance)], txns := db.txns + [t]),
              Created, Some(Receipt(t, balance)))
  }

  /**
   * A missing or non-positive amount is refused before the contractor is looked
   * up; an unknown contractor gets 404; neither writes anything. An accepted
   * payment sets the balance to `max(0, old - amount)`, never negative and never
   * above the old balance, and the receipt's balance is the row's snapshot.
   */
  lemma PaymentSpec(db: Db, actor: User, req: PaymentRequest)
    requires DbOk(db)
    ensures DbOk(PaymentOutcome(db, actor, req).db)
    ensures var o := PaymentOutcome(db, actor, req);
      (req.amount.None? || req.amount.value <= 0.0) ==> o.status == BadRequest && o.db == db
    ensures var o := PaymentOutcome(db, actor, req);
      (req.amount.Some? && req.amount.value > 0.0 && req.contractorId !in db.contractors) ==> o.status == NotFound && o.db == db
    ensures var o := PaymentOutcome(db, actor, req);
      o.status == Created <==> req.amount.Some? && req.amount.value > 0.0 && req.contractorId in db.contractors
    ensures var o := PaymentOutcome(db, actor, req);
      o.status == Created ==>
        && var old_ := db.contractors[req.contractorId].totalCredits;
        && var new_ := o.db.contractors[req.contractorId].totalCredits;
        && new_ == (if old_ - req.amount.value > 0.0 then old_ - req.amount.value else 0.0)
        && 0.0 <= new_ <= old_
        && o.body.Some? && o.body.value.contractorBalance == o.body.value.txn.balanceAfter == new_
        && o.db.txns == db.txns + [o.body.value.txn]
        && o.body.value.txn.kind == Payment && o.body.value.txn.amount == req.amount.value
        && o.db.sales == db.sales
  {
    if req.amount.Some? && req.amount.value > 0.0 && req.contractorId in db.contractors {
      var c := db.contractors[req.contractorId];
      var balance := Ledger.PaymentBalance(c.totalCredits, req.amount.value);
      var t := CreditTxn(|db.txns| + 1, req.contractorId, None, Payment, req.amount.value,
                         PaymentDescription(req.description, req.paymentMethod), balance, actor.id);
      var c' := c.(totalCredits := balance);
      TxnAppendedOk(db, req.contractorId, c', t, PaymentOutcome(db, actor, req).db);
    }
  }

  // ---------------------------------------------------------------- GET /api/contractors/:id and the credit report

  /** server.js:614-641: the contractor and its 50 newest ledger rows, or 404. */
  function ContractorDetails(db: Db, id: int): (r: Option<(Contractor, seq<CreditTxn>)>)
    ensures r.None? <==> id !in db.contractors
    ensures r.Some? ==> r.value.0 == db.contractors[id] && r.value.1 == Ledger.History(Ledger.TxnsOf(db.txns, id))
  {
    if id !in db.contractors then None else Some((db.contractors[id], Ledger.History(Ledger.TxnsOf(db.txns, id))))
  }

  /**
   * server.js:799-819: the contractor's row (`c.*`) with the row count and the
   * two sums of its log, or 404. A sum over no rows of its type is NULL.
   */
  function CreditReportOf(db: Db, id: int): (r: Option<(Contractor, Ledger.CreditReport)>)
    ensures r.None? <==> id !in db.contractors
    ensures r.Some? ==>
      var log := Ledger.TxnsOf(db.txns, id);
      && r.value.0 == db.contractors[id]
      && r.value.1.transactionCount == |log|
      && r.value.1.totalDebts == Ledger.SqlSum(log, CreditSale)
      && r.value.1.totalPaid == Ledger.SqlSum(log, Payment)
  {
    if id !in db.contractors then None else Some((db.contractors[id], Ledger.ReportOf(db.txns, id)))
  }

  /**
   * In a valid state the report explains the balance: it lies between the
   * debts less the payments and the debts (a NULL sum read as 0), and equals the
   * debts when nothing was paid.
   */
  lemma CreditReportBracketsBalance(db: Db, id: int)
    requires DbOk(db) && id in db.contractors
    ensures var r := CreditReportOf(db, id).value;
      var debts := if r.1.totalDebts.Some? then r.1.totalDebts.value else 0.0;
      var paid := if r.1.totalPaid.Some? then r.1.totalPaid.value else 0.0;
      && debts - paid <= r.0.totalCredits <= debts
      && (r.1.totalPaid.None? ==> r.0.totalCredits == debts)
  {
    var log := Ledger.TxnsOf(db.txns, id);
    BalanceIsReplay(db, id);
    forall k | 0 <= k < |log| ensures log[k].kind != Adjustment && Ledger.AmountOk(log[k]) {
      Ledger.TxnsOfMembership(db.txns, id, log[k]);
    }
    Ledger.ReplayBetweenNetAndDebts(log);
    if Ledger.CountOfKind(log, CreditSale) == 0 {
      Ledger.NoRowsSumZero(log, CreditSale);
    }
    if Ledger.CountOfKind(log, Payment) == 0 {
      Ledger.NoRowsSumZero(log, Payment);
      Ledger.ReplayWithoutPayments(log);
    }
  }

  /** The newest history row's snapshot is the contractor's current balance. */
  lemma HistoryHeadIsBalance(db: Db, id: int)
    requires DbOk(db) && id in db.contractors && Ledger.TxnsOf(db.txns, id) != []
    ensures ContractorDetails(db, id).Some?
    ensures ContractorDetails(db, id).value.1 != []
    ensures ContractorDetails(db, id).value.1[0].balanceAfter == db.contractors[id].totalCredits
  {
    var log := Ledger.TxnsOf(db.txns, id);
    assert log[..|log|] == log;
  }

  // ---------------------------------------------------------------- POST /api/refunds (server.js:406-439)

  datatype RefundRequest = RefundRequest(saleId: int, amount: Option<real>, reason: Option<string>)

  /**
   * The refund handler with its number query as written: the suffix is read from
   * character 15, and a proposed number that is already taken breaks the UNIQUE
   * constraint, which the handler answers with 500.
   */
  function RefundOutcome(db: Db, actor: User, req: RefundRequest): Outcome<Refund> {
    if !(1 <= req.saleId <= |db.sales|) then Outcome(db, NotFound, None)
    else match Numbering.NextRefundNumberAsWritten(RefundNumbers(db.refunds))
      case None => Outcome(db, ServerError, None)
      case Some(number) =>
        if req.amount.None? || req.reason.None? || !RefundAmountOk(req.amount.value) || number in RefundNumbers(db.refunds)
        then Outcome(db, ServerError, None)
        else
          var r := Refund(|db.refunds| + 1, number, req.saleId, req.amount.value, req.reason.value, actor.id);
          var k := req.saleId - 1;
          Outcome(db.(refunds := db.refunds + [r], sales := db.sales[k := db.sales[k].(status := Refunded)]),
                  Created, Some(r))
  }

  /**
   * An unknown sale gets 404 with nothing written. A stored refund marks its sale
   * refunded whatever its status was, leaves every other sale and every other field
   * of that sale alone. Its number is the one the query as written proposes, and
   * was not taken before; its reason and creator are the request's and the actor's.
   */
  lemma RefundSpec(db: Db, actor: User, req: RefundRequest)
    requires DbOk(db)
    ensures DbOk(RefundOutcome(db, actor, req).db)
    ensures var o := RefundOutcome(db, actor, req);
      !(1 <= req.saleId <= |db.sales|) ==> o.status == NotFound && o.db == db
    ensures var o := RefundOutcome(db, actor, req);
      o.status == Created ==>
        && o.body.Some?
        && o.db.refunds == db.refunds + [o.body.value]
        && o.body.value.refundNumber !in RefundNumbers(db.refunds)
        && Some(o.body.value.refundNumber) == Numbering.NextRefundNumberAsWritten(RefundNumbers(db.refunds))
        && o.body.value.saleId == req.saleId && Some(o.body.value.amount) == req.amount
        && Some(o.body.value.reason) == req.reason && o.body.value.createdBy == actor.id
        && |o.db.sales| == |db.sales|
        && o.db.sales[req.saleId - 1] == db.sales[req.saleId - 1].(status := Refunded)
        && (forall k :: 0 <= k < |db.sales| && k != req.saleId - 1 ==> o.db.sales[k] == db.sales[k])
    ensures var o := RefundOutcome(db, actor, req);
      o.status != Created ==> o.db == db
  {
    var o := RefundOutcome(db, actor, req);
    if o.status == Created {
      RefundStoredOk(db, o.body.value, o.db);
    }
  }

  /** Storing a refund with a fresh number and marking its sale refunded keeps the invariant. */
  lemma RefundStoredOk(db: Db, r: Refund, db': Db)
    requires DbOk(db)
    requires 1 <= r.saleId <= |db.sales| && r.id == |db.refunds| + 1 && RefundAmountOk(r.amount)
    requires r.refundNumber !in RefundNumbers(db.refunds)
    requires db' == db.(refunds := db.refunds + [r],
                        sales := db.sales[r.saleId - 1 := db.sales[r.saleId - 1].(status := Refunded)])
    ensures DbOk(db')
  {
    var k := r.saleId - 1;
    var sales' := db.sales[k := db.sales[k].(status := Refunded)];
    var refunds' := db.refunds + [r];
    assert SalesOk(db.contractors, sales', db.saleItems) by {
      forall i, j | 0 <= i < j < |sales'| ensures sales'[i].saleNumber != sales'[j].saleNumber {
        assert sales'[i].saleNumber == db.sales[i].saleNumber && sales'[j].saleNumber == db.sales[j].saleNumber;
      }
    }
    forall i, j | 0 <= i < j < |refunds'| ensures refunds'[i].refundNumber != refunds'[j].refundNumber {
      if j == |db.refunds| {
        assert RefundNumbers(db.refunds)[i] == refunds'[i].refundNumber;
      }
    }
    assert RefundsOk(sales', refunds');
  }

  /**
   * As written, once REFUND-2025-010000 exists the handler proposes that number
   * again; the insert is refused and the request gets 500 with nothing written.
   */
  lemma RefundCollisionIsServerError(db: Db, actor: User, req: RefundRequest)
    requires 1 <= req.saleId <= |db.sales|
    requires RefundNumbers(db.refunds) == ["REFUND-2025-009999", "REFUND-2025-010000"]
    ensures RefundOutcome(db, actor, req).status == ServerError
    ensures RefundOutcome(db, actor, req).db == db
  {
    Numbering.RefundAsWrittenCollides();
  }

  /** While every issued refund suffix is below 10000, a well-formed refund of a known sale is stored. */
  lemma RefundCreatedBelow10000(db: Db, actor: User, req: RefundRequest)
    requires 1 <= req.saleId <= |db.sales|
    requires req.amount.Some? && req.reason.Some? && RefundAmountOk(req.amount.value)
    requires forall k :: 0 <= k < |db.refunds| ==>
      Numbering.IssuedNumber(db.refunds[k].refundNumber, Numbering.RefundPrefix)
      && Numbering.ValueOf(db.refunds[k].refundNumber[12..]) < 10000
    ensures RefundOutcome(db, actor, req).status == Created
  {
    var numbers := RefundNumbers(db.refunds);
    Numbering.RefundAsWrittenFreshBelow10000(numbers);
  }

  // ---------------------------------------------------------------- POST /api/users (server.js:159-203)

  datatype UserRequest = UserRequest(username: Option<string>, password: Option<string>, role: Option<string>)

  /** `['admin', 'cashier'].includes(role)`. */
  function RoleOf(role: Option<string>): (r: Option<UserRole>)
    ensures r == Some(Admin) <==> role == Some("admin")
    ensures r == Some(Cashier) <==> role == Some("cashier")
  {
    if role == Some("admin") then Some(Admin)
    else if role == Some("cashier") then Some(Cashier)
    else None
  }

  /** The first guard that refuses the request, in the order of the handler, or None when all pass. */
  function UserRejection(db: Db, actor: User, req: UserRequest): Option<int> {
    if actor.role != Admin then Some(Forbidden)
    else if !Truthy(req.username) || !Truthy(req.password) then Some(BadRequest)
    else if |req.username.value| < 3 then Some(BadRequest)
    else if |req.password.value| < 6 then Some(BadRequest)
    else if RoleOf(req.role).None? then Some(BadRequest)
    else if req.username.value in Usernames(db.users) then Some(Conflict)
    else None
  }

  function CreateUserOutcome(db: Db, actor: User, req: UserRequest): Outcome<User> {
    match UserRejection(db, actor, req)
    case Some(status) => Outcome(db, status, None)
    case None =>
      var u := User(|db.users| + 1, req.username.value, req.username.value, RoleOf(req.role).value);
      Outcome(db.(users := db.users + [u]), Created, Some(u))
  }

  /**
   * The guards in order: a non-admin gets 403 whatever else is wrong; then missing
   * credentials, a short username, a short password and an unknown role get 400;
   * only a request passing all of those can get 409 for a taken username, and
   * one passing them with a free username is created with 201. A created user
   * is named after its username, which was not taken.
   */
  lemma CreateUserSpec(db: Db, actor: User, req: UserRequest)
    requires DbOk(db)
    ensures DbOk(CreateUserOutcome(db, actor, req).db)
    ensures var o := CreateUserOutcome(db, actor, req);
      && (actor.role != Admin ==> o.status == Forbidden)
      && (actor.role == Admin && (!Truthy(req.username) || !Truthy(req.password)) ==> o.status == BadRequest)
      && ((actor.role == Admin && Truthy(req.username) && Truthy(req.password)
           && (|req.username.value| < 3 || |req.password.value| < 6 || RoleOf(req.role).None?)) ==> o.status == BadRequest)
      && (o.status == Conflict <==>
            && actor.role == Admin && Truthy(req.username) && Truthy(req.password)
            && |req.username.value| >= 3 && |req.password.value| >= 6 && RoleOf(req.role).Some?
            && req.username.value in Usernames(db.users))
      && (o.status == Created <==>
            && actor.role == Admin && Truthy(req.username) && Truthy(req.password)
            && |req.username.value| >= 3 && |req.password.value| >= 6 && RoleOf(req.role).Some?
            && req.username.value !in Usernames(db.users))
      && (o.status != Created ==> o.db == db)
      && (o.status == Created ==>
            && o.body.Some? && o.db.users == db.users + [o.body.value]
            && o.body.value.username == o.body.value.name == req.username.value
            && req.username.value !in Usernames(db.users)
            && Some(o.body.value.role) == RoleOf(req.role))
  {
    var o := CreateUserOutcome(db, actor, req);
    if o.status == Created {
      var users' := db.users + [o.body.value];
      forall i, j | 0 <= i < j < |users'| ensures users'[i].username != users'[j].username {
        if j == |db.users| {
          assert Usernames(db.users)[i] == users'[i].username;
        }
      }
    }
  }

  // ---------------------------------------------------------------- the store

  /** The database as the handlers change it, row by row. */
  class Store {
    var users: seq<User>
    var contractors: map<int, Contractor>
    var nextContractorId: int
    var txns: seq<CreditTxn>
    var sales: seq<Sale>
    var saleItems: seq<SaleItemRow>
    var refunds: seq<Refund>

    function State(): Db
      reads this
    {
      Db(users, contractors, nextContractorId, txns, sales, saleItems, refunds)
    }

    ghost predicate Valid()
      reads this
    {
      DbOk(State())
    }

    /** Empty tables apart from the seeded users. */
    constructor(seed: seq<User>)
      requires UsersOk(seed)
      ensures State() == Fresh(seed)
      ensures Valid()
    {
      users, contractors, nextContractorId := seed, map[], 1;
      txns, sales, saleItems, refunds := [], [], [], [];
    }

    /** The `for…of` loop over the lines: insert each until one is rejected. */
    method InsertLines(saleId: int, items: seq<SaleItem>) returns (ok: bool)
      modifies this`saleItems
      ensures saleItems == old(saleItems) + RowsOf(saleId, items[..FirstBadItem(items)])
      ensures ok <==> FirstBadItem(items) == |items|
    {
      var i := 0;
      while i < |items|
        invariant 0 <= i <= FirstBadItem(items)
        invariant saleItems == old(saleItems) + RowsOf(saleId, items[..i])
      {
        if !SaleItemOk(items[i]) {
          return false;
        }
        assert RowsOf(saleId, items[..i + 1]) == RowsOf(saleId, items[..i]) + [SaleItemRow(saleId, items[i])];
        saleItems := saleItems + [SaleItemRow(saleId, items[i])];
        i := i + 1;
      }
      return true;
    }

    /** The INSERT into `sales` followed by the line loop. */
    method InsertSale(sale: Sale, items: seq<SaleItem>) returns (status: int)
      modifies this`sales, this`saleItems
      ensures var o := InsertSaleOutcome(old(State()), sale, items); State() == o.db && status == o.status
    {
      if !SaleRowOk(sale) || sale.saleNumber in SaleNumbers(sales) {
        return ServerError;
      }
      sales := sales + [sale];
      var ok := InsertLines(sale.id, items);
      status := if ok then Created else ServerError;
    }

    /** POST /api/sales. */
    method RecordSale(actor: User, req: SaleRequest, day: int) returns (status: int, body: Option<Sale>)
      requires Valid()
      modifies this`sales, this`saleItems
      ensures Valid()
      ensures var o := RecordSaleOutcome(old(State()), actor, req, day);
        State() == o.db && status == o.status && body == o.body
    {
      ghost var db := State();
      var next := Numbering.NextSaleNumber(SaleNumbers(sales));
      if next.None? {
        return ServerError, None;
      }
      var sale := RecordedSale(State(), actor, req, day, next.value);
      status := InsertSale(sale, req.items);
      body := if status == Created then Some(sale) else None;
      RecordSaleSpec(db, actor, req, day);
    }

    /** POST /api/contractors. */
    method CreateContractor(req: ContractorRequest) returns (status: int, body: Option<Contractor>)
      requires Valid()
      modifies this`contractors, this`nextContractorId
      ensures Valid()
      ensures var o := CreateContractorOutcome(old(State()), req);
        State() == o.db && status == o.status && body == o.body
    {
      ghost var db := State();
      if !HasText(req.name) {
        return BadRequest, None;
      }
      var c := NewContractor(nextContractorId, req);
      contractors := contractors[c.id := c];
      nextContractorId := nextContractorId + 1;
      ContractorAddedOk(db, c, State());
      return Created, Some(c);
    }

    /** POST /api/credit-sales: look up, check the limit, number, insert, then move the balance and log it. */
    method CreditSale(actor: User, req: CreditSaleRequest, day: int) returns (status: int, body: Option<Sale>)
      requires Valid()
      modifies this`contractors, this`txns, this`sales, this`saleItems
      ensures Valid()
      ensures var o := CreditSaleOutcome(old(State()), actor, req, day);
        State() == o.db && status == o.status && body == o.body
    {
      ghost var db := State();
      if req.contractorId !in contractors {
        return NotFound, None;
      }
      var c := contractors[req.contractorId];
      var newTotal := c.totalCredits + req.totalAmount;
      if newTotal > c.creditLimit {
        return BadRequest, None;
      }
      var next := Numbering.NextSaleNumber(SaleNumbers(sales));
      if next.None? {
        return ServerError, None;
      }
      var sale := CreditSaleRow(State(), actor, req, day, next.value);
      status := InsertSale(sale, req.items);
      if status != Created {
        CreditSaleOk(db, actor, req, day);
        return status, None;
      }
      Charge(actor, req, sale);
      body := Some(sale);
      CreditSaleOk(db, actor, req, day);
    }

    /** server.js:704-715: UPDATE the contractor's balance, then INSERT the credit-sale row. */
    method Charge(actor: User, req: CreditSaleRequest, sale: Sale)
      requires req.contractorId in contractors
      modifies this`contractors, this`txns
      ensures State() == ChargeOutcome(old(State()), actor, req, sale).db
    {
      var c := contractors[req.contractorId];
      var newTotal := c.totalCredits + req.totalAmount;
      contractors := contractors[req.contractorId := c.(totalCredits := newTotal)];
      txns := txns + [CreditTxn(|txns| + 1, req.contractorId, Some(sale.id), TxnType.CreditSale, req.totalAmount,
                                "Sale " + sale.saleNumber, newTotal, actor.id)];
    }

    /** POST /api/credit-payments. */
    method CreditPayment(actor: User, req: PaymentRequest) returns (status: int, body: Option<Receipt>)
      requires Valid()
      modifies this`contractors, this`txns
      ensures Valid()
      ensures var o := PaymentOutcome(old(State()), actor, req);
        State() == o.db && status == o.status && body == o.body
    {
      ghost var db := State();
      ghost var o := PaymentOutcome(db, actor, req);
      if req.amount.None? || req.amount.value <= 0.0 {
        return BadRequest, None;
      }
      if req.contractorId !in contractors {
        return NotFound, None;
      }
      var c := contractors[req.contractorId];
      var newTotal := Ledger.PaymentBalance(c.totalCredits, req.amount.value);
      contractors := contractors[req.contractorId := c.(totalCredits := newTotal)];
      var t := CreditTxn(|txns| + 1, req.contractorId, None, Payment, req.amount.value,
                         PaymentDescription(req.description, req.paymentMethod), newTotal, actor.id);
      txns := txns + [t];
      assert State() == o.db;
      PaymentSpec(db, actor, req);
      return Created, Some(Receipt(t, newTotal));
    }

    /** POST /api/refunds. */
    method CreateRefund(actor: User, req: RefundRequest) returns (status: int, body: Option<Refund>)
      requires Valid()
      modifies this`refunds, this`sales
      ensures Valid()
      ensures var o := RefundOutcome(old(State()), actor, req);
        State() == o.db && status == o.status && body == o.body
    {
      ghost var db := State();
      ghost var o := RefundOutcome(db, actor, req);
      RefundSpec(db, actor, req);
      if !(1 <= req.saleId <= |sales|) {
        return NotFound, None;
      }
      var next := Numbering.NextRefundNumberAsWritten(RefundNumbers(refunds));
      if next.None? {
        return ServerError, None;
      }
      if req.amount.None? || req.reason.None? || !RefundAmountOk(req.amount.value) || next.value in RefundNumbers(refunds) {
        return ServerError, None;
      }
      var r := Refund(|refunds| + 1, next.value, req.saleId, req.amount.value, req.reason.value, actor.id);
      var k := req.saleId - 1;
      assert o == Outcome(db.(refunds := db.refunds + [r], sales := db.sales[k := db.sales[k].(status := Refunded)]),
                          Created, Some(r));
      refunds := refunds + [r];
      sales := sales[k := sales[k].(status := Refunded)];
      assert State() == o.db;
      return Created, Some(r);
    }

    /** POST /api/users. */
    method CreateUser(actor: User, req: UserRequest) returns (status: int, body: Option<User>)
      requires Valid()
      modifies this`users
      ensures Valid()
      ensures var o := CreateUserOutcome(old(State()), actor, req);
        State() == o.db && status == o.status && body == o.body
    {
      ghost var db := State();
      var rejection := UserRejection(State(), actor, req);
      if rejection.Some? {
        return rejection.value, None;
      }
      var u := User(|users| + 1, req.username.value, req.username.value, RoleOf(req.role).value);
      users := users + [u];
      CreateUserSpec(db, actor, req);
      return Created, Some(u);
    }
  }
}
