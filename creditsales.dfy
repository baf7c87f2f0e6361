/**
 * The credit-sale dialog (components/CreditSalesModal.tsx): the contractor
 * search, adding a contractor, and the totals and request of a credit sale.
 */
module CreditSales {
  import opened Wrappers
  import opened Types
  import opened Text
  import Seqs
  import Ledger
  import Numbering
  import Server
  import SalesPage

  // ---------------------------------------------------------------- contractor search

  /** `c.name.toLowerCase().includes(searchTerm.toLowerCase())` */
  predicate NameMatches(c: Contractor, term: string) {
    Contains(ToLower(c.name), ToLower(term))
  }

  /** CreditSalesModal.tsx:101-103 (and CreditPaymentModal.tsx:65-67). */
  function Matching(cs: seq<Contractor>, term: string): (r: seq<Contractor>)
    ensures |r| <= |cs|
    ensures forall k :: 0 <= k < |r| ==> NameMatches(r[k], term)
  {
    Seqs.Filter(cs, (c: Contractor) => NameMatches(c, term))
  }

  /** A contractor is listed exactly when it matches, and the list keeps the original order. */
  lemma MatchingSpec(cs: seq<Contractor>, term: string)
    ensures forall c :: c in Matching(cs, term) <==> c in cs && NameMatches(c, term)
    ensures Seqs.SubsequenceOf(Matching(cs, term), cs)
  {
    var p := (c: Contractor) => NameMatches(c, term);
    forall c ensures c in Matching(cs, term) <==> c in cs && NameMatches(c, term) {
      Seqs.FilterMembership(cs, p, c);
    }
    Seqs.FilterIsSubsequence(cs, p);
  }

  /** An empty search lists every contractor. */
  lemma EmptySearchListsAll(cs: seq<Contractor>)
    ensures Matching(cs, "") == cs
  {
    forall k | 0 <= k < |cs| ensures NameMatches(cs[k], "") {
      ContainsEmpty(ToLower(cs[k].name));
    }
    Seqs.FilterAll(cs, (c: Contractor) => NameMatches(c, ""));
  }

  // ---------------------------------------------------------------- adding a contractor (CreditSalesModal.tsx:46-66)

  /** The dialog's list and selection after an attempt to add a contractor. */
  datatype AddResult = AddRefused(error: string) | AddDone(contractors: seq<Contractor>, selected: Contractor)

  /** What the dialog sends: the name as typed and the phone; the rest is left out. */
  function AddRequest(name: string, phone: string): Server.ContractorRequest {
    Server.ContractorRequest(Some(name), None, Some(phone), None, None, None)
  }

  /** `created` is what the server returns for the request. */
  function AddContractor(contractors: seq<Contractor>, name: string, created: Contractor): (r: AddResult)
    ensures r.AddRefused? <==> IsBlank(name)
    ensures r.AddRefused? ==> r.error == "Contractor name required"
    ensures r.AddDone? ==> r.contractors == contractors + [created] && r.selected == created
  {
    if Trim(name) == "" then AddRefused("Contractor name required") else AddDone(contractors + [created], created)
  }

  /** The dialog refuses exactly the names the server would refuse with 400: the guard and the server agree. */
  lemma AddGuardAgreesWithServer(db: Server.Db, contractors: seq<Contractor>, name: string, phone: string, created: Contractor)
    ensures AddContractor(contractors, name, created).AddRefused? <==>
            Server.CreateContractorOutcome(db, AddRequest(name, phone)).status == Server.BadRequest
  {
  }

  // ---------------------------------------------------------------- the totals (CreditSalesModal.tsx:78-80, 105-107)

  /** The discount as typed: the amount itself, or that percentage of the subtotal; never clamped. */
  function DiscountOf(subtotal: real, val: real, kind: SalesPage.DiscountType): real {
    match kind
    case Amount => val
    case Percent => subtotal * val / 100.0
  }

  /** `Math.max(0, subtotal - discount)` */
  function TotalOf(subtotal: real, discount: real): (t: real)
    ensures t >= 0.0
    ensures t >= subtotal - discount
    ensures t == 0.0 || t == subtotal - discount
  {
    if 0.0 > subtotal - discount then 0.0 else subtotal - discount
  }

  /** A discount between 0 and the subtotal gives a total between 0 and the subtotal. */
  lemma TotalBounded(subtotal: real, discount: real)
    requires 0.0 <= discount <= subtotal
    ensures TotalOf(subtotal, discount) == subtotal - discount
    ensures 0.0 <= TotalOf(subtotal, discount) <= subtotal
  {
  }

  /** Unclamped, a negative discount raises the total above the subtotal, and a discount above 100 % drives it to 0. */
  lemma UnclampedDiscounts()
    ensures TotalOf(10.0, DiscountOf(10.0, -5.0, SalesPage.Amount)) == 15.0
    ensures DiscountOf(10.0, 150.0, SalesPage.Percent) == 15.0 && TotalOf(10.0, 15.0) == 0.0
  {
  }

  // ---------------------------------------------------------------- confirming the sale (CreditSalesModal.tsx:70-99)

  datatype Confirmation = ConfirmRefused(error: string) | ConfirmSent(request: Server.CreditSaleRequest)

  function ConfirmSale(selected: Option<Contractor>, items: seq<SaleItem>, val: real, kind: SalesPage.DiscountType): (r: Confirmation)
    ensures r.ConfirmRefused? <==> selected.None? || items == []
    ensures r.ConfirmRefused? ==> r.error == "Select contractor and items"
    ensures r.ConfirmSent? ==>
      && r.request.contractorId == selected.value.id && r.request.items == items
      && r.request.subtotal == SalesPage.Subtotal(items)
      && r.request.totalAmount == TotalOf(r.request.subtotal, r.request.discountAmount)
      && r.request.notes == Some("Credit sale for " + selected.value.name)
    ensures r.ConfirmSent? && kind == SalesPage.Amount ==>
      r.request.discountAmount == val && r.request.discountPercentage == 0.0
    ensures r.ConfirmSent? && kind == SalesPage.Percent ==>
      r.request.discountAmount == SalesPage.Subtotal(items) * val / 100.0 && r.request.discountPercentage == val
  {
    if selected.None? || items == [] then ConfirmRefused("Select contractor and items")
    else
      var subtotal := SalesPage.Subtotal(items);
      var discount := DiscountOf(subtotal, val, kind);
      ConfirmSent(Server.CreditSaleRequest(
        selected.value.id, items, subtotal, discount,
        if kind == SalesPage.Percent then val else 0.0,
        TotalOf(subtotal, discount),
        Some("Credit sale for " + selected.value.name)))
  }

  /**
   * Unclamped, what the dialog sends can break the `sales` CHECKs: a discount of
   * -5 KWD or of 150 % on a 10 KWD cart is refused by the insert, and the server
   * answers 500 with nothing written, although the contractor's limit allows the sale.
   */
  lemma UnclampedDiscountRefused(db: Server.Db, actor: User, c: Contractor, items: seq<SaleItem>, day: int)
    requires SalesPage.Subtotal(items) == 10.0 && items != []
    requires c.id in db.contractors && db.contractors[c.id] == c
    requires c.totalCredits + 15.0 <= c.creditLimit
    requires Numbering.NextSaleNumber(Server.SaleNumbers(db.sales)).Some?
    ensures var req := ConfirmSale(Some(c), items, -5.0, SalesPage.Amount).request;
      && req.discountAmount == -5.0 && req.totalAmount == 15.0
      && Server.CreditSaleOutcome(db, actor, req, day) == Server.Outcome(db, Server.ServerError, None)
    ensures var req := ConfirmSale(Some(c), items, 150.0, SalesPage.Percent).request;
      && req.discountPercentage == 150.0 && req.totalAmount == 0.0
      && Server.CreditSaleOutcome(db, actor, req, day) == Server.Outcome(db, Server.ServerError, None)
  {
  }

  /** CreditSalesModal.tsx:267: the balance shown after the sale. */
  function BalanceAfter(c: Contractor, total: real): real {
    c.totalCredits + total
  }

  /**
   * The balance the dialog shows is the one the server checks against the limit
   * and, when the sale goes through, the contractor's new balance.
   */
  lemma ShownBalanceIsCharged(db: Server.Db, actor: User, c: Contractor, items: seq<SaleItem>, val: real,
                              kind: SalesPage.DiscountType, day: int)
    requires items != [] && c.id in db.contractors && db.contractors[c.id] == c
    ensures var req := ConfirmSale(Some(c), items, val, kind).request;
      Ledger.WithinLimit(c.totalCredits, req.totalAmount, c.creditLimit) <==> BalanceAfter(c, req.totalAmount) <= c.creditLimit
    ensures var req := ConfirmSale(Some(c), items, val, kind).request;
      var o := Server.CreditSaleOutcome(db, actor, req, day);
      o.status == Server.Created ==> o.db.contractors[c.id].totalCredits == BalanceAfter(c, req.totalAmount)
    ensures var req := ConfirmSale(Some(c), items, val, kind).request;
      BalanceAfter(c, req.totalAmount) > c.creditLimit ==> Server.CreditSaleOutcome(db, actor, req, day).status == Server.BadRequest
  {
    var req := ConfirmSale(Some(c), items, val, kind).request;
    Server.CreditSaleAccepted(db, actor, req, day);
    Server.CreditSaleRejections(db, actor, req, day);
  }
}
