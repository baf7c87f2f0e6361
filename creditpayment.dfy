/**
 * The credit-payment dialog (components/CreditPaymentModal.tsx): which
 * contractors it offers, its search, and what a payment is made of.
 */
module CreditPayment {
  import opened Wrappers
  import opened Types
  import opened Text
  import Seqs
  import Server
  import CreditSales

  /** The three methods the dialog offers; cash is chosen first. */
  type PayMethod = m: PaymentMethod | m != Credit witness Cash

  const DefaultPayMethod: PayMethod := Cash

  /** CreditPaymentModal.tsx:36: only contractors who owe something. */
  function Outstanding(cs: seq<Contractor>): (r: seq<Contractor>)
    ensures |r| <= |cs|
    ensures forall k :: 0 <= k < |r| ==> r[k].totalCredits > 0.0
  {
    Seqs.Filter(cs, (c: Contractor) => c.totalCredits > 0.0)
  }

  /** A contractor is offered exactly when it owes something, in the original order. */
  lemma OutstandingSpec(cs: seq<Contractor>)
    ensures forall c :: c in Outstanding(cs) <==> c in cs && c.totalCredits > 0.0
    ensures Seqs.SubsequenceOf(Outstanding(cs), cs)
  {
    var p := (c: Contractor) => c.totalCredits > 0.0;
    forall c ensures c in Outstanding(cs) <==> c in cs && c.totalCredits > 0.0 {
      Seqs.FilterMembership(cs, p, c);
    }
    Seqs.FilterIsSubsequence(cs, p);
  }

  /** CreditPaymentModal.tsx:65-67: the search over the offered contractors, which still all owe something. */
  lemma SearchKeepsOutstanding(cs: seq<Contractor>, term: string)
    ensures forall c :: c in CreditSales.Matching(Outstanding(cs), term) <==>
      c in cs && c.totalCredits > 0.0 && CreditSales.NameMatches(c, term)
  {
    OutstandingSpec(cs);
    CreditSales.MatchingSpec(Outstanding(cs), term);
  }

  /** CreditPaymentModal.tsx:54: `description || `${paymentMethod} payment`` */
  function Description(description: string, m: PayMethod): (r: string)
    ensures description != "" ==> r == description
    ensures description == "" ==> r == MethodName(m) + " payment"
  {
    if description != "" then description else MethodName(m) + " payment"
  }

  /** Whatever the cashier types, the server keeps the description it is sent, and an empty one gets the same default on both sides. */
  lemma DescriptionAgreesWithServer(description: string, m: PayMethod)
    ensures Server.PaymentDescription(Some(Description(description, m)), Some(MethodName(m))) == Description(description, m)
    ensures Server.PaymentDescription(Some(description), Some(MethodName(m))) == Description(description, m)
  {
  }

  /** The arguments of the payment: the contractor, the parsed amount (None when not a number), the method and the description. */
  datatype PaymentArgs = PaymentArgs(contractorId: int, amount: Option<real>, payMethod: PayMethod, description: string)

  datatype PaymentStep = PaymentRefused(error: string) | PaymentMade(args: PaymentArgs)

  /** CreditPaymentModal.tsx:42-56; `amount` is the field as typed and `parsed` its `parseFloat`. */
  function ProcessPayment(selected: Option<Contractor>, amount: string, parsed: Option<real>, m: PayMethod, description: string)
    : (r: PaymentStep)
    ensures r.PaymentRefused? <==> selected.None? || amount == ""
    ensures r.PaymentRefused? ==> r.error == "Select contractor and enter amount"
    ensures r.PaymentMade? ==> r.args == PaymentArgs(selected.value.id, parsed, m, Description(description, m))
  {
    if selected.None? || amount == "" then PaymentRefused("Select contractor and enter amount")
    else PaymentMade(PaymentArgs(selected.value.id, parsed, m, Description(description, m)))
  }

  /** A payment is never made with an empty description. */
  lemma PaymentDescribed(selected: Option<Contractor>, amount: string, parsed: Option<real>, m: PayMethod, description: string)
    requires ProcessPayment(selected, amount, parsed, m, description).PaymentMade?
    ensures ProcessPayment(selected, amount, parsed, m, description).args.description != ""
  {
  }
}
