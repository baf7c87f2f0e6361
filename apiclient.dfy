/**
 * The browser's API client (services/apiClient.ts): how an HTTP response
 * becomes a value or an error, how `login` and `getSaleByNumber` map their
 * expected failures, and the checks `createSale` and `createRefund` make
 * before sending anything.
 */
module ApiClient {
  import opened Wrappers
  import opened Types
  import opened Text
  import Numbering

  // ---------------------------------------------------------------- responses (apiClient.ts:14-39)

  /** What the body turns out to be: JSON with its `error` and `message` fields and its data, JSON that does not parse, or text. */
  datatype Body<T> = JsonBody(error: Option<string>, message: Option<string>, data: T) | BadJson | PlainBody(text: string)

  /** A response: its status, its status text, and its body as the content type announces it. */
  datatype Response<T> = Response(status: nat, statusText: string, body: Body<T>)

  /** `response.ok` */
  predicate Ok<T>(r: Response<T>) {
    200 <= r.status <= 299
  }

  /** What `handleResponse` produces: an `APIError`, the parsed data, a JSON syntax error, or the body's text. */
  datatype Handled<T> = Threw(status: nat, message: string) | Parsed(data: T) | ParseFailed | Text(text: string)

  /** `HTTP <status>` */
  function StatusMessage(status: nat): (r: string)
    ensures r != ""
  {
    "HTTP " + Numbering.DigitsOf(status)
  }

  /**
   * The message of a failed response: the JSON `error` field, else its
   * `message` field, else the status text, else `HTTP <status>`; the status
   * text is only tried when the body is not parsed JSON.
   */
  function ErrorMessage<T>(r: Response<T>): (m: string)
    ensures m != ""
    ensures r.body.JsonBody? && Truthy(r.body.error) ==> m == r.body.error.value
    ensures r.body.JsonBody? && !Truthy(r.body.error) && Truthy(r.body.message) ==> m == r.body.message.value
    ensures r.body.JsonBody? && !Truthy(r.body.error) && !Truthy(r.body.message) ==> m == StatusMessage(r.status)
    ensures !r.body.JsonBody? && r.statusText != "" ==> m == r.statusText
    ensures !r.body.JsonBody? && r.statusText == "" ==> m == StatusMessage(r.status)
  {
    var fallback := StatusMessage(r.status);
    match r.body
    case JsonBody(error, message, _) =>
      if Truthy(error) then error.value else if Truthy(message) then message.value else fallback
    case _ => if r.statusText != "" then r.statusText else fallback
  }

  function HandleResponse<T>(r: Response<T>): (h: Handled<T>)
    ensures h.Threw? <==> !Ok(r)
    ensures h.Threw? ==> h.status == r.status && h.message == ErrorMessage(r)
    ensures Ok(r) && r.body.JsonBody? ==> h == Parsed(r.body.data)
    ensures Ok(r) && r.body.BadJson? ==> h == ParseFailed
    ensures Ok(r) && r.body.PlainBody? ==> h == Text(r.body.text)
  {
    if !Ok(r) then Threw(r.status, ErrorMessage(r))
    else match r.body
      case JsonBody(_, _, data) => Parsed(data)
      case BadJson => ParseFailed
      case PlainBody(text) => Text(text)
  }

  /** Whatever the server answered, a failure carries a non-empty message. */
  lemma ErrorMessageNeverEmpty<T>(r: Response<T>)
    requires !Ok(r)
    ensures HandleResponse(r).Threw? && HandleResponse(r).message != ""
  {
  }

  /** The error a client call raises. */
  datatype ClientError = ApiError(status: nat, message: string) | SyntaxError

  /** The result of a client call: a value, text in place of a value, `null`, `undefined`, or an exception. */
  datatype Call<T> = Returned(value: T) | ReturnedText(text: string) | Null | Undefined | Raised(error: ClientError)

  /** `handleResponse` seen from its caller. */
  function Guarded<T>(r: Response<T>): Call<T> {
    match HandleResponse(r)
    case Threw(s, m) => Raised(ApiError(s, m))
    case Parsed(d) => Returned(d)
    case ParseFailed => Raised(SyntaxError)
    case Text(t) => ReturnedText(t)
  }

  // ---------------------------------------------------------------- login and sale look-up

  /** apiClient.ts:48-72; the data is the `user` field of the JSON body. */
  function Login(r: Response<Option<User>>): (c: Call<User>)
    ensures c.Null? <==> r.status == 401
    ensures c.Returned? <==> Ok(r) && r.body.JsonBody? && r.body.data.Some?
    ensures c.Returned? ==> c.value == r.body.data.value
    ensures c.Raised? && c.error.ApiError? ==> c.error.status == r.status && !Ok(r) && r.status != 401
  {
    if r.status == 401 then Null
    else match HandleResponse(r)
      case Threw(s, m) => if s == 401 then Null else Raised(ApiError(s, m))
      case Parsed(d) => if d.Some? then Returned(d.value) else Undefined
      case ParseFailed => Raised(SyntaxError)
      case Text(_) => Undefined
  }

  /** apiClient.ts:242-260 */
  function GetSaleByNumber(r: Response<Sale>): (c: Call<Sale>)
    ensures c.Undefined? <==> r.status == 404
    ensures r.status != 404 ==> c == Guarded(r)
  {
    if r.status == 404 then Undefined
    else match Guarded(r)
      case Raised(ApiError(s, m)) => if s == 404 then Undefined else Raised(ApiError(s, m))
      case other => other
  }

  // ---------------------------------------------------------------- checks before a request

  const KnetRequired := "KNET reference is required for KNET payments"
  const ChequeRequired := "Cheque number is required for cheque payments"

  /** apiClient.ts:188-195: the error `createSale` throws before sending, if any. */
  function CreateSaleCheck(payMethod: PaymentMethod, knetReference: Option<string>, chequeNumber: Option<string>): (e: Option<string>)
    ensures e.None? <==> (payMethod == Knet ==> HasText(knetReference)) && (payMethod == Cheque ==> HasText(chequeNumber))
    ensures e.Some? ==> e.value == (if payMethod == Knet then KnetRequired else ChequeRequired)
  {
    if payMethod == Knet && !HasText(knetReference) then Some(KnetRequired)
    else if payMethod == Cheque && !HasText(chequeNumber) then Some(ChequeRequired)
    else None
  }

  /** Cash and credit sales are never stopped by the client. */
  lemma CashAndCreditUnchecked(payMethod: PaymentMethod, knetReference: Option<string>, chequeNumber: Option<string>)
    requires payMethod == Cash || payMethod == Credit
    ensures CreateSaleCheck(payMethod, knetReference, chequeNumber).None?
  {
  }

  const ReasonRequired := "Refund reason is required"
  const AmountRequired := "Refund amount must be greater than 0"

  /** The body `createRefund` posts. */
  datatype RefundBody = RefundBody(saleId: int, amount: real, reason: string)

  datatype RefundCall = RefundRefused(message: string) | RefundSent(body: RefundBody)

  /** apiClient.ts:271-294: the reason is checked first, then the amount; the reason goes out trimmed. */
  function CreateRefund(saleId: int, amount: real, reason: Option<string>): (c: RefundCall)
    ensures !HasText(reason) ==> c == RefundRefused(ReasonRequired)
    ensures HasText(reason) && amount <= 0.0 ==> c == RefundRefused(AmountRequired)
    ensures c.RefundSent? <==> HasText(reason) && amount > 0.0
    ensures c.RefundSent? ==> c.body == RefundBody(saleId, amount, Trim(reason.value))
  {
    if !HasText(reason) then RefundRefused(ReasonRequired)
    else if amount <= 0.0 then RefundRefused(AmountRequired)
    else RefundSent(RefundBody(saleId, amount, Trim(reason.value)))
  }

  /** What is sent passes the server's own checks on the amount and the reason: a positive amount and a non-blank reason. */
  lemma SentRefundIsAcceptable(saleId: int, amount: real, reason: Option<string>)
    requires CreateRefund(saleId, amount, reason).RefundSent?
    ensures var b := CreateRefund(saleId, amount, reason).body;
      RefundAmountOk(b.amount) && b.reason != [] && !IsBlank(b.reason) && Trim(b.reason) == b.reason
  {
    var b := CreateRefund(saleId, amount, reason).body;
    TrimIdempotent(reason.value);
    assert b.reason != [];
    assert !IsBlank(b.reason) by {
      assert Trim(b.reason) == b.reason;
    }
  }
}
