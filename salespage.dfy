/**
 * The cashier's sales page (components/SalesPage.tsx): the cart and its edits,
 * the totals and the discount, when a sale may be submitted and what is sent,
 * the refund guard, and the list of recent sales.
 */
module SalesPage {
  import opened Wrappers
  import opened Types
  import opened Text
  import ApiClient
  import Server

  // ---------------------------------------------------------------- looking things up

  /** `items.find(i => i.id === id)` */
  function FindItem(items: seq<Item>, id: int): (r: Option<Item>)
    ensures r.Some? ==> r.value in items && r.value.id == id
    ensures r.None? ==> forall k :: 0 <= k < |items| ==> items[k].id != id
  {
    if items == [] then None
    else if items[0].id == id then Some(items[0])
    else FindItem(items[1..], id)
  }

  /** `cart.findIndex(i => i.item_id === id)`: the first line of that item, or -1. */
  function FindLine(cart: seq<SaleItem>, id: int): (r: int)
    ensures -1 <= r < |cart|
    ensures r >= 0 ==> cart[r].itemId == id && forall k :: 0 <= k < r ==> cart[k].itemId != id
    ensures r == -1 ==> forall k :: 0 <= k < |cart| ==> cart[k].itemId != id
  {
    if cart == [] then -1
    else if cart[0].itemId == id then 0
    else
      var j := FindLine(cart[1..], id);
      if j < 0 then -1 else j + 1
  }

  // ---------------------------------------------------------------- cart edits as values

  /** A line whose quantity grew by `qty`, re-priced. */
  function Merged(line: SaleItem, qty: real): SaleItem {
    line.(quantity := line.quantity + qty, lineTotal := (line.quantity + qty) * line.unitPrice)
  }

  /** A fresh line for an item at its list price. */
  function NewLine(item: Item, qty: real): SaleItem {
    SaleItem(item.id, item.nameEn, item.nameAr, qty, item.pricePerUnit, qty * item.pricePerUnit)
  }

  /**
   * SalesPage.tsx:94-122. `selected` is the chosen item id (None when nothing is
   * chosen) and `qty` the parsed quantity (None when it is not a number).
   */
  function AddedCart(cart: seq<SaleItem>, items: seq<Item>, selected: Option<int>, qty: Option<real>): seq<SaleItem> {
    if selected.None? then cart
    else match FindItem(items, selected.value)
      case None => cart
      case Some(item) =>
        if !(qty.Some? && qty.value > 0.0) then cart
        else
          var i := FindLine(cart, item.id);
          if i >= 0 then cart[i := Merged(cart[i], qty.value)] else cart + [NewLine(item, qty.value)]
  }

  /** A line priced at its quantity times its unit price. */
  predicate LinePriced(line: SaleItem) {
    line.lineTotal == line.quantity * line.unitPrice
  }

  /** Every line is priced. */
  predicate Priced(cart: seq<SaleItem>) {
    forall k :: 0 <= k < |cart| ==> LinePriced(cart[k])
  }

  /** At most one line per item. */
  predicate OneLinePerItem(cart: seq<SaleItem>) {
    forall i, j :: 0 <= i < j < |cart| ==> cart[i].itemId != cart[j].itemId
  }

  /** Appending a line of an item not yet in the cart keeps one line per item. */
  lemma AppendKeepsOneLine(cart: seq<SaleItem>, line: SaleItem)
    requires OneLinePerItem(cart)
    requires forall k :: 0 <= k < |cart| ==> cart[k].itemId != line.itemId
    ensures OneLinePerItem(cart + [line])
  {
    var r := cart + [line];
    forall a, b | 0 <= a < b < |r| ensures r[a].itemId != r[b].itemId {
      assert r[a] == cart[a];
      if b < |cart| {
        assert r[b] == cart[b];
      }
    }
  }

  /** Replacing a line by one of the same item keeps one line per item. */
  lemma ReplaceKeepsOneLine(cart: seq<SaleItem>, i: nat, line: SaleItem)
    requires i < |cart| && line.itemId == cart[i].itemId && OneLinePerItem(cart)
    ensures OneLinePerItem(cart[i := line])
  {
    var r := cart[i := line];
    forall a, b | 0 <= a < b < |r| ensures r[a].itemId != r[b].itemId {
      assert r[a].itemId == cart[a].itemId && r[b].itemId == cart[b].itemId;
    }
  }

  /** Dropping a line keeps one line per item. */
  lemma DropKeepsOneLine(cart: seq<SaleItem>, i: nat)
    requires i < |cart| && OneLinePerItem(cart)
    ensures OneLinePerItem(cart[..i] + cart[i + 1..])
  {
    var r := cart[..i] + cart[i + 1..];
    forall a, b | 0 <= a < b < |r| ensures r[a].itemId != r[b].itemId {
      var a' := if a < i then a else a + 1;
      var b' := if b < i then b else b + 1;
      assert r[a] == cart[a'] && r[b] == cart[b'];
    }
  }

  /** Nothing is chosen, the item is not on the list, or the quantity is not positive: the cart stays. */
  lemma AddRejected(cart: seq<SaleItem>, items: seq<Item>, selected: Option<int>, qty: Option<real>)
    requires selected.None? || FindItem(items, selected.value).None? || qty.None? || qty.value <= 0.0
    ensures AddedCart(cart, items, selected, qty) == cart
  {
  }

  /** An item already in the cart grows its line; the length and every other line stay. */
  lemma AddMerges(cart: seq<SaleItem>, items: seq<Item>, id: int, q: real, i: nat)
    requires FindItem(items, id).Some? && q > 0.0
    requires i < |cart| && cart[i].itemId == id && OneLinePerItem(cart)
    ensures var r := AddedCart(cart, items, Some(id), Some(q));
      && |r| == |cart|
      && r[i].quantity == cart[i].quantity + q
      && r[i].lineTotal == r[i].quantity * r[i].unitPrice
      && r[i].itemId == id && r[i].unitPrice == cart[i].unitPrice
      && (forall k :: 0 <= k < |cart| && k != i ==> r[k] == cart[k])
  {
    var j := FindLine(cart, id);
    assert j == i;
  }

  /** An item not yet in the cart is appended as one line at its list price. */
  lemma AddAppends(cart: seq<SaleItem>, items: seq<Item>, id: int, q: real)
    requires FindItem(items, id).Some? && q > 0.0
    requires forall k :: 0 <= k < |cart| ==> cart[k].itemId != id
    ensures var r := AddedCart(cart, items, Some(id), Some(q));
      && r == cart + [NewLine(FindItem(items, id).value, q)]
      && r[|cart|].quantity == q && r[|cart|].lineTotal == q * FindItem(items, id).value.pricePerUnit
  {
  }

  /** Adding keeps one line per item and keeps every line priced. */
  lemma AddKeepsCartWellFormed(cart: seq<SaleItem>, items: seq<Item>, selected: Option<int>, qty: Option<real>)
    requires OneLinePerItem(cart) && Priced(cart)
    ensures OneLinePerItem(AddedCart(cart, items, selected, qty))
    ensures Priced(AddedCart(cart, items, selected, qty))
  {
    if selected.Some? && FindItem(items, selected.value).Some? && qty.Some? && qty.value > 0.0 {
      var item := FindItem(items, selected.value).value;
      var i := FindLine(cart, item.id);
      if i < 0 {
        var line := NewLine(item, qty.value);
        AppendKeepsOneLine(cart, line);
        assert LinePriced(line);
        assert forall k :: 0 <= k < |cart| + 1 ==> (cart + [line])[k] == if k < |cart| then cart[k] else line;
      } else {
        var line := Merged(cart[i], qty.value);
        ReplaceKeepsOneLine(cart, i, line);
        assert LinePriced(line);
      }
    }
  }

  /** SalesPage.tsx:133-139: a negative quantity is ignored; 0 is taken. */
  function UpdatedQty(cart: seq<SaleItem>, index: nat, newQty: real): seq<SaleItem>
    requires index < |cart|
  {
    if newQty < 0.0 then cart
    else cart[index := cart[index].(quantity := newQty, lineTotal := newQty * cart[index].unitPrice)]
  }

  /** Only line `index` changes, to the new quantity re-priced; the item, the length and the other lines stay. */
  lemma UpdateQtySpec(cart: seq<SaleItem>, index: nat, newQty: real)
    requires index < |cart|
    ensures var r := UpdatedQty(cart, index, newQty);
      && |r| == |cart|
      && (newQty < 0.0 ==> r == cart)
      && (newQty >= 0.0 ==> r[index].quantity == newQty && r[index].lineTotal == newQty * cart[index].unitPrice)
      && r[index].itemId == cart[index].itemId
      && (forall k :: 0 <= k < |cart| && k != index ==> r[k] == cart[k])
    ensures OneLinePerItem(cart) ==> OneLinePerItem(UpdatedQty(cart, index, newQty))
    ensures Priced(cart) ==> Priced(UpdatedQty(cart, index, newQty))
  {
    if newQty >= 0.0 {
      var line := cart[index].(quantity := newQty, lineTotal := newQty * cart[index].unitPrice);
      assert LinePriced(line);
      if OneLinePerItem(cart) {
        ReplaceKeepsOneLine(cart, index, line);
      }
    }
  }

  /** Where `splice(index, 1)` starts: a negative index counts from the end. */
  function SpliceStart(len: nat, index: int): (s: nat)
    ensures s <= len
    ensures 0 <= index <= len ==> s == index
  {
    if index < 0 then (if len + index < 0 then 0 else len + index)
    else if index > len then len
    else index
  }

  /** SalesPage.tsx:141-145 */
  function Removed(cart: seq<SaleItem>, index: int): (r: seq<SaleItem>)
    ensures var s := SpliceStart(|cart|, index);
      s < |cart| ==> (|r| == |cart| - 1 && (forall k :: 0 <= k < s ==> r[k] == cart[k])
                      && forall k :: s <= k < |r| ==> r[k] == cart[k + 1])
    ensures SpliceStart(|cart|, index) == |cart| ==> r == cart
  {
    var s := SpliceStart(|cart|, index);
    if s < |cart| then cart[..s] + cart[s + 1..] else cart
  }

  /** Removing a line deletes that one line; the rest keep their order, their pricing and their distinct items. */
  lemma RemoveSpec(cart: seq<SaleItem>, index: nat)
    requires index < |cart|
    ensures Removed(cart, index) == cart[..index] + cart[index + 1..]
    ensures multiset(Removed(cart, index)) + multiset{cart[index]} == multiset(cart)
    ensures OneLinePerItem(cart) ==> OneLinePerItem(Removed(cart, index))
    ensures Priced(cart) ==> Priced(Removed(cart, index))
  {
    assert cart == cart[..index] + [cart[index]] + cart[index + 1..];
    if OneLinePerItem(cart) {
      DropKeepsOneLine(cart, index);
    }
  }

  // ---------------------------------------------------------------- totals

  /** `cart.reduce((acc, item) => acc + item.line_total, 0)` */
  function Subtotal(cart: seq<SaleItem>): real {
    if cart == [] then 0.0 else Subtotal(cart[..|cart| - 1]) + cart[|cart| - 1].lineTotal
  }

  /** Lines with no negative total give no negative subtotal. */
  lemma {:induction false} SubtotalNonNegative(cart: seq<SaleItem>)
    requires forall k :: 0 <= k < |cart| ==> cart[k].lineTotal >= 0.0
    ensures Subtotal(cart) >= 0.0
  {
    if cart != [] {
      SubtotalNonNegative(cart[..|cart| - 1]);
    }
  }

  /** The subtotal of a cart with a line appended. */
  lemma SubtotalAppend(cart: seq<SaleItem>, line: SaleItem)
    ensures Subtotal(cart + [line]) == Subtotal(cart) + line.lineTotal
  {
    assert (cart + [line])[..|cart|] == cart;
  }

  datatype DiscountType = Amount | Percent

  /** What the page reports: the discount in dinars and the percentage sent with the sale. */
  datatype Discount = Discount(amount: real, percent: real)

  function Clamp(v: real, lo: real, hi: real): (r: real) {
    if v < lo then (if lo < hi then lo else hi) else if v > hi then hi else v
  }

  /**
   * SalesPage.tsx:164-172 as written; `val` is `parseFloat(discountValue) || 0`.
   * The amount is clamped in both modes, but percent mode reports `val` itself.
   */
  function DiscountAsWritten(subtotal: real, val: real, kind: DiscountType): (r: Discount)
    ensures r.amount == DiscountOf(subtotal, val, kind).amount
    ensures kind == Amount ==> r.percent == 0.0
    ensures kind == Percent ==> r.percent == val
    ensures 0.0 <= val <= 100.0 ==> r == DiscountOf(subtotal, val, kind)
  {
    match kind
    case Amount => Discount(Clamp(val, 0.0, subtotal), 0.0)
    case Percent => Discount(subtotal * Clamp(val, 0.0, 100.0) / 100.0, val)
  }

  /** The same discount, reporting the percentage that was applied. */
  function DiscountOf(subtotal: real, val: real, kind: DiscountType): Discount {
    match kind
    case Amount => Discount(Clamp(val, 0.0, subtotal), 0.0)
    case Percent => Discount(subtotal * Clamp(val, 0.0, 100.0) / 100.0, Clamp(val, 0.0, 100.0))
  }

  /** `Math.max(0, subtotal - discountCalc.amount)` */
  function Total(subtotal: real, d: Discount): real {
    if 0.0 > subtotal - d.amount then 0.0 else subtotal - d.amount
  }

  /**
   * In both modes the discount lies between 0 and the subtotal, so the total is
   * the subtotal less the discount and lies between 0 and the subtotal;
   * the corrected percentage lies between 0 and 100.
   */
  lemma DiscountBounds(subtotal: real, val: real, kind: DiscountType)
    requires subtotal >= 0.0
    ensures var d := DiscountOf(subtotal, val, kind);
      && 0.0 <= d.amount <= subtotal
      && 0.0 <= d.percent <= 100.0
      && Total(subtotal, d) == subtotal - d.amount
      && 0.0 <= Total(subtotal, d) <= subtotal
    ensures DiscountAsWritten(subtotal, val, kind).amount == DiscountOf(subtotal, val, kind).amount
  {
    match kind
    case Amount =>
    case Percent =>
      var c := Clamp(val, 0.0, 100.0);
      assert 0.0 <= c <= 100.0;
      assert 0.0 <= subtotal * c <= subtotal * 100.0;
      assert subtotal * c / 100.0 <= subtotal * 100.0 / 100.0;
  }

  /** A percentage between 0 and 100 takes that share of the subtotal. */
  lemma PercentDiscountShare(subtotal: real, val: real)
    requires 0.0 <= val <= 100.0
    ensures DiscountOf(subtotal, val, Percent) == Discount(subtotal * val / 100.0, val)
  {
  }

  // ---------------------------------------------------------------- submitting a sale

  /** SalesPage.tsx:176-182 */
  predicate CanSubmit(cart: seq<SaleItem>, payMethod: Option<PaymentMethod>, knetRef: string, chequeNum: string, processing: bool)
    : (r: bool)
    ensures r ==> cart != [] && payMethod.Some? && !processing
    ensures r && payMethod == Some(Knet) ==> Trim(knetRef) != ""
    ensures r && payMethod == Some(Cheque) ==> Trim(chequeNum) != ""
    ensures cart != [] && !processing && payMethod in {Some(Cash), Some(Credit)} ==> r
  {
    && cart != []
    && !(payMethod == Some(Knet) && Trim(knetRef) == "")
    && !(payMethod == Some(Cheque) && Trim(chequeNum) == "")
    && payMethod.Some?
    && !processing
  }

  /** The request of SalesPage.tsx:190-200: the reference of the chosen method only, and empty notes. */
  function SaleRequestOf(cart: seq<SaleItem>, d: Discount, payMethod: PaymentMethod, knetRef: string, chequeNum: string)
    : (r: Server.SaleRequest)
    ensures r.items == cart && r.subtotal == Subtotal(cart) && r.paymentMethod == payMethod
    ensures r.discountAmount == d.amount && r.discountPercentage == d.percent && r.totalAmount == Total(Subtotal(cart), d)
    ensures r.knetReference.Some? <==> payMethod == Knet
    ensures r.chequeNumber.Some? <==> payMethod == Cheque
  {
    Server.SaleRequest(cart, Subtotal(cart), d.amount, d.percent, Total(Subtotal(cart), d), payMethod,
                       if payMethod == Knet then Some(knetRef) else None,
                       if payMethod == Cheque then Some(chequeNum) else None,
                       Some(""))
  }

  /** A sale the page lets through is never stopped by the client's own reference checks. */
  lemma SubmittedSalePassesClientCheck(cart: seq<SaleItem>, payMethod: Option<PaymentMethod>, knetRef: string, chequeNum: string,
                                       processing: bool, d: Discount)
    requires CanSubmit(cart, payMethod, knetRef, chequeNum, processing)
    ensures var r := SaleRequestOf(cart, d, payMethod.value, knetRef, chequeNum);
      ApiClient.CreateSaleCheck(r.paymentMethod, r.knetReference, r.chequeNumber).None?
  {
  }

  /** And the converse: the page never refuses a sale the client would send, apart from an empty cart or a busy page. */
  lemma ClientCheckAllowsSubmit(cart: seq<SaleItem>, payMethod: PaymentMethod, knetRef: string, chequeNum: string, d: Discount)
    requires cart != []
    requires var r := SaleRequestOf(cart, d, payMethod, knetRef, chequeNum);
      ApiClient.CreateSaleCheck(r.paymentMethod, r.knetReference, r.chequeNumber).None?
    ensures CanSubmit(cart, Some(payMethod), knetRef, chequeNum, false)
  {
  }

  /**
   * With lines of non-negative totals, the corrected discount gives a row that
   * passes the `sales` CHECK constraints, whatever was typed in the discount field.
   */
  lemma SubmittedRowPassesChecks(db: Server.Db, actor: User, cart: seq<SaleItem>, val: real, kind: DiscountType,
                                 payMethod: PaymentMethod, knetRef: string, chequeNum: string, day: int, number: string)
    requires forall k :: 0 <= k < |cart| ==> cart[k].lineTotal >= 0.0
    ensures var d := DiscountOf(Subtotal(cart), val, kind);
      SaleRowOk(Server.RecordedSale(db, actor, SaleRequestOf(cart, d, payMethod, knetRef, chequeNum), day, number))
  {
    SubtotalNonNegative(cart);
    DiscountBounds(Subtotal(cart), val, kind);
  }

  /** As written, a 150 % discount on a 10 KWD cart is applied as 100 % but reported as 150, which the CHECK refuses. */
  lemma RawPercentFailsCheck(db: Server.Db, actor: User, cart: seq<SaleItem>, payMethod: PaymentMethod, day: int, number: string)
    requires Subtotal(cart) == 10.0
    ensures var d := DiscountAsWritten(10.0, 150.0, Percent);
      && d.amount == 10.0 && d.percent == 150.0
      && !SaleRowOk(Server.RecordedSale(db, actor, SaleRequestOf(cart, d, payMethod, "", ""), day, number))
    ensures DiscountOf(10.0, 150.0, Percent) == Discount(10.0, 100.0)
  {
  }

  // ---------------------------------------------------------------- refunds

  /** What `handleProcessRefund` passes to `createRefund`. */
  datatype RefundArgs = RefundArgs(saleId: int, amount: real, reason: string)

  /** SalesPage.tsx:247-265: a loaded sale, a non-blank reason and the cashier's confirmation. */
  function RefundCall(loaded: Option<Sale>, reason: string, confirmed: bool): (r: Option<RefundArgs>)
    ensures r.Some? <==> loaded.Some? && !IsBlank(reason) && confirmed
  {
    if loaded.None? || Trim(reason) == "" || !confirmed then None
    else Some(RefundArgs(loaded.value.id, loaded.value.totalAmount, Trim(reason)))
  }

  /**
   * A refund is always of the whole sale, with the trimmed reason; the client
   * sends it exactly when the sale's total is positive.
   */
  lemma RefundIsFull(loaded: Option<Sale>, reason: string, confirmed: bool)
    requires RefundCall(loaded, reason, confirmed).Some?
    ensures var a := RefundCall(loaded, reason, confirmed).value;
      a.saleId == loaded.value.id && a.amount == loaded.value.totalAmount && a.reason == Trim(reason)
    ensures var a := RefundCall(loaded, reason, confirmed).value;
      ApiClient.CreateRefund(a.saleId, a.amount, Some(a.reason)).RefundSent? <==> loaded.value.totalAmount > 0.0
  {
    var a := RefundCall(loaded, reason, confirmed).value;
    TrimIdempotent(reason);
    assert !IsBlank(a.reason) by {
      assert Trim(a.reason) == a.reason;
    }
  }

  // ---------------------------------------------------------------- recent sales

  const RecentLimit: nat := 10

  function Reverse<T>(s: seq<T>): (r: seq<T>)
    ensures |r| == |s|
    ensures forall i :: 0 <= i < |s| ==> r[i] == s[|s| - 1 - i]
  {
    seq(|s|, i requires 0 <= i < |s| => s[|s| - 1 - i])
  }

  /** Ids grow with time, and `GET /api/sales` lists the newest first. */
  predicate NewestFirst(s: seq<Sale>) {
    forall i, j :: 0 <= i < j < |s| ==> s[i].id > s[j].id
  }

  /** The list the page loads when it opens, as written: the last ten fetched, reversed. */
  function RecentAsWritten(fetched: seq<Sale>): seq<Sale> {
    var n := if |fetched| < RecentLimit then |fetched| else RecentLimit;
    Reverse(fetched[|fetched| - n..])
  }

  /** The ten newest, newest first, as `[sale, ...recentSales].slice(0, 10)` keeps them after a sale. */
  function Recent(fetched: seq<Sale>): seq<Sale> {
    if |fetched| < RecentLimit then fetched else fetched[..RecentLimit]
  }

  /** On a newest-first list of more than ten sales, the page shows the ten oldest, oldest first, and never the newest. */
  lemma RecentAsWrittenShowsOldest(fetched: seq<Sale>)
    requires NewestFirst(fetched) && |fetched| > RecentLimit
    ensures var r := RecentAsWritten(fetched);
      && |r| == RecentLimit
      && fetched[0] !in r
      && (forall i, j :: 0 <= i < j < |r| ==> r[i].id < r[j].id)
      && (forall i, k :: 0 <= i < |r| && 0 <= k < |fetched| - RecentLimit ==> r[i].id < fetched[k].id)
  {
    var r := RecentAsWritten(fetched);
    var tail := fetched[|fetched| - RecentLimit..];
    assert forall i :: 0 <= i < |r| ==> r[i] == fetched[|fetched| - 1 - i];
  }

  /** The corrected list holds the newest sales, newest first, and every sale left out is older than every sale shown. */
  lemma RecentShowsNewest(fetched: seq<Sale>)
    requires NewestFirst(fetched)
    ensures var r := Recent(fetched);
      && |r| == (if |fetched| < RecentLimit then |fetched| else RecentLimit)
      && NewestFirst(r)
      && (fetched != [] ==> r[0] == fetched[0])
      && (forall i, k :: 0 <= i < |r| && |r| <= k < |fetched| ==> fetched[k].id < r[i].id)
  {
  }

  /** A new sale, newer than everything shown, goes to the top; the list stays newest first and at most ten long. */
  lemma SubmitKeepsNewestFirst(recent: seq<Sale>, sale: Sale)
    requires NewestFirst(recent)
    requires forall k :: 0 <= k < |recent| ==> recent[k].id < sale.id
    ensures var r := Recent([sale] + recent);
      NewestFirst(r) && r[0] == sale && |r| <= RecentLimit
  {
    var s := [sale] + recent;
    forall i, j | 0 <= i < j < |s| ensures s[i].id > s[j].id {
      if i == 0 {
        assert s[j] == recent[j - 1];
      } else {
        assert s[i] == recent[i - 1] && s[j] == recent[j - 1];
      }
    }
  }

  // ---------------------------------------------------------------- the page as an object

  /** The page's cart and recent-sales list, changed in place by its handlers. */
  class Page {
    var cart: seq<SaleItem>
    var recentSales: seq<Sale>

    constructor()
      ensures cart == [] && recentSales == []
    {
      cart := [];
      recentSales := [];
    }

    /** `handleAddItem`: copy the cart, then grow the existing line in place or append one. */
    method AddItem(items: seq<Item>, selected: Option<int>, qty: Option<real>)
      modifies this`cart
      ensures cart == AddedCart(old(cart), items, selected, qty)
    {
      if selected.None? {
        return;
      }
      var item := FindItem(items, selected.value);
      if item.Some? && qty.Some? && qty.value > 0.0 {
        var i := FindLine(cart, item.value.id);
        if i >= 0 {
          var line := cart[i];
          line := line.(quantity := line.quantity + qty.value);
          line := line.(lineTotal := line.quantity * line.unitPrice);
          assert line == Merged(cart[i], qty.value);
          cart := cart[i := line];
        } else {
          cart := cart + [NewLine(item.value, qty.value)];
        }
      }
    }

    /** `updateCartItemQty` */
    method UpdateQty(index: nat, newQty: real)
      requires index < |cart|
      modifies this`cart
      ensures cart == UpdatedQty(old(cart), index, newQty)
    {
      if newQty >= 0.0 {
        var c0 := cart;
        var line := cart[index];
        line := line.(quantity := newQty);
        line := line.(lineTotal := newQty * line.unitPrice);
        cart := cart[index := line];
        var u := UpdatedQty(c0, index, newQty);
        assert |u| == |c0|;
        assert u[index] == line;
        assert forall k :: 0 <= k < |c0| && k != index ==> u[k] == c0[k];
      }
    }

    /** `removeFromCart` */
    method Remove(index: int)
      modifies this`cart
      ensures cart == Removed(old(cart), index)
    {
      var s := SpliceStart(|cart|, index);
      if s < |cart| {
        cart := cart[..s] + cart[s + 1..];
      }
    }

    /** The list loaded when the page opens, as written (see RecentAsWrittenShowsOldest). */
    method LoadRecent(fetched: seq<Sale>)
      modifies this`recentSales
      ensures recentSales == RecentAsWritten(fetched)
    {
      recentSales := RecentAsWritten(fetched);
    }

    /** After a sale is recorded: it goes to the top of the list and the cart is emptied. */
    method SaleCompleted(sale: Sale)
      modifies this`recentSales, this`cart
      ensures recentSales == Recent([sale] + old(recentSales))
      ensures cart == []
    {
      recentSales := Recent([sale] + recentSales);
      cart := [];
    }
  }
}
