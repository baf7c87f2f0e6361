/**
 * The administrator dashboard (components/Dashboard.tsx): the sales export,
 * the edits of the inventory list, and the guards of the overview figures.
 */
module Dashboard {
  import opened Wrappers
  import opened Types
  import opened Text
  import Seqs
  import Csv
  import Reports

  // ---------------------------------------------------------------- the export (Dashboard.tsx:82-116)

  /** A line of an exported sale: the item's English name and its quantity as printed. */
  datatype ExportItem = ExportItem(name: string, quantityText: string)

  /** A sale of `getDailySales`, with the date, the time and `format3(total_amount)` already rendered. */
  datatype ExportSale = ExportSale(
    saleNumber: string,
    dateText: string,
    timeText: string,
    cashierName: Option<string>,
    status: SaleStatus,
    totalText: string,
    paymentMethod: PaymentMethod,
    knetReference: Option<string>,
    chequeNumber: Option<string>,
    items: seq<ExportItem>)

  const Headers: seq<string> :=
    ["Sale No", "Date", "Time", "Cashier", "Status", "Total (KWD)", "Payment Method", "Reference", "Items"]

  /** `name (qty)` */
  function ItemText(i: ExportItem): string {
    i.name + " (" + i.quantityText + ")"
  }

  function ItemTexts(items: seq<ExportItem>): (r: seq<string>)
    ensures |r| == |items|
    ensures forall k :: 0 <= k < |items| ==> r[k] == ItemText(items[k])
  {
    seq(|items|, k requires 0 <= k < |items| => ItemText(items[k]))
  }

  /** The items column: each line as `name (qty)`, separated by `; `. */
  function ItemsCell(items: seq<ExportItem>): (r: string)
    ensures items == [] ==> r == ""
    ensures |items| == 1 ==> r == ItemText(items[0])
    ensures |items| >= 2 ==> r == ItemText(items[0]) + "; " + ItemsCell(items[1..])
  {
    var texts := ItemTexts(items);
    assert |items| >= 2 ==> texts == [texts[0]] + ItemTexts(items[1..]);
    Join(texts, "; ")
  }

  /** The nine cells of a sale, in header order. */
  function RowOf(s: ExportSale): (r: seq<string>)
    ensures |r| == |Headers|
    ensures r[0] == s.saleNumber && r[3] == Shown(s.cashierName) && r[4] == StatusName(s.status)
    ensures r[6] == MethodName(s.paymentMethod)
    ensures r[7] == ReferenceOf(s.knetReference, s.chequeNumber)
    ensures r[8] == ItemsCell(s.items)
  {
    [s.saleNumber, s.dateText, s.timeText, Shown(s.cashierName), StatusName(s.status), s.totalText,
     MethodName(s.paymentMethod), ReferenceOf(s.knetReference, s.chequeNumber), ItemsCell(s.items)]
  }

  function Rows(sales: seq<ExportSale>): (r: seq<seq<string>>)
    ensures |r| == |sales|
    ensures forall k :: 0 <= k < |sales| ==> r[k] == RowOf(sales[k])
  {
    seq(|sales|, k requires 0 <= k < |sales| => RowOf(sales[k]))
  }

  /** The exported text, behind the `data:` prefix: the bare header line, then one quoted record per sale. */
  function ExportCsv(sales: seq<ExportSale>): string {
    Csv.Document(Headers, Rows(sales))
  }

  /** The dashboard's header is the server's with an items column, so it is as plain. */
  lemma HeadersPlain()
    ensures forall k :: 0 <= k < |Headers| ==> ',' !in Headers[k] && '\n' !in Headers[k]
  {
    assert Headers == Reports.ServerHeaders + ["Items"];
    Reports.HeadersPlain();
  }

  /**
   * The export reads back as the header and, for every sale in order, its nine
   * cells, whatever quotes, commas or line feeds the names, references and item
   * names hold.
   */
  lemma ExportRoundTrip(sales: seq<ExportSale>)
    ensures Csv.ParseDocument(ExportCsv(sales)) == Some((Headers, Rows(sales)))
  {
    var rows := Rows(sales);
    HeadersPlain();
    assert forall k :: 0 <= k < |rows| ==> rows[k] != [] by {
      forall k | 0 <= k < |rows| ensures rows[k] != [] {
        assert |rows[k]| == |Headers|;
      }
    }
    Csv.DocumentRoundTrip(Headers, rows);
  }

  // ---------------------------------------------------------------- the inventory list

  /** Dashboard.tsx:140: the item with that id takes the price the server returned. */
  function UpdatePrice(items: seq<Item>, id: int, price: real): (r: seq<Item>)
    ensures |r| == |items|
    ensures forall k :: 0 <= k < |items| && items[k].id == id ==> r[k] == items[k].(pricePerUnit := price)
    ensures forall k :: 0 <= k < |items| && items[k].id != id ==> r[k] == items[k]
  {
    seq(|items|, k requires 0 <= k < |items| => if items[k].id == id then items[k].(pricePerUnit := price) else items[k])
  }

  /** Dashboard.tsx:133: nothing happens without an item being edited or with an empty price field. */
  function UpdatePriceStep(items: seq<Item>, editing: Option<Item>, newPrice: string, returned: real): (r: seq<Item>)
    ensures editing.None? || newPrice == "" ==> r == items
    ensures editing.Some? && newPrice != "" ==> r == UpdatePrice(items, editing.value.id, returned)
    ensures |r| == |items|
  {
    if editing.None? || newPrice == "" then items else UpdatePrice(items, editing.value.id, returned)
  }

  /** The edit touches nothing but prices: ids, names, units and order stay, and repeating it changes nothing. */
  lemma UpdatePriceKeepsList(items: seq<Item>, id: int, price: real)
    ensures forall k :: 0 <= k < |items| ==>
      var r := UpdatePrice(items, id, price);
      r[k].id == items[k].id && r[k].nameEn == items[k].nameEn && r[k].unit == items[k].unit
    ensures UpdatePrice(UpdatePrice(items, id, price), id, price) == UpdatePrice(items, id, price)
  {
  }

  /** Dashboard.tsx:186: the items with that id go, the rest keep their order. */
  function DeleteItem(items: seq<Item>, id: int): (r: seq<Item>)
    ensures |r| <= |items|
    ensures forall k :: 0 <= k < |r| ==> r[k].id != id
  {
    Seqs.Filter(items, (x: Item) => x.id != id)
  }

  lemma DeleteItemSpec(items: seq<Item>, id: int)
    ensures forall x :: x in DeleteItem(items, id) <==> x in items && x.id != id
    ensures Seqs.SubsequenceOf(DeleteItem(items, id), items)
  {
    var p := (x: Item) => x.id != id;
    forall x ensures x in DeleteItem(items, id) <==> x in items && x.id != id {
      Seqs.FilterMembership(items, p, x);
    }
    Seqs.FilterIsSubsequence(items, p);
  }

  /** The three fields of the new-item form, as typed. */
  datatype ItemForm = ItemForm(nameEn: string, nameAr: string, price: string)

  datatype AddOutcome = Rejected(error: string) | Added(items: seq<Item>)

  /** Dashboard.tsx:153-167; `created` is the item the server returns. */
  function AddItem(items: seq<Item>, form: ItemForm, created: Item): (r: AddOutcome)
    ensures r.Rejected? <==> form.nameEn == "" || form.nameAr == "" || form.price == ""
    ensures r.Rejected? ==> r.error == "All fields are required"
    ensures r.Added? ==> r.items == items + [created]
  {
    if form.nameEn == "" || form.nameAr == "" || form.price == "" then Rejected("All fields are required")
    else Added(items + [created])
  }

  // ---------------------------------------------------------------- overview figures

  /** Dashboard.tsx:381-383: the average ticket, 0 when there were no sales. */
  function AvgTicket(revenue: real, count: nat): (r: real)
    ensures count == 0 ==> r == 0.0
    ensures count > 0 ==> r * (count as real) == revenue
  {
    if count == 0 then 0.0 else revenue / (count as real)
  }

  /** Dashboard.tsx:399: a method's share of the revenue in percent, 0 when there is no revenue. */
  function Percentage(value: real, total: real): (r: real)
    ensures total <= 0.0 ==> r == 0.0
    ensures total > 0.0 ==> r * total == value * 100.0
    ensures total > 0.0 && 0.0 <= value <= total ==> 0.0 <= r <= 100.0
  {
    if total > 0.0 then
      var q := value / total;
      QuotientScaled(value, total, q);
      q * 100.0
    else 0.0
  }

  /** The quotient times the total is the value, and a part of the total gives a quotient between 0 and 1. */
  lemma QuotientScaled(value: real, total: real, q: real)
    requires total > 0.0 && q == value / total
    ensures q * total == value
    ensures (q * 100.0) * total == value * 100.0
    ensures 0.0 <= value <= total ==> 0.0 <= q <= 1.0
  {
    assert q * total == value;
    calc {
      (q * 100.0) * total;
      (q * total) * 100.0;
      value * 100.0;
    }
  }

  lemma Cancel(x: real, y: real, t: real)
    requires t > 0.0 && x * t == y * t
    ensures x == y
  {
  }

  lemma ScaledSum(p0: real, p1: real, p2: real, p3: real, v0: real, v1: real, v2: real, v3: real, t: real)
    requires p0 * t == v0 * 100.0 && p1 * t == v1 * 100.0 && p2 * t == v2 * 100.0 && p3 * t == v3 * 100.0
    requires v0 + v1 + v2 + v3 == t
    ensures (p0 + p1 + p2 + p3) * t == 100.0 * t
  {
    calc {
      (p0 + p1 + p2 + p3) * t;
      ((p0 + p1) + (p2 + p3)) * t;
      (p0 + p1) * t + (p2 + p3) * t;
      p0 * t + p1 * t + p2 * t + p3 * t;
      (v0 + v1 + v2 + v3) * 100.0;
      { assert v0 + v1 + v2 + v3 == t; }
      t * 100.0;
      100.0 * t;
    }
  }

  /** Shares of parts that make up a positive total add up to 100. */
  lemma SharesSumTo100(v0: real, v1: real, v2: real, v3: real, t: real)
    requires t > 0.0 && v0 + v1 + v2 + v3 == t
    ensures Percentage(v0, t) + Percentage(v1, t) + Percentage(v2, t) + Percentage(v3, t) == 100.0
  {
    var p0, p1, p2, p3 := Percentage(v0, t), Percentage(v1, t), Percentage(v2, t), Percentage(v3, t);
    ScaledSum(p0, p1, p2, p3, v0, v1, v2, v3, t);
    Cancel(p0 + p1 + p2 + p3, 100.0, t);
  }

  /** The shares of the four payment methods add up to 100 whenever there was revenue. */
  lemma PercentagesSumTo100(daySales: seq<Sale>)
    requires Reports.Revenue(daySales) > 0.0
    ensures var b := Reports.SalesByPayment(daySales);
      var t := Reports.Revenue(daySales);
      Percentage(b[0].value, t) + Percentage(b[1].value, t) + Percentage(b[2].value, t) + Percentage(b[3].value, t) == 100.0
  {
    var b := Reports.SalesByPayment(daySales);
    SharesSumTo100(b[0].value, b[1].value, b[2].value, b[3].value, Reports.Revenue(daySales));
  }
}
