/**
 * The daily report (server.js:469-522) and the server's sales export
 * (server.js:527-565).
 */
module Reports {
  import opened Wrappers
  import opened Types
  import opened Text
  import Csv

  // ---------------------------------------------------------------- the day's sales and their sums

  /** `SELECT * FROM sales WHERE DATE(sale_date) = $1`, whatever the status. */
  function SalesOn(sales: seq<Sale>, day: int): (r: seq<Sale>)
    ensures |r| <= |sales|
    ensures forall k :: 0 <= k < |r| ==> r[k].day == day
  {
    if sales == [] then []
    else
      var last := sales[|sales| - 1];
      SalesOn(sales[..|sales| - 1], day) + (if last.day == day then [last] else [])
  }

  /** The sum of `total_amount`. */
  function Revenue(sales: seq<Sale>): real {
    if sales == [] then 0.0 else Revenue(sales[..|sales| - 1]) + sales[|sales| - 1].totalAmount
  }

  /** `SUM(total_amount) ... GROUP BY payment_method` for one method; 0 when no sale used it. */
  function MethodTotal(sales: seq<Sale>, m: PaymentMethod): real {
    if sales == [] then 0.0
    else MethodTotal(sales[..|sales| - 1], m) + (if sales[|sales| - 1].paymentMethod == m then sales[|sales| - 1].totalAmount else 0.0)
  }

  /** The four groups split the revenue: every sale is paid by exactly one of the methods. */
  lemma {:induction false} MethodTotalsSumToRevenue(sales: seq<Sale>)
    ensures MethodTotal(sales, Cash) + MethodTotal(sales, Knet) + MethodTotal(sales, Cheque) + MethodTotal(sales, Credit)
            == Revenue(sales)
  {
    if sales != [] {
      MethodTotalsSumToRevenue(sales[..|sales| - 1]);
    }
  }

  /** A method no sale used contributes 0 (the `|| 0` of server.js:489-494). */
  lemma {:induction false} MethodTotalUnused(sales: seq<Sale>, m: PaymentMethod)
    requires forall k :: 0 <= k < |sales| ==> sales[k].paymentMethod != m
    ensures MethodTotal(sales, m) == 0.0
  {
    if sales != [] {
      MethodTotalUnused(sales[..|sales| - 1], m);
    }
  }

  /** A named value of a chart: a payment method's revenue or an item's quantity. */
  datatype Slice = Slice(name: string, value: real)

  /** The chart's order of the methods. */
  const PaymentOrder: seq<PaymentMethod> := [Cash, Knet, Cheque, Credit]

  /** server.js:489-494: Cash, KNET, Cheque, Credit, in that order, each with its method's sum. */
  function SalesByPayment(daySales: seq<Sale>): (r: seq<Slice>)
    ensures |r| == |PaymentOrder| == 4
    ensures r[0].name == "Cash" && r[1].name == "KNET" && r[2].name == "Cheque" && r[3].name == "Credit"
    ensures forall i :: 0 <= i < |r| ==> r[i].value == MethodTotal(daySales, PaymentOrder[i])
    ensures r[0].value + r[1].value + r[2].value + r[3].value == Revenue(daySales)
  {
    MethodTotalsSumToRevenue(daySales);
    [Slice("Cash", MethodTotal(daySales, Cash)), Slice("KNET", MethodTotal(daySales, Knet)),
     Slice("Cheque", MethodTotal(daySales, Cheque)), Slice("Credit", MethodTotal(daySales, Credit))]
  }

  // ---------------------------------------------------------------- top items

  /** The sale with this id was made on this day (`JOIN sales s ON si.sale_id = s.id WHERE DATE(s.sale_date) = $1`). */
  predicate SoldOn(sales: seq<Sale>, saleId: int, day: int) {
    exists k :: 0 <= k < |sales| && sales[k].id == saleId && sales[k].day == day
  }

  /** The lines of the day's sales. */
  function LinesOn(sales: seq<Sale>, rows: seq<SaleItemRow>, day: int): (r: seq<SaleItem>)
    ensures |r| <= |rows|
  {
    if rows == [] then []
    else
      var last := rows[|rows| - 1];
      LinesOn(sales, rows[..|rows| - 1], day) + (if SoldOn(sales, last.saleId, day) then [last.item] else [])
  }

  /** A line is counted exactly when it belongs to a sale made that day. */
  lemma {:induction false} LinesOnMembership(sales: seq<Sale>, rows: seq<SaleItemRow>, day: int, x: SaleItem)
    ensures x in LinesOn(sales, rows, day) <==> RowOn(sales, rows, day, x)
  {
    if rows != [] {
      var init := rows[..|rows| - 1];
      var last := rows[|rows| - 1];
      LinesOnMembership(sales, init, day, x);
      if RowOn(sales, init, day, x) {
        var k :| 0 <= k < |init| && init[k].item == x && SoldOn(sales, init[k].saleId, day);
        assert rows[k] == init[k];
      }
      if RowOn(sales, rows, day, x) {
        var k :| 0 <= k < |rows| && rows[k].item == x && SoldOn(sales, rows[k].saleId, day);
        if k < |init| {
          assert init[k] == rows[k];
        }
      }
      if last.item == x && SoldOn(sales, last.saleId, day) {
        assert RowOn(sales, rows, day, x) by { assert rows[|rows| - 1] == last; }
      }
    }
  }

  /** Some row of `rows` has item `x` and belongs to a sale made that day. */
  predicate RowOn(sales: seq<Sale>, rows: seq<SaleItemRow>, day: int, x: SaleItem) {
    exists k :: 0 <= k < |rows| && rows[k].item == x && SoldOn(sales, rows[k].saleId, day)
  }

  predicate NameOccurs(lines: seq<SaleItem>, name: string) {
    exists k :: 0 <= k < |lines| && lines[k].nameEn == name
  }

  predicate NamesDistinct(s: seq<Slice>) {
    forall i, j :: 0 <= i < j < |s| ==> s[i].name != s[j].name
  }

  predicate StringsDistinct(s: seq<string>) {
    forall i, j :: 0 <= i < j < |s| ==> s[i] != s[j]
  }

  /** The groups of `GROUP BY item_name_en`, once each, in order of first appearance. */
  function Names(lines: seq<SaleItem>): (r: seq<string>)
    ensures StringsDistinct(r)
    ensures forall n :: n in r <==> NameOccurs(lines, n)
  {
    if lines == [] then []
    else
      var init := lines[..|lines| - 1];
      var n := lines[|lines| - 1].nameEn;
      assert forall m :: NameOccurs(lines, m) <==> NameOccurs(init, m) || m == n by {
        forall m ensures NameOccurs(lines, m) <==> NameOccurs(init, m) || m == n {
          if NameOccurs(lines, m) {
            var k :| 0 <= k < |lines| && lines[k].nameEn == m;
            if k < |init| {
              assert init[k] == lines[k];
            }
          }
          if NameOccurs(init, m) {
            var k :| 0 <= k < |init| && init[k].nameEn == m;
            assert lines[k] == init[k];
          }
        }
      }
      Names(init) + (if n in Names(init) then [] else [n])
  }

  /** `SUM(quantity)` over the lines with this name. */
  function QtyOf(lines: seq<SaleItem>, name: string): real {
    if lines == [] then 0.0
    else QtyOf(lines[..|lines| - 1], name) + (if lines[|lines| - 1].nameEn == name then lines[|lines| - 1].quantity else 0.0)
  }

  function Groups(lines: seq<SaleItem>): (r: seq<Slice>)
    ensures |r| == |Names(lines)|
    ensures forall k :: 0 <= k < |r| ==> r[k] == Slice(Names(lines)[k], QtyOf(lines, Names(lines)[k]))
  {
    var ns := Names(lines);
    seq(|ns|, k requires 0 <= k < |ns| => Slice(ns[k], QtyOf(lines, ns[k])))
  }

  predicate Descending(s: seq<Slice>) {
    forall i, j :: 0 <= i < j < |s| ==> s[i].value >= s[j].value
  }

  /** Insertion into a list sorted by decreasing value. */
  function Insert(x: Slice, s: seq<Slice>): (r: seq<Slice>)
    ensures |r| == |s| + 1
    ensures multiset(r) == multiset(s) + multiset{x}
  {
    if s == [] then [x]
    else if x.value >= s[0].value then [x] + s
    else
      assert s == [s[0]] + s[1..];
      [s[0]] + Insert(x, s[1..])
  }

  /** What the insertion returns holds `x` and the old entries, and nothing else. */
  lemma InsertMembers(x: Slice, s: seq<Slice>)
    ensures forall y :: y in Insert(x, s) ==> y == x || y in s
  {
    var r := Insert(x, s);
    forall y | y in r ensures y == x || y in s {
      assert y in multiset(r);
    }
  }

  /** An entry no smaller than every entry of a descending list can go in front of it. */
  lemma ConsDescending(h: Slice, s: seq<Slice>)
    requires Descending(s)
    requires forall y :: y in s ==> h.value >= y.value
    ensures Descending([h] + s)
  {
    var r := [h] + s;
    forall i, j | 0 <= i < j < |r| ensures r[i].value >= r[j].value {
      assert r[j] == s[j - 1];
      if i > 0 {
        assert r[i] == s[i - 1];
      }
    }
  }

  /** A name not in a list of distinct names can go in front of it. */
  lemma ConsDistinct(h: Slice, s: seq<Slice>)
    requires NamesDistinct(s)
    requires forall y :: y in s ==> h.name != y.name
    ensures NamesDistinct([h] + s)
  {
    var r := [h] + s;
    forall i, j | 0 <= i < j < |r| ensures r[i].name != r[j].name {
      assert r[j] == s[j - 1];
      if i > 0 {
        assert r[i] == s[i - 1];
      }
    }
  }

  /** The head of a descending list is no smaller than anything after it. */
  lemma HeadDominates(s: seq<Slice>)
    requires s != [] && Descending(s)
    ensures forall y :: y in s[1..] ==> s[0].value >= y.value
  {
    forall y | y in s[1..] ensures s[0].value >= y.value {
      var j :| 0 <= j < |s[1..]| && s[1..][j] == y;
      assert s[j + 1] == y;
    }
  }

  /** The head of a list of distinct names appears nowhere after it. */
  lemma HeadUnique(s: seq<Slice>)
    requires s != [] && NamesDistinct(s)
    ensures forall y :: y in s[1..] ==> s[0].name != y.name
  {
    forall y | y in s[1..] ensures s[0].name != y.name {
      var j :| 0 <= j < |s[1..]| && s[1..][j] == y;
      assert s[j + 1] == y;
    }
  }

  lemma {:induction false} InsertDescending(x: Slice, s: seq<Slice>)
    requires Descending(s)
    ensures Descending(Insert(x, s))
  {
    if s == [] {
    } else if x.value >= s[0].value {
      HeadDominates(s);
      ConsDescending(x, s);
    } else {
      var t := s[1..];
      assert Descending(t);
      InsertDescending(x, t);
      InsertMembers(x, t);
      HeadDominates(s);
      ConsDescending(s[0], Insert(x, t));
    }
  }

  lemma {:induction false} InsertDistinct(x: Slice, s: seq<Slice>)
    requires NamesDistinct(s)
    requires forall y :: y in s ==> y.name != x.name
    ensures NamesDistinct(Insert(x, s))
  {
    if s == [] {
    } else if x.value >= s[0].value {
      ConsDistinct(x, s);
    } else {
      var t := s[1..];
      assert NamesDistinct(t);
      InsertDistinct(x, t);
      InsertMembers(x, t);
      HeadUnique(s);
      ConsDistinct(s[0], Insert(x, t));
    }
  }

  /** `ORDER BY total DESC` (ties are left in an order SQL does not fix; this one is an insertion sort's). */
  function SortDesc(s: seq<Slice>): (r: seq<Slice>)
    ensures |r| == |s|
    ensures multiset(r) == multiset(s)
  {
    if s == [] then []
    else
      assert s == [s[0]] + s[1..];
      Insert(s[0], SortDesc(s[1..]))
  }

  lemma {:induction false} SortDescending(s: seq<Slice>)
    ensures Descending(SortDesc(s))
  {
    if s != [] {
      SortDescending(s[1..]);
      InsertDescending(s[0], SortDesc(s[1..]));
    }
  }

  lemma {:induction false} SortDistinct(s: seq<Slice>)
    requires NamesDistinct(s)
    ensures NamesDistinct(SortDesc(s))
  {
    if s != [] {
      var t := s[1..];
      var sorted := SortDesc(t);
      assert NamesDistinct(t);
      SortDistinct(t);
      HeadUnique(s);
      forall y | y in sorted ensures y.name != s[0].name {
        assert y in multiset(sorted);
      }
      InsertDistinct(s[0], sorted);
    }
  }

  const TopLimit: nat := 5

  /** `... ORDER BY total DESC LIMIT 5`. */
  function TopItems(lines: seq<SaleItem>): seq<Slice> {
    var sorted := SortDesc(Groups(lines));
    if |sorted| <= TopLimit then sorted else sorted[..TopLimit]
  }

  lemma GroupsFacts(lines: seq<SaleItem>)
    ensures NamesDistinct(Groups(lines))
    ensures forall y :: y in Groups(lines) <==> NameOccurs(lines, y.name) && y.value == QtyOf(lines, y.name)
  {
    var g := Groups(lines);
    var ns := Names(lines);
    forall y ensures y in g <==> NameOccurs(lines, y.name) && y.value == QtyOf(lines, y.name) {
      if NameOccurs(lines, y.name) && y.value == QtyOf(lines, y.name) {
        var k :| 0 <= k < |ns| && ns[k] == y.name;
        assert g[k] == y;
      }
    }
  }

  lemma TopItemsLength(lines: seq<SaleItem>)
    ensures |TopItems(lines)| == if |Names(lines)| <= TopLimit then |Names(lines)| else TopLimit
  {
  }

  /** The top list is ordered by decreasing quantity and names each item once. */
  lemma TopItemsOrdered(lines: seq<SaleItem>)
    ensures Descending(TopItems(lines))
    ensures NamesDistinct(TopItems(lines))
  {
    var g := Groups(lines);
    GroupsFacts(lines);
    SortDescending(g);
    SortDistinct(g);
    var sorted := SortDesc(g);
    var r := TopItems(lines);
    assert forall k :: 0 <= k < |r| ==> r[k] == sorted[k];
  }

  /** Each entry is an item sold that day with the sum of its quantities. */
  lemma TopItemsValues(lines: seq<SaleItem>)
    ensures forall y :: y in TopItems(lines) ==> NameOccurs(lines, y.name) && y.value == QtyOf(lines, y.name)
  {
    var g := Groups(lines);
    GroupsFacts(lines);
    var sorted := SortDesc(g);
    var r := TopItems(lines);
    forall y | y in r ensures NameOccurs(lines, y.name) && y.value == QtyOf(lines, y.name) {
      assert y in sorted;
      assert y in multiset(sorted);
      assert y in g;
    }
  }

  /** An item sold that day but left out of the list sold no more than any item shown. */
  lemma TopItemsExcluded(lines: seq<SaleItem>, n: string)
    requires NameOccurs(lines, n)
    requires forall y :: y in TopItems(lines) ==> y.name != n
    ensures forall y :: y in TopItems(lines) ==> QtyOf(lines, n) <= y.value
  {
    var g := Groups(lines);
    GroupsFacts(lines);
    SortDescending(g);
    var sorted := SortDesc(g);
    var r := TopItems(lines);
    var x := Slice(n, QtyOf(lines, n));
    assert x in g;
    assert x in multiset(sorted);
    var j :| 0 <= j < |sorted| && sorted[j] == x;
    assert j >= |r|;
    forall y | y in r ensures QtyOf(lines, n) <= y.value {
      var i :| 0 <= i < |r| && r[i] == y;
      assert sorted[i] == y;
    }
  }

  // ---------------------------------------------------------------- the report

  datatype DailyReport = DailyReport(
    day: int,
    totalRevenue: real,
    totalSalesCount: nat,
    salesByPayment: seq<Slice>,
    topItems: seq<Slice>)

  function DailyReportOf(sales: seq<Sale>, rows: seq<SaleItemRow>, day: int): DailyReport {
    var ds := SalesOn(sales, day);
    DailyReport(day, Revenue(ds), |ds|, SalesByPayment(ds), TopItems(LinesOn(sales, rows, day)))
  }

  /** A sale is counted exactly when it was made that day (cancelled and refunded ones included). */
  lemma {:induction false} SalesOnMembership(sales: seq<Sale>, day: int, s: Sale)
    ensures s in SalesOn(sales, day) <==> s in sales && s.day == day
  {
    if sales != [] {
      var init := sales[..|sales| - 1];
      SalesOnMembership(init, day, s);
      assert sales == init + [sales[|sales| - 1]];
    }
  }

  /**
   * The count is the number of that day's sales and the revenue their sum; the
   * breakdown has the four methods in fixed order, each with the sum of that
   * method's sales of the day, adding up to the revenue; the top list has at
   * most five entries.
   */
  lemma DailyReportSpec(sales: seq<Sale>, rows: seq<SaleItemRow>, day: int)
    ensures var r := DailyReportOf(sales, rows, day);
      && r.totalSalesCount == |SalesOn(sales, day)|
      && r.totalRevenue == Revenue(SalesOn(sales, day))
      && |r.salesByPayment| == 4
      && r.salesByPayment[0].name == "Cash" && r.salesByPayment[1].name == "KNET"
      && r.salesByPayment[2].name == "Cheque" && r.salesByPayment[3].name == "Credit"
      && (forall i :: 0 <= i < 4 ==> r.salesByPayment[i].value == MethodTotal(SalesOn(sales, day), PaymentOrder[i]))
      && r.salesByPayment[0].value + r.salesByPayment[1].value + r.salesByPayment[2].value + r.salesByPayment[3].value
         == r.totalRevenue
      && |r.topItems| <= TopLimit
      && Descending(r.topItems)
  {
    TopItemsLength(LinesOn(sales, rows, day));
    TopItemsOrdered(LinesOn(sales, rows, day));
  }

  /** A method nobody paid with that day is shown with 0 (the `|| 0` of server.js:489-494). */
  lemma DailyReportAbsentMethod(sales: seq<Sale>, rows: seq<SaleItemRow>, day: int, i: nat)
    requires i < |PaymentOrder|
    requires forall k :: 0 <= k < |sales| && sales[k].day == day ==> sales[k].paymentMethod != PaymentOrder[i]
    ensures DailyReportOf(sales, rows, day).salesByPayment[i].value == 0.0
  {
    var ds := SalesOn(sales, day);
    forall k | 0 <= k < |ds| ensures ds[k].paymentMethod != PaymentOrder[i] {
      SalesOnMembership(sales, day, ds[k]);
    }
    MethodTotalUnused(ds, PaymentOrder[i]);
  }

  // ---------------------------------------------------------------- the server's sales export

  /** One row of the export query, with the date, the time and `total_amount.toFixed(3)` already rendered. */
  datatype ExportRow = ExportRow(
    saleNumber: string,
    dateText: string,
    timeText: string,
    cashierName: Option<string>,
    status: SaleStatus,
    totalText: string,
    paymentMethod: PaymentMethod,
    knetReference: Option<string>,
    chequeNumber: Option<string>)

  const ServerHeaders: seq<string> := ["Sale No", "Date", "Time", "Cashier", "Status", "Total (KWD)", "Payment Method", "Reference"]

  /** server.js:546-555: the eight cells of a row. */
  function ServerCells(s: ExportRow): (r: seq<string>)
    ensures |r| == |ServerHeaders|
    ensures ServerHeaders[0] == "Sale No" && r[0] == s.saleNumber
    ensures ServerHeaders[1] == "Date" && r[1] == s.dateText
    ensures ServerHeaders[2] == "Time" && r[2] == s.timeText
    ensures ServerHeaders[3] == "Cashier" && r[3] == Shown(s.cashierName)
    ensures ServerHeaders[4] == "Status" && r[4] == StatusName(s.status)
    ensures ServerHeaders[5] == "Total (KWD)" && r[5] == s.totalText
    ensures ServerHeaders[6] == "Payment Method" && r[6] == MethodName(s.paymentMethod)
    ensures ServerHeaders[7] == "Reference" && r[7] == ReferenceOf(s.knetReference, s.chequeNumber)
  {
    [s.saleNumber, s.dateText, s.timeText, Shown(s.cashierName), StatusName(s.status), s.totalText,
     MethodName(s.paymentMethod), ReferenceOf(s.knetReference, s.chequeNumber)]
  }

  /** server.js:557-560 as written: `"${cell}"`, with quotes inside the cell left as they are. */
  function WrapAsWritten(c: string): string {
    "\"" + c + "\""
  }

  function RecordAsWritten(cells: seq<string>): string {
    Join(seq(|cells|, k requires 0 <= k < |cells| => WrapAsWritten(cells[k])), ",")
  }

  /** `[headers.join(','), ...rows].join('\n')` with the cells as written. */
  function ServerCsvAsWritten(rows: seq<ExportRow>): string {
    Join([Join(ServerHeaders, ",")] + seq(|rows|, k requires 0 <= k < |rows| => RecordAsWritten(ServerCells(rows[k]))), "\n")
  }

  /** The same text with each cell quoted as RFC 4180 asks. */
  function ServerCsv(rows: seq<ExportRow>): string {
    Join([Join(ServerHeaders, ",")] + Csv.Records(seq(|rows|, k requires 0 <= k < |rows| => ServerCells(rows[k]))), "\n")
  }

  /** A reference holding a quote makes the as-written record unreadable. */
  lemma QuoteInCellBreaksRecord()
    ensures RecordAsWritten(["5\""]) == "\"5\"\""
    ensures Csv.ParseCells(RecordAsWritten(["5\""])) == None
  {
    assert RecordAsWritten(["5\""]) == "\"5\"\"";
    var s := "\"5\"\"";
    assert s[1..] == "5\"\"";
    assert s[1..][1..] == "\"\"";
    assert s[1..][1..][2..] == "";
  }

  /** A reference holding `","` is read back as two cells: the columns shift. */
  lemma QuoteCommaSplitsCell()
    ensures Csv.ParseCells(RecordAsWritten(["1\",\"2"])) == Some((["1", "2"], ""))
  {
    var s := "\"1\",\"2\"";
    assert RecordAsWritten(["1\",\"2"]) == s;
    var none: string := [];
    // the second cell
    var t := "\"2\"";
    assert t[1..][0] == '2' && t[1..][1..] == "\"";
    assert Csv.ReadQuoted(t[1..][1..]) == Some((none, ""));
    assert [t[1..][0]] + none == "2";
    assert Csv.ReadQuoted(t[1..]) == Some(("2", ""));
    assert Csv.ParseCells(t) == Some((["2"], ""));
    // the first cell
    var u := s[1..];
    assert u[0] == '1' && u[1..] == "\",\"2\"";
    assert u[1..][1..] == ",\"2\"";
    assert Csv.ReadQuoted(u[1..]) == Some((none, ",\"2\""));
    assert [u[0]] + none == "1";
    assert Csv.ReadQuoted(u) == Some(("1", ",\"2\""));
    assert ",\"2\""[1..] == t;
    assert ["1"] + ["2"] == ["1", "2"];
  }

  /** Without quotes in the cells the as-written layout is the quoted one, so the defect needs a quote to show. */
  lemma {:induction false} AsWrittenAgreesWithoutQuotes(c: string)
    requires '"' !in c
    ensures WrapAsWritten(c) == Csv.QuoteCell(c)
  {
    EscapeWithoutQuotes(c);
  }

  lemma {:induction false} EscapeWithoutQuotes(c: string)
    requires '"' !in c
    ensures Csv.Escape(c) == c
  {
    if c != [] {
      EscapeWithoutQuotes(c[1..]);
      assert [c[0]] + c[1..] == c;
    }
  }

  /** No header name holds a comma or a line feed, so the header line splits back into the names. */
  lemma HeadersPlain()
    ensures forall k :: 0 <= k < |ServerHeaders| ==> ',' !in ServerHeaders[k] && '\n' !in ServerHeaders[k]
  {
    forall k | 0 <= k < |ServerHeaders| ensures ',' !in ServerHeaders[k] && '\n' !in ServerHeaders[k] {
      var h := ServerHeaders[k];
      assert forall i :: 0 <= i < |h| ==> h[i] != ',' && h[i] != '\n';
    }
  }

  /** A day without sales: the header line alone, which reads back as the header and no rows. */
  lemma HeaderOnlyExport()
    ensures ServerCsv([]) == Join(ServerHeaders, ",")
    ensures Csv.ParseDocument(ServerCsv([])) == Some((ServerHeaders, []))
  {
    HeadersPlain();
    var line := Join(ServerHeaders, ",");
    var none: seq<seq<string>> := [];
    var noRows: seq<ExportRow> := [];
    assert seq(|noRows|, k requires 0 <= k < |noRows| => ServerCells(noRows[k])) == none;
    assert [line] + Csv.Records(none) == [line];
    Csv.JoinWithout(ServerHeaders, ",", '\n');
    Csv.BreakAtNone(line, '\n');
    Csv.SplitOnJoin(ServerHeaders, ',');
  }

  /**
   * With quoting, the export reads back as the header and every row's eight
   * cells; a day without sales is the header line alone and reads back as no rows.
   */
  lemma ServerCsvRoundTrip(rows: seq<ExportRow>)
    ensures rows == [] ==> ServerCsv(rows) == Join(ServerHeaders, ",")
    ensures Csv.ParseDocument(ServerCsv(rows)) ==
      Some((ServerHeaders, seq(|rows|, k requires 0 <= k < |rows| => ServerCells(rows[k]))))
  {
    if rows == [] {
      HeaderOnlyExport();
    } else {
      var cells := seq(|rows|, k requires 0 <= k < |rows| => ServerCells(rows[k]));
      var recs := Csv.Records(cells);
      var parts := [Join(ServerHeaders, ",")] + recs;
      assert parts[1..] == recs;
      assert ServerCsv(rows) == Csv.Document(ServerHeaders, cells);
      HeadersPlain();
      assert forall k :: 0 <= k < |cells| ==> cells[k] != [] by {
        forall k | 0 <= k < |cells| ensures cells[k] != [] {
          assert |cells[k]| == |ServerHeaders|;
        }
      }
      Csv.DocumentRoundTrip(ServerHeaders, cells);
    }
  }
}
