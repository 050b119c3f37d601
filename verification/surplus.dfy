/** The surplus of each sandwich kind: the stock recorded in the last row of
    the stock table minus the figure sold. A positive surplus is waste; a
    negative one counts sandwiches made on the fly after the stock ran out. */
module SurplusCalc {
  import opened Wrappers
  import opened IntLiteral

  /** `int(cell)` refused a stock cell; the loop stops at the first such cell. */
  datatype SurplusError = InvalidStockCell(literal: string)

  function Min(a: nat, b: nat): nat
  {
    if a <= b then a else b
  }

  /** Stock minus sales, position by position, over the pairs `zip` forms. */
  function Surplus(stock: seq<int>, sales: seq<int>): (surplus: seq<int>)
    ensures |surplus| == Min(|stock|, |sales|)
    ensures forall i :: 0 <= i < |surplus| ==> surplus[i] == stock[i] - sales[i]
  {
    if |stock| == 0 || |sales| == 0 then []
    else [stock[0] - sales[0]] + Surplus(stock[1..], sales[1..])
  }

  /** Position-wise sum, the inverse of taking the surplus. */
  function Plus(a: seq<int>, b: seq<int>): seq<int>
    requires |a| == |b|
  {
    if |a| == 0 then [] else [a[0] + b[0]] + Plus(a[1..], b[1..])
  }

  /** The stock row the calculation uses: the last row of the table. */
  function LastRow(stock: seq<seq<string>>): seq<string>
    requires |stock| > 0
  {
    stock[|stock| - 1]
  }

  /** What `calculate_surplus_data` computes for a stock table and a sales row. */
  function SurplusResult(stock: seq<seq<string>>, salesRow: seq<int>): (r: Result<seq<int>, SurplusError>)
    requires |stock| > 0
    ensures var row := LastRow(stock); var n := Min(|row|, |salesRow|);
      r.Ok? <==> forall i :: 0 <= i < n ==> IsIntLiteral(row[i])
    ensures var row := LastRow(stock); var n := Min(|row|, |salesRow|);
      r.Ok? ==> (|r.value| == n &&
                 forall i :: 0 <= i < n ==> r.value[i] == ParseInt(row[i]) - salesRow[i])
    ensures var row := LastRow(stock); var n := Min(|row|, |salesRow|);
      r.Err? ==> (exists k :: 0 <= k < n && r.error == InvalidStockCell(row[k]) &&
                              !IsIntLiteral(row[k]) && forall j :: 0 <= j < k ==> IsIntLiteral(row[j]))
  {
    var row := LastRow(stock);
    var cells := row[..Min(|row|, |salesRow|)];
    match FirstNonInt(cells)
    case Some(k) =>
      assert cells[k] == row[k];
      Err(InvalidStockCell(cells[k]))
    case None => Ok(Surplus(ParseAll(cells), salesRow))
  }

  /** `calculate_surplus_data(sales_row)` with the stock table passed in:
      pair the last stock row with the sales row and append, for each pair,
      the stock cell's value minus the sales figure. */
  method CalculateSurplusData(stock: seq<seq<string>>, salesRow: seq<int>)
    returns (r: Result<seq<int>, SurplusError>)
    requires |stock| > 0
    ensures r == SurplusResult(stock, salesRow)
  {
    var stockRow := stock[|stock| - 1];
    var surplusData: seq<int> := [];
    var i := 0;
    while i < |stockRow| && i < |salesRow|
      invariant i <= |stockRow| && i <= |salesRow|
      invariant forall j :: 0 <= j < i ==> IsIntLiteral(stockRow[j])
      invariant |surplusData| == i
      invariant forall j :: 0 <= j < i ==> surplusData[j] == ParseInt(stockRow[j]) - salesRow[j]
    {
      if !IsIntLiteral(stockRow[i]) {
        return Err(InvalidStockCell(stockRow[i]));
      }
      var surplus := ParseInt(stockRow[i]) - salesRow[i];
      surplusData := surplusData + [surplus];
      i := i + 1;
    }
    ghost var expected := SurplusResult(stock, salesRow);
    assert expected.Ok? && |expected.value| == |surplusData|;
    assert forall j :: 0 <= j < i ==> expected.value[j] == surplusData[j];
    assert expected.value == surplusData;
    return Ok(surplusData);
  }

  /** The sign convention: a surplus is positive exactly when more was
      stocked than sold (waste), negative exactly when more was sold than
      stocked, and zero when the two agree. */
  lemma SurplusSign(stock: seq<int>, sales: seq<int>, i: nat)
    requires i < |stock| && i < |sales|
    ensures Surplus(stock, sales)[i] > 0 <==> stock[i] > sales[i]
    ensures Surplus(stock, sales)[i] < 0 <==> stock[i] < sales[i]
    ensures Surplus(stock, sales)[i] == 0 <==> stock[i] == sales[i]
  {
  }

  /** Adding the surplus back to the sales gives the stock row again. */
  lemma {:induction false} SalesPlusSurplus(stock: seq<int>, sales: seq<int>)
    requires |stock| == |sales|
    ensures Plus(sales, Surplus(stock, sales)) == stock
  {
    if |stock| > 0 {
      SalesPlusSurplus(stock[1..], sales[1..]);
      assert stock == [stock[0]] + stock[1..];
    }
  }

  /** A stock table whose last row holds written-out integers always
      converts, and its surplus is the integer-level one. */
  lemma SurplusOfWrittenStock(stock: seq<seq<string>>, stockFigures: seq<int>, salesRow: seq<int>)
    requires |stock| > 0 && LastRow(stock) == FormatAll(stockFigures)
    ensures SurplusResult(stock, salesRow) == Ok(Surplus(stockFigures, salesRow))
  {
    ParseAllFormatAll(stockFigures);
    var r := SurplusResult(stock, salesRow);
    var expected := Surplus(stockFigures, salesRow);
    assert r.Ok? && |r.value| == |expected|;
    forall i | 0 <= i < |expected|
      ensures r.value[i] == expected[i]
    {
      ParseFormat(stockFigures[i]);
    }
    assert r.value == expected;
  }

  /** Fifty of each kind stocked against sales of 10, 20, ..., 60. */
  lemma SurplusExample()
    ensures Surplus([50, 50, 50, 50, 50, 50], [10, 20, 30, 40, 50, 60]) == [40, 30, 20, 10, 0, -10]
  {
  }
}
