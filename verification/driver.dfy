/** The program's main sequence with the spreadsheet calls replaced by
    values: read the sales figures, append them to the sales worksheet,
    compute the surplus against the stock table and append it to the
    surplus worksheet. */
module Driver {
  import opened Wrappers
  import opened StrSplit
  import opened IntLiteral
  import opened SalesInput
  import opened SurplusCalc

  /** One row appended to a named worksheet. */
  datatype AppendedRow = AppendedRow(worksheet: string, values: seq<int>)

  /** How a run ended: normally, because the input lines ran out before one
      was accepted (where `input()` would raise `EOFError`, or block at a
      terminal), or because a stock cell did not convert (an uncaught
      error in the program, after the sales row was already appended). */
  datatype Status = Completed | InputExhausted | StockCellRejected(error: SurplusError)

  /** `main()`: the rows appended, in order, and how the run ended. */
  method Run(lines: seq<string>, stock: seq<seq<string>>)
    returns (appended: seq<AppendedRow>, status: Status)
    requires |stock| > 0
    ensures FirstAccepted(lines).None? ==> appended == [] && status == InputExhausted
    ensures FirstAccepted(lines).Some? ==>
      var sales := SalesFigures(Tokens(lines[FirstAccepted(lines).value]));
      match SurplusResult(stock, sales)
      case Ok(surplus) =>
        status == Completed &&
        appended == [AppendedRow("sales", sales), AppendedRow("surplus", surplus)]
      case Err(e) =>
        status == StockCellRejected(e) && appended == [AppendedRow("sales", sales)]
  {
    var data, _ := GetSalesData(lines);
    if data.None? {
      return [], InputExhausted;
    }
    var salesData := SalesFigures(data.value);
    appended := [AppendedRow("sales", salesData)];
    var newSurplusData := CalculateSurplusData(stock, salesData);
    match newSurplusData
    case Ok(surplus) =>
      appended := appended + [AppendedRow("surplus", surplus)];
      status := Completed;
    case Err(e) =>
      status := StockCellRejected(e);
  }

  /** Sales of 10, 20, ..., 60 typed on one line, against a stock table whose
      last row holds 20, 20, 30, 40, 50, 60: the run completes, appending the
      sales row as typed and then the surplus 10 for the first kind and 0 for
      the others. */
  method EndToEndExample(stock: seq<seq<string>>)
    returns (appended: seq<AppendedRow>, status: Status)
    requires |stock| > 0 && LastRow(stock) == FormatAll([20, 20, 30, 40, 50, 60])
    ensures status == Completed
    ensures appended == [AppendedRow("sales", [10, 20, 30, 40, 50, 60]),
                         AppendedRow("surplus", [10, 0, 0, 0, 0, 0])]
  {
    ExampleInputs(stock);
    appended, status := Run(["10,20,30,40,50,60"], stock);
  }

  /** What `Run` consults in the example: the first line is accepted, reads
      as 10, 20, ..., 60, and its surplus against the stock table converts. */
  lemma ExampleInputs(stock: seq<seq<string>>)
    requires |stock| > 0 && LastRow(stock) == FormatAll([20, 20, 30, 40, 50, 60])
    ensures FirstAccepted(["10,20,30,40,50,60"]) == Some(0)
    ensures SalesFigures(Tokens("10,20,30,40,50,60")) == [10, 20, 30, 40, 50, 60]
    ensures SurplusResult(stock, [10, 20, 30, 40, 50, 60]) == Ok([10, 0, 0, 0, 0, 0])
  {
    ExampleSalesLine();
    assert FirstAccepted(["10,20,30,40,50,60"]) == Some(0);
    ExampleSurplus(stock);
  }

  /** The example's surplus against the stock row 20, 20, 30, 40, 50, 60. */
  lemma ExampleSurplus(stock: seq<seq<string>>)
    requires |stock| > 0 && LastRow(stock) == FormatAll([20, 20, 30, 40, 50, 60])
    ensures SurplusResult(stock, [10, 20, 30, 40, 50, 60]) == Ok([10, 0, 0, 0, 0, 0])
  {
    var sales := [10, 20, 30, 40, 50, 60];
    var stockFigures := [20, 20, 30, 40, 50, 60];
    SurplusOfWrittenStock(stock, stockFigures, sales);
    assert Surplus(stockFigures, sales) == [10, 0, 0, 0, 0, 0];
  }

  /** The example's line is accepted and reads as its six figures. */
  lemma ExampleSalesLine()
    ensures ValidateData(Tokens("10,20,30,40,50,60"))
    ensures SalesFigures(Tokens("10,20,30,40,50,60")) == [10, 20, 30, 40, 50, 60]
  {
    ExampleFigures();
    ExampleLine();
    AcceptsWrittenFigures([10, 20, 30, 40, 50, 60]);
  }

  /** The example's sales figures written out. */
  lemma ExampleFigures()
    ensures FormatAll([10, 20, 30, 40, 50, 60]) == ["10", "20", "30", "40", "50", "60"]
  {
    assert FormatInt(10) == "10";
    assert FormatInt(20) == "20";
    assert FormatInt(30) == "30";
    assert FormatInt(40) == "40";
    assert FormatInt(50) == "50";
    assert FormatInt(60) == "60";
  }

  /** The example's line is its six figures joined with commas. */
  lemma ExampleLine()
    ensures Join(["10", "20", "30", "40", "50", "60"], Separator) == "10,20,30,40,50,60"
  {
  }
}
