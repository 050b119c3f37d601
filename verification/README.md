# Love Sandwiches: sales validation and surplus calculation

A Dafny model of the local logic of the Love Sandwiches data-automation
script (`run.py`). The script reads one line of sales figures at the
terminal, accepts it when it splits on commas into exactly six integer
literals, appends the six figures to the `sales` worksheet, reads the last
row of the `stock` worksheet and appends the per-kind surplus (stock minus
sales) to the `surplus` worksheet.

The model is organised by component:

- `wrappers.dfy` (`Wrappers`): `Option`, `Result` and `Outcome`, used where
  the script raises or loops instead of returning.
- `str_split.dfy` (`StrSplit`): Python's `str.split(',')`, with `Join` as its
  inverse and the round trips in both directions.
- `int_literal.dfy` (`IntLiteral`): Python's `int()` on strings
  (`IsIntLiteral`, `ParseInt`), the "first token that fails" of a
  conversion comprehension (`FirstNonInt`), the whole-list conversion
  (`ParseAll`), and `str()` (`FormatInt`) as the partner that `int()` inverts.
- `sales_input.dfy` (`SalesInput`): `validate_data` as `Validate` (with the
  reason for a rejection) and `ValidateData` (the boolean the script uses);
  the retry loop of `get_sales_data` as the method `GetSalesData`, proved
  against the specification function `FirstAccepted`; the conversion in
  `main` as `SalesFigures`.
- `surplus.dfy` (`SurplusCalc`): `calculate_surplus_data` as the method
  `CalculateSurplusData`, whose loop appends one difference per `zip` pair
  and is proved equal to the specification function `SurplusResult`, built
  on the position-wise `Surplus`.
- `driver.dfy` (`Driver`): `main` as `Run`, which returns the rows that
  would be appended to the worksheets and how the run ended, and the
  end-to-end example, stated about `Run`, of a sales line `10,20,30,40,50,60` against a stock row
  `20,20,30,40,50,60`.

Decisions that shape the model:

- The surplus is stock minus sales, as `run.py:79` computes and as the sign
  convention at `run.py:70-71` reads; the docstring line `run.py:69` says
  "sales data - stock", which the code does not do.
- The integer conversion of a stock cell (`run.py:79`) raises on a cell
  that is not an integer literal; the model returns
  `Err(InvalidStockCell(cell))` for the first such cell among the paired
  ones. Cells beyond the shorter of the two rows are never converted, as
  with `zip`.
- `validate_data` converts every token before it counts them
  (`run.py:44-45`), so a bad token is reported even when the count is also
  wrong; `Validate` keeps that order.
- Sales figures may be negative or zero: the script accepts any integer
  literal, and so does the model.
- `validate_data` does not change its argument; in the model the tokens
  are a sequence value, so nothing can change them.

## Model

| member | source | states |
|---|---|---|
| `StrSplit.Split` | run.py:30 | splitting a line on `','` gives at least one piece and no piece contains a comma |
| `StrSplit.SplitLength` | run.py:30 | a line splits into one piece more than it has commas |
| `StrSplit.JoinSplit` | run.py:30 | joining the pieces with commas gives back the typed line |
| `StrSplit.SplitJoin` | run.py:30 | comma-free pieces joined with commas split back into the same pieces |
| `IntLiteral.IsIntLiteral` | run.py:44 | the strings `int()` accepts: after skipping space, tab, line feed, vertical tab, form feed and carriage return at both ends, an optional sign and at least one digit; a string of whitespace alone (the empty one included) is refused, and an accepted one ends in a digit |
| `IntLiteral.ParseInt` | run.py:79 | `int()` on an accepted string: a negative value needs a leading minus and an unsigned or plus-signed literal never reads as negative; its value is fixed by `ParseFormat` (canonical literals), `LeadingZero` (leading zeros), `ParseIntSign` and `ParseIntIgnoresPadding` |
| `IntLiteral.FirstNonInt` | run.py:44 | the conversion comprehension fails exactly when some token is not an integer literal, and then at the first such token, all tokens before it converting |
| `IntLiteral.ParseAll` | run.py:97 | converting a list of literals gives a list of the same length whose i-th element is the value of the i-th token |
| `IntLiteral.ParseFormat` | run.py:79 | the model's written form `FormatInt(n)` of every integer, negative ones included, is accepted by `ParseInt` and reads back as `n` |
| `IntLiteral.LeadingZero` | run.py:44 | a digit string with a leading zero is accepted and reads as the same value, as `int()` does in base 10 (`05` is 5) |
| `IntLiteral.ParseAllFormatAll` | run.py:97 | converting the written form of a list of integers gives back the list, in order |
| `IntLiteral.ParseIntIgnoresPadding` | run.py:44 | space, tab, line feed, vertical tab, form feed or carriage return around a token changes neither whether `int()` accepts it nor its value |
| `IntLiteral.ParseIntSign` | run.py:44 | a leading `-` negates the value of a digit string and a leading `+` keeps it |
| `IntLiteral.RejectsNonLiterals` | run.py:44 | the empty token, a lone sign, the word `thirty` and a digit preceded by the separator 0x1C are not integer literals |
| `SalesInput.Validate` | run.py:43-51 | passes exactly when all tokens convert and there are six; when any token does not convert, the first such token is reported whatever the count; a count error carries the count and only happens when every token converts |
| `SalesInput.ValidateData` | run.py:37-53 | `validate_data` is true exactly when there are six tokens and each is an integer literal |
| `SalesInput.FirstAccepted` | run.py:23-33 | the first line whose comma-split is accepted: every earlier line is rejected, and there is none exactly when every line is rejected |
| `SalesInput.GetSalesData` | run.py:16-34 | the loop reads lines until the first accepted one and returns that line's comma-split, which has six tokens that all convert; it reports exhausted input when no line is accepted |
| `SalesInput.SalesFigures` | run.py:97 | the conversion of an accepted token list gives six integers, the i-th being the value of the i-th token |
| `SalesInput.AcceptsWrittenFigures` | run.py:30-34 | any six integers written with commas between them form an accepted line that converts back to the same six integers in order |
| `SalesInput.RejectsWord` | run.py:30-51 | the line `10,20,thirty,40,50,60`, split on commas, is rejected with `thirty` as the token that does not convert |
| `SurplusCalc.Surplus` | run.py:78-80 | the surplus row is as long as the shorter of stock and sales rows, and its i-th element is stock minus sales at i |
| `SurplusCalc.SurplusResult` | run.py:74-81 | with the last stock row: succeeds exactly when every paired stock cell converts, then yields one difference per pair in order; otherwise fails at the first unconvertible paired cell |
| `SurplusCalc.CalculateSurplusData` | run.py:64-81 | the append loop over the `zip` pairs computes exactly `SurplusResult` for the table's last row |
| `SurplusCalc.SurplusSign` | run.py:70-71 | a surplus is positive exactly when stock exceeds sales (waste), negative exactly when sales exceed stock, zero when they agree |
| `SurplusCalc.SalesPlusSurplus` | run.py:79 | for rows of equal length, sales plus surplus gives back the stock row |
| `SurplusCalc.SurplusOfWrittenStock` | run.py:74-79 | a last stock row of written integers always converts, and its surplus is the integer-level stock minus sales |
| `SurplusCalc.SurplusExample` | run.py:78-81 | stock of fifty of each kind against sales 10 to 60 gives 40, 30, 20, 10, 0, -10 |
| `Driver.Run` | run.py:92-100 | with no accepted line nothing is appended; otherwise the six sales figures are appended to `sales`, then the surplus to `surplus`, or, when a stock cell does not convert, the run stops after the sales row |
| `Driver.EndToEndExample` | run.py:96-100 | running `main` on the line `10,20,30,40,50,60` against a stock table whose last row is `20,20,30,40,50,60` completes, appending the sales row as typed and then the surplus 10, 0, 0, 0, 0, 0 |

## Left out

- Loading the credentials, authorising the spreadsheet client and opening the spreadsheet (`run.py:1-14`): library calls and network access.
- `update_sales_worksheet` and `update_surplus_worksheet` (`run.py:55-62`, `run.py:83-90`): remote appends with no local logic; `Run` returns the rows they would append instead.
- The fetch of the stock worksheet (`run.py:74`): the stock table is a parameter of `CalculateSurplusData`, which requires it to be non-empty so that its last row exists; the error the script meets on an empty table is not modelled.
- Printing, prompting and the wording of the error messages (`run.py:24-28`, `32`, `50`, `59-62`, `73`, `87-90`, `103`): terminal I/O. `Validate` keeps the reason (the refused token, or the count) but not the text.
- GetSalesData: the script prompts until a line is accepted and never returns otherwise; the model reads from a finite sequence of lines and returns `None` when they run out.
- IsIntLiteral: Python's `int()` also accepts underscores between digits, non-ASCII decimal digits and non-ASCII whitespace around the literal; the model accepts only the ASCII whitespace `int()` skips (space and the characters tab to carriage return, 0x09 to 0x0D), an optional sign and the digits `0` to `9`. `int()` (and `str()`) also refuse more than 4300 digits by default on Python 3.11 and later and on the 2022 security releases (3.7.14, 3.8.14, 3.9.14, 3.10.7); the model has no limit, so it accepts such a figure where the script would reject the line (`run.py:44`) or stop at the stock cell (`run.py:79`).
