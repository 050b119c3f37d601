/** Reading the day's sales figures: a line is split on commas and accepted
    when it holds exactly six integer literals; lines are tried in order
    until one is accepted. */
module SalesInput {
  import opened Wrappers
  import opened StrSplit
  import opened IntLiteral

  /** The character a line of sales figures is split on. */
  const Separator: char := ','

  /** The number of figures a line must hold, one per sandwich kind. */
  const SalesFields: nat := 6

  /** Why a list of tokens was rejected: the first token `int()` refuses, or
      the number of tokens when all of them convert. */
  datatype ValidationError = NotAnInteger(literal: string) | WrongCount(provided: nat)

  /** The check `validate_data` makes: convert every token (stopping at the
      first that fails), and only then count the tokens. */
  function Validate(values: seq<string>): (r: Outcome<ValidationError>)
    ensures r.Pass? <==>
      (forall i :: 0 <= i < |values| ==> IsIntLiteral(values[i])) && |values| == SalesFields
    ensures (exists i :: 0 <= i < |values| && !IsIntLiteral(values[i])) ==>
      r.Fail? && r.error.NotAnInteger?
    ensures r.Fail? && r.error.NotAnInteger? ==>
      FirstNonInt(values).Some? && r.error.literal == values[FirstNonInt(values).value]
    ensures r.Fail? && r.error.NotAnInteger? ==>
      r.error.literal in values && !IsIntLiteral(r.error.literal)
    ensures r.Fail? && r.error.WrongCount? ==>
      r.error.provided == |values| != SalesFields &&
      forall i :: 0 <= i < |values| ==> IsIntLiteral(values[i])
  {
    match FirstNonInt(values)
    case Some(k) => Fail(NotAnInteger(values[k]))
    case None => if |values| != SalesFields then Fail(WrongCount(|values|)) else Pass
  }

  /** `validate_data(values)`: true exactly when the tokens are six integer literals. */
  function ValidateData(values: seq<string>): (valid: bool)
    ensures valid <==>
      |values| == SalesFields && forall i :: 0 <= i < |values| ==> IsIntLiteral(values[i])
  {
    Validate(values).Pass?
  }

  /** The tokens of one line typed at the prompt. */
  function Tokens(line: string): seq<string>
  {
    Split(line, Separator)
  }

  /** The index of the first line whose tokens are accepted, if any. */
  function FirstAccepted(lines: seq<string>): (k: Option<nat>)
    ensures k.None? <==> forall j :: 0 <= j < |lines| ==> !ValidateData(Tokens(lines[j]))
    ensures k.Some? ==> k.value < |lines| && ValidateData(Tokens(lines[k.value]))
    ensures k.Some? ==> forall j :: 0 <= j < k.value ==> !ValidateData(Tokens(lines[j]))
  {
    FirstAcceptedFrom(lines, 0)
  }

  /** `FirstAccepted` over the lines from index `from` on. */
  function FirstAcceptedFrom(lines: seq<string>, from: nat): (k: Option<nat>)
    requires from <= |lines|
    ensures k.None? <==> forall j :: from <= j < |lines| ==> !ValidateData(Tokens(lines[j]))
    ensures k.Some? ==> from <= k.value < |lines| && ValidateData(Tokens(lines[k.value]))
    ensures k.Some? ==> forall j :: from <= j < k.value ==> !ValidateData(Tokens(lines[j]))
    decreases |lines| - from
  {
    if from == |lines| then None
    else if ValidateData(Tokens(lines[from])) then Some(from)
    else FirstAcceptedFrom(lines, from + 1)
  }

  /** `get_sales_data`: prompt for lines (here taken from `lines`, in order)
      until one splits into an accepted token list, and return that list.
      `attempts` is the number of lines read. When the lines run out first
      the result is `None`, where `input()` would raise `EOFError` (or block at a terminal). */
  method GetSalesData(lines: seq<string>) returns (data: Option<seq<string>>, attempts: nat)
    ensures FirstAccepted(lines).None? ==> data.None? && attempts == |lines|
    ensures FirstAccepted(lines).Some? ==>
      attempts == FirstAccepted(lines).value + 1 &&
      data == Some(Tokens(lines[attempts - 1]))
    ensures data.Some? ==>
      |data.value| == SalesFields &&
      forall i :: 0 <= i < |data.value| ==> IsIntLiteral(data.value[i])
  {
    attempts := 0;
    while attempts < |lines|
      invariant attempts <= |lines|
      invariant forall j :: 0 <= j < attempts ==> !ValidateData(Tokens(lines[j]))
    {
      var salesData := Tokens(lines[attempts]);
      attempts := attempts + 1;
      if ValidateData(salesData) {
        return Some(salesData), attempts;
      }
    }
    data := None;
  }

  /** The conversion `[int(num) for num in data]` applied to an accepted
      token list: six integers, the i-th being the value of the i-th token. */
  function SalesFigures(tokens: seq<string>): (figures: seq<int>)
    requires ValidateData(tokens)
    ensures |figures| == SalesFields
    ensures forall i :: 0 <= i < SalesFields ==> figures[i] == ParseInt(tokens[i])
  {
    ParseAll(tokens)
  }

  /** Any six integers, written out and joined with commas, form a line that
      is accepted and converts back to the same six integers in order. */
  lemma AcceptsWrittenFigures(figures: seq<int>)
    requires |figures| == SalesFields
    ensures ValidateData(Tokens(Join(FormatAll(figures), Separator)))
    ensures SalesFigures(Tokens(Join(FormatAll(figures), Separator))) == figures
  {
    var tokens := FormatAll(figures);
    SplitJoin(tokens, Separator);
    ParseAllFormatAll(figures);
  }

  /** A line with a word among its figures is rejected, and the word is the reason. */
  lemma RejectsWord()
    ensures Validate(Tokens("10,20,thirty,40,50,60")) == Fail(NotAnInteger("thirty"))
  {
    WordLineTokens();
    WordTokensRejected();
  }

  /** The tokens of the rejection example. */
  lemma WordLineTokens()
    ensures Tokens("10,20,thirty,40,50,60") == ["10", "20", "thirty", "40", "50", "60"]
  {
    WordLineJoined();
    SplitJoin(["10", "20", "thirty", "40", "50", "60"], Separator);
  }

  /** The example's tokens are rejected at the word. */
  lemma WordTokensRejected()
    ensures Validate(["10", "20", "thirty", "40", "50", "60"]) == Fail(NotAnInteger("thirty"))
  {
  }

  /** The line of the rejection example is its six tokens joined with commas. */
  lemma WordLineJoined()
    ensures Join(["10", "20", "thirty", "40", "50", "60"], Separator) == "10,20,thirty,40,50,60"
  {
  }
}
