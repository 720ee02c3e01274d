/** The status line under the form (its text and colour), the messages the
    page writes into it, and how the outcome of the submission request is
    turned into one. */
module Status {
  import opened Text

  /** green, red, orange, and the neutral "#333" used while waiting. */
  datatype Color = Green | Red | Orange | Neutral

  datatype StatusLine = StatusLine(text: string, color: Color)

  const InvalidFormatMessage: string :=
    "Invalid file format. Please ensure your Excel file has the required columns: Question_Text and Question_Type."
  const NoSelectionMessage: string := "Please select at least one question."
  const GeneratingMessage: string := "Generating your paper... Please wait."
  const LoadErrorPrefix: string := "Error: "
  const SuccessPrefix: string := "Success! "
  const FailurePrefix: string := "An error occurred: "
  const HttpStatusPrefix: string := "Server responded with status: "

  /** How the request ended: `fetch` or `response.json()` rejected with a
      message, the response was not ok with an HTTP status, or the response
      was ok and its JSON body carried `status` and `message`. */
  datatype Outcome =
    | NetworkError(message: string)
    | HttpNotOk(code: nat)
    | Ok(bodyStatus: string, bodyMessage: string)

  predicate Succeeded(o: Outcome)
  {
    o.Ok? && o.bodyStatus == "success"
  }

  /** The line shown when a file cannot be used. */
  function LoadError(message: string): (line: StatusLine)
    ensures line.color == Red
    ensures |line.text| == |LoadErrorPrefix| + |message|
    ensures line.text[..|LoadErrorPrefix|] == LoadErrorPrefix
    ensures line.text[|LoadErrorPrefix|..] == message
  {
    StatusLine(LoadErrorPrefix + message, Red)
  }

  /** The message of the Error that reaches the catch block. */
  function ThrownMessage(o: Outcome): (m: string)
    requires !Succeeded(o)
    ensures o.NetworkError? ==> m == o.message
    ensures o.Ok? ==> m == o.bodyMessage
    ensures o.HttpNotOk? ==>
      && |m| > |HttpStatusPrefix|
      && m[..|HttpStatusPrefix|] == HttpStatusPrefix
      && m[|HttpStatusPrefix|..] == NatToString(o.code)
      && AllDigits(m[|HttpStatusPrefix|..])
      && DigitsValue(m[|HttpStatusPrefix|..]) == o.code
  {
    match o
    case NetworkError(msg) => msg
    case HttpNotOk(code) =>
      DecimalRoundTrip(code);
      assert (HttpStatusPrefix + NatToString(code))[|HttpStatusPrefix|..] == NatToString(code);
      HttpStatusPrefix + NatToString(code)
    case Ok(_, msg) => msg
  }

  /** The try/catch of generateQuestionPaper: a success body gives a green
      line, every other outcome a red one. */
  function Interpret(o: Outcome): (line: StatusLine)
    ensures line.color == Green <==> Succeeded(o)
    ensures line.color == Green || line.color == Red
  {
    if Succeeded(o) then StatusLine(SuccessPrefix + o.bodyMessage, Green)
    else StatusLine(FailurePrefix + ThrownMessage(o), Red)
  }

  /** The success line shows the server's message after "Success! ". */
  lemma SuccessShowsMessage(o: Outcome)
    requires Succeeded(o)
    ensures Interpret(o).text[..|SuccessPrefix|] == SuccessPrefix
    ensures Interpret(o).text[|SuccessPrefix|..] == o.bodyMessage
  {
  }

  /** Every failure line starts with "An error occurred: "; an application
      error or a network error shows its own message after it. */
  lemma FailureShowsMessage(o: Outcome)
    requires !Succeeded(o)
    ensures Interpret(o).text[..|FailurePrefix|] == FailurePrefix
    ensures o.NetworkError? ==> Interpret(o).text[|FailurePrefix|..] == o.message
    ensures o.Ok? ==> Interpret(o).text[|FailurePrefix|..] == o.bodyMessage
  {
  }

  /** A non-ok response names its status code, and the code can be read
      back from the line. */
  lemma {:induction false} HttpStatusReadable(code: nat)
    ensures var t := Interpret(HttpNotOk(code)).text;
      var start := |FailurePrefix| + |HttpStatusPrefix|;
      && |t| > start
      && t[..start] == FailurePrefix + HttpStatusPrefix
      && t[start..] == NatToString(code)
      && AllDigits(t[start..])
      && DigitsValue(t[start..]) == code
  {
    var digits := NatToString(code);
    var t := Interpret(HttpNotOk(code)).text;
    var start := |FailurePrefix| + |HttpStatusPrefix|;
    assert t == (FailurePrefix + HttpStatusPrefix) + digits;
    assert t[..start] == FailurePrefix + HttpStatusPrefix;
    assert t[start..] == digits;
    DecimalRoundTrip(code);
  }

  /** The colour of a line is determined by its text: no success line reads
      like an error line. */
  lemma ColorFollowsText(o: Outcome, p: Outcome)
    requires Interpret(o).text == Interpret(p).text
    ensures Interpret(o).color == Interpret(p).color
  {
    FirstCharTellsOutcome(o);
    FirstCharTellsOutcome(p);
  }

  /** A success line starts with 'S', a failure line with 'A'. */
  lemma FirstCharTellsOutcome(o: Outcome)
    ensures |Interpret(o).text| > 0
    ensures Interpret(o).text[0] == if Succeeded(o) then 'S' else 'A'
  {
  }
}
