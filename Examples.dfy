/** Sessions driven through concrete event sequences, proved from the
    handlers' contracts alone. */
module Examples {
  import opened Text
  import opened Sheet
  import opened Selection
  import opened Status
  import opened Page

  function Row(text: string, kind: string): Record
  {
    map[QuestionTextKey := text, QuestionTypeKey := kind]
  }

  /** Three rows (mcq, short, mcq), boxes 0 and 1 checked, and a server that
      answers 200 with a success body: the first two rows are sent, the line
      reads "Success! Paper ready" in green, the loader is hidden and submit
      is enabled again. */
  method SuccessfulSubmission() returns (payload: seq<Entry>, line: StatusLine, loader: bool, disabled: bool)
    ensures payload == [Question(Row("Q1", "mcq")), Question(Row("Q2", "short"))]
    ensures line == StatusLine("Success! Paper ready", Green)
    ensures !loader && !disabled
  {
    var rows := [Row("Q1", "mcq"), Row("Q2", "short"), Row("Q3", "mcq")];
    assert Accepted(Rows(rows));
    var s := new Session();
    s.Load(Rows(rows));
    s.Click(0);
    s.Click(1);
    assert s.checked == [true, true, false];
    FirstTwoSent(rows);
    var request := s.BeginSubmit();
    payload := request.value;
    s.FinishSubmit(Ok("success", "Paper ready"));
    SuccessLine();
    line, loader, disabled := StatusLine(s.statusText, s.statusColor), s.loaderVisible, s.submitDisabled;
  }

  /** Boxes 0 and 1 of three checked: the first two rows are sent. */
  lemma FirstTwoSent(rows: seq<Record>)
    requires |rows| == 3
    ensures Gather(rows, [true, true, false]) == [Question(rows[0]), Question(rows[1])]
  {
    var checked := [true, true, false];
    GatherIsKept(rows, checked);
    assert checked[..2] == [true, true] && checked[..2][..1] == [true];
    assert rows[..2][..1] == [rows[0]];
  }

  /** The line a success body with message "Paper ready" produces. */
  lemma SuccessLine()
    ensures Interpret(Ok("success", "Paper ready")) == StatusLine("Success! Paper ready", Green)
  {
  }

  /** A 500 response: the red line names the status code. */
  method ServerError() returns (line: StatusLine, loader: bool, disabled: bool)
    ensures line == StatusLine("An error occurred: Server responded with status: 500", Red)
    ensures !loader && !disabled
  {
    var rows := [Row("Q1", "long")];
    assert Accepted(Rows(rows));
    var s := new Session();
    s.Load(Rows(rows));
    s.ToggleAll(true);
    var request := s.BeginSubmit();
    s.FinishSubmit(HttpNotOk(500));
    Http500Line();
    line, loader, disabled := StatusLine(s.statusText, s.statusColor), s.loaderVisible, s.submitDisabled;
  }

  /** The message thrown for a 500 response. */
  lemma Thrown500()
    ensures ThrownMessage(HttpNotOk(500)) == HttpStatusPrefix + "500"
  {
    assert NatToString(500) == "500";
  }

  lemma Text500()
    ensures FailurePrefix + (HttpStatusPrefix + "500") == "An error occurred: Server responded with status: 500"
  {
  }

  /** The line a 500 response produces. */
  lemma Http500Line()
    ensures Interpret(HttpNotOk(500)) == StatusLine("An error occurred: Server responded with status: 500", Red)
  {
    Thrown500();
    Text500();
  }

  /** Submitting with nothing checked sends nothing and only warns. */
  method NothingSelected() returns (request: Option<seq<Entry>>, line: StatusLine, loader: bool, disabled: bool)
    ensures request == None
    ensures line == StatusLine("Please select at least one question.", Orange)
    ensures !loader && !disabled
  {
    var s := new Session();
    s.Load(Rows([Row("Q1", "mcq"), Row("Q2", "mcq")]));
    CountUniform(2, false);
    request := s.BeginSubmit();
    line, loader, disabled := StatusLine(s.statusText, s.statusColor), s.loaderVisible, s.submitDisabled;
  }

  /** A file rejected while a request is in flight keeps the old list and its
      checked box; the finally block then enables submit, and the next
      submission sends `undefined` for that box. */
  method RejectedFileDuringSubmission() returns (request: Option<seq<Entry>>)
    ensures request == Some([Undefined])
  {
    var rows := [Row("Q1", "short")];
    assert Accepted(Rows(rows));
    var s := new Session();
    s.Load(Rows(rows));
    s.Click(0);
    var first := s.BeginSubmit();
    s.Load(ParseFailure("Unsupported file"));
    s.FinishSubmit(NetworkError("Failed to fetch"));
    assert s.records == [] && s.checked == [true];
    assert [true][..0] == [];
    assert CountTrue([true]) == 1;
    GatherWithoutRows([true]);
    assert seq(1, _ => Undefined) == [Undefined];
    request := s.BeginSubmit();
  }
}
