/** The page's state and the handlers that change it: loading a parsed sheet,
    checking boxes, and the two halves of a submission (before the request is
    sent, and after its outcome is known). */
module Page {
  import opened Text
  import opened Sheet
  import opened Selection
  import opened Status

  /** What the spreadsheet library hands back for the chosen file: the rows
      of the first sheet, or the message of the error it threw. */
  datatype ParsedSheet = Rows(rows: seq<Record>) | ParseFailure(message: string)

  /** A sheet the page accepts: parsed, with the required columns. */
  predicate Accepted(sheet: ParsedSheet)
  {
    sheet.Rows? && SheetHasHeaders(sheet.rows)
  }

  /** The message shown after "Error: " when a sheet is not accepted. */
  function RejectionMessage(sheet: ParsedSheet): string
  {
    match sheet
    case ParseFailure(m) => m
    case Rows(_) => InvalidFormatMessage
  }

  /** The counter text, "Selected: n". */
  function CounterText(n: nat): (s: string)
    ensures |s| > 10 && s[..10] == "Selected: "
    ensures s[10..] == NatToString(n)
    ensures AllDigits(s[10..]) && DigitsValue(s[10..]) == n
  {
    DecimalRoundTrip(n);
    assert ("Selected: " + NatToString(n))[10..] == NatToString(n);
    "Selected: " + NatToString(n)
  }

  class Session {
    /** allQuestions */
    var records: seq<Record>
    /** The rendered list: one item per row of the last accepted sheet. */
    var items: seq<Item>
    /** The state of each rendered checkbox, in document order. */
    var checked: seq<bool>
    var counterText: string
    var statusText: string
    var statusColor: Color
    var loaderVisible: bool
    var submitDisabled: bool
    var selectionAreaVisible: bool

    /** The counter shows the number of checked boxes; the selection area is
        shown exactly when rows are loaded, and then the list was rendered
        from those rows, one checkbox each. After a rejected file the old
        list stays on the page while `records` is empty. */
    ghost predicate Valid()
      reads this
    {
      && |items| == |checked|
      && counterText == CounterText(CountTrue(checked))
      && (selectionAreaVisible <==> records != [])
      && (records != [] ==> items == RenderList(records) && |checked| == |records|)
    }

    /** The page before any file is chosen: nothing loaded, the selection
        area and the loader hidden, the submit button disabled. */
    constructor ()
      ensures Valid()
      ensures records == [] && items == [] && checked == []
      ensures statusText == "" && statusColor == Neutral
      ensures !loaderVisible && submitDisabled && !selectionAreaVisible
    {
      records := [];
      items := [];
      checked := [];
      counterText := CounterText(0);
      statusText := "";
      statusColor := Neutral;
      loaderVisible := false;
      submitDisabled := true;
      selectionAreaVisible := false;
    }

    /** updateSelectionCounter */
    method UpdateSelectionCounter()
      modifies this`counterText
      ensures counterText == CounterText(CountTrue(checked))
    {
      counterText := CounterText(CountTrue(checked));
    }

    /** resetUI: hides the selection area, disables submit and forgets the
        rows; the rendered list itself is left on the page. */
    method ResetUI()
      modifies this`selectionAreaVisible, this`submitDisabled, this`records
      ensures !selectionAreaVisible && submitDisabled && records == []
    {
      selectionAreaVisible := false;
      submitDisabled := true;
      records := [];
    }

    /** displayQuestions: rebuilds the list from `records`, one unchecked box
        per row, and refreshes the counter. */
    method DisplayQuestions()
      modifies this`items, this`checked, this`counterText
      ensures items == RenderList(records)
      ensures checked == seq(|records|, _ => false)
      ensures CountTrue(checked) == 0 && counterText == CounterText(0)
    {
      items := [];
      checked := [];
      var i := 0;
      while i < |records|
        invariant 0 <= i <= |records|
        invariant items == RenderList(records[..i])
        invariant checked == seq(i, _ => false)
      {
        assert RenderList(records[..i + 1]) == RenderList(records[..i]) + [RenderItem(records[i], i)];
        items := items + [RenderItem(records[i], i)];
        checked := checked + [false];
        i := i + 1;
      }
      assert records[..i] == records;
      CountUniform(|records|, false);
      UpdateSelectionCounter();
    }

    /** The `onload` handler, given what the spreadsheet library made of the
        file. An accepted sheet replaces the rows and rebuilds the list with
        nothing checked; any other outcome shows "Error: <message>" in red
        and resets. The loader is never touched, and on success the status
        colour is left as it was. */
    method Load(sheet: ParsedSheet)
      requires Valid()
      modifies this
      ensures Valid()
      ensures loaderVisible == old(loaderVisible)
      ensures Accepted(sheet) ==>
        && records == sheet.rows
        && items == RenderList(records)
        && checked == seq(|records|, _ => false)
        && counterText == CounterText(0)
        && selectionAreaVisible && !submitDisabled
        && statusText == "" && statusColor == old(statusColor)
      ensures !Accepted(sheet) ==>
        && records == []
        && !selectionAreaVisible && submitDisabled
        && StatusLine(statusText, statusColor) == LoadError(RejectionMessage(sheet))
        && items == old(items) && checked == old(checked) && counterText == old(counterText)
    {
      match sheet {
        case ParseFailure(m) =>
          statusText := LoadErrorPrefix + m;
          statusColor := Red;
          ResetUI();
        case Rows(rows) =>
          records := rows;
          if !SheetHasHeaders(records) {
            statusText := LoadErrorPrefix + InvalidFormatMessage;
            statusColor := Red;
            ResetUI();
          } else {
            DisplayQuestions();
            selectionAreaVisible := true;
            submitDisabled := false;
            statusText := "";
          }
      }
    }

    /** toggleAllCheckboxes: sets every box to `b` and refreshes the counter. */
    method ToggleAll(b: bool)
      requires Valid()
      modifies this`checked, this`counterText
      ensures Valid()
      ensures checked == seq(|old(checked)|, _ => b)
      ensures counterText == CounterText(if b then |checked| else 0)
    {
      var i := 0;
      while i < |checked|
        invariant 0 <= i <= |checked| == |old(checked)|
        invariant forall k :: 0 <= k < i ==> checked[k] == b
        invariant forall k :: i <= k < |checked| ==> checked[k] == old(checked)[k]
      {
        checked := checked[i := b];
        i := i + 1;
      }
      assert checked == seq(|old(checked)|, _ => b);
      CountUniform(|checked|, b);
      UpdateSelectionCounter();
    }

    /** A click on box `i` flips it; the list's change listener then
        refreshes the counter, which moves by one. */
    method Click(i: nat)
      requires Valid()
      requires i < |checked|
      modifies this`checked, this`counterText
      ensures Valid()
      ensures checked == old(checked)[i := !old(checked)[i]]
      ensures CountTrue(checked) == if checked[i] then CountTrue(old(checked)) + 1 else CountTrue(old(checked)) - 1
    {
      CountUpdate(checked, i, !checked[i]);
      checked := checked[i := !checked[i]];
      UpdateSelectionCounter();
    }

    /** generateQuestionPaper up to the request. With nothing checked it shows
        the orange warning and sends nothing, leaving loader and button as
        they were; otherwise it gathers the rows of the checked boxes, shows
        the loader, disables submit and returns the payload to send. */
    method BeginSubmit() returns (request: Option<seq<Entry>>)
      requires Valid()
      modifies this`loaderVisible, this`submitDisabled, this`statusText, this`statusColor
      ensures Valid()
      ensures records == old(records) && checked == old(checked)
      ensures CountTrue(checked) == 0 ==>
        && request == None
        && statusText == NoSelectionMessage && statusColor == Orange
        && loaderVisible == old(loaderVisible) && submitDisabled == old(submitDisabled)
      ensures CountTrue(checked) > 0 ==>
        && request == Some(Gather(records, checked))
        && loaderVisible && submitDisabled
        && statusText == GeneratingMessage && statusColor == Neutral
    {
      if CountTrue(checked) == 0 {
        statusText := NoSelectionMessage;
        statusColor := Orange;
        return None;
      }
      var payload := CollectSelected(records, checked);
      loaderVisible := true;
      submitDisabled := true;
      statusText := GeneratingMessage;
      statusColor := Neutral;
      request := Some(payload);
    }

    /** generateQuestionPaper after the request: the outcome decides the
        status line, and the finally block hides the loader and re-enables
        submit whatever the outcome. */
    method FinishSubmit(outcome: Outcome)
      requires Valid()
      modifies this`loaderVisible, this`submitDisabled, this`statusText, this`statusColor
      ensures Valid()
      ensures records == old(records) && checked == old(checked)
      ensures StatusLine(statusText, statusColor) == Interpret(outcome)
      ensures !loaderVisible && !submitDisabled
    {
      var line := Interpret(outcome);
      statusText := line.text;
      statusColor := line.color;
      loaderVisible := false;
      submitDisabled := false;
    }
  }

  /** With the invariant, the payload is exactly the checked rows in row
      order, unless no rows are loaded (a file was rejected while the list
      stayed on the page), in which case every entry is `undefined`. */
  lemma PayloadOfSession(records: seq<Record>, checked: seq<bool>)
    requires records != [] ==> |checked| == |records|
    ensures records != [] ==> Gather(records, checked) == Kept(records, checked)
    ensures records == [] ==> forall k :: 0 <= k < |Gather(records, checked)| ==> Gather(records, checked)[k] == Undefined
  {
  }
}
