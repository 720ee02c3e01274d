/** Parsed spreadsheet rows, the header check run on the first of them, and
    the per-question list item (label and type badge) the page renders. */
module Sheet {
  import opened Text

  /** One parsed row: column header -> cell text. */
  type Record = map<string, string>

  datatype Option<T> = None | Some(value: T)

  const QuestionTextKey: string := "Question_Text"
  const QuestionTypeKey: string := "Question_Type"

  /** The columns the first row must have, in the order they are checked. */
  const RequiredHeaders: seq<string> := [QuestionTextKey, QuestionTypeKey]

  /** `allQuestions[0]`: the first row, or nothing for an empty sheet. */
  function FirstRecord(rows: seq<Record>): (first: Option<Record>)
    ensures first.Some? <==> rows != []
    ensures first.Some? ==> first.value == rows[0]
  {
    if rows == [] then None else Some(rows[0])
  }

  /** `headers.every(h => available.includes(h))`. */
  function EveryIncluded(headers: seq<string>, available: set<string>): (ok: bool)
    ensures ok <==> forall k :: 0 <= k < |headers| ==> headers[k] in available
  {
    if headers == [] then true
    else headers[0] in available && EveryIncluded(headers[1..], available)
  }

  /** validateHeaders: false without a first row; otherwise true exactly when
      both required column names are keys of that row. */
  function ValidateHeaders(first: Option<Record>): (ok: bool)
    ensures ok <==> first.Some? && QuestionTextKey in first.value && QuestionTypeKey in first.value
  {
    match first
    case None => false
    case Some(q) =>
      assert RequiredHeaders[0] == QuestionTextKey && RequiredHeaders[1] == QuestionTypeKey;
      EveryIncluded(RequiredHeaders, q.Keys)
  }

  /** The header check of a whole sheet looks at the first row only. */
  function SheetHasHeaders(rows: seq<Record>): bool
  {
    ValidateHeaders(FirstRecord(rows))
  }

  /** Extra columns never make a row fail the check. */
  lemma ExtraColumnsIgnored(q: Record, extra: Record)
    requires ValidateHeaders(Some(q))
    ensures ValidateHeaders(Some(q + extra))
  {
  }

  /** Rows after the first are never inspected, and an empty sheet fails. */
  lemma OnlyFirstRowInspected(rows: seq<Record>, more: seq<Record>)
    ensures SheetHasHeaders([]) == false
    ensures rows != [] ==> SheetHasHeaders(rows + more) == SheetHasHeaders(rows[..1])
  {
  }

  const NoQuestionText: string := "No question text found."
  const MissingType: string := "N/A"

  /** `q[key] || fallback`: a missing or empty cell falls back. */
  function CellOr(q: Record, key: string, fallback: string): (s: string)
    ensures key in q && q[key] != "" ==> s == q[key]
    ensures !(key in q && q[key] != "") ==> s == fallback
  {
    if key in q && q[key] != "" then q[key] else fallback
  }

  /** One rendered question: the checkbox value, the caption and the badge. */
  datatype Item = Item(value: nat, caption: string, badgeClass: string, badgeText: string)

  /** The list item displayQuestions renders for row `q` at position `index`.
      The checkbox carries the index; the badge class is lower case, the
      badge text is the upper-cased type cell (lower-casing first is
      invisible in it), and lower-casing the text gives back the class. */
  function RenderItem(q: Record, index: nat): (it: Item)
    ensures it.value == index
    ensures forall i :: 0 <= i < |it.badgeClass| ==> !IsUpperAscii(it.badgeClass[i])
    ensures it.badgeText == Upper(CellOr(q, QuestionTypeKey, MissingType))
    ensures Lower(it.badgeText) == it.badgeClass
  {
    var cell := CellOr(q, QuestionTypeKey, MissingType);
    var kind := Lower(cell);
    UpperOfLower(cell);
    LowerUpperRoundTrip(cell);
    Item(index, CellOr(q, QuestionTextKey, NoQuestionText), kind, Upper(kind))
  }

  /** The whole list, one item per row, in row order. */
  function RenderList(rows: seq<Record>): (items: seq<Item>)
    ensures |items| == |rows|
    ensures forall i :: 0 <= i < |rows| ==> items[i] == RenderItem(rows[i], i) && items[i].value == i
  {
    seq(|rows|, i requires 0 <= i < |rows| => RenderItem(rows[i], i))
  }

  /** The checkbox carries the row index; the caption is the question text,
      or the placeholder when that cell is missing or empty. */
  lemma ItemValueAndLabel(q: Record, index: nat)
    ensures RenderItem(q, index).value == index
    ensures QuestionTextKey in q && q[QuestionTextKey] != "" ==> RenderItem(q, index).caption == q[QuestionTextKey]
    ensures !(QuestionTextKey in q && q[QuestionTextKey] != "") ==> RenderItem(q, index).caption == NoQuestionText
  {
  }

  /** Types that differ only in letter case get the same badge. */
  lemma BadgeIgnoresCase(q: Record, r: Record, index: nat)
    requires Lower(CellOr(q, QuestionTypeKey, MissingType)) == Lower(CellOr(r, QuestionTypeKey, MissingType))
    ensures RenderItem(q, index).badgeClass == RenderItem(r, index).badgeClass
    ensures RenderItem(q, index).badgeText == RenderItem(r, index).badgeText
  {
  }

  /** A row without a type gets the "n/a" badge class and the "N/A" text. */
  lemma MissingTypeBadge(q: Record, index: nat)
    requires QuestionTypeKey !in q || q[QuestionTypeKey] == ""
    ensures RenderItem(q, index).badgeClass == "n/a"
    ensures RenderItem(q, index).badgeText == "N/A"
  {
    assert Lower(MissingType) == "n/a" by {
      assert Lower("A") == "a";
      assert Lower("/A") == "/a";
    }
    assert Upper("n/a") == "N/A" by {
      assert Upper("a") == "A";
      assert Upper("/a") == "/A";
    }
  }
}
