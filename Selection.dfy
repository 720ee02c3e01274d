/** The checkbox states of the rendered list, the count the page shows, and
    the rows a submission sends for the checked boxes. */
module Selection {
  import opened Sheet

  /** The number of checked boxes: the length of the `:checked` query. */
  function CountTrue(checked: seq<bool>): (n: nat)
    ensures n <= |checked|
  {
    if checked == [] then 0
    else CountTrue(checked[..|checked| - 1]) + (if checked[|checked| - 1] then 1 else 0)
  }

  /** The values of the checked boxes in document order. Since box i has
      value i, these are exactly the checked indices, ascending, each once. */
  function SelectedIndices(checked: seq<bool>): (ix: seq<nat>)
    ensures |ix| == CountTrue(checked)
    ensures forall k :: 0 <= k < |ix| ==> ix[k] < |checked| && checked[ix[k]]
    ensures forall i :: 0 <= i < |checked| && checked[i] ==> i in ix
    ensures forall k, l :: 0 <= k < l < |ix| ==> ix[k] < ix[l]
  {
    if checked == [] then []
    else
      var last := |checked| - 1;
      SelectedIndices(checked[..last]) + (if checked[last] then [last] else [])
  }

  /** Every box set to the same state: the count is all or nothing. */
  lemma {:induction false} CountUniform(n: nat, b: bool)
    ensures CountTrue(seq(n, _ => b)) == if b then n else 0
  {
    if n > 0 {
      CountUniform(n - 1, b);
      assert seq(n, _ => b)[..n - 1] == seq(n - 1, _ => b);
    }
  }

  /** Changing one box moves the count by at most one, in the direction of
      the change. */
  lemma {:induction false} CountUpdate(checked: seq<bool>, i: nat, b: bool)
    requires i < |checked|
    ensures CountTrue(checked[i := b]) ==
            CountTrue(checked) - (if checked[i] then 1 else 0) + (if b then 1 else 0)
  {
    var last := |checked| - 1;
    var updated := checked[i := b];
    if i < last {
      CountUpdate(checked[..last], i, b);
      assert updated[..last] == checked[..last][i := b];
    } else {
      assert updated[..last] == checked[..last];
    }
  }

  /** One element of the submitted array: the row `allQuestions[i]`, or
      `undefined` (sent as JSON null) when there is no such row. */
  datatype Entry = Question(fields: Record) | Undefined

  function Lookup(rows: seq<Record>, i: nat): (e: Entry)
    ensures e.Question? <==> i < |rows|
    ensures e.Question? ==> e.fields == rows[i]
  {
    if i < |rows| then Question(rows[i]) else Undefined
  }

  /** The request payload: `allQuestions[cb.value]` for every checked box,
      in document order. */
  function Gather(rows: seq<Record>, checked: seq<bool>): (payload: seq<Entry>)
    ensures |payload| == CountTrue(checked)
  {
    var ix := SelectedIndices(checked);
    seq(|ix|, k requires 0 <= k < |ix| => Lookup(rows, ix[k]))
  }

  /** Checking one more box at the end adds its row at the end. */
  lemma GatherSnoc(rows: seq<Record>, checked: seq<bool>, b: bool)
    ensures Gather(rows, checked + [b]) ==
            Gather(rows, checked) + (if b then [Lookup(rows, |checked|)] else [])
  {
  }

  /** Rows beyond the checkbox list play no part in the payload. */
  lemma GatherIgnoresLaterRows(rows: seq<Record>, checked: seq<bool>, n: nat)
    requires |checked| <= n <= |rows|
    ensures Gather(rows, checked) == Gather(rows[..n], checked)
  {
  }

  /** An independent reference for the payload: walk rows and boxes side by
      side and keep the rows whose box is checked. */
  function Kept(rows: seq<Record>, checked: seq<bool>): seq<Entry>
    requires |rows| == |checked|
  {
    if checked == [] then []
    else
      var last := |checked| - 1;
      Kept(rows[..last], checked[..last]) + (if checked[last] then [Question(rows[last])] else [])
  }

  /** With one box per row, the payload is exactly the rows whose box is
      checked, in row order: none missing, none repeated, none invented. */
  lemma {:induction false} GatherIsKept(rows: seq<Record>, checked: seq<bool>)
    requires |rows| == |checked|
    ensures Gather(rows, checked) == Kept(rows, checked)
  {
    if checked != [] {
      var last := |checked| - 1;
      GatherIsKept(rows[..last], checked[..last]);
      GatherIgnoresLaterRows(rows, checked[..last], last);
      GatherSnoc(rows, checked[..last], checked[last]);
      assert checked[..last] + [checked[last]] == checked;
    }
  }

  /** With no rows loaded, every checked box sends `undefined`. */
  lemma GatherWithoutRows(checked: seq<bool>)
    ensures Gather([], checked) == seq(CountTrue(checked), _ => Undefined)
  {
  }

  /** The loop of generateQuestionPaper that pushes one row per checked box. */
  method CollectSelected(rows: seq<Record>, checked: seq<bool>) returns (payload: seq<Entry>)
    ensures payload == Gather(rows, checked)
  {
    payload := [];
    var i := 0;
    while i < |checked|
      invariant 0 <= i <= |checked|
      invariant payload == Gather(rows, checked[..i])
    {
      GatherSnoc(rows, checked[..i], checked[i]);
      assert checked[..i] + [checked[i]] == checked[..i + 1];
      if checked[i] {
        payload := payload + [Lookup(rows, i)];
      }
      i := i + 1;
    }
    assert checked[..i] == checked;
  }
}
