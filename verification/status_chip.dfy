/** The status chip of src/components/tasks/TaskStatusChip.js: a label, a
    background colour and a text colour chosen from the task's status. */
module StatusChip {
  import opened Values

  /** The statuses the chip knows, in the order the switches list them. */
  const Known: seq<string> := ["TODO", "IN_PROGRESS", "REVIEW", "DONE"]

  /** The grey shared by `TODO` and every status the chip does not know. */
  const Grey := "#e0e0e0"
  const DarkText := "rgba(0, 0, 0, 0.87)"
  const LightText := "#fff"

  /** `getStatusColor` (lines 5-18). */
  function Color(status: string): (c: string)
    ensures status == "IN_PROGRESS" ==> c == "#2196f3"
    ensures status == "REVIEW" ==> c == "#ff9800"
    ensures status == "DONE" ==> c == "#4caf50"
    ensures c == Grey <==> status !in Known[1..]
  {
    match status
    case "TODO" => Grey
    case "IN_PROGRESS" => "#2196f3"
    case "REVIEW" => "#ff9800"
    case "DONE" => "#4caf50"
    case _ => Grey
  }

  /** `getStatusLabel` (lines 20-33). */
  function Label(status: string): (l: string)
    ensures status == "TODO" ==> l == "To Do"
    ensures status == "IN_PROGRESS" ==> l == "In Progress"
    ensures status == "REVIEW" ==> l == "Review"
    ensures status == "DONE" ==> l == "Done"
    ensures status !in Known ==> l == status
  {
    match status
    case "TODO" => "To Do"
    case "IN_PROGRESS" => "In Progress"
    case "REVIEW" => "Review"
    case "DONE" => "Done"
    case _ => status
  }

  /** The text colour (line 42): dark on the grey `TODO` chip only. */
  function TextColor(status: string): (c: string)
    ensures c == DarkText <==> status == "TODO"
    ensures c != DarkText ==> c == LightText
  {
    if status == "TODO" then DarkText else LightText
  }

  datatype Chip = Chip(caption: string, background: string, text: string)

  /** The chip as rendered (lines 35-47). A known status can be read back
      from its caption; an unknown one is its own caption, on grey, in white. */
  function Render(status: string): (c: Chip)
    ensures status in Known ==> StatusOfLabel(c.caption) == Some(status)
    ensures status !in Known ==> c == Chip(status, Grey, LightText)
    ensures c.background == Grey <==> status !in Known[1..]
    ensures c.text == DarkText <==> status == "TODO"
  {
    Chip(Label(status), Color(status), TextColor(status))
  }

  /** Reading a known status back from the label it shows. */
  function StatusOfLabel(shown: string): (r: Option<string>)
    ensures r.Some? ==> r.value in Known && Label(r.value) == shown
  {
    match shown
    case "To Do" => Some("TODO")
    case "In Progress" => Some("IN_PROGRESS")
    case "Review" => Some("REVIEW")
    case "Done" => Some("DONE")
    case _ => None
  }

  /** Each known status shows its own label: the label determines it. */
  lemma KnownLabelsRoundTrip(status: string)
    requires status in Known
    ensures StatusOfLabel(Label(status)) == Some(status)
  {
  }

  /** The known statuses other than `TODO` get pairwise different colours. */
  lemma ColoursDistinct(a: string, b: string)
    requires a in Known[1..] && b in Known[1..] && a != b
    ensures Color(a) != Color(b)
  {
  }

  /** An unknown status is shown verbatim, on `TODO`'s grey, in white text:
      a status spelled like a label ("Done") is shown like the real one but
      on the wrong background. */
  lemma UnknownStatusShownVerbatim(status: string)
    requires status !in Known
    ensures Render(status) == Chip(status, Grey, LightText)
  {
  }

  /** Rendering is injective: even a status spelled like another's label
      ("To Do" against `TODO`) differs from it in colour or text colour. */
  lemma RenderInjective(a: string, b: string)
    requires Render(a) == Render(b)
    ensures a == b
  {
  }
}
