/** The priority chip of src/components/tasks/TaskPriorityChip.js: the raw
    priority as label, with a colour, an arrow icon and a text colour chosen
    from it. */
module PriorityChip {
  import opened Values

  /** The priorities the chip knows. */
  const Known: seq<string> := ["LOW", "MEDIUM", "HIGH"]

  const Grey := "#e0e0e0"
  const DarkText := "rgba(0, 0, 0, 0.87)"
  const LightText := "#fff"

  datatype Icon = ArrowDownward | Remove | ArrowUpward

  /** `getPriorityColor` (lines 8-19). */
  function Color(priority: string): (c: string)
    ensures priority == "LOW" ==> c == "#8bc34a"
    ensures priority == "MEDIUM" ==> c == "#ffeb3b"
    ensures priority == "HIGH" ==> c == "#ff9800"
    ensures c == Grey <==> priority !in Known
  {
    match priority
    case "LOW" => "#8bc34a"
    case "MEDIUM" => "#ffeb3b"
    case "HIGH" => "#ff9800"
    case _ => Grey
  }

  /** `getPriorityIcon` (lines 21-32); `null` for unknown priorities. */
  function IconOf(priority: string): (i: Option<Icon>)
    ensures i.None? <==> priority !in Known
    ensures priority == "LOW" ==> i == Some(ArrowDownward)
    ensures priority == "MEDIUM" ==> i == Some(Remove)
    ensures priority == "HIGH" ==> i == Some(ArrowUpward)
  {
    match priority
    case "LOW" => Some(ArrowDownward)
    case "MEDIUM" => Some(Remove)
    case "HIGH" => Some(ArrowUpward)
    case _ => None
  }

  /** The text colour (line 42): dark on the yellow `MEDIUM` chip only. */
  function TextColor(priority: string): (c: string)
    ensures c == DarkText <==> priority == "MEDIUM"
    ensures c != DarkText ==> c == LightText
  {
    if priority == "MEDIUM" then DarkText else LightText
  }

  datatype Chip = Chip(icon: Option<Icon>, caption: string, background: string, text: string)

  /** The chip as rendered (lines 34-46): the label is the priority itself,
      a known priority shows an icon that identifies it, and an unknown one
      shows none, on grey, in white. */
  function Render(priority: string): (c: Chip)
    ensures c.caption == priority
    ensures priority in Known ==> c.icon.Some? && PriorityOfIcon(c.icon.value) == priority
    ensures priority !in Known ==> c.icon.None? && c.background == Grey && c.text == LightText
    ensures c.text == DarkText <==> priority == "MEDIUM"
  {
    Chip(IconOf(priority), priority, Color(priority), TextColor(priority))
  }

  /** Reading the priority back from its icon. */
  function PriorityOfIcon(i: Icon): (p: string)
    ensures p in Known && IconOf(p) == Some(i)
  {
    match i
    case ArrowDownward => "LOW"
    case Remove => "MEDIUM"
    case ArrowUpward => "HIGH"
  }

  /** The icon of a known priority identifies it. */
  lemma IconRoundTrip(priority: string)
    requires priority in Known
    ensures PriorityOfIcon(IconOf(priority).value) == priority
  {
  }

  /** The three known priorities get pairwise different colours. */
  lemma ColoursDistinct(a: string, b: string)
    requires a in Known && b in Known && a != b
    ensures Color(a) != Color(b)
  {
  }

  /** Rendering is injective: two priorities never give the same chip. */
  lemma RenderInjective(a: string, b: string)
    requires Render(a) == Render(b)
    ensures a == b
  {
  }
}
