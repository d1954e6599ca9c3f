/** The repair-request card: the colour in which a request's priority is written. */
module RequestCard {

  const DefaultColor := "#000"

  /** `getPriorityStyle`: exact, case-sensitive match on the three priorities; anything else is black. */
  function PriorityColor(priority: string): (color: string)
    ensures color in {"#ff4d4d", "#ffcc00", "#00cc66", DefaultColor}
    ensures color == "#ff4d4d" <==> priority == "High"
    ensures color == "#ffcc00" <==> priority == "Medium"
    ensures color == "#00cc66" <==> priority == "Low"
    ensures color == DefaultColor <==> priority !in {"High", "Medium", "Low"}
  {
    match priority
    case "High" => "#ff4d4d"
    case "Medium" => "#ffcc00"
    case "Low" => "#00cc66"
    case _ => DefaultColor
  }

  /** An empty priority and other casings fall back to the default colour. */
  lemma OtherCasingsAreDefault()
    ensures PriorityColor("") == DefaultColor
    ensures PriorityColor("high") == DefaultColor && PriorityColor("HIGH") == DefaultColor
    ensures PriorityColor("medium") == DefaultColor && PriorityColor("low") == DefaultColor
  {
  }
}
