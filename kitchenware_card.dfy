/** The condition badge of the kitchenware card. */
module KitchenwareCard {
  import opened JsValue

  datatype Badge = Badge(text: Value, className: string)

  const GREEN := "bg-green-100 text-green-800"
  const BLUE := "bg-blue-100 text-blue-800"
  const YELLOW := "bg-yellow-100 text-yellow-800"
  const GRAY := "bg-gray-100 text-gray-800"

  /** `getConditionBadge(condition)`: a `switch` on strict equality with the
      three known conditions; anything else, strings or not, is gray. The
      badge text is always the condition itself. */
  function ConditionBadge(condition: Value): (badge: Badge)
    ensures badge.text == condition
    ensures badge.className in {GREEN, BLUE, YELLOW, GRAY}
  {
    match condition
    case Str(s) =>
      if s == "Novo" then Badge(condition, GREEN)
      else if s == "Bom" then Badge(condition, BLUE)
      else if s == "Desgastado" then Badge(condition, YELLOW)
      else Badge(condition, GRAY)
    case _ => Badge(condition, GRAY)
  }

  /** Each known condition has a colour of its own, and every other value
      gets gray. */
  lemma BadgeColours(condition: Value)
    ensures ConditionBadge(condition).className == GREEN <==> condition == Str("Novo")
    ensures ConditionBadge(condition).className == BLUE <==> condition == Str("Bom")
    ensures ConditionBadge(condition).className == YELLOW <==> condition == Str("Desgastado")
    ensures ConditionBadge(condition).className == GRAY <==> condition !in {Str("Novo"), Str("Bom"), Str("Desgastado")}
  {
  }
}
