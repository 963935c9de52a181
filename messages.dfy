/**
 * src/shared/messages.ts: the structural guards applied to runtime
 * messages before they are acted on.  Each guard first asks whether the
 * value is a non-null object (arrays are objects in JavaScript) and then
 * compares properties; properties it does not inspect are ignored.
 */
module Messages {
  import opened Wrappers
  import opened Json

  /** `isPopupToContentMessage`. */
  function IsPopupToContentMessage(message: Json): (r: bool)
    ensures r <==> && message.JObject?
                   && "from" in message.fields && message.fields["from"] == JString("popup")
                   && "query" in message.fields && message.fields["query"] == JString("eye_dropper_clicked")
  {
    if !IsObject(message) then false
    else
      && Property(message, "from") == Some(JString("popup"))
      && Property(message, "query") == Some(JString("eye_dropper_clicked"))
  }

  /** `isClearBadgeMessage`. */
  function IsClearBadgeMessage(message: Json): (r: bool)
    ensures r <==> message.JObject? && "query" in message.fields && message.fields["query"] == JString("clear_badge")
  {
    if !IsObject(message) then false
    else Property(message, "query") == Some(JString("clear_badge"))
  }

  /** `isBadgeColorMessage`: any string colour, the empty one included, with no check of its form. */
  function IsBadgeColorMessage(message: Json): (r: bool)
    ensures r <==> message.JObject? && "color" in message.fields && message.fields["color"].JString?
  {
    if !IsObject(message) then false
    else
      var color := Property(message, "color");
      color.Some? && color.value.JString?
  }

  /** `null`, scalars and arrays satisfy none of the guards. */
  lemma NonObjectsRejected(message: Json)
    requires !message.JObject?
    ensures !IsPopupToContentMessage(message)
    ensures !IsClearBadgeMessage(message)
    ensures !IsBadgeColorMessage(message)
  {
  }

  /** A popup request can never be mistaken for a clear-badge request. */
  lemma PopupAndClearBadgeDisjoint(message: Json)
    ensures !(IsPopupToContentMessage(message) && IsClearBadgeMessage(message))
  {
  }

  /** The guards are not exclusive: one object can be both a badge colour and a clear-badge request. */
  lemma BadgeColorAndClearBadgeOverlap(color: string)
    ensures var m := JObject(map["color" := JString(color), "query" := JString("clear_badge")]);
            IsBadgeColorMessage(m) && IsClearBadgeMessage(m)
  {
  }

  /** Adding or changing a property the guard does not inspect leaves its verdict unchanged. */
  lemma ExtraPropertiesIgnored(fields: map<string, Json>, key: string, value: Json)
    requires key != "from" && key != "query" && key != "color"
    ensures IsPopupToContentMessage(JObject(fields[key := value])) == IsPopupToContentMessage(JObject(fields))
    ensures IsClearBadgeMessage(JObject(fields[key := value])) == IsClearBadgeMessage(JObject(fields))
    ensures IsBadgeColorMessage(JObject(fields[key := value])) == IsBadgeColorMessage(JObject(fields))
  {
  }

  lemma BadgeColorExamples()
    ensures IsBadgeColorMessage(JObject(map["color" := JString("")]))
    ensures IsBadgeColorMessage(JObject(map["color" := JString("not a colour")]))
    ensures !IsBadgeColorMessage(JObject(map["color" := JNumber(1.0)]))
    ensures !IsBadgeColorMessage(JObject(map[]))
  {
  }
}
