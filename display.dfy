/**
 * The page's message handler: the text it shows for one received event.
 * `JSON.parse` and `JSON.stringify` are library calls; the handler is given
 * the outcome of parsing the event data (None when parsing throws) and the
 * serializer as a function.
 */
module Display {
  import opened Wrappers
  import opened JsValue
  import IngestBody

  /** Reading `d.text`: None when the access throws (on null and undefined). */
  function TextProperty(d: JsVal): (r: Option<JsVal>)
    ensures r.None? <==> d.Null? || d.Undefined?
    ensures r.Some? && !d.Obj? ==> r.value == Undefined
    ensures d.Obj? && "text" in d.fields ==> r == Some(d.fields["text"])
    ensures d.Obj? && "text" !in d.fields ==> r == Some(Undefined)
  {
    match d
    case Undefined => None
    case Null => None
    case Obj(fields) => Some(if "text" in fields then fields["text"] else Undefined)
    case _ => Some(Undefined)
  }

  /**
   * The text of one message: the string `text` field of the parsed data,
   * otherwise the re-serialized data, and the raw data when parsing or the
   * property read throws.
   */
  function DisplayText(parsed: Option<JsVal>, data: string, stringify: JsVal -> string): (text: string)
    ensures parsed.None? ==> text == data
    ensures parsed.Some? && parsed.value.Obj? && "text" in parsed.value.fields && parsed.value.fields["text"].Str?
      ==> text == parsed.value.fields["text"].s
    ensures parsed.Some? && !parsed.value.Null? && !parsed.value.Undefined? &&
      !(parsed.value.Obj? && "text" in parsed.value.fields && parsed.value.fields["text"].Str?)
      ==> text == stringify(parsed.value)
    ensures parsed.Some? && (parsed.value.Null? || parsed.value.Undefined?) ==> text == data
  {
    match parsed
    case None => data
    case Some(d) =>
      match TextProperty(d)
      case None => data
      case Some(t) => if t.Str? then t.s else stringify(d)
  }

  /** A fallback payload `{text: s}` is shown as exactly `s`. */
  lemma FallbackShowsItsText(s: string, data: string, stringify: JsVal -> string)
    ensures DisplayText(Some(IngestBody.TextPayload(s)), data, stringify) == s
  {
  }

  /**
   * What the page shows for a payload the hub broadcast, once parsed back:
   * the fallback text for a body without own keys, the body's string
   * `text` field, or else the body re-serialized; never the raw data.
   */
  lemma BroadcastPayloadShown(body: JsVal, data: string, stringify: JsVal -> string)
    ensures var shown := DisplayText(Some(IngestBody.Normalize(body)), data, stringify);
      && (!IngestBody.HasOwnKeys(body) ==> shown == ToJsString(IngestBody.OrEmpty(body)))
      && (IngestBody.HasOwnKeys(body) && body.Obj? && "text" in body.fields && body.fields["text"].Str?
          ==> shown == body.fields["text"].s)
      && (IngestBody.HasOwnKeys(body) && !(body.Obj? && "text" in body.fields && body.fields["text"].Str?)
          ==> shown == stringify(body))
  {
    if !IngestBody.HasOwnKeys(body) {
      FallbackShowsItsText(ToJsString(IngestBody.OrEmpty(body)), data, stringify);
    }
  }

  /** An absent or falsy body is shown as the empty line. */
  lemma FalsyBodyShownEmpty(body: JsVal, data: string, stringify: JsVal -> string)
    requires !Truthy(body)
    ensures DisplayText(Some(IngestBody.Normalize(body)), data, stringify) == ""
  {
    IngestBody.FalsyBodyGivesEmptyText(body);
    FallbackShowsItsText("", data, stringify);
  }

  /**
   * A non-empty string body is not wrapped, so the page shows its
   * re-serialization (the JSON string literal), not the string itself.
   */
  lemma StringBodyShownSerialized(s: string, data: string, stringify: JsVal -> string)
    requires s != ""
    ensures DisplayText(Some(IngestBody.Normalize(Str(s))), data, stringify) == stringify(Str(s))
  {
    IngestBody.NonEmptyStringPassesThrough(s);
  }
}
