/**
 * Normalization of an ingest request body into the payload that is
 * broadcast: `body && Object.keys(body).length ? body : {text: String(body || "")}`.
 */
module IngestBody {
  import opened JsValue

  /** The fallback payload `{text: s}`. */
  function TextPayload(s: string): (r: JsVal)
    ensures r.Obj? && r.fields.Keys == {"text"} && r.fields["text"] == Str(s)
    ensures HasOwnKeys(r)
  {
    Obj(map["text" := Str(s)])
  }

  /** The guard `body && Object.keys(body).length`: truthy, with at least one own key. */
  predicate HasOwnKeys(body: JsVal)
    ensures HasOwnKeys(body) <==>
      (body.Str? && body.s != "") || (body.Arr? && body.elems != []) || (body.Obj? && body.fields != map[])
  {
    assert body.Obj? && |body.fields| > 0 ==> body.fields != map[];
    assert body.Obj? && body.fields != map[] ==> exists k :: k in body.fields;
    Truthy(body) && ObjectKeysLength(body).Some? && ObjectKeysLength(body).value > 0
  }

  /** `body || ""`. */
  function OrEmpty(body: JsVal): (r: JsVal)
    ensures Truthy(body) ==> r == body
    ensures !Truthy(body) ==> ToJsString(r) == ""
  {
    if Truthy(body) then body else Str("")
  }

  /**
   * The broadcast payload for an ingest body. A body with an own key passes
   * through; any other body becomes the single-field object `{text: ...}`
   * holding `String(body || "")`. Either way the payload has an own key.
   */
  function Normalize(body: JsVal): (payload: JsVal)
    ensures HasOwnKeys(payload)
    ensures HasOwnKeys(body) ==> payload == body
    ensures !HasOwnKeys(body) ==>
      payload.Obj? && payload.fields.Keys == {"text"} &&
      payload.fields["text"] == Str(ToJsString(OrEmpty(body)))
  {
    if HasOwnKeys(body) then body else TextPayload(ToJsString(OrEmpty(body)))
  }

  /** An absent or falsy body gives `{text: ""}`. */
  lemma FalsyBodyGivesEmptyText(body: JsVal)
    requires !Truthy(body)
    ensures Normalize(body) == TextPayload("")
  {
  }

  /** Normalizing a payload again changes nothing. */
  lemma NormalizeIdempotent(body: JsVal)
    ensures Normalize(Normalize(body)) == Normalize(body)
  {
  }

  /**
   * The truthy bodies that still fall back are exactly `true`, a non-zero
   * number, the empty array and the empty object, and what each carries.
   */
  lemma TruthyFallbacks(body: JsVal)
    requires Truthy(body) && !HasOwnKeys(body)
    ensures body == Bool(true) || (body.Num? && body.n != 0) || body == Arr([]) || body == Obj(map[])
    ensures body == Bool(true) ==> Normalize(body) == TextPayload("true")
    ensures body.Num? ==> Normalize(body) == TextPayload(IntToDecimal(body.n))
    ensures body == Arr([]) ==> Normalize(body) == TextPayload("")
    ensures body == Obj(map[]) ==> Normalize(body) == TextPayload("[object Object]")
  {
    if body.Obj? {
      assert |body.fields| == 0;
      assert body.fields == map[];
    }
  }

  /**
   * A non-empty string has its indices as own keys, so it is broadcast as
   * the string itself, not wrapped in `{text: ...}`.
   */
  lemma NonEmptyStringPassesThrough(s: string)
    requires s != ""
    ensures Normalize(Str(s)) == Str(s)
    ensures Normalize(Str(s)) != TextPayload(s)
  {
  }

  /** A body that already is `{text: s}` with s a string passes through. */
  lemma TextObjectPassesThrough(s: string)
    ensures Normalize(TextPayload(s)) == TextPayload(s)
  {
    assert |TextPayload(s).fields| == 1;
  }
}
