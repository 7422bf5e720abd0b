/**
 * The request and response shapes of the API (backend/app/api/v1/schemas.py)
 * and the field constraints that decide a 422 before any handler runs.
 *
 * A raw body gives each field as present (`Some`) or omitted (`None`);
 * values of the wrong JSON type are not modelled.
 */
module Schemas {
  import opened Wrappers

  /** The languages the `language` pattern `^(en|zh|ja|de|fr|ko|es)$` accepts. */
  const Languages: set<string> := {"en", "zh", "ja", "de", "fr", "ko", "es"}

  const DefaultLanguage := "en"
  const MaxConceptLength := 500

  /** A validated `VisualizeRequest`. */
  datatype VisualizeRequest = VisualizeRequest(concept: string, language: string)

  /** The body as sent. */
  datatype RawVisualizeRequest = RawVisualizeRequest(concept: Option<string>, language: Option<string>)

  /** A validated body, or the fields that failed, in declaration order (the 422 response). */
  datatype Validated<T> = Accepted(value: T) | Rejected(fields: seq<string>)

  /** `concept`: required, 1 to 500 characters. */
  predicate ConceptOk(concept: Option<string>)
  {
    concept.Some? && 1 <= |concept.value| <= MaxConceptLength
  }

  /** `language`: optional, and one of the whitelisted codes when given. */
  predicate LanguageOk(language: Option<string>)
  {
    language.GetOr(DefaultLanguage) in Languages
  }

  /** Field validation of `VisualizeRequest`: every failing field is reported, and a passing body gets its default language. */
  function ValidateVisualize(raw: RawVisualizeRequest): (v: Validated<VisualizeRequest>)
    ensures v.Accepted? <==> ConceptOk(raw.concept) && LanguageOk(raw.language)
    ensures v.Accepted? ==> v.value.concept == raw.concept.value && 1 <= |v.value.concept| <= 500
    ensures v.Accepted? ==> v.value.language in Languages
    ensures v.Accepted? && raw.language.None? ==> v.value.language == "en"
    ensures v.Accepted? && raw.language.Some? ==> v.value.language == raw.language.value
    ensures v.Rejected? ==> ("concept" in v.fields <==> !ConceptOk(raw.concept))
    ensures v.Rejected? ==> ("language" in v.fields <==> !LanguageOk(raw.language))
  {
    var bad := (if ConceptOk(raw.concept) then [] else ["concept"]) +
               (if LanguageOk(raw.language) then [] else ["language"]);
    if bad == [] then Accepted(VisualizeRequest(raw.concept.value, raw.language.GetOr(DefaultLanguage)))
    else Rejected(bad)
  }

  /** The whitelist is exact: a code in another case, or with anything around it, is refused. */
  lemma LanguageWhitelist(concept: string, language: string)
    requires 1 <= |concept| <= 500
    ensures ValidateVisualize(RawVisualizeRequest(Some(concept), Some(language))).Accepted? <==>
      language == "en" || language == "zh" || language == "ja" || language == "de" ||
      language == "fr" || language == "ko" || language == "es"
  {
  }

  /** A validated `CheckoutRequest`. */
  datatype CheckoutRequest = CheckoutRequest(
    productSku: string,
    deviceId: string,
    successUrl: Option<string>,
    cancelUrl: Option<string>)

  /** The body as sent; an omitted URL and an explicit null are both `None`. */
  datatype RawCheckoutRequest = RawCheckoutRequest(
    productSku: Option<string>,
    deviceId: Option<string>,
    successUrl: Option<string>,
    cancelUrl: Option<string>)

  /** Field validation of `CheckoutRequest`: the SKU and the device id are required, the URLs default to none. */
  function ValidateCheckout(raw: RawCheckoutRequest): (v: Validated<CheckoutRequest>)
    ensures v.Accepted? <==> raw.productSku.Some? && raw.deviceId.Some?
    ensures v.Accepted? ==> v.value == CheckoutRequest(raw.productSku.value, raw.deviceId.value, raw.successUrl, raw.cancelUrl)
    ensures v.Rejected? ==> ("product_sku" in v.fields <==> raw.productSku.None?)
    ensures v.Rejected? ==> ("device_id" in v.fields <==> raw.deviceId.None?)
  {
    var bad := (if raw.productSku.Some? then [] else ["product_sku"]) +
               (if raw.deviceId.Some? then [] else ["device_id"]);
    if bad == [] then Accepted(CheckoutRequest(raw.productSku.value, raw.deviceId.value, raw.successUrl, raw.cancelUrl))
    else Rejected(bad)
  }

  /** `ErrorResponse`. */
  datatype ErrorResponse = ErrorResponse(error: string, code: string, paymentRequired: bool)

  /** Builds an `ErrorResponse`; `payment_required` is false unless given. */
  function MakeErrorResponse(error: string, code: string, paymentRequired: Option<bool>): (r: ErrorResponse)
    ensures r.error == error && r.code == code
    ensures r.paymentRequired <==> paymentRequired == Some(true)
  {
    ErrorResponse(error, code, paymentRequired.GetOr(false))
  }
}
