/**
 * The `POST /visualize` endpoint (backend/app/api/v1/visualize.py) as a
 * transition on the token ledger: body validation (422), the device header
 * check (400), the eligibility check (402), the consumption of a generation,
 * the model call with a one-token refund when it raises (500), and the
 * response with its defaults.
 */
module Visualize {
  import opened Wrappers
  import opened TokenService
  import opened Schemas
  import opened LlmService

  /** `VisualizeResponse`. */
  datatype VisualizeResponse = VisualizeResponse(
    title: string,
    year: int,
    summary: string,
    sections: map<string, Section>,
    keyChanges: seq<string>,
    isFreeTrial: bool,
    remainingTokens: int)

  /** The `detail` of an `HTTPException`: a message, or the payment-required object. */
  datatype Detail =
    | Message(text: string)
    | PaymentDetail(error: string, code: string, paymentRequired: bool)

  /** What the client receives. */
  datatype Response =
    | Ok(body: VisualizeResponse)
    | HttpError(status: int, detail: Detail)
    | Unprocessable(fields: seq<string>)

  /** The response and the ledger after one request. */
  datatype Step = Step(response: Response, records: map<string, TokenRecord>)

  const NoTokens := PaymentDetail("No tokens remaining. Please purchase more.", "payment_required", true)
  const ConsumeFailed := PaymentDetail("Failed to consume token", "payment_required", true)
  const DefaultYear := 2036

  /** The response built from a vision object: each missing field takes its default. */
  function ResponseOf(concept: string, v: Vision, isFreeTrial: bool, remaining: int): (r: VisualizeResponse)
    requires v.VisionObject?
    ensures r.title == v.title.GetOr("The Future of " + concept)
    ensures r.year == v.year.GetOr(2036) && r.summary == v.summary.GetOr("")
    ensures r.sections == v.sections.GetOr(map[]) && r.keyChanges == v.keyChanges.GetOr([])
    ensures r.isFreeTrial == isFreeTrial && r.remainingTokens == remaining
  {
    VisualizeResponse(
      v.title.GetOr("The Future of " + concept),
      v.year.GetOr(DefaultYear),
      v.summary.GetOr(""),
      v.sections.GetOr(map[]),
      v.keyChanges.GetOr([]),
      isFreeTrial,
      remaining)
  }

  /** The device header is present and not empty. */
  predicate HasDevice(header: Option<string>)
  {
    header.Some? && header.value != ""
  }

  /** What one request does, given the ledger before it, the model call's outcome and the JSON parser. */
  function Handle(
    records: map<string, TokenRecord>,
    raw: RawVisualizeRequest,
    header: Option<string>,
    call: LlmCall,
    parse: string -> Option<Vision>): Step
  {
    match ValidateVisualize(raw)
    case Rejected(fields) => Step(Unprocessable(fields), records)
    case Accepted(request) =>
      if !HasDevice(header) then Step(HttpError(400, Message("X-Device-Id header required")), records)
      else
        var d := header.value;
        var e := CheckEligibility(Lookup(records, d));
        var checked := WithRecord(records, d);
        if !e.canUse then Step(HttpError(402, NoTokens), checked)
        else
          var o := Consume(Lookup(checked, d));
          var used := checked[d := o.record];
          if !o.success then Step(HttpError(402, ConsumeFailed), used)
          else
            match GenerateFutureVision(request.concept, call, parse)
            case Raised(message) =>
              Step(HttpError(500, Message("Failed to generate vision: " + message)), used[d := Credit(Lookup(used, d), 1)])
            case Returned(v) =>
              if v.NotAnObject? then Step(HttpError(500, Message("Internal Server Error")), used)
              else Step(Ok(ResponseOf(request.concept, v, e.isFreeTrial, o.remaining)), used)
  }

  /** `visualize_future`, with the body validation that runs before it. */
  method VisualizeFuture(
    store: TokenStore,
    raw: RawVisualizeRequest,
    header: Option<string>,
    call: LlmCall,
    parse: string -> Option<Vision>)
    returns (response: Response)
    requires store.Valid()
    modifies store
    ensures store.Valid()
    ensures Step(response, store.records) == Handle(old(store.records), raw, header, call, parse)
  {
    var validated := ValidateVisualize(raw);
    if validated.Rejected? {
      return Unprocessable(validated.fields);
    }
    var request := validated.value;
    if header.None? || header.value == "" {
      return HttpError(400, Message("X-Device-Id header required"));
    }
    var deviceId := header.value;
    var e := store.CanUseGeneration(deviceId);
    if !e.canUse {
      return HttpError(402, NoTokens);
    }
    var success, remaining := store.UseGeneration(deviceId);
    if !success {
      return HttpError(402, ConsumeFailed);
    }
    var vision := GenerateFutureVision(request.concept, call, parse);
    if vision.Raised? {
      var _ := store.AddTokens(deviceId, 1);
      return HttpError(500, Message("Failed to generate vision: " + vision.message));
    }
    if vision.vision.NotAnObject? {
      return HttpError(500, Message("Internal Server Error"));
    }
    response := Ok(ResponseOf(request.concept, vision.vision, e.isFreeTrial, remaining));
  }

  /** Two ledgers agree on every device: the same record, present or not. */
  ghost predicate SameBalances(a: map<string, TokenRecord>, b: map<string, TokenRecord>)
  {
    forall d :: Lookup(a, d) == Lookup(b, d)
  }

  /** An invalid body is answered 422 whatever the header, and the ledger is not touched. */
  lemma InvalidBodyFirst(records: map<string, TokenRecord>, raw: RawVisualizeRequest, header: Option<string>, call: LlmCall, parse: string -> Option<Vision>)
    requires !ConceptOk(raw.concept) || !LanguageOk(raw.language)
    ensures Handle(records, raw, header, call, parse).response.Unprocessable?
    ensures Handle(records, raw, header, call, parse).records == records
  {
  }

  /** A valid body without a device id is answered 400 before the ledger is read. */
  lemma MissingDeviceRejected(records: map<string, TokenRecord>, raw: RawVisualizeRequest, header: Option<string>, call: LlmCall, parse: string -> Option<Vision>)
    requires ConceptOk(raw.concept) && LanguageOk(raw.language) && !HasDevice(header)
    ensures Handle(records, raw, header, call, parse) == Step(HttpError(400, Message("X-Device-Id header required")), records)
  {
  }

  /** A device that cannot generate gets 402 with `payment_required`, and no balance changes. */
  lemma PaymentRequired(records: map<string, TokenRecord>, raw: RawVisualizeRequest, header: Option<string>, call: LlmCall, parse: string -> Option<Vision>)
    requires ConceptOk(raw.concept) && LanguageOk(raw.language) && HasDevice(header)
    requires !CheckEligibility(Lookup(records, header.value)).canUse
    ensures var s := Handle(records, raw, header, call, parse);
      s.response == HttpError(402, NoTokens) && s.response.detail.paymentRequired && SameBalances(s.records, records)
  {
  }

  /**
   * When the model call raises, the generation consumed is given back through
   * `add_tokens`: the balance is back where it was if a paid token was
   * spent and one above it if the free trial was (the trial stays spent), and
   * the purchases rise by one either way.
   */
  lemma RefundOnFailure(records: map<string, TokenRecord>, raw: RawVisualizeRequest, header: Option<string>, message: string, parse: string -> Option<Vision>)
    requires ConceptOk(raw.concept) && LanguageOk(raw.language) && HasDevice(header)
    requires CheckEligibility(Lookup(records, header.value)).canUse
    ensures var before := Lookup(records, header.value);
      var s := Handle(records, raw, header, CallFailed(message), parse);
      var after := Lookup(s.records, header.value);
      s.response == HttpError(500, Message("Failed to generate vision: " + message)) &&
      after.freeTrialUsed &&
      after.tokensRemaining == before.tokensRemaining + (if before.freeTrialUsed then 0 else 1) &&
      after.tokensPurchased == before.tokensPurchased + 1 &&
      (forall other :: other != header.value ==> Lookup(s.records, other) == Lookup(records, other))
  {
    var d := header.value;
    var before := Lookup(records, d);
    var checked := WithRecord(records, d);
    assert Lookup(checked, d) == before;
    var o := Consume(before);
    var used := checked[d := o.record];
    assert GenerateFutureVision(raw.concept.value, CallFailed(message), parse) == Raised(message);
    assert Handle(records, raw, header, CallFailed(message), parse).records == used[d := Credit(o.record, 1)];
  }

  /**
   * A successful response reports the pre-check's free-trial flag and the
   * balance the consumption left, which is the device's new balance.
   */
  lemma SuccessReportsLedger(records: map<string, TokenRecord>, raw: RawVisualizeRequest, header: Option<string>, call: LlmCall, parse: string -> Option<Vision>)
    requires HasDevice(header)
    requires Handle(records, raw, header, call, parse).response.Ok?
    ensures var s := Handle(records, raw, header, call, parse);
      var before := Lookup(records, header.value);
      s.response.body.isFreeTrial == !before.freeTrialUsed &&
      s.response.body.remainingTokens == Lookup(s.records, header.value).tokensRemaining &&
      Lookup(s.records, header.value) == Consume(before).record
  {
  }

  /** Storing a sound record keeps the whole ledger sound. */
  lemma StoreSound(records: map<string, TokenRecord>, d: string, r: TokenRecord)
    requires AllSound(records) && Sound(r)
    ensures AllSound(records[d := r])
  {
  }

  /** Every request keeps the ledger invariant on every device. */
  lemma HandleKeepsSound(records: map<string, TokenRecord>, raw: RawVisualizeRequest, header: Option<string>, call: LlmCall, parse: string -> Option<Vision>)
    requires AllSound(records)
    ensures AllSound(Handle(records, raw, header, call, parse).records)
  {
    if ValidateVisualize(raw).Accepted? && HasDevice(header) {
      var d := header.value;
      var r := Lookup(records, d);
      assert Sound(r) by {
        assert Sound(NewRecord);
      }
      var checked := WithRecord(records, d);
      StoreSound(records, d, r);
      OperationsKeepSound(r, 1);
      var used := checked[d := Consume(r).record];
      StoreSound(checked, d, Consume(r).record);
      OperationsKeepSound(Consume(r).record, 1);
      assert Lookup(used, d) == Consume(r).record;
      StoreSound(used, d, Credit(Consume(r).record, 1));
    }
  }

  /**
   * A new device gets one free generation: its first request succeeds as a
   * free trial with no balance, and its second is refused with 402.
   */
  lemma FreshDevice(records: map<string, TokenRecord>, raw: RawVisualizeRequest, deviceId: string, reply: string, parse: string -> Option<Vision>)
    requires ConceptOk(raw.concept) && LanguageOk(raw.language) && deviceId != ""
    requires deviceId !in records
    requires parse(Strip(StripFences(reply))) != Some(NotAnObject)
    ensures var first := Handle(records, raw, Some(deviceId), Replied(reply), parse);
      var second := Handle(first.records, raw, Some(deviceId), Replied(reply), parse);
      first.response.Ok? && first.response.body.isFreeTrial && first.response.body.remainingTokens == 0 &&
      second.response == HttpError(402, NoTokens)
  {
    var first := Handle(records, raw, Some(deviceId), Replied(reply), parse);
    assert Lookup(first.records, deviceId) == NewRecord.(freeTrialUsed := true);
  }
}
