/**
 * Payment bookkeeping (backend/app/api/v1/payment.py): the fixed product
 * catalogue, the checkout endpoint's validation and the pending transaction
 * it records, the webhook that completes a pending transaction and grants its
 * tokens once, and the product listing.
 *
 * The payment provider's HTTP reply, the HMAC comparison and `json.loads`
 * are inputs; the `payment_transactions` table is a map from checkout id to
 * transaction, and the token table is the ledger of `TokenService`.
 */
module Payment {
  import opened Wrappers
  import opened TokenService
  import opened Schemas

  /** A catalogue entry. */
  datatype Product = Product(tokens: nat, priceCents: nat)

  /** `PRODUCTS`, in its declaration order. */
  const Catalogue: seq<(string, Product)> := [
    ("starter", Product(5, 499)),
    ("standard", Product(15, 999)),
    ("pro", Product(50, 2499))
  ]

  /** The entry of `sku` among `entries`, if any. */
  function Find(entries: seq<(string, Product)>, sku: string): (p: Option<Product>)
    ensures p.Some? <==> exists i :: 0 <= i < |entries| && entries[i].0 == sku
  {
    if entries == [] then None
    else if entries[0].0 == sku then Some(entries[0].1)
    else
      var rest := Find(entries[1..], sku);
      assert rest.Some? ==> exists i :: 0 <= i < |entries| && entries[i].0 == sku by {
        if rest.Some? {
          var i :| 0 <= i < |entries[1..]| && entries[1..][i].0 == sku;
          assert entries[i + 1].0 == sku;
        }
      }
      rest
  }

  /** `PRODUCTS.get(sku)`. */
  function FindProduct(sku: string): Option<Product>
  {
    Find(Catalogue, sku)
  }

  /** The catalogue: three products, with these token counts and prices, and nothing else. */
  lemma CatalogueContents(sku: string)
    ensures FindProduct(sku).Some? <==> sku == "starter" || sku == "standard" || sku == "pro"
    ensures FindProduct("starter") == Some(Product(5, 499))
    ensures FindProduct("standard") == Some(Product(15, 999))
    ensures FindProduct("pro") == Some(Product(50, 2499))
  {
    assert Catalogue[0].0 == "starter" && Catalogue[1].0 == "standard" && Catalogue[2].0 == "pro";
  }

  /** `get_product_ids`: the configured provider ids, or none when the configuration is not valid JSON. */
  function ProductIds(config: Option<map<string, string>>): (ids: map<string, string>)
    ensures config.None? ==> ids == map[]
    ensures config.Some? ==> ids == config.value
  {
    config.GetOr(map[])
  }

  /** One entry of the `get_products` listing. */
  datatype ProductInfo = ProductInfo(sku: string, tokens: nat, priceCents: nat, available: bool)

  /** The listing of `entries`, each marked available when it has a provider id. */
  function Listing(entries: seq<(string, Product)>, ids: map<string, string>): (r: seq<ProductInfo>)
    ensures |r| == |entries|
    ensures forall i :: 0 <= i < |entries| ==>
      r[i] == ProductInfo(entries[i].0, entries[i].1.tokens, entries[i].1.priceCents, entries[i].0 in ids)
  {
    if entries == [] then []
    else
      var e := entries[0];
      [ProductInfo(e.0, e.1.tokens, e.1.priceCents, e.0 in ids)] + Listing(entries[1..], ids)
  }

  /** `get_products`. */
  function GetProducts(config: Option<map<string, string>>): seq<ProductInfo>
  {
    Listing(Catalogue, ProductIds(config))
  }

  /**
   * The listing names the three SKUs in catalogue order with their tokens and
   * prices, available exactly when configured; with a configuration that does
   * not parse, none is available.
   */
  lemma ProductsListed(config: Option<map<string, string>>)
    ensures var r := GetProducts(config);
      |r| == 3 &&
      r[0] == ProductInfo("starter", 5, 499, "starter" in ProductIds(config)) &&
      r[1] == ProductInfo("standard", 15, 999, "standard" in ProductIds(config)) &&
      r[2] == ProductInfo("pro", 50, 2499, "pro" in ProductIds(config))
    ensures config.None? ==> forall i :: 0 <= i < |GetProducts(config)| ==> !GetProducts(config)[i].available
  {
  }

  // Transactions

  /** The two statuses the endpoints write. */
  datatype TxStatus = Pending | Completed

  /** A row of `payment_transactions`, keyed by its checkout id. */
  datatype Transaction = Transaction(
    deviceId: string,
    productSku: string,
    amountCents: int,
    tokensGranted: int,
    status: TxStatus)

  /** The provider's answer to the checkout request. */
  datatype CreemReply =
    | CreemError(text: string)
    | CreemCreated(checkoutId: string, checkoutUrl: string)

  /** What `create_checkout` answers. */
  datatype CheckoutOutcome =
    | CheckoutCreated(checkoutUrl: string, checkoutId: string)
    | CheckoutFailed(status: int, detail: string)
    | CheckoutUnprocessable(fields: seq<string>)

  datatype CheckoutStep = CheckoutStep(outcome: CheckoutOutcome, transactions: map<string, Transaction>)

  /**
   * `create_checkout`, with the body validation before it: the SKU must be in
   * the catalogue, then configured; a provider error is a 500; a checkout id
   * already recorded violates the table's uniqueness (500, nothing stored);
   * otherwise a pending transaction is recorded at the product's price.
   */
  function Checkout(
    transactions: map<string, Transaction>,
    raw: RawCheckoutRequest,
    config: Option<map<string, string>>,
    reply: CreemReply): CheckoutStep
  {
    match ValidateCheckout(raw)
    case Rejected(fields) => CheckoutStep(CheckoutUnprocessable(fields), transactions)
    case Accepted(request) =>
      match FindProduct(request.productSku)
      case None => CheckoutStep(CheckoutFailed(400, "Invalid product: " + request.productSku), transactions)
      case Some(product) =>
        if request.productSku !in ProductIds(config) then
          CheckoutStep(CheckoutFailed(400, "Product not configured in Creem"), transactions)
        else
          match reply
          case CreemError(text) => CheckoutStep(CheckoutFailed(500, "Creem API error: " + text), transactions)
          case CreemCreated(id, url) =>
            if id in transactions then CheckoutStep(CheckoutFailed(500, "Internal Server Error"), transactions)
            else
              var tx := Transaction(request.deviceId, request.productSku, product.priceCents, product.tokens, Pending);
              CheckoutStep(CheckoutCreated(url, id), transactions[id := tx])
  }

  // The webhook

  /** The parts of a webhook body the handler reads; `metaTokens` is `Some(None)` when `int()` fails on it. */
  datatype WebhookEvent = WebhookEvent(
    eventType: Option<string>,
    checkoutId: Option<string>,
    metaDeviceId: Option<string>,
    metaTokens: Option<Option<int>>)

  datatype WebhookOutcome = WebhookOk | WebhookFailed(status: int, detail: string)

  datatype WebhookStep = WebhookStep(
    outcome: WebhookOutcome,
    transactions: map<string, Transaction>,
    records: map<string, TokenRecord>)

  const CompletedEvent := "checkout.completed"

  /** Every character is ASCII, as `hmac.compare_digest` demands of a `str` argument. */
  predicate AsciiText(t: string)
  {
    forall k :: 0 <= k < |t| ==> t[k] < '\U{80}'
  }

  /**
   * With a secret configured, `hmac.compare_digest` is reached with a
   * non-empty signature holding a non-ASCII character, and raises `TypeError`
   * (the expected digest is hexadecimal, hence ASCII).
   */
  predicate SignatureRaises(secret: string, signature: Option<string>)
  {
    secret != "" && signature.Some? && signature.value != "" && !AsciiText(signature.value)
  }

  /** The signature check passes: no secret configured, or a non-empty ASCII signature that matches. */
  predicate SignatureAccepted(secret: string, signature: Option<string>, matches: bool)
  {
    secret == "" || (signature.Some? && signature.value != "" && AsciiText(signature.value) && matches)
  }

  /** The transaction a completion event may complete: known and still pending. */
  predicate Completable(transactions: map<string, Transaction>, e: WebhookEvent)
  {
    e.eventType == Some(CompletedEvent) && e.checkoutId.Some? && e.checkoutId.value in transactions &&
    transactions[e.checkoutId.value].status == Pending
  }

  /**
   * `handle_webhook`: with a secret configured, a signature the comparison
   * refuses to read is a 500 and a missing or wrong one a 401; a body that is not JSON is a 500; a completion event for a
   * pending transaction completes it and adds its tokens to the device in the
   * metadata, both defaulting to the transaction's; a token count `int()`
   * refuses aborts before anything is committed. Everything else is
   * acknowledged without change.
   */
  function Webhook(
    transactions: map<string, Transaction>,
    records: map<string, TokenRecord>,
    secret: string,
    signature: Option<string>,
    matches: bool,
    event: Option<WebhookEvent>): WebhookStep
  {
    if SignatureRaises(secret, signature) then
      WebhookStep(WebhookFailed(500, "Internal Server Error"), transactions, records)
    else if !SignatureAccepted(secret, signature, matches) then
      WebhookStep(WebhookFailed(401, "Invalid signature"), transactions, records)
    else if event.None? then
      WebhookStep(WebhookFailed(500, "Internal Server Error"), transactions, records)
    else
      var e := event.value;
      if !Completable(transactions, e) then WebhookStep(WebhookOk, transactions, records)
      else
        var id := e.checkoutId.value;
        var tx := transactions[id];
        var device := e.metaDeviceId.GetOr(tx.deviceId);
        match e.metaTokens.GetOr(Some(tx.tokensGranted))
        case None => WebhookStep(WebhookFailed(500, "Internal Server Error"), transactions, records)
        case Some(tokens) =>
          WebhookStep(WebhookOk, transactions[id := tx.(status := Completed)],
                      records[device := Credit(Lookup(records, device), tokens)])
  }

  /** The `payment_transactions` table, updated in place by the endpoints. */
  class PaymentStore {
    var transactions: map<string, Transaction>

    constructor ()
      ensures transactions == map[]
    {
      transactions := map[];
    }

    /** `create_checkout`. */
    method CreateCheckout(raw: RawCheckoutRequest, config: Option<map<string, string>>, reply: CreemReply)
      returns (outcome: CheckoutOutcome)
      modifies this
      ensures CheckoutStep(outcome, transactions) == Checkout(old(transactions), raw, config, reply)
    {
      var validated := ValidateCheckout(raw);
      if validated.Rejected? {
        return CheckoutUnprocessable(validated.fields);
      }
      var request := validated.value;
      var product := FindProduct(request.productSku);
      if product.None? {
        return CheckoutFailed(400, "Invalid product: " + request.productSku);
      }
      var productIds := ProductIds(config);
      if request.productSku !in productIds {
        return CheckoutFailed(400, "Product not configured in Creem");
      }
      if reply.CreemError? {
        return CheckoutFailed(500, "Creem API error: " + reply.text);
      }
      if reply.checkoutId in transactions {
        return CheckoutFailed(500, "Internal Server Error");
      }
      var tx := Transaction(request.deviceId, request.productSku, product.value.priceCents, product.value.tokens, Pending);
      transactions := transactions[reply.checkoutId := tx];
      return CheckoutCreated(reply.checkoutUrl, reply.checkoutId);
    }

    /** `handle_webhook`: completes the transaction, then adds the tokens through the ledger. */
    method HandleWebhook(
      ledger: TokenStore,
      secret: string,
      signature: Option<string>,
      matches: bool,
      event: Option<WebhookEvent>)
      returns (outcome: WebhookOutcome)
      requires ledger.Valid()
      modifies this, ledger
      ensures ledger.Valid()
      ensures WebhookStep(outcome, transactions, ledger.records) ==
        Webhook(old(transactions), old(ledger.records), secret, signature, matches, event)
    {
      if secret != "" {
        if signature.None? || signature.value == "" {
          return WebhookFailed(401, "Invalid signature");
        }
        var k := 0;
        while k < |signature.value|
          invariant 0 <= k <= |signature.value|
          invariant forall i :: 0 <= i < k ==> signature.value[i] < '\U{80}'
        {
          if signature.value[k] >= '\U{80}' {
            return WebhookFailed(500, "Internal Server Error");
          }
          k := k + 1;
        }
        if !matches {
          return WebhookFailed(401, "Invalid signature");
        }
      }
      if event.None? {
        return WebhookFailed(500, "Internal Server Error");
      }
      var e := event.value;
      if e.eventType == Some(CompletedEvent) && e.checkoutId.Some? && e.checkoutId.value in transactions {
        var id := e.checkoutId.value;
        var tx := transactions[id];
        if tx.status == Pending {
          var device := e.metaDeviceId.GetOr(tx.deviceId);
          var tokens := e.metaTokens.GetOr(Some(tx.tokensGranted));
          if tokens.None? {
            return WebhookFailed(500, "Internal Server Error");
          }
          transactions := transactions[id := tx.(status := Completed)];
          var _ := ledger.AddTokens(device, tokens.value);
        }
      }
      return WebhookOk;
    }
  }

  // Properties

  /** An unknown SKU is refused as invalid whatever the configuration and the provider say. */
  lemma UnknownSkuFirst(transactions: map<string, Transaction>, raw: RawCheckoutRequest, config: Option<map<string, string>>, reply: CreemReply)
    requires raw.productSku.Some? && raw.deviceId.Some?
    requires FindProduct(raw.productSku.value).None?
    ensures Checkout(transactions, raw, config, reply) ==
      CheckoutStep(CheckoutFailed(400, "Invalid product: " + raw.productSku.value), transactions)
  {
  }

  /**
   * A created checkout adds exactly one transaction, pending, at the
   * product's price and token count, for the requesting device; every other
   * outcome stores nothing.
   */
  lemma CheckoutRecords(transactions: map<string, Transaction>, raw: RawCheckoutRequest, config: Option<map<string, string>>, reply: CreemReply)
    ensures var s := Checkout(transactions, raw, config, reply);
      if s.outcome.CheckoutCreated? then
        var id := s.outcome.checkoutId;
        var product := FindProduct(raw.productSku.value);
        id !in transactions && raw.productSku.Some? && raw.deviceId.Some? && product.Some? &&
        raw.productSku.value in ProductIds(config) &&
        s.transactions == transactions[id := Transaction(raw.deviceId.value, raw.productSku.value,
                                                          product.value.priceCents, product.value.tokens, Pending)]
      else s.transactions == transactions
  {
  }

  /**
   * With a secret configured, a missing, empty or wrong signature changes
   * nothing: it is refused with 401, unless the comparison raised on it first.
   */
  lemma BadSignatureRejected(
    transactions: map<string, Transaction>, records: map<string, TokenRecord>,
    secret: string, signature: Option<string>, matches: bool, event: Option<WebhookEvent>)
    requires secret != "" && (signature.None? || signature == Some("") || !matches)
    ensures Webhook(transactions, records, secret, signature, matches, event) ==
      WebhookStep(if SignatureRaises(secret, signature) then WebhookFailed(500, "Internal Server Error")
                  else WebhookFailed(401, "Invalid signature"), transactions, records)
  {
  }

  /** With a secret configured, a non-empty signature holding a non-ASCII character is a 500 that changes nothing, whatever the body. */
  lemma NonAsciiSignatureFails(
    transactions: map<string, Transaction>, records: map<string, TokenRecord>,
    secret: string, signature: string, k: nat, matches: bool, event: Option<WebhookEvent>)
    requires secret != "" && k < |signature| && signature[k] >= '\U{80}'
    ensures Webhook(transactions, records, secret, Some(signature), matches, event) ==
      WebhookStep(WebhookFailed(500, "Internal Server Error"), transactions, records)
  {
  }

  /** Events other than a completion, and completions of unknown or finished checkouts, are acknowledged and change nothing. */
  lemma OtherEventsIgnored(
    transactions: map<string, Transaction>, records: map<string, TokenRecord>,
    secret: string, signature: Option<string>, matches: bool, e: WebhookEvent)
    requires SignatureAccepted(secret, signature, matches)
    requires e.eventType != Some(CompletedEvent) || e.checkoutId.None? || e.checkoutId.value !in transactions ||
             transactions[e.checkoutId.value].status != Pending
    ensures Webhook(transactions, records, secret, signature, matches, Some(e)) == WebhookStep(WebhookOk, transactions, records)
  {
  }

  /**
   * A completion of a pending checkout marks it completed and credits the
   * tokens, from the metadata or else the transaction, to the device, from
   * the metadata or else the transaction; nothing else changes.
   */
  lemma CompletionGrants(
    transactions: map<string, Transaction>, records: map<string, TokenRecord>,
    secret: string, signature: Option<string>, matches: bool, e: WebhookEvent)
    requires SignatureAccepted(secret, signature, matches) && Completable(transactions, e)
    requires e.metaTokens != Some(None)
    ensures var id := e.checkoutId.value;
      var tx := transactions[id];
      var device := e.metaDeviceId.GetOr(tx.deviceId);
      var tokens := if e.metaTokens.Some? then e.metaTokens.value.value else tx.tokensGranted;
      var s := Webhook(transactions, records, secret, signature, matches, Some(e));
      s.outcome == WebhookOk &&
      s.transactions == transactions[id := tx.(status := Completed)] &&
      Lookup(s.records, device) == Credit(Lookup(records, device), tokens) &&
      (forall other :: other != device ==> Lookup(s.records, other) == Lookup(records, other))
  {
  }

  /** A token count that `int()` refuses aborts the webhook with nothing committed. */
  lemma BadTokenCountAborts(
    transactions: map<string, Transaction>, records: map<string, TokenRecord>,
    secret: string, signature: Option<string>, matches: bool, e: WebhookEvent)
    requires SignatureAccepted(secret, signature, matches) && Completable(transactions, e)
    requires e.metaTokens == Some(None)
    ensures Webhook(transactions, records, secret, signature, matches, Some(e)) ==
      WebhookStep(WebhookFailed(500, "Internal Server Error"), transactions, records)
  {
  }

  /** Tokens are granted once: delivering the same event again changes nothing. */
  lemma ReplayGrantsNothing(
    transactions: map<string, Transaction>, records: map<string, TokenRecord>,
    secret: string, signature: Option<string>, matches: bool, e: WebhookEvent)
    ensures var first := Webhook(transactions, records, secret, signature, matches, Some(e));
      first.outcome == WebhookOk ==>
        Webhook(first.transactions, first.records, secret, signature, matches, Some(e)) ==
        WebhookStep(WebhookOk, first.transactions, first.records)
  {
    var first := Webhook(transactions, records, secret, signature, matches, Some(e));
    if first.outcome == WebhookOk && Completable(transactions, e) {
      assert first.transactions[e.checkoutId.value].status == Completed;
    }
  }

  /** A completed transaction stays as it is, whatever the webhook receives. */
  lemma CompletedIsFinal(
    transactions: map<string, Transaction>, records: map<string, TokenRecord>,
    secret: string, signature: Option<string>, matches: bool, event: Option<WebhookEvent>, id: string)
    requires id in transactions && transactions[id].status == Completed
    ensures var s := Webhook(transactions, records, secret, signature, matches, event);
      id in s.transactions && s.transactions[id] == transactions[id]
  {
  }

  /**
   * A purchase end to end: a created checkout, then its completion event
   * carrying the metadata the checkout sent (the device and the token count),
   * credits the product's tokens to the device.
   */
  lemma PurchaseCredits(
    transactions: map<string, Transaction>, records: map<string, TokenRecord>,
    raw: RawCheckoutRequest, config: Option<map<string, string>>, reply: CreemReply,
    secret: string, signature: Option<string>, matches: bool)
    requires Checkout(transactions, raw, config, reply).outcome.CheckoutCreated?
    requires SignatureAccepted(secret, signature, matches)
    ensures var c := Checkout(transactions, raw, config, reply);
      var device := raw.deviceId.value;
      var product := FindProduct(raw.productSku.value).value;
      var e := WebhookEvent(Some(CompletedEvent), Some(c.outcome.checkoutId), Some(device), Some(Some(product.tokens)));
      var w := Webhook(c.transactions, records, secret, signature, matches, Some(e));
      w.outcome == WebhookOk && Lookup(w.records, device) == Credit(Lookup(records, device), product.tokens)
  {
    CheckoutRecords(transactions, raw, config, reply);
  }
}
