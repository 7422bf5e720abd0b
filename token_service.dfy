/**
 * The per-device generation ledger (backend/app/services/token_service.py):
 * one record per device id holding the paid balance, the number of tokens
 * ever added and whether the free trial has been spent. A use spends the
 * free trial first and paid tokens after; adding tokens raises both counters.
 *
 * The database table is a map from device id to record; the pure functions
 * below say what each operation does to one record, and `TokenStore` is the
 * table the operations update in place.
 */
module TokenService {

  /** A row of `generation_tokens`. */
  datatype TokenRecord = TokenRecord(tokensRemaining: int, tokensPurchased: int, freeTrialUsed: bool)

  /** The record `get_or_create_token_record` inserts: no tokens, nothing purchased, trial unused. */
  const NewRecord := TokenRecord(0, 0, false)

  /** The ledger invariant: tokens are only spent after being added, so the balance never exceeds the purchases. */
  predicate Sound(r: TokenRecord)
  {
    r.tokensRemaining <= r.tokensPurchased
  }

  /** Every record of the ledger satisfies the invariant. */
  ghost predicate AllSound(records: map<string, TokenRecord>)
  {
    forall d :: d in records ==> Sound(records[d])
  }

  /** The record of `deviceId`, or the one that would be created for it. */
  function Lookup(records: map<string, TokenRecord>, deviceId: string): (r: TokenRecord)
    ensures deviceId !in records ==> r == NewRecord
  {
    if deviceId in records then records[deviceId] else NewRecord
  }

  /** The table after `get_or_create_token_record`: the device has a row, and no row has changed. */
  function WithRecord(records: map<string, TokenRecord>, deviceId: string): (m: map<string, TokenRecord>)
    ensures deviceId in m
    ensures forall d :: Lookup(m, d) == Lookup(records, d)
  {
    records[deviceId := Lookup(records, deviceId)]
  }

  /** What `can_use_generation` reports: `(can_use, is_free_trial, remaining_tokens)`. */
  datatype Eligibility = Eligibility(canUse: bool, isFreeTrial: bool, remaining: int)

  /** `can_use_generation` on one record. */
  function CheckEligibility(r: TokenRecord): (e: Eligibility)
    ensures e.canUse <==> !r.freeTrialUsed || r.tokensRemaining > 0
    ensures e.isFreeTrial <==> !r.freeTrialUsed
    ensures e.remaining == (if e.canUse then r.tokensRemaining else 0)
  {
    if !r.freeTrialUsed then Eligibility(true, true, r.tokensRemaining)
    else if r.tokensRemaining > 0 then Eligibility(true, false, r.tokensRemaining)
    else Eligibility(false, false, 0)
  }

  /** What `use_generation` returns, with the record it leaves behind. */
  datatype UseOutcome = UseOutcome(success: bool, remaining: int, record: TokenRecord)

  /**
   * `use_generation` on one record: the free trial first, then one paid token.
   * It succeeds exactly when `can_use_generation` says it can, never touches
   * the purchases, and changes nothing when it fails.
   */
  function Consume(r: TokenRecord): (o: UseOutcome)
    ensures o.success == CheckEligibility(r).canUse
    ensures o.record.tokensPurchased == r.tokensPurchased
    ensures !r.freeTrialUsed ==> o.record == r.(freeTrialUsed := true) && o.remaining == r.tokensRemaining
    ensures r.freeTrialUsed && r.tokensRemaining > 0 ==>
      o.record == r.(tokensRemaining := r.tokensRemaining - 1) && o.remaining == r.tokensRemaining - 1 >= 0
    ensures !o.success ==> o.record == r && o.remaining == 0
    ensures o.success ==> o.record.freeTrialUsed && o.remaining == o.record.tokensRemaining
  {
    if !r.freeTrialUsed then UseOutcome(true, r.tokensRemaining, r.(freeTrialUsed := true))
    else if r.tokensRemaining > 0 then
      var left := r.tokensRemaining - 1;
      UseOutcome(true, left, r.(tokensRemaining := left))
    else UseOutcome(false, 0, r)
  }

  /** `add_tokens(amount)` on one record: the amount is added to the balance and to the purchases. */
  function Credit(r: TokenRecord, amount: int): (c: TokenRecord)
    ensures c.tokensRemaining - r.tokensRemaining == amount
    ensures c.tokensPurchased - r.tokensPurchased == amount
    ensures c.freeTrialUsed == r.freeTrialUsed
  {
    r.(tokensRemaining := r.tokensRemaining + amount, tokensPurchased := r.tokensPurchased + amount)
  }

  /** Every operation keeps the ledger invariant, whatever the amount added. */
  lemma OperationsKeepSound(r: TokenRecord, amount: int)
    requires Sound(r)
    ensures Sound(NewRecord)
    ensures Sound(Consume(r).record)
    ensures Sound(Credit(r, amount))
  {
  }

  /** The body of `get_token_status`. */
  datatype TokenStatus = TokenStatus(
    deviceId: string,
    tokensRemaining: int,
    tokensPurchased: int,
    freeTrialUsed: bool,
    freeTrialAvailable: bool)

  /** `get_token_status` on one record: its counters, and the trial available exactly when unused. */
  function StatusOf(deviceId: string, r: TokenRecord): (s: TokenStatus)
    ensures s.deviceId == deviceId
    ensures s.tokensRemaining == r.tokensRemaining && s.tokensPurchased == r.tokensPurchased
    ensures s.freeTrialUsed == r.freeTrialUsed
    ensures s.freeTrialAvailable != s.freeTrialUsed
  {
    TokenStatus(deviceId, r.tokensRemaining, r.tokensPurchased, r.freeTrialUsed, !r.freeTrialUsed)
  }

  /** The number of generations a record still allows: the trial if unused, plus the paid balance. */
  function Allowance(r: TokenRecord): (n: nat)
    ensures n == 0 <==> !CheckEligibility(r).canUse
  {
    (if r.freeTrialUsed then 0 else 1) + (if r.tokensRemaining > 0 then r.tokensRemaining else 0)
  }

  /** The record left behind by several uses, and how many of them succeeded. */
  datatype Run = Run(record: TokenRecord, successes: nat)

  /** `n` uses in a row. */
  function UseMany(r: TokenRecord, n: nat): Run
    decreases n
  {
    if n == 0 then Run(r, 0)
    else
      var o := Consume(r);
      var rest := UseMany(o.record, n - 1);
      Run(rest.record, rest.successes + (if o.success then 1 else 0))
  }

  /** A successful use takes exactly one generation off the allowance; a failed one takes none. */
  lemma ConsumeAllowance(r: TokenRecord)
    ensures Consume(r).success ==> Allowance(Consume(r).record) == Allowance(r) - 1
    ensures !Consume(r).success ==> Allowance(Consume(r).record) == Allowance(r) == 0
  {
  }

  /**
   * Repeated uses succeed exactly `Allowance(r)` times, and once the
   * allowance is spent the ledger refuses the device.
   */
  lemma {:induction false} UsesGranted(r: TokenRecord, n: nat)
    ensures UseMany(r, n).successes == if n <= Allowance(r) then n else Allowance(r)
    ensures n >= Allowance(r) ==> !CheckEligibility(UseMany(r, n).record).canUse
    ensures n >= Allowance(r) ==> UseMany(r, n).record.freeTrialUsed
    decreases n
  {
    if n > 0 {
      ConsumeAllowance(r);
      UsesGranted(Consume(r).record, n - 1);
    } else if Allowance(r) == 0 {
      assert r.freeTrialUsed;
    }
  }

  /** The `generation_tokens` table, updated in place by the service functions. */
  class TokenStore {
    var records: map<string, TokenRecord>

    ghost predicate Valid()
      reads this
    {
      AllSound(records)
    }

    constructor ()
      ensures Valid() && records == map[]
    {
      records := map[];
    }

    /** `get_or_create_token_record`: the device's row, inserted first when missing. */
    method GetOrCreate(deviceId: string) returns (token: TokenRecord)
      requires Valid()
      modifies this
      ensures Valid()
      ensures token == Lookup(old(records), deviceId)
      ensures records == WithRecord(old(records), deviceId)
    {
      if deviceId in records {
        token := records[deviceId];
      } else {
        token := NewRecord;
        records := records[deviceId := token];
      }
    }

    /** `can_use_generation`: reads the record (creating it when missing) and changes no value. */
    method CanUseGeneration(deviceId: string) returns (e: Eligibility)
      requires Valid()
      modifies this
      ensures Valid()
      ensures e == CheckEligibility(Lookup(old(records), deviceId))
      ensures records == WithRecord(old(records), deviceId)
    {
      var token := GetOrCreate(deviceId);
      if !token.freeTrialUsed {
        return Eligibility(true, true, token.tokensRemaining);
      }
      if token.tokensRemaining > 0 {
        return Eligibility(true, false, token.tokensRemaining);
      }
      return Eligibility(false, false, 0);
    }

    /** `use_generation`: spends the free trial, or else one paid token, or reports failure. */
    method UseGeneration(deviceId: string) returns (success: bool, remaining: int)
      requires Valid()
      modifies this
      ensures Valid()
      ensures var o := Consume(Lookup(old(records), deviceId));
        success == o.success && remaining == o.remaining &&
        records == old(records)[deviceId := o.record]
    {
      var token := GetOrCreate(deviceId);
      if !token.freeTrialUsed {
        token := token.(freeTrialUsed := true);
        records := records[deviceId := token];
        return true, token.tokensRemaining;
      }
      if token.tokensRemaining > 0 {
        token := token.(tokensRemaining := token.tokensRemaining - 1);
        records := records[deviceId := token];
        return true, token.tokensRemaining;
      }
      return false, 0;
    }

    /** `add_tokens`: adds `amount` to the balance and to the purchases, and returns the new balance. */
    method AddTokens(deviceId: string, amount: int) returns (remaining: int)
      requires Valid()
      modifies this
      ensures Valid()
      ensures var c := Credit(Lookup(old(records), deviceId), amount);
        remaining == c.tokensRemaining && records == old(records)[deviceId := c]
    {
      var token := GetOrCreate(deviceId);
      token := token.(tokensRemaining := token.tokensRemaining + amount);
      token := token.(tokensPurchased := token.tokensPurchased + amount);
      records := records[deviceId := token];
      return token.tokensRemaining;
    }

    /** `get_token_status`: the device's counters, creating the record when missing. */
    method GetTokenStatus(deviceId: string) returns (status: TokenStatus)
      requires Valid()
      modifies this
      ensures Valid()
      ensures status == StatusOf(deviceId, Lookup(old(records), deviceId))
      ensures records == WithRecord(old(records), deviceId)
    {
      var token := GetOrCreate(deviceId);
      status := TokenStatus(deviceId, token.tokensRemaining, token.tokensPurchased,
                            token.freeTrialUsed, !token.freeTrialUsed);
    }
  }

  /** Reading the status creates at most the row and changes no value, so a second read returns the same data. */
  lemma StatusReadsAgree(records: map<string, TokenRecord>, deviceId: string)
    ensures StatusOf(deviceId, Lookup(WithRecord(records, deviceId), deviceId)) == StatusOf(deviceId, Lookup(records, deviceId))
    ensures WithRecord(WithRecord(records, deviceId), deviceId) == WithRecord(records, deviceId)
  {
  }
}
