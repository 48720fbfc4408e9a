/**
 * From the client's signature to the matcher's check of it: order intents
 * (client/lib/market/order-intent.ts), intake validation (client/lib/validation.ts), the order row,
 * and `settlementSigValid` in client/scripts/matcher-service.ts.
 *
 * Key decoding, Ed25519 verification, `Number(…)` and the clock are parameters.
 */
module OrderIntake {
  import opened Wrappers
  import opened Strings
  import opened SigningMessage
  import Matching

  /** A JSON value; `text` is what `String(v)` gives for a number. */
  datatype Json = JString(value: string) | JNumber(text: string) | JBool(b: bool) | JOther

  /** The fields that are read; one that is absent is `undefined`, a JOther. */
  datatype Body = Body(
    owner: Json, marketId: Json, isLong: Json, size: Json, limitPrice: Json, reduceOnly: Json,
    nonce: Json, expiryTs: Json, signature: Json)

  datatype Env = Env(
    isKey: string -> bool, pubkeyHex: string -> string, verify: (string, string, string) -> bool,
    toNumber: Json -> Option<int>, validMarkets: set<nat>, nowSec: int)

  datatype ValidatedOrder = ValidatedOrder(
    owner: string, marketId: nat, isLong: bool, size: int, limitPrice: int, reduceOnly: bool, nonce: nat, expiryTs: nat)

  datatype Rejection =
    | NotAnObject | BadOwner | UnknownMarket | BadIsLong | BadReduceOnly | BadSize | SizeTooLarge
    | BadLimitPrice | PriceTooLarge | BadNonce | BadExpiry | ExpiryTooSoon | ExpiryTooFar | NoSignature | BadSignature

  const MAX_SIZE: int := 1_000_000_000 * 10_000_000
  const MAX_PRICE: int := 10_000_000 * 1_000_000_000_000_000_000
  const MAX_TTL_SECONDS: int := 7 * 24 * 3600
  const MIN_TTL_SECONDS: int := 5
  const U64_LIMIT: int := 0x1_0000_0000_0000_0000

  // ----- reading numbers -----

  /** What `String.prototype.trim` removes. */
  predicate IsSpace(c: char) {
    '\U{9}' <= c <= '\U{D}' || c in {' ', '\U{A0}', '\U{1680}', '\U{2028}', '\U{2029}', '\U{202F}', '\U{205F}',
      '\U{3000}', '\U{FEFF}'}
    || '\U{2000}' <= c <= '\U{200A}'
  }

  function TrimStart(s: string): string {
    if s != "" && IsSpace(s[0]) then TrimStart(s[1..]) else s
  }

  function TrimEnd(s: string): string {
    if s != "" && IsSpace(s[|s| - 1]) then TrimEnd(s[..|s| - 1]) else s
  }

  function Trim(s: string): string { TrimEnd(TrimStart(s)) }

  function ParseBigInt(v: Json): Option<int> {
    match v
    case JString(s) => if IsInteger(Trim(s)) then Some(ParseInt(Trim(s))) else None
    case JNumber(s) => if IsInteger(Trim(s)) then Some(ParseInt(Trim(s))) else None
    case _ => None
  }

  predicate IsU64(n: int) { 0 <= n < U64_LIMIT }

  lemma PrintTrimmed(n: int)
    ensures Trim(Print(n)) == Print(n)
  {
    var s := Print(n);
    PrintParses(n);
    assert s[0] in s && s[|s| - 1] in s;
  }

  /** A number printed by the client is read back as itself. */
  lemma ParseBigIntPrint(n: int)
    ensures ParseBigInt(JString(Print(n))) == Some(n)
  {
    PrintParses(n);
    PrintTrimmed(n);
  }

  lemma {:induction false} TrimmedStart(pre: string, s: string)
    requires forall c :: c in pre ==> IsSpace(c)
    requires s == "" || !IsSpace(s[0])
    ensures TrimStart(pre + s) == s
  {
    if pre == "" {
      assert pre + s == s;
    } else {
      assert pre[0] in pre && (pre + s)[1..] == pre[1..] + s;
      TrimmedStart(pre[1..], s);
    }
  }

  lemma {:induction false} TrimmedEnd(s: string, post: string)
    requires forall c :: c in post ==> IsSpace(c)
    requires s == "" || !IsSpace(s[|s| - 1])
    ensures TrimEnd(s + post) == s
  {
    if post == "" {
      assert s + post == s;
    } else {
      var n := |post| - 1;
      assert post[n] in post && (s + post)[..|s| + n] == s + post[..n];
      TrimmedEnd(s, post[..n]);
    }
  }

  /** White space around a number is ignored. */
  lemma SpacesIgnored(pre: string, n: int, post: string)
    requires forall c :: c in pre ==> IsSpace(c)
    requires forall c :: c in post ==> IsSpace(c)
    ensures ParseBigInt(JString(pre + Print(n) + post)) == Some(n)
    ensures ParseBigInt(JNumber(pre + Print(n) + post)) == Some(n)
  {
    var s := Print(n);
    PrintParses(n);
    assert s[0] in s && s[|s| - 1] in s;
    assert pre + s + post == pre + (s + post) && (s + post)[0] == s[0];
    TrimmedStart(pre, s + post);
    TrimmedEnd(s, post);
  }

  // ----- intake -----

  /** The payload whose settlement message is verified: every number in its canonical spelling. */
  function SignedPayload(o: ValidatedOrder): Payload {
    Payload(o.owner, o.marketId, o.isLong, Print(o.size), Print(o.limitPrice), o.reduceOnly, Print(o.nonce),
      Print(o.expiryTs))
  }

  function IntakeMessage(o: ValidatedOrder, passphrase: string, env: Env): string {
    SettlementMessage(passphrase, env.pubkeyHex(o.owner), SignedPayload(o))
  }

  function CheckMarket(body: Body, env: Env): Option<nat> {
    var n := env.toNumber(body.marketId);
    if n.Some? && n.value >= 0 && n.value in env.validMarkets then Some(n.value) else None
  }

  /** `validateOrderIntent`, check by check. */
  function Validate(body: Option<Body>, passphrase: string, env: Env): Result<ValidatedOrder, Rejection> {
    if body.None? then Err(NotAnObject)
    else
      var b := body.value;
      if !b.owner.JString? || !env.isKey(b.owner.value) then Err(BadOwner)
      else if CheckMarket(b, env).None? then Err(UnknownMarket)
      else if !b.isLong.JBool? then Err(BadIsLong)
      else if !b.reduceOnly.JBool? then Err(BadReduceOnly)
      else
        var size, price := ParseBigInt(b.size), ParseBigInt(b.limitPrice);
        var nonce, expiry := ParseBigInt(b.nonce), ParseBigInt(b.expiryTs);
        if size.None? || size.value <= 0 then Err(BadSize)
        else if size.value > MAX_SIZE then Err(SizeTooLarge)
        else if price.None? || price.value <= 0 then Err(BadLimitPrice)
        else if price.value > MAX_PRICE then Err(PriceTooLarge)
        else if nonce.None? || !IsU64(nonce.value) then Err(BadNonce)
        else if expiry.None? || !IsU64(expiry.value) then Err(BadExpiry)
        else if expiry.value <= env.nowSec + MIN_TTL_SECONDS then Err(ExpiryTooSoon)
        else if expiry.value > env.nowSec + MAX_TTL_SECONDS then Err(ExpiryTooFar)
        else if !b.signature.JString? || |b.signature.value| > 256 then Err(NoSignature)
        else
          var order := ValidatedOrder(b.owner.value, CheckMarket(b, env).value, b.isLong.b, size.value, price.value,
                                      b.reduceOnly.b, nonce.value, expiry.value);
          if !env.verify(order.owner, IntakeMessage(order, passphrase, env), b.signature.value)
          then Err(BadSignature)
          else Ok(order)
  }

  // ----- the order row -----

  /** Sizes and prices are text columns; nonce and expiry are read through `::text`. */
  datatype Row = Row(
    owner: string, marketId: nat, isLong: bool, size: string, limitPrice: string, reduceOnly: bool,
    nonce: string, expiryTs: string, filledSize: string, createdAt: int, signature: Option<string>)

  function Store(o: ValidatedOrder, signature: string, createdAt: int): Row {
    Row(o.owner, o.marketId, o.isLong, Print(o.size), Print(o.limitPrice), o.reduceOnly, Print(o.nonce),
      Print(o.expiryTs),
        "0", createdAt, Some(signature))
  }

  /** `mapOrderRow`; `BigInt(…)` throws on text that is not a number. */
  function Load(r: Row): Option<Matching.Order> {
    if IsInteger(r.size) && IsInteger(r.limitPrice) && IsInteger(r.nonce) && IsInteger(r.expiryTs) &&
      IsInteger(r.filledSize)
       && ParseInt(r.nonce) >= 0 && ParseInt(r.expiryTs) >= 0
    then Some(Matching.Order(r.owner, ParseInt(r.nonce), r.marketId, r.isLong, ParseInt(r.size), ParseInt(r.limitPrice),
                             r.reduceOnly, ParseInt(r.expiryTs), ParseInt(r.filledSize), r.createdAt, r.signature))
    else None
  }

  function RebuiltPayload(o: Matching.Order): Payload {
    Payload(o.owner, o.marketId, o.isLong, Print(o.size), Print(o.limitPrice), o.reduceOnly, Print(o.nonce),
      Print(o.expiryTs))
  }

  /** The matcher's check before it settles a match; a legacy order without a signature passes. */
  predicate SettlementSigValid(o: Matching.Order, passphrase: string, env: Env) {
    o.signature.None? || o.signature.value == "" ||
    env.verify(o.owner, SettlementMessage(passphrase, env.pubkeyHex(o.owner), RebuiltPayload(o)), o.signature.value)
  }

  lemma StoreLoads(o: ValidatedOrder, signature: string, createdAt: int)
    ensures Load(Store(o, signature, createdAt)) == Some(Matching.Order(o.owner, o.nonce, o.marketId, o.isLong, o.size,
      o.limitPrice, o.reduceOnly, o.expiryTs, 0, createdAt, Some(signature)))
  {
    PrintParses(o.size);
    PrintParses(o.limitPrice);
    PrintParses(o.nonce);
    PrintParses(o.expiryTs);
    PrintParses(0);
    assert Print(0) == "0";
  }

  /**
   * Whatever spelling of the numbers was accepted, the row loads as the very order that was
   * accepted, open and inside the bounds, and the matcher verifies the same bytes under the same
   * signature: no accepted order is quarantined later.
   */
  lemma AcceptedOrderSettleable(body: Body, passphrase: string, env: Env, createdAt: int)
    requires Validate(Some(body), passphrase, env).Ok?
    ensures body.signature.JString?
    ensures var o, signature := Validate(Some(body), passphrase, env).value, body.signature.value;
      var row := Load(Store(o, signature, createdAt));
      && row.Some?
      && 0 == row.value.filledSize < row.value.size <= MAX_SIZE && 0 < row.value.limitPrice <= MAX_PRICE
      && IsU64(row.value.nonce) && env.nowSec + MIN_TTL_SECONDS < row.value.expiryTs <= env.nowSec + MAX_TTL_SECONDS
      && SettlementMessage(passphrase, env.pubkeyHex(o.owner), RebuiltPayload(row.value)) ==
        IntakeMessage(o, passphrase, env)
      && SettlementSigValid(row.value, passphrase, env)
  {
    StoreLoads(Validate(Some(body), passphrase, env).value, body.signature.value, createdAt);
  }

  /**
   * Before a settlement the matcher recomputes the message from the stored order and checks the
   * stored signature against exactly these bytes; only an order without a signature is let through.
   */
  lemma SettlementSigIff(o: Matching.Order, passphrase: string, env: Env)
    ensures SettlementSigValid(o, passphrase, env) <==>
      (o.signature.Some? && |o.signature.value| > 0 ==>
        env.verify(o.owner,
          passphrase + "|" + "place_order" + "|" + env.pubkeyHex(o.owner) + "|" + Print(o.marketId)
          + "|" + (if o.isLong then "1" else "0") + "|" + Print(o.size) + "|" + Print(o.limitPrice)
          + "|" + (if o.reduceOnly then "1" else "0") + "|" + Print(o.nonce) + "|" + Print(o.expiryTs),
          o.signature.value))
  {
    SettlementLayout(passphrase, env.pubkeyHex(o.owner), RebuiltPayload(o));
  }

  /** Two stored orders with the same message agree in every field that is signed: none can be altered unnoticed. */
  lemma SettlementMessageBinds(o: Matching.Order, p: Matching.Order, passphrase: string, env: Env)
    requires '|' !in env.pubkeyHex(o.owner) && '|' !in env.pubkeyHex(p.owner)
    requires SettlementMessage(passphrase, env.pubkeyHex(o.owner), RebuiltPayload(o))
          == SettlementMessage(passphrase, env.pubkeyHex(p.owner), RebuiltPayload(p))
    ensures env.pubkeyHex(o.owner) == env.pubkeyHex(p.owner)
    ensures p == o.(owner := p.owner, filledSize := p.filledSize, createdAt := p.createdAt, signature := p.signature)
  {
    NumbersBarFree(o, env);
    NumbersBarFree(p, env);
    SettlementMessageInjective(passphrase, env.pubkeyHex(o.owner), RebuiltPayload(o),
                               passphrase, env.pubkeyHex(p.owner), RebuiltPayload(p));
    PrintParses(o.size);
    PrintParses(p.size);
    PrintParses(o.limitPrice);
    PrintParses(p.limitPrice);
    PrintParses(o.nonce);
    PrintParses(p.nonce);
    PrintParses(o.expiryTs);
    PrintParses(p.expiryTs);
  }

  lemma NumbersBarFree(o: Matching.Order, env: Env)
    requires '|' !in env.pubkeyHex(o.owner)
    ensures BarFree(env.pubkeyHex(o.owner), RebuiltPayload(o))
  {
    PrintParses(o.size);
    PrintParses(o.limitPrice);
    PrintParses(o.nonce);
    PrintParses(o.expiryTs);
  }

  // ----- the client -----

  /** `orderIntentToJson`, with the signature added. */
  function IntentBody(o: ValidatedOrder, signature: string): Body {
    Body(JString(o.owner), JNumber(Print(o.marketId)), JBool(o.isLong), JString(Print(o.size)),
         JString(Print(o.limitPrice)), JBool(o.reduceOnly), JString(Print(o.nonce)), JString(Print(o.expiryTs)),
         JString(signature))
  }

  predicate WithinBounds(o: ValidatedOrder, env: Env) {
    && env.isKey(o.owner) && o.marketId in env.validMarkets
    && 0 < o.size <= 10_000_000_000_000_000 && 0 < o.limitPrice <= 10_000_000_000_000_000_000_000_000
    && o.nonce <= 0xFFFF_FFFF_FFFF_FFFF && o.expiryTs <= 0xFFFF_FFFF_FFFF_FFFF
    && env.nowSec + 5 < o.expiryTs <= env.nowSec + 604_800
  }

  /** A JSON value that spells this integer. */
  predicate Spells(v: Json, n: int) { ParseBigInt(v) == Some(n) }

  /**
   * The intake accepts exactly the bodies whose fields have the right types and spell an order
   * within bounds, under a signature that verifies against that order's settlement message.
   */
  lemma AcceptedIff(b: Body, o: ValidatedOrder, passphrase: string, env: Env)
    ensures Validate(Some(b), passphrase, env) == Ok(o)
       <==> (b.owner == JString(o.owner) && env.toNumber(b.marketId) == Some(o.marketId) && b.isLong == JBool(o.isLong)
             && Spells(b.size, o.size) && Spells(b.limitPrice, o.limitPrice) && b.reduceOnly == JBool(o.reduceOnly)
             && Spells(b.nonce, o.nonce) && Spells(b.expiryTs, o.expiryTs) && WithinBounds(o, env)
             && b.signature.JString? && |b.signature.value| <= 256
             && env.verify(o.owner, SettlementMessage(passphrase, env.pubkeyHex(o.owner), SignedPayload(o)),
                           b.signature.value))
  {
    if Validate(Some(b), passphrase, env).Ok? { assert CheckMarket(b, env).Some?; }
  }

  /**
   * The intake accepts what the client sends exactly when the order is in bounds and the signature
   * is one for the client's own message, and then it stores the client's own numbers.
   */
  lemma ClientOrderAcceptedIff(o: ValidatedOrder, signature: string, passphrase: string, env: Env)
    requires env.toNumber(JNumber(Print(o.marketId))) == Some(o.marketId)
    ensures Validate(Some(IntentBody(o, signature)), passphrase, env) == Ok(o)
       <==> WithinBounds(o, env) && |signature| <= 256
            && env.verify(o.owner, SettlementMessage(passphrase, env.pubkeyHex(o.owner), SignedPayload(o)), signature)
    ensures Validate(Some(IntentBody(o, signature)), passphrase, env).Ok?
       ==> Validate(Some(IntentBody(o, signature)), passphrase, env) == Ok(o)
  {
    ParseBigIntPrint(o.size);
    ParseBigIntPrint(o.limitPrice);
    ParseBigIntPrint(o.nonce);
    ParseBigIntPrint(o.expiryTs);
  }

  // ----- nonces -----

  /** The session state behind `nextOrderNonce`. */
  class NonceSource {
    var nonceCounter: nat
    var lastNonce: int

    constructor ()
      ensures nonceCounter == 0 && lastNonce == 0
    {
      nonceCounter, lastNonce := 0, 0;
    }

    method NextOrderNonce(now: nat) returns (nonce: int)
      modifies this
      ensures (nonceCounter, lastNonce) == NextNonce(old(nonceCounter), old(lastNonce), now) && nonce == lastNonce
      ensures nonce > old(lastNonce) && nonce >= now * 1000
      ensures nonce == now * 1000 + old(nonceCounter) % 1000 || nonce == old(lastNonce) + 1
    {
      var candidate := now * 1000 + nonceCounter % 1000;
      nonceCounter := nonceCounter + 1;
      lastNonce := if candidate > lastNonce then candidate else lastNonce + 1;
      nonce := lastNonce;
    }
  }

  function NextNonce(counter: nat, last: int, now: nat): (nat, int) {
    var candidate := now * 1000 + counter % 1000;
    (counter + 1, if candidate > last then candidate else last + 1)
  }

  /** The nonces of a session whose clock shows `clock[0]`, `clock[1]`, … */
  function Nonces(counter: nat, last: int, clock: seq<nat>): seq<int>
    decreases |clock|
  {
    if clock == [] then []
    else var (c, n) := NextNonce(counter, last, clock[0]); [n] + Nonces(c, n, clock[1..])
  }

  /**
   * Whatever the clock does, stand still or go backwards, nonces strictly increase, so no two
   * orders of a session share one; and while the clock shows at most `latest`, they stay below the
   * bound that keeps them in 64 bits.
   */
  lemma {:induction false} NoncesIncrease(counter: nat, last: int, clock: seq<nat>, latest: nat)
    requires forall i :: 0 <= i < |clock| ==> clock[i] <= latest
    ensures var ns := Nonces(counter, last, clock);
      && |ns| == |clock|
      && (forall i :: 0 <= i < |ns| ==>
           last < ns[i] <= (if last > latest * 1000 + 999 then last else latest * 1000 + 999) + |clock|)
      && (forall i, j :: 0 <= i < j < |ns| ==> ns[i] < ns[j])
    decreases |clock|
  {
    if clock != [] {
      var (c, n) := NextNonce(counter, last, clock[0]);
      NoncesIncrease(c, n, clock[1..], latest);
    }
  }
}
