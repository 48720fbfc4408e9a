/**
 * The messages users sign (client/lib/market/signing-message.ts), and why a signature for one of
 * them is a signature for nothing else.
 */
module SigningMessage {
  import opened Strings

  const APP_DOMAIN := "kryon.perps"

  /** A signed order payload without its signature; the numbers are decimal strings. */
  datatype Payload = Payload(
    owner: string, marketId: nat, isLong: bool, size: string, limitPrice: string,
    reduceOnly: bool, nonce: string, expiryTs: string)

  datatype Scope = AllMarkets | OneMarket(id: nat)
  {
    function Text(): string { if AllMarkets? then "all" else Print(id) }
  }

  function Bit(b: bool): string { if b then "1" else "0" }

  function Word(b: bool): string { if b then "true" else "false" }

  // ----- the settlement message -----

  function SettlementFields(pubkeyHex: string, o: Payload): seq<string> {
    ["place_order", pubkeyHex, Print(o.marketId), Bit(o.isLong), o.size, o.limitPrice, Bit(o.reduceOnly), o.nonce,
      o.expiryTs]
  }

  function SettlementMessage(domain: string, pubkeyHex: string, o: Payload): string {
    Join('|', [domain] + SettlementFields(pubkeyHex, o))
  }

  lemma SettlementSnoc(parts: seq<string>, n: nat)
    requires 0 < n < |parts|
    ensures Join('|', parts[..n + 1]) == Join('|', parts[..n]) + "|" + parts[n]
  {
    JoinLast('|', parts[..n + 1]);
    assert parts[..n + 1][..n] == parts[..n];
  }

  /** The bytes that the contract rebuilds: domain, action, key and order, separated by bars. */
  lemma SettlementLayout(domain: string, pubkeyHex: string, o: Payload)
    ensures SettlementMessage(domain, pubkeyHex, o)
         == domain + "|" + "place_order" + "|" + pubkeyHex + "|" + Print(o.marketId)
            + "|" + (if o.isLong then "1" else "0") + "|" + o.size + "|" + o.limitPrice
            + "|" + (if o.reduceOnly then "1" else "0") + "|" + o.nonce + "|" + o.expiryTs
  {
    var parts := [domain] + SettlementFields(pubkeyHex, o);
    assert parts[..1] == [domain];
    SettlementSnoc(parts, 1);
    SettlementSnoc(parts, 2);
    SettlementSnoc(parts, 3);
    SettlementSnoc(parts, 4);
    SettlementSnoc(parts, 5);
    SettlementSnoc(parts, 6);
    SettlementSnoc(parts, 7);
    SettlementSnoc(parts, 8);
    SettlementSnoc(parts, 9);
    assert parts[..10] == parts;
  }

  ghost predicate BarFree(pubkeyHex: string, o: Payload) {
    Free('|', [pubkeyHex, o.size, o.limitPrice, o.nonce, o.expiryTs])
  }

  lemma FieldsBarFree(pubkeyHex: string, o: Payload)
    requires BarFree(pubkeyHex, o)
    ensures Free('|', SettlementFields(pubkeyHex, o))
  {
    PrintParses(o.marketId);
    var parts := [pubkeyHex, o.size, o.limitPrice, o.nonce, o.expiryTs];
    assert parts[0] in parts && parts[1] in parts && parts[2] in parts && parts[3] in parts && parts[4] in parts;
  }

  /**
   * Equal settlement messages come from equal domains, keys and orders, even when the domain
   * contains the separator. (The owner is not in the message; its key is.)
   */
  lemma SettlementMessageInjective(d: string, k: string, o: Payload, e: string, l: string, p: Payload)
    requires BarFree(k, o) && BarFree(l, p)
    requires SettlementMessage(d, k, o) == SettlementMessage(e, l, p)
    ensures d == e && k == l && p == o.(owner := p.owner)
  {
    FieldsBarFree(k, o);
    FieldsBarFree(l, p);
    var a, b := SettlementFields(k, o), SettlementFields(l, p);
    JoinInjectiveAfterFirst('|', d, a, e, b);
    assert a[1] == b[1] && a[2] == b[2] && a[3] == b[3] && a[4] == b[4] && a[5] == b[5] && a[6] == b[6] &&
      a[7] == b[7] && a[8] == b[8];
    PrintParses(o.marketId);
    PrintParses(p.marketId);
  }

  // ----- the canonical messages -----

  type Pairs = seq<(string, string)>

  function Line(p: (string, string)): string { p.0 + "=" + p.1 }

  function Lines(pairs: Pairs): seq<string> {
    seq(|pairs|, i requires 0 <= i < |pairs| => Line(pairs[i]))
  }

  function CanonicalPairs(pairs: Pairs): string { Join('\n', Lines(pairs)) }

  function PlacePairs(o: Payload, network: string): Pairs {
    [("domain", APP_DOMAIN), ("action", "place_order"), ("network", network), ("owner", o.owner),
     ("market_id", Print(o.marketId)), ("is_long", Word(o.isLong)), ("size", o.size), ("limit_price", o.limitPrice),
     ("reduce_only", Word(o.reduceOnly)), ("nonce", o.nonce), ("expiry_ts", o.expiryTs)]
  }

  function CancelPairs(owner: string, nonce: string, network: string): Pairs {
    [("domain", APP_DOMAIN), ("action", "cancel_order"), ("network", network), ("owner", owner), ("nonce", nonce)]
  }

  function CancelAllPairs(owner: string, issuedAt: string, scope: Scope, network: string): Pairs {
    [("domain", APP_DOMAIN), ("action", "cancel_all"), ("network", network), ("owner", owner),
     ("market_id", scope.Text()), ("issued_at", issuedAt)]
  }

  function PlaceMessage(o: Payload, network: string): string { CanonicalPairs(PlacePairs(o, network)) }

  function CancelMessage(owner: string, nonce: string, network: string): string {
    CanonicalPairs(CancelPairs(owner, nonce, network))
  }

  function CancelAllMessage(owner: string, issuedAt: string, scope: Scope, network: string): string {
    CanonicalPairs(CancelAllPairs(owner, issuedAt, scope, network))
  }

  // ----- what the messages look like -----

  lemma CanonicalSnoc(pairs: Pairs, n: nat, key: string)
    requires 0 < n < |pairs| && key == "\n" + pairs[n].0 + "="
    ensures CanonicalPairs(pairs[..n + 1]) == CanonicalPairs(pairs[..n]) + key + pairs[n].1
  {
    JoinLast('\n', Lines(pairs[..n + 1]));
    assert Lines(pairs[..n + 1])[..n] == Lines(pairs[..n]);
    var front := CanonicalPairs(pairs[..n]);
    assert front + "\n" + (pairs[n].0 + "=" + pairs[n].1) == front + ("\n" + pairs[n].0 + "=") + pairs[n].1;
  }

  lemma CanonicalHead(pairs: Pairs, action: string)
    requires |pairs| >= 2 && pairs[0] == ("domain", APP_DOMAIN) && pairs[1] == ("action", action)
    ensures CanonicalPairs(pairs[..2]) == "domain=kryon.perps" + "\naction=" + action
  {
    assert Lines(pairs[..1]) == ["domain" + "=" + APP_DOMAIN];
    assert "domain" + "=" + APP_DOMAIN == "domain=kryon.perps";
    CanonicalSnoc(pairs, 1, "\naction=");
  }

  lemma PlaceLayout(o: Payload, network: string)
    ensures PlaceMessage(o, network)
         == "domain=kryon.perps" + "\naction=" + "place_order" + "\nnetwork=" + network + "\nowner=" + o.owner
            + "\nmarket_id=" + Print(o.marketId) + "\nis_long=" + (if o.isLong then "true" else "false")
            + "\nsize=" + o.size + "\nlimit_price=" + o.limitPrice
            + "\nreduce_only=" + (if o.reduceOnly then "true" else "false")
            + "\nnonce=" + o.nonce + "\nexpiry_ts=" + o.expiryTs
  {
    var pairs := PlacePairs(o, network);
    CanonicalHead(pairs, "place_order");
    CanonicalSnoc(pairs, 2, "\nnetwork=");
    CanonicalSnoc(pairs, 3, "\nowner=");
    CanonicalSnoc(pairs, 4, "\nmarket_id=");
    CanonicalSnoc(pairs, 5, "\nis_long=");
    CanonicalSnoc(pairs, 6, "\nsize=");
    CanonicalSnoc(pairs, 7, "\nlimit_price=");
    CanonicalSnoc(pairs, 8, "\nreduce_only=");
    CanonicalSnoc(pairs, 9, "\nnonce=");
    CanonicalSnoc(pairs, 10, "\nexpiry_ts=");
    assert pairs[..11] == pairs;
  }

  lemma CancelLayout(owner: string, nonce: string, network: string)
    ensures CancelMessage(owner, nonce, network)
         == "domain=kryon.perps" + "\naction=" + "cancel_order" + "\nnetwork=" + network + "\nowner=" + owner
            + "\nnonce=" + nonce
  {
    var pairs := CancelPairs(owner, nonce, network);
    CanonicalHead(pairs, "cancel_order");
    CanonicalSnoc(pairs, 2, "\nnetwork=");
    CanonicalSnoc(pairs, 3, "\nowner=");
    CanonicalSnoc(pairs, 4, "\nnonce=");
    assert pairs[..5] == pairs;
  }

  lemma CancelAllLayout(owner: string, issuedAt: string, scope: Scope, network: string)
    ensures CancelAllMessage(owner, issuedAt, scope, network)
         == "domain=kryon.perps" + "\naction=" + "cancel_all" + "\nnetwork=" + network + "\nowner=" + owner
            + "\nmarket_id=" + (if scope == AllMarkets then "all" else Print(scope.id)) + "\nissued_at=" + issuedAt
  {
    var pairs := CancelAllPairs(owner, issuedAt, scope, network);
    CanonicalHead(pairs, "cancel_all");
    CanonicalSnoc(pairs, 2, "\nnetwork=");
    CanonicalSnoc(pairs, 3, "\nowner=");
    CanonicalSnoc(pairs, 4, "\nmarket_id=");
    CanonicalSnoc(pairs, 5, "\nissued_at=");
    assert pairs[..6] == pairs;
  }

  // ----- values without line breaks -----

  predicate OneLine(s: string) { '\n' !in s }

  predicate PlainPayload(o: Payload) {
    OneLine(o.owner) && OneLine(o.size) && OneLine(o.limitPrice) && OneLine(o.nonce) && OneLine(o.expiryTs)
  }

  predicate PlainPairs(pairs: Pairs) {
    pairs != [] && forall i | 0 <= i < |pairs| :: OneLine(pairs[i].0) && OneLine(pairs[i].1)
  }

  lemma LinesFree(pairs: Pairs)
    requires PlainPairs(pairs)
    ensures Free('\n', Lines(pairs)) && |Lines(pairs)| == |pairs|
  {
  }

  lemma LineInjective(p: (string, string), q: (string, string))
    requires p.0 == q.0 && Line(p) == Line(q)
    ensures p == q
  {
    assert Line(p)[|p.0| + 1..] == p.1 && Line(q)[|q.0| + 1..] == q.1;
  }

  /** Messages with different numbers of pairs, or with different lines, are different. */
  lemma CanonicalLines(a: Pairs, b: Pairs)
    requires PlainPairs(a) && PlainPairs(b) && CanonicalPairs(a) == CanonicalPairs(b)
    ensures |a| == |b| && forall i :: 0 <= i < |a| ==> Line(a[i]) == Line(b[i])
  {
    LinesFree(a);
    LinesFree(b);
    JoinInjective('\n', Lines(a), Lines(b));
    forall i | 0 <= i < |a| ensures Line(a[i]) == Line(b[i]) {
      assert Lines(a)[i] == Lines(b)[i];
    }
  }

  /** Under the same keys, a message determines its values. */
  lemma CanonicalPairsInjective(a: Pairs, b: Pairs)
    requires PlainPairs(a) && PlainPairs(b) && CanonicalPairs(a) == CanonicalPairs(b)
    requires |a| == |b| ==> forall i :: 0 <= i < |a| ==> a[i].0 == b[i].0
    ensures a == b
  {
    CanonicalLines(a, b);
    forall i | 0 <= i < |a| ensures a[i] == b[i] { LineInjective(a[i], b[i]); }
  }

  lemma ScopePlain(scope: Scope)
    ensures OneLine(scope.Text())
  {
    if scope.OneMarket? { PrintParses(scope.id); }
  }

  lemma PlacePlain(o: Payload, network: string)
    requires PlainPayload(o) && OneLine(network)
    ensures PlainPairs(PlacePairs(o, network))
  {
    PrintParses(o.marketId);
  }

  lemma PlacePairsInjective(o: Payload, n: string, p: Payload, m: string)
    requires PlacePairs(o, n) == PlacePairs(p, m)
    ensures o == p && n == m
  {
    var a, b := PlacePairs(o, n), PlacePairs(p, m);
    assert a[2] == b[2] && a[3] == b[3] && a[4] == b[4] && a[5] == b[5] && a[6] == b[6];
    assert a[7] == b[7] && a[8] == b[8] && a[9] == b[9] && a[10] == b[10];
    PrintParses(o.marketId);
    PrintParses(p.marketId);
    WordsDiffer(o.isLong, p.isLong);
    WordsDiffer(o.reduceOnly, p.reduceOnly);
  }

  /** A placed order can be read back from the message that was signed for it. */
  lemma PlaceMessageInjective(o: Payload, n: string, p: Payload, m: string)
    requires PlainPayload(o) && OneLine(n) && PlainPayload(p) && OneLine(m)
    requires PlaceMessage(o, n) == PlaceMessage(p, m)
    ensures o == p && n == m
  {
    PlacePlain(o, n);
    PlacePlain(p, m);
    CanonicalPairsInjective(PlacePairs(o, n), PlacePairs(p, m));
    PlacePairsInjective(o, n, p, m);
  }

  lemma WordsDiffer(a: bool, b: bool)
    ensures Word(a) == Word(b) ==> a == b
  {
    assert |Word(true)| == 4 && |Word(false)| == 5;
  }

  lemma CancelMessageInjective(o: string, c: string, n: string, p: string, d: string, m: string)
    requires OneLine(o) && OneLine(c) && OneLine(n) && OneLine(p) && OneLine(d) && OneLine(m)
    requires CancelMessage(o, c, n) == CancelMessage(p, d, m)
    ensures o == p && c == d && n == m
  {
    var a, b := CancelPairs(o, c, n), CancelPairs(p, d, m);
    CanonicalPairsInjective(a, b);
    assert a[2] == b[2] && a[3] == b[3] && a[4] == b[4];
  }

  /** In particular a bulk cancel of one market is not a bulk cancel of another, nor of all. */
  lemma CancelAllMessageInjective(o: string, t: string, s: Scope, n: string, p: string, u: string, r: Scope, m: string)
    requires OneLine(o) && OneLine(t) && OneLine(n) && OneLine(p) && OneLine(u) && OneLine(m)
    requires CancelAllMessage(o, t, s, n) == CancelAllMessage(p, u, r, m)
    ensures o == p && t == u && s == r && n == m
  {
    ScopePlain(s);
    ScopePlain(r);
    var a, b := CancelAllPairs(o, t, s, n), CancelAllPairs(p, u, r, m);
    CanonicalPairsInjective(a, b);
    assert a[2] == b[2] && a[3] == b[3] && a[4] == b[4] && a[5] == b[5];
    if s.OneMarket? { PrintParses(s.id); }
    if r.OneMarket? { PrintParses(r.id); }
  }

  lemma CanonicalBroken(pairs: Pairs)
    requires |pairs| > 1
    ensures !OneLine(CanonicalPairs(pairs))
  {
    JoinedHasSeparator('\n', Lines(pairs));
  }

  /**
   * No message of one kind is a message of another kind, and none of them is a settlement message
   * of a domain without line breaks.
   */
  lemma MessagesNeverCoincide(
    o: Payload, n: string, owner: string, nonce: string, m: string, issuedAt: string, scope: Scope, l: string,
    domain: string, pubkeyHex: string, q: Payload)
    requires PlainPayload(o) && OneLine(n) && OneLine(owner) && OneLine(nonce) && OneLine(m) && OneLine(issuedAt) &&
      OneLine(l)
    requires OneLine(domain) && OneLine(pubkeyHex) && PlainPayload(q)
    ensures PlaceMessage(o, n) != CancelMessage(owner, nonce, m)
    ensures PlaceMessage(o, n) != CancelAllMessage(owner, issuedAt, scope, l)
    ensures CancelMessage(owner, nonce, m) != CancelAllMessage(owner, issuedAt, scope, l)
    ensures SettlementMessage(domain, pubkeyHex, q) != PlaceMessage(o, n)
    ensures SettlementMessage(domain, pubkeyHex, q) != CancelMessage(owner, nonce, m)
    ensures SettlementMessage(domain, pubkeyHex, q) != CancelAllMessage(owner, issuedAt, scope, l)
  {
    PlacePlain(o, n);
    ScopePlain(scope);
    var a, b, c := PlacePairs(o, n), CancelPairs(owner, nonce, m), CancelAllPairs(owner, issuedAt, scope, l);
    if CanonicalPairs(a) == CanonicalPairs(b) { CanonicalLines(a, b); }
    if CanonicalPairs(a) == CanonicalPairs(c) { CanonicalLines(a, c); }
    if CanonicalPairs(b) == CanonicalPairs(c) { CanonicalLines(b, c); }
    CanonicalBroken(a);
    CanonicalBroken(b);
    CanonicalBroken(c);
    SettlementOneLine(domain, pubkeyHex, q);
  }

  lemma {:induction false} JoinOneLine(sep: char, parts: seq<string>)
    requires Free('\n', parts) && sep != '\n'
    ensures OneLine(Join(sep, parts))
  {
    if |parts| >= 1 { assert parts[0] in parts; }
    if |parts| > 1 { JoinOneLine(sep, parts[1..]); }
  }

  lemma SettlementOneLine(domain: string, pubkeyHex: string, q: Payload)
    requires OneLine(domain) && OneLine(pubkeyHex) && PlainPayload(q)
    ensures OneLine(SettlementMessage(domain, pubkeyHex, q))
  {
    PrintParses(q.marketId);
    var parts := [domain] + SettlementFields(pubkeyHex, q);
    forall p | p in parts ensures OneLine(p) {
      assert p == domain || p in SettlementFields(pubkeyHex, q);
    }
    JoinOneLine('|', parts);
  }
}
