/**
 The license lifecycle across its three tools: a token the issuer signs is accepted by the
 validator for its whole validity window, and once the ledger revokes its jti the validator
 refuses it.

 What the two sides must agree on is stated as a requirement on the library parameters: the
 public key verifies what the private key signs (correctness of Ed25519, section 5.1 of
 RFC 8032), and `json.loads` reads the canonical payload back as a dict holding the claims in
 the order the payload writes them.
 */
module Lifecycle {
  import opened Wrappers
  import Text
  import Bytes
  import Base64Url
  import opened Json
  import Order
  import JsonText
  import Licensing
  import Issuance
  import Ledger

  /** The public key verifies every signature the private key makes. */
  ghost predicate KeyPair(pk: Licensing.PublicKey, sk: Issuance.PrivateKey, prims: Licensing.Primitives, signer: Issuance.Signer) {
    forall msg :: prims.verify(pk, signer.sign(sk, msg), msg)
  }

  /** The private key the issuer loaded. */
  function SigningKey(keyBytes: seq<Bytes.byte>, passphrase: Option<string>, signer: Issuance.Signer): Issuance.PrivateKey
    requires signer.loadPrivate(keyBytes, Issuance.Password(passphrase)).Ed25519Private?
  {
    signer.loadPrivate(keyBytes, Issuance.Password(passphrase)).key
  }

  /** The dict `json.loads` builds from the issuer's payload. The payload writes the claims
      with their keys sorted and `loads` keeps the order of the document, so the dict holds the
      same members sorted by key; the claims hold no nested dict, so nothing deeper moves. */
  function Reloaded(claims: Json): (r: Json)
    requires claims.JObj?
    ensures r.JObj? && forall k :: Lookup(r.fields, k) == Lookup(claims.fields, k)
    ensures Keys(r.fields) == Order.SortedDistinct(Keys(claims.fields))
  {
    JsonText.MembersKeepAllLookups(JsonText.Canonical, claims.fields);
    JObj(JsonText.Members(JsonText.Canonical, claims.fields))
  }

  /** The four stages of the envelope pass on an issued token and hand over the claims as
      `json.loads` reads them. */
  lemma IssuedTokenOpens(iss: Issuance.Issued, sk: Issuance.PrivateKey, pk: Licensing.PublicKey,
                         prims: Licensing.Primitives, signer: Issuance.Signer)
    requires Text.Split(iss.token, '.') == ["SSDL1", Base64Url.Encode(iss.payload), Base64Url.Encode(iss.signature)]
    requires iss.signature == signer.sign(sk, iss.payload)
    requires KeyPair(pk, sk, prims, signer)
    requires iss.claims.JObj? && prims.loads(iss.payload) == Ok(Reloaded(iss.claims))
    ensures Licensing.Open(iss.token, pk, prims) == Licensing.Opened(Reloaded(iss.claims))
  {
    Base64Url.RoundTrip(iss.payload);
    Base64Url.RoundTrip(iss.signature);
    assert Licensing.Decodes(iss.token);
    assert Licensing.PayloadBytes(iss.token) == iss.payload;
    assert Licensing.SignatureBytes(iss.token) == iss.signature;
  }

  /** The claims the issuer writes pass every check of the validator at any time from `nbf` to
      `exp`, unless their jti is revoked. */
  lemma IssuedClaimsPass(jti: string, plan: string, customer: string, issuedAt: int, days: int,
                         features: seq<string>, revoked: set<Json>, now: int)
    requires Issuance.Offered(plan)
    requires issuedAt <= now <= Issuance.Expiry(issuedAt, days)
    requires JStr(jti) !in revoked
    ensures var claims := Issuance.BuildClaims(jti, plan, customer, issuedAt, days, features);
      Licensing.CheckClaims(claims, revoked, now) == Ok(Licensing.Verdict(true, plan, Licensing.Passed, Some(claims)))
    ensures var loaded := Reloaded(Issuance.BuildClaims(jti, plan, customer, issuedAt, days, features));
      Licensing.CheckClaims(loaded, revoked, now) == Ok(Licensing.Verdict(true, plan, Licensing.Passed, Some(loaded)))
  {
    var claims := Issuance.BuildClaims(jti, plan, customer, issuedAt, days, features);
    Issuance.ClaimsIdentity(jti, plan, customer, issuedAt, days, features);
    Issuance.ClaimsWindow(jti, plan, customer, issuedAt, days, features);
    ChecksFromLookups(claims, plan, jti, issuedAt, Issuance.Expiry(issuedAt, days), revoked, now);
    ChecksFromLookups(Reloaded(claims), plan, jti, issuedAt, Issuance.Expiry(issuedAt, days), revoked, now);
  }

  /** The checks on claims that carry an offered plan, a jti and a window holding `now`. */
  lemma ChecksFromLookups(claims: Json, plan: string, jti: string, issuedAt: int, expiry: int,
                          revoked: set<Json>, now: int)
    requires claims.JObj? && Issuance.Offered(plan)
    requires issuedAt <= now <= expiry
    requires Lookup(claims.fields, "jti") == Some(JStr(jti))
    requires Lookup(claims.fields, "plan") == Some(JStr(plan))
    requires Lookup(claims.fields, "nbf") == Some(JInt(issuedAt))
    requires Lookup(claims.fields, "exp") == Some(JInt(expiry))
    ensures JStr(jti) !in revoked ==> Licensing.CheckClaims(claims, revoked, now) == Ok(Licensing.Verdict(true, plan, Licensing.Passed, Some(claims)))
    ensures |jti| > 0 && JStr(jti) in revoked ==> Licensing.CheckClaims(claims, revoked, now) == Ok(Licensing.RejectWith(Licensing.Revoked, claims))
  {
    FieldsFromLookups(claims.fields, plan, jti, issuedAt, expiry, revoked, now);
    if JStr(jti) !in revoked {
      Licensing.ChecksPass(claims, revoked, now);
    } else if |jti| > 0 {
      Licensing.ChecksRevoke(claims, revoked, now);
    }
  }

  /** What the validator reads from claims with those members. */
  lemma FieldsFromLookups(fields: seq<(string, Json)>, plan: string, jti: string, issuedAt: int, expiry: int,
                          revoked: set<Json>, now: int)
    requires Issuance.Offered(plan)
    requires issuedAt <= now <= expiry
    requires Lookup(fields, "jti") == Some(JStr(jti))
    requires Lookup(fields, "plan") == Some(JStr(plan))
    requires Lookup(fields, "nbf") == Some(JInt(issuedAt))
    requires Lookup(fields, "exp") == Some(JInt(expiry))
    ensures Licensing.Plan(fields) == plan && Licensing.KnownPlan(plan)
    ensures Licensing.NotExpired(fields, now) && Licensing.Started(fields, now)
    ensures Licensing.RevokedBy(fields, revoked) <==> |jti| > 0 && JStr(jti) in revoked
  {
    PlanFromLookup(fields, plan);
    WindowFromLookups(fields, issuedAt, expiry, now);
    JtiFromLookup(fields, jti, revoked);
  }

  lemma PlanFromLookup(fields: seq<(string, Json)>, plan: string)
    requires Issuance.Offered(plan) && Lookup(fields, "plan") == Some(JStr(plan))
    ensures Licensing.Plan(fields) == plan && Licensing.KnownPlan(plan)
  {
    assert GetOr(fields, "plan", JStr("free")) == JStr(plan);
    LowerOffered(plan);
  }

  lemma WindowFromLookups(fields: seq<(string, Json)>, issuedAt: int, expiry: int, now: int)
    requires issuedAt <= now <= expiry
    requires Lookup(fields, "nbf") == Some(JInt(issuedAt)) && Lookup(fields, "exp") == Some(JInt(expiry))
    ensures Licensing.NotExpired(fields, now) && Licensing.Started(fields, now)
  {
    assert Licensing.Bound(fields, "exp") == Some(Ok(expiry));
    assert Licensing.Bound(fields, "nbf") == Some(Ok(issuedAt));
  }

  lemma JtiFromLookup(fields: seq<(string, Json)>, jti: string, revoked: set<Json>)
    requires Lookup(fields, "jti") == Some(JStr(jti))
    ensures Licensing.RevokedBy(fields, revoked) <==> |jti| > 0 && JStr(jti) in revoked
  {
    assert GetOr(fields, "jti", JNull) == JStr(jti);
  }

  lemma LowerOffered(plan: string)
    requires Issuance.Offered(plan)
    ensures Text.Lower(plan) == plan
  {
    Text.LowerFixes(plan);
  }

  /** Issue, then validate: with the matching public key, at a time inside the validity window
      and with the jti not revoked, the issued token is accepted with the plan as its tier. */
  lemma IssueThenValidate(req: Issuance.Request, keyBytes: seq<Bytes.byte>, passphrase: Option<string>,
                          issuedAt: int, jti: string, signer: Issuance.Signer,
                          pk: Licensing.PublicKey, prims: Licensing.Primitives, revoked: set<Json>, now: int)
    requires Issuance.Issue(req, Some(keyBytes), passphrase, issuedAt, jti, signer).Ok?
    requires KeyPair(pk, SigningKey(keyBytes, passphrase, signer), prims, signer)
    requires var iss := Issuance.Issue(req, Some(keyBytes), passphrase, issuedAt, jti, signer).value;
      prims.loads(iss.payload) == Ok(Reloaded(iss.claims))
    requires issuedAt <= now <= Issuance.Expiry(issuedAt, req.days)
    requires JStr(jti) !in revoked
    ensures var iss := Issuance.Issue(req, Some(keyBytes), passphrase, issuedAt, jti, signer).value;
      Licensing.ValidateSignedToken(iss.token, pk, revoked, now, prims)
        == Ok(Licensing.Verdict(true, req.plan, Licensing.Passed, Some(Reloaded(iss.claims))))
  {
    var iss := Issuance.Issue(req, Some(keyBytes), passphrase, issuedAt, jti, signer).value;
    IssuedTokenOpens(iss, SigningKey(keyBytes, passphrase, signer), pk, prims, signer);
    IssuedClaimsPass(jti, req.plan, req.customer, issuedAt, req.days, Issuance.ParseFeatures(req.features), revoked, now);
  }

  /** What the validator loads from the file the ledger writes: a set holding the revoked jti. */
  lemma LedgerFeedsValidator(f: JsonFile, jti: string)
    requires Ledger.Revoke(f, jti).Ok?
    ensures var doc := Ledger.Revoke(f, jti).value;
      Licensing.LoadRevocations(Parsed(doc)).Some? && JStr(jti) in Licensing.LoadRevocations(Parsed(doc)).value
    ensures var doc := Ledger.Revoke(f, jti).value;
      Licensing.LoadRevocationsAsWritten(Parsed(doc)) == Ok(Licensing.LoadRevocations(Parsed(doc)))
  {
    var doc := Ledger.Revoke(f, jti).value;
    var ids := Ledger.Ids(doc).value;
    var items := GetOr(doc.fields, Ledger.ListKey, JArr([])).items;
    assert |items| > 0;
    assert HasKey(doc.fields, Ledger.ListKey);
    assert Licensing.Listed(doc) == Some(items);
    assert forall k :: 0 <= k < |items| ==> Hashable(items[k]);
    Ledger.InStringsOf(items, jti);
    Licensing.LoadRevocationsAgrees(Parsed(doc));
  }

  /** Revoke, then validate: once the ledger has revoked an issued token's jti and the validator
      reads that ledger, the token is refused as revoked for the rest of its window. */
  lemma RevokeThenValidate(req: Issuance.Request, keyBytes: seq<Bytes.byte>, passphrase: Option<string>,
                           issuedAt: int, jti: string, signer: Issuance.Signer,
                           pk: Licensing.PublicKey, prims: Licensing.Primitives, ledger: JsonFile, now: int)
    requires Issuance.Issue(req, Some(keyBytes), passphrase, issuedAt, jti, signer).Ok?
    requires KeyPair(pk, SigningKey(keyBytes, passphrase, signer), prims, signer)
    requires var iss := Issuance.Issue(req, Some(keyBytes), passphrase, issuedAt, jti, signer).value;
      prims.loads(iss.payload) == Ok(Reloaded(iss.claims))
    requires issuedAt <= now <= Issuance.Expiry(issuedAt, req.days)
    requires |jti| > 0 && Ledger.Revoke(ledger, jti).Ok?
    ensures Licensing.LoadRevocations(Parsed(Ledger.Revoke(ledger, jti).value)).Some?
    ensures var iss := Issuance.Issue(req, Some(keyBytes), passphrase, issuedAt, jti, signer).value;
      var revoked := Licensing.LoadRevocations(Parsed(Ledger.Revoke(ledger, jti).value)).value;
      Licensing.ValidateSignedToken(iss.token, pk, revoked, now, prims)
        == Ok(Licensing.RejectWith(Licensing.Revoked, Reloaded(iss.claims)))
  {
    var iss := Issuance.Issue(req, Some(keyBytes), passphrase, issuedAt, jti, signer).value;
    LedgerFeedsValidator(ledger, jti);
    var revoked := Licensing.LoadRevocations(Parsed(Ledger.Revoke(ledger, jti).value)).value;
    IssuedTokenOpens(iss, SigningKey(keyBytes, passphrase, signer), pk, prims, signer);
    IssuedClaimsRevoked(jti, req.plan, req.customer, issuedAt, req.days, Issuance.ParseFeatures(req.features), revoked, now);
  }

  /** The reloaded claims of a token whose jti is revoked are refused as revoked from `nbf` to `exp`. */
  lemma IssuedClaimsRevoked(jti: string, plan: string, customer: string, issuedAt: int, days: int,
                            features: seq<string>, revoked: set<Json>, now: int)
    requires Issuance.Offered(plan)
    requires issuedAt <= now <= Issuance.Expiry(issuedAt, days)
    requires |jti| > 0 && JStr(jti) in revoked
    ensures var loaded := Reloaded(Issuance.BuildClaims(jti, plan, customer, issuedAt, days, features));
      Licensing.CheckClaims(loaded, revoked, now) == Ok(Licensing.RejectWith(Licensing.Revoked, loaded))
  {
    var claims := Issuance.BuildClaims(jti, plan, customer, issuedAt, days, features);
    Issuance.ClaimsIdentity(jti, plan, customer, issuedAt, days, features);
    Issuance.ClaimsWindow(jti, plan, customer, issuedAt, days, features);
    ChecksFromLookups(Reloaded(claims), plan, jti, issuedAt, Issuance.Expiry(issuedAt, days), revoked, now);
  }
}
