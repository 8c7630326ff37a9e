/**
 The license issuer: the claims record, the `--features` list, the canonical payload, and the
 `SSDL1.<payload>.<signature>` token, with the checks made on the private key first.

 Loading the PEM private key and Ed25519 signing are parameters (`Signer`); the clock, the
 fresh `uuid4`, the passphrase variable and the key file's bytes are arguments.
 */
module Issuance {
  import opened Wrappers
  import Text
  import Bytes
  import Base64Url
  import opened Json
  import JsonText

  const SecondsPerDay := 86400

  /** The `exp` of a token issued at `now` for `days` days. */
  function Expiry(now: int, days: int): int {
    now + days * SecondsPerDay
  }

  /** The plans the command line accepts. */
  predicate Offered(plan: string) {
    plan == "pro" || plan == "enterprise"
  }

  // ---------------------------------------------------------------------------------------------
  // Features

  /** `[x.strip() for x in parts if x.strip()]`. */
  function Kept(parts: seq<string>): (r: seq<string>)
    ensures |r| <= |parts|
    ensures forall k :: 0 <= k < |r| ==> |r[k]| > 0 && Text.Stripped(r[k])
  {
    if |parts| == 0 then []
    else
      var t := Text.Strip(parts[0]);
      if |t| > 0 then [t] + Kept(parts[1..]) else Kept(parts[1..])
  }

  /** Stripping adds no character. */
  lemma InfixKeepsOut(s: string, c: char)
    ensures c !in s ==> c !in Text.Strip(s)
  {
    var l := Text.LStrip(s);
    var r := Text.RStrip(l);
    assert Text.Strip(s) == r;
    if c !in s {
      SliceKeepsOut(s, |s| - |l|, |s|, c);
      SliceKeepsOut(l, 0, |r|, c);
    }
  }

  /** A slice holds no character its sequence lacks. */
  lemma SliceKeepsOut(s: string, i: nat, j: nat, c: char)
    requires i <= j <= |s| && c !in s
    ensures c !in s[i..j]
  {
    forall k | 0 <= k < j - i
      ensures s[i..j][k] != c
    {
      assert s[i..j][k] == s[i + k];
    }
  }

  /** A character none of the parts holds is in none of the kept flags. */
  lemma {:induction false} KeptKeepsOut(parts: seq<string>, c: char)
    requires forall j :: 0 <= j < |parts| ==> c !in parts[j]
    ensures forall k :: 0 <= k < |Kept(parts)| ==> c !in Kept(parts)[k]
  {
    if |parts| > 0 {
      var t := Text.Strip(parts[0]);
      InfixKeepsOut(parts[0], c);
      KeptKeepsOut(parts[1..], c);
      var rest := Kept(parts[1..]);
      assert Kept(parts) == if |t| > 0 then [t] + rest else rest;
    }
  }

  /** `--features` as the list of flags: split on commas, trimmed, empty entries dropped, order kept. */
  function ParseFeatures(features: string): (r: seq<string>)
    ensures forall k :: 0 <= k < |r| ==> |r[k]| > 0 && Text.Stripped(r[k]) && ',' !in r[k]
  {
    var parts := Text.Split(features, ',');
    KeptKeepsOut(parts, ',');
    Kept(parts)
  }

  lemma {:induction false} KeptStripped(parts: seq<string>)
    requires forall k :: 0 <= k < |parts| ==> |parts[k]| > 0 && Text.Stripped(parts[k])
    ensures Kept(parts) == parts
  {
    if |parts| > 0 {
      Text.StripFixesStripped(parts[0]);
      assert [parts[0]] + parts[1..] == parts;
      KeptCons(parts[0], parts[1..]);
      KeptStripped(parts[1..]);
    }
  }

  lemma KeptCons(p: string, rest: seq<string>)
    requires |p| > 0 && Text.Strip(p) == p
    ensures Kept([p] + rest) == [p] + Kept(rest)
  {
    assert ([p] + rest)[1..] == rest;
  }

  /** Writing flags comma-separated and parsing them back gives the same flags. */
  lemma FeaturesRoundTrip(flags: seq<string>)
    requires forall k :: 0 <= k < |flags| ==> |flags[k]| > 0 && Text.Stripped(flags[k]) && ',' !in flags[k]
    ensures ParseFeatures(Text.Join(flags, ",")) == flags
  {
    if |flags| > 0 {
      Text.SplitJoin(flags, ',');
      KeptStripped(flags);
    } else {
      assert Text.Split("", ',') == [""];
      assert Text.Strip("") == "";
    }
  }

  // ---------------------------------------------------------------------------------------------
  // Claims, payload and token

  /** The claims dict in insertion order; `features` only when the list is not empty. */
  function BuildClaims(jti: string, plan: string, customer: string, now: int, days: int, features: seq<string>)
    : (r: Json)
    ensures r.JObj?
  {
    var base := [("v", JInt(1)), ("jti", JStr(jti)), ("plan", JStr(plan)), ("sub", JStr(customer)),
                 ("iat", JInt(now)), ("nbf", JInt(now)), ("exp", JInt(Expiry(now, days)))];
    JObj(if |features| > 0 then base + [("features", JArr(Strings(features)))] else base)
  }

  /** No claim is written twice. */
  lemma ClaimsDistinct(jti: string, plan: string, customer: string, now: int, days: int, features: seq<string>)
    ensures DistinctKeys(BuildClaims(jti, plan, customer, now, days, features).fields)
  {
    var f := BuildClaims(jti, plan, customer, now, days, features).fields;
    assert Keys(f) == ["v", "jti", "plan", "sub", "iat", "nbf", "exp"] + (if |features| > 0 then ["features"] else []);
  }

  /** The identity claims: version 1, the fresh jti, the plan and the customer. */
  lemma ClaimsIdentity(jti: string, plan: string, customer: string, now: int, days: int, features: seq<string>)
    ensures var f := BuildClaims(jti, plan, customer, now, days, features).fields;
      && Lookup(f, "v") == Some(JInt(1))
      && Lookup(f, "jti") == Some(JStr(jti))
      && Lookup(f, "plan") == Some(JStr(plan))
      && Lookup(f, "sub") == Some(JStr(customer))
  {
    var f := BuildClaims(jti, plan, customer, now, days, features).fields;
    ClaimsDistinct(jti, plan, customer, now, days, features);
    LookupDistinct(f, 0);
    LookupDistinct(f, 1);
    LookupDistinct(f, 2);
    LookupDistinct(f, 3);
  }

  /** The validity window: issued and valid from `now`, expiring `days` days later. */
  lemma ClaimsWindow(jti: string, plan: string, customer: string, now: int, days: int, features: seq<string>)
    ensures var f := BuildClaims(jti, plan, customer, now, days, features).fields;
      && Lookup(f, "iat") == Some(JInt(now))
      && Lookup(f, "nbf") == Some(JInt(now))
      && Lookup(f, "exp") == Some(JInt(Expiry(now, days)))
  {
    var f := BuildClaims(jti, plan, customer, now, days, features).fields;
    ClaimsDistinct(jti, plan, customer, now, days, features);
    LookupDistinct(f, 4);
    LookupDistinct(f, 5);
    LookupDistinct(f, 6);
  }

  /** `features` is written exactly when the list is not empty, and then holds the list. */
  lemma ClaimsFeatures(jti: string, plan: string, customer: string, now: int, days: int, features: seq<string>)
    ensures var f := BuildClaims(jti, plan, customer, now, days, features).fields;
      && (HasKey(f, "features") <==> |features| > 0)
      && (|features| > 0 ==> Lookup(f, "features") == Some(JArr(Strings(features))))
  {
    var f := BuildClaims(jti, plan, customer, now, days, features).fields;
    ClaimsDistinct(jti, plan, customer, now, days, features);
    if |features| > 0 {
      LookupDistinct(f, 7);
    } else {
      assert Keys(f) == ["v", "jti", "plan", "sub", "iat", "nbf", "exp"];
    }
  }

  /** `json.dumps(claims, sort_keys=True, separators=(",", ":")).encode("utf-8")`. */
  function Payload(claims: Json): (r: seq<Bytes.byte>)
    ensures forall k :: 0 <= k < |r| ==> r[k] < 128
  {
    Bytes.AsciiBytes(JsonText.Dumps(JsonText.Canonical, claims))
  }

  /** Equal claims give byte-identical payloads, however their keys were inserted. */
  lemma PayloadIsCanonical(a: seq<(string, Json)>, b: seq<(string, Json)>)
    requires forall k :: Lookup(a, k) == Lookup(b, k)
    ensures Payload(JObj(a)) == Payload(JObj(b))
  {
    JsonText.CanonicalIgnoresInsertionOrder(a, b);
  }

  /** `f"SSDL1.{b64url_encode(payload)}.{b64url_encode(signature)}"`. */
  function Token(payload: seq<Bytes.byte>, signature: seq<Bytes.byte>): (r: string)
    ensures Text.Split(r, '.') == ["SSDL1", Base64Url.Encode(payload), Base64Url.Encode(signature)]
  {
    var p := Base64Url.Encode(payload);
    var s := Base64Url.Encode(signature);
    JoinThree("SSDL1", p, s, ['.']);
    Text.SplitJoin(["SSDL1", p, s], '.');
    "SSDL1" + ['.'] + p + ['.'] + s
  }

  lemma JoinThree(a: string, b: string, c: string, sep: string)
    ensures Text.Join([a, b, c], sep) == a + sep + b + sep + c
  {
    assert [a, b, c][1..] == [b, c];
    assert [b, c][1..] == [c];
    assert Text.Join([b, c], sep) == b + sep + c;
    assert a + sep + (b + sep + c) == a + sep + b + sep + c;
  }

  // ---------------------------------------------------------------------------------------------
  // Issuing

  /** An Ed25519 private key, by its raw bytes. */
  datatype PrivateKey = PrivateKey(raw: seq<Bytes.byte>)

  /** What `load_pem_private_key` does with the key bytes and the password: raise (a wrong or
      missing password, bytes that are not a key), or return an Ed25519 key or another key. */
  datatype PrivateLoad = LoadFailed | Ed25519Private(key: PrivateKey) | OtherPrivate

  /** The library code the issuer calls: the loader, given the passphrase when one is set (it
      receives its UTF-8 bytes), and Ed25519 signing. */
  datatype Signer = Signer(
    loadPrivate: (seq<Bytes.byte>, Option<string>) -> PrivateLoad,
    sign: (PrivateKey, seq<Bytes.byte>) -> seq<Bytes.byte>)

  /** Why no token was issued; each ends the command with an error. */
  datatype IssueError =
    | PlanNotOffered              // argparse rejects the `--plan` choice
    | KeyUnreadable               // `read_bytes` raises
    | EncryptedWithoutPassphrase  // the `SystemExit` before the key is loaded
    | KeyLoadFailed               // `load_pem_private_key` raises
    | NotEd25519                  // the `ValueError` for another key type

  /** The command line's arguments that shape the token. */
  datatype Request = Request(plan: string, customer: string, days: int, features: string)

  /** An issued license: the claims, the signed payload, its signature and the token. */
  datatype Issued = Issued(claims: Json, payload: seq<Bytes.byte>, signature: seq<Bytes.byte>, token: string)

  /** Serialises, signs and wraps the claims. */
  function Seal(claims: Json, key: PrivateKey, signer: Signer): (r: Issued)
    ensures r.claims == claims && r.payload == Payload(claims)
    ensures r.signature == signer.sign(key, r.payload)
    ensures Text.Split(r.token, '.') == ["SSDL1", Base64Url.Encode(r.payload), Base64Url.Encode(r.signature)]
  {
    var payload := Payload(claims);
    var signature := signer.sign(key, payload);
    Issued(claims, payload, signature, Token(payload, signature))
  }

  /** The key bytes hold the text `ENCRYPTED`, the mark of an encrypted PEM key. */
  predicate MarkedEncrypted(keyBytes: seq<Bytes.byte>) {
    Text.HasRun(keyBytes, Bytes.AsciiBytes("ENCRYPTED"))
  }

  /** The `password` argument: the passphrase's bytes when it is set and not empty, else `None`. */
  function Password(passphrase: Option<string>): (r: Option<string>)
    ensures r.Some? <==> passphrase.Some? && passphrase.value != ""
    ensures r.Some? ==> r == passphrase
  {
    if passphrase.GetOr("") == "" then None else passphrase
  }

  /** `main` up to the token: `keyBytes` is `None` when the key file cannot be read, `passphrase`
      the variable's value if set. */
  function Issue(req: Request, keyBytes: Option<seq<Bytes.byte>>, passphrase: Option<string>,
                 now: int, jti: string, signer: Signer): (r: Result<Issued, IssueError>)
    ensures r.Ok? ==> Offered(req.plan)
    ensures r == Err(EncryptedWithoutPassphrase) <==>
      Offered(req.plan) && keyBytes.Some? && passphrase.GetOr("") == "" && MarkedEncrypted(keyBytes.value)
    ensures r.Ok? ==> keyBytes.Some? && signer.loadPrivate(keyBytes.value, Password(passphrase)).Ed25519Private?
    ensures r.Ok? ==> r.value.signature == signer.sign(signer.loadPrivate(keyBytes.value, Password(passphrase)).key, r.value.payload)
    ensures r.Ok? ==> r.value.claims == BuildClaims(jti, req.plan, req.customer, now, req.days, ParseFeatures(req.features))
    ensures r.Ok? ==> r.value.payload == Payload(r.value.claims)
    ensures r.Ok? ==>
      Text.Split(r.value.token, '.') == ["SSDL1", Base64Url.Encode(r.value.payload), Base64Url.Encode(r.value.signature)]
  {
    if !Offered(req.plan) then Err(PlanNotOffered)
    else if keyBytes.None? then Err(KeyUnreadable)
    else
      var pass := passphrase.GetOr("");
      if pass == "" && MarkedEncrypted(keyBytes.value) then Err(EncryptedWithoutPassphrase)
      else
        match signer.loadPrivate(keyBytes.value, Password(passphrase))
        case LoadFailed => Err(KeyLoadFailed)
        case OtherPrivate => Err(NotEd25519)
        case Ed25519Private(key) =>
          Ok(Seal(BuildClaims(jti, req.plan, req.customer, now, req.days, ParseFeatures(req.features)), key, signer))
  }

  /** An encrypted key is never handed to the loader without a passphrase. */
  lemma EncryptedKeyNeedsPassphrase(req: Request, keyBytes: seq<Bytes.byte>, now: int, jti: string, signer: Signer)
    requires Offered(req.plan) && MarkedEncrypted(keyBytes)
    ensures Issue(req, Some(keyBytes), None, now, jti, signer) == Err(EncryptedWithoutPassphrase)
    ensures Issue(req, Some(keyBytes), Some(""), now, jti, signer) == Err(EncryptedWithoutPassphrase)
  {
  }

  /** The file `--out` receives. */
  function TokenFile(iss: Issued): string {
    iss.token + "\n"
  }

  /** The claims report printed last: `json.dumps({"claims": claims}, indent=2)`. */
  function ClaimsReport(iss: Issued): (r: string)
    ensures Text.IsAscii(r)
  {
    JsonText.Dumps(JsonText.Pretty, JObj([("claims", iss.claims)]))
  }
}
