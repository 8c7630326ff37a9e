/**
 The license validator: the revocation and public-key loaders, the ordered checks of a
 signed `SSDL1.<payload>.<signature>` token, the legacy `ENT-`/`PRO-` prefix path, and the
 decision `main` prints as one JSON line.

 Ed25519 verification, PEM parsing and `json.loads` are parameters (`Primitives`); the
 clock, the `LICENSE_KEY` variable, `uuid4` and the two files are arguments.
 */
module Licensing {
  import opened Wrappers
  import Text
  import Decimal
  import Bytes
  import Base64Url
  import opened Json
  import JsonText

  /** Why the validator decided as it did; `Passed` is the reason `"ok"`. */
  datatype Reason =
    | NoKey
    | RevocationLoadError
    | MissingPublicKey
    | InvalidFormat
    | InvalidEncoding
    | InvalidSignature
    | InvalidPayload
    | InvalidPlan
    | Expired
    | NotYetValid
    | Revoked
    | Passed
    | LegacyPrefix
    | UnknownLegacyKey

  /** The `reason` string written for each reason. */
  function ReasonText(r: Reason): string {
    match r
    case NoKey => "no_key"
    case RevocationLoadError => "revocation_load_error"
    case MissingPublicKey => "missing_public_key"
    case InvalidFormat => "invalid_format"
    case InvalidEncoding => "invalid_encoding"
    case InvalidSignature => "invalid_signature"
    case InvalidPayload => "invalid_payload"
    case InvalidPlan => "invalid_plan"
    case Expired => "expired"
    case NotYetValid => "not_yet_valid"
    case Revoked => "revoked"
    case Passed => "ok"
    case LegacyPrefix => "legacy_prefix"
    case UnknownLegacyKey => "unknown_legacy_key"
  }

  /** The reason strings are pairwise distinct, so comparing the written string (as `main` does
      with `"invalid_format"`) is comparing reasons. */
  lemma ReasonTextInjective(a: Reason, b: Reason)
    ensures ReasonText(a) == ReasonText(b) <==> a == b
  {
  }

  /** The result record `{valid, tier, reason[, claims]}`. */
  datatype Verdict = Verdict(valid: bool, tier: string, reason: Reason, claims: Option<Json>)

  /** A refusal without claims. */
  function Reject(reason: Reason): Verdict {
    Verdict(false, "free", reason, None)
  }

  /** A refusal that echoes the claims it read. */
  function RejectWith(reason: Reason, claims: Json): Verdict {
    Verdict(false, "free", reason, Some(claims))
  }

  /** The record as the dict the validator builds, keys in insertion order. */
  function VerdictJson(v: Verdict): (r: Json)
    ensures r.JObj? && DistinctKeys(r.fields)
    ensures Keys(r.fields) == ["valid", "tier", "reason"] + (if v.claims.Some? then ["claims"] else [])
  {
    var base := [("valid", JBool(v.valid)), ("tier", JStr(v.tier)), ("reason", JStr(ReasonText(v.reason)))];
    JObj(if v.claims.Some? then base + [("claims", v.claims.value)] else base)
  }

  /** The reason a written `reason` string stands for. */
  function ReasonOf(s: string): (r: Option<Reason>)
    ensures r.Some? ==> ReasonText(r.value) == s
  {
    if s == "no_key" then Some(NoKey)
    else if s == "revocation_load_error" then Some(RevocationLoadError)
    else if s == "missing_public_key" then Some(MissingPublicKey)
    else if s == "invalid_format" then Some(InvalidFormat)
    else if s == "invalid_encoding" then Some(InvalidEncoding)
    else if s == "invalid_signature" then Some(InvalidSignature)
    else if s == "invalid_payload" then Some(InvalidPayload)
    else if s == "invalid_plan" then Some(InvalidPlan)
    else if s == "expired" then Some(Expired)
    else if s == "not_yet_valid" then Some(NotYetValid)
    else if s == "revoked" then Some(Revoked)
    else if s == "ok" then Some(Passed)
    else if s == "legacy_prefix" then Some(LegacyPrefix)
    else if s == "unknown_legacy_key" then Some(UnknownLegacyKey)
    else None
  }

  /** Reads a result record back from its dict, the way a consumer of the printed line would. */
  function VerdictOf(j: Json): Option<Verdict> {
    if !j.JObj? || |j.fields| < 3 || |j.fields| > 4 then None
    else
      var f := j.fields;
      if f[0].0 != "valid" || !f[0].1.JBool? || f[1].0 != "tier" || !f[1].1.JStr?
        || f[2].0 != "reason" || !f[2].1.JStr? then None
      else
        match ReasonOf(f[2].1.s)
        case None => None
        case Some(reason) =>
          if |f| == 3 then Some(Verdict(f[0].1.b, f[1].1.s, reason, None))
          else if f[3].0 == "claims" then Some(Verdict(f[0].1.b, f[1].1.s, reason, Some(f[3].1)))
          else None
  }

  /** The dict loses nothing of the record. */
  lemma VerdictJsonRoundTrip(v: Verdict)
    ensures VerdictOf(VerdictJson(v)) == Some(v)
  {
    var r := v.reason;
    assert ReasonOf(ReasonText(r)) == Some(r) by {
      ReasonTextInjective(ReasonOf(ReasonText(r)).GetOr(r), r);
    }
  }

  /** An Ed25519 public key, by its raw bytes. */
  datatype PublicKey = PublicKey(raw: seq<Bytes.byte>)

  /** What `load_pem_public_key` makes of a PEM text: no key at all (it raised), an Ed25519 key,
      or a key of another algorithm. */
  datatype PemKey = NotAKey | Ed25519Key(key: PublicKey) | OtherKey

  /** Why `json.loads(payload.decode("utf-8"))` gives up: the bytes are not UTF-8, or
      `json.loads` cannot read the text. */
  datatype PayloadFailure = NotUtf8 | Unparsed(why: ParseFailure)

  /** The failures the payload handler catches: `UnicodeDecodeError` and `JSONDecodeError`. */
  predicate Caught(p: PayloadFailure) {
    p.NotUtf8? || p.why.BadSyntax?
  }

  /** The library code the validator calls: `public_key.verify(signature, payload)` (false where
      it raises `InvalidSignature`), `json.loads(payload.decode("utf-8"))` (with the failure
      where it raises) and `load_pem_public_key`. */
  datatype Primitives = Primitives(
    verify: (PublicKey, seq<Bytes.byte>, seq<Bytes.byte>) -> bool,
    loads: seq<Bytes.byte> -> Result<Json, PayloadFailure>,
    loadPem: string -> PemKey)

  // ---------------------------------------------------------------------------------------------
  // Loading the revocation list

  /** `load_revocations` as written. The handler catches only `JSONDecodeError` and `OSError`, so
      three failures escape it: a file that is not UTF-8 raises `UnicodeDecodeError`, text that
      `json.loads` refuses with a plain `ValueError` (an over-long integer) or a `RecursionError`
      (deep nesting) raises that, and a `revoked_jti` list holding a list or a dict makes `set()`
      raise `TypeError`. */
  function LoadRevocationsAsWritten(f: JsonFile): (r: Result<Option<set<Json>>, PyError>)
    ensures r.Err? <==>
      || f.Undecodable?
      || (f.Malformed? && !f.why.BadSyntax?)
      || (f.Parsed? && !Listed(f.doc).None? && !Hashables(Listed(f.doc).value))
    ensures f.Malformed? && !f.why.BadSyntax? ==> r == Err(Raised(f.why))
    ensures f.Parsed? && r.Err? ==> r == Err(TypeError)
  {
    match f
    case Missing => Ok(Some({}))
    case Unreadable => Ok(None)
    case Undecodable => Err(UnicodeDecodeError)
    case Malformed(why) => if why.BadSyntax? then Ok(None) else Err(Raised(why))
    case Parsed(doc) =>
      match Listed(doc)
      case None => Ok(None)
      case Some(items) => if Hashables(items) then Ok(Some(set x | x in items)) else Err(TypeError)
  }

  /** The list a parsed revocation document names, when it names one: a dict with `revoked_jti`
      absent or `null` names the empty list. */
  function Listed(doc: Json): (r: Option<seq<Json>>)
    ensures r.Some? ==> doc.JObj?
  {
    if !doc.JObj? then None
    else
      var revoked := GetOr(doc.fields, "revoked_jti", JNull);
      if revoked.JNull? then Some([])
      else if revoked.JArr? then Some(revoked.items)
      else None
  }

  predicate Hashables(items: seq<Json>) {
    forall k :: 0 <= k < |items| ==> Hashable(items[k])
  }

  /** A UTF-8 error while reading escapes `load_revocations` and ends the validator with a
      traceback instead of the fail-closed result. */
  lemma UndecodableRevocationsCrash()
    ensures LoadRevocationsAsWritten(Undecodable) == Err(UnicodeDecodeError)
  {
  }

  /** So does a revocations file that `json.loads` refuses with anything but `JSONDecodeError`: an
      integer literal of more than 4,300 digits raises `ValueError`, and nesting too deep for the
      parser raises `RecursionError`. */
  lemma UnparsableRevocationsCrash()
    ensures LoadRevocationsAsWritten(Malformed(OverlongInteger)) == Err(ValueError)
    ensures LoadRevocationsAsWritten(Malformed(TooDeep)) == Err(RecursionError)
    ensures LoadRevocationsAsWritten(Malformed(BadSyntax)) == Ok(None)
  {
  }

  /** So does a revocation list with a list inside it. */
  lemma NestedRevocationListCrashes()
    ensures LoadRevocationsAsWritten(Parsed(JObj([("revoked_jti", JArr([JArr([])]))]))) == Err(TypeError)
  {
    var doc := JObj([("revoked_jti", JArr([JArr([])]))]);
    assert Lookup(doc.fields, "revoked_jti") == Some(JArr([JArr([])]));
    assert !Hashable(JArr([JArr([])]).items[0]);
  }

  /** `load_revocations` as its contract describes it: the revoked ids, or `None` whenever the file
      cannot be read or does not hold a list of ids. It never raises. */
  function LoadRevocations(f: JsonFile): (r: Option<set<Json>>)
    ensures f.Missing? ==> r == Some({})
    ensures r.None? <==> !f.Missing? && (!f.Parsed? || Listed(f.doc).None? || !Hashables(Listed(f.doc).value))
    ensures r.Some? && f.Parsed? ==> r.value == set x | x in Listed(f.doc).value
    ensures r.Some? ==> forall x :: x in r.value ==> Hashable(x)
  {
    match f
    case Missing => Some({})
    case Parsed(doc) =>
      (match Listed(doc)
       case None => None
       case Some(items) => if Hashables(items) then Some(set x | x in items) else None)
    case _ => None
  }

  /** Wherever the code as written returns, the corrected loader returns the same. */
  lemma LoadRevocationsAgrees(f: JsonFile)
    ensures LoadRevocationsAsWritten(f).Ok? ==> LoadRevocationsAsWritten(f).value == LoadRevocations(f)
  {
  }

  /** A document whose `revoked_jti` is absent or `null` revokes nothing. */
  lemma AbsentListRevokesNothing(fields: seq<(string, Json)>)
    requires !HasKey(fields, "revoked_jti") || Lookup(fields, "revoked_jti") == Some(JNull)
    ensures LoadRevocations(Parsed(JObj(fields))) == Some({})
  {
    assert Listed(JObj(fields)) == Some([]);
    assert (set x: Json | x in []) == {};
  }

  // ---------------------------------------------------------------------------------------------
  // Loading the public key

  /** What reading the public-key file meets: no file, a read failure, bytes that are not
      UTF-8, or the PEM text. */
  datatype KeyFile = NoKeyFile | KeyUnreadable | KeyUndecodable | KeyText(pem: string)

  /** The text shipped in the key file until a real key replaces it. */
  const Placeholder := "REPLACE_WITH_YOUR_ED25519_PUBLIC_KEY"

  /** `load_public_key`: `None` for a missing file, the placeholder or text that is not a key;
      the read errors and a key of another algorithm (`ValueError`) escape. */
  function LoadPublicKey(f: KeyFile, prims: Primitives): (r: Result<Option<PublicKey>, PyError>)
    ensures (r.Ok? && r.value.Some?) <==>
      f.KeyText? && !Text.HasRun(f.pem, Placeholder) && prims.loadPem(f.pem).Ed25519Key?
    ensures r.Ok? && r.value.Some? ==> r.value.value == prims.loadPem(f.pem).key
    ensures r.Err? <==>
      f.KeyUnreadable? || f.KeyUndecodable? || (f.KeyText? && !Text.HasRun(f.pem, Placeholder) && prims.loadPem(f.pem).OtherKey?)
    ensures f.NoKeyFile? || (f.KeyText? && Text.HasRun(f.pem, Placeholder)) ==> r == Ok(None)
  {
    match f
    case NoKeyFile => Ok(None)
    case KeyUnreadable => Err(OSError)
    case KeyUndecodable => Err(UnicodeDecodeError)
    case KeyText(pem) =>
      if Text.HasRun(pem, Placeholder) then Ok(None)
      else
        match prims.loadPem(pem)
        case NotAKey => Ok(None)
        case OtherKey => Err(ValueError)
        case Ed25519Key(key) => Ok(Some(key))
  }

  // ---------------------------------------------------------------------------------------------
  // The signed token: envelope

  function Parts(token: string): (r: seq<string>)
    ensures |r| >= 1
  {
    Text.Split(token, '.')
  }

  /** Stage 1: three dot-separated parts, the first `SSDL1`. */
  predicate Framed(token: string) {
    |Parts(token)| == 3 && Parts(token)[0] == "SSDL1"
  }

  /** Stage 2: both the payload part and the signature part decode as base64url. */
  predicate Decodes(token: string) {
    Framed(token) && Base64Url.Decode(Parts(token)[1]).Some? && Base64Url.Decode(Parts(token)[2]).Some?
  }

  function PayloadBytes(token: string): seq<Bytes.byte>
    requires Decodes(token)
  {
    Base64Url.Decode(Parts(token)[1]).value
  }

  function SignatureBytes(token: string): seq<Bytes.byte>
    requires Decodes(token)
  {
    Base64Url.Decode(Parts(token)[2]).value
  }

  /** Stage 3: the signature verifies over the payload bytes. */
  predicate Authentic(token: string, pk: PublicKey, prims: Primitives) {
    Decodes(token) && prims.verify(pk, SignatureBytes(token), PayloadBytes(token))
  }

  /** Stage 4: the authentic payload is UTF-8 JSON. */
  predicate Readable(token: string, pk: PublicKey, prims: Primitives) {
    Authentic(token, pk, prims) && prims.loads(PayloadBytes(token)).Ok?
  }

  /** The authentic payload fails to load in a way the handler catches. */
  predicate Garbled(token: string, pk: PublicKey, prims: Primitives) {
    Authentic(token, pk, prims) && prims.loads(PayloadBytes(token)).Err? && Caught(prims.loads(PayloadBytes(token)).error)
  }

  function ClaimsOf(token: string, pk: PublicKey, prims: Primitives): Json
    requires Readable(token, pk, prims)
  {
    prims.loads(PayloadBytes(token)).value
  }

  /** The outcome of the first four stages: the refusal, the exception that escapes the payload
      handler, or the claims they let through. */
  datatype Envelope = Refused(reason: Reason) | Escaped(error: PyError) | Opened(claims: Json)

  /** Stages 1 to 4 in order; the first that fails alone decides the refusal. A payload that
      `json.loads` refuses with `ValueError` or `RecursionError` passes the handler, which
      catches only `JSONDecodeError` and `UnicodeDecodeError`. */
  function Open(token: string, pk: PublicKey, prims: Primitives): (r: Envelope)
    ensures r == Refused(InvalidFormat) <==> !Framed(token)
    ensures r == Refused(InvalidEncoding) <==> Framed(token) && !Decodes(token)
    ensures r == Refused(InvalidSignature) <==> Decodes(token) && !Authentic(token, pk, prims)
    ensures r == Refused(InvalidPayload) <==> Garbled(token, pk, prims)
    ensures r.Escaped? <==> Authentic(token, pk, prims) && !Readable(token, pk, prims) && !Garbled(token, pk, prims)
    ensures r.Escaped? ==> Authentic(token, pk, prims) && r.error == Raised(prims.loads(PayloadBytes(token)).error.why)
    ensures r.Escaped? ==> r.error == ValueError || r.error == RecursionError
    ensures r.Opened? <==> Readable(token, pk, prims)
    ensures r.Opened? ==> r.claims == ClaimsOf(token, pk, prims)
  {
    if !Framed(token) then Refused(InvalidFormat)
    else if !Decodes(token) then Refused(InvalidEncoding)
    else if !prims.verify(pk, SignatureBytes(token), PayloadBytes(token)) then Refused(InvalidSignature)
    else match prims.loads(PayloadBytes(token))
      case Err(p) => if Caught(p) then Refused(InvalidPayload) else Escaped(Raised(p.why))
      case Ok(claims) => Opened(claims)
  }

  // ---------------------------------------------------------------------------------------------
  // The signed token: claims

  /** `str(claims.get("plan", "free")).lower()`. */
  function Plan(fields: seq<(string, Json)>): string {
    Text.Lower(Str(GetOr(fields, "plan", JStr("free"))))
  }

  predicate KnownPlan(plan: string) {
    plan == "free" || plan == "pro" || plan == "enterprise"
  }

  /** A time bound as read: `None` when absent or `null`, else what `int()` makes of it. */
  function Bound(fields: seq<(string, Json)>, key: string): Option<Result<int, PyError>> {
    var v := GetOr(fields, key, JNull);
    if v.JNull? then None else Some(IntOf(v))
  }

  /** `exp` does not lie before `now`; an absent bound holds. */
  predicate NotExpired(fields: seq<(string, Json)>, now: int) {
    Bound(fields, "exp").None? || (Bound(fields, "exp").value.Ok? && now <= Bound(fields, "exp").value.value)
  }

  /** `nbf` does not lie after `now`; an absent bound holds. */
  predicate Started(fields: seq<(string, Json)>, now: int) {
    Bound(fields, "nbf").None? || (Bound(fields, "nbf").value.Ok? && Bound(fields, "nbf").value.value <= now)
  }

  /** The claims name a revoked id: a truthy `jti` whose `str` is in the set. */
  predicate RevokedBy(fields: seq<(string, Json)>, revoked: set<Json>) {
    var jti := GetOr(fields, "jti", JNull);
    Truthy(jti) && JStr(Str(jti)) in revoked
  }

  /** Stages 5 to 8 on the claims of an authentic payload: plan, expiry, not-before, revocation.
      A payload that is not a dict has no `.get` (`AttributeError`); a bound `int()` cannot read
      raises. Every refusal echoes the claims. */
  function CheckClaims(claims: Json, revoked: set<Json>, now: int): (r: Result<Verdict, PyError>)
    ensures r.Ok? ==> r.value.claims == Some(claims) && claims.JObj?
    ensures r.Ok? ==> (r.value.valid <==> r.value.reason == Passed)
    ensures r.Ok? && r.value.valid ==> r.value.tier == Plan(claims.fields) && KnownPlan(r.value.tier)
    ensures r.Ok? && !r.value.valid ==> r.value.tier == "free"
    ensures r.Ok? ==> (|| r.value.reason == InvalidPlan || r.value.reason == Expired
      || r.value.reason == NotYetValid || r.value.reason == Revoked || r.value.reason == Passed)
  {
    if !claims.JObj? then Err(AttributeError)
    else
      var fields := claims.fields;
      var plan := Plan(fields);
      if !KnownPlan(plan) then Ok(RejectWith(InvalidPlan, claims))
      else
        var exp := Bound(fields, "exp");
        if exp.Some? && exp.value.Err? then Err(exp.value.error)
        else if exp.Some? && exp.value.value < now then Ok(RejectWith(Expired, claims))
        else
          var nbf := Bound(fields, "nbf");
          if nbf.Some? && nbf.value.Err? then Err(nbf.value.error)
          else if nbf.Some? && nbf.value.value > now then Ok(RejectWith(NotYetValid, claims))
          else if RevokedBy(fields, revoked) then Ok(RejectWith(Revoked, claims))
          else Ok(Verdict(true, plan, Passed, Some(claims)))
  }

  /** `validate_signed_token`. */
  function ValidateSignedToken(token: string, pk: PublicKey, revoked: set<Json>, now: int, prims: Primitives)
    : (r: Result<Verdict, PyError>)
    ensures r.Ok? ==> (r.value.valid <==> r.value.reason == Passed)
    ensures r.Ok? && !r.value.valid ==> r.value.tier == "free"
    ensures r.Ok? && r.value.valid ==> KnownPlan(r.value.tier)
    ensures r.Ok? && r.value.claims.Some? ==> Readable(token, pk, prims) && r.value.claims.value == ClaimsOf(token, pk, prims)
    ensures Open(token, pk, prims).Escaped? ==> r == Err(Open(token, pk, prims).error)
    ensures r.Err? && !Open(token, pk, prims).Escaped? ==> Readable(token, pk, prims)
  {
    match Open(token, pk, prims)
    case Refused(reason) => Ok(Reject(reason))
    case Escaped(e) => Err(e)
    case Opened(claims) => CheckClaims(claims, revoked, now)
  }

  /** The first four refusals never carry claims, and the later ones always do. */
  lemma ClaimsOnlyAfterSignature(token: string, pk: PublicKey, revoked: set<Json>, now: int, prims: Primitives)
    requires ValidateSignedToken(token, pk, revoked, now, prims).Ok?
    ensures var v := ValidateSignedToken(token, pk, revoked, now, prims).value;
      (v.claims.None? <==> v.reason in {InvalidFormat, InvalidEncoding, InvalidSignature, InvalidPayload})
  {
  }

  /** A token is accepted exactly when every stage passes: the reference reading of the pipeline
      as one conjunction, with no order among the checks. */
  lemma ValidExactlyWhenAllChecksPass(token: string, pk: PublicKey, revoked: set<Json>, now: int, prims: Primitives)
    ensures var r := ValidateSignedToken(token, pk, revoked, now, prims);
      r.Ok? && r.value.valid ==>
        Readable(token, pk, prims) && ClaimsOf(token, pk, prims).JObj?
        && var fields := ClaimsOf(token, pk, prims).fields;
           KnownPlan(Plan(fields)) && NotExpired(fields, now) && Started(fields, now) && !RevokedBy(fields, revoked)
    ensures var r := ValidateSignedToken(token, pk, revoked, now, prims);
      (Readable(token, pk, prims) && ClaimsOf(token, pk, prims).JObj?
        && var fields := ClaimsOf(token, pk, prims).fields;
           KnownPlan(Plan(fields)) && NotExpired(fields, now) && Started(fields, now) && !RevokedBy(fields, revoked))
      ==> r.Ok? && r.value.valid
  {
    var e := Open(token, pk, prims);
    if e.Opened? {
      var c := e.claims;
      var r := CheckClaims(c, revoked, now);
      if r.Ok? && r.value.valid {
        AcceptedClaims(c, revoked, now);
      }
      if c.JObj? && KnownPlan(Plan(c.fields)) && NotExpired(c.fields, now) && Started(c.fields, now)
         && !RevokedBy(c.fields, revoked) {
        ChecksPass(c, revoked, now);
      }
    }
  }

  /** Claims are accepted only when they pass every check. */
  lemma AcceptedClaims(claims: Json, revoked: set<Json>, now: int)
    requires CheckClaims(claims, revoked, now).Ok? && CheckClaims(claims, revoked, now).value.valid
    ensures claims.JObj? && KnownPlan(Plan(claims.fields))
    ensures NotExpired(claims.fields, now) && Started(claims.fields, now) && !RevokedBy(claims.fields, revoked)
  {
  }

  /** Claims that pass every check are accepted with their plan as the tier. */
  lemma ChecksPass(claims: Json, revoked: set<Json>, now: int)
    requires claims.JObj? && KnownPlan(Plan(claims.fields))
    requires NotExpired(claims.fields, now) && Started(claims.fields, now) && !RevokedBy(claims.fields, revoked)
    ensures CheckClaims(claims, revoked, now) == Ok(Verdict(true, Plan(claims.fields), Passed, Some(claims)))
  {
  }

  /** Claims that pass the plan and time checks but name a revoked jti are refused as revoked. */
  lemma ChecksRevoke(claims: Json, revoked: set<Json>, now: int)
    requires claims.JObj? && KnownPlan(Plan(claims.fields))
    requires NotExpired(claims.fields, now) && Started(claims.fields, now) && RevokedBy(claims.fields, revoked)
    ensures CheckClaims(claims, revoked, now) == Ok(RejectWith(Revoked, claims))
  {
  }

  /** `expired` exactly when the plan passed and `int(exp) < now`: a token is still good at the
      second it expires. */
  lemma ExpiredExactly(claims: Json, revoked: set<Json>, now: int)
    requires claims.JObj? && KnownPlan(Plan(claims.fields))
    ensures CheckClaims(claims, revoked, now) == Ok(RejectWith(Expired, claims)) <==>
      Bound(claims.fields, "exp").Some? && Bound(claims.fields, "exp").value.Ok? && Bound(claims.fields, "exp").value.value < now
  {
  }

  /** `not_yet_valid` exactly when the earlier stages passed and `int(nbf) > now`: a token is good
      from the second it starts. */
  lemma NotYetValidExactly(claims: Json, revoked: set<Json>, now: int)
    requires claims.JObj? && KnownPlan(Plan(claims.fields)) && NotExpired(claims.fields, now)
    ensures CheckClaims(claims, revoked, now) == Ok(RejectWith(NotYetValid, claims)) <==>
      Bound(claims.fields, "nbf").Some? && Bound(claims.fields, "nbf").value.Ok? && now < Bound(claims.fields, "nbf").value.value
  {
  }

  /** An `exp` written as more decimal digits than `int()` accepts raises `ValueError` instead of
      being compared with the clock, whatever the clock says. */
  lemma OverlongExpRaises(claims: Json, revoked: set<Json>, now: int, d: string)
    requires claims.JObj? && KnownPlan(Plan(claims.fields))
    requires |d| > Decimal.MaxStrDigits && Decimal.AllDigits(d)
    requires GetOr(claims.fields, "exp", JNull) == JStr(d)
    ensures CheckClaims(claims, revoked, now) == Err(ValueError)
  {
    Decimal.ParseDigits(d);
    assert Bound(claims.fields, "exp") == Some(Err(ValueError));
  }

  /** `revoked` exactly when every earlier stage passed and the jti is in the set. */
  lemma RevokedExactly(claims: Json, revoked: set<Json>, now: int)
    requires claims.JObj? && KnownPlan(Plan(claims.fields))
    requires NotExpired(claims.fields, now) && Started(claims.fields, now)
    ensures CheckClaims(claims, revoked, now) == Ok(RejectWith(Revoked, claims)) <==> RevokedBy(claims.fields, revoked)
  {
  }

  /** Claims without `exp` and `nbf` never fail on time, whatever the clock says. */
  lemma AbsentBoundsNeverFail(claims: Json, revoked: set<Json>, now: int)
    requires claims.JObj? && !HasKey(claims.fields, "exp") && !HasKey(claims.fields, "nbf")
    ensures CheckClaims(claims, revoked, now).Ok?
    ensures CheckClaims(claims, revoked, now).value.reason !in {Expired, NotYetValid}
  {
  }

  /** With nothing revoked, or with no truthy jti, a token is never refused as revoked. */
  lemma RevocationNeedsAJti(claims: Json, revoked: set<Json>, now: int)
    requires revoked == {} || (claims.JObj? && !Truthy(GetOr(claims.fields, "jti", JNull)))
    ensures CheckClaims(claims, revoked, now).Ok? ==> CheckClaims(claims, revoked, now).value.reason != Revoked
  {
  }

  /** A missing plan is the free plan, and the plan is matched in any case. */
  lemma PlanDefaultsAndCase(fields: seq<(string, Json)>)
    ensures !HasKey(fields, "plan") ==> Plan(fields) == "free"
    ensures Lookup(fields, "plan") == Some(JStr("PRO")) ==> Plan(fields) == "pro"
  {
    if !HasKey(fields, "plan") {
      assert Text.Lower("free") == "free";
    }
    if Lookup(fields, "plan") == Some(JStr("PRO")) {
      assert Text.Lower("PRO") == "pro";
    }
  }

  // ---------------------------------------------------------------------------------------------
  // The legacy prefix path

  /** `validate_legacy_prefix`: `key.upper()` starting with `ENT-` or `PRO-` grants that tier, with
      claims naming a fresh `uuid` as jti; any other key is refused. */
  function ValidateLegacyPrefix(key: string, uuid: string): (r: Verdict)
    ensures r.valid <==> Text.StartsWithIgnoringCase(key, "ENT-") || Text.StartsWithIgnoringCase(key, "PRO-")
    ensures r.tier == "enterprise" <==> Text.StartsWithIgnoringCase(key, "ENT-")
    ensures r.tier == "pro" <==> Text.StartsWithIgnoringCase(key, "PRO-")
    ensures r.valid ==> r.reason == LegacyPrefix && r.claims == Some(JObj([("jti", JStr(uuid)), ("plan", JStr(r.tier))]))
    ensures !r.valid ==> r == Reject(UnknownLegacyKey)
  {
    Text.UpperStartsWith(key, "ENT-");
    Text.UpperStartsWith(key, "PRO-");
    var upper := Text.Upper(key);
    if Text.StartsWith(upper, "ENT-") then
      Verdict(true, "enterprise", LegacyPrefix, Some(JObj([("jti", JStr(uuid)), ("plan", JStr("enterprise"))])))
    else if Text.StartsWith(upper, "PRO-") then
      Verdict(true, "pro", LegacyPrefix, Some(JObj([("jti", JStr(uuid)), ("plan", JStr("pro"))])))
    else Reject(UnknownLegacyKey)
  }

  // ---------------------------------------------------------------------------------------------
  // The decision of `main`

  /** The signed-token check, or `missing_public_key` when no public key was loaded. */
  function Signed(key: string, pk: Option<PublicKey>, revoked: set<Json>, now: int, prims: Primitives)
    : (r: Result<Verdict, PyError>)
    ensures pk.None? ==> r == Ok(Reject(MissingPublicKey))
    ensures r.Ok? ==> (r.value.valid <==> r.value.reason == Passed) && r.value.reason != LegacyPrefix
    ensures r.Ok? && !r.value.valid ==> r.value.tier == "free"
    ensures r.Ok? && r.value.valid ==> KnownPlan(r.value.tier)
    ensures r.Ok? && r.value.reason == InvalidFormat ==> pk.Some? && !Framed(key)
  {
    if pk.None? then Ok(Reject(MissingPublicKey))
    else
      var r := ValidateSignedToken(key, pk.value, revoked, now, prims);
      assert r.Ok? && r.value.claims.None? ==> Open(key, pk.value, prims).Refused?;
      r
  }

  /** The legacy fallback: a refusal for `invalid_format` is replaced by the prefix check when the
      flag is on and that check accepts the key; every other verdict stands. */
  function Fallback(v: Verdict, key: string, uuid: string, allowLegacy: bool): (r: Verdict)
    ensures r == v || (&& allowLegacy && !v.valid && v.reason == InvalidFormat
                      && r == ValidateLegacyPrefix(key, uuid) && r.valid)
  {
    if !v.valid && v.reason == InvalidFormat && allowLegacy then
      var legacy := ValidateLegacyPrefix(key, uuid);
      if legacy.valid then legacy else v
    else v
  }

  /** What `main` decides once the key is set and the revocation list is loaded: `None` is
      refused as `revocation_load_error`, then the public key is loaded, the signed-token check
      runs and the legacy fallback applies. */
  function DecideWith(key: string, loaded: Option<set<Json>>, keyFile: KeyFile, allowLegacy: bool,
                      now: int, uuid: string, prims: Primitives): (r: Result<Verdict, PyError>)
    ensures loaded.None? ==> r == Ok(Reject(RevocationLoadError))
    ensures r.Ok? ==> (r.value.valid <==> r.value.reason == Passed || r.value.reason == LegacyPrefix)
    ensures r.Ok? && !r.value.valid ==> r.value.tier == "free"
    ensures r.Ok? && r.value.valid ==> KnownPlan(r.value.tier)
  {
    match loaded
    case None => Ok(Reject(RevocationLoadError))
    case Some(revoked) =>
      match LoadPublicKey(keyFile, prims)
      case Err(e) => Err(e)
      case Ok(pk) =>
        match Signed(key, pk, revoked, now, prims)
        case Err(e) => Err(e)
        case Ok(v) => Ok(Fallback(v, key, uuid, allowLegacy))
  }

  /** The key `main` reads: `LICENSE_KEY`, empty when unset, stripped. */
  function KeyOf(env: Option<string>): string {
    Text.Strip(env.GetOr(""))
  }

  /** What `main` decides from the `LICENSE_KEY` variable, the two files, the
      `--allow-legacy-prefix` flag, the clock and a fresh uuid, with `load_revocations` as
      written: an exception it raises ends `main`. */
  function Decide(env: Option<string>, revocations: JsonFile, keyFile: KeyFile, allowLegacy: bool,
                  now: int, uuid: string, prims: Primitives): (r: Result<Verdict, PyError>)
    ensures |KeyOf(env)| > 0 && LoadRevocationsAsWritten(revocations).Err? ==>
      r == Err(LoadRevocationsAsWritten(revocations).error)
    ensures r.Ok? ==> (r.value.valid <==> r.value.reason == Passed || r.value.reason == LegacyPrefix)
    ensures r.Ok? && !r.value.valid ==> r.value.tier == "free"
    ensures r.Ok? && r.value.valid ==> KnownPlan(r.value.tier)
  {
    var key := KeyOf(env);
    if |key| == 0 then Ok(Reject(NoKey))
    else
      match LoadRevocationsAsWritten(revocations)
      case Err(e) => Err(e)
      case Ok(loaded) => DecideWith(key, loaded, keyFile, allowLegacy, now, uuid, prims)
  }

  /** The decision with the fail-closed loader: a revocation file that cannot be decoded or
      holds an unhashable id is refused as `revocation_load_error` instead of crashing. */
  function FailClosedDecide(env: Option<string>, revocations: JsonFile, keyFile: KeyFile, allowLegacy: bool,
                            now: int, uuid: string, prims: Primitives): (r: Result<Verdict, PyError>)
    ensures |KeyOf(env)| > 0 && LoadRevocations(revocations).None? ==> r == Ok(Reject(RevocationLoadError))
    ensures r.Ok? ==> (r.value.valid <==> r.value.reason == Passed || r.value.reason == LegacyPrefix)
    ensures r.Ok? && !r.value.valid ==> r.value.tier == "free"
    ensures r.Ok? && r.value.valid ==> KnownPlan(r.value.tier)
  {
    var key := KeyOf(env);
    if |key| == 0 then Ok(Reject(NoKey))
    else DecideWith(key, LoadRevocations(revocations), keyFile, allowLegacy, now, uuid, prims)
  }

  /** The two decisions differ only where `load_revocations` as written raises: there `main`
      crashes, and the fail-closed decision refuses the key. */
  lemma DecideAgrees(env: Option<string>, revocations: JsonFile, keyFile: KeyFile, allowLegacy: bool,
                     now: int, uuid: string, prims: Primitives)
    ensures LoadRevocationsAsWritten(revocations).Ok? ==>
      Decide(env, revocations, keyFile, allowLegacy, now, uuid, prims)
        == FailClosedDecide(env, revocations, keyFile, allowLegacy, now, uuid, prims)
    ensures |KeyOf(env)| > 0 && LoadRevocationsAsWritten(revocations).Err? ==>
      && Decide(env, revocations, keyFile, allowLegacy, now, uuid, prims).Err?
      && FailClosedDecide(env, revocations, keyFile, allowLegacy, now, uuid, prims) == Ok(Reject(RevocationLoadError))
    ensures |KeyOf(env)| > 0 && revocations.Malformed? && !revocations.why.BadSyntax? ==>
      && Decide(env, revocations, keyFile, allowLegacy, now, uuid, prims) == Err(Raised(revocations.why))
      && FailClosedDecide(env, revocations, keyFile, allowLegacy, now, uuid, prims) == Ok(Reject(RevocationLoadError))
  {
    LoadRevocationsAgrees(revocations);
  }

  /** An unset or blank key is refused before any file is read. */
  lemma BlankKeyIsNoKey(env: Option<string>, revocations: JsonFile, keyFile: KeyFile, allowLegacy: bool,
                        now: int, uuid: string, prims: Primitives)
    requires forall k :: 0 <= k < |env.GetOr("")| ==> Text.IsSpace(env.GetOr("")[k])
    ensures Decide(env, revocations, keyFile, allowLegacy, now, uuid, prims) == Ok(Reject(NoKey))
    ensures FailClosedDecide(env, revocations, keyFile, allowLegacy, now, uuid, prims) == Ok(Reject(NoKey))
  {
  }

  /** Fail closed: when the revocation list loads as `None`, every key is refused, signed or not. */
  lemma UnloadableRevocationsRefuseAll(env: Option<string>, revocations: JsonFile, keyFile: KeyFile,
                                       allowLegacy: bool, now: int, uuid: string, prims: Primitives)
    requires |KeyOf(env)| > 0 && LoadRevocationsAsWritten(revocations) == Ok(None)
    ensures Decide(env, revocations, keyFile, allowLegacy, now, uuid, prims) == Ok(Reject(RevocationLoadError))
  {
  }

  /** A revocation file the loader as written cannot read ends `main` with that exception, and
      nothing is printed. */
  lemma CrashingRevocationsPrintNothing(env: Option<string>, revocations: JsonFile, keyFile: KeyFile,
                                        allowLegacy: bool, now: int, uuid: string, prims: Primitives)
    requires |KeyOf(env)| > 0 && LoadRevocationsAsWritten(revocations).Err?
    ensures Printed(env, revocations, keyFile, allowLegacy, now, uuid, prims) == Err(LoadRevocationsAsWritten(revocations).error)
  {
  }

  /** Without a public key nothing is accepted, and the legacy path is not tried. */
  lemma MissingKeyRefusesAll(env: Option<string>, revocations: JsonFile, keyFile: KeyFile,
                             allowLegacy: bool, now: int, uuid: string, prims: Primitives)
    requires |KeyOf(env)| > 0
    requires LoadRevocationsAsWritten(revocations).Ok? && LoadRevocationsAsWritten(revocations).value.Some?
    requires LoadPublicKey(keyFile, prims) == Ok(None)
    ensures Decide(env, revocations, keyFile, allowLegacy, now, uuid, prims) == Ok(Reject(MissingPublicKey))
  {
  }

  /** The legacy path replaces a result only when the flag is on, a public key was loaded and
      the key is not a framed `SSDL1` token; and then the key has the prefix it claims. */
  lemma LegacyOnlyThroughTheGate(env: Option<string>, revocations: JsonFile, keyFile: KeyFile,
                                 allowLegacy: bool, now: int, uuid: string, prims: Primitives)
    requires Decide(env, revocations, keyFile, allowLegacy, now, uuid, prims).Ok?
    requires Decide(env, revocations, keyFile, allowLegacy, now, uuid, prims).value.reason == LegacyPrefix
    ensures allowLegacy
    ensures LoadRevocationsAsWritten(revocations).Ok? && LoadRevocationsAsWritten(revocations).value.Some?
    ensures LoadPublicKey(keyFile, prims).Ok? && LoadPublicKey(keyFile, prims).value.Some?
    ensures !Framed(KeyOf(env))
    ensures Text.StartsWithIgnoringCase(KeyOf(env), "ENT-") || Text.StartsWithIgnoringCase(KeyOf(env), "PRO-")
  {
    var loaded := LoadRevocationsAsWritten(revocations).value;
    LegacyAfterLoading(KeyOf(env), loaded, keyFile, allowLegacy, now, uuid, prims);
  }

  lemma LegacyAfterLoading(key: string, loaded: Option<set<Json>>, keyFile: KeyFile, allowLegacy: bool,
                           now: int, uuid: string, prims: Primitives)
    requires DecideWith(key, loaded, keyFile, allowLegacy, now, uuid, prims).Ok?
    requires DecideWith(key, loaded, keyFile, allowLegacy, now, uuid, prims).value.reason == LegacyPrefix
    ensures allowLegacy && loaded.Some?
    ensures LoadPublicKey(keyFile, prims).Ok? && LoadPublicKey(keyFile, prims).value.Some?
    ensures !Framed(key)
    ensures Text.StartsWithIgnoringCase(key, "ENT-") || Text.StartsWithIgnoringCase(key, "PRO-")
  {
  }

  /** A key of three dot-separated parts starting `SSDL1` is never accepted by prefix, whatever
      the flag says. */
  lemma SignedTokenNeverLegacy(env: Option<string>, revocations: JsonFile, keyFile: KeyFile,
                               allowLegacy: bool, now: int, uuid: string, prims: Primitives)
    requires Framed(KeyOf(env))
    ensures var r := Decide(env, revocations, keyFile, allowLegacy, now, uuid, prims);
      r.Ok? ==> r.value.reason != LegacyPrefix
  {
    if Decide(env, revocations, keyFile, allowLegacy, now, uuid, prims).Ok?
      && Decide(env, revocations, keyFile, allowLegacy, now, uuid, prims).value.reason == LegacyPrefix {
      LegacyOnlyThroughTheGate(env, revocations, keyFile, allowLegacy, now, uuid, prims);
    }
  }

  /** The line `main` prints: the default separators for a missing key, compact ones otherwise. */
  function Output(v: Verdict): (r: string)
    ensures Text.IsAscii(r)
    ensures |r| > 0 && r[0] == '{'
  {
    var fmt := if v.reason == NoKey then JsonText.Spaced else JsonText.Compact;
    JsonText.Dumps(fmt, VerdictJson(v))
  }

  /** `main`: the printed line, or the exception that ends the process. */
  function Printed(env: Option<string>, revocations: JsonFile, keyFile: KeyFile, allowLegacy: bool,
                now: int, uuid: string, prims: Primitives): (r: Result<string, PyError>)
    ensures r.Ok? <==> Decide(env, revocations, keyFile, allowLegacy, now, uuid, prims).Ok?
    ensures r.Ok? ==> Text.IsAscii(r.value) && |r.value| > 1 && r.value[0] == '{' && r.value[|r.value| - 1] == '\n'
  {
    var d := Decide(env, revocations, keyFile, allowLegacy, now, uuid, prims);
    if d.Err? then Err(d.error) else Ok(Line(d.value))
  }

  /** What `print` writes for a verdict: its line and a newline. */
  function Line(v: Verdict): (r: string)
    ensures Text.IsAscii(r) && |r| > 1 && r[0] == '{' && r[|r| - 1] == '\n'
  {
    Output(v) + "\n"
  }
}
