# ssdlc-action core, modelled in Dafny

This project models the security pipeline of the ssdlc-action GitHub Action in two parts.

- **The license lifecycle.** The issuer signs an `SSDL1.<payload>.<signature>` token over a
  canonical JSON claims payload. The revoker adds a token's `jti` to a revocations file. The
  validator checks a key from the `LICENSE_KEY` variable. It checks the token envelope, the
  base64url coding, the Ed25519 signature, the JSON payload, the plan, the `exp`/`nbf` window and
  the revocation list, with a legacy `PRO-`/`ENT-` prefix fallback. It prints one JSON verdict.
- **The findings pipeline.** Four normalisers turn scanner reports into one unified finding
  shape: Semgrep, Trivy, Gitleaks and Checkov. The merge step appends one tool's findings to a
  master list. The counter tallies findings by severity against a threshold. The SARIF writer
  groups findings by tool into SARIF 2.1.0 runs, with one rule per distinct id.

Every Python exception that escapes a script is an `Err(PyError)`: the process ends with a
traceback. Each exception the scripts catch becomes the outcome its handler produces.

Files, one module each:
- `wrappers`: `Option`, `Result` and a stop-at-first-error loop.
- `text`: Python `str` methods.
- `decimal`: `int()` and `str()` on integers.
- `order`: `sorted(set(...))`.
- `bytes`.
- `json`: JSON values as Python holds them, and `get`, item assignment, truthiness,
  `str`/`repr`, iteration, `[0]`, `[:n]` and `+` on them.
- `jsontext`: `json.dumps` with `sort_keys`, `indent`, `separators` and `ensure_ascii`.
- `base64url`: RFC 4648 section 5 coding, including CPython's lenient `a2b_base64`.
- `dedup`: what a dict built by a loop of insertions holds.
- `findings`: the unified finding.
- `licensing`: the validator.
- `issuance`: the issuer.
- `ledger`: the revoker.
- `lifecycle`: issue/revoke followed by validate.
- `semgrep`, `trivy`, `gitleaks`, `checkov`: the normalisers.
- `merge`, `count`, `sarif`: the reporters.
- `pipeline`: normalisers feeding the counter.

## Model

| member | source | states |
|---|---|---|
| Licensing.ReasonTextInjective | src/licensing/validate.py:226-229 | Two reasons have the same written string exactly when they are the same reason, so `main`'s string test for `invalid_format` tests the reason |
| Licensing.VerdictJson | src/licensing/validate.py:66-71 | A verdict is written as a dict with keys `valid`, `tier`, `reason`, plus `claims` exactly when the verdict carries claims, and no key twice |
| Licensing.VerdictJsonRoundTrip | src/licensing/validate.py:141-146 | Reading the written dict back gives the verdict: nothing is lost in the printed form |
| Licensing.LoadRevocationsAsWritten | src/licensing/validate.py:27-42 | The loader as written raises exactly in three cases: a file that is not UTF-8, text that `json.loads` refuses with something other than `JSONDecodeError` (`ValueError` for an over-long integer, `RecursionError` for deep nesting), and a `revoked_jti` list holding an unhashable item. A parsed file raises only `TypeError` |
| Licensing.UnparsableRevocationsCrash | src/licensing/validate.py:31-33 | A revocations file that `json.loads` refuses for an over-long integer or for deep nesting escapes the handler as `ValueError` or `RecursionError`. A syntax error is caught and gives `None` |
| Licensing.UndecodableRevocationsCrash | src/licensing/validate.py:31-34 | A revocations file that is not UTF-8 escapes both handlers as `UnicodeDecodeError` |
| Licensing.NestedRevocationListCrashes | src/licensing/validate.py:42 | `{"revoked_jti": [[]]}` makes `set(revoked)` raise `TypeError` |
| Licensing.LoadRevocations | src/licensing/validate.py:27-42 | A missing file gives the empty set. `None` (fail closed) exactly when the file cannot be read or parsed, is not a dict, or has a `revoked_jti` that is not null/absent/a list of hashable items. Otherwise the set of the list's items |
| Licensing.LoadRevocationsAgrees | src/licensing/validate.py:27-42 | Wherever the loader as written returns, it returns what the corrected loader returns |
| Licensing.AbsentListRevokesNothing | src/licensing/validate.py:37-39 | A dict whose `revoked_jti` is absent or `null` revokes nothing |
| Licensing.LoadPublicKey | src/licensing/validate.py:45-57 | A key comes back exactly for a readable PEM without the placeholder that loads as Ed25519. A missing file or the placeholder give `None`. A read error or a non-Ed25519 key raise |
| Licensing.Open | src/licensing/validate.py:65-102 | Each of the four envelope refusals happens exactly when its stage is the first to fail: `invalid_format`, `invalid_encoding`, `invalid_signature`, and `invalid_payload` for a payload that is not UTF-8 or not JSON syntax. A payload `json.loads` refuses with `ValueError` or `RecursionError` escapes the handler with that exception. The claims are handed over exactly when all four pass |
| Licensing.CheckClaims | src/licensing/validate.py:105-146 | A claims verdict always echoes the claims. It is valid exactly when the reason is `ok`, and then the tier is the lowered plan and a known plan. A refusal has tier `free`. The reason is one of plan, expired, not yet valid, revoked or ok |
| Licensing.ValidateSignedToken | src/licensing/validate.py:60-146 | Valid exactly when the reason is `ok`. A refusal has tier free. Claims are echoed only when read from an authentic payload. An exception escaping the payload handler ends it; any other exception escapes only after the payload was read |
| Licensing.ClaimsOnlyAfterSignature | src/licensing/validate.py:65-139 | A verdict carries no claims exactly when it is one of the four envelope refusals |
| Licensing.ValidExactlyWhenAllChecksPass | src/licensing/validate.py:60-146 | Accepted if and only if the payload is authentic JSON claims with a known plan, `exp` not before now, `nbf` not after now, and no revoked truthy jti (both directions) |
| Licensing.AcceptedClaims | src/licensing/validate.py:105-146 | Accepted claims are a dict passing the plan, expiry, not-before and revocation checks |
| Licensing.ChecksPass | src/licensing/validate.py:141-146 | Claims passing every check are accepted with their plan as the tier |
| Licensing.ChecksRevoke | src/licensing/validate.py:132-139 | Claims passing plan and time but naming a revoked jti are refused as `revoked` with the claims |
| Licensing.ExpiredExactly | src/licensing/validate.py:114-121 | With a known plan, `expired` exactly when `int(exp) < now`, so a token is still good at the second it expires |
| Licensing.NotYetValidExactly | src/licensing/validate.py:123-130 | Once `exp` passes, `not_yet_valid` exactly when `int(nbf) > now` |
| Licensing.OverlongExpRaises | src/licensing/validate.py:114-115 | An `exp` written as more than 4,300 decimal digits makes `int(exp)` raise `ValueError`, whatever the clock says |
| Licensing.RevokedExactly | src/licensing/validate.py:132-139 | Once the plan and time checks pass, `revoked` exactly when the truthy jti's `str` is in the set |
| Licensing.AbsentBoundsNeverFail | src/licensing/validate.py:114-130 | Claims without `exp` and `nbf` never raise and are never refused on time |
| Licensing.RevocationNeedsAJti | src/licensing/validate.py:132-133 | With an empty set, or with no truthy jti, a token is never refused as revoked |
| Licensing.PlanDefaultsAndCase | src/licensing/validate.py:105 | A missing plan is `free`, and `PRO` reads as `pro` |
| Licensing.ValidateLegacyPrefix | src/licensing/validate.py:149-175 | Valid exactly when the upper-cased key starts with `ENT-` or `PRO-`, with that tier, reason `legacy_prefix` and claims naming the uuid and plan. Otherwise `unknown_legacy_key` |
| Licensing.Signed | src/licensing/validate.py:215-224 | No public key gives `missing_public_key`. A signed result is never `legacy_prefix`. It is `invalid_format` only with a key and an unframed token |
| Licensing.Fallback | src/licensing/validate.py:226-233 | The result is unchanged, or the flag is on, the result was an `invalid_format` refusal, and the legacy check replaced it with a valid verdict |
| Licensing.DecideWith | src/licensing/validate.py:201-233 | After loading: a `None` revocation list is refused as `revocation_load_error`. A decision is valid exactly when its reason is `ok` or `legacy_prefix`, a refusal has tier `free`, an acceptance a known plan |
| Licensing.Decide | src/licensing/validate.py:196-233 | `main` as written: with a key set, an exception from `load_revocations` ends it with that exception. That covers a file that is not UTF-8, one `json.loads` refuses with `ValueError` or `RecursionError`, and an unhashable id. A decision is valid exactly when its reason is `ok` or `legacy_prefix`. A refusal has tier `free` and an acceptance a known plan |
| Licensing.FailClosedDecide | src/licensing/validate.py:26-42 | The decision with the fail-closed loader: a revocation list that cannot be loaded refuses the key as `revocation_load_error` and never raises. The same verdict properties as `main` |
| Licensing.DecideAgrees | src/licensing/validate.py:201-213 | `main` and the fail-closed decision agree wherever `load_revocations` as written returns. Where it raises, `main` crashes and the fail-closed decision refuses. In particular, a revocations file `json.loads` refuses for an over-long integer or deep nesting ends `main` with `ValueError` or `RecursionError` |
| Licensing.BlankKeyIsNoKey | src/licensing/validate.py:196-199 | An unset or all-whitespace key is refused as `no_key` whatever the files hold, by `main` and by the fail-closed decision |
| Licensing.UnloadableRevocationsRefuseAll | src/licensing/validate.py:201-213 | Fail closed: when `load_revocations` returns `None`, every key is refused as `revocation_load_error`, legacy or signed |
| Licensing.CrashingRevocationsPrintNothing | src/licensing/validate.py:201 | When `load_revocations` raises, `main` ends with that exception and prints nothing |
| Licensing.MissingKeyRefusesAll | src/licensing/validate.py:215-224 | Without a public key every key is refused as `missing_public_key`; the legacy path is not tried |
| Licensing.LegacyOnlyThroughTheGate | src/licensing/validate.py:226-233 | A legacy acceptance needs all of: the flag on, the revocations loaded without error, a public key, an unframed key, and an `ENT-`/`PRO-` prefix |
| Licensing.SignedTokenNeverLegacy | src/licensing/validate.py:226-233 | A key framed as an `SSDL1` token is never accepted by prefix |
| Licensing.Output | src/licensing/validate.py:198 | The printed verdict is ASCII text starting with `{` |
| Licensing.Printed | src/licensing/validate.py:235 | `main` prints exactly when it decides without an exception: ASCII text that starts with `{` and ends in a newline |
| Issuance.Kept | tools/licensing/issue_license.py:87 | Every kept flag is non-empty and stripped, and no more flags are kept than parts |
| Issuance.InfixKeepsOut | tools/licensing/issue_license.py:87 | Stripping a part adds no character to it |
| Issuance.KeptKeepsOut | tools/licensing/issue_license.py:87 | A character in none of the parts is in none of the kept flags |
| Issuance.ParseFeatures | tools/licensing/issue_license.py:87 | Every flag is non-empty, stripped and free of commas |
| Issuance.KeptStripped | tools/licensing/issue_license.py:87 | Parts already non-empty and stripped are all kept, in order |
| Issuance.FeaturesRoundTrip | tools/licensing/issue_license.py:87 | Joining non-empty, stripped, comma-free flags with commas and parsing them gives the same flags |
| Issuance.ClaimsDistinct | tools/licensing/issue_license.py:77-89 | The claims dict holds no key twice |
| Issuance.ClaimsIdentity | tools/licensing/issue_license.py:77-81 | The claims read back `v` = 1, the fresh jti, the plan and the customer as `sub` |
| Issuance.ClaimsWindow | tools/licensing/issue_license.py:82-84 | The claims read back `iat` = `nbf` = now and `exp` = now + days × 86400 |
| Issuance.ClaimsFeatures | tools/licensing/issue_license.py:88-89 | `features` is present exactly when the list is non-empty, and then holds it |
| Issuance.Payload | tools/licensing/issue_license.py:91-95 | The payload bytes are all ASCII, because `ensure_ascii` escapes the rest |
| Issuance.PayloadIsCanonical | tools/licensing/issue_license.py:91-95 | Claims that map every key alike give byte-identical payloads, whatever their insertion order |
| Issuance.Token | tools/licensing/issue_license.py:98 | The token splits on `.` into exactly `SSDL1`, the payload's coding and the signature's coding |
| Issuance.Seal | tools/licensing/issue_license.py:91-98 | The issued payload is the claims' canonical payload, the signature is the signer's over it, and the token splits into its three parts |
| Issuance.Password | tools/licensing/issue_license.py:71 | A password is passed exactly when the passphrase is set and not empty, and it is the passphrase |
| Issuance.Issue | tools/licensing/issue_license.py:62-98 | The `EncryptedWithoutPassphrase` error happens exactly for an offered plan, a readable key marked `ENCRYPTED` and an empty passphrase. On success: an offered plan; an Ed25519 key loaded with the password; the claims built from the request; the payload of those claims; and the token of payload and signature |
| Issuance.EncryptedKeyNeedsPassphrase | tools/licensing/issue_license.py:64-68 | An encrypted key without a passphrase, unset or empty, stops the issuer before the key is loaded |
| Issuance.ClaimsReport | tools/licensing/issue_license.py:108 | The claims report is ASCII text |
| Ledger.RevokeAsWritten | tools/licensing/revoke_license.py:21-31 | Whenever the revoker as written succeeds, the document it writes is a dict with a list of strings |
| Ledger.StringListLosesTheJti | tools/licensing/revoke_license.py:27-31 | With `revoked_jti` = `"abc"` and jti `ab`, the revoker as written writes `["a", "b", "c"]`, which does not hold `ab` |
| Ledger.Revoke | tools/licensing/revoke_license.py:21-31 | Succeeds exactly when the start document is a dict whose list is absent or all strings. The written ids are strictly sorted and are exactly the old ids plus the jti. Every other key keeps its value |
| Ledger.RevokeGrowsByOne | tools/licensing/revoke_license.py:28-31 | Revoking adds at most one id to the distinct old ids |
| Ledger.RevokeIdempotent | tools/licensing/revoke_license.py:28-31 | Revoking the same jti again writes the same document |
| Ledger.RevokeFromNothing | tools/licensing/revoke_license.py:22-25 | A missing file, or a dict without `revoked_jti`, ends up listing the jti alone |
| Ledger.RevokeAgreesOnLists | tools/licensing/revoke_license.py:27-31 | On a list the intended update and the code as written write the same |
| Ledger.FileText | tools/licensing/revoke_license.py:33 | The file text is ASCII and ends in a newline |
| Lifecycle.IssuedTokenOpens | src/licensing/validate.py:65-102 | The validator opens an issued token with the matching public key, passing all four envelope stages, and gets the dict `json.loads` reads from the payload |
| Lifecycle.Reloaded | tools/licensing/issue_license.py:91-95 | The dict read back from the sorted-key payload maps every key exactly as the issued claims do, with its keys in sorted order |
| Lifecycle.IssuedClaimsPass | tools/licensing/issue_license.py:77-85 | Issued claims, and the dict read back from their payload, pass every check at any time from `nbf` to `exp`, accepted with their plan, unless the jti is revoked |
| Lifecycle.IssuedClaimsRevoked | tools/licensing/issue_license.py:77-85 | The dict read back from issued claims whose non-empty jti is revoked is refused as `revoked`, with the claims echoed, at any time from `nbf` to `exp` |
| Lifecycle.ChecksFromLookups | src/licensing/validate.py:105-139 | Claims with an offered plan, a jti and a window holding `now` pass the checks |
| Lifecycle.IssueThenValidate | src/licensing/validate.py:60-146 | With the matching key, inside the window and not revoked, an issued token is accepted with the requested plan and the claims as read back from its payload |
| Lifecycle.LedgerFeedsValidator | src/licensing/validate.py:27-42 | The validator loads the file the revoker writes, without raising even as written, and the loaded set holds the revoked jti |
| Lifecycle.RevokeThenValidate | src/licensing/validate.py:132-139 | Once its jti is revoked, an issued token is refused as `revoked` with its read-back claims, inside its whole window |
| Base64Url.Sextets | tools/licensing/issue_license.py:19 | The 6-bit values are all below 64, and their number is never 1 more than a multiple of 4 |
| Base64Url.PaddedEncode | tools/licensing/issue_license.py:19 | The padded encoding has a length that is a multiple of four |
| Base64Url.Encode | tools/licensing/issue_license.py:18-19 | The unpadded encoding holds only URL-safe alphabet characters, never `=` or `.`, so it fits between the token's dots |
| Base64Url.StripPadding | tools/licensing/issue_license.py:19 | `rstrip("=")` removes exactly the padding, leaving the alphabet characters |
| Base64Url.Translate | src/licensing/validate.py:24 | `-` becomes `+`, `_` becomes `/`, everything else is kept |
| Base64Url.RoundTrip | src/licensing/validate.py:22-24 | Decoding the issuer's encoding of any bytes gives the bytes back |
| Base64Url.DecodeUrlText | src/licensing/validate.py:22-24 | The unpadded URL-safe characters of any bytes decode to those bytes |
| Bytes.AsciiRoundTrip | tools/licensing/issue_license.py:95 | Decoding the UTF-8 encoding of ASCII text gives the text back |
| JsonText.EscapeChar | tools/licensing/issue_license.py:91-95 | An escaped character is printable ASCII. It is either an escape sequence or the character itself, and never a bare `"` |
| JsonText.Quote | tools/licensing/issue_license.py:91-95 | A string literal is printable ASCII and enclosed in double quotes |
| JsonText.UnescapeEscape | tools/licensing/issue_license.py:91-95 | Reading back the escapes `ensure_ascii` writes, surrogate pairs included, gives the original string |
| JsonText.Members | tools/licensing/issue_license.py:93 | With `sort_keys` the members are written with their keys sorted and distinct; otherwise in insertion order |
| JsonText.MembersKeepLookups | tools/licensing/issue_license.py:93 | Writing the members sorted keeps what every key looks up |
| JsonText.Dumps | tools/licensing/issue_license.py:91-95 | `json.dumps` always produces ASCII text |
| JsonText.CanonicalIgnoresInsertionOrder | tools/licensing/issue_license.py:91-95 | With sorted keys, objects that map every key alike are written identically |
| Json.Load | src/reporters/count.py:13 | A file that exists yields its document exactly when it parsed. A file `json.loads` refuses raises `JSONDecodeError`, `ValueError` or `RecursionError` according to the failure |
| Json.Lookup | src/scanners/normalise_semgrep.py:21 | A key is found exactly when the dict holds it, and the value found is one the dict maps it to |
| Json.LookupDistinct | tools/licensing/issue_license.py:77-85 | In a dict without repeated keys, every member is what its key looks up |
| Json.Get | src/scanners/normalise_semgrep.py:25 | `get` works exactly on a dict, giving the member when present and the default otherwise |
| Json.Put | src/reporters/merge.py:23 | After `d[key] = value` the key maps to the value and every other key keeps its value. A new key is appended last, and an old one keeps its place |
| Json.PutTwice | tools/licensing/revoke_license.py:31 | Assigning a key the value it already has changes nothing |
| Json.Str | src/scanners/normalise_gitleaks.py:26 | `str` of a string is the string, and of an integer its decimal spelling |
| Json.IntOf | src/licensing/validate.py:115 | `int` of an integer is the integer. Only `None`, text, lists and dicts can make it raise |
| Json.Iterate | src/reporters/count.py:16 | Iterating works exactly on a list, a dict or a string. A list yields its items, and a dict one key per member |
| Json.First | src/scanners/normalise_checkov.py:54 | `v[0]` works exactly on a non-empty list or string, and on a list it is the first item |
| Json.Prefix | src/reporters/sarif.py:68 | `v[:n]` works exactly on a list or a string and keeps at most `n` of its entries |
| Json.Add | src/reporters/sarif.py:45 | `+` concatenates two lists or two strings, and raises exactly on pairs that cannot be added |
| Decimal.DigitsValue | src/scanners/normalise_gitleaks.py:26 | The decimal spelling of a natural number reads back as that number |
| Decimal.ParseInt | src/licensing/validate.py:115 | Text that `int` accepts holds at least one ASCII digit |
| Decimal.IntToDecimal | src/scanners/normalise_gitleaks.py:26 | `str` of an integer is ASCII digits with a leading `-` exactly for a negative integer |
| Decimal.ParseDigits | src/licensing/validate.py:115 | A run of ASCII digits parses as its value when it has at most 4,300 digits, and raises `ValueError` when it has more (CPython's default `int_max_str_digits`) |
| Decimal.ParseNegated | src/licensing/validate.py:124 | A minus sign followed by at most 4,300 digits parses as the negated value, and raises `ValueError` with more digits |
| Decimal.DecimalRoundTrip | src/licensing/validate.py:115 | `int(str(i)) == i` for every integer of at most 4,300 digits, and `int` raises `ValueError` on the spelling of a longer one |
| Order.Insert | tools/licensing/revoke_license.py:31 | Inserting into a strictly sorted list keeps it strictly sorted, and its elements become the old ones plus the new one |
| Order.SortedDistinct | tools/licensing/revoke_license.py:31 | `sorted(set(xs))` is strictly ascending and holds exactly the elements of `xs` |
| Order.SortedUnique | tools/licensing/revoke_license.py:31 | Two strictly sorted lists with the same elements are equal |
| Order.SortedDistinctCanonical | tools/licensing/revoke_license.py:31 | `sorted(set(xs))` depends only on which strings occur, not on their order or repetition |
| Text.LStrip | src/licensing/validate.py:196 | `lstrip` drops exactly the leading whitespace |
| Text.RStrip | src/licensing/validate.py:196 | `rstrip` drops exactly the trailing whitespace |
| Text.Strip | src/licensing/validate.py:196 | A stripped string has no whitespace at either end and is no longer than the original |
| Text.StripInfix | src/scanners/normalise_gitleaks.py:13 | What `strip` keeps is an infix of the string, and every character it removes is whitespace |
| Text.RStripChar | tools/licensing/issue_license.py:19 | `rstrip(c)` removes a trailing run of `c` and nothing else; the rest does not end in `c` |
| Text.LStripChar | src/reporters/sarif.py:63 | `lstrip(c)` removes a leading run of `c` and nothing else; the rest does not start with `c` |
| Text.Split | src/licensing/validate.py:65 | The parts of `split` are never empty as a list, hold no separator, and joined give the string back |
| Text.SplitJoin | tools/licensing/issue_license.py:87 | Splitting a joined list of separator-free parts gives the parts back |
| Text.Lower | src/reporters/count.py:17 | The model's `lower` maps each character by itself through `Text.LowerChar`, so it keeps the length (see "Character handling" under "## Left out" for the one character Python lowers to two) |
| Text.UpperStartsWith | src/licensing/validate.py:150-161 | For a prefix `p` of capitals other than F, I and S, digits, `-` and `.`, the model's `Upper(s)` starts with `p` exactly when `s` starts with `p` ignoring ASCII case. In Python the same holds for the prefixes validate.py tests, `ENT-` and `PRO-`, which end in `-` |
| Text.UpperIsVariant | src/scanners/normalise_semgrep.py:25 | A string that upper-cases to a plain capital word is an ASCII-case variant of it |
| Text.UpperLonger | src/scanners/normalise_semgrep.py:25 | Upper-casing never shortens a string |
| Findings.IdReadBack | src/reporters/sarif.py:33 | A reporter reads back the id a normaliser wrote |
| Findings.ToolReadBack | src/reporters/sarif.py:24 | A reporter reads back the tool a normaliser wrote |
| Findings.SeverityReadBack | src/reporters/count.py:17 | A reporter reads back the severity a normaliser wrote |
| Findings.Read | src/reporters/count.py:13-16 | A missing file gives no findings, and a parsed list gives its items |
| Findings.Written | src/scanners/normalise_semgrep.py:41 | What a normaliser writes is ASCII text |
| Findings.NothingWritten | src/scanners/normalise_semgrep.py:16-18 | The `"[]"` written for a missing report is what an empty list would be written as |
| Semgrep.SeverityFor | src/scanners/normalise_semgrep.py:7-12 | The mapped severity is one of the four names |
| Semgrep.SeverityIgnoresCase | src/scanners/normalise_semgrep.py:25-29 | ERROR, WARNING, INFO and HINT in any ASCII case map to critical, high, medium and low. Anything else maps to low |
| Semgrep.OnlyErrorIsCritical | src/scanners/normalise_semgrep.py:25-29 | Critical exactly for the ASCII-case variants of ERROR |
| Semgrep.Severity | src/scanners/normalise_semgrep.py:25 | The severity is read exactly when the result and its `extra` are dicts and the severity is a string; otherwise `AttributeError` |
| Semgrep.MissingSeverityIsMedium | src/scanners/normalise_semgrep.py:25 | A result without a severity counts as medium |
| Semgrep.Record | src/scanners/normalise_semgrep.py:25-39 | A finding is built exactly when the severity can be read and `start`, `extra` and `metadata` are dicts. It carries tool semgrep, the mapped severity, `check_id` as id and title, the start line and the path |
| Semgrep.Results | src/scanners/normalise_semgrep.py:21 | No `results` gives nothing, a `results` list gives its items, and a report that is not a dict raises `AttributeError` |
| Semgrep.Normalise | src/scanners/normalise_semgrep.py:14-39 | A missing report gives no findings. Normalising succeeds exactly when every result makes a finding, and then gives one finding per result, in order, each tagged semgrep |
| Semgrep.Written | src/scanners/normalise_semgrep.py:41 | The text written is the dump of the findings, and `"[]"` for a missing report |
| Trivy.SeverityFor | src/scanners/normalise_trivy.py:7-13 | The mapped severity is one of the four names |
| Trivy.SeverityIgnoresCase | src/scanners/normalise_trivy.py:7-13 | CRITICAL, HIGH, MEDIUM and LOW in any ASCII case map to their own severity. UNKNOWN, and anything that upper-cases to none of the four, maps to low |
| Trivy.Severity | src/scanners/normalise_trivy.py:27 | The severity is read exactly when the vulnerability is a dict and its `Severity` (default `UNKNOWN`) is a string, and it is that string mapped through the table. Otherwise `AttributeError`: no `get` on a non-dict, no `upper` on a non-string |
| Trivy.MissingSeverityIsLow | src/scanners/normalise_trivy.py:27 | A vulnerability without a severity counts as low |
| Trivy.Record | src/scanners/normalise_trivy.py:27-43 | A finding is built exactly when the severity reads and the references can be sliced. It carries tool `trivy-<scan type>`, the id, the target as file, line 0, the CVSS and at most three references |
| Trivy.Vulnerabilities | src/scanners/normalise_trivy.py:26 | An entry without vulnerabilities gives none, and a non-dict entry raises `AttributeError` |
| Trivy.ResultFindings | src/scanners/normalise_trivy.py:25-43 | One finding per vulnerability of the entry, in order, each for that entry's target |
| Trivy.Results | src/scanners/normalise_trivy.py:24 | No `Results` gives nothing, and a report that is not a dict raises `AttributeError` |
| Trivy.PerResult | src/scanners/normalise_trivy.py:21-43 | The findings of each `Results` entry, one list per entry, in order |
| Trivy.Normalise | src/scanners/normalise_trivy.py:15-43 | A missing report gives nothing. Otherwise the findings are the per-entry lists concatenated, and normalising succeeds exactly when each entry does |
| Trivy.ToolIsScanType | src/scanners/normalise_trivy.py:30 | Every finding is tagged `trivy-` and the scan type |
| Trivy.FindingsShapedLikeVulnerabilities | src/scanners/normalise_trivy.py:24-28 | Each entry's findings are as many as its vulnerabilities |
| Trivy.OneFindingPerVulnerability | src/scanners/normalise_trivy.py:24-28 | There are as many findings as vulnerabilities across all targets |
| Trivy.FindingsInTargetOrder | src/scanners/normalise_trivy.py:24-43 | Vulnerability `j` of target `i` yields the finding after all those of earlier targets, carrying that target |
| Trivy.Written | src/scanners/normalise_trivy.py:45 | The text written is the dump of the findings, and `"[]"` for a missing report |
| Gitleaks.Record | src/scanners/normalise_gitleaks.py:25-39 | A finding is built exactly from a dict. It is tool gitleaks, critical, CWE-798 and the fixed OWASP tag, with file, line and match as reported |
| Gitleaks.Id | src/scanners/normalise_gitleaks.py:26 | The id is a string starting with `gitleaks-` |
| Gitleaks.IdNamesRule | src/scanners/normalise_gitleaks.py:26 | The id is `gitleaks-` followed by the rule id, or `gitleaks-unknown` without one |
| Gitleaks.Normalise | src/scanners/normalise_gitleaks.py:7-39 | No findings for a missing file, empty or `null` text, or a non-list document. Read errors raise, and a parse error raises the exception `json.loads` raised. A list gives one finding per entry exactly when every entry is a dict, each critical |
| Gitleaks.FromDocument | src/scanners/normalise_gitleaks.py:18-39 | The exception `json.loads` raised, no findings for a document that is not a list, and otherwise one critical finding per entry exactly when every entry is a dict |
| Gitleaks.NullWithNewline | src/scanners/normalise_gitleaks.py:13-14 | `" null\n"` counts as `null` once stripped, and yields no findings |
| Gitleaks.Written | src/scanners/normalise_gitleaks.py:41 | The text written is the dump of the findings, and `"[]"` where nothing was found |
| Checkov.PrefixMap | src/scanners/normalise_checkov.py:8-19 | Every prefix of every cloud maps to infrastructure protection |
| Checkov.FirstMatch | src/scanners/normalise_checkov.py:23-25 | The loop stops at the first prefix the id starts with, and none before it matches |
| Checkov.WafControl | src/scanners/normalise_checkov.py:21-26 | Protection exactly when some prefix of the cloud matches, otherwise the generic control. Raises only for a non-string id on a known cloud |
| Checkov.AwsControl | src/scanners/normalise_checkov.py:9-12 | On AWS, protection exactly for `CKV_AWS_` and `CKV2_AWS_` ids |
| Checkov.AzureAndGcpControl | src/scanners/normalise_checkov.py:13-18 | On Azure and GCP, protection exactly for `CKV_AZURE_` and `CKV_GCP_` ids |
| Checkov.UnknownCloudIsGeneric | src/scanners/normalise_checkov.py:22 | Any other cloud maps every check to the generic control |
| Checkov.FailedChecks | src/scanners/normalise_checkov.py:40 | A report without `results` has no failed checks, and a non-dict report raises `AttributeError` |
| Checkov.Checks | src/scanners/normalise_checkov.py:36-42 | A list of reports gives as many checks as its reports' failed checks together, and a single report gives its own |
| Checkov.ChecksInReportOrder | src/scanners/normalise_checkov.py:37-40 | Check `j` of report `i` comes after every check of the earlier reports |
| Checkov.Record | src/scanners/normalise_checkov.py:46-61 | A finding is built exactly when the check and `check` are dicts, `file_line_range[0]` exists and the control is found. It is checkov, high, with the id, that line and the control. The file is `repo_file_path`, else `file_path`, else `""`. The title is the check's name (the id without one), the description its name or the stock text, the fix its guideline. The code is the `indent=2` dump of `code_block` cut to 500 characters, and there is at most one reference |
| Checkov.GuidelineIsReference | src/scanners/normalise_checkov.py:59-60 | A truthy guideline is both the fix and the only reference; otherwise there are no references |
| Checkov.Normalise | src/scanners/normalise_checkov.py:28-61 | A missing report gives nothing. Otherwise one finding per check, in order, exactly when every check makes one, each checkov and high |
| Checkov.Written | src/scanners/normalise_checkov.py:63 | The text written is the dump of the findings, and `"[]"` for a missing report |
| Merge.ListIn | src/reporters/merge.py:12-18 | Reading succeeds exactly for a missing or parsed file. A list gives its items, and anything else gives nothing |
| Merge.Tag | src/reporters/merge.py:21-23 | Tagging succeeds exactly on a dict, or on a list or string already holding `"tool"`. A dict gains `tool` last when it lacks one and keeps every other member |
| Merge.Merge | src/reporters/merge.py:12-25 | Merging succeeds exactly when both files read and every new finding can be tagged. The result is the master list followed by the tagged new findings |
| Merge.TagTwice | src/reporters/merge.py:22-23 | Tagging is idempotent |
| Merge.MergedDictsAreTagged | src/reporters/merge.py:21-25 | A new dict finding ends up with its own tool, or the tool name, and otherwise unchanged |
| Merge.NothingNew | src/reporters/merge.py:16-18 | Merging a missing or non-list file leaves the master list as it was |
| Merge.Written | src/reporters/merge.py:26 | The written master file is ASCII, and is written exactly when the merge succeeds |
| Count.ParseName | src/reporters/count.py:7 | Severity names and counter levels are in one-to-one correspondence |
| Count.Rank | src/reporters/count.py:7 | A level's rank is the position of its name in `SEVERITY_ORDER` |
| Count.BumpOne | src/reporters/count.py:18-21 | Bumping a counter adds one to it, leaves the others alone and adds one to the total |
| Count.Tally | src/reporters/count.py:16-23 | The counters add up to the number of findings |
| Count.TallyCountsEach | src/reporters/count.py:16-21 | Each counter holds exactly the number of findings that go to it |
| Count.UnnamedCountsAsLow | src/reporters/count.py:17-21 | A finding without a severity, or with an unknown one, counts as low |
| Count.CapitalisedCounts | src/reporters/count.py:17 | `High` counts as high |
| Count.IndexOf | src/reporters/count.py:26 | `index` succeeds exactly for the four names and gives the name's position |
| Count.ThresholdCount | src/reporters/count.py:26-27 | The threshold count exists exactly for the four names. Any other name raises `ValueError` |
| Count.ThresholdMonotone | src/reporters/count.py:26-27 | A more lenient threshold never counts fewer findings |
| Count.ThresholdBounds | src/reporters/count.py:26-27 | The threshold count is at most the total. `low` counts everything and `critical` only the critical findings |
| Count.AllCriticalMeetEveryThreshold | src/reporters/count.py:26-27 | When every finding is critical, every threshold counts them all |
| Count.Report | src/reporters/count.py:9-37 | A summary exists exactly when the findings read, every severity lowers and the threshold is a name. The total is the number of findings and the sum of the four counters. The threshold count is at most the total |
| Count.ReportCountsEach | src/reporters/count.py:15-27 | Each counter reported holds the findings whose lowered severity names it, and the threshold count is the counters summed through the threshold's position in `SEVERITY_ORDER` |
| Count.ThresholdCountsAtOrAbove | src/reporters/count.py:25-27 | Summing the tallied counters through the threshold's position equals counting, finding by finding, those whose level ranks at the threshold or above |
| Count.SummaryText | src/reporters/count.py:38 | The summary text is ASCII |
| Count.Output | src/reporters/count.py:38 | Output exists exactly when a summary does, and is ASCII text ending in a newline |
| Sarif.Level | src/reporters/sarif.py:8-13 | The level lookup succeeds exactly for a hashable severity, and otherwise raises `TypeError` |
| Sarif.SecuritySeverity | src/reporters/sarif.py:46-49 | The security-severity lookup succeeds exactly for a hashable severity |
| Sarif.SeverityTables | src/reporters/sarif.py:8-13 | critical and high are errors rated 9.5 and 7.5. medium is a warning rated 5.0, and low a note rated 2.0. Anything else is a note rated 2.0 |
| Sarif.LevelMatchesSecuritySeverity | src/reporters/sarif.py:42-49 | An error is rated 9.5 or 7.5, a warning 5.0 and a note 2.0, in both directions |
| Sarif.HelpUri | src/reporters/sarif.py:40 | No truthy references gives `""`, and a non-empty list gives its first item |
| Sarif.MakeRule | src/reporters/sarif.py:35-51 | A rule is built exactly when the help URI, the level and the tags can be computed. It carries the id, the title, the description, the level, the tags (`cwe + owasp`) and the rating |
| Sarif.StartLine | src/reporters/sarif.py:54 | `max(1, line)` is at least 1, is the line when that is at least 1, and raises `TypeError` for non-numbers |
| Sarif.MakeResult | src/reporters/sarif.py:53-76 | A result is built exactly when the line, level, path and snippet can be computed. The URI is the path without its leading `/`, and the snippet is the first 200 of the code |
| Sarif.SnippetBounded | src/reporters/sarif.py:68 | A snippet holds at most 200 characters or items |
| Sarif.LineClamped | src/reporters/sarif.py:54 | A missing, zero or negative line starts at line 1 |
| Sarif.RunBuilt | src/reporters/sarif.py:32-77 | A run is built exactly when every result builds and every first finding of an id builds its rule |
| Sarif.RunResults | src/reporters/sarif.py:32-77 | A run holds one result per finding of its tool, in order |
| Sarif.RunRules | src/reporters/sarif.py:34-51 | A run holds one rule per first occurrence of an id, defined by that finding |
| Sarif.RuleIdsDistinct | src/reporters/sarif.py:34 | No two rules of a run have the same id |
| Sarif.ResultHasRule | src/reporters/sarif.py:33-57 | Every result's `ruleId` is the id of one of its run's rules |
| Sarif.Filed | src/reporters/sarif.py:24-25 | A finding is grouped exactly when it is a dict with a hashable tool, defaulting to `unknown` |
| Sarif.GroupSpec | src/reporters/sarif.py:22-25 | Grouping succeeds exactly when every finding can be filed. The groups are then one per distinct tool, in first-seen order, each with its findings in order |
| Sarif.ResultsPerFinding | src/reporters/sarif.py:27-91 | Across all runs there is one result per finding |
| Sarif.RunSizes | src/reporters/sarif.py:79-91 | Each run holds as many results as its group has findings |
| Sarif.DocumentShape | src/reporters/sarif.py:93-97 | The log is version 2.1.0 and holds one run per tool |
| Sarif.Written | src/reporters/sarif.py:99 | The log is written exactly when the runs are built, and is ASCII |
| Dedup.FirstsFresh | src/reporters/sarif.py:34 | Each first position holds a key not seen before it |
| Dedup.FirstsCover | src/reporters/sarif.py:34 | Every key equals, as a dict key, the key at some first position at or before it |
| Dedup.FirstsDistinct | src/reporters/sarif.py:34 | The first-seen keys are pairwise different dict keys |
| Dedup.ClassesPartition | src/reporters/sarif.py:25 | The sizes of the key classes add up to the number of keys |
| Dedup.CollectSpec | src/reporters/sarif.py:33-57 | The rules-and-results loop succeeds exactly when every step does, and then holds the expected table and list |
| Dedup.CollectOk | src/reporters/sarif.py:33-57 | The loop succeeds exactly when every key is hashable, every result builds and every first occurrence builds its entry |
| Dedup.FileAllIsClasses | src/reporters/sarif.py:22-25 | The `setdefault(...).append` loop builds exactly the classes: one per distinct key, first-seen order, members in order |
| Dedup.ClassesHoldAll | src/reporters/sarif.py:22-25 | Every finding is filed in exactly one class |
| Dedup.TableKeysDistinct | src/reporters/sarif.py:34-35 | The rules table holds no key twice |
| Dedup.EveryKeyKnown | src/reporters/sarif.py:34-35 | Every finding's id is in the rules table |
| Dedup.ClassesDistinct | src/reporters/sarif.py:22-25 | No two tool groups have the same tool |
| Dedup.ClassesCover | src/reporters/sarif.py:22-25 | Every finding's tool has its group, opened at or before it |
| Wrappers.MapAll | src/scanners/normalise_semgrep.py:24-39 | A loop with no error gives one result per element, in order. The first error ends it and is the error of some element |
| Wrappers.ConcatAt | src/scanners/normalise_checkov.py:39-40 | Item `j` of list `i` sits after all items of the lists before it |
| Pipeline.ReadBySeverity | src/reporters/count.py:17 | The counter reads a written finding's severity unchanged |
| Pipeline.CountedAsWritten | src/reporters/count.py:15-27 | Counting written findings succeeds for any of the four thresholds. The total is their number, and each counter holds the findings written with its severity |
| Pipeline.AllAtOneLevel | src/reporters/count.py:15-21 | Findings all written with one severity are all counted under it |
| Pipeline.SecretsCountAsCritical | src/scanners/normalise_gitleaks.py:28 | Every secret Gitleaks reports is counted critical and meets every threshold |
| Pipeline.MisconfigurationsCountAsHigh | src/scanners/normalise_checkov.py:50 | Every failed Checkov check is counted high and none critical |

## Left out

- Cryptography. The following are function parameters of the model, not computations:
  - Ed25519 signing and verification, with a key-pair predicate tying signer and verifier;
  - PEM key loading, public and private, with or without a password;
  - `json.loads` of the payload bytes, which yields a document or the reason it failed.
- Reading files. The file system enters only as what a read yields:
  - a missing, unreadable, undecodable, malformed or parsed JSON file; a malformed file carries which of the three `json.loads` failures it meets, not its text;
  - a missing, unreadable, undecodable or readable text file for Gitleaks, parsed by a `json.loads` parameter that yields a document or the reason it failed;
  - a missing, unreadable or readable key file.
- Writing files. Each write is the text written. Creating directories and the write itself are not modelled.
- Diagnostic output. Lines printed to stdout are not modelled: "License token written to", "Revoked jti added", "Updated", "Merged N findings", "SARIF written". The validator's verdict line and the counter's summary line are modelled.
- Environment inputs:
  - `time.time()` and `uuid.uuid4()` are parameters;
  - the `LICENSE_KEY` and passphrase variables are optional strings;
  - argument parsing is left out, and only the defaults and the issuer's plan choices are modelled.
- JSON floats are left out, because no modelled value needs them. `int()` on a float, and float severities or lines, are not modelled.
- Character handling:
  - Unicode digits accepted by `int()` are not modelled, only ASCII ones.
  - Case mapping covers ASCII and the non-ASCII characters whose Python case mapping produces ASCII. That is enough for every comparison the scripts make against ASCII words.
  - Characters whose Python upper case mixes an ASCII capital with a mark or modifier letter (`ẗ`, `ẚ`, `ẖ`, `ǰ`, `ẘ`, `ẙ`, `ŉ`) are kept unchanged by the model's `Upper`. Python's `'ẗ'.upper().startswith('T')` holds and the model's does not. A prefix that ends in `-`, as `ENT-` and `PRO-` do, cannot tell the two apart.
  - Lower-casing maps each character to exactly one character. Python lowers `İ` (U+0130) to two characters; the model leaves it unchanged, and no comparison the scripts make against ASCII words can tell the two apart.
  - `repr` treats every non-ASCII character above U+00A0 as printable. It appears only inside f-strings of values that are not strings.
- Python versions. CPython 3.11 semantics are assumed throughout:
  - The base64 decoder is CPython 3.11's non-strict `a2b_base64`.
  - Dict ordering is insertion order.
  - Slicing a dict, as `References[:3]` in `Trivy.Record` and `code[:200]` in `Sarif.MakeResult` can, raises `TypeError`. From CPython 3.12 it raises `KeyError`.
  - `int()` of decimal text with more than 4,300 digits raises `ValueError`, CPython's default `int_max_str_digits`. The model does not let the limit be changed.
  - `str()`, `repr()` and `json.dumps` of an integer with more than 4,300 digits also raise `ValueError`. The model spells every integer. An issued `exp` reaches that length only for a `--days` of close to 4,300 digits.
  - `json.loads` raises `ValueError` for an integer literal with more than 4,300 digits, and `RecursionError` for nesting past the recursion limit. Neither is a `JSONDecodeError`. The model has both failures. Which texts produce them is not modelled, because the recursion limit depends on the interpreter's stack.
- Base64Url.Decode: has no contract of its own; what it does is stated through Base64Url.RoundTrip and Base64Url.DecodeUrlText.
- Issuance.Kept: states only the shape of the kept flags; that it keeps exactly the non-empty stripped parts is Issuance.KeptStripped and Issuance.FeaturesRoundTrip.
- Ledger.RevokeAsWritten: states only the shape of its output; the cases where it loses the jti are Ledger.StringListLosesTheJti.
- `tools/licensing/generate_keypair.py`, the AI triage and threat-model scripts, and the PR-comment and summary reporters are not part of this model.

## Findings

| source | as written | input that shows it | evidently intended | confidence | as-written member | corrected member |
|---|---|---|---|---|---|---|
| src/licensing/validate.py:31-34 | `read_text(encoding="utf-8")` can raise `UnicodeDecodeError`, which the handler for `(json.JSONDecodeError, OSError)` does not catch | a revocations file holding the byte `0xff` | return `None`, so the validator prints `revocation_load_error`, as the docstring's "unreadable/corrupt (fail closed)" says | not executed | Licensing.UndecodableRevocationsCrash | Licensing.LoadRevocations |
| src/licensing/validate.py:31-33 | `json.loads` raises a plain `ValueError` for an integer literal of more than 4,300 digits, and `RecursionError` for deep nesting; the handler for `(json.JSONDecodeError, OSError)` catches neither | a revocations file `{"revoked_jti": [1111…1]}` with a 4,301-digit integer, or 100,000 nested `[` | return `None`, so the validator prints `revocation_load_error` | not executed | Licensing.UnparsableRevocationsCrash | Licensing.LoadRevocations |
| src/licensing/validate.py:40-42 | `set(revoked)` raises `TypeError` when the list holds an unhashable item | `{"revoked_jti": [[]]}` | return `None` (fail closed), like the other wrong structures | not executed | Licensing.NestedRevocationListCrashes | Licensing.LoadRevocations |
| tools/licensing/revoke_license.py:27-31 | `revoked_jti` is used as a list without checking it is one: a string is searched by substring and rewritten as its characters | `{"revoked_jti": "abc"}` with `--jti ab` writes `["a", "b", "c"]`, which lacks `ab` | refuse anything but a list, and write the old ids plus the jti | not executed | Ledger.StringListLosesTheJti | Ledger.Revoke |
