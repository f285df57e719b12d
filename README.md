# PayUMoney request signing and response verification

A Dafny model of the PayUMoney gateway of the `indipay` Laravel package
(`src/Gateways/PayUMoneyGateway.php`). A merchant sends a payment request
that carries a SHA-512 signature. The signature covers sixteen fields and a
shared secret (the salt). When the processor answers, the merchant
recomputes a second signature over the response fields, in a different
order and with the salt in front, and rejects the response when the
signatures differ.

The project has three modules:

- `PhpStrings` (`php_strings.dfy`) models the PHP built-ins the gateway
  relies on: `strtolower`, `trim` with a character list, `explode` and
  `substr($s, 0, $n)`.
- `PayUHash` (`payu_hash.dfy`) models the signing scheme as pure functions:
  - the two field orders and the "absent reads as empty" lookup;
  - the request pre-image (every value followed by `|`, the salt appended
    with no separator);
  - the response pre-image (the salt and `|` first, seventeen slots, then a
    whole-string `trim` of `|`);
  - the lower-cased digests.

  It also holds the lemmas about them: layout, independence from unrelated
  fields, absent equals empty, decoding by `explode` (positions never
  shift), injectivity, and the consequences of the trim.
- `PayUMoneyGateway` (`payu_gateway.dfy`) models the gateway object. The
  class `Gateway` holds the parameter map, the salt, the test-mode flag and
  the stored hash. Its methods are:
  - the constructor, which sets the defaults;
  - the endpoint selection;
  - `Request`, which merges, validates and signs;
  - `Encrypt` and `Decrypt`, the `foreach` loops, each proved against the
    pre-image functions;
  - `Response`, which accepts or rejects a response;
  - `Verify`, which builds the status query.

  The module also holds the transaction-id generator.

The SHA-512 and SHA-256 digests are never looked into. Each is a parameter
of type `string -> string`, so every property holds for any digest
function. Where a property needs the usual digest shape (128 or 64
lower-case hex characters), it takes that shape as an explicit hypothesis
(`HexDigestFunction`).

The response string is trimmed with `trim($hash_string, '|')` at line 166
of `src/Gateways/PayUMoneyGateway.php`. That call strips every leading and
every trailing `|`, not one per end. This has two consequences:
- A response whose `key` is empty loses the separator after `txnid` too, and
  a key of `|` verifies like an empty key.
- A salt that begins with `|` loses that character.

`VerifyPreimageEmptyKey`, `ResponseHashKeyPipeCollision` and
`ResponseHashSaltLeadingPipe` state these effects.

## Model

| member | source | states |
|---|---|---|
| `PhpStrings.ToLower` | src/Gateways/PayUMoneyGateway.php:144 | `strtolower`: the length is kept, no upper-case letter remains, non-letters are unchanged and 'A'..'Z' move to 'a'..'z' |
| `PhpStrings.ToLowerKeepsHex` | src/Gateways/PayUMoneyGateway.php:168 | lower-casing a lower-case hex digest leaves it unchanged |
| `PhpStrings.Trim` | src/Gateways/PayUMoneyGateway.php:166 | `trim($s,'|')`: the result neither starts nor ends with a trimmed character; it is a contiguous slice of the input, and everything cut off on either side consists of trimmed characters |
| `PhpStrings.TrimUnique` | src/Gateways/PayUMoneyGateway.php:166 | the trim is the unique slice between a maximal leading run and a maximal trailing run of trimmed characters (all of them, not just one) |
| `PhpStrings.Prefix` | src/Gateways/PayUMoneyGateway.php:173 | `substr($s, 0, 20)`: a prefix of the input, of length 20 or the input's length if shorter |
| `PayUHash.Field` | src/Gateways/PayUMoneyGateway.php:139 | `isset($m[$f]) ? $m[$f] : ''` (also line 162): the stored value when the field is present, "" when it is absent |
| `PayUHash.PipeJoined` | src/Gateways/PayUMoneyGateway.php:138-141 | the string the `foreach` loops build (also lines 161-164): each named field's value followed by one `|`, so it has at least one character per field |
| `PayUHash.SignPreimage` | src/Gateways/PayUMoneyGateway.php:134-143 | the request pre-image: the sixteen joined fields, then the salt; it ends with the salt, preceded by the `|` that follows `udf10` |
| `PayUHash.RequestHash` | src/Gateways/PayUMoneyGateway.php:143-144 | the request signature contains no upper-case letter and is as long as the digest of the pre-image |
| `PayUHash.SignPreimageLayout` | src/Gateways/PayUMoneyGateway.php:134-143 | the request pre-image is `key|txnid|amount|productinfo|firstname|email|udf1|...|udf10|` (each value, or "" if absent, followed by `|`), then the salt with no separator before it |
| `PayUHash.RequestHashDependsOnSignFields` | src/Gateways/PayUMoneyGateway.php:138-141 | two maps that agree on the sixteen signed fields have the same pre-image and signature, whatever other fields they hold |
| `PayUHash.RequestHashAbsentIsEmpty` | src/Gateways/PayUMoneyGateway.php:139-140 | removing a field and setting it to "" give the same pre-image and signature |
| `PayUHash.ExplodePipeJoined` | src/Gateways/PayUMoneyGateway.php:138-141 | with `|`-free values, exploding the joined fields on `|` gives each value at its own position, an absent field as an empty piece |
| `PayUHash.SignPreimageRoundTrip` | src/Gateways/PayUMoneyGateway.php:134-143 | with `|`-free values and salt, the request pre-image splits on `|` into the sixteen values in order, followed by the salt |
| `PayUHash.SignPreimageInjective` | src/Gateways/PayUMoneyGateway.php:134-143 | with `|`-free values and salts, equal request pre-images imply equal salts and equal values in all sixteen fields, so changing a signed field changes the digested string |
| `PayUHash.VerifyPreimageUntrimmed` | src/Gateways/PayUMoneyGateway.php:157-164 | the response string before trimming: the salt, `|`, the first sixteen slots each followed by `|`, then the value of `key` and a final `|` |
| `PayUHash.VerifyPreimage` | src/Gateways/PayUMoneyGateway.php:166 | the trimmed response string: it neither starts nor ends with `|`, and it is strictly shorter than the untrimmed one, since at least the final `|` goes |
| `PayUHash.ResponseHash` | src/Gateways/PayUMoneyGateway.php:166-168 | the expected response hash contains no upper-case letter and is as long as the digest of the trimmed pre-image |
| `PayUHash.VerifyPreimageLayout` | src/Gateways/PayUMoneyGateway.php:157-164 | before trimming, the response string is `salt|`, then `status`, five slots named by the empty string, then `udf5..udf1, email, firstname, productinfo, amount, txnid, key`, each value followed by `|` |
| `PayUHash.VerifyPreimageNominal` | src/Gateways/PayUMoneyGateway.php:157-166 | when the salt is non-empty and does not start with `|`, and the key is non-empty and does not end with `|`, the trim removes exactly the final separator |
| `PayUHash.VerifyPreimageEmptyKey` | src/Gateways/PayUMoneyGateway.php:166 | with an empty or absent key, the pre-image is the trim of the first sixteen slots, so the separator after `txnid` is lost too |
| `PayUHash.ResponseHashKeyPipeCollision` | src/Gateways/PayUMoneyGateway.php:166 | a response with `key` = `|` has the same pre-image and expected hash as one without a key |
| `PayUHash.ResponseHashSaltLeadingPipe` | src/Gateways/PayUMoneyGateway.php:159-166 | a salt `|s` verifies exactly as the salt `s` |
| `PayUHash.VerifyPreimageRoundTrip` | src/Gateways/PayUMoneyGateway.php:157-166 | in the nominal case with `|`-free values, the response pre-image splits on `|` into the salt followed by the seventeen slot values |
| `PayUHash.VerifyPreimageInjective` | src/Gateways/PayUMoneyGateway.php:157-166 | in that case, equal response pre-images imply equal slot values, so altering one field or swapping two different values changes the digested string |
| `PayUHash.SignaturesAreHex` | src/Gateways/PayUMoneyGateway.php:144 | with a digest of 128 lower-case hex characters, both signatures are that digest unchanged, 128 lower-case hex characters |
| `PayUMoneyGateway.GenerateTransactionId` | src/Gateways/PayUMoneyGateway.php:173 | the id is a prefix of the SHA-256 digest of the seed, at most 20 characters long and exactly 20 when the digest is that long |
| `PayUMoneyGateway.TransactionIdShape` | src/Gateways/PayUMoneyGateway.php:173 | with a 64-character lower-case hex digest, the id is 20 lower-case hex characters |
| `PayUMoneyGateway.Defaults` | src/Gateways/PayUMoneyGateway.php:37-41 | the constructor's map has exactly the keys `key`, `txnid`, `surl`, `furl`, `service_provider`, holding the merchant key, the generated id, the two URLs and `payu_paisa` |
| `PayUMoneyGateway.ArrayMerge` | src/Gateways/PayUMoneyGateway.php:59 | `array_merge` with string keys: the union of the keys, the caller's value wherever the caller has the key, the old value elsewhere |
| `PayUMoneyGateway.Required` | src/Gateways/PayUMoneyGateway.php:108-118 | the `required` rule: the field is present and its value is not made only of the characters PHP's `trim` removes by default (spaces, tabs, line breaks, NUL, vertical tab) |
| `PayUMoneyGateway.ParametersValid` | src/Gateways/PayUMoneyGateway.php:106-125 | validation passes exactly when the ten fields `key`, `txnid`, `surl`, `furl`, `firstname`, `email`, `phone`, `productinfo`, `service_provider` and `amount` are all present and not blank, `surl` and `furl` pass the `url` rule, and `amount` passes the `numeric` rule |
| `PayUMoneyGateway.Gateway.constructor` | src/Gateways/PayUMoneyGateway.php:30-42 | the configuration is copied into the fields, the hash is empty and the parameter map is the defaults with a freshly generated transaction id |
| `PayUMoneyGateway.Gateway.EndPoint` | src/Gateways/PayUMoneyGateway.php:44-47 | the payment URL is the sandbox one exactly when test mode is on, and the live one exactly when it is off |
| `PayUMoneyGateway.Gateway.EndPointForPaymentVerification` | src/Gateways/PayUMoneyGateway.php:52-55 | the status-query URL is the sandbox one exactly when test mode is on, and the live one exactly when it is off |
| `PayUMoneyGateway.Gateway.TxnId` | src/Gateways/PayUMoneyGateway.php:176-179 | the transaction id is the value the request signs in the `txnid` slot |
| `PayUMoneyGateway.Gateway.Request` | src/Gateways/PayUMoneyGateway.php:57-67 | the map becomes the old map overridden by the caller's fields, with every default key kept; the request is signed exactly when validation passes, and the stored hash is then the signature of the merged map; on failure the merged map stays and the hash is untouched |
| `PayUMoneyGateway.Gateway.Encrypt` | src/Gateways/PayUMoneyGateway.php:131-145 | the loop stores the request signature of the current map and salt in `hash` |
| `PayUMoneyGateway.Gateway.Decrypt` | src/Gateways/PayUMoneyGateway.php:154-169 | the loop returns the lower-cased digest of the trimmed response pre-image |
| `PayUMoneyGateway.Gateway.Response` | src/Gateways/PayUMoneyGateway.php:88-99 | the reply is `Hash Mismatch Error` exactly when the expected hash differs from the response's `hash`; otherwise it is the response unchanged. An absent `hash` is read as "" here, where PHP warns (see "Left out") |
| `PayUMoneyGateway.Gateway.Verify` | src/Gateways/PayUMoneyGateway.php:186-199 | without a `txnid` nothing is sent; otherwise the query POSTs to the selected verification URL with the merchant key, the id and the three headers |
| `PayUMoneyGateway.MissingHashRejected` | src/Gateways/PayUMoneyGateway.php:94 | with a digest of the usual shape, a response with no `hash` field, or an empty one, is always rejected |

## Left out

- The SHA-512 and SHA-256 algorithms are not modelled; each digest is an arbitrary function passed in. Tamper resistance and collision freedom depend on cryptographic assumptions and are not stated. The injectivity lemmas stop at the string that is digested.
- `mt_rand()` and `microtime()` are replaced by a `seed` string given to the constructor. The uniqueness and unpredictability of transaction ids are probabilistic claims and are not modelled; only the 20-character prefix shape is.
- `Config::get` and `url()` in the constructor are replaced by the `Config` value passed in, with the URLs already absolute.
- `send` (`View::make`, `Log::info`) renders a view and writes a log entry. It is not part of this model.
- `checkParameters` is partly modelled. The `required` rule is modelled as "present and not blank after PHP's default trim". The validator's `url` and `numeric` rules are functions passed in, and the exception is the `ParametersMissing` result.
- `Gateway.Verify`: the Guzzle POST and the `json_decode` of the answer are network I/O. The model returns the query that would be sent, not the processor's answer.
- `Gateway.Response`: line 94 reads `$response['hash']` without an `isset` guard. The model reads an absent `hash` as "", which never matches a digest of the usual shape (`MissingHashRejected`), so such a response gets the mismatch message. PHP instead raises an undefined-key warning and reads null. Under Laravel's error handler that warning becomes an `ErrorException` thrown out of `response`. The warning and the exception are not modelled.
- `Gateway.Response`: the comparison is string equality. PHP's `!=` compares two numeric-looking strings as numbers, so two different digests made only of digits, or of the form digits-`e`-digits, could compare equal in PHP. The model does not accept those.
- `PayUMoneyGateway.ArrayMerge`: PHP turns decimal-integer keys into integer keys, and `array_merge` renumbers those. Field names are taken to be non-numeric strings.
- `PayUHash.Field`: PHP's `isset` is false for an entry holding `null`, and PHP values can be non-strings. Parameter values here are always strings.
- `PhpStrings.ToLower` maps ASCII letters only, as PHP 8.2 and later do. Older PHP versions map according to the locale.
- The two field orders are kept as sequence constants that hold the pieces of the pipe-separated strings at lines 134 and 157. The `explode` of those literals is not re-derived; `Explode` is used only to decode pre-images.
- `$request->all()` in `response` is taken to be the response map itself.
