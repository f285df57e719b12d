/** The PayUMoney gateway object: merchant configuration, the outbound
    parameter map and its signature, and the check of a response. What the
    gateway calls but this model does not look into (the SHA-512 and
    SHA-256 digests, the validator's `url` and `numeric` rules) is handed
    in as a `Library` of functions. */
module PayUMoneyGateway {
  import opened PhpStrings
  import opened PayUHash

  const LiveEndPoint := "https://secure.payu.in/_payment"
  const TestEndPoint := "https://sandboxsecure.payu.in/_payment"
  const LiveEndPointForVerifyPayment := "https://www.payumoney.com/payment/op/getPaymentResponse"
  const TestEndPointForVerifyPayment := "https://www.payumoney.com/sandbox/payment/op/getPaymentResponse"
  const ServiceProvider := "payu_paisa"
  const HashMismatchError := "Hash Mismatch Error"

  /** The keys the constructor puts in the parameter map. */
  const DefaultKeys: set<string> := {"key", "txnid", "surl", "furl", "service_provider"}

  /** The fields the validator marks `required`. */
  const RequiredFields: seq<string> := [
    "key", "txnid", "surl", "furl", "firstname", "email", "phone", "productinfo", "service_provider", "amount"]

  /** The characters PHP's `trim` removes by default, which the `required`
      rule strips before testing for an empty value. */
  const Whitespace: set<char> := {' ', '\t', '\n', '\r', '\0', '\U{000B}'}

  /** The configured values, with the success and failure URLs already
      made absolute. */
  datatype Config = Config(
    merchantKey: string, salt: string, testMode: bool, authHeader: string,
    successUrl: string, failureUrl: string)

  /** Functions the gateway calls without this model looking into them. */
  datatype Library = Library(
    sha512: string -> string, sha256: string -> string,
    isUrl: string -> bool, isNumeric: string -> bool)

  /** What `response` returns: the error message, or the response unchanged. */
  datatype Reply = MismatchError(message: string) | Verified(response: Params)

  /** What `request` ends in: signed, or the missing-parameters exception. */
  datatype RequestResult = Signed | ParametersMissing

  /** What `verify` does: return false, or post to the status-query URL. */
  datatype StatusQuery = NoTransactionId | Post(url: string, headers: map<string, string>)

  /** `substr(hash('sha256', $seed), 0, 20)`, where the seed is the
      concatenation of `mt_rand()` and `microtime()`. */
  function GenerateTransactionId(sha256: string -> string, seed: string): (id: string)
    ensures |id| <= 20 && id <= sha256(seed)
    ensures |sha256(seed)| >= 20 ==> |id| == 20
  {
    Prefix(sha256(seed), 20)
  }

  /** With a SHA-256 digest of the usual shape (64 lower-case hex
      characters), a transaction id is 20 lower-case hex characters. */
  lemma TransactionIdShape(sha256: string -> string, seed: string)
    requires HexDigestFunction(sha256, 64)
    ensures IsLowerHex(GenerateTransactionId(sha256, seed), 20)
  {
    var d := sha256(seed);
    var id := GenerateTransactionId(sha256, seed);
    assert IsLowerHex(d, 64);
    forall i | 0 <= i < |id| ensures id[i] in HexDigits {
      assert id[i] == d[i];
    }
  }

  /** The parameter map the constructor builds. */
  function Defaults(config: Config, txnid: string): (m: Params)
    ensures m.Keys == DefaultKeys
    ensures Field(m, "key") == config.merchantKey && Field(m, "txnid") == txnid
    ensures Field(m, "surl") == config.successUrl && Field(m, "furl") == config.failureUrl
    ensures Field(m, "service_provider") == ServiceProvider
  {
    map["key" := config.merchantKey, "txnid" := txnid, "surl" := config.successUrl,
        "furl" := config.failureUrl, "service_provider" := ServiceProvider]
  }

  /** `array_merge($a, $b)` on string keys: every key of either map, with
      the value from `b` wherever `b` has the key. */
  function ArrayMerge(a: Params, b: Params): (r: Params)
    ensures r.Keys == a.Keys + b.Keys
    ensures forall k :: k in b ==> r[k] == b[k]
    ensures forall k :: k in a && k !in b ==> r[k] == a[k]
  {
    a + b
  }

  /** The validator's `required` rule: present and not blank after
      trimming, that is, not made of whitespace only. */
  predicate Required(m: Params, name: string)
    ensures Required(m, name) <==> name in m && !AllIn(m[name], Whitespace)
  {
    if name in m then
      TrimEmptyIff(m[name], Whitespace);
      Trim(m[name], Whitespace) != ""
    else
      false
  }

  /** The validator's rule set: every required field present, `surl` and
      `furl` URLs, `amount` numeric. */
  predicate ParametersValid(m: Params, lib: Library)
    ensures ParametersValid(m, lib) <==>
      && (forall i :: 0 <= i < |RequiredFields| ==>
            RequiredFields[i] in m && !AllIn(m[RequiredFields[i]], Whitespace))
      && lib.isUrl(Field(m, "surl")) && lib.isUrl(Field(m, "furl"))
      && lib.isNumeric(Field(m, "amount"))
  {
    && (forall i :: 0 <= i < |RequiredFields| ==> Required(m, RequiredFields[i]))
    && lib.isUrl(Field(m, "surl")) && lib.isUrl(Field(m, "furl"))
    && lib.isNumeric(Field(m, "amount"))
  }

  class Gateway {
    var parameters: Params
    var testMode: bool
    var merchantKey: string
    var salt: string
    var hash: string
    var authHeader: string
    const lib: Library

    /** The constructor's keys are never removed: merging only adds keys. */
    ghost predicate Valid()
      reads this
    {
      DefaultKeys <= parameters.Keys
    }

    constructor (config: Config, lib: Library, seed: string)
      ensures Valid()
      ensures merchantKey == config.merchantKey && salt == config.salt
      ensures testMode == config.testMode && authHeader == config.authHeader
      ensures this.lib == lib && hash == ""
      ensures parameters == Defaults(config, GenerateTransactionId(lib.sha256, seed))
    {
      merchantKey := config.merchantKey;
      salt := config.salt;
      testMode := config.testMode;
      authHeader := config.authHeader;
      hash := "";
      this.lib := lib;
      parameters := Defaults(config, GenerateTransactionId(lib.sha256, seed));
    }

    /** The payment URL: the sandbox one in test mode, the live one otherwise. */
    function EndPoint(): (url: string)
      reads this
      ensures url == TestEndPoint <==> testMode
      ensures url == LiveEndPoint <==> !testMode
    {
      if testMode then TestEndPoint else LiveEndPoint
    }

    /** The status-query URL, chosen by the same flag. */
    function EndPointForPaymentVerification(): (url: string)
      reads this
      ensures url == TestEndPointForVerifyPayment <==> testMode
      ensures url == LiveEndPointForVerifyPayment <==> !testMode
    {
      if testMode then TestEndPointForVerifyPayment else LiveEndPointForVerifyPayment
    }

    /** The transaction id the request carries, the value signed in the `txnid` slot. */
    function TxnId(): (id: string)
      reads this
      requires Valid()
      ensures id == Field(parameters, "txnid")
    {
      parameters["txnid"]
    }

    /** Merges the caller's fields over the current ones, validates the
      result and, only if it is valid, signs it. A failed validation leaves
      the merged map in place and the previous hash untouched. */
    method Request(p: Params) returns (result: RequestResult)
      requires Valid()
      modifies this`parameters, this`hash
      ensures Valid()
      ensures parameters == ArrayMerge(old(parameters), p)
      ensures TxnId() == if "txnid" in p then p["txnid"] else old(TxnId())
      ensures result == Signed <==> ParametersValid(parameters, lib)
      ensures result == Signed ==> hash == RequestHash(parameters, salt, lib.sha512)
      ensures result == ParametersMissing ==> hash == old(hash)
    {
      parameters := ArrayMerge(parameters, p);
      if !ParametersValid(parameters, lib) {
        return ParametersMissing;
      }
      Encrypt();
      return Signed;
    }

    /** Builds the request pre-image field by field and stores the
      lower-cased digest in `hash`. */
    method Encrypt()
      modifies this`hash
      ensures hash == RequestHash(parameters, salt, lib.sha512)
    {
      hash := "";
      var hashVarsSeq := SignFields;
      var hashString := "";
      for i := 0 to |hashVarsSeq|
        invariant hashString == PipeJoined(parameters, hashVarsSeq[..i])
      {
        var name := hashVarsSeq[i];
        PipeJoinedPrefixStep(parameters, hashVarsSeq, i);
        hashString := hashString + (if name in parameters then parameters[name] else "");
        hashString := hashString + "|";
      }
      assert hashVarsSeq[..|hashVarsSeq|] == SignFields;
      hashString := hashString + salt;
      hash := ToLower(lib.sha512(hashString));
    }

    /** Builds the response pre-image (salt first, then the response slots,
      then the whole-string trim of '|') and returns its lower-cased digest. */
    method Decrypt(response: Params) returns (responseHash: string)
      ensures responseHash == ResponseHash(response, salt, lib.sha512)
    {
      var hashVarsSeq := VerifyFields;
      var hashString := salt + "|";
      for i := 0 to |hashVarsSeq|
        invariant hashString == salt + "|" + PipeJoined(response, hashVarsSeq[..i])
      {
        var name := hashVarsSeq[i];
        PrefixedPipeJoinedStep(response, hashVarsSeq, i, salt + "|");
        hashString := hashString + (if name in response then response[name] else "");
        hashString := hashString + "|";
      }
      assert hashVarsSeq[..|hashVarsSeq|] == VerifyFields;
      hashString := Trim(hashString, Pipe);
      responseHash := ToLower(lib.sha512(hashString));
    }

    /** Accepts a response exactly when the expected hash equals the
      response's `hash` (absent reads as ""); a rejected response gets the
      mismatch message, an accepted one comes back unchanged. */
    method Response(response: Params) returns (reply: Reply)
      ensures reply == MismatchError(HashMismatchError) <==>
        ResponseHash(response, salt, lib.sha512) != Field(response, "hash")
      ensures reply != MismatchError(HashMismatchError) ==> reply == Verified(response)
    {
      var responseHash := Decrypt(response);
      if responseHash != Field(response, "hash") {
        return MismatchError(HashMismatchError);
      }
      return Verified(response);
    }

    /** Without a `txnid` nothing is sent; otherwise the status query is a
      POST to the verification URL naming the merchant key and the id. */
    method Verify(p: Params) returns (query: StatusQuery)
      ensures query == NoTransactionId <==> "txnid" !in p
      ensures query.Post? ==>
        && query.url == EndPointForPaymentVerification() + "?merchantKey=" + merchantKey +
                        "&merchantTransactionIds=" + p["txnid"]
        && query.headers == map["authorization" := authHeader, "cache-control" := "no-cache",
                                "Content-Type" := "application/json"]
    {
      if "txnid" !in p {
        return NoTransactionId;
      }
      var url := EndPointForPaymentVerification() + "?merchantKey=" + merchantKey +
                 "&merchantTransactionIds=" + p["txnid"];
      query := Post(url, map["authorization" := authHeader, "cache-control" := "no-cache",
                             "Content-Type" := "application/json"]);
    }
  }

  /** With a digest of the usual shape, a response without a `hash` field
      (or with an empty one) is always rejected. */
  lemma MissingHashRejected(response: Params, salt: string, sha512: string -> string)
    requires HexDigestFunction(sha512, 128)
    requires Field(response, "hash") == ""
    ensures ResponseHash(response, salt, sha512) != Field(response, "hash")
  {
    SignaturesAreHex(response, salt, sha512);
  }
}
