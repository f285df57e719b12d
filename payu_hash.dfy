/** The PayUMoney signing scheme: which fields are hashed, in which order,
    where the salt goes, and how the resulting string is trimmed, digested
    and lower-cased. The SHA-512 digest itself is a parameter `sha512` of
    type `string -> string` and is never looked into. */
module PayUHash {
  import opened PhpStrings

  /** A parameter map as PHP holds it: field name to field value. */
  type Params = map<string, string>

  const Pipe: set<char> := {'|'}

  /** The request field order: the pieces of the pipe-separated sequence
      the request signature is computed over. */
  const SignFields: seq<string> := [
    "key", "txnid", "amount", "productinfo", "firstname", "email",
    "udf1", "udf2", "udf3", "udf4", "udf5", "udf6", "udf7", "udf8", "udf9", "udf10"]

  /** The response field order: `status`, five slots named by the empty
      string (processor-internal fields), then the request fields
      `udf5`..`key` in reverse. */
  const VerifyFields: seq<string> := [
    "status", "", "", "", "", "",
    "udf5", "udf4", "udf3", "udf2", "udf1", "email", "firstname", "productinfo", "amount", "txnid", "key"]

  /** `isset($m[$name]) ? $m[$name] : ''`: an absent field reads as "". */
  function Field(m: Params, name: string): (v: string)
    ensures name in m ==> v == m[name]
    ensures name !in m ==> v == ""
  {
    if name in m then m[name] else ""
  }

  /** The values of `names` in order, absent ones as "". */
  function Values(m: Params, names: seq<string>): (vs: seq<string>)
    ensures |vs| == |names|
    ensures forall i :: 0 <= i < |names| ==> vs[i] == Field(m, names[i])
  {
    seq(|names|, i requires 0 <= i < |names| => Field(m, names[i]))
  }

  /** The value of each of `names` followed by '|', the last one included. */
  function PipeJoined(m: Params, names: seq<string>): (s: string)
    ensures |s| >= |names|
  {
    if names == [] then "" else Field(m, names[0]) + "|" + PipeJoined(m, names[1..])
  }

  /** One step of the join, at any position of the sequence. */
  lemma PipeJoinedAt(m: Params, names: seq<string>, k: nat)
    requires k < |names|
    ensures PipeJoined(m, names[k..]) == Field(m, names[k]) + "|" + PipeJoined(m, names[k + 1..])
  {
    assert names[k..][1..] == names[k + 1..];
  }

  predicate PipeFree(s: string) {
    '|' !in s
  }

  /** No value of `names` contains the separator. */
  predicate PipeFreeValues(m: Params, names: seq<string>) {
    forall i :: 0 <= i < |names| ==> PipeFree(Field(m, names[i]))
  }

  /** Appending one field to the sequence appends its value and one separator. */
  lemma {:induction false} PipeJoinedSnoc(m: Params, names: seq<string>, name: string)
    ensures PipeJoined(m, names + [name]) == PipeJoined(m, names) + Field(m, name) + "|"
  {
    if names == [] {
      assert names + [name] == [name];
    } else {
      assert (names + [name])[1..] == names[1..] + [name];
      PipeJoinedSnoc(m, names[1..], name);
    }
  }

  /** One step of a loop over `names`: joining one more field. */
  lemma PipeJoinedPrefixStep(m: Params, names: seq<string>, i: nat)
    requires i < |names|
    ensures PipeJoined(m, names[..i + 1]) == PipeJoined(m, names[..i]) + Field(m, names[i]) + "|"
  {
    assert names[..i + 1] == names[..i] + [names[i]];
    PipeJoinedSnoc(m, names[..i], names[i]);
  }

  /** The same step when the loop's string starts with a fixed prefix. */
  lemma PrefixedPipeJoinedStep(m: Params, names: seq<string>, i: nat, pre: string)
    requires i < |names|
    ensures pre + PipeJoined(m, names[..i + 1]) == pre + PipeJoined(m, names[..i]) + Field(m, names[i]) + "|"
  {
    PipeJoinedPrefixStep(m, names, i);
    var p := PipeJoined(m, names[..i]);
    var v := Field(m, names[i]);
    assert pre + (p + v + "|") == pre + p + v + "|";
  }

  /** The joined string depends only on the values the sequence names. */
  lemma {:induction false} PipeJoinedDependsOnValues(m1: Params, m2: Params, names: seq<string>)
    requires forall i :: 0 <= i < |names| ==> Field(m1, names[i]) == Field(m2, names[i])
    ensures PipeJoined(m1, names) == PipeJoined(m2, names)
  {
    if names != [] {
      assert Field(m1, names[0]) == Field(m2, names[0]);
      PipeJoinedDependsOnValues(m1, m2, names[1..]);
    }
  }

  /** Regrouping a concatenation of four strings. */
  lemma ConcatRegroup(a: string, b: string, c: string, d: string)
    ensures a + b + c + d == a + b + (c + d)
  {
  }

  /** Decoding: when no value contains '|', exploding the joined string on
      '|' gives back the values one per piece, an absent field as an empty
      piece in its own position. */
  lemma {:induction false} ExplodePipeJoined(m: Params, names: seq<string>, tail: string)
    requires PipeFreeValues(m, names)
    ensures Explode('|', PipeJoined(m, names) + tail) == Values(m, names) + Explode('|', tail)
  {
    if names != [] {
      var v := Field(m, names[0]);
      assert PipeFree(v);
      assert PipeFreeValues(m, names[1..]) by {
        forall i | 0 <= i < |names[1..]| ensures PipeFree(Field(m, names[1..][i])) {
          assert names[1..][i] == names[i + 1];
        }
      }
      calc {
        Explode('|', PipeJoined(m, names) + tail);
        { ConcatRegroup(v, ['|'], PipeJoined(m, names[1..]), tail); }
        Explode('|', v + ['|'] + (PipeJoined(m, names[1..]) + tail));
        { ExplodePiece('|', v, PipeJoined(m, names[1..]) + tail); }
        [v] + Explode('|', PipeJoined(m, names[1..]) + tail);
        { ExplodePipeJoined(m, names[1..], tail); }
        [v] + (Values(m, names[1..]) + Explode('|', tail));
        { assert [v] + Values(m, names[1..]) == Values(m, names); }
        Values(m, names) + Explode('|', tail);
      }
    } else {
      assert PipeJoined(m, names) + tail == tail;
      assert Values(m, names) == [];
    }
  }

  // ---------------------------------------------------------------------
  // Request signature (the outbound direction)

  /** The string the request signature is computed over: every request
      field's value followed by '|', then the salt with no separator before it. */
  function SignPreimage(m: Params, salt: string): (s: string)
    ensures |s| >= |SignFields| + |salt|
    ensures s[|s| - |salt|..] == salt
    ensures s[|s| - |salt| - 1] == '|'
  {
    assert SignFields == SignFields[..15] + ["udf10"];
    PipeJoinedSnoc(m, SignFields[..15], "udf10");
    PipeJoined(m, SignFields) + salt
  }

  /** The request signature: the lower-cased digest of the pre-image. */
  function RequestHash(m: Params, salt: string, sha512: string -> string): (h: string)
    ensures HasNoUpper(h)
    ensures |h| == |sha512(SignPreimage(m, salt))|
  {
    ToLower(sha512(SignPreimage(m, salt)))
  }

  lemma SignLayoutEnd(m: Params)
    ensures PipeJoined(m, SignFields[12..]) ==
      Field(m, "udf7") + "|" + (Field(m, "udf8") + "|" + (Field(m, "udf9") + "|" + (
      Field(m, "udf10") + "|" + (""))))
  {
    PipeJoinedAt(m, SignFields, 12);
    PipeJoinedAt(m, SignFields, 13);
    PipeJoinedAt(m, SignFields, 14);
    PipeJoinedAt(m, SignFields, 15);
    assert SignFields[16..] == [];
  }

  lemma SignLayoutTail(m: Params)
    ensures PipeJoined(m, SignFields[8..]) ==
      Field(m, "udf3") + "|" + (Field(m, "udf4") + "|" + (Field(m, "udf5") + "|" + (
      Field(m, "udf6") + "|" + (PipeJoined(m, SignFields[12..])))))
  {
    PipeJoinedAt(m, SignFields, 8);
    PipeJoinedAt(m, SignFields, 9);
    PipeJoinedAt(m, SignFields, 10);
    PipeJoinedAt(m, SignFields, 11);
  }

  lemma SignLayoutHead(m: Params)
    ensures PipeJoined(m, SignFields) ==
      Field(m, "key") + "|" + (Field(m, "txnid") + "|" + (Field(m, "amount") + "|" + (
      Field(m, "productinfo") + "|" + (Field(m, "firstname") + "|" + (Field(m, "email") + "|" + (
      Field(m, "udf1") + "|" + (Field(m, "udf2") + "|" + (PipeJoined(m, SignFields[8..])))))))))
  {
    assert SignFields[0..] == SignFields;
    PipeJoinedAt(m, SignFields, 0);
    PipeJoinedAt(m, SignFields, 1);
    PipeJoinedAt(m, SignFields, 2);
    PipeJoinedAt(m, SignFields, 3);
    PipeJoinedAt(m, SignFields, 4);
    PipeJoinedAt(m, SignFields, 5);
    PipeJoinedAt(m, SignFields, 6);
    PipeJoinedAt(m, SignFields, 7);
  }

  /** The request pre-image written out field by field. */
  lemma SignPreimageLayout(m: Params, salt: string)
    ensures SignPreimage(m, salt) ==
      Field(m, "key") + "|" + (Field(m, "txnid") + "|" + (Field(m, "amount") + "|" + (
      Field(m, "productinfo") + "|" + (Field(m, "firstname") + "|" + (Field(m, "email") + "|" + (
      Field(m, "udf1") + "|" + (Field(m, "udf2") + "|" + (Field(m, "udf3") + "|" + (
      Field(m, "udf4") + "|" + (Field(m, "udf5") + "|" + (Field(m, "udf6") + "|" + (
      Field(m, "udf7") + "|" + (Field(m, "udf8") + "|" + (Field(m, "udf9") + "|" + (
      Field(m, "udf10") + "|" + ("")))))))))))))))) + salt
  {
    SignLayoutHead(m);
    SignLayoutTail(m);
    SignLayoutEnd(m);
  }

  /** Only the sixteen request fields and the salt matter: two maps that
      agree on those fields (whatever else they hold, `surl`, `phone`, ...)
      get the same pre-image and the same signature. */
  lemma RequestHashDependsOnSignFields(m1: Params, m2: Params, salt: string, sha512: string -> string)
    requires forall f :: f in SignFields ==> Field(m1, f) == Field(m2, f)
    ensures SignPreimage(m1, salt) == SignPreimage(m2, salt)
    ensures RequestHash(m1, salt, sha512) == RequestHash(m2, salt, sha512)
  {
    PipeJoinedDependsOnValues(m1, m2, SignFields);
  }

  /** An absent field and a field set to "" sign the same: a missing field
      never shifts the fields after it. */
  lemma RequestHashAbsentIsEmpty(m: Params, name: string, salt: string, sha512: string -> string)
    ensures SignPreimage(m - {name}, salt) == SignPreimage(m[name := ""], salt)
    ensures RequestHash(m - {name}, salt, sha512) == RequestHash(m[name := ""], salt, sha512)
  {
    PipeJoinedDependsOnValues(m - {name}, m[name := ""], SignFields);
  }

  /** When no value and not the salt contains '|', the request pre-image
      splits on '|' into the sixteen field values in order followed by the salt. */
  lemma SignPreimageRoundTrip(m: Params, salt: string)
    requires PipeFreeValues(m, SignFields) && PipeFree(salt)
    ensures Explode('|', SignPreimage(m, salt)) == Values(m, SignFields) + [salt]
  {
    ExplodePipeJoined(m, SignFields, salt);
    ExplodeWithoutSeparator('|', salt);
  }

  /** With '|'-free values and salts, equal request pre-images mean equal
      field values and equal salts: changing any signed field (an amount of
      "100.00" to "100.01", or swapping two different values) changes the
      string that is digested. */
  lemma SignPreimageInjective(m1: Params, salt1: string, m2: Params, salt2: string)
    requires PipeFreeValues(m1, SignFields) && PipeFree(salt1)
    requires PipeFreeValues(m2, SignFields) && PipeFree(salt2)
    requires SignPreimage(m1, salt1) == SignPreimage(m2, salt2)
    ensures salt1 == salt2
    ensures forall i :: 0 <= i < |SignFields| ==> Field(m1, SignFields[i]) == Field(m2, SignFields[i])
  {
    SignPreimageRoundTrip(m1, salt1);
    SignPreimageRoundTrip(m2, salt2);
    var e := Explode('|', SignPreimage(m1, salt1));
    assert e[|SignFields|] == salt1 == salt2;
    forall i | 0 <= i < |SignFields| ensures Field(m1, SignFields[i]) == Field(m2, SignFields[i]) {
      assert e[i] == Values(m1, SignFields)[i] == Values(m2, SignFields)[i];
    }
  }

  // ---------------------------------------------------------------------
  // Response signature (the inbound direction)

  /** The salt, '|' and the first sixteen response slots, everything the
      untrimmed response string holds before `key`. */
  function VerifyHead(m: Params, salt: string): string {
    salt + "|" + PipeJoined(m, VerifyFields[..16])
  }

  /** The response string before trimming: the salt, '|', then every
      response slot's value followed by '|'; it ends with the value of
      `key` and a final '|'. */
  function VerifyPreimageUntrimmed(m: Params, salt: string): (s: string)
    ensures s == VerifyHead(m, salt) + Field(m, "key") + "|"
  {
    assert VerifyFields == VerifyFields[..16] + ["key"];
    PipeJoinedSnoc(m, VerifyFields[..16], "key");
    salt + "|" + PipeJoined(m, VerifyFields)
  }

  /** The string the response signature is computed over:
      `trim($untrimmed, '|')`, which strips whole runs of '|' at both ends. */
  function VerifyPreimage(m: Params, salt: string): (s: string)
    ensures s == [] || (s[0] != '|' && s[|s| - 1] != '|')
    ensures |s| < |VerifyPreimageUntrimmed(m, salt)|
  {
    Trim(VerifyPreimageUntrimmed(m, salt), Pipe)
  }

  /** The response signature the gateway expects. */
  function ResponseHash(m: Params, salt: string, sha512: string -> string): (h: string)
    ensures HasNoUpper(h)
    ensures |h| == |sha512(VerifyPreimage(m, salt))|
  {
    ToLower(sha512(VerifyPreimage(m, salt)))
  }

  lemma VerifyLayoutEnd(m: Params)
    ensures PipeJoined(m, VerifyFields[13..]) ==
      Field(m, "productinfo") + "|" + (Field(m, "amount") + "|" + (Field(m, "txnid") + "|" + (
      Field(m, "key") + "|" + (""))))
  {
    PipeJoinedAt(m, VerifyFields, 13);
    PipeJoinedAt(m, VerifyFields, 14);
    PipeJoinedAt(m, VerifyFields, 15);
    PipeJoinedAt(m, VerifyFields, 16);
    assert VerifyFields[17..] == [];
  }

  lemma VerifyLayoutTail(m: Params)
    ensures PipeJoined(m, VerifyFields[9..]) ==
      Field(m, "udf2") + "|" + (Field(m, "udf1") + "|" + (Field(m, "email") + "|" + (
      Field(m, "firstname") + "|" + (PipeJoined(m, VerifyFields[13..])))))
  {
    PipeJoinedAt(m, VerifyFields, 9);
    PipeJoinedAt(m, VerifyFields, 10);
    PipeJoinedAt(m, VerifyFields, 11);
    PipeJoinedAt(m, VerifyFields, 12);
  }

  lemma VerifyLayoutMiddle(m: Params)
    ensures PipeJoined(m, VerifyFields[6..]) ==
      Field(m, "udf5") + "|" + (Field(m, "udf4") + "|" + (Field(m, "udf3") + "|" + (PipeJoined(m, VerifyFields[9..]))))
  {
    PipeJoinedAt(m, VerifyFields, 6);
    PipeJoinedAt(m, VerifyFields, 7);
    PipeJoinedAt(m, VerifyFields, 8);
  }

  lemma VerifyLayoutHead(m: Params)
    ensures PipeJoined(m, VerifyFields) ==
      Field(m, "status") + "|" + (Field(m, "") + "|" + (Field(m, "") + "|" + (
      Field(m, "") + "|" + (Field(m, "") + "|" + (Field(m, "") + "|" + (PipeJoined(m, VerifyFields[6..])))))))
  {
    assert VerifyFields[0..] == VerifyFields;
    PipeJoinedAt(m, VerifyFields, 0);
    PipeJoinedAt(m, VerifyFields, 1);
    PipeJoinedAt(m, VerifyFields, 2);
    PipeJoinedAt(m, VerifyFields, 3);
    PipeJoinedAt(m, VerifyFields, 4);
    PipeJoinedAt(m, VerifyFields, 5);
  }

  /** The untrimmed response string written out slot by slot; the five
      unnamed slots read the entry under the empty name, which is "" unless
      the response has such an entry. */
  lemma VerifyPreimageLayout(m: Params, salt: string)
    ensures VerifyPreimageUntrimmed(m, salt) ==
      salt + "|" + (Field(m, "status") + "|" + (Field(m, "") + "|" + (Field(m, "") + "|" + (
      Field(m, "") + "|" + (Field(m, "") + "|" + (Field(m, "") + "|" + (
      Field(m, "udf5") + "|" + (Field(m, "udf4") + "|" + (Field(m, "udf3") + "|" + (
      Field(m, "udf2") + "|" + (Field(m, "udf1") + "|" + (Field(m, "email") + "|" + (
      Field(m, "firstname") + "|" + (Field(m, "productinfo") + "|" + (Field(m, "amount") + "|" + (
      Field(m, "txnid") + "|" + (Field(m, "key") + "|" + "")))))))))))))))))
  {
    VerifyLayoutHead(m);
    VerifyLayoutMiddle(m);
    VerifyLayoutTail(m);
    VerifyLayoutEnd(m);
  }

  /** In the ordinary case (a salt that does not start with '|' and a key
      that is not empty and does not end with '|') the trim removes exactly
      the separator after `key`: the pre-image is `salt|status|||||...|txnid|key`. */
  lemma VerifyPreimageNominal(m: Params, salt: string)
    requires salt != [] && salt[0] != '|'
    requires Field(m, "key") != [] && Field(m, "key")[|Field(m, "key")| - 1] != '|'
    ensures VerifyPreimage(m, salt) == VerifyHead(m, salt) + Field(m, "key")
  {
    var key := Field(m, "key");
    var u := VerifyPreimageUntrimmed(m, salt);
    var j := |u| - 1;
    assert u[..0] == [];
    assert u[j..] == "|";
    assert u[0] == salt[0];
    assert u[j - 1] == key[|key| - 1];
    TrimUnique(u, Pipe, 0, j);
    assert u[0..j] == VerifyHead(m, salt) + key;
  }

  /** With an empty or absent `key`, the trim also eats the separator after
      `txnid` (and any further empty slots before it): the pre-image is the
      trim of the first sixteen slots alone. */
  lemma VerifyPreimageEmptyKey(m: Params, salt: string)
    requires Field(m, "key") == ""
    ensures VerifyPreimage(m, salt) == Trim(VerifyHead(m, salt), Pipe)
  {
    assert VerifyPreimageUntrimmed(m, salt) == VerifyHead(m, salt) + ['|'];
    TrimIgnoresTrailing(VerifyHead(m, salt), '|', Pipe);
  }

  /** Because the trim strips whole runs, a response whose `key` is "|"
      yields the same pre-image, and so the same expected hash, as one whose
      `key` is empty or absent. */
  lemma ResponseHashKeyPipeCollision(m: Params, salt: string, sha512: string -> string)
    ensures VerifyPreimage(m["key" := "|"], salt) == VerifyPreimage(m - {"key"}, salt)
    ensures ResponseHash(m["key" := "|"], salt, sha512) == ResponseHash(m - {"key"}, salt, sha512)
  {
    var a := m["key" := "|"];
    var b := m - {"key"};
    assert forall i :: 0 <= i < 16 ==> VerifyFields[i] != "key";
    PipeJoinedDependsOnValues(a, b, VerifyFields[..16]);
    var h := VerifyHead(a, salt);
    assert VerifyPreimageUntrimmed(a, salt) == (h + ['|']) + ['|'];
    assert VerifyPreimageUntrimmed(b, salt) == h + ['|'];
    TrimIgnoresTrailing(h + ['|'], '|', Pipe);
  }

  /** A salt starting with '|' loses that character: it verifies exactly as
      the salt without it. */
  lemma ResponseHashSaltLeadingPipe(m: Params, salt: string, sha512: string -> string)
    ensures VerifyPreimage(m, "|" + salt) == VerifyPreimage(m, salt)
    ensures ResponseHash(m, "|" + salt, sha512) == ResponseHash(m, salt, sha512)
  {
    assert VerifyPreimageUntrimmed(m, "|" + salt) == ['|'] + VerifyPreimageUntrimmed(m, salt);
    TrimIgnoresLeading(VerifyPreimageUntrimmed(m, salt), '|', Pipe);
  }

  /** In the ordinary case with '|'-free values, the response pre-image
      splits on '|' into the salt followed by the seventeen slot values. */
  lemma VerifyPreimageRoundTrip(m: Params, salt: string)
    requires salt != [] && PipeFree(salt)
    requires Field(m, "key") != [] && PipeFreeValues(m, VerifyFields)
    ensures Explode('|', VerifyPreimage(m, salt)) == [salt] + Values(m, VerifyFields)
  {
    var key := Field(m, "key");
    assert VerifyFields[16] == "key" && PipeFree(key);
    assert salt[0] in salt;
    assert key[|key| - 1] in key;
    VerifyPreimageNominal(m, salt);
    assert PipeFreeValues(m, VerifyFields[..16]) by {
      forall i | 0 <= i < 16 ensures PipeFree(Field(m, VerifyFields[..16][i])) {
        assert VerifyFields[..16][i] == VerifyFields[i];
      }
    }
    calc {
      Explode('|', VerifyPreimage(m, salt));
      { ConcatRegroup(salt, ['|'], PipeJoined(m, VerifyFields[..16]), key); }
      Explode('|', salt + ['|'] + (PipeJoined(m, VerifyFields[..16]) + key));
      { ExplodePiece('|', salt, PipeJoined(m, VerifyFields[..16]) + key); }
      [salt] + Explode('|', PipeJoined(m, VerifyFields[..16]) + key);
      { ExplodePipeJoined(m, VerifyFields[..16], key); ExplodeWithoutSeparator('|', key); }
      [salt] + (Values(m, VerifyFields[..16]) + [key]);
      { assert Values(m, VerifyFields[..16]) + [key] == Values(m, VerifyFields); }
      [salt] + Values(m, VerifyFields);
    }
  }

  /** Under the same conditions on both sides, equal response pre-images
      mean equal slot values: altering any single verified field, or
      swapping two different values such as `firstname` and `email`,
      changes the string that is digested. */
  lemma VerifyPreimageInjective(m1: Params, m2: Params, salt: string)
    requires salt != [] && PipeFree(salt)
    requires Field(m1, "key") != [] && PipeFreeValues(m1, VerifyFields)
    requires Field(m2, "key") != [] && PipeFreeValues(m2, VerifyFields)
    requires VerifyPreimage(m1, salt) == VerifyPreimage(m2, salt)
    ensures forall i :: 0 <= i < |VerifyFields| ==> Field(m1, VerifyFields[i]) == Field(m2, VerifyFields[i])
  {
    VerifyPreimageRoundTrip(m1, salt);
    VerifyPreimageRoundTrip(m2, salt);
    var e := Explode('|', VerifyPreimage(m1, salt));
    forall i | 0 <= i < |VerifyFields| ensures Field(m1, VerifyFields[i]) == Field(m2, VerifyFields[i]) {
      assert e[i + 1] == Values(m1, VerifyFields)[i] == Values(m2, VerifyFields)[i];
    }
  }

  // ---------------------------------------------------------------------
  // Digest shape

  /** The shape of PHP's `hash($algo, ...)` output: `n` lower-case hex
      characters for every input (128 for SHA-512, 64 for SHA-256). This
      is assumed of the digest where it is needed, never derived. */
  ghost predicate HexDigestFunction(digest: string -> string, n: nat) {
    forall s :: IsLowerHex(digest(s), n)
  }

  /** With a digest of that shape, both signatures are 128 lower-case hex
      characters and the lower-casing leaves the digest unchanged. */
  lemma SignaturesAreHex(m: Params, salt: string, sha512: string -> string)
    requires HexDigestFunction(sha512, 128)
    ensures RequestHash(m, salt, sha512) == sha512(SignPreimage(m, salt))
    ensures ResponseHash(m, salt, sha512) == sha512(VerifyPreimage(m, salt))
    ensures IsLowerHex(RequestHash(m, salt, sha512), 128)
    ensures IsLowerHex(ResponseHash(m, salt, sha512), 128)
  {
    ToLowerKeepsHex(sha512(SignPreimage(m, salt)), 128);
    ToLowerKeepsHex(sha512(VerifyPreimage(m, salt)), 128);
  }
}
