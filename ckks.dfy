/** The CKKS page of the client: a context that draws the four keys from one
    random buffer, the encryption that wraps the UTF-8 bytes of a plaintext
    in a base64 record (a simulation: no lattice arithmetic takes place), and
    the decryption that parses a downloaded secret key and unwraps the
    record again. */
module Ckks {
  import opened Wrappers
  import opened Text
  import Base64
  import Utf8
  import Json
  import KeyBlock

  // ---------------------------------------------------------------------------
  // CKKS_PARAMS
  // ---------------------------------------------------------------------------

  const PolyModulusDegree: nat := 8192
  const CoeffModulus: seq<nat> := [60, 40, 40, 60]
  /** 2^40. */
  const Scale: nat := 1099511627776
  const SecurityLevel: nat := 128

  /** The tag on every key and envelope of this scheme. */
  const Method: string := "ckks"

  /** The bytes of the random buffer given to each of the four keys. */
  const SliceSize: nat := 1024

  /** Characters of the public key copied into each encrypted record. */
  const HashLength: nat := 32

  // ---------------------------------------------------------------------------
  // Keys
  // ---------------------------------------------------------------------------

  /** Each key object carries the tag `method: 'ckks'`, here `scheme`. */
  datatype PublicKey = PublicKey(scheme: string, key: string, polyModulusDegree: nat, scale: nat, timestamp: nat)

  datatype SecretKey = SecretKey(scheme: string, key: string, polyModulusDegree: nat, coeffModulus: seq<nat>, scale: nat, timestamp: nat)

  /** A relinearisation or Galois key. */
  datatype EvaluationKey = EvaluationKey(scheme: string, key: string, timestamp: nat)

  datatype Keys = Keys(publicKey: PublicKey, secretKey: SecretKey, relinKeys: EvaluationKey, galoisKeys: EvaluationKey)

  /** The errors the module throws; `InvalidCharacter` is the
      `InvalidCharacterError` of `btoa`. */
  datatype Error =
    | ContextNotInitialized
    | SecretKeyNotGenerated
    | PublicKeyNotAvailable
    | InvalidCharacter
    | InvalidKeyFormat
    | SecretKeyRequired
    | InvalidEncryptedDataFormat
    | NotCkksFormat
    | DecryptionFailed

  /** The `i`-th 1024-byte slice of the key buffer. */
  function Slice(keyData: seq<byte>, i: nat): (s: seq<byte>)
    requires i < 4 && |keyData| == PolyModulusDegree
    ensures |s| == SliceSize
  {
    keyData[SliceSize * i .. SliceSize * (i + 1)]
  }

  /** The four keys made from one 8192-byte buffer at one instant: each
      payload is base64 text that decodes to its own slice of the buffer,
      every key is tagged `ckks`, and the public and secret keys echo the
      parameters. */
  function GeneratedKeys(keyData: seq<byte>, timestamp: nat): (k: Keys)
    requires |keyData| == PolyModulusDegree
    ensures k.publicKey.scheme == Method && k.secretKey.scheme == Method
    ensures k.relinKeys.scheme == Method && k.galoisKeys.scheme == Method
    ensures k.publicKey.polyModulusDegree == 8192 && k.publicKey.scale == 1099511627776
    ensures k.secretKey.polyModulusDegree == 8192 && k.secretKey.scale == 1099511627776
    ensures k.secretKey.coeffModulus == [60, 40, 40, 60]
    ensures Base64.Decode(k.publicKey.key) == Some(keyData[0..1024])
    ensures Base64.Decode(k.secretKey.key) == Some(keyData[1024..2048])
    ensures Base64.Decode(k.relinKeys.key) == Some(keyData[2048..3072])
    ensures Base64.Decode(k.galoisKeys.key) == Some(keyData[3072..4096])
    ensures k.publicKey.timestamp == timestamp && k.secretKey.timestamp == timestamp
    ensures k.relinKeys.timestamp == timestamp && k.galoisKeys.timestamp == timestamp
  {
    Base64.EncodeBase64Facts(Slice(keyData, 0));
    Base64.EncodeBase64Facts(Slice(keyData, 1));
    Base64.EncodeBase64Facts(Slice(keyData, 2));
    Base64.EncodeBase64Facts(Slice(keyData, 3));
    Keys(
      PublicKey(Method, Base64.EncodeBase64(Slice(keyData, 0)), PolyModulusDegree, Scale, timestamp),
      SecretKey(Method, Base64.EncodeBase64(Slice(keyData, 1)), PolyModulusDegree, CoeffModulus, Scale, timestamp),
      EvaluationKey(Method, Base64.EncodeBase64(Slice(keyData, 2)), timestamp),
      EvaluationKey(Method, Base64.EncodeBase64(Slice(keyData, 3)), timestamp))
  }

  /** The four payloads, decoded and laid end to end, are exactly the first
      4096 bytes of the buffer: the slices are disjoint, in order, and leave
      no gap. */
  lemma KeysPartitionBuffer(keyData: seq<byte>, timestamp: nat)
    requires |keyData| == PolyModulusDegree
    ensures var k := GeneratedKeys(keyData, timestamp);
      Base64.Decode(k.publicKey.key).value + Base64.Decode(k.secretKey.key).value
        + Base64.Decode(k.relinKeys.key).value + Base64.Decode(k.galoisKeys.key).value
      == keyData[..4096]
  {
    assert keyData[0..1024] + keyData[1024..2048] + keyData[2048..3072] + keyData[3072..4096] == keyData[..4096];
  }

  lemma SliceOfPrefix(a: seq<byte>, b: seq<byte>, i: nat)
    requires |a| == PolyModulusDegree && |b| == PolyModulusDegree && i < 4
    requires a[..4096] == b[..4096]
    ensures Slice(a, i) == Slice(b, i)
  {
    forall j | 0 <= j < SliceSize
      ensures Slice(a, i)[j] == Slice(b, i)[j]
    {
      assert Slice(a, i)[j] == a[..4096][SliceSize * i + j];
      assert Slice(b, i)[j] == b[..4096][SliceSize * i + j];
    }
  }

  /** Bytes from 4096 onward do not influence any key. */
  lemma KeysIgnoreBufferTail(a: seq<byte>, b: seq<byte>, timestamp: nat)
    requires |a| == PolyModulusDegree && |b| == PolyModulusDegree
    requires a[..4096] == b[..4096]
    ensures GeneratedKeys(a, timestamp) == GeneratedKeys(b, timestamp)
  {
    SliceOfPrefix(a, b, 0);
    SliceOfPrefix(a, b, 1);
    SliceOfPrefix(a, b, 2);
    SliceOfPrefix(a, b, 3);
  }

  /** Each payload is 1368 characters of base64 text. */
  lemma GeneratedKeyText(keyData: seq<byte>, timestamp: nat)
    requires |keyData| == PolyModulusDegree
    ensures var k := GeneratedKeys(keyData, timestamp);
      && |k.publicKey.key| == 1368 && Base64.IsBase64Text(k.publicKey.key)
      && |k.secretKey.key| == 1368 && Base64.IsBase64Text(k.secretKey.key)
      && |k.relinKeys.key| == 1368 && Base64.IsBase64Text(k.relinKeys.key)
      && |k.galoisKeys.key| == 1368 && Base64.IsBase64Text(k.galoisKeys.key)
  {
    SliceText(keyData, 0);
    SliceText(keyData, 1);
    SliceText(keyData, 2);
    SliceText(keyData, 3);
  }

  lemma SliceText(keyData: seq<byte>, i: nat)
    requires i < 4 && |keyData| == PolyModulusDegree
    ensures var s := Base64.EncodeBase64(Slice(keyData, i)); |s| == 1368 && Base64.IsBase64Text(s)
  {
    Base64.EncodeBase64Facts(Slice(keyData, i));
  }

  // ---------------------------------------------------------------------------
  // The secret-key block
  // ---------------------------------------------------------------------------

  function SecretKeyDetails(sk: SecretKey): seq<string> {
    [ "Polynomial Modulus Degree: " + NatText(sk.polyModulusDegree),
      "Coefficient Modulus: " + JoinComma(sk.coeffModulus),
      "Scale: " + NatText(sk.scale) ]
  }

  /** The downloadable text of a secret key, `generated` being the ISO
      rendering of its timestamp. */
  function SecretKeyText(sk: SecretKey, generated: IsoDate): string {
    KeyBlock.Block("CKKS", sk.key, SecretKeyDetails(sk), SecurityLevel, generated)
  }

  lemma IsoDateNoLineFeed(d: IsoDate)
    ensures '\n' !in d
  {
    assert forall i :: 0 <= i < |d| ==> IsIsoChar(d[i]);
  }

  function SecretKeyLineList(sk: SecretKey, generated: IsoDate): seq<string> {
    [ "-----BEGIN CKKS SECRET KEY-----", sk.key, "",
      "Polynomial Modulus Degree: " + NatText(sk.polyModulusDegree),
      "Coefficient Modulus: " + JoinComma(sk.coeffModulus),
      "Scale: " + NatText(sk.scale),
      "Security Level: 128-bit",
      "Generated: " + generated,
      "-----END CKKS SECRET KEY-----" ]
  }

  /** The fixed lines of a CKKS block, spelled out. */
  lemma FixedLines()
    ensures KeyBlock.BeginLine("CKKS") == "-----BEGIN CKKS SECRET KEY-----"
    ensures KeyBlock.EndLine("CKKS") == "-----END CKKS SECRET KEY-----"
    ensures "Security Level: " + NatText(SecurityLevel) + "-bit" == "Security Level: 128-bit"
  {
    SecurityLevelText();
  }

  lemma SecurityLevelText()
    ensures NatText(SecurityLevel) == "128"
  {
    assert NatText(1) == ['1'];
    assert NatText(12) == NatText(1) + ['2'];
    assert NatText(128) == NatText(12) + ['8'];
  }

  lemma SecretKeyBlockLines(sk: SecretKey, generated: IsoDate)
    ensures KeyBlock.BlockLines("CKKS", sk.key, SecretKeyDetails(sk), SecurityLevel, generated)
      == SecretKeyLineList(sk, generated)
  {
    FixedLines();
    var details := SecretKeyDetails(sk);
    assert KeyBlock.BlockLines("CKKS", sk.key, details, SecurityLevel, generated)
      == [KeyBlock.BeginLine("CKKS"), sk.key, "", details[0], details[1], details[2],
          "Security Level: " + NatText(SecurityLevel) + "-bit", "Generated: " + generated, KeyBlock.EndLine("CKKS")];
  }

  /** The secret-key text splits into exactly these lines, the payload
      verbatim on the second, when the payload holds no line feed. */
  lemma SecretKeyLines(sk: SecretKey, generated: IsoDate)
    requires '\n' !in sk.key
    ensures Lines(SecretKeyText(sk, generated)) == SecretKeyLineList(sk, generated)
  {
    var details := SecretKeyDetails(sk);
    assert KeyBlock.NoLineFeed(details) by {
      KeyBlock.NatTextNoLineFeed(sk.polyModulusDegree);
      KeyBlock.NatTextNoLineFeed(sk.scale);
    }
    assert '\n' !in generated by {
      IsoDateNoLineFeed(generated);
    }
    KeyBlock.BlockAsLines("CKKS", sk.key, details, SecurityLevel, generated);
    SecretKeyBlockLines(sk, generated);
  }

  /** What `CKKSDecryption.parseSecretKey` returns; `valid` is always set. */
  datatype ParsedKey = ParsedKey(scheme: string, key: string, valid: bool)

  /** `CKKSDecryption.parseSecretKey(keyString)`: the first line longer than
      100 UTF-16 code units, trimmed, or `InvalidKeyFormat` when there is none. */
  function ParseSecretKey(keyString: string): (r: Result<ParsedKey, Error>)
    ensures var ls := Lines(keyString);
      r.Failure? <==> forall i :: 0 <= i < |ls| ==> Utf16Length(ls[i]) <= 100
    ensures r.Failure? ==> r.error == InvalidKeyFormat
    ensures var ls := Lines(keyString);
      r.Success? ==> (r.value.scheme == Method && r.value.valid
        && exists i :: 0 <= i < |ls| && Utf16Length(ls[i]) > 100 && r.value.key == Trim(ls[i])
             && forall j :: 0 <= j < i ==> Utf16Length(ls[j]) <= 100)
  {
    var ls := Lines(keyString);
    match FindLongLine(ls, 100)
    case None => Failure(InvalidKeyFormat)
    case Some(i) => Success(ParsedKey(Method, Trim(ls[i]), true))
  }

  /** Parsing a rendered secret key gives its payload back, whenever the
      payload is base64 text longer than 100 characters. */
  lemma ParseSecretKeyText(sk: SecretKey, generated: IsoDate)
    requires |sk.key| > 100 && Base64.IsBase64Text(sk.key)
    ensures ParseSecretKey(SecretKeyText(sk, generated)) == Success(ParsedKey(Method, sk.key, true))
  {
    Base64.Base64TextFacts(sk.key);
    SecretKeyLines(sk, generated);
    var ls := Lines(SecretKeyText(sk, generated));
    assert |ls[0]| <= 50 && ls[1] == sk.key;
    SecondLineFound(ls, 100);
    TrimUnchanged(sk.key);
  }

  /** In the block of a generated key every line but the payload is at most
      100 code units long, so a payload that is not longer is refused. */
  lemma ShortPayloadRefused(sk: SecretKey, generated: IsoDate)
    requires Utf16Length(sk.key) <= 100 && '\n' !in sk.key
    requires sk.polyModulusDegree == PolyModulusDegree && sk.coeffModulus == CoeffModulus && sk.scale == Scale
    ensures ParseSecretKey(SecretKeyText(sk, generated)) == Failure(InvalidKeyFormat)
  {
    SecretKeyLines(sk, generated);
    ShortLines(sk, generated);
  }

  /** With the standard parameters and a short payload, no line of the block
      is longer than 100 code units. */
  lemma ShortLines(sk: SecretKey, generated: IsoDate)
    requires Utf16Length(sk.key) <= 100
    requires sk.polyModulusDegree == PolyModulusDegree && sk.coeffModulus == CoeffModulus && sk.scale == Scale
    ensures var ls := SecretKeyLineList(sk, generated);
      forall i :: 0 <= i < |ls| ==> Utf16Length(ls[i]) <= 100
  {
    StandardDetailLengths();
    ShortTexts(sk.key, NatText(sk.polyModulusDegree), JoinComma(sk.coeffModulus), NatText(sk.scale), generated);
  }

  /** The block's lines, its variable parts given as texts, are at most
      100 code units long when those parts are short enough: every line but
      the key has at most 50 characters. */
  lemma ShortTexts(key: string, degree: string, coeffs: string, scale: string, generated: string)
    requires Utf16Length(key) <= 100 && |degree| <= 4 && |coeffs| == 14 && |scale| <= 13 && |generated| <= 27
    ensures var ls := [ "-----BEGIN CKKS SECRET KEY-----", key, "",
        "Polynomial Modulus Degree: " + degree, "Coefficient Modulus: " + coeffs, "Scale: " + scale,
        "Security Level: 128-bit", "Generated: " + generated, "-----END CKKS SECRET KEY-----" ];
      forall i :: 0 <= i < |ls| ==> Utf16Length(ls[i]) <= 100
  {
  }

  /** The lengths of the standard parameters written out. */
  lemma StandardDetailLengths()
    ensures |NatText(PolyModulusDegree)| <= 4 && |NatText(Scale)| <= 13
    ensures |JoinComma(CoeffModulus)| == 14
  {
    DegreeLength();
    ScaleLength();
    CoeffModulusLength();
  }

  lemma DegreeLength()
    ensures |NatText(PolyModulusDegree)| <= 4
  {
    assert Pow10(4) == 10000;
    NatTextLength(PolyModulusDegree, 4);
  }

  lemma ScaleLength()
    ensures |NatText(Scale)| <= 13
  {
    assert Pow10(13) == 10000000000000;
    NatTextLength(Scale, 13);
  }

  lemma CoeffModulusLength()
    ensures |JoinComma(CoeffModulus)| == 14
  {
    assert |NatText(60)| == 2 && |NatText(40)| == 2;
    assert JoinComma([40, 60]) == NatText(40) + ", " + NatText(60);
    assert JoinComma([40, 40, 60]) == NatText(40) + ", " + JoinComma([40, 60]);
    assert JoinComma(CoeffModulus) == NatText(60) + ", " + JoinComma([40, 40, 60]);
  }

  // ---------------------------------------------------------------------------
  // CKKSContext
  // ---------------------------------------------------------------------------

  class CKKSContext {
    var publicKey: Option<PublicKey>
    var secretKey: Option<SecretKey>
    var relinKeys: Option<EvaluationKey>
    var galoisKeys: Option<EvaluationKey>
    var initialized: bool

    constructor()
      ensures publicKey.None? && secretKey.None? && relinKeys.None? && galoisKeys.None?
      ensures !initialized
    {
      publicKey := None;
      secretKey := None;
      relinKeys := None;
      galoisKeys := None;
      initialized := false;
    }

    /** `initialize()`: marks the context ready and leaves the keys alone. */
    method Initialize() returns (ok: bool)
      modifies this
      ensures ok && initialized
      ensures publicKey == old(publicKey) && secretKey == old(secretKey)
      ensures relinKeys == old(relinKeys) && galoisKeys == old(galoisKeys)
    {
      initialized := true;
      ok := true;
    }

    /** `generateKeys()` with `keyData` the random buffer and `now` the
        instant `Date.now()` returns: refused on a context that was never
        initialised, otherwise the four keys of `GeneratedKeys`. */
    method GenerateKeys(keyData: seq<byte>, now: nat) returns (r: Result<bool, Error>)
      requires |keyData| == PolyModulusDegree
      modifies this
      ensures initialized == old(initialized)
      ensures !initialized ==> r == Failure(ContextNotInitialized)
      ensures !initialized ==> publicKey == old(publicKey) && secretKey == old(secretKey)
      ensures !initialized ==> relinKeys == old(relinKeys) && galoisKeys == old(galoisKeys)
      ensures initialized ==> r == Success(true)
      ensures initialized ==> var k := GeneratedKeys(keyData, now);
        && publicKey == Some(k.publicKey) && secretKey == Some(k.secretKey)
        && relinKeys == Some(k.relinKeys) && galoisKeys == Some(k.galoisKeys)
    {
      if !initialized {
        return Failure(ContextNotInitialized);
      }
      var k := GeneratedKeys(keyData, now);
      publicKey := Some(k.publicKey);
      secretKey := Some(k.secretKey);
      relinKeys := Some(k.relinKeys);
      galoisKeys := Some(k.galoisKeys);
      r := Success(true);
    }

    /** `formatSecretKey()`, with `toIso` standing for
        `new Date(t).toISOString()`. */
    function FormatSecretKey(toIso: nat -> IsoDate): (r: Result<string, Error>)
      reads this
      ensures secretKey.None? <==> r == Failure(SecretKeyNotGenerated)
      ensures r.Success? ==> r.value == SecretKeyText(secretKey.value, toIso(secretKey.value.timestamp))
    {
      match secretKey
      case None => Failure(SecretKeyNotGenerated)
      case Some(sk) => Success(SecretKeyText(sk, toIso(sk.timestamp)))
    }
  }

  /** After `initialize()` and `generateKeys()`, the downloaded secret key
      parses back to the secret key's payload. */
  lemma GeneratedSecretKeyParses(keyData: seq<byte>, now: nat, generated: IsoDate)
    requires |keyData| == PolyModulusDegree
    ensures var sk := GeneratedKeys(keyData, now).secretKey;
      ParseSecretKey(SecretKeyText(sk, generated)) == Success(ParsedKey(Method, sk.key, true))
  {
    GeneratedKeyText(keyData, now);
    ParseSecretKeyText(GeneratedKeys(keyData, now).secretKey, generated);
  }

  // ---------------------------------------------------------------------------
  // CKKSEncryption
  // ---------------------------------------------------------------------------

  /** The result of `encodePlaintext`. */
  datatype Encoded = Encoded(vector: seq<byte>, originalLength: nat)

  /** `encodePlaintext(plaintext)`: the UTF-8 bytes and their count; the
      decoder reads the plaintext back from them. */
  function EncodePlaintext(plaintext: string): (e: Encoded)
    ensures e.originalLength == |e.vector|
    ensures |plaintext| <= |e.vector| <= 4 * |plaintext|
    ensures Utf8.Decode(e.vector) == plaintext
  {
    Utf8.DecodeEncode(plaintext);
    var bytes := Utf8.Encode(plaintext);
    Encoded(bytes, |bytes|)
  }

  /** `s.substring(0, n)` of a string, `v.slice(0, n)` of an array. */
  function Prefix<T>(s: seq<T>, n: nat): (r: seq<T>)
    ensures r <= s
    ensures |r| == if n < |s| then n else |s|
  {
    if n < |s| then s[..n] else s
  }

  /** The record that is base64-encoded into the ciphertext. */
  datatype Record = Record(vector: seq<nat>, originalLength: nat, publicKeyHash: string, scale: nat, timestamp: nat)

  const RecordKeys: seq<string> := ["vector", "originalLength", "publicKeyHash", "scale", "timestamp"]

  function RecordMembers(rec: Record): (ms: seq<Json.Member>)
    ensures |ms| == 5 && Json.Keys(ms) == RecordKeys
  {
    [ ("vector", Json.JNumbers(rec.vector)),
      ("originalLength", Json.JNumber(rec.originalLength)),
      ("publicKeyHash", Json.JString(rec.publicKeyHash)),
      ("scale", Json.JNumber(rec.scale)),
      ("timestamp", Json.JNumber(rec.timestamp)) ]
  }

  /** `JSON.stringify(record)`. */
  function RecordText(rec: Record): string {
    Json.ObjectText(Json.Compact, RecordMembers(rec))
  }

  /** `JSON.parse` of a record in the layout `RecordText` writes. */
  function ParseRecord(text: string): Option<Record> {
    var vs :- Json.ParseObject(Json.Compact, RecordKeys, text);
    if |vs| == 5 && vs[0].JNumbers? && vs[1].JNumber? && vs[2].JString? && vs[3].JNumber? && vs[4].JNumber?
    then Some(Record(vs[0].nums, vs[1].num, vs[2].str, vs[3].num, vs[4].num))
    else None
  }

  /** Every record is read back from its text, every field included. */
  lemma ParseRecordText(rec: Record)
    ensures ParseRecord(RecordText(rec)) == Some(rec)
  {
    var ms := RecordMembers(rec);
    Json.LayoutsWellSeparated();
    Json.ParseObjectText(Json.Compact, ms);
  }

  /** The record text fits in one byte per character exactly when the key
      prefix does, so `btoa` refuses it only for such a key. */
  lemma RecordTextLatin1(rec: Record)
    ensures IsLatin1(RecordText(rec)) <==> IsLatin1(rec.publicKeyHash)
  {
    RecordKeysLatin1(rec);
    RecordValuesLatin1(rec);
    Json.ObjectTextLatin1(Json.Compact, RecordMembers(rec));
  }

  lemma RecordKeysLatin1(rec: Record)
    ensures Json.KeysLatin1(RecordMembers(rec))
  {
    var ms := RecordMembers(rec);
    forall i | 0 <= i < |ms|
      ensures IsLatin1(ms[i].0)
    {
      assert ms[i].0 == Json.Keys(ms)[i] == RecordKeys[i];
    }
  }

  /** The hash prefix is the record's only string value. */
  lemma RecordValuesLatin1(rec: Record)
    ensures Json.ValuesLatin1(RecordMembers(rec)) <==> IsLatin1(rec.publicKeyHash)
  {
    var ms := RecordMembers(rec);
    assert Json.ValueLatin1(ms[2].1) <==> IsLatin1(rec.publicKeyHash);
  }

  /** The envelope `performCKKSEncryption` returns. */
  datatype Envelope = Envelope(scheme: string, ciphertext: string, originalLength: nat, polyModulusDegree: nat, scale: nat, encrypted: bool)

  /** `performCKKSEncryption(vector, originalLength)` against `publicKey`,
      with `now` the instant `Date.now()` returns. */
  function PerformEncryption(vector: seq<byte>, originalLength: nat, publicKey: PublicKey, now: nat): (r: Result<Envelope, Error>)
    ensures r.Success? <==> IsLatin1(Prefix(publicKey.key, HashLength))
    ensures r.Failure? ==> r.error == InvalidCharacter
    ensures r.Success? ==> (r.value.scheme == Method && r.value.encrypted
      && r.value.originalLength == originalLength
      && r.value.polyModulusDegree == PolyModulusDegree && r.value.scale == Scale)
    ensures r.Success? ==> (Base64.Atob(r.value.ciphertext).Some?
      && ParseRecord(Base64.Atob(r.value.ciphertext).value)
         == Some(Record(vector, originalLength, Prefix(publicKey.key, HashLength), Scale, now)))
  {
    var rec := Record(vector, originalLength, Prefix(publicKey.key, HashLength), Scale, now);
    RecordTextLatin1(rec);
    match Base64.Btoa(RecordText(rec))
    case None => Failure(InvalidCharacter)
    case Some(ciphertext) =>
      Base64.AtobBtoa(RecordText(rec));
      ParseRecordText(rec);
      Success(Envelope(Method, ciphertext, originalLength, PolyModulusDegree, Scale, true))
  }

  function EnvelopeMembers(e: Envelope): (ms: seq<Json.Member>)
    ensures |ms| == 6 && Json.Keys(ms) == EnvelopeKeys
  {
    [ ("method", Json.JString(e.scheme)),
      ("ciphertext", Json.JString(e.ciphertext)),
      ("originalLength", Json.JNumber(e.originalLength)),
      ("polyModulusDegree", Json.JNumber(e.polyModulusDegree)),
      ("scale", Json.JNumber(e.scale)),
      ("encrypted", Json.JBool(e.encrypted)) ]
  }

  const EnvelopeKeys: seq<string> := ["method", "ciphertext", "originalLength", "polyModulusDegree", "scale", "encrypted"]

  /** `JSON.parse` of an envelope in the layout `FormatCiphertext` writes. */
  function ParseEnvelope(text: string): Option<Envelope> {
    var vs :- Json.ParseObject(Json.Indented, EnvelopeKeys, text);
    if |vs| == 6 && vs[0].JString? && vs[1].JString? && vs[2].JNumber? && vs[3].JNumber? && vs[4].JNumber? && vs[5].JBool?
    then Some(Envelope(vs[0].str, vs[1].str, vs[2].num, vs[3].num, vs[4].num, vs[5].b))
    else None
  }

  /** `formatCiphertext(encrypted)`: the envelope as indented JSON, which
      parses back to the same envelope. */
  function FormatCiphertext(e: Envelope): (text: string)
    ensures ParseEnvelope(text) == Some(e)
  {
    var ms := EnvelopeMembers(e);
    Json.LayoutsWellSeparated();
    Json.ParseObjectText(Json.Indented, ms);
    Json.ObjectText(Json.Indented, ms)
  }

  class CKKSEncryption {
    const context: CKKSContext

    constructor(context: CKKSContext)
      ensures this.context == context
    {
      this.context := context;
    }

    /** `encrypt(plaintext)` with `now` the instant of encryption: refused
        without a public key, otherwise the envelope of the plaintext's
        UTF-8 bytes. */
    function Encrypt(plaintext: string, now: nat): (r: Result<Envelope, Error>)
      reads context
      ensures context.publicKey.None? ==> r == Failure(PublicKeyNotAvailable)
      ensures context.publicKey.Some? && IsLatin1(Prefix(context.publicKey.value.key, HashLength)) ==> r.Success?
      ensures r.Success? ==> (r.value.scheme == Method && r.value.encrypted
        && r.value.originalLength == |Utf8.Encode(plaintext)|)
    {
      match context.publicKey
      case None => Failure(PublicKeyNotAvailable)
      case Some(pk) =>
        var encoded := EncodePlaintext(plaintext);
        PerformEncryption(encoded.vector, encoded.originalLength, pk, now)
    }
  }

  /** A generated public key always has a 32-character base64 prefix, so
      encryption under it never fails. */
  lemma GeneratedPublicKeyEncrypts(keyData: seq<byte>, timestamp: nat)
    requires |keyData| == PolyModulusDegree
    ensures var pk := GeneratedKeys(keyData, timestamp).publicKey;
      |Prefix(pk.key, HashLength)| == HashLength && IsLatin1(Prefix(pk.key, HashLength))
  {
    var pk := GeneratedKeys(keyData, timestamp).publicKey;
    GeneratedKeyText(keyData, timestamp);
    Base64.Base64TextFacts(pk.key);
  }

  // ---------------------------------------------------------------------------
  // CKKSDecryption
  // ---------------------------------------------------------------------------

  /** The argument of `decrypt`: the envelope object, or its JSON text. */
  datatype EncryptedData = EnvelopeObject(envelope: Envelope) | EnvelopeText(text: string)

  /** `new Uint8Array(numbers)`: each number reduced modulo 256. */
  function ToUint8(ns: seq<nat>): (bs: seq<byte>)
    ensures |bs| == |ns|
    ensures forall i :: 0 <= i < |ns| ==> bs[i] == ns[i] % 256
  {
    seq(|ns|, i requires 0 <= i < |ns| => ns[i] % 256)
  }

  /** `decodeVector(vector, originalLength)`: the first `originalLength`
      entries as bytes, decoded by the default `TextDecoder`, which drops a
      leading U+FEFF. */
  function DecodeVector(vector: seq<nat>, originalLength: nat): (s: string)
    ensures |s| <= originalLength && |s| <= |vector|
  {
    Utf8.DecodeStrippingBom(ToUint8(Prefix(vector, originalLength)))
  }

  /** `decodeVector` as evidently intended, with a decoder that keeps a
      leading U+FEFF (`ignoreBOM: true`). */
  function DecodeVectorKeepingBom(vector: seq<nat>, originalLength: nat): (s: string)
    ensures |s| <= originalLength && |s| <= |vector|
  {
    Utf8.Decode(ToUint8(Prefix(vector, originalLength)))
  }

  /** Entries past `originalLength` do not reach the plaintext. */
  lemma DecodeVectorIgnoresTail(v: seq<nat>, w: seq<nat>)
    ensures DecodeVector(v + w, |v|) == DecodeVector(v, |v|)
  {
    assert Prefix(v + w, |v|) == v;
  }

  /** The byte vector of a plaintext decodes to that plaintext less a
      leading U+FEFF: exactly the plaintexts that do not start with U+FEFF
      come back unchanged. */
  lemma DecodeVectorEncoded(plaintext: string)
    ensures var e := EncodePlaintext(plaintext);
      DecodeVector(e.vector, e.originalLength) == Utf8.DropBom(plaintext)
    ensures var e := EncodePlaintext(plaintext);
      DecodeVector(e.vector, e.originalLength) == plaintext <==> (plaintext == [] || plaintext[0] != Utf8.ByteOrderMark)
  {
    var e := EncodePlaintext(plaintext);
    ToUint8Bytes(e.vector);
    Utf8.DecodeStrippingBomEncode(plaintext);
  }

  /** With the corrected decoder every plaintext comes back unchanged. */
  lemma DecodeVectorKeepingBomEncoded(plaintext: string)
    ensures var e := EncodePlaintext(plaintext); DecodeVectorKeepingBom(e.vector, e.originalLength) == plaintext
  {
    var e := EncodePlaintext(plaintext);
    ToUint8Bytes(e.vector);
  }

  /** A byte vector taken whole comes back unchanged from `Uint8Array`. */
  lemma ToUint8Bytes(b: seq<byte>)
    ensures ToUint8(Prefix(b, |b|)) == b
  {
    assert Prefix(b, |b|) == b;
  }

  /** `performCKKSDecryption(encrypted)`: `atob`, then `JSON.parse`, then
      `decodeVector` with the record's length, or the envelope's when the
      record's is 0. */
  function PerformDecryption(e: Envelope): (r: Result<string, Error>)
    ensures r.Failure? ==> r.error == DecryptionFailed
  {
    match Base64.Atob(e.ciphertext)
    case None => Failure(DecryptionFailed)
    case Some(decoded) =>
      match ParseRecord(decoded)
      case None => Failure(DecryptionFailed)
      case Some(rec) =>
        var n := if rec.originalLength != 0 then rec.originalLength else e.originalLength;
        Success(DecodeVector(rec.vector, n))
  }

  /** A record whose length is 0 is cut at the envelope's length; any other
      length in the record overrides the envelope's. */
  lemma PerformDecryptionLength(e: Envelope, rec: Record)
    requires Base64.Atob(e.ciphertext) == Some(RecordText(rec))
    ensures rec.originalLength == 0 ==> PerformDecryption(e) == Success(DecodeVector(rec.vector, e.originalLength))
    ensures rec.originalLength != 0 ==> PerformDecryption(e) == Success(DecodeVector(rec.vector, rec.originalLength))
  {
    ParseRecordText(rec);
  }

  /** The envelope `decrypt` works on, or `InvalidEncryptedDataFormat` for
      text that does not parse. */
  function ReadEnvelope(data: EncryptedData): Result<Envelope, Error> {
    match data
    case EnvelopeObject(e) => Success(e)
    case EnvelopeText(t) =>
      match ParseEnvelope(t)
      case None => Failure(InvalidEncryptedDataFormat)
      case Some(e) => Success(e)
  }

  /** `new CKKSDecryption(secretKey)`, `None` standing for a missing key. */
  datatype CKKSDecryption = CKKSDecryption(secretKey: Option<ParsedKey>) {

    /** `decrypt(encryptedData)`: the key must be present, the data must be
        an envelope tagged `ckks`, and its record must unwrap. */
    function Decrypt(data: EncryptedData): (r: Result<string, Error>)
      ensures secretKey.None? ==> r == Failure(SecretKeyRequired)
      ensures secretKey.Some? && ReadEnvelope(data).Failure? ==> r == Failure(InvalidEncryptedDataFormat)
      ensures secretKey.Some? && ReadEnvelope(data).Success? && ReadEnvelope(data).value.scheme != Method
        ==> r == Failure(NotCkksFormat)
      ensures r.Failure? ==> r.error in {SecretKeyRequired, InvalidEncryptedDataFormat, NotCkksFormat, DecryptionFailed}
    {
      if secretKey.None? then Failure(SecretKeyRequired)
      else
        var e :- ReadEnvelope(data);
        if e.scheme != Method then Failure(NotCkksFormat)
        else PerformDecryption(e)
    }
  }

  /** The key is only checked for presence: any two present keys decrypt
      alike. */
  lemma DecryptIgnoresKey(a: CKKSDecryption, b: CKKSDecryption, data: EncryptedData)
    requires a.secretKey.Some? && b.secretKey.Some?
    ensures a.Decrypt(data) == b.Decrypt(data)
  {
  }

  /** The envelope `performCKKSEncryption` builds decrypts to the
      plaintext it was encoded from, less a leading U+FEFF. */
  lemma PerformDecryptionEncryption(pk: PublicKey, plaintext: string, now: nat)
    requires IsLatin1(Prefix(pk.key, HashLength))
    ensures var encoded := EncodePlaintext(plaintext);
      var r := PerformEncryption(encoded.vector, encoded.originalLength, pk, now);
      r.Success? && PerformDecryption(r.value) == Success(Utf8.DropBom(plaintext))
  {
    var encoded := EncodePlaintext(plaintext);
    var e := PerformEncryption(encoded.vector, encoded.originalLength, pk, now).value;
    var rec := Record(encoded.vector, encoded.originalLength, Prefix(pk.key, HashLength), Scale, now);
    assert Base64.Atob(e.ciphertext) == Some(RecordText(rec)) by {
      ParseRecordText(rec);
      RecordTextLatin1(rec);
      Base64.AtobBtoa(RecordText(rec));
    }
    PerformDecryptionLength(e, rec);
    DecodeVectorEncoded(plaintext);
  }

  /** Decryption undoes encryption, whether the envelope is handed over as
      an object or as its `formatCiphertext` text, and whatever secret key
      is present, except that a leading U+FEFF is lost: the plaintext comes
      back unchanged exactly when it does not start with U+FEFF. */
  lemma DecryptEncrypt(enc: CKKSEncryption, dec: CKKSDecryption, plaintext: string, now: nat)
    requires enc.context.publicKey.Some? && IsLatin1(Prefix(enc.context.publicKey.value.key, HashLength))
    requires dec.secretKey.Some?
    ensures enc.Encrypt(plaintext, now).Success?
    ensures dec.Decrypt(EnvelopeObject(enc.Encrypt(plaintext, now).value)) == Success(Utf8.DropBom(plaintext))
    ensures dec.Decrypt(EnvelopeText(FormatCiphertext(enc.Encrypt(plaintext, now).value))) == Success(Utf8.DropBom(plaintext))
    ensures dec.Decrypt(EnvelopeObject(enc.Encrypt(plaintext, now).value)) == Success(plaintext)
      <==> (plaintext == [] || plaintext[0] != Utf8.ByteOrderMark)
  {
    PerformDecryptionEncryption(enc.context.publicKey.value, plaintext, now);
    var e := enc.Encrypt(plaintext, now).value;
    assert ReadEnvelope(EnvelopeText(FormatCiphertext(e))) == Success(e);
    Utf8.DecodeStrippingBomEncode(plaintext);
  }

  /** A concrete round trip that loses a character: U+FEFF `hi` is
      encrypted and decrypts to `hi`. */
  lemma DecryptDropsLeadingBom(enc: CKKSEncryption, dec: CKKSDecryption, now: nat)
    requires enc.context.publicKey.Some? && IsLatin1(Prefix(enc.context.publicKey.value.key, HashLength))
    requires dec.secretKey.Some?
    ensures dec.Decrypt(EnvelopeObject(enc.Encrypt([Utf8.ByteOrderMark, 'h', 'i'], now).value)) == Success("hi")
  {
    DecryptEncrypt(enc, dec, [Utf8.ByteOrderMark, 'h', 'i'], now);
    assert Utf8.DropBom([Utf8.ByteOrderMark, 'h', 'i']) == "hi";
  }
}
