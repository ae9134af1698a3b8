/** The key-generation page: `ENCRYPTION_PARAMS` for the three schemes and
    `HomomorphicKeyGenerator`, which builds a context record, cuts one random
    buffer into fixed slices, base64-encodes them into the key artifacts,
    and renders the keys as text. */
module KeyGenerator {
  import opened Wrappers
  import opened Text
  import Base64
  import Json
  import KeyBlock
  import Ckks

  // ---------------------------------------------------------------------------
  // ENCRYPTION_PARAMS
  // ---------------------------------------------------------------------------

  datatype Scheme = Paillier | CKKS | BFV

  /** The scheme's `method` string. */
  function SchemeName(s: Scheme): (name: string)
    ensures |name| > 0
  {
    match s
    case Paillier => "paillier"
    case CKKS => "ckks"
    case BFV => "bfv"
  }

  lemma SchemeNamesDistinct(a: Scheme, b: Scheme)
    ensures SchemeName(a) == SchemeName(b) <==> a == b
  {
    if a != b {
      assert SchemeName(a)[0] != SchemeName(b)[0] || |SchemeName(a)| != |SchemeName(b)|;
    }
  }

  datatype SchemeParams =
    | PaillierParams(keySize: nat, securityLevel: nat, description: string)
    | CkksParams(polyModulusDegree: nat, coeffModulus: seq<nat>, scale: nat, securityLevel: nat, description: string)
    | BfvParams(polyModulusDegree: nat, coeffModulus: seq<nat>, plainModulus: nat, securityLevel: nat, description: string)

  /** `ENCRYPTION_PARAMS[scheme]`. */
  function EncryptionParams(s: Scheme): (p: SchemeParams)
    ensures p.securityLevel == 128
    ensures p.PaillierParams? <==> s == Paillier
    ensures p.CkksParams? <==> s == CKKS
    ensures p.BfvParams? <==> s == BFV
  {
    match s
    case Paillier => PaillierParams(2048, 128, "Partially Homomorphic (Addition only)")
    case CKKS => CkksParams(8192, [60, 40, 40, 60], 1099511627776, 128, "Approximate FHE (Real numbers, ML/AI)")
    case BFV => BfvParams(8192, [60, 40, 40, 60], 1032193, 128, "Fully Homomorphic (Integer operations)")
  }

  /** The size of the random buffer a scheme's generator draws. */
  function RandomSize(p: SchemeParams): nat {
    if p.PaillierParams? then p.keySize else p.polyModulusDegree
  }

  /** The buffers are large enough for the slices cut from them: 1024 bytes
      for paillier, 4096 for the lattice schemes. */
  lemma RandomSizeCoversSlices(s: Scheme)
    ensures s == Paillier ==> RandomSize(EncryptionParams(s)) >= 1024
    ensures s != Paillier ==> RandomSize(EncryptionParams(s)) >= 4096
  {
  }

  /** The CKKS parameters agree with those of the CKKS page. */
  lemma CkksParamsAgree()
    ensures var p := EncryptionParams(CKKS);
      p.polyModulusDegree == Ckks.PolyModulusDegree && p.coeffModulus == Ckks.CoeffModulus
      && p.scale == Ckks.Scale && p.securityLevel == Ckks.SecurityLevel
  {
  }

  // ---------------------------------------------------------------------------
  // The context record
  // ---------------------------------------------------------------------------

  /** The context record; a field the scheme does not set is `None`. */
  datatype Context = Context(
    scheme: Scheme, params: SchemeParams, timestamp: IsoDate, securityLevel: nat,
    keySize: Option<nat>, polyModulusDegree: Option<nat>, coeffModulus: Option<seq<nat>>,
    scale: Option<nat>, plainModulus: Option<nat>, description: Option<string>)

  /** The context `initializeContext` builds at time `now`: the security
      level and exactly the scheme's own parameters. */
  function SchemeContext(s: Scheme, now: IsoDate): (c: Context)
    ensures c.scheme == s && c.params == EncryptionParams(s) && c.timestamp == now
    ensures c.securityLevel == 128
    ensures c.keySize.Some? <==> s == Paillier
    ensures c.polyModulusDegree.Some? <==> s != Paillier
    ensures c.coeffModulus.Some? <==> s != Paillier
    ensures c.scale.Some? <==> s == CKKS
    ensures c.plainModulus.Some? <==> s == BFV
    ensures c.description == Some(c.params.description)
    ensures c.keySize.Some? ==> c.keySize.value == c.params.keySize
    ensures c.polyModulusDegree.Some? ==> c.polyModulusDegree.value == c.params.polyModulusDegree
    ensures c.coeffModulus.Some? ==> c.coeffModulus.value == c.params.coeffModulus
    ensures c.scale.Some? ==> c.scale.value == c.params.scale
    ensures c.plainModulus.Some? ==> c.plainModulus.value == c.params.plainModulus
  {
    var p := EncryptionParams(s);
    var base := Context(s, p, now, p.securityLevel, None, None, None, None, None, None);
    match s
    case Paillier => base.(keySize := Some(p.keySize), description := Some(p.description))
    case CKKS => base.(polyModulusDegree := Some(p.polyModulusDegree), coeffModulus := Some(p.coeffModulus),
                       scale := Some(p.scale), description := Some(p.description))
    case BFV => base.(polyModulusDegree := Some(p.polyModulusDegree), coeffModulus := Some(p.coeffModulus),
                      plainModulus := Some(p.plainModulus), description := Some(p.description))
  }

  // ---------------------------------------------------------------------------
  // Key artifacts
  // ---------------------------------------------------------------------------

  datatype PublicKey =
    | PaillierPublicKey(n: string, g: string, keySize: nat, generated: IsoDate)
    | CkksPublicKey(publicKey: string, polyModulusDegree: nat, scale: nat, generated: IsoDate)
    | BfvPublicKey(publicKey: string, polyModulusDegree: nat, plainModulus: nat, generated: IsoDate)
  {
    /** The key's `method` field. */
    function Method(): Scheme {
      match this
      case PaillierPublicKey(_, _, _, _) => Paillier
      case CkksPublicKey(_, _, _, _) => CKKS
      case BfvPublicKey(_, _, _, _) => BFV
    }
  }

  datatype SecretKey =
    | PaillierSecretKey(lambda: string, mu: string, n: string, keySize: nat, generated: IsoDate)
    | CkksSecretKey(secretKey: string, polyModulusDegree: nat, coeffModulus: seq<nat>, scale: nat, generated: IsoDate)
    | BfvSecretKey(secretKey: string, polyModulusDegree: nat, coeffModulus: seq<nat>, plainModulus: nat, generated: IsoDate)
  {
    function Method(): Scheme {
      match this
      case PaillierSecretKey(_, _, _, _, _) => Paillier
      case CkksSecretKey(_, _, _, _, _) => CKKS
      case BfvSecretKey(_, _, _, _, _) => BFV
    }
  }

  datatype RelinKeys = RelinKeys(scheme: Scheme, relinKeys: string, generated: IsoDate)

  datatype GaloisKeys = GaloisKeys(scheme: Scheme, galoisKeys: string, generated: IsoDate)

  /** What `generateKeys` returns. */
  datatype KeySet = KeySet(publicKey: Option<PublicKey>, secretKey: Option<SecretKey>,
                           relinKeys: Option<RelinKeys>, galoisKeys: Option<GaloisKeys>)

  /** The readings of `new Date().toISOString()` taken while the public,
      secret, relinearisation and Galois keys are built, in that order. */
  datatype Readings = Readings(publicKey: IsoDate, secretKey: IsoDate, relinKeys: IsoDate, galoisKeys: IsoDate)

  /** `encodeBase64(keyData.slice(w * i, w * (i + 1)))`: the `i`-th slice
      of width `w` as base64 text. */
  function Payload(keyData: seq<byte>, w: nat, i: nat): (s: string)
    requires w * (i + 1) <= |keyData|
    ensures w == 256 ==> |s| == 344
    ensures w == 1024 ==> |s| == 1368
  {
    var slice := keyData[w * i .. w * (i + 1)];
    Base64.EncodedSliceLengths(slice);
    Base64.EncodeBase64(slice)
  }

  /** A payload is base64 text that decodes back to its slice. */
  lemma PayloadDecodes(keyData: seq<byte>, w: nat, i: nat)
    requires w * (i + 1) <= |keyData|
    ensures Base64.IsBase64Text(Payload(keyData, w, i))
    ensures Base64.Decode(Payload(keyData, w, i)) == Some(keyData[w * i .. w * (i + 1)])
  {
    Base64.EncodeBase64Facts(keyData[w * i .. w * (i + 1)]);
  }

  /** A payload depends only on the bytes of its own slice. */
  lemma PayloadOfPrefix(a: seq<byte>, b: seq<byte>, w: nat, i: nat, m: nat)
    requires w * (i + 1) <= m <= |a| && m <= |b| && a[..m] == b[..m]
    ensures Payload(a, w, i) == Payload(b, w, i)
  {
    assert a[w * i .. w * (i + 1)] == a[..m][w * i .. w * (i + 1)];
    assert b[w * i .. w * (i + 1)] == b[..m][w * i .. w * (i + 1)];
  }

  /** The paillier key pair from a 2048-byte buffer: `n`, `g`, `lambda` and
      `mu` are the payloads of the consecutive 256-byte slices from offset
      0, 344 characters each, and the secret key repeats the public `n`. */
  function PaillierKeys(keyData: seq<byte>, t: Readings): (k: (PublicKey, SecretKey))
    requires |keyData| == 2048
    ensures k.0.PaillierPublicKey? && k.1.PaillierSecretKey?
    ensures k.0.n == Payload(keyData, 256, 0) && k.0.g == Payload(keyData, 256, 1)
    ensures k.1.lambda == Payload(keyData, 256, 2) && k.1.mu == Payload(keyData, 256, 3)
    ensures |k.0.n| == 344 && |k.0.g| == 344 && |k.1.lambda| == 344 && |k.1.mu| == 344
    ensures k.1.n == k.0.n
    ensures k.0.keySize == 2048 && k.1.keySize == 2048
    ensures k.0.generated == t.publicKey && k.1.generated == t.secretKey
  {
    var pk := PaillierPublicKey(Payload(keyData, 256, 0), Payload(keyData, 256, 1), 2048, t.publicKey);
    var sk := PaillierSecretKey(Payload(keyData, 256, 2), Payload(keyData, 256, 3), pk.n, 2048, t.secretKey);
    (pk, sk)
  }

  /** The paillier payloads are base64 text decoding to the slices
      [0, 256), [256, 512), [512, 768) and [768, 1024) of the buffer. */
  lemma PaillierKeysDecode(keyData: seq<byte>, t: Readings)
    requires |keyData| == 2048
    ensures var k := PaillierKeys(keyData, t);
      && Base64.Decode(k.0.n) == Some(keyData[0..256])
      && Base64.Decode(k.0.g) == Some(keyData[256..512])
      && Base64.Decode(k.1.lambda) == Some(keyData[512..768])
      && Base64.Decode(k.1.mu) == Some(keyData[768..1024])
      && Base64.IsBase64Text(k.0.n) && Base64.IsBase64Text(k.0.g)
      && Base64.IsBase64Text(k.1.lambda) && Base64.IsBase64Text(k.1.mu)
  {
    PayloadSliceDecodes(keyData, 256, 0, 0, 256);
    PayloadSliceDecodes(keyData, 256, 1, 256, 512);
    PayloadSliceDecodes(keyData, 256, 2, 512, 768);
    PayloadSliceDecodes(keyData, 256, 3, 768, 1024);
  }

  /** The four ckks or bfv artifacts from an 8192-byte buffer, each tagged
      with the scheme and echoing its parameters; their payloads are base64
      of the consecutive 1024-byte slices from offset 0, 1368 characters
      each. */
  function LatticeKeys(s: Scheme, keyData: seq<byte>, t: Readings): (k: KeySet)
    requires s != Paillier && |keyData| == 8192
    ensures k.publicKey.Some? && k.secretKey.Some? && k.relinKeys.Some? && k.galoisKeys.Some?
    ensures s == CKKS ==> k.publicKey.value.CkksPublicKey? && k.secretKey.value.CkksSecretKey?
    ensures s == BFV ==> k.publicKey.value.BfvPublicKey? && k.secretKey.value.BfvSecretKey?
    ensures k.relinKeys.value.scheme == s && k.galoisKeys.value.scheme == s
    ensures k.publicKey.value.polyModulusDegree == 8192 && k.secretKey.value.polyModulusDegree == 8192
    ensures k.secretKey.value.coeffModulus == [60, 40, 40, 60]
    ensures s == CKKS ==> k.publicKey.value.scale == Ckks.Scale && k.secretKey.value.scale == Ckks.Scale
    ensures s == BFV ==> k.publicKey.value.plainModulus == 1032193 && k.secretKey.value.plainModulus == 1032193
    ensures k.publicKey.value.publicKey == Payload(keyData, 1024, 0)
    ensures k.secretKey.value.secretKey == Payload(keyData, 1024, 1)
    ensures k.relinKeys.value.relinKeys == Payload(keyData, 1024, 2)
    ensures k.galoisKeys.value.galoisKeys == Payload(keyData, 1024, 3)
    ensures k.publicKey.value.generated == t.publicKey && k.secretKey.value.generated == t.secretKey
    ensures k.relinKeys.value.generated == t.relinKeys && k.galoisKeys.value.generated == t.galoisKeys
  {
    var relin := Some(RelinKeys(s, Payload(keyData, 1024, 2), t.relinKeys));
    var galois := Some(GaloisKeys(s, Payload(keyData, 1024, 3), t.galoisKeys));
    if s == CKKS then
      KeySet(Some(CkksPublicKey(Payload(keyData, 1024, 0), 8192, 1099511627776, t.publicKey)),
             Some(CkksSecretKey(Payload(keyData, 1024, 1), 8192, [60, 40, 40, 60], 1099511627776, t.secretKey)),
             relin, galois)
    else
      KeySet(Some(BfvPublicKey(Payload(keyData, 1024, 0), 8192, 1032193, t.publicKey)),
             Some(BfvSecretKey(Payload(keyData, 1024, 1), 8192, [60, 40, 40, 60], 1032193, t.secretKey)),
             relin, galois)
  }

  /** Each lattice payload decodes to its own 1024-byte slice of the
      buffer. */
  lemma LatticeKeysDecode(s: Scheme, keyData: seq<byte>, t: Readings)
    requires s != Paillier && |keyData| == 8192
    ensures var k := LatticeKeys(s, keyData, t);
      && Base64.Decode(k.publicKey.value.publicKey) == Some(keyData[0..1024])
      && Base64.Decode(k.secretKey.value.secretKey) == Some(keyData[1024..2048])
      && Base64.Decode(k.relinKeys.value.relinKeys) == Some(keyData[2048..3072])
      && Base64.Decode(k.galoisKeys.value.galoisKeys) == Some(keyData[3072..4096])
  {
    var k := LatticeKeys(s, keyData, t);
    PayloadsDecode(keyData, k.publicKey.value.publicKey, k.secretKey.value.secretKey,
                   k.relinKeys.value.relinKeys, k.galoisKeys.value.galoisKeys);
  }

  /** The first four 1024-byte payloads of the buffer decode back to their
      slices. */
  lemma PayloadsDecode(keyData: seq<byte>, p0: string, p1: string, p2: string, p3: string)
    requires |keyData| == 8192
    requires p0 == Payload(keyData, 1024, 0) && p1 == Payload(keyData, 1024, 1)
    requires p2 == Payload(keyData, 1024, 2) && p3 == Payload(keyData, 1024, 3)
    ensures Base64.Decode(p0) == Some(keyData[0..1024])
    ensures Base64.Decode(p1) == Some(keyData[1024..2048])
    ensures Base64.Decode(p2) == Some(keyData[2048..3072])
    ensures Base64.Decode(p3) == Some(keyData[3072..4096])
  {
    PayloadSliceDecodes(keyData, 1024, 0, 0, 1024);
    PayloadSliceDecodes(keyData, 1024, 1, 1024, 2048);
    PayloadSliceDecodes(keyData, 1024, 2, 2048, 3072);
    PayloadSliceDecodes(keyData, 1024, 3, 3072, 4096);
  }

  /** The i-th payload of width w is base64 text decoding to the slice
      [lo, hi) of the buffer. */
  lemma PayloadSliceDecodes(keyData: seq<byte>, w: nat, i: nat, lo: nat, hi: nat)
    requires lo == w * i && hi == lo + w && hi <= |keyData|
    ensures Base64.IsBase64Text(Payload(keyData, w, i))
    ensures Base64.Decode(Payload(keyData, w, i)) == Some(keyData[lo .. hi])
  {
    assert w * (i + 1) == hi;
    PayloadDecodes(keyData, w, i);
  }

  /** Each lattice payload is 1368 characters of base64 text. */
  lemma LatticeKeysText(s: Scheme, keyData: seq<byte>, t: Readings)
    requires s != Paillier && |keyData| == 8192
    ensures var k := LatticeKeys(s, keyData, t);
      && |k.publicKey.value.publicKey| == 1368 && |k.secretKey.value.secretKey| == 1368
      && |k.relinKeys.value.relinKeys| == 1368 && |k.galoisKeys.value.galoisKeys| == 1368
      && Base64.IsBase64Text(k.publicKey.value.publicKey) && Base64.IsBase64Text(k.secretKey.value.secretKey)
      && Base64.IsBase64Text(k.relinKeys.value.relinKeys) && Base64.IsBase64Text(k.galoisKeys.value.galoisKeys)
  {
    PayloadDecodes(keyData, 1024, 0);
    PayloadDecodes(keyData, 1024, 1);
    PayloadDecodes(keyData, 1024, 2);
    PayloadDecodes(keyData, 1024, 3);
  }

  /** Bytes from 1024 onward do not influence the paillier keys. */
  lemma PaillierKeysIgnoreTail(a: seq<byte>, b: seq<byte>, t: Readings)
    requires |a| == 2048 && |b| == 2048 && a[..1024] == b[..1024]
    ensures PaillierKeys(a, t) == PaillierKeys(b, t)
  {
    PayloadOfPrefix(a, b, 256, 0, 1024);
    PayloadOfPrefix(a, b, 256, 1, 1024);
    PayloadOfPrefix(a, b, 256, 2, 1024);
    PayloadOfPrefix(a, b, 256, 3, 1024);
  }

  /** Bytes from 4096 onward do not influence the lattice keys. */
  lemma LatticeKeysIgnoreTail(s: Scheme, a: seq<byte>, b: seq<byte>, t: Readings)
    requires s != Paillier && |a| == 8192 && |b| == 8192 && a[..4096] == b[..4096]
    ensures LatticeKeys(s, a, t) == LatticeKeys(s, b, t)
  {
    PayloadOfPrefix(a, b, 1024, 0, 4096);
    PayloadOfPrefix(a, b, 1024, 1, 4096);
    PayloadOfPrefix(a, b, 1024, 2, 4096);
    PayloadOfPrefix(a, b, 1024, 3, 4096);
  }

  // ---------------------------------------------------------------------------
  // Rendering
  // ---------------------------------------------------------------------------

  /** The JSON members of a public key, in the order the source builds
      them. */
  function PublicKeyMembers(pk: PublicKey): seq<Json.Member> {
    match pk
    case PaillierPublicKey(n, g, keySize, generated) =>
      [ ("method", Json.JString(SchemeName(Paillier))), ("n", Json.JString(n)), ("g", Json.JString(g)),
        ("keySize", Json.JNumber(keySize)), ("generated", Json.JString(generated)) ]
    case CkksPublicKey(key, degree, scale, generated) =>
      [ ("method", Json.JString(SchemeName(CKKS))), ("publicKey", Json.JString(key)),
        ("polyModulusDegree", Json.JNumber(degree)), ("scale", Json.JNumber(scale)),
        ("generated", Json.JString(generated)) ]
    case BfvPublicKey(key, degree, plainModulus, generated) =>
      [ ("method", Json.JString(SchemeName(BFV))), ("publicKey", Json.JString(key)),
        ("polyModulusDegree", Json.JNumber(degree)), ("plainModulus", Json.JNumber(plainModulus)),
        ("generated", Json.JString(generated)) ]
  }

  function PaillierSecretMembers(lambda: string, mu: string, n: string, keySize: nat, generated: string): seq<Json.Member> {
    [ ("method", Json.JString(SchemeName(Paillier))), ("lambda", Json.JString(lambda)), ("mu", Json.JString(mu)),
      ("n", Json.JString(n)), ("keySize", Json.JNumber(keySize)), ("generated", Json.JString(generated)) ]
  }

  /** `JSON.stringify(publicKey, null, 2)`, `null` for a missing key. */
  function PublicKeyText(pk: Option<PublicKey>): (s: string)
    ensures pk.None? <==> s == "null"
  {
    match pk
    case None => "null"
    case Some(k) =>
      var t := Json.ObjectText(Json.Indented, PublicKeyMembers(k));
      assert t[0] == '{';
      t
  }

  /** The published public key parses back, field by field, in the order
      the source writes them. */
  lemma PublicKeyTextParses(pk: PublicKey)
    ensures var ms := PublicKeyMembers(pk);
      Json.ParseObject(Json.Indented, Json.Keys(ms), PublicKeyText(Some(pk))) == Some(Json.Values(ms))
  {
    Json.LayoutsWellSeparated();
    Json.ParseObjectText(Json.Indented, PublicKeyMembers(pk));
  }

  /** A paillier secret key renders to JSON that parses back to its fields. */
  lemma PaillierSecretKeyTextParses(sk: SecretKey)
    requires sk.PaillierSecretKey?
    ensures var ms := PaillierSecretMembers(sk.lambda, sk.mu, sk.n, sk.keySize, sk.generated);
      var r := SecretKeyText(Paillier, 128, Some(sk));
      r.Success? && Json.ParseObject(Json.Indented, Json.Keys(ms), r.value) == Some(Json.Values(ms))
  {
    Json.LayoutsWellSeparated();
    Json.ParseObjectText(Json.Indented, PaillierSecretMembers(sk.lambda, sk.mu, sk.n, sk.keySize, sk.generated));
  }

  /** The scheme-specific parameter lines of a lattice secret key. */
  function LatticeDetails(sk: SecretKey): seq<string>
    requires !sk.PaillierSecretKey?
  {
    [ "Polynomial Modulus Degree: " + NatText(sk.polyModulusDegree),
      "Coefficient Modulus: " + JoinComma(sk.coeffModulus),
      if sk.CkksSecretKey? then "Scale: " + NatText(sk.scale) else "Plain Modulus: " + NatText(sk.plainModulus) ]
  }

  function BlockName(sk: SecretKey): string
    requires !sk.PaillierSecretKey?
  {
    if sk.CkksSecretKey? then "CKKS" else "BFV"
  }

  /** Why a secret key cannot be rendered: the template reads fields of a
      secret key that is still `null`. */
  datatype Error = SecretKeyMissing

  /** The secret key as downloadable text for `scheme`, `securityLevel`
      coming from the scheme's parameters. */
  function SecretKeyText(scheme: Scheme, securityLevel: nat, sk: Option<SecretKey>): (r: Result<string, Error>)
    requires sk.Some? ==> sk.value.Method() == scheme
    ensures scheme == Paillier ==> r.Success?
    ensures scheme != Paillier ==> (r.Failure? <==> sk.None?)
  {
    match sk
    case None => if scheme == Paillier then Success("null") else Failure(SecretKeyMissing)
    case Some(k) =>
      match k
      case PaillierSecretKey(lambda, mu, n, keySize, generated) =>
        Success(Json.ObjectText(Json.Indented, PaillierSecretMembers(lambda, mu, n, keySize, generated)))
      case _ => Success(KeyBlock.Block(BlockName(k), k.secretKey, LatticeDetails(k), securityLevel, k.generated))
  }

  lemma LatticeDetailsNoLineFeed(sk: SecretKey)
    requires !sk.PaillierSecretKey?
    ensures KeyBlock.NoLineFeed(LatticeDetails(sk))
  {
    KeyBlock.NatTextNoLineFeed(sk.polyModulusDegree);
    if sk.CkksSecretKey? {
      KeyBlock.NatTextNoLineFeed(sk.scale);
    } else {
      KeyBlock.NatTextNoLineFeed(sk.plainModulus);
    }
  }

  /** A lattice secret key renders to exactly the block's lines: BEGIN, the
      payload verbatim, an empty line, degree, moduli, scale or plain
      modulus, security level, generation time, END. */
  lemma LatticeSecretKeyLines(sk: SecretKey, securityLevel: nat)
    requires !sk.PaillierSecretKey? && '\n' !in sk.secretKey
    ensures var r := SecretKeyText(sk.Method(), securityLevel, Some(sk));
      r.Success? && Lines(r.value) == KeyBlock.BlockLines(BlockName(sk), sk.secretKey, LatticeDetails(sk), securityLevel, sk.generated)
  {
    LatticeDetailsNoLineFeed(sk);
    Ckks.IsoDateNoLineFeed(sk.generated);
    assert '\n' !in BlockName(sk);
    KeyBlock.BlockAsLines(BlockName(sk), sk.secretKey, LatticeDetails(sk), securityLevel, sk.generated);
  }

  /** Distinct payloads render to distinct text. */
  lemma LatticeSecretKeyTextInjective(a: SecretKey, b: SecretKey, securityLevel: nat)
    requires !a.PaillierSecretKey? && '\n' !in a.secretKey
    requires !b.PaillierSecretKey? && '\n' !in b.secretKey
    requires a.Method() == b.Method()
    requires SecretKeyText(a.Method(), securityLevel, Some(a)) == SecretKeyText(b.Method(), securityLevel, Some(b))
    ensures a.secretKey == b.secretKey
  {
    LatticeSecretKeyLines(a, securityLevel);
    LatticeSecretKeyLines(b, securityLevel);
    var la := KeyBlock.BlockLines(BlockName(a), a.secretKey, LatticeDetails(a), securityLevel, a.generated);
    var lb := KeyBlock.BlockLines(BlockName(b), b.secretKey, LatticeDetails(b), securityLevel, b.generated);
    assert la[1] == a.secretKey && lb[1] == b.secretKey;
  }

  // ---------------------------------------------------------------------------
  // HomomorphicKeyGenerator
  // ---------------------------------------------------------------------------

  /** What `getSummary` returns. */
  datatype Summary = Summary(
    scheme: Scheme, securityLevel: nat, description: string,
    publicKeyGenerated: bool, secretKeyGenerated: bool,
    relinKeysGenerated: bool, galoisKeysGenerated: bool, timestamp: IsoDate)

  class HomomorphicKeyGenerator {
    const scheme: Scheme
    const params: SchemeParams
    var publicKey: Option<PublicKey>
    var secretKey: Option<SecretKey>
    var relinKeys: Option<RelinKeys>
    var galoisKeys: Option<GaloisKeys>
    var context: Option<Context>

    /** Every artifact carries the generator's scheme, and a paillier
        generator has no evaluation keys. */
    predicate Valid()
      reads this
    {
      && params == EncryptionParams(scheme)
      && (publicKey.Some? ==> publicKey.value.Method() == scheme)
      && (secretKey.Some? ==> secretKey.value.Method() == scheme)
      && (relinKeys.Some? ==> relinKeys.value.scheme == scheme)
      && (galoisKeys.Some? ==> galoisKeys.value.scheme == scheme)
      && (scheme == Paillier ==> relinKeys.None? && galoisKeys.None?)
    }

    constructor(scheme: Scheme)
      ensures this.scheme == scheme && params == EncryptionParams(scheme)
      ensures publicKey.None? && secretKey.None? && relinKeys.None? && galoisKeys.None? && context.None?
      ensures Valid()
    {
      this.scheme := scheme;
      params := EncryptionParams(scheme);
      publicKey := None;
      secretKey := None;
      relinKeys := None;
      galoisKeys := None;
      context := None;
    }

    /** `initializeContext()` at time `now`. */
    method InitializeContext(now: IsoDate) returns (c: Context)
      requires Valid()
      modifies this
      ensures Valid()
      ensures c == SchemeContext(scheme, now) && context == Some(c)
      ensures publicKey == old(publicKey) && secretKey == old(secretKey)
      ensures relinKeys == old(relinKeys) && galoisKeys == old(galoisKeys)
    {
      context := Some(Context(scheme, params, now, params.securityLevel, None, None, None, None, None, None));
      match scheme {
        case Paillier => InitializePaillierContext();
        case CKKS => InitializeCKKSContext();
        case BFV => InitializeBFVContext();
      }
      c := context.value;
    }

    /** `initializePaillierContext()`. */
    method InitializePaillierContext()
      requires context.Some? && params.PaillierParams?
      modifies this
      ensures context == Some(old(context).value.(keySize := Some(params.keySize), description := Some(params.description)))
      ensures publicKey == old(publicKey) && secretKey == old(secretKey)
      ensures relinKeys == old(relinKeys) && galoisKeys == old(galoisKeys)
    {
      context := Some(context.value.(keySize := Some(params.keySize), description := Some(params.description)));
    }

    /** `initializeCKKSContext()`. */
    method InitializeCKKSContext()
      requires context.Some? && params.CkksParams?
      modifies this
      ensures context == Some(old(context).value.(
        polyModulusDegree := Some(params.polyModulusDegree), coeffModulus := Some(params.coeffModulus),
        scale := Some(params.scale), description := Some(params.description)))
      ensures publicKey == old(publicKey) && secretKey == old(secretKey)
      ensures relinKeys == old(relinKeys) && galoisKeys == old(galoisKeys)
    {
      context := Some(context.value.(
        polyModulusDegree := Some(params.polyModulusDegree), coeffModulus := Some(params.coeffModulus),
        scale := Some(params.scale), description := Some(params.description)));
    }

    /** `initializeBFVContext()`. */
    method InitializeBFVContext()
      requires context.Some? && params.BfvParams?
      modifies this
      ensures context == Some(old(context).value.(
        polyModulusDegree := Some(params.polyModulusDegree), coeffModulus := Some(params.coeffModulus),
        plainModulus := Some(params.plainModulus), description := Some(params.description)))
      ensures publicKey == old(publicKey) && secretKey == old(secretKey)
      ensures relinKeys == old(relinKeys) && galoisKeys == old(galoisKeys)
    {
      context := Some(context.value.(
        polyModulusDegree := Some(params.polyModulusDegree), coeffModulus := Some(params.coeffModulus),
        plainModulus := Some(params.plainModulus), description := Some(params.description)));
    }

    /** `generatePaillierKeys()` with `keyData` the random buffer. */
    method GeneratePaillierKeys(keyData: seq<byte>, t: Readings)
      requires Valid() && scheme == Paillier && |keyData| == 2048
      modifies this
      ensures Valid()
      ensures publicKey == Some(PaillierKeys(keyData, t).0) && secretKey == Some(PaillierKeys(keyData, t).1)
      ensures relinKeys == old(relinKeys) && galoisKeys == old(galoisKeys) && context == old(context)
    {
      var k := PaillierKeys(keyData, t);
      publicKey, secretKey := Some(k.0), Some(k.1);
    }

    /** `generateCKKSKeys()` with `keyData` the random buffer. */
    method GenerateCKKSKeys(keyData: seq<byte>, t: Readings)
      requires Valid() && scheme == CKKS && |keyData| == 8192
      modifies this
      ensures Valid()
      ensures KeySet(publicKey, secretKey, relinKeys, galoisKeys) == LatticeKeys(CKKS, keyData, t)
      ensures context == old(context)
    {
      var k := LatticeKeys(CKKS, keyData, t);
      publicKey, secretKey, relinKeys, galoisKeys := k.publicKey, k.secretKey, k.relinKeys, k.galoisKeys;
    }

    /** `generateBFVKeys()` with `keyData` the random buffer. */
    method GenerateBFVKeys(keyData: seq<byte>, t: Readings)
      requires Valid() && scheme == BFV && |keyData| == 8192
      modifies this
      ensures Valid()
      ensures KeySet(publicKey, secretKey, relinKeys, galoisKeys) == LatticeKeys(BFV, keyData, t)
      ensures context == old(context)
    {
      var k := LatticeKeys(BFV, keyData, t);
      publicKey, secretKey, relinKeys, galoisKeys := k.publicKey, k.secretKey, k.relinKeys, k.galoisKeys;
    }

    /** `generateKeys()`: the scheme's generator, fed a buffer of the size
        its parameters name; returns the four fields. */
    method GenerateKeys(keyData: seq<byte>, t: Readings) returns (keys: KeySet)
      requires Valid() && |keyData| == RandomSize(params)
      modifies this
      ensures Valid()
      ensures keys == KeySet(publicKey, secretKey, relinKeys, galoisKeys)
      ensures scheme == Paillier ==> keys == KeySet(Some(PaillierKeys(keyData, t).0), Some(PaillierKeys(keyData, t).1), None, None)
      ensures scheme != Paillier ==> keys == LatticeKeys(scheme, keyData, t)
      ensures context == old(context)
    {
      match scheme {
        case Paillier => GeneratePaillierKeys(keyData, t);
        case CKKS => GenerateCKKSKeys(keyData, t);
        case BFV => GenerateBFVKeys(keyData, t);
      }
      keys := KeySet(publicKey, secretKey, relinKeys, galoisKeys);
    }

    /** `formatSecretKey()`. */
    function FormatSecretKey(): (r: Result<string, Error>)
      reads this
      requires Valid()
      ensures scheme == Paillier ==> r.Success?
      ensures scheme != Paillier ==> (r.Failure? <==> secretKey.None?)
    {
      SecretKeyText(scheme, params.securityLevel, secretKey)
    }

    /** `formatPublicKey()`. */
    function FormatPublicKey(): (s: string)
      reads this
      ensures publicKey.None? <==> s == "null"
    {
      PublicKeyText(publicKey)
    }

    /** `getSummary()` at time `now`: the scheme, its security level and
        description, and which keys are present. */
    function GetSummary(now: IsoDate): (s: Summary)
      reads this
      ensures s.scheme == scheme && s.securityLevel == params.securityLevel && s.description == params.description
      ensures s.publicKeyGenerated <==> publicKey.Some?
      ensures s.secretKeyGenerated <==> secretKey.Some?
      ensures s.relinKeysGenerated <==> relinKeys.Some?
      ensures s.galoisKeysGenerated <==> galoisKeys.Some?
      ensures s.timestamp == now
    {
      Summary(scheme, params.securityLevel, params.description,
              publicKey.Some?, secretKey.Some?, relinKeys.Some?, galoisKeys.Some?, now)
    }
  }

  /** The CKKS page's key parser recovers the payload of any lattice block
      whose payload is base64 text longer than 100 characters, tagging it
      `ckks` whatever the scheme. */
  lemma LatticeSecretKeyParses(sk: SecretKey)
    requires !sk.PaillierSecretKey? && |sk.secretKey| > 100 && Base64.IsBase64Text(sk.secretKey)
    ensures var r := SecretKeyText(sk.Method(), 128, Some(sk));
      r.Success? && Ckks.ParseSecretKey(r.value) == Success(Ckks.ParsedKey(Ckks.Method, sk.secretKey, true))
  {
    Base64.Base64TextFacts(sk.secretKey);
    LatticeSecretKeyLines(sk, 128);
    var ls := Lines(SecretKeyText(sk.Method(), 128, Some(sk)).value);
    assert ls == KeyBlock.BlockLines(BlockName(sk), sk.secretKey, LatticeDetails(sk), 128, sk.generated);
    assert |ls[0]| <= 50 && ls[1] == sk.secretKey by {
      assert ls[0] == KeyBlock.BeginLine(BlockName(sk));
    }
    SecondLineFound(ls, 100);
    TrimUnchanged(sk.secretKey);
  }

  /** A ckks or bfv secret key downloaded from this page is accepted by the
      CKKS page's key parser, which returns its payload. */
  lemma DownloadedKeyParses(s: Scheme, keyData: seq<byte>, t: Readings)
    requires s != Paillier && |keyData| == 8192
    ensures var sk := LatticeKeys(s, keyData, t).secretKey.value;
      var r := SecretKeyText(s, 128, Some(sk));
      r.Success? && Ckks.ParseSecretKey(r.value) == Success(Ckks.ParsedKey(Ckks.Method, sk.secretKey, true))
  {
    var sk := LatticeKeys(s, keyData, t).secretKey.value;
    assert sk.Method() == s;
    LatticeKeysText(s, keyData, t);
    LatticeSecretKeyParses(sk);
  }
}
