# Client-side key generation and CKKS encryption, modelled in Dafny

The browser client of the homomorphic cloud-storage system has two pages
of logic, and this project models both.

The key-generation page (`HomomorphicKeyGenerator` with
`ENCRYPTION_PARAMS`):
- chooses one of three schemes: paillier, ckks or bfv;
- builds a context record from the scheme's parameters;
- draws one random byte buffer and base64-encodes fixed slices of it into
  the public key, the secret key and, for the lattice schemes, the
  relinearisation and Galois keys;
- renders the public key as indented JSON and the secret key as JSON
  (paillier) or as a downloadable text block (ckks, bfv);
- reports a summary of which keys exist.

The CKKS page (`CKKS_PARAMS`, `CKKSContext`, `CKKSEncryption`,
`CKKSDecryption`) is a simulation: no lattice arithmetic takes place.
- The context cuts an 8192-byte buffer into four 1024-byte key payloads.
- Encryption stores the UTF-8 bytes of the plaintext, together with a
  32-character prefix of the public key, in a compact JSON record. It
  base64-encodes that record into an envelope.
- Decryption checks that a secret key is present. It reads the envelope as
  an object or as JSON text, checks the `ckks` tag, and unwraps the record
  again. The default `TextDecoder` drops a leading U+FEFF, so such a
  plaintext loses its first character (see "Findings").
- A downloaded secret key is parsed by taking its first line longer than
  100 UTF-16 code units.

The browser built-ins these pages rely on are modelled as far as the pages
use them:
- `btoa`/`atob` in module `Base64`;
- `TextEncoder`/`TextDecoder` in module `Utf8`;
- `JSON.stringify`/`JSON.parse` for flat objects in module `Json`;
- `split('\n')`, `find`, `trim` and `join(', ')` in module `Text`.

Modules:
- `Wrappers`: `Option` and `Result`.
- `Text`: bytes and Latin-1 strings, decimal numerals, lines, `trim`, and
  the shape of an ISO timestamp.
- `Base64`, `Utf8`, `Json`: the built-ins listed above.
- `KeyBlock`: the BEGIN/END secret-key block that both pages write.
- `KeyGenerator`: the key-generation page.
- `Ckks`: the CKKS page.

Randomness and clocks are parameters:
- the random buffer is `keyData`;
- `Date.now()` is a `nat`;
- `new Date().toISOString()` is an `IsoDate`, a string of the ISO shape
  supplied by the caller. `Readings` carries the four readings that key
  generation takes.

The `method` tag that every key object and the envelope carry:
- on the key-generation page a key's scheme is given by its constructor
  (`Method()`), and the rendered JSON writes the tag as `SchemeName` of
  that scheme;
- on the CKKS page the tag is a field named `scheme`, because `method` is
  a Dafny keyword.

## Model

| member | source | states |
|---|---|---|
| KeyGenerator.EncryptionParams | frontend/js/key-generator.js:16-36 | every scheme's parameters claim 128-bit security, and the parameter variant matches the scheme, in both directions |
| KeyGenerator.SchemeNamesDistinct | frontend/js/key-generator.js:16-36 | the `method` strings of two schemes, which the rendered keys carry, are equal exactly when the schemes are |
| KeyGenerator.RandomSizeCoversSlices | frontend/js/key-generator.js:144-243 | the paillier buffer (keySize bytes) covers the 1024 bytes cut from it, and the lattice buffer (polyModulusDegree bytes) the 4096 bytes cut from it |
| KeyGenerator.CkksParamsAgree | frontend/js/key-generator.js:22-28 | the ckks entry of `ENCRYPTION_PARAMS` agrees with `CKKS_PARAMS` of the CKKS page |
| KeyGenerator.SchemeContext | frontend/js/key-generator.js:59-110 | the context has the scheme, its parameters, the timestamp and security level 128; it has a key size exactly for paillier, a degree and moduli exactly for the lattice schemes, a scale exactly for ckks, a plain modulus exactly for bfv, and each present value equals the parameter |
| KeyGenerator.HomomorphicKeyGenerator.constructor | frontend/js/key-generator.js:43-51 | takes the scheme's parameters, has no keys and no context, and satisfies the generator invariant |
| KeyGenerator.HomomorphicKeyGenerator.InitializeContext | frontend/js/key-generator.js:56-79 | stores and returns exactly `SchemeContext(scheme, now)`, keeps the invariant, and leaves every key unchanged |
| KeyGenerator.HomomorphicKeyGenerator.InitializePaillierContext | frontend/js/key-generator.js:84-88 | adds the key size and description to the context and changes nothing else |
| KeyGenerator.HomomorphicKeyGenerator.InitializeCKKSContext | frontend/js/key-generator.js:93-99 | adds the degree, moduli, scale and description to the context and changes nothing else |
| KeyGenerator.HomomorphicKeyGenerator.InitializeBFVContext | frontend/js/key-generator.js:104-110 | adds the degree, moduli, plain modulus and description to the context and changes nothing else |
| KeyGenerator.Payload | frontend/js/key-generator.js:259-261 | a 256-byte slice encodes to 344 characters, a 1024-byte slice to 1368 |
| KeyGenerator.PayloadDecodes | frontend/js/key-generator.js:259-261 | a payload is base64 text that `atob` turns back into exactly its slice |
| KeyGenerator.PayloadOfPrefix | frontend/js/key-generator.js:149-159 | a payload depends only on the bytes of its own slice |
| KeyGenerator.PaillierKeys | frontend/js/key-generator.js:142-164 | `n`, `g`, `lambda`, `mu` are the payloads of the 256-byte slices 0 to 3, each of 344 characters; the secret key repeats the public `n`; both carry key size 2048 and their own generation time |
| KeyGenerator.PaillierKeysDecode | frontend/js/key-generator.js:149-159 | the four paillier payloads decode to the bytes [0,256), [256,512), [512,768) and [768,1024) of the buffer |
| KeyGenerator.PaillierKeysIgnoreTail | frontend/js/key-generator.js:144-159 | buffers that agree on their first 1024 bytes give the same paillier keys |
| KeyGenerator.LatticeKeys | frontend/js/key-generator.js:169-244 | all four artifacts exist, have the variant and tag of the scheme, echo degree 8192, the moduli and the scale (ckks) or plain modulus (bfv), and carry the payloads of the 1024-byte slices 0 to 3 with their own generation times |
| KeyGenerator.LatticeKeysDecode | frontend/js/key-generator.js:175-241 | each lattice payload decodes to its own 1024-byte slice: [0,1024), [1024,2048), [2048,3072), [3072,4096) |
| KeyGenerator.LatticeKeysText | frontend/js/key-generator.js:175-241 | each lattice payload is 1368 characters of base64 text |
| KeyGenerator.LatticeKeysIgnoreTail | frontend/js/key-generator.js:170-241 | buffers that agree on their first 4096 bytes give the same lattice keys |
| KeyGenerator.HomomorphicKeyGenerator.GeneratePaillierKeys | frontend/js/key-generator.js:142-164 | sets the public and secret key to `PaillierKeys`, keeps the evaluation keys and context, and keeps the invariant |
| KeyGenerator.HomomorphicKeyGenerator.GenerateCKKSKeys | frontend/js/key-generator.js:169-204 | sets the four fields to `LatticeKeys(CKKS, …)`, keeps the context and keeps the invariant |
| KeyGenerator.HomomorphicKeyGenerator.GenerateBFVKeys | frontend/js/key-generator.js:209-244 | sets the four fields to `LatticeKeys(BFV, …)`, keeps the context and keeps the invariant |
| KeyGenerator.HomomorphicKeyGenerator.GenerateKeys | frontend/js/key-generator.js:115-137 | dispatches on the scheme and returns the four fields: the paillier pair with no evaluation keys, or the lattice key set; keeps the invariant and the context |
| KeyGenerator.PublicKeyText | frontend/js/key-generator.js:305-307 | the rendered public key is `null` exactly when there is no public key |
| KeyGenerator.PublicKeyTextParses | frontend/js/key-generator.js:305-307 | the published public key JSON, of every variant, parses back to its fields in the order the source writes them |
| KeyGenerator.SecretKeyText | frontend/js/key-generator.js:266-300 | paillier always renders, `null` included; a lattice scheme fails exactly when the secret key is missing |
| KeyGenerator.PaillierSecretKeyTextParses | frontend/js/key-generator.js:270-272 | the paillier secret key JSON parses back to `lambda`, `mu`, `n`, `keySize`, `generated` |
| KeyGenerator.LatticeSecretKeyLines | frontend/js/key-generator.js:274-296 | the ckks or bfv block splits into exactly its lines: BEGIN, the payload verbatim, an empty line, degree, moduli, scale or plain modulus, security level, generation time, END |
| KeyGenerator.LatticeSecretKeyTextInjective | frontend/js/key-generator.js:274-296 | two secret keys of one scheme whose blocks are equal have equal payloads |
| KeyGenerator.HomomorphicKeyGenerator.FormatSecretKey | frontend/js/key-generator.js:266-300 | paillier always renders; ckks and bfv fail exactly when no secret key has been generated |
| KeyGenerator.HomomorphicKeyGenerator.FormatPublicKey | frontend/js/key-generator.js:305-307 | the text is `null` exactly when no public key exists |
| KeyGenerator.HomomorphicKeyGenerator.GetSummary | frontend/js/key-generator.js:312-323 | reports the scheme, security level and description, and each `…Generated` flag is true exactly when that key exists |
| KeyGenerator.LatticeSecretKeyParses | frontend/js/ckks-encryption.js:244-262 | the CKKS page's parser returns the payload of any ckks or bfv block whose payload is base64 text longer than 100 characters, tagged `ckks` |
| KeyGenerator.DownloadedKeyParses | frontend/js/key-generator.js:274-296 | a ckks or bfv secret key generated and downloaded on the key page is accepted by the CKKS page's parser, which returns its payload |
| Ckks.Slice | frontend/js/ckks-encryption.js:64-90 | each slice of the 8192-byte buffer is 1024 bytes long |
| Ckks.GeneratedKeys | frontend/js/ckks-encryption.js:58-92 | all four keys are tagged `ckks` and carry the one timestamp; the public key echoes degree 8192 and scale 2^40, the secret key the degree, the moduli [60,40,40,60] and the scale; the four payloads decode to bytes [0,1024), [1024,2048), [2048,3072) and [3072,4096) of the buffer |
| Ckks.KeysPartitionBuffer | frontend/js/ckks-encryption.js:64-90 | the decoded payloads, laid end to end, are exactly the first 4096 bytes of the buffer |
| Ckks.KeysIgnoreBufferTail | frontend/js/ckks-encryption.js:58-92 | bytes from 4096 onward do not influence any key |
| Ckks.GeneratedKeyText | frontend/js/ckks-encryption.js:110-112 | every generated payload is 1368 characters of base64 text |
| Ckks.CKKSContext.constructor | frontend/js/ckks-encryption.js:26-33 | a new context has no keys and is not initialised |
| Ckks.CKKSContext.Initialize | frontend/js/ckks-encryption.js:38-45 | returns true, marks the context initialised, and leaves the keys alone |
| Ckks.CKKSContext.GenerateKeys | frontend/js/ckks-encryption.js:50-96 | refused with `ContextNotInitialized` and no change before initialisation; otherwise succeeds and stores exactly the keys of `GeneratedKeys` |
| Ckks.CKKSContext.FormatSecretKey | frontend/js/ckks-encryption.js:117-131 | fails with `SecretKeyNotGenerated` exactly when there is no secret key; otherwise returns the block of the stored key |
| Ckks.SecretKeyLines | frontend/js/ckks-encryption.js:122-130 | the block splits on line feeds into exactly its nine lines, the payload verbatim on the second |
| Ckks.ParseSecretKey | frontend/js/ckks-encryption.js:244-262 | fails with `InvalidKeyFormat` exactly when no line is longer than 100 UTF-16 code units; otherwise returns the trimmed first such line, tagged `ckks` and valid |
| Ckks.ParseSecretKeyText | frontend/js/ckks-encryption.js:244-262 | parsing a rendered secret key returns its payload whenever that payload is base64 text longer than 100 characters |
| Ckks.ShortPayloadRefused | frontend/js/ckks-encryption.js:248-252 | with the standard parameters, a block whose payload has at most 100 UTF-16 code units is refused with `InvalidKeyFormat` |
| Ckks.GeneratedSecretKeyParses | frontend/js/ckks-encryption.js:244-262 | after key generation, the downloaded secret key parses back to the stored payload |
| Ckks.EncodePlaintext | frontend/js/ckks-encryption.js:160-175 | the length is the byte count, there are between 1 and 4 bytes per character, and the bytes decode back to the plaintext |
| Ckks.Prefix | frontend/js/ckks-encryption.js:206 | `substring(0, n)`, and `slice(0, n)` of the vector at line 327, is a prefix whose length is the smaller of `n` and the input's length |
| Ckks.ParseRecordText | frontend/js/ckks-encryption.js:203-209 | every record is read back from its compact JSON, every field included |
| Ckks.RecordTextLatin1 | frontend/js/ckks-encryption.js:203-212 | the record text fits in one byte per character exactly when the public-key prefix does |
| Ckks.PerformEncryption | frontend/js/ckks-encryption.js:201-222 | succeeds exactly when the key prefix is Latin-1, otherwise fails with `InvalidCharacter`; a success is tagged `ckks`, encrypted, has the given length and the standard degree and scale, and its ciphertext decodes to the record of the vector, the length, the key prefix, the scale and the time |
| Ckks.FormatCiphertext | frontend/js/ckks-encryption.js:227-229 | the indented JSON of an envelope parses back to the same envelope |
| Ckks.CKKSEncryption.constructor | frontend/js/ckks-encryption.js:153-155 | keeps the given context |
| Ckks.CKKSEncryption.Encrypt | frontend/js/ckks-encryption.js:180-196 | refused with `PublicKeyNotAvailable` without a public key; succeeds for a key with a Latin-1 prefix; a result is tagged `ckks`, encrypted, and records the UTF-8 byte count |
| Ckks.GeneratedPublicKeyEncrypts | frontend/js/ckks-encryption.js:201-212 | a generated public key has a 32-character Latin-1 prefix, so encryption under it never fails |
| Ckks.ToUint8 | frontend/js/ckks-encryption.js:327 | `new Uint8Array` keeps the length and reduces each entry modulo 256 |
| Ckks.DecodeVector | frontend/js/ckks-encryption.js:321-335 | the default `TextDecoder` applied to the first `originalLength` entries gives no more characters than the length and the vector allow |
| Ckks.DecodeVectorKeepingBom | frontend/js/ckks-encryption.js:330-331 | the decoder as evidently intended, keeping a leading U+FEFF, within the same length bounds |
| Ckks.DecodeVectorIgnoresTail | frontend/js/ckks-encryption.js:327 | entries past `originalLength` do not reach the plaintext |
| Ckks.DecodeVectorEncoded | frontend/js/ckks-encryption.js:321-335 | the vector of a plaintext decodes to that plaintext less a leading U+FEFF, so it comes back unchanged exactly when it does not start with U+FEFF |
| Ckks.DecodeVectorKeepingBomEncoded | frontend/js/ckks-encryption.js:330-331 | with the corrected decoder every plaintext comes back unchanged |
| Ckks.PerformDecryption | frontend/js/ckks-encryption.js:299-316 | every failure is `DecryptionFailed` |
| Ckks.PerformDecryptionLength | frontend/js/ckks-encryption.js:307 | a record length of 0 falls back to the envelope's length; any other record length overrides it |
| Ckks.CKKSDecryption.Decrypt | frontend/js/ckks-encryption.js:267-294 | refused with `SecretKeyRequired` without a key, with `InvalidEncryptedDataFormat` for text that does not parse, and with `NotCkksFormat` for another tag; no other error except `DecryptionFailed` |
| Ckks.DecryptIgnoresKey | frontend/js/ckks-encryption.js:267-294 | the key is only checked for presence: any two present keys decrypt alike |
| Ckks.PerformDecryptionEncryption | frontend/js/ckks-encryption.js:201-222 | the envelope built for the encoded plaintext succeeds and decrypts back to that plaintext less a leading U+FEFF |
| Ckks.DecryptEncrypt | frontend/js/ckks-encryption.js:180-229 | decryption undoes encryption except for a leading U+FEFF, which is lost, for the envelope object and for its `formatCiphertext` text, whatever secret key is present; the plaintext comes back unchanged exactly when it does not start with U+FEFF |
| Ckks.DecryptDropsLeadingBom | frontend/js/ckks-encryption.js:330-331 | encrypting U+FEFF `hi` and decrypting the result gives `hi` |
| KeyBlock.BlockLines | frontend/js/ckks-encryption.js:122-130 | a block has six lines besides its parameter lines |
| KeyBlock.BlockAsLines | frontend/js/key-generator.js:275-283 | splitting a block on line feeds gives its lines back when no piece holds a line feed |
| Base64.Encode | frontend/js/key-generator.js:260 | four characters for each started group of three bytes, each from the alphabet or `=` |
| Base64.DecodeEncode | frontend/js/ckks-encryption.js:302 | `atob` undoes base64 encoding for every byte sequence |
| Base64.EncodedSliceLengths | frontend/js/key-generator.js:149-241 | 256 bytes encode to 344 characters, 1024 bytes to 1368 |
| Base64.Btoa | frontend/js/ckks-encryption.js:212 | `btoa` accepts a string exactly when every character fits in one byte |
| Base64.Atob | frontend/js/ckks-encryption.js:302 | whatever `atob` returns fits in one byte per character |
| Base64.AtobBtoa | frontend/js/ckks-encryption.js:212 | `atob` undoes `btoa` on every string `btoa` accepts |
| Base64.EncodeBase64Facts | frontend/js/ckks-encryption.js:110-112 | `encodeBase64` never throws, writes only base64 text, and decodes back to the same bytes |
| Base64.Base64TextFacts | frontend/js/ckks-encryption.js:256 | base64 text is Latin-1, has no line feed, and has nothing for `trim` to remove |
| Utf8.Encode | frontend/js/ckks-encryption.js:164-165 | between one and four bytes per character |
| Utf8.DecodeEncode | frontend/js/ckks-encryption.js:330-331 | decoding undoes `TextEncoder` for every string, a leading U+FEFF included |
| Utf8.DecodeStrippingBomEncode | frontend/js/ckks-encryption.js:330-331 | with the default `TextDecoder` the round trip holds exactly for strings that do not begin with U+FEFF |
| Utf8.LeadingBomLost | frontend/js/ckks-encryption.js:330-331 | the default decoder turns the encoded text U+FEFF `hi` into `hi` |
| Json.ParseQuote | frontend/js/ckks-encryption.js:203-209 | every string survives `JSON.stringify` and then `JSON.parse`, and the parser stops right after the closing quote |
| Json.ParseValueText | frontend/js/ckks-encryption.js:303 | every value is read back from its text, and the parser stops right after it |
| Json.ParseObjectText | frontend/js/ckks-encryption.js:303 | every object written in a layout is read back, member by member, by the parser for that layout |
| Json.ObjectTextLatin1 | frontend/js/ckks-encryption.js:203-212 | with Latin-1 keys an object's text is Latin-1 exactly when its string values are |
| Json.IndentedObjectLines | frontend/js/ckks-encryption.js:228 | an indented object splits into a brace line, one line per member, and a brace line |
| Text.Latin1RoundTrip | frontend/js/key-generator.js:260 | `String.fromCharCode` over bytes and the bytes of a Latin-1 string are inverse to each other |
| Text.ParseNatText | frontend/js/ckks-encryption.js:303 | parsing a printed number gives the number back and stops where the digits end |
| Text.NatTextValue | frontend/js/ckks-encryption.js:125 | the decimal digits written for a number denote that number |
| Text.LinesOfJoin | frontend/js/ckks-encryption.js:247 | splitting joined lines gives the same lines back when none of them holds a line feed |
| Text.Utf16Length | frontend/js/ckks-encryption.js:248 | `line.length` counts at least one and at most two code units per character |
| Text.Utf16LengthConcat | frontend/js/ckks-encryption.js:248 | code-unit lengths add up over concatenation |
| Text.BmpUtf16Length | frontend/js/ckks-encryption.js:248 | text within the Basic Multilingual Plane has one code unit per character |
| Text.AstralUtf16Length | frontend/js/ckks-encryption.js:248 | one emoji is two code units |
| Text.FindLongLine | frontend/js/ckks-encryption.js:248 | the index of the first line longer than the bound in UTF-16 code units, or none when every line is within it |
| Text.SecondLineFound | frontend/js/ckks-encryption.js:248 | a short first line followed by a line longer than the bound makes the search stop at the second line |
| Text.Trim | frontend/js/ckks-encryption.js:256 | the infix left after removing only white space from both ends, and all of it: what is removed is white space, and what remains neither starts nor ends with white space |
| Text.TrimUnchanged | frontend/js/ckks-encryption.js:256 | text with no white space at either end is left as it is |

## Left out

- Randomness: `crypto.getRandomValues` becomes the `keyData` parameter. Each generator requires a buffer of the size it asks for (2048 or 8192 bytes).
- Clocks: `Date.now()` and `new Date().toISOString()` become parameters, `now` and `Readings`. Only the shape of an ISO timestamp is modelled (24 or 27 characters of digits and `-+:T.Z`), not the calendar. `CKKSContext.formatSecretKey` receives the rendering as a function `toIso`.
- `console.log` output and `async`/`await` are left out. The initialisers and generators run to completion in order, because the source awaits each one.
- The getters `getPublicKey`/`getSecretKey` (frontend/js/ckks-encryption.js:136-145) return a field and are read directly as fields.
- `generateSecureRandom` (both files) and `encodeBase64` as class methods are not modelled separately. `encodeBase64` is `Base64.EncodeBase64`, shared by both pages.
- Unknown schemes: `Scheme` is a closed datatype. The source's `ENCRYPTION_PARAMS[method]` for any other string is `undefined`, and `initializeContext` would then throw at line 63. That path is not modelled.
- KeyGenerator.HomomorphicKeyGenerator.InitializePaillierContext, InitializeCKKSContext, InitializeBFVContext: these require the parameter variant of their own scheme. The source only calls each one from `initializeContext`'s switch for that scheme, where that holds.
- KeyGenerator.HomomorphicKeyGenerator.InitializeContext, GenerateKeys, FormatSecretKey: these require the generator invariant `Valid`. The constructor establishes it, and every method keeps it.
- KeyGenerator.SecretKeyText: requires the secret key's scheme to equal the generator's, which the invariant guarantees.
- KeyGenerator.HomomorphicKeyGenerator.FormatSecretKey: a missing lattice secret key is the error `SecretKeyMissing`. In the source the template literal throws a `TypeError` reading `secretKey.secretKey` of `null`.
- Ckks.ParseEnvelope and Ckks.ParseRecord: they accept exactly the layouts `formatCiphertext` and `JSON.stringify` write, with the members in the source's order. Other JSON that `JSON.parse` would accept is refused here as `InvalidEncryptedDataFormat` or `DecryptionFailed`.
- Ckks.CKKSDecryption.Decrypt: takes an envelope record or text. An arbitrary JavaScript object with a missing or oddly typed field is not modelled.
- Json: only the JSON the two pages write is modelled: flat objects with string, non-negative integer, boolean and integer-array values. Negative numbers, fractions, exponents, nested objects and white space other than the two layouts are not parsed.
- Json.Indented: an indented object with a non-empty array value is not modelled. No object written with indentation here has one.
- Ckks.Prefix: counts characters where `substring` counts UTF-16 code units. Its one use cuts 32 units of the public key before `btoa`. There the two agree on every Latin-1 prefix. A character outside the Basic Multilingual Plane within the cut is refused by `btoa` either way.
- Utf8: the source's strings are JavaScript UTF-16 strings, which may hold lone surrogates. Dafny's `char` is a Unicode scalar value, so `TextEncoder`'s replacement of lone surrogates is not modelled.
- Text.NatText: `String(n)` is modelled for the non-negative integers the pages print, without exponent notation for numbers of 10^21 and above.
- Ckks.ToUint8: the record vector parses only as non-negative integers, so `Uint8Array`'s conversion of negative or fractional numbers is not modelled.
- Paillier arithmetic, and the lattice arithmetic that the CKKS page only simulates, do not exist in the source and are not modelled.

## Findings

| source | as written | input that shows it | evidently intended | confidence | as-written member | corrected member |
|---|---|---|---|---|---|---|
| frontend/js/ckks-encryption.js:330-331 | `decodeVector` uses `new TextDecoder()`, whose default strips a leading byte-order mark, so a plaintext beginning with U+FEFF loses that character | the plaintext U+FEFF `hi` encrypts and decrypts to `hi` | decryption returns the plaintext unchanged, as `new TextDecoder('utf-8', { ignoreBOM: true })` would | not executed | Ckks.DecodeVector, Ckks.DecryptDropsLeadingBom, Utf8.DecodeStrippingBom, Utf8.LeadingBomLost | Ckks.DecodeVectorKeepingBom, Ckks.DecodeVectorKeepingBomEncoded, Utf8.Decode, Utf8.DecodeEncode |
