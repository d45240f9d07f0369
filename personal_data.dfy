/**
 * The framing around the cipher: key derivation from the password, the
 * reserved `_encrypted_at` key, and the wrapping of every decoding failure into
 * one error. The foreign code (Fernet, PBKDF2-HMAC-SHA-256, base64, JSON,
 * UTF-8) is passed in as functions, and the only thing assumed of it is the
 * round-trip property `RoundTrips`.
 */
module PersonalData {
  import opened Wrappers

  newtype byte = x: int | 0 <= x < 256

  /** A personal-data dictionary: field name to value. */
  type Fields = map<string, string>

  /** The reserved key stamped in on encryption and stripped on decryption. */
  const ENCRYPTED_AT: string := "_encrypted_at"

  /** The fixed salt, the bytes of "school_data_protection_2024". */
  const SALT: seq<byte> := [115, 99, 104, 111, 111, 108, 95, 100, 97, 116, 97, 95, 112, 114, 111,
                            116, 101, 99, 116, 105, 111, 110, 95, 50, 48, 50, 52]
  const ITERATIONS: nat := 100000
  const KEY_LENGTH: nat := 32

  /** What parsing JSON text can give. */
  datatype Json = Malformed | NotAnObject | Object(fields: Fields)

  /** The decoding step that failed. */
  datatype Stage = Base64 | Cipher | Utf8 | JsonSyntax | NotADict

  /** The single error every failed decryption surfaces as. */
  datatype DecryptionError = ValueError(cause: Stage)

  /** The library functions the module calls. */
  datatype Primitives = Primitives(
    utf8Encode: string -> seq<byte>,
    utf8Decode: seq<byte> -> Option<string>,
    jsonDumps: Fields -> string,
    jsonLoads: string -> Json,
    b64Encode: seq<byte> -> string,
    b64Decode: string -> Option<seq<byte>>,
    urlsafeB64Encode: seq<byte> -> seq<byte>,
    // password, salt, iterations, length
    pbkdf2Sha256: (seq<byte>, seq<byte>, nat, nat) -> seq<byte>,
    // key, the randomness of one call (IV and time stamp), plaintext
    fernetEncrypt: (seq<byte>, seq<byte>, seq<byte>) -> seq<byte>,
    fernetDecrypt: (seq<byte>, seq<byte>) -> Option<seq<byte>>)

  /** The one property assumed of the library: each decoder undoes its encoder. */
  ghost predicate RoundTrips(p: Primitives)
  {
    && (forall s :: p.utf8Decode(p.utf8Encode(s)) == Some(s))
    && (forall m :: p.jsonLoads(p.jsonDumps(m)) == Object(m))
    && (forall b :: p.b64Decode(p.b64Encode(b)) == Some(b))
    && (forall k, r, b :: p.fernetDecrypt(k, p.fernetEncrypt(k, r, b)) == Some(b))
  }

  /** The Fernet key: PBKDF2-HMAC-SHA-256 of the password under the fixed salt, URL-safe base64 encoded. */
  function GenerateKey(p: Primitives, password: string): (key: seq<byte>)
  {
    p.urlsafeB64Encode(p.pbkdf2Sha256(p.utf8Encode(password), SALT, ITERATIONS, KEY_LENGTH))
  }

  /** The caller's dictionary, which encryption changes in place. */
  class DataDict {
    var entries: Fields

    constructor (entries: Fields)
      ensures this.entries == entries
    {
      this.entries := entries;
    }
  }

  /** An encryption engine bound to one password. */
  datatype PersonalDataEncryption = PersonalDataEncryption(prims: Primitives, password: string)
  {
    function Key(): (key: seq<byte>)
    {
      GenerateKey(prims, password)
    }

    /** The stored text for an already stamped dictionary: JSON, UTF-8, Fernet, base64. */
    function Seal(data: Fields, randomness: seq<byte>): (token: string)
    {
      prims.b64Encode(prims.fernetEncrypt(Key(), randomness, prims.utf8Encode(prims.jsonDumps(data))))
    }

    /**
     * Stamps the caller's own dictionary with the encryption time, so the
     * caller sees the new key afterwards, then seals it.
     */
    method EncryptData(data: DataDict, now: string, randomness: seq<byte>) returns (token: string)
      modifies data
      ensures data.entries == old(data.entries)[ENCRYPTED_AT := now]
      ensures token == Seal(data.entries, randomness)
    {
      data.entries := data.entries[ENCRYPTED_AT := now];
      var jsonData := prims.jsonDumps(data.entries);
      var encrypted := prims.fernetEncrypt(Key(), randomness, prims.utf8Encode(jsonData));
      token := prims.b64Encode(encrypted);
    }

    /**
     * Undoes the sealing and removes the reserved key; any failing step gives
     * the one error, and never a dictionary.
     */
    function DecryptData(token: string): (r: Result<Fields, DecryptionError>)
      ensures r.Success? ==> ENCRYPTED_AT !in r.value
      // each stage, once the earlier ones succeeded, fails with its own cause
      ensures prims.b64Decode(token).None? ==> r == Failure(ValueError(Base64))
      ensures prims.b64Decode(token).Some? ==>
        var plain := prims.fernetDecrypt(Key(), prims.b64Decode(token).value);
        && (plain.None? ==> r == Failure(ValueError(Cipher)))
        && (plain.Some? ==>
              var text := prims.utf8Decode(plain.value);
              && (text.None? ==> r == Failure(ValueError(Utf8)))
              && (text.Some? ==>
                    var json := prims.jsonLoads(text.value);
                    && (json.Malformed? ==> r == Failure(ValueError(JsonSyntax)))
                    && (json.NotAnObject? ==> r == Failure(ValueError(NotADict)))
                    && (json.Object? ==> r == Success(json.fields - {ENCRYPTED_AT}))))
      // a dictionary comes back exactly when all four stages succeed
      ensures r.Success? <==>
        && prims.b64Decode(token).Some?
        && prims.fernetDecrypt(Key(), prims.b64Decode(token).value).Some?
        && prims.utf8Decode(prims.fernetDecrypt(Key(), prims.b64Decode(token).value).value).Some?
        && prims.jsonLoads(prims.utf8Decode(prims.fernetDecrypt(Key(), prims.b64Decode(token).value).value).value).Object?
    {
      match prims.b64Decode(token)
      case None => Failure(ValueError(Base64))
      case Some(envelope) =>
        match prims.fernetDecrypt(Key(), envelope)
        case None => Failure(ValueError(Cipher))
        case Some(plain) =>
          match prims.utf8Decode(plain)
          case None => Failure(ValueError(Utf8))
          case Some(text) =>
            match prims.jsonLoads(text)
            case Malformed => Failure(ValueError(JsonSyntax))
            case NotAnObject => Failure(ValueError(NotADict))
            case Object(fields) => Success(fields - {ENCRYPTED_AT})
    }
  }

  /** Decrypting what encryption produced gives back the dictionary without the reserved key. */
  lemma EncryptDecryptRoundTrip(e: PersonalDataEncryption, m: Fields, now: string, randomness: seq<byte>)
    requires RoundTrips(e.prims)
    ensures e.DecryptData(e.Seal(m[ENCRYPTED_AT := now], randomness)) == Success(m - {ENCRYPTED_AT})
  {
    assert m[ENCRYPTED_AT := now] - {ENCRYPTED_AT} == m - {ENCRYPTED_AT};
  }

  /** For a dictionary that does not use the reserved key, the round trip is exact. */
  lemma RoundTripWithoutReservedKey(e: PersonalDataEncryption, m: Fields, now: string, randomness: seq<byte>)
    requires RoundTrips(e.prims) && ENCRYPTED_AT !in m
    ensures e.DecryptData(e.Seal(m[ENCRYPTED_AT := now], randomness)) == Success(m)
  {
    EncryptDecryptRoundTrip(e, m, now, randomness);
    assert m - {ENCRYPTED_AT} == m;
  }

  /**
   * When the cipher rejects a token made under another key (what
   * authentication promises for a wrong password), decryption fails with the
   * cipher error rather than returning data.
   */
  lemma WrongKeyIsValueError(e1: PersonalDataEncryption, e2: PersonalDataEncryption, m: Fields, randomness: seq<byte>)
    requires RoundTrips(e1.prims) && e2.prims == e1.prims
    requires e1.prims.fernetDecrypt(e2.Key(),
               e1.prims.fernetEncrypt(e1.Key(), randomness, e1.prims.utf8Encode(e1.prims.jsonDumps(m)))) == None
    ensures e2.DecryptData(e1.Seal(m, randomness)) == Failure(ValueError(Cipher))
  {
  }
}
