/**
 * server/utils/encryptor.py: the AES-256-GCM key loading and the
 * "v1:gcm:iv:tag:ct" envelope. The cipher itself is an abstract
 * authenticated encryption (AEAD) pair; the environment variable and the
 * random IV are inputs.
 */
module Encryptor {
  import opened Wrappers
  import opened Strings
  import opened Base64

  /** What the module raises: its own RuntimeErrors, or the errors of the libraries it calls. */
  datatype CipherError =
    | Runtime(message: string)
    | Binascii       // base64.b64decode on malformed input
    | InvalidTag     // the AEAD refuses the ciphertext
    | UnicodeDecode  // the plaintext is not UTF-8

  const MissingKey := Runtime("Missing env DATA_CIPHER_KEY")
  const InvalidKeyFormat := Runtime("Invalid key format")
  const PayloadNotString := Runtime("Cipher payload must be string")
  const FormatInvalid := Runtime("Cipher format invalid")
  const IvLengthInvalid := Runtime("IV length invalid")

  function WrongKeyLength(n: nat): CipherError {
    Runtime("DATA_CIPHER_KEY must be 32 bytes, got " + NatToString(n))
  }

  /**
   * `load_key`: DATA_CIPHER_KEY, unset or empty, is an error; a value of 43
   * or 44 characters is read as Base64, any other as its UTF-8 bytes; the
   * key must be 32 bytes long.
   */
  function LoadKey(env: Option<string>): (r: Result<seq<Byte>, CipherError>)
    ensures (env.None? || env.value == "") ==> r == Err(MissingKey)
    ensures r.Ok? ==> |r.value| == 32
    ensures r.Ok? ==> if 43 <= |env.value| <= 44 then Decode(env.value) == Some(r.value) else r.value == Utf8Encode(env.value)
  {
    if env.None? || env.value == "" then Err(MissingKey)
    else
      var raw := env.value;
      var key := if 43 <= |raw| <= 44 then Decode(raw) else Some(Utf8Encode(raw));
      if key.None? then Err(InvalidKeyFormat)
      else if |key.value| != 32 then Err(WrongKeyLength(|key.value|))
      else Ok(key.value)
  }

  /** The Base64 text of a 32-byte key, as the gen-key command prints it, loads as that key. */
  lemma LoadGeneratedKey(key: seq<Byte>)
    requires |key| == 32
    ensures LoadKey(Some(Encode(key))) == Ok(key)
  {
    KeyEncodingLength(key);
    DecodeEncode(key);
  }

  /** A 32-character ASCII value is taken as its own bytes. */
  lemma LoadRawKey(raw: string)
    requires |raw| == 32 && forall i :: 0 <= i < |raw| ==> raw[i] as int < 0x80
    ensures LoadKey(Some(raw)) == Ok(Utf8Encode(raw))
  {
    AsciiLength(raw);
  }

  /** A 43-character value is never a valid key: no Base64 text has that length. */
  lemma FortyThreeCharactersRejected(raw: string)
    requires |raw| == 43
    ensures LoadKey(Some(raw)) == Err(InvalidKeyFormat)
  {
  }

  /** The three kinds of plaintext `encrypt` takes: None, text, or bytes. */
  datatype Plain = NoText | Text(text: string) | Raw(bytes: seq<Byte>)

  /** The bytes `encrypt` seals: None becomes the empty text, text is UTF-8 encoded, bytes are kept. */
  function PlainBytes(p: Plain): seq<Byte> {
    match p
    case NoText => Utf8Encode("")
    case Text(s) => Utf8Encode(s)
    case Raw(b) => b
  }

  /** AES-GCM as a pair of functions of the key, the IV and the data (no associated data). */
  datatype Aead = Aead(
    seal: (seq<Byte>, seq<Byte>, seq<Byte>) -> seq<Byte>,
    open: (seq<Byte>, seq<Byte>, seq<Byte>) -> Option<seq<Byte>>)

  /** What the cipher promises: the sealed data carries a 16-byte tag, and opening it under the same key and IV gives the data back. */
  ghost predicate AeadCorrect(a: Aead) {
    forall key, iv, data :: |a.seal(key, iv, data)| == |data| + 16 && a.open(key, iv, a.seal(key, iv, data)) == Some(data)
  }

  /** `ct_tag[:-16], ct_tag[-16:]`, with Python's slicing of a value shorter than 16 bytes. */
  function SplitTag(sealed: seq<Byte>): (r: (seq<Byte>, seq<Byte>))
    ensures |sealed| >= 16 ==> |r.1| == 16 && r.0 + r.1 == sealed
    ensures |sealed| < 16 ==> r == ([], sealed)
  {
    if |sealed| >= 16 then (sealed[..|sealed| - 16], sealed[|sealed| - 16..]) else ([], sealed)
  }

  /** The five envelope fields. */
  function Envelope(iv: seq<Byte>, tag: seq<Byte>, ct: seq<Byte>): seq<string> {
    ["v1", "gcm", Encode(iv), Encode(tag), Encode(ct)]
  }

  /** `encrypt` with the IV `os.urandom(12)` drew. */
  function Encrypt(env: Option<string>, aead: Aead, iv: seq<Byte>, plain: Plain): (r: Result<string, CipherError>)
    requires |iv| == 12
    ensures r.Err? <==> LoadKey(env).Err?
    ensures r.Err? ==> r.error == LoadKey(env).error
  {
    var data := PlainBytes(plain);
    match LoadKey(env)
    case Err(e) => Err(e)
    case Ok(key) =>
      var (ct, tag) := SplitTag(aead.seal(key, iv, data));
      Ok(Join(Envelope(iv, tag, ct), ":"))
  }

  /** A cipher payload as the database hands it over: text or some other value. */
  datatype Payload = Str(text: string) | NonStr

  /** `decrypt`. */
  function Decrypt(env: Option<string>, aead: Aead, payload: Payload): (r: Result<string, CipherError>)
    ensures payload.NonStr? ==> r == Err(PayloadNotString)
    ensures payload.Str? ==>
      var parts := Split(payload.text, ':');
      (|parts| != 5 || parts[0] != "v1" || parts[1] != "gcm") ==> r == Err(FormatInvalid)
    ensures payload.Str? ==>
      var parts := Split(payload.text, ':');
      (|parts| == 5 && parts[0] == "v1" && parts[1] == "gcm" &&
       Decode(parts[2]).Some? && Decode(parts[3]).Some? && Decode(parts[4]).Some? &&
       |Decode(parts[2]).value| != 12) ==> r == Err(IvLengthInvalid)
    ensures r.Ok? ==>
      payload.Str? &&
      var parts := Split(payload.text, ':');
      |parts| == 5 && parts[0] == "v1" && parts[1] == "gcm" &&
      Decode(parts[2]).Some? && |Decode(parts[2]).value| == 12 &&
      Decode(parts[3]).Some? && Decode(parts[4]).Some? && LoadKey(env).Ok? &&
      var sealed := Decode(parts[4]).value + Decode(parts[3]).value;
      aead.open(LoadKey(env).value, Decode(parts[2]).value, sealed).Some? &&
      Utf8Decode(aead.open(LoadKey(env).value, Decode(parts[2]).value, sealed).value) == Some(r.value)
  {
    if payload.NonStr? then Err(PayloadNotString)
    else
      var parts := Split(payload.text, ':');
      if |parts| != 5 || parts[0] != "v1" || parts[1] != "gcm" then Err(FormatInvalid)
      else
        var iv, tag, ct := Decode(parts[2]), Decode(parts[3]), Decode(parts[4]);
        if iv.None? || tag.None? || ct.None? then Err(Binascii)
        else if |iv.value| != 12 then Err(IvLengthInvalid)
        else
          match LoadKey(env)
          case Err(e) => Err(e)
          case Ok(key) =>
            match aead.open(key, iv.value, ct.value + tag.value)
            case None => Err(InvalidTag)
            case Some(pt) =>
              match Utf8Decode(pt)
              case None => Err(UnicodeDecode)
              case Some(text) => Ok(text)
  }

  /** No envelope field produced by Base64 contains the ':' separator. */
  lemma EncodingHasNoColon(data: seq<Byte>)
    ensures ':' !in Encode(data)
  {
  }

  /** The five fields joined with ':' split back into themselves, after the prefix "v1:gcm:". */
  lemma EnvelopeSplit(iv: seq<Byte>, tag: seq<Byte>, ct: seq<Byte>)
    ensures var blob := Join(Envelope(iv, tag, ct), ":");
      StartsWith(blob, "v1:gcm:") && Split(blob, ':') == Envelope(iv, tag, ct)
  {
    var parts := Envelope(iv, tag, ct);
    EncodingHasNoColon(iv);
    EncodingHasNoColon(tag);
    EncodingHasNoColon(ct);
    assert forall i :: 0 <= i < |parts| ==> ':' !in parts[i];
    SplitJoin(parts, ':');
    EnvelopePrefix(parts);
  }

  lemma EnvelopePrefix(parts: seq<string>)
    requires |parts| >= 3 && parts[0] == "v1" && parts[1] == "gcm"
    ensures StartsWith(Join(parts, ":"), "v1:gcm:")
  {
    var blob := Join(parts, ":");
    assert parts[1..][1..] == parts[2..];
    assert Join(parts[1..], ":") == "gcm" + ":" + Join(parts[2..], ":");
    assert blob == "v1" + ":" + ("gcm" + ":" + Join(parts[2..], ":"));
    assert blob[..7] == "v1:gcm:";
  }

  /**
   * The envelope `encrypt` writes starts with "v1:gcm:" and splits on ':'
   * into exactly five fields, the last three the Base64 of the 12-byte IV,
   * the 16-byte tag and the ciphertext; ciphertext and tag together are the
   * sealed data.
   */
  lemma EnvelopeFields(env: Option<string>, aead: Aead, iv: seq<Byte>, plain: Plain)
    requires |iv| == 12 && AeadCorrect(aead)
    requires LoadKey(env).Ok?
    ensures var blob := Encrypt(env, aead, iv, plain).value;
      var sealed := aead.seal(LoadKey(env).value, iv, PlainBytes(plain));
      var (ct, tag) := SplitTag(sealed);
      StartsWith(blob, "v1:gcm:") &&
      Split(blob, ':') == Envelope(iv, tag, ct) &&
      |tag| == 16 && ct + tag == sealed
  {
    var key := LoadKey(env).value;
    var sealed := aead.seal(key, iv, PlainBytes(plain));
    assert |sealed| >= 16;
    var (ct, tag) := SplitTag(sealed);
    EnvelopeSplit(iv, tag, ct);
  }

  /** Under one key, decrypting what `encrypt` wrote gives the text back (None comes back as ""). */
  lemma DecryptEncrypt(env: Option<string>, aead: Aead, iv: seq<Byte>, s: string)
    requires |iv| == 12 && AeadCorrect(aead)
    requires LoadKey(env).Ok?
    ensures Decrypt(env, aead, Str(Encrypt(env, aead, iv, Text(s)).value)) == Ok(s)
    ensures Decrypt(env, aead, Str(Encrypt(env, aead, iv, NoText).value)) == Ok("")
  {
    RoundTrip(env, aead, iv, Text(s), s);
    RoundTrip(env, aead, iv, NoText, "");
  }

  lemma RoundTrip(env: Option<string>, aead: Aead, iv: seq<Byte>, plain: Plain, s: string)
    requires |iv| == 12 && AeadCorrect(aead)
    requires LoadKey(env).Ok?
    requires PlainBytes(plain) == Utf8Encode(s)
    ensures Decrypt(env, aead, Str(Encrypt(env, aead, iv, plain).value)) == Ok(s)
  {
    var key := LoadKey(env).value;
    var data := PlainBytes(plain);
    var sealed := aead.seal(key, iv, data);
    var (ct, tag) := SplitTag(sealed);
    EnvelopeFields(env, aead, iv, plain);
    assert aead.open(key, iv, ct + tag) == Some(data);
    DecryptEnvelope(env, aead, Encrypt(env, aead, iv, plain).value, iv, tag, ct, s);
  }

  /** A text that splits into the envelope of an IV, a tag and a ciphertext that open to a UTF-8 text decrypts to it. */
  lemma DecryptEnvelope(env: Option<string>, aead: Aead, text: string, iv: seq<Byte>, tag: seq<Byte>, ct: seq<Byte>, s: string)
    requires Split(text, ':') == Envelope(iv, tag, ct) && |iv| == 12 && LoadKey(env).Ok?
    requires aead.open(LoadKey(env).value, iv, ct + tag) == Some(Utf8Encode(s))
    ensures Decrypt(env, aead, Str(text)) == Ok(s)
  {
    DecodeEncode(iv);
    DecodeEncode(tag);
    DecodeEncode(ct);
    Utf8RoundTrip(s);
  }
}
