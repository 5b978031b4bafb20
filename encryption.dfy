/**
 * lib/encryption.ts: the AES-256-CBC envelope around every stored API key.
 * The cipher and the base64 codec are the library calls of `Env.lib`; what is
 * modelled concretely is the key check and truncation around them, the IV
 * drawn for each encryption, the IV-length check and the collapse of every
 * failure into one message per operation.
 */
module Encryption {
  import opened Foreign

  const IV_LENGTH: nat := 16
  const KEY_LENGTH: nat := 32

  const ENCRYPT_FAILED := "Encryption operation failed"
  const DECRYPT_FAILED := "Decryption operation failed"

  /** What getEncryptionKey throws before encrypt and decrypt replace it. */
  datatype KeyError = KeyNotSet | KeyTooShort(decodedLength: nat)

  /** The ciphertext and the IV, both base64, as stored in an api_keys row. */
  datatype Envelope = Envelope(encrypted: string, iv: string)

  /** The bytes ENCRYPTION_KEY decodes to, when it is set and not empty. */
  function DecodedKey(env: Env): seq<byte>
    requires env.encryptionKey.Some?
  {
    env.lib.base64Decode(env.encryptionKey.value)
  }

  /**
   * An unset or empty ENCRYPTION_KEY is refused, so is one that decodes to
   * fewer than 32 bytes; otherwise the key is the first 32 decoded bytes.
   */
  function GetEncryptionKey(env: Env): (r: Result<seq<byte>, KeyError>)
    ensures (env.encryptionKey.None? || env.encryptionKey.value == "") <==> r == Err(KeyNotSet)
    ensures r.Err? && r.error.KeyTooShort? ==> r.error.decodedLength == |DecodedKey(env)| < KEY_LENGTH
    ensures r.Ok? <==> env.encryptionKey.Some? && env.encryptionKey.value != "" && |DecodedKey(env)| >= KEY_LENGTH
    ensures r.Ok? ==> |r.value| == KEY_LENGTH && r.value == DecodedKey(env)[..KEY_LENGTH]
  {
    if env.encryptionKey.None? || env.encryptionKey.value == "" then Err(KeyNotSet)
    else
      var key := DecodedKey(env);
      if |key| < KEY_LENGTH then Err(KeyTooShort(|key|)) else Ok(key[..KEY_LENGTH])
  }

  /**
   * encrypt(text) under the IV drawn for this call (randomBytes(16)). Any
   * failure surfaces as the single message ENCRYPT_FAILED.
   */
  function Encrypt(env: Env, text: string, ivDraw: seq<byte>): (r: Result<Envelope, string>)
    requires |ivDraw| == IV_LENGTH
    ensures r.Err? <==> GetEncryptionKey(env).Err?
    ensures r.Err? ==> r.error == ENCRYPT_FAILED
    ensures r.Ok? ==> r.value.iv == env.lib.base64Encode(ivDraw)
  {
    match GetEncryptionKey(env)
    case Err(_) => Err(ENCRYPT_FAILED)
    case Ok(key) =>
      Ok(Envelope(env.lib.aesEncrypt(key, ivDraw, text), env.lib.base64Encode(ivDraw)))
  }

  /**
   * decrypt(encrypted, iv): refused when the key is unusable, when the IV does
   * not decode to exactly 16 bytes and when the cipher rejects the input; every
   * refusal surfaces as the single message DECRYPT_FAILED.
   */
  function Decrypt(env: Env, encrypted: string, ivText: string): (r: Result<string, string>)
    ensures GetEncryptionKey(env).Err? ==> r == Err(DECRYPT_FAILED)
    ensures |env.lib.base64Decode(ivText)| != IV_LENGTH ==> r == Err(DECRYPT_FAILED)
    ensures r.Err? ==> r.error == DECRYPT_FAILED
    ensures r.Ok? ==>
      && GetEncryptionKey(env).Ok?
      && env.lib.aesDecrypt(GetEncryptionKey(env).value, env.lib.base64Decode(ivText), encrypted) == Some(r.value)
  {
    match GetEncryptionKey(env)
    case Err(_) => Err(DECRYPT_FAILED)
    case Ok(key) =>
      var iv := env.lib.base64Decode(ivText);
      if |iv| != IV_LENGTH then Err(DECRYPT_FAILED)
      else
        match env.lib.aesDecrypt(key, iv, encrypted)
        case None => Err(DECRYPT_FAILED)
        case Some(text) => Ok(text)
  }

  /** Decrypting the envelope of an encryption gives the text back. */
  lemma EncryptDecryptRoundTrip(env: Env, text: string, ivDraw: seq<byte>)
    requires |ivDraw| == IV_LENGTH
    requires CipherLaws(env.lib) && Base64Laws(env.lib)
    requires GetEncryptionKey(env).Ok?
    ensures Encrypt(env, text, ivDraw).Ok?
    ensures Decrypt(env, Encrypt(env, text, ivDraw).value.encrypted, Encrypt(env, text, ivDraw).value.iv) == Ok(text)
  {
    var key := GetEncryptionKey(env).value;
    var e := Encrypt(env, text, ivDraw).value;
    assert env.lib.base64Decode(e.iv) == ivDraw;
    assert env.lib.aesDecrypt(key, ivDraw, e.encrypted) == Some(text);
  }

  /** Two encryptions under different IV draws return different IVs. */
  lemma DistinctDrawsDistinctIvs(env: Env, text1: string, draw1: seq<byte>, text2: string, draw2: seq<byte>)
    requires |draw1| == IV_LENGTH && |draw2| == IV_LENGTH && draw1 != draw2
    requires Base64Laws(env.lib)
    requires GetEncryptionKey(env).Ok?
    ensures Encrypt(env, text1, draw1).value.iv != Encrypt(env, text2, draw2).value.iv
  {
    assert env.lib.base64Decode(env.lib.base64Encode(draw1)) == draw1;
    assert env.lib.base64Decode(env.lib.base64Encode(draw2)) == draw2;
  }

  /**
   * Only the first 32 decoded bytes of the key matter: two keys that agree on
   * them encrypt and decrypt alike.
   */
  lemma ExtraKeyBytesIgnored(lib: Primitives, key1: string, key2: string, text: string, ivDraw: seq<byte>,
                             encrypted: string, ivText: string)
    requires |ivDraw| == IV_LENGTH
    requires key1 != "" && key2 != ""
    requires |lib.base64Decode(key1)| >= KEY_LENGTH && |lib.base64Decode(key2)| >= KEY_LENGTH
    requires lib.base64Decode(key1)[..KEY_LENGTH] == lib.base64Decode(key2)[..KEY_LENGTH]
    ensures Encrypt(Env(lib, Some(key1)), text, ivDraw) == Encrypt(Env(lib, Some(key2)), text, ivDraw)
    ensures Decrypt(Env(lib, Some(key1)), encrypted, ivText) == Decrypt(Env(lib, Some(key2)), encrypted, ivText)
  {
    assert GetEncryptionKey(Env(lib, Some(key1))) == GetEncryptionKey(Env(lib, Some(key2)));
  }
}
