/**
 * The libraries the vault calls but whose code is not part of this model:
 * node:crypto's AES-256-CBC, Buffer's base64 codec, bcryptjs, jsonwebtoken
 * and zod's e-mail format check. Each one is a field of `Primitives`, so every
 * operation of the model is stated for whatever implementation is plugged in;
 * the facts the vault relies on are the law predicates below, which lemmas
 * take as hypotheses.
 */
module Foreign {

  newtype byte = x: int | 0 <= x < 256

  datatype Option<+T> = None | Some(value: T)

  /** The outcome of an operation that can throw: its value or what it threw. */
  datatype Result<+T, +E> = Ok(value: T) | Err(error: E)

  /** The `role` column: TypeScript narrows it to 'admin' | 'user'. */
  datatype Role = UserRole | AdminRole

  /** The claims signed into an identity token (lib/jwt.ts). */
  datatype TokenPayload = TokenPayload(userId: int, email: string, role: Role)

  datatype Primitives = Primitives(
    /** zod's `.email()` format check */
    isEmail: string -> bool,
    /** bcrypt.hash(password, 12) under the salt it draws */
    bcryptHash: (string, seq<byte>) -> string,
    /** bcrypt.compare(password, hash) */
    bcryptCompare: (string, string) -> bool,
    /** jwt.sign(payload, JWT_SECRET, { expiresIn: '7d' }) */
    signToken: TokenPayload -> string,
    /** jwt.verify: None when the signature, the expiry or the format is bad */
    verifyToken: string -> Option<TokenPayload>,
    /** Buffer.from(text, 'base64') */
    base64Decode: string -> seq<byte>,
    /** buffer.toString('base64') */
    base64Encode: seq<byte> -> string,
    /** AES-256-CBC under (key, iv) of UTF-8 text, base64 output */
    aesEncrypt: (seq<byte>, seq<byte>, string) -> string,
    /** AES-256-CBC decryption of base64 input; None when the padding is bad */
    aesDecrypt: (seq<byte>, seq<byte>, string) -> Option<string>)

  /** Decryption under the key and IV of an encryption gives the text back. */
  ghost predicate CipherLaws(lib: Primitives) {
    forall key, iv, text :: |key| == 32 && |iv| == 16 ==>
      lib.aesDecrypt(key, iv, lib.aesEncrypt(key, iv, text)) == Some(text)
  }

  /** Decoding an encoding gives the bytes back. */
  ghost predicate Base64Laws(lib: Primitives) {
    forall bytes :: lib.base64Decode(lib.base64Encode(bytes)) == bytes
  }

  /** A password matches every hash made of it. */
  ghost predicate BcryptLaws(lib: Primitives) {
    forall password, salt :: lib.bcryptCompare(password, lib.bcryptHash(password, salt))
  }

  /**
   * A token verifies to the payload it was signed with (expiry is not
   * modelled), and is never empty (a JWT has three dot-separated parts).
   */
  ghost predicate TokenLaws(lib: Primitives) {
    forall payload :: lib.verifyToken(lib.signToken(payload)) == Some(payload) && lib.signToken(payload) != ""
  }

  /** The process environment: the libraries and the ENCRYPTION_KEY variable. */
  datatype Env = Env(lib: Primitives, encryptionKey: Option<string>)
}
