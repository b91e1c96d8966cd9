/**
 * The boundary between packets and the text a radio or broker carries: the
 * packet is serialised to bytes, and the bytes are written as URL-safe
 * base64 (section 5 of RFC 4648). Serialisation, base64 and UTF-8 are
 * library calls and stay parameters (`Codec`); the padding repair the leaf
 * node applies to received text, and the text form of encryption built on
 * them, are modelled exactly.
 */
module Codec {
  import opened Wrappers
  import opened Cipher
  import opened Packets

  /** The library functions the nodes call, as opaque parameters. */
  datatype Codec = Codec(
    serialize: Packet -> Bytes,
    parse: Bytes -> Option<Packet>,
    b64Encode: Bytes -> string,
    b64Decode: string -> Option<Bytes>,
    utf8Encode: string -> Bytes,
    utf8Decode: Bytes -> Option<string>)

  /** The URL-safe base64 alphabet, with the padding character. */
  predicate IsBase64Char(c: char) {
    'A' <= c <= 'Z' || 'a' <= c <= 'z' || '0' <= c <= '9' || c == '-' || c == '_' || c == '='
  }

  /** What an encoder emits: whole 4-character groups over the URL-safe alphabet. */
  predicate IsTransportText(s: string) {
    |s| % 4 == 0 && forall i :: 0 <= i < |s| ==> IsBase64Char(s[i])
  }

  predicate IsAscii(s: string) {
    forall i :: 0 <= i < |s| ==> s[i] < 128 as char
  }

  /**
   * What the model relies on the libraries for: parsing undoes serialising,
   * base64 decoding undoes encoding and the encoder emits padded text, and
   * UTF-8 decoding undoes encoding.
   */
  ghost predicate Lawful(c: Codec) {
    && (forall p :: c.parse(c.serialize(p)) == Some(p))
    && (forall b :: IsTransportText(c.b64Encode(b)))
    && (forall b :: c.b64Decode(c.b64Encode(b)) == Some(b))
    && (forall s :: c.utf8Decode(c.utf8Encode(s)) == Some(s))
  }

  /** The text a node hands to the radio or the broker for a packet. */
  function TransportText(c: Codec, p: Packet): string {
    c.b64Encode(c.serialize(p))
  }

  /** `encoded += '=' * (-len(encoded) % 4)`; Python's `%` and Dafny's agree for a positive divisor. */
  function RestorePadding(s: string): string {
    s + seq((-|s|) % 4, _ => '=')
  }

  /** The repair appends 0 to 3 '=' and leaves a multiple of 4 characters. */
  lemma RestorePaddingShape(s: string)
    ensures |RestorePadding(s)| % 4 == 0
    ensures |s| <= |RestorePadding(s)| <= |s| + 3
    ensures RestorePadding(s)[..|s|] == s
    ensures forall i :: |s| <= i < |RestorePadding(s)| ==> RestorePadding(s)[i] == '='
  {
  }

  /** The remainder of `4 * q + r` for a digit `r` in base 4. */
  lemma ModFour(a: int, q: int, r: int)
    requires 0 <= r < 4 && a == 4 * q + r
    ensures a % 4 == r
  {
  }

  /** Text that is already padded is left alone, so the repair is idempotent. */
  lemma RestorePaddingPadded(s: string)
    requires |s| % 4 == 0
    ensures RestorePadding(s) == s
    ensures RestorePadding(RestorePadding(s)) == s
  {
    ModFour(-|s|, -(|s| / 4), 0);
  }

  /** Text that lost 0 to 3 trailing '=' is restored to exactly the padded form. */
  lemma RestorePaddingTolerance(t: string, k: nat)
    requires |t| % 4 == 0 && k <= 3 && k <= |t|
    requires forall i :: |t| - k <= i < |t| ==> t[i] == '='
    ensures RestorePadding(t[..|t| - k]) == t
  {
    var s := t[..|t| - k];
    ModFour(-|s|, -(|t| / 4), k);
    assert RestorePadding(s) == s + t[|t| - k..];
    assert s + t[|t| - k..] == t;
  }

  lemma TransportTextIsAscii(s: string)
    requires IsTransportText(s)
    ensures IsAscii(s)
  {
  }

  /** A packet's text never holds a comma, so it survives the transceiver's comma-separated report line. */
  lemma TransportTextHasNoComma(c: Codec, p: Packet)
    requires Lawful(c)
    ensures ',' !in TransportText(c, p)
  {
    var t := TransportText(c, p);
    assert IsTransportText(t);
    assert forall i :: 0 <= i < |t| ==> t[i] != ',';
  }

  /** Why `aes_decrypt` raises: a cipher error, or plaintext that is not UTF-8. */
  datatype DecryptFault = CipherFault(error: CipherError) | NotUtf8

  /** `aes_encrypt(text)`: the text is UTF-8 encoded first. */
  function EncryptText(c: Codec, bc: BlockCipher, iv: Block, text: string): Bytes {
    Encrypt(bc, iv, c.utf8Encode(text))
  }

  /** `aes_decrypt(blob)`, ending with `.decode()` of the plaintext. */
  function DecryptText(c: Codec, bc: BlockCipher, blob: Bytes): Result<string, DecryptFault> {
    match Decrypt(bc, blob)
    case Err(e) => Err(CipherFault(e))
    case Ok(m) =>
      match c.utf8Decode(m)
      case None => Err(NotUtf8)
      case Some(text) => Ok(text)
  }

  /** The text round trip every receiver depends on. */
  lemma DecryptEncryptText(c: Codec, bc: BlockCipher, iv: Block, text: string)
    requires Lawful(c) && Inverts(bc)
    ensures DecryptText(c, bc, EncryptText(c, bc, iv, text)) == Ok(text)
  {
    DecryptEncrypt(bc, iv, c.utf8Encode(text));
  }
}
