/**
 * The payload cipher shared by every node and the relay: AES-128 in CBC mode
 * with PKCS#7 padding (section 6.3 of RFC 5652), a fresh 16-byte IV per
 * message, and the IV sent in front of the ciphertext. The AES block
 * function itself is a parameter (`BlockCipher`); chaining, padding, the IV
 * layout and the key derivation are modelled exactly.
 */
module Cipher {
  import opened Wrappers

  type byte = bv8
  type Bytes = seq<byte>

  const BlockSize: nat := 16

  type Block = b: Bytes | |b| == BlockSize witness seq(16, _ => 0)
  type Key = k: Bytes | |k| == 16 witness seq(16, _ => 0)

  /** The AES block function and its inverse under a key; opaque here. */
  datatype BlockCipher = BlockCipher(encrypt: (Key, Block) -> Block, decrypt: (Key, Block) -> Block)

  /** What the block cipher is relied on for: decryption undoes encryption. */
  ghost predicate Inverts(bc: BlockCipher) {
    forall k, b :: bc.decrypt(k, bc.encrypt(k, b)) == b
  }

  /** Why a decryption is refused; each is a ValueError in the library. */
  datatype CipherError = InvalidIvSize | IncompleteBlock | InvalidPadding

  /** `bytes.ljust(width, fill)`: right-pad with `fill` up to `width`, never shorten. */
  function LJust(s: Bytes, width: nat, fill: byte): (r: Bytes)
    ensures |r| == if |s| >= width then |s| else width
    ensures r[..|s|] == s
    ensures forall i :: |s| <= i < |r| ==> r[i] == fill
  {
    if |s| >= width then s else s + seq(width - |s|, _ => fill)
  }

  /** The key derivation `passphrase.ljust(16, b'\0')[:16]`. */
  function DeriveKey(passphrase: Bytes): (k: Key)
  {
    LJust(passphrase, 16, 0)[..16]
  }

  /** The derived key keeps the first 16 passphrase bytes and zero-fills the rest. */
  lemma DeriveKeyBytes(passphrase: Bytes, i: nat)
    requires i < 16
    ensures i < |passphrase| ==> DeriveKey(passphrase)[i] == passphrase[i]
    ensures i >= |passphrase| ==> DeriveKey(passphrase)[i] == 0
  {
    var padded := LJust(passphrase, 16, 0);
    if i < |passphrase| {
      assert padded[..|passphrase|][i] == passphrase[i];
    }
  }

  /** The ASCII bytes of b'password'. */
  const Passphrase: Bytes := [0x70, 0x61, 0x73, 0x73, 0x77, 0x6f, 0x72, 0x64]

  /** The pre-shared AES key every node and the relay derive at start-up. */
  const AesKey: Key := DeriveKey(Passphrase)

  lemma AesKeyIsPaddedPassphrase()
    ensures AesKey == Passphrase + seq(8, _ => 0)
  {
    forall i | 0 <= i < 16
      ensures AesKey[i] == (Passphrase + seq(8, _ => 0))[i]
    {
      DeriveKeyBytes(Passphrase, i);
    }
  }

  function Xor(a: Block, b: Block): (r: Block)
    ensures forall i :: 0 <= i < BlockSize ==> r[i] == a[i] ^ b[i]
  {
    seq(BlockSize, i requires 0 <= i < BlockSize => a[i] ^ b[i])
  }

  lemma XorCancels(a: Block, b: Block)
    ensures Xor(Xor(a, b), b) == a
  {
    forall i | 0 <= i < BlockSize
      ensures Xor(Xor(a, b), b)[i] == a[i]
    {
      var x, y := a[i], b[i];
      assert (x ^ y) ^ y == x;
    }
  }

  /** PKCS#7 padding to the 16-byte block: append n bytes of value n, 1 <= n <= 16. */
  function Pad(m: Bytes): (p: Bytes)
  {
    var n := BlockSize - |m| % BlockSize;
    m + seq(n, _ => n as byte)
  }

  /**
   * The padded message is block aligned, strictly longer, starts with the
   * message, and every added byte holds the number of bytes added.
   */
  lemma PadShape(m: Bytes)
    ensures |Pad(m)| % BlockSize == 0
    ensures |m| < |Pad(m)| <= |m| + BlockSize
    ensures Pad(m)[..|m|] == m
    ensures forall i :: |m| <= i < |Pad(m)| ==> Pad(m)[i] as int == |Pad(m)| - |m|
  {
  }

  /**
   * The library's PKCS#7 unpadder after a CBC decryption: the data must be a
   * non-empty whole number of blocks whose last byte n is 1..16 and whose
   * last n bytes all equal n.
   */
  function Unpad(d: Bytes): Result<Bytes, CipherError>
  {
    if |d| == 0 || |d| % BlockSize != 0 then Err(InvalidPadding)
    else
      var n := d[|d| - 1] as int;
      if n == 0 || n > BlockSize then Err(InvalidPadding)
      else if exists i :: |d| - n <= i < |d| && d[i] as int != n then Err(InvalidPadding)
      else Ok(d[..|d| - n])
  }

  lemma {:induction false} UnpadPad(m: Bytes)
    ensures Unpad(Pad(m)) == Ok(m)
  {
    var p := Pad(m);
    var n := BlockSize - |m| % BlockSize;
    assert p[|p| - 1] == n as byte;
    assert forall i :: |p| - n <= i < |p| ==> p[i] as int == n;
    assert p[..|p| - n] == m;
  }

  /** Whatever Unpad accepts, padding it again restores the input. */
  lemma {:induction false} PadUnpad(d: Bytes)
    requires Unpad(d).Ok?
    ensures Pad(Unpad(d).value) == d
  {
    var n := d[|d| - 1] as int;
    var m := d[..|d| - n];
    assert |m| % BlockSize == BlockSize - n || n == BlockSize;
    assert BlockSize - |m| % BlockSize == n;
    assert Pad(m) == d;
  }

  /** CBC encryption: each plaintext block is xored with the previous ciphertext block. */
  function CbcEncrypt(bc: BlockCipher, k: Key, prev: Block, p: Bytes): (c: Bytes)
    requires |p| % BlockSize == 0
    ensures |c| == |p|
    decreases |p|
  {
    if |p| == 0 then []
    else
      var c0 := bc.encrypt(k, Xor(p[..BlockSize], prev));
      c0 + CbcEncrypt(bc, k, c0, p[BlockSize..])
  }

  function CbcDecrypt(bc: BlockCipher, k: Key, prev: Block, c: Bytes): (p: Bytes)
    requires |c| % BlockSize == 0
    ensures |p| == |c|
    decreases |c|
  {
    if |c| == 0 then []
    else
      var c0: Block := c[..BlockSize];
      Xor(bc.decrypt(k, c0), prev) + CbcDecrypt(bc, k, c0, c[BlockSize..])
  }

  lemma {:induction false} CbcRoundTrip(bc: BlockCipher, k: Key, iv: Block, p: Bytes)
    requires Inverts(bc)
    requires |p| % BlockSize == 0
    ensures CbcDecrypt(bc, k, iv, CbcEncrypt(bc, k, iv, p)) == p
    decreases |p|
  {
    if |p| > 0 {
      var p0: Block := p[..BlockSize];
      var c0 := bc.encrypt(k, Xor(p0, iv));
      var rest := CbcEncrypt(bc, k, c0, p[BlockSize..]);
      var c: Bytes := c0 + rest;
      assert c[..BlockSize] == c0;
      assert c[BlockSize..] == rest;
      XorCancels(p0, iv);
      CbcRoundTrip(bc, k, c0, p[BlockSize..]);
      assert p0 + p[BlockSize..] == p;
    }
  }

  /** `aes_encrypt` on bytes: the IV, then the CBC encryption of the padded message. */
  function Encrypt(bc: BlockCipher, iv: Block, m: Bytes): Bytes
  {
    iv + CbcEncrypt(bc, AesKey, iv, Pad(m))
  }

  /** The blob starts with the IV and is 16 bytes plus a whole, non-zero number of blocks. */
  lemma EncryptLayout(bc: BlockCipher, iv: Block, m: Bytes)
    ensures Encrypt(bc, iv, m)[..BlockSize] == iv
    ensures |Encrypt(bc, iv, m)| % BlockSize == 0
    ensures BlockSize + |m| < |Encrypt(bc, iv, m)| <= 2 * BlockSize + |m|
  {
    PadShape(m);
  }

  /**
   * `aes_decrypt` up to the text decoding: bytes [0,16) are the IV and the
   * rest the ciphertext. A blob shorter than 16 bytes gives an invalid IV, a
   * ciphertext that is not whole blocks is refused by the decryptor, and bad
   * padding (including an empty ciphertext) by the unpadder.
   */
  function Decrypt(bc: BlockCipher, blob: Bytes): Result<Bytes, CipherError>
  {
    if |blob| < BlockSize then Err(InvalidIvSize)
    else
      var iv: Block := blob[..BlockSize];
      var ct := blob[BlockSize..];
      if |ct| % BlockSize != 0 then Err(IncompleteBlock)
      else Unpad(CbcDecrypt(bc, AesKey, iv, ct))
  }

  /** Decryption undoes encryption for every IV and message. */
  lemma DecryptEncrypt(bc: BlockCipher, iv: Block, m: Bytes)
    requires Inverts(bc)
    ensures Decrypt(bc, Encrypt(bc, iv, m)) == Ok(m)
  {
    var blob := Encrypt(bc, iv, m);
    PadShape(m);
    assert blob[..BlockSize] == iv;
    assert blob[BlockSize..] == CbcEncrypt(bc, AesKey, iv, Pad(m));
    CbcRoundTrip(bc, AesKey, iv, Pad(m));
    UnpadPad(m);
  }

  /** Every blob Decrypt accepts has the layout Encrypt produces. */
  lemma DecryptAcceptsOnlyLayout(bc: BlockCipher, blob: Bytes)
    requires Decrypt(bc, blob).Ok?
    ensures |blob| >= 2 * BlockSize && |blob| % BlockSize == 0
  {
  }
}
