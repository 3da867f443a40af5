/**
 * The credential cipher of crypto/crypt.go: a process-wide secret key set
 * once by Init, and the framing hex(nonce || Seal(nonce, plaintext)) around
 * AES-GCM. The GCM primitive itself is foreign code and is a parameter here.
 */
module Crypt {
  import opened Wrappers
  import opened Hex

  /** gcm.NonceSize() for the standard GCM construction. */
  const NonceSize: nat := 12

  /** Length of the ENCRYPTION_KEY string: 64 hex digits, 32 bytes. */
  const KeyHexLength: nat := 64

  type Nonce = n: seq<byte> | |n| == NonceSize
    witness [0, 0, 0, 0, 0, 0, 0, 0, 0, 0, 0, 0]

  /**
   * The AES-GCM primitive as a pair of functions of the key: `seal` is
   * gcm.Seal without its destination prefix, `open` is gcm.Open, None when
   * authentication fails. The []byte/string conversions are folded in.
   */
  datatype Aead = Aead(
    seal: (seq<byte>, Nonce, string) -> seq<byte>,
    open: (seq<byte>, Nonce, seq<byte>) -> Option<string>)

  /** The one property of GCM the framing relies on: Open undoes Seal under the same key and nonce. */
  ghost predicate Inverse(aead: Aead) {
    forall key, nonce, text :: aead.open(key, nonce, aead.seal(key, nonce, text)) == Some(text)
  }

  /** The errors Init, Encrypt and Decrypt return. */
  datatype CryptoError =
    | KeyNotSet                     // "ENCRYPTION_KEY environment variable not set"
    | KeyWrongLength                // "ENCRYPTION_KEY must be a 64-character hex string ..."
    | KeyNotHex(cause: HexError)    // "failed to decode ENCRYPTION_KEY from hex: %w"
    | NotInitialized                // "crypto package not initialized"
    | InvalidKeySize(size: nat)     // aes.KeySizeError from aes.NewCipher
    | Malformed(cause: HexError)    // the hex error from DecodeString, returned as is
    | TooShort                      // "ciphertext is too short"
    | DecryptFailed                 // "failed to decrypt: %w" (authentication failure)

  /** aes.NewCipher accepts AES-128, AES-192 and AES-256 keys only. */
  predicate ValidKeySize(n: nat) {
    n == 16 || n == 24 || n == 32
  }

  class Cipher {
    /** The package-level secretKey; None is Go's nil slice. */
    var secretKey: Option<seq<byte>>
    const aead: Aead

    constructor (aead: Aead)
      ensures secretKey == None && this.aead == aead
    {
      this.aead := aead;
      secretKey := None;
    }

    /** Encrypt and Decrypt get past aes.NewCipher. */
    predicate Ready()
      reads this
    {
      secretKey.Some? && ValidKeySize(|secretKey.value|)
    }

    /**
     * Init with the value of ENCRYPTION_KEY passed in. The checks run in the
     * order empty, length, hex. A failed hex decode still assigns secretKey:
     * DecodeString returns the bytes decoded before the bad pair.
     */
    method Init(keyHex: string) returns (err: Option<CryptoError>)
      modifies this
      ensures keyHex == "" ==> err == Some(KeyNotSet) && secretKey == old(secretKey)
      ensures keyHex != "" && |keyHex| != KeyHexLength ==>
                err == Some(KeyWrongLength) && secretKey == old(secretKey)
      ensures |keyHex| == KeyHexLength ==>
                secretKey == Some(Decode(keyHex).data) &&
                err == (if Decode(keyHex).err.Some? then Some(KeyNotHex(Decode(keyHex).err.value)) else None)
      ensures err.None? <==> |keyHex| == KeyHexLength && AllHexDigits(keyHex)
      ensures err.None? ==> secretKey.Some? && |secretKey.value| == 32 && Ready()
    {
      if keyHex == "" {
        return Some(KeyNotSet);
      }
      if |keyHex| != KeyHexLength {
        return Some(KeyWrongLength);
      }
      var decoded := Decode(keyHex);
      DecodeSucceedsIff(keyHex);
      secretKey := Some(decoded.data);
      if decoded.err.Some? {
        return Some(KeyNotHex(decoded.err.value));
      }
      return None;
    }

    /**
     * Encrypt with the nonce supplied by the caller instead of crypto/rand.
     * The result is the lower-case hex of nonce ++ sealed text, so its first
     * 2 * NonceSize characters spell the nonce.
     */
    function Encrypt(nonce: Nonce, text: string): (r: Result<string, CryptoError>)
      reads this
      ensures secretKey.None? ==> r == Failure(NotInitialized)
      ensures secretKey.Some? && !ValidKeySize(|secretKey.value|) ==>
                r == Failure(InvalidKeySize(|secretKey.value|))
      ensures r.Success? <==> Ready()
      ensures r.Success? ==>
                && |r.value| % 2 == 0
                && |r.value| >= 2 * NonceSize
                && r.value[..2 * NonceSize] == Encode(nonce)
                && (forall i :: 0 <= i < |r.value| ==> IsLowerHexDigit(r.value[i]))
                && Decode(r.value) == Decoded(nonce + aead.seal(secretKey.value, nonce, text), None)
    {
      if secretKey.None? then Failure(NotInitialized)
      else if !ValidKeySize(|secretKey.value|) then Failure(InvalidKeySize(|secretKey.value|))
      else
        var sealed := aead.seal(secretKey.value, nonce, text);
        EncodeAppend(nonce, sealed);
        DecodeEncode(nonce + sealed);
        Success(Encode(nonce + sealed))
    }

    /**
     * Decrypt checks, in this order: initialised, hex, key size, at least a
     * nonce's worth of bytes, and only then GCM authentication.
     */
    function Decrypt(encryptedHex: string): (r: Result<string, CryptoError>)
      reads this
      ensures secretKey.None? ==> r == Failure(NotInitialized)
      ensures secretKey.Some? && Decode(encryptedHex).err.Some? ==>
                r == Failure(Malformed(Decode(encryptedHex).err.value))
      ensures secretKey.Some? && !(|encryptedHex| % 2 == 0 && AllHexDigits(encryptedHex)) ==> r.Failure? && r.error.Malformed?
      ensures secretKey.Some? && Decode(encryptedHex).err.None? && !Ready() ==>
                r == Failure(InvalidKeySize(|secretKey.value|))
      ensures Ready() && Decode(encryptedHex).err.None? && |Decode(encryptedHex).data| >= NonceSize ==>
                r == match aead.open(secretKey.value, Decode(encryptedHex).data[..NonceSize],
                                     Decode(encryptedHex).data[NonceSize..])
                     case None => Failure(DecryptFailed)
                     case Some(t) => Success(t)
      ensures r == Failure(TooShort) <==>
                Ready() && Decode(encryptedHex).err.None? && |Decode(encryptedHex).data| < NonceSize
      ensures r.Success? ==>
                Ready() && Decode(encryptedHex).err.None? && |encryptedHex| >= 2 * NonceSize &&
                aead.open(secretKey.value, Decode(encryptedHex).data[..NonceSize],
                          Decode(encryptedHex).data[NonceSize..]) == Some(r.value)
    {
      if secretKey.None? then Failure(NotInitialized)
      else
        var decoded := Decode(encryptedHex);
        DecodeSucceedsIff(encryptedHex);
        if decoded.err.Some? then Failure(Malformed(decoded.err.value))
        else if !ValidKeySize(|secretKey.value|) then Failure(InvalidKeySize(|secretKey.value|))
        else if |decoded.data| < NonceSize then Failure(TooShort)
        else
          match aead.open(secretKey.value, decoded.data[..NonceSize], decoded.data[NonceSize..])
          case None => Failure(DecryptFailed)
          case Some(text) => Success(text)
    }
  }

  /** Round trip: whatever the nonce, Decrypt recovers what Encrypt sealed. */
  lemma DecryptEncrypt(c: Cipher, nonce: Nonce, text: string)
    requires Inverse(c.aead)
    requires c.Ready()
    ensures c.Encrypt(nonce, text).Success?
    ensures c.Decrypt(c.Encrypt(nonce, text).value) == Success(text)
  {
    var sealed := c.aead.seal(c.secretKey.value, nonce, text);
    var bytes := nonce + sealed;
    assert bytes[..NonceSize] == nonce && bytes[NonceSize..] == sealed;
  }

  /**
   * Two encryptions under different nonces never produce the same text, even
   * of the same plaintext: the nonce is spelled out in the first characters.
   */
  lemma EncryptDistinctNonces(c: Cipher, n1: Nonce, n2: Nonce, t1: string, t2: string)
    requires c.Ready()
    requires n1 != n2
    ensures c.Encrypt(n1, t1).value != c.Encrypt(n2, t2).value
  {
    EncodeInjective(n1, n2);
  }
}
