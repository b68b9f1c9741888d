/** Envelope encryption (encryption.service.ts) over an abstract AEAD cipher. */
module Encryption {
  import opened Common

  newtype Byte = b: int | 0 <= b < 256

  type Bytes = seq<Byte>

  /** Sealing may fail, as createCipheriv does on lengths it does not support. */
  datatype Cipher = Cipher(
    seal: (Bytes, Bytes, Bytes) -> Option<(Bytes, Bytes)>,
    open: (Bytes, Bytes, Bytes, Bytes) -> Option<Bytes>)

  /** What NIST SP 800-38D promises of GCM: a tag of the configured length, and decryption undoes encryption. */
  ghost predicate Lawful(c: Cipher, tagLength: nat) {
    forall key, iv, plain {:trigger c.seal(key, iv, plain)} ::
      c.seal(key, iv, plain).Some? ==>
        var (text, tag) := c.seal(key, iv, plain).value;
        |tag| == tagLength && c.open(key, iv, text, tag) == Some(plain)
  }

  /** And that a text sealed under one key does not open under another. */
  ghost predicate Authentic(c: Cipher) {
    forall key, other, iv, plain {:trigger c.seal(key, iv, plain),
      c.open(other, iv, c.seal(key, iv, plain).value.0, c.seal(key, iv, plain).value.1)} ::
      key != other && c.seal(key, iv, plain).Some? ==>
        c.open(other, iv, c.seal(key, iv, plain).value.0, c.seal(key, iv, plain).value.1).None?
  }

  /** Buffer.subarray, whose bounds are clamped to the buffer. */
  function Subarray(b: Bytes, from: nat, to: nat): Bytes {
    var hi := if to <= |b| then to else |b|;
    if from <= hi then b[from..hi] else []
  }

  function WrapKey(c: Cipher, master: Bytes, iv: Bytes, key: Bytes): Option<Bytes> {
    match c.seal(master, iv, key)
    case None => None
    case Some((text, tag)) => Some(iv + tag + text)
  }

  function UnwrapKey(c: Cipher, ivLength: nat, tagLength: nat, master: Bytes, wrapped: Bytes): Option<Bytes> {
    c.open(master, Subarray(wrapped, 0, ivLength), Subarray(wrapped, ivLength + tagLength, |wrapped|),
           Subarray(wrapped, ivLength, ivLength + tagLength))
  }

  /** Slicing takes apart exactly what packing put together, for every configured length. */
  lemma UnwrapUndoesWrap(c: Cipher, ivLength: nat, tagLength: nat, master: Bytes, iv: Bytes, key: Bytes)
    requires Lawful(c, tagLength) && |iv| == ivLength && WrapKey(c, master, iv, key).Some?
    ensures UnwrapKey(c, ivLength, tagLength, master, WrapKey(c, master, iv, key).value) == Some(key)
    ensures Authentic(c) ==>
      forall other :: other != master ==>
        UnwrapKey(c, ivLength, tagLength, other, WrapKey(c, master, iv, key).value).None?
  {
    var (text, tag) := c.seal(master, iv, key).value;
    var wrapped := WrapKey(c, master, iv, key).value;
    assert wrapped == iv + tag + text;
    assert Subarray(wrapped, 0, ivLength) == iv;
    assert Subarray(wrapped, ivLength, ivLength + tagLength) == tag;
    assert Subarray(wrapped, ivLength + tagLength, |wrapped|) == text;
  }

  class EncryptionService {
    const cipher: Cipher
    const ivLength: nat
    const tagLength: nat
    var masterKey: Option<Bytes>

    constructor (cipher: Cipher, ivLength: nat, tagLength: nat, masterKey: Option<Bytes>)
      ensures this.cipher == cipher && this.ivLength == ivLength && this.tagLength == tagLength
      ensures this.masterKey == masterKey
    {
      this.cipher, this.ivLength, this.tagLength, this.masterKey := cipher, ivLength, tagLength, masterKey;
    }

    /** encryptKey, with the random IV as a parameter. */
    method EncryptKey(key: Bytes, iv: Bytes) returns (wrapped: Option<Bytes>)
      requires Lawful(cipher, tagLength) && |iv| == ivLength
      ensures wrapped.Some? ==>
        masterKey.Some? && UnwrapKey(cipher, ivLength, tagLength, masterKey.value, wrapped.value) == Some(key)
      ensures wrapped == if masterKey.None? then None else WrapKey(cipher, masterKey.value, iv, key)
      ensures wrapped.Some? ==>
        var sealed := cipher.seal(masterKey.value, iv, key);
        sealed.Some? && wrapped.value == iv + sealed.value.1 + sealed.value.0
    {
      if masterKey.None? { return None; }
      var sealed := cipher.seal(masterKey.value, iv, key);
      if sealed.None? { return None; }
      UnwrapUndoesWrap(cipher, ivLength, tagLength, masterKey.value, iv, key);
      wrapped := Some(iv + sealed.value.1 + sealed.value.0);
    }

    method DecryptKey(wrapped: Bytes) returns (key: Option<Bytes>)
      ensures key == if masterKey.Some? then UnwrapKey(cipher, ivLength, tagLength, masterKey.value, wrapped) else None
      ensures Lawful(cipher, tagLength) && masterKey.Some? ==>
        forall iv, plain :: |iv| == ivLength && WrapKey(cipher, masterKey.value, iv, plain) == Some(wrapped) ==>
          key == Some(plain)
    {
      if masterKey.None? { return None; }
      forall iv, plain | Lawful(cipher, tagLength) && |iv| == ivLength &&
        WrapKey(cipher, masterKey.value, iv, plain) == Some(wrapped)
        ensures UnwrapKey(cipher, ivLength, tagLength, masterKey.value, wrapped) == Some(plain)
      {
        UnwrapUndoesWrap(cipher, ivLength, tagLength, masterKey.value, iv, plain);
      }
      var iv := Subarray(wrapped, 0, ivLength);
      var tag := Subarray(wrapped, ivLength, ivLength + tagLength);
      var text := Subarray(wrapped, ivLength + tagLength, |wrapped|);
      key := cipher.open(masterKey.value, iv, text, tag);
    }

    /** encrypt: an explicit key, or the master key. */
    method Encrypt(data: Bytes, key: Option<Bytes>, iv: Bytes) returns (sealed: Option<(Bytes, Bytes)>)
      requires Lawful(cipher, tagLength)
      ensures var used := if key.Some? then key else masterKey;
        sealed == if used.None? then None else cipher.seal(used.value, iv, data)
      ensures sealed.Some? ==>
        var used := if key.Some? then key else masterKey;
        used.Some? && |sealed.value.1| == tagLength &&
          cipher.open(used.value, iv, sealed.value.0, sealed.value.1) == Some(data)
    {
      var used := if key.Some? then key else masterKey;
      if used.None? { return None; }
      sealed := cipher.seal(used.value, iv, data);
    }

    /** rotateKey: the new key is put back if Vault does not take it; wrapped keys are not touched. */
    method RotateKey(newKey: Bytes, vaultAccepts: bool) returns (ok: bool)
      modifies this
      ensures ok == vaultAccepts
      ensures masterKey == if ok then Some(newKey) else old(masterKey)
      ensures !ok && old(masterKey).Some? ==> masterKey.Some?
      ensures !ok && old(masterKey).Some? ==> forall wrapped ::
        UnwrapKey(cipher, ivLength, tagLength, masterKey.value, wrapped) ==
          UnwrapKey(cipher, ivLength, tagLength, old(masterKey).value, wrapped)
    {
      var oldKey := masterKey;
      masterKey := Some(newKey);
      ok := vaultAccepts;
      if !ok { masterKey := oldKey; }
    }
  }
}
