// Sealing of cached response bodies. The AEAD cipher is a parameter; all that is asked of it is that
// it opens what it sealed under the same nonce.

module Sealing {
  import opened Options
  import opened Units

  datatype Result<T> = Ok(value: T) | Err

  /** `open` gives None when authentication fails. */
  datatype Aead = Aead(nonceSize: nat, seal: (Bytes, Bytes) -> Bytes, open: (Bytes, Bytes) -> Option<Bytes>) {

    ghost predicate OpensWhatItSeals() {
      forall nonce: Bytes, plain: Bytes | |nonce| == nonceSize :: open(nonce, seal(nonce, plain)) == Some(plain)
    }
  }

  /** "LS1" and a zero byte. */
  const MAGIC: Bytes := [0x4C, 0x53, 0x31, 0x00]

  predicate HasMagic(blob: Bytes) {
    |blob| >= |MAGIC| && blob[..|MAGIC|] == MAGIC
  }

  /** `nonce` is what the random source delivers, None when it fails; a missing sealer seals nothing. */
  function Seal(sealer: Option<Aead>, nonce: Option<Bytes>, plain: Bytes): Result<Bytes> {
    if sealer.None? || plain == [] then Ok(plain)
    else if nonce.None? then Err
    else Ok(MAGIC + nonce.value + sealer.value.seal(nonce.value, plain))
  }

  function Open(sealer: Option<Aead>, blob: Bytes): Result<Bytes> {
    if !HasMagic(blob) then Ok(blob)
    else if sealer.None? then Err
    else
      var body := blob[|MAGIC|..];
      var n := sealer.value.nonceSize;
      if |body| < n then Err
      else
        match sealer.value.open(body[..n], body[n..])
        case None => Err
        case Some(plain) => Ok(plain)
  }

  /** With a sealer, opening gives back every body that was sealed, the empty one and marked ones included. */
  lemma OpenAfterSeal(sealer: Aead, nonce: Option<Bytes>, plain: Bytes)
    requires sealer.OpensWhatItSeals() && (nonce.Some? ==> |nonce.value| == sealer.nonceSize)
    requires Seal(Some(sealer), nonce, plain).Ok?
    ensures Open(Some(sealer), Seal(Some(sealer), nonce, plain).value) == Ok(plain)
  {
    if plain != [] {
      var cipher := sealer.seal(nonce.value, plain);
      var blob := MAGIC + nonce.value + cipher;
      assert blob[..|MAGIC|] == MAGIC;
      var body := blob[|MAGIC|..];
      assert body == nonce.value + cipher;
      assert body[..sealer.nonceSize] == nonce.value && body[sealer.nonceSize..] == cipher;
    }
  }

  /** Without a sealer the round trip fails exactly on the bodies that happen to begin with the mark. */
  lemma OpenAfterSealWithoutSealer(nonce: Option<Bytes>, plain: Bytes)
    ensures Open(None, Seal(None, nonce, plain).value) == Ok(plain)
      <==> !(|plain| >= 4 && plain[..4] == [0x4C, 0x53, 0x31, 0x00])
  {
  }

  /** What may be stored under a sealer: nothing, or the mark, a nonce and a ciphertext. */
  ghost predicate IsSealed(sealer: Aead, blob: Bytes) {
    blob == [] || exists nonce, plain :: blob == MAGIC + nonce + sealer.seal(nonce, plain)
  }

  /** Under a sealer, sealing gives a sealed body or fails; it fails exactly when it needs a nonce and there is none. */
  lemma SealNeverLeaksThePlaintext(sealer: Aead, nonce: Option<Bytes>, plain: Bytes)
    ensures
      match Seal(Some(sealer), nonce, plain)
      case Ok(blob) => IsSealed(sealer, blob)
      case Err => plain != [] && nonce.None?
  {
  }
}
