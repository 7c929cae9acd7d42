/** How file contents become stored bytes: compress if shorter, then encrypt; and back. */
module Pipeline {
  import opened Types

  type Nonce = nat

  /** The codecs are libraries: gzip (compress, decompress) and AES-GCM (encrypt, decrypt). */
  datatype Codec = Codec(
    compression: bool,
    encryption: bool,
    compress: Bytes -> Bytes,
    decompress: Bytes -> Option<Bytes>,
    encrypt: (Bytes, Nonce) -> Bytes,
    decrypt: Bytes -> Option<Bytes>)
  {
    /** Decoders undo encoders, and both decoders refuse empty input. */
    ghost predicate Sound() {
      && (forall x: Bytes :: decompress(compress(x)) == Some(x))
      && (forall x: Bytes, n: Nonce :: decrypt(encrypt(x, n)) == Some(x))
      && decompress([]) == None && decrypt([]) == None
    }
  }

  function Compressed(c: Codec, data: Bytes): Bytes {
    if c.compression && |(c.compress)(data)| < |data| then (c.compress)(data) else data
  }

  function Encode(c: Codec, data: Bytes, nonce: Nonce): Bytes {
    if c.encryption then (c.encrypt)(Compressed(c, data), nonce) else Compressed(c, data)
  }

  /** documentToData after the bytes are read: decrypting must succeed, decompressing is only tried. */
  function Decode(c: Codec, raw: Bytes): Option<Bytes> {
    var plain := if c.encryption then (c.decrypt)(raw) else Some(raw);
    match plain
    case None => None
    case Some(x) =>
      if c.compression && (c.decompress)(x).Some? then (c.decompress)(x) else Some(x)
  }

  /** The data is stored as it is although compression is on, and happens to be valid gzip of something else. */
  predicate LooksCompressed(c: Codec, data: Bytes) {
    && c.compression
    && |(c.compress)(data)| >= |data|
    && (c.decompress)(data).Some?
    && (c.decompress)(data).value != data
  }

  /** Decoding undoes encoding, for all data and nonces, exactly when the data does not look compressed. */
  lemma DecodeUndoesEncodeIff(c: Codec, data: Bytes, nonce: Nonce)
    requires c.Sound()
    ensures Decode(c, Encode(c, data, nonce)) == Some(data) <==> !LooksCompressed(c, data)
  {
    var x := Compressed(c, data);
    assert (c.decrypt)((c.encrypt)(x, nonce)) == Some(x);
    assert (c.decompress)((c.compress)(data)) == Some(data);
  }
}
