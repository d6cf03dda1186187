/** A stream cipher as XOR with a key stream read from a running offset. */
module KeystreamCipher {
  import opened ByteStrings

  type Keystream = nat -> Byte

  /** The input XORed with the key stream from the given offset on. */
  function ApplyKeystream(ks: Keystream, offset: nat, data: Bytes): (r: Bytes)
    ensures |r| == |data|
  {
    seq(|data|, i requires 0 <= i < |data| => Xor8(data[i], ks(offset + i)))
  }

  /** Decryption is encryption. */
  lemma ApplyTwice(ks: Keystream, offset: nat, data: Bytes)
    ensures ApplyKeystream(ks, offset, ApplyKeystream(ks, offset, data)) == data
  {
    forall i | 0 <= i < |data|
      ensures ApplyKeystream(ks, offset, ApplyKeystream(ks, offset, data))[i] == data[i]
    {
      Xor8Twice(data[i], ks(offset + i));
    }
  }

  /** Only the position in the stream matters, not how the data is cut. */
  lemma ApplyAppend(ks: Keystream, offset: nat, a: Bytes, b: Bytes)
    ensures ApplyKeystream(ks, offset, a + b)
         == ApplyKeystream(ks, offset, a) + ApplyKeystream(ks, offset + |a|, b)
  {
  }
}
