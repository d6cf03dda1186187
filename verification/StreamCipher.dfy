/**
 * The outer stream encryption: SodiumCrypto, which aligns every call to the 64-byte blocks of the
 * library's cipher and works in one shared buffer, and Encryptor, which sends the IV first
 * and on the other end collects it from whatever chunks arrive.
 */
module StreamCipher {
  import opened ByteStrings
  import opened KeystreamCipher
  import opened Options

  const BLOCK_SIZE := 64

  /** The key stream for each IV, under a fixed key. */
  type Streams = Bytes -> Keystream

  // ----- the specification -----

  /** What is on the wire once plain has been written. */
  function Sealed(ks: Streams, iv: Bytes, plain: Bytes): Bytes {
    if plain == [] then [] else iv + ApplyKeystream(ks(iv), 0, plain)
  }

  /** What has come out of the other end once the bytes w have arrived. */
  function Opened(ks: Streams, ivLen: nat, w: Bytes): Bytes {
    if |w| <= ivLen then [] else ApplyKeystream(ks(w[..ivLen]), 0, w[ivLen..])
  }

  /** Every prefix of the wire opens to a prefix of the plaintext, and all of it to all of it. */
  lemma OpenedSealed(ks: Streams, iv: Bytes, plain: Bytes, n: nat)
    requires n <= |Sealed(ks, iv, plain)|
    ensures Opened(ks, |iv|, Sealed(ks, iv, plain)[..n]) == if n <= |iv| then [] else plain[..n - |iv|]
  {
    if n > |iv| {
      var text := ApplyKeystream(ks(iv), 0, plain);
      var w := (iv + text)[..n];
      assert w[..|iv|] == iv && w[|iv|..] == text[..n - |iv|];
      ApplyTwice(ks(iv), 0, plain);
      assert ApplyKeystream(ks(iv), 0, text[..n - |iv|]) == ApplyKeystream(ks(iv), 0, text)[..n - |iv|];
    }
  }

  lemma SealedLength(ks: Streams, iv: Bytes, plain: Bytes)
    ensures |Sealed(ks, iv, plain)| == if plain == [] then 0 else |iv| + |plain|
  {
  }

  /** The output of one encrypt call, after the plaintext written. */
  function SealChunk(ks: Streams, iv: Bytes, written: Bytes, buf: Bytes): Bytes {
    if buf == [] then []
    else if written == [] then iv + ApplyKeystream(ks(iv), 0, buf)
    else ApplyKeystream(ks(iv), |written|, buf)
  }

  /** The output of one decrypt call, after the bytes received. */
  function OpenChunk(ks: Streams, ivLen: nat, received: Bytes, buf: Bytes): Bytes {
    if |received + buf| <= ivLen then []
    else if |received| <= ivLen then ApplyKeystream(ks((received + buf)[..ivLen]), 0, (received + buf)[ivLen..])
    else ApplyKeystream(ks(received[..ivLen]), |received| - ivLen, buf)
  }

  lemma SealChunkAppends(ks: Streams, iv: Bytes, written: Bytes, buf: Bytes)
    ensures Sealed(ks, iv, written + buf) == Sealed(ks, iv, written) + SealChunk(ks, iv, written, buf)
  {
    hide ApplyKeystream;
    if buf == [] {
      assert written + buf == written;
    } else if written == [] {
      assert written + buf == buf;
    } else {
      ApplyAppend(ks(iv), 0, written, buf);
    }
  }

  lemma OpenChunkAppends(ks: Streams, ivLen: nat, received: Bytes, buf: Bytes)
    ensures Opened(ks, ivLen, received + buf) == Opened(ks, ivLen, received) + OpenChunk(ks, ivLen, received, buf)
  {
    hide ApplyKeystream;
    if |received| > ivLen {
      assert (received + buf)[..ivLen] == received[..ivLen];
      assert (received + buf)[ivLen..] == received[ivLen..] + buf;
      ApplyAppend(ks(received[..ivLen]), 0, received[ivLen..], buf);
    }
  }

  /** All output of a run of encrypt calls. */
  function SealAll(ks: Streams, iv: Bytes, chunks: seq<Bytes>): Bytes {
    if chunks == [] then []
    else
      var init := chunks[..|chunks| - 1];
      SealAll(ks, iv, init) + SealChunk(ks, iv, Flatten(init), chunks[|chunks| - 1])
  }

  /** All output of a run of decrypt calls. */
  function OpenAll(ks: Streams, ivLen: nat, chunks: seq<Bytes>): Bytes {
    if chunks == [] then []
    else
      var init := chunks[..|chunks| - 1];
      OpenAll(ks, ivLen, init) + OpenChunk(ks, ivLen, Flatten(init), chunks[|chunks| - 1])
  }

  /** However the plaintext is cut, the wire carries the IV and the encryption of the whole. */
  lemma {:induction false} SealAnyChunks(ks: Streams, iv: Bytes, chunks: seq<Bytes>)
    ensures SealAll(ks, iv, chunks) == Sealed(ks, iv, Flatten(chunks))
    decreases |chunks|
  {
    if chunks != [] {
      var init := chunks[..|chunks| - 1];
      SealAnyChunks(ks, iv, init);
      FlattenLast(chunks);
      SealChunkAppends(ks, iv, Flatten(init), chunks[|chunks| - 1]);
    }
  }

  lemma {:induction false} OpenAnyChunks(ks: Streams, ivLen: nat, chunks: seq<Bytes>)
    ensures OpenAll(ks, ivLen, chunks) == Opened(ks, ivLen, Flatten(chunks))
    decreases |chunks|
  {
    if chunks != [] {
      var init := chunks[..|chunks| - 1];
      OpenAnyChunks(ks, ivLen, init);
      FlattenLast(chunks);
      OpenChunkAppends(ks, ivLen, Flatten(init), chunks[|chunks| - 1]);
    }
  }

  /** Independent chunkings: whatever the writes, and in whatever other chunks their encryption arrives (so far), the
      other end has output exactly the plaintext (so far). */
  lemma {:induction false} AnyTwoChunkings(ks: Streams, iv: Bytes, writes: seq<Bytes>, arrivals: seq<Bytes>)
    requires Flatten(arrivals) <= SealAll(ks, iv, writes)
    ensures OpenAll(ks, |iv|, arrivals) <= Flatten(writes)
    ensures |OpenAll(ks, |iv|, arrivals)| == if |Flatten(arrivals)| <= |iv| then 0 else |Flatten(arrivals)| - |iv|
    ensures Flatten(arrivals) == SealAll(ks, iv, writes) ==> OpenAll(ks, |iv|, arrivals) == Flatten(writes)
  {
    hide SealAll, OpenAll, Opened, Flatten, Sealed;
    SealAnyChunks(ks, iv, writes);
    OpenAnyChunks(ks, |iv|, arrivals);
    var plain, w := Flatten(writes), Flatten(arrivals);
    SealedLength(ks, iv, plain);
    OpenedSealed(ks, iv, plain, |w|);
    assert Sealed(ks, iv, plain)[..|w|] == w;
  }

  // ----- the cipher object -----

  /** The output buffer that all cipher objects share. */
  class Scratch {
    var buf: array<Byte>

    constructor (size: nat)
      ensures fresh(buf)
    {
      buf := new Byte[size](_ => 0);
    }
  }

  /** Zeros in front move the key stream to where the data belongs. */
  lemma AlignedXor(ks: Keystream, counter: nat, data: Bytes)
    ensures var padding := counter % BLOCK_SIZE;
            ApplyKeystream(ks, BLOCK_SIZE * (counter / BLOCK_SIZE), Zeros(padding) + data)[padding..]
              == ApplyKeystream(ks, counter, data)
  {
    hide ApplyKeystream;
    var padding := counter % BLOCK_SIZE;
    ApplyAppend(ks, BLOCK_SIZE * (counter / BLOCK_SIZE), Zeros(padding), data);
    assert BLOCK_SIZE * (counter / BLOCK_SIZE) + padding == counter;
  }

  class SodiumCrypto {
    const stream: Keystream
    const scratch: Scratch
    var counter: nat

    constructor (stream: Keystream, scratch: Scratch)
      ensures this.stream == stream && this.scratch == scratch && counter == 0
    {
      this.stream, this.scratch, counter := stream, scratch, 0;
    }

    /** The library's cipher: XOR with the key stream from block number ic on, written to buf. */
    method XorFromBlock(buf: array<Byte>, data: Bytes, ic: nat)
      requires |data| <= buf.Length
      modifies buf
      ensures buf[..|data|] == ApplyKeystream(stream, BLOCK_SIZE * ic, data)
    {
      var text := ApplyKeystream(stream, BLOCK_SIZE * ic, data);
      forall i | 0 <= i < |data| {
        buf[i] := text[i];
      }
    }

    /** Continues the key stream where the last call stopped, though the library only starts at whole blocks. */
    method Update(data: Bytes) returns (out: Bytes)
      modifies this`counter, scratch, scratch.buf
      ensures scratch.buf == old(scratch.buf) || fresh(scratch.buf)
      ensures out == ApplyKeystream(stream, old(counter), data) && counter == old(counter) + |data|
    {
      var padding := counter % BLOCK_SIZE;
      if scratch.buf.Length < padding + |data| {
        scratch.buf := new Byte[(padding + |data|) * 2](_ => 0);
      }
      var padded := Zeros(padding) + data;
      XorFromBlock(scratch.buf, padded, counter / BLOCK_SIZE);
      AlignedXor(stream, counter, data);
      counter := counter + |data|;
      out := scratch.buf[padding..padding + |data|];
      assert out == scratch.buf[..|padded|][padding..];
    }
  }

  /** Encrypting and decrypting in random pieces, through two objects with the same key stream, gives the plaintext
      back. */
  method RunCipher(cipher: SodiumCrypto, decipher: SodiumCrypto, plain: Bytes) returns (result: Bytes)
    requires cipher != decipher && cipher.scratch == decipher.scratch && cipher.stream == decipher.stream
    requires cipher.counter == 0 && decipher.counter == 0
    modifies cipher`counter, decipher`counter, cipher.scratch, cipher.scratch.buf
    ensures result == plain
  {
    var ks := cipher.stream;
    var text: Bytes, pos := [], 0;
    while pos < |plain|
      invariant pos <= |plain| && cipher.counter == pos && decipher.counter == 0
      invariant text == ApplyKeystream(ks, 0, plain[..pos])
      invariant cipher.scratch.buf == old(cipher.scratch.buf) || fresh(cipher.scratch.buf)
    {
      var l := RandomStep(|plain| - pos);
      var c := cipher.Update(plain[pos..pos + l]);
      ApplyAppend(ks, 0, plain[..pos], plain[pos..pos + l]);
      assert plain[..pos + l] == plain[..pos] + plain[pos..pos + l];
      text, pos := text + c, pos + l;
    }
    assert plain[..pos] == plain;
    result, pos := [], 0;
    while pos < |plain|
      invariant pos <= |plain| && decipher.counter == pos
      invariant result == ApplyKeystream(ks, 0, text[..pos])
      invariant cipher.scratch.buf == old(cipher.scratch.buf) || fresh(cipher.scratch.buf)
    {
      var l := RandomStep(|plain| - pos);
      var p := decipher.Update(text[pos..pos + l]);
      ApplyAppend(ks, 0, text[..pos], text[pos..pos + l]);
      assert text[..pos + l] == text[..pos] + text[pos..pos + l];
      result, pos := result + p, pos + l;
    }
    assert text[..pos] == text;
    ApplyTwice(ks, 0, plain);
  }

  /** The size of a random piece of what is left. */
  method RandomStep(left: nat) returns (l: nat)
    requires left > 0
    ensures 0 < l <= left
  {
    assert 0 < left <= left;
    l :| 0 < l <= left;
  }

  // ----- the encryptor -----

  class Encryptor {
    const streams: Streams
    const ivLen: nat
    const cipherIv: Bytes
    const scratch: Scratch
    const cipher: SodiumCrypto
    var ivSent: bool
    var ivBuf: Option<Bytes>
    var decipher: SodiumCrypto?
    /** All plaintext written, and all bytes received. */
    ghost var written: Bytes
    ghost var received: Bytes

    ghost predicate Valid()
      reads this, cipher, decipher
    {
      && |cipherIv| == ivLen
      && cipher.scratch == scratch && cipher.stream == streams(cipherIv) && cipher.counter == |written|
      && ivSent == (written != [])
      && (if decipher == null then |received| <= ivLen && ivBuf == Some(received)
          else
            && decipher != cipher && decipher.scratch == scratch && |received| > ivLen && ivBuf == None
            && decipher.stream == streams(received[..ivLen]) && decipher.counter == |received| - ivLen)
    }

    /** An IV of the wrong length is replaced by a random one. */
    constructor (streams: Streams, ivLen: nat, iv: Option<Bytes>, scratch: Scratch)
      ensures Valid() && fresh(cipher) && written == [] && received == []
      ensures this.streams == streams && this.ivLen == ivLen && this.scratch == scratch
      ensures iv.Some? && |iv.value| == ivLen ==> cipherIv == iv.value
    {
      var v: Bytes;
      if iv.Some? && |iv.value| == ivLen {
        v := iv.value;
      } else {
        assert |Zeros(ivLen)| == ivLen;
        v :| |v| == ivLen;
      }
      this.streams, this.ivLen, this.scratch, cipherIv := streams, ivLen, scratch, v;
      cipher := new SodiumCrypto(streams(v), scratch);
      ivSent, ivBuf, decipher := false, Some([]), null;
      written, received := [], [];
    }

    method Encrypt(buf: Bytes) returns (out: Bytes)
      requires Valid()
      modifies this`ivSent, this`written, cipher, scratch, scratch.buf
      ensures Valid() && (scratch.buf == old(scratch.buf) || fresh(scratch.buf))
      ensures written == old(written) + buf
      ensures out == SealChunk(streams, cipherIv, old(written), buf)
    {
      if |buf| == 0 {
        return buf;
      }
      written := written + buf;
      out := cipher.Update(buf);
      if !ivSent {
        ivSent := true;
        out := cipherIv + out;
      }
    }

    method Decrypt(buf: Bytes) returns (out: Bytes)
      requires Valid()
      modifies this`ivBuf, this`decipher, this`received, decipher, scratch, scratch.buf
      ensures Valid() && (scratch.buf == old(scratch.buf) || fresh(scratch.buf))
      ensures decipher == old(decipher) || fresh(decipher)
      ensures received == old(received) + buf
      ensures out == OpenChunk(streams, ivLen, old(received), buf)
    {
      if |buf| == 0 {
        EmptyChunk(streams, ivLen, received, buf);
        return buf;
      }
      ghost var before := received;
      received := received + buf;
      if decipher != null {
        assert received[..ivLen] == before[..ivLen];
        out := decipher.Update(buf);
        return;
      }
      var all := ivBuf.value + buf;
      if |all| > ivLen {
        decipher := new SodiumCrypto(streams(all[..ivLen]), scratch);
        ivBuf := None;
        out := decipher.Update(all[ivLen..]);
      } else {
        ivBuf := Some(all);
        out := [];
      }
    }
  }

  lemma EmptyChunk(ks: Streams, ivLen: nat, received: Bytes, buf: Bytes)
    requires buf == []
    ensures received + buf == received
    ensures OpenChunk(ks, ivLen, received, buf) == []
  {
    assert received + buf == received;
  }
}
