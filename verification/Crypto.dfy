/** Ideal forms of the primitives: each keyed function is an arbitrary function of its inputs. */
module Crypto {
  import opened Basics
  import opened IndexCodec

  const NONCE_LEN: nat := 24
  const TAG_LEN: nat := 16
  const FRAME_OVERHEAD: nat := 40

  type Nonce = s: seq<byte> | |s| == NONCE_LEN witness seq(NONCE_LEN, _ => 0)
  type Tag = s: seq<byte> | |s| == TAG_LEN witness seq(TAG_LEN, _ => 0)

  /** The associated data of a chunk; the vault and blob ids are fixed per blob. */
  datatype Aad = Aad(fileId: FileId, sequenceNumber: u64, offset: u64)

  /** The keyed functions of one blob.  A file's key is derived from its id. */
  datatype Keys = Keys(
    indexStream: nat -> byte,
    fileStream: (FileId, Nonce, nat) -> byte,
    fileTag: (FileId, Nonce, Aad, seq<byte>) -> Tag,
    hash: seq<byte> -> Hash)

  /** Random bytes drawn by one operation. */
  datatype Entropy = Entropy(nonce: nat -> Nonce, fill: nat -> byte)

  /** A MAC value is the authenticated message itself. */
  datatype Mac = Mac(generation: nat, length: nat, ciphertext: seq<byte>)

  /** `text` combined with the key stream from position `at` on. */
  function StreamXor(stream: nat -> byte, at: nat, text: seq<byte>): (out: seq<byte>)
    ensures |out| == |text|
  {
    seq(|text|, i requires 0 <= i < |text| => Xor(text[i], stream(at + i)))
  }

  lemma StreamXorInvolutive(stream: nat -> byte, at: nat, text: seq<byte>)
    ensures StreamXor(stream, at, StreamXor(stream, at, text)) == text
  {
    forall i | 0 <= i < |text| {
      XorInvolutive(text[i], stream(at + i));
    }
  }

  /** A byte of the output is that of the text exactly where the key stream is zero. */
  lemma StreamXorAt(stream: nat -> byte, at: nat, text: seq<byte>, i: nat)
    requires i < |text|
    ensures StreamXor(stream, at, text)[i] == Xor(text[i], stream(at + i))
    ensures StreamXor(stream, at, text)[i] == text[i] <==> stream(at + i) == 0
  {
    XorSolves(text[i], stream(at + i), 0);
  }

  /** For any two texts of one length there is a key stream that takes the one to the other. */
  lemma SomeStream(a: seq<byte>, b: seq<byte>) returns (stream: nat -> byte)
    requires |a| == |b|
    ensures StreamXor(stream, 0, a) == b
  {
    stream := (i: nat) => if i < |a| && i < |b| then Xor(a[i], b[i]) else 0;
    forall i | 0 <= i < |a| ensures StreamXor(stream, 0, a)[i] == b[i] {
      XorSolves(a[i], Xor(a[i], b[i]), b[i]);
    }
  }

  /** Encrypting a suffix with the stream advanced past the prefix is encrypting the whole. */
  lemma StreamXorAppend(stream: nat -> byte, a: seq<byte>, b: seq<byte>)
    ensures StreamXor(stream, 0, a + b) == StreamXor(stream, 0, a) + StreamXor(stream, |a|, b)
  {
  }

  function FrameStream(keys: Keys, fileId: FileId, nonce: Nonce): nat -> byte {
    (i: nat) => keys.fileStream(fileId, nonce, i)
  }

  function SealFrame(keys: Keys, aad: Aad, nonce: Nonce, plaintext: seq<byte>): (frame: seq<byte>)
    ensures |frame| == |plaintext| + FRAME_OVERHEAD
  {
    var text := StreamXor(FrameStream(keys, aad.fileId, nonce), 0, plaintext);
    nonce + text + keys.fileTag(aad.fileId, nonce, aad, text)
  }

  function OpenFrame(keys: Keys, aad: Aad, frame: seq<byte>): Result<seq<byte>> {
    if |frame| < FRAME_OVERHEAD then Err(AeadDecryptFailed)
    else
      var nonce: Nonce := frame[..NONCE_LEN];
      var text := frame[NONCE_LEN..|frame| - TAG_LEN];
      if frame[|frame| - TAG_LEN..] != keys.fileTag(aad.fileId, nonce, aad, text)
      then Err(AeadDecryptFailed)
      else Ok(StreamXor(FrameStream(keys, aad.fileId, nonce), 0, text))
  }

  function ChunkAad(entry: ChunkEntry): Aad {
    Aad(entry.fileId, entry.sequenceNumber, entry.offset)
  }

  function DecryptChunk(keys: Keys, entry: ChunkEntry, frame: seq<byte>): Result<seq<byte>> {
    var plaintext :- OpenFrame(keys, ChunkAad(entry), frame);
    if |plaintext| != entry.plaintextLength || keys.hash(plaintext) != entry.contentHash
    then Err(AeadDecryptFailed)
    else Ok(plaintext)
  }

  lemma OpenSealed(keys: Keys, aad: Aad, nonce: Nonce, plaintext: seq<byte>)
    ensures OpenFrame(keys, aad, SealFrame(keys, aad, nonce, plaintext)) == Ok(plaintext)
  {
    var stream := FrameStream(keys, aad.fileId, nonce);
    var text := StreamXor(stream, 0, plaintext);
    var frame := SealFrame(keys, aad, nonce, plaintext);
    var tag := keys.fileTag(aad.fileId, nonce, aad, text);
    assert frame == nonce + text + tag;
    assert frame[..NONCE_LEN] == nonce;
    assert frame[NONCE_LEN..|frame| - TAG_LEN] == text;
    assert frame[|frame| - TAG_LEN..] == tag;
    StreamXorInvolutive(stream, 0, plaintext);
  }

  /** A chunk sealed for its own entry decrypts to its plaintext. */
  lemma DecryptSealed(keys: Keys, entry: ChunkEntry, nonce: Nonce, plaintext: seq<byte>)
    requires entry.plaintextLength == |plaintext| && entry.contentHash == keys.hash(plaintext)
    ensures DecryptChunk(keys, entry, SealFrame(keys, ChunkAad(entry), nonce, plaintext)) == Ok(plaintext)
  {
    OpenSealed(keys, ChunkAad(entry), nonce, plaintext);
  }

  /** What decrypts is exactly what was sealed: the frame of the plaintext under some nonce, with the
      associated data of the entry, its length and its hash. */
  lemma DecryptsOnlySealed(keys: Keys, entry: ChunkEntry, frame: seq<byte>, plaintext: seq<byte>)
    ensures DecryptChunk(keys, entry, frame) == Ok(plaintext) <==>
      && |plaintext| == entry.plaintextLength && keys.hash(plaintext) == entry.contentHash
      && |frame| == |plaintext| + FRAME_OVERHEAD
      && var nonce: Nonce := frame[..NONCE_LEN];
         frame == SealFrame(keys, Aad(entry.fileId, entry.sequenceNumber, entry.offset), nonce, plaintext)
  {
    if |frame| >= FRAME_OVERHEAD {
      var nonce: Nonce := frame[..NONCE_LEN];
      var text, tag := frame[NONCE_LEN..|frame| - TAG_LEN], frame[|frame| - TAG_LEN..];
      assert frame == nonce + text + tag;
      StreamXorInvolutive(FrameStream(keys, entry.fileId, nonce), 0, text);
      if |frame| == |plaintext| + FRAME_OVERHEAD && frame == SealFrame(keys, ChunkAad(entry), nonce, plaintext) {
        OpenSealed(keys, ChunkAad(entry), nonce, plaintext);
      }
    }
  }

  /** The bytes of a frame: its nonce, the text combined with the file's key stream for that nonce, and the
      tag of both and the associated data. */
  lemma FrameLaidOut(keys: Keys, aad: Aad, nonce: Nonce, plaintext: seq<byte>)
    ensures var frame, n := SealFrame(keys, aad, nonce, plaintext), |plaintext|;
      && |frame| == 24 + n + 16 && frame[..24] == nonce
      && (forall i :: 0 <= i < n ==> frame[24 + i] == Xor(plaintext[i], keys.fileStream(aad.fileId, nonce, i)))
      && (forall i :: 0 <= i < n ==> (frame[24 + i] == plaintext[i] <==> keys.fileStream(aad.fileId, nonce, i) == 0))
      && frame[24 + n..] == keys.fileTag(aad.fileId, nonce, aad, frame[24..24 + n])
  {
    var stream := FrameStream(keys, aad.fileId, nonce);
    var text := StreamXor(stream, 0, plaintext);
    var frame := SealFrame(keys, aad, nonce, plaintext);
    assert frame[24..24 + |plaintext|] == text;
    forall i | 0 <= i < |plaintext|
      ensures frame[24 + i] == Xor(plaintext[i], keys.fileStream(aad.fileId, nonce, i))
      ensures frame[24 + i] == plaintext[i] <==> keys.fileStream(aad.fileId, nonce, i) == 0
    {
      StreamXorAt(stream, 0, plaintext, i);
      assert frame[24 + i] == text[i];
    }
  }
}
