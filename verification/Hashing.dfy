/** compute_sha256: the digest of a file, read in 8192-byte chunks. */
module Hashing {

  newtype Byte = b: int | 0 <= b < 256

  type Content = seq<Byte>

  /** A hash object: its initial state, how `update` absorbs bytes, and how the digest is read off. */
  datatype Hasher<!S, !D> = Hasher(init: S, update: (S, Content) -> S, digest: S -> D)

  /** What hashlib promises of `update`: feeding pieces one after the other feeds their concatenation. */
  ghost predicate UpdateConcatenates<S, D>(h: Hasher<S, D>) {
    && h.update(h.init, []) == h.init
    && (forall a, b :: h.update(h.update(h.init, a), b) == h.update(h.init, a + b))
  }

  const CHUNK: nat := 8192

  /** One `f.read(8192)` at position `pos`: up to a chunk, empty exactly at the end of the file. */
  function Read(file: Content, pos: nat): (chunk: Content)
    requires pos <= |file|
    ensures |chunk| <= CHUNK
    ensures chunk == [] <==> pos == |file|
    ensures pos + |chunk| <= |file| && file[..pos] + chunk == file[..pos + |chunk|]
  {
    if pos + CHUNK <= |file| then file[pos..pos + CHUNK] else file[pos..]
  }

  /** One more chunk. */
  lemma UpdateChunk<S, D>(h: Hasher<S, D>, file: Content, pos: nat)
    requires UpdateConcatenates(h) && pos <= |file|
    ensures var chunk := Read(file, pos);
            h.update(h.update(h.init, file[..pos]), chunk) == h.update(h.init, file[..pos + |chunk|])
  {
  }

  method ComputeSha256<S, D>(h: Hasher<S, D>, file: Content) returns (sha: D)
    requires UpdateConcatenates(h)
    ensures sha == h.digest(h.update(h.init, file))
  {
    assert file[..0] == [] && h.update(h.init, []) == h.init;
    hide UpdateConcatenates;
    var state := h.init;
    var pos := 0;
    var chunk := Read(file, pos);
    while chunk != []
      invariant pos <= |file| && chunk == Read(file, pos)
      invariant state == h.update(h.init, file[..pos])
      decreases |file| - pos
    {
      UpdateChunk(h, file, pos);
      state := h.update(state, chunk);
      pos := pos + |chunk|;
      chunk := Read(file, pos);
    }
    assert file[..pos] == file;
    sha := h.digest(state);
  }
}
