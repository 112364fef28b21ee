/** Bytes, their sha256, and one version of a local document. */
module Content {
  newtype Byte = x: int | 0 <= x < 256

  type Bytes = seq<Byte>

  datatype Option<+T> = None | Some(value: T)

  /** A sha256, held as what it was taken of: two digests are equal exactly when
      the bytes are, which is all the desktop client asks of the hash. */
  datatype Digest = Sha256(of: Bytes)

  /** One version of the local document, as filex last read or wrote it. Times are
      milliseconds; a file system may report fractions of one. */
  datatype LocalVersion = LocalVersion(size: nat, mtime: real, sha256: Digest, at: real) {
    /** The size is that of the bytes the digest names. */
    predicate Whole() {
      size == |sha256.of|
    }
  }
}
