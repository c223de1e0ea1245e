/** Types shared by every module: optional values, status codes and the wire messages of a volume. */
module Common {

  datatype Option<+T> = None | Some(value: T)

  /** The members of the source's Status enumeration that the modelled code returns. */
  datatype Status =
    | Ok
    | DuplicateKey
    | DuplicateVolume
    | Invalid
    | InvalidKey
    | InvalidTerm
    | InvalidState
    | InvalidCommit
    | DbWriteFailure
    | NoQuorum
    | NotLeader

  /** Both INVALID_VALUE and INVALID_VERSION. */
  const INVALID_VALUE: int := -1

  const TWO_TO_THE_63: int := 0x8000_0000_0000_0000
  const TWO_TO_THE_64: int := 0x1_0000_0000_0000_0000

  /** A signed 64-bit integer, where its width matters (database keys). */
  type Int64 = x: int | -TWO_TO_THE_63 <= x < TWO_TO_THE_63

  type ChunkId = string
  type MemberId = string

  datatype BlobKVPair = BlobKVPair(offset: Int64, chunkId: ChunkId)

  /** One metadata write; the leader overwrites opId and commitId before it is journalled. */
  datatype UpdateBlobMetaMsg = UpdateBlobMetaMsg(
    resourceId: int, blobId: Int64, opId: int, commitId: int, chunkList: seq<BlobKVPair>)

  /** A member of a nonempty set. */
  lemma {:induction false} AnyOf<T>(s: set<T>) returns (x: T)
    requires s != {}
    ensures x in s
  {
    x :| x in s;
  }
}
