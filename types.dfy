/** Shared data model of the packing station: the record persisted per
    session, its upload status, the recorder's state enum, and the media
    chunks a recording is assembled from. */
module Types {

  datatype Option<+T> = None | Some(value: T)

  datatype Result<+T, +E> = Success(value: T) | Failure(error: E)

  /** JavaScript truthiness of an optional string: present and non-empty. */
  predicate Truthy(v: Option<string>) {
    v.Some? && v.value != ""
  }

  /** The recorder's five states; UPLOADING exists in the enum but the
      station never enters it. */
  datatype RecorderState = Idle | Recording | Processing | Uploading | Completed

  /** The four values of `uploadStatus`. */
  datatype UploadStatus = StatusPending | StatusUploading | StatusCompleted | StatusFailed

  /** A byte of recorded media. */
  newtype byte = x: int | 0 <= x < 256

  /** One `dataavailable` payload of the media recorder. */
  type Chunk = seq<byte>

  /** A stored packing session. Optional fields are `None` when the stored
      object lacks them (records written before the version-2 schema). An
      `uploadStatus` of `None` stands for any falsy value, a missing field
      or an empty string, since the upgrade treats the two alike. */
  datatype PackingRecord = PackingRecord(
    id: nat,
    orderId: string,
    timestamp: int,
    videoBlob: seq<byte>,
    duration: nat,
    aiAnalysis: Option<string>,
    isFlagged: bool,
    publicUrl: Option<string>,
    uploadStatus: Option<UploadStatus>,
    r2Key: Option<string>)

  /** The blob built from the chunk list: the chunks' bytes in list order. */
  function Concat(chunks: seq<Chunk>): (blob: seq<byte>)
    ensures chunks != [] ==>
      |blob| >= |chunks[|chunks| - 1]| && blob[|blob| - |chunks[|chunks| - 1]|..] == chunks[|chunks| - 1]
  {
    if chunks == [] then [] else Concat(chunks[..|chunks| - 1]) + chunks[|chunks| - 1]
  }

  /** Sum of the chunk sizes. */
  function TotalSize(chunks: seq<Chunk>): nat {
    if chunks == [] then 0 else |chunks[0]| + TotalSize(chunks[1..])
  }

  /** The blob's size is the sum of its chunks' sizes. */
  lemma {:induction false} ConcatSize(chunks: seq<Chunk>)
    ensures |Concat(chunks)| == TotalSize(chunks)
  {
    if chunks != [] {
      ConcatSize(chunks[..|chunks| - 1]);
      TotalSizeSnoc(chunks[..|chunks| - 1], chunks[|chunks| - 1]);
      assert chunks[..|chunks| - 1] + [chunks[|chunks| - 1]] == chunks;
    }
  }

  lemma {:induction false} TotalSizeSnoc(chunks: seq<Chunk>, c: Chunk)
    ensures TotalSize(chunks + [c]) == TotalSize(chunks) + |c|
  {
    if chunks != [] {
      assert (chunks + [c])[1..] == chunks[1..] + [c];
      TotalSizeSnoc(chunks[1..], c);
    }
  }

  /** Every byte of chunk k sits in the blob right after the bytes of the
      chunks before it: nothing is dropped or reordered. */
  lemma {:induction false} ConcatPlacesChunk(chunks: seq<Chunk>, k: nat, j: nat)
    requires k < |chunks| && j < |chunks[k]|
    ensures |Concat(chunks[..k])| + j < |Concat(chunks)|
    ensures Concat(chunks)[|Concat(chunks[..k])| + j] == chunks[k][j]
  {
    var n := |chunks|;
    var init := chunks[..n - 1];
    assert Concat(chunks) == Concat(init) + chunks[n - 1];
    if k == n - 1 {
      assert chunks[..k] == init;
    } else {
      assert init[..k] == chunks[..k];
      ConcatPlacesChunk(init, k, j);
    }
  }
}
