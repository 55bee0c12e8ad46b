/**
  The values the stream manager works with: descriptors, managed streams, the
  persisted file records, background task handles, the configuration, and the
  calls the manager issues to its collaborators.
 */
module Streams {
  import opened Wrappers
  import Hex

  type SdHash = string
  type StreamHash = string
  type BlobHash = string

  /** One entry of a descriptor's blob list; the last entry is the terminator. */
  datatype BlobInfo = BlobInfo(blobHash: BlobHash, length: nat, iv: string)

  /** A stream descriptor (the manifest): its own hash, the stream hash and the blobs. */
  datatype Descriptor = Descriptor(sdHash: SdHash, streamHash: StreamHash, blobs: seq<BlobInfo>)

  /** The three states a stream's status column takes. */
  datatype Status = Running | Finished | Stopped

  /** Claim metadata as the storage returns it; `value` is the claim's own value. */
  datatype ClaimInfo = ClaimInfo(claimId: string, value: string)

  /** A content fee transaction, kept opaque. */
  datatype Fee = Fee(txid: string)

  /** A managed stream: the runtime state of one stream, identified by its sd hash. */
  datatype Stream = Stream(
    sdHash: SdHash,
    downloadDirectory: Option<string>,
    fileName: Option<string>,
    status: Status,
    claim: Option<ClaimInfo>,
    contentFee: Option<Fee>,
    rowid: int,
    descriptor: Descriptor,
    addedOn: Option<int>,
    fullyReflected: bool)
  {
    function StreamHash(): StreamHash { descriptor.streamHash }
  }

  /**
    A row of the file table. `fileName`, `downloadDirectory`, `streamName` and
    `suggestedFileName` hold hex-encoded text.
   */
  datatype FileRecord = FileRecord(
    rowid: int,
    sdHash: SdHash,
    streamHash: StreamHash,
    streamName: string,
    suggestedFileName: string,
    key: string,
    fileName: Option<string>,
    downloadDirectory: Option<string>,
    status: Status,
    savedFile: bool,
    claim: Option<ClaimInfo>,
    contentFee: Option<Fee>,
    addedOn: Option<int>,
    fullyReflected: bool)

  /** The arguments with which a descriptor is reconstructed from a record. */
  datatype Recovery = Recovery(sdHash: SdHash, streamHash: StreamHash, streamName: string,
                               suggestedFileName: string, key: string, contentFee: Option<Fee>)

  /** An entry of `to_restore`: the recovered descriptor, its sd blob and the content fee. */
  datatype Restored = Restored(descriptor: Descriptor, sdBlob: SdHash, contentFee: Option<Fee>)

  /** An entry of `to_resume_saving`. */
  datatype Resume = Resume(fileName: string, downloadDirectory: string, sdHash: SdHash)

  /** The manager's configuration: the reflection switch, the servers and the batch limit. */
  datatype Config = Config(reflectStreams: bool, reflectorServers: seq<(string, int)>,
                           concurrentReflectorUploads: int, downloadDir: string)

  /** What a background task runs. */
  datatype TaskKind =
    | Upload(sdHash: SdHash, server: string, port: int)
    | ResumeSaving(items: seq<Resume>)
    | ReReflect
    | Notification

  /** A task handle: a cancellation request and completion are recorded separately. */
  datatype Task = Task(kind: TaskKind, cancelled: bool, done: bool)
  {
    /** Still doing work that nobody asked to stop. */
    predicate InFlight() { !done && !cancelled }

    /** `cancel()`: has no effect on a task that is already done. */
    function Cancel(): (t: Task)
      ensures t.kind == kind && t.done == done
      ensures t.cancelled <==> cancelled || !done
      ensures !t.InFlight()
    {
      if done then this else this.(cancelled := true)
    }
  }

  type TaskId = nat

  /** The calls the manager makes to the blob manager, the storage and a stream's own tasks. */
  datatype Effect =
    | UpdateManuallyRemovedFiles
    | StoreRecovered(restored: set<Restored>, downloadDir: string)
    | StopTasks(sdHash: SdHash)
    | DeleteBlobs(blobHashes: seq<BlobHash>, deleteFromDb: bool)
    | DeleteRecord(descriptor: Descriptor)

  /** The errors the modelled operations can raise. */
  datatype ManagerError =
    | MalformedHex(e: Hex.HexError)     // binascii.Error from a stored hex column
    | NoReflectorServers                // random.choice on an empty server list
    | UnknownStream(sdHash: SdHash)     // KeyError on a registry lookup
    | NoContentClaim                    // subscripting a missing claim

  /**
    The blob hashes `delete_stream` hands to the blob manager: the sd hash, then
    the hash of every descriptor entry but the last (the terminator).
   */
  function BlobsToDelete(s: Stream): (hashes: seq<BlobHash>)
    ensures |hashes| == if |s.descriptor.blobs| == 0 then 1 else |s.descriptor.blobs|
    ensures hashes[0] == s.sdHash
    ensures forall i :: 0 <= i < |s.descriptor.blobs| - 1 ==> hashes[i + 1] == s.descriptor.blobs[i].blobHash
  {
    var blobs := s.descriptor.blobs;
    var body := if blobs == [] then [] else blobs[..|blobs| - 1];
    [s.sdHash] + seq(|body|, i requires 0 <= i < |body| => body[i].blobHash)
  }

  /** Python's truthiness of a server name or a port. */
  predicate ServerGiven(server: Option<string>, port: Option<int>)
  {
    server.Some? && server.value != [] && port.Some? && port.value != 0
  }

  /** Both conditions under which the manager starts reflections. */
  predicate ReflectionConfigured(c: Config)
  {
    c.reflectStreams && c.reflectorServers != []
  }

  /**
    `random.choice` over the configured servers, with the random index supplied
    by the caller; an empty list is an error.
   */
  function ChooseServer(servers: seq<(string, int)>, pick: nat): (r: Result<(string, int), ManagerError>)
    ensures r.Failure? <==> servers == []
    ensures r.Success? ==> r.value in servers
  {
    if servers == [] then Failure(NoReflectorServers) else Success(servers[pick % |servers|])
  }

  /** Concatenation regrouped, for the proofs that append one piece at a time. */
  lemma Concat<T>(a: seq<T>, b: seq<T>, c: seq<T>)
    ensures (a + b) + c == a + (b + c)
  {
  }

  /** The elements of a sequence, as a set. */
  function Members<T>(s: seq<T>): set<T>
  {
    set x | x in s
  }

  /** Every registry entry is stored under its own sd hash. */
  ghost predicate Keyed(registry: map<SdHash, Stream>)
  {
    forall sd :: sd in registry ==> registry[sd].sdHash == sd
  }

  /** Every callback is installed under the stream hash of the stream it captured. */
  ghost predicate CallbacksKeyed(callbacks: map<StreamHash, Stream>)
  {
    forall h :: h in callbacks ==> callbacks[h].StreamHash() == h
  }

  /** Whether a stream's stored state asks for its file to be written out again. */
  predicate WantsResume(r: FileRecord, fileName: Option<string>, downloadDirectory: Option<string>)
  {
    Hex.Truthy(fileName) && Hex.Truthy(downloadDirectory) && !r.savedFile && r.status == Running
  }
}
