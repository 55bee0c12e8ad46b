/**
  Startup from the database, as specifications: which records are queued for
  recovery, what recovery restores, and what loading the records leaves in the
  registry and in the resume-saving list.
 */
module Startup {
  import opened Wrappers
  import opened Streams
  import Hex
  import Reflection

  /** The records whose sd blob is not verified, in storage order. */
  function Unverified(records: seq<FileRecord>, verified: set<BlobHash>): (r: seq<FileRecord>)
    ensures |r| <= |records|
    ensures forall x :: x in r <==> x in records && x.sdHash !in verified
  {
    if records == [] then []
    else
      var rest := Unverified(records[..|records| - 1], verified);
      var last := records[|records| - 1];
      assert forall x :: x in records <==> x in records[..|records| - 1] || x == last;
      if last.sdHash !in verified then rest + [last] else rest
  }

  /**
    The first loop of `initialize_from_database`: every record is to be
    started, and the unverified ones are also to be recovered.
   */
  method Partition(records: seq<FileRecord>, verified: set<BlobHash>)
    returns (toRecover: seq<FileRecord>, toStart: seq<FileRecord>)
    ensures toStart == records
    ensures toRecover == Unverified(records, verified)
  {
    toRecover, toStart := [], [];
    for i := 0 to |records|
      invariant toStart == records[..i]
      invariant toRecover == Unverified(records[..i], verified)
    {
      var info := records[i];
      assert records[..i + 1][..i] == records[..i];
      if info.sdHash !in verified {
        toRecover := toRecover + [info];
      }
      toStart := toStart + [info];
    }
    assert records[..|records|] == records;
  }

  /** The arguments of one recovery: the stream name and suggested file name are hex-decoded. */
  function RecoveryArgs(r: FileRecord): (a: Result<Recovery, Hex.HexError>)
    ensures a.Success? <==> Hex.Unhexlify(r.streamName).Success? && Hex.Unhexlify(r.suggestedFileName).Success?
    ensures a.Success? ==> a.value.sdHash == r.sdHash && a.value.streamHash == r.streamHash
                           && a.value.key == r.key && a.value.contentFee == r.contentFee
  {
    match Hex.Unhexlify(r.streamName)
    case Failure(e) => Failure(e)
    case Success(name) =>
      match Hex.Unhexlify(r.suggestedFileName)
      case Failure(e) => Failure(e)
      case Success(suggested) =>
        Success(Recovery(r.sdHash, r.streamHash, Hex.Text(name), Hex.Text(suggested), r.key, r.contentFee))
  }

  /**
    The argument list of `recover_streams`: every record's arguments are decoded
    before any recovery starts, so one malformed name fails the whole call.
   */
  method RecoveryCalls(records: seq<FileRecord>) returns (calls: Result<seq<Recovery>, Hex.HexError>)
    ensures calls.Success? <==> forall i :: 0 <= i < |records| ==> RecoveryArgs(records[i]).Success?
    ensures calls.Success? ==> |calls.value| == |records|
    ensures calls.Success? ==> forall i :: 0 <= i < |records| ==> calls.value[i] == RecoveryArgs(records[i]).value
    ensures calls.Failure? ==> exists i :: 0 <= i < |records| && RecoveryArgs(records[i]) == Failure(calls.error)
  {
    var args: seq<Recovery> := [];
    for i := 0 to |records|
      invariant |args| == i
      invariant forall j :: 0 <= j < i ==> RecoveryArgs(records[j]) == Success(args[j])
    {
      var a := RecoveryArgs(records[i]);
      if a.Failure? {
        return Failure(a.error);
      }
      args := args + [a.value];
    }
    return Success(args);
  }

  /** What one recovery contributes to `to_restore`, given the recovery oracle. */
  function Attempt(call: Recovery, recover: Recovery -> Option<Descriptor>): (r: Option<Restored>)
    ensures r.Some? <==> recover(call).Some?
    ensures r.Some? ==> r.value.descriptor == recover(call).value && r.value.sdBlob == call.sdHash
                        && r.value.contentFee == call.contentFee
  {
    match recover(call)
    case None => None
    case Some(d) => Some(Restored(d, call.sdHash, call.contentFee))
  }

  /**
    The concurrent recoveries of `recover_streams`, each appending to
    `to_restore` when it produced a descriptor. Their order depends on
    scheduling, so only membership is promised.
   */
  method Restore(calls: seq<Recovery>, recover: Recovery -> Option<Descriptor>) returns (toRestore: seq<Restored>)
    ensures forall x :: x in toRestore <==> exists i :: 0 <= i < |calls| && Attempt(calls[i], recover) == Some(x)
    ensures toRestore == [] <==> forall i :: 0 <= i < |calls| ==> recover(calls[i]).None?
  {
    toRestore := [];
    for i := 0 to |calls|
      invariant forall x :: x in toRestore <==> exists j :: 0 <= j < i && Attempt(calls[j], recover) == Some(x)
      invariant toRestore == [] <==> forall j :: 0 <= j < i ==> recover(calls[j]).None?
    {
      var descriptor := recover(calls[i]);
      if descriptor.Some? {
        toRestore := toRestore + [Restored(descriptor.value, calls[i].sdHash, calls[i].contentFee)];
        assert Attempt(calls[i], recover) == Some(toRestore[|toRestore| - 1]);
      }
    }
  }

  /** What `recover_streams` hands to the storage, for records whose names all decode. */
  function Restorable(records: seq<FileRecord>, recover: Recovery -> Option<Descriptor>): (r: set<Restored>)
    requires forall i :: 0 <= i < |records| ==> RecoveryArgs(records[i]).Success?
    ensures forall x :: x in r <==> exists i :: 0 <= i < |records| && Attempt(RecoveryArgs(records[i]).value, recover) == Some(x)
  {
    set i | 0 <= i < |records| && Attempt(RecoveryArgs(records[i]).value, recover).Some?
          :: Attempt(RecoveryArgs(records[i]).value, recover).value
  }

  /** The entries the recoveries of the records' calls collect are exactly the restorable ones. */
  lemma RestoredSet(records: seq<FileRecord>, calls: seq<Recovery>, toRestore: seq<Restored>,
                    recover: Recovery -> Option<Descriptor>)
    requires |calls| == |records| && forall i :: 0 <= i < |records| ==> RecoveryArgs(records[i]) == Success(calls[i])
    requires forall x :: x in toRestore <==> exists i :: 0 <= i < |calls| && Attempt(calls[i], recover) == Some(x)
    ensures (set x | x in toRestore) == Restorable(records, recover)
  {
    var restored := Restorable(records, recover);
    forall x ensures x in toRestore <==> x in restored {
      if x in toRestore {
        var i :| 0 <= i < |calls| && Attempt(calls[i], recover) == Some(x);
        assert Attempt(RecoveryArgs(records[i]).value, recover) == Some(x);
      }
      if x in restored {
        var i :| 0 <= i < |records| && Attempt(RecoveryArgs(records[i]).value, recover) == Some(x);
        assert Attempt(calls[i], recover) == Some(x);
      }
    }
  }

  /** `path_or_none` of the file name, then of the download directory. */
  function Paths(r: FileRecord): (p: Result<(Option<string>, Option<string>), Hex.HexError>)
    ensures p.Success? <==> Hex.PathOrNone(r.fileName).Success? && Hex.PathOrNone(r.downloadDirectory).Success?
  {
    match Hex.PathOrNone(r.fileName)
    case Failure(e) => Failure(e)
    case Success(fileName) =>
      match Hex.PathOrNone(r.downloadDirectory)
      case Failure(e) => Failure(e)
      case Success(downloadDirectory) => Success((fileName, downloadDirectory))
  }

  /** The resume-saving entry of a record, when its paths decode and its state asks for one. */
  function ResumeOf(r: FileRecord): (e: Option<Resume>)
    ensures e.Some? <==> Paths(r).Success? && WantsResume(r, Paths(r).value.0, Paths(r).value.1)
    ensures e.Some? ==> e.value.sdHash == r.sdHash && e.value.fileName != [] && e.value.downloadDirectory != []
    ensures e.Some? ==> Paths(r).value == (Some(e.value.fileName), Some(e.value.downloadDirectory))
  {
    match Paths(r)
    case Failure(_) => None
    case Success((fileName, downloadDirectory)) =>
      if WantsResume(r, fileName, downloadDirectory)
      then Some(Resume(fileName.value, downloadDirectory.value, r.sdHash))
      else None
  }

  /** The record's resume-saving entry as a list of at most one. */
  function Entry(r: FileRecord): seq<Resume>
  {
    if ResumeOf(r).Some? then [ResumeOf(r).value] else []
  }

  /** The resume-saving entries of the records, in record order. */
  function Resumes(records: seq<FileRecord>): (q: seq<Resume>)
    ensures |q| <= |records|
  {
    if records == [] then [] else Entry(records[0]) + Resumes(records[1..])
  }

  /** `Resumes` holds the entry of every record that asks for one. */
  lemma {:induction false} ResumesComplete(records: seq<FileRecord>)
    ensures forall i :: 0 <= i < |records| && ResumeOf(records[i]).Some? ==> ResumeOf(records[i]).value in Resumes(records)
    decreases |records|
  {
    if records != [] {
      ResumesComplete(records[1..]);
      forall i | 0 <= i < |records| && ResumeOf(records[i]).Some? ensures ResumeOf(records[i]).value in Resumes(records) {
        if i > 0 {
          assert records[i] == records[1..][i - 1];
        }
      }
    }
  }

  /** Every entry of `Resumes` is the entry of one of the records. */
  lemma {:induction false} ResumesSound(records: seq<FileRecord>)
    ensures forall j :: 0 <= j < |Resumes(records)| ==>
              exists i :: 0 <= i < |records| && ResumeOf(records[i]) == Some(Resumes(records)[j])
    decreases |records|
  {
    if records != [] {
      var head, tail := Entry(records[0]), Resumes(records[1..]);
      ResumesSound(records[1..]);
      assert Resumes(records) == head + tail;
      forall j | 0 <= j < |Resumes(records)|
        ensures exists i :: 0 <= i < |records| && ResumeOf(records[i]) == Some(Resumes(records)[j])
      {
        if j < |head| {
          assert ResumeOf(records[0]) == Some(Resumes(records)[j]);
        } else {
          var k := j - |head|;
          assert (head + tail)[j] == tail[k];
          var i :| 0 <= i < |records[1..]| && ResumeOf(records[1..][i]) == Some(tail[k]);
          assert records[i + 1] == records[1..][i];
        }
      }
    } else {
      assert Resumes(records) == [];
    }
  }

  /**
    `_load_stream`: the managed stream built from a record whose descriptor
    loads; nothing when the blob manager reports the descriptor invalid.
   */
  function Load(r: FileRecord, fileName: Option<string>, downloadDirectory: Option<string>,
                loadable: map<SdHash, Descriptor>): (s: Option<Stream>)
    ensures s.Some? <==> r.sdHash in loadable
    ensures s.Some? ==> s.value.sdHash == loadable[r.sdHash].sdHash && s.value.descriptor == loadable[r.sdHash]
                        && s.value.fullyReflected == r.fullyReflected && s.value.status == r.status
                        && s.value.fileName == fileName && s.value.downloadDirectory == downloadDirectory
  {
    if r.sdHash !in loadable then None
    else
      var d := loadable[r.sdHash];
      Some(Stream(d.sdHash, downloadDirectory, fileName, r.status, r.claim, r.contentFee, r.rowid, d,
                  r.addedOn, r.fullyReflected))
  }

  /** The stream the start loop loads for a record: its paths decode and its descriptor loads. */
  function Loaded(r: FileRecord, loadable: map<SdHash, Descriptor>): (s: Option<Stream>)
    ensures s.Some? <==> Paths(r).Success? && r.sdHash in loadable
  {
    match Paths(r)
    case Failure(_) => None
    case Success((fileName, downloadDirectory)) => Load(r, fileName, downloadDirectory, loadable)
  }

  /**
    Registry, claim callbacks and resume-saving list after the second loop,
    and the decode error that stopped it, if any.
   */
  datatype Started = Started(registry: map<SdHash, Stream>, callbacks: map<StreamHash, Stream>,
                             resume: seq<Resume>, failure: Option<Hex.HexError>)

  /**
    One record whose paths decoded: it is queued for resume-saving when it
    asks for it, and the stream its descriptor yields is registered with its
    claim callback.
   */
  function StartOne(registry: map<SdHash, Stream>, callbacks: map<StreamHash, Stream>, resume: seq<Resume>,
                    r: FileRecord, fileName: Option<string>, downloadDirectory: Option<string>,
                    loadable: map<SdHash, Descriptor>): Started
  {
    var resume' := if WantsResume(r, fileName, downloadDirectory)
                   then resume + [Resume(fileName.value, downloadDirectory.value, r.sdHash)]
                   else resume;
    match Load(r, fileName, downloadDirectory, loadable)
    case None => Started(registry, callbacks, resume', None)
    case Some(s) => Started(registry[s.sdHash := s], callbacks[s.StreamHash() := s], resume', None)
  }

  /**
    The second loop of `initialize_from_database` over the records to start:
    decode the two paths, queue the record for resume-saving when it asks for
    it, and register the stream its descriptor yields. A path that fails to
    decode raises and ends the loop.
   */
  function StartAll(registry: map<SdHash, Stream>, callbacks: map<StreamHash, Stream>, resume: seq<Resume>,
                    records: seq<FileRecord>, loadable: map<SdHash, Descriptor>): Started
    decreases |records|
  {
    if records == [] then Started(registry, callbacks, resume, None)
    else
      match Paths(records[0])
      case Failure(e) => Started(registry, callbacks, resume, Some(e))
      case Success((fileName, downloadDirectory)) =>
        var n := StartOne(registry, callbacks, resume, records[0], fileName, downloadDirectory, loadable);
        StartAll(n.registry, n.callbacks, n.resume, records[1..], loadable)
  }

  /**
    Whether or not a path fails, entries are only ever added or replaced, and
    the resume list only grows, by at most one entry a record.
   */
  lemma {:induction false} StartGrows(registry: map<SdHash, Stream>, callbacks: map<StreamHash, Stream>,
                                      resume: seq<Resume>, records: seq<FileRecord>, loadable: map<SdHash, Descriptor>)
    ensures var s := StartAll(registry, callbacks, resume, records, loadable);
            registry.Keys <= s.registry.Keys && callbacks.Keys <= s.callbacks.Keys
            && |resume| <= |s.resume| <= |resume| + |records|
    decreases |records|
  {
    if records != [] {
      match Paths(records[0])
      case Failure(_) =>
      case Success((fileName, downloadDirectory)) =>
        var n := StartOne(registry, callbacks, resume, records[0], fileName, downloadDirectory, loadable);
        StartGrows(n.registry, n.callbacks, n.resume, records[1..], loadable);
    }
  }

  /** The sd hashes of the descriptors that the records load. */
  function LoadedKeys(records: seq<FileRecord>, loadable: map<SdHash, Descriptor>): set<SdHash>
  {
    set r | r in records && r.sdHash in loadable :: loadable[r.sdHash].sdHash
  }

  /** The stream hashes of the descriptors that the records load. */
  function LoadedHashes(records: seq<FileRecord>, loadable: map<SdHash, Descriptor>): set<StreamHash>
  {
    set r | r in records && r.sdHash in loadable :: loadable[r.sdHash].streamHash
  }

  /** The loop stops early exactly when some record's paths do not decode. */
  lemma {:induction false} StartFailure(registry: map<SdHash, Stream>, callbacks: map<StreamHash, Stream>,
                                        resume: seq<Resume>, records: seq<FileRecord>, loadable: map<SdHash, Descriptor>)
    ensures StartAll(registry, callbacks, resume, records, loadable).failure.None?
        <==> forall i :: 0 <= i < |records| ==> Paths(records[i]).Success?
    decreases |records|
  {
    if records != [] {
      match Paths(records[0])
      case Failure(_) =>
      case Success((fileName, downloadDirectory)) =>
        var n := StartOne(registry, callbacks, resume, records[0], fileName, downloadDirectory, loadable);
        StartFailure(n.registry, n.callbacks, n.resume, records[1..], loadable);
        assert forall i :: 1 <= i < |records| ==> records[i] == records[1..][i - 1];
    }
  }

  /**
    Record `i` is the last one whose descriptor loads with the sd hash `k`:
    the record whose stream the registry holds under `k` at the end.
   */
  predicate LastLoad(records: seq<FileRecord>, loadable: map<SdHash, Descriptor>, i: int, k: SdHash)
  {
    && 0 <= i < |records| && records[i].sdHash in loadable && loadable[records[i].sdHash].sdHash == k
    && forall j :: i < j < |records| && records[j].sdHash in loadable ==> loadable[records[j].sdHash].sdHash != k
  }

  /**
    Loading keeps every entry under its own sd hash, and when no path fails the
    registry gains exactly one key per record whose descriptor loads, that
    descriptor's sd hash; a record whose descriptor is invalid adds nothing.
   */
  lemma {:induction false} StartRegistry(registry: map<SdHash, Stream>, callbacks: map<StreamHash, Stream>,
                                         resume: seq<Resume>, records: seq<FileRecord>,
                                         loadable: map<SdHash, Descriptor>)
    requires Keyed(registry)
    ensures Keyed(StartAll(registry, callbacks, resume, records, loadable).registry)
    ensures StartAll(registry, callbacks, resume, records, loadable).failure.None? ==>
              StartAll(registry, callbacks, resume, records, loadable).registry.Keys == registry.Keys + LoadedKeys(records, loadable)
    ensures StartAll(registry, callbacks, resume, records, loadable).registry.Keys <= registry.Keys + LoadedKeys(records, loadable)
    decreases |records|
  {
    if records != [] {
      match Paths(records[0])
      case Failure(_) =>
      case Success((fileName, downloadDirectory)) =>
        var n := StartOne(registry, callbacks, resume, records[0], fileName, downloadDirectory, loadable);
        StartRegistry(n.registry, n.callbacks, n.resume, records[1..], loadable);
        LoadedKeysFirst(records, loadable);
        assert Keyed(n.registry);
        assert n.registry.Keys == registry.Keys + if records[0].sdHash in loadable then {loadable[records[0].sdHash].sdHash} else {};
    }
  }

  /** When no path fails, every entry under an sd hash the records do not load is left as it was. */
  lemma {:induction false} StartKept(registry: map<SdHash, Stream>, callbacks: map<StreamHash, Stream>,
                                     resume: seq<Resume>, records: seq<FileRecord>,
                                     loadable: map<SdHash, Descriptor>)
    requires StartAll(registry, callbacks, resume, records, loadable).failure.None?
    ensures var s := StartAll(registry, callbacks, resume, records, loadable);
            forall k :: k in registry && k !in LoadedKeys(records, loadable) ==> k in s.registry && s.registry[k] == registry[k]
    decreases |records|
  {
    if records != [] {
      match Paths(records[0])
      case Failure(_) =>
      case Success((fileName, downloadDirectory)) =>
        var n := StartOne(registry, callbacks, resume, records[0], fileName, downloadDirectory, loadable);
        StartKept(n.registry, n.callbacks, n.resume, records[1..], loadable);
        LoadedKeysFirst(records, loadable);
    }
  }

  /** When no path fails, each sd hash the records load holds the stream of the last record that loads it. */
  lemma {:induction false} StartEntries(registry: map<SdHash, Stream>, callbacks: map<StreamHash, Stream>,
                                        resume: seq<Resume>, records: seq<FileRecord>,
                                        loadable: map<SdHash, Descriptor>)
    requires StartAll(registry, callbacks, resume, records, loadable).failure.None?
    ensures var s := StartAll(registry, callbacks, resume, records, loadable);
            forall k :: k in LoadedKeys(records, loadable) ==>
              k in s.registry && exists i :: LastLoad(records, loadable, i, k) && Loaded(records[i], loadable) == Some(s.registry[k])
    decreases |records|
  {
    if records != [] {
      match Paths(records[0])
      case Failure(_) =>
      case Success((fileName, downloadDirectory)) =>
        var n := StartOne(registry, callbacks, resume, records[0], fileName, downloadDirectory, loadable);
        var rest := records[1..];
        var s := StartAll(registry, callbacks, resume, records, loadable);
        assert s == StartAll(n.registry, n.callbacks, n.resume, rest, loadable);
        StartEntries(n.registry, n.callbacks, n.resume, rest, loadable);
        StartKept(n.registry, n.callbacks, n.resume, rest, loadable);
        LoadedKeysFirst(records, loadable);
        forall k | k in LoadedKeys(records, loadable)
          ensures k in s.registry && exists i :: LastLoad(records, loadable, i, k) && Loaded(records[i], loadable) == Some(s.registry[k])
        {
          if k in LoadedKeys(rest, loadable) {
            var i :| LastLoad(rest, loadable, i, k) && Loaded(rest[i], loadable) == Some(s.registry[k]);
            LastLoadShift(records, loadable, i, k);
          } else {
            FirstIsLast(records, loadable, k);
          }
        }
    }
  }

  /** The last load of `k` among the records after the first is its last load among all of them. */
  lemma LastLoadShift(records: seq<FileRecord>, loadable: map<SdHash, Descriptor>, i: int, k: SdHash)
    requires records != [] && LastLoad(records[1..], loadable, i, k)
    ensures LastLoad(records, loadable, i + 1, k) && records[i + 1] == records[1..][i]
  {
    forall j | i + 1 < j < |records| && records[j].sdHash in loadable
      ensures loadable[records[j].sdHash].sdHash != k
    {
      assert records[j] == records[1..][j - 1];
    }
  }

  /** When no later record loads `k`, the first record, which loads it, is its last load. */
  lemma FirstIsLast(records: seq<FileRecord>, loadable: map<SdHash, Descriptor>, k: SdHash)
    requires records != [] && records[0].sdHash in loadable && loadable[records[0].sdHash].sdHash == k
    requires k !in LoadedKeys(records[1..], loadable)
    ensures LastLoad(records, loadable, 0, k)
  {
    forall j | 0 < j < |records| && records[j].sdHash in loadable
      ensures loadable[records[j].sdHash].sdHash != k
    {
      assert records[j] in records[1..];
    }
  }

  /** The keys the records load: the first record's, then the rest's. */
  lemma LoadedKeysFirst(records: seq<FileRecord>, loadable: map<SdHash, Descriptor>)
    requires records != []
    ensures LoadedKeys(records, loadable)
            == (if records[0].sdHash in loadable then {loadable[records[0].sdHash].sdHash} else {})
               + LoadedKeys(records[1..], loadable)
  {
    assert forall r :: r in records <==> r == records[0] || r in records[1..];
  }

  /** The stream hashes the records load: the first record's, then the rest's. */
  lemma LoadedHashesFirst(records: seq<FileRecord>, loadable: map<SdHash, Descriptor>)
    requires records != []
    ensures LoadedHashes(records, loadable)
            == (if records[0].sdHash in loadable then {loadable[records[0].sdHash].streamHash} else {})
               + LoadedHashes(records[1..], loadable)
  {
    assert forall r :: r in records <==> r == records[0] || r in records[1..];
  }

  /**
    Loading keeps every callback under the stream hash of the stream it
    captured, and every registered stream with a callback.
   */
  lemma {:induction false} StartCallbacks(registry: map<SdHash, Stream>, callbacks: map<StreamHash, Stream>,
                                          resume: seq<Resume>, records: seq<FileRecord>,
                                          loadable: map<SdHash, Descriptor>)
    requires CallbacksKeyed(callbacks)
    requires forall sd :: sd in registry ==> registry[sd].StreamHash() in callbacks
    ensures var s := StartAll(registry, callbacks, resume, records, loadable);
            && CallbacksKeyed(s.callbacks)
            && (forall sd :: sd in s.registry ==> s.registry[sd].StreamHash() in s.callbacks)
    decreases |records|
  {
    if records != [] {
      match Paths(records[0])
      case Failure(_) =>
      case Success((fileName, downloadDirectory)) =>
        var n := StartOne(registry, callbacks, resume, records[0], fileName, downloadDirectory, loadable);
        StartCallbacks(n.registry, n.callbacks, n.resume, records[1..], loadable);
    }
  }

  /**
    Callbacks are only added or replaced: when no path fails, the table gains
    exactly one key per descriptor stream hash the records load.
   */
  lemma {:induction false} StartCallbackKeys(registry: map<SdHash, Stream>, callbacks: map<StreamHash, Stream>,
                                             resume: seq<Resume>, records: seq<FileRecord>,
                                             loadable: map<SdHash, Descriptor>)
    ensures var s := StartAll(registry, callbacks, resume, records, loadable);
            && s.callbacks.Keys <= callbacks.Keys + LoadedHashes(records, loadable)
            && (s.failure.None? ==> s.callbacks.Keys == callbacks.Keys + LoadedHashes(records, loadable))
    decreases |records|
  {
    if records != [] {
      match Paths(records[0])
      case Failure(_) =>
      case Success((fileName, downloadDirectory)) =>
        var n := StartOne(registry, callbacks, resume, records[0], fileName, downloadDirectory, loadable);
        StartCallbackKeys(n.registry, n.callbacks, n.resume, records[1..], loadable);
        LoadedHashesFirst(records, loadable);
        assert n.callbacks.Keys
               == callbacks.Keys + if records[0].sdHash in loadable then {loadable[records[0].sdHash].streamHash} else {};
    }
  }

  /**
    Record `i` is the last one whose descriptor loads with the stream hash `h`:
    the record whose stream the callback under `h` captures at the end.
   */
  predicate LastHashLoad(records: seq<FileRecord>, loadable: map<SdHash, Descriptor>, i: int, h: StreamHash)
  {
    && 0 <= i < |records| && records[i].sdHash in loadable && loadable[records[i].sdHash].streamHash == h
    && forall j :: i < j < |records| && records[j].sdHash in loadable ==> loadable[records[j].sdHash].streamHash != h
  }

  /** When no path fails, a callback under a stream hash that no record loads is left as it was. */
  lemma {:induction false} StartCallbackKept(registry: map<SdHash, Stream>, callbacks: map<StreamHash, Stream>,
                                             resume: seq<Resume>, records: seq<FileRecord>,
                                             loadable: map<SdHash, Descriptor>)
    requires StartAll(registry, callbacks, resume, records, loadable).failure.None?
    ensures var s := StartAll(registry, callbacks, resume, records, loadable);
            forall h :: h in callbacks && h !in LoadedHashes(records, loadable) ==> h in s.callbacks && s.callbacks[h] == callbacks[h]
    decreases |records|
  {
    if records != [] {
      match Paths(records[0])
      case Failure(_) =>
      case Success((fileName, downloadDirectory)) =>
        var n := StartOne(registry, callbacks, resume, records[0], fileName, downloadDirectory, loadable);
        StartCallbackKept(n.registry, n.callbacks, n.resume, records[1..], loadable);
        LoadedHashesFirst(records, loadable);
    }
  }

  /** When no path fails, the callback under each stream hash the records load captures the stream of the last record that loads it. */
  lemma {:induction false} StartCallbackEntries(registry: map<SdHash, Stream>, callbacks: map<StreamHash, Stream>,
                                                resume: seq<Resume>, records: seq<FileRecord>,
                                                loadable: map<SdHash, Descriptor>)
    requires StartAll(registry, callbacks, resume, records, loadable).failure.None?
    ensures var s := StartAll(registry, callbacks, resume, records, loadable);
            forall h :: h in LoadedHashes(records, loadable) ==>
              h in s.callbacks && exists i :: LastHashLoad(records, loadable, i, h) && Loaded(records[i], loadable) == Some(s.callbacks[h])
    decreases |records|
  {
    if records != [] {
      match Paths(records[0])
      case Failure(_) =>
      case Success((fileName, downloadDirectory)) =>
        var n := StartOne(registry, callbacks, resume, records[0], fileName, downloadDirectory, loadable);
        var rest := records[1..];
        var s := StartAll(registry, callbacks, resume, records, loadable);
        assert s == StartAll(n.registry, n.callbacks, n.resume, rest, loadable);
        StartCallbackEntries(n.registry, n.callbacks, n.resume, rest, loadable);
        StartCallbackKept(n.registry, n.callbacks, n.resume, rest, loadable);
        LoadedHashesFirst(records, loadable);
        forall h | h in LoadedHashes(records, loadable)
          ensures h in s.callbacks && exists i :: LastHashLoad(records, loadable, i, h) && Loaded(records[i], loadable) == Some(s.callbacks[h])
        {
          if h in LoadedHashes(rest, loadable) {
            var i :| LastHashLoad(rest, loadable, i, h) && Loaded(rest[i], loadable) == Some(s.callbacks[h]);
            LastHashLoadShift(records, loadable, i, h);
          } else {
            FirstHashIsLast(records, loadable, h);
          }
        }
    }
  }

  /** The last load of `h` among the records after the first is its last load among all of them. */
  lemma LastHashLoadShift(records: seq<FileRecord>, loadable: map<SdHash, Descriptor>, i: int, h: StreamHash)
    requires records != [] && LastHashLoad(records[1..], loadable, i, h)
    ensures LastHashLoad(records, loadable, i + 1, h) && records[i + 1] == records[1..][i]
  {
    forall j | i + 1 < j < |records| && records[j].sdHash in loadable
      ensures loadable[records[j].sdHash].streamHash != h
    {
      assert records[j] == records[1..][j - 1];
    }
  }

  /** When no later record loads `h`, the first record, which loads it, is its last load. */
  lemma FirstHashIsLast(records: seq<FileRecord>, loadable: map<SdHash, Descriptor>, h: StreamHash)
    requires records != [] && records[0].sdHash in loadable && loadable[records[0].sdHash].streamHash == h
    requires h !in LoadedHashes(records[1..], loadable)
    ensures LastHashLoad(records, loadable, 0, h)
  {
    forall j | 0 < j < |records| && records[j].sdHash in loadable
      ensures loadable[records[j].sdHash].streamHash != h
    {
      assert records[j] in records[1..];
    }
  }

  /**
    When no path fails, the resume-saving list grows by exactly the entries of
    the records that ask for one, in record order.
   */
  lemma {:induction false} StartResume(registry: map<SdHash, Stream>, callbacks: map<StreamHash, Stream>,
                                       resume: seq<Resume>, records: seq<FileRecord>,
                                       loadable: map<SdHash, Descriptor>)
    requires StartAll(registry, callbacks, resume, records, loadable).failure.None?
    ensures StartAll(registry, callbacks, resume, records, loadable).resume == resume + Resumes(records)
    ensures forall r :: r in records && ResumeOf(r).Some? ==>
              ResumeOf(r).value in StartAll(registry, callbacks, resume, records, loadable).resume
    ensures forall j :: |resume| <= j < |StartAll(registry, callbacks, resume, records, loadable).resume| ==>
              exists r :: r in records && ResumeOf(r) == Some(StartAll(registry, callbacks, resume, records, loadable).resume[j])
  {
    StartResumeOrder(registry, callbacks, resume, records, loadable);
    ResumesComplete(records);
    ResumesSound(records);
    var result := StartAll(registry, callbacks, resume, records, loadable).resume;
    forall r | r in records && ResumeOf(r).Some? ensures ResumeOf(r).value in result {
      var i :| 0 <= i < |records| && records[i] == r;
    }
    forall j | |resume| <= j < |result| ensures exists r :: r in records && ResumeOf(r) == Some(result[j]) {
      assert result[j] == Resumes(records)[j - |resume|];
      var i :| 0 <= i < |records| && ResumeOf(records[i]) == Some(Resumes(records)[j - |resume|]);
      assert records[i] in records;
    }
  }

  /** The resume list after the loop is the one before it followed by `Resumes(records)`. */
  lemma {:induction false} StartResumeOrder(registry: map<SdHash, Stream>, callbacks: map<StreamHash, Stream>,
                                            resume: seq<Resume>, records: seq<FileRecord>,
                                            loadable: map<SdHash, Descriptor>)
    requires StartAll(registry, callbacks, resume, records, loadable).failure.None?
    ensures StartAll(registry, callbacks, resume, records, loadable).resume == resume + Resumes(records)
    decreases |records|
  {
    if records != [] {
      match Paths(records[0])
      case Failure(_) =>
      case Success((fileName, downloadDirectory)) =>
        var n := StartOne(registry, callbacks, resume, records[0], fileName, downloadDirectory, loadable);
        StartResumeOrder(n.registry, n.callbacks, n.resume, records[1..], loadable);
        var head := Entry(records[0]);
        assert n.resume == resume + head;
        assert Resumes(records) == head + Resumes(records[1..]);
        Concat(resume, head, Resumes(records[1..]));
    }
  }

  /**
    The first resume-saving entry whose stream is not registered: the registry
    lookup that builds the saving calls raises on it.
   */
  function FirstMissing(resume: seq<Resume>, registry: map<SdHash, Stream>): (m: Option<SdHash>)
    ensures m.None? <==> forall j :: 0 <= j < |resume| ==> resume[j].sdHash in registry
    ensures m.Some? ==> m.value !in registry && exists j :: 0 <= j < |resume| && resume[j].sdHash == m.value
  {
    if resume == [] then None
    else if resume[0].sdHash !in registry then Some(resume[0].sdHash)
    else
      var m := FirstMissing(resume[1..], registry);
      assert m.Some? ==> exists j :: 0 <= j < |resume[1..]| && resume[1..][j].sdHash == m.value;
      assert forall j :: 1 <= j < |resume| ==> resume[j] == resume[1..][j - 1];
      m
  }

  /** Every record's two name columns are well-formed hex. */
  predicate Decodes(records: seq<FileRecord>)
  {
    forall i :: 0 <= i < |records| ==> RecoveryArgs(records[i]).Success?
  }

  /**
    How the start phase ends: the decode error that stopped the loop, else the
    first queued file whose stream is not registered, else success.
   */
  function Outcome(s: Started): (err: Option<ManagerError>)
    ensures err.None? <==> s.failure.None? && forall j :: 0 <= j < |s.resume| ==> s.resume[j].sdHash in s.registry
    ensures s.failure.Some? ==> err == Some(MalformedHex(s.failure.value))
    ensures s.failure.None? && err.Some? ==>
              err.value.UnknownStream? && err.value.sdHash !in s.registry
              && exists j :: 0 <= j < |s.resume| && s.resume[j].sdHash == err.value.sdHash
  {
    if s.failure.Some? then Some(MalformedHex(s.failure.value))
    else match FirstMissing(s.resume, s.registry)
         case None => None
         case Some(sd) => Some(UnknownStream(sd))
  }
}
