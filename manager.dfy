/**
  The stream manager: the registry of managed streams keyed by sd hash, the
  table of in-flight reflector uploads, the claim-callback table, the pending
  notification futures, the two background handles and the started flag.
 */
module Manager {
  import opened Wrappers
  import opened Streams
  import Hex
  import Reflection
  import Startup

  /**
    The in-flight upload table against the task handles: every entry names an
    upload task for its own sd hash, and every upload task still in flight is
    the entry of its sd hash.
   */
  ghost predicate UploadTable(uploads: map<SdHash, TaskId>, tasks: map<TaskId, Task>)
  {
    && (forall sd :: sd in uploads ==>
          uploads[sd] in tasks && tasks[uploads[sd]].kind.Upload? && tasks[uploads[sd]].kind.sdHash == sd)
    && (forall t :: t in tasks && tasks[t].kind.Upload? && tasks[t].InFlight() ==>
          tasks[t].kind.sdHash in uploads && uploads[tasks[t].kind.sdHash] == t)
  }

  /** At most one upload per sd hash is in flight. */
  lemma AtMostOneInFlight(uploads: map<SdHash, TaskId>, tasks: map<TaskId, Task>, t1: TaskId, t2: TaskId)
    requires UploadTable(uploads, tasks)
    requires t1 in tasks && t2 in tasks
    requires tasks[t1].kind.Upload? && tasks[t1].InFlight()
    requires tasks[t2].kind.Upload? && tasks[t2].InFlight()
    requires tasks[t1].kind.sdHash == tasks[t2].kind.sdHash
    ensures t1 == t2
  {
  }

  /** The task table after cancelling every task of `ts`. */
  function CancelAll(tasks: map<TaskId, Task>, ts: set<TaskId>): (r: map<TaskId, Task>)
    ensures r.Keys == tasks.Keys
    ensures forall t :: t in tasks && t !in ts ==> r[t] == tasks[t]
    ensures forall t :: t in tasks && t in ts ==> !r[t].InFlight() && r[t].kind == tasks[t].kind
  {
    map t | t in tasks :: if t in ts then tasks[t].Cancel() else tasks[t]
  }

  /** The task table after every task of `ts` completed. */
  function FinishAll(tasks: map<TaskId, Task>, ts: set<TaskId>): (r: map<TaskId, Task>)
    ensures r.Keys == tasks.Keys
  {
    map t | t in tasks :: if t in ts then tasks[t].(done := true) else tasks[t]
  }

  /** The upload table without the entries that hold one of `ts`. */
  function Without(uploads: map<SdHash, TaskId>, ts: set<TaskId>): (r: map<SdHash, TaskId>)
    ensures forall sd :: sd in r <==> sd in uploads && uploads[sd] !in ts
  {
    map sd | sd in uploads && uploads[sd] !in ts :: uploads[sd]
  }

  /** With the table empty, no upload is in flight. */
  lemma NoneInFlight(tasks: map<TaskId, Task>)
    requires UploadTable(map[], tasks)
    ensures forall t :: t in tasks && tasks[t].kind.Upload? ==> !tasks[t].InFlight()
  {
  }

  /** Cancelling is idempotent, so two rounds of cancellation are one round over the union. */
  lemma CancelChain(t0: map<TaskId, Task>, t1: map<TaskId, Task>, t2: map<TaskId, Task>, a: set<TaskId>, b: set<TaskId>)
    requires t1 == CancelAll(t0, a) && t2 == CancelAll(t1, b)
    ensures t2 == CancelAll(t0, a + b)
  {
  }

  lemma CancelMore(tasks: map<TaskId, Task>, ts: set<TaskId>, t: TaskId)
    requires t in tasks
    ensures CancelAll(tasks, ts + {t}) == CancelAll(tasks, ts)[t := CancelAll(tasks, ts)[t].Cancel()]
  {
  }

  lemma FinishMore(tasks: map<TaskId, Task>, ts: set<TaskId>, t: TaskId)
    requires t in tasks
    ensures FinishAll(tasks, ts + {t}) == FinishAll(tasks, ts)[t := FinishAll(tasks, ts)[t].(done := true)]
  {
  }

  lemma WithoutMore(uploads: map<SdHash, TaskId>, ts: set<TaskId>, t: TaskId)
    ensures Without(uploads, ts + {t}) == Without(Without(uploads, ts), {t})
  {
  }

  /** Under the table invariant, dropping the entry of a completed upload drops exactly the entries holding it. */
  lemma CompleteDrops(uploads: map<SdHash, TaskId>, tasks: map<TaskId, Task>, t: TaskId)
    requires UploadTable(uploads, tasks) && t in tasks
    ensures var k := tasks[t].kind;
            Without(uploads, {t}) == if k.Upload? && k.sdHash in uploads && uploads[k.sdHash] == t
                                     then uploads - {k.sdHash} else uploads
  {
  }

  /** Dropping an entry and cancelling its task keeps the table invariant. */
  lemma DropUpload(uploads: map<SdHash, TaskId>, tasks: map<TaskId, Task>, sd: SdHash)
    requires UploadTable(uploads, tasks) && sd in uploads
    ensures UploadTable(uploads - {sd}, tasks[uploads[sd] := tasks[uploads[sd]].Cancel()])
  {
  }

  /**
    Part way through cancelling the upload table `u0`: the remaining entries
    are entries of `u0`, every other entry's task is among the cancelled ones,
    and exactly those are cancelled in `t0`.
   */
  ghost predicate Draining(uploads: map<SdHash, TaskId>, tasks: map<TaskId, Task>,
                           u0: map<SdHash, TaskId>, t0: map<TaskId, Task>, dropped: set<TaskId>)
  {
    && UploadTable(uploads, tasks)
    && (forall sd :: sd in uploads ==> sd in u0 && uploads[sd] == u0[sd])
    && (forall sd :: sd in u0 ==> sd in uploads || u0[sd] in dropped)
    && dropped <= u0.Values
    && tasks == CancelAll(t0, dropped)
  }

  lemma DrainStart(uploads: map<SdHash, TaskId>, tasks: map<TaskId, Task>)
    requires UploadTable(uploads, tasks)
    ensures Draining(uploads, tasks, uploads, tasks, {})
  {
    assert tasks == CancelAll(tasks, {});
  }

  /** Popping one more entry and cancelling its task. */
  lemma DrainStep(uploads: map<SdHash, TaskId>, tasks: map<TaskId, Task>,
                  u0: map<SdHash, TaskId>, t0: map<TaskId, Task>, dropped: set<TaskId>, sd: SdHash)
    requires Draining(uploads, tasks, u0, t0, dropped) && sd in uploads
    ensures Draining(uploads - {sd}, tasks[uploads[sd] := tasks[uploads[sd]].Cancel()], u0, t0, dropped + {uploads[sd]})
  {
    DropUpload(uploads, tasks, sd);
    CancelMore(t0, dropped, uploads[sd]);
  }

  /** With the table empty, every task of `u0` is cancelled. */
  lemma DrainEnd(tasks: map<TaskId, Task>, u0: map<SdHash, TaskId>, t0: map<TaskId, Task>, dropped: set<TaskId>)
    requires Draining(map[], tasks, u0, t0, dropped)
    ensures tasks == CancelAll(t0, u0.Values)
  {
    assert dropped == u0.Values;
  }

  /**
    The state inside one reflection cycle, against the upload table `u0` and
    the task table `t0` it started from: the current batch's uploads are in
    flight and recorded in the table beside the entries of `u0`, and every
    other task created since has completed.
   */
  ghost predicate InBatch(uploads: map<SdHash, TaskId>, tasks: map<TaskId, Task>,
                          u0: map<SdHash, TaskId>, t0: map<TaskId, Task>, batch: seq<SdHash>, batchTasks: seq<TaskId>)
  {
    && uploads.Keys == u0.Keys + Members(batch)
    && (forall sd :: sd in u0 ==> uploads[sd] == u0[sd])
    && (forall i :: 0 <= i < |batch| ==> batch[i] !in u0)
    && (forall i, j :: 0 <= i < j < |batch| ==> batch[i] != batch[j])
    && |batchTasks| == |batch|
    && (forall i :: 0 <= i < |batch| ==>
          && batch[i] in uploads && uploads[batch[i]] == batchTasks[i]
          && batchTasks[i] !in t0 && batchTasks[i] in tasks && tasks[batchTasks[i]].InFlight())
    && (forall t :: t in t0 ==> t in tasks && tasks[t] == t0[t])
    && (forall t :: t in tasks && t !in t0 ==> tasks[t].kind.Upload? && (tasks[t].done || t in batchTasks))
  }

  /** Starting one more upload, under a fresh id, for a stream not in the table extends the batch. */
  lemma BatchAdd(uploads: map<SdHash, TaskId>, tasks: map<TaskId, Task>, next: TaskId,
                 u0: map<SdHash, TaskId>, t0: map<TaskId, Task>, batch: seq<SdHash>, batchTasks: seq<TaskId>,
                 sd: SdHash, target: (string, int))
    requires InBatch(uploads, tasks, u0, t0, batch, batchTasks)
    requires forall t :: t in tasks ==> t < next
    requires sd !in uploads
    ensures InBatch(uploads[sd := next], tasks[next := Task(Upload(sd, target.0, target.1), false, false)],
                    u0, t0, batch + [sd], batchTasks + [next])
  {
    assert Members(batch + [sd]) == Members(batch) + {sd};
    assert next !in tasks;
  }

  /** The batch's uploads are distinct tasks still running: `Gather` may await them. */
  lemma BatchDistinct(uploads: map<SdHash, TaskId>, tasks: map<TaskId, Task>,
                      u0: map<SdHash, TaskId>, t0: map<TaskId, Task>, batch: seq<SdHash>, batchTasks: seq<TaskId>)
    requires UploadTable(uploads, tasks) && InBatch(uploads, tasks, u0, t0, batch, batchTasks)
    ensures forall i, j :: 0 <= i < j < |batchTasks| ==> batchTasks[i] != batchTasks[j]
    ensures forall i :: 0 <= i < |batchTasks| ==> batchTasks[i] in tasks && !tasks[batchTasks[i]].done
  {
    forall i, j | 0 <= i < j < |batchTasks| ensures batchTasks[i] != batchTasks[j] {
      assert tasks[batchTasks[i]].kind.sdHash == batch[i];
      assert tasks[batchTasks[j]].kind.sdHash == batch[j];
    }
  }

  /** Completing the batch's uploads drops exactly their entries, which leaves the table of `u0`. */
  lemma BatchFlush(uploads: map<SdHash, TaskId>, tasks: map<TaskId, Task>,
                   u0: map<SdHash, TaskId>, t0: map<TaskId, Task>, batch: seq<SdHash>, batchTasks: seq<TaskId>)
    requires UploadTable(uploads, tasks) && InBatch(uploads, tasks, u0, t0, batch, batchTasks)
    ensures InBatch(Without(uploads, Members(batchTasks)), FinishAll(tasks, Members(batchTasks)), u0, t0, [], [])
  {
    assert forall sd :: sd in uploads && uploads[sd] in Members(batchTasks) ==> sd in batch;
    assert Members<SdHash>([]) == {};
  }

  /** A cycle starts with an empty batch. */
  lemma BatchStart(uploads: map<SdHash, TaskId>, tasks: map<TaskId, Task>)
    ensures InBatch(uploads, tasks, uploads, tasks, [], [])
  {
    assert Members<SdHash>([]) == {};
  }

  /** With an empty batch, the upload table is the one the cycle started from. */
  lemma BatchEmpty(uploads: map<SdHash, TaskId>, tasks: map<TaskId, Task>, u0: map<SdHash, TaskId>, t0: map<TaskId, Task>)
    requires InBatch(uploads, tasks, u0, t0, [], [])
    ensures uploads == u0
    ensures forall t :: t in tasks && t !in t0 ==> tasks[t].kind.Upload? && tasks[t].done
  {
    assert Members<SdHash>([]) == {};
  }

  /** An upload task for `sd` that ran to completion. */
  predicate UploadDone(task: Task, sd: SdHash)
  {
    task.kind.Upload? && task.kind.sdHash == sd && task.done && !task.cancelled
  }

  /** The task ids recorded in `created`, as a set. */
  ghost function Ids(created: seq<seq<TaskId>>): set<TaskId>
  {
    set k, i | 0 <= k < |created| && 0 <= i < |created[k]| :: created[k][i]
  }

  /**
    `created` has the shape of `batches`, and `created[k][i]` is a task made
    since `t0` for the upload of `batches[k][i]`, which has completed.
   */
  ghost predicate Uploaded(tasks: map<TaskId, Task>, t0: map<TaskId, Task>,
                           batches: seq<seq<SdHash>>, created: seq<seq<TaskId>>)
  {
    && |created| == |batches|
    && (forall k :: 0 <= k < |created| ==> |created[k]| == |batches[k]|)
    && (forall k, i :: 0 <= k < |created| && 0 <= i < |created[k]| ==>
          created[k][i] !in t0 && created[k][i] in tasks && UploadDone(tasks[created[k][i]], batches[k][i]))
  }

  /** The ids of `created` grow strictly, batch by batch and within a batch, so they are distinct. */
  ghost predicate InOrder(created: seq<seq<TaskId>>)
  {
    forall k1, i1, k2, i2 ::
      && 0 <= k1 < |created| && 0 <= i1 < |created[k1]| && 0 <= k2 < |created| && 0 <= i2 < |created[k2]|
      && (k1 < k2 || (k1 == k2 && i1 < i2))
      ==> created[k1][i1] < created[k2][i2]
  }

  /**
    The uploads of a cycle so far, against the task table `t0` it started
    from: the awaited batches' tasks as `Uploaded` says, in order, followed by
    the current batch's tasks in order; no other task was created.
   */
  ghost predicate Awaited(tasks: map<TaskId, Task>, t0: map<TaskId, Task>,
                          batches: seq<seq<SdHash>>, created: seq<seq<TaskId>>, batchTasks: seq<TaskId>)
  {
    && Uploaded(tasks, t0, batches, created)
    && InOrder(created)
    && (forall k, i, j :: 0 <= k < |created| && 0 <= i < |created[k]| && 0 <= j < |batchTasks| ==>
          created[k][i] < batchTasks[j])
    && (forall i, j :: 0 <= i < j < |batchTasks| ==> batchTasks[i] < batchTasks[j])
    && tasks.Keys == t0.Keys + Ids(created) + Members(batchTasks)
  }

  lemma AwaitStart(tasks: map<TaskId, Task>)
    ensures Awaited(tasks, tasks, [], [], [])
  {
    assert Ids([]) == {};
    assert Members<TaskId>([]) == {};
  }

  /** With no current batch, the tasks made since `t0` are exactly the awaited ones. */
  lemma AwaitEnd(tasks: map<TaskId, Task>, t0: map<TaskId, Task>, batches: seq<seq<SdHash>>, created: seq<seq<TaskId>>)
    requires Awaited(tasks, t0, batches, created, [])
    ensures tasks.Keys == t0.Keys + Ids(created)
  {
    assert Members<TaskId>([]) == {};
  }

  /** A task created under a fresh id larger than every other joins the current batch. */
  lemma AwaitAdd(tasks: map<TaskId, Task>, t0: map<TaskId, Task>, batches: seq<seq<SdHash>>,
                 created: seq<seq<TaskId>>, batchTasks: seq<TaskId>, next: TaskId, task: Task)
    requires Awaited(tasks, t0, batches, created, batchTasks)
    requires forall t :: t in tasks ==> t < next
    ensures Awaited(tasks[next := task], t0, batches, created, batchTasks + [next])
  {
    assert Members(batchTasks + [next]) == Members(batchTasks) + {next};
    forall j | 0 <= j < |batchTasks| ensures batchTasks[j] < next {
      assert batchTasks[j] in Members(batchTasks);
    }
  }

  /** Appending a batch of ids adds exactly its members to `Ids`. */
  lemma IdsAppend(created: seq<seq<TaskId>>, batchTasks: seq<TaskId>)
    ensures Ids(created + [batchTasks]) == Ids(created) + Members(batchTasks)
  {
    var created' := created + [batchTasks];
    forall x | x in Ids(created') ensures x in Ids(created) + Members(batchTasks) {
      var k, i :| 0 <= k < |created'| && 0 <= i < |created'[k]| && created'[k][i] == x;
      if k < |created| {
        assert created[k][i] == x;
      } else {
        assert batchTasks[i] == x;
      }
    }
    forall x | x in Ids(created) ensures x in Ids(created') {
      var k, i :| 0 <= k < |created| && 0 <= i < |created[k]| && created[k][i] == x;
      assert created'[k][i] == x;
    }
    forall x | x in Members(batchTasks) ensures x in Ids(created') {
      var j :| 0 <= j < |batchTasks| && batchTasks[j] == x;
      assert created'[|created|][j] == x;
    }
  }

  /** A batch of increasing ids above every id of `created` keeps the order when appended. */
  lemma InOrderAppend(created: seq<seq<TaskId>>, batchTasks: seq<TaskId>)
    requires InOrder(created)
    requires forall k, i, j :: 0 <= k < |created| && 0 <= i < |created[k]| && 0 <= j < |batchTasks| ==>
               created[k][i] < batchTasks[j]
    requires forall i, j :: 0 <= i < j < |batchTasks| ==> batchTasks[i] < batchTasks[j]
    ensures InOrder(created + [batchTasks])
  {
    var created' := created + [batchTasks];
    forall k1, i1, k2, i2 |
      && 0 <= k1 < |created'| && 0 <= i1 < |created'[k1]| && 0 <= k2 < |created'| && 0 <= i2 < |created'[k2]|
      && (k1 < k2 || (k1 == k2 && i1 < i2))
      ensures created'[k1][i1] < created'[k2][i2]
    {
      if k2 < |created| {
        assert created'[k1][i1] == created[k1][i1] && created'[k2][i2] == created[k2][i2];
      } else if k1 < |created| {
        assert created'[k1][i1] == created[k1][i1] && created'[k2][i2] == batchTasks[i2];
      } else {
        assert created'[k1][i1] == batchTasks[i1] && created'[k2][i2] == batchTasks[i2];
      }
    }
  }

  /** Completing the current batch's uploads makes them the next awaited batch. */
  lemma AwaitFlush(tasks: map<TaskId, Task>, t0: map<TaskId, Task>, batches: seq<seq<SdHash>>,
                   created: seq<seq<TaskId>>, batch: seq<SdHash>, batchTasks: seq<TaskId>)
    requires Awaited(tasks, t0, batches, created, batchTasks)
    requires |batchTasks| == |batch|
    requires forall i :: 0 <= i < |batch| ==>
               && batchTasks[i] !in t0 && batchTasks[i] in tasks
               && tasks[batchTasks[i]].kind.Upload? && tasks[batchTasks[i]].kind.sdHash == batch[i]
               && !tasks[batchTasks[i]].cancelled
    ensures Awaited(FinishAll(tasks, Members(batchTasks)), t0, batches + [batch], created + [batchTasks], [])
  {
    var tasks', batches', created' := FinishAll(tasks, Members(batchTasks)), batches + [batch], created + [batchTasks];
    forall k, i | 0 <= k < |created'| && 0 <= i < |created'[k]|
      ensures created'[k][i] !in t0 && created'[k][i] in tasks' && UploadDone(tasks'[created'[k][i]], batches'[k][i])
    {
      if k < |created| {
        assert created'[k][i] == created[k][i] && batches'[k][i] == batches[k][i];
      }
    }
    IdsAppend(created, batchTasks);
    InOrderAppend(created, batchTasks);
    assert Members<TaskId>([]) == {};
  }

  /** An upload task sent to the server that `random.choice` over `servers` gives for `pick`. */
  predicate Aimed(task: Task, servers: seq<(string, int)>, pick: nat)
  {
    task.kind.Upload? && ChooseServer(servers, pick) == Success((task.kind.server, task.kind.port))
  }

  /** The current batch's tasks each go to the server chosen for their stream. */
  ghost predicate Aiming(tasks: map<TaskId, Task>, servers: seq<(string, int)>, choose: SdHash -> nat,
                         batch: seq<SdHash>, batchTasks: seq<TaskId>)
  {
    && |batchTasks| == |batch|
    && forall i :: 0 <= i < |batch| ==> batchTasks[i] in tasks && Aimed(tasks[batchTasks[i]], servers, choose(batch[i]))
  }

  /** The awaited batches' tasks each went to the server chosen for their stream. */
  ghost predicate Sent(tasks: map<TaskId, Task>, servers: seq<(string, int)>, choose: SdHash -> nat,
                       batches: seq<seq<SdHash>>, created: seq<seq<TaskId>>)
  {
    && |created| == |batches|
    && (forall k :: 0 <= k < |created| ==> |created[k]| == |batches[k]|)
    && forall k, i :: 0 <= k < |created| && 0 <= i < |created[k]| ==>
         created[k][i] in tasks && Aimed(tasks[created[k][i]], servers, choose(batches[k][i]))
  }

  /** A task aimed at its stream's server, under a fresh id, joins the current batch. */
  lemma AimAdd(tasks: map<TaskId, Task>, servers: seq<(string, int)>, choose: SdHash -> nat,
               batches: seq<seq<SdHash>>, created: seq<seq<TaskId>>, batch: seq<SdHash>, batchTasks: seq<TaskId>,
               sd: SdHash, next: TaskId, task: Task)
    requires Sent(tasks, servers, choose, batches, created) && Aiming(tasks, servers, choose, batch, batchTasks)
    requires next !in tasks && Aimed(task, servers, choose(sd))
    ensures Sent(tasks[next := task], servers, choose, batches, created)
    ensures Aiming(tasks[next := task], servers, choose, batch + [sd], batchTasks + [next])
  {
  }

  /** Completing the current batch's tasks keeps where they went, and they join the awaited ones. */
  lemma AimFlush(tasks: map<TaskId, Task>, servers: seq<(string, int)>, choose: SdHash -> nat,
                 batches: seq<seq<SdHash>>, created: seq<seq<TaskId>>, batch: seq<SdHash>, batchTasks: seq<TaskId>)
    requires Sent(tasks, servers, choose, batches, created) && Aiming(tasks, servers, choose, batch, batchTasks)
    ensures Sent(FinishAll(tasks, Members(batchTasks)), servers, choose, batches + [batch], created + [batchTasks])
  {
    var tasks', batches', created' := FinishAll(tasks, Members(batchTasks)), batches + [batch], created + [batchTasks];
    forall k, i | 0 <= k < |created'| && 0 <= i < |created'[k]|
      ensures created'[k][i] in tasks' && Aimed(tasks'[created'[k][i]], servers, choose(batches'[k][i]))
    {
      if k < |created| {
        assert created'[k][i] == created[k][i] && batches'[k][i] == batches[k][i];
      } else {
        assert created'[k][i] == batchTasks[i] && batches'[k][i] == batch[i];
      }
    }
  }

  /** The ids from `lo` up to, but not including, `hi`. */
  function Range(lo: nat, hi: nat): (r: set<TaskId>)
    ensures forall t :: t in r <==> lo <= t < hi
    decreases hi
  {
    if hi <= lo then {} else Range(lo, hi - 1) + {hi - 1}
  }

  /** The ids handed out since `n0` are exactly those of the awaited and the current batches. */
  ghost predicate Counted(n0: TaskId, next: TaskId, created: seq<seq<TaskId>>, batchTasks: seq<TaskId>)
  {
    n0 <= next && Ids(created) + Members(batchTasks) == Range(n0, next)
  }

  lemma CountAdd(n0: TaskId, next: TaskId, created: seq<seq<TaskId>>, batchTasks: seq<TaskId>)
    requires Counted(n0, next, created, batchTasks)
    ensures Counted(n0, next + 1, created, batchTasks + [next])
  {
    assert Members(batchTasks + [next]) == Members(batchTasks) + {next};
    assert Range(n0, next + 1) == Range(n0, next) + {next};
  }

  lemma CountFlush(n0: TaskId, next: TaskId, created: seq<seq<TaskId>>, batchTasks: seq<TaskId>)
    requires Counted(n0, next, created, batchTasks)
    ensures Counted(n0, next, created + [batchTasks], [])
  {
    IdsAppend(created, batchTasks);
    assert Members<TaskId>([]) == {};
  }

  /** The storage call `recover_streams` makes: none unless every record decodes and some recovery succeeds. */
  ghost function RecoveryLog(records: seq<FileRecord>, recover: Recovery -> Option<Descriptor>, downloadDir: string): seq<Effect>
  {
    if records == [] || !Startup.Decodes(records) then []
    else
      var restored := Startup.Restorable(records, recover);
      if restored == {} then [] else [StoreRecovered(restored, downloadDir)]
  }

  class StreamManager {
    const config: Config
    /** `_sources` (also reached as `streams`): the registry, keyed by sd hash. */
    var streams: map<SdHash, Stream>
    /** `running_reflector_uploads`: the upload task of each sd hash being reflected. */
    var uploads: map<SdHash, TaskId>
    /** `storage.content_claim_callbacks`: each entry re-reads the claim of the stream it captured. */
    var claimCallbacks: map<StreamHash, Stream>
    /** `update_stream_finished_futs`. */
    var finishedFuts: seq<TaskId>
    var resumeSavingTask: Option<TaskId>
    var reReflectTask: Option<TaskId>
    var started: bool
    /** Every task handle created so far, by id; `nextTask` is the next fresh id. */
    var tasks: map<TaskId, Task>
    var nextTask: TaskId
    /** The calls issued to the blob manager, the storage and the streams, in order. */
    var effects: seq<Effect>

    ghost predicate Valid()
      reads this
    {
      && Keyed(streams)
      && CallbacksKeyed(claimCallbacks)
      && (forall sd :: sd in streams ==> streams[sd].StreamHash() in claimCallbacks)
      && UploadTable(uploads, tasks)
      && (forall t :: t in tasks ==> t < nextTask)
      && (forall i :: 0 <= i < |finishedFuts| ==> finishedFuts[i] in tasks)
      && (resumeSavingTask.Some? ==> resumeSavingTask.value in tasks)
      && (reReflectTask.Some? ==> reReflectTask.value in tasks)
    }

    constructor (config: Config)
      ensures Valid() && this.config == config
      ensures streams == map[] && uploads == map[] && claimCallbacks == map[] && finishedFuts == []
      ensures resumeSavingTask == None && reReflectTask == None && !started
      ensures tasks == map[] && effects == []
    {
      this.config := config;
      streams, uploads, claimCallbacks, finishedFuts := map[], map[], map[], [];
      resumeSavingTask, reReflectTask, started := None, None, false;
      tasks, nextTask, effects := map[], 0, [];
    }

    /** `add`: registers the stream under its sd hash and installs its claim callback. */
    method Add(source: Stream)
      requires Valid()
      modifies this`streams, this`claimCallbacks
      ensures Valid()
      ensures streams == old(streams)[source.sdHash := source]
      ensures claimCallbacks == old(claimCallbacks)[source.StreamHash() := source]
    {
      streams := streams[source.sdHash := source];
      claimCallbacks := claimCallbacks[source.StreamHash() := source];
    }

    /**
      `_update_content_claim`, run by the callback that captured `stream`: the
      claim read from storage is applied to the registry entry for the stream's
      sd hash, which is `stream` itself when that entry is absent. A missing
      claim raises only after that entry has been inserted.
     */
    method UpdateContentClaim(stream: Stream, claimInfo: Option<ClaimInfo>) returns (err: Option<ManagerError>)
      requires Valid()
      requires stream.StreamHash() in claimCallbacks
      modifies this`streams
      ensures Valid()
      ensures err.Some? <==> claimInfo.None?
      ensures err.Some? ==> err.value == NoContentClaim
      ensures var entry := if stream.sdHash in old(streams) then old(streams)[stream.sdHash] else stream;
              streams == old(streams)[stream.sdHash := if claimInfo.Some? then entry.(claim := claimInfo) else entry]
    {
      if stream.sdHash !in streams {
        streams := streams[stream.sdHash := stream];
      }
      if claimInfo.None? {
        return Some(NoContentClaim);
      }
      var entry := streams[stream.sdHash];
      streams := streams[stream.sdHash := entry.(claim := claimInfo)];
      return None;
    }

    /** The storage invoking the callback installed for `streamHash`. */
    method FireClaimCallback(streamHash: StreamHash, claimInfo: Option<ClaimInfo>) returns (err: Option<ManagerError>)
      requires Valid()
      requires streamHash in claimCallbacks
      modifies this`streams
      ensures Valid()
      ensures err.Some? <==> claimInfo.None?
      ensures var s := old(claimCallbacks)[streamHash];
              var entry := if s.sdHash in old(streams) then old(streams)[s.sdHash] else s;
              streams == old(streams)[s.sdHash := if claimInfo.Some? then entry.(claim := claimInfo) else entry]
    {
      err := UpdateContentClaim(claimCallbacks[streamHash], claimInfo);
    }

    /** `task.cancel()`. */
    method CancelTask(t: TaskId)
      requires t in tasks
      modifies this`tasks
      ensures tasks == old(tasks)[t := old(tasks)[t].Cancel()]
      ensures old(Valid()) ==> Valid()
    {
      tasks := tasks[t := tasks[t].Cancel()];
    }

    /** The server and port an upload goes to: the given ones, or a configured one. */
    function Target(server: Option<string>, port: Option<int>, pick: nat): (target: (string, int))
      requires ServerGiven(server, port) || config.reflectorServers != []
      ensures ServerGiven(server, port) ==> target == (server.value, port.value)
      ensures !ServerGiven(server, port) ==> target in config.reflectorServers
    {
      if ServerGiven(server, port) then (server.value, port.value)
      else ChooseServer(config.reflectorServers, pick).value
    }

    /**
      `reflect_stream`: returns the in-flight upload of the stream when there is
      one; otherwise starts an upload and records it under the sd hash. Without
      a server and port, and with no configured server, the choice fails first.
     */
    method ReflectStream(stream: Stream, server: Option<string>, port: Option<int>, pick: nat)
      returns (r: Result<TaskId, ManagerError>)
      modifies this`tasks, this`nextTask, this`uploads
      ensures old(Valid()) ==> Valid()
      ensures r.Failure? <==> !ServerGiven(server, port) && config.reflectorServers == []
      ensures r.Failure? ==> r.error == NoReflectorServers
      ensures r.Failure? || stream.sdHash in old(uploads) ==>
                tasks == old(tasks) && nextTask == old(nextTask) && uploads == old(uploads)
      ensures r.Success? && stream.sdHash in old(uploads) ==> r.value == old(uploads)[stream.sdHash]
      ensures r.Success? && stream.sdHash !in old(uploads) ==>
                var target := Target(server, port, pick);
                && r.value == old(nextTask) && nextTask == old(nextTask) + 1
                && tasks == old(tasks)[r.value := Task(Upload(stream.sdHash, target.0, target.1), false, false)]
                && uploads == old(uploads)[stream.sdHash := r.value]
    {
      var target: (string, int);
      if !ServerGiven(server, port) {
        var choice := ChooseServer(config.reflectorServers, pick);
        if choice.Failure? {
          return Failure(choice.error);
        }
        target := choice.value;
      } else {
        target := (server.value, port.value);
      }
      if stream.sdHash in uploads {
        return Success(uploads[stream.sdHash]);
      }
      var task := nextTask;
      tasks := tasks[task := Task(Upload(stream.sdHash, target.0, target.1), false, false)];
      nextTask := nextTask + 1;
      uploads := uploads[stream.sdHash := task];
      return Success(task);
    }

    /**
      A task finishes (on success, failure or cancellation). For an upload, its
      done-callback drops the table entry of its sd hash, provided that entry
      is still this task.
     */
    method Complete(t: TaskId)
      requires Valid()
      requires t in tasks && !tasks[t].done
      modifies this`tasks, this`uploads
      ensures Valid()
      ensures tasks == old(tasks)[t := old(tasks)[t].(done := true)]
      ensures var k := old(tasks)[t].kind;
              uploads == if k.Upload? && k.sdHash in old(uploads) && old(uploads)[k.sdHash] == t
                         then old(uploads) - {k.sdHash} else old(uploads)
    {
      var kind := tasks[t].kind;
      tasks := tasks[t := tasks[t].(done := true)];
      if kind.Upload? && kind.sdHash in uploads && uploads[kind.sdHash] == t {
        uploads := uploads - {kind.sdHash};
      }
    }

    /**
      The done-callback as the source writes it: it drops the entry of the sd
      hash whatever task that entry now holds.
     */
    method CompleteAsWritten(t: TaskId)
      requires t in tasks && !tasks[t].done
      modifies this`tasks, this`uploads
      ensures tasks == old(tasks)[t := old(tasks)[t].(done := true)]
      ensures var k := old(tasks)[t].kind;
              uploads == if k.Upload? && k.sdHash in old(uploads) then old(uploads) - {k.sdHash} else old(uploads)
    {
      var kind := tasks[t].kind;
      tasks := tasks[t := tasks[t].(done := true)];
      if kind.Upload? && kind.sdHash in uploads {
        uploads := uploads - {kind.sdHash};
      }
    }

    /** `asyncio.gather` over tasks that have not finished: each of them completes, in order. */
    method Gather(batch: seq<TaskId>)
      requires Valid()
      requires forall i, j :: 0 <= i < j < |batch| ==> batch[i] != batch[j]
      requires forall i :: 0 <= i < |batch| ==> batch[i] in tasks && !tasks[batch[i]].done
      modifies this`tasks, this`uploads
      ensures Valid()
      ensures tasks == FinishAll(old(tasks), Members(batch))
      ensures uploads == Without(old(uploads), Members(batch))
    {
      ghost var finished: set<TaskId> := {};
      assert tasks == FinishAll(old(tasks), finished);
      assert uploads == Without(old(uploads), finished);
      for i := 0 to |batch|
        invariant Valid()
        invariant finished == Members(batch[..i])
        invariant tasks == FinishAll(old(tasks), finished)
        invariant uploads == Without(old(uploads), finished)
      {
        var t := batch[i];
        assert t !in finished;
        FinishMore(old(tasks), finished, t);
        CompleteDrops(uploads, tasks, t);
        WithoutMore(old(uploads), finished, t);
        Complete(t);
        finished := finished + {t};
        assert batch[..i + 1] == batch[..i] + [t];
      }
      assert batch[..|batch|] == batch;
    }

    /** The state inside one reflection cycle: see `InBatch` and `Awaited`. */
    ghost predicate Pending(u0: map<SdHash, TaskId>, t0: map<TaskId, Task>, batches: seq<seq<SdHash>>,
                            created: seq<seq<TaskId>>, batch: seq<SdHash>, batchTasks: seq<TaskId>)
      reads this
    {
      Valid() && InBatch(uploads, tasks, u0, t0, batch, batchTasks) && Awaited(tasks, t0, batches, created, batchTasks)
    }

    /**
      Where the cycle's uploads went: each to the server chosen for its stream
      by `choose`, under the ids handed out since `n0`, in turn.
     */
    ghost predicate Routed(n0: TaskId, choose: SdHash -> nat, batches: seq<seq<SdHash>>,
                           created: seq<seq<TaskId>>, batch: seq<SdHash>, batchTasks: seq<TaskId>)
      reads this
    {
      && Sent(tasks, config.reflectorServers, choose, batches, created)
      && Aiming(tasks, config.reflectorServers, choose, batch, batchTasks)
      && Counted(n0, nextTask, created, batchTasks)
    }

    /** The loop body's test: an eligible stream's upload joins the batch. */
    method Consider(ghost u0: map<SdHash, TaskId>, ghost t0: map<TaskId, Task>,
                    ghost batches: seq<seq<SdHash>>, ghost created: seq<seq<TaskId>>, verified: set<BlobHash>,
                    completed: set<SdHash>, ghost n0: TaskId, sd: SdHash, batch: seq<SdHash>, batchTasks: seq<TaskId>,
                    choose: SdHash -> nat)
      returns (batch': seq<SdHash>, batchTasks': seq<TaskId>)
      requires ReflectionConfigured(config)
      requires Pending(u0, t0, batches, created, batch, batchTasks) && sd in streams
      requires Routed(n0, choose, batches, created, batch, batchTasks)
      modifies this`tasks, this`nextTask, this`uploads
      ensures Pending(u0, t0, batches, created, batch', batchTasks')
      ensures Routed(n0, choose, batches, created, batch', batchTasks')
      ensures batch' != batch ==>
                var target := Target(None, None, choose(streams[sd].sdHash));
                && batchTasks' == batchTasks + [old(nextTask)]
                && tasks[old(nextTask)].kind == Upload(streams[sd].sdHash, target.0, target.1)
      ensures batch' == if Reflection.Eligible(Reflection.Cycle(streams, verified, completed, u0.Keys,
                                                                config.concurrentReflectorUploads),
                                               streams[sd], u0.Keys + Members(batch))
                        then batch + [streams[sd].sdHash] else batch
    {
      var stream := streams[sd];
      batch', batchTasks' := batch, batchTasks;
      if stream.sdHash in verified && stream.sdHash in completed && stream.sdHash !in uploads
         && !stream.fullyReflected {
        var pick := choose(stream.sdHash);
        var target := Target(None, None, pick);
        var task := Task(Upload(stream.sdHash, target.0, target.1), false, false);
        BatchAdd(uploads, tasks, nextTask, u0, t0, batch, batchTasks, stream.sdHash, target);
        AwaitAdd(tasks, t0, batches, created, batchTasks, nextTask, task);
        AimAdd(tasks, config.reflectorServers, choose, batches, created, batch, batchTasks, stream.sdHash, nextTask, task);
        CountAdd(n0, nextTask, created, batchTasks);
        var r := ReflectStream(stream, None, None, pick);
        batch' := batch + [stream.sdHash];
        batchTasks' := batchTasks + [r.value];
      }
    }

    /** Awaiting the batch: its uploads complete, it joins the awaited ones and the table is back to `u0`. */
    method Flush(ghost u0: map<SdHash, TaskId>, ghost t0: map<TaskId, Task>, ghost batches: seq<seq<SdHash>>,
                 ghost created: seq<seq<TaskId>>, ghost n0: TaskId, ghost choose: SdHash -> nat,
                 batch: seq<SdHash>, batchTasks: seq<TaskId>)
      requires Pending(u0, t0, batches, created, batch, batchTasks)
      requires Routed(n0, choose, batches, created, batch, batchTasks)
      modifies this`tasks, this`uploads
      ensures Pending(u0, t0, batches + [batch], created + [batchTasks], [], [])
      ensures Routed(n0, choose, batches + [batch], created + [batchTasks], [], [])
    {
      AimFlush(tasks, config.reflectorServers, choose, batches, created, batch, batchTasks);
      CountFlush(n0, nextTask, created, batchTasks);
      BatchDistinct(uploads, tasks, u0, t0, batch, batchTasks);
      BatchFlush(uploads, tasks, u0, t0, batch, batchTasks);
      AwaitFlush(tasks, t0, batches, created, batch, batchTasks);
      Gather(batchTasks);
    }

    /**
      One turn of the cycle's loop: the last candidate is popped and considered,
      and the batch is awaited once its length reaches the limit, joining
      `batches`. What has been awaited, followed by the rest of the plan, is the
      same before and after the turn.
     */
    method Pop(ghost c: Reflection.Cycle, ghost u0: map<SdHash, TaskId>, ghost t0: map<TaskId, Task>,
               batches: seq<seq<SdHash>>, ghost created: seq<seq<TaskId>>,
               verified: set<BlobHash>, completed: set<SdHash>,
               ghost n0: TaskId, sdHashes: seq<SdHash>, batch: seq<SdHash>, batchTasks: seq<TaskId>,
               choose: SdHash -> nat)
      returns (sdHashes': seq<SdHash>, batch': seq<SdHash>, batchTasks': seq<TaskId>,
               batches': seq<seq<SdHash>>, ghost created': seq<seq<TaskId>>)
      requires ReflectionConfigured(config)
      requires c == Reflection.Cycle(streams, verified, completed, u0.Keys, config.concurrentReflectorUploads)
      requires Pending(u0, t0, batches, created, batch, batchTasks)
      requires Routed(n0, choose, batches, created, batch, batchTasks)
      requires sdHashes != [] && forall i :: 0 <= i < |sdHashes| ==> sdHashes[i] in streams
      modifies this`tasks, this`nextTask, this`uploads
      ensures Pending(u0, t0, batches', created', batch', batchTasks')
      ensures Routed(n0, choose, batches', created', batch', batchTasks')
      ensures sdHashes' == sdHashes[..|sdHashes| - 1] && forall i :: 0 <= i < |sdHashes'| ==> sdHashes'[i] in streams
      ensures batches' + Reflection.Plan(c, sdHashes', batch') == batches + Reflection.Plan(c, sdHashes, batch)
    {
      var sd := sdHashes[|sdHashes| - 1];
      sdHashes' := sdHashes[..|sdHashes| - 1];
      batch', batchTasks' := Consider(u0, t0, batches, created, verified, completed, n0, sd, batch, batchTasks, choose);
      Reflection.PlanStep(c, sdHashes, batch, batch');
      batches', created' := batches, created;
      if |batch'| >= config.concurrentReflectorUploads {
        Flush(u0, t0, batches, created, n0, choose, batch', batchTasks');
        Concat(batches, [batch'], Reflection.Plan(c, sdHashes', []));
        batches', created' := batches + [batch'], created + [batchTasks'];
        batch', batchTasks' := [], [];
      }
    }

    /**
      The loop of one cycle: the candidates `sdHashes` are popped from the end
      until none is left. The batches awaited, followed by what `Plan` does
      with the batch left over, are the plan of the whole list.
     */
    method PopAll(ghost c: Reflection.Cycle, verified: set<BlobHash>, completed: set<SdHash>,
                  sdHashes: seq<SdHash>, choose: SdHash -> nat)
      returns (batches: seq<seq<SdHash>>, ghost created: seq<seq<TaskId>>, batch: seq<SdHash>, batchTasks: seq<TaskId>)
      requires ReflectionConfigured(config)
      requires c == Reflection.Cycle(streams, verified, completed, uploads.Keys, config.concurrentReflectorUploads)
      requires Valid() && forall i :: 0 <= i < |sdHashes| ==> sdHashes[i] in streams
      modifies this`tasks, this`nextTask, this`uploads
      ensures Pending(old(uploads), old(tasks), batches, created, batch, batchTasks)
      ensures Routed(old(nextTask), choose, batches, created, batch, batchTasks)
      ensures batches + Reflection.Plan(c, [], batch) == Reflection.Plan(c, sdHashes, [])
    {
      batches, created, batch, batchTasks := [], [], [], [];
      var rest := sdHashes;
      BatchStart(uploads, tasks);
      AwaitStart(tasks);
      assert Ids([]) + Members<TaskId>([]) == Range(nextTask, nextTask);
      while rest != []
        invariant Pending(old(uploads), old(tasks), batches, created, batch, batchTasks)
        invariant Routed(old(nextTask), choose, batches, created, batch, batchTasks)
        invariant forall i :: 0 <= i < |rest| ==> rest[i] in streams
        invariant batches + Reflection.Plan(c, rest, batch) == Reflection.Plan(c, sdHashes, [])
        decreases |rest|
      {
        rest, batch, batchTasks, batches, created :=
          Pop(c, old(uploads), old(tasks), batches, created, verified, completed, old(nextTask), rest, batch, batchTasks,
              choose);
      }
    }

    /** The loop of one cycle, then the last await when a batch is left over: the batches are the plan's. */
    method Run(ghost c: Reflection.Cycle, verified: set<BlobHash>, completed: set<SdHash>,
               sdHashes: seq<SdHash>, choose: SdHash -> nat)
      returns (batches: seq<seq<SdHash>>, ghost created: seq<seq<TaskId>>)
      requires ReflectionConfigured(config)
      requires c == Reflection.Cycle(streams, verified, completed, uploads.Keys, config.concurrentReflectorUploads)
      requires Valid() && forall i :: 0 <= i < |sdHashes| ==> sdHashes[i] in streams
      modifies this`tasks, this`nextTask, this`uploads
      ensures Pending(old(uploads), old(tasks), batches, created, [], [])
      ensures Routed(old(nextTask), choose, batches, created, [], [])
      ensures batches == Reflection.Plan(c, sdHashes, [])
    {
      var batch, batchTasks;
      batches, created, batch, batchTasks := PopAll(c, verified, completed, sdHashes, choose);
      if batch != [] {
        Flush(old(uploads), old(tasks), batches, created, old(nextTask), choose, batch, batchTasks);
        batches, created := batches + [batch], created + [batchTasks];
      } else {
        assert batches + Reflection.Plan(c, [], batch) == batches;
      }
    }

    /**
      One cycle of `reflect_streams`. When reflection is enabled and servers are
      configured, the registered candidates are popped from the end of the list;
      an eligible stream's upload joins the batch, and the batch is awaited as
      soon as its length reaches `concurrent_reflector_uploads`, and once more at
      the end. `choose` stands for the random server choice of each upload.
      `created` names the upload task started for each stream of each batch.
     */
    method ReflectCycle(candidates: seq<SdHash>, verified: set<BlobHash>, completed: set<SdHash>,
                        choose: SdHash -> nat)
      returns (batches: seq<seq<SdHash>>, ghost created: seq<seq<TaskId>>)
      requires Valid()
      modifies this`tasks, this`nextTask, this`uploads
      ensures Valid()
      ensures !ReflectionConfigured(config) ==> batches == [] && tasks == old(tasks) && nextTask == old(nextTask)
      ensures ReflectionConfigured(config) ==>
                batches == Reflection.Batches(
                  Reflection.Cycle(streams, verified, completed, old(uploads).Keys, config.concurrentReflectorUploads),
                  candidates)
      ensures uploads == old(uploads)
      ensures forall t :: t in old(tasks) ==> t in tasks && tasks[t] == old(tasks)[t]
      ensures forall t :: t in tasks && t !in old(tasks) ==> tasks[t].kind.Upload? && tasks[t].done
      ensures Uploaded(tasks, old(tasks), batches, created) && InOrder(created)
      ensures tasks.Keys == old(tasks).Keys + Ids(created)
      ensures Sent(tasks, config.reflectorServers, choose, batches, created)
      ensures Ids(created) == Range(old(nextTask), nextTask)
    {
      batches, created := [], [];
      if !(config.reflectStreams && config.reflectorServers != []) {
        assert Ids([]) == {};
        return;
      }
      ghost var c := Reflection.Cycle(streams, verified, completed, uploads.Keys, config.concurrentReflectorUploads);
      var sdHashes := Reflection.Present(streams, candidates);
      batches, created := Run(c, verified, completed, sdHashes, choose);
      BatchEmpty(uploads, tasks, old(uploads), old(tasks));
      AwaitEnd(tasks, old(tasks), batches, created);
      assert Members<TaskId>([]) == {};
    }

    /** `start`: the base class's start sets `started`; then the re-reflection loop is launched. */
    method Start()
      requires Valid()
      modifies this`tasks, this`nextTask, this`reReflectTask, this`started
      ensures Valid() && started
      ensures reReflectTask == Some(old(nextTask)) && nextTask == old(nextTask) + 1
      ensures tasks == old(tasks)[old(nextTask) := Task(ReReflect, false, false)]
    {
      started := true;
      var task := nextTask;
      tasks := tasks[task := Task(ReReflect, false, false)];
      nextTask := nextTask + 1;
      reReflectTask := Some(task);
    }

    /** The two background handles that exist. */
    ghost function Handles(): set<TaskId>
      reads this
    {
      (if resumeSavingTask.Some? then {resumeSavingTask.value} else {})
      + (if reReflectTask.Some? then {reReflectTask.value} else {})
    }

    /** Cancels each background handle that exists and is not done. */
    method CancelHandles()
      requires Valid()
      modifies this`tasks
      ensures Valid()
      ensures tasks == CancelAll(old(tasks), Handles())
    {
      ghost var cancelled: set<TaskId> := {};
      assert tasks == CancelAll(old(tasks), cancelled);
      if resumeSavingTask.Some? {
        CancelMore(old(tasks), cancelled, resumeSavingTask.value);
        if !tasks[resumeSavingTask.value].done {
          CancelTask(resumeSavingTask.value);
        }
        cancelled := cancelled + {resumeSavingTask.value};
      }
      if reReflectTask.Some? {
        CancelMore(old(tasks), cancelled, reReflectTask.value);
        if !tasks[reReflectTask.value].done {
          CancelTask(reReflectTask.value);
        }
        cancelled := cancelled + {reReflectTask.value};
      }
      assert cancelled == Handles();
    }

    /** Pops every pending notification future, last first, and cancels it. */
    method CancelFutures()
      requires Valid()
      modifies this`tasks, this`finishedFuts
      ensures Valid() && finishedFuts == []
      ensures tasks == CancelAll(old(tasks), Members(old(finishedFuts)))
    {
      ghost var cancelled: set<TaskId> := {};
      assert tasks == CancelAll(old(tasks), cancelled);
      while finishedFuts != []
        invariant Valid()
        invariant |finishedFuts| <= |old(finishedFuts)| && finishedFuts == old(finishedFuts)[..|finishedFuts|]
        invariant tasks == CancelAll(old(tasks), cancelled)
        invariant cancelled == Members(old(finishedFuts)[|finishedFuts|..])
        decreases |finishedFuts|
      {
        var fut := PopFuture(old(finishedFuts), old(tasks), cancelled);
        cancelled := cancelled + {fut};
      }
    }

    /** `pop()` on the futures list, then `cancel()` on the future it held. */
    method PopFuture(ghost f0: seq<TaskId>, ghost t0: map<TaskId, Task>, ghost cancelled: set<TaskId>)
      returns (fut: TaskId)
      requires Valid() && finishedFuts != []
      requires |finishedFuts| <= |f0| && finishedFuts == f0[..|finishedFuts|]
      requires tasks == CancelAll(t0, cancelled) && cancelled == Members(f0[|finishedFuts|..])
      modifies this`tasks, this`finishedFuts
      ensures Valid()
      ensures finishedFuts == old(finishedFuts)[..|old(finishedFuts)| - 1]
      ensures tasks == CancelAll(t0, cancelled + {fut})
      ensures cancelled + {fut} == Members(f0[|finishedFuts|..])
    {
      fut := finishedFuts[|finishedFuts| - 1];
      CancelMore(t0, cancelled, fut);
      assert f0[|finishedFuts| - 1..] == [fut] + f0[|finishedFuts|..];
      finishedFuts := finishedFuts[..|finishedFuts| - 1];
      CancelTask(fut);
    }

    /** Pops every entry of the upload table and cancels its task. */
    method CancelUploads()
      requires Valid()
      modifies this`tasks, this`uploads
      ensures Valid() && uploads == map[]
      ensures tasks == CancelAll(old(tasks), old(uploads).Values)
    {
      ghost var dropped: set<TaskId> := {};
      DrainStart(uploads, tasks);
      while uploads != map[]
        invariant tasks.Keys == old(tasks).Keys
        invariant Draining(uploads, tasks, old(uploads), old(tasks), dropped)
        decreases |uploads|
      {
        var task := PopUpload(old(uploads), old(tasks), dropped);
        dropped := dropped + {task};
      }
      DrainEnd(tasks, old(uploads), old(tasks), dropped);
    }

    /** `popitem()` on the upload table, then `cancel()` on the task it held. */
    method PopUpload(ghost u0: map<SdHash, TaskId>, ghost t0: map<TaskId, Task>, ghost dropped: set<TaskId>)
      returns (task: TaskId)
      requires uploads != map[] && Draining(uploads, tasks, u0, t0, dropped)
      modifies this`tasks, this`uploads
      ensures Draining(uploads, tasks, u0, t0, dropped + {task})
      ensures |uploads| < |old(uploads)| && tasks.Keys == old(tasks).Keys
    {
      var sd :| sd in uploads;
      task := uploads[sd];
      DrainStep(uploads, tasks, u0, t0, dropped, sd);
      uploads := uploads - {sd};
      CancelTask(task);
    }

    /**
      `stop`: cancels the two background handles that exist and are not done,
      cancels and drops every pending future and every in-flight upload, and
      clears `started`.
     */
    method Stop()
      requires Valid()
      modifies this`tasks, this`finishedFuts, this`uploads, this`started
      ensures Valid()
      ensures finishedFuts == [] && uploads == map[] && !started
      ensures tasks == CancelAll(old(tasks), Handles() + Members(old(finishedFuts)) + old(uploads).Values)
      ensures forall t :: t in tasks && tasks[t].kind.Upload? ==> !tasks[t].InFlight()
    {
      ghost var handles, futures, entries := Handles(), Members(finishedFuts), uploads.Values;
      CancelHandles();
      ghost var afterHandles := tasks;
      CancelFutures();
      ghost var afterFutures := tasks;
      CancelChain(old(tasks), afterHandles, afterFutures, handles, futures);
      CancelUploads();
      CancelChain(old(tasks), afterFutures, tasks, handles + futures, entries);
      NoneInFlight(tasks);
      started := false;
      assert Handles() == handles;
    }

    /**
      `delete_stream`: cancels the stream's in-flight upload (its entry stays
      for the done-callback to drop), stops the stream's own tasks, removes the
      stream from the registry, then deletes its sd blob and content blobs
      without touching the database, and finally deletes its stored record.
      The claim-callback table is left as it is.
     */
    method DeleteStream(stream: Stream)
      requires Valid()
      modifies this`tasks, this`streams, this`effects
      ensures Valid()
      ensures tasks == if stream.sdHash in uploads then old(tasks)[uploads[stream.sdHash] := old(tasks)[uploads[stream.sdHash]].Cancel()]
                       else old(tasks)
      ensures streams == old(streams) - {stream.sdHash}
      ensures effects == old(effects) + [StopTasks(stream.sdHash), DeleteBlobs(BlobsToDelete(stream), false),
                                          DeleteRecord(stream.descriptor)]
    {
      CancelUpload(stream.sdHash);
      effects := effects + [StopTasks(stream.sdHash)];
      Unregister(stream.sdHash);
      effects := effects + [DeleteBlobs(BlobsToDelete(stream), false), DeleteRecord(stream.descriptor)];
      assert effects == old(effects) + [StopTasks(stream.sdHash)] + [DeleteBlobs(BlobsToDelete(stream), false), DeleteRecord(stream.descriptor)];
    }

    /** Cancels the in-flight upload of `sdHash`, if any, and leaves its entry in the table. */
    method CancelUpload(sdHash: SdHash)
      requires Valid()
      modifies this`tasks
      ensures Valid()
      ensures tasks == if sdHash in uploads then old(tasks)[uploads[sdHash] := old(tasks)[uploads[sdHash]].Cancel()]
                       else old(tasks)
    {
      if sdHash in uploads {
        CancelTask(uploads[sdHash]);
      }
    }

    /** Removes `sdHash` from the registry when it is there. */
    method Unregister(sdHash: SdHash)
      requires Valid()
      modifies this`streams
      ensures Valid()
      ensures streams == old(streams) - {sdHash}
    {
      if sdHash in streams {
        streams := streams - {sdHash};
      } else {
        assert streams == old(streams) - {sdHash};
      }
    }

    /**
      `create_stream`: `created` is the stream the creation routine returns. It
      is registered, its claim callback installed, and an upload requested when
      reflection is enabled and servers are configured.
     */
    method CreateStream(created: Stream, pick: nat) returns (stream: Stream)
      requires Valid()
      modifies this`streams, this`claimCallbacks, this`tasks, this`nextTask, this`uploads
      ensures Valid()
      ensures stream == created
      ensures streams == old(streams)[stream.sdHash := stream]
      ensures claimCallbacks == old(claimCallbacks)[stream.StreamHash() := stream]
      ensures !ReflectionConfigured(config) ==>
                tasks == old(tasks) && uploads == old(uploads) && nextTask == old(nextTask)
      ensures ReflectionConfigured(config) ==>
                stream.sdHash in uploads && uploads[stream.sdHash] in tasks
                && tasks[uploads[stream.sdHash]].kind.Upload?
                && (stream.sdHash in old(uploads) ==>
                      uploads == old(uploads) && tasks == old(tasks) && nextTask == old(nextTask))
                && (stream.sdHash !in old(uploads) ==> tasks[uploads[stream.sdHash]].InFlight()
                                                       && uploads[stream.sdHash] == old(nextTask))
      ensures ReflectionConfigured(config) && stream.sdHash !in old(uploads) ==>
                var target := Target(None, None, pick);
                && tasks == old(tasks)[old(nextTask) := Task(Upload(stream.sdHash, target.0, target.1), false, false)]
                && uploads == old(uploads)[stream.sdHash := old(nextTask)]
                && nextTask == old(nextTask) + 1
    {
      stream := created;
      streams := streams[stream.sdHash := stream];
      claimCallbacks := claimCallbacks[stream.StreamHash() := stream];
      if config.reflectStreams && config.reflectorServers != [] {
        var _ := ReflectStream(stream, None, None, pick);
      }
    }

    /**
      `_load_stream`, with the `fully_reflected` argument its caller passes: a
      stream is built from the record and the decoded paths and added, unless
      the blob manager reports its descriptor invalid, in which case the record
      is skipped.
     */
    method LoadStream(info: FileRecord, fileName: Option<string>, downloadDirectory: Option<string>,
                      loadable: map<SdHash, Descriptor>)
      requires Valid()
      modifies this`streams, this`claimCallbacks
      ensures Valid()
      ensures streams == match Startup.Load(info, fileName, downloadDirectory, loadable)
                         case None => old(streams)
                         case Some(s) => old(streams)[s.sdHash := s]
      ensures info.sdHash !in loadable ==> claimCallbacks == old(claimCallbacks)
      ensures info.sdHash in loadable ==>
                claimCallbacks == old(claimCallbacks)[loadable[info.sdHash].streamHash :=
                                                      Startup.Load(info, fileName, downloadDirectory, loadable).value]
    {
      if info.sdHash !in loadable {
        return;
      }
      var descriptor := loadable[info.sdHash];
      var stream := Stream(descriptor.sdHash, downloadDirectory, fileName, info.status, info.claim,
                           info.contentFee, info.rowid, descriptor, info.addedOn, false);
      if info.fullyReflected {
        stream := stream.(fullyReflected := true);
      }
      Add(stream);
    }

    /**
      `recover_streams`: decodes every record's names, tries to recover each
      descriptor, and hands the successes to the storage when there are any.
     */
    method RecoverStreams(fileInfos: seq<FileRecord>, recover: Recovery -> Option<Descriptor>)
      returns (err: Option<ManagerError>)
      modifies this`effects
      ensures err.None? <==> Startup.Decodes(fileInfos)
      ensures err.Some? ==> err.value.MalformedHex? && effects == old(effects)
      ensures err.Some? && err.value.MalformedHex? ==>
                exists i :: 0 <= i < |fileInfos| && Startup.RecoveryArgs(fileInfos[i]) == Failure(err.value.e)
      ensures err.None? ==>
                var restored := Startup.Restorable(fileInfos, recover);
                effects == old(effects) + if restored == {} then [] else [StoreRecovered(restored, config.downloadDir)]
    {
      var calls := Startup.RecoveryCalls(fileInfos);
      if calls.Failure? {
        return Some(MalformedHex(calls.error));
      }
      var toRestore := Startup.Restore(calls.value, recover);
      Startup.RestoredSet(fileInfos, calls.value, toRestore, recover);
      if toRestore != [] {
        effects := effects + [StoreRecovered((set x | x in toRestore), config.downloadDir)];
      } else {
        assert Startup.Restorable(fileInfos, recover) == {};
      }
      return None;
    }

    /**
      The second loop of `initialize_from_database`: for each record to start,
      decode its two stored paths (a malformed one raises and ends the loop),
      queue it for resume-saving when it asks for it, and load its stream.
     */
    method StartRecords(toStart: seq<FileRecord>, loadable: map<SdHash, Descriptor>)
      returns (resume: seq<Resume>, failure: Option<Hex.HexError>)
      requires Valid()
      modifies this`streams, this`claimCallbacks
      ensures Valid()
      ensures Startup.StartAll(old(streams), old(claimCallbacks), [], toStart, loadable) == Startup.Started(streams, claimCallbacks, resume, failure)
    {
      resume, failure := [], None;
      var i := 0;
      while i < |toStart|
        invariant 0 <= i <= |toStart|
        invariant Valid()
        invariant Startup.StartAll(old(streams), old(claimCallbacks), [], toStart, loadable) == Startup.StartAll(streams, claimCallbacks, resume, toStart[i..], loadable)
      {
        var info := toStart[i];
        assert toStart[i..][0] == info && toStart[i..][1..] == toStart[i + 1..];
        var paths := Startup.Paths(info);
        if paths.Failure? {
          failure := Some(paths.error);
          return;
        }
        var (fileName, downloadDirectory) := paths.value;
        if WantsResume(info, fileName, downloadDirectory) {
          resume := resume + [Resume(fileName.value, downloadDirectory.value, info.sdHash)];
        }
        LoadStream(info, fileName, downloadDirectory, loadable);
        i := i + 1;
      }
    }

    /**
      The first part of `initialize_from_database`: note the manually removed
      files, then recover the records whose sd blob is not verified, if any.
     */
    method RecoverUnverified(records: seq<FileRecord>, verified: set<BlobHash>, recover: Recovery -> Option<Descriptor>)
      returns (err: Option<ManagerError>)
      modifies this`effects
      ensures var recovering := Startup.Unverified(records, verified);
              && (err.None? <==> Startup.Decodes(recovering))
              && (err.Some? ==> err.value.MalformedHex?
                                && exists i :: 0 <= i < |recovering| && Startup.RecoveryArgs(recovering[i]) == Failure(err.value.e))
              && effects == old(effects) + [UpdateManuallyRemovedFiles] + RecoveryLog(recovering, recover, config.downloadDir)
    {
      effects := effects + [UpdateManuallyRemovedFiles];
      var toRecover, toStart := Startup.Partition(records, verified);
      err := None;
      if toRecover != [] {
        err := RecoverStreams(toRecover, recover);
      }
    }

    /**
      `initialize_from_database`: recovers the records whose sd blob is not
      verified, starts every record in storage order, and launches one task
      that resumes saving the queued files. A queued file whose stream did not
      load makes the registry lookup raise.
     */
    method InitializeFromDatabase(records: seq<FileRecord>, verified: set<BlobHash>,
                                  recover: Recovery -> Option<Descriptor>, loadable: map<SdHash, Descriptor>)
      returns (err: Option<ManagerError>)
      requires Valid()
      modifies this`effects, this`streams, this`claimCallbacks, this`tasks, this`nextTask, this`resumeSavingTask
      ensures Valid()
      ensures effects == old(effects) + [UpdateManuallyRemovedFiles]
                         + RecoveryLog(Startup.Unverified(records, verified), recover, config.downloadDir)
      ensures !Startup.Decodes(Startup.Unverified(records, verified)) ==>
                err.Some? && err.value.MalformedHex? && streams == old(streams) && claimCallbacks == old(claimCallbacks)
                && exists i :: 0 <= i < |Startup.Unverified(records, verified)|
                                 && Startup.RecoveryArgs(Startup.Unverified(records, verified)[i]) == Failure(err.value.e)
      ensures Startup.Decodes(Startup.Unverified(records, verified)) ==>
                streams == Startup.StartAll(old(streams), old(claimCallbacks), [], records, loadable).registry
                && claimCallbacks == Startup.StartAll(old(streams), old(claimCallbacks), [], records, loadable).callbacks
      ensures Startup.Decodes(Startup.Unverified(records, verified)) ==>
                err == Startup.Outcome(Startup.StartAll(old(streams), old(claimCallbacks), [], records, loadable))
      ensures err.None? && Startup.StartAll(old(streams), old(claimCallbacks), [], records, loadable).resume != [] ==>
                resumeSavingTask == Some(old(nextTask)) && nextTask == old(nextTask) + 1
                && tasks == old(tasks)[old(nextTask) := Task(ResumeSaving(Startup.StartAll(old(streams), old(claimCallbacks), [], records, loadable).resume), false, false)]
      ensures err.Some? || Startup.StartAll(old(streams), old(claimCallbacks), [], records, loadable).resume == [] ==>
                resumeSavingTask == old(resumeSavingTask) && tasks == old(tasks) && nextTask == old(nextTask)
    {
      err := RecoverUnverified(records, verified, recover);
      if err.Some? {
        return;
      }
      var resume, failure := StartRecords(records, loadable);
      if failure.Some? {
        return Some(MalformedHex(failure.value));
      }
      var missing := Startup.FirstMissing(resume, streams);
      if missing.Some? {
        return Some(UnknownStream(missing.value));
      }
      if resume != [] {
        LaunchResumeSaving(resume);
      }
    }

    /** Launches the one task that resumes saving the queued files. */
    method LaunchResumeSaving(resume: seq<Resume>)
      requires Valid()
      modifies this`tasks, this`nextTask, this`resumeSavingTask
      ensures Valid()
      ensures resumeSavingTask == Some(old(nextTask)) && nextTask == old(nextTask) + 1
      ensures tasks == old(tasks)[old(nextTask) := Task(ResumeSaving(resume), false, false)]
    {
      var task := nextTask;
      tasks := tasks[task := Task(ResumeSaving(resume), false, false)];
      nextTask := nextTask + 1;
      resumeSavingTask := Some(task);
    }

    /**
      `stream_partial_content`: the registered stream that serves a range
      request for `sdHash`; an unregistered sd hash makes the lookup raise.
     */
    function PartialContent(sdHash: SdHash): (r: Result<Stream, ManagerError>)
      requires Valid()
      reads this
      ensures r.Success? <==> sdHash in streams
      ensures r.Success? ==> r.value.sdHash == sdHash && r.value == streams[sdHash]
      ensures r.Failure? ==> r.error == UnknownStream(sdHash)
    {
      if sdHash in streams then Success(streams[sdHash]) else Failure(UnknownStream(sdHash))
    }
  }
}
