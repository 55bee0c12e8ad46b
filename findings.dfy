/**
  Two places where the stream manager, as written, does not do what its
  surrounding code evidently means, each beside the corrected behaviour the
  rest of the model uses.
 */
module Findings {
  import opened Wrappers
  import opened Streams
  import Manager

  /** How a call of `_load_stream` ends. */
  datatype LoadOutcome = TypeError | NameError | Skipped | Registered

  /** The parameters `_load_stream` declares after `self`. */
  const LoadParameters := 8

  /** The positional arguments the start loop of `initialize_from_database` passes it. */
  const CallSiteArguments := 9

  /**
    `_load_stream` as written: a call with the wrong number of positional
    arguments raises before the body runs; an invalid descriptor returns
    early; otherwise the body reads the name `fully_reflected`, which is
    neither a parameter nor defined anywhere, and raises before `add`.
   */
  function LoadStreamAsWritten(argCount: nat, descriptorLoads: bool): (o: LoadOutcome)
    ensures o != Registered
    ensures o == Skipped <==> argCount == LoadParameters && !descriptorLoads
    ensures argCount != LoadParameters ==> o == TypeError
  {
    if argCount != LoadParameters then TypeError
    else if !descriptorLoads then Skipped
    else NameError
  }

  /** From the start loop, no stream is ever loaded: every call raises. */
  lemma NoStreamLoads(descriptorLoads: bool)
    ensures LoadStreamAsWritten(CallSiteArguments, descriptorLoads) == TypeError
  {
  }

  /** A stream to reflect in the scenarios below. */
  function Sample(): (s: Stream)
    ensures s.sdHash == "sd"
  {
    Stream("sd", None, None, Running, None, None, 1, Descriptor("sd", "stream", []), None, false)
  }

  /**
    The done-callback as written, after `stop`: `stop` cancels the first
    upload t1 and pops its entry, a new `reflect_stream` records t2, then t1
    finishes and its callback pops the entry, which now holds t2. The next
    `reflect_stream` no longer sees t2 and starts t3, so two uploads of the
    same sd hash are in flight and the table no longer tracks t2.
   */
  method StaleCallbackAsWritten() returns (m: Manager.StreamManager, t2: TaskId, t3: TaskId)
    ensures t2 != t3 && t2 in m.tasks && t3 in m.tasks
    ensures m.tasks[t2].kind == m.tasks[t3].kind == Upload("sd", "host", 5566)
    ensures m.tasks[t2].InFlight() && m.tasks[t3].InFlight()
    ensures !Manager.UploadTable(m.uploads, m.tasks)
  {
    m := new Manager.StreamManager(Config(true, [("host", 5566)], 1, "/dl"));
    var r1 := m.ReflectStream(Sample(), None, None, 0);
    var t1 := r1.value;
    m.Stop();
    var r2 := m.ReflectStream(Sample(), None, None, 0);
    t2 := r2.value;
    m.CompleteAsWritten(t1);
    var r3 := m.ReflectStream(Sample(), None, None, 0);
    t3 := r3.value;
    assert m.uploads["sd"] == t3;
  }

  /**
    The same events with the corrected callback, which drops the entry only
    while it still holds the finishing task: t2 stays recorded, and the next
    `reflect_stream` returns it instead of starting another upload.
   */
  method StaleCallbackCorrected() returns (m: Manager.StreamManager, t2: TaskId, t3: TaskId)
    ensures t2 == t3 && t2 in m.tasks && m.tasks[t2].InFlight()
    ensures m.Valid() && m.uploads == map["sd" := t2]
  {
    m := new Manager.StreamManager(Config(true, [("host", 5566)], 1, "/dl"));
    var r1 := m.ReflectStream(Sample(), None, None, 0);
    var t1 := r1.value;
    m.Stop();
    var r2 := m.ReflectStream(Sample(), None, None, 0);
    t2 := r2.value;
    m.Complete(t1);
    var r3 := m.ReflectStream(Sample(), None, None, 0);
    t3 := r3.value;
  }
}
