/** Dispatch under an idempotency key, for any number of concurrent calls.

    Every store call is one step, so other calls may act between any two of them. A call may also stop at any point:
    a store call it makes fails, or its process dies. Hashes are compared only for equality and new job ids are
    fresh. */
module IdempotentDispatch {
  import opened Options
  import opened Domain
  import opened Records
  import opened MemoryStore
  import Scheduler
  import Text

  datatype Status = Pending | Completed

  datatype Record = Record(hash: string, status: Status, resourceId: string)

  /** The composite key of the record table. */
  function IdempotencyKey(scope: string, projectId: string, key: string): string
  {
    scope + ":" + projectId + ":" + key
  }

  const INVOKE := "invoke"

  datatype Request = Request(projectId: string, key: string, hash: string)
  {
    predicate Keyed() { key != "" }
    function Slot(): string { IdempotencyKey(INVOKE, projectId, key) }
  }

  /** Where a call is between two store calls. */
  datatype Pc =
    | Start                  // version looked up
    | Owned                  // created the record, job not yet stored
    | Undoing                // enqueue failed, record not yet deleted
    | Created(id: string)    // job stored, record still pending
    | Replaying              // somebody else's record exists
    | Fetching(id: string)   // replay found a completed record
    | Returned(id: string)
    | Refused

  /** `made` remembers the job the call stored, if any. */
  datatype Call = Call(request: Request, pc: Pc, made: Option<string>)

  /** `creator` remembers which call created the record now in a slot; `jobs` maps a job to the call that stored it. */
  datatype World = World(records: map<string, Record>, creator: map<string, nat>, jobs: map<string, nat>, calls: map<nat, Call>)
  {
    function Move(c: nat, pc: Pc): World
      requires c in calls
    {
      this.(calls := calls[c := calls[c].(pc := pc)])
    }

    function Slot(c: nat): string
      requires c in calls
    {
      calls[c].request.Slot()
    }
  }

  datatype Step =
    | Arrive(c: nat, request: Request)
    | Create(c: nat)                         // CreateIdempotencyRecord
    | Put(c: nat, id: string)                // quota passed, PutExecutionJob succeeded
    | EnqueueFails(c: nat)                   // over quota, or a store error while enqueueing
    | Update(c: nat)                         // UpdateIdempotencyRecord
    | Delete(c: nat)                         // DeleteIdempotencyRecord
    | Replay(c: nat)                         // GetIdempotencyRecord and the checks on it
    | Fetch(c: nat)                          // GetExecutionJob
    | Stop(c: nat)                           // an unhandled store error, or a crash
    | OtherScope(slot: string, row: Option<Record>)  // another service works under its own scope

  ghost predicate InvokeSlot(slot: string)
  {
    INVOKE + ":" <= slot
  }

  ghost predicate Enabled(w: World, s: Step)
  {
    match s
    case Arrive(c, _) => c !in w.calls
    case Create(c) => c in w.calls && w.calls[c].pc.Start? && w.calls[c].request.Keyed()
    case Put(c, id) => c in w.calls && id !in w.jobs && id != "" && Enqueues(w.calls[c])
    case EnqueueFails(c) => c in w.calls && Enqueues(w.calls[c])
    case Update(c) => c in w.calls && w.calls[c].pc.Created?
    case Delete(c) => c in w.calls && w.calls[c].pc.Undoing?
    case Replay(c) => c in w.calls && w.calls[c].pc.Replaying?
    case Fetch(c) => c in w.calls && w.calls[c].pc.Fetching?
    case Stop(c) => c in w.calls && !w.calls[c].pc.Returned?
    case OtherScope(slot, _) => !InvokeSlot(slot)
  }

  /** A call stores its job once it owns the record, or straight away when it came without a key. */
  predicate Enqueues(call: Call)
  {
    if call.request.Keyed() then call.pc.Owned? else call.pc.Start?
  }

  /** What replayExecution makes of the record it reads. */
  function ReplayPc(w: World, c: nat): Pc
    requires c in w.calls
  {
    var slot := w.Slot(c);
    if slot !in w.records then Refused
    else if w.records[slot].hash != w.calls[c].request.hash then Refused
    else if !w.records[slot].status.Completed? || w.records[slot].resourceId == "" then Refused
    else Fetching(w.records[slot].resourceId)
  }

  ghost function Apply(w: World, s: Step): World
    requires Enabled(w, s)
  {
    match s
    case Arrive(c, request) => w.(calls := w.calls[c := Call(request, Start, None)])
    case Create(c) =>
      var slot := w.Slot(c);
      if slot in w.records then w.Move(c, Replaying)
      else w.Move(c, Owned).(records := w.records[slot := Record(w.calls[c].request.hash, Pending, "")], creator := w.creator[slot := c])
    case Put(c, id) =>
      w.(jobs := w.jobs[id := c],
         calls := w.calls[c := w.calls[c].(pc := if w.calls[c].request.Keyed() then Created(id) else Returned(id), made := Some(id))])
    case EnqueueFails(c) => w.Move(c, if w.calls[c].request.Keyed() then Undoing else Refused)
    case Update(c) =>
      var id := w.calls[c].pc.id;
      w.Move(c, Returned(id)).(records := w.records[w.Slot(c) := Record(w.calls[c].request.hash, Completed, id)])
    case Delete(c) => w.Move(c, Refused).(records := w.records - {w.Slot(c)}, creator := w.creator - {w.Slot(c)})
    case Replay(c) => w.Move(c, ReplayPc(w, c))
    case Fetch(c) => w.Move(c, if w.calls[c].pc.id in w.jobs then Returned(w.calls[c].pc.id) else Refused)
    case Stop(c) => w.Move(c, Refused)
    case OtherScope(slot, row) =>
      w.(records := if row.Some? then w.records[slot := row.value] else w.records - {slot})
  }

  // ---------------------------------------------------------------- what every interleaving keeps

  /** The record in the call's slot is the one the call created. */
  ghost predicate Holds(w: World, c: nat)
    requires c in w.calls
  {
    w.Slot(c) in w.records && w.Slot(c) in w.creator && w.creator[w.Slot(c)] == c
  }

  /** The job was stored by a call for the same slot and the same request. */
  ghost predicate MadeFor(w: World, request: Request, id: string)
  {
    && id in w.jobs && w.jobs[id] in w.calls
    && w.calls[w.jobs[id]].request.Keyed()
    && w.calls[w.jobs[id]].request.Slot() == request.Slot() && w.calls[w.jobs[id]].request.hash == request.hash
  }

  ghost predicate CallOk(w: World, c: nat)
    requires c in w.calls
  {
    var call := w.calls[c];
    && (call.pc.Start? || call.pc.Owned? || call.pc.Undoing? || call.pc.Replaying? ==> call.made.None?)
    && (call.pc.Owned? || call.pc.Undoing? || call.pc.Created? ==> call.request.Keyed() && Holds(w, c))
    && (call.pc.Created? ==> call.made == Some(call.pc.id))
    && (call.made.Some? ==> call.made.value in w.jobs && w.jobs[call.made.value] == c)
    && (call.pc.Replaying? || call.pc.Fetching? ==> call.request.Keyed())
    && ((call.pc.Returned? && call.request.Keyed()) || call.pc.Fetching? ==> MadeFor(w, call.request, call.pc.id))
  }

  ghost predicate RecordOk(w: World, slot: string)
    requires slot in w.records
  {
    && slot in w.creator && w.creator[slot] in w.calls
    && var call := w.calls[w.creator[slot]];
    && call.request.Keyed() && call.request.Slot() == slot && call.request.hash == w.records[slot].hash
    && (w.records[slot].status.Completed? ==> call.made == Some(w.records[slot].resourceId))
  }

  /** The creator of a pending record has not finished, or has stopped. */
  ghost predicate PendingOk(w: World, slot: string)
  {
    slot in w.records && w.records[slot].status.Pending? && slot in w.creator && w.creator[slot] in w.calls ==>
      var pc := w.calls[w.creator[slot]].pc;
      pc.Owned? || pc.Undoing? || pc.Created? || pc.Refused?
  }

  ghost predicate JobOk(w: World, id: string)
    requires id in w.jobs
  {
    && id != "" && w.jobs[id] in w.calls && w.calls[w.jobs[id]].made == Some(id)
    && (w.calls[w.jobs[id]].request.Keyed() ==> Holds(w, w.jobs[id]))
  }

  ghost predicate Inv(w: World)
  {
    && (forall c <- w.calls :: CallOk(w, c))
    && (forall slot <- w.records | InvokeSlot(slot) :: RecordOk(w, slot) && PendingOk(w, slot))
    && (forall id <- w.jobs :: JobOk(w, id))
  }

  lemma SlotIsInvoke(request: Request)
    ensures InvokeSlot(request.Slot())
  {
  }

  ghost predicate ActorOk(w: World, s: Step)
  {
    !s.OtherScope? && s.c in w.calls ==> CallOk(w, s.c)
  }

  /** No other call takes a record away from the call that holds it, nor does that call once it has stored a job. */
  lemma HoldsStays(w: World, s: Step, c: nat)
    requires Enabled(w, s) && ActorOk(w, s) && c in w.calls && Holds(w, c)
    requires s.OtherScope? || s.c != c || w.calls[c].made.Some?
    ensures Holds(Apply(w, s), c)
  {
    SlotIsInvoke(w.calls[c].request);
  }

  lemma MadeForStays(w: World, s: Step, request: Request, id: string)
    requires Enabled(w, s) && MadeFor(w, request, id)
    ensures MadeFor(Apply(w, s), request, id)
  {
  }

  /** Nothing another call does takes a record, a job or a result away from this one. */
  lemma StepKeepsBystander(w: World, s: Step, c: nat)
    requires Enabled(w, s) && ActorOk(w, s) && c in w.calls && CallOk(w, c)
    requires s.OtherScope? || s.c != c
    ensures CallOk(Apply(w, s), c)
  {
    var call := w.calls[c];
    if Holds(w, c) {
      HoldsStays(w, s, c);
    }
    if (call.pc.Returned? || call.pc.Fetching?) && MadeFor(w, call.request, call.pc.id) {
      MadeForStays(w, s, call.request, call.pc.id);
    }
    assert Apply(w, s).calls[c] == call;
    assert call.made.Some? ==> call.made.value in w.jobs ==> call.made.value in Apply(w, s).jobs;
  }

  lemma StepKeepsActor(w: World, s: Step)
    requires Enabled(w, s) && !s.OtherScope?
    requires ActorOk(w, s)
    requires s.Replay? && w.Slot(s.c) in w.records ==> RecordOk(w, w.Slot(s.c))
    requires s.Replay? && w.Slot(s.c) in w.records ==> CallOk(w, w.creator[w.Slot(s.c)])
    ensures CallOk(Apply(w, s), s.c)
  {
  }

  lemma StepKeepsRecord(w: World, s: Step, slot: string)
    requires Enabled(w, s) && ActorOk(w, s) && slot in Apply(w, s).records && InvokeSlot(slot)
    requires slot in w.records ==> RecordOk(w, slot)
    ensures RecordOk(Apply(w, s), slot)
  {
  }

  lemma StepKeepsPending(w: World, s: Step, slot: string)
    requires Enabled(w, s) && ActorOk(w, s) && slot in Apply(w, s).records && InvokeSlot(slot)
    requires slot in w.records ==> RecordOk(w, slot) && PendingOk(w, slot)
    ensures PendingOk(Apply(w, s), slot)
  {
  }

  lemma StepKeepsJob(w: World, s: Step, id: string)
    requires Enabled(w, s) && ActorOk(w, s) && id in Apply(w, s).jobs
    requires id in w.jobs ==> JobOk(w, id)
    ensures JobOk(Apply(w, s), id)
  {
    if id in w.jobs && Holds(w, w.jobs[id]) {
      HoldsStays(w, s, w.jobs[id]);
    }
  }

  lemma StepKeepsInv(w: World, s: Step)
    requires Inv(w) && Enabled(w, s)
    ensures Inv(Apply(w, s))
  {
    forall c <- Apply(w, s).calls
      ensures CallOk(Apply(w, s), c)
    {
      if !s.OtherScope? && c == s.c {
        if c in w.calls {
          SlotIsInvoke(w.calls[c].request);
        }
        StepKeepsActor(w, s);
      } else {
        StepKeepsBystander(w, s, c);
      }
    }
    forall slot <- Apply(w, s).records | InvokeSlot(slot)
      ensures RecordOk(Apply(w, s), slot) && PendingOk(Apply(w, s), slot)
    {
      StepKeepsRecord(w, s, slot);
      StepKeepsPending(w, s, slot);
    }
    forall id <- Apply(w, s).jobs
      ensures JobOk(Apply(w, s), id)
    {
      StepKeepsJob(w, s, id);
    }
  }

  // ---------------------------------------------------------------- runs

  const EMPTY := World(map[], map[], map[], map[])

  datatype Run = Begin | Then(init: Run, last: Step)

  /** The world a run ends in, if all its steps were possible. */
  ghost function After(w: World, run: Run): Option<World>
  {
    match run
    case Begin => Some(w)
    case Then(init, s) =>
      var v := After(w, init);
      if v.Some? && Enabled(v.value, s) then Some(Apply(v.value, s)) else None
  }

  lemma {:induction false} InvAlways(w: World, run: Run)
    requires Inv(w) && After(w, run).Some?
    ensures Inv(After(w, run).value)
  {
    if run.Then? {
      InvAlways(w, run.init);
      StepKeepsInv(After(w, run.init).value, run.last);
    }
  }

  /** However the calls interleave, a slot has at most one job. */
  lemma AtMostOneJob(run: Run, id: string, id': string)
    requires After(EMPTY, run).Some?
    requires var w := After(EMPTY, run).value;
      && id in w.jobs && w.jobs[id] in w.calls && w.calls[w.jobs[id]].request.Keyed()
      && id' in w.jobs && w.jobs[id'] in w.calls && w.calls[w.jobs[id']].request.Keyed()
      && w.Slot(w.jobs[id]) == w.Slot(w.jobs[id'])
    ensures id == id'
  {
    InvAlways(EMPTY, run);
    assert JobOk(After(EMPTY, run).value, id) && JobOk(After(EMPTY, run).value, id');
  }

  /** Two calls on one slot that both return a job return the same job, which one of the calls on the slot stored, and
      they carry the same hash: a call whose request differs from the creator's never succeeds. */
  lemma SuccessfulCallsAgree(run: Run, c: nat, d: nat)
    requires After(EMPTY, run).Some?
    requires var w := After(EMPTY, run).value;
      && c in w.calls && w.calls[c].pc.Returned? && w.calls[c].request.Keyed()
      && d in w.calls && w.calls[d].pc.Returned? && w.calls[d].request.Keyed()
      && w.Slot(c) == w.Slot(d)
    ensures var w := After(EMPTY, run).value;
      && w.calls[c].pc.id == w.calls[d].pc.id
      && w.calls[c].request.hash == w.calls[d].request.hash
      && MadeFor(w, w.calls[c].request, w.calls[c].pc.id)
  {
    InvAlways(EMPTY, run);
    var w := After(EMPTY, run).value;
    assert CallOk(w, c) && CallOk(w, d);
    AtMostOneJob(run, w.calls[c].pc.id, w.calls[d].pc.id);
  }

  /** A record disappears only when the call that created it, and that stored no job, deletes it; and a slot never
      passes from one creator to another while its record stays. */
  lemma OnlyTheCreatorDeletes(run: Run, s: Step, slot: string)
    requires After(EMPTY, run).Some? && Enabled(After(EMPTY, run).value, s)
    requires InvokeSlot(slot) && slot in After(EMPTY, run).value.records
    ensures var w := After(EMPTY, run).value;
      && slot in w.creator && w.creator[slot] in w.calls
      && (slot !in Apply(w, s).records ==> s == Delete(w.creator[slot]) && w.calls[s.c].made.None?)
      && (slot in Apply(w, s).records ==> slot in Apply(w, s).creator && Apply(w, s).creator[slot] == w.creator[slot])
  {
    InvAlways(EMPTY, run);
    var w := After(EMPTY, run).value;
    assert RecordOk(w, slot);
    if s.Delete? {
      assert CallOk(w, s.c);
    }
  }

  /** A job stored by a call on the slot outlives the call: the slot's record stays, created by the same call. */
  lemma JobKeepsItsRecord(run: Run, id: string)
    requires After(EMPTY, run).Some?
    requires var w := After(EMPTY, run).value; id in w.jobs && w.jobs[id] in w.calls && w.calls[w.jobs[id]].request.Keyed()
    ensures Holds(After(EMPTY, run).value, After(EMPTY, run).value.jobs[id])
  {
    InvAlways(EMPTY, run);
    assert JobOk(After(EMPTY, run).value, id);
  }

  // ---------------------------------------------------------------- abandoned records

  /** The record is pending and the call that created it has stopped. */
  ghost predicate Abandoned(w: World, slot: string)
  {
    && InvokeSlot(slot) && slot in w.records && w.records[slot].status.Pending?
    && slot in w.creator && w.creator[slot] in w.calls && w.calls[w.creator[slot]].pc.Refused?
  }

  lemma AbandonedStays(w: World, s: Step, slot: string)
    requires Inv(w) && Enabled(w, s) && Abandoned(w, slot)
    ensures Abandoned(Apply(w, s), slot) && Apply(w, s).records[slot] == w.records[slot]
  {
    assert RecordOk(w, slot);
    if !s.OtherScope? && s.c in w.calls {
      assert CallOk(w, s.c);
    }
  }

  /** Of the calls that arrived after the `known` ones, none on the slot has found a job. */
  ghost predicate Unserved(w: World, slot: string, known: set<nat>)
  {
    forall c <- w.calls | c !in known && w.calls[c].request.Keyed() && w.Slot(c) == slot ::
      w.calls[c].pc.Start? || w.calls[c].pc.Replaying? || w.calls[c].pc.Refused?
  }

  lemma UnservedStays(w: World, s: Step, slot: string, known: set<nat>)
    requires Enabled(w, s) && Abandoned(w, slot) && Unserved(w, slot, known)
    ensures Unserved(Apply(w, s), slot, known)
  {
  }

  /** No recovery: once the creator stops without deleting or completing its record, no call that arrives on the slot
      afterwards ever returns a job. */
  lemma {:induction false} AbandonedSlotNeverServes(w: World, run: Run, slot: string)
    requires Inv(w) && Abandoned(w, slot) && After(w, run).Some?
    ensures Abandoned(After(w, run).value, slot) && After(w, run).value.records[slot] == w.records[slot]
    ensures Unserved(After(w, run).value, slot, w.calls.Keys)
  {
    if run.Then? {
      AbandonedSlotNeverServes(w, run.init, slot);
      InvAlways(w, run.init);
      AbandonedStays(After(w, run.init).value, run.last, slot);
      UnservedStays(After(w, run.init).value, run.last, slot, w.calls.Keys);
    }
  }

  lemma Extend(w: World, run: Run, v: World, s: Step) returns (run': Run, v': World)
    requires After(w, run) == Some(v) && Enabled(v, s)
    ensures After(w, run') == Some(v') && v' == Apply(v, s)
  {
    run', v' := Then(run, s), Apply(v, s);
  }

  /** It does happen: the job is stored, the update of the record fails, and the slot is abandoned with its job. */
  lemma FailedUpdateAbandonsTheSlot(request: Request, id: string) returns (run: Run)
    requires request.Keyed() && id != ""
    ensures After(EMPTY, run).Some? && id in After(EMPTY, run).value.jobs && Abandoned(After(EMPTY, run).value, request.Slot())
  {
    var w;
    SlotIsInvoke(request);
    run, w := Extend(EMPTY, Begin, EMPTY, Arrive(0, request));
    run, w := Extend(EMPTY, run, w, Create(0));
    run, w := Extend(EMPTY, run, w, Put(0, id));
    run, w := Extend(EMPTY, run, w, Stop(0));
  }

  // ---------------------------------------------------------------- one call at a time

  /** A call on a free slot that nothing disturbs stores its job and completes the record. */
  lemma UndisturbedCallSucceeds(w: World, c: nat, request: Request, id: string) returns (run: Run)
    requires c !in w.calls && request.Keyed() && request.Slot() !in w.records && id !in w.jobs && id != ""
    ensures After(w, run).Some?
    ensures var v := After(w, run).value;
      && c in v.calls && v.calls[c].request == request && v.calls[c].pc == Returned(id) && v.jobs == w.jobs[id := c]
      && v.records == w.records[request.Slot() := Record(request.hash, Completed, id)]
  {
    var v;
    run, v := Extend(w, Begin, w, Arrive(c, request));
    run, v := Extend(w, run, v, Create(c));
    run, v := Extend(w, run, v, Put(c, id));
    run, v := Extend(w, run, v, Step.Update(c));
  }

  /** A repeated request that nothing disturbs returns the recorded job and changes neither table. */
  lemma UndisturbedReplayReturnsTheJob(w: World, c: nat, request: Request, id: string) returns (run: Run)
    requires c !in w.calls && request.Keyed() && id in w.jobs && id != ""
    requires request.Slot() in w.records && w.records[request.Slot()] == Record(request.hash, Completed, id)
    ensures After(w, run).Some?
    ensures var v := After(w, run).value;
      && c in v.calls && v.calls[c].request == request && v.calls[c].pc == Returned(id)
      && v.jobs == w.jobs && v.records == w.records
  {
    var v;
    run, v := Extend(w, Begin, w, Arrive(c, request));
    run, v := Extend(w, run, v, Create(c));
    run, v := Extend(w, run, v, Replay(c));
    run, v := Extend(w, run, v, Fetch(c));
  }

  /** A call over quota that nothing disturbs is refused and leaves no trace. */
  lemma UndisturbedRefusalLeavesNoTrace(w: World, c: nat, request: Request) returns (run: Run)
    requires c !in w.calls && request.Keyed() && request.Slot() !in w.records && request.Slot() !in w.creator
    ensures After(w, run).Some?
    ensures var v := After(w, run).value;
      c in v.calls && v.calls[c].pc.Refused? && v.jobs == w.jobs && v.records == w.records && v.creator == w.creator
  {
    var v;
    run, v := Extend(w, Begin, w, Arrive(c, request));
    run, v := Extend(w, run, v, Create(c));
    run, v := Extend(w, run, v, EnqueueFails(c));
    run, v := Extend(w, run, v, Delete(c));
  }

  /** A request that meets the record of another, or a pending one, is refused and changes neither table. */
  lemma UndisturbedConflictIsRefused(w: World, c: nat, request: Request) returns (run: Run)
    requires c !in w.calls && request.Keyed() && request.Slot() in w.records
    requires w.records[request.Slot()].hash != request.hash || w.records[request.Slot()].status.Pending?
    ensures After(w, run).Some?
    ensures var v := After(w, run).value; c in v.calls && v.calls[c].pc.Refused? && v.jobs == w.jobs && v.records == w.records
  {
    var v;
    run, v := Extend(w, Begin, w, Arrive(c, request));
    run, v := Extend(w, run, v, Create(c));
    run, v := Extend(w, run, v, Replay(c));
  }

  /** A call without a key that nothing disturbs stores a job of its own and leaves the records alone. */
  lemma UnkeyedCallStoresAJob(w: World, c: nat, request: Request, id: string) returns (run: Run)
    requires c !in w.calls && !request.Keyed() && id !in w.jobs && id != ""
    ensures After(w, run).Some?
    ensures var v := After(w, run).value;
      c in v.calls && v.calls[c].pc == Returned(id) && v.jobs == w.jobs[id := c] && v.records == w.records
  {
    var v;
    run, v := Extend(w, Begin, w, Arrive(c, request));
    run, v := Extend(w, run, v, Put(c, id));
  }

  // ---------------------------------------------------------------- abandoned and serving slots

  lemma {:induction false} AfterBoth(w: World, run: Run, v: World, more: Run) returns (whole: Run)
    requires After(w, run) == Some(v) && After(v, more).Some?
    ensures After(w, whole) == After(v, more)
  {
    if more.Begin? {
      whole := run;
    } else {
      var init := AfterBoth(w, run, v, more.init);
      whole := Then(init, more.last);
    }
  }

  /** Some continuation lets a new call with the request return a job. */
  ghost predicate CanServe(w: World, request: Request)
  {
    exists run, c :: Serves(w, run, c, request)
  }

  ghost predicate Serves(w: World, run: Run, c: nat, request: Request)
  {
    && After(w, run).Some? && c !in w.calls
    && c in After(w, run).value.calls && After(w, run).value.calls[c].request == request && After(w, run).value.calls[c].pc.Returned?
  }

  /** The creator of a pending record carries on until the record is completed or gone. */
  lemma CreatorCarriesOn(w: World, slot: string, id: string) returns (run: Run, v: World)
    requires Inv(w) && InvokeSlot(slot) && slot in w.records && w.records[slot].status.Pending? && !Abandoned(w, slot)
    requires id !in w.jobs && id != ""
    ensures After(w, run) == Some(v) && v.calls.Keys == w.calls.Keys
    ensures slot in v.records ==> v.records[slot].status.Completed? && v.records[slot].hash == w.records[slot].hash
    ensures slot !in v.records ==> v.jobs == w.jobs
  {
    assert RecordOk(w, slot) && PendingOk(w, slot);
    var c := w.creator[slot];
    assert CallOk(w, c);
    run, v := Begin, w;
    if w.calls[c].pc.Undoing? {
      run, v := Extend(w, run, v, Delete(c));
    } else {
      if w.calls[c].pc.Owned? {
        run, v := Extend(w, run, v, Put(c, id));
      }
      run, v := Extend(w, run, v, Step.Update(c));
    }
  }

  lemma {:induction false} NewCall(calls: set<nat>) returns (c: nat)
    ensures forall d <- calls :: d < c
    decreases |calls|
  {
    c := 0;
    if calls != {} {
      var d :| d in calls;
      c := NewCall(calls - {d});
      assert forall e <- calls :: e == d || e in calls - {d};
      c := if c <= d then d + 1 else c;
    }
  }

  lemma {:induction false} Longer(ids: set<string>) returns (n: nat)
    ensures n > 0 && forall id <- ids :: |id| < n
    decreases |ids|
  {
    n := 1;
    if ids != {} {
      var id :| id in ids;
      n := Longer(ids - {id});
      n := if n <= |id| then |id| + 1 else n;
    }
  }

  lemma FreeSlotServes(w: World, request: Request, c: nat, id: string) returns (run: Run)
    requires request.Keyed() && request.Slot() !in w.records && c !in w.calls && id !in w.jobs && id != ""
    ensures Serves(w, run, c, request)
  {
    run := UndisturbedCallSucceeds(w, c, request, id);
  }

  lemma CompletedSlotServes(w: World, request: Request, c: nat) returns (run: Run)
    requires Inv(w) && request.Keyed() && c !in w.calls && request.Slot() in w.records
    requires w.records[request.Slot()].status.Completed? && w.records[request.Slot()].hash == request.hash
    ensures Serves(w, run, c, request)
  {
    var slot := request.Slot();
    SlotIsInvoke(request);
    assert RecordOk(w, slot) && CallOk(w, w.creator[slot]);
    var id := w.records[slot].resourceId;
    assert JobOk(w, id);
    run := UndisturbedReplayReturnsTheJob(w, c, request, id);
  }

  /** The creator of the record has neither stored a job nor stopped: the record may still go. */
  ghost predicate Open(w: World, slot: string)
  {
    slot in w.creator && w.creator[slot] in w.calls && var pc := w.calls[w.creator[slot]].pc; pc.Owned? || pc.Undoing?
  }

  /** When a key is lost, for any request: a slot can serve it exactly when the slot is not abandoned and, if the record
      is another request's, its creator may still delete it. */
  lemma ServesIff(w: World, request: Request)
    requires Inv(w) && request.Keyed()
    ensures var slot := request.Slot();
      CanServe(w, request) <==> !Abandoned(w, slot) && (slot in w.records && w.records[slot].hash != request.hash ==> Open(w, slot))
  {
    var slot := request.Slot();
    SlotIsInvoke(request);
    if Abandoned(w, slot) {
      AbandonedCannotServe(w, request);
    } else if slot in w.records && w.records[slot].hash != request.hash && !Open(w, slot) {
      ConflictCannotServe(w, request);
    } else {
      var c := NewCall(w.calls.Keys);
      var n := Longer(w.jobs.Keys);
      var id := seq(n, i => 'a');
      var run;
      if slot in w.records && w.records[slot].hash != request.hash {
        run := OpenSlotServes(w, request, c, id);
      } else {
        run := LiveSlotServes(w, request, c, id);
      }
      assert Serves(w, run, c, request);
    }
  }

  lemma CreatorBacksOut(w: World, slot: string) returns (run: Run, v: World)
    requires Inv(w) && InvokeSlot(slot) && slot in w.records && Open(w, slot)
    ensures After(w, run) == Some(v) && v.calls.Keys == w.calls.Keys && v.jobs == w.jobs && slot !in v.records
  {
    assert RecordOk(w, slot);
    var c := w.creator[slot];
    assert CallOk(w, c);
    run, v := Begin, w;
    if w.calls[c].pc.Owned? {
      run, v := Extend(w, run, v, EnqueueFails(c));
    }
    run, v := Extend(w, run, v, Delete(c));
  }

  lemma OpenSlotServes(w: World, request: Request, c: nat, id: string) returns (run: Run)
    requires Inv(w) && request.Keyed() && request.Slot() in w.records && Open(w, request.Slot())
    requires c !in w.calls && id !in w.jobs && id != ""
    ensures Serves(w, run, c, request)
  {
    SlotIsInvoke(request);
    var first, v := CreatorBacksOut(w, request.Slot());
    var rest := FreeSlotServes(v, request, c, id);
    run := AfterBoth(w, first, v, rest);
  }

  /** The record is there to stay. */
  ghost predicate Fixed(w: World, slot: string)
  {
    InvokeSlot(slot) && slot in w.records && !Open(w, slot)
  }

  lemma FixedStays(w: World, s: Step, slot: string)
    requires Inv(w) && Enabled(w, s) && Fixed(w, slot)
    ensures Fixed(Apply(w, s), slot) && Apply(w, s).records[slot].hash == w.records[slot].hash
  {
    assert RecordOk(w, slot) && PendingOk(w, slot) && CallOk(w, w.creator[slot]);
    if !s.OtherScope? && s.c in w.calls {
      assert CallOk(w, s.c);
    }
  }

  /** Of the calls that arrived after the `known` ones, none on the slot with another hash has found a job. */
  ghost predicate Conflicted(w: World, slot: string, hash: string, known: set<nat>)
  {
    forall c <- w.calls | c !in known && w.calls[c].request.Keyed() && w.Slot(c) == slot && w.calls[c].request.hash != hash ::
      w.calls[c].pc.Start? || w.calls[c].pc.Replaying? || w.calls[c].pc.Refused?
  }

  lemma ConflictedStays(w: World, s: Step, slot: string, known: set<nat>)
    requires Enabled(w, s) && Fixed(w, slot) && Conflicted(w, slot, w.records[slot].hash, known)
    ensures Conflicted(Apply(w, s), slot, w.records[slot].hash, known)
  {
  }

  /** A record that is there to stay refuses every later call with another hash. */
  lemma {:induction false} FixedSlotNeverServes(w: World, run: Run, slot: string)
    requires Inv(w) && Fixed(w, slot) && After(w, run).Some?
    ensures Fixed(After(w, run).value, slot) && After(w, run).value.records[slot].hash == w.records[slot].hash
    ensures Conflicted(After(w, run).value, slot, w.records[slot].hash, w.calls.Keys)
  {
    if run.Then? {
      FixedSlotNeverServes(w, run.init, slot);
      InvAlways(w, run.init);
      FixedStays(After(w, run.init).value, run.last, slot);
      ConflictedStays(After(w, run.init).value, run.last, slot, w.calls.Keys);
    }
  }

  lemma ConflictCannotServe(w: World, request: Request)
    requires Inv(w) && request.Keyed() && Fixed(w, request.Slot()) && w.records[request.Slot()].hash != request.hash
    ensures !CanServe(w, request)
  {
    forall run, c | After(w, run).Some?
      ensures !Serves(w, run, c, request)
    {
      FixedSlotNeverServes(w, run, request.Slot());
    }
  }

  lemma AbandonedCannotServe(w: World, request: Request)
    requires Inv(w) && request.Keyed() && Abandoned(w, request.Slot())
    ensures !CanServe(w, request)
  {
    forall run, c | After(w, run).Some?
      ensures !Serves(w, run, c, request)
    {
      AbandonedSlotNeverServes(w, run, request.Slot());
    }
  }

  lemma LiveSlotServes(w: World, request: Request, c: nat, id: string) returns (run: Run)
    requires Inv(w) && request.Keyed() && (request.Slot() in w.records ==> w.records[request.Slot()].hash == request.hash)
    requires c !in w.calls && id !in w.jobs && id != "" && !Abandoned(w, request.Slot())
    ensures Serves(w, run, c, request)
  {
    var slot := request.Slot();
    SlotIsInvoke(request);
    if slot !in w.records {
      run := FreeSlotServes(w, request, c, id);
    } else if w.records[slot].status.Completed? {
      run := CompletedSlotServes(w, request, c);
    } else {
      var first, v := CreatorCarriesOn(w, slot, id);
      InvAlways(w, first);
      var rest;
      if slot in v.records {
        rest := CompletedSlotServes(v, request, c);
      } else {
        rest := FreeSlotServes(v, request, c, id);
      }
      run := AfterBoth(w, first, v, rest);
    }
  }

  // ---------------------------------------------------------------- composite keys

  ghost predicate ColonFree(s: string)
  {
    ':' !in s
  }

  /** Slots of different scopes, projects or keys differ as long as scope and project contain no colon. */
  lemma KeyIsInjective(scope: string, projectId: string, key: string, scope': string, projectId': string, key': string)
    requires ColonFree(scope) && ColonFree(scope') && ColonFree(projectId) && ColonFree(projectId')
    requires IdempotencyKey(scope, projectId, key) == IdempotencyKey(scope', projectId', key')
    ensures scope == scope' && projectId == projectId' && key == key'
  {
    assert IdempotencyKey(scope, projectId, key) == scope + [':'] + (projectId + [':'] + key);
    assert IdempotencyKey(scope', projectId', key') == scope' + [':'] + (projectId' + [':'] + key');
    Text.SplitUnique(':', scope, projectId + [':'] + key, scope', projectId' + [':'] + key');
    Text.SplitUnique(':', projectId, key, projectId', key');
  }

  /** Exactly when two requests share a slot: the same project and key, or one project followed by a colon begins the
      other and the key of the shorter one makes up for the rest. */
  lemma SameSlotIff(r: Request, r': Request)
    ensures r.Slot() == r'.Slot() <==>
      var p, q := r.projectId, r'.projectId;
      || (p == q && r.key == r'.key)
      || (p + ":" <= q && r.key == q[|p| + 1..] + ":" + r'.key)
      || (q + ":" <= p && r'.key == p[|q| + 1..] + ":" + r.key)
  {
    var x, y := r.projectId + ":" + r.key, r'.projectId + ":" + r'.key;
    assert r.Slot() == "invoke:" + x && r'.Slot() == "invoke:" + y;
    assert r.Slot()[7..] == x && r'.Slot()[7..] == y;
    Text.JoinedEqualIff(':', r.projectId, r.key, r'.projectId, r'.key);
  }

  /** Two projects can get in each other's way exactly when one id followed by a colon begins the other. */
  lemma ProjectsInterfereIff(p: string, q: string)
    requires p != q
    ensures (exists k, l :: k != "" && l != "" && IdempotencyKey(INVOKE, p, k) == IdempotencyKey(INVOKE, q, l)) <==> p + ":" <= q || q + ":" <= p
  {
    forall k, l | IdempotencyKey(INVOKE, p, k) == IdempotencyKey(INVOKE, q, l)
      ensures p + ":" <= q || q + ":" <= p
    {
      SameSlotIff(Request(p, k, ""), Request(q, l, ""));
    }
    if p + ":" <= q {
      var k, l := q[|p| + 1..] + ":" + "k", "k";
      SameSlotIff(Request(p, k, ""), Request(q, l, ""));
      assert IdempotencyKey(INVOKE, p, k) == IdempotencyKey(INVOKE, q, l);
    } else if q + ":" <= p {
      var k, l := "k", p[|q| + 1..] + ":" + "k";
      SameSlotIff(Request(p, k, ""), Request(q, l, ""));
      assert IdempotencyKey(INVOKE, p, k) == IdempotencyKey(INVOKE, q, l);
    }
  }

  /** A project id with a colon can share its slot with another project. */
  lemma ColonsMergeSlots() returns (r: Request, r': Request)
    ensures r.projectId != r'.projectId && r.Keyed() && r'.Keyed() && r.Slot() == r'.Slot()
  {
    r, r' := Request("a:b", "c", ""), Request("a", "b:c", "");
    assert r.Slot() == "invoke:a:b:c";
    assert r'.Slot() == "invoke:a:b:c";
  }

  // ---------------------------------------------------------------- the record table and the operation

  class IdempotencyTable {
    var rows: map<string, Record>

    constructor ()
      ensures rows == map[]
    {
      rows := map[];
    }

    method Create(slot: string, record: Record) returns (created: bool)
      modifies this
      ensures created <==> slot !in old(rows)
      ensures rows == if created then old(rows)[slot := record] else old(rows)
    {
      created := slot !in rows;
      if created {
        rows := rows[slot := record];
      }
    }

    method Update(slot: string, record: Record)
      modifies this
      ensures rows == old(rows)[slot := record]
    {
      rows := rows[slot := record];
    }

    method Delete(slot: string)
      modifies this
      ensures rows == old(rows) - {slot}
    {
      rows := rows - {slot};
    }
  }

  const NOT_FOUND := "not found"
  const CONFLICT := "idempotency key reused with different request"
  const IN_PROGRESS := "idempotent request already in progress"

  method ReplayExecution(store: Store, table: IdempotencyTable, request: Request) returns (r: Result<Job>)
    ensures r.Ok? <==>
      && request.Slot() in table.rows && table.rows[request.Slot()].hash == request.hash
      && table.rows[request.Slot()].status.Completed? && table.rows[request.Slot()].resourceId != ""
      && table.rows[request.Slot()].resourceId in store.jobs
    ensures r.Ok? ==> r.value == store.jobs[table.rows[request.Slot()].resourceId]
    ensures r == Err(CONFLICT) <==> request.Slot() in table.rows && table.rows[request.Slot()].hash != request.hash
    ensures r == Err(IN_PROGRESS) <==>
      && request.Slot() in table.rows && table.rows[request.Slot()].hash == request.hash
      && (table.rows[request.Slot()].status.Pending? || table.rows[request.Slot()].resourceId == "")
  {
    if request.Slot() !in table.rows {
      return Err(NOT_FOUND);
    }
    var record := table.rows[request.Slot()];
    if record.hash != request.hash {
      return Err(CONFLICT);
    }
    if !record.status.Completed? || record.resourceId == "" {
      return Err(IN_PROGRESS);
    }
    if record.resourceId !in store.jobs {
      return Err(NOT_FOUND);
    }
    return Ok(store.jobs[record.resourceId]);
  }

  /** DispatchExecutionIdempotent, undisturbed: either the slot is free, and then the call stores a job and its
      completed record or leaves no trace; or the slot is taken, and then nothing changes and only the recorded job
      can be returned. */
  method DispatchExecutionIdempotent(store: Store, table: IdempotencyTable, versionId: string, payload: string, key: string,
                                     hash: string, id: string, now: Time) returns (r: Result<Job>)
    requires id !in store.jobs && id != "" && KeyedJobs(store.jobs)
    modifies store`jobs, table
    ensures versionId !in store.versions ==> r == Err(NOT_FOUND) && store.View() == old(store.View()) && table.rows == old(table.rows)
    ensures versionId in store.versions && key == "" ==>
      && (r.Err? <==> |ActiveIds(old(store.jobs), store.versions[versionId].projectId)| >= 200)
      && (r.Ok? ==> r.value == NewJob(id, store.versions[versionId], payload, now))
      && table.rows == old(table.rows)
      && store.View() == if r.Ok? then old(store.View()).PutJob(NewJob(id, store.versions[versionId], payload, now)) else old(store.View())
    ensures versionId in store.versions && key != "" ==>
      var slot := Request(store.versions[versionId].projectId, key, hash).Slot();
      && (r.Ok? ==> slot in table.rows && table.rows[slot] == Record(hash, Completed, r.value.id))
      && (slot in old(table.rows) ==> store.View() == old(store.View()) && table.rows == old(table.rows))
      && (slot in old(table.rows) ==> (r == Err(CONFLICT) <==> old(table.rows)[slot].hash != hash))
      && (slot !in old(table.rows) ==> (r.Err? <==> |ActiveIds(old(store.jobs), store.versions[versionId].projectId)| >= 200))
      && (slot in old(table.rows) ==>
            var record := old(table.rows)[slot];
            && (r.Ok? <==> record.hash == hash && record.status.Completed? && record.resourceId != "" && record.resourceId in old(store.jobs))
            && (r.Ok? ==> r.value == old(store.jobs)[record.resourceId])
            && (r == Err(IN_PROGRESS) <==> record.hash == hash && (record.status.Pending? || record.resourceId == "")))
      && (slot !in old(table.rows) && r.Ok? ==>
            && r.value == NewJob(id, store.versions[versionId], payload, now) && store.View() == old(store.View()).PutJob(r.value)
            && table.rows == old(table.rows)[slot := Record(hash, Completed, id)])
      && (slot !in old(table.rows) && r.Err? ==> store.View() == old(store.View()) && table.rows == old(table.rows))
    ensures versionId in store.versions && r.Ok? ==> r.value.id in store.jobs && store.jobs[r.value.id] == r.value
  {
    if versionId !in store.versions {
      return Err(NOT_FOUND);
    }
    var version := store.versions[versionId];
    if key == "" {
      r := Scheduler.EnqueueExecution(store, id, version, payload, now);
      return;
    }
    var request := Request(version.projectId, key, hash);
    var created := table.Create(request.Slot(), Record(hash, Pending, ""));
    if !created {
      r := ReplayExecution(store, table, request);
      return;
    }
    r := Scheduler.EnqueueExecution(store, id, version, payload, now);
    if r.Err? {
      table.Delete(request.Slot());
      return;
    }
    table.Update(request.Slot(), Record(hash, Completed, r.value.id));
  }
}
