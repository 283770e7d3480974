/** The progress publisher (blackvuesync/server/progress.py): its snapshots as values, each
    writer call as a function of the snapshot, and the class that keeps them. Clock readings
    and transfer speeds are not modelled. */
module Progress {
  import opened Common

  type JobId = string
  const NO_JOB: JobId := ""

  datatype FileState = Starting | Downloading | FileComplete | FileFailed

  datatype FileProgress = FileProgress(filename: string, totalBytes: int, downloaded: nat, state: FileState)

  datatype JobState = Idle | Running | Complete | Failed

  datatype SyncProgress = SyncProgress(
    jobId: JobId, state: JobState, current: Option<FileProgress>,
    filesTotal: int, completed: nat, failed: nat, bytes: nat, skipped: nat)

  const IDLE := SyncProgress(NO_JOB, Idle, None, 0, 0, 0, 0, 0)

  function Max0(n: int): int { if n > 0 then n else 0 }

  function Begun(filesTotal: int, jobId: JobId): SyncProgress
  {
    SyncProgress(jobId, Running, None, filesTotal, 0, 0, 0, 0)
  }

  function TotalSet(p: SyncProgress, filesTotal: int): SyncProgress
  {
    p.(filesTotal := Max0(filesTotal - p.skipped))
  }

  function FileStarted(p: SyncProgress, filename: string, totalBytes: int): SyncProgress
  {
    p.(current := Some(FileProgress(filename, totalBytes, 0, Starting)))
  }

  function BytesUpdated(p: SyncProgress, downloaded: nat, totalBytes: int): SyncProgress
  {
    if p.current.None? then p else
    var cf := p.current.value;
    p.(current := Some(cf.(totalBytes := if totalBytes > 0 then totalBytes else cf.totalBytes,
                           downloaded := downloaded, state := Downloading)))
  }

  function FileFinished(p: SyncProgress, success: bool): SyncProgress
  {
    if p.current.None? then p else
    var cf := p.current.value;
    p.(current := Some(cf.(state := if success then FileComplete else FileFailed)),
       completed := p.completed + (if success then 1 else 0),
       failed := p.failed + (if success then 0 else 1),
       bytes := p.bytes + (if success then cf.downloaded else 0))
  }

  function FileSkipped(p: SyncProgress): SyncProgress
  {
    p.(filesTotal := Max0(p.filesTotal - 1), skipped := p.skipped + 1)
  }

  function JobEnded(p: SyncProgress, success: bool): SyncProgress
  {
    p.(state := if success then Complete else Failed, current := None)
  }

  /** _reset_to_idle as run by a retention timer that was set for `jobId`. */
  function TimerReset(p: SyncProgress, jobId: JobId): SyncProgress
  {
    if p.jobId != jobId || p.state.Running? then p else IDLE
  }

  const QUEUE_MAX := 2

  /** put_nowait on a bounded queue: the frame is dropped when the queue is full. */
  function Offered(queue: seq<SyncProgress>, frame: SyncProgress): seq<SyncProgress>
  {
    if |queue| < QUEUE_MAX then queue + [frame] else queue
  }

  /** Every subscriber is offered the frame. */
  function AllOffered(subscribers: map<nat, seq<SyncProgress>>, frame: SyncProgress): map<nat, seq<SyncProgress>>
  {
    map s | s in subscribers :: Offered(subscribers[s], frame)
  }

  /** A retention timer; one that is already waiting on the lock fires even when cancelled. */
  datatype Timer = Timer(jobId: JobId, cancelled: bool)

  class ProgressPublisher {
    var state: SyncProgress
    var subscribers: map<nat, seq<SyncProgress>>
    var timers: seq<Timer>
    var retentionTimer: Option<nat>

    ghost predicate Valid()
      reads this
    {
      retentionTimer.Some? ==> retentionTimer.value < |timers|
    }

    constructor ()
      ensures Valid() && state == IDLE && subscribers == map[] && timers == [] && retentionTimer == None
    {
      state, subscribers, timers, retentionTimer := IDLE, map[], [], None;
    }

    /** Every subscriber gets the snapshot, unless two are waiting for it already. */
    method Publish()
      modifies this`subscribers
      ensures subscribers == AllOffered(old(subscribers), state)
      ensures subscribers.Keys == old(subscribers.Keys) && forall s :: s in subscribers ==>
        subscribers[s] == old(subscribers)[s] + if |old(subscribers)[s]| < 2 then [state] else []
    {
      var left := subscribers.Keys;
      while left != {}
        invariant left <= subscribers.Keys == old(subscribers).Keys
        invariant forall s :: s in subscribers ==>
          subscribers[s] == if s in left then old(subscribers)[s] else Offered(old(subscribers)[s], state)
        decreases |left|
      {
        var s :| s in left;
        left := left - {s};
        subscribers := subscribers[s := Offered(subscribers[s], state)];
      }
    }

    method BeginJob(filesTotal: int, jobId: JobId)
      requires Valid()
      modifies this
      ensures Valid() && state == Begun(filesTotal, jobId) && retentionTimer == None
      ensures state.jobId == jobId && state.state == Running && state.current == None && state.filesTotal == filesTotal
      ensures state.completed == state.failed == state.skipped == state.bytes == 0
      ensures subscribers == AllOffered(old(subscribers), state)
      ensures |timers| == |old(timers)| && forall i :: 0 <= i < |timers| ==>
        timers[i] == if old(retentionTimer) == Some(i) then old(timers)[i].(cancelled := true) else old(timers)[i]
    {
      if retentionTimer.Some? {
        timers := timers[retentionTimer.value := timers[retentionTimer.value].(cancelled := true)];
        retentionTimer := None;
      }
      state := Begun(filesTotal, jobId);
      Publish();
    }

    method SetTotal(filesTotal: int)
      modifies this`state, this`subscribers
      ensures state == TotalSet(old(state), filesTotal) == old(state).(filesTotal := state.filesTotal)
      ensures state.filesTotal == if filesTotal > old(state).skipped then filesTotal - old(state).skipped else 0
      ensures subscribers == AllOffered(old(subscribers), state)
    {
      state := state.(filesTotal := Max0(filesTotal - state.skipped));
      Publish();
    }

    method StartFile(filename: string, totalBytes: int)
      modifies this`state, this`subscribers
      ensures state == FileStarted(old(state), filename, totalBytes)
           == old(state).(current := Some(FileProgress(filename, totalBytes, 0, Starting)))
      ensures subscribers == AllOffered(old(subscribers), state)
    {
      state := state.(current := Some(FileProgress(filename, totalBytes, 0, Starting)));
      Publish();
    }

    /** Bytes of an unfinished file count nowhere but in it. `due` says whether the publish
        throttle lets this update through. */
    method UpdateBytes(downloaded: nat, totalBytes: int, due: bool)
      modifies this`state, this`subscribers
      ensures state == BytesUpdated(old(state), downloaded, totalBytes)
      ensures state == old(state).(current := state.current) && (state.current.Some? <==> old(state).current.Some?)
      ensures state.current.Some? ==>
        && state.current.value.filename == old(state).current.value.filename
        && state.current.value.downloaded == downloaded && state.current.value.state == Downloading
        && state.current.value.totalBytes
           == if totalBytes > 0 then totalBytes else old(state).current.value.totalBytes
      ensures subscribers
        == if due && state.current.Some? then AllOffered(old(subscribers), state) else old(subscribers)
    {
      if state.current.None? { return; }
      state := BytesUpdated(state, downloaded, totalBytes);
      if due { Publish(); }
    }

    /** A finished file is counted once, and its bytes only if it succeeded. */
    method FinishFile(success: bool)
      modifies this`state, this`subscribers
      ensures state == FileFinished(old(state), success)
      ensures state.completed + state.failed
           == old(state.completed + state.failed) + if old(state).current.Some? then 1 else 0
      ensures state.completed > old(state).completed <==> success && old(state).current.Some?
      ensures state.bytes == old(state).bytes
        + if success && old(state).current.Some? then old(state).current.value.downloaded else 0
      ensures state.filesTotal == old(state).filesTotal && state.skipped == old(state).skipped
      ensures state.current == if old(state).current.None? then None
        else Some(old(state).current.value.(state := if success then FileComplete else FileFailed))
      ensures subscribers == if state.current.Some? then AllOffered(old(subscribers), state) else old(subscribers)
    {
      if state.current.None? { return; }
      state := FileFinished(state, success);
      Publish();
    }

    method SkipFile(due: bool)
      modifies this`state, this`subscribers
      ensures state == FileSkipped(old(state)) == old(state).(filesTotal := state.filesTotal, skipped := state.skipped)
      ensures state.skipped == old(state).skipped + 1
      ensures state.filesTotal == if old(state).filesTotal > 1 then old(state).filesTotal - 1 else 0
      ensures subscribers == if due then AllOffered(old(subscribers), state) else old(subscribers)
    {
      state := state.(filesTotal := Max0(state.filesTotal - 1), skipped := state.skipped + 1);
      if due { Publish(); }
    }

    method EndJob(success: bool)
      requires Valid()
      modifies this
      ensures Valid() && state == JobEnded(old(state), success)
           == old(state).(state := if success then Complete else Failed, current := None)
      ensures |timers| == |old(timers)| + 1 && retentionTimer == Some(|old(timers)|)
      ensures timers[|old(timers)|] == Timer(old(state).jobId, false)
      ensures forall i :: 0 <= i < |old(timers)| ==>
        timers[i] == if old(retentionTimer) == Some(i) then old(timers)[i].(cancelled := true) else old(timers)[i]
      ensures subscribers == AllOffered(old(subscribers), state)
    {
      state := JobEnded(state, success);
      Publish();
      if retentionTimer.Some? {
        timers := timers[retentionTimer.value := timers[retentionTimer.value].(cancelled := true)];
      }
      retentionTimer := Some(|timers|);
      timers := timers + [Timer(state.jobId, false)];
    }

    /** Any timer ever started may fire, once or late: a finished or newer job is safe only
        because of what this checks. */
    method FireTimer(i: nat)
      requires Valid() && i < |timers|
      modifies this
      ensures Valid() && timers == old(timers) && state == TimerReset(old(state), timers[i].jobId)
      ensures state != old(state) ==> old(state).jobId == timers[i].jobId && !old(state).state.Running?
      ensures subscribers == old(subscribers) || subscribers == AllOffered(old(subscribers), state)
      ensures state != old(state) ==> subscribers == AllOffered(old(subscribers), state) && retentionTimer == None
    {
      if state.jobId != timers[i].jobId || state.state.Running? { return; }
      retentionTimer := None;
      state := IDLE;
      Publish();
    }
  }
}
