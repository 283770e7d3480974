/** The resumable download of one file: the Range request, the decision taken on the
    dashcam's reply, the streaming loop, and the restart paths (blackvuesync/sync.py). */
module Download {
  import opened Common

  /** A file of the destination; `dir` is the group directory, "" for the destination itself. */
  datatype Path = Path(dir: string, name: string)

  /** A failure marker holds the time of the failure, or text that is not a time. */
  datatype Mark = Stamp(t: int) | Unreadable

  /** The destination tree. The `.failed` markers are kept apart from the other files,
      under the name they have on disk. */
  datatype Dest = Dest(files: map<Path, Bytes>, marks: map<Path, Mark>)

  function Final(dir: string, name: string): Path { Path(dir, name) }
  function Partial(name: string): Path { Path("", "." + name) }
  function Marker(dir: string, name: string): Path { Path(dir, name + ".failed") }

  /** Names built from a recording start with a digit; all this part needs is that they
      are not dot-files themselves. */
  predicate ArtifactName(name: string) { |name| > 0 && name[0] != '.' }

  // ---- what the dashcam and the file system answer -------------------------------------

  datatype Length = Absent | Malformed | Stated(n: int)

  /** A parsed Content-Range; `total` is None for "*". Missing or malformed headers are
      None at the place of use. */
  datatype ContentRange = ContentRange(start: nat, total: Option<nat>)

  datatype BodyEnd = Eof | ReadTimeout | ReadError

  /** One reply. `chunks` are the successive results of read(), `end` what happens after
      the last of them, and `stopAt` the first chunk at whose arrival a stop is requested. */
  datatype Reply =
    | Body(status: nat, length: Length, range: Option<ContentRange>,
           chunks: seq<Bytes>, end: BodyEnd, stopAt: Option<nat>)
    | HttpError(code: nat)
    | UrlError
    | Timeout

  /** What one attempt meets: the clock, the dashcam's answer to each possible offset, and
      whether the file-system calls succeed. */
  datatype Attempt = Attempt(now: int, reply: nat -> Reply,
                             unmarkOk: bool, unlinkOk: bool, markOk: bool, renameOk: bool)

  datatype Options = Options(dryRun: bool, retryAfter: int)

  datatype Reason = Http | Network | TimedOutReason

  /** What a call does that others can see: log events, requests, callbacks and metrics. */
  datatype Event =
    | AlreadyDownloaded
    | WouldDownload
    | RecentlyFailed
    | Started
    | Request(name: string, offset: nat)
    | Chunk(downloaded: nat, total: int)
    | CountFile(transferred: nat)
    | CountFailure(reason: Reason)

  datatype Error = BadDestination | StopRequested | DashcamTimeout | BadHeader | BrokenRead | RenameFailed

  /** `Pending` means the attempts ran out while the call wanted another one. */
  datatype Outcome = Returned(ok: bool) | Raised(error: Error) | Pending

  datatype Run = Run(dest: Dest, outcome: Outcome, events: seq<Event>)

  // ---- the decision on a reply ------------------------------------------------------------

  datatype Action = Resume(total: int) | Restart | Fresh(total: int)

  function ResumeDecision(status: nat, length: Length, range: Option<ContentRange>, offset: nat): (r: Option<Action>)
    // an append is only ever chosen for a 206 that confirms the requested offset
    ensures r.Some? && r.value.Resume? ==>
      status == 206 && offset > 0 && range.Some? && range.value.start == offset
    // an unconfirmed 206 never reaches the file
    ensures r.Some? && r.value.Fresh? ==> status != 206 || offset == 0
  {
    if length.Malformed? then None else
    var stated := if length.Stated? then length.n else 0;
    if status == 206 && offset > 0 then
      if range.Some? && range.value.start == offset then
        Some(Resume(if range.value.total.Some? then range.value.total.value else offset + stated))
      else
        Some(Restart)
    else
      Some(Fresh(stated))
  }

  // ---- streaming --------------------------------------------------------------------------

  predicate LastRead(chunks: seq<Bytes>, stopAt: Option<nat>, i: nat)
  {
    i >= |chunks| || |chunks[i]| == 0 || (stopAt.Some? && stopAt.value <= i)
  }

  /** How many chunks are written, counting from chunk i. */
  function Written(chunks: seq<Bytes>, stopAt: Option<nat>, i: nat): (n: nat)
    requires i <= |chunks|
    ensures i <= n <= |chunks|
    ensures LastRead(chunks, stopAt, n)
    ensures forall j :: i <= j < n ==> !LastRead(chunks, stopAt, j)
    decreases |chunks| - i
  {
    if LastRead(chunks, stopAt, i) then i else Written(chunks, stopAt, i + 1)
  }

  function Progressed(chunks: seq<Bytes>, total: int, n: nat): seq<Event>
    requires n <= |chunks|
  {
    if n == 0 then [] else Progressed(chunks, total, n - 1) + [Chunk(|Flatten(chunks[..n])|, total)]
  }

  /** Writing one more chunk after a partial that started as `base`. */
  lemma OneMoreChunk(base: Bytes, chunks: seq<Bytes>, total: int, n: nat)
    requires n < |chunks|
    ensures base + Flatten(chunks[..n + 1]) == base + Flatten(chunks[..n]) + chunks[n]
    ensures |Flatten(chunks[..n + 1])| == |Flatten(chunks[..n])| + |chunks[n]|
    ensures Progressed(chunks, total, n + 1)
         == Progressed(chunks, total, n) + [Chunk(|Flatten(chunks[..n])| + |chunks[n]|, total)]
  {
    assert chunks[..n + 1] == chunks[..n] + [chunks[n]];
    FlattenSnoc(chunks[..n], chunks[n]);
  }

  // ---- one transfer -----------------------------------------------------------------------

  datatype TransferEnd =
    | HttpFailed(code: nat)
    | NetworkFailed
    | TransferTimeout
    | Crashed(error: Error)
    | NeedsRestart
    | Done(transferred: nat, expected: int)

  datatype Transferred = Transferred(files: map<Path, Bytes>, end: TransferEnd, events: seq<Event>)

  function ResumeOffset(files: map<Path, Bytes>, name: string): nat
  {
    if Partial(name) in files then |files[Partial(name)]| else 0
  }

  /** What is on disk once the partial is open for this transfer. */
  function Opened(files: map<Path, Bytes>, name: string, append: bool): Bytes
  {
    if append && Partial(name) in files then files[Partial(name)] else []
  }

  /** How the loop ends after n chunks were written. */
  function StreamEnd(reply: Reply, n: nat, total: int): TransferEnd
    requires reply.Body? && n <= |reply.chunks|
  {
    if n < |reply.chunks| && |reply.chunks[n]| > 0 then Crashed(StopRequested)
    else if n < |reply.chunks| || reply.end.Eof? then Done(|Flatten(reply.chunks[..n])|, total)
    else if reply.end.ReadTimeout? then TransferTimeout
    else Crashed(BrokenRead)
  }

  function Streamed(files: map<Path, Bytes>, name: string, append: bool, total: int, reply: Reply): Transferred
    requires reply.Body?
  {
    var n := Written(reply.chunks, reply.stopAt, 0);
    Transferred(files[Partial(name) := Opened(files, name, append) + Flatten(reply.chunks[..n])],
                StreamEnd(reply, n, total), Progressed(reply.chunks, total, n))
  }

  /** The result of the streaming loop once it is known to stop at chunk n. */
  lemma StreamedIs(files: map<Path, Bytes>, name: string, append: bool, total: int, reply: Reply, n: nat)
    requires reply.Body? && n <= |reply.chunks| && LastRead(reply.chunks, reply.stopAt, n)
    requires forall j :: 0 <= j < n ==> !LastRead(reply.chunks, reply.stopAt, j)
    ensures Streamed(files, name, append, total, reply)
         == Transferred(files[Partial(name) := Opened(files, name, append) + Flatten(reply.chunks[..n])],
                        StreamEnd(reply, n, total), Progressed(reply.chunks, total, n))
  {
    assert Written(reply.chunks, reply.stopAt, 0) == n;
  }

  function Transfer(files: map<Path, Bytes>, name: string, offset: nat, reply: Reply): Transferred
  {
    match reply
    case HttpError(code) => Transferred(files, HttpFailed(code), [])
    case UrlError => Transferred(files, NetworkFailed, [])
    case Timeout => Transferred(files, TransferTimeout, [])
    case Body(status, length, range, _, _, _) =>
      match ResumeDecision(status, length, range, offset)
      case None => Transferred(files, Crashed(BadHeader), [])
      case Some(Restart) => Transferred(files, NeedsRestart, [])
      case Some(Resume(total)) => Streamed(files, name, true, total, reply)
      case Some(Fresh(total)) => Streamed(files, name, false, total, reply)
  }

  // ---- the whole call ---------------------------------------------------------------------

  predicate Blocked(marks: map<Path, Mark>, dir: string, name: string, now: int, retryAfter: int)
  {
    var m := Marker(dir, name);
    m in marks && marks[m].Stamp? && now - marks[m].t < retryAfter
  }

  /** The size check before the rename: a transfer of known size must have it. */
  predicate Finalises(expected: int, size: nat) { expected == 0 || size == expected }

  function Prepend(events: seq<Event>, run: Run): Run { run.(events := events + run.events) }

  /** One attempt either ends the call or asks for a restart from byte 0. */
  datatype Tried = Ended(run: Run) | Again(dest: Dest, events: seq<Event>)

  function Try(o: Options, d: Dest, dir: string, name: string, a: Attempt): Tried
  {
    if Blocked(d.marks, dir, name, a.now, o.retryAfter) then Ended(Run(d, Returned(false), [RecentlyFailed]))
    else
      var marks := if a.unmarkOk then d.marks - {Marker(dir, name)} else d.marks;
      var offset := ResumeOffset(d.files, name);
      var t := Transfer(d.files, name, offset, a.reply(offset));
      Settle(dir, name, a, offset, t, marks, [Started, Request(name, offset)] + t.events)
  }

  /** What is made of the end of a transfer. */
  function Settle(dir: string, name: string, a: Attempt, offset: nat, t: Transferred, marks: map<Path, Mark>,
      before: seq<Event>): Tried
  {
    var left := Dest(t.files, marks);
    var discarded := left.(files := if a.unlinkOk then t.files - {Partial(name)} else t.files);
    match t.end
    case HttpFailed(code) =>
      if code == 416 && offset > 0 then Again(discarded, before)
      else
        Ended(Run(left.(marks := if a.markOk then marks[Marker(dir, name) := Stamp(a.now)] else marks),
                  Returned(false), before + [CountFailure(Http)]))
    case NetworkFailed => Ended(Run(left, Returned(false), before + [CountFailure(Network)]))
    case TransferTimeout => Ended(Run(left, Raised(DashcamTimeout), before + [CountFailure(TimedOutReason)]))
    case Crashed(e) => Ended(Run(left, Raised(e), before))
    case NeedsRestart => Again(discarded, before)
    case Done(transferred, expected) =>
      if !Finalises(expected, ResumeOffset(t.files, name)) then
        Ended(Run(left, Returned(false), before + [CountFailure(Network)]))
      else if !a.renameOk then Ended(Run(left, Raised(RenameFailed), before))
      else Ended(Run(left.(files := Renamed(t.files, dir, name)), Returned(true), before + [CountFile(transferred)]))
  }

  /** download_file as a function of the destination and of everything the call meets. */
  function Call(o: Options, dirOk: bool, d: Dest, dir: string, name: string, attempts: seq<Attempt>): Run
    decreases |attempts|
  {
    if dir != "" && !dirOk then Run(d, Raised(BadDestination), [])
    else if Final(dir, name) in d.files then Run(d, Returned(false), [AlreadyDownloaded])
    else if o.dryRun then Run(d, Returned(true), [WouldDownload])
    else if attempts == [] then Run(d, Pending, [])
    else
      match Try(o, d, dir, name, attempts[0])
      case Ended(run) => run
      case Again(dest, events) => Prepend(events, Call(o, dirOk, dest, dir, name, attempts[1..]))
  }

  function Renamed(files: map<Path, Bytes>, dir: string, name: string): map<Path, Bytes>
  {
    if Partial(name) in files then (files - {Partial(name)})[Final(dir, name) := files[Partial(name)]] else files
  }

  // ---- honest dashcams ---------------------------------------------------------------------

  /** A reply that tells the truth about an immutable source. Bodies may be cut anywhere,
      an unconfirmed 206 may carry anything, and every kind of error is allowed. */
  ghost predicate Honest(source: map<string, Bytes>, name: string, offset: nat, reply: Reply)
  {
    reply.Body? ==>
      name in source &&
      var s := source[name];
      || (reply.status == 200 && reply.length == Stated(|s|) && Flatten(reply.chunks) <= s)
      || (reply.status == 206 && offset > 0 &&
          (reply.range.Some? && reply.range.value.start == offset ==>
             && offset <= |s|
             && Flatten(reply.chunks) <= s[offset..]
             && (reply.range.value.total.Some? ==> reply.range.value.total.value == |s|)
             && (reply.range.value.total.None? ==> reply.length == Stated(|s| - offset))))
  }

  ghost predicate HonestAttempts(source: map<string, Bytes>, name: string, attempts: seq<Attempt>)
  {
    forall i, offset: nat :: 0 <= i < |attempts| ==> Honest(source, name, offset, attempts[i].reply(offset))
  }

  ghost predicate PartialSafe(source: map<string, Bytes>, files: map<Path, Bytes>, name: string)
  {
    name in source && Partial(name) in files ==> files[Partial(name)] <= source[name]
  }

  /** Every partial is a prefix of its source; every file under its final name is the source. */
  ghost predicate Safe(source: map<string, Bytes>, files: map<Path, Bytes>)
  {
    && (forall name :: ArtifactName(name) ==> PartialSafe(source, files, name))
    && (forall p :: p in files && ArtifactName(p.name) && p.name in source ==> files[p] == source[p.name])
  }

  lemma FlattenPrefix(chunks: seq<Bytes>, n: nat)
    requires n <= |chunks|
    ensures Flatten(chunks[..n]) <= Flatten(chunks)
  {
    assert chunks == chunks[..n] + chunks[n..];
    FlattenAppend(chunks[..n], chunks[n..]);
  }

  /** Truthful bytes after a prefix make a longer prefix, and the whole once the size is right. */
  lemma StreamKeepsPrefix(s: Bytes, files: map<Path, Bytes>, name: string, append: bool, total: int, reply: Reply)
    requires reply.Body? && Opened(files, name, append) <= s
    requires Flatten(reply.chunks) <= s[|Opened(files, name, append)|..]
    ensures var t := Streamed(files, name, append, total, reply);
      && Partial(name) in t.files && t.files[Partial(name)] <= s
      && (ResumeOffset(t.files, name) == |s| ==> t.files[Partial(name)] == s)
      && (t.end.Done? ==> t.end.expected == total)
  {
    FlattenPrefix(reply.chunks, Written(reply.chunks, reply.stopAt, 0));
  }

  /** What one honest transfer leaves: a prefix, and the whole source if it would be renamed. */
  lemma TransferKeepsPrefix(source: map<string, Bytes>, files: map<Path, Bytes>, name: string, reply: Reply)
    requires ArtifactName(name) && PartialSafe(source, files, name)
    requires Honest(source, name, ResumeOffset(files, name), reply)
    ensures var t := Transfer(files, name, ResumeOffset(files, name), reply);
      && PartialSafe(source, t.files, name)
      && (t.end.Done? ==> name in source && Partial(name) in t.files)
      && (t.end.Done? && Finalises(t.end.expected, ResumeOffset(t.files, name)) ==>
            t.files[Partial(name)] == source[name])
  {
    if reply.Body? {
      var s := source[name];
      if reply.status == 200 {
        assert s[0..] == s;
        StreamKeepsPrefix(s, files, name, false, |s|, reply);
      } else if reply.range.Some? && reply.range.value.start == ResumeOffset(files, name) {
        StreamKeepsPrefix(s, files, name, true, |s|, reply);
      }
    }
  }

  function Left(t: Tried): Dest { if t.Ended? then t.run.dest else t.dest }

  ghost predicate SameAt<V>(a: map<Path, V>, b: map<Path, V>, p: Path)
  {
    (p in a <==> p in b) && (p in a ==> a[p] == b[p])
  }

  lemma TransferFrame(files: map<Path, Bytes>, name: string, offset: nat, reply: Reply, p: Path)
    requires p != Partial(name)
    ensures SameAt(Transfer(files, name, offset, reply).files, files, p)
  {
  }

  lemma SettleFrame(dir: string, name: string, a: Attempt, offset: nat, t: Transferred, marks: map<Path, Mark>,
      before: seq<Event>, p: Path)
    ensures var d := Left(Settle(dir, name, a, offset, t, marks, before));
      && (p != Partial(name) && p != Final(dir, name) ==> SameAt(d.files, t.files, p))
      && (p != Marker(dir, name) ==> SameAt(d.marks, marks, p))
  {
  }

  lemma TryFrame(o: Options, d: Dest, dir: string, name: string, a: Attempt, p: Path)
    ensures var l := Left(Try(o, d, dir, name, a));
      && (p != Partial(name) && p != Final(dir, name) ==> SameAt(l.files, d.files, p))
      && (p != Marker(dir, name) ==> SameAt(l.marks, d.marks, p))
  {
    var marks := if a.unmarkOk then d.marks - {Marker(dir, name)} else d.marks;
    var offset := ResumeOffset(d.files, name);
    var t := Transfer(d.files, name, offset, a.reply(offset));
    SettleFrame(dir, name, a, offset, t, marks, [Started, Request(name, offset)] + t.events, p);
    if p != Partial(name) {
      TransferFrame(d.files, name, offset, a.reply(offset), p);
    }
  }

  /** A call touches nothing but the partial, the final file and the marker of its own name. */
  lemma {:induction false} CallFrame(o: Options, dirOk: bool, d: Dest, dir: string, name: string,
      attempts: seq<Attempt>, p: Path)
    ensures var r := Call(o, dirOk, d, dir, name, attempts).dest;
      && (p != Partial(name) && p != Final(dir, name) ==> SameAt(r.files, d.files, p))
      && (p != Marker(dir, name) ==> SameAt(r.marks, d.marks, p))
    decreases |attempts|
  {
    if attempts != [] {
      TryFrame(o, d, dir, name, attempts[0], p);
      var t := Try(o, d, dir, name, attempts[0]);
      if t.Again? {
        CallFrame(o, dirOk, t.dest, dir, name, attempts[1..], p);
      }
    }
  }

  lemma SettleOwnFiles(source: map<string, Bytes>, dir: string, name: string, a: Attempt, offset: nat,
      t: Transferred, marks: map<Path, Mark>, before: seq<Event>)
    requires Partial(name) != Final(dir, name) && Final(dir, name) !in t.files
    requires PartialSafe(source, t.files, name)
    requires t.end.Done? ==> name in source && Partial(name) in t.files
    requires t.end.Done? && Finalises(t.end.expected, ResumeOffset(t.files, name)) ==>
      t.files[Partial(name)] == source[name]
    ensures var s := Settle(dir, name, a, offset, t, marks, before);
      && PartialSafe(source, Left(s).files, name)
      && (Final(dir, name) in Left(s).files ==>
            s.Ended? && name in source && Left(s).files[Final(dir, name)] == source[name])
  {
  }

  lemma TryOwnFiles(source: map<string, Bytes>, o: Options, d: Dest, dir: string, name: string, a: Attempt)
    requires ArtifactName(name) && PartialSafe(source, d.files, name)
    requires Final(dir, name) !in d.files
    requires Honest(source, name, ResumeOffset(d.files, name), a.reply(ResumeOffset(d.files, name)))
    ensures var t := Try(o, d, dir, name, a);
      && PartialSafe(source, Left(t).files, name)
      && (Final(dir, name) in Left(t).files ==>
            t.Ended? && name in source && Left(t).files[Final(dir, name)] == source[name])
  {
    var marks := if a.unmarkOk then d.marks - {Marker(dir, name)} else d.marks;
    var offset := ResumeOffset(d.files, name);
    var t := Transfer(d.files, name, offset, a.reply(offset));
    assert ("." + name)[0] == '.';
    TransferFrame(d.files, name, offset, a.reply(offset), Final(dir, name));
    TransferKeepsPrefix(source, d.files, name, a.reply(offset));
    SettleOwnFiles(source, dir, name, a, offset, t, marks, [Started, Request(name, offset)] + t.events);
  }

  lemma {:induction false} CallOwnFiles(source: map<string, Bytes>, o: Options, dirOk: bool, d: Dest, dir: string,
      name: string, attempts: seq<Attempt>)
    requires ArtifactName(name) && PartialSafe(source, d.files, name)
    requires HonestAttempts(source, name, attempts)
    ensures var r := Call(o, dirOk, d, dir, name, attempts).dest;
      && PartialSafe(source, r.files, name)
      && (Final(dir, name) in d.files ==> r == d)
      && (Final(dir, name) in r.files && Final(dir, name) !in d.files ==>
            name in source && r.files[Final(dir, name)] == source[name])
    decreases |attempts|
  {
    if Final(dir, name) !in d.files && attempts != [] {
      var offset := ResumeOffset(d.files, name);
      assert Honest(source, name, offset, attempts[0].reply(offset));
      TryOwnFiles(source, o, d, dir, name, attempts[0]);
      var t := Try(o, d, dir, name, attempts[0]);
      if t.Again? {
        CallOwnFiles(source, o, dirOk, t.dest, dir, name, attempts[1..]);
      }
    }
  }

  /** MAIN: any call against an honest dashcam, however it ends, keeps the destination safe. */
  lemma CallKeepsSafe(source: map<string, Bytes>, o: Options, dirOk: bool, d: Dest, dir: string, name: string,
      attempts: seq<Attempt>)
    requires ArtifactName(name) && Safe(source, d.files)
    requires HonestAttempts(source, name, attempts)
    ensures Safe(source, Call(o, dirOk, d, dir, name, attempts).dest.files)
  {
    var r := Call(o, dirOk, d, dir, name, attempts).dest;
    CallOwnFiles(source, o, dirOk, d, dir, name, attempts);
    forall n | ArtifactName(n) && n != name ensures PartialSafe(source, r.files, n) {
      assert ("." + n)[1..] == n && ("." + name)[1..] == name;
      CallFrame(o, dirOk, d, dir, name, attempts, Partial(n));
    }
    forall p | p in r.files && ArtifactName(p.name) && p.name in source ensures r.files[p] == source[p.name] {
      if p != Final(dir, name) {
        CallFrame(o, dirOk, d, dir, name, attempts, p);
      }
    }
  }

  /** One thing that happens to the destination between or during runs: a call, or a crash
      that loses the unwritten tail of a partial. */
  datatype Step =
    | DoCall(o: Options, dirOk: bool, dir: string, name: string, attempts: seq<Attempt>)
    | LoseTail(name: string, kept: nat)

  function After(d: Dest, step: Step): Dest
  {
    match step
    case DoCall(o, dirOk, dir, name, attempts) => Call(o, dirOk, d, dir, name, attempts).dest
    case LoseTail(name, kept) =>
      if ResumeOffset(d.files, name) > kept then
        d.(files := d.files[Partial(name) := d.files[Partial(name)][..kept]])
      else d
  }

  function AfterAll(d: Dest, steps: seq<Step>): Dest
    decreases |steps|
  {
    if steps == [] then d else AfterAll(After(d, steps[0]), steps[1..])
  }

  ghost predicate HonestStep(source: map<string, Bytes>, step: Step)
  {
    ArtifactName(step.name) && (step.DoCall? ==> HonestAttempts(source, step.name, step.attempts))
  }

  /** MAIN: over any sequence of calls, of any files, with crashes in between, each dot-file
      stays a prefix of its source and each finished file equals its source. */
  lemma {:induction false} AllRunsSafe(source: map<string, Bytes>, d: Dest, steps: seq<Step>)
    requires Safe(source, d.files)
    requires forall i :: 0 <= i < |steps| ==> HonestStep(source, steps[i])
    ensures Safe(source, AfterAll(d, steps).files)
    decreases |steps|
  {
    if steps != [] {
      var step := steps[0];
      assert HonestStep(source, step);
      if step.DoCall? {
        CallKeepsSafe(source, step.o, step.dirOk, d, step.dir, step.name, step.attempts);
      } else if ResumeOffset(d.files, step.name) > step.kept {
        var d' := After(d, step);
        forall n | ArtifactName(n) ensures PartialSafe(source, d'.files, n) {
          assert PartialSafe(source, d.files, n);
          assert ("." + n)[1..] == n && ("." + step.name)[1..] == step.name;
        }
      }
      AllRunsSafe(source, After(d, step), steps[1..]);
    }
  }

  // ---- termination ---------------------------------------------------------------------------

  /** The requests sent, in order. */
  function Requests(events: seq<Event>): seq<Event>
  {
    if |events| == 0 then []
    else if events[0].Request? then [events[0]] + Requests(events[1..])
    else Requests(events[1..])
  }

  lemma {:induction false} RequestsAppend(a: seq<Event>, b: seq<Event>)
    ensures Requests(a + b) == Requests(a) + Requests(b)
  {
    if |a| == 0 {
      assert a + b == b;
    } else {
      assert (a + b)[1..] == a[1..] + b && (a + b)[0] == a[0];
      RequestsAppend(a[1..], b);
    }
  }

  lemma NoRequests(events: seq<Event>)
    requires forall e :: e in events ==> !e.Request?
    ensures Requests(events) == []
  {
  }

  lemma ProgressedOnlyChunks(chunks: seq<Bytes>, total: int, n: nat)
    requires n <= |chunks|
    ensures forall e :: e in Progressed(chunks, total, n) ==> e.Chunk?
  {
  }

  function Seen(t: Tried): seq<Event> { if t.Ended? then t.run.events else t.events }

  lemma TransferSendsChunksOnly(files: map<Path, Bytes>, name: string, offset: nat, reply: Reply)
    ensures forall e :: e in Transfer(files, name, offset, reply).events ==> e.Chunk?
  {
    if reply.Body? {
      var decision := ResumeDecision(reply.status, reply.length, reply.range, offset);
      if decision.Some? && !decision.value.Restart? {
        ProgressedOnlyChunks(reply.chunks, decision.value.total, Written(reply.chunks, reply.stopAt, 0));
      }
    }
  }

  lemma SettleEvents(dir: string, name: string, a: Attempt, offset: nat, t: Transferred, marks: map<Path, Mark>,
      before: seq<Event>)
    ensures var seen := Seen(Settle(dir, name, a, offset, t, marks, before));
      before <= seen && forall e :: e in seen[|before|..] ==> e.CountFile? || e.CountFailure?
  {
  }

  /** An attempt is either refused at once or starts with its one request. */
  lemma TryEvents(o: Options, d: Dest, dir: string, name: string, a: Attempt)
    ensures var seen := Seen(Try(o, d, dir, name, a));
      || seen == [RecentlyFailed]
      || (|seen| >= 2 && seen[..2] == [Started, Request(name, ResumeOffset(d.files, name))]
          && forall e :: e in seen[2..] ==> e.Chunk? || e.CountFile? || e.CountFailure?)
  {
    var marks := if a.unmarkOk then d.marks - {Marker(dir, name)} else d.marks;
    var offset := ResumeOffset(d.files, name);
    var t := Transfer(d.files, name, offset, a.reply(offset));
    var before := [Started, Request(name, offset)] + t.events;
    var seen := Seen(Settle(dir, name, a, offset, t, marks, before));
    TransferSendsChunksOnly(d.files, name, offset, a.reply(offset));
    SettleEvents(dir, name, a, offset, t, marks, before);
    assert seen == before + seen[|before|..];
    assert seen[2..] == t.events + seen[|before|..];
  }

  lemma TryRequests(o: Options, d: Dest, dir: string, name: string, a: Attempt)
    ensures var r := Requests(Seen(Try(o, d, dir, name, a)));
      r == [] || r == [Request(name, ResumeOffset(d.files, name))]
  {
    var seen := Seen(Try(o, d, dir, name, a));
    TryEvents(o, d, dir, name, a);
    if |seen| >= 2 {
      assert seen == [Started, Request(name, ResumeOffset(d.files, name))] + seen[2..];
      NoRequests(seen[2..]);
      RequestsAppend([Started, Request(name, ResumeOffset(d.files, name))], seen[2..]);
    }
  }

  /** A restart is only asked for after a Range request, and clears the partial if it can. */
  lemma TryAgain(o: Options, d: Dest, dir: string, name: string, a: Attempt)
    ensures var t := Try(o, d, dir, name, a);
      t.Again? ==> ResumeOffset(d.files, name) > 0 && (a.unlinkOk ==> ResumeOffset(t.dest.files, name) == 0)
  {
  }

  lemma SecondTryEnds(o: Options, dirOk: bool, d: Dest, dir: string, name: string, attempts: seq<Attempt>)
    requires attempts != [] && ResumeOffset(d.files, name) == 0
    ensures var r := Call(o, dirOk, d, dir, name, attempts);
      && !r.outcome.Pending?
      && (Requests(r.events) == [] || Requests(r.events) == [Request(name, 0)])
  {
    TryAgain(o, d, dir, name, attempts[0]);
    TryRequests(o, d, dir, name, attempts[0]);
    TryEndsDecided(o, d, dir, name, attempts[0]);
  }

  lemma TryEndsDecided(o: Options, d: Dest, dir: string, name: string, a: Attempt)
    ensures var t := Try(o, d, dir, name, a); t.Ended? ==> !t.run.outcome.Pending?
  {
  }

  /** MAIN: if the first partial can be removed, no dashcam whatever can make a call send
      more than two requests, and the second one asks for the file from byte 0. */
  lemma AtMostTwoRequests(o: Options, dirOk: bool, d: Dest, dir: string, name: string, attempts: seq<Attempt>)
    requires |attempts| >= 2 && attempts[0].unlinkOk
    ensures var r := Call(o, dirOk, d, dir, name, attempts);
      && !r.outcome.Pending?
      && |Requests(r.events)| <= 2
      && (|Requests(r.events)| == 2 ==> Requests(r.events)[1] == Request(name, 0))
  {
    TryAgain(o, d, dir, name, attempts[0]);
    TryRequests(o, d, dir, name, attempts[0]);
    TryEndsDecided(o, d, dir, name, attempts[0]);
    match Try(o, d, dir, name, attempts[0])
    case Ended(run) =>
    case Again(dest, events) =>
      SecondTryEnds(o, dirOk, dest, dir, name, attempts[1..]);
      RequestsAppend(events, Call(o, dirOk, dest, dir, name, attempts[1..]).events);
  }

  /** A clock reading at which no marker holds the call back. */
  function Unblocked(d: Dest, dir: string, name: string, o: Options): (now: int)
    ensures !Blocked(d.marks, dir, name, now, o.retryAfter)
  {
    var m := Marker(dir, name);
    if m in d.marks && d.marks[m].Stamp? then d.marks[m].t + o.retryAfter else 0
  }

  /** A 416 when neither the partial nor the marker can be removed. */
  function Refusal(d: Dest, dir: string, name: string, o: Options): Attempt
  {
    Attempt(Unblocked(d, dir, name, o), _ => HttpError(416), false, false, true, true)
  }

  /** Without the removal of the partial there is no bound: a dashcam that keeps answering 416
      makes the call send one request after another, for any number n of them. */
  lemma {:induction false} RefusedRemovalNeverEnds(o: Options, dirOk: bool, d: Dest, dir: string, name: string, n: nat)
    requires (dir == "" || dirOk) && Final(dir, name) !in d.files && !o.dryRun
    requires ResumeOffset(d.files, name) > 0
    ensures var r := Call(o, dirOk, d, dir, name, seq(n, _ => Refusal(d, dir, name, o)));
      r.outcome == Pending && |Requests(r.events)| == n && r.dest == d
  {
    if n > 0 {
      var a := Refusal(d, dir, name, o);
      var offset := ResumeOffset(d.files, name);
      var before := [Started, Request(name, offset)];
      assert Try(o, d, dir, name, a) == Again(d, before + []);
      assert before + [] == before && before[1..] == [Request(name, offset)] && before[1..][1..] == [];
      assert seq(n, _ => a)[1..] == seq(n - 1, _ => a);
      RefusedRemovalNeverEnds(o, dirOk, d, dir, name, n - 1);
      RequestsAppend(before, Call(o, dirOk, d, dir, name, seq(n - 1, _ => a)).events);
    }
  }

  ghost predicate Removals(attempts: seq<Attempt>, ok: bool)
  {
    forall i :: 0 <= i < |attempts| ==> attempts[i].unlinkOk == ok
  }

  /** MAIN: exactly when a call is bounded by two requests, whatever it meets: iff there is no
      partial at its start, or partials can be removed. */
  lemma AtMostTwoRequestsIff(o: Options, dirOk: bool, d: Dest, dir: string, name: string, ok: bool)
    requires (dir == "" || dirOk) && Final(dir, name) !in d.files && !o.dryRun
    ensures (forall attempts :: |attempts| >= 2 && Removals(attempts, ok) ==>
               |Requests(Call(o, dirOk, d, dir, name, attempts).events)| <= 2)
      <==> ok || ResumeOffset(d.files, name) == 0
  {
    if ok || ResumeOffset(d.files, name) == 0 {
      forall attempts | |attempts| >= 2 && Removals(attempts, ok)
        ensures |Requests(Call(o, dirOk, d, dir, name, attempts).events)| <= 2
      {
        if ResumeOffset(d.files, name) == 0 { SecondTryEnds(o, dirOk, d, dir, name, attempts); }
        else { AtMostTwoRequests(o, dirOk, d, dir, name, attempts); }
      }
    } else {
      RefusedRemovalNeverEnds(o, dirOk, d, dir, name, 3);
      assert Removals(seq(3, _ => Refusal(d, dir, name, o)), ok);
    }
  }

  // ---- failure markers -----------------------------------------------------------------------------

  /** The reply is an HTTP error other than the one that restarts from byte 0. */
  predicate FailsByHttp(reply: Reply, offset: nat)
  {
    reply.HttpError? && !(reply.code == 416 && offset > 0)
  }

  /** After an attempt that gets to ask there is a marker iff the answer was an HTTP error, or an
      earlier marker could not be removed. */
  lemma MarkedIff(o: Options, dirOk: bool, d: Dest, dir: string, name: string, a: Attempt)
    requires (dir == "" || dirOk) && Final(dir, name) !in d.files && !o.dryRun
    requires !Blocked(d.marks, dir, name, a.now, o.retryAfter)
    ensures var offset := ResumeOffset(d.files, name);
      Marker(dir, name) in Call(o, dirOk, d, dir, name, [a]).dest.marks
      <==> (FailsByHttp(a.reply(offset), offset) && a.markOk) || (!a.unmarkOk && Marker(dir, name) in d.marks)
  {
    assert [a][1..] == [];
  }

  /** An HTTP error returns without a file, marks the name with the time of the failure, and
      leaves everything else as it was. */
  lemma HttpFailureIsMarked(o: Options, dirOk: bool, d: Dest, dir: string, name: string, a: Attempt)
    requires (dir == "" || dirOk) && Final(dir, name) !in d.files && !o.dryRun
    requires !Blocked(d.marks, dir, name, a.now, o.retryAfter)
    requires FailsByHttp(a.reply(ResumeOffset(d.files, name)), ResumeOffset(d.files, name)) && a.markOk
    ensures var r := Call(o, dirOk, d, dir, name, [a]);
      && r.outcome == Returned(false) && r.dest.files == d.files
      && r.dest.marks == d.marks[Marker(dir, name) := Stamp(a.now)]
  {
    assert (d.marks - {Marker(dir, name)})[Marker(dir, name) := Stamp(a.now)]
        == d.marks[Marker(dir, name) := Stamp(a.now)];
  }
}
