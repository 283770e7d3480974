/** The download code in its own form: methods that change the destination step by step,
    proved against the functions of module Download. */
module Downloader {
  import opened Common
  import opened Download

  class Destination {
    const options: Options
    var files: map<Path, Bytes>
    var marks: map<Path, Mark>

    constructor (options: Options, d: Dest)
      ensures this.options == options && State() == d
    {
      this.options := options;
      files, marks := d.files, d.marks;
    }

    ghost function State(): Dest
      reads this
    {
      Dest(files, marks)
    }

    /** _stream_response: opens the partial, then reads and writes chunk by chunk. */
    method StreamResponse(name: string, append: bool, total: int, reply: Reply)
        returns (end: TransferEnd, events: seq<Event>)
      requires reply.Body?
      modifies this`files
      ensures Transferred(files, end, events) == Streamed(old(files), name, append, total, reply)
    {
      var temp := if append && Partial(name) in files then files[Partial(name)] else [];
      ghost var base := temp;
      files := files[Partial(name) := temp];
      var downloaded := 0;
      var i := 0;
      events := [];
      assert base == Opened(old(files), name, append) && base == base + Flatten(reply.chunks[..0]);
      while i < |reply.chunks| && |reply.chunks[i]| > 0
        invariant 0 <= i <= |reply.chunks|
        invariant forall j :: 0 <= j < i ==> !LastRead(reply.chunks, reply.stopAt, j)
        invariant temp == base + Flatten(reply.chunks[..i])
        invariant files == old(files)[Partial(name) := temp]
        invariant downloaded == |Flatten(reply.chunks[..i])|
        invariant events == Progressed(reply.chunks, total, i)
      {
        if reply.stopAt.Some? && reply.stopAt.value <= i {
          StreamedIs(old(files), name, append, total, reply, i);
          end := Crashed(StopRequested);
          return;
        }
        assert !LastRead(reply.chunks, reply.stopAt, i);
        var chunk := reply.chunks[i];
        OneMoreChunk(base, reply.chunks, total, i);
        temp := temp + chunk;
        files := files[Partial(name) := temp];
        downloaded := downloaded + |chunk|;
        i := i + 1;
        events := events + [Chunk(downloaded, total)];
      }
      StreamedIs(old(files), name, append, total, reply, i);
      end := if i < |reply.chunks| || reply.end.Eof? then Done(downloaded, total)
             else if reply.end.ReadTimeout? then TransferTimeout
             else Crashed(BrokenRead);
    }

    /** _transfer_to_temp: one request and the streaming of its body. */
    method TransferToTemp(name: string, offset: nat, reply: Reply)
        returns (end: TransferEnd, events: seq<Event>)
      modifies this`files
      ensures Transferred(files, end, events) == Transfer(old(files), name, offset, reply)
    {
      events := [];
      match reply
      case HttpError(code) => end := HttpFailed(code);
      case UrlError => end := NetworkFailed;
      case Timeout => end := TransferTimeout;
      case Body(status, length, range, _, _, _) =>
        var action := ResumeDecision(status, length, range, offset);
        match action
        case None => end := Crashed(BadHeader);
        case Some(Restart) => end := NeedsRestart;
        case Some(Resume(total)) => end, events := StreamResponse(name, true, total, reply);
        case Some(Fresh(total)) => end, events := StreamResponse(name, false, total, reply);
    }

    /** download_file. */
    method DownloadFile(dirOk: bool, dir: string, name: string, attempts: seq<Attempt>)
        returns (outcome: Outcome, events: seq<Event>)
      modifies this
      ensures Run(State(), outcome, events) == Call(options, dirOk, old(State()), dir, name, attempts)
      decreases |attempts|, 1
    {
      if dir != "" && !dirOk { return Raised(BadDestination), []; }
      if Final(dir, name) in files { return Returned(false), [AlreadyDownloaded]; }
      if options.dryRun { return Returned(true), [WouldDownload]; }
      if attempts == [] { return Pending, []; }
      var a := attempts[0];
      if Blocked(marks, dir, name, a.now, options.retryAfter) { return Returned(false), [RecentlyFailed]; }
      if a.unmarkOk { marks := marks - {Marker(dir, name)}; }
      var offset := ResumeOffset(files, name);
      var end, chunks := TransferToTemp(name, offset, a.reply(offset));
      ghost var t := Transferred(files, end, chunks);
      events := [Started, Request(name, offset)] + chunks;
      assert Try(options, old(State()), dir, name, a) == Settle(dir, name, a, offset, t, marks, events);
      match end
      case HttpFailed(code) =>
        var more;
        outcome, more := HandleHttpError(dirOk, dir, name, offset, code, attempts);
        events := events + more;
      case NetworkFailed =>
        outcome, events := Returned(false), events + [CountFailure(Network)];
      case TransferTimeout =>
        outcome, events := Raised(DashcamTimeout), events + [CountFailure(TimedOutReason)];
      case Crashed(e) =>
        outcome := Raised(e);
      case NeedsRestart =>
        if a.unlinkOk { files := files - {Partial(name)}; }
        var more;
        outcome, more := DownloadFile(dirOk, dir, name, attempts[1..]);
        events := events + more;
      case Done(transferred, expected) =>
        if expected != 0 && ResumeOffset(files, name) != expected {
          return Returned(false), events + [CountFailure(Network)];
        }
        if !a.renameOk { return Raised(RenameFailed), events; }
        files := Renamed(files, dir, name);
        outcome, events := Returned(true), events + [CountFile(transferred)];
    }

    /** _handle_http_error: a 416 on a Range request restarts the call, anything else is
        marked as failed. */
    method HandleHttpError(dirOk: bool, dir: string, name: string, offset: nat, code: nat, attempts: seq<Attempt>)
        returns (outcome: Outcome, events: seq<Event>)
      requires attempts != []
      modifies this
      ensures var t := Transferred(old(files), HttpFailed(code), []);
        match Settle(dir, name, attempts[0], offset, t, old(marks), [])
        case Ended(run) => Run(State(), outcome, events) == run
        case Again(dest, _) => Run(State(), outcome, events) == Call(options, dirOk, dest, dir, name, attempts[1..])
      decreases |attempts|, 0
    {
      var a := attempts[0];
      if code == 416 && offset > 0 {
        if a.unlinkOk { files := files - {Partial(name)}; }
        outcome, events := DownloadFile(dirOk, dir, name, attempts[1..]);
      } else {
        if a.markOk { marks := marks[Marker(dir, name) := Stamp(a.now)]; }
        outcome, events := Returned(false), [CountFailure(Http)];
      }
    }
  }
}
