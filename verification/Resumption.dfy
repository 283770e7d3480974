/** What a download does get done (blackvuesync/sync.py:582-606, 781-876): a whole body becomes the
    file, what was received of a cut one is kept, and the next call asks for the rest only. */
module Resumption {
  import opened Common
  import opened Download
  import opened Truncation

  function PartialSize(d: Dest, name: string): nat
  {
    if Partial(name) in d.files then |d.files[Partial(name)]| else 0
  }

  /** The call gets to ask the dashcam. */
  predicate Asks(o: Options, dirOk: bool, d: Dest, dir: string, name: string, now: int)
  {
    && (dir == "" || dirOk) && Final(dir, name) !in d.files && !o.dryRun
    && !(Marker(dir, name) in d.marks && d.marks[Marker(dir, name)].Stamp?
         && now - d.marks[Marker(dir, name)].t < o.retryAfter)
  }

  /** A body that is read to its end: no empty read within it, and no stop request. */
  predicate ReadThrough(reply: Reply)
  {
    && reply.Body? && reply.stopAt.None? && forall i :: 0 <= i < |reply.chunks| ==> |reply.chunks[i]| > 0
  }

  /** The reply holds these bytes of the file, from where it says on. */
  ghost predicate Carries(s: Bytes, h: Headers, offset: nat, reply: Reply, body: Bytes)
  {
    && reply.Body? && h == Headers(reply.status, reply.length, reply.range) && IsWritten(h, offset)
    && Flatten(reply.chunks) == body && BodyStart(h, offset) <= |s| && body <= s[BodyStart(h, offset)..]
  }

  lemma {:induction false} AllWritten(reply: Reply, i: nat)
    requires ReadThrough(reply) && i <= |reply.chunks|
    ensures Written(reply.chunks, reply.stopAt, i) == |reply.chunks|
    decreases |reply.chunks| - i
  {
    if i < |reply.chunks| { AllWritten(reply, i + 1); }
  }

  /** Reading to the end writes the whole body after what the partial keeps. */
  lemma CarriedIsWritten(s: Bytes, files: map<Path, Bytes>, name: string, h: Headers, reply: Reply, body: Bytes)
    requires Partial(name) in files ==> files[Partial(name)] <= s
    requires ReadThrough(reply) && Carries(s, h, ResumeOffset(files, name), reply, body)
    ensures var offset := ResumeOffset(files, name);
      var t := Transfer(files, name, offset, reply);
      && t.files == files[Partial(name) := s[..BodyStart(h, offset)] + body]
      && (reply.end.Eof? ==> t.end == Done(|body|, StatedSize(h, offset)))
      && (!reply.end.Eof? ==> !t.end.Done? && !t.end.HttpFailed? && !t.end.NeedsRestart?)
  {
    var offset := ResumeOffset(files, name);
    WrittenIsStreamed(files, name, h, reply);
    AllWritten(reply, 0);
    assert reply.chunks[..|reply.chunks|] == reply.chunks;
    assert Opened(files, name, IsPart(h, offset)) == s[..BodyStart(h, offset)];
  }

  lemma AskedAttempt(o: Options, dirOk: bool, d: Dest, dir: string, name: string, a: Attempt)
    requires Asks(o, dirOk, d, dir, name, a.now)
    ensures var marks := if a.unmarkOk then d.marks - {Marker(dir, name)} else d.marks;
      var offset := PartialSize(d, name);
      var t := Transfer(d.files, name, offset, a.reply(offset));
      var before := [Started, Request(name, offset)] + t.events;
      && Try(o, d, dir, name, a) == Settle(dir, name, a, offset, t, marks, before)
      && (Try(o, d, dir, name, a).Ended? ==>
            Call(o, dirOk, d, dir, name, [a]) == Try(o, d, dir, name, a).run)
  {
  }

  /** MAIN: a body that completes the file gets its final name: the call asks for what the partial
      lacks, returns success and counts the bytes received; the partial is gone and no other file
      changes. It does so whenever the headers state the true size or none. */
  lemma WholeIsStored(s: Bytes, o: Options, dirOk: bool, d: Dest, dir: string, name: string, h: Headers, a: Attempt)
    requires ArtifactName(name) && Asks(o, dirOk, d, dir, name, a.now) && a.renameOk
    requires Partial(name) in d.files ==> d.files[Partial(name)] <= s
    requires BodyStart(h, PartialSize(d, name)) <= |s|
    requires
      var reply := a.reply(PartialSize(d, name));
      && ReadThrough(reply) && reply.end.Eof?
      && Carries(s, h, PartialSize(d, name), reply, s[BodyStart(h, PartialSize(d, name))..])
    requires StatedSize(h, PartialSize(d, name)) == 0 || StatedSize(h, PartialSize(d, name)) == |s|
    ensures var r := Call(o, dirOk, d, dir, name, [a]);
      && r.outcome == Returned(true)
      && r.dest.files == (d.files - {Partial(name)})[Final(dir, name) := s]
      && |r.events| > 2 && r.events[..2] == [Started, Request(name, PartialSize(d, name))]
      && r.events[|r.events| - 1] == CountFile(|s| - BodyStart(h, PartialSize(d, name)))
  {
    var offset := PartialSize(d, name);
    var reply := a.reply(offset);
    var body := s[BodyStart(h, offset)..];
    CarriedIsWritten(s, d.files, name, h, reply, body);
    assert s[..BodyStart(h, offset)] + body == s;
    AskedAttempt(o, dirOk, d, dir, name, a);
    var t := Transfer(d.files, name, offset, reply);
    assert t.files - {Partial(name)} == d.files - {Partial(name)};
    assert [Started, Request(name, offset)] + t.events + [CountFile(|body|)]
        == [Started, Request(name, offset)] + (t.events + [CountFile(|body|)]);
  }

  /** MAIN: what was received of a body that did not make the file is kept: the partial holds the
      file's bytes up to there, and nothing else changes but the marker of an earlier failure. */
  lemma CutIsKept(s: Bytes, o: Options, dirOk: bool, d: Dest, dir: string, name: string, h: Headers, a: Attempt,
      body: Bytes)
    requires ArtifactName(name) && Asks(o, dirOk, d, dir, name, a.now)
    requires Partial(name) in d.files ==> d.files[Partial(name)] <= s
    requires
      var reply := a.reply(PartialSize(d, name));
      ReadThrough(reply) && Carries(s, h, PartialSize(d, name), reply, body)
    requires Call(o, dirOk, d, dir, name, [a]).outcome != Returned(true)
    ensures var r := Call(o, dirOk, d, dir, name, [a]);
      && r.dest.files == d.files[Partial(name) := s[..BodyStart(h, PartialSize(d, name)) + |body|]]
      && r.dest.marks == if a.unmarkOk then d.marks - {Marker(dir, name)} else d.marks
  {
    var offset := PartialSize(d, name);
    CarriedIsWritten(s, d.files, name, h, a.reply(offset), body);
    assert s[..BodyStart(h, offset)] + body == s[..BodyStart(h, offset) + |body|];
    AskedAttempt(o, dirOk, d, dir, name, a);
  }

  /** MAIN: a download that was cut anywhere is completed by the next call, which asks for the rest
      and needs no more than the rest. */
  lemma CutThenCompleted(s: Bytes, o: Options, dirOk: bool, d: Dest, dir: string, name: string, h: Headers,
      a: Attempt, body: Bytes, b: Attempt)
    requires ArtifactName(name) && Asks(o, dirOk, d, dir, name, a.now) && a.unmarkOk
    requires Partial(name) in d.files ==> d.files[Partial(name)] <= s
    requires
      var reply := a.reply(PartialSize(d, name));
      ReadThrough(reply) && Carries(s, h, PartialSize(d, name), reply, body)
    requires Call(o, dirOk, d, dir, name, [a]).outcome != Returned(true)
    requires b.renameOk && BodyStart(h, PartialSize(d, name)) + |body| > 0
    requires
      var have := BodyStart(h, PartialSize(d, name)) + |body|;
      var rest := Headers(206, Stated(|s| - have), Some(ContentRange(have, Some(|s|))));
      var reply := b.reply(have);
      ReadThrough(reply) && reply.end.Eof? && Carries(s, rest, have, reply, s[have..])
    ensures var next := Call(o, dirOk, Call(o, dirOk, d, dir, name, [a]).dest, dir, name, [b]);
      var have := BodyStart(h, PartialSize(d, name)) + |body|;
      && next.outcome == Returned(true) && Final(dir, name) in next.dest.files
      && next.dest.files[Final(dir, name)] == s
      && |next.events| > 2 && next.events[1] == Request(name, have)
  {
    var have := BodyStart(h, PartialSize(d, name)) + |body|;
    var rest := Headers(206, Stated(|s| - have), Some(ContentRange(have, Some(|s|))));
    CutIsKept(s, o, dirOk, d, dir, name, h, a, body);
    var left := Call(o, dirOk, d, dir, name, [a]).dest;
    assert |s[..have]| == have && PartialSize(left, name) == have;
    assert ("." + name)[0] == '.';
    WholeIsStored(s, o, dirOk, left, dir, name, rest, b);
    assert Call(o, dirOk, left, dir, name, [b]).events[..2][1] == Request(name, have);
  }
}
