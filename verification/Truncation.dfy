/** How much of a reply's header must be true for the size check before the rename
    (blackvuesync/sync.py:852-862) to catch every cut of a truthful body. */
module Truncation {
  import opened Common
  import opened Download

  datatype Headers = Headers(status: nat, length: Length, range: Option<ContentRange>)

  /** The reply answers a Range request with a part. */
  predicate IsPart(h: Headers, offset: nat) { h.status == 206 && offset > 0 }

  /** The reply's body is written to the partial: its Content-Length is a number if there is
      one, and a part starts where it was asked to. */
  predicate IsWritten(h: Headers, offset: nat)
  {
    !h.length.Malformed? && (IsPart(h, offset) ==> h.range.Some? && h.range.value.start == offset)
  }

  /** Where in the file the body starts. */
  function BodyStart(h: Headers, offset: nat): nat { if IsPart(h, offset) then offset else 0 }

  /** The file's size as the headers state it; 0 when they do not. */
  function StatedSize(h: Headers, offset: nat): int
  {
    if IsPart(h, offset) && h.range.Some? && h.range.value.total.Some? then h.range.value.total.value
    else BodyStart(h, offset) + if h.length.Stated? then h.length.n else 0
  }

  /** What a caller can check of the headers: the stated size is the true one, or out of reach
      of any part of the body, or there is nothing to cut. */
  predicate CutsAreCaught(h: Headers, offset: nat, size: nat)
  {
    IsWritten(h, offset) ==>
      var start, stated := BodyStart(h, offset), StatedSize(h, offset);
      start == size || stated == size || stated > size || (stated != 0 && stated < start)
  }

  /** A reply with these headers whose bytes are the file's, cut anywhere, however it ends. */
  ghost predicate Truthful(s: Bytes, h: Headers, offset: nat, reply: Reply)
  {
    && reply.Body? && h == Headers(reply.status, reply.length, reply.range)
    && BodyStart(h, offset) <= |s| && Flatten(reply.chunks) <= s[BodyStart(h, offset)..]
  }

  /** No truthful reply with these headers makes the call leave anything but the whole file
      under its final name. */
  ghost predicate NeverWrong(s: Bytes, o: Options, d: Dest, dir: string, name: string, h: Headers)
  {
    forall dirOk: bool, a: Attempt {:trigger Call(o, dirOk, d, dir, name, [a])} ::
      Truthful(s, h, ResumeOffset(d.files, name), a.reply(ResumeOffset(d.files, name))) ==>
        var r := Call(o, dirOk, d, dir, name, [a]).dest.files;
        Final(dir, name) in r ==> r[Final(dir, name)] == s
  }

  /** A partial of `start` bytes that grows by a body cut anywhere: the size check passes for
      the whole file only iff the expected size is the true one or cannot be reached. */
  lemma SizeCheckSoundIff(start: nat, size: nat, expected: int)
    requires start <= size
    ensures (forall end: nat :: start <= end <= size && Finalises(expected, end) ==> end == size)
      <==> start == size || expected == size || expected > size || (expected != 0 && expected < start)
  {
    if start < size {
      if expected == 0 {
        assert Finalises(expected, start);
      } else if start <= expected < size {
        var end: nat := expected;
        assert Finalises(expected, end);
      }
    }
  }

  /** A written reply is streamed after the start of its body, with its stated size. */
  lemma WrittenIsStreamed(files: map<Path, Bytes>, name: string, h: Headers, reply: Reply)
    requires reply.Body? && h == Headers(reply.status, reply.length, reply.range)
    ensures var offset := ResumeOffset(files, name);
      var t := Transfer(files, name, offset, reply);
      && (IsWritten(h, offset) ==>
            t == Streamed(files, name, IsPart(h, offset), StatedSize(h, offset), reply)
            && |Opened(files, name, IsPart(h, offset))| == BodyStart(h, offset))
      && (!IsWritten(h, offset) ==> t.files == files && !t.end.Done?)
  {
  }

  lemma CaughtTransfer(s: Bytes, files: map<Path, Bytes>, name: string, h: Headers, reply: Reply)
    requires Partial(name) in files ==> files[Partial(name)] <= s
    requires Truthful(s, h, ResumeOffset(files, name), reply)
    requires CutsAreCaught(h, ResumeOffset(files, name), |s|)
    ensures var t := Transfer(files, name, ResumeOffset(files, name), reply);
      t.end.Done? && Finalises(t.end.expected, ResumeOffset(t.files, name)) ==>
        Partial(name) in t.files && t.files[Partial(name)] == s
  {
    var offset := ResumeOffset(files, name);
    WrittenIsStreamed(files, name, h, reply);
    if IsWritten(h, offset) {
      StreamKeepsPrefix(s, files, name, IsPart(h, offset), StatedSize(h, offset), reply);
      SizeCheckSoundIff(BodyStart(h, offset), |s|, StatedSize(h, offset));
    }
  }

  lemma CaughtSettle(s: Bytes, dir: string, name: string, a: Attempt, offset: nat, t: Transferred,
      marks: map<Path, Mark>, before: seq<Event>)
    requires Partial(name) != Final(dir, name) && Final(dir, name) !in t.files
    requires t.end.Done? && Finalises(t.end.expected, ResumeOffset(t.files, name)) ==>
      Partial(name) in t.files && t.files[Partial(name)] == s
    ensures var l := Left(Settle(dir, name, a, offset, t, marks, before)).files;
      Final(dir, name) in l ==> l[Final(dir, name)] == s
  {
  }

  lemma CaughtTry(s: Bytes, o: Options, d: Dest, dir: string, name: string, h: Headers, a: Attempt)
    requires ArtifactName(name) && Final(dir, name) !in d.files
    requires Partial(name) in d.files ==> d.files[Partial(name)] <= s
    requires Truthful(s, h, ResumeOffset(d.files, name), a.reply(ResumeOffset(d.files, name)))
    requires CutsAreCaught(h, ResumeOffset(d.files, name), |s|)
    ensures var l := Left(Try(o, d, dir, name, a)).files;
      Final(dir, name) in l ==> l[Final(dir, name)] == s
  {
    var marks := if a.unmarkOk then d.marks - {Marker(dir, name)} else d.marks;
    var offset := ResumeOffset(d.files, name);
    var t := Transfer(d.files, name, offset, a.reply(offset));
    CaughtTransfer(s, d.files, name, h, a.reply(offset));
    assert ("." + name)[0] == '.';
    TransferFrame(d.files, name, offset, a.reply(offset), Final(dir, name));
    CaughtSettle(s, dir, name, a, offset, t, marks, [Started, Request(name, offset)] + t.events);
  }

  lemma CaughtCall(s: Bytes, o: Options, dirOk: bool, d: Dest, dir: string, name: string, h: Headers, a: Attempt)
    requires ArtifactName(name) && Final(dir, name) !in d.files
    requires Partial(name) in d.files ==> d.files[Partial(name)] <= s
    requires Truthful(s, h, ResumeOffset(d.files, name), a.reply(ResumeOffset(d.files, name)))
    requires CutsAreCaught(h, ResumeOffset(d.files, name), |s|)
    ensures var r := Call(o, dirOk, d, dir, name, [a]).dest.files;
      Final(dir, name) in r ==> r[Final(dir, name)] == s
  {
    CaughtTry(s, o, d, dir, name, h, a);
    assert [a][1..] == [];
  }

  /** The reply with these headers that ends after `end` bytes of the file. */
  function CutReply(s: Bytes, h: Headers, start: nat, end: nat): Reply
    requires start <= end <= |s|
  {
    Body(h.status, h.length, h.range, [s[start..end]], Eof, None)
  }

  lemma CutIsWritten(s: Bytes, files: map<Path, Bytes>, name: string, h: Headers, end: nat)
    requires Partial(name) in files ==> files[Partial(name)] <= s
    requires IsWritten(h, ResumeOffset(files, name)) && BodyStart(h, ResumeOffset(files, name)) <= end <= |s|
    ensures var offset := ResumeOffset(files, name);
      var reply := CutReply(s, h, BodyStart(h, offset), end);
      var t := Transfer(files, name, offset, reply);
      && Truthful(s, h, offset, reply)
      && Partial(name) in t.files && |t.files[Partial(name)]| == end
      && t.end.Done? && t.end.expected == StatedSize(h, offset)
  {
    var offset := ResumeOffset(files, name);
    var start := BodyStart(h, offset);
    var body := s[start..end];
    var reply := CutReply(s, h, start, end);
    assert [body][1..] == [] && Flatten([body]) == body;
    WrittenIsStreamed(files, name, h, reply);
    var n := if |body| == 0 then 0 else 1;
    StreamedIs(files, name, IsPart(h, offset), StatedSize(h, offset), reply, n);
    assert |body| > 0 ==> [body][..1] == [body];
  }

  lemma PassingCutIsFinalised(s: Bytes, o: Options, d: Dest, dir: string, name: string, h: Headers, end: nat)
    requires ArtifactName(name) && Final(dir, name) !in d.files && !o.dryRun
    requires Partial(name) in d.files ==> d.files[Partial(name)] <= s
    requires IsWritten(h, ResumeOffset(d.files, name))
    requires BodyStart(h, ResumeOffset(d.files, name)) <= end < |s|
    requires Finalises(StatedSize(h, ResumeOffset(d.files, name)), end)
    ensures !NeverWrong(s, o, d, dir, name, h)
  {
    var offset := ResumeOffset(d.files, name);
    var reply := CutReply(s, h, BodyStart(h, offset), end);
    var a := Attempt(Unblocked(d, dir, name, o), _ => reply, true, true, true, true);
    CutIsWritten(s, d.files, name, h, end);
    assert a.reply(offset) == reply;
    var r := Call(o, true, d, dir, name, [a]).dest.files;
    assert Final(dir, name) in r && |r[Final(dir, name)]| == end;
  }

  /** MAIN: exactly which headers let no cut of a truthful body be taken for the file. For any
      source, destination and options: no reply with these headers whose bytes are the file's
      leaves a wrong file under its final name iff the stated size (total of the
      Content-Range, else start plus Content-Length) is the true one or out of reach. */
  lemma NoCutFinalisedIff(s: Bytes, o: Options, d: Dest, dir: string, name: string, h: Headers)
    requires ArtifactName(name) && Final(dir, name) !in d.files && !o.dryRun
    requires Partial(name) in d.files ==> d.files[Partial(name)] <= s
    ensures NeverWrong(s, o, d, dir, name, h) <==> CutsAreCaught(h, ResumeOffset(d.files, name), |s|)
  {
    var offset := ResumeOffset(d.files, name);
    if CutsAreCaught(h, offset, |s|) {
      forall dirOk: bool, a: Attempt | Truthful(s, h, offset, a.reply(offset))
        ensures var r := Call(o, dirOk, d, dir, name, [a]).dest.files;
          Final(dir, name) in r ==> r[Final(dir, name)] == s
      {
        CaughtCall(s, o, dirOk, d, dir, name, h, a);
      }
    } else {
      var stated := StatedSize(h, offset);
      PassingCutIsFinalised(s, o, d, dir, name, h, if stated == 0 then BodyStart(h, offset) else stated);
    }
  }

  /** Without a stated size, a 200 of a non-empty file and a 206 with total `*` that leaves
      anything to send can always be cut so that a wrong file gets its final name. */
  lemma UnstatedSizeIsNeverSafe(s: Bytes, o: Options, d: Dest, dir: string, name: string, h: Headers)
    requires ArtifactName(name) && Final(dir, name) !in d.files && !o.dryRun
    requires Partial(name) in d.files ==> d.files[Partial(name)] <= s
    requires IsWritten(h, ResumeOffset(d.files, name)) && BodyStart(h, ResumeOffset(d.files, name)) < |s|
    requires h.length.Absent? && (IsPart(h, ResumeOffset(d.files, name)) ==> h.range.value.total.None?)
    ensures !NeverWrong(s, o, d, dir, name, h)
  {
    NoCutFinalisedIff(s, o, d, dir, name, h);
  }

  /** A 206 with total "*" and no Content-Length that is cut before its first byte: the half
      file gets its final name. */
  lemma StarWithoutLengthLosesTheTail()
    ensures exists source: map<string, Bytes>, d: Dest, a: Attempt ::
      && Safe(source, d.files) && "v" in source
      && a.reply(1) == Body(206, Absent, Some(ContentRange(1, None)), [], Eof, None)
      && var r := Call(Options(false, 0), true, d, "", "v", [a]);
         r.outcome == Returned(true) && Final("", "v") in r.dest.files
         && r.dest.files[Final("", "v")] != source["v"]
  {
    var source: map<string, Bytes> := map["v" := [1, 2]];
    var d := Dest(map[Partial("v") := [1]], map[]);
    var reply := Body(206, Absent, Some(ContentRange(1, None)), [], Eof, None);
    var a := Attempt(0, _ => reply, true, true, true, true);
    var r := Call(Options(false, 0), true, d, "", "v", [a]);
    assert ResumeOffset(d.files, "v") == 1;
    assert a.reply(1) == reply;
    var t := Transfer(d.files, "v", 1, reply);
    assert t.files[Partial("v")] == [1];
    assert r.outcome == Returned(true) && r.dest.files[Final("", "v")] == [1];
    assert Safe(source, d.files) by {
      forall n | ArtifactName(n) ensures PartialSafe(source, d.files, n) {
        assert ("." + n)[1..] == n;
      }
    }
  }
}
