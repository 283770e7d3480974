/** The server's ring of recent log lines and its fan-out queues
    (blackvuesync/server/log_buffer.py). A line's level, logger, time and message are one text. */
module LogRing {
  import opened Common

  datatype Line = Line(number: nat, text: string)

  /** The lines are those of the log that follow line `from`, numbered from 1, without a hole. */
  ghost predicate Stretch(log: seq<string>, from: int, lines: seq<Line>)
  {
    && 0 <= from <= from + |lines| <= |log|
    && forall i :: 0 <= i < |lines| ==> lines[i] == Line(from + i + 1, log[from + i])
  }

  /** What a deque of that maximum length keeps. */
  function Kept<T>(s: seq<T>, limit: nat): (r: seq<T>)
    ensures |r| == if |s| <= limit then |s| else limit
  {
    if |s| <= limit then s else s[|s| - limit..]
  }

  /** `log` is every line emitted since the process started, `lines` the part still buffered. */
  datatype Buffer = Buffer(log: seq<string>, lines: seq<Line>, capacity: nat)

  function AtLeastOne(n: int): nat { if n > 1 then n else 1 }

  function Opened(capacity: int): Buffer { Buffer([], [], AtLeastOne(capacity)) }

  function Emitted(b: Buffer, text: string): Buffer
  {
    Buffer(b.log + [text], Kept(b.lines + [Line(|b.log| + 1, text)], b.capacity), b.capacity)
  }

  function Resized(b: Buffer, capacity: int): Buffer
  {
    var limit := AtLeastOne(capacity);
    if limit == b.capacity then b else b.(capacity := limit, lines := Kept(b.lines, limit))
  }

  /** The number of lines that are no longer buffered. */
  function Forgotten(b: Buffer): int { |b.log| - |b.lines| }

  /** The buffer holds the newest lines, at least one if there was any, within its capacity. */
  ghost predicate IsRing(b: Buffer)
  {
    && |b.lines| <= b.capacity
    && (|b.log| > 0 ==> |b.lines| > 0)
    && Stretch(b.log, Forgotten(b), b.lines)
  }

  lemma StretchKept(log: seq<string>, from: int, lines: seq<Line>, limit: nat)
    requires Stretch(log, from, lines)
    ensures Stretch(log, from + |lines| - |Kept(lines, limit)|, Kept(lines, limit))
  {
  }

  lemma EmittedIsRing(b: Buffer, text: string)
    requires IsRing(b) && b.capacity >= 1
    ensures IsRing(Emitted(b, text))
    ensures Forgotten(Emitted(b, text)) >= Forgotten(b)
  {
    var all := b.lines + [Line(|b.log| + 1, text)];
    assert Stretch(b.log + [text], Forgotten(b), all);
    StretchKept(b.log + [text], Forgotten(b), all, b.capacity);
  }

  lemma ResizedIsRing(b: Buffer, capacity: int)
    requires IsRing(b)
    ensures IsRing(Resized(b, capacity))
    ensures Forgotten(Resized(b, capacity)) >= Forgotten(b)
  {
    StretchKept(b.log, Forgotten(b), b.lines, AtLeastOne(capacity));
  }

  datatype Change = Grow(text: string) | Resize(capacity: int)

  function Changed(b: Buffer, change: Change): Buffer
  {
    match change
    case Grow(text) => Emitted(b, text)
    case Resize(capacity) => Resized(b, capacity)
  }

  function After(b: Buffer, changes: seq<Change>): Buffer
  {
    if |changes| == 0 then b
    else Changed(After(b, changes[..|changes| - 1]), changes[|changes| - 1])
  }

  ghost predicate NeverBelow(changes: seq<Change>, low: nat)
  {
    forall i :: 0 <= i < |changes| && changes[i].Resize? ==> low <= AtLeastOne(changes[i].capacity)
  }

  /** A line is forgotten only when at least `low` newer ones were emitted, as long as the
      capacity never was below `low`. */
  lemma {:induction false} RingReachesBack(b: Buffer, changes: seq<Change>, low: nat, mark: nat)
    requires IsRing(b) && 1 <= low <= b.capacity && Forgotten(b) <= mark
    requires NeverBelow(changes, low)
    ensures IsRing(After(b, changes)) && low <= After(b, changes).capacity
    ensures |After(b, changes).log| >= |b.log|
    ensures |After(b, changes).log| - mark <= low ==> Forgotten(After(b, changes)) <= mark
  {
    if |changes| > 0 {
      var front := changes[..|changes| - 1];
      RingReachesBack(b, front, low, mark);
      match changes[|changes| - 1] {
        case Grow(text) => EmittedIsRing(After(b, front), text);
        case Resize(capacity) => ResizedIsRing(After(b, front), capacity);
      }
    }
  }

  ghost predicate IsLine(log: seq<string>, line: Line)
  {
    1 <= line.number <= |log| && line.text == log[line.number - 1]
  }

  ghost predicate Ascending(lines: seq<Line>)
  {
    forall i, j :: 0 <= i < j < |lines| ==> lines[i].number < lines[j].number
  }

  /** Every line is a line of the log under its own number, in ascending order. */
  ghost predicate TrueLines(log: seq<string>, lines: seq<Line>)
  {
    Ascending(lines) && forall i :: 0 <= i < |lines| ==> IsLine(log, lines[i])
  }

  /** put_nowait on a subscriber's bounded queue: a line that finds it full is dropped. */
  const QUEUE_MAX: nat := 2048

  function Offered(queue: seq<Line>, line: Line): seq<Line>
  {
    if |queue| < QUEUE_MAX then queue + [line] else queue
  }

  ghost predicate GoodQueue(log: seq<string>, queue: seq<Line>)
  {
    |queue| <= QUEUE_MAX && TrueLines(log, queue)
  }

  ghost predicate GoodQueues(log: seq<string>, queues: map<nat, seq<Line>>, limit: nat)
  {
    forall q {:trigger q in queues} :: q in queues ==> q < limit && GoodQueue(log, queues[q])
  }

  /** Each queue was offered the line; no queue came or went. */
  function AllOffered(queues: map<nat, seq<Line>>, line: Line): map<nat, seq<Line>>
  {
    map q | q in queues :: Offered(queues[q], line)
  }

  lemma AllOfferedStaysGood(log: seq<string>, queues: map<nat, seq<Line>>, text: string, limit: nat)
    requires GoodQueues(log, queues, limit)
    ensures GoodQueues(log + [text], AllOffered(queues, Line(|log| + 1, text)), limit)
  {
    forall q | q in queues
      ensures q < limit && GoodQueue(log + [text], Offered(queues[q], Line(|log| + 1, text)))
    {
      OfferedStaysGood(log, queues[q], text);
    }
  }

  lemma OfferedStaysGood(log: seq<string>, queue: seq<Line>, text: string)
    requires GoodQueue(log, queue)
    ensures GoodQueue(log + [text], Offered(queue, Line(|log| + 1, text)))
  {
    var line := Line(|log| + 1, text);
    forall x | x in Offered(queue, line)
      ensures IsLine(log + [text], x)
    {
      if x in queue { assert IsLine(log, x); }
    }
  }

  /** The ring is the newest part of the log, and no queue holds a line twice, out of order, or
      one that was never emitted. */
  ghost predicate IsSound(b: Buffer, queues: map<nat, seq<Line>>, limit: nat)
  {
    IsRing(b) && b.capacity >= 1 && GoodQueues(b.log, queues, limit)
  }

  lemma EmittedIsSound(b: Buffer, queues: map<nat, seq<Line>>, limit: nat, text: string)
    requires IsSound(b, queues, limit)
    ensures IsSound(Emitted(b, text), AllOffered(queues, Line(|b.log| + 1, text)), limit)
  {
    EmittedIsRing(b, text);
    AllOfferedStaysGood(b.log, queues, text, limit);
  }

  class LogBuffer {
    ghost var log: seq<string>
    var lines: seq<Line>
    var seqNo: nat
    var capacity: nat
    var subscribers: map<nat, seq<Line>>
    var nextQueue: nat

    ghost function View(): Buffer
      reads this
    {
      Buffer(log, lines, capacity)
    }

    ghost predicate Valid()
      reads this
    {
      seqNo == |log| && IsSound(View(), subscribers, nextQueue)
    }

    constructor (limit: int)
      ensures Valid() && View() == Opened(limit) && subscribers == map[]
      ensures log == [] && lines == [] && capacity == if limit > 1 then limit else 1
    {
      log, lines, seqNo := [], [], 0;
      capacity := AtLeastOne(limit);
      subscribers, nextQueue := map[], 0;
    }

    /** `message` is None when the record's text cannot be built: the record is dropped. */
    method Emit(message: Option<string>)
      requires Valid()
      modifies this
      ensures Valid() && nextQueue == old(nextQueue)
      ensures message.None? ==> View() == old(View()) && subscribers == old(subscribers)
      ensures message.Some? ==> View() == Emitted(old(View()), message.value)
      ensures message.Some? ==> log == old(log) + [message.value] && capacity == old(capacity)
      ensures message.Some? ==> |lines| == if |old(lines)| < capacity then |old(lines)| + 1 else capacity
      ensures message.Some? ==>
        subscribers == AllOffered(old(subscribers), Line(|old(log)| + 1, message.value))
    {
      if message.Some? {
        EmittedIsSound(View(), subscribers, nextQueue, message.value);
        seqNo := seqNo + 1;
        var line := Line(seqNo, message.value);
        lines := Kept(lines + [line], capacity);
        FanOut(line);
        log := log + [message.value];
      }
    }

    method FanOut(line: Line)
      modifies this`subscribers
      ensures subscribers == AllOffered(old(subscribers), line)
      ensures subscribers.Keys == old(subscribers.Keys) && forall q :: q in subscribers ==>
        subscribers[q] == old(subscribers)[q] + if |old(subscribers)[q]| < 2048 then [line] else []
    {
      var left := subscribers.Keys;
      while left != {}
        invariant left <= subscribers.Keys == old(subscribers.Keys)
        invariant forall q :: q in left ==> subscribers[q] == old(subscribers[q])
        invariant forall q :: q in subscribers && q !in left ==>
          subscribers[q] == Offered(old(subscribers[q]), line)
        decreases left
      {
        var q :| q in left;
        if |subscribers[q]| < QUEUE_MAX {
          subscribers := subscribers[q := subscribers[q] + [line]];
        }
        left := left - {q};
      }
    }

    /** The newest lines of the log under their own numbers, oldest first: as many as the
        capacity allows at most, and at least one if there was any. */
    method Snapshot() returns (copy: seq<Line>)
      requires Valid()
      ensures copy == View().lines
      ensures |copy| <= capacity && |copy| <= |log| && (|log| > 0 ==> |copy| > 0)
      ensures forall i :: 0 <= i < |copy| ==>
        copy[i] == Line(|log| - |copy| + i + 1, log[|log| - |copy| + i])
    {
      copy := lines;
    }

    method SetCapacity(limit: int)
      requires Valid()
      modifies this`capacity, this`lines
      ensures Valid() && View() == Resized(old(View()), limit)
      ensures capacity == if limit > 1 then limit else 1
      ensures |lines| == if |old(lines)| < capacity then |old(lines)| else capacity
    {
      ResizedIsRing(View(), limit);
      var wanted := AtLeastOne(limit);
      if wanted != capacity {
        capacity, lines := wanted, Kept(lines, wanted);
      }
    }

    method Subscribe() returns (q: nat)
      requires Valid()
      modifies this`subscribers, this`nextQueue
      ensures Valid() && q !in old(subscribers) && subscribers == old(subscribers)[q := []]
    {
      q := nextQueue;
      nextQueue := nextQueue + 1;
      subscribers := subscribers[q := []];
    }

    method Unregister(q: nat)
      requires Valid()
      modifies this`subscribers
      ensures Valid() && subscribers == old(subscribers) - {q}
    {
      subscribers := subscribers - {q};
    }

    /** One batch of _drain: empty for a heartbeat, else everything queued, oldest first. */
    method Drain(q: nat) returns (batch: seq<Line>)
      requires Valid() && q in subscribers
      modifies this`subscribers
      ensures Valid() && batch == old(subscribers[q])
      ensures subscribers == old(subscribers)[q := []]
    {
      if |subscribers[q]| == 0 {
        assert subscribers == subscribers[q := []];
        return [];
      }
      var queue := subscribers[q];
      batch, queue := [queue[0]], queue[1..];
      while |queue| > 0
        invariant batch + queue == old(subscribers[q])
      {
        batch, queue := batch + [queue[0]], queue[1..];
      }
      subscribers := subscribers[q := queue];
    }
  }
}
