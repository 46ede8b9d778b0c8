/**
 * The Bot API backend as an object: its two cursor fields, the cursor file, and the update stream on Telegram's
 * side. Each method is proved to do exactly the transition the protocol model gives it.
 */
module BotBackend {
  import opened Wrappers
  import opened Delivery
  import Queue = CallbackQueue
  import Safety = DeliverySafety

  datatype Error = CallFailed | UnreadableQueue

  /** How a getUpdates call ends: it never arrives, it is processed but the answer is unusable, or it answers n updates. */
  datatype Reply = Unreached | Unread | Answer(n: nat)

  /** The queue file as os.ReadFile finds it. */
  datatype QueueFile = Missing | Unreadable | Lines(lines: seq<Queue.Line>)

  /** What the outside does during one call: file faults and Telegram's replies. */
  datatype Outside = Outside(readable: bool, writable: bool, poll: Reply, confirm: Reply, queue: QueueFile)

  function Callbacks(us: seq<Update>): seq<Update> {
    if us == [] then []
    else if us[|us| - 1].callback then Callbacks(us[..|us| - 1]) + [us[|us| - 1]]
    else Callbacks(us[..|us| - 1])
  }

  function Ids(us: seq<Update>): seq<int> {
    seq(|us|, i requires 0 <= i < |us| => us[i].id)
  }

  /** onlyCallbacks keeps the presses, in order. */
  lemma {:induction false} CallbacksArePresses(us: seq<Update>)
    ensures Ids(Callbacks(us)) == Presses(us)
    ensures forall u :: u in Callbacks(us) ==> u in us && u.callback
  {
    if us != [] {
      var front := us[..|us| - 1];
      CallbacksArePresses(front);
      PressesAppend(front, [us[|us| - 1]]);
      assert us == front + [us[|us| - 1]];
      assert Presses([us[|us| - 1]]) == if us[|us| - 1].callback then [us[|us| - 1].id] else [];
    }
  }

  method OnlyCallbacks(updates: seq<Update>) returns (out: seq<Update>)
    ensures out == Callbacks(updates)
  {
    out := [];
    for i := 0 to |updates|
      invariant out == Callbacks(updates[..i])
    {
      assert updates[..i + 1][..i] == updates[..i];
      if updates[i].callback {
        out := out + [updates[i]];
      }
    }
    assert updates[..|updates|] == updates;
  }

  method HighestId(updates: seq<Update>) returns (highest: int)
    requires Ascending(updates)
    ensures highest == if updates == [] then -1 else updates[|updates| - 1].id
  {
    highest := -1;
    for i := 0 to |updates|
      invariant highest == if i == 0 then -1 else updates[i - 1].id
    {
      if updates[i].id > highest {
        highest := updates[i].id;
      }
    }
  }

  /** Telegram's side of the stream: ids ascend, a call drops what lies below its offset, an answer is a prefix. */
  class UpdateStream {
    var pending: seq<Update>

    method GetUpdates(offset: Option<int>, limit: nat, reply: Reply) returns (r: Result<seq<Update>, Error>)
      modifies this
      ensures pending == if reply.Unreached? then old(pending) else old(pending)[Cut(old(pending), offset)..]
      ensures r == if reply.Answer? then Ok(Queue.Take(Queue.Take(pending, limit), reply.n)) else Err(CallFailed)
      ensures old(Ascending(pending)) ==> Ascending(pending) && (r.Ok? ==> Ascending(r.value))
    {
      if reply.Unreached? {
        return Err(CallFailed);
      }
      pending := pending[Cut(pending, offset)..];
      r := if reply.Answer? then Ok(Queue.Take(Queue.Take(pending, limit), reply.n)) else Err(CallFailed);
    }
  }

  /** The cursor file: written through a temporary file and a rename, so it holds a whole value or the old one. */
  class CursorFile {
    var offset: Option<int>
  }

  datatype Outcome = Outcome(sys: Sys, result: Result<seq<Update>, Error>)

  /** What becomes of the system once a batch has been received: a peek leaves it there. */
  function Taken(s: Sys, batch: seq<Update>, consume: bool, wrote: bool, reached: bool): Sys {
    if batch == [] || !consume then s else ConfirmCall(StoreDisk(StoreMemory(s, batch), wrote), reached)
  }

  function Asked(s: Sys, offset: Option<int>): Sys {
    s.(pending := s.pending[Cut(s.pending, offset)..])
  }

  /** What a read of the stream from this offset amounts to. */
  function PollFrom(s: Sys, offset: Option<int>, limit: nat, consume: bool, out: Outside): Outcome {
    match out.poll
    case Unreached => Outcome(s, Err(CallFailed))
    case Unread => Outcome(Asked(s, offset), Err(CallFailed))
    case Answer(n) =>
      var batch := Queue.Take(Queue.Take(Asked(s, offset).pending, limit), n);
      Outcome(Taken(Asked(s, offset), batch, consume, out.writable, !out.confirm.Unreached?), Ok(Callbacks(batch)))
  }

  /** What a read of the queue file from this offset amounts to. */
  function DrainFrom(s: Sys, offset: Option<int>, limit: int, consume: bool, out: Outside): Outcome {
    match out.queue
    case Missing => Outcome(s, Ok([]))
    case Unreadable => Outcome(s, Err(UnreadableQueue))
    case Lines(lines) =>
      var batch := Queue.QueueBatch(lines, offset, limit);
      Outcome(if batch == [] || !consume then s else StoreDisk(StoreMemory(s, batch), out.writable), Ok(Callbacks(batch)))
  }

  /** What one call in polling mode amounts to. */
  function Poll(s: Sys, since: Option<int>, limit: int, consume: bool, out: Outside): Outcome {
    var l := LoadCursor(s, out.readable);
    PollFrom(l, EffectiveOffset(l.memory, since), Clamp(limit, 1, MAX_UPDATES_PER_CALL), consume, out)
  }

  /** What one call in queue mode amounts to. */
  function Drain(s: Sys, since: Option<int>, limit: int, consume: bool, out: Outside): Outcome {
    var l := LoadCursor(s, out.readable);
    DrainFrom(l, EffectiveOffset(l.memory, since), Clamp(limit, 1, MAX_UPDATES_PER_CALL), consume, out)
  }

  class Backend {
    const hasCursorPath: bool
    const hasQueuePath: bool
    const stream: UpdateStream
    const file: CursorFile
    var callbackOffset: Option<int>
    var cursorLoaded: bool

    /** What the protocol model sees of this object. Without a path there is no file to speak of. */
    ghost function Snapshot(): Sys
      reads this, stream, file
    {
      Sys(stream.pending, callbackOffset, cursorLoaded, if hasCursorPath then file.offset else None)
    }

    ghost predicate Valid()
      reads this, stream, file
    {
      && Ascending(stream.pending)
      && (!cursorLoaded ==> callbackOffset.None?)
    }

    constructor (hasCursorPath: bool, hasQueuePath: bool, stream: UpdateStream, file: CursorFile)
      requires Ascending(stream.pending)
      ensures Valid() && Snapshot() == Sys(stream.pending, None, false, if hasCursorPath then file.offset else None)
      ensures this.stream == stream && this.file == file
      ensures this.hasCursorPath == hasCursorPath && this.hasQueuePath == hasQueuePath
    {
      this.hasCursorPath := hasCursorPath;
      this.hasQueuePath := hasQueuePath;
      this.stream := stream;
      this.file := file;
      callbackOffset := None;
      cursorLoaded := false;
    }

    /** Without a path no cursor is ever written. */
    function WithPath(out: Outside): Outside {
      out.(writable := hasCursorPath && out.writable)
    }

    method LoadCursorFile(readable: bool)
      requires Valid()
      modifies this
      ensures Valid() && Snapshot() == LoadCursor(old(Snapshot()), readable)
    {
      if cursorLoaded {
        return;
      }
      cursorLoaded := true;
      if !hasCursorPath {
        return;
      }
      if !readable {
        return;
      }
      callbackOffset := file.offset;
    }

    method StoreCursor(offset: int, writable: bool)
      requires Valid() && cursorLoaded
      modifies this, file
      ensures Valid() && cursorLoaded
      ensures Snapshot() == StoreDisk(old(Snapshot()).(memory := Some(offset)), hasCursorPath && writable)
    {
      callbackOffset := Some(offset);
      if !hasCursorPath {
        return;
      }
      if writable {
        file.offset := Some(offset);
      }
    }

    /** The local cursor first, then the call that makes Telegram drop the batch. */
    method ConfirmUpdates(nextOffset: nat, writable: bool, reply: Reply)
      requires Valid() && cursorLoaded
      modifies this, stream, file
      ensures Valid()
      ensures Snapshot() == ConfirmCall(
          StoreDisk(old(Snapshot()).(memory := Some(nextOffset)), hasCursorPath && writable), !reply.Unreached?)
    {
      StoreCursor(nextOffset, writable);
      var _ := stream.GetUpdates(Some(nextOffset), 1, reply);
    }

    method ReadQueue(offset: Option<int>, limit: int, consume: bool, out: Outside)
      returns (r: Result<seq<Update>, Error>)
      requires Valid() && cursorLoaded && 1 <= limit <= MAX_UPDATES_PER_CALL
      modifies this, file
      ensures Valid()
      ensures Outcome(Snapshot(), r) == DrainFrom(old(Snapshot()), offset, limit, consume, WithPath(out))
    {
      if out.queue.Missing? {
        return Ok([]);
      }
      if out.queue.Unreadable? {
        return Err(UnreadableQueue);
      }
      var lines := out.queue.lines;
      var from := Queue.OffsetValue(offset);
      var updates := [];
      for i := 0 to |lines|
        modifies {}
        invariant updates == Queue.Eligible(Queue.Entries(lines[..i]), from)
      {
        EligibleStep(lines, i, from);
        if lines[i].Unusable? {
          continue;
        }
        if lines[i].u.id < from {
          continue;
        }
        updates := updates + [lines[i].u];
      }
      assert lines[..|lines|] == lines;
      updates := Queue.Sorted(updates);
      if |updates| > limit {
        updates := updates[..limit];
      }
      assert updates == Queue.QueueBatch(lines, offset, limit);
      if |updates| > 0 && consume {
        StoreCursor(updates[|updates| - 1].id + 1, out.writable);
      }
      var kept := OnlyCallbacks(updates);
      r := Ok(kept);
    }

    method PollStream(offset: Option<int>, limit: int, consume: bool, out: Outside)
      returns (r: Result<seq<Update>, Error>)
      requires Valid() && cursorLoaded && 1 <= limit <= MAX_UPDATES_PER_CALL
      modifies this, stream, file
      ensures Valid()
      ensures Outcome(Snapshot(), r) == PollFrom(old(Snapshot()), offset, limit, consume, WithPath(out))
    {
      var raw := stream.GetUpdates(offset, limit, out.poll);
      if raw.Err? {
        return raw;
      }
      ghost var q := Asked(old(Snapshot()), offset);
      assert Snapshot() == q && raw.value == Queue.Take(Queue.Take(q.pending, limit), out.poll.n);
      var kept := TakeBatch(raw.value, consume, out);
      r := Ok(kept);
    }

    /** Confirms what has been received, unless this is a peek, and keeps the presses. */
    method TakeBatch(updates: seq<Update>, consume: bool, out: Outside) returns (kept: seq<Update>)
      requires Valid() && cursorLoaded && Ascending(updates)
      modifies this, stream, file
      ensures Valid() && kept == Callbacks(updates)
      ensures Snapshot() == Taken(old(Snapshot()), updates, consume, hasCursorPath && out.writable, !out.confirm.Unreached?)
    {
      if |updates| == 0 {
        return [];
      }
      var highest := HighestId(updates);
      if consume && highest >= 0 {
        ConfirmUpdates(highest + 1, out.writable, out.confirm);
        assert old(Snapshot()).(memory := Some(highest + 1)) == StoreMemory(old(Snapshot()), updates);
      }
      kept := OnlyCallbacks(updates);
    }

    /**
     * One read, in either mode. A consuming read hands out what the protocol model hands out and leaves the cursor,
     * the file and Telegram's queue as the model leaves them; a peek stores nothing.
     */
    method GetCallbackQueries(sinceId: Option<int>, limit: int, consume: bool, out: Outside)
      returns (r: Result<seq<Update>, Error>)
      requires Valid()
      modifies this, stream, file
      ensures Valid()
      ensures Outcome(Snapshot(), r) ==
              if hasQueuePath then Drain(old(Snapshot()), sinceId, limit, consume, WithPath(out))
              else Poll(old(Snapshot()), sinceId, limit, consume, WithPath(out))
    {
      var clamped := Clamp(limit, 1, MAX_UPDATES_PER_CALL);
      LoadCursorFile(out.readable);
      var offset := callbackOffset;
      if sinceId.Some? {
        // A caller-supplied cursor may only move forward.
        var next := sinceId.value + 1;
        if offset.None? || next > offset.value {
          offset := Some(next);
        }
      }
      if hasQueuePath {
        r := ReadQueue(offset, clamped, consume, out);
        return;
      }
      r := PollStream(offset, clamped, consume, out);
    }
  }

  lemma EligibleStep(lines: seq<Queue.Line>, i: nat, offset: int)
    requires i < |lines|
    ensures Queue.Eligible(Queue.Entries(lines[..i + 1]), offset) ==
            Queue.Eligible(Queue.Entries(lines[..i]), offset) +
            (if lines[i].Entry? && lines[i].u.id >= offset then [lines[i].u] else [])
  {
    assert lines[..i + 1] == lines[..i] + [lines[i]];
    Queue.EntriesAppend(lines[..i], [lines[i]]);
    var last := if lines[i].Entry? then [lines[i].u] else [];
    assert Queue.Entries([lines[i]]) == last + Queue.Entries([]);
    assert Queue.Entries([lines[i]]) == last;
    assert last != [] ==> last[1..] == [] && Queue.Eligible(last[1..], offset) == [];
    EligibleAppend(Queue.Entries(lines[..i]), last, offset);
  }

  lemma {:induction false} EligibleAppend(a: seq<Update>, b: seq<Update>, offset: int)
    ensures Queue.Eligible(a + b, offset) == Queue.Eligible(a, offset) + Queue.Eligible(b, offset)
  {
    if a == [] {
      assert a + b == b;
      assert Queue.Eligible(a, offset) + Queue.Eligible(b, offset) == Queue.Eligible(b, offset);
    } else {
      EligibleAppend(a[1..], b, offset);
      assert (a + b)[1..] == a[1..] + b;
      assert [a[0]] + (Queue.Eligible(a[1..], offset) + Queue.Eligible(b, offset))
          == [a[0]] + Queue.Eligible(a[1..], offset) + Queue.Eligible(b, offset);
    }
  }

  // --- the object's runs are the protocol's runs ---

  /** The steps of the protocol that one polling call takes. */
  function StepsOf(s: Sys, since: Option<int>, limit: int, consume: bool, out: Outside): seq<Step> {
    match out.poll
    case Unreached => [FetchFails(since, out.readable, false)]
    case Unread => [FetchFails(since, out.readable, true)]
    case Answer(n) =>
      var batch := Queue.Take(Queue.Take(Requested(s, since, out.readable).pending, Clamp(limit, 1, MAX_UPDATES_PER_CALL)), n);
      if !consume then [Peek(since, out.readable)]
      else if batch == [] then [Fetch(since, limit, out.readable, 0)]
      else Safety.ReadSteps(since, limit, out.readable, |batch|, out.writable, !out.confirm.Unreached?)
  }

  /**
   * Every call of GetCallbackQueries in polling mode is a run of the protocol, from any state of it, to the same
   * system state; a consuming call that succeeds returns exactly what the run adds to the delivered presses.
   */
  lemma PollIsARun(s: State, since: Option<int>, limit: int, consume: bool, out: Outside)
    requires s.phase.Idle?
    ensures var steps := StepsOf(s.sys, since, limit, consume, out);
      var o := Poll(s.sys, since, limit, consume, out);
      && ValidRun(s, steps)
      && Run(s, steps).sys == o.sys && Run(s, steps).phase.Idle?
      && Run(s, steps).delivered == s.delivered + (if consume && o.result.Ok? then Ids(o.result.value) else [])
  {
    var steps := StepsOf(s.sys, since, limit, consume, out);
    if out.poll.Answer? {
      var r := Requested(s.sys, since, out.readable);
      var batch := Queue.Take(Queue.Take(r.pending, Clamp(limit, 1, MAX_UPDATES_PER_CALL)), out.poll.n);
      CallbacksArePresses(batch);
      if consume && batch != [] {
        assert batch == r.pending[..|batch|];
        Safety.WholeRead(s, since, limit, out.readable, |batch|, out.writable, !out.confirm.Unreached?);
      } else {
        Safety.OneStep(s, steps[0], []);
        assert steps == [steps[0]] + [];
      }
    } else {
      Safety.OneStep(s, steps[0], []);
      assert steps == [steps[0]] + [];
    }
  }

  /**
   * What the caller is answered, peek or not: a call succeeds exactly when Telegram's answer can be read, with the
   * presses, in order, among the first updates that the request left: as many as the answer held, at most as many as
   * the limit asks for, which counts as at least 1 and at most 100.
   */
  lemma PollAnswers(s: Sys, since: Option<int>, limit: int, consume: bool, out: Outside)
    ensures var r := Poll(s, since, limit, consume, out).result;
      && (r.Ok? <==> out.poll.Answer?)
      && (r.Err? ==> r.error == CallFailed)
    ensures var r, left := Poll(s, since, limit, consume, out).result, Requested(s, since, out.readable).pending;
      var most := if limit < 1 then 1 else if limit > 100 then 100 else limit;
      r.Ok? ==>
        var m := if most <= out.poll.n && most <= |left| then most else if out.poll.n <= |left| then out.poll.n else |left|;
        Ids(r.value) == Presses(left[..m]) && forall u :: u in r.value ==> u in left && u.callback
  {
    if out.poll.Answer? {
      var left := Requested(s, since, out.readable).pending;
      var batch := Queue.Take(Queue.Take(left, Clamp(limit, 1, MAX_UPDATES_PER_CALL)), out.poll.n);
      CallbacksArePresses(batch);
      assert batch == left[..|batch|];
    }
  }

  /** The same in queue mode: a missing file is an empty queue, an unreadable one an error, and a readable one a batch. */
  lemma DrainAnswers(s: Sys, since: Option<int>, limit: int, consume: bool, out: Outside)
    ensures var r := Drain(s, since, limit, consume, out).result;
      && (out.queue.Missing? ==> r == Ok([]))
      && (out.queue.Unreadable? ==> r == Err(UnreadableQueue))
      && (out.queue.Lines? ==>
          var batch := Queue.QueueBatch(out.queue.lines, EffectiveOffset(LoadCursor(s, out.readable).memory, since), limit);
          r.Ok? && Ids(r.value) == Presses(batch) && forall u :: u in r.value ==> u in batch && u.callback)
  {
    if out.queue.Lines? {
      CallbacksArePresses(
        Queue.QueueBatch(out.queue.lines, EffectiveOffset(LoadCursor(s, out.readable).memory, since), limit));
    }
  }

  /** So a look answers what a consuming call in its place would have answered. */
  lemma PeekAnswersAsRead(s: Sys, since: Option<int>, limit: int, out: Outside)
    ensures Poll(s, since, limit, false, out).result == Poll(s, since, limit, true, out).result
    ensures Drain(s, since, limit, false, out).result == Drain(s, since, limit, true, out).result
  {
  }

  /** In queue mode every call over the file's lines is one step of the queue reader, with the same result. */
  lemma DrainIsAStep(r: Queue.Reader, pending: seq<Update>, since: Option<int>, limit: int, consume: bool, out: Outside)
    requires out.queue == Lines(r.lines)
    ensures var o := Drain(Sys(pending, r.memory, r.loaded, r.disk), since, limit, consume, out);
      var n := Queue.Next(r, if consume then Queue.Read(since, limit, out.readable, out.writable)
                             else Queue.Look(since, limit, out.readable));
      && o.sys == Sys(pending, n.memory, n.loaded, n.disk)
      && o.result.Ok? && n.delivered == r.delivered + (if consume then Ids(o.result.value) else [])
  {
    var l := Queue.Load(r, out.readable);
    CallbacksArePresses(Queue.QueueBatch(r.lines, EffectiveOffset(l.memory, since), limit));
  }
}
