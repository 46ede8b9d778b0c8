/** What whole runs of the polling protocol guarantee, and exactly when a decision can be replayed. */
module DeliverySafety {
  import opened Wrappers
  import opened Delivery

  lemma {:induction false} RunKeepsSound(s: State, steps: seq<Step>)
    requires Sound(s) && ValidRun(s, steps)
    ensures Sound(Run(s, steps))
    decreases |steps|
  {
    if steps != [] {
      StepKeepsSound(s, steps[0]);
      RunKeepsSound(Next(s, steps[0]), steps[1..]);
    }
  }

  // --- nothing is lost without a record ---

  /** The caller's cursor is absent, or the id of a press it has received: what consuming reads hand back. */
  predicate FedBack(s: State, step: Step) {
    match step
    case Fetch(since, _, _, _) => since.None? || since.value in s.delivered
    case Peek(since, _) => since.None? || since.value in s.delivered
    case FetchFails(since, _, _) => since.None? || since.value in s.delivered
    case _ => true
  }

  predicate FedBackRun(s: State, steps: seq<Step>)
    requires ValidRun(s, steps)
    decreases |steps|
  {
    steps == [] || (FedBack(s, steps[0]) && FedBackRun(Next(s, steps[0]), steps[1..]))
  }

  lemma FedBackSkipsNothing(s: State, since: Option<int>, readable: bool)
    requires Inv(s) && s.phase.Idle?
    requires since.None? || since.value in s.delivered
    ensures Unseen(s, since, readable) == {}
  {
    var l := LoadCursor(s.sys, readable);
    var offset := EffectiveOffset(l.memory, since);
    if offset.Some? {
      CutSplits(l.pending, offset.value);
      forall i | 0 <= i < Cut(l.pending, offset) ensures !Fresh(s, l.pending[i], readable) {
        assert l.pending[i] in s.sys.pending && l.pending[i].id < offset.value;
      }
    }
  }

  lemma {:induction false} FedBackRunSkipsNothing(s: State, steps: seq<Step>)
    requires Sound(s) && ValidRun(s, steps) && FedBackRun(s, steps) && s.skipped == {}
    ensures Run(s, steps).skipped == {}
    decreases |steps|
  {
    if steps != [] {
      match steps[0] {
        case Fetch(since, _, readable, _) => FedBackSkipsNothing(s, since, readable);
        case Peek(since, readable) => FedBackSkipsNothing(s, since, readable);
        case FetchFails(since, readable, _) => FedBackSkipsNothing(s, since, readable);
        case _ =>
      }
      StepKeepsSound(s, steps[0]);
      FedBackRunSkipsNothing(Next(s, steps[0]), steps[1..]);
    }
  }

  /**
   * Over every run in which callers pass no since_id, or one a consuming read gave them: a press that Telegram
   * has forgotten, or that lies below the cursor in memory or on disk, was handed out, is in the batch of the
   * read in progress, or died with the process that held it, beyond the reach of a restarted one; without a crash
   * that last group is empty.
   */
  lemma EveryPressAccounted(steps: seq<Step>, u: Update)
    requires ValidRun(Init(), steps) && FedBackRun(Init(), steps)
    requires var s := Run(Init(), steps); u in s.arrived && u.callback && OutOfReach(s, u)
    ensures var s := Run(Init(), steps);
      u.id in s.delivered || u.id in Presses(InHand(s.phase)) || (u.id in s.lost && Crash in steps)
  {
    RunKeepsSound(Init(), steps);
    FedBackRunSkipsNothing(Init(), steps);
    if Crash !in steps { OnlyCrashesLose(Init(), steps); }
    assert Accounted(Run(Init(), steps), u.id);
  }

  lemma {:induction false} OnlyCrashesLose(s: State, steps: seq<Step>)
    requires ValidRun(s, steps) && Crash !in steps
    ensures Run(s, steps).lost == s.lost
    decreases |steps|
  {
    if steps != [] {
      OnlyCrashesLose(Next(s, steps[0]), steps[1..]);
    }
  }

  // --- exactly when a dying process loses its batch ---

  predicate Readable(step: Step) {
    step.Fetch? || step.Peek? || step.FetchFails? ==> step.readable
  }

  /** The file never runs ahead of the memory, and covers a batch only once it has been written for it. */
  ghost predicate NotFiledYet(s: State) {
    && (s.sys.loaded && s.sys.disk.Some? ==> s.sys.memory.Some? && s.sys.disk.value <= s.sys.memory.value)
    && (s.phase.Fetched? || s.phase.Remembered? || (s.phase.Filed? && !s.phase.wrote) || (s.phase.Settled? && !s.phase.secured)
        ==> forall u :: u in s.phase.batch ==> !Below(u.id, s.sys.disk))
  }

  lemma FetchedNotFiled(s: State, since: Option<int>, limit: int, n: nat)
    requires Inv(s) && NotFiledYet(s) && Enabled(s, Fetch(since, limit, true, n))
    ensures NotFiledYet(Next(s, Fetch(since, limit, true, n)))
  {
    var l := LoadCursor(s.sys, true);
    var offset := EffectiveOffset(l.memory, since);
    if l.memory.Some? {
      CutSplits(l.pending, offset.value);
    }
  }

  lemma ReadableKeepsNotFiled(s: State, step: Step)
    requires Inv(s) && NotFiledYet(s) && Enabled(s, step) && Readable(step)
    ensures NotFiledYet(Next(s, step))
  {
    match step
    case Fetch(since, limit, _, n) => FetchedNotFiled(s, since, limit, n);
    case Remember =>
      var b := s.phase.batch;
      assert b[|b| - 1] in b;
    case _ =>
  }

  /** The cursor file was written for the batch in hand, or the confirming call dropped it. */
  predicate PastRecall(p: Phase) {
    (p.Filed? && p.wrote) || (p.Settled? && p.secured)
  }

  lemma CrashLosesIff(s: State, x: int)
    requires PhaseOk(s) && Ascending(InHand(s.phase)) && x in Presses(InHand(s.phase))
    ensures Receivable(Next(s, Crash).sys, x) <==> !PastRecall(s.phase) && !Below(x, s.sys.disk)
  {
    if PastRecall(s.phase) {
      FiledOrDropped(s.sys, s.phase.batch, x);
      NotReceivableLater(s.sys, Next(s, Crash).sys, x);
    } else if !Below(x, s.sys.disk) {
      HeldIsReceivable(Next(s, Crash).sys, s.phase.batch, x);
    }
  }

  lemma HeldIsReceivable(sys: Sys, b: seq<Update>, x: int)
    requires b <= sys.pending && x in Presses(b) && !Below(x, sys.disk)
    ensures Receivable(sys, x)
  {
    var i :| 0 <= i < |b| && b[i].callback && b[i].id == x;
    assert b[i] in b && sys.pending[i] == b[i];
  }

  lemma FiledOrDropped(sys: Sys, b: seq<Update>, x: int)
    requires Ascending(b) && b != [] && x in Presses(b)
    requires sys.disk == Some(b[|b| - 1].id + 1) || AllAfter(sys.pending, b)
    ensures !Receivable(sys, x)
  {
    PressesUpTo(b, x);
    if sys.disk != Some(b[|b| - 1].id + 1) {
      forall j | 0 <= j < |sys.pending| ensures sys.pending[j].id != x {
        assert sys.pending[j] in sys.pending;
      }
    }
  }

  lemma PressesUpTo(b: seq<Update>, x: int)
    requires Ascending(b) && b != [] && x in Presses(b)
    ensures x <= b[|b| - 1].id
  {
  }

  lemma NotReceivableLater(a: Sys, b: Sys, x: int)
    requires !Receivable(a, x) && b.pending == a.pending && b.disk == a.disk
    ensures !Receivable(b, x)
  {
    assert a.pending == a.pending[0..];
    FewerReceivable(a, b, 0, x);
  }

  /** A press recorded as lost has no way left to anybody. */
  ghost predicate LostForGood(s: State) {
    forall x :: x in s.lost ==>
      Seen(s.arrived, x) && x !in s.delivered && x !in Presses(InHand(s.phase)) && !Receivable(s.sys, x)
  }

  /** A request, and a step that raises the file's cursor or drops a prefix of the queue, bring no press back. */
  lemma FewerReceivable(a: Sys, b: Sys, k: nat, x: int)
    requires k <= |a.pending| && b.pending == a.pending[k..] && !Receivable(a, x)
    requires a.disk.Some? ==> b.disk.Some? && b.disk.value >= a.disk.value
    ensures !Receivable(b, x)
  {
    forall i | 0 <= i < |b.pending| ensures !(b.pending[i].id == x && !Below(x, b.disk)) {
      assert b.pending[i] == a.pending[k + i];
    }
  }

  lemma RequestKeepsLost(s: State, since: Option<int>, x: int)
    requires !Receivable(s.sys, x)
    ensures !Receivable(Requested(s.sys, since, true), x)
  {
    var l := LoadCursor(s.sys, true);
    FewerReceivable(s.sys, Requested(s.sys, since, true), Cut(l.pending, EffectiveOffset(l.memory, since)), x);
  }

  lemma FetchedIsReceivable(s: State, x: int)
    requires Inv(s) && NotFiledYet(s) && s.phase.Fetched? && x in Presses(s.phase.batch)
    ensures Receivable(s.sys, x)
  {
    var b := s.phase.batch;
    var i :| 0 <= i < |b| && b[i].callback && b[i].id == x;
    assert b[i] in b;
    HeldIsReceivable(s.sys, b, x);
  }

  lemma {:induction false} FetchKeepsLost(s: State, since: Option<int>, limit: int, n: nat)
    requires Inv(s) && NotFiledYet(s) && LostForGood(s) && Enabled(s, Fetch(since, limit, true, n))
    ensures LostForGood(Next(s, Fetch(since, limit, true, n)))
  {
    var t := Next(s, Fetch(since, limit, true, n));
    FetchedNotFiled(s, since, limit, n);
    forall x | x in s.lost ensures !Receivable(t.sys, x) && x !in Presses(InHand(t.phase)) {
      RequestKeepsLost(s, since, x);
      if x in Presses(InHand(t.phase)) { FetchedIsReceivable(t, x); }
    }
  }

  lemma ArriveKeepsLost(s: State, u: Update)
    requires Inv(s) && LostForGood(s) && Enabled(s, Arrive(u))
    ensures LostForGood(Next(s, Arrive(u)))
  {
    var n := Next(s, Arrive(u));
    forall x | x in s.lost ensures Seen(n.arrived, x) && !Receivable(n.sys, x) {
      var v :| v in s.arrived && v.id == x && v.callback;
      assert v in n.arrived;
      forall i | 0 <= i < |n.sys.pending| ensures !(n.sys.pending[i].id == x && !Below(x, n.sys.disk)) {
        if i < |s.sys.pending| { assert n.sys.pending[i] == s.sys.pending[i]; }
      }
    }
  }

  lemma CrashKeepsLost(s: State)
    requires Inv(s) && LostForGood(s)
    ensures LostForGood(Next(s, Crash))
  {
    var n := Next(s, Crash);
    forall x | x in DyingWith(s) ensures Seen(s.arrived, x) {
      var b := InHand(s.phase);
      var i :| 0 <= i < |b| && b[i].callback && b[i].id == x;
      assert b[i] in b;
    }
    forall x | x in n.lost ensures !Receivable(n.sys, x) {
      NotReceivableLater(s.sys, n.sys, x);
    }
  }

  lemma {:induction false} ReadableKeepsLost(s: State, step: Step)
    requires Inv(s) && NotFiledYet(s) && LostForGood(s) && Enabled(s, step) && Readable(step)
    ensures LostForGood(Next(s, step))
  {
    var n := Next(s, step);
    match step
    case Arrive(u) => ArriveKeepsLost(s, u);
    case Fetch(since, limit, _, m) => FetchKeepsLost(s, since, limit, m);
    case Peek(since, _) => forall x | x in s.lost { RequestKeepsLost(s, since, x); }
    case FetchFails(since, _, reached) => if reached { forall x | x in s.lost { RequestKeepsLost(s, since, x); } }
    case File(_) => forall x | x in s.lost { FewerReceivable(s.sys, n.sys, 0, x); }
    case Confirm(reached) =>
      forall x | x in s.lost { FewerReceivable(s.sys, n.sys, if reached then Cut(s.sys.pending, s.sys.memory) else 0, x); }
    case Crash => CrashKeepsLost(s);
    case _ =>
  }

  lemma {:induction false} ReadableRunKeepsLost(s: State, steps: seq<Step>)
    requires Sound(s) && NotFiledYet(s) && LostForGood(s) && ValidRun(s, steps)
    requires forall step :: step in steps ==> Readable(step)
    ensures var n := Run(s, steps); Sound(n) && NotFiledYet(n) && LostForGood(n)
    decreases |steps|
  {
    if steps != [] {
      var first := steps[0];
      assert first in steps;
      StepKeepsSound(s, first);
      ReadableKeepsNotFiled(s, first);
      ReadableKeepsLost(s, first);
      ReadableRunKeepsLost(Next(s, first), steps[1..]);
    }
  }

  /**
   * Where the process dies decides. At any point of any run, with any faults, a crash leaves a press in hand to be
   * received if and only if neither the cursor file was written for its batch nor the confirming call dropped it,
   * and the file does not cover it from before, as it can for a read that found the file unreadable.
   */
  lemma CrashLosesExactly(steps: seq<Step>, x: int)
    requires ValidRun(Init(), steps) && x in Presses(InHand(Run(Init(), steps).phase))
    ensures var s := Run(Init(), steps);
      Receivable(Next(s, Crash).sys, x) <==> !PastRecall(s.phase) && !Below(x, s.sys.disk)
  {
    RunKeepsSound(Init(), steps);
    CrashLosesIff(Run(Init(), steps), x);
  }

  /** Where the file reads back, that is one answer for the whole batch: all of it or none. */
  lemma CrashLosesAllOrNothing(steps: seq<Step>, x: int)
    requires ValidRun(Init(), steps) && forall step :: step in steps ==> Readable(step)
    requires x in Presses(InHand(Run(Init(), steps).phase))
    ensures var s := Run(Init(), steps); Receivable(Next(s, Crash).sys, x) <==> !PastRecall(s.phase)
  {
    ReadableRunKeepsLost(Init(), steps);
    var s := Run(Init(), steps);
    CrashLosesIff(s, x);
    if !PastRecall(s.phase) {
      var i :| 0 <= i < |s.phase.batch| && s.phase.batch[i].id == x;
      assert s.phase.batch[i] in s.phase.batch;
    }
  }

  /** And the record is right: what it calls lost was never handed out, nor is it in anybody's reach any more. */
  lemma LostIsNeverReceived(steps: seq<Step>)
    requires ValidRun(Init(), steps) && forall step :: step in steps ==> Readable(step)
    ensures LostForGood(Run(Init(), steps))
  {
    ReadableRunKeepsLost(Init(), steps);
  }

  /** Neither is a skipped press: once a since_id has made Telegram drop it, no later read returns it. */
  lemma {:induction false} SkippedIsNeverReceived(s: State, steps: seq<Step>, x: int)
    requires Sound(s) && ValidRun(s, steps) && x in s.skipped
    ensures x in Run(s, steps).skipped && x !in Run(s, steps).delivered
    decreases |steps|
  {
    if steps != [] {
      StepKeepsSound(s, steps[0]);
      SkippedIsNeverReceived(Next(s, steps[0]), steps[1..], x);
    }
  }

  // --- never replays a decision ---

  /** Every press that was handed out and that Telegram still holds lies below the cursor. */
  ghost predicate Protected(pending: seq<Update>, delivered: seq<int>, cursor: Option<int>) {
    forall u :: u in pending && u.callback && u.id in delivered ==> Below(u.id, cursor)
  }

  ghost predicate Safe(s: State) {
    && Protected(s.sys.pending, s.delivered, Cursor(s.sys))
    && (s.phase.Fetched? ==> Protected(s.sys.pending, s.delivered, None))
    && Increasing(s.delivered)
    && forall d, x :: d in s.delivered && x in Presses(InHand(s.phase)) ==> d < x
  }

  /** The process may die, or find its cursor file unreadable, only where the remaining cursor protects. */
  ghost predicate Careful(s: State, step: Step) {
    match step
    case Crash => Protected(s.sys.pending, s.delivered, s.sys.disk)
    case Fetch(_, _, readable, _) => CursorKept(s, readable)
    case Peek(_, readable) => CursorKept(s, readable)
    case FetchFails(_, readable, _) => CursorKept(s, readable)
    case _ => true
  }

  ghost predicate CursorKept(s: State, readable: bool) {
    s.sys.loaded || readable || Protected(s.sys.pending, s.delivered, None)
  }

  ghost predicate CarefulRun(s: State, steps: seq<Step>)
    requires ValidRun(s, steps)
    decreases |steps|
  {
    steps == [] || (Careful(s, steps[0]) && CarefulRun(Next(s, steps[0]), steps[1..]))
  }

  /** After a request whose cursor protects, no press left in the queue has been handed out before. */
  lemma RequestLeavesNew(s: State, since: Option<int>, readable: bool)
    requires Inv(s) && Safe(s) && s.phase.Idle? && CursorKept(s, readable)
    ensures forall u :: u in Requested(s.sys, since, readable).pending && u.callback ==> u.id !in s.delivered
    ensures forall u, d :: u in Requested(s.sys, since, readable).pending && u.callback && d in s.delivered ==> d < u.id
  {
    var l := LoadCursor(s.sys, readable);
    var offset := EffectiveOffset(l.memory, since);
    var left := Requested(s.sys, since, readable).pending;
    forall u | u in left && u.callback ensures u.id !in s.delivered {
      assert u in s.sys.pending;
      if l.memory.Some? {
        CutSplits(l.pending, offset.value);
        assert u.id >= offset.value >= l.memory.value;
      }
    }
  }

  lemma {:induction false} FetchKeepsSafe(s: State, since: Option<int>, limit: int, readable: bool, n: nat)
    requires Inv(s) && Safe(s) && Enabled(s, Fetch(since, limit, readable, n)) && CursorKept(s, readable)
    ensures Safe(Next(s, Fetch(since, limit, readable, n)))
  {
    RequestLeavesNew(s, since, readable);
    PrefixPresses(Requested(s.sys, since, readable).pending, n);
  }

  lemma PrefixPresses(us: seq<Update>, n: nat)
    requires n <= |us|
    ensures forall x :: x in Presses(us[..n]) ==> exists u :: u in us && u.callback && u.id == x
  {
    assert forall i :: 0 <= i < n ==> us[..n][i] == us[i];
  }

  lemma {:induction false} CarefulKeepsSafe(s: State, step: Step)
    requires Inv(s) && Safe(s) && Enabled(s, step) && Careful(s, step)
    ensures Safe(Next(s, step))
  {
    match step
    case Arrive(u) =>
    case Fetch(since, limit, readable, n) => FetchKeepsSafe(s, since, limit, readable, n);
    case Peek(since, readable) => RequestLeavesNew(s, since, readable);
    case FetchFails(since, readable, reached) => if reached { RequestLeavesNew(s, since, readable); }
    case Remember =>
    case File(_) =>
    case Confirm(_) =>
    case Return => ReturnKeepsSafe(s);
    case Crash =>
  }

  lemma IncreasingAppend(a: seq<int>, b: seq<int>)
    requires Increasing(a) && Increasing(b) && forall x, y :: x in a && y in b ==> x < y
    ensures Increasing(a + b)
  {
    forall i, j | 0 <= i < j < |a + b| ensures (a + b)[i] < (a + b)[j] {
      if i < |a| <= j {
        assert (a + b)[i] in a && (a + b)[j] in b;
      }
    }
  }

  lemma {:induction false} ReturnKeepsSafe(s: State)
    requires Inv(s) && Safe(s) && Enabled(s, Return)
    ensures Safe(Next(s, Return))
  {
    var b := s.phase.batch;
    PressesIncrease(b);
    IncreasingAppend(s.delivered, Presses(b));
    BatchIsBelow(s.sys, b);
  }

  lemma BatchIsBelow(sys: Sys, b: seq<Update>)
    requires b != [] && Ascending(b) && Moved(sys, b)
    ensures forall x :: x in Presses(b) ==> Below(x, sys.memory)
  {
  }

  lemma {:induction false} CarefulRunIsSafe(s: State, steps: seq<Step>)
    requires Sound(s) && Safe(s) && ValidRun(s, steps) && CarefulRun(s, steps)
    ensures Safe(Run(s, steps))
    decreases |steps|
  {
    if steps != [] {
      CarefulKeepsSafe(s, steps[0]);
      StepKeepsSound(s, steps[0]);
      CarefulRunIsSafe(Next(s, steps[0]), steps[1..]);
    }
  }

  /**
   * Every run from the start, with arrivals, reads, peeks, since_ids, failed calls and restarts in any order: as
   * long as each crash finds the handed-out presses protected, consuming reads hand out strictly increasing
   * ids, so none is handed out twice.
   */
  lemma NeverReplays(steps: seq<Step>)
    requires ValidRun(Init(), steps) && CarefulRun(Init(), steps)
    ensures Increasing(Run(Init(), steps).delivered)
  {
    CarefulRunIsSafe(Init(), steps);
  }

  // --- when the protocol itself provides that protection ---

  /** What a caller of the backend can see to: the file reads back, and a batch with presses was filed or confirmed. */
  predicate Secured(s: State, step: Step) {
    match step
    case Fetch(_, _, readable, _) => readable
    case Peek(_, readable) => readable
    case FetchFails(_, readable, _) => readable
    case Return => s.phase.Settled? && (s.phase.secured || Presses(s.phase.batch) == [])
    case _ => true
  }

  predicate SecuredRun(s: State, steps: seq<Step>)
    requires ValidRun(s, steps)
    decreases |steps|
  {
    steps == [] || (Secured(s, steps[0]) && SecuredRun(Next(s, steps[0]), steps[1..]))
  }

  ghost predicate Durable(s: State) {
    && Protected(s.sys.pending, s.delivered, s.sys.disk)
    && NotFiledYet(s)
  }

  lemma FetchKeepsDurable(s: State, since: Option<int>, limit: int, n: nat)
    requires Inv(s) && Durable(s) && Enabled(s, Fetch(since, limit, true, n))
    ensures Durable(Next(s, Fetch(since, limit, true, n)))
  {
    FetchedNotFiled(s, since, limit, n);
  }

  lemma {:induction false} SecuredKeepsDurable(s: State, step: Step)
    requires Inv(s) && Safe(s) && Durable(s) && Enabled(s, step) && Secured(s, step)
    ensures Durable(Next(s, step)) && Careful(s, step)
  {
    ReadableKeepsNotFiled(s, step);
    match step
    case Fetch(since, limit, _, n) => FetchKeepsDurable(s, since, limit, n);
    case Return => ReturnIsDurable(s);
    case _ =>
  }

  /**
   * The exact condition, at the one point where it is decided: after a batch is handed out a crash is harmless if
   * and only if the cursor file was written, or the confirming call reached Telegram, or the batch held no press.
   */
  lemma ReturnIsDurable(s: State)
    requires Inv(s) && Safe(s) && Durable(s) && s.phase.Settled?
    ensures Protected(s.sys.pending, Next(s, Return).delivered, s.sys.disk)
      <==> s.phase.secured || Presses(s.phase.batch) == []
  {
    var b := s.phase.batch;
    if s.phase.secured {
      forall u | u in s.sys.pending && u.callback && u.id in Presses(b) ensures Below(u.id, s.sys.disk) {
        var i :| 0 <= i < |b| && b[i].id == u.id;
      }
    } else if Presses(b) != [] {
      assert Presses(b)[0] in Presses(b);
      var i :| 0 <= i < |b| && b[i].callback && b[i].id == Presses(b)[0];
      assert b[i] in s.sys.pending && b[i] in b;
    }
  }

  lemma {:induction false} SecuredRunIsCareful(s: State, steps: seq<Step>)
    requires Sound(s) && Safe(s) && Durable(s) && ValidRun(s, steps) && SecuredRun(s, steps)
    ensures CarefulRun(s, steps) && Durable(Run(s, steps))
    decreases |steps|
  {
    if steps != [] {
      SecuredKeepsDurable(s, steps[0]);
      CarefulKeepsSafe(s, steps[0]);
      StepKeepsSound(s, steps[0]);
      SecuredRunIsCareful(Next(s, steps[0]), steps[1..]);
    }
  }

  /**
   * "Never returned again": in every run in which each read that returned presses had its cursor file written or
   * its confirming call accepted, no id is handed out twice, however often the process crashes and wherever.
   */
  lemma SecuredRunNeverReplays(steps: seq<Step>)
    requires ValidRun(Init(), steps) && SecuredRun(Init(), steps)
    ensures Increasing(Run(Init(), steps).delivered)
  {
    SecuredRunIsCareful(Init(), steps);
    NeverReplays(steps);
  }

  // --- and what happens when it does not ---

  /** One whole consuming read that answers with n > 0 updates. */
  function ReadSteps(since: Option<int>, limit: int, readable: bool, n: nat, ok: bool, reached: bool): seq<Step> {
    [Fetch(since, limit, readable, n), Remember, File(ok), Confirm(reached), Return]
  }

  lemma OneStep(s: State, step: Step, rest: seq<Step>)
    requires Enabled(s, step) && ValidRun(Next(s, step), rest)
    ensures ValidRun(s, [step] + rest) && Run(s, [step] + rest) == Run(Next(s, step), rest)
  {
    assert ([step] + rest)[1..] == rest;
  }

  lemma WholeRead(s: State, since: Option<int>, limit: int, readable: bool, n: nat, ok: bool, reached: bool)
    requires Enabled(s, Fetch(since, limit, readable, n)) && n > 0
    ensures var steps := ReadSteps(since, limit, readable, n, ok, reached);
      var batch := Requested(s.sys, since, readable).pending[..n];
      && ValidRun(s, steps)
      && Run(s, steps).delivered == s.delivered + Presses(batch)
      && Run(s, steps).phase.Idle?
      && Run(s, steps).sys == ConfirmCall(StoreDisk(StoreMemory(Requested(s.sys, since, readable), batch), ok), reached)
  {
    var steps := ReadSteps(since, limit, readable, n, ok, reached);
    var s1 := Next(s, steps[0]);
    var s2 := Next(s1, steps[1]);
    var s3 := Next(s2, steps[2]);
    var s4 := Next(s3, steps[3]);
    OneStep(s4, Return, []);
    OneStep(s3, Confirm(reached), [Return]);
    OneStep(s2, File(ok), [Confirm(reached), Return]);
    OneStep(s1, Remember, [File(ok), Confirm(reached), Return]);
    OneStep(s, steps[0], [Remember, File(ok), Confirm(reached), Return]);
    assert steps == [steps[0]] + [Remember, File(ok), Confirm(reached), Return];
  }

  lemma {:induction false} RunsCompose(s: State, a: seq<Step>, b: seq<Step>)
    requires ValidRun(s, a) && ValidRun(Run(s, a), b)
    ensures ValidRun(s, a + b) && Run(s, a + b) == Run(Run(s, a), b)
    decreases |a|
  {
    if a == [] {
      assert a + b == b;
    } else {
      RunsCompose(Next(s, a[0]), a[1..], b);
      assert (a + b)[1..] == a[1..] + b;
    }
  }

  /** Confirming the first update leaves the rest to be read. */
  lemma FirstIsConfirmed(q: Sys)
    requires q.loaded && q.pending != [] && Ascending(q.pending)
    ensures var after := ConfirmCall(StoreDisk(StoreMemory(q, q.pending[..1]), true), true);
      Requested(after, None, true).pending == q.pending[1..] && Ascending(after.pending)
  {
    var o := q.pending[0].id + 1;
    assert q.pending[..1][0] == q.pending[0];
    CutIsAt(q.pending, o, 1);
    TailAscends(q.pending, 1);
    CutIsAt(q.pending[1..], o, 0);
    assert q.pending[1..][0..] == q.pending[1..];
  }

  lemma TailAscends(us: seq<Update>, k: nat)
    requires Ascending(us) && k <= |us|
    ensures Ascending(us[k..])
  {
  }

  /** A read of one update hands out the first of what is there. */
  lemma ReadsFirst(s: State, there: seq<Update>) returns (steps: seq<Step>, n: State)
    requires s.phase.Idle? && Ascending(s.sys.pending) && there == Requested(s.sys, None, true).pending && there != []
    ensures ValidRun(s, steps) && n == Run(s, steps) && n.phase.Idle? && Ascending(n.sys.pending)
    ensures Requested(n.sys, None, true).pending == there[1..]
    ensures n.delivered == s.delivered + Presses(there[..1])
  {
    steps := ReadSteps(None, 1, true, 1, true, true);
    WholeRead(s, None, 1, true, 1, true, true);
    n := Run(s, steps);
    TailAscends(s.sys.pending, Cut(s.sys.pending, LoadCursor(s.sys, true).memory));
    FirstIsConfirmed(Requested(s.sys, None, true));
  }

  lemma FirstPress(us: seq<Update>)
    requires us != [] && us[0].callback
    ensures us[0].id in Presses(us[..1])
  {
    assert us[..1][0] == us[0];
  }

  lemma {:induction false} ReadsUpTo(s: State, there: seq<Update>, k: nat) returns (steps: seq<Step>)
    requires s.phase.Idle? && Ascending(s.sys.pending) && there == Requested(s.sys, None, true).pending
    requires k < |there| && there[k].callback
    ensures ValidRun(s, steps) && there[k].id in Run(s, steps).delivered
    decreases k
  {
    var first, n := ReadsFirst(s, there);
    if k == 0 {
      steps := first;
      FirstPress(there);
    } else {
      var rest := ReadsUpTo(n, there[1..], k - 1);
      RunsCompose(s, first, rest);
      steps := first + rest;
    }
  }

  /** Receivable is not just a word: from there a restarted process has a run of plain reads that hands the press out. */
  lemma ReceivableIsReceived(s: State, x: int) returns (steps: seq<Step>)
    requires Sound(s) && s.phase.Idle? && !s.sys.loaded && Seen(s.arrived, x) && Receivable(s.sys, x)
    ensures ValidRun(s, steps) && x in Run(s, steps).delivered
  {
    var u :| u in s.arrived && u.id == x && u.callback;
    var i :| 0 <= i < |s.sys.pending| && s.sys.pending[i].id == x;
    assert s.sys.pending[i] in s.arrived && s.sys.pending[i] == u;
    CutMembers(s.sys.pending, s.sys.disk, u);
    var there := Requested(s.sys, None, true).pending;
    assert there == s.sys.pending[Cut(s.sys.pending, s.sys.disk)..];
    var k :| 0 <= k < |there| && there[k] == u;
    steps := ReadsUpTo(s, there, k);
  }

  /** A restart and one read, which hands somebody a press that was handed out before. */
  ghost predicate ReplaysAfterCrash(s: State, readable: bool) {
    exists since, limit, n: nat :: ReplaysWith(s, readable, since, limit, n)
  }

  ghost predicate ReplaysWith(s: State, readable: bool, since: Option<int>, limit: int, n: nat) {
    var c, steps := Next(s, Crash), ReadSteps(since, limit, readable, n, true, true);
    && n > 0 && ValidRun(c, steps)
    && exists x :: x in s.delivered && x in NewIn(s.delivered, Run(c, steps).delivered)
  }

  function NewIn(before: seq<int>, after: seq<int>): seq<int> {
    if |before| <= |after| then after[|before|..] else []
  }

  /** The cursor that a restarted process goes by. */
  function Refound(sys: Sys, readable: bool): Option<int> {
    if readable then sys.disk else None
  }

  /**
   * At any point of any run, a crash and one read repeat a press if and only if one that was handed out is pending
   * and not below the cursor the new process finds: the file's, or none where the file cannot be read.
   */
  lemma {:induction false} ReplayIffUnprotected(steps: seq<Step>, readable: bool)
    requires ValidRun(Init(), steps)
    ensures var s := Run(Init(), steps);
      ReplaysAfterCrash(s, readable) <==> !Protected(s.sys.pending, s.delivered, Refound(s.sys, readable))
  {
    RunKeepsSound(Init(), steps);
    var s := Run(Init(), steps);
    CrashKeepsInv(s);
    if !Protected(s.sys.pending, s.delivered, Refound(s.sys, readable)) {
      var u :| u in s.sys.pending && u.callback && u.id in s.delivered && !Below(u.id, Refound(s.sys, readable));
      UnprotectedReplays(s, readable, u);
    } else {
      forall since, limit, n: nat ensures !ReplaysWith(s, readable, since, limit, n) {
        ProtectedNeverReplays(s, readable, since, limit, n);
      }
    }
  }

  lemma ProtectedNeverReplays(s: State, readable: bool, since: Option<int>, limit: int, n: nat)
    requires Inv(Next(s, Crash)) && Protected(s.sys.pending, s.delivered, Refound(s.sys, readable))
    ensures !ReplaysWith(s, readable, since, limit, n)
  {
    var c, steps := Next(s, Crash), ReadSteps(since, limit, readable, n, true, true);
    if n > 0 && ValidRun(c, steps) {
      assert Enabled(c, steps[0]);
      WholeRead(c, since, limit, readable, n, true, true);
      var batch := Requested(c.sys, since, readable).pending[..n];
      assert NewIn(s.delivered, Run(c, steps).delivered) == Presses(batch);
      forall x | x in Presses(batch) ensures x !in s.delivered {
        BatchIsUnprotected(c, readable, since, n, x);
      }
    }
  }

  /** A restarted process hands out only what its cursor does not cover. */
  lemma BatchIsUnprotected(c: State, readable: bool, since: Option<int>, n: nat, x: int)
    requires Inv(c) && !c.sys.loaded && Protected(c.sys.pending, c.delivered, Refound(c.sys, readable))
    requires n <= |Requested(c.sys, since, readable).pending|
    requires x in Presses(Requested(c.sys, since, readable).pending[..n])
    ensures x !in c.delivered
  {
    var offset := EffectiveOffset(Refound(c.sys, readable), since);
    var left := Requested(c.sys, since, readable).pending;
    assert left == c.sys.pending[Cut(c.sys.pending, offset)..];
    CursorIsNat(c, readable);
    LeftIsUncovered(c.sys.pending, offset, n, x, Refound(c.sys, readable));
  }

  /** Some press behind the cut has this id, and if the cursor is a real one, is not below it. */
  lemma LeftIsUncovered(pending: seq<Update>, offset: Option<int>, n: nat, x: int, cursor: Option<int>)
    requires Ascending(pending) && n <= |pending[Cut(pending, offset)..]|
    requires x in Presses(pending[Cut(pending, offset)..][..n])
    requires cursor.Some? ==> offset.Some? && 0 <= cursor.value <= offset.value
    ensures exists u :: u in pending && u.callback && u.id == x && !Below(u.id, cursor)
  {
    var k := Cut(pending, offset);
    var j :| 0 <= j < n && pending[k..][..n][j].callback && pending[k..][..n][j].id == x;
    assert pending[k..][..n][j] == pending[k + j];
    if cursor.Some? { CutSplits(pending, offset.value); }
    assert pending[k + j] in pending;
  }

  lemma CursorIsNat(s: State, readable: bool)
    requires CursorOf(s.arrived, s.sys.memory) && CursorOf(s.arrived, s.sys.disk)
    ensures var c := LoadCursor(s.sys, readable).memory; c.Some? ==> c.value >= 1
  {
  }

  lemma UnprotectedReplays(s: State, readable: bool, u: Update)
    requires Inv(Next(s, Crash))
    requires u in s.sys.pending && u.callback && u.id in s.delivered && !Below(u.id, Refound(s.sys, readable))
    ensures ReplaysWith(s, readable, Some(u.id - 1), 1, 1)
  {
    var c := Next(s, Crash);
    var since := Some(u.id - 1);
    assert EffectiveOffset(LoadCursor(c.sys, readable).memory, since) == Some(u.id);
    CutStartsAt(c.sys.pending, u);
    WholeRead(c, since, 1, readable, 1, true, true);
    var after := Run(c, ReadSteps(since, 1, readable, 1, true, true)).delivered;
    assert NewIn(s.delivered, after) == [u.id];
    assert u.id in NewIn(s.delivered, after);
  }

  lemma CutStartsAt(pending: seq<Update>, u: Update)
    requires Ascending(pending) && u in pending && u.id >= 0 && u.callback
    ensures var left := pending[Cut(pending, Some(u.id))..];
      left != [] && Presses(left[..1]) == [u.id]
  {
    var i :| 0 <= i < |pending| && pending[i] == u;
    CutIsAt(pending, u.id, i);
    var left := pending[i..];
    assert left[..1] == [u];
  }

  // --- a peek takes nothing ---

  /** A peek without since_id hands out and skips nothing, and leaves the same presses to be received. */
  lemma PeekTakesNothing(s: State, readable: bool)
    requires Inv(s) && s.phase.Idle?
    ensures var p := Next(s, Peek(None, readable));
      && p.delivered == s.delivered && p.skipped == s.skipped && p.lost == s.lost && p.sys.disk == s.sys.disk
      && forall u, again :: Fresh(p, u, again) <==> Fresh(s, u, readable)
  {
    FedBackSkipsNothing(s, None, readable);
    CursorIsNat(s, readable);
    var l := LoadCursor(s.sys, readable);
    forall u ensures u in l.pending[Cut(l.pending, l.memory)..] <==> u in l.pending && !Below(u.id, l.memory) {
      CutMembers(l.pending, l.memory, u);
    }
  }

  /** A cut at a real cursor drops exactly what lies below it. */
  lemma CutMembers(pending: seq<Update>, cursor: Option<int>, u: Update)
    requires Ascending(pending) && (cursor.Some? ==> cursor.value >= 0)
    ensures u in pending[Cut(pending, cursor)..] <==> u in pending && !Below(u.id, cursor)
    ensures u in pending[..Cut(pending, cursor)] <==> u in pending && Below(u.id, cursor)
  {
    var k := Cut(pending, cursor);
    if cursor.Some? { CutSplits(pending, cursor.value); }
    assert forall j :: 0 <= j < |pending| - k ==> pending[k..][j] == pending[k + j];
    assert forall j :: 0 <= j < k ==> pending[..k][j] == pending[j];
    if u in pending {
      var i :| 0 <= i < |pending| && pending[i] == u;
      if i >= k { assert pending[k..][i - k] == u; } else { assert pending[..k][i] == u; }
    }
  }

  /** Every later read gets from Telegram exactly what it would have got without the peek. */
  lemma PeekChangesNoRead(s: State, since: Option<int>)
    requires Inv(s) && s.phase.Idle?
    ensures Requested(Next(s, Peek(None, true)).sys, since, true) == Requested(s.sys, since, true)
  {
    var l := LoadCursor(s.sys, true);
    var offset := EffectiveOffset(l.memory, since);
    var p := Next(s, Peek(None, true)).sys;
    assert p == l.(pending := l.pending[Cut(l.pending, l.memory)..]);
    assert LoadCursor(p, true) == p;
    if offset.Some? && offset.value >= 0 {
      CutTwice(l.pending, l.memory, offset.value);
    }
  }

  lemma {:induction false} CutTwice(pending: seq<Update>, first: Option<int>, o: int)
    requires o >= 0 && (first.Some? ==> 0 <= first.value <= o)
    ensures var rest := pending[Cut(pending, first)..];
      rest[Cut(rest, Some(o))..] == pending[Cut(pending, Some(o))..]
  {
    var k := Cut(pending, first);
    if k == 0 {
      assert pending[k..] == pending;
    } else {
      var tail := pending[1..];
      CutTwice(tail, first, o);
      assert pending[k..] == tail[k - 1..];
      assert pending[Cut(pending, Some(o))..] == tail[Cut(tail, Some(o))..];
    }
  }

  /**
   * With a since_id, a read of either kind makes Telegram drop exactly the fresh presses at or below that id; so a
   * cursor taken from a peek, fed back, discards the presses the peek only looked at.
   */
  lemma SinceSkipsIffFresh(s: State, since: int, readable: bool, x: int)
    requires Inv(s) && s.phase.Idle? && since >= -1
    ensures x in Unseen(s, Some(since), readable) <==> x <= since && exists u :: Fresh(s, u, readable) && u.id == x
  {
    UnseenMembers(s, Some(since), readable, x);
    CursorIsNat(s, readable);
    var offset := EffectiveOffset(LoadCursor(s.sys, readable).memory, Some(since));
    forall u ensures u in Dropped(s.sys, Some(since), readable) <==> u in s.sys.pending && Below(u.id, offset) {
      CutMembers(s.sys.pending, offset, u);
    }
  }

  lemma UnseenMembers(s: State, since: Option<int>, readable: bool, x: int)
    ensures x in Unseen(s, since, readable)
      <==> exists u :: u in Dropped(s.sys, since, readable) && Fresh(s, u, readable) && u.id == x
  {
    var dropped := Dropped(s.sys, since, readable);
    if u :| u in dropped && Fresh(s, u, readable) && u.id == x {
      var i :| 0 <= i < |dropped| && dropped[i] == u;
    }
  }

  /**
   * Telegram reads a negative offset as "keep only that many of the newest". A since_id below -1 becomes one
   * exactly when no cursor is in force, and then drops the fresh presses among all but the newest -since - 1.
   */
  lemma NegativeSinceSkips(s: State, since: int, readable: bool, x: int)
    requires Inv(s) && s.phase.Idle? && since < -1
    ensures x in Unseen(s, Some(since), readable) <==>
      LoadCursor(s.sys, readable).memory.None? &&
      exists i :: 0 <= i < |s.sys.pending| + since + 1 && Fresh(s, s.sys.pending[i], readable) && s.sys.pending[i].id == x
  {
    var l := LoadCursor(s.sys, readable);
    if l.memory.Some? {
      FedBackSkipsNothing(s, None, readable);
      assert Dropped(s.sys, Some(since), readable) == Dropped(s.sys, None, readable);
    } else {
      var dropped := Dropped(s.sys, Some(since), readable);
      assert forall i :: 0 <= i < |dropped| ==> dropped[i] == s.sys.pending[i];
    }
  }

  // --- the three ways to go wrong, at press 5 ---

  const PRESS := Update(5, true)

  /** Press 5 arrives; what follows starts from here. */
  lemma Arrived(rest: seq<Step>) returns (s: State)
    ensures s == State(Sys([PRESS], None, false, None), Idle, {PRESS}, [], {}, {})
    ensures ValidRun(s, rest) ==> ValidRun(Init(), [Arrive(PRESS)] + rest) && Run(Init(), [Arrive(PRESS)] + rest) == Run(s, rest)
  {
    s := Next(Init(), Arrive(PRESS));
    if ValidRun(s, rest) { OneStep(Init(), Arrive(PRESS), rest); }
  }

  /** Neither the cursor write nor the confirming call works: after a crash press 5 is handed out again. */
  lemma ReplayedPress()
    ensures var steps := [Arrive(PRESS)] + ReadSteps(None, 1, true, 1, false, false);
      && ValidRun(Init(), steps) && Run(Init(), steps).delivered == [5]
      && ReplaysAfterCrash(Run(Init(), steps), true)
  {
    var read := ReadSteps(None, 1, true, 1, false, false);
    var s := Arrived(read);
    assert Requested(s.sys, None, true).pending == [PRESS] && [PRESS][..1] == [PRESS];
    WholeRead(s, None, 1, true, 1, false, false);
    assert Presses([PRESS]) == [5];
    var n := Run(s, read);
    assert PRESS in n.sys.pending && PRESS.id in n.delivered && !Below(PRESS.id, Refound(n.sys, true));
    ReplayIffUnprotected([Arrive(PRESS)] + read, true);
  }

  lemma FourSteps(s: State, a: Step, b: Step, c: Step, d: Step)
    requires Enabled(s, a) && Enabled(Next(s, a), b) && Enabled(Next(Next(s, a), b), c)
    requires Enabled(Next(Next(Next(s, a), b), c), d)
    ensures ValidRun(s, [a, b, c, d]) && Run(s, [a, b, c, d]) == Next(Next(Next(Next(s, a), b), c), d)
  {
    var s3 := Next(Next(Next(s, a), b), c);
    assert ValidRun(Next(s3, d), []);
    OneStep(s3, d, []);
    OneStep(Next(Next(s, a), b), c, [d]);
    OneStep(Next(s, a), b, [c, d]);
    OneStep(s, a, [b, c, d]);
    assert [d] + [] == [d] && [c] + [d] == [c, d] && [b] + [c, d] == [b, c, d] && [a] + [b, c, d] == [a, b, c, d];
  }

  /** The batch with press 5 has been filed. */
  lemma FiledPress(s: State) returns (filed: State)
    requires s == State(Sys([PRESS], None, false, None), Idle, {PRESS}, [], {}, {})
    ensures Enabled(s, Fetch(None, 1, true, 1)) && Enabled(Next(s, Fetch(None, 1, true, 1)), Remember)
    ensures Enabled(Next(Next(s, Fetch(None, 1, true, 1)), Remember), File(true))
    ensures filed == Next(Next(Next(s, Fetch(None, 1, true, 1)), Remember), File(true))
    ensures filed == State(Sys([PRESS], Some(6), true, Some(6)), Filed([PRESS], true), {PRESS}, [], {}, {})
  {
    assert Requested(s.sys, None, true).pending == [PRESS] && [PRESS][..1] == [PRESS];
    assert Unseen(s, None, true) == {};
    var fetched := Next(s, Fetch(None, 1, true, 1));
    assert fetched == State(Sys([PRESS], None, true, None), Fetched([PRESS]), {PRESS}, [], {}, {});
    filed := Next(Next(fetched, Remember), File(true));
  }

  lemma FiledDies() returns (lost: State)
    ensures var filed := State(Sys([PRESS], Some(6), true, Some(6)), Filed([PRESS], true), {PRESS}, [], {}, {});
      lost == Next(filed, Crash)
    ensures lost.lost == {5} && lost.delivered == [] && lost.sys.pending == [PRESS]
  {
    var filed := State(Sys([PRESS], Some(6), true, Some(6)), Filed([PRESS], true), {PRESS}, [], {}, {});
    lost := Next(filed, Crash);
    assert Presses([PRESS]) == [5];
    assert DyingWith(filed) == {5};
  }

  /** The process dies once the cursor file covers the batch: nobody ever gets press 5, which is still pending. */
  lemma PressLostInDeath() returns (rest: seq<Step>, lost: State)
    ensures rest == [Fetch(None, 1, true, 1), Remember, File(true), Crash]
    ensures ValidRun(Init(), [Arrive(PRESS)] + rest) && lost == Run(Init(), [Arrive(PRESS)] + rest)
    ensures lost.lost == {5} && lost.delivered == [] && lost.sys.pending == [PRESS]
  {
    rest := [Fetch(None, 1, true, 1), Remember, File(true), Crash];
    var s := Arrived(rest);
    var filed := FiledPress(s);
    lost := FiledDies();
    FourSteps(s, rest[0], rest[1], rest[2], rest[3]);
    assert rest == [rest[0], rest[1], rest[2], rest[3]];
  }

  /** A peek shows press 5, and its cursor, fed back to another peek, makes Telegram drop it. */
  lemma PeekFedBack()
    ensures var steps := [Arrive(PRESS), Peek(None, true), Peek(Some(5), true)];
      && ValidRun(Init(), steps)
      && Run(Init(), steps).skipped == {5} && Run(Init(), steps).delivered == [] && Run(Init(), steps).sys.pending == []
  {
    var rest := [Peek(None, true), Peek(Some(5), true)];
    var s := Arrived(rest);
    var s1 := Next(s, rest[0]);
    assert s1.sys.pending == [PRESS] && s1.skipped == {};
    var s2 := Next(s1, rest[1]);
    assert Dropped(s1.sys, Some(5), true) == [PRESS];
    assert Fresh(s1, Dropped(s1.sys, Some(5), true)[0], true);
    assert Unseen(s1, Some(5), true) == {5};
    assert ValidRun(s2, []);
    OneStep(s1, rest[1], []);
    OneStep(s, rest[0], [rest[1]]);
    assert rest == [rest[0]] + [rest[1]];
    assert [Arrive(PRESS)] + rest == [Arrive(PRESS), Peek(None, true), Peek(Some(5), true)];
  }
}
