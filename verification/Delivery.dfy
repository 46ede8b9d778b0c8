/**
 * Delivery of button presses in polling mode.
 *
 * One backend process polls the Bot API. It keeps a cursor in memory, mirrors it to a small file, and
 * confirms each batch by a second getUpdates call with a higher offset. The steps below are the points
 * between which the process can die: the answer arrived, the cursor was set in memory, the cursor file was
 * (or was not) written, the confirming call did (or did not) reach Telegram, the batch was returned.
 */
module Delivery {
  import opened Wrappers

  /** A Bot API update; `callback` says whether it carries a callback_query. */
  datatype Update = Update(id: nat, callback: bool)

  const MAX_UPDATES_PER_CALL := 100

  function Clamp(value: int, low: int, high: int): int {
    if value < low then low else if value > high then high else value
  }

  predicate Ascending(us: seq<Update>) {
    forall i, j :: 0 <= i < j < |us| ==> us[i].id < us[j].id
  }

  /** The presses of a batch, by id and in order: what the caller receives. */
  function Presses(us: seq<Update>): (ids: seq<int>)
    ensures forall x :: x in ids <==> exists i :: 0 <= i < |us| && us[i].callback && us[i].id == x
  {
    if us == [] then []
    else if us[0].callback then [us[0].id] + Presses(us[1..])
    else Presses(us[1..])
  }

  predicate Increasing(ids: seq<int>) {
    forall i, j :: 0 <= i < j < |ids| ==> ids[i] < ids[j]
  }

  /** Everything outside the call in progress: Telegram's queue, the cursor in memory, the cursor file. */
  datatype Sys = Sys(pending: seq<Update>, memory: Option<int>, loaded: bool, disk: Option<int>)

  // --- the pieces of one read ---

  /** How many leading updates Telegram forgets when it is called with this offset. */
  function Cut(pending: seq<Update>, offset: Option<int>): (k: nat)
    ensures k <= |pending|
  {
    match offset
    case None => 0
    case Some(o) =>
      if o < 0 then (if |pending| + o < 0 then 0 else |pending| + o)
      else if pending == [] || pending[0].id >= o then 0
      else 1 + Cut(pending[1..], offset)
  }

  function LoadCursor(s: Sys, readable: bool): Sys {
    if s.loaded then s else s.(loaded := true, memory := if readable then s.disk else None)
  }

  /** The cursor in force: the file's until it has been read, the memory's afterwards. */
  function Cursor(s: Sys): Option<int> {
    if s.loaded then s.memory else s.disk
  }

  function EffectiveOffset(cursor: Option<int>, since: Option<int>): Option<int> {
    if since.Some? && (cursor.None? || since.value + 1 > cursor.value) then Some(since.value + 1) else cursor
  }

  predicate Below(x: int, cursor: Option<int>) {
    cursor.Some? && x < cursor.value
  }

  /** The state after Telegram has processed getUpdates with the offset this call computes. */
  function Requested(s: Sys, since: Option<int>, readable: bool): Sys {
    var l := LoadCursor(s, readable);
    l.(pending := l.pending[Cut(l.pending, EffectiveOffset(l.memory, since))..])
  }

  /** What getUpdates drops on the way. */
  function Dropped(s: Sys, since: Option<int>, readable: bool): seq<Update> {
    var l := LoadCursor(s, readable);
    l.pending[..Cut(l.pending, EffectiveOffset(l.memory, since))]
  }

  function StoreMemory(s: Sys, batch: seq<Update>): Sys
    requires batch != []
  {
    s.(memory := Some(batch[|batch| - 1].id + 1))
  }

  function StoreDisk(s: Sys, ok: bool): Sys {
    if ok then s.(disk := s.memory) else s
  }

  function ConfirmCall(s: Sys, reached: bool): Sys {
    if reached then s.(pending := s.pending[Cut(s.pending, s.memory)..]) else s
  }

  // --- the step machine ---

  /** Where the one read in progress stands. `wrote` and `secured` record what has worked so far. */
  datatype Phase =
    | Idle
    | Fetched(batch: seq<Update>)
    | Remembered(batch: seq<Update>)
    | Filed(batch: seq<Update>, wrote: bool)
    | Settled(batch: seq<Update>, secured: bool)

  /**
   * `arrived`, `delivered`, `lost` and `skipped` are history: every update Telegram ever queued, the presses
   * consuming reads returned (in order), the presses that a dying process held and that no later read gets, and the
   * presses that a caller's since_id made Telegram forget before anybody received them.
   */
  datatype State = State(sys: Sys, phase: Phase, arrived: set<Update>, delivered: seq<int>,
                         lost: set<int>, skipped: set<int>)

  datatype Step =
    | Arrive(u: Update)
    | Fetch(since: Option<int>, limit: int, readable: bool, n: nat)
    | Peek(since: Option<int>, readable: bool)
    | FetchFails(since: Option<int>, readable: bool, reached: bool)
    | Remember
    | File(ok: bool)
    | Confirm(reached: bool)
    | Return
    | Crash

  function Init(): State {
    State(Sys([], None, false, None), Idle, {}, [], {}, {})
  }

  function InHand(p: Phase): seq<Update> {
    if p.Idle? then [] else p.batch
  }

  predicate Enabled(s: State, step: Step) {
    match step
    case Arrive(u) => forall v :: v in s.arrived ==> v.id < u.id
    case Fetch(since, limit, readable, n) =>
      s.phase.Idle? && n <= Clamp(limit, 1, MAX_UPDATES_PER_CALL) && n <= |Requested(s.sys, since, readable).pending|
    case Peek(_, _) => s.phase.Idle?
    case FetchFails(_, _, _) => s.phase.Idle?
    case Remember => s.phase.Fetched? && s.phase.batch != []
    case File(_) => s.phase.Remembered?
    case Confirm(_) => s.phase.Filed?
    case Return => s.phase.Settled?
    case Crash => true
  }

  /** A press that nobody has been handed and that the backend's own cursor would still let through. */
  predicate Fresh(s: State, u: Update, readable: bool) {
    && u in s.sys.pending && u.callback && u.id !in s.delivered
    && !Below(u.id, LoadCursor(s.sys, readable).memory)
  }

  /** The fresh presses that this request makes Telegram drop. */
  function Unseen(s: State, since: Option<int>, readable: bool): set<int> {
    var dropped := Dropped(s.sys, since, readable);
    set i | 0 <= i < |dropped| && Fresh(s, dropped[i], readable) :: dropped[i].id
  }

  /** The server processes getUpdates; the history records what it drops. */
  function Request(s: State, since: Option<int>, readable: bool): State {
    s.(sys := Requested(s.sys, since, readable), skipped := s.skipped + Unseen(s, since, readable))
  }

  /** Telegram still holds the press with this id, and a process that starts from the cursor file will get to it. */
  predicate Receivable(sys: Sys, x: int) {
    exists i :: 0 <= i < |sys.pending| && sys.pending[i].id == x && !Below(x, sys.disk)
  }

  /** The presses that die with the process: in its hands, never handed out, and out of every later read's reach. */
  function DyingWith(s: State): set<int> {
    set x | x in Presses(InHand(s.phase)) && x !in s.delivered && !Receivable(s.sys, x)
  }

  function Next(s: State, step: Step): State
    requires Enabled(s, step)
  {
    match step
    case Arrive(u) => s.(sys := s.sys.(pending := s.sys.pending + [u]), arrived := s.arrived + {u})
    case Fetch(since, limit, readable, n) =>
      var r := Request(s, since, readable);
      if n == 0 then r else r.(phase := Fetched(r.sys.pending[..n]))
    case Peek(since, readable) => Request(s, since, readable)
    case FetchFails(since, readable, reached) =>
      if reached then Request(s, since, readable) else s.(sys := LoadCursor(s.sys, readable))
    case Remember =>
      s.(sys := StoreMemory(s.sys, s.phase.batch), phase := Remembered(s.phase.batch))
    case File(ok) => s.(sys := StoreDisk(s.sys, ok), phase := Filed(s.phase.batch, ok))
    case Confirm(reached) =>
      s.(sys := ConfirmCall(s.sys, reached), phase := Settled(s.phase.batch, s.phase.wrote || reached))
    case Return => s.(phase := Idle, delivered := s.delivered + Presses(s.phase.batch))
    case Crash =>
      s.(sys := s.sys.(memory := None, loaded := false), phase := Idle, lost := s.lost + DyingWith(s))
  }

  predicate ValidRun(s: State, steps: seq<Step>)
    decreases |steps|
  {
    steps == [] || (Enabled(s, steps[0]) && ValidRun(Next(s, steps[0]), steps[1..]))
  }

  function Run(s: State, steps: seq<Step>): State
    requires ValidRun(s, steps)
    decreases |steps|
  {
    if steps == [] then s else Run(Next(s, steps[0]), steps[1..])
  }

  // --- what every step keeps ---

  ghost predicate Accounted(s: State, x: int) {
    x in s.delivered || x in s.lost || x in s.skipped || x in Presses(InHand(s.phase))
  }

  /** The batch in hand is what Telegram would answer first, until a confirming call has dropped it. */
  ghost predicate PhaseOk(s: State) {
    match s.phase
    case Idle => true
    case Fetched(b) => b != [] && b <= s.sys.pending && s.sys.loaded
    case Remembered(b) => b != [] && b <= s.sys.pending && Moved(s.sys, b)
    case Filed(b, wrote) => b != [] && b <= s.sys.pending && Moved(s.sys, b) && (wrote ==> s.sys.disk == s.sys.memory)
    case Settled(b, secured) =>
      && b != [] && Moved(s.sys, b)
      && (b <= s.sys.pending || AllAfter(s.sys.pending, b))
      && (secured ==> s.sys.disk == s.sys.memory || AllAfter(s.sys.pending, b))
      && (!secured ==> b <= s.sys.pending)
  }

  ghost predicate AllAfter(pending: seq<Update>, b: seq<Update>)
    requires b != []
  {
    forall u :: u in pending ==> u.id > b[|b| - 1].id
  }

  ghost predicate Moved(sys: Sys, b: seq<Update>)
    requires b != []
  {
    sys.loaded && sys.memory == Some(b[|b| - 1].id + 1)
  }

  ghost predicate Inv(s: State) {
    && Ascending(s.sys.pending)
    && (forall u :: u in s.sys.pending ==> u in s.arrived)
    && PhaseOk(s)
    && Ascending(InHand(s.phase))
    && (forall u :: u in InHand(s.phase) ==> u in s.arrived)
    && (forall d :: d in s.delivered ==> Seen(s.arrived, d))
    && CursorOf(s.arrived, s.sys.memory)
    && CursorOf(s.arrived, s.sys.disk)
    && NothingOvertaken(s)
    && AllAccounted(s)
  }

  ghost predicate DistinctIds(arrived: set<Update>) {
    forall u, v :: u in arrived && v in arrived && u.id == v.id ==> u == v
  }

  /** A skipped press was never received, and Telegram no longer has it. */
  ghost predicate SkippedForGood(s: State) {
    forall x :: x in s.skipped ==> Seen(s.arrived, x) && x !in s.delivered && !Reachable(s, x)
  }

  predicate Reachable(s: State, x: int) {
    x in Presses(InHand(s.phase)) || PendingId(s.sys.pending, x)
  }

  predicate PendingId(pending: seq<Update>, x: int) {
    exists i :: 0 <= i < |pending| && pending[i].id == x
  }

  ghost predicate Sound(s: State) {
    Inv(s) && DistinctIds(s.arrived) && SkippedForGood(s)
  }

  ghost predicate Seen(arrived: set<Update>, x: int) {
    exists u :: u in arrived && u.id == x && u.callback
  }

  /** A cursor is always one past an update that exists. */
  ghost predicate CursorOf(arrived: set<Update>, cursor: Option<int>) {
    cursor.Some? ==> exists u :: u in arrived && u.id + 1 == cursor.value
  }

  /** A press still pending below a delivered one was itself delivered. */
  ghost predicate NothingOvertaken(s: State) {
    forall d, u :: d in s.delivered && u in s.sys.pending && u.callback && u.id <= d ==> u.id in s.delivered
  }

  /** A press that is out of reach has been handed out, or is in the records of what went wrong. */
  ghost predicate AllAccounted(s: State) {
    forall u :: u in s.arrived && u.callback && OutOfReach(s, u) ==> Accounted(s, u.id)
  }

  predicate OutOfReach(s: State, u: Update) {
    u !in s.sys.pending || Below(u.id, s.sys.memory) || Below(u.id, s.sys.disk)
  }

  lemma {:induction false} CutSplits(pending: seq<Update>, o: int)
    requires Ascending(pending) && o >= 0
    ensures var k := Cut(pending, Some(o));
      (forall i :: 0 <= i < k ==> pending[i].id < o) && (forall i :: k <= i < |pending| ==> pending[i].id >= o)
  {
    if pending != [] && pending[0].id < o {
      CutSplits(pending[1..], o);
      var k := Cut(pending[1..], Some(o));
      forall i | 0 <= i < |pending| ensures if i < 1 + k then pending[i].id < o else pending[i].id >= o {
        if i > 0 { assert pending[i] == pending[1..][i - 1]; }
      }
    }
  }

  lemma CutIsAt(es: seq<Update>, o: int, m: nat)
    requires Ascending(es) && o >= 0 && m <= |es|
    requires forall i :: 0 <= i < |es| ==> (i < m <==> es[i].id < o)
    ensures Cut(es, Some(o)) == m
  {
    CutSplits(es, o);
    var c := Cut(es, Some(o));
    assert c < |es| ==> es[c].id >= o;
    assert m < |es| ==> es[m].id >= o;
  }

  lemma {:induction false} PressesAppend(a: seq<Update>, b: seq<Update>)
    ensures Presses(a + b) == Presses(a) + Presses(b)
  {
    if a == [] {
      assert a + b == b;
    } else {
      PressesAppend(a[1..], b);
      assert (a + b)[1..] == a[1..] + b;
    }
  }

  lemma {:induction false} PressesIncrease(us: seq<Update>)
    requires Ascending(us)
    ensures Increasing(Presses(us))
  {
    if us != [] {
      PressesIncrease(us[1..]);
      var p := Presses(us[1..]);
      forall j | 0 <= j < |p| ensures us[0].id < p[j] {
        assert p[j] in p;
        var i :| 0 <= i < |us[1..]| && us[1..][i].id == p[j];
        assert us[i + 1] == us[1..][i];
      }
    }
  }

  /** A request only ever drops a prefix of the queue, and what it drops is in the records. */
  lemma RequestKeepsInv(s: State, since: Option<int>, readable: bool)
    requires Inv(s) && s.phase.Idle?
    ensures Inv(Request(s, since, readable))
  {
    var r := Request(s, since, readable);
    var l := LoadCursor(s.sys, readable);
    var dropped := Dropped(s.sys, since, readable);
    assert s.sys.pending == dropped + r.sys.pending;
    forall u | u in dropped && u.callback && !OutOfReach(s, u) ensures u.id in s.delivered || u.id in r.skipped {
      DroppedIsRecorded(s, since, readable, u);
    }
    forall u | u in r.arrived && u.callback && OutOfReach(r, u) ensures Accounted(r, u.id) {
      if !OutOfReach(s, u) {
        assert u in dropped;
      } else {
        assert Accounted(s, u.id);
      }
    }
  }

  lemma DroppedIsRecorded(s: State, since: Option<int>, readable: bool, u: Update)
    requires u in Dropped(s.sys, since, readable) && u.callback && !OutOfReach(s, u)
    ensures u.id in s.delivered || u.id in Unseen(s, since, readable)
  {
    var dropped := Dropped(s.sys, since, readable);
    var i :| 0 <= i < |dropped| && dropped[i] == u;
    assert u.id in s.delivered || Fresh(s, dropped[i], readable);
  }

  lemma ArriveKeepsInv(s: State, u: Update)
    requires Inv(s) && Enabled(s, Arrive(u))
    ensures Inv(Next(s, Arrive(u)))
  {
    var n := Next(s, Arrive(u));
    assert forall d :: d in s.delivered ==> d < u.id;
    assert !Below(u.id, s.sys.memory) && !Below(u.id, s.sys.disk);
    forall v | v in n.arrived && v.callback && OutOfReach(n, v) ensures Accounted(n, v.id) {
      assert v != u && OutOfReach(s, v);
      assert Accounted(s, v.id);
    }
    forall d | d in n.delivered ensures Seen(n.arrived, d) {
      var v :| v in s.arrived && v.id == d && v.callback;
      assert v in n.arrived;
    }
    KeepCursor(s.arrived, n.arrived, s.sys.memory);
    KeepCursor(s.arrived, n.arrived, s.sys.disk);
  }

  lemma KeepCursor(a: set<Update>, a': set<Update>, cursor: Option<int>)
    requires a <= a' && CursorOf(a, cursor)
    ensures CursorOf(a', cursor)
  {
    if cursor.Some? {
      var u :| u in a && u.id + 1 == cursor.value;
      assert u in a';
    }
  }

  lemma {:induction false} FetchKeepsInv(s: State, since: Option<int>, limit: int, readable: bool, n: nat)
    requires Inv(s) && Enabled(s, Fetch(since, limit, readable, n))
    ensures Inv(Next(s, Fetch(since, limit, readable, n)))
  {
    RequestKeepsInv(s, since, readable);
  }

  lemma RememberKeepsInv(s: State)
    requires Inv(s) && Enabled(s, Remember)
    ensures Inv(Next(s, Remember))
  {
    var n := Next(s, Remember);
    var b := s.phase.batch;
    assert b[|b| - 1] in n.arrived;
    forall u | u in n.arrived && u.callback && OutOfReach(n, u) ensures Accounted(n, u.id) {
      if OutOfReach(s, u) {
        assert Accounted(s, u.id);
      } else {
        assert u in s.sys.pending && u.id <= b[|b| - 1].id;
        InPrefix(s.sys.pending, b, u);
      }
    }
  }

  /** In an ascending queue, whatever is not after the end of a prefix lies in the prefix. */
  lemma InPrefix(pending: seq<Update>, b: seq<Update>, u: Update)
    requires Ascending(pending) && b != [] && b <= pending && u in pending && u.id <= b[|b| - 1].id
    ensures u in b && (u.callback ==> u.id in Presses(b))
  {
    var i :| 0 <= i < |pending| && pending[i] == u;
    assert pending[|b| - 1] == b[|b| - 1];
    assert i < |b| && b[i] == u;
  }

  lemma FileKeepsInv(s: State, ok: bool)
    requires Inv(s) && Enabled(s, File(ok))
    ensures Inv(Next(s, File(ok)))
  {
    var n := Next(s, File(ok));
    forall u | u in n.arrived && u.callback && OutOfReach(n, u) ensures Accounted(n, u.id) {
      assert OutOfReach(s, u);
      assert Accounted(s, u.id);
    }
  }

  lemma {:induction false} ConfirmKeepsInv(s: State, reached: bool)
    requires Inv(s) && Enabled(s, Confirm(reached))
    ensures Inv(Next(s, Confirm(reached)))
  {
    var n := Next(s, Confirm(reached));
    if reached {
      CutSplits(s.sys.pending, s.sys.memory.value);
    }
    forall u | u in n.arrived && u.callback && OutOfReach(n, u) ensures Accounted(n, u.id) {
      if u in s.sys.pending && u !in n.sys.pending {
        assert s.sys.pending == s.sys.pending[..Cut(s.sys.pending, s.sys.memory)] + n.sys.pending;
      }
      assert OutOfReach(s, u);
      assert Accounted(s, u.id);
    }
  }

  /** A press pending at or below one of the batch is in the batch, or the batch has been dropped. */
  lemma UpToPress(pending: seq<Update>, b: seq<Update>, d: int, u: Update)
    requires b != [] && Ascending(pending) && Ascending(b) && (b <= pending || AllAfter(pending, b))
    requires d in Presses(b) && u in pending && u.callback && u.id <= d
    ensures u.id in Presses(b)
  {
    var i :| 0 <= i < |b| && b[i].id == d;
    assert u.id <= b[|b| - 1].id;
    InPrefix(pending, b, u);
  }

  lemma ReturnKeepsInv(s: State)
    requires Inv(s) && Enabled(s, Return)
    ensures Inv(Next(s, Return))
  {
    var n := Next(s, Return);
    var b := s.phase.batch;
    forall d | d in Presses(b) ensures Seen(n.arrived, d) {
      var i :| 0 <= i < |b| && b[i].callback && b[i].id == d;
      assert b[i] in n.arrived;
    }
    forall d, u | d in Presses(b) && u in n.sys.pending && u.callback && u.id <= d ensures u.id in Presses(b) {
      UpToPress(s.sys.pending, b, d, u);
    }
    forall u | u in n.arrived && u.callback && OutOfReach(n, u) ensures Accounted(n, u.id) {
      assert OutOfReach(s, u);
      assert Accounted(s, u.id);
    }
  }

  lemma CrashKeepsInv(s: State)
    requires Inv(s) && DistinctIds(s.arrived)
    ensures Inv(Next(s, Crash))
  {
    var n := Next(s, Crash);
    forall u | u in n.arrived && u.callback && OutOfReach(n, u) ensures Accounted(n, u.id) {
      assert OutOfReach(s, u);
      assert Accounted(s, u.id);
    }
  }

  lemma {:induction false} StepKeepsInv(s: State, step: Step)
    requires Inv(s) && DistinctIds(s.arrived) && Enabled(s, step)
    ensures Inv(Next(s, step))
  {
    match step
    case Arrive(u) => ArriveKeepsInv(s, u);
    case Fetch(since, limit, readable, n) => FetchKeepsInv(s, since, limit, readable, n);
    case Peek(since, readable) => RequestKeepsInv(s, since, readable);
    case FetchFails(since, readable, reached) => FailedFetchKeepsInv(s, since, readable, reached);
    case Remember => RememberKeepsInv(s);
    case File(ok) => FileKeepsInv(s, ok);
    case Confirm(reached) => ConfirmKeepsInv(s, reached);
    case Return => ReturnKeepsInv(s);
    case Crash => CrashKeepsInv(s);
  }

  lemma FailedFetchKeepsInv(s: State, since: Option<int>, readable: bool, reached: bool)
    requires Inv(s) && Enabled(s, FetchFails(since, readable, reached))
    ensures Inv(Next(s, FetchFails(since, readable, reached)))
  {
    if reached {
      RequestKeepsInv(s, since, readable);
    } else {
      var n := Next(s, FetchFails(since, readable, reached));
      forall u | u in n.arrived && u.callback && OutOfReach(n, u) ensures Accounted(n, u.id) {
        assert OutOfReach(s, u);
        assert Accounted(s, u.id);
      }
    }
  }

  // --- a skipped press is gone ---

  /** Dropping a prefix leaves fewer ids; the fresh ones among the dropped are the new entries of the record. */
  lemma RequestSkips(s: State, since: Option<int>, readable: bool)
    requires Inv(s) && DistinctIds(s.arrived) && SkippedForGood(s) && s.phase.Idle?
    ensures SkippedForGood(Request(s, since, readable))
  {
    var r := Request(s, since, readable);
    assert s.sys.pending == Dropped(s.sys, since, readable) + r.sys.pending;
    UnseenAreSeen(s, since, readable);
    forall x | x in r.skipped ensures !PendingId(r.sys.pending, x) {
      SkippedIsDropped(s, since, readable, x);
    }
    assert Presses(InHand(r.phase)) == [];
  }

  lemma SkippedIsDropped(s: State, since: Option<int>, readable: bool, x: int)
    requires Ascending(s.sys.pending) && (PendingId(s.sys.pending, x) ==> x in Unseen(s, since, readable))
    ensures !PendingId(Requested(s.sys, since, readable).pending, x)
  {
    var dropped, left := Dropped(s.sys, since, readable), Requested(s.sys, since, readable).pending;
    assert s.sys.pending == dropped + left;
    if x in Unseen(s, since, readable) {
      var k :| 0 <= k < |dropped| && dropped[k].id == x;
      DroppedIds(dropped, left, k);
    } else {
      KeptIds(dropped, left, x);
    }
  }

  lemma UnseenAreSeen(s: State, since: Option<int>, readable: bool)
    requires forall u :: u in s.sys.pending ==> u in s.arrived
    ensures forall x :: x in Unseen(s, since, readable) ==> Seen(s.arrived, x) && x !in s.delivered
    ensures var dropped := Dropped(s.sys, since, readable);
      forall x :: x in Unseen(s, since, readable) ==> exists k :: 0 <= k < |dropped| && dropped[k].id == x
  {
  }

  lemma KeptIds(dropped: seq<Update>, left: seq<Update>, x: int)
    requires !PendingId(dropped + left, x)
    ensures !PendingId(left, x)
  {
    forall i | 0 <= i < |left| ensures left[i].id != x {
      assert (dropped + left)[|dropped| + i] == left[i];
    }
  }

  lemma DroppedIds(dropped: seq<Update>, left: seq<Update>, k: nat)
    requires Ascending(dropped + left) && k < |dropped|
    ensures !PendingId(left, dropped[k].id)
  {
    forall i | 0 <= i < |left| ensures left[i].id != dropped[k].id {
      assert (dropped + left)[|dropped| + i] == left[i] && (dropped + left)[k] == dropped[k];
    }
  }

  lemma {:induction false} StepSkips(s: State, step: Step)
    requires Sound(s) && Enabled(s, step)
    ensures SkippedForGood(Next(s, step))
  {
    match step
    case Arrive(u) => ArriveSkips(s, u);
    case Fetch(since, _, readable, n) => FetchSkips(s, since, readable, n);
    case Peek(since, readable) => RequestSkips(s, since, readable);
    case FetchFails(since, readable, reached) => if reached { RequestSkips(s, since, readable); }
    case Confirm(reached) => if reached { ConfirmSkips(s); }
    case Return =>
    case _ =>
  }

  lemma ArriveSkips(s: State, u: Update)
    requires Sound(s) && Enabled(s, Arrive(u))
    ensures SkippedForGood(Next(s, Arrive(u)))
  {
    var n := Next(s, Arrive(u));
    forall x | x in n.skipped ensures Seen(n.arrived, x) && x !in n.delivered && !Reachable(n, x) {
      var v :| v in s.arrived && v.id == x && v.callback;
      assert v in n.arrived;
      forall i | 0 <= i < |n.sys.pending| ensures n.sys.pending[i].id != x {
        if i < |s.sys.pending| { assert n.sys.pending[i] == s.sys.pending[i]; }
      }
    }
  }

  lemma {:induction false} FetchSkips(s: State, since: Option<int>, readable: bool, n: nat)
    requires Sound(s) && s.phase.Idle? && n <= |Requested(s.sys, since, readable).pending|
    ensures var r := Request(s, since, readable);
      SkippedForGood(if n == 0 then r else r.(phase := Fetched(r.sys.pending[..n])))
  {
    RequestSkips(s, since, readable);
    var r := Request(s, since, readable);
    var batch := r.sys.pending[..n];
    forall x | x in r.skipped ensures x !in Presses(batch) {
      PrefixIds(r.sys.pending, n, x);
    }
  }

  lemma PrefixIds(pending: seq<Update>, n: nat, x: int)
    requires n <= |pending| && !PendingId(pending, x)
    ensures x !in Presses(pending[..n])
  {
    forall i | 0 <= i < n ensures pending[..n][i].id != x {
      assert pending[..n][i] == pending[i];
    }
  }

  lemma ConfirmSkips(s: State)
    requires Sound(s) && s.phase.Filed?
    ensures SkippedForGood(Next(s, Confirm(true)))
  {
    var n := Next(s, Confirm(true));
    var k := Cut(s.sys.pending, s.sys.memory);
    assert s.sys.pending == s.sys.pending[..k] + n.sys.pending;
    forall x | x in n.skipped ensures !PendingId(n.sys.pending, x) {
      KeptIds(s.sys.pending[..k], n.sys.pending, x);
    }
  }

  lemma {:induction false} StepKeepsSound(s: State, step: Step)
    requires Sound(s) && Enabled(s, step)
    ensures Sound(Next(s, step))
  {
    StepKeepsInv(s, step);
    StepSkips(s, step);
  }
}
