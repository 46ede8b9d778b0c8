/**
 * The MTProto session file shared by several processes: written to a temporary file that is renamed into place,
 * read and written under an advisory lock on a file of its own. Each client is one LoadSession or StoreSession call;
 * the steps interleave freely, a process can be killed between any two, and the host can lose power.
 */
module SessionFile {
  import opened Wrappers
  import opened Flock

  type Bytes = seq<bv8>

  /** A file's content, and whether it has been flushed: unflushed content can be cut short by a power failure. */
  datatype File = File(data: Bytes, synced: bool)

  datatype Op = Load | Store(data: Bytes)

  datatype Answer = NotFound | Found(data: Bytes)

  datatype Phase =
    | Idle
    | Waiting(op: Op)
    | Reading                               // shared lock held, session file not opened yet
    | Opened(file: File, got: nat)          // that inode is being read
    | Answered(answer: Answer)              // read, lock still held
    | Writing(data: Bytes, temp: Option<File>) // exclusive lock held
    | Renamed                               // lock still held

  /** One completed load, with the register's value at that moment. */
  datatype Loaded = Loaded(answer: Answer, register: Option<Bytes>)

  /**
   * `versions` are the inodes the session path has named, the current one last; `published` and `loads` are history:
   * what the successful stores were asked to write, and what the loads returned.
   */
  datatype State = State(versions: seq<File>, clients: map<nat, Phase>, holders: Holders,
                         published: seq<Bytes>, loads: seq<Loaded>)

  datatype Step =
    | Begin(c: nat, op: Op)
    | Acquire(c: nat)
    | Open(c: nat)
    | ReadMore(c: nat, n: nat)
    | FinishRead(c: nat)
    | CreateTemp(c: nat)
    | Write(c: nat, n: nat)
    | Sync(c: nat)
    | Rename(c: nat)
    | Release(c: nat)
    | Fail(c: nat)                          // any system call of the operation reports an error
    | Kill(c: nat)
    | Prepare                               // prepareSessionFile: open with O_CREATE
    | PowerCut(back: nat)                   // the last `back` renames had not reached the disk

  function PhaseOf(s: State, c: nat): Phase {
    if c in s.clients then s.clients[c] else Idle
  }

  function ModeOf(op: Op): Mode {
    if op.Load? then Shared else Exclusive
  }

  /** What a load makes of the file's content. */
  function View(value: Option<Bytes>): Answer {
    if value.None? || value.value == [] then NotFound else Found(value.value)
  }

  /** The register: the bytes of the latest store that was renamed into place. */
  function Register(s: State): Option<Bytes> {
    if s.published == [] then None else Some(s.published[|s.published| - 1])
  }

  predicate Enabled(s: State, step: Step) {
    match step
    case Begin(c, _) => PhaseOf(s, c).Idle?
    case Acquire(c) => PhaseOf(s, c).Waiting? && CanLock(s.holders, ModeOf(PhaseOf(s, c).op))
    case Open(c) => PhaseOf(s, c).Reading?
    case ReadMore(c, n) => PhaseOf(s, c).Opened? && PhaseOf(s, c).got + n <= |PhaseOf(s, c).file.data|
    case FinishRead(c) => PhaseOf(s, c).Opened? && PhaseOf(s, c).got == |PhaseOf(s, c).file.data|
    case CreateTemp(c) => PhaseOf(s, c).Writing? && PhaseOf(s, c).temp.None?
    case Write(c, n) => var p := PhaseOf(s, c);
      p.Writing? && p.temp.Some? && !p.temp.value.synced && |p.temp.value.data| + n <= |p.data|
    case Sync(c) => var p := PhaseOf(s, c);
      p.Writing? && p.temp.Some? && p.temp.value.data == p.data
    case Rename(c) => var p := PhaseOf(s, c);
      p.Writing? && p.temp.Some? && p.temp.value.synced
    case Release(c) => PhaseOf(s, c).Answered? || PhaseOf(s, c).Renamed?
    case Fail(c) => !PhaseOf(s, c).Idle?
    case Kill(_) => true
    case Prepare => true
    case PowerCut(back) => back <= |s.versions|
  }

  function Move(s: State, c: nat, p: Phase): State {
    s.(clients := s.clients[c := p])
  }

  function Conclude(s: State, c: nat, a: Answer): State {
    Move(s, c, Answered(a)).(loads := s.loads + [Loaded(a, Register(s))])
  }

  /** The call is over, or its process is: the kernel lock goes with it; a temporary file has another name. */
  function Leave(s: State, c: nat): State {
    Move(s, c, Idle).(holders := Unlock(s.holders, c))
  }

  function Next(s: State, step: Step): State
    requires Enabled(s, step)
  {
    match step
    case Begin(c, op) => Move(s, c, Waiting(op))
    case Acquire(c) =>
      var op := PhaseOf(s, c).op;
      Move(s, c, if op.Load? then Reading else Writing(op.data, None)).(holders := Lock(s.holders, c, ModeOf(op)))
    case Open(c) =>
      if s.versions == [] then Conclude(s, c, NotFound) else Move(s, c, Opened(s.versions[|s.versions| - 1], 0))
    case ReadMore(c, n) => var p := PhaseOf(s, c); Move(s, c, p.(got := p.got + n))
    case FinishRead(c) => Conclude(s, c, View(Some(PhaseOf(s, c).file.data)))
    case CreateTemp(c) => var p := PhaseOf(s, c); Move(s, c, p.(temp := Some(File([], false))))
    case Write(c, n) =>
      var p := PhaseOf(s, c);
      var k := |p.temp.value.data|;
      Move(s, c, p.(temp := Some(File(p.temp.value.data + p.data[k..k + n], false))))
    case Sync(c) => var p := PhaseOf(s, c); Move(s, c, p.(temp := Some(File(p.temp.value.data, true))))
    case Rename(c) =>
      var p := PhaseOf(s, c);
      Move(s, c, Renamed).(versions := s.versions + [p.temp.value], published := s.published + [p.data])
    case Release(c) => Leave(s, c)
    case Fail(c) => Leave(s, c)
    case Kill(c) => Leave(s, c)
    case Prepare => if s.versions == [] then s.(versions := [File([], false)]) else s
    case PowerCut(back) =>
      var kept := |s.versions| - back;
      s.(versions := seq(kept, i requires 0 <= i < kept => AfterPowerCut(s.versions[i])),
         published := if back <= |s.published| then s.published[..|s.published| - back] else [],
         clients := map[], holders := map[])
  }

  /** In the worst case nothing of an unflushed file survives. */
  function AfterPowerCut(f: File): File {
    if f.synced then f else File([], false)
  }

  predicate ValidRun(s: State, steps: seq<Step>)
    decreases |steps|
  {
    steps == [] || (Enabled(s, steps[0]) && ValidRun(Next(s, steps[0]), steps[1..]))
  }

  function Run(s: State, steps: seq<Step>): State
    requires ValidRun(s, steps)
    decreases |steps|
  {
    if steps == [] then s else Run(Next(s, steps[0]), steps[1..])
  }

  function Init(): State {
    State([], map[], map[], [], [])
  }

  // --- what every step keeps ---

  /** The inodes are the published values, whole, after at most one empty pre-created file. */
  ghost predicate VersionsOk(s: State) {
    var skip := |s.versions| - |s.published|;
    && 0 <= skip <= 1
    && (skip == 1 ==> s.versions[0].data == [])
    && (forall i :: 0 <= i < |s.published| ==> s.versions[skip + i] == File(s.published[i], true))
  }

  /** A client holds the lock exactly between acquiring and leaving, and sees or builds whole values. */
  ghost predicate ClientOk(s: State, c: nat) {
    match PhaseOf(s, c)
    case Idle => c !in s.holders
    case Waiting(_) => c !in s.holders
    case Reading => c in s.holders && s.holders[c] == Shared
    case Opened(file, got) =>
      && c in s.holders && s.holders[c] == Shared
      && s.versions != [] && file == s.versions[|s.versions| - 1] && got <= |file.data|
    case Answered(_) => c in s.holders && s.holders[c] == Shared
    case Writing(data, temp) =>
      && c in s.holders && s.holders[c] == Exclusive
      && (temp.Some? ==> temp.value.data <= data && (temp.value.synced ==> temp.value.data == data))
    case Renamed => c in s.holders && s.holders[c] == Exclusive
  }

  ghost predicate Inv(s: State) {
    && VersionsOk(s)
    && Excludes(s.holders)
    && (forall c :: ClientOk(s, c))
    && (forall i :: 0 <= i < |s.loads| ==> s.loads[i].answer == View(s.loads[i].register))
  }

  lemma CurrentIsRegister(s: State)
    requires VersionsOk(s)
    ensures View(if s.versions == [] then None else Some(s.versions[|s.versions| - 1].data)) == View(Register(s))
  {
  }

  lemma RenameKeepsInv(s: State, c: nat)
    requires Inv(s) && Enabled(s, Rename(c))
    ensures Inv(Next(s, Rename(c)))
  {
    var n := Next(s, Rename(c));
    assert ClientOk(s, c);
    forall d ensures ClientOk(n, d) { assert ClientOk(s, d); }
  }

  lemma AcquireKeepsInv(s: State, c: nat)
    requires Inv(s) && Enabled(s, Acquire(c))
    ensures Inv(Next(s, Acquire(c)))
  {
    var n := Next(s, Acquire(c));
    assert ClientOk(s, c);
    LockKeepsExclusion(s.holders, c, ModeOf(PhaseOf(s, c).op));
    forall d ensures ClientOk(n, d) { assert ClientOk(s, d); }
  }

  lemma {:induction false} HostStepKeepsInv(s: State, step: Step)
    requires Inv(s) && Enabled(s, step) && (step.Prepare? || step.PowerCut?)
    ensures Inv(Next(s, step))
  {
    var n := Next(s, step);
    if step.Prepare? {
      forall d ensures ClientOk(n, d) { assert ClientOk(s, d); }
    }
  }

  lemma ReadKeepsInv(s: State, step: Step)
    requires Inv(s) && Enabled(s, step) && (step.Open? || step.ReadMore? || step.FinishRead?)
    ensures Inv(Next(s, step))
  {
    CurrentIsRegister(s);
    var n := Next(s, step);
    assert ClientOk(s, step.c);
    forall d ensures ClientOk(n, d) { assert ClientOk(s, d); }
  }

  lemma ClientStepKeepsInv(s: State, step: Step)
    requires Inv(s) && Enabled(s, step)
    requires step.Begin? || step.CreateTemp? || step.Write? || step.Sync? || step.Release? || step.Fail? || step.Kill?
    ensures Inv(Next(s, step))
  {
    var n := Next(s, step);
    assert ClientOk(s, step.c);
    forall d ensures ClientOk(n, d) { assert ClientOk(s, d); }
  }

  lemma StepKeepsInv(s: State, step: Step)
    requires Inv(s) && Enabled(s, step)
    ensures Inv(Next(s, step))
  {
    match step
    case Acquire(c) => AcquireKeepsInv(s, c);
    case Rename(c) => RenameKeepsInv(s, c);
    case PowerCut(_) => HostStepKeepsInv(s, step);
    case Prepare => HostStepKeepsInv(s, step);
    case Open(_) => ReadKeepsInv(s, step);
    case ReadMore(_, _) => ReadKeepsInv(s, step);
    case FinishRead(_) => ReadKeepsInv(s, step);
    case _ => ClientStepKeepsInv(s, step);
  }

  lemma {:induction false} RunKeepsInv(s: State, steps: seq<Step>)
    requires Inv(s) && ValidRun(s, steps)
    ensures Inv(Run(s, steps))
    decreases |steps|
  {
    if steps != [] {
      StepKeepsInv(s, steps[0]);
      RunKeepsInv(Next(s, steps[0]), steps[1..]);
    }
  }

  /**
   * The session file is an atomic register: over every interleaving of any number of loads and stores, with failed
   * calls, killed processes and power failures anywhere, each load that completes returns the whole value of the
   * latest store renamed into place, and "not found" when there is none or it is empty, as a pre-created file is.
   */
  lemma EveryLoadReadsTheRegister(steps: seq<Step>, l: Loaded, data: Bytes)
    requires ValidRun(Init(), steps) && l in Run(Init(), steps).loads
    ensures l.answer == Found(data) <==> l.register == Some(data) && |data| > 0
    ensures l.answer == NotFound <==> l.register == None || l.register == Some([])
  {
    RunKeepsInv(Init(), steps);
    var s := Run(Init(), steps);
    var i :| 0 <= i < |s.loads| && s.loads[i] == l;
    ViewIsWhole(l.register, data);
  }

  /** A value that is there and not empty is seen whole. */
  lemma ViewIsWhole(value: Option<Bytes>, data: Bytes)
    ensures View(value) == Found(data) <==> value == Some(data) && |data| > 0
    ensures View(value) == NotFound <==> value == None || value == Some([])
  {
    assert value.Some? && |value.value| == 0 ==> value.value == [];
  }

  /** Nobody can be inside a store while anybody else is inside a load or a store. */
  lemma StoresAreAlone(steps: seq<Step>, c: nat, d: nat)
    requires ValidRun(Init(), steps) && c != d
    requires PhaseOf(Run(Init(), steps), c).Writing? || PhaseOf(Run(Init(), steps), c).Renamed?
    ensures PhaseOf(Run(Init(), steps), d).Idle? || PhaseOf(Run(Init(), steps), d).Waiting?
  {
    RunKeepsInv(Init(), steps);
    var s := Run(Init(), steps);
    assert ClientOk(s, c) && ClientOk(s, d);
  }

  /** A call that has not renamed leaves the file as it was, however it ends. */
  lemma OnlyRenamePublishes(s: State, step: Step)
    requires Enabled(s, step) && !step.Rename? && !step.PowerCut?
    ensures Next(s, step).published == s.published
    ensures step.Prepare? || Next(s, step).versions == s.versions
  {
  }

  // --- seeding the file from a session string ---

  ghost predicate Reaches(s: State, t: State) {
    exists steps :: ValidRun(s, steps) && Run(s, steps) == t
  }

  lemma {:induction false} RunsCompose(s: State, a: seq<Step>, b: seq<Step>)
    requires ValidRun(s, a) && ValidRun(Run(s, a), b)
    ensures ValidRun(s, a + b) && Run(s, a + b) == Run(Run(s, a), b)
    decreases |a|
  {
    if a == [] {
      assert a + b == b;
    } else {
      RunsCompose(Next(s, a[0]), a[1..], b);
      assert (a + b)[1..] == a[1..] + b;
    }
  }

  lemma ReachesOn(s: State, t: State, u: State)
    requires Reaches(s, t) && Reaches(t, u)
    ensures Reaches(s, u)
  {
    var a :| ValidRun(s, a) && Run(s, a) == t;
    var b :| ValidRun(t, b) && Run(t, b) == u;
    RunsCompose(s, a, b);
    assert ValidRun(s, a + b);
  }

  lemma ThenStep(s: State, t: State, step: Step)
    requires Reaches(s, t) && Enabled(t, step)
    ensures Reaches(s, Next(t, step))
  {
    assert [step][1..] == [];
    assert ValidRun(Next(t, step), []);
    assert ValidRun(t, [step]);
    assert Run(t, [step]) == Next(t, step);
    ReachesOn(s, t, Next(t, step));
  }

  lemma ReachesItself(s: State)
    ensures Reaches(s, s)
  {
    assert ValidRun(s, []);
  }

  /** Nobody is in the middle of anything, and the file has been created. */
  ghost predicate Quiet(s: State) {
    VersionsOk(s) && s.holders == map[] && s.versions != [] && forall c :: PhaseOf(s, c).Idle?
  }

  function AfterLoad(s: State, c: nat): State {
    s.(clients := s.clients[c := Idle], loads := s.loads + [Loaded(View(Register(s)), Register(s))])
  }

  function AfterStore(s: State, c: nat, data: Bytes): State {
    s.(clients := s.clients[c := Idle], versions := s.versions + [File(data, true)], published := s.published + [data])
  }

  /** The state with client c in phase p, and with these lock holders. */
  function At(s: State, c: nat, p: Phase, holders: Holders): State {
    s.(clients := s.clients[c := p], holders := holders)
  }

  lemma MoveAt(s: State, c: nat, p: Phase, h: Holders, q: Phase)
    ensures PhaseOf(At(s, c, p, h), c) == p && Move(At(s, c, p, h), c, q) == At(s, c, q, h)
  {
    assert s.clients[c := p][c := q] == s.clients[c := q];
  }

  lemma LeaveAt(s: State, c: nat, p: Phase, mode: Mode)
    requires s.holders == map[]
    ensures Leave(At(s, c, p, map[c := mode]), c) == At(s, c, Idle, map[])
  {
    MoveAt(s, c, p, map[c := mode], Idle);
    assert Unlock(map[c := mode], c) == map[];
  }

  lemma StartsAt(s: State, c: nat, op: Op)
    requires s.holders == map[] && PhaseOf(s, c).Idle?
    ensures Reaches(s, At(s, c, if op.Load? then Reading else Writing(op.data, None), map[c := ModeOf(op)]))
  {
    ReachesItself(s);
    ThenStep(s, s, Begin(c, op));
    var s1 := Next(s, Begin(c, op));
    assert s1 == At(s, c, Waiting(op), map[]);
    MoveAt(s, c, Waiting(op), map[], if op.Load? then Reading else Writing(op.data, None));
    ThenStep(s, s1, Acquire(c));
  }

  lemma QuietAgain(s: State, c: nat, data: Bytes)
    requires Quiet(s)
    ensures Quiet(AfterLoad(s, c)) && Quiet(AfterStore(s, c, data))
    ensures View(Some(s.versions[|s.versions| - 1].data)) == View(Register(s))
  {
    CurrentIsRegister(s);
    forall d ensures PhaseOf(AfterLoad(s, c), d).Idle? && PhaseOf(AfterStore(s, c, data), d).Idle? {
      assert PhaseOf(s, d).Idle?;
    }
  }

  lemma LoadRuns(s: State, c: nat)
    requires s.holders == map[] && PhaseOf(s, c).Idle? && s.versions != []
    requires View(Some(s.versions[|s.versions| - 1].data)) == View(Register(s))
    ensures Reaches(s, AfterLoad(s, c))
  {
    var file := s.versions[|s.versions| - 1];
    var h := map[c := Shared];
    StartsAt(s, c, Load);
    MoveAt(s, c, Reading, h, Opened(file, 0));
    ThenStep(s, At(s, c, Reading, h), Open(c));
    MoveAt(s, c, Opened(file, 0), h, Opened(file, |file.data|));
    ThenStep(s, At(s, c, Opened(file, 0), h), ReadMore(c, |file.data|));
    LoadFinishes(s, c, file);
  }

  lemma LoadFinishes(s: State, c: nat, file: File)
    requires s.holders == map[] && View(Some(file.data)) == View(Register(s))
    requires Reaches(s, At(s, c, Opened(file, |file.data|), map[c := Shared]))
    ensures Reaches(s, AfterLoad(s, c))
  {
    var h := map[c := Shared];
    var read := At(s, c, Opened(file, |file.data|), h);
    var answer := View(Some(file.data));
    MoveAt(s, c, Opened(file, |file.data|), h, Answered(answer));
    ThenStep(s, read, FinishRead(c));
    var logged := s.(loads := s.loads + [Loaded(View(Register(s)), Register(s))]);
    assert Next(read, FinishRead(c)) == At(logged, c, Answered(answer), h);
    LeaveAt(logged, c, Answered(answer), Shared);
    ThenStep(s, At(logged, c, Answered(answer), h), Release(c));
    assert AfterLoad(s, c) == At(logged, c, Idle, map[]);
  }

  /** The temporary file once n bytes have been written to it. */
  function PartOf(data: Bytes, n: nat): Phase
    requires n <= |data|
  {
    Writing(data, Some(File(data[..n], false)))
  }

  lemma WritesPart(s: State, c: nat, data: Bytes, n: nat)
    requires s.holders == map[] && PhaseOf(s, c).Idle? && n <= |data|
    ensures Reaches(s, At(s, c, PartOf(data, n), map[c := Exclusive]))
  {
    var h := map[c := Exclusive];
    StartsAt(s, c, Store(data));
    MoveAt(s, c, Writing(data, None), h, PartOf(data, 0));
    ThenStep(s, At(s, c, Writing(data, None), h), CreateTemp(c));
    MoveAt(s, c, PartOf(data, 0), h, PartOf(data, n));
    assert [] + data[0..n] == data[..n];
    ThenStep(s, At(s, c, PartOf(data, 0), h), Write(c, n));
  }

  function Flushed(data: Bytes): Phase {
    Writing(data, Some(File(data, true)))
  }

  lemma Flushes(s: State, c: nat, data: Bytes)
    requires s.holders == map[] && PhaseOf(s, c).Idle?
    ensures Reaches(s, At(s, c, Flushed(data), map[c := Exclusive]))
  {
    var h := map[c := Exclusive];
    WritesPart(s, c, data, |data|);
    assert data[..|data|] == data;
    MoveAt(s, c, PartOf(data, |data|), h, Flushed(data));
    ThenStep(s, At(s, c, PartOf(data, |data|), h), Sync(c));
  }

  lemma StoreRuns(s: State, c: nat, data: Bytes)
    requires s.holders == map[] && PhaseOf(s, c).Idle?
    ensures Reaches(s, AfterStore(s, c, data))
  {
    var h := map[c := Exclusive];
    var renamed := s.(versions := s.versions + [File(data, true)], published := s.published + [data]);
    Flushes(s, c, data);
    MoveAt(s, c, Flushed(data), h, Renamed);
    ThenStep(s, At(s, c, Flushed(data), h), Rename(c));
    assert Next(At(s, c, Flushed(data), h), Rename(c)) == At(renamed, c, Renamed, h);
    LeaveAt(renamed, c, Renamed, Exclusive);
    ThenStep(s, At(renamed, c, Renamed, h), Release(c));
    assert AfterStore(s, c, data) == At(renamed, c, Idle, map[]);
  }

  /** A call that fails while it holds the lock leaves everything as it was. */
  lemma FailsFrom(s: State, c: nat, p: Phase, mode: Mode)
    requires s.holders == map[] && !p.Idle? && Reaches(s, At(s, c, p, map[c := mode]))
    ensures Reaches(s, At(s, c, Idle, map[]))
  {
    var at := At(s, c, p, map[c := mode]);
    MoveAt(s, c, p, map[c := mode], Idle);
    LeaveAt(s, c, p, mode);
    ThenStep(s, at, Fail(c));
  }

  /** And so does one that fails to get the lock. */
  lemma FailsUnlocked(s: State, c: nat, op: Op)
    requires s.holders == map[] && PhaseOf(s, c).Idle?
    ensures Reaches(s, At(s, c, Idle, map[]))
  {
    ReachesItself(s);
    ThenStep(s, s, Begin(c, op));
    var waiting := At(s, c, Waiting(op), map[]);
    assert Next(s, Begin(c, op)) == waiting;
    MoveAt(s, c, Waiting(op), map[], Idle);
    ThenStep(s, waiting, Fail(c));
    assert Unlock(map[], c) == map[];
  }

  /** What is stored comes back: a store and then a load, by the same or another client, answers with exactly the data. */
  lemma StoreThenLoad(s: State, c: nat, d: nat, data: Bytes)
    requires Quiet(s) && |data| > 0
    ensures var n := AfterLoad(AfterStore(s, c, data), d);
      Reaches(s, n) && n.loads == s.loads + [Loaded(Found(data), Some(data))]
  {
    var stored := AfterStore(s, c, data);
    QuietAgain(s, c, data);
    StoreRuns(s, c, data);
    QuietAgain(stored, d, data);
    LoadRuns(stored, d);
    ReachesOn(s, stored, AfterLoad(stored, d));
    ViewIsWhole(Some(data), data);
  }

  /** importTelethonSession: load, and only if nothing was found, store. */
  function AfterImport(s: State, c: nat, seed: Bytes): State {
    if View(Register(s)) == NotFound then AfterStore(AfterLoad(s, c), c, seed) else AfterLoad(s, c)
  }

  /** Undisturbed, an import seeds an absent session and leaves any other alone. */
  lemma ImportAlone(s: State, c: nat, seed: Bytes)
    requires Quiet(s)
    ensures Reaches(s, AfterImport(s, c, seed))
    ensures Register(AfterImport(s, c, seed)) == if View(Register(s)) == NotFound then Some(seed) else Register(s)
  {
    QuietAgain(s, c, seed);
    LoadRuns(s, c);
    if View(Register(s)) == NotFound {
      StoreRuns(AfterLoad(s, c), c, seed);
      ReachesOn(s, AfterLoad(s, c), AfterImport(s, c, seed));
    }
  }

  /**
   * Its check and its write are two separate lock periods, so two imports can both find nothing: the later one then
   * replaces the account the earlier one wrote, although each of them looked first.
   */
  lemma ImportsCanOverwrite(s: State, c: nat, d: nat, first: Bytes, second: Bytes)
    requires Quiet(s) && View(Register(s)) == NotFound && c != d
    ensures exists t :: Reaches(s, t) && t.published == s.published + [first, second] &&
                   t.loads == s.loads + [Loaded(NotFound, Register(s)), Loaded(NotFound, Register(s))]
  {
    var s1 := AfterLoad(s, c);
    var s2 := AfterLoad(s1, d);
    var s3 := AfterStore(s2, c, first);
    var s4 := AfterStore(s3, d, second);
    QuietAgain(s, c, []);
    QuietAgain(s1, d, []);
    QuietAgain(s2, c, first);
    LoadRuns(s, c);
    LoadRuns(s1, d);
    StoreRuns(s2, c, first);
    StoreRuns(s3, d, second);
    ReachesOn(s, s1, s2);
    ReachesOn(s, s2, s3);
    ReachesOn(s, s3, s4);
    assert s4.published == s.published + [first, second];
    assert s4.loads == s.loads + [Loaded(NotFound, Register(s)), Loaded(NotFound, Register(s))];
  }

  /** What the last rename of a run published, if there was one. */
  function LastRename(s: State, steps: seq<Step>): Option<Bytes>
    requires ValidRun(s, steps)
    decreases |steps|
  {
    if steps == [] then None
    else
      var later := LastRename(Next(s, steps[0]), steps[1..]);
      if later.Some? then later
      else if steps[0].Rename? then Some(PhaseOf(s, steps[0].c).data)
      else None
  }

  /** While the host stays up, nothing but a completed rename ever changes the register, however calls end. */
  lemma {:induction false} RegisterIsLastRename(s: State, steps: seq<Step>)
    requires ValidRun(s, steps) && forall step :: step in steps ==> !step.PowerCut?
    ensures Register(Run(s, steps)) == if LastRename(s, steps).Some? then LastRename(s, steps) else Register(s)
    decreases |steps|
  {
    if steps != [] {
      var first := steps[0];
      assert first in steps;
      RegisterIsLastRename(Next(s, first), steps[1..]);
      if !first.Rename? { OnlyRenamePublishes(s, first); }
    }
  }

  /**
   * So exactly when does an import replace a session it should have left alone? At `look` its load finds nothing;
   * after `steps` it is about to rename its own file into place. What it replaces is a session if and only if the
   * last rename in between published one that is not empty. (A power failure in between ends the import.)
   */
  lemma ImportReplacesIff(s: State, look: Step, steps: seq<Step>)
    requires Inv(s) && (look.Open? || look.FinishRead?) && Enabled(s, look)
    requires PhaseOf(Next(s, look), look.c) == Answered(NotFound)
    requires ValidRun(Next(s, look), steps) && forall step :: step in steps ==> !step.PowerCut?
    requires Enabled(Run(Next(s, look), steps), Rename(look.c))
    ensures var last := LastRename(Next(s, look), steps);
      View(Register(Run(Next(s, look), steps))) != NotFound <==> last.Some? && last.value != []
    ensures var before := Run(Next(s, look), steps);
      Register(Next(before, Rename(look.c))) == Some(PhaseOf(before, look.c).data)
  {
    assert ClientOk(s, look.c);
    CurrentIsRegister(s);
    RegisterIsLastRename(Next(s, look), steps);
  }
}
