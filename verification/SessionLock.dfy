/**
 * The lock that a process holds for as long as its MTProto connection is up. Connect takes it without waiting and
 * starts a client goroutine; a failed attempt, Disconnect and the death of the process all give it back.
 */
module SessionLock {
  import opened Wrappers
  import opened Flock

  datatype Phase = Down | Connecting | Up

  /** One process: where its connection stands, how it asks for the lock, and how many client goroutines it has. */
  datatype Process = Process(phase: Phase, shared: bool, clients: nat)

  datatype State = State(procs: map<nat, Process>, holders: Holders)

  datatype Step =
    | Connect(p: nat, shared: bool)              // up to the point where it waits for the client
    | Ready(p: nat)
    | ConnectFails(p: nat, exited: bool)         // client error, timeout or cancellation; has the goroutine ended?
    | Disconnect(p: nat, exited: bool)           // waits at most ten seconds for the goroutine
    | ClientEnds(p: nat)
    | Kill(p: nat)

  function Proc(s: State, p: nat): Process {
    if p in s.procs then s.procs[p] else Process(Down, false, 0)
  }

  function ModeFor(shared: bool): Mode {
    if shared then Shared else Exclusive
  }

  predicate Enabled(s: State, step: Step) {
    match step
    case Connect(p, _) => Proc(s, p).phase.Down?
    case Ready(p) => Proc(s, p).phase.Connecting?
    case ConnectFails(p, exited) => Proc(s, p).phase.Connecting? && (exited ==> Proc(s, p).clients > 0)
    case Disconnect(p, exited) => Proc(s, p).phase.Up? && (exited ==> Proc(s, p).clients > 0)
    case ClientEnds(p) => Proc(s, p).clients > 0
    case Kill(_) => true
  }

  function Set(s: State, p: nat, q: Process): State {
    s.(procs := s.procs[p := q])
  }

  function GiveBack(s: State, p: nat, exited: bool): State
    requires exited ==> Proc(s, p).clients > 0
  {
    var q := Proc(s, p);
    Set(s, p, q.(phase := Down, clients := if exited then q.clients - 1 else q.clients)).(holders := Unlock(s.holders, p))
  }

  function Next(s: State, step: Step): State
    requires Enabled(s, step)
  {
    match step
    case Connect(p, shared) =>
      if CanLock(s.holders, ModeFor(shared)) then
        Set(s, p, Process(Connecting, shared, Proc(s, p).clients + 1)).(holders := Lock(s.holders, p, ModeFor(shared)))
      else s
    case Ready(p) => Set(s, p, Proc(s, p).(phase := Up))
    case ConnectFails(p, exited) => GiveBack(s, p, exited)
    case Disconnect(p, exited) => GiveBack(s, p, exited)
    case ClientEnds(p) => Set(s, p, Proc(s, p).(clients := Proc(s, p).clients - 1))
    case Kill(p) => Set(s, p, Process(Down, false, 0)).(holders := Unlock(s.holders, p))
  }

  predicate ValidRun(s: State, steps: seq<Step>)
    decreases |steps|
  {
    steps == [] || (Enabled(s, steps[0]) && ValidRun(Next(s, steps[0]), steps[1..]))
  }

  function Run(s: State, steps: seq<Step>): State
    requires ValidRun(s, steps)
    decreases |steps|
  {
    if steps == [] then s else Run(Next(s, steps[0]), steps[1..])
  }

  /** A process holds the lock exactly while its connection is being brought up or is up, in the mode it asked for. */
  ghost predicate HoldsIffConnected(s: State, p: nat) {
    && (p in s.holders <==> !Proc(s, p).phase.Down?)
    && (p in s.holders ==> s.holders[p] == ModeFor(Proc(s, p).shared))
  }

  ghost predicate Inv(s: State) {
    Excludes(s.holders) && forall p :: HoldsIffConnected(s, p)
  }

  lemma StepKeepsInv(s: State, step: Step)
    requires Inv(s) && Enabled(s, step)
    ensures Inv(Next(s, step))
  {
    var n := Next(s, step);
    assert HoldsIffConnected(s, step.p);
    if step.Connect? && CanLock(s.holders, ModeFor(step.shared)) {
      LockKeepsExclusion(s.holders, step.p, ModeFor(step.shared));
    }
    forall p ensures HoldsIffConnected(n, p) {
      assert HoldsIffConnected(s, p);
    }
  }

  lemma {:induction false} RunKeepsInv(s: State, steps: seq<Step>)
    requires Inv(s) && ValidRun(s, steps)
    ensures Inv(Run(s, steps))
    decreases |steps|
  {
    if steps != [] {
      StepKeepsInv(s, steps[0]);
      RunKeepsInv(Next(s, steps[0]), steps[1..]);
    }
  }

  /**
   * Over every run of any number of processes, with failed attempts and deaths: two processes are connecting or
   * connected at once only if both asked for the shared mode, and whoever is not connected holds nothing.
   */
  lemma OnlySharersOverlap(steps: seq<Step>, p: nat, q: nat)
    requires ValidRun(State(map[], map[]), steps) && p != q
    ensures var s := Run(State(map[], map[]), steps);
      && (!Proc(s, p).phase.Down? && !Proc(s, q).phase.Down? ==> Proc(s, p).shared && Proc(s, q).shared)
      && (Proc(s, p).phase.Down? ==> p !in s.holders)
  {
    RunKeepsInv(State(map[], map[]), steps);
    var s := Run(State(map[], map[]), steps);
    assert HoldsIffConnected(s, p) && HoldsIffConnected(s, q);
  }

  /**
   * Over every run, an attempt to connect is refused, and changes nothing, if and only if some process is connecting
   * or connected and the two do not both ask for the shared mode.
   */
  lemma RefusedIff(steps: seq<Step>, p: nat, shared: bool)
    requires ValidRun(State(map[], map[]), steps) && Enabled(Run(State(map[], map[]), steps), Connect(p, shared))
    ensures var s := Run(State(map[], map[]), steps);
      Next(s, Connect(p, shared)) == s <==> exists q :: !Proc(s, q).phase.Down? && !(shared && Proc(s, q).shared)
  {
    RunKeepsInv(State(map[], map[]), steps);
    var s := Run(State(map[], map[]), steps);
    assert HoldsIffConnected(s, p);
    if CanLock(s.holders, ModeFor(shared)) {
      assert p in Next(s, Connect(p, shared)).holders;
      forall q | !Proc(s, q).phase.Down? ensures shared && Proc(s, q).shared { assert HoldsIffConnected(s, q); }
    } else {
      var q :| q in s.holders && !(shared && s.holders[q] == Shared);
      assert HoldsIffConnected(s, q);
    }
  }

  // --- clients without the lock ---

  ghost predicate ClientsLocked(s: State) {
    forall p :: Proc(s, p).clients > 0 ==> p in s.holders
  }

  /** The step gives the lock back, after a timeout or cancellation, with a goroutine still alive. */
  predicate LeavesClient(s: State, step: Step)
    requires Enabled(s, step)
  {
    (step.ConnectFails? || step.Disconnect?) && Proc(s, step.p).clients > (if step.exited then 1 else 0)
  }

  lemma StepUnlocksIff(s: State, step: Step)
    requires Inv(s) && ClientsLocked(s) && Enabled(s, step)
    ensures !ClientsLocked(Next(s, step)) <==> LeavesClient(s, step)
  {
    var n := Next(s, step);
    assert HoldsIffConnected(s, step.p);
    if LeavesClient(s, step) {
      assert Proc(n, step.p).clients > 0 && step.p !in n.holders;
    } else {
      forall p | Proc(n, p).clients > 0 ensures p in n.holders {
        assert p != step.p ==> Proc(n, p) == Proc(s, p);
      }
    }
  }

  /** At some point of the run a client is running without the lock. */
  ghost predicate EverUnlocked(s: State, steps: seq<Step>)
    requires ValidRun(s, steps)
    decreases |steps|
  {
    !ClientsLocked(s) || (steps != [] && EverUnlocked(Next(s, steps[0]), steps[1..]))
  }

  predicate EverLeavesClient(s: State, steps: seq<Step>)
    requires ValidRun(s, steps)
    decreases |steps|
  {
    steps != [] && (LeavesClient(s, steps[0]) || EverLeavesClient(Next(s, steps[0]), steps[1..]))
  }

  lemma {:induction false} UnlockedFrom(s: State, steps: seq<Step>)
    requires Inv(s) && ClientsLocked(s) && ValidRun(s, steps)
    ensures EverUnlocked(s, steps) <==> EverLeavesClient(s, steps)
    decreases |steps|
  {
    if steps != [] {
      StepKeepsInv(s, steps[0]);
      StepUnlocksIff(s, steps[0]);
      if !LeavesClient(s, steps[0]) { UnlockedFrom(Next(s, steps[0]), steps[1..]); }
    }
  }

  /**
   * The lock does not always outlive the client: over every run of any number of processes, a client runs without it
   * at some point if and only if some process gives the lock back with a goroutine alive.
   */
  lemma UnlockedClientIff(steps: seq<Step>)
    requires ValidRun(State(map[], map[]), steps)
    ensures EverUnlocked(State(map[], map[]), steps) <==> EverLeavesClient(State(map[], map[]), steps)
  {
    UnlockedFrom(State(map[], map[]), steps);
  }

  /** For instance: one attempt that times out, and a second process that then gets the exclusive lock beside its client. */
  lemma TimedOutClient() returns (s: State)
    ensures var steps := [Connect(0, false), ConnectFails(0, false), Connect(1, false)];
      ValidRun(State(map[], map[]), steps) && s == Run(State(map[], map[]), steps)
    ensures s.holders == map[1 := Exclusive] && Proc(s, 0).clients == 1 && Proc(s, 1).clients == 1
  {
    var s0 := State(map[], map[]);
    var s1 := Next(s0, Connect(0, false));
    var s2 := Next(s1, ConnectFails(0, false));
    s := Next(s2, Connect(1, false));
    assert ValidRun(s, []);
    OneStep(s2, Connect(1, false), []);
    OneStep(s1, ConnectFails(0, false), [Connect(1, false)]);
    OneStep(s0, Connect(0, false), [ConnectFails(0, false), Connect(1, false)]);
    assert [Connect(0, false)] + ([ConnectFails(0, false)] + ([Connect(1, false)] + []))
        == [Connect(0, false), ConnectFails(0, false), Connect(1, false)];
  }

  // --- one process's backend ---

  /** The kernel's table of who holds the lock file. */
  class Kernel {
    var holders: Holders
  }

  datatype Outcome = ClientReady | ClientError | TimedOut | Cancelled

  datatype ConnectError = SessionBusy | Prepare | Failed(outcome: Outcome)

  /** How an attempt ends, by what it meets on the way. */
  function ConnectResult(started: bool, prepared: bool, free: bool, outcome: Outcome): Result<(), ConnectError> {
    if started then Ok(())
    else if !prepared then Err(Prepare)
    else if !free then Err(SessionBusy)
    else if outcome.ClientReady? then Ok(())
    else Err(Failed(outcome))
  }

  class UserBackend {
    const pid: nat
    const sharedLock: bool
    const kernel: Kernel
    var started: bool
    var lockHeld: bool
    var api: bool

    ghost predicate Valid()
      reads this, kernel
    {
      && started == lockHeld == api
      && (lockHeld <==> pid in kernel.holders)
      && (lockHeld ==> kernel.holders[pid] == ModeFor(sharedLock))
      && Excludes(kernel.holders)
    }

    constructor (pid: nat, sharedLock: bool, kernel: Kernel)
      requires pid !in kernel.holders && Excludes(kernel.holders)
      ensures Valid() && !started && this.pid == pid && this.sharedLock == sharedLock && this.kernel == kernel
    {
      this.pid := pid;
      this.sharedLock := sharedLock;
      this.kernel := kernel;
      started, lockHeld, api := false, false, false;
    }

    /** However it ends, the backend is started exactly if it holds the lock; a failure leaves the lock as it was. */
    method Connect(prepared: bool, outcome: Outcome) returns (r: Result<(), ConnectError>)
      requires Valid()
      modifies this, kernel
      ensures Valid() && (started <==> r.Ok?)
      ensures old(started) ==> r.Ok? && kernel.holders == old(kernel.holders)
      ensures r.Err? ==> kernel.holders == old(kernel.holders)
      ensures r.Ok? <==> old(started) || (prepared && outcome.ClientReady? && old(CanLock(kernel.holders, ModeFor(sharedLock))))
      ensures r.Ok? && !old(started) ==>
        kernel.holders == old(kernel.holders)[pid := if sharedLock then Shared else Exclusive]
      ensures r == Err(Prepare) <==> !old(started) && !prepared
      ensures r == Err(SessionBusy) <==> !old(started) && prepared && !old(CanLock(kernel.holders, ModeFor(sharedLock)))
      ensures r.Err? && r.error.Failed? <==>
        !old(started) && prepared && old(CanLock(kernel.holders, ModeFor(sharedLock))) && !outcome.ClientReady?
      ensures r.Err? && r.error.Failed? ==> r.error.outcome == outcome
      ensures r == ConnectResult(old(started), prepared, old(CanLock(kernel.holders, ModeFor(sharedLock))), outcome)
    {
      if started {
        return Ok(());
      }
      if !prepared {
        return Err(Prepare);
      }
      if !CanLock(kernel.holders, ModeFor(sharedLock)) {
        return Err(SessionBusy);
      }
      LockKeepsExclusion(kernel.holders, pid, ModeFor(sharedLock));
      kernel.holders := Lock(kernel.holders, pid, ModeFor(sharedLock));
      if !outcome.ClientReady? {
        kernel.holders := Unlock(kernel.holders, pid);
        assert kernel.holders == old(kernel.holders);
        return Err(Failed(outcome));
      }
      lockHeld := true;
      started := true;
      api := true;
      return Ok(());
    }

    method Disconnect()
      requires Valid()
      modifies this, kernel
      ensures Valid() && !started
      ensures kernel.holders == Unlock(old(kernel.holders), pid)
    {
      if !started {
        assert Unlock(kernel.holders, pid) == kernel.holders;
        return;
      }
      started := false;
      api := false;
      kernel.holders := Unlock(kernel.holders, pid);
      lockHeld := false;
    }
  }

  // --- each call is a run of the lock's step machine ---

  lemma OneStep(s: State, step: Step, rest: seq<Step>)
    requires Enabled(s, step) && ValidRun(Next(s, step), rest)
    ensures ValidRun(s, [step] + rest) && Run(s, [step] + rest) == Run(Next(s, step), rest)
  {
    assert ([step] + rest)[1..] == rest;
  }

  /** The attempt reaches the point where it asks for the lock. */
  predicate Asks(s: State, p: nat, prepared: bool) {
    !Proc(s, p).phase.Up? && prepared
  }

  function ConnectSteps(s: State, p: nat, shared: bool, prepared: bool, outcome: Outcome, exited: bool): seq<Step> {
    if !Asks(s, p, prepared) then []
    else if !CanLock(s.holders, ModeFor(shared)) then [Connect(p, shared)]
    else if outcome.ClientReady? then [Connect(p, shared), Ready(p)]
    else [Connect(p, shared), ConnectFails(p, exited)]
  }

  /**
   * A Connect call is a run of the machine that ends with the process up exactly if the method's backend is started,
   * and with the lock table that the method leaves; only an attempt that got the lock starts a client goroutine.
   */
  lemma ConnectCallIsARun(s: State, p: nat, shared: bool, prepared: bool, outcome: Outcome, exited: bool)
    requires Inv(s) && !Proc(s, p).phase.Connecting?
    ensures var steps := ConnectSteps(s, p, shared, prepared, outcome, exited);
      var got := Asks(s, p, prepared) && CanLock(s.holders, ModeFor(shared));
      && ValidRun(s, steps) && Inv(Run(s, steps))
      && (Proc(Run(s, steps), p).phase.Up? <==> Proc(s, p).phase.Up? || (got && outcome.ClientReady?))
      && (Proc(Run(s, steps), p).phase.Up? <==>
          ConnectResult(Proc(s, p).phase.Up?, prepared, CanLock(s.holders, ModeFor(shared)), outcome).Ok?)
      && Run(s, steps).holders == (if got && outcome.ClientReady? then Lock(s.holders, p, ModeFor(shared)) else s.holders)
      && Proc(Run(s, steps), p).clients
         == Proc(s, p).clients + (if !got then 0 else if !outcome.ClientReady? && exited then 0 else 1)
  {
    var steps := ConnectSteps(s, p, shared, prepared, outcome, exited);
    assert HoldsIffConnected(s, p);
    if Asks(s, p, prepared) {
      var s1 := Next(s, Connect(p, shared));
      if CanLock(s.holders, ModeFor(shared)) {
        OneStep(s1, steps[1], []);
        OneStep(s, Connect(p, shared), [steps[1]]);
        assert steps == [Connect(p, shared)] + [steps[1]] && [steps[1]] + [] == [steps[1]];
        assert Unlock(Lock(s.holders, p, ModeFor(shared)), p) == s.holders;
      } else {
        OneStep(s, Connect(p, shared), []);
        assert steps == [Connect(p, shared)] + [];
      }
    }
    RunKeepsInv(s, steps);
  }

  /** A Disconnect call is one step, or none where nothing is connected; the lock table loses this process either way. */
  lemma DisconnectCallIsARun(s: State, p: nat, exited: bool)
    requires Inv(s) && !Proc(s, p).phase.Connecting? && (exited ==> Proc(s, p).clients > 0)
    ensures var steps := if Proc(s, p).phase.Up? then [Disconnect(p, exited)] else [];
      && ValidRun(s, steps) && Run(s, steps).holders == Unlock(s.holders, p)
      && Proc(Run(s, steps), p).phase.Down?
  {
    assert HoldsIffConnected(s, p);
    if Proc(s, p).phase.Up? {
      OneStep(s, Disconnect(p, exited), []);
      assert [Disconnect(p, exited)] + [] == [Disconnect(p, exited)];
    } else {
      assert Unlock(s.holders, p) == s.holders;
    }
  }
}
