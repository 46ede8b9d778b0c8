/**
 * What becomes of one user's code over whole runs of the multi-user provider: after its registration, after a
 * revocation, while a sign-in with it is under way, and until a session is stored.
 */
module SignInHistory {
  import opened Wrappers
  import opened OrderedDict
  import Otp = PendingOtp
  import opened AuthProvider

  // --- what a registration leaves to be completed ---

  predicate Carries(found: Option<Entry>, phone: string, hash: string, session: string, createdAt: int) {
    && found.Some? && found.value.phone == phone && found.value.phoneCodeHash == hash
    && found.value.sessionName == session && found.value.createdAt == createdAt
  }

  /**
   * Whoever completes next finds what was registered, field by field: at once, and with a durable store also after the
   * process has lost its memory, for 300 seconds and not longer.
   */
  lemma RegisteredIsResumed(s: State, b: string, phone: string, hash: string, session: string, later: int)
    requires later >= s.now
    ensures var n := Next(s, Insert(b, phone, hash, session));
      Carries(Resumed(n, b), phone, hash, session, s.now)
    ensures var m := Next(Next(Next(s, Insert(b, phone, hash, session)), Restart), Tick(later));
      if s.durable && later <= s.now + 300 then Carries(Resumed(m, b), phone, hash, session, s.now) else Resumed(m, b).None?
  {
    Otp.SaveFinds(s.kv, b, b, NewEntry(s, Insert(b, phone, hash, session)), b, b);
  }

  // --- what a revocation leaves behind ---

  /** The step does not ask for a code of user b, look for one, put one back or use one up. */
  predicate Spares(s: State, step: Step, b: string)
    requires Enabled(s, step)
  {
    match step
    case Insert(c, _, _, _) => c != b
    case ResumeRead(_, c) => c != b
    case ResumeInsert(t) => s.restoring[t].bearer != b
    case SignedIn(t) => s.signing[t].bearer != b
    case _ => true
  }

  predicate SparesRun(s: State, steps: seq<Step>, b: string)
    requires ValidRun(s, steps)
    decreases |steps|
  {
    steps == [] || (Spares(s, steps[0], b) && SparesRun(Next(s, steps[0]), steps[1..], b))
  }

  lemma {:induction false} TimeGrows(s: State, steps: seq<Step>)
    requires ValidRun(s, steps)
    ensures s.now <= Run(s, steps).now
    decreases |steps|
  {
    if steps != [] { TimeGrows(Next(s, steps[0]), steps[1..]); }
  }

  lemma SparedStep(s: State, step: Step, b: string)
    requires Inv(s) && Enabled(s, step) && Spares(s, step, b) && b !in s.pending.vals
    ensures var n := Next(s, step);
      && b !in n.pending.vals && n.durable == s.durable
      && (Otp.Find(n.kv, b, b) == Otp.Find(s.kv, b, b) ||
          (Otp.Find(n.kv, b, b).None? && Otp.Find(s.kv, b, b).Some? && Otp.Stale(Otp.Find(s.kv, b, b).value, s.now)))
  {
    PopStaleIsFront(s.pending, s.now);
    match step
    case Insert(c, _, _, _) => Otp.SaveFinds(s.kv, c, c, NewEntry(s, step), b, b);
    case ResumeRead(_, c) => Otp.DeleteFinds(s.kv, c, c, b, b);
    case SignedIn(t) => Otp.DeleteFinds(s.kv, s.signing[t].bearer, s.signing[t].bearer, b, b);
    case KvCleanup => Otp.CleanedFinds(s.kv, s.now, b, b);
    case _ =>
  }

  lemma {:induction false} SparedRun(s: State, steps: seq<Step>, b: string)
    requires Inv(s) && KvPast(s) && ValidRun(s, steps) && SparesRun(s, steps, b) && b !in s.pending.vals
    ensures var found, n := Otp.Find(s.kv, b, b), Run(s, steps);
      Resumed(n, b) == if s.durable && found.Some? && !Otp.Stale(found.value, n.now) then found else None
    decreases |steps|
  {
    if steps != [] {
      SparedStep(s, steps[0], b);
      StepKeepsInv(s, steps[0]);
      SparedRun(Next(s, steps[0]), steps[1..], b);
      TimeGrows(Next(s, steps[0]), steps[1..]);
    }
  }

  /**
   * A revocation does not reach the durable copy: whatever other users do and however often either cleanup runs, as
   * long as nothing is done for this user, an attempt to complete the revoked sign-in finds it if and only if it was
   * in KV and is not yet stale.
   */
  lemma RevokedUntouched(s: State, steps: seq<Step>, b: string)
    requires Inv(s) && KvPast(s) && ValidRun(Next(s, Pop(b)), steps) && SparesRun(Next(s, Pop(b)), steps, b)
    ensures var found, n := Otp.Find(s.kv, b, b), Run(Next(s, Pop(b)), steps);
      Resumed(n, b) == if s.durable && found.Some? && !Otp.Stale(found.value, n.now) then found else None
  {
    StepKeepsInv(s, Pop(b));
    SparedRun(Next(s, Pop(b)), steps, b);
  }

  /** At some point of the run there is something for user b to complete. */
  predicate EverResumed(s: State, steps: seq<Step>, b: string)
    requires ValidRun(s, steps)
    decreases |steps|
  {
    Resumed(s, b).Some? || (steps != [] && EverResumed(Next(s, steps[0]), steps[1..], b))
  }

  /** A restore of user b completes in this run. */
  predicate Restores(s: State, steps: seq<Step>, b: string)
    requires ValidRun(s, steps)
    decreases |steps|
  {
    steps != [] && (
      (steps[0].ResumeInsert? && s.restoring[steps[0].t].bearer == b) || Restores(Next(s, steps[0]), steps[1..], b))
  }

  lemma {:induction false} NothingButRestores(s: State, steps: seq<Step>, b: string)
    requires Inv(s) && KvPast(s) && ValidRun(s, steps) && Resumed(s, b).None?
    requires forall step :: step in steps && step.Insert? ==> step.bearer != b
    ensures EverResumed(s, steps, b) <==> Restores(s, steps, b)
    decreases |steps|
  {
    if steps != [] {
      var first := steps[0];
      assert first in steps;
      StepKeepsInv(s, first);
      KvStepHolds(s, first, b);
      PopStaleIsFront(s.pending, s.now);
      if !(first.ResumeInsert? && s.restoring[first.t].bearer == b) {
        NothingButRestores(Next(s, first), steps[1..], b);
      } else {
        assert Resumed(Next(s, first), b).Some?;
      }
    }
  }

  /**
   * Over every run after a revocation, until the user asks for a new code: there is something to complete at some
   * point if and only if the revocation left a fresh copy in KV, or a restore of the user completes, as one can that
   * was connecting when the revocation came, however stale its code is by then.
   */
  lemma RevokedResumesIff(s: State, steps: seq<Step>, b: string)
    requires Inv(s) && KvPast(s) && ValidRun(Next(s, Pop(b)), steps)
    requires forall step :: step in steps && step.Insert? ==> step.bearer != b
    ensures EverResumed(Next(s, Pop(b)), steps, b) <==> KvHolds(s, b) || Restores(Next(s, Pop(b)), steps, b)
  {
    StepKeepsInv(s, Pop(b));
    var n := Next(s, Pop(b));
    assert b !in n.pending.vals;
    if !KvHolds(s, b) { NothingButRestores(n, steps, b); }
  }

  /** For instance: a restore that was connecting puts the code back, and it stays after KV has forgotten it. */
  lemma RestoreOutlivesRevocation(s: State, b: string)
    requires Inv(s) && KvPast(s) && s.durable && b !in s.pending.vals && s.restoring == map[] && KvHolds(s, b)
    ensures var e := Otp.LoadAnswer(s.kv, b, b, s.now).value;
      var s1 := Next(Next(s, ResumeRead(0, b)), Pop(b));
      && 0 in s1.restoring
      && var s2 := Next(Next(Next(s1, ResumeInsert(0)), Tick(s.now + 1000)), KvCleanup);
         !KvHolds(s2, b) && Resumed(s2, b) == Some(e)
  {
    var s2 := Next(Next(Next(Next(Next(s, ResumeRead(0, b)), Pop(b)), ResumeInsert(0)), Tick(s.now + 1000)), KvCleanup);
    Otp.CleanedFinds(s.kv, s.now + 1000, b, b);
  }

  // --- what an accepted sign-in uses up ---

  /**
   * The entry of user b that stands in memory after these steps, told from the steps alone but for one thing: whether
   * a cleanup got as far as b's entry. `entry` is what stood there before.
   */
  function Standing(entry: Option<Entry>, s: State, steps: seq<Step>, b: string): Option<Entry>
    requires ValidRun(s, steps)
    decreases |steps|
  {
    if steps == [] then entry
    else Standing(StandingAfter(entry, s, steps[0], b), Next(s, steps[0]), steps[1..], b)
  }

  function StandingAfter(entry: Option<Entry>, s: State, step: Step, b: string): Option<Entry>
    requires Enabled(s, step)
  {
    match step
    case Insert(c, _, _, _) => if c == b then Some(NewEntry(s, step)) else entry
    case ResumeInsert(t) => if s.restoring[t].bearer == b then Some(s.restoring[t].entry) else entry
    case Pop(c) => if c == b then None else entry
    case SignedIn(t) => if s.signing[t].bearer == b then None else entry
    case Cleanup => if b in PopStale(s.pending, s.now).vals then entry else None
    case Restart => None
    case _ => entry
  }

  lemma StandingStep(s: State, step: Step, b: string)
    requires Inv(s) && Enabled(s, step)
    ensures Get(Next(s, step).pending, b) == StandingAfter(Get(s.pending, b), s, step, b)
  {
    if step.Cleanup? { PopStaleIsFront(s.pending, s.now); }
  }

  lemma {:induction false} StandingIsPending(s: State, steps: seq<Step>, b: string)
    requires Inv(s) && KvPast(s) && ValidRun(s, steps)
    ensures Get(Run(s, steps).pending, b) == Standing(Get(s.pending, b), s, steps, b)
    decreases |steps|
  {
    if steps != [] {
      StepKeepsInv(s, steps[0]);
      StandingStep(s, steps[0], b);
      StandingIsPending(Next(s, steps[0]), steps[1..], b);
    }
  }

  /**
   * complete_user_auth drops the user's entry by its key when sign_in returns, without looking whether it is still the
   * one it signed in with. Over every run from the start of the sign-in: an accepted one is stored if and only if some
   * entry of the user stands at the end, and throws another registration away, in memory and in KV, if and only if
   * that entry is not its own.
   */
  lemma AcceptedSignInIff(s: State, t: nat, b: string, steps: seq<Step>)
    requires Inv(s) && KvPast(s) && Enabled(s, SignIn(t, b)) && ValidRun(Next(s, SignIn(t, b)), steps)
    requires var w := Run(Next(s, SignIn(t, b)), steps); t in w.signing && w.signing[t] == Held(b, s.pending.vals[b])
    ensures var start := Next(s, SignIn(t, b));
      var w, standing := Run(start, steps), Standing(Some(s.pending.vals[b]), start, steps, b);
      var n := Next(w, SignedIn(t));
      && (n.sessions == w.sessions + [w.signing[t]] <==> standing.Some?)
      && (Get(w.pending, b).Some? && Get(w.pending, b) != Some(s.pending.vals[b])
          <==> standing.Some? && standing.value != s.pending.vals[b])
      && Resumed(n, b) == (if standing.Some? || !KvHolds(w, b) then None else Resumed(w, b))
  {
    var start := Next(s, SignIn(t, b));
    StepKeepsInv(s, SignIn(t, b));
    StandingIsPending(start, steps, b);
    RunKeepsInv(start, steps);
    var w := Run(start, steps);
    Otp.DeleteFinds(w.kv, b, b, b, b);
  }

  // --- where sessions come from ---

  /** The codes asked for in this run. */
  function AskedFor(s: State, steps: seq<Step>): set<Held>
    requires ValidRun(s, steps)
    decreases |steps|
  {
    if steps == [] then {}
    else Asked(s, steps[0]) + AskedFor(Next(s, steps[0]), steps[1..])
  }

  /** Everything anybody holds for a user was asked for by that user. */
  ghost predicate Traced(s: State, asked: set<Held>) {
    && (forall b :: b in s.pending.vals ==> Held(b, s.pending.vals[b]) in asked)
    && (forall b :: Otp.Find(s.kv, b, b).Some? ==> Held(b, Otp.Find(s.kv, b, b).value) in asked)
    && (forall t :: t in s.restoring ==> s.restoring[t] in asked)
    && (forall t :: t in s.signing ==> s.signing[t] in asked)
    && (forall h :: h in s.sessions ==> h in asked)
  }

  function Asked(s: State, step: Step): set<Held> {
    if step.Insert? then {Held(step.bearer, NewEntry(s, step))} else {}
  }

  lemma PendingTraced(s: State, step: Step, asked: set<Held>, b: string)
    requires Inv(s) && Enabled(s, step) && Traced(s, asked)
    ensures b in Next(s, step).pending.vals ==> Held(b, Next(s, step).pending.vals[b]) in asked + Asked(s, step)
  {
    StandingStep(s, step, b);
  }

  lemma KvTraced(s: State, step: Step, asked: set<Held>, b: string)
    requires Inv(s) && Enabled(s, step) && Traced(s, asked)
    ensures var found := Otp.Find(Next(s, step).kv, b, b); found.Some? ==> Held(b, found.value) in asked + Asked(s, step)
  {
    match step
    case Insert(c, _, _, _) => Otp.SaveFinds(s.kv, c, c, NewEntry(s, step), b, b);
    case ResumeRead(_, c) => Otp.DeleteFinds(s.kv, c, c, b, b);
    case SignedIn(t) => Otp.DeleteFinds(s.kv, s.signing[t].bearer, s.signing[t].bearer, b, b);
    case KvCleanup => Otp.CleanedFinds(s.kv, s.now, b, b);
    case _ =>
  }

  lemma StepKeepsTraced(s: State, step: Step, asked: set<Held>)
    requires Inv(s) && Enabled(s, step) && Traced(s, asked)
    ensures Traced(Next(s, step), asked + Asked(s, step))
  {
    forall b { PendingTraced(s, step, asked, b); }
    forall b { KvTraced(s, step, asked, b); }
  }

  lemma {:induction false} RunKeepsTraced(s: State, steps: seq<Step>, asked: set<Held>)
    requires Inv(s) && KvPast(s) && ValidRun(s, steps) && Traced(s, asked)
    ensures Traced(Run(s, steps), asked + AskedFor(s, steps))
    decreases |steps|
  {
    if steps == [] {
      assert asked + {} == asked;
    } else {
      var first := Asked(s, steps[0]);
      StepKeepsTraced(s, steps[0], asked);
      StepKeepsInv(s, steps[0]);
      RunKeepsTraced(Next(s, steps[0]), steps[1..], asked + first);
      assert asked + first + AskedFor(Next(s, steps[0]), steps[1..]) == asked + AskedFor(s, steps);
    }
  }

  /**
   * Over every run, through memory, KV, restores, restarts and overlapping sign-ins: each session that is stored for a
   * user was signed in with a code that this user asked for in that run.
   */
  lemma SessionsWereAskedFor(durable: bool, steps: seq<Step>, h: Held)
    requires ValidRun(Init(durable), steps) && h in Run(Init(durable), steps).sessions
    ensures h in AskedFor(Init(durable), steps)
  {
    RunKeepsTraced(Init(durable), steps, {});
    assert {} + AskedFor(Init(durable), steps) == AskedFor(Init(durable), steps);
  }
}
