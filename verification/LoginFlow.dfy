/**
 * The single-user sign-in flow: module-level state changed by the credential form, the code and password forms and
 * the reset action. Each form handler is a coroutine; the steps below are its stretches between two awaits, so any
 * number of submissions can overlap.
 */
module LoginFlow {
  import opened Wrappers

  datatype Credentials = AwaitingSetup | SetupInProgress | Configured

  /** A submitted form; user mode means a phone number and no bot token. */
  datatype Config = Config(token: bool, phone: bool)

  predicate UserMode(c: Config) {
    c.phone && !c.token
  }

  /** A handler that is waiting: for the code to be sent, for sign_in, or for a disconnect before it clears the state. */
  datatype Task =
    | Sending(backend: nat)
    | SigningIn(backend: nat, code: string, withPassword: bool)
    | Finishing(backend: nat)
    | Abandoning(backend: nat)

  /**
   * `submitted` (codes and the backend they were given to), `passwordUses`, `signIns`, `botSaves` and `resolved` are
   * history: what was tried with what, how many sign-ins succeeded, and the other ways to become configured.
   */
  datatype State = State(state: Credentials, stepBackend: Option<nat>, stepOtp: Option<string>, saved: Option<Config>,
                         tasks: map<nat, Task>, backends: nat,
                         submitted: set<(nat, string)>, passwordUses: seq<(nat, string)>,
                         signIns: nat, botSaves: nat, resolved: nat)

  datatype Step =
    | Save(t: nat, config: Config)               // save_credentials up to its first await
    | SaveUnusable(config: Config)               // the backend cannot even be built
    | Sent(t: nat)                               // connect and send_code ended, either way
    | SubmitOtp(t: nat, code: string)
    | SubmitPassword(t: nat)
    | SignInAccepted(t: nat)
    | SignInNeedsPassword(t: nat)
    | SignInRefused(t: nat)
    | Disconnected(t: nat)                       // the disconnect ended, either way
    | Reset(deleted: bool)
    | Restart(environment: bool, readable: bool) // a new process resolves its state; can the saved form be read?
    | Resolve(environment: bool, readable: bool) // setup_complete resolves it again in the running one

  function Init(): State {
    State(AwaitingSetup, None, None, None, map[], 0, {}, [], 0, 0, 0)
  }

  predicate Enabled(s: State, step: Step) {
    match step
    case Save(t, _) => t !in s.tasks
    case SaveUnusable(c) => UserMode(c)
    case Sent(t) => t in s.tasks && s.tasks[t].Sending?
    case SubmitOtp(t, _) => t !in s.tasks
    case SubmitPassword(t) => t !in s.tasks
    case SignInAccepted(t) => t in s.tasks && s.tasks[t].SigningIn?
    case SignInNeedsPassword(t) => t in s.tasks && s.tasks[t].SigningIn? && !s.tasks[t].withPassword
    case SignInRefused(t) => t in s.tasks && s.tasks[t].SigningIn?
    case Disconnected(t) => t in s.tasks && (s.tasks[t].Finishing? || s.tasks[t].Abandoning?)
    case Reset(_) => true
    case Restart(_, _) => true
    case Resolve(_, _) => true
  }

  function Clear(s: State): State {
    s.(stepBackend := None, stepOtp := None)
  }

  function Done(s: State, t: nat): State {
    s.(tasks := s.tasks - {t})
  }

  predicate HasCredentials(saved: Option<Config>) {
    saved.Some? && (saved.value.token || saved.value.phone)
  }

  function Next(s: State, step: Step): State
    requires Enabled(s, step)
  {
    match step
    case Save(t, c) =>
      var w := s.(saved := Some(c));
      if UserMode(c) then
        w.(state := SetupInProgress, stepBackend := Some(s.backends), stepOtp := None, backends := s.backends + 1,
           tasks := s.tasks[t := Sending(s.backends)])
      else w.(state := Configured, botSaves := s.botSaves + 1)
    case SaveUnusable(c) => s.(saved := Some(c), state := SetupInProgress)
    case Sent(t) => Done(s, t)
    case SubmitOtp(t, code) =>
      if s.stepBackend.None? then s
      else
        s.(stepOtp := Some(code), submitted := s.submitted + {(s.stepBackend.value, code)},
           tasks := s.tasks[t := SigningIn(s.stepBackend.value, code, false)])
    case SubmitPassword(t) =>
      if s.stepBackend.None? || s.stepOtp.None? then s
      else
        s.(passwordUses := s.passwordUses + [(s.stepBackend.value, s.stepOtp.value)],
           tasks := s.tasks[t := SigningIn(s.stepBackend.value, s.stepOtp.value, true)])
    case SignInAccepted(t) =>
      var c := s.(state := Configured, signIns := s.signIns + 1);
      if s.stepBackend.Some? then c.(tasks := s.tasks[t := Finishing(s.tasks[t].backend)]) else Done(Clear(c), t)
    case SignInNeedsPassword(t) => Done(s, t)
    case SignInRefused(t) =>
      if s.stepBackend.Some? then s.(tasks := s.tasks[t := Abandoning(s.tasks[t].backend)]) else Done(Clear(s), t)
    case Disconnected(t) => Done(Clear(s), t)
    case Reset(deleted) => Clear(s).(state := AwaitingSetup, saved := if deleted then None else s.saved)
    case Restart(environment, readable) => Resolved(Clear(s).(tasks := map[]), environment, readable)
    case Resolve(environment, readable) => Resolved(s, environment, readable)
  }

  /** resolve_credential_state: nothing but the environment and the saved form decides. */
  function Resolved(s: State, environment: bool, readable: bool): State {
    var found := environment || (readable && HasCredentials(s.saved));
    s.(state := if found then Configured else AwaitingSetup, resolved := s.resolved + if found then 1 else 0)
  }

  predicate ValidRun(s: State, steps: seq<Step>)
    decreases |steps|
  {
    steps == [] || (Enabled(s, steps[0]) && ValidRun(Next(s, steps[0]), steps[1..]))
  }

  function Run(s: State, steps: seq<Step>): State
    requires ValidRun(s, steps)
    decreases |steps|
  {
    if steps == [] then s else Run(Next(s, steps[0]), steps[1..])
  }

  ghost predicate Inv(s: State) {
    && (s.stepOtp.Some? ==> s.stepBackend.Some? && (s.stepBackend.value, s.stepOtp.value) in s.submitted)
    && (s.stepBackend.Some? ==> s.stepBackend.value < s.backends)
    && (forall i :: 0 <= i < |s.passwordUses| ==> s.passwordUses[i] in s.submitted)
    && (forall t :: t in s.tasks && s.tasks[t].SigningIn? ==> (s.tasks[t].backend, s.tasks[t].code) in s.submitted)
    && (s.state.Configured? ==> s.signIns > 0 || s.botSaves > 0 || s.resolved > 0)
  }

  lemma StepKeepsInv(s: State, step: Step)
    requires Inv(s) && Enabled(s, step)
    ensures Inv(Next(s, step))
  {
  }

  lemma {:induction false} RunKeepsInv(s: State, steps: seq<Step>)
    requires Inv(s) && ValidRun(s, steps)
    ensures Inv(Run(s, steps))
    decreases |steps|
  {
    if steps != [] {
      StepKeepsInv(s, steps[0]);
      RunKeepsInv(Next(s, steps[0]), steps[1..]);
    }
  }

  /** Over every run, at every await: a remembered code implies a live step backend, the one it was submitted to. */
  lemma CodeBelongsToBackend(steps: seq<Step>)
    requires ValidRun(Init(), steps)
    ensures var s := Run(Init(), steps);
      s.stepOtp.Some? ==> s.stepBackend.Some? && (s.stepBackend.value, s.stepOtp.value) in s.submitted
  {
    RunKeepsInv(Init(), steps);
  }

  /** A password is only ever tried together with a code that was submitted to the same backend. */
  lemma PasswordUsesOwnCode(steps: seq<Step>, i: nat)
    requires ValidRun(Init(), steps) && i < |Run(Init(), steps).passwordUses|
    ensures Run(Init(), steps).passwordUses[i] in Run(Init(), steps).submitted
  {
    RunKeepsInv(Init(), steps);
  }

  // --- what the end of a sign-in clears ---

  predicate UserSave(step: Step) {
    step.Save? && UserMode(step.config)
  }

  /** A handler whose sign-in was refused ends here: after its disconnect, or at once if somebody cleared the state. */
  predicate EndsRefused(s: State, step: Step)
    requires Enabled(s, step)
  {
    (step.Disconnected? && s.tasks[step.t].Abandoning?) || (step.SignInRefused? && s.stepBackend.None?)
  }

  lemma {:induction false} ClearUntilSaved(s: State, steps: seq<Step>)
    requires ValidRun(s, steps) && s.stepBackend.None? && s.stepOtp.None?
    requires forall step :: step in steps ==> !UserSave(step)
    ensures Run(s, steps).stepBackend.None? && Run(s, steps).stepOtp.None?
    decreases |steps|
  {
    if steps != [] {
      var first := steps[0];
      assert first in steps;
      ClearUntilSaved(Next(s, first), steps[1..]);
    }
  }

  /**
   * A refused sign-in is the end of everything remembered: whatever overlapped with it, from the moment its handler
   * has ended no step backend and no code exist, and no code or password form finds one, until the credential form
   * is submitted with a phone number again.
   */
  lemma RefusalClears(s: State, end: Step, steps: seq<Step>, t: nat, code: string)
    requires Enabled(s, end) && EndsRefused(s, end) && ValidRun(Next(s, end), steps)
    requires forall step :: step in steps ==> !UserSave(step)
    ensures var n := Run(Next(s, end), steps);
      && n.stepBackend.None? && n.stepOtp.None?
      && (t !in n.tasks ==> Next(n, SubmitOtp(t, code)) == n && Next(n, SubmitPassword(t)) == n)
  {
    ClearUntilSaved(Next(s, end), steps);
  }

  /** The step backend belongs to another attempt than b's. */
  predicate OtherAttempt(s: State, b: nat) {
    s.stepBackend.Some? && s.stepBackend.value != b
  }

  /** Since a point where `newer` said whether a newer attempt stood: was one started that nothing has cleared? */
  function StandsNewer(newer: bool, steps: seq<Step>): bool
    decreases |steps|
  {
    if steps == [] then newer
    else
      var next := if UserSave(steps[0]) then true
                  else if steps[0].Disconnected? || steps[0].Reset? || steps[0].Restart? then false
                  else newer;
      StandsNewer(next, steps[1..])
  }

  lemma {:induction false} NewerAttemptStands(s: State, steps: seq<Step>, b: nat)
    requires Inv(s) && ValidRun(s, steps) && b < s.backends
    ensures OtherAttempt(Run(s, steps), b) <==> StandsNewer(OtherAttempt(s, b), steps)
    decreases |steps|
  {
    if steps != [] {
      StepKeepsInv(s, steps[0]);
      NewerAttemptStands(Next(s, steps[0]), steps[1..], b);
    }
  }

  /**
   * Both a refused and an accepted sign-in clear the state after awaiting a disconnect, without looking whose it is
   * by then. Over every run from the submission of a code or password: what the handler clears is another attempt's
   * state if and only if the form was submitted with a phone number meanwhile and nothing has cleared that since.
   * That attempt is over without notice: the code sent for it finds no backend.
   */
  lemma {:induction false} DiscardsAnotherIff(s: State, steps: seq<Step>, t: nat, code: string)
    requires Inv(s) && ValidRun(s, steps) && s.stepBackend.Some?
    requires Enabled(Run(s, steps), Disconnected(t)) && Run(s, steps).tasks[t].backend == s.stepBackend.value
    ensures OtherAttempt(Run(s, steps), Run(s, steps).tasks[t].backend) <==> StandsNewer(false, steps)
    ensures var n := Next(Run(s, steps), Disconnected(t));
      n.stepBackend.None? && n.stepOtp.None? && Next(n, SubmitOtp(t, code)) == n
  {
    NewerAttemptStands(s, steps, s.stepBackend.value);
  }

  /** So after an accepted sign-in the server can be left waiting for a code that no form can take any more. */
  lemma StrandedSetup(s: State, t: nat, u: nat, config: Config, v: nat, code: string)
    requires Enabled(s, Disconnected(t)) && UserMode(config) && u !in s.tasks && v !in s.tasks && u != v
    ensures var n := Next(Next(s, Save(u, config)), Disconnected(t));
      && n.state.SetupInProgress? && n.tasks[u] == Sending(s.backends)
      && Enabled(n, SubmitOtp(v, code)) && Next(n, SubmitOtp(v, code)) == n
  {
  }

  /** A reset and a resolution leave the variables as their methods do; a restart also ends every call under way. */
  lemma ShortStepsAgree(s: State, environment: bool, readable: bool, deleted: bool)
    ensures ViewOf(Next(s, Reset(deleted))) == View(AwaitingSetup, None, None, if deleted then None else s.saved)
    ensures ViewOf(Next(s, Resolve(environment, readable))) == ViewOf(s).(
        state := if environment || (readable && s.saved.Some? && (s.saved.value.token || s.saved.value.phone))
                 then Configured else AwaitingSetup)
    ensures Next(s, Restart(environment, readable)).state == Next(s, Resolve(environment, readable)).state
    ensures Next(s, Restart(environment, readable)).tasks == map[]
  {
  }

  // --- becoming configured ---

  /** Only phone numbers are submitted, and the state is not resolved again. */
  predicate UserOnly(step: Step) {
    match step
    case Save(_, c) => UserMode(c)
    case Restart(_, _) => false
    case Resolve(_, _) => false
    case _ => true
  }

  lemma {:induction false} UserOnlyCounts(s: State, steps: seq<Step>)
    requires ValidRun(s, steps) && forall step :: step in steps ==> UserOnly(step)
    ensures Run(s, steps).botSaves == s.botSaves && Run(s, steps).resolved == s.resolved
    decreases |steps|
  {
    if steps != [] {
      var first := steps[0];
      assert first in steps;
      UserOnlyCounts(Next(s, first), steps[1..]);
    }
  }

  /** There, CONFIGURED means that a sign-in succeeded: the forms alone never lead there. */
  lemma ConfiguredMeansSignedIn(steps: seq<Step>)
    requires ValidRun(Init(), steps) && forall step :: step in steps ==> UserOnly(step)
    ensures var s := Run(Init(), steps); s.state.Configured? ==> s.signIns > 0
  {
    RunKeepsInv(Init(), steps);
    UserOnlyCounts(Init(), steps);
  }

  /** The saved form after these steps, where only phone numbers are submitted: is there one? */
  function FormKept(before: bool, step: Step): bool {
    match step
    case Save(_, _) => true
    case SaveUnusable(_) => true
    case Reset(deleted) => before && !deleted
    case _ => before
  }

  /**
   * Before the first accepted sign-in the state is resolved, by a restart or by setup_complete, and a phone number or
   * token is found in the environment or in a saved form; `kept` says whether there was one to begin with.
   */
  predicate ResolvesUnsigned(kept: bool, steps: seq<Step>)
    decreases |steps|
  {
    steps != [] && !steps[0].SignInAccepted? && (
      ((steps[0].Restart? || steps[0].Resolve?) && (steps[0].environment || (steps[0].readable && kept)))
      || ResolvesUnsigned(FormKept(kept, steps[0]), steps[1..]))
  }

  /** At some point of the run the server calls itself configured and nobody has signed in. */
  predicate ConfiguredUnsigned(s: State, steps: seq<Step>)
    requires ValidRun(s, steps)
    decreases |steps|
  {
    (s.state.Configured? && s.signIns == 0) || (steps != [] && ConfiguredUnsigned(Next(s, steps[0]), steps[1..]))
  }

  lemma {:induction false} SignedInStays(s: State, steps: seq<Step>)
    requires ValidRun(s, steps) && s.signIns > 0
    ensures !ConfiguredUnsigned(s, steps)
    decreases |steps|
  {
    if steps != [] { SignedInStays(Next(s, steps[0]), steps[1..]); }
  }

  predicate UserOrResolve(step: Step) {
    step.Restart? || step.Resolve? || UserOnly(step)
  }

  lemma {:induction false} UnsignedFrom(s: State, steps: seq<Step>)
    requires ValidRun(s, steps) && forall step :: step in steps ==> UserOrResolve(step)
    requires s.signIns == 0 && !s.state.Configured?
    ensures ConfiguredUnsigned(s, steps) <==> ResolvesUnsigned(HasCredentials(s.saved), steps)
    decreases |steps|
  {
    if steps != [] {
      var first := steps[0];
      assert first in steps;
      var n := Next(s, first);
      if first.SignInAccepted? {
        SignedInStays(n, steps[1..]);
      } else if !n.state.Configured? {
        UnsignedFrom(n, steps[1..]);
      }
    }
  }

  /**
   * The claim does not survive resolving the state, because the form is saved before its code is checked. Over every
   * run in which only phone numbers are submitted, with any resets, restarts and calls of setup_complete: the server
   * is configured at some point without anybody having signed in if and only if its state is resolved before the first
   * accepted sign-in while the environment, or a readable form submitted and not deleted since, names credentials.
   */
  lemma ConfiguredUnsignedIff(steps: seq<Step>)
    requires ValidRun(Init(), steps) && forall step :: step in steps ==> UserOrResolve(step)
    ensures ConfiguredUnsigned(Init(), steps) <==> ResolvesUnsigned(false, steps)
  {
    UnsignedFrom(Init(), steps);
  }

  lemma TwoSteps(s: State, first: Step, second: Step)
    requires Enabled(s, first) && Enabled(Next(s, first), second)
    ensures ValidRun(s, [first, second]) && Run(s, [first, second]) == Next(Next(s, first), second)
  {
    assert [first, second][1..] == [second] && [second][1..] == [];
    assert ValidRun(Next(Next(s, first), second), []);
    assert ValidRun(Next(s, first), [second]);
    assert Run(Next(s, first), [second]) == Next(Next(s, first), second);
  }

  /** A phone number typed in, no code ever entered, and a restart or setup_complete: configured without any sign-in. */
  lemma ConfiguredWithoutSignIn(resolve: Step)
    requires resolve == Restart(false, true) || resolve == Resolve(false, true)
    ensures var steps := [Save(0, Config(false, true)), resolve];
      ValidRun(Init(), steps) && Run(Init(), steps).state.Configured? && Run(Init(), steps).signIns == 0
  {
    TwoSteps(Init(), Save(0, Config(false, true)), resolve);
  }

  // --- the module's variables, one call at a time ---

  datatype SignIn = Accepted | NeedsPassword | Refused

  /** The variables a reader of the module sees. */
  datatype View = View(state: Credentials, stepBackend: Option<nat>, stepOtp: Option<string>, saved: Option<Config>)

  function ViewOf(s: State): View {
    View(s.state, s.stepBackend, s.stepOtp, s.saved)
  }

  function Cleared(v: View): View {
    v.(stepBackend := None, stepOtp := None)
  }

  function AfterOtp(v: View, code: string, outcome: SignIn): View {
    if v.stepBackend.None? then v
    else match outcome
      case Accepted => Cleared(v).(state := Configured)
      case NeedsPassword => v.(stepOtp := Some(code))
      case Refused => Cleared(v)
  }

  function AfterPassword(v: View, accepted: bool): View {
    if v.stepBackend.None? || v.stepOtp.None? then v
    else if accepted then Cleared(v).(state := Configured)
    else Cleared(v)
  }

  class CredentialState {
    var state: Credentials
    var stepBackend: Option<nat>
    var stepOtp: Option<string>
    var saved: Option<Config>
    var backends: nat

    ghost function Variables(): View
      reads this
    {
      View(state, stepBackend, stepOtp, saved)
    }

    constructor ()
      ensures Variables() == View(AwaitingSetup, None, None, None) && backends == 0
    {
      state, stepBackend, stepOtp, saved, backends := AwaitingSetup, None, None, None, 0;
    }

    method SaveCredentials(config: Config)
      modifies this
      ensures Variables() == if config.phone && !config.token then View(SetupInProgress, Some(old(backends)), None, Some(config))
                             else View(Configured, old(stepBackend), old(stepOtp), Some(config))
      ensures backends == old(backends) + if config.phone && !config.token then 1 else 0
    {
      saved := Some(config);
      if config.phone && !config.token {
        state := SetupInProgress;
        stepBackend := Some(backends);
        backends := backends + 1;
        stepOtp := None;
        return;
      }
      state := Configured;
    }

    /** At the start of a process, and again whenever setup_complete asks for it. */
    method ResolveCredentialState(environment: bool, readable: bool)
      modifies this
      ensures Variables() == old(Variables()).(
          state := if environment || (readable && old(saved).Some? && (old(saved).value.token || old(saved).value.phone))
                   then Configured else AwaitingSetup)
      ensures backends == old(backends)
    {
      if environment {
        state := Configured;
        return;
      }
      if readable && saved.Some? {
        if saved.value.token || saved.value.phone {
          state := Configured;
          return;
        }
      }
      state := AwaitingSetup;
    }

    /** The reset action: back to the start, whatever becomes of the saved form. */
    method ResetState(deleted: bool)
      modifies this
      ensures Variables() == View(AwaitingSetup, None, None, if deleted then None else old(saved))
      ensures backends == old(backends)
    {
      state := AwaitingSetup;
      stepBackend := None;
      stepOtp := None;
      if deleted {
        saved := None;
      }
    }

    method SubmitOtpCode(code: string, outcome: SignIn)
      modifies this
      ensures Variables() == AfterOtp(old(Variables()), code, outcome) && backends == old(backends)
      ensures old(stepBackend).Some? && outcome.Accepted? ==> state == Configured && stepBackend == None && stepOtp == None
      ensures old(stepBackend).Some? && outcome.NeedsPassword? ==>
        state == old(state) && stepBackend == old(stepBackend) && stepOtp == Some(code)
      ensures outcome.Refused? ==> state == old(state) && (old(stepBackend).Some? ==> stepBackend == None && stepOtp == None)
      ensures old(stepBackend).None? ==> Variables() == old(Variables())
      ensures saved == old(saved)
    {
      if stepBackend.None? {
        return;
      }
      stepOtp := Some(code);
      match outcome {
        case Accepted => FinalizeAuth();
        case NeedsPassword =>
        case Refused =>
          stepBackend := None;
          stepOtp := None;
      }
    }

    method SubmitStepPassword(accepted: bool)
      modifies this
      ensures Variables() == AfterPassword(old(Variables()), accepted) && backends == old(backends)
      ensures old(stepBackend).None? || old(stepOtp).None? ==> Variables() == old(Variables())
      ensures old(stepBackend).Some? && old(stepOtp).Some? ==>
        state == (if accepted then Configured else old(state)) && stepBackend == None && stepOtp == None && saved == old(saved)
    {
      if stepBackend.None? {
        return;
      }
      if stepOtp.None? {
        return;
      }
      if accepted {
        FinalizeAuth();
      } else {
        stepBackend := None;
        stepOtp := None;
      }
    }

    method FinalizeAuth()
      modifies this
      ensures Variables() == Cleared(old(Variables())).(state := Configured) && backends == old(backends)
    {
      state := Configured;
      stepBackend := None;
      stepOtp := None;
    }
  }

  /** The steps a code form takes when nothing interrupts it. */
  function OtpSteps(s: State, t: nat, code: string, outcome: SignIn): seq<Step> {
    [SubmitOtp(t, code)] +
    if s.stepBackend.None? then []
    else match outcome
      case Accepted => [SignInAccepted(t), Disconnected(t)]
      case NeedsPassword => [SignInNeedsPassword(t)]
      case Refused => [SignInRefused(t), Disconnected(t)]
  }

  /** A code form handled without interruption is that run of the interleaved model, for each outcome of sign_in. */
  lemma OtpCallIsARun(s: State, t: nat, code: string, outcome: SignIn)
    requires t !in s.tasks
    ensures var steps := OtpSteps(s, t, code, outcome);
      && ValidRun(s, steps) && ViewOf(Run(s, steps)) == AfterOtp(ViewOf(s), code, outcome)
      && (outcome.Accepted? && s.stepBackend.Some? ==> Run(s, steps).state.Configured? && Run(s, steps).signIns == s.signIns + 1)
      && (!outcome.Accepted? || s.stepBackend.None? ==> Run(s, steps).state == s.state && Run(s, steps).signIns == s.signIns)
  {
    if s.stepBackend.None? {
      RunThree(s, SubmitOtp(t, code), None, None);
    } else {
      match outcome
      case Accepted => RunThree(s, SubmitOtp(t, code), Some(SignInAccepted(t)), Some(Disconnected(t)));
      case NeedsPassword => RunThree(s, SubmitOtp(t, code), Some(SignInNeedsPassword(t)), None);
      case Refused => RunThree(s, SubmitOtp(t, code), Some(SignInRefused(t)), Some(Disconnected(t)));
    }
  }

  function PasswordSteps(s: State, t: nat, accepted: bool): seq<Step> {
    [SubmitPassword(t)] +
    if s.stepBackend.None? || s.stepOtp.None? then []
    else [if accepted then SignInAccepted(t) else SignInRefused(t), Disconnected(t)]
  }

  /** And so is a password form. */
  lemma PasswordCallIsARun(s: State, t: nat, accepted: bool)
    requires t !in s.tasks
    ensures var steps := PasswordSteps(s, t, accepted);
      && ValidRun(s, steps) && ViewOf(Run(s, steps)) == AfterPassword(ViewOf(s), accepted)
      && (accepted && s.stepBackend.Some? && s.stepOtp.Some? ==>
          Run(s, steps).state.Configured? && Run(s, steps).signIns == s.signIns + 1)
      && (!accepted || s.stepBackend.None? || s.stepOtp.None? ==>
          Run(s, steps).state == s.state && Run(s, steps).signIns == s.signIns)
  {
    if s.stepBackend.None? || s.stepOtp.None? {
      RunThree(s, SubmitPassword(t), None, None);
    } else {
      RunThree(s, SubmitPassword(t), Some(if accepted then SignInAccepted(t) else SignInRefused(t)), Some(Disconnected(t)));
    }
  }

  function Maybe(s: State, step: Option<Step>): State
    requires step.Some? ==> Enabled(s, step.value)
  {
    if step.Some? then Next(s, step.value) else s
  }

  function Listed(step: Option<Step>): seq<Step> {
    if step.Some? then [step.value] else []
  }

  lemma MaybeRuns(s: State, step: Option<Step>, rest: seq<Step>)
    requires (step.Some? ==> Enabled(s, step.value)) && ValidRun(Maybe(s, step), rest)
    ensures ValidRun(s, Listed(step) + rest) && Run(s, Listed(step) + rest) == Run(Maybe(s, step), rest)
  {
    if step.Some? {
      assert (Listed(step) + rest)[1..] == rest;
    } else {
      assert Listed(step) + rest == rest;
    }
  }

  lemma RunThree(s: State, first: Step, second: Option<Step>, third: Option<Step>)
    requires Enabled(s, first) && (third.Some? ==> second.Some?)
    requires second.Some? ==> Enabled(Next(s, first), second.value)
    requires third.Some? ==> Enabled(Maybe(Next(s, first), second), third.value)
    ensures var steps := [first] + if second.None? then [] else if third.None? then [second.value] else [second.value, third.value];
      ValidRun(s, steps) && Run(s, steps) == Maybe(Maybe(Next(s, first), second), third)
  {
    var s1 := Next(s, first);
    var s2 := Maybe(s1, second);
    assert ValidRun(Maybe(s2, third), []);
    MaybeRuns(s2, third, []);
    assert Listed(third) + [] == Listed(third);
    MaybeRuns(s1, second, Listed(third));
    MaybeRuns(s, Some(first), Listed(second) + Listed(third));
    assert Listed(second) + Listed(third)
        == if second.None? then [] else if third.None? then [second.value] else [second.value, third.value];
  }
}
