/**
 * Pending sign-ins of the multi-user provider: a dictionary in memory whose insertion order is meant to be the order
 * of creation, so that cleanup can stop at the first entry that is not stale, and a durable copy of each entry.
 * A registration awaits a disconnect between removing the old entry and inserting the new one, and a restore from the
 * durable copy awaits a connection between reading it and inserting it, so the two halves of each are separate steps.
 */
module AuthProvider {
  import opened Wrappers
  import opened OrderedDict
  import Otp = PendingOtp

  type Entry = Otp.Entry

  /** An entry in the hands of a call: read by a restore that is still connecting, or used by a sign_in under way. */
  datatype Held = Held(bearer: string, entry: Entry)

  /**
   * `sessions` are the sign-ins that were stored, each with the code it was made with. `evicted` is history: users
   * whose code cleanup dropped from memory and who have not asked for another.
   */
  datatype State = State(pending: Dict<Entry>, durable: bool, kv: Otp.Kv, now: int, restoring: map<nat, Held>,
                         signing: map<nat, Held>, sessions: seq<Held>, evicted: set<string>)

  datatype Step =
    | Tick(now: int)
    | Pop(bearer: string)                                           // first half of a registration, or a revocation
    | Insert(bearer: string, phone: string, hash: string, session: string) // second half of a registration
    | ResumeRead(t: nat, bearer: string)                            // complete_user_auth looks for the pending sign-in
    | ResumeInsert(t: nat)                                          // and, when it had to restore it, puts it back
    | ResumeFails(t: nat)                                           // or cannot connect
    | SignIn(t: nat, bearer: string)                                // sign_in begins with the entry in memory
    | SignInFails(t: nat)
    | SignedIn(t: nat)                                              // it was accepted: the entry is dropped and a session stored
    | Cleanup                                                       // the provider's own cleanup_expired
    | KvCleanup                                                     // the KV store's
    | Restart                                                       // the container slept: memory is gone

  function Init(durable: bool): State {
    State(Empty(), durable, Otp.Kv(map[], []), 0, map[], map[], [], {})
  }

  // --- cleanup ---

  predicate IsStale(d: Dict<Entry>, key: string, now: int) {
    key in d.vals && Otp.Stale(d.vals[key], now)
  }

  function PopFirst(d: Dict<Entry>): Dict<Entry>
    requires d.keys != []
  {
    Dict(d.keys[1..], d.vals - {d.keys[0]})
  }

  /** Pops from the front while the front is stale. */
  function PopStale(d: Dict<Entry>, now: int): Dict<Entry>
    decreases |d.keys|
  {
    if d.keys == [] || !IsStale(d, d.keys[0], now) then d else PopStale(PopFirst(d), now)
  }

  function FreshKeys(d: Dict<Entry>, keys: seq<string>, now: int): seq<string> {
    if keys == [] then []
    else if IsStale(d, keys[0], now) then FreshKeys(d, keys[1..], now)
    else [keys[0]] + FreshKeys(d, keys[1..], now)
  }

  /** What a scan of the whole dictionary would leave. */
  function FullScan(d: Dict<Entry>, now: int): Dict<Entry> {
    Dict(FreshKeys(d, d.keys, now), map k | k in d.vals && !IsStale(d, k, now) :: d.vals[k])
  }

  // --- steps ---

  predicate Enabled(s: State, step: Step) {
    match step
    case Tick(t) => t >= s.now
    case SignIn(t, b) => t !in s.signing && b in s.pending.vals
    case SignInFails(t) => t in s.signing
    case SignedIn(t) => t in s.signing
    case ResumeRead(t, _) => t !in s.restoring
    case ResumeInsert(t) => t in s.restoring
    case ResumeFails(t) => t in s.restoring
    case _ => true
  }

  function NewEntry(s: State, step: Step): Entry
    requires step.Insert?
  {
    Otp.Entry(step.phone, step.hash, step.session, s.now)
  }

  /** What complete_user_auth gets hold of: the entry in memory, or else the durable one. */
  function Resumed(s: State, bearer: string): Option<Entry> {
    if bearer in s.pending.vals then Some(s.pending.vals[bearer])
    else if s.durable then Otp.LoadAnswer(s.kv, bearer, bearer, s.now)
    else None
  }

  function Next(s: State, step: Step): State
    requires Enabled(s, step)
  {
    match step
    case Tick(t) => s.(now := t)
    case Pop(b) => s.(pending := Remove(s.pending, b))
    case Insert(b, _, _, _) =>
      var e := NewEntry(s, step);
      s.(pending := Put(s.pending, b, e), kv := if s.durable then Otp.Save(s.kv, b, b, e) else s.kv,
         evicted := s.evicted - {b})
    case ResumeRead(t, b) =>
      if b in s.pending.vals || !s.durable then s
      else
        var found := Otp.LoadAnswer(s.kv, b, b, s.now);
        s.(kv := Otp.LoadNext(s.kv, b, b, s.now),
           restoring := if found.Some? then s.restoring[t := Held(b, found.value)] else s.restoring)
    case ResumeInsert(t) =>
      s.(pending := Put(s.pending, s.restoring[t].bearer, s.restoring[t].entry), restoring := s.restoring - {t})
    case ResumeFails(t) => s.(restoring := s.restoring - {t})
    case SignIn(t, b) => s.(signing := s.signing[t := Held(b, s.pending.vals[b])])
    case SignInFails(t) => s.(signing := s.signing - {t})
    case SignedIn(t) =>
      var held := s.signing[t];
      var done := s.(signing := s.signing - {t});
      // Dropping an entry that is no longer there raises an error, and the session is not stored.
      if held.bearer in s.pending.vals then UsedUp(done, held.bearer).(sessions := s.sessions + [held]) else done
    case Cleanup =>
      var left := PopStale(s.pending, s.now);
      s.(pending := left, evicted := s.evicted + (set k | k in s.pending.vals && k !in left.vals))
    case KvCleanup => s.(kv := Otp.Cleaned(s.kv, s.kv.index, s.now))
    case Restart => s.(pending := Empty(), restoring := map[], signing := map[])
  }

  function UsedUp(s: State, b: string): State {
    s.(pending := Remove(s.pending, b), kv := if s.durable then Otp.Delete(s.kv, b, b) else s.kv)
  }

  predicate ValidRun(s: State, steps: seq<Step>)
    decreases |steps|
  {
    steps == [] || (Enabled(s, steps[0]) && ValidRun(Next(s, steps[0]), steps[1..]))
  }

  function Run(s: State, steps: seq<Step>): State
    requires ValidRun(s, steps)
    decreases |steps|
  {
    if steps == [] then s else Run(Next(s, steps[0]), steps[1..])
  }

  // --- what every step keeps ---

  ghost predicate Inv(s: State) {
    && Valid(s.pending)
    && Otp.Indexed(s.kv)
    && (!s.durable ==> s.kv == Otp.Kv(map[], []))
    && NoFuture(s)
  }

  /** No entry, pending or on its way back, is from the future. */
  ghost predicate NoFuture(s: State) {
    && (forall b :: b in s.pending.vals ==> s.pending.vals[b].createdAt <= s.now)
    && (forall t :: t in s.restoring ==> s.restoring[t].entry.createdAt <= s.now)
  }

  ghost predicate KvPast(s: State) {
    forall b :: Otp.Find(s.kv, b, b).Some? ==> Otp.Find(s.kv, b, b).value.createdAt <= s.now
  }

  lemma {:induction false} PopStaleIsFront(d: Dict<Entry>, now: int)
    requires Valid(d)
    ensures var left := PopStale(d, now);
      && Valid(left)
      && (forall k :: k in left.vals ==> k in d.vals && left.vals[k] == d.vals[k])
      && (forall k :: k in d.vals && k !in left.vals ==> Otp.Stale(d.vals[k], now))
      && (left.keys != [] ==> !IsStale(left, left.keys[0], now))
    decreases |d.keys|
  {
    if d.keys != [] && IsStale(d, d.keys[0], now) {
      PopFirstIsValid(d);
      PopStaleIsFront(PopFirst(d), now);
    }
  }

  lemma PopFirstIsValid(d: Dict<Entry>)
    requires Valid(d) && d.keys != []
    ensures Valid(PopFirst(d)) && d.keys[0] in d.vals
  {
    var head := d.keys[0];
    assert head in d.keys;
    assert d.keys == [head] + d.keys[1..];
    forall k ensures k in d.keys[1..] <==> k in d.vals && k != head {
      if k in d.keys[1..] {
        var i :| 0 <= i < |d.keys[1..]| && d.keys[1..][i] == k;
        assert d.keys[i + 1] == k;
      }
    }
  }

  lemma {:induction false} StepKeepsInv(s: State, step: Step)
    requires Inv(s) && KvPast(s) && Enabled(s, step)
    ensures Inv(Next(s, step)) && KvPast(Next(s, step))
  {
    match step
    case Tick(_) =>
    case Pop(b) => RemoveIsValid(s.pending, b);
    case Insert(b, _, _, _) => InsertKeepsInv(s, step);
    case ResumeRead(_, b) => if s.durable { PurgeKeepsInv(s, b); }
    case ResumeInsert(t) => PutIsValid(s.pending, s.restoring[t].bearer, s.restoring[t].entry);
    case ResumeFails(_) =>
    case SignIn(_, _) =>
    case SignInFails(_) =>
    case SignedIn(t) => UsedUpKeepsInv(s, s.signing[t].bearer);
    case Cleanup => PopStaleIsFront(s.pending, s.now);
    case KvCleanup =>
      forall c { Otp.CleanedFinds(s.kv, s.now, c, c); }
      Otp.CleanedFinds(s.kv, s.now, "", "");
    case Restart =>
  }

  lemma {:induction false} UsedUpKeepsInv(s: State, b: string)
    requires Inv(s) && KvPast(s)
    ensures Inv(UsedUp(s, b)) && KvPast(UsedUp(s, b))
  {
    RemoveIsValid(s.pending, b);
    if b in s.kv.blobs { Otp.WriteBackKeepsIndexed(s.kv, b, s.kv.blobs[b] - {b}); }
    forall c { Otp.DeleteFinds(s.kv, b, b, c, c); }
  }

  lemma {:induction false} InsertKeepsInv(s: State, step: Step)
    requires Inv(s) && KvPast(s) && step.Insert?
    ensures Inv(Next(s, step)) && KvPast(Next(s, step))
  {
    var b, e := step.bearer, NewEntry(s, step);
    PutIsValid(s.pending, b, e);
    if s.durable {
      Otp.SaveKeepsIndexed(s.kv, b, b, e);
      forall c { Otp.SaveFinds(s.kv, b, b, e, c, c); }
    }
  }

  lemma PurgeKeepsInv(s: State, b: string)
    requires Inv(s) && KvPast(s) && s.durable
    ensures var n := s.(kv := Otp.LoadNext(s.kv, b, b, s.now)); Inv(n) && KvPast(n)
  {
    if b in s.kv.blobs { Otp.WriteBackKeepsIndexed(s.kv, b, s.kv.blobs[b] - {b}); }
    forall c { Otp.DeleteFinds(s.kv, b, b, c, c); }
  }

  lemma {:induction false} RunKeepsInv(s: State, steps: seq<Step>)
    requires Inv(s) && KvPast(s) && ValidRun(s, steps)
    ensures Inv(Run(s, steps)) && KvPast(Run(s, steps))
    decreases |steps|
  {
    if steps != [] {
      StepKeepsInv(s, steps[0]);
      RunKeepsInv(Next(s, steps[0]), steps[1..]);
    }
  }

  // --- can an evicted code come back? ---

  /** A user whose code cleanup evicted, and who has not asked for another, finds nothing to complete. */
  ghost predicate EvictedAreGone(s: State) {
    forall b :: b in s.evicted ==> Resumed(s, b).None?
  }

  /**
   * A restore completes although cleanup has evicted its user's code since it was read; or cleanup evicts an entry
   * whose durable copy is another, fresh one, which takes a restore that has overwritten a newer registration.
   */
  ghost predicate BringsBack(s: State, step: Step)
    requires Enabled(s, step)
  {
    match step
    case ResumeInsert(t) => s.restoring[t].bearer in s.evicted
    case Cleanup => exists b :: b in s.pending.vals && b !in PopStale(s.pending, s.now).vals && KvHolds(s, b)
    case _ => false
  }

  predicate KvHolds(s: State, b: string) {
    s.durable && Otp.LoadAnswer(s.kv, b, b, s.now).Some?
  }

  lemma KvStepHolds(s: State, step: Step, c: string)
    requires Inv(s) && Enabled(s, step) && !KvHolds(s, c)
    requires step.Insert? ==> step.bearer != c
    ensures !KvHolds(Next(s, step), c)
  {
    match step
    case Insert(b, _, _, _) => Otp.SaveFinds(s.kv, b, b, NewEntry(s, step), c, c);
    case ResumeRead(_, b) => Otp.DeleteFinds(s.kv, b, b, c, c);
    case SignedIn(t) => Otp.DeleteFinds(s.kv, s.signing[t].bearer, s.signing[t].bearer, c, c);
    case KvCleanup => Otp.CleanedFinds(s.kv, s.now, c, c);
    case _ =>
  }

  lemma {:induction false} StepKeepsGoneIff(s: State, step: Step)
    requires Inv(s) && Enabled(s, step) && EvictedAreGone(s)
    ensures EvictedAreGone(Next(s, step)) <==> !BringsBack(s, step)
  {
    var n := Next(s, step);
    PopStaleIsFront(s.pending, s.now);
    forall c | c in s.evicted && c in n.evicted ensures !KvHolds(n, c) && (c in n.pending.vals ==> BringsBack(s, step)) {
      assert Resumed(s, c).None?;
      KvStepHolds(s, step, c);
    }
    if step.ResumeInsert? && BringsBack(s, step) {
      assert Resumed(n, s.restoring[step.t].bearer).Some?;
    }
    if step.Cleanup? && BringsBack(s, step) {
      var b :| b in s.pending.vals && b !in PopStale(s.pending, s.now).vals && KvHolds(s, b);
      assert Resumed(n, b).Some?;
    }
  }

  /** At some point of the run an evicted user finds something. */
  ghost predicate EverFound(s: State, steps: seq<Step>)
    requires ValidRun(s, steps)
    decreases |steps|
  {
    !EvictedAreGone(s) || (steps != [] && EverFound(Next(s, steps[0]), steps[1..]))
  }

  ghost predicate EverBrought(s: State, steps: seq<Step>)
    requires ValidRun(s, steps)
    decreases |steps|
  {
    steps != [] && (BringsBack(s, steps[0]) || EverBrought(Next(s, steps[0]), steps[1..]))
  }

  lemma {:induction false} FoundIffBrought(s: State, steps: seq<Step>)
    requires Inv(s) && KvPast(s) && ValidRun(s, steps) && EvictedAreGone(s)
    ensures EverFound(s, steps) <==> EverBrought(s, steps)
    decreases |steps|
  {
    if steps != [] {
      StepKeepsInv(s, steps[0]);
      StepKeepsGoneIff(s, steps[0]);
      if !BringsBack(s, steps[0]) { FoundIffBrought(Next(s, steps[0]), steps[1..]); }
    }
  }

  /**
   * Over every run, with registrations, completions, revocations, restarts and both cleanups in any order and at any
   * await: an evicted code comes back if and only if some step brings it back, and only a restore that overlaps with
   * an eviction or a registration leads there.
   */
  lemma EvictedResumesIff(durable: bool, steps: seq<Step>)
    requires ValidRun(Init(durable), steps)
    ensures EverFound(Init(durable), steps) <==> EverBrought(Init(durable), steps)
  {
    FoundIffBrought(Init(durable), steps);
  }

  /** A restore that finds a fresh copy holds it, and inserts it when it can connect. */
  lemma ReadsCopy(s: State, t: nat, b: string)
    requires s.durable && t !in s.restoring && b !in s.pending.vals && Otp.LoadAnswer(s.kv, b, b, s.now).Some?
    ensures Next(s, ResumeRead(t, b)) == s.(restoring := s.restoring[t := Held(b, Otp.LoadAnswer(s.kv, b, b, s.now).value)])
  {
  }

  /** For instance: of two restores of one code that overlap, the slower one completes after the eviction. */
  lemma SlowRestoreRevives(s: State, a: string) returns (e: Entry, both: State, late: State)
    requires s.durable && s.pending == Empty() && s.restoring == map[]
    requires Otp.LoadAnswer(s.kv, a, a, s.now).Some? && Otp.LoadAnswer(s.kv, a, a, s.now).value.createdAt <= s.now
    ensures e == Otp.LoadAnswer(s.kv, a, a, s.now).value
    ensures both == Next(Next(s, ResumeRead(0, a)), ResumeRead(1, a))
    ensures Enabled(both, ResumeInsert(0))
    ensures late == Next(Next(Next(both, ResumeInsert(0)), Tick(s.now + Otp.OTP_TTL + 1)), Cleanup)
    ensures a in late.evicted && Resumed(late, a).None?
    ensures Enabled(late, ResumeInsert(1)) && Resumed(Next(late, ResumeInsert(1)), a) == Some(e)
  {
    e := Otp.LoadAnswer(s.kv, a, a, s.now).value;
    ReadsCopy(s, 0, a);
    ReadsCopy(Next(s, ResumeRead(0, a)), 1, a);
    both := s.(restoring := s.restoring[0 := Held(a, e)][1 := Held(a, e)]);
    var later := both.(pending := Dict([a], map[a := e]), restoring := both.restoring - {0}, now := s.now + Otp.OTP_TTL + 1);
    assert later == Next(Next(both, ResumeInsert(0)), Tick(s.now + Otp.OTP_TTL + 1));
    OnlyStale(a, e, later.now);
    late := Next(later, Cleanup);
  }

  lemma OnlyStale(a: string, e: Entry, now: int)
    requires Otp.Stale(e, now)
    ensures PopStale(Dict([a], map[a := e]), now) == Empty()
  {
    var d := Dict([a], map[a := e]);
    assert PopFirst(d) == Empty();
    assert PopStale(Empty(), now) == Empty();
  }

  /** A restore is undisturbed if the durable copy is still the one it read, and its user has not been evicted. */
  ghost predicate Undisturbed(s: State, step: Step)
    requires Enabled(s, step)
  {
    step.ResumeInsert? ==>
      var r := s.restoring[step.t];
      r.bearer !in s.evicted && Otp.Find(s.kv, r.bearer, r.bearer) == Some(r.entry)
  }

  ghost predicate UndisturbedRun(s: State, steps: seq<Step>)
    requires ValidRun(s, steps)
    decreases |steps|
  {
    steps == [] || (Undisturbed(s, steps[0]) && UndisturbedRun(Next(s, steps[0]), steps[1..]))
  }

  /** Memory and KV agree on when a code was created. */
  ghost predicate SameTimes(s: State) {
    forall b :: b in s.pending.vals && Otp.Find(s.kv, b, b).Some? ==>
      Otp.Find(s.kv, b, b).value.createdAt == s.pending.vals[b].createdAt
  }

  lemma UndisturbedTimes(s: State, step: Step, c: string)
    requires Inv(s) && SameTimes(s) && Enabled(s, step) && Undisturbed(s, step)
    ensures var n := Next(s, step); c in n.pending.vals && Otp.Find(n.kv, c, c).Some? ==>
      Otp.Find(n.kv, c, c).value.createdAt == n.pending.vals[c].createdAt
  {
    match step
    case Insert(b, _, _, _) => Otp.SaveFinds(s.kv, b, b, NewEntry(s, step), c, c);
    case ResumeRead(_, b) => Otp.DeleteFinds(s.kv, b, b, c, c);
    case SignedIn(t) => Otp.DeleteFinds(s.kv, s.signing[t].bearer, s.signing[t].bearer, c, c);
    case KvCleanup => Otp.CleanedFinds(s.kv, s.now, c, c);
    case Cleanup => PopStaleIsFront(s.pending, s.now);
    case _ =>
  }

  lemma {:induction false} UndisturbedKeepsTimes(s: State, step: Step)
    requires Inv(s) && SameTimes(s) && Enabled(s, step) && Undisturbed(s, step)
    ensures SameTimes(Next(s, step)) && !BringsBack(s, step)
  {
    forall c { UndisturbedTimes(s, step, c); }
    PopStaleIsFront(s.pending, s.now);
  }

  lemma {:induction false} UndisturbedRunBringsNothing(s: State, steps: seq<Step>)
    requires Inv(s) && KvPast(s) && SameTimes(s) && ValidRun(s, steps) && UndisturbedRun(s, steps)
    ensures !EverBrought(s, steps)
    decreases |steps|
  {
    if steps != [] {
      UndisturbedKeepsTimes(s, steps[0]);
      StepKeepsInv(s, steps[0]);
      UndisturbedRunBringsNothing(Next(s, steps[0]), steps[1..]);
    }
  }

  /**
   * So wherever restores are undisturbed, as they are when nobody overlaps with them, memory and KV carry the same
   * creation times, and a user whose code cleanup evicted finds nothing until a new code is requested.
   */
  lemma EvictedNeverResumes(durable: bool, steps: seq<Step>)
    requires ValidRun(Init(durable), steps) && UndisturbedRun(Init(durable), steps)
    ensures !EverFound(Init(durable), steps)
  {
    UndisturbedRunBringsNothing(Init(durable), steps);
    EvictedResumesIff(durable, steps);
  }

  // --- stopping at the first fresh entry ---

  /** Insertion order is creation order. */
  ghost predicate Chronological(d: Dict<Entry>)
    requires Valid(d)
  {
    forall i, j :: 0 <= i < j < |d.keys| ==> At(d, i).createdAt <= At(d, j).createdAt
  }

  function At(d: Dict<Entry>, i: nat): Entry
    requires i < |d.keys| && forall k :: k in d.keys ==> k in d.vals
  {
    d.vals[d.keys[i]]
  }

  /** A fresh entry stands before a stale one. */
  ghost predicate HidesStale(d: Dict<Entry>, now: int)
    requires Valid(d)
  {
    exists i, j :: 0 <= i < j < |d.keys| && !Otp.Stale(At(d, i), now) && Otp.Stale(At(d, j), now)
  }

  lemma {:induction false} FreshKeysOf(d: Dict<Entry>, keys: seq<string>, now: int)
    ensures forall k :: k in FreshKeys(d, keys, now) <==> k in keys && !IsStale(d, k, now)
    ensures (forall k :: k in keys ==> !IsStale(d, k, now)) ==> FreshKeys(d, keys, now) == keys
  {
    if keys != [] {
      var head := keys[0];
      assert head in keys;
      FreshKeysOf(d, keys[1..], now);
      assert keys == [head] + keys[1..];
    }
  }

  lemma {:induction false} FreshKeysIgnore(d: Dict<Entry>, d': Dict<Entry>, keys: seq<string>, now: int)
    requires forall k :: k in keys ==> (k in d.vals <==> k in d'.vals) && (k in d.vals ==> d.vals[k] == d'.vals[k])
    ensures FreshKeys(d, keys, now) == FreshKeys(d', keys, now)
  {
    if keys != [] {
      var head := keys[0];
      assert head in keys;
      assert forall k :: k in keys[1..] ==> k in keys;
      FreshKeysIgnore(d, d', keys[1..], now);
    }
  }

  lemma PopFirstScan(d: Dict<Entry>, now: int)
    requires Valid(d) && d.keys != [] && IsStale(d, d.keys[0], now)
    ensures FullScan(d, now) == FullScan(PopFirst(d), now)
  {
    var head := d.keys[0];
    assert head in d.keys;
    assert head !in d.keys[1..];
    FreshKeysIgnore(d, PopFirst(d), d.keys[1..], now);
    DropStale(d.vals, head, now);
  }

  lemma DropStale(vals: map<string, Entry>, k: string, now: int)
    requires k in vals ==> Otp.Stale(vals[k], now)
    ensures var rest := vals - {k};
      (map x | x in vals && !Otp.Stale(vals[x], now) :: vals[x]) == (map x | x in rest && !Otp.Stale(rest[x], now) :: rest[x])
  {
  }

  lemma PopFirstHides(d: Dict<Entry>, now: int)
    requires Valid(d) && d.keys != [] && IsStale(d, d.keys[0], now)
    ensures Valid(PopFirst(d)) && (HidesStale(d, now) <==> HidesStale(PopFirst(d), now))
  {
    PopFirstIsValid(d);
    var p := PopFirst(d);
    assert forall i: nat :: i < |p.keys| ==> p.keys[i] == d.keys[i + 1] && p.keys[i] in p.keys;
    assert forall i: nat :: i < |p.keys| ==> At(p, i) == At(d, i + 1);
    if i, j :| 0 <= i < j < |d.keys| && !Otp.Stale(At(d, i), now) && Otp.Stale(At(d, j), now) {
      assert At(p, i - 1) == At(d, i) && At(p, j - 1) == At(d, j);
    }
    if i, j :| 0 <= i < j < |p.keys| && !Otp.Stale(At(p, i), now) && Otp.Stale(At(p, j), now) {
      assert At(p, i) == At(d, i + 1) && At(p, j) == At(d, j + 1);
    }
  }

  /** The early exit does what a full scan does if and only if no fresh entry stands before a stale one. */
  lemma {:induction false} EarlyExitIff(d: Dict<Entry>, now: int)
    requires Valid(d)
    ensures PopStale(d, now) == FullScan(d, now) <==> !HidesStale(d, now)
    decreases |d.keys|
  {
    if d.keys == [] {
      assert FullScan(d, now).vals == d.vals;
    } else if IsStale(d, d.keys[0], now) {
      PopFirstScan(d, now);
      PopFirstHides(d, now);
      EarlyExitIff(PopFirst(d), now);
    } else {
      FreshFront(d, now);
    }
  }

  lemma FreshFront(d: Dict<Entry>, now: int)
    requires Valid(d) && d.keys != [] && !IsStale(d, d.keys[0], now)
    ensures d == FullScan(d, now) <==> !HidesStale(d, now)
  {
    var first := d.keys[0];
    assert first in d.keys;
    FreshKeysOf(d, d.keys, now);
    if k :| k in d.keys && IsStale(d, k, now) {
      var j :| 0 <= j < |d.keys| && d.keys[j] == k;
      assert !Otp.Stale(At(d, 0), now) && Otp.Stale(At(d, j), now);
    } else {
      forall i | 0 <= i < |d.keys| ensures !Otp.Stale(At(d, i), now) {
        assert d.keys[i] in d.keys;
      }
      assert FullScan(d, now).vals == d.vals;
    }
  }

  /** In chronological order nothing hides, so cleanup removes exactly the entries older than 300 seconds. */
  lemma ChronologicalCleanup(d: Dict<Entry>, now: int)
    requires Valid(d) && Chronological(d)
    ensures PopStale(d, now) == FullScan(d, now)
  {
    EarlyExitIff(d, now);
  }

  // --- which steps keep the order ---

  /** Every entry at or behind the place where `key` goes is at least as old as the new one. */
  ghost predicate FitsBehind(d: Dict<Entry>, key: string, e: Entry)
    requires Valid(d)
  {
    if key !in d.vals then d.keys == [] || At(d, |d.keys| - 1).createdAt <= e.createdAt
    else
      forall i :: 0 <= i < |d.keys| && d.keys[i] == key ==>
        (forall j :: 0 <= j < i ==> At(d, j).createdAt <= e.createdAt) &&
        (forall j :: i < j < |d.keys| ==> e.createdAt <= At(d, j).createdAt)
  }

  lemma AppendKeepsOrderIff(d: Dict<Entry>, key: string, e: Entry)
    requires Valid(d) && Chronological(d) && key !in d.vals
    ensures Valid(Put(d, key, e)) && (Chronological(Put(d, key, e)) <==> FitsBehind(d, key, e))
  {
    PutIsValid(d, key, e);
    var p := Put(d, key, e);
    forall i: nat | i < |d.keys| ensures At(p, i) == At(d, i) {
      assert d.keys[i] in d.keys;
    }
    assert At(p, |d.keys|) == e;
  }

  lemma ReplaceKeepsOrderIff(d: Dict<Entry>, key: string, e: Entry, at: nat)
    requires Valid(d) && Chronological(d) && at < |d.keys| && d.keys[at] == key
    ensures Valid(Put(d, key, e))
    ensures Chronological(Put(d, key, e)) <==>
      (forall j :: 0 <= j < at ==> At(d, j).createdAt <= e.createdAt) &&
      (forall j :: at < j < |d.keys| ==> e.createdAt <= At(d, j).createdAt)
  {
    PutIsValid(d, key, e);
    assert key in d.keys;
    var p := Put(d, key, e);
    forall i: nat | i < |d.keys| ensures At(p, i) == if i == at then e else At(d, i) {
      assert d.keys[i] in d.keys;
    }
    if Chronological(p) {
      forall j: nat | j < |d.keys| && j != at
        ensures if j < at then At(d, j).createdAt <= e.createdAt else e.createdAt <= At(d, j).createdAt
      {
        assert At(p, j) == At(d, j) && At(p, at) == e;
      }
    }
  }

  /** Writing an entry keeps the order if and only if it fits where the dictionary puts it. */
  lemma PutKeepsOrderIff(d: Dict<Entry>, key: string, e: Entry)
    requires Valid(d) && Chronological(d)
    ensures Valid(Put(d, key, e)) && (Chronological(Put(d, key, e)) <==> FitsBehind(d, key, e))
  {
    if key !in d.vals {
      AppendKeepsOrderIff(d, key, e);
    } else {
      assert key in d.keys;
      var at :| 0 <= at < |d.keys| && d.keys[at] == key;
      ReplaceKeepsOrderIff(d, key, e, at);
    }
  }

  /** The same order, said key by key. */
  ghost predicate Ordered(keys: seq<string>, vals: map<string, Entry>) {
    keys == [] || (
      && keys[0] in vals
      && (forall k :: k in keys[1..] ==> k in vals && vals[keys[0]].createdAt <= vals[k].createdAt)
      && Ordered(keys[1..], vals))
  }

  ghost predicate InOrder(keys: seq<string>, vals: map<string, Entry>)
    requires forall k :: k in keys ==> k in vals
  {
    forall i, j :: 0 <= i < j < |keys| ==> vals[keys[i]].createdAt <= vals[keys[j]].createdAt
  }

  lemma {:induction false} OrderedToIndex(keys: seq<string>, vals: map<string, Entry>)
    requires (forall k :: k in keys ==> k in vals) && Ordered(keys, vals)
    ensures InOrder(keys, vals)
  {
    if keys != [] {
      var rest := keys[1..];
      assert forall k :: k in rest ==> k in keys;
      OrderedToIndex(rest, vals);
      forall i, j | 0 <= i < j < |keys| ensures vals[keys[i]].createdAt <= vals[keys[j]].createdAt {
        assert keys[j] == rest[j - 1] && rest[j - 1] in rest;
        if i > 0 { assert keys[i] == rest[i - 1]; }
      }
    }
  }

  lemma {:induction false} IndexToOrdered(keys: seq<string>, vals: map<string, Entry>)
    requires (forall k :: k in keys ==> k in vals) && InOrder(keys, vals)
    ensures Ordered(keys, vals)
  {
    if keys != [] {
      var head, rest := keys[0], keys[1..];
      assert head in keys;
      assert forall k :: k in rest ==> k in keys;
      assert forall i :: 0 <= i < |rest| ==> rest[i] == keys[i + 1];
      IndexToOrdered(rest, vals);
    }
  }

  lemma ChronologicalIff(d: Dict<Entry>)
    requires Valid(d)
    ensures Chronological(d) <==> Ordered(d.keys, d.vals)
  {
    forall i: nat | i < |d.keys| ensures At(d, i) == d.vals[d.keys[i]] {}
    if Chronological(d) {
      forall i, j | 0 <= i < j < |d.keys| ensures d.vals[d.keys[i]].createdAt <= d.vals[d.keys[j]].createdAt {
        assert At(d, i).createdAt <= At(d, j).createdAt;
      }
      IndexToOrdered(d.keys, d.vals);
    }
    if Ordered(d.keys, d.vals) {
      OrderedToIndex(d.keys, d.vals);
    }
  }

  lemma {:induction false} FilterKeepsOrder(keys: seq<string>, vals: map<string, Entry>, vals': map<string, Entry>, out: string)
    requires Ordered(keys, vals) && forall k :: k in keys && k != out ==> k in vals && k in vals' && vals'[k] == vals[k]
    ensures Ordered(Filter(keys, out), vals')
  {
    if keys != [] {
      var head := keys[0];
      assert head in keys && forall k :: k in keys[1..] ==> k in keys;
      FilterKeepsOrder(keys[1..], vals, vals', out);
      FilterMembers(keys[1..], out);
    }
  }

  lemma RemoveKeepsOrder(d: Dict<Entry>, key: string)
    requires Valid(d) && Chronological(d)
    ensures Valid(Remove(d, key)) && Chronological(Remove(d, key))
  {
    RemoveIsValid(d, key);
    ChronologicalIff(d);
    FilterKeepsOrder(d.keys, d.vals, d.vals - {key}, key);
    ChronologicalIff(Remove(d, key));
  }

  lemma {:induction false} PopStaleKeepsOrder(d: Dict<Entry>, now: int)
    requires Valid(d) && Chronological(d)
    ensures Valid(PopStale(d, now)) && Chronological(PopStale(d, now))
    decreases |d.keys|
  {
    if d.keys != [] && IsStale(d, d.keys[0], now) {
      PopFirstIsValid(d);
      var p := PopFirst(d);
      forall i: nat | i < |p.keys| ensures At(p, i) == At(d, i + 1) {
        assert p.keys[i] == d.keys[i + 1] && p.keys[i] in p.keys;
      }
      PopStaleKeepsOrder(p, now);
    }
  }

  /**
   * The two steps that can disturb the order: an insertion whose key came back while the registration was waiting,
   * and a restore that puts an old durable entry back behind younger ones or over a newer one.
   */
  ghost predicate Orderly(s: State, step: Step)
    requires Valid(s.pending) && Enabled(s, step)
  {
    match step
    case Insert(b, _, _, _) => b in s.pending.vals ==> FitsBehind(s.pending, b, NewEntry(s, step))
    case ResumeInsert(t) => FitsBehind(s.pending, s.restoring[t].bearer, s.restoring[t].entry)
    case _ => true
  }

  lemma {:induction false} StepKeepsOrderIff(s: State, step: Step)
    requires Inv(s) && KvPast(s) && Enabled(s, step) && Chronological(s.pending)
    ensures Valid(Next(s, step).pending)
    ensures Chronological(Next(s, step).pending) <==> Orderly(s, step)
  {
    StepKeepsInv(s, step);
    match step
    case Pop(b) => RemoveKeepsOrder(s.pending, b);
    case SignedIn(t) => RemoveKeepsOrder(s.pending, s.signing[t].bearer);
    case Insert(b, _, _, _) =>
      PutKeepsOrderIff(s.pending, b, NewEntry(s, step));
      if s.pending.keys != [] {
        var last := s.pending.keys[|s.pending.keys| - 1];
        assert last in s.pending.keys;
      }
    case ResumeInsert(t) => PutKeepsOrderIff(s.pending, s.restoring[t].bearer, s.restoring[t].entry);
    case Cleanup => PopStaleKeepsOrder(s.pending, s.now);
    case _ =>
  }

  ghost predicate OrderlyRun(s: State, steps: seq<Step>)
    requires Inv(s) && KvPast(s) && ValidRun(s, steps)
    decreases |steps|
  {
    steps == [] || (
      Orderly(s, steps[0]) &&
      (StepKeepsInv(s, steps[0]); OrderlyRun(Next(s, steps[0]), steps[1..])))
  }

  lemma {:induction false} OrderlyRunIsChronological(s: State, steps: seq<Step>)
    requires Inv(s) && KvPast(s) && ValidRun(s, steps) && Chronological(s.pending) && OrderlyRun(s, steps)
    ensures Valid(Run(s, steps).pending) && Chronological(Run(s, steps).pending)
    decreases |steps|
  {
    if steps != [] {
      StepKeepsInv(s, steps[0]);
      StepKeepsOrderIff(s, steps[0]);
      OrderlyRunIsChronological(Next(s, steps[0]), steps[1..]);
    }
  }

  /**
   * Over every run whose insertions and resumptions fit, stopping at the first fresh entry leaves exactly what a
   * scan of every entry would leave.
   */
  lemma EarlyExitRefinesFullScan(durable: bool, steps: seq<Step>)
    requires ValidRun(Init(durable), steps) && OrderlyRun(Init(durable), steps)
    ensures var s := Run(Init(durable), steps); PopStale(s.pending, s.now) == FullScan(s.pending, s.now)
  {
    OrderlyRunIsChronological(Init(durable), steps);
    ChronologicalCleanup(Run(Init(durable), steps).pending, Run(Init(durable), steps).now);
  }

  /**
   * The order seen from the calls alone: nothing is restored, and nobody's registration is inserted a second time
   * before a pop of the first; `standing` are the users who may have an entry.
   */
  predicate PopsFirst(standing: set<string>, steps: seq<Step>)
    decreases |steps|
  {
    steps == [] ||
    match steps[0]
    case Insert(b, _, _, _) => b !in standing && PopsFirst(standing + {b}, steps[1..])
    case Pop(b) => PopsFirst(standing - {b}, steps[1..])
    case ResumeInsert(_) => false
    case Restart => PopsFirst({}, steps[1..])
    case _ => PopsFirst(standing, steps[1..])
  }

  lemma {:induction false} PopsFirstIsOrderly(s: State, standing: set<string>, steps: seq<Step>)
    requires Inv(s) && KvPast(s) && ValidRun(s, steps) && PopsFirst(standing, steps)
    requires forall b :: b in s.pending.vals ==> b in standing
    ensures OrderlyRun(s, steps)
    decreases |steps|
  {
    if steps != [] {
      StepKeepsInv(s, steps[0]);
      PopStaleIsFront(s.pending, s.now);
      var next := match steps[0]
        case Insert(b, _, _, _) => standing + {b}
        case Pop(b) => standing - {b}
        case Restart => {}
        case _ => standing;
      PopsFirstIsOrderly(Next(s, steps[0]), next, steps[1..]);
    }
  }

  /** So wherever registrations of one user do not overlap and nothing is restored, the early exit misses nothing. */
  lemma SeparateRegistrationsCleanUp(durable: bool, steps: seq<Step>)
    requires ValidRun(Init(durable), steps) && PopsFirst({}, steps)
    ensures var s := Run(Init(durable), steps); PopStale(s.pending, s.now) == FullScan(s.pending, s.now)
  {
    PopsFirstIsOrderly(Init(durable), {}, steps);
    EarlyExitRefinesFullScan(durable, steps);
  }

  // --- and the two ways the order is lost ---

  lemma FreshFrontStops(d: Dict<Entry>, now: int)
    requires d.keys != [] && !IsStale(d, d.keys[0], now)
    ensures PopStale(d, now) == d
  {
  }

  /** After a restart a restored entry goes to the back, behind a younger one, and cleanup never reaches it. */
  lemma ResumeHidesStale(s: State, a: string, b: string) returns (restored: State, late: State)
    requires s.durable && a != b && s.pending == Empty() && s.restoring == map[]
    requires Otp.LoadAnswer(s.kv, a, a, s.now).Some? && Otp.LoadAnswer(s.kv, a, a, s.now).value.createdAt < s.now
    ensures Enabled(Next(Next(s, Insert(b, "", "", "")), ResumeRead(0, a)), ResumeInsert(0))
    ensures restored == Next(Next(Next(s, Insert(b, "", "", "")), ResumeRead(0, a)), ResumeInsert(0))
    ensures late == Next(restored, Tick(s.now + Otp.OTP_TTL))
    ensures IsStale(late.pending, a, late.now) && Next(late, Cleanup).pending == late.pending
  {
    var e, young := Otp.LoadAnswer(s.kv, a, a, s.now).value, NewEntry(s, Insert(b, "", "", ""));
    var s1 := Next(s, Insert(b, "", "", ""));
    assert s1.pending == Dict([b], map[b := young]);
    Otp.SaveFinds(s.kv, b, b, young, a, a);
    assert Otp.LoadAnswer(s1.kv, a, a, s1.now) == Some(e);
    ReadsCopy(s1, 0, a);
    restored := Next(Next(s1, ResumeRead(0, a)), ResumeInsert(0));
    assert restored.pending == Dict([b, a], map[b := young, a := e]);
    late := Next(restored, Tick(s.now + Otp.OTP_TTL));
    FreshFrontStops(late.pending, late.now);
  }

  /** Two registrations for one user that overlap: the later insertion finds the key back and stays in front. */
  lemma OverlapHidesStale(s: State, a: string, b: string)
    requires Inv(s) && KvPast(s) && a != b && s.pending == Empty()
    ensures var s1 := Next(Next(s, Insert(a, "", "", "")), Insert(b, "", "", ""));
      var s2 := Next(Next(s1, Tick(s.now + 1)), Insert(a, "", "", ""));
      var s3 := Next(s2, Tick(s.now + Otp.OTP_TTL + 1));
      && IsStale(s3.pending, b, s3.now)
      && Next(s3, Cleanup).pending == s3.pending
  {
    var s1 := Next(Next(s, Insert(a, "", "", "")), Insert(b, "", "", ""));
    assert s1.pending.keys == [a, b];
    var s2 := Next(Next(s1, Tick(s.now + 1)), Insert(a, "", "", ""));
    assert s2.pending.keys == [a, b] && s2.pending.vals[a].createdAt == s.now + 1;
    var s3 := Next(s2, Tick(s.now + Otp.OTP_TTL + 1));
    assert !IsStale(s3.pending, a, s3.now);
  }

  // --- the provider as an object ---

  /** What a lookup leaves: the entry in memory, or restored if there is one and the connection succeeds. */
  function Restored(s: State, bearer: string, connected: bool): State
    requires s.restoring == map[]
  {
    var r := Next(s, ResumeRead(0, bearer));
    if 0 !in r.restoring then r else Next(r, if connected then ResumeInsert(0) else ResumeFails(0))
  }

  class TelegramAuthProvider {
    var pendingOtps: Dict<Entry>
    var stored: seq<Held>
    const pendingStore: Otp.PendingOtpStore?

    constructor (store: Otp.PendingOtpStore?)
      ensures pendingOtps == Empty() && stored == [] && pendingStore == store
    {
      pendingOtps, stored := Empty(), [];
      pendingStore := store;
    }

    /** The step model's view of this object at a given time. */
    ghost function Snapshot(now: int): State
      reads this, pendingStore
    {
      State(pendingOtps, pendingStore != null,
            if pendingStore != null then pendingStore.Snapshot() else Otp.Kv(map[], []), now, map[], map[], stored, {})
    }

    method RegisterPendingOtp(bearer: string, phone: string, hash: string, session: string, now: int)
      modifies this, pendingStore
      ensures Snapshot(now) == Next(Next(old(Snapshot(now)), Pop(bearer)), Insert(bearer, phone, hash, session))
      ensures bearer in pendingOtps.vals
      ensures var e := pendingOtps.vals[bearer];
        e.phone == phone && e.phoneCodeHash == hash && e.sessionName == session && e.createdAt == now
    {
      pendingOtps := Remove(pendingOtps, bearer);
      var e := Otp.Entry(phone, hash, session, now);
      pendingOtps := Put(pendingOtps, bearer, e);
      if pendingStore != null {
        pendingStore.SavePendingOtp(bearer, bearer, e);
      }
    }

    /** Returns the pending sign-in, from memory or restored from the durable copy, or nothing. */
    method FindPending(bearer: string, now: int, connected: bool) returns (r: Option<Entry>)
      modifies this, pendingStore
      ensures r == if connected || bearer in old(pendingOtps).vals then Resumed(old(Snapshot(now)), bearer) else None
      ensures Snapshot(now) == Restored(old(Snapshot(now)), bearer, connected)
      ensures bearer in old(pendingOtps).vals ==> r == Some(old(pendingOtps).vals[bearer]) && pendingOtps == old(pendingOtps)
    {
      if bearer in pendingOtps.vals {
        return Some(pendingOtps.vals[bearer]);
      }
      if pendingStore == null {
        return None;
      }
      r := pendingStore.LoadPendingOtp(bearer, bearer, now);
      if r.None? {
        return;
      }
      if !connected {
        assert map[0 := Held(bearer, r.value)] - {0} == map[];
        return None;
      }
      pendingOtps := Put(pendingOtps, bearer, r.value);
      assert map[0 := Held(bearer, r.value)] - {0} == map[];
    }

    /** A failed sign-in keeps the pending entry for another try; a successful one drops it everywhere. */
    method CompleteUserAuth(bearer: string, now: int, connected: bool, accepted: bool) returns (ok: bool)
      modifies this, pendingStore
      ensures ok == (accepted && Resumed(old(Snapshot(now)), bearer).Some? && (connected || bearer in old(pendingOtps).vals))
      ensures var found := Restored(old(Snapshot(now)), bearer, connected);
        Snapshot(now) == if ok then Next(Next(found, SignIn(0, bearer)), SignedIn(0)) else found
    {
      var pending := FindPending(bearer, now, connected);
      if pending.None? || !accepted {
        return false;
      }
      pendingOtps := Remove(pendingOtps, bearer);
      if pendingStore != null {
        var _ := pendingStore.DeletePendingOtp(bearer, bearer);
      }
      stored := stored + [Held(bearer, pending.value)];
      assert map[0 := Held(bearer, pending.value)] - {0} == map[];
      return true;
    }

    /** The loop of cleanup_expired: pops from the front, and stops at the first entry that is not stale. */
    method CleanupPending(now: int) returns (removed: nat)
      requires Valid(pendingOtps)
      modifies this
      ensures pendingOtps == PopStale(old(pendingOtps), now)
      ensures removed == |old(pendingOtps).keys| - |pendingOtps.keys|
      ensures Chronological(old(pendingOtps)) ==> pendingOtps == FullScan(old(pendingOtps), now)
      ensures forall k :: k in old(pendingOtps).vals && k !in pendingOtps.vals ==> now - old(pendingOtps).vals[k].createdAt > 300
      ensures Chronological(old(pendingOtps)) ==> forall k :: k in pendingOtps.vals ==> now - pendingOtps.vals[k].createdAt <= 300
    {
      PopStaleIsFront(pendingOtps, now);
      if Chronological(pendingOtps) { ChronologicalCleanup(pendingOtps, now); }
      removed := 0;
      while |pendingOtps.keys| > 0
        invariant Valid(pendingOtps)
        invariant PopStale(pendingOtps, now) == PopStale(old(pendingOtps), now)
        invariant removed == |old(pendingOtps).keys| - |pendingOtps.keys|
        decreases |pendingOtps.keys|
      {
        var bearer := pendingOtps.keys[0];
        PopFirstIsValid(pendingOtps);
        if now - pendingOtps.vals[bearer].createdAt <= Otp.OTP_TTL {
          break;
        }
        pendingOtps := PopFirst(pendingOtps);
        removed := removed + 1;
      }
    }
  }
}
