/**
 * Pending one-time codes in the KV backend: per user a dictionary of entries, plus an index of the users that have
 * one. Entries live for 300 seconds.
 */
module PendingOtp {
  import opened Wrappers
  import opened OrderedDict

  const OTP_TTL := 300

  datatype Entry = Entry(phone: string, phoneCodeHash: string, sessionName: string, createdAt: int)

  datatype Kv = Kv(blobs: map<string, map<string, Entry>>, index: seq<string>)

  predicate Stale(e: Entry, now: int) {
    now - e.createdAt > OTP_TTL
  }

  function Find(kv: Kv, sub: string, bearer: string): Option<Entry> {
    if sub in kv.blobs && bearer in kv.blobs[sub] then Some(kv.blobs[sub][bearer]) else None
  }

  function Blob(kv: Kv, sub: string): map<string, Entry> {
    if sub in kv.blobs then kv.blobs[sub] else map[]
  }

  // --- the operations ---

  function Save(kv: Kv, sub: string, bearer: string, e: Entry): Kv {
    Kv(kv.blobs[sub := Blob(kv, sub)[bearer := e]], if sub in kv.index then kv.index else kv.index + [sub])
  }

  /** What is left of a user's entries is written back, or the blob and the index entry go. */
  function WriteBack(kv: Kv, sub: string, left: map<string, Entry>): Kv {
    if left != map[] then kv.(blobs := kv.blobs[sub := left])
    else Kv(kv.blobs - {sub}, Filter(kv.index, sub))
  }

  function Delete(kv: Kv, sub: string, bearer: string): Kv {
    if Find(kv, sub, bearer).None? then kv else WriteBack(kv, sub, kv.blobs[sub] - {bearer})
  }

  function LoadAnswer(kv: Kv, sub: string, bearer: string, now: int): Option<Entry> {
    var e := Find(kv, sub, bearer);
    if e.Some? && Stale(e.value, now) then None else e
  }

  function LoadNext(kv: Kv, sub: string, bearer: string, now: int): Kv {
    var e := Find(kv, sub, bearer);
    if e.Some? && Stale(e.value, now) then Delete(kv, sub, bearer) else kv
  }

  function Fresh(entries: map<string, Entry>, now: int): map<string, Entry> {
    map b | b in entries && !Stale(entries[b], now) :: entries[b]
  }

  /** What cleanup_expired does about one user, whose entries it has loaded. */
  function CleanOne(kv: Kv, sub: string, entries: map<string, Entry>, now: int): Kv {
    var left := Fresh(entries, now);
    if entries == map[] then kv.(index := Filter(kv.index, sub))
    else if left == entries then kv
    else WriteBack(kv, sub, left)
  }

  /** cleanup_expired over the users `subs`, in order. */
  function Cleaned(kv: Kv, subs: seq<string>, now: int): Kv {
    if subs == [] then kv
    else
      var sub := subs[|subs| - 1];
      CleanOne(Cleaned(kv, subs[..|subs| - 1], now), sub, Blob(kv, sub), now)
  }

  /** The entries that have outlived their 300 seconds. */
  function Expired(blobs: map<string, map<string, Entry>>, subs: seq<string>, now: int): set<(string, string)> {
    set s, b | s in subs && s in blobs && b in blobs[s] && Stale(blobs[s][b], now) :: (s, b)
  }

  /** The index names each user with a non-empty blob, once, and nobody else. */
  ghost predicate Indexed(kv: Kv) {
    && Distinct(kv.index)
    && (forall s :: s in kv.index <==> s in kv.blobs)
    && (forall s :: s in kv.blobs ==> kv.blobs[s] != map[])
  }

  class PendingOtpStore {
    var blobs: map<string, map<string, Entry>>
    var index: seq<string>

    ghost function Snapshot(): Kv
      reads this
    {
      Kv(blobs, index)
    }

    constructor ()
      ensures Snapshot() == Kv(map[], [])
    {
      blobs := map[];
      index := [];
    }

    method SavePendingOtp(sub: string, bearer: string, e: Entry)
      modifies this
      ensures Snapshot() == Save(old(Snapshot()), sub, bearer, e)
    {
      var existing := if sub in blobs then blobs[sub] else map[];
      existing := existing[bearer := e];
      blobs := blobs[sub := existing];
      var subs := index;
      if sub !in subs {
        subs := subs + [sub];
        index := subs;
      }
    }

    method LoadPendingOtp(sub: string, bearer: string, now: int) returns (r: Option<Entry>)
      modifies this
      ensures r == LoadAnswer(old(Snapshot()), sub, bearer, now)
      ensures r.Some? <==> sub in old(blobs) && bearer in old(blobs)[sub] && now - old(blobs)[sub][bearer].createdAt <= 300
      ensures r.Some? ==> r.value == old(blobs)[sub][bearer]
      ensures Snapshot() == LoadNext(old(Snapshot()), sub, bearer, now)
    {
      if sub !in blobs || bearer !in blobs[sub] {
        return None;
      }
      var entry := blobs[sub][bearer];
      if now - entry.createdAt > OTP_TTL {
        WriteLeft(sub, blobs[sub] - {bearer});
        return None;
      }
      return Some(entry);
    }

    method DeletePendingOtp(sub: string, bearer: string) returns (existed: bool)
      modifies this
      ensures existed == Find(old(Snapshot()), sub, bearer).Some?
      ensures Snapshot() == Delete(old(Snapshot()), sub, bearer)
    {
      if sub !in blobs || bearer !in blobs[sub] {
        return false;
      }
      WriteLeft(sub, blobs[sub] - {bearer});
      return true;
    }

    method WriteLeft(sub: string, left: map<string, Entry>)
      modifies this
      ensures Snapshot() == WriteBack(old(Snapshot()), sub, left)
    {
      if left != map[] {
        blobs := blobs[sub := left];
      } else {
        blobs := blobs - {sub};
        RemoveFromIndex(sub);
      }
    }

    method RemoveFromIndex(sub: string)
      modifies this`index
      ensures index == Filter(old(index), sub)
    {
      var subs := [];
      for i := 0 to |index|
        modifies {}
        invariant subs == Filter(index[..i], sub)
      {
        assert index[..i + 1] == index[..i] + [index[i]];
        FilterAppend(index[..i], [index[i]], sub);
        if index[i] != sub {
          subs := subs + [index[i]];
        }
      }
      assert index[..|index|] == index;
      index := subs;
    }

    method CleanUser(sub: string, existing: map<string, Entry>, now: int) returns (removed: nat)
      modifies this
      ensures Snapshot() == CleanOne(old(Snapshot()), sub, existing, now)
      ensures removed == |set b | b in existing && Stale(existing[b], now)|
    {
      if existing == map[] {
        RemoveFromIndex(sub);
        return 0;
      }
      var stale := StaleBearers(existing, now);
      StaleLeavesFresh(existing, stale, now);
      removed := |stale|;
      if removed == 0 {
        return;
      }
      WriteLeft(sub, existing - stale);
    }

    /** Removes exactly the expired entries and counts them; the users are a snapshot of the index. */
    method CleanupExpired(now: int) returns (removed: nat)
      requires Distinct(index)
      modifies this
      ensures Snapshot() == Cleaned(old(Snapshot()), old(index), now)
      ensures removed == |Expired(old(blobs), old(index), now)|
    {
      var subs := index;
      var existings := blobs;
      ghost var before := Snapshot();
      removed := 0;
      for i := 0 to |subs|
        invariant Snapshot() == Cleaned(before, subs[..i], now)
        invariant removed == |Expired(existings, subs[..i], now)|
      {
        var sub := subs[i];
        var existing := if sub in existings then existings[sub] else map[];
        CleanedStep(before, subs, i, now);
        ExpiredStep(existings, subs, i, now);
        var n := CleanUser(sub, existing, now);
        removed := removed + n;
      }
      assert subs[..|subs|] == subs;
    }
  }

  lemma CleanedStep(kv: Kv, subs: seq<string>, i: nat, now: int)
    requires i < |subs|
    ensures Cleaned(kv, subs[..i + 1], now) == CleanOne(Cleaned(kv, subs[..i], now), subs[i], Blob(kv, subs[i]), now)
  {
    assert subs[..i + 1][..i] == subs[..i];
  }

  method StaleBearers(existing: map<string, Entry>, now: int) returns (stale: set<string>)
    ensures stale == set b | b in existing && Stale(existing[b], now)
  {
    stale := {};
    var todo := existing.Keys;
    while todo != {}
      invariant todo <= existing.Keys
      invariant stale == set b | b in existing && b !in todo && Stale(existing[b], now)
    {
      var bearer :| bearer in todo;
      if now - existing[bearer].createdAt > OTP_TTL {
        stale := stale + {bearer};
      }
      todo := todo - {bearer};
    }
  }

  lemma StaleLeavesFresh(existing: map<string, Entry>, stale: set<string>, now: int)
    requires stale == set b | b in existing && Stale(existing[b], now)
    ensures existing - stale == Fresh(existing, now)
    ensures stale == {} <==> Fresh(existing, now) == existing
  {
    if stale != {} {
      var b :| b in stale;
      assert b in existing && b !in Fresh(existing, now);
    }
  }

  lemma {:induction false} PairsCount(sub: string, bearers: set<string>)
    ensures |set b | b in bearers :: (sub, b)| == |bearers|
  {
    var pairs := set b | b in bearers :: (sub, b);
    if bearers == {} {
      assert pairs == {};
    } else {
      var b :| b in bearers;
      PairsCount(sub, bearers - {b});
      var fewer := set c | c in bearers - {b} :: (sub, c);
      assert pairs == fewer + {(sub, b)};
    }
  }

  lemma ExpiredStep(blobs: map<string, map<string, Entry>>, subs: seq<string>, i: nat, now: int)
    requires i < |subs| && Distinct(subs)
    ensures var entries := if subs[i] in blobs then blobs[subs[i]] else map[];
      var stale := set b | b in entries && Stale(entries[b], now);
      |Expired(blobs, subs[..i + 1], now)| == |Expired(blobs, subs[..i], now)| + |stale|
  {
    var sub := subs[i];
    var entries := if sub in blobs then blobs[sub] else map[];
    var stale := set b | b in entries && Stale(entries[b], now);
    var pairs := set b | b in stale :: (sub, b);
    PairsCount(sub, stale);
    assert subs[..i + 1] == subs[..i] + [sub];
    assert sub !in subs[..i];
    assert Expired(blobs, subs[..i + 1], now) == Expired(blobs, subs[..i], now) + pairs;
    assert Expired(blobs, subs[..i], now) * pairs == {};
  }

  // --- the index ---

  lemma SaveKeepsIndexed(kv: Kv, sub: string, bearer: string, e: Entry)
    requires Indexed(kv)
    ensures Indexed(Save(kv, sub, bearer, e))
  {
    var n := Save(kv, sub, bearer, e);
    assert bearer in n.blobs[sub];
  }

  lemma WriteBackKeepsIndexed(kv: Kv, sub: string, left: map<string, Entry>)
    requires Indexed(kv) && sub in kv.blobs
    ensures Indexed(WriteBack(kv, sub, left))
  {
    FilterMembers(kv.index, sub);
    FilterDistinct(kv.index, sub);
  }

  lemma CleanOneStep(kv: Kv, sub: string, now: int)
    requires Indexed(kv)
    ensures var n := CleanOne(kv, sub, Blob(kv, sub), now);
      && Indexed(n)
      && (forall s :: Blob(n, s) == if s == sub then Fresh(Blob(kv, sub), now) else Blob(kv, s))
  {
    if sub in kv.blobs {
      WriteBackKeepsIndexed(kv, sub, Fresh(kv.blobs[sub], now));
    } else {
      FilterOfOther(kv.index, sub);
    }
  }

  /** Cleaning a distinct list of users leaves each of them the fresh entries, and everybody else alone. */
  lemma {:induction false} CleanedSoFar(kv: Kv, subs: seq<string>, now: int)
    requires Indexed(kv) && Distinct(subs)
    ensures var n := Cleaned(kv, subs, now);
      Indexed(n) && forall s :: Blob(n, s) == if s in subs then Fresh(Blob(kv, s), now) else Blob(kv, s)
  {
    if subs != [] {
      var front, sub := subs[..|subs| - 1], subs[|subs| - 1];
      assert subs == front + [sub] && sub !in front;
      CleanedSoFar(kv, front, now);
      CleanOneStep(Cleaned(kv, front, now), sub, now);
    }
  }

  lemma FindInBlob(kv: Kv, sub: string, bearer: string)
    ensures Find(kv, sub, bearer) == if bearer in Blob(kv, sub) then Some(Blob(kv, sub)[bearer]) else None
  {
  }

  /** cleanup_expired keeps exactly the fresh entries, of every user. */
  lemma CleanedFinds(kv: Kv, now: int, sub: string, bearer: string)
    requires Indexed(kv)
    ensures var n := Cleaned(kv, kv.index, now);
      var e := Find(kv, sub, bearer);
      Indexed(n) && Find(n, sub, bearer) == if e.Some? && Stale(e.value, now) then None else e
  {
    CleanedSoFar(kv, kv.index, now);
    var n := Cleaned(kv, kv.index, now);
    FindInBlob(n, sub, bearer);
    FindInBlob(kv, sub, bearer);
    assert Blob(n, sub) == Fresh(Blob(kv, sub), now);
  }

  // --- whole runs ---

  /** Each operation happens at a time; the clock does not run backwards. */
  datatype Op =
    | OpSave(sub: string, bearer: string, e: Entry)
    | OpLoad(sub: string, bearer: string)
    | OpDelete(sub: string, bearer: string)
    | OpCleanup

  datatype Timed = Timed(op: Op, now: int)

  function Next(kv: Kv, t: Timed): Kv {
    match t.op
    case OpSave(s, b, e) => Save(kv, s, b, e)
    case OpLoad(s, b) => LoadNext(kv, s, b, t.now)
    case OpDelete(s, b) => Delete(kv, s, b)
    case OpCleanup => Cleaned(kv, kv.index, t.now)
  }

  function Answer(kv: Kv, t: Timed): Option<Entry> {
    if t.op.OpLoad? then LoadAnswer(kv, t.op.sub, t.op.bearer, t.now) else None
  }

  function Run(kv: Kv, ops: seq<Timed>): Kv
    decreases |ops|
  {
    if ops == [] then kv else Run(Next(kv, ops[0]), ops[1..])
  }

  function Answers(kv: Kv, ops: seq<Timed>): seq<Option<Entry>>
    decreases |ops|
  {
    if ops == [] then [] else [Answer(kv, ops[0])] + Answers(Next(kv, ops[0]), ops[1..])
  }

  predicate Ticking(from: int, ops: seq<Timed>)
    decreases |ops|
  {
    ops == [] || (from <= ops[0].now && Ticking(ops[0].now, ops[1..]))
  }

  lemma StepKeepsIndexed(kv: Kv, t: Timed)
    requires Indexed(kv)
    ensures Indexed(Next(kv, t))
  {
    match t.op
    case OpSave(s, b, e) => SaveKeepsIndexed(kv, s, b, e);
    case OpLoad(s, b) => if s in kv.blobs { WriteBackKeepsIndexed(kv, s, kv.blobs[s] - {b}); }
    case OpDelete(s, b) => if s in kv.blobs { WriteBackKeepsIndexed(kv, s, kv.blobs[s] - {b}); }
    case OpCleanup => CleanedFinds(kv, t.now, "", "");
  }

  /** After any run from an empty backend the index is right. */
  lemma {:induction false} RunKeepsIndexed(kv: Kv, ops: seq<Timed>)
    requires Indexed(kv)
    ensures Indexed(Run(kv, ops))
    decreases |ops|
  {
    if ops != [] {
      StepKeepsIndexed(kv, ops[0]);
      RunKeepsIndexed(Next(kv, ops[0]), ops[1..]);
    }
  }

  /** Two backends hold the same entries, as far as the clock still lets anybody see them. */
  ghost predicate SameVisible(a: Kv, b: Kv, now: int) {
    forall sub, bearer :: LoadAnswer(a, sub, bearer, now) == LoadAnswer(b, sub, bearer, now)
  }

  lemma SaveFinds(kv: Kv, s: string, b: string, e: Entry, sub: string, bearer: string)
    ensures Find(Save(kv, s, b, e), sub, bearer) == if sub == s && bearer == b then Some(e) else Find(kv, sub, bearer)
  {
  }

  lemma DeleteFinds(kv: Kv, s: string, b: string, sub: string, bearer: string)
    ensures Find(Delete(kv, s, b), sub, bearer) == if sub == s && bearer == b then None else Find(kv, sub, bearer)
  {
    if Find(kv, s, b).Some? && sub == s {
      assert bearer in kv.blobs[s] - {b} <==> bearer in kv.blobs[s] && bearer != b;
    }
  }

  /**
   * What a load leaves behind: an entry older than 300 seconds is gone, with its blob and its index entry when it was
   * the user's last; nothing else changes. A save and a delete are as visible and leave the index right too.
   */
  lemma {:induction false} OperationsLeave(kv: Kv, s: string, b: string, e: Entry, now: int, sub: string, bearer: string)
    requires Indexed(kv)
    ensures Indexed(LoadNext(kv, s, b, now)) && Indexed(Save(kv, s, b, e)) && Indexed(Delete(kv, s, b))
    ensures var found, here := Find(kv, sub, bearer), sub == s && bearer == b;
      && Find(LoadNext(kv, s, b, now), sub, bearer)
         == (if here && found.Some? && now - found.value.createdAt > 300 then None else found)
      && Find(Save(kv, s, b, e), sub, bearer) == (if here then Some(e) else found)
      && Find(Delete(kv, s, b), sub, bearer) == (if here then None else found)
  {
    StepKeepsIndexed(kv, Timed(OpLoad(s, b), now));
    StepKeepsIndexed(kv, Timed(OpSave(s, b, e), now));
    StepKeepsIndexed(kv, Timed(OpDelete(s, b), now));
    SaveFinds(kv, s, b, e, sub, bearer);
    DeleteFinds(kv, s, b, sub, bearer);
  }

  lemma StepKeepsSame(a: Kv, b: Kv, t: Timed)
    requires Indexed(a) && Indexed(b) && SameVisible(a, b, t.now)
    ensures SameVisible(Next(a, t), Next(b, t), t.now)
  {
    forall sub, bearer
      ensures LoadAnswer(Next(a, t), sub, bearer, t.now) == LoadAnswer(Next(b, t), sub, bearer, t.now)
    {
      assert LoadAnswer(a, sub, bearer, t.now) == LoadAnswer(b, sub, bearer, t.now);
      match t.op
      case OpSave(s, c, e) => SaveFinds(a, s, c, e, sub, bearer); SaveFinds(b, s, c, e, sub, bearer);
      case OpLoad(s, c) => DeleteFinds(a, s, c, sub, bearer); DeleteFinds(b, s, c, sub, bearer);
      case OpDelete(s, c) => DeleteFinds(a, s, c, sub, bearer); DeleteFinds(b, s, c, sub, bearer);
      case OpCleanup => CleanedFinds(a, t.now, sub, bearer); CleanedFinds(b, t.now, sub, bearer);
    }
  }

  /** What one clock reading hides, every later one hides. */
  lemma SameVisibleLater(a: Kv, b: Kv, now: int, later: int)
    requires SameVisible(a, b, now) && now <= later
    ensures SameVisible(a, b, later)
  {
    forall sub, bearer ensures LoadAnswer(a, sub, bearer, later) == LoadAnswer(b, sub, bearer, later) {
      assert LoadAnswer(a, sub, bearer, now) == LoadAnswer(b, sub, bearer, now);
    }
  }

  lemma {:induction false} SameVisibleSameAnswers(a: Kv, b: Kv, now: int, ops: seq<Timed>)
    requires Indexed(a) && Indexed(b) && SameVisible(a, b, now) && Ticking(now, ops)
    ensures Answers(a, ops) == Answers(b, ops)
    decreases |ops|
  {
    if ops != [] {
      var t := ops[0];
      SameVisibleLater(a, b, now, t.now);
      StepKeepsSame(a, b, t);
      StepKeepsIndexed(a, t);
      StepKeepsIndexed(b, t);
      SameVisibleSameAnswers(Next(a, t), Next(b, t), t.now, ops[1..]);
    }
  }

  /** No later load, whatever happens in between, can tell whether a cleanup ran. */
  lemma {:induction false} CleanupIsInvisible(kv: Kv, now: int, ops: seq<Timed>)
    requires Indexed(kv) && Ticking(now, ops)
    ensures Answers(Cleaned(kv, kv.index, now), ops) == Answers(kv, ops)
  {
    var n := Cleaned(kv, kv.index, now);
    forall sub, bearer ensures LoadAnswer(n, sub, bearer, now) == LoadAnswer(kv, sub, bearer, now) {
      CleanedFinds(kv, now, sub, bearer);
    }
    CleanedFinds(kv, now, "", "");
    SameVisibleSameAnswers(n, kv, now, ops);
  }
}
