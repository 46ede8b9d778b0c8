/**
 * The durable session store of multi-user mode: one blob per user plus an index of users, written one after the
 * other, against the in-memory dictionary it replaces.
 */
module SessionStores {
  import opened Wrappers
  import opened OrderedDict

  datatype SessionInfo = SessionInfo(sessionName: string, bot: bool, createdAt: int)

  datatype Op = Store(bearer: string, info: SessionInfo) | Load(bearer: string) | LoadAll | HasAny | Delete(bearer: string)

  datatype Answer = Done | Info(info: Option<SessionInfo>) | All(all: Dict<SessionInfo>) | Truth(value: bool)

  // --- the in-memory store ---

  function MemoryAnswer(d: Dict<SessionInfo>, op: Op): Answer {
    match op
    case Store(_, _) => Done
    case Load(b) => Info(Get(d, b))
    case LoadAll => All(d)
    case HasAny => Truth(d.keys != [])
    case Delete(b) => Truth(b in d.vals)
  }

  function MemoryNext(d: Dict<SessionInfo>, op: Op): Dict<SessionInfo> {
    match op
    case Store(b, info) => Put(d, b, info)
    case Delete(b) => if b in d.vals then Remove(d, b) else d
    case _ => d
  }

  class InMemorySessionStore {
    var store: Dict<SessionInfo>

    constructor ()
      ensures store == Empty()
    {
      store := Empty();
    }

    method StoreSession(bearer: string, info: SessionInfo)
      modifies this
      ensures store == MemoryNext(old(store), Store(bearer, info))
    {
      store := Put(store, bearer, info);
    }

    method LoadSession(bearer: string) returns (r: Option<SessionInfo>)
      ensures Info(r) == MemoryAnswer(store, Load(bearer))
    {
      r := if bearer in store.vals then Some(store.vals[bearer]) else None;
    }

    method HasAnySession() returns (r: bool)
      ensures Truth(r) == MemoryAnswer(store, HasAny)
    {
      r := |store.keys| > 0;
    }

    method DeleteSession(bearer: string) returns (existed: bool)
      modifies this
      ensures Truth(existed) == MemoryAnswer(old(store), Delete(bearer))
      ensures store == MemoryNext(old(store), Delete(bearer))
    {
      if bearer !in store.vals {
        return false;
      }
      store := Remove(store, bearer);
      return true;
    }
  }

  // --- the KV store ---

  /** What the KV backend holds: the users' blobs and the index blob. */
  datatype Kv = Kv(blobs: map<string, SessionInfo>, index: seq<string>)

  /** The backend's writes, each atomic; a process can die between any two. */
  datatype Write = SaveBlob(sub: string, info: SessionInfo) | ClearBlob(sub: string) | SaveIndex(index: seq<string>)

  function Apply(kv: Kv, w: Write): Kv {
    match w
    case SaveBlob(sub, info) => kv.(blobs := kv.blobs[sub := info])
    case ClearBlob(sub) => kv.(blobs := kv.blobs - {sub})
    case SaveIndex(index) => kv.(index := index)
  }

  function ApplyAll(kv: Kv, ws: seq<Write>): Kv
    decreases |ws|
  {
    if ws == [] then kv else ApplyAll(Apply(kv, ws[0]), ws[1..])
  }

  /** The writes of an operation, in the order the code makes them. */
  function Writes(kv: Kv, op: Op): seq<Write> {
    match op
    case Store(b, info) => [SaveBlob(b, info)] + if b in kv.index then [] else [SaveIndex(kv.index + [b])]
    case Delete(b) => if b in kv.blobs then [SaveIndex(Filter(kv.index, b)), ClearBlob(b)] else []
    case _ => []
  }

  function Listed(subs: seq<string>, blobs: map<string, SessionInfo>): Dict<SessionInfo> {
    if subs == [] then Empty()
    else
      var d := Listed(subs[..|subs| - 1], blobs);
      var sub := subs[|subs| - 1];
      if sub in blobs then Put(d, sub, blobs[sub]) else d
  }

  function KvAnswer(kv: Kv, op: Op): Answer {
    match op
    case Store(_, _) => Done
    case Load(b) => Info(if b in kv.blobs then Some(kv.blobs[b]) else None)
    case LoadAll => All(Listed(kv.index, kv.blobs))
    case HasAny => Truth(kv.index != [])
    case Delete(b) => Truth(b in kv.blobs)
  }

  function KvNext(kv: Kv, op: Op): Kv {
    ApplyAll(kv, Writes(kv, op))
  }

  lemma ApplyOne(kv: Kv, w: Write)
    ensures ApplyAll(kv, [w]) == Apply(kv, w)
  {
    assert [w][1..] == [];
  }

  lemma ApplyTwo(kv: Kv, v: Write, w: Write)
    ensures ApplyAll(kv, [v, w]) == Apply(Apply(kv, v), w)
  {
    assert [v, w][1..] == [w];
    ApplyOne(Apply(kv, v), w);
  }

  lemma StoreApplies(kv: Kv, b: string, info: SessionInfo)
    ensures KvNext(kv, Store(b, info)) == Kv(kv.blobs[b := info], if b in kv.index then kv.index else kv.index + [b])
  {
    ApplyOne(kv, SaveBlob(b, info));
    ApplyTwo(kv, SaveBlob(b, info), SaveIndex(kv.index + [b]));
    if b in kv.index { assert Writes(kv, Store(b, info)) == [SaveBlob(b, info)]; }
  }

  lemma DeleteApplies(kv: Kv, b: string)
    requires b in kv.blobs
    ensures KvNext(kv, Delete(b)) == Kv(kv.blobs - {b}, Filter(kv.index, b))
  {
    ApplyTwo(kv, SaveIndex(Filter(kv.index, b)), ClearBlob(b));
  }

  class KvSessionStore {
    var blobs: map<string, SessionInfo>
    var index: seq<string>

    ghost function Snapshot(): Kv
      reads this
    {
      Kv(blobs, index)
    }

    constructor ()
      ensures Snapshot() == Kv(map[], [])
    {
      blobs := map[];
      index := [];
    }

    method StoreSession(bearer: string, info: SessionInfo)
      modifies this
      ensures Snapshot() == KvNext(old(Snapshot()), Store(bearer, info))
    {
      blobs := blobs[bearer := info];
      var subs := index;
      if bearer !in subs {
        subs := subs + [bearer];
        index := subs;
      }
      StoreApplies(old(Snapshot()), bearer, info);
    }

    method LoadSession(bearer: string) returns (r: Option<SessionInfo>)
      ensures Info(r) == KvAnswer(Snapshot(), Load(bearer))
    {
      r := if bearer in blobs then Some(blobs[bearer]) else None;
    }

    method LoadAllSessions() returns (r: Dict<SessionInfo>)
      ensures All(r) == KvAnswer(Snapshot(), LoadAll)
    {
      var subs := index;
      r := Empty();
      for i := 0 to |subs|
        invariant r == Listed(subs[..i], blobs)
      {
        assert subs[..i + 1][..i] == subs[..i];
        var info := LoadSession(subs[i]);
        if info.Some? {
          r := Put(r, subs[i], info.value);
        }
      }
      assert subs[..|subs|] == subs;
    }

    method HasAnySession() returns (r: bool)
      ensures Truth(r) == KvAnswer(Snapshot(), HasAny)
    {
      r := |index| > 0;
    }

    method DeleteSession(bearer: string) returns (existed: bool)
      modifies this
      ensures Truth(existed) == KvAnswer(old(Snapshot()), Delete(bearer))
      ensures Snapshot() == KvNext(old(Snapshot()), Delete(bearer))
    {
      var existing := LoadSession(bearer);
      if existing.None? {
        return false;
      }
      var subs := [];
      for i := 0 to |index|
        modifies {}
        invariant subs == Filter(index[..i], bearer)
      {
        assert index[..i + 1] == index[..i] + [index[i]];
        FilterAppend(index[..i], [index[i]], bearer);
        if index[i] != bearer {
          subs := subs + [index[i]];
        }
      }
      assert index[..|index|] == index;
      DeleteApplies(Snapshot(), bearer);
      index := subs;
      blobs := blobs - {bearer};
      return true;
    }
  }

  // --- refinement ---

  /** The KV store and the dictionary hold the same sessions in the same order. */
  ghost predicate Agree(kv: Kv, d: Dict<SessionInfo>) {
    Valid(d) && kv.index == d.keys && kv.blobs == d.vals
  }

  lemma {:induction false} ListedIsAll(subs: seq<string>, blobs: map<string, SessionInfo>)
    requires Distinct(subs) && forall k :: k in subs ==> k in blobs
    ensures Listed(subs, blobs).keys == subs
    ensures Listed(subs, blobs).vals == map k | k in subs :: blobs[k]
  {
    if subs != [] {
      var front, last := subs[..|subs| - 1], subs[|subs| - 1];
      assert last in subs && subs == front + [last];
      assert forall k :: k in front ==> k in subs;
      ListedIsAll(front, blobs);
      assert last !in front;
      assert Listed(subs, blobs) == Put(Listed(front, blobs), last, blobs[last]);
    }
  }

  /** One operation: the same answer, and agreement again. */
  lemma OpAgrees(kv: Kv, d: Dict<SessionInfo>, op: Op)
    requires Agree(kv, d)
    ensures KvAnswer(kv, op) == MemoryAnswer(d, op)
    ensures Agree(KvNext(kv, op), MemoryNext(d, op))
  {
    match op
    case LoadAll =>
      ListedIsAll(kv.index, kv.blobs);
      assert Listed(kv.index, kv.blobs).vals == d.vals;
    case Store(b, info) => PutIsValid(d, b, info); StoreApplies(kv, b, info);
    case Delete(b) => if b in d.vals { RemoveIsValid(d, b); DeleteApplies(kv, b); }
    case _ =>
  }

  function KvRun(kv: Kv, ops: seq<Op>): seq<Answer>
    decreases |ops|
  {
    if ops == [] then [] else [KvAnswer(kv, ops[0])] + KvRun(KvNext(kv, ops[0]), ops[1..])
  }

  function MemoryRun(d: Dict<SessionInfo>, ops: seq<Op>): seq<Answer>
    decreases |ops|
  {
    if ops == [] then [] else [MemoryAnswer(d, ops[0])] + MemoryRun(MemoryNext(d, ops[0]), ops[1..])
  }

  /** On every sequence of operations the two stores give the same answers, load_all's order included. */
  lemma {:induction false} KvRefinesMemory(kv: Kv, d: Dict<SessionInfo>, ops: seq<Op>)
    requires Agree(kv, d)
    ensures KvRun(kv, ops) == MemoryRun(d, ops)
    decreases |ops|
  {
    if ops != [] {
      OpAgrees(kv, d, ops[0]);
      KvRefinesMemory(KvNext(kv, ops[0]), MemoryNext(d, ops[0]), ops[1..]);
    }
  }

  // --- what the answers are, by the history alone ---

  /** What was stored for a user last, unless it was deleted since. */
  function LastStored(ops: seq<Op>, b: string): Option<SessionInfo> {
    if ops == [] then None
    else
      var last := ops[|ops| - 1];
      if last.Store? && last.bearer == b then Some(last.info)
      else if last.Delete? && last.bearer == b then None
      else LastStored(ops[..|ops| - 1], b)
  }

  /** When the user's present session was first stored: the first store after the last deletion. */
  function Since(ops: seq<Op>, b: string): (n: nat)
    requires LastStored(ops, b).Some?
    ensures n < |ops|
  {
    var front, last := ops[..|ops| - 1], ops[|ops| - 1];
    if last.Store? && last.bearer == b && LastStored(front, b).None? then |front| else Since(front, b)
  }

  function MemoryAfter(ops: seq<Op>): Dict<SessionInfo> {
    if ops == [] then Empty() else MemoryNext(MemoryAfter(ops[..|ops| - 1]), ops[|ops| - 1])
  }

  function KvAfter(ops: seq<Op>): Kv {
    if ops == [] then Kv(map[], []) else KvNext(KvAfter(ops[..|ops| - 1]), ops[|ops| - 1])
  }

  /** The keys are those with a session, in the order of its first store. */
  ghost predicate TellsHistory(d: Dict<SessionInfo>, ops: seq<Op>) {
    && Valid(d)
    && (forall b :: Get(d, b) == LastStored(ops, b))
    && (forall i :: 0 <= i < |d.keys| ==> LastStored(ops, d.keys[i]).Some?)
    && (forall i, j :: 0 <= i < j < |d.keys| ==> Earlier(ops, d.keys[i], d.keys[j]))
  }

  predicate Earlier(ops: seq<Op>, b: string, c: string) {
    LastStored(ops, b).Some? && LastStored(ops, c).Some? && Since(ops, b) < Since(ops, c)
  }

  lemma {:induction false} StoreTells(d: Dict<SessionInfo>, front: seq<Op>, b: string, info: SessionInfo)
    requires TellsHistory(d, front)
    ensures TellsHistory(Put(d, b, info), front + [Store(b, info)])
  {
    var ops, n := front + [Store(b, info)], Put(d, b, info);
    assert ops[..|ops| - 1] == front;
    PutIsValid(d, b, info);
    assert Get(d, b) == LastStored(front, b);
    forall c ensures Get(n, c) == LastStored(ops, c) { assert Get(d, c) == LastStored(front, c); }
    forall i | 0 <= i < |n.keys| ensures LastStored(ops, n.keys[i]).Some? {
      assert n.keys[i] in n.keys;
    }
    forall i, j | 0 <= i < j < |n.keys| ensures Earlier(ops, n.keys[i], n.keys[j]) {
      if j < |d.keys| {
        assert Earlier(front, d.keys[i], d.keys[j]);
        assert d.keys[i] in d.keys && d.keys[j] in d.keys;
      } else {
        assert LastStored(front, d.keys[i]).Some?;
        assert d.keys[i] in d.keys;
      }
    }
  }

  lemma DeleteTells(d: Dict<SessionInfo>, front: seq<Op>, b: string)
    requires TellsHistory(d, front) && b in d.vals
    ensures TellsHistory(Remove(d, b), front + [Delete(b)])
  {
    var ops, n := front + [Delete(b)], Remove(d, b);
    assert ops[..|ops| - 1] == front;
    RemoveIsValid(d, b);
    FilterMembers(d.keys, b);
    forall c ensures Get(n, c) == LastStored(ops, c) { assert Get(d, c) == LastStored(front, c); }
    forall i | 0 <= i < |n.keys| ensures LastStored(ops, n.keys[i]).Some? {
      assert n.keys[i] in n.keys;
    }
    forall i, j | 0 <= i < j < |n.keys| ensures Earlier(ops, n.keys[i], n.keys[j]) {
      var p, q := FilterKeepsPlaces(d.keys, b, i, j);
      assert Earlier(front, d.keys[p], d.keys[q]);
      assert n.keys[i] in n.keys && n.keys[j] in n.keys;
    }
  }

  lemma OtherTells(d: Dict<SessionInfo>, front: seq<Op>, op: Op)
    requires TellsHistory(d, front) && !op.Store? && (op.Delete? ==> op.bearer !in d.vals)
    ensures TellsHistory(d, front + [op])
  {
    var ops := front + [op];
    assert ops[..|ops| - 1] == front;
    if op.Delete? { assert Get(d, op.bearer) == LastStored(front, op.bearer); }
    forall c ensures LastStored(ops, c) == LastStored(front, c) && (LastStored(front, c).Some? ==> Since(ops, c) == Since(front, c)) {
    }
    forall i, j | 0 <= i < j < |d.keys| ensures Earlier(ops, d.keys[i], d.keys[j]) {
      assert Earlier(front, d.keys[i], d.keys[j]);
    }
  }

  lemma {:induction false} MemoryTellsHistory(ops: seq<Op>)
    ensures TellsHistory(MemoryAfter(ops), ops)
  {
    if ops != [] {
      var front, last := ops[..|ops| - 1], ops[|ops| - 1];
      var d := MemoryAfter(front);
      MemoryTellsHistory(front);
      assert ops == front + [last];
      match last
      case Store(b, info) => StoreTells(d, front, b, info);
      case Delete(b) => if b in d.vals { DeleteTells(d, front, b); } else { OtherTells(d, front, last); }
      case _ => OtherTells(d, front, last);
    }
  }

  lemma {:induction false} AfterAgree(ops: seq<Op>)
    ensures Agree(KvAfter(ops), MemoryAfter(ops))
  {
    if ops != [] {
      AfterAgree(ops[..|ops| - 1]);
      OpAgrees(KvAfter(ops[..|ops| - 1]), MemoryAfter(ops[..|ops| - 1]), ops[|ops| - 1]);
    }
  }

  /**
   * After any operations the KV store loads for each user what was stored for that user last, and nothing if it was
   * deleted since; it lists exactly the users with such a session, in the order in which these sessions were first
   * stored; it has any if it lists any; and a deletion says whether there was one.
   */
  lemma {:induction false} KvTellsHistory(ops: seq<Op>, b: string)
    ensures KvAnswer(KvAfter(ops), Load(b)) == Info(LastStored(ops, b))
    ensures KvAnswer(KvAfter(ops), Delete(b)) == Truth(LastStored(ops, b).Some?)
    ensures var listed := KvAnswer(KvAfter(ops), LoadAll);
      listed.All? && TellsHistory(listed.all, ops) && KvAnswer(KvAfter(ops), HasAny) == Truth(listed.all.keys != [])
  {
    AfterAgree(ops);
    MemoryTellsHistory(ops);
    var kv, d := KvAfter(ops), MemoryAfter(ops);
    OpAgrees(kv, d, LoadAll);
    assert Get(d, b) == LastStored(ops, b);
  }

  // --- dying inside an operation ---

  /** No user is listed whose blob is missing, or twice. */
  ghost predicate NoDangling(kv: Kv) {
    Distinct(kv.index) && forall k :: k in kv.index ==> k in kv.blobs
  }

  /** Operations, each carried out up to some of its writes before the process died and another took over. */
  datatype Attempt = Attempt(op: Op, writes: nat)

  function Attempted(kv: Kv, a: Attempt): Kv {
    var ws := Writes(kv, a.op);
    ApplyAll(kv, if a.writes < |ws| then ws[..a.writes] else ws)
  }

  function AttemptAll(kv: Kv, attempts: seq<Attempt>): Kv
    decreases |attempts|
  {
    if attempts == [] then kv else AttemptAll(Attempted(kv, attempts[0]), attempts[1..])
  }

  lemma AttemptKeepsNoDangling(kv: Kv, a: Attempt)
    requires NoDangling(kv)
    ensures NoDangling(Attempted(kv, a))
  {
    var ws := Writes(kv, a.op);
    var done := if a.writes < |ws| then ws[..a.writes] else ws;
    AttemptStates(kv, a.op, done);
    if a.op.Delete? {
      FilterMembers(kv.index, a.op.bearer);
      FilterDistinct(kv.index, a.op.bearer);
    }
  }

  /** The states an operation can be cut off in. */
  lemma AttemptStates(kv: Kv, op: Op, done: seq<Write>)
    requires done <= Writes(kv, op)
    ensures var t := ApplyAll(kv, done);
      match op
      case Store(b, info) =>
        t == kv || t == kv.(blobs := kv.blobs[b := info]) ||
        (b !in kv.index && t == Kv(kv.blobs[b := info], kv.index + [b]))
      case Delete(b) =>
        t == kv || t == kv.(index := Filter(kv.index, b)) || t == Kv(kv.blobs - {b}, Filter(kv.index, b))
      case _ => t == kv
  {
    var ws := Writes(kv, op);
    if |done| == 1 {
      ApplyOne(kv, ws[0]);
      assert done == [ws[0]];
    } else if |done| == 2 {
      ApplyTwo(kv, ws[0], ws[1]);
      assert done == [ws[0], ws[1]];
    }
  }

  /** Over every history of operations and deaths, the index names only users whose blob exists, each once. */
  lemma {:induction false} CrashesNeverDangle(kv: Kv, attempts: seq<Attempt>)
    requires NoDangling(kv)
    ensures NoDangling(AttemptAll(kv, attempts))
    decreases |attempts|
  {
    if attempts != [] {
      AttemptKeepsNoDangling(kv, attempts[0]);
      CrashesNeverDangle(Attempted(kv, attempts[0]), attempts[1..]);
    }
  }

  /** What the listing shows after a death is what it showed before the operation or what it would show after it. */
  lemma CrashIsAllOrNothing(kv: Kv, a: Attempt)
    requires NoDangling(kv)
    ensures var t := Attempted(kv, a);
      || KvAnswer(t, LoadAll) == KvAnswer(kv, LoadAll)
      || KvAnswer(t, LoadAll) == KvAnswer(KvNext(kv, a.op), LoadAll)
  {
    var ws := Writes(kv, a.op);
    AttemptStates(kv, a.op, if a.writes < |ws| then ws[..a.writes] else ws);
    match a.op
    case Store(b, info) =>
      if b !in kv.index {
        ListedIgnores(kv.index, kv.blobs, kv.blobs[b := info]);
      }
    case Delete(b) =>
      if b in kv.blobs {
        DeleteApplies(kv, b);
        FilterMembers(kv.index, b);
        ListedIgnores(Filter(kv.index, b), kv.blobs, kv.blobs - {b});
      }
    case _ =>
  }

  /** A listing depends only on the blobs it lists. */
  lemma {:induction false} ListedIgnores(subs: seq<string>, a: map<string, SessionInfo>, b: map<string, SessionInfo>)
    requires forall k :: k in subs ==> (k in a <==> k in b) && (k in a ==> a[k] == b[k])
    ensures Listed(subs, a) == Listed(subs, b)
  {
    if subs != [] {
      var last := subs[|subs| - 1];
      assert last in subs;
      assert forall k :: k in subs[..|subs| - 1] ==> k in subs;
      ListedIgnores(subs[..|subs| - 1], a, b);
    }
  }

  /** Repeating the operation that was cut off completes it. */
  lemma RetryCompletes(kv: Kv, a: Attempt)
    requires NoDangling(kv) && (a.op.Store? || a.op.Delete?)
    ensures KvNext(Attempted(kv, a), a.op) == KvNext(kv, a.op)
  {
    var ws := Writes(kv, a.op);
    AttemptStates(kv, a.op, if a.writes < |ws| then ws[..a.writes] else ws);
    match a.op
    case Store(b, info) =>
      StoreApplies(kv, b, info);
      StoreApplies(Attempted(kv, a), b, info);
      assert kv.blobs[b := info][b := info] == kv.blobs[b := info];
    case Delete(b) =>
      if b in kv.blobs {
        DeleteApplies(kv, b);
        FilterMembers(kv.index, b);
        FilterOfOther(Filter(kv.index, b), b);
        if b in Attempted(kv, a).blobs {
          DeleteApplies(Attempted(kv, a), b);
        }
      }
  }

  /**
   * A death can leave a session that load finds and the listing omits; it does so exactly when it fell between the
   * two writes of an operation: a new user's blob without its index entry, or a delisted user's blob.
   */
  lemma OrphanIffBetweenWrites(kv: Kv, a: Attempt)
    requires NoDangling(kv) && (forall k :: k in kv.blobs ==> k in kv.index)
    ensures var t := Attempted(kv, a);
      (exists k :: k in t.blobs && k !in t.index) <==> a.writes == 1 && |Writes(kv, a.op)| == 2
  {
    var ws := Writes(kv, a.op);
    var t := Attempted(kv, a);
    if a.writes == 1 && |ws| == 2 {
      assert ws[..1] == [ws[0]];
      ApplyOne(kv, ws[0]);
      var b := a.op.bearer;
      FilterMembers(kv.index, b);
      assert b in t.blobs && b !in t.index;
    } else if a.writes == 0 {
      assert ws[..0] == [] && t == kv;
    } else {
      assert ws[..|ws|] == ws;
      match a.op
      case Store(b, info) => StoreApplies(kv, b, info);
      case Delete(b) => if b in kv.blobs { DeleteApplies(kv, b); FilterMembers(kv.index, b); }
      case _ =>
    }
  }
}
