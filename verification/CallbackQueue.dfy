/**
 * Delivery of button presses in queue mode: whoever owns the bot's update stream appends Bot API updates to a
 * JSONL file, which it cuts back when it grows long, and this backend reads them with a cursor of its own.
 */
module CallbackQueue {
  import opened Wrappers
  import opened Delivery

  /** A line of the queue file: blank, malformed and id-less lines are all passed over. */
  datatype Line = Unusable | Entry(u: Update)

  function Entries(lines: seq<Line>): seq<Update> {
    if lines == [] then []
    else (if lines[0].Entry? then [lines[0].u] else []) + Entries(lines[1..])
  }

  function OffsetValue(offset: Option<int>): int {
    if offset.Some? then offset.value else 0
  }

  function Eligible(us: seq<Update>, offset: int): seq<Update> {
    if us == [] then []
    else if us[0].id < offset then Eligible(us[1..], offset)
    else [us[0]] + Eligible(us[1..], offset)
  }

  predicate SortedById(us: seq<Update>) {
    forall i, j :: 0 <= i < j < |us| ==> us[i].id <= us[j].id
  }

  function Insert(u: Update, us: seq<Update>): seq<Update> {
    if us == [] || u.id <= us[0].id then [u] + us else [us[0]] + Insert(u, us[1..])
  }

  function Sorted(us: seq<Update>): seq<Update> {
    if us == [] then [] else Insert(us[0], Sorted(us[1..]))
  }

  lemma {:induction false} InsertMembers(u: Update, us: seq<Update>)
    ensures forall v :: v in Insert(u, us) ==> v == u || v in us
  {
    if us != [] && u.id > us[0].id { InsertMembers(u, us[1..]); }
  }

  lemma {:induction false} InsertCounts(u: Update, us: seq<Update>)
    ensures multiset(Insert(u, us)) == multiset(us) + multiset{u}
  {
    if us != [] && u.id > us[0].id {
      InsertCounts(u, us[1..]);
      assert us == [us[0]] + us[1..];
    }
  }

  lemma {:induction false} InsertSorts(u: Update, us: seq<Update>)
    requires SortedById(us)
    ensures SortedById(Insert(u, us))
  {
    if us != [] && u.id > us[0].id {
      var head, rest := us[0], us[1..];
      InsertSorts(u, rest);
      InsertMembers(u, rest);
      assert forall v :: v in rest ==> head.id <= v.id;
      assert forall v :: v in Insert(u, rest) ==> head.id <= v.id;
    }
  }

  /** Whatever the writer did, a batch is drawn from the eligible entries in id order. */
  lemma {:induction false} SortedSorts(us: seq<Update>)
    ensures SortedById(Sorted(us)) && multiset(Sorted(us)) == multiset(us)
  {
    if us != [] {
      SortedSorts(us[1..]);
      InsertSorts(us[0], Sorted(us[1..]));
      InsertCounts(us[0], Sorted(us[1..]));
      assert us == [us[0]] + us[1..];
    }
  }

  function Take(us: seq<Update>, limit: int): seq<Update>
    requires limit >= 0
  {
    if |us| > limit then us[..limit] else us
  }

  /** What one read gets from the file. */
  function QueueBatch(lines: seq<Line>, offset: Option<int>, limit: int): seq<Update> {
    Take(Sorted(Eligible(Entries(lines), OffsetValue(offset))), Clamp(limit, 1, MAX_UPDATES_PER_CALL))
  }

  // --- the step machine ---

  /** Past 500 lines the writer cuts the file back to its newest 200. */
  const QUEUE_LIMIT := 500
  const QUEUE_KEPT := 200

  /**
   * `gone`, `delivered`, `died` and `cut` are history: the entries the writer has cut away, the presses returned,
   * those a dying process had already stepped past, and those that were cut away before anybody read them.
   */
  datatype Reader = Reader(lines: seq<Line>, memory: Option<int>, loaded: bool, disk: Option<int>,
                         gone: seq<Update>, delivered: seq<int>, died: set<int>, cut: set<int>)

  datatype Event =
    | Append(line: Line)
    | Cap
    | Read(since: Option<int>, limit: int, readable: bool, wrote: bool)
    | Look(since: Option<int>, limit: int, readable: bool)
    | DieReading(since: Option<int>, limit: int, readable: bool)
    | Restart

  function Init(): Reader {
    Reader([], None, false, None, [], [], {}, {})
  }

  function Position(s: Reader): Option<int> {
    if s.loaded then s.memory else s.disk
  }

  function Load(s: Reader, readable: bool): Reader {
    if s.loaded then s else s.(loaded := true, memory := if readable then s.disk else None)
  }

  function BatchOf(s: Reader, since: Option<int>, limit: int): seq<Update> {
    QueueBatch(s.lines, EffectiveOffset(s.memory, since), limit)
  }

  function Advance(s: Reader, batch: seq<Update>, wrote: bool): Reader {
    if batch == [] then s
    else
      var next := Some(batch[|batch| - 1].id + 1);
      s.(memory := next, disk := if wrote then next else s.disk)
  }

  function Forget(s: Reader): Reader {
    s.(memory := None, loaded := false)
  }

  function AsSet(ids: seq<int>): (s: set<int>)
    ensures forall x :: x in s <==> x in ids
  {
    set x | x in ids
  }

  /** The oldest lines, which the writer cuts away. */
  function Excess(s: Reader): seq<Line> {
    if |s.lines| > QUEUE_LIMIT then s.lines[..|s.lines| - QUEUE_KEPT] else []
  }

  function Unread(us: seq<Update>, cursor: Option<int>): set<int> {
    set i | 0 <= i < |us| && us[i].callback && !Below(us[i].id, cursor) :: us[i].id
  }

  /** DieReading is a read that filed its cursor and died before returning. */
  function Next(s: Reader, step: Event): Reader {
    match step
    case Append(line) => s.(lines := s.lines + [line])
    case Cap =>
      var away := Entries(Excess(s));
      s.(lines := s.lines[|Excess(s)|..], gone := s.gone + away, cut := s.cut + Unread(away, Position(s)))
    case Read(since, limit, readable, wrote) =>
      var l := Load(s, readable);
      var batch := BatchOf(l, since, limit);
      Advance(l, batch, wrote).(delivered := s.delivered + Presses(batch))
    case Look(_, _, readable) => Load(s, readable)
    case DieReading(since, limit, readable) =>
      var l := Load(s, readable);
      var batch := BatchOf(l, since, limit);
      Forget(Advance(l, batch, true)).(died := s.died + AsSet(Presses(batch)))
    case Restart => Forget(s)
  }

  function Run(s: Reader, steps: seq<Event>): Reader
    decreases |steps|
  {
    if steps == [] then s else Run(Next(s, steps[0]), steps[1..])
  }

  /** The writer appends increasing ids; the cursor a caller passes came from a read; the cursor file works. */
  predicate Orderly(s: Reader, step: Event) {
    match step
    case Append(line) => line.Entry? ==> forall u :: u in Queued(s) ==> u.id < line.u.id
    case Cap => true
    case Read(since, limit, readable, wrote) => FedBack(s, since) && readable && wrote
    case Look(_, _, readable) => readable
    case DieReading(since, limit, readable) => FedBack(s, since) && readable
    case Restart => true
  }

  predicate FedBack(s: Reader, since: Option<int>) {
    since.None? || since.value in s.delivered
  }

  predicate OrderlyRun(s: Reader, steps: seq<Event>)
    decreases |steps|
  {
    steps == [] || (Orderly(s, steps[0]) && OrderlyRun(Next(s, steps[0]), steps[1..]))
  }

  // --- exactly once, in order ---

  /** Everything that was ever queued. */
  function Queued(s: Reader): seq<Update> {
    s.gone + Entries(s.lines)
  }

  /** The consumed part of the queue: the entries below the cursor. */
  function Consumed(s: Reader): seq<Update> {
    Queued(s)[..Cut(Queued(s), Position(s))]
  }

  function Without(ids: seq<int>, out: set<int>): seq<int> {
    if ids == [] then []
    else if ids[0] in out then Without(ids[1..], out)
    else [ids[0]] + Without(ids[1..], out)
  }

  ghost predicate Inv(s: Reader) {
    && Ascending(Queued(s))
    && (s.loaded ==> s.memory == s.disk)
    && PastEntry(Queued(s), s.disk)
    && s.delivered == Without(Presses(Consumed(s)), s.died + s.cut)
    && (forall x :: x in s.died ==> x in Presses(Consumed(s)))
    && (forall x :: x in s.cut ==> x in Presses(s.gone))
    && (forall u :: u in s.gone && u.callback && !Below(u.id, Position(s)) ==> u.id in s.cut)
  }

  /** A cursor is always one past an entry that exists. */
  ghost predicate PastEntry(es: seq<Update>, cursor: Option<int>) {
    cursor.Some? ==> exists u :: u in es && cursor.value == u.id + 1
  }

  lemma {:induction false} EntriesAppend(a: seq<Line>, b: seq<Line>)
    ensures Entries(a + b) == Entries(a) + Entries(b)
  {
    if a == [] {
      assert a + b == b;
    } else {
      EntriesAppend(a[1..], b);
      var head := if a[0].Entry? then [a[0].u] else [];
      assert (a + b)[0] == a[0] && (a + b)[1..] == a[1..] + b;
      assert Entries(a + b) == head + Entries(a[1..] + b);
      assert Entries(a) == head + Entries(a[1..]);
    }
  }

  lemma {:induction false} SortedIsIdentity(us: seq<Update>)
    requires Ascending(us)
    ensures Sorted(us) == us
  {
    if us != [] {
      SortedIsIdentity(us[1..]);
      if us[1..] != [] { assert us[1..][0] == us[1]; }
    }
  }

  lemma {:induction false} EligibleIsSuffix(us: seq<Update>, offset: int)
    requires Ascending(us) && offset >= 0
    ensures Eligible(us, offset) == us[Cut(us, Some(offset))..]
  {
    if us != [] {
      EligibleIsSuffix(us[1..], offset);
      if us[0].id >= offset { CutSplits(us[1..], offset); }
    }
  }

  lemma {:induction false} WithoutAppend(a: seq<int>, b: seq<int>, out: set<int>)
    ensures Without(a + b, out) == Without(a, out) + Without(b, out)
  {
    if a == [] {
      assert a + b == b;
    } else {
      WithoutAppend(a[1..], b, out);
      assert (a + b)[1..] == a[1..] + b;
      assert [a[0]] + (Without(a[1..], out) + Without(b, out)) == [a[0]] + Without(a[1..], out) + Without(b, out);
    }
  }

  /** Only ids that occur can be left out; leaving out all of them leaves nothing. */
  lemma {:induction false} WithoutOthers(ids: seq<int>, out: set<int>, more: set<int>)
    requires forall x :: x in ids ==> x !in more
    ensures Without(ids, out + more) == Without(ids, out)
  {
    if ids != [] {
      var head := ids[0];
      assert head in ids;
      assert forall x :: x in ids[1..] ==> x in ids;
      WithoutOthers(ids[1..], out, more);
    }
  }

  lemma {:induction false} WithoutAll(ids: seq<int>, out: set<int>)
    requires forall x :: x in ids ==> x in out
    ensures Without(ids, out) == []
  {
    if ids != [] {
      var head := ids[0];
      assert head in ids;
      assert forall x :: x in ids[1..] ==> x in ids;
      WithoutAll(ids[1..], out);
    }
  }

  lemma {:induction false} WithoutMembers(ids: seq<int>, out: set<int>)
    ensures forall x :: x in Without(ids, out) <==> x in ids && x !in out
  {
    if ids != [] {
      WithoutMembers(ids[1..], out);
    }
  }

  /** A cursor fed back by a caller never goes past what the reader has stepped over itself. */
  lemma FedBackKeepsOffset(s: Reader, since: Option<int>)
    requires Inv(s) && FedBack(s, since)
    ensures EffectiveOffset(Position(s), since) == Position(s)
  {
    if since.Some? {
      WithoutMembers(Presses(Consumed(s)), s.died + s.cut);
      BelowCut(Queued(s), Position(s), since.value);
    }
  }

  /** The ids before a cut lie below it. */
  lemma BelowCut(es: seq<Update>, cursor: Option<int>, x: int)
    requires Ascending(es) && (cursor.Some? ==> cursor.value >= 0) && x in Presses(es[..Cut(es, cursor)])
    ensures Below(x, cursor)
  {
    if cursor.Some? { CutSplits(es, cursor.value); }
    var c := es[..Cut(es, cursor)];
    var i :| 0 <= i < |c| && c[i].id == x;
    assert c[i] == es[i];
  }

  lemma TakeIsSlice(es: seq<Update>, k: nat, limit: int)
    requires k <= |es| && limit >= 1
    ensures var t := Take(es[k..], limit);
      k + |t| <= |es| && t == es[k..k + |t|] && (k < |es| ==> t != [])
  {
  }

  lemma EligibleInOrder(es: seq<Update>, offset: Option<int>)
    requires Ascending(es) && (offset.Some? ==> offset.value >= 0)
    ensures Sorted(Eligible(es, OffsetValue(offset))) == es[Cut(es, offset)..]
  {
    assert Cut(es, offset) == Cut(es, Some(OffsetValue(offset)));
    EligibleIsSuffix(es, OffsetValue(offset));
    TailAscending(es, Cut(es, offset));
    SortedIsIdentity(es[Cut(es, offset)..]);
  }

  lemma BatchIsSlice(lines: seq<Line>, offset: Option<int>, limit: int)
    requires Ascending(Entries(lines)) && (offset.Some? ==> offset.value >= 0)
    ensures var k := Cut(Entries(lines), offset);
      var batch := QueueBatch(lines, offset, limit);
      k + |batch| <= |Entries(lines)| && batch == Entries(lines)[k..k + |batch|]
      && (k < |Entries(lines)| ==> batch != [])
  {
    var es := Entries(lines);
    var k, n := Cut(es, offset), Clamp(limit, 1, MAX_UPDATES_PER_CALL);
    EligibleInOrder(es, offset);
    assert QueueBatch(lines, offset, limit) == Take(es[k..], n);
    TakeIsSlice(es, k, n);
  }

  lemma TailAscending(es: seq<Update>, k: nat)
    requires Ascending(es) && k <= |es|
    ensures Ascending(es[k..])
  {
  }

  lemma CutAfter(es: seq<Update>, m: nat)
    requires Ascending(es) && 0 < m <= |es|
    ensures Cut(es, Some(es[m - 1].id + 1)) == m
  {
    CutIsAt(es, es[m - 1].id + 1, m);
  }

  lemma SliceMovesCut(es: seq<Update>, k: nat, batch: seq<Update>)
    requires Ascending(es) && batch != [] && k + |batch| <= |es| && batch == es[k..k + |batch|]
    ensures Cut(es, Some(batch[|batch| - 1].id + 1)) == k + |batch|
  {
    var m := k + |batch|;
    assert batch[|batch| - 1] == es[m - 1];
    CutAfter(es, m);
  }

  lemma SliceJoins(es: seq<Update>, k: nat, batch: seq<Update>)
    requires k + |batch| <= |es| && batch == es[k..k + |batch|]
    ensures es[..k + |batch|] == es[..k] + batch
  {
  }

  lemma SliceAbove(es: seq<Update>, cursor: Option<int>, batch: seq<Update>)
    requires Ascending(es) && (cursor.Some? ==> cursor.value >= 0) && Cut(es, cursor) + |batch| <= |es|
    requires batch == es[Cut(es, cursor)..Cut(es, cursor) + |batch|]
    ensures forall u :: u in batch ==> u.id >= OffsetValue(cursor) && u in es
  {
    if cursor.Some? { CutSplits(es, cursor.value); }
  }

  function After(batch: seq<Update>, cursor: Option<int>): Option<int> {
    if batch == [] then cursor else Some(batch[|batch| - 1].id + 1)
  }

  /** Stepping past a slice of the queue moves the cursor exactly past it. */
  lemma {:induction false} SliceConsumed(es: seq<Update>, cursor: Option<int>, batch: seq<Update>)
    requires Ascending(es) && (cursor.Some? ==> cursor.value >= 0)
    requires var k := Cut(es, cursor); k + |batch| <= |es| && batch == es[k..k + |batch|]
    ensures es[..Cut(es, After(batch, cursor))] == es[..Cut(es, cursor)] + batch
    ensures forall u :: u in batch ==> u.id >= OffsetValue(cursor) && u in es
  {
    SliceJoins(es, Cut(es, cursor), batch);
    SliceAbove(es, cursor, batch);
    if batch == [] {
      assert es[..Cut(es, cursor)] + batch == es[..Cut(es, cursor)];
    } else {
      SliceMovesCut(es, Cut(es, cursor), batch);
    }
  }

  lemma {:induction false} BatchConsumed(lines: seq<Line>, cursor: Option<int>, limit: int)
    requires Ascending(Entries(lines)) && (cursor.Some? ==> cursor.value >= 0)
    ensures var es := Entries(lines);
      var batch := QueueBatch(lines, cursor, limit);
      && es[..Cut(es, After(batch, cursor))] == es[..Cut(es, cursor)] + batch
      && (forall u :: u in batch ==> u.id >= OffsetValue(cursor) && u in es)
  {
    BatchIsSlice(lines, cursor, limit);
    SliceConsumed(Entries(lines), cursor, QueueBatch(lines, cursor, limit));
  }

  /** What was cut away unread lies between the consumed entries and those still in the file. */
  function Passed(s: Reader, batch: seq<Update>): seq<Update> {
    if batch == [] then [] else s.gone[Cut(s.gone, Position(s))..]
  }

  lemma {:induction false} CutOfConcat(a: seq<Update>, b: seq<Update>, cursor: Option<int>)
    requires Ascending(a + b) && (cursor.Some? ==> cursor.value >= 0)
    ensures Cut(a + b, cursor) == if Cut(a, cursor) < |a| then Cut(a, cursor) else |a| + Cut(b, cursor)
    ensures Cut(a, cursor) < |a| ==> Cut(b, cursor) == 0
  {
    if a == [] {
      assert a + b == b;
    } else {
      assert (a + b)[0] == a[0] && (a + b)[1..] == a[1..] + b;
      CutOfConcat(a[1..], b, cursor);
      if cursor.Some? && a[0].id >= cursor.value && b != [] {
        assert (a + b)[|a|] == b[0];
      }
    }
  }

  /** Once something behind them has been read, the entries cut away are below the cursor like everything before it. */
  lemma PastGone(gone: seq<Update>, es: seq<Update>, cursor: Option<int>, batch: seq<Update>)
    requires Ascending(gone + es) && (cursor.Some? ==> cursor.value >= 0) && batch != []
    requires es[..Cut(es, After(batch, cursor))] == es[..Cut(es, cursor)] + batch && forall u :: u in batch ==> u in es
    ensures var q := gone + es;
      q[..Cut(q, After(batch, cursor))] == q[..Cut(q, cursor)] + gone[Cut(gone, cursor)..] + batch
  {
    var last := batch[|batch| - 1];
    assert last in batch && last in es;
    GoneIsBelow(gone, es, last);
    CutOfConcat(gone, es, cursor);
    CutOfConcat(gone, es, After(batch, cursor));
    PrefixesJoin(gone, es, Cut(gone, cursor), Cut(es, cursor), Cut(es, After(batch, cursor)), batch);
  }

  lemma {:induction false} GoneIsBelow(gone: seq<Update>, es: seq<Update>, u: Update)
    requires Ascending(gone + es) && u in es
    ensures Cut(gone, Some(u.id + 1)) == |gone|
  {
    PrefixAscends(gone, es);
    AboveGone(gone, es, u);
    CutIsAt(gone, u.id + 1, |gone|);
  }

  lemma PrefixesJoin(a: seq<Update>, b: seq<Update>, i: nat, j: nat, k: nat, batch: seq<Update>)
    requires i <= |a| && j <= |b| && k <= |b| && b[..k] == b[..j] + batch && (i < |a| ==> j == 0)
    ensures (a + b)[..|a| + k] == (a + b)[..if i < |a| then i else |a| + j] + a[i..] + batch
  {
    assert (a + b)[..|a| + k] == a + b[..k];
    if i < |a| {
      assert (a + b)[..i] == a[..i] && a == a[..i] + a[i..];
      assert b[..0] + batch == batch;
    } else {
      assert (a + b)[..|a| + j] == a + b[..j] && a[i..] == [];
    }
  }

  lemma PrefixAscends(a: seq<Update>, b: seq<Update>)
    requires Ascending(a + b)
    ensures Ascending(a) && Ascending(b)
  {
    assert forall i :: 0 <= i < |a| ==> (a + b)[i] == a[i];
    assert forall i :: 0 <= i < |b| ==> (a + b)[|a| + i] == b[i];
  }

  lemma AboveGone(gone: seq<Update>, es: seq<Update>, u: Update)
    requires Ascending(gone + es) && u in es
    ensures forall v :: v in gone ==> v.id < u.id
  {
    var i :| 0 <= i < |es| && es[i] == u;
    assert (gone + es)[|gone| + i] == u;
    assert forall j :: 0 <= j < |gone| ==> (gone + es)[j] == gone[j];
  }

  /** A read takes the entries right after the consumed ones and those that were cut away. */
  lemma ReadExtendsConsumed(s: Reader, since: Option<int>, limit: int)
    requires Inv(s) && s.loaded && FedBack(s, since)
    ensures var batch := BatchOf(s, since, limit);
      var t := Advance(s, batch, true);
      && Consumed(t) == Consumed(s) + Passed(s, batch) + batch
      && t.memory == After(batch, s.memory)
      && (forall u :: u in batch ==> u.id >= OffsetValue(s.memory) && u in Entries(s.lines))
      && (batch != [] ==> OffsetValue(t.memory) > OffsetValue(s.memory))
  {
    FedBackKeepsOffset(s, since);
    ReadConsumes(s.gone, s.lines, s.memory, limit);
    MovesUpStrictly(s.memory, BatchOf(s, since, limit));
  }

  lemma ReadConsumes(gone: seq<Update>, lines: seq<Line>, cursor: Option<int>, limit: int)
    requires Ascending(gone + Entries(lines)) && (cursor.Some? ==> cursor.value >= 0)
    ensures var q, batch := gone + Entries(lines), QueueBatch(lines, cursor, limit);
      && q[..Cut(q, After(batch, cursor))] == q[..Cut(q, cursor)] + (if batch == [] then [] else gone[Cut(gone, cursor)..]) + batch
      && (forall u :: u in batch ==> u.id >= OffsetValue(cursor) && u in Entries(lines))
  {
    var batch := QueueBatch(lines, cursor, limit);
    PrefixAscends(gone, Entries(lines));
    BatchConsumed(lines, cursor, limit);
    if batch != [] { PastGone(gone, Entries(lines), cursor, batch); }
  }

  lemma MovesUpStrictly(cursor: Option<int>, batch: seq<Update>)
    requires forall u :: u in batch ==> u.id >= OffsetValue(cursor)
    ensures batch != [] ==> OffsetValue(After(batch, cursor)) > OffsetValue(cursor)
  {
    if batch != [] { assert batch[|batch| - 1] in batch; }
  }

  lemma {:induction false} AppendKeepsInv(s: Reader, line: Line)
    requires Inv(s) && Orderly(s, Append(line))
    ensures Inv(Next(s, Append(line)))
  {
    var n := Next(s, Append(line));
    var more := if line.Entry? then [line.u] else [];
    QueuedAppend(s, line);
    assert Position(s) == s.disk;
    LaterEntries(Queued(s), more, s.disk);
    assert Consumed(n) == Consumed(s);
  }

  lemma QueuedAppend(s: Reader, line: Line)
    ensures Queued(Next(s, Append(line))) == Queued(s) + if line.Entry? then [line.u] else []
  {
    var more := if line.Entry? then [line.u] else [];
    EntriesAppend(s.lines, [line]);
    assert Entries([line]) == more + Entries([]);
    assert s.gone + (Entries(s.lines) + more) == s.gone + Entries(s.lines) + more;
  }

  lemma CapKeepsQueued(s: Reader)
    ensures Queued(Next(s, Cap)) == Queued(s)
  {
    var n, k := Next(s, Cap), |Excess(s)|;
    assert s.lines == s.lines[..k] + s.lines[k..];
    EntriesAppend(s.lines[..k], s.lines[k..]);
    assert s.gone + (Entries(s.lines[..k]) + Entries(s.lines[k..])) == s.gone + Entries(s.lines[..k]) + Entries(s.lines[k..]);
    assert Excess(s) == s.lines[..k];
  }

  lemma {:induction false} CapKeepsInv(s: Reader)
    requires Inv(s)
    ensures Inv(Next(s, Cap))
  {
    var n, away, more := Next(s, Cap), Entries(Excess(s)), Unread(Entries(Excess(s)), Position(s));
    CapKeepsQueued(s);
    PressesAppend(s.gone, away);
    forall x | x in Presses(Consumed(s)) ensures x !in more {
      BelowCut(Queued(s), Position(s), x);
    }
    WithoutOthers(Presses(Consumed(s)), s.died + s.cut, more);
    assert s.died + s.cut + more == n.died + n.cut;
  }

  lemma LaterEntries(es: seq<Update>, more: seq<Update>, cursor: Option<int>)
    requires Ascending(es) && |more| <= 1 && (forall u, v :: u in es && v in more ==> u.id < v.id)
    requires PastEntry(es, cursor)
    ensures Ascending(es + more) && PastEntry(es + more, cursor)
    ensures (es + more)[..Cut(es + more, cursor)] == es[..Cut(es, cursor)]
  {
    if cursor.Some? {
      var u :| u in es && cursor.value == u.id + 1;
      assert u in es + more;
    }
    CutIgnoresLater(es, more, cursor);
  }

  lemma {:induction false} CutIgnoresLater(es: seq<Update>, more: seq<Update>, cursor: Option<int>)
    requires Ascending(es) && (forall u, v :: u in es && v in more ==> u.id < v.id)
    requires cursor.Some? ==> cursor.value >= 0 && exists u :: u in es && u.id + 1 >= cursor.value
    ensures Cut(es + more, cursor) == Cut(es, cursor)
  {
    if cursor.Some? && es[0].id < cursor.value {
      assert (es + more)[1..] == es[1..] + more;
      if es[1..] == [] {
        assert more != [] ==> es[0] in es && more[0] in more;
      } else {
        var u :| u in es && u.id + 1 >= cursor.value;
        assert es[|es| - 1].id >= u.id && es[|es| - 1] in es[1..];
        CutIgnoresLater(es[1..], more, cursor);
      }
    }
  }

  /** Leaving out `out` and `more` from three parts: the first holds none of `more`, the second only `out`, the third none of it. */
  lemma WithoutParts(a: seq<int>, b: seq<int>, c: seq<int>, out: set<int>, more: set<int>)
    requires forall x :: x in a ==> x !in more
    requires forall x :: x in b ==> x in out
    requires forall x :: x in c ==> x !in out
    ensures Without(a + b + c, out + more) == Without(a, out) + Without(c, more)
  {
    var both := out + more;
    WithoutAppend(a + b, c, both);
    WithoutAppend(a, b, both);
    WithoutOthers(a, out, more);
    WithoutAll(b, both);
    assert Without(a + b, both) == Without(a, out);
    assert both == more + out;
    WithoutOthers(c, more, out);
  }

  /** Of what lies before the new position, the part that was cut away unread is on record, and the batch is new. */
  lemma GrownDelivers(l: Reader, batch: seq<Update>, out: set<int>)
    requires Inv(l) && l.loaded && forall u :: u in batch ==> u.id >= OffsetValue(l.memory) && u in Entries(l.lines)
    requires out <= AsSet(Presses(batch))
    ensures Without(Presses(Consumed(l) + Passed(l, batch) + batch), l.died + l.cut + out)
            == l.delivered + Without(Presses(batch), out)
  {
    PressesAppend(Consumed(l) + Passed(l, batch), batch);
    PressesAppend(Consumed(l), Passed(l, batch));
    BatchIsNew(l, batch);
    PassedIsCut(l, batch);
    WithoutParts(Presses(Consumed(l)), Presses(Passed(l, batch)), Presses(batch), l.died + l.cut, out);
  }

  lemma PassedIsCut(l: Reader, batch: seq<Update>)
    requires Inv(l)
    ensures forall x :: x in Presses(Passed(l, batch)) ==> x in l.cut
  {
    var k, passed := Cut(l.gone, Position(l)), Passed(l, batch);
    PrefixAscends(l.gone, Entries(l.lines));
    if Position(l).Some? { CutSplits(l.gone, Position(l).value); }
    forall x | x in Presses(passed) ensures x in l.cut {
      var i :| 0 <= i < |passed| && passed[i].callback && passed[i].id == x;
      assert passed[i] == l.gone[k + i] && l.gone[k + i] in l.gone;
    }
  }

  lemma BatchIsNew(l: Reader, batch: seq<Update>)
    requires Inv(l) && l.loaded && forall u :: u in batch ==> u.id >= OffsetValue(l.memory) && u in Entries(l.lines)
    ensures forall y :: y in Presses(batch) ==> y !in Presses(Consumed(l)) && y !in l.died && y !in l.cut
  {
    forall y | y in Presses(batch) ensures y !in Presses(Consumed(l)) && y !in l.cut {
      var j :| 0 <= j < |batch| && batch[j].id == y;
      assert batch[j] in batch;
      if y in Presses(Consumed(l)) { BelowCut(Queued(l), l.memory, y); }
      AboveGone(l.gone, Entries(l.lines), batch[j]);
    }
  }

  /** The invariant of a reader that has just stepped past a batch. */
  lemma {:induction false} GrownInv(s: Reader, l: Reader, batch: seq<Update>)
    requires Inv(l) && l.loaded && s.lines == l.lines && s.gone == l.gone && s.cut == l.cut
    requires Position(s) == s.disk == After(batch, l.memory) && Consumed(s) == Consumed(l) + Passed(l, batch) + batch
    requires forall u :: u in batch ==> u.id >= OffsetValue(l.memory) && u in Entries(s.lines)
    requires s.delivered == Without(Presses(Consumed(s)), s.died + s.cut)
    requires forall x :: x in s.died ==> x in l.died || x in Presses(batch)
    ensures Inv(s)
  {
    PressesAppend(Consumed(l) + Passed(l, batch), batch);
    PressesAppend(Consumed(l), Passed(l, batch));
    assert Presses(Consumed(s)) == Presses(Consumed(l)) + Presses(Passed(l, batch)) + Presses(batch);
    assert Queued(s) == Queued(l);
    AfterIsPast(Queued(s), l.memory, batch);
    MovesUp(l.memory, batch);
  }

  lemma AfterIsPast(es: seq<Update>, cursor: Option<int>, batch: seq<Update>)
    requires PastEntry(es, cursor) && forall u :: u in batch ==> u in es
    ensures PastEntry(es, After(batch, cursor))
  {
    if batch != [] { assert batch[|batch| - 1] in batch; }
  }

  lemma MovesUp(cursor: Option<int>, batch: seq<Update>)
    requires forall u :: u in batch ==> u.id >= OffsetValue(cursor)
    ensures forall x :: Below(x, cursor) ==> Below(x, After(batch, cursor))
  {
    if batch != [] { assert batch[|batch| - 1] in batch; }
  }

  lemma MovedConsumes(s: Reader, t: Reader)
    requires s.gone == t.gone && s.lines == t.lines && Position(s) == Position(t)
    ensures Consumed(s) == Consumed(t)
  {
  }

  lemma {:induction false} ReadKeepsInv(s: Reader, since: Option<int>, limit: int)
    requires Inv(s) && FedBack(s, since)
    ensures Inv(Next(s, Read(since, limit, true, true)))
  {
    var l := Load(s, true);
    var batch := BatchOf(l, since, limit);
    var n := Next(s, Read(since, limit, true, true));
    ReadExtendsConsumed(l, since, limit);
    GrownDelivers(l, batch, {});
    WithoutNothing(Presses(batch));
    assert l.died + l.cut + {} == n.died + n.cut;
    MovedConsumes(n, Advance(l, batch, true));
    GrownInv(n, l, batch);
  }

  lemma {:induction false} WithoutNothing(ids: seq<int>)
    ensures Without(ids, {}) == ids
  {
    if ids != [] { WithoutNothing(ids[1..]); }
  }

  lemma UnionsCommute(a: set<int>, b: set<int>, c: set<int>)
    ensures a + b + c == a + c + b
  {
  }

  /** Of a batch that dies with its process nothing is handed out. */
  lemma {:induction false} DieKeepsInv(s: Reader, since: Option<int>, limit: int)
    requires Inv(s) && FedBack(s, since)
    ensures Inv(Next(s, DieReading(since, limit, true)))
  {
    var l := Load(s, true);
    var batch := BatchOf(l, since, limit);
    var died := AsSet(Presses(batch));
    ReadExtendsConsumed(l, since, limit);
    GrownDelivers(l, batch, died);
    WithoutAll(Presses(batch), died);
    UnionsCommute(l.died, l.cut, died);
    var t := Advance(l, batch, true);
    var n := Forget(t).(died := l.died + died);
    assert n == Next(s, DieReading(since, limit, true));
    MovedConsumes(n, t);
    GrownInv(n, l, batch);
  }

  lemma {:induction false} RunKeepsInv(s: Reader, steps: seq<Event>)
    requires Inv(s) && OrderlyRun(s, steps)
    ensures Inv(Run(s, steps))
    decreases |steps|
  {
    if steps != [] {
      match steps[0] {
        case Append(line) => AppendKeepsInv(s, line);
        case Cap => CapKeepsInv(s);
        case Read(since, limit, _, _) => ReadKeepsInv(s, since, limit);
        case DieReading(since, limit, _) => DieKeepsInv(s, since, limit);
        case _ =>
      }
      RunKeepsInv(Next(s, steps[0]), steps[1..]);
    }
  }

  /**
   * Exactly once and in order: over every run with an orderly writer and a working cursor file, across any limits,
   * peeks, restarts, deaths inside a read and cuts of the file, the presses handed out are those of the consumed part
   * of everything ever queued, in queue order, less the ones a dying process had stepped past or the writer cut away
   * unread; with neither, all of them.
   */
  lemma QueueDeliversExactlyConsumed(steps: seq<Event>)
    requires OrderlyRun(Init(), steps)
    ensures var s := Run(Init(), steps);
      && s.delivered == Without(Presses(Consumed(s)), s.died + s.cut)
      && (s.died == {} && s.cut == {} ==> s.delivered == Presses(Consumed(s)))
  {
    RunKeepsInv(Init(), steps);
    var s := Run(Init(), steps);
    if s.died == {} && s.cut == {} {
      assert s.died + s.cut == {};
      WithoutNothing(Presses(Consumed(s)));
    }
  }

  /** When the writer cuts the file back, every press in the lines it removes has been read. */
  ghost predicate KeepsUp(s: Reader, step: Event) {
    step.Cap? ==> forall u :: u in Entries(Excess(s)) && u.callback ==> Below(u.id, Position(s))
  }

  ghost predicate KeepsUpRun(s: Reader, steps: seq<Event>)
    decreases |steps|
  {
    steps == [] || (KeepsUp(s, steps[0]) && KeepsUpRun(Next(s, steps[0]), steps[1..]))
  }

  lemma {:induction false} CutGrows(s: Reader, steps: seq<Event>)
    ensures s.cut <= Run(s, steps).cut
    decreases |steps|
  {
    if steps != [] { CutGrows(Next(s, steps[0]), steps[1..]); }
  }

  lemma {:induction false} NothingCutFrom(s: Reader, steps: seq<Event>)
    requires s.cut == {}
    ensures Run(s, steps).cut == {} <==> KeepsUpRun(s, steps)
    decreases |steps|
  {
    if steps != [] {
      var n := Next(s, steps[0]);
      if KeepsUp(s, steps[0]) {
        assert n.cut == {};
        NothingCutFrom(n, steps[1..]);
      } else {
        var us := Entries(Excess(s));
        var u :| u in us && u.callback && !Below(u.id, Position(s));
        var i :| 0 <= i < |us| && us[i] == u;
        assert us[i].id in n.cut;
        CutGrows(n, steps[1..]);
      }
    }
  }

  /**
   * The writer loses presses if and only if the reader once lags so far behind that an unread one is outside the
   * newest 200 lines when the file is cut back; and what it cuts away unread is never handed out.
   */
  lemma CutLosesIff(steps: seq<Event>)
    requires OrderlyRun(Init(), steps)
    ensures var s := Run(Init(), steps);
      && (s.cut == {} <==> KeepsUpRun(Init(), steps))
      && forall x :: x in s.cut ==> x !in s.delivered
  {
    NothingCutFrom(Init(), steps);
    RunKeepsInv(Init(), steps);
    var s := Run(Init(), steps);
    WithoutMembers(Presses(Consumed(s)), s.died + s.cut);
  }

  /** The cursor strictly grows on every consuming read that takes entries; a peek moves and hands out nothing. */
  lemma CursorGrows(s: Reader, since: Option<int>, limit: int)
    requires Inv(s) && FedBack(s, since)
    ensures var n := Next(s, Read(since, limit, true, true));
      BatchOf(Load(s, true), since, limit) != [] ==> OffsetValue(Position(n)) > OffsetValue(Position(s))
    ensures var p := Next(s, Look(since, limit, true));
      Position(p) == Position(s) && p.delivered == s.delivered && p.lines == s.lines && p.disk == s.disk
  {
    ReadExtendsConsumed(Load(s, true), since, limit);
  }

  // --- when the cursor file does not keep up ---

  /** Any run at all, with unreadable files, failed writes and made-up cursors, over an orderly writer's queue. */
  predicate WriterOrderly(s: Reader, steps: seq<Event>)
    decreases |steps|
  {
    steps == [] || ((steps[0].Append? ==> Orderly(s, steps[0])) && WriterOrderly(Next(s, steps[0]), steps[1..]))
  }

  ghost predicate Loose(s: Reader) {
    Ascending(Queued(s)) && (s.disk.Some? ==> s.disk.value >= 0)
  }

  lemma {:induction false} RunKeepsLoose(s: Reader, steps: seq<Event>)
    requires Loose(s) && WriterOrderly(s, steps)
    ensures Loose(Run(s, steps))
    decreases |steps|
  {
    if steps != [] {
      match steps[0] {
        case Append(line) => QueuedAppend(s, line);
        case Cap => CapKeepsQueued(s);
        case _ =>
      }
      RunKeepsLoose(Next(s, steps[0]), steps[1..]);
    }
  }

  /** The cursor that a restarted process goes by. */
  function Refound(s: Reader, readable: bool): Option<int> {
    if readable then s.disk else None
  }

  /** A restart, then one read with some since_id, repeats a press. */
  ghost predicate RestartRepeats(s: Reader, readable: bool) {
    exists since: Option<int>, limit: int :: RepeatsWith(s, readable, since, limit)
  }

  ghost predicate RepeatsWith(s: Reader, readable: bool, since: Option<int>, limit: int) {
    exists x :: x in s.delivered && x in Presses(BatchOf(Load(Next(s, Restart), readable), since, limit))
  }

  /** A press that was handed out is still in the file and not below the cursor a restarted process finds. */
  ghost predicate Uncovered(s: Reader, readable: bool, x: int) {
    x in s.delivered && x in Presses(Entries(s.lines)) && !Below(x, Refound(s, readable))
  }

  /**
   * Nothing but the file protects a queue reader. Over every run, however many cursor writes fail and whatever
   * cursors callers make up, a restart can repeat a press if and only if one that was handed out is still in the queue
   * file and not below the cursor the new process finds: the file's, or none where the file cannot be read.
   */
  lemma RestartRepeatsIffUncovered(steps: seq<Event>, readable: bool)
    requires WriterOrderly(Init(), steps)
    ensures var s := Run(Init(), steps); RestartRepeats(s, readable) <==> exists x :: Uncovered(s, readable, x)
  {
    RunKeepsLoose(Init(), steps);
    var s := Run(Init(), steps);
    if x :| Uncovered(s, readable, x) {
      UncoveredRepeats(s, readable, x);
    }
    forall since, limit | RepeatsWith(s, readable, since, limit) ensures exists x :: Uncovered(s, readable, x) {
      var r := Load(Next(s, Restart), readable);
      var x :| x in s.delivered && x in Presses(BatchOf(r, since, limit));
      BatchAtOrAbove(r, since, limit, x);
      assert Uncovered(s, readable, x);
    }
  }

  /** With a working cursor file that never happens: what was handed out stays below the filed cursor. */
  lemma OrderlyNeverRepeats(steps: seq<Event>, x: int)
    requires OrderlyRun(Init(), steps)
    ensures var s := Run(Init(), steps); x in s.delivered ==> Below(x, s.disk)
  {
    RunKeepsInv(Init(), steps);
    var s := Run(Init(), steps);
    WithoutMembers(Presses(Consumed(s)), s.died + s.cut);
    if x in s.delivered { BelowCut(Queued(s), s.disk, x); }
  }

  lemma {:induction false} EligibleMembers(us: seq<Update>, offset: int)
    ensures forall u :: u in Eligible(us, offset) <==> u in us && u.id >= offset
  {
    if us != [] {
      EligibleMembers(us[1..], offset);
      assert us == [us[0]] + us[1..];
    }
  }

  lemma BatchMembers(lines: seq<Line>, offset: Option<int>, limit: int, u: Update)
    requires u in QueueBatch(lines, offset, limit)
    ensures u in Entries(lines) && u.id >= OffsetValue(offset)
  {
    var all := Eligible(Entries(lines), OffsetValue(offset));
    SortedSorts(all);
    EligibleMembers(Entries(lines), OffsetValue(offset));
    assert u in Sorted(all);
    assert u in multiset(Sorted(all));
  }

  lemma {:induction false} EntriesMembers(lines: seq<Line>)
    ensures forall u :: u in Entries(lines) <==> Entry(u) in lines
  {
    if lines != [] {
      EntriesMembers(lines[1..]);
      assert lines == [lines[0]] + lines[1..];
    }
  }

  lemma OrderedPrefix(us: seq<Update>, n: nat, u: Update)
    requires SortedById(us) && n <= |us| && u in us && u !in us[..n]
    ensures forall v :: v in us[..n] ==> v.id <= u.id
  {
    var i :| 0 <= i < |us| && us[i] == u;
    assert forall j :: 0 <= j < n ==> us[..n][j] == us[j] && us[j] in us[..n];
    assert i >= n;
  }

  /**
   * Whatever the writer and the caller did, a batch holds usable lines at or above the offset in id order, at most the
   * limit of them (at least 1 and at most 100); and a line like that is only left for later when the batch is full
   * of older ones.
   */
  lemma QueueBatchIsOldest(lines: seq<Line>, offset: Option<int>, limit: int)
    ensures var batch := QueueBatch(lines, offset, limit);
      var most := if limit < 1 then 1 else if limit > 100 then 100 else limit;
      var from := if offset.Some? then offset.value else 0;
      && SortedById(batch) && |batch| <= most
      && (forall u :: u in batch ==> Entry(u) in lines && u.id >= from)
      && (forall u :: Entry(u) in lines && u.id >= from && u !in batch ==>
            |batch| == most && forall v :: v in batch ==> v.id <= u.id)
  {
    var batch := QueueBatch(lines, offset, limit);
    var all := Eligible(Entries(lines), OffsetValue(offset));
    EntriesMembers(lines);
    EligibleMembers(Entries(lines), OffsetValue(offset));
    SortedSorts(all);
    SameMembers(Sorted(all), all);
    assert batch == Sorted(all)[..|batch|];
    forall u | u in all && u !in batch ensures forall v :: v in batch ==> v.id <= u.id {
      OrderedPrefix(Sorted(all), |batch|, u);
    }
  }

  lemma SameMembers(a: seq<Update>, b: seq<Update>)
    requires multiset(a) == multiset(b)
    ensures forall u :: u in a <==> u in b
  {
    assert forall u :: u in a <==> u in multiset(a);
    assert forall u :: u in b <==> u in multiset(b);
  }

  lemma BatchAtOrAbove(r: Reader, since: Option<int>, limit: int, x: int)
    requires x in Presses(BatchOf(r, since, limit))
    ensures x in Presses(Entries(r.lines)) && x >= OffsetValue(r.memory)
  {
    var batch := BatchOf(r, since, limit);
    var i :| 0 <= i < |batch| && batch[i].callback && batch[i].id == x;
    BatchMembers(r.lines, EffectiveOffset(r.memory, since), limit, batch[i]);
  }

  lemma UncoveredRepeats(s: Reader, readable: bool, x: int)
    requires Loose(s) && Uncovered(s, readable, x)
    ensures RepeatsWith(s, readable, Some(x - 1), 1)
  {
    PrefixAscends(s.gone, Entries(s.lines));
    var i :| 0 <= i < |Entries(s.lines)| && Entries(s.lines)[i].id == x && Entries(s.lines)[i].callback;
    assert EffectiveOffset(Refound(s, readable), Some(x - 1)) == Some(x);
    FirstAt(s.lines, i);
    assert x in Presses(BatchOf(Load(Next(s, Restart), readable), Some(x - 1), 1));
  }

  lemma FirstAt(lines: seq<Line>, i: nat)
    requires Ascending(Entries(lines)) && i < |Entries(lines)| && Entries(lines)[i].callback
    ensures Entries(lines)[i].id in Presses(QueueBatch(lines, Some(Entries(lines)[i].id), 1))
  {
    var es := Entries(lines);
    CutIsAt(es, es[i].id, i);
    BatchIsSlice(lines, Some(es[i].id), 1);
    var batch := QueueBatch(lines, Some(es[i].id), 1);
    assert batch[0] == es[i];
  }

  // --- a since_id in queue mode ---

  lemma {:induction false} EligibleAll(us: seq<Update>, offset: int)
    requires offset <= 0
    ensures Eligible(us, offset) == us
  {
    if us != [] { EligibleAll(us[1..], offset); }
  }

  /** An offset below zero asks for everything, as no offset does. */
  lemma BatchFrom(lines: seq<Line>, offset: Option<int>, limit: int)
    requires Ascending(Entries(lines))
    ensures var from := if offset.Some? && offset.value < 0 then None else offset;
      var k := Cut(Entries(lines), from);
      var batch := QueueBatch(lines, offset, limit);
      k + |batch| <= |Entries(lines)| && batch == Entries(lines)[k..k + |batch|]
  {
    if offset.Some? && offset.value < 0 {
      EligibleAll(Entries(lines), offset.value);
      EligibleAll(Entries(lines), 0);
      BatchIsSlice(lines, None, limit);
    } else {
      BatchIsSlice(lines, offset, limit);
    }
  }

  /** The read steps over entry u without handing its press out: unread before, below the cursor afterwards. */
  predicate StepsOver(l: Reader, since: Option<int>, limit: int, u: Update) {
    var batch := BatchOf(l, since, limit);
    u.id >= OffsetValue(l.memory) && u !in batch && Below(u.id, Advance(l, batch, true).memory)
  }

  /**
   * A peek never moves the cursor, so it skips nothing here; a consuming read skips exactly the unread entries at or
   * below its since_id, and only if it finds something behind them.
   */
  lemma QueueSinceSkipsIff(l: Reader, since: Option<int>, limit: int, u: Update)
    requires Ascending(Entries(l.lines)) && u in Entries(l.lines) && (l.memory.Some? ==> l.memory.value >= 0)
    ensures StepsOver(l, since, limit, u) <==>
      BatchOf(l, since, limit) != [] && since.Some? && OffsetValue(l.memory) <= u.id <= since.value
  {
    var es, batch := Entries(l.lines), BatchOf(l, since, limit);
    var offset := EffectiveOffset(l.memory, since);
    var from := if offset.Some? && offset.value < 0 then None else offset;
    BatchFrom(l.lines, offset, limit);
    if batch != [] { BehindSlice(es, from, batch, u); }
  }

  /** Of the entries up to the end of a slice, those that are not in it are the ones before it. */
  lemma BehindSlice(es: seq<Update>, from: Option<int>, batch: seq<Update>, u: Update)
    requires Ascending(es) && (from.Some? ==> from.value >= 0) && u in es && batch != []
    requires var k := Cut(es, from); k + |batch| <= |es| && batch == es[k..k + |batch|]
    ensures u.id <= batch[|batch| - 1].id && u !in batch <==> Below(u.id, from)
  {
    var k := Cut(es, from);
    if from.Some? { CutSplits(es, from.value); }
    var i :| 0 <= i < |es| && es[i] == u;
    assert batch[|batch| - 1] == es[k + |batch| - 1];
    if k <= i < k + |batch| { assert batch[i - k] == u; }
    assert i < k <==> Below(u.id, from);
  }
}
