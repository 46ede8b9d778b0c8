/**
 * The tool action that reads button presses: it sorts what the backend hands it into accepted, ignored and, under a
 * message filter, skipped presses, acknowledges the accepted ones, and returns the cursor for the next call.
 */
module Callbacks {
  import opened Wrappers
  import Delivery
  import Safety = DeliverySafety

  const MAX_ANSWER_TEXT := 200

  /** A press as it comes from the backend; a field is None when it is missing or of the wrong type. */
  datatype Press = Press(updateId: Option<int>, queryId: Option<string>, data: Option<string>, fromId: Option<int>,
                         chatId: Option<int>, messageId: Option<int>, answered: bool)

  /** The flattened entry a caller acts on. */
  datatype Entry = Entry(press: Press, answered: bool, session: Option<string>)

  datatype Reason = Malformed | UnauthorizedSender | DataPatternMismatch

  datatype Ignored = Ignored(press: Press, reason: Reason)

  /** `pattern` is the compiled data_pattern's FindString; an unusable one is refused before anything is read. */
  datatype Args = Args(sinceId: Option<int>, peek: bool, messageId: int, allowed: set<int>, answerTextLength: nat,
                       badPattern: bool, pattern: Option<string -> string>, autoAnswer: bool)

  datatype Reply = Refused | BackendFailed | Read(accepted: seq<Entry>, ignored: seq<Ignored>, cursor: Option<int>)

  function RejectionReason(p: Press, args: Args): Option<Reason> {
    if p.queryId.None? || p.queryId.value == "" || p.data.None? then Some(Malformed)
    else if args.allowed != {} && (p.fromId.None? || p.fromId.value !in args.allowed) then Some(UnauthorizedSender)
    else if args.pattern.Some? && (args.pattern.value)(p.data.value) != p.data.value then Some(DataPatternMismatch)
    else None
  }

  /** The press belongs to another message than the one being watched. */
  predicate Skipped(p: Press, args: Args) {
    args.messageId != 0 && p.messageId != Some(args.messageId)
  }

  predicate Accepted(p: Press, args: Args) {
    !Skipped(p, args) && RejectionReason(p, args).None?
  }

  predicate Rejected(p: Press, args: Args) {
    !Skipped(p, args) && RejectionReason(p, args).Some?
  }

  predicate NeedsAnswer(p: Press, args: Args) {
    Accepted(p, args) && args.autoAnswer && !args.peek && !p.answered
  }

  function Only(ps: seq<Press>, keep: Press -> bool): seq<Press> {
    if ps == [] then []
    else Only(ps[..|ps| - 1], keep) + if keep(ps[|ps| - 1]) then [ps[|ps| - 1]] else []
  }

  function AcceptedOf(ps: seq<Press>, args: Args): seq<Press> {
    Only(ps, p => Accepted(p, args))
  }

  function RejectedOf(ps: seq<Press>, args: Args): seq<Press> {
    Only(ps, p => Rejected(p, args))
  }

  function SkippedOf(ps: seq<Press>, args: Args): seq<Press> {
    Only(ps, p => Skipped(p, args))
  }

  function NeedingAnswer(ps: seq<Press>, args: Args): seq<Press> {
    Only(ps, p => NeedsAnswer(p, args))
  }

  function NextCursor(cursor: Option<int>, p: Press): Option<int> {
    if p.updateId.Some? && (cursor.None? || p.updateId.value > cursor.value) then p.updateId else cursor
  }

  function CursorAfter(cursor: Option<int>, ps: seq<Press>): Option<int> {
    if ps == [] then cursor else NextCursor(CursorAfter(cursor, ps[..|ps| - 1]), ps[|ps| - 1])
  }

  function PressesOf(es: seq<Entry>): seq<Press> {
    seq(|es|, i requires 0 <= i < |es| => es[i].press)
  }

  function IgnoredPresses(gs: seq<Ignored>): seq<Press> {
    seq(|gs|, i requires 0 <= i < |gs| => gs[i].press)
  }

  /** A read that the backend is asked for: the cursor passed, and whether it consumes. */
  datatype Asked = Asked(sinceId: Option<int>, consume: bool)

  /** The backend's side: the reads and the acknowledgements it was asked for. */
  class Backend {
    var polls: seq<Asked>
    var answers: seq<string>

    constructor ()
      ensures answers == [] && polls == []
    {
      answers, polls := [], [];
    }

    /** `found` is what the read comes to. */
    method GetCallbackQueries(sinceId: Option<int>, consume: bool, found: Result<seq<Press>, bool>)
      returns (r: Result<seq<Press>, bool>)
      modifies this`polls
      ensures polls == old(polls) + [Asked(sinceId, consume)] && r == found
    {
      polls := polls + [Asked(sinceId, consume)];
      r := found;
    }

    method AnswerCallbackQuery(queryId: string, accepted: bool) returns (ok: bool)
      modifies this`answers
      ensures answers == old(answers) + [queryId] && ok == accepted
    {
      answers := answers + [queryId];
      ok := accepted;
    }
  }

  function QueryIds(ps: seq<Press>): seq<string> {
    seq(|ps|, i requires 0 <= i < |ps| => if ps[i].queryId.Some? then ps[i].queryId.value else "")
  }

  ghost predicate EntryOk(e: Entry, args: Args, lookup: (int, int) -> string) {
    && Accepted(e.press, args)
    && (e.press.answered ==> e.answered)
    && (args.peek || !args.autoAnswer ==> e.answered == e.press.answered)
    && e.session == (if e.press.chatId.Some? && e.press.messageId.Some? && lookup(e.press.chatId.value, e.press.messageId.value) != ""
                     then Some(lookup(e.press.chatId.value, e.press.messageId.value)) else None)
  }

  lemma {:induction false} OnlyMembers(ps: seq<Press>, keep: Press -> bool)
    ensures forall p :: p in Only(ps, keep) <==> p in ps && keep(p)
  {
    if ps != [] {
      OnlyMembers(ps[..|ps| - 1], keep);
      assert ps == ps[..|ps| - 1] + [ps[|ps| - 1]];
    }
  }

  /** What is kept stands in the order in which it was read. */
  lemma {:induction false} OnlyKeepsOrder(ps: seq<Press>, keep: Press -> bool, i: nat, j: nat) returns (p: nat, q: nat)
    requires i < j < |Only(ps, keep)|
    ensures p < q < |ps| && ps[p] == Only(ps, keep)[i] && ps[q] == Only(ps, keep)[j]
  {
    var front, last := ps[..|ps| - 1], |ps| - 1;
    if j < |Only(front, keep)| {
      p, q := OnlyKeepsOrder(front, keep, i, j);
    } else {
      OnlyMembers(front, keep);
      assert Only(front, keep)[i] in Only(front, keep);
      p :| 0 <= p < |front| && front[p] == Only(front, keep)[i];
      q := last;
    }
  }

  /** The query was asked about, and is one this caller may decide: everything but the pattern. */
  predicate Watched(p: Press, args: Args) {
    args.messageId == 0 || p.messageId == Some(args.messageId)
  }

  predicate WellFormed(p: Press) {
    p.queryId.Some? && |p.queryId.value| > 0 && p.data.Some?
  }

  predicate MayDecide(p: Press, allowed: set<int>) {
    |allowed| > 0 ==> p.fromId.Some? && p.fromId.value in allowed
  }

  predicate WholeMatch(p: Press, pattern: Option<string -> string>) {
    pattern.Some? && p.data.Some? ==> (pattern.value)(p.data.value) == p.data.value
  }

  /**
   * Which presses are accepted, in the fields a caller sees: exactly those about the watched message that are well
   * formed, from an allowed sender, and matched whole; and each reason names the first of these that is missing.
   */
  lemma RejectedFor(p: Press, args: Args)
    ensures Accepted(p, args) <==>
      Watched(p, args) && WellFormed(p) && MayDecide(p, args.allowed) && WholeMatch(p, args.pattern)
    ensures RejectionReason(p, args) == Some(Malformed) <==> !WellFormed(p)
    ensures RejectionReason(p, args) == Some(UnauthorizedSender) <==> WellFormed(p) && !MayDecide(p, args.allowed)
    ensures RejectionReason(p, args) == Some(DataPatternMismatch) <==>
      WellFormed(p) && MayDecide(p, args.allowed) && !WholeMatch(p, args.pattern)
  {
    assert args.allowed == {} <==> |args.allowed| == 0;
  }

  lemma QueryIdAt(ps: seq<Press>, p: Press)
    requires p in ps && p.queryId.Some?
    ensures p.queryId.value in QueryIds(ps)
  {
    var i :| 0 <= i < |ps| && ps[i] == p;
    assert QueryIds(ps)[i] == p.queryId.value;
  }

  /** The acknowledgements that the contract names are those of every accepted press that is not yet answered. */
  lemma AnswersAllDue(ps: seq<Press>, args: Args, p: Press)
    requires p in ps && Watched(p, args) && WellFormed(p) && MayDecide(p, args.allowed) && WholeMatch(p, args.pattern)
    requires args.autoAnswer && !args.peek && !p.answered
    ensures p.queryId.value in QueryIds(NeedingAnswer(ps, args))
  {
    RejectedFor(p, args);
    OnlyMembers(ps, q => NeedsAnswer(q, args));
    QueryIdAt(NeedingAnswer(ps, args), p);
  }

  lemma StepOf(ps: seq<Press>, i: nat, args: Args)
    requires i < |ps|
    ensures AcceptedOf(ps[..i + 1], args) == AcceptedOf(ps[..i], args) + if Accepted(ps[i], args) then [ps[i]] else []
    ensures RejectedOf(ps[..i + 1], args) == RejectedOf(ps[..i], args) + if Rejected(ps[i], args) then [ps[i]] else []
    ensures QueryIds(NeedingAnswer(ps[..i + 1], args)) ==
            QueryIds(NeedingAnswer(ps[..i], args)) + if NeedsAnswer(ps[i], args) then [ps[i].queryId.value] else []
    ensures forall cursor :: CursorAfter(cursor, ps[..i + 1]) == NextCursor(CursorAfter(cursor, ps[..i]), ps[i])
  {
    assert ps[..i + 1][..i] == ps[..i];
  }

  /** Acknowledges an accepted press where that is due, and looks up the session that asked. */
  method Accept(backend: Backend, p: Press, args: Args, ack: bool, lookup: (int, int) -> string) returns (e: Entry)
    requires Accepted(p, args)
    modifies backend`answers
    ensures e.press == p && EntryOk(e, args, lookup)
    ensures backend.answers == old(backend.answers) + if NeedsAnswer(p, args) then [p.queryId.value] else []
    ensures e.answered == (p.answered || (args.autoAnswer && !args.peek && ack))
  {
    var answered := p.answered;
    if args.autoAnswer && !args.peek && !p.answered {
      answered := backend.AnswerCallbackQuery(p.queryId.value, ack);
    }
    var session := None;
    if p.chatId.Some? && p.messageId.Some? {
      var found := lookup(p.chatId.value, p.messageId.value);
      if found != "" {
        session := Some(found);
      }
    }
    e := Entry(p, answered, session);
  }

  /** Whether an accepted entry counts as answered: it was, or its acknowledgement was due and went through. */
  ghost predicate AnsweredBy(e: Entry, args: Args, ps: seq<Press>, acks: nat -> bool) {
    exists i :: 0 <= i < |ps| && ps[i] == e.press
      && e.answered == (e.press.answered || (args.autoAnswer && !args.peek && acks(i)))
  }

  /** The loop of the action: every press read goes into its group, and the due ones are acknowledged on the way. */
  method SortPresses(backend: Backend, args: Args, updates: seq<Press>, acks: nat -> bool, lookup: (int, int) -> string)
    returns (accepted: seq<Entry>, ignored: seq<Ignored>, cursor: Option<int>)
    modifies backend`answers
    ensures PressesOf(accepted) == AcceptedOf(updates, args)
    ensures IgnoredPresses(ignored) == RejectedOf(updates, args)
    ensures forall e :: e in accepted ==> EntryOk(e, args, lookup) && AnsweredBy(e, args, updates, acks)
    ensures forall g :: g in ignored ==> RejectionReason(g.press, args) == Some(g.reason)
    ensures cursor == CursorAfter(args.sinceId, updates)
    ensures backend.answers == old(backend.answers) + QueryIds(NeedingAnswer(updates, args))
  {
    accepted, ignored, cursor := [], [], args.sinceId;
    for i := 0 to |updates|
      invariant PressesOf(accepted) == AcceptedOf(updates[..i], args)
      invariant IgnoredPresses(ignored) == RejectedOf(updates[..i], args)
      invariant forall e :: e in accepted ==> EntryOk(e, args, lookup) && AnsweredBy(e, args, updates, acks)
      invariant forall g :: g in ignored ==> RejectionReason(g.press, args) == Some(g.reason)
      invariant cursor == CursorAfter(args.sinceId, updates[..i])
      invariant backend.answers == old(backend.answers) + QueryIds(NeedingAnswer(updates[..i], args))
    {
      var p := updates[i];
      StepOf(updates, i, args);
      cursor := NextCursor(cursor, p);
      if args.messageId != 0 && p.messageId != Some(args.messageId) {
        continue;
      }
      var reason := RejectionReason(p, args);
      if reason.Some? {
        ignored := ignored + [Ignored(p, reason.value)];
        continue;
      }
      var entry := Accept(backend, p, args, acks(i), lookup);
      assert AnsweredBy(entry, args, updates, acks);
      accepted := accepted + [entry];
    }
    assert updates[..|updates|] == updates;
  }

  /** `read` is what the backend's read comes to, if it is asked for one; `acks` says how each acknowledgement would go. */
  method HandleCallbacks(backend: Backend, args: Args, read: Result<seq<Press>, bool>, acks: nat -> bool, lookup: (int, int) -> string)
    returns (r: Reply)
    modifies backend
    ensures r == Refused <==> args.answerTextLength > 200 || args.badPattern || (args.messageId != 0 && !args.peek)
    ensures backend.polls == old(backend.polls) + if r.Refused? then [] else [Asked(args.sinceId, !args.peek)]
    ensures r.Read? <==> !r.Refused? && read.Ok?
    ensures !r.Read? ==> backend.answers == old(backend.answers)
    ensures r.Read? ==> PressesOf(r.accepted) == AcceptedOf(read.value, args)
    ensures r.Read? ==> IgnoredPresses(r.ignored) == RejectedOf(read.value, args)
    ensures r.Read? ==> forall e :: e in r.accepted ==> EntryOk(e, args, lookup) && AnsweredBy(e, args, read.value, acks)
    ensures r.Read? ==> r.cursor == CursorAfter(args.sinceId, read.value)
    ensures r.Read? ==> backend.answers == old(backend.answers) + QueryIds(NeedingAnswer(read.value, args))
    // The same, in the fields a caller sees.
    ensures r.Read? && args.allowed != {} ==>
      forall e :: e in r.accepted ==> e.press.fromId.Some? && e.press.fromId.value in args.allowed
    ensures r.Read? && args.pattern.Some? ==>
      forall e :: e in r.accepted ==> e.press.data.Some? && (args.pattern.value)(e.press.data.value) == e.press.data.value
    ensures r.Read? ==> forall p :: p in PressesOf(r.accepted) <==>
      p in read.value && (args.messageId == 0 || p.messageId == Some(args.messageId))
      && p.queryId.Some? && p.queryId.value != "" && p.data.Some?
      && (args.allowed == {} || (p.fromId.Some? && p.fromId.value in args.allowed))
      && (args.pattern.None? || (args.pattern.value)(p.data.value) == p.data.value)
    ensures r.Read? ==> forall g :: g in r.ignored ==>
      && (g.reason == Malformed <==> g.press.queryId.None? || g.press.queryId.value == "" || g.press.data.None?)
      && (g.reason == UnauthorizedSender ==>
          args.allowed != {} && (g.press.fromId.None? || g.press.fromId.value !in args.allowed))
      && (g.reason == DataPatternMismatch ==>
          && (args.allowed == {} || (g.press.fromId.Some? && g.press.fromId.value in args.allowed))
          && args.pattern.Some? && (args.pattern.value)(g.press.data.value) != g.press.data.value)
    ensures r.Read? && args.autoAnswer && !args.peek ==>
      forall e :: e in r.accepted && !e.press.answered ==>
        e.press.queryId.Some? && e.press.queryId.value in backend.answers[|old(backend.answers)|..]
  {
    if args.answerTextLength > MAX_ANSWER_TEXT {
      return Refused;
    }
    if args.badPattern {
      return Refused;
    }
    if args.messageId != 0 && !args.peek {
      return Refused;
    }
    var got := backend.GetCallbackQueries(args.sinceId, !args.peek, read);
    if got.Err? {
      return BackendFailed;
    }
    var accepted, ignored, cursor := SortPresses(backend, args, got.value, acks, lookup);
    r := Read(accepted, ignored, cursor);
    InTheCallersFields(got.value, args, accepted, ignored);
    assert backend.answers[|old(backend.answers)|..] == QueryIds(NeedingAnswer(got.value, args));
  }

  lemma InTheCallersFields(ps: seq<Press>, args: Args, accepted: seq<Entry>, ignored: seq<Ignored>)
    requires PressesOf(accepted) == AcceptedOf(ps, args)
    requires forall g :: g in ignored ==> RejectionReason(g.press, args) == Some(g.reason)
    ensures forall e :: e in accepted ==> e.press in PressesOf(accepted)
    ensures forall p :: p in PressesOf(accepted) <==>
      p in ps && Watched(p, args) && WellFormed(p) && MayDecide(p, args.allowed) && WholeMatch(p, args.pattern)
    ensures forall g :: g in ignored ==>
      && (g.reason == Malformed <==> !WellFormed(g.press))
      && (g.reason == UnauthorizedSender <==> WellFormed(g.press) && !MayDecide(g.press, args.allowed))
      && (g.reason == DataPatternMismatch <==>
          WellFormed(g.press) && MayDecide(g.press, args.allowed) && !WholeMatch(g.press, args.pattern))
    ensures args.autoAnswer && !args.peek ==> forall e :: e in accepted && !e.press.answered ==>
      e.press.queryId.Some? && e.press.queryId.value in QueryIds(NeedingAnswer(ps, args))
  {
    OnlyMembers(ps, q => Accepted(q, args));
    forall e | e in accepted ensures e.press in PressesOf(accepted) {
      var i :| 0 <= i < |accepted| && accepted[i] == e;
      assert PressesOf(accepted)[i] == e.press;
    }
    forall p ensures Accepted(p, args) <==>
      Watched(p, args) && WellFormed(p) && MayDecide(p, args.allowed) && WholeMatch(p, args.pattern)
    {
      RejectedFor(p, args);
    }
    forall g | g in ignored { RejectedFor(g.press, args); }
    forall e | e in accepted && !e.press.answered && args.autoAnswer && !args.peek {
      AnswersAllDue(ps, args, e.press);
    }
  }

  lemma OnlyCounts(ps: seq<Press>, keep: Press -> bool)
    requires ps != []
    ensures var front, last := ps[..|ps| - 1], ps[|ps| - 1];
      multiset(Only(ps, keep)) == multiset(Only(front, keep)) + One(keep(last), last)
  {
  }

  function One(keep: bool, p: Press): multiset<Press> {
    if keep then multiset{p} else multiset{}
  }

  /** A press that joins one of three groups joins their union. */
  lemma JoinsUnion(a: multiset<Press>, r: multiset<Press>, s: multiset<Press>, p: Press, inA: bool, inR: bool, inS: bool)
    requires (inA && !inR && !inS) || (!inA && inR && !inS) || (!inA && !inR && inS)
    ensures (a + One(inA, p)) + (r + One(inR, p)) + (s + One(inS, p)) == a + r + s + multiset{p}
  {
  }

  /** Every press is in exactly one group, as often as it occurs. */
  lemma {:induction false} Partition(ps: seq<Press>, args: Args)
    ensures multiset(AcceptedOf(ps, args)) + multiset(RejectedOf(ps, args)) + multiset(SkippedOf(ps, args)) == multiset(ps)
  {
    if ps != [] {
      var front, last := ps[..|ps| - 1], ps[|ps| - 1];
      Partition(front, args);
      assert ps == front + [last];
      OnlyCounts(ps, p => Accepted(p, args));
      OnlyCounts(ps, p => Rejected(p, args));
      OnlyCounts(ps, p => Skipped(p, args));
      JoinsUnion(multiset(AcceptedOf(front, args)), multiset(RejectedOf(front, args)), multiset(SkippedOf(front, args)),
                 last, Accepted(last, args), Rejected(last, args), Skipped(last, args));
    }
  }

  /** A peek acknowledges nothing, and neither does any read acknowledge a press that already was. */
  lemma {:induction false} AnswersOnlyDue(ps: seq<Press>, args: Args)
    ensures args.peek || !args.autoAnswer ==> NeedingAnswer(ps, args) == []
    ensures forall p :: p in NeedingAnswer(ps, args) ==> p in ps && Accepted(p, args) && !p.answered
  {
    if ps != [] {
      var front, last := ps[..|ps| - 1], ps[|ps| - 1];
      AnswersOnlyDue(front, args);
      assert ps == front + [last];
    }
  }

  // --- the cursor a caller feeds back ---

  /** The cursor is the one passed in, or the id of one of the presses just read, and at least as large as either. */
  lemma {:induction false} CursorIsFromRead(cursor: Option<int>, ps: seq<Press>)
    ensures var c := CursorAfter(cursor, ps);
      && (c == cursor || exists p :: p in ps && p.updateId == c)
      && (cursor.Some? ==> c.Some? && c.value >= cursor.value)
      && (forall p :: p in ps && p.updateId.Some? ==> c.Some? && c.value >= p.updateId.value)
  {
    if ps != [] {
      var front, last := ps[..|ps| - 1], ps[|ps| - 1];
      CursorIsFromRead(cursor, front);
      assert ps == front + [last] && last in ps;
      assert forall p :: p in front ==> p in ps;
    }
  }

  /** What the backend hands the tool: these presses, decoded. */
  predicate Hands(ps: seq<Press>, ids: seq<int>) {
    |ps| == |ids| && forall i :: 0 <= i < |ps| ==> ps[i].updateId == Some(ids[i])
  }

  /**
   * A caller's chain of calls inside a run of the protocol: each call passes the cursor of the last one, and each
   * consuming call that returns moves it to the cursor HandleCallbacks answers with for the presses of that read,
   * which `handed` lists. Peeks may join in but keep the cursor.
   */
  ghost predicate Chained(s: Delivery.State, cursor: Option<int>, steps: seq<Delivery.Step>, handed: seq<seq<Press>>)
    requires Delivery.ValidRun(s, steps)
    decreases |steps|
  {
    steps == [] || (
      && PassesCursor(steps[0], cursor)
      && (if steps[0].Return? then
            handed != [] && Hands(handed[0], Delivery.Presses(s.phase.batch))
            && Chained(Delivery.Next(s, steps[0]), CursorAfter(cursor, handed[0]), steps[1..], handed[1..])
          else Chained(Delivery.Next(s, steps[0]), cursor, steps[1..], handed)))
  }

  predicate PassesCursor(step: Delivery.Step, cursor: Option<int>) {
    match step
    case Fetch(since, _, _, _) => since == cursor
    case Peek(since, _) => since == cursor
    case FetchFails(since, _, _) => since == cursor
    case _ => true
  }

  /** The tool's cursor is the one passed in or one of the ids it was handed. */
  lemma CursorIsHanded(cursor: Option<int>, ps: seq<Press>, ids: seq<int>)
    requires Hands(ps, ids)
    ensures var c := CursorAfter(cursor, ps); c == cursor || (c.Some? && c.value in ids)
  {
    CursorIsFromRead(cursor, ps);
    var c := CursorAfter(cursor, ps);
    if c != cursor {
      var p :| p in ps && p.updateId == c;
      var i :| 0 <= i < |ps| && ps[i] == p;
      assert ids[i] in ids;
    }
  }

  lemma {:induction false} ChainFeedsBack(s: Delivery.State, cursor: Option<int>, steps: seq<Delivery.Step>, handed: seq<seq<Press>>)
    requires Delivery.ValidRun(s, steps) && Chained(s, cursor, steps, handed)
    requires cursor.None? || cursor.value in s.delivered
    ensures Safety.FedBackRun(s, steps)
    decreases |steps|
  {
    if steps != [] {
      var n := Delivery.Next(s, steps[0]);
      if steps[0].Return? {
        CursorIsHanded(cursor, handed[0], Delivery.Presses(s.phase.batch));
        ChainFeedsBack(n, CursorAfter(cursor, handed[0]), steps[1..], handed[1..]);
      } else {
        ChainFeedsBack(n, cursor, steps[1..], handed);
      }
    }
  }

  /**
   * "Pass this back as since_id on the next call": along any chain of consuming calls, whatever arrives, fails or
   * crashes in between, the cursor never makes Telegram drop a press that nobody was handed.
   */
  lemma ChainSkipsNothing(steps: seq<Delivery.Step>, handed: seq<seq<Press>>)
    requires Delivery.ValidRun(Delivery.Init(), steps) && Chained(Delivery.Init(), None, steps, handed)
    ensures Delivery.Run(Delivery.Init(), steps).skipped == {}
  {
    ChainFeedsBack(Delivery.Init(), None, steps, handed);
    Safety.FedBackRunSkipsNothing(Delivery.Init(), steps);
  }
}
