/**
 * Which session asked a question: an append-only log of registrations, cut back to its newest 500 lines after each
 * one, that is meant to behave like a map in which the newest registration wins.
 */
module ResumeLog {
  import opened Wrappers

  const MAX_RESUME_ENTRIES := 500

  /** A message, by its chat id as fmt.Sprint renders it and its own id. */
  datatype Key = Key(chat: string, messageId: int)

  datatype Line = Record(key: Key, session: string) | Junk

  /** What follows the last newline: nothing, or the beginning of a line whose write was cut short. */
  datatype Tail = Clean | Torn(line: Line)

  datatype Log = Log(lines: seq<Line>, tail: Tail)

  predicate IsAlnum(c: char) {
    'A' <= c <= 'Z' || 'a' <= c <= 'z' || '0' <= c <= '9'
  }

  /** The shape (session|cse)_ and 10 to 48 letters or digits. */
  predicate ValidSession(s: string) {
    (exists n :: 0 <= n <= |s| && (s[..n] == "session_" || s[..n] == "cse_") && 10 <= |s| - n <= 48 &&
      forall i :: n <= i < |s| ==> IsAlnum(s[i]))
  }

  predicate SessionBody(body: string) {
    10 <= |body| <= 48
    && forall i :: 0 <= i < |body| ==> 'A' <= body[i] <= 'Z' || 'a' <= body[i] <= 'z' || '0' <= body[i] <= '9'
  }

  /** Exactly the two prefixes, followed by 10 to 48 letters or digits and nothing else. */
  lemma ValidSessionIff(s: string)
    ensures ValidSession(s) <==> exists body :: SessionBody(body) && (s == "session_" + body || s == "cse_" + body)
  {
    if ValidSession(s) {
      var n :| 0 <= n <= |s| && (s[..n] == "session_" || s[..n] == "cse_") && 10 <= |s| - n <= 48 &&
        forall i :: n <= i < |s| ==> IsAlnum(s[i]);
      assert s == s[..n] + s[n..];
      assert SessionBody(s[n..]);
    }
    if body :| SessionBody(body) && (s == "session_" + body || s == "cse_" + body) {
      if s == "session_" + body { TailIsValid(s, "session_", body); } else { TailIsValid(s, "cse_", body); }
    }
  }

  lemma TailIsValid(s: string, prefix: string, body: string)
    requires s == prefix + body && (prefix == "session_" || prefix == "cse_") && 10 <= |body| <= 48
    requires forall i :: 0 <= i < |body| ==> IsAlnum(body[i])
    ensures ValidSession(s)
  {
    assert s[..|prefix|] == prefix;
    assert forall i :: |prefix| <= i < |s| ==> s[i] == body[i - |prefix|];
  }

  /** The newest registration of a key in a list of lines; "" when there is none. */
  function Newest(lines: seq<Line>, key: Key): string {
    if lines == [] then ""
    else
      var last := lines[|lines| - 1];
      if last.Record? && last.key == key && ValidSession(last.session) then last.session
      else Newest(lines[..|lines| - 1], key)
  }

  function AllLines(log: Log): seq<Line> {
    log.lines + if log.tail.Torn? then [log.tail.line] else []
  }

  function Lookup(log: Log, key: Key): string {
    Newest(AllLines(log), key)
  }

  /** An append lands on a line of its own, unless it is glued to a torn one, which makes both unreadable. */
  function Append(log: Log, r: Line): Log {
    Log(log.lines + [if log.tail.Clean? then r else Junk], Clean)
  }

  /** Where a write that is cut short stops: at a line's end, inside a line, or just before its newline. */
  datatype Stop = AtLineEnd | InsideLine | BeforeNewline

  /** What a write that stopped there leaves of the line it was writing. */
  function Rest(line: Line, stop: Stop): Tail {
    match stop
    case AtLineEnd => Clean
    case InsideLine => Torn(Junk)
    case BeforeNewline => Torn(line)
  }

  /**
   * How the append and the trim go. The append can stop part way, or be whole and fail on closing the file. The trim
   * can fail before it touches the log (it cannot be read, or not be opened), or its rewrite, which truncates the
   * log first, can stop after `kept` lines; it only logs that.
   */
  datatype Writes =
    | AppendStops(stop: Stop)
    | CloseFails
    | TrimDone
    | TrimSkipped
    | TrimCut(kept: nat, stop: Stop)

  predicate AppendFails(w: Writes) {
    w.AppendStops? || w.CloseFails?
  }

  function Last(lines: seq<Line>, n: nat): seq<Line> {
    if |lines| <= n then lines else lines[|lines| - n..]
  }

  function Trim(log: Log, w: Writes): Log {
    if |log.lines| <= MAX_RESUME_ENTRIES || w.TrimSkipped? then log
    else
      var kept := Last(log.lines, MAX_RESUME_ENTRIES);
      if w.TrimCut? && w.kept < |kept| then Log(kept[..w.kept], Rest(kept[w.kept], w.stop)) else Log(kept, Clean)
  }

  /** A torn append leaves the tail it had if nothing was written; glued bytes are unreadable. */
  function StoppedAppend(log: Log, r: Line, stop: Stop): Log {
    if stop.AtLineEnd? then log
    else log.(tail := if log.tail.Clean? then Rest(r, stop) else Torn(Junk))
  }

  /** RecordResumeSession reports success unless AppendFails(w). */
  function Registered(log: Log, r: Line, w: Writes): Log {
    match w
    case AppendStops(stop) => StoppedAppend(log, r, stop)
    case CloseFails => Append(log, r)
    case _ => Trim(Append(log, r), w)
  }

  // --- the map it stands for ---

  lemma {:induction false} NewestOfConcat(a: seq<Line>, b: seq<Line>, key: Key)
    ensures Newest(a + b, key) == if Newest(b, key) != "" then Newest(b, key) else Newest(a, key)
    decreases |b|
  {
    if b == [] {
      assert a + b == a;
    } else {
      var front := b[..|b| - 1];
      assert (a + b)[..|a + b| - 1] == a + front;
      NewestOfConcat(a, front, key);
      NewestIsValid(b, key);
    }
  }

  lemma {:induction false} NewestIsValid(lines: seq<Line>, key: Key)
    ensures Newest(lines, key) != "" ==> ValidSession(Newest(lines, key))
    ensures Newest(lines, key) == "" <==> forall l :: l in lines && l.Record? && l.key == key ==> !ValidSession(l.session)
  {
    if lines != [] {
      var front, last := lines[..|lines| - 1], lines[|lines| - 1];
      NewestIsValid(front, key);
      assert lines == front + [last];
    }
  }

  /** One registration and how its writes go. */
  datatype Attempt = Attempt(r: Line, w: Writes)

  function RunLog(log: Log, run: seq<Attempt>): Log
    decreases |run|
  {
    if run == [] then log else RunLog(Registered(log, run[0].r, run[0].w), run[1..])
  }

  /** The write wrote all of its lines or none of them. The trim may well have been skipped, over and over. */
  predicate Whole(log: Log, w: Writes) {
    match w
    case AppendStops(stop) => stop.AtLineEnd?
    case TrimCut(kept, _) => |log.lines| < MAX_RESUME_ENTRIES || kept >= MAX_RESUME_ENTRIES
    case _ => true
  }

  predicate WholeRun(log: Log, run: seq<Attempt>)
    decreases |run|
  {
    run == [] || (Whole(log, run[0].w) && WholeRun(Registered(log, run[0].r, run[0].w), run[1..]))
  }

  /** The registrations whose line was written, oldest first. */
  function Written(run: seq<Attempt>): seq<Line>
    decreases |run|
  {
    if run == [] then []
    else (if run[0].w.AppendStops? then [] else [run[0].r]) + Written(run[1..])
  }

  /** The log is a tail of everything written, and at least the newest 500 lines of it. */
  ghost predicate HoldsNewest(log: Log, all: seq<Line>) {
    && log.tail.Clean? && |log.lines| <= |all|
    && log.lines == all[|all| - |log.lines|..]
    && (|log.lines| == |all| || |log.lines| >= MAX_RESUME_ENTRIES)
  }

  lemma WholeKeepsNewest(log: Log, all: seq<Line>, r: Line, w: Writes)
    requires HoldsNewest(log, all) && Whole(log, w)
    ensures HoldsNewest(Registered(log, r, w), if w.AppendStops? then all else all + [r])
  {
    if !w.AppendStops? {
      var a := Append(log, r);
      var more := all + [r];
      assert a.lines == more[|more| - |a.lines|..];
      assert Registered(log, r, w) == a || Registered(log, r, w) == Log(Last(a.lines, MAX_RESUME_ENTRIES), Clean);
    }
  }

  lemma WrittenFirst(before: seq<Line>, run: seq<Attempt>)
    requires run != []
    ensures before + Written(run) ==
            (if run[0].w.AppendStops? then before else before + [run[0].r]) + Written(run[1..])
  {
  }

  lemma {:induction false} WholeRunKeepsNewest(log: Log, before: seq<Line>, run: seq<Attempt>, all: seq<Line>)
    requires HoldsNewest(log, before) && WholeRun(log, run) && all == before + Written(run)
    ensures HoldsNewest(RunLog(log, run), all)
    decreases |run|
  {
    if run == [] {
      assert all == before;
    } else {
      var r, w := run[0].r, run[0].w;
      WholeKeepsNewest(log, before, r, w);
      WrittenFirst(before, run);
      WholeRunKeepsNewest(Registered(log, r, w), if w.AppendStops? then before else before + [r], run[1..], all);
    }
  }

  /**
   * After any run of registrations whose writes are whole, with appends that write nothing and trims that cannot be
   * made anywhere among them: the log is the newest lines written, at least 500 of them if there are that many, and
   * at most 500 once a trim has been made.
   */
  lemma LogHoldsNewest500(run: seq<Attempt>)
    requires WholeRun(Log([], Clean), run)
    ensures HoldsNewest(RunLog(Log([], Clean), run), Written(run))
    ensures run != [] && !AppendFails(run[|run| - 1].w) && !run[|run| - 1].w.TrimSkipped?
      ==> |RunLog(Log([], Clean), run).lines| <= 500
  {
    assert [] + Written(run) == Written(run);
    WholeRunKeepsNewest(Log([], Clean), [], run, Written(run));
    if run != [] { LastIsTrimmed(Log([], Clean), run); }
  }

  /** A registration that reports success leaves more than 500 lines only where the trim was not made. */
  lemma BoundIff(log: Log, r: Line, w: Writes)
    requires !AppendFails(w)
    ensures |Registered(log, r, w).lines| <= MAX_RESUME_ENTRIES
      <==> |log.lines| < MAX_RESUME_ENTRIES || !w.TrimSkipped?
  {
  }

  lemma {:induction false} LastIsTrimmed(log: Log, run: seq<Attempt>)
    requires run != []
    ensures var last := run[|run| - 1].w;
      !AppendFails(last) && !last.TrimSkipped? ==> |RunLog(log, run).lines| <= MAX_RESUME_ENTRIES
    decreases |run|
  {
    var n := Registered(log, run[0].r, run[0].w);
    if |run| == 1 {
      assert RunLog(n, run[1..]) == n;
      if !AppendFails(run[0].w) { BoundIff(log, run[0].r, run[0].w); }
    } else {
      LastIsTrimmed(n, run[1..]);
    }
  }

  /** Registration i is the last one of its key. */
  predicate IsLatest(regs: seq<Line>, i: nat)
    requires i < |regs| && regs[i].Record?
  {
    forall j :: i < j < |regs| ==> !(regs[j].Record? && regs[j].key == regs[i].key)
  }

  lemma {:induction false} NewestIsLatest(regs: seq<Line>, i: nat)
    requires i < |regs| && regs[i].Record? && ValidSession(regs[i].session) && IsLatest(regs, i)
    ensures Newest(regs, regs[i].key) == regs[i].session
  {
    if i < |regs| - 1 {
      NewestIsLatest(regs[..|regs| - 1], i);
    }
  }

  lemma KeptLatest(regs: seq<Line>, i: nat, cut: nat)
    requires cut <= i < |regs| && regs[i].Record? && ValidSession(regs[i].session) && IsLatest(regs, i)
    ensures Newest(regs[cut..], regs[i].key) == regs[i].session
  {
    var kept := regs[cut..];
    assert kept[i - cut] == regs[i];
    assert forall j :: 0 <= j < |kept| ==> kept[j] == regs[cut + j];
    NewestIsLatest(kept, i - cut);
  }

  lemma GoneLatest(regs: seq<Line>, i: nat, cut: nat)
    requires i < cut <= |regs| && regs[i].Record? && IsLatest(regs, i)
    ensures Newest(regs[cut..], regs[i].key) == ""
  {
    var kept := regs[cut..];
    NewestIsValid(kept, regs[i].key);
    forall l | l in kept ensures !(l.Record? && l.key == regs[i].key) {
      var j :| 0 <= j < |kept| && kept[j] == l;
      assert regs[cut + j] == l;
    }
  }

  /**
   * Over all those runs a lookup answers with a key's latest session or with nothing, never with an older one; and
   * with the session if fewer than 500 registrations were written after it, or exactly then if the log is trimmed.
   */
  lemma NewestWinsWhileKept(run: seq<Attempt>, i: nat)
    requires WholeRun(Log([], Clean), run)
    requires var regs := Written(run);
      i < |regs| && regs[i].Record? && ValidSession(regs[i].session) && IsLatest(regs, i)
    ensures var regs, log := Written(run), RunLog(Log([], Clean), run);
      && Lookup(log, regs[i].key) == (if |regs| - i <= |log.lines| then regs[i].session else "")
      && (|regs| - 1 - i < 500 ==> Lookup(log, regs[i].key) == regs[i].session)
  {
    LogHoldsNewest500(run);
    var regs, log := Written(run), RunLog(Log([], Clean), run);
    var cut := |regs| - |log.lines|;
    assert AllLines(log) == log.lines == regs[cut..];
    if cut <= i { KeptLatest(regs, i, cut); } else { GoneLatest(regs, i, cut); }
  }

  /** Trimming never changes the answer for a key that survives it, and answers "nothing" for one that does not. */
  lemma TrimKeepsSurvivors(log: Log, key: Key)
    requires log.tail.Clean?
    ensures var t := Trim(log, TrimDone);
      Lookup(t, key) == Lookup(log, key) || (Lookup(t, key) == "" && Newest(t.lines, key) == "")
  {
    var t := Trim(log, TrimDone);
    var gone := log.lines[..|log.lines| - |t.lines|];
    assert log.lines == gone + t.lines;
    NewestOfConcat(gone, t.lines, key);
    assert AllLines(t) == t.lines && AllLines(log) == log.lines;
  }

  // --- when writes fail ---

  /** The old lines that a lookup can still see after a registration that reports success. */
  function OldLeft(log: Log, w: Writes): seq<Line> {
    if |log.lines| < MAX_RESUME_ENTRIES || w.TrimSkipped? then log.lines
    else
      var prior := Last(log.lines, MAX_RESUME_ENTRIES - 1);
      if w.TrimCut? && w.kept < |prior| then prior[..w.kept + if w.stop.BeforeNewline? then 1 else 0] else prior
  }

  /** The new line is one of its own, and the trim's rewrite, if it is cut short, gets as far as that line's end. */
  predicate Lands(log: Log, w: Writes) {
    && log.tail.Clean?
    && (|log.lines| < MAX_RESUME_ENTRIES || !w.TrimCut? || w.kept >= MAX_RESUME_ENTRIES
        || (w.kept == MAX_RESUME_ENTRIES - 1 && w.stop.BeforeNewline?))
  }

  lemma RegisteredLines(log: Log, r: Line, w: Writes)
    requires !AppendFails(w)
    ensures var seen := AllLines(Registered(log, r, w));
      if Lands(log, w) then seen == OldLeft(log, w) + [r]
      else seen == OldLeft(log, w) || seen == OldLeft(log, w) + [Junk]
  {
    var a := Append(log, r);
    var n := Registered(log, r, w);
    if |a.lines| <= MAX_RESUME_ENTRIES || w.TrimSkipped? {
      assert AllLines(n) == a.lines;
    } else {
      var kept := Last(a.lines, MAX_RESUME_ENTRIES);
      var prior := Last(log.lines, MAX_RESUME_ENTRIES - 1);
      assert kept == prior + [a.lines[|log.lines|]];
      if w.TrimCut? && w.kept < |kept| { CutLines(prior, a.lines[|log.lines|], w.kept, w.stop); }
    }
  }

  lemma CutLines(prior: seq<Line>, r: Line, kept: nat, stop: Stop)
    requires kept <= |prior|
    ensures var lines := prior + [r];
      var seen := AllLines(Log(lines[..kept], Rest(lines[kept], stop)));
      if kept == |prior| then seen == prior + match stop { case AtLineEnd => [] case InsideLine => [Junk] case BeforeNewline => [r] }
      else seen == prior[..kept + if stop.BeforeNewline? then 1 else 0] + if stop.InsideLine? then [Junk] else []
  {
  }

  /**
   * Every registration that reports success, whatever state the log was in and whatever became of the trim: a lookup
   * of its key finds the new session, or else what the surviving old lines say; other keys get what those say.
   */
  lemma RegisteredAnswer(log: Log, key: Key, session: string, w: Writes, other: Key)
    requires !AppendFails(w) && ValidSession(session)
    ensures var n := Registered(log, Record(key, session), w);
      Lookup(n, other) == if other == key && Lands(log, w) then session else Newest(OldLeft(log, w), other)
  {
    var r := Record(key, session);
    var prior := OldLeft(log, w);
    RegisteredLines(log, r, w);
    NewestOfOne(r, other);
    NewestOfOne(Junk, other);
    NewestOfConcat(prior, [r], other);
    NewestOfConcat(prior, [Junk], other);
  }

  lemma NewestOfOne(r: Line, key: Key)
    ensures Newest([r], key) == if r.Record? && r.key == key && ValidSession(r.session) then r.session else ""
  {
    assert [r][..0] == [];
    assert Newest([r][..0], key) == "";
  }

  /**
   * A new session, once its registration has reported success, is what the next lookup finds if and only if the log
   * ended in a newline before and the rewrite that trims it got as far as the new line.
   */
  lemma RegisteredIsFoundIff(log: Log, key: Key, session: string, w: Writes)
    requires !AppendFails(w) && ValidSession(session)
    requires forall l :: l in log.lines && l.Record? && l.key == key ==> l.session != session
    ensures Lookup(Registered(log, Record(key, session), w), key) == session <==>
      && log.tail.Clean?
      && (|log.lines| < MAX_RESUME_ENTRIES || !w.TrimCut? || w.kept >= MAX_RESUME_ENTRIES
          || (w.kept == MAX_RESUME_ENTRIES - 1 && w.stop.BeforeNewline?))
  {
    RegisteredAnswer(log, key, session, w, key);
    NewestIsOneOf(OldLeft(log, w), key);
    OldLeftIsOld(log, w);
    ValidIsSomething(session);
  }

  lemma ValidIsSomething(session: string)
    requires ValidSession(session)
    ensures session != ""
  {
  }

  lemma OldLeftIsOld(log: Log, w: Writes)
    ensures forall l :: l in OldLeft(log, w) ==> l in log.lines
  {
  }

  /**
   * A stale session comes back, from a registration that reported success, exactly when the new line was lost and
   * one of the key's older lines was not: a torn log, or a rewrite that stopped between the two.
   */
  lemma StaleReturnsIff(log: Log, key: Key, session: string, w: Writes)
    requires !AppendFails(w) && ValidSession(session)
    requires forall l :: l in log.lines && l.Record? && l.key == key ==> l.session != session
    ensures var found := Lookup(Registered(log, Record(key, session), w), key);
      (found != session && found != "") <==>
      !Lands(log, w) && exists l :: l in OldLeft(log, w) && l.Record? && l.key == key && ValidSession(l.session)
  {
    RegisteredAnswer(log, key, session, w, key);
    NewestIsOneOf(OldLeft(log, w), key);
    NewestIsValid(OldLeft(log, w), key);
    OldLeftIsOld(log, w);
    ValidIsSomething(session);
  }

  /**
   * And a registration that reports an error? Cut short before its line's newline it can be found all the same; on a
   * log that was torn already it takes the torn line with it; otherwise every answer is as before. An error on closing
   * the file comes after the whole line.
   */
  lemma FailedAnswer(log: Log, key: Key, session: string, w: Writes, other: Key)
    requires AppendFails(w) && ValidSession(session)
    ensures Lookup(Registered(log, Record(key, session), w), other) ==
      if w.AppendStops? && w.stop.AtLineEnd? then Lookup(log, other)
      else if other == key && log.tail.Clean? && !(w.AppendStops? && w.stop.InsideLine?) then session
      else Newest(log.lines, other)
  {
    var r := Record(key, session);
    NewestOfOne(r, other);
    NewestOfOne(Junk, other);
    NewestOfConcat(log.lines, [r], other);
    NewestOfConcat(log.lines, [Junk], other);
    ValidIsSomething(session);
    assert log.lines + [] == log.lines;
    var n := Registered(log, r, w);
    assert w.CloseFails? ==> AllLines(n) == log.lines + [if log.tail.Clean? then r else Junk];
  }

  /** So on a torn log every registration is swallowed, whatever becomes of the trim: nothing newer is ever found. */
  lemma TornSwallows(log: Log, key: Key, session: string, w: Writes, other: Key)
    requires log.tail.Torn? && !AppendFails(w) && ValidSession(session)
    ensures Lookup(Registered(log, Record(key, session), w), other) == Newest(OldLeft(log, w), other)
  {
    RegisteredAnswer(log, key, session, w, other);
  }

  /** So every session id of that shape, registered in a log that is whole and not full, is the next lookup's answer. */
  lemma SessionIdIsFound(log: Log, key: Key, body: string)
    requires log.tail.Clean? && |log.lines| < 500 && SessionBody(body)
    ensures Lookup(Registered(log, Record(key, "session_" + body), TrimDone), key) == "session_" + body
    ensures Lookup(Registered(log, Record(key, "cse_" + body), TrimDone), key) == "cse_" + body
  {
    ValidSessionIff("session_" + body);
    ValidSessionIff("cse_" + body);
    RegisteredAnswer(log, key, "session_" + body, TrimDone, key);
    RegisteredAnswer(log, key, "cse_" + body, TrimDone, key);
  }

  const KEY := Key("42", 7)
  const OLD := "session_0000000000"
  const NEW := "session_1111111111"

  lemma BothValid()
    ensures ValidSession(OLD) && ValidSession(NEW)
  {
    assert OLD[..8] == "session_" && NEW[..8] == "session_";
  }

  /** For instance: an append that stops inside its line, and the next registration is swallowed; the old one answers. */
  lemma TornAnswersOld()
    ensures var log := Log([Record(KEY, OLD)], Clean);
      var torn := Registered(log, Record(KEY, NEW), AppendStops(InsideLine));
      Lookup(Registered(torn, Record(KEY, NEW), TrimDone), KEY) == OLD
  {
    BothValid();
    var log := Log([Record(KEY, OLD)], Clean);
    var torn := Registered(log, Record(KEY, NEW), AppendStops(InsideLine));
    TornSwallows(torn, KEY, NEW, TrimDone, KEY);
    NewestOfOne(Record(KEY, OLD), KEY);
  }

  lemma {:induction false} NewestIsOneOf(lines: seq<Line>, key: Key)
    ensures var n := Newest(lines, key);
      n == "" || exists l :: l in lines && l.Record? && l.key == key && l.session == n
  {
    if lines != [] {
      NewestIsOneOf(lines[..|lines| - 1], key);
      var last := lines[|lines| - 1];
      assert last in lines;
    }
  }

  // --- the log as a file ---

  class ResumeMap {
    const configured: bool
    var lines: seq<Line>
    var tail: Tail

    constructor (configured: bool)
      ensures this.configured == configured && Snapshot() == Log([], Clean)
    {
      this.configured := configured;
      lines := [];
      tail := Clean;
    }

    ghost function Snapshot(): Log
      reads this
    {
      Log(lines, tail)
    }

    /** Err for a malformed session id or a failed append, Ok(false) when no file is configured. */
    method RecordResumeSession(key: Key, session: string, w: Writes) returns (r: Result<bool, bool>)
      modifies this
      ensures r == Err(true) <==>
        !exists body :: SessionBody(body) && (session == "session_" + body || session == "cse_" + body)
      ensures r == if !ValidSession(session) then Err(true) else if !configured then Ok(false)
                   else if AppendFails(w) then Err(false) else Ok(true)
      ensures Snapshot() == if ValidSession(session) && configured then Registered(old(Snapshot()), Record(key, session), w)
                            else old(Snapshot())
    {
      ValidSessionIff(session);
      if !ValidSession(session) {
        return Err(true);
      }
      if !configured {
        return Ok(false);
      }
      if w.AppendStops? {
        if !w.stop.AtLineEnd? {
          tail := if tail.Clean? then Rest(Record(key, session), w.stop) else Torn(Junk);
        }
        return Err(false);
      }
      lines := lines + [if tail.Clean? then Record(key, session) else Junk];
      tail := Clean;
      if w.CloseFails? {
        return Err(false);
      }
      TrimResumeMap(w);
      return Ok(true);
    }

    /** Reads the log, and rewrites it if it is too long; an error is only logged. */
    method TrimResumeMap(w: Writes)
      modifies this
      ensures Snapshot() == Trim(old(Snapshot()), w)
    {
      if w.TrimSkipped? {
        return;
      }
      if |lines| <= MAX_RESUME_ENTRIES {
        return;
      }
      var kept := lines[|lines| - MAX_RESUME_ENTRIES..];
      if w.TrimCut? && w.kept < |kept| {
        lines, tail := kept[..w.kept], Rest(kept[w.kept], w.stop);
      } else {
        lines, tail := kept, Clean;
      }
    }

    /** Reads every line and keeps the last match. */
    method LookupResumeSession(key: Key) returns (found: string)
      ensures found == if configured then Lookup(Snapshot(), key) else ""
    {
      found := "";
      if !configured {
        return;
      }
      var all := lines + if tail.Torn? then [tail.line] else [];
      for i := 0 to |all|
        invariant found == Newest(all[..i], key)
      {
        assert all[..i + 1][..i] == all[..i];
        if all[i].Junk? {
          continue;
        }
        if all[i].key != key {
          continue;
        }
        if ValidSession(all[i].session) {
          found := all[i].session;
        }
      }
      assert all[..|all|] == all;
    }
  }
}
