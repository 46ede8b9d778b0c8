/** One client's LoadSession and StoreSession as the sequence of file operations each performs. */
module SessionStorage {
  import opened Wrappers
  import opened Flock
  import opened SessionFile

  datatype LoadError = ErrNotFound | ErrRead | ErrLock

  /** Which system calls report an error; a write can also stop after `written` bytes. */
  datatype Faults = Faults(lock: bool, create: bool, chmod: bool, written: Option<nat>, sync: bool, close: bool, rename: bool, read: bool)

  predicate StoreFails(f: Faults) {
    f.lock || f.create || f.chmod || f.written.Some? || f.sync || f.close || f.rename
  }

  /** The directory around the session file; temporary files have names of their own. */
  class Directory {
    var session: Option<File>
    var temps: map<nat, File>
  }

  class Storage {
    const dir: Directory

    constructor (dir: Directory)
      ensures this.dir == dir
    {
      this.dir := dir;
    }

    /** The register's value, or "not found" for an absent and for an empty file; nothing changes. */
    method LoadSession(faults: Faults) returns (r: Result<Bytes, LoadError>)
      ensures !faults.lock && !faults.read ==>
        r == if dir.session.Some? && |dir.session.value.data| > 0 then Ok(dir.session.value.data) else Err(ErrNotFound)
      ensures faults.lock ==> r == Err(ErrLock)
      ensures !faults.lock && faults.read ==> r == Err(if dir.session.None? then ErrNotFound else ErrRead)
    {
      if faults.lock {
        return Err(ErrLock);
      }
      if dir.session.None? {
        return Err(ErrNotFound);
      }
      if faults.read {
        return Err(ErrRead);
      }
      var data := dir.session.value.data;
      if |data| == 0 {
        return Err(ErrNotFound);
      }
      return Ok(data);
    }

    /** All or nothing: the session becomes the whole flushed value or stays as it was, and no temporary file stays behind. */
    method StoreSession(data: Bytes, faults: Faults, name: nat) returns (ok: bool)
      requires name !in dir.temps
      modifies dir
      ensures ok <==> !faults.lock && !faults.create && !faults.chmod && faults.written.None? && !faults.sync && !faults.close && !faults.rename
      ensures dir.session == if ok then Some(File(data, true)) else old(dir.session)
      ensures dir.temps == old(dir.temps)
    {
      if faults.lock {
        return false;
      }
      if faults.create {
        return false;
      }
      dir.temps := dir.temps[name := File([], false)];
      ok := FillAndRename(data, faults, name);
      dir.temps := dir.temps - {name};
      assert dir.temps == old(dir.temps);
    }

    method FillAndRename(data: Bytes, faults: Faults, name: nat) returns (ok: bool)
      requires name in dir.temps && dir.temps[name] == File([], false)
      requires !faults.lock && !faults.create
      modifies dir
      ensures ok <==> !StoreFails(faults)
      ensures dir.session == if ok then Some(File(data, true)) else old(dir.session)
      ensures forall n :: n != name ==> (n in dir.temps <==> n in old(dir.temps)) && (n in dir.temps ==> dir.temps[n] == old(dir.temps)[n])
    {
      if faults.chmod {
        return false;
      }
      var n := if faults.written.Some? && faults.written.value < |data| then faults.written.value else |data|;
      dir.temps := dir.temps[name := File(data[..n], false)];
      if faults.written.Some? {
        return false;
      }
      if faults.sync {
        return false;
      }
      dir.temps := dir.temps[name := File(dir.temps[name].data, true)];
      if faults.close {
        return false;
      }
      if faults.rename {
        return false;
      }
      assert data[..|data|] == data;
      dir.session := Some(dir.temps[name]);
      dir.temps := dir.temps - {name};
      return true;
    }
  }

  /** What one storage has written another one reads, byte for byte. */
  method StoreAndLoad(writer: Storage, reader: Storage, data: Bytes, faults: Faults, name: nat) returns (r: Option<Result<Bytes, LoadError>>)
    requires writer.dir == reader.dir && name !in writer.dir.temps && |data| > 0
    modifies writer.dir
    ensures r.None? <==> StoreFails(faults)
    ensures r.Some? ==> r.value == Ok(data)
  {
    var ok := writer.StoreSession(data, faults, name);
    if !ok {
      return None;
    }
    var got := reader.LoadSession(NoFaults());
    r := Some(got);
  }

  function NoFaults(): Faults {
    Faults(false, false, false, None, false, false, false, false)
  }

  // --- each call is a run of the shared file's step machine ---

  function Current(s: State): Option<File> {
    if s.versions == [] then None else Some(s.versions[|s.versions| - 1])
  }

  function StoreEnd(s: State, c: nat, data: Bytes, f: Faults): State {
    if StoreFails(f) then At(s, c, Idle, map[]) else AfterStore(s, c, data)
  }

  /** With the lock free, a StoreSession call takes client c through steps that leave the file as the method leaves it. */
  lemma StoreCallIsARun(s: State, c: nat, data: Bytes, f: Faults)
    requires s.holders == map[] && PhaseOf(s, c).Idle?
    ensures Reaches(s, StoreEnd(s, c, data, f)) && PhaseOf(StoreEnd(s, c, data, f), c).Idle?
    ensures Current(StoreEnd(s, c, data, f)) == if StoreFails(f) then Current(s) else Some(File(data, true))
  {
    if f.lock {
      FailsUnlocked(s, c, Store(data));
    } else if f.create {
      StartsAt(s, c, Store(data));
      FailsFrom(s, c, Writing(data, None), Exclusive);
    } else if f.chmod || f.written.Some? {
      var n := if f.chmod then 0 else if f.written.value < |data| then f.written.value else |data|;
      WritesPart(s, c, data, n);
      FailsFrom(s, c, PartOf(data, n), Exclusive);
    } else if f.sync {
      WritesPart(s, c, data, |data|);
      FailsFrom(s, c, PartOf(data, |data|), Exclusive);
    } else if f.close || f.rename {
      Flushes(s, c, data);
      FailsFrom(s, c, Flushed(data), Exclusive);
    } else {
      StoreRuns(s, c, data);
    }
  }

  predicate AnswersFile(answer: Answer, session: Option<File>) {
    answer == if session.Some? && |session.value.data| > 0 then Found(session.value.data) else NotFound
  }

  predicate LoadFails(s: State, f: Faults) {
    f.lock || (f.read && Current(s).Some?)
  }

  function LoadEnd(s: State, c: nat, f: Faults): State {
    if LoadFails(s, f) then At(s, c, Idle, map[]) else AfterLoad(s, c)
  }

  /** And so does a LoadSession call, which answers from the register exactly as the method does from the file. */
  lemma LoadCallIsARun(s: State, c: nat, f: Faults)
    requires VersionsOk(s) && s.holders == map[] && PhaseOf(s, c).Idle?
    ensures Reaches(s, LoadEnd(s, c, f)) && PhaseOf(LoadEnd(s, c, f), c).Idle?
    ensures !LoadFails(s, f) ==> exists l :: LoadEnd(s, c, f).loads == s.loads + [l] && AnswersFile(l.answer, Current(s))
  {
    CurrentIsRegister(s);
    if !LoadFails(s, f) { assert LoadEnd(s, c, f).loads == s.loads + [Loaded(View(Register(s)), Register(s))]; }
    if f.lock {
      FailsUnlocked(s, c, Load);
    } else if s.versions == [] {
      FindsNoFile(s, c);
    } else if f.read {
      StartsAt(s, c, Load);
      FailsFrom(s, c, Reading, Shared);
    } else {
      LoadRuns(s, c);
    }
  }

  lemma FindsNoFile(s: State, c: nat)
    requires VersionsOk(s) && s.versions == [] && s.holders == map[] && PhaseOf(s, c).Idle?
    ensures Reaches(s, AfterLoad(s, c))
  {
    var h := map[c := Shared];
    var reading := At(s, c, Reading, h);
    StartsAt(s, c, Load);
    MoveAt(s, c, Reading, h, Answered(NotFound));
    ThenStep(s, reading, Open(c));
    var logged := s.(loads := s.loads + [Loaded(View(Register(s)), Register(s))]);
    assert Next(reading, Open(c)) == At(logged, c, Answered(NotFound), h);
    LeaveAt(logged, c, Answered(NotFound), Shared);
    ThenStep(s, At(logged, c, Answered(NotFound), h), Release(c));
    assert AfterLoad(s, c) == At(logged, c, Idle, map[]);
  }
}
