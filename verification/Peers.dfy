/**
 * Peer ids as the Bot API spells them, and the cache of input peers that a bounded, rate-limited sweep of folders,
 * contacts and chat lists fills.
 */
module Peers {
  import opened Wrappers

  const CHANNEL_BASE := 1_000_000_000_000
  const PEER_SWEEP_LIMIT := 100
  const PEER_SWEEP_PAGES := 10
  /** Seconds between two sweeps. */
  const PEER_SWEEP_INTERVAL := 15

  /** An input peer: what a request needs to address somebody. `Other` covers the kinds without an id of their own. */
  datatype Peer = User(id: int, hash: int) | Chat(id: int) | Channel(id: int, hash: int) | Other

  /** peerRef and peerID: the id a caller sees. */
  function Ref(p: Peer): int {
    match p
    case User(id, _) => id
    case Chat(id) => -id
    case Channel(id, _) => -CHANNEL_BASE - id
    case Other => 0
  }

  /** The Bot API's spelling, in numbers. */
  lemma RefSpelling(id: int, hash: int)
    ensures Ref(User(id, hash)) == id && Ref(Chat(id)) == -id && Ref(Channel(id, hash)) == -1_000_000_000_000 - id
    ensures Ref(Other) == 0
  {
  }

  /** Which kind of peer an id names, and its MTProto id. */
  datatype Name = UserName(id: int) | ChatName(id: int) | ChannelName(id: int)

  /** The case split of lookupNumeric. */
  function Decode(id: int): Name {
    if id > 0 then UserName(id)
    else if id > -CHANNEL_BASE then ChatName(-id)
    else ChannelName(-id - CHANNEL_BASE)
  }

  predicate Names(n: Name, p: Peer) {
    match p
    case User(id, _) => n == UserName(id)
    case Chat(id) => n == ChatName(id)
    case Channel(id, _) => n == ChannelName(id)
    case Other => false
  }

  /** Every id is the reference of exactly the peers its decoding names. */
  lemma DecodedIsEncoded(id: int, p: Peer)
    ensures Names(Decode(id), p) ==> Ref(p) == id
  {
  }

  predicate InRange(p: Peer) {
    match p
    case User(id, _) => id > 0
    case Chat(id) => 0 <= id < CHANNEL_BASE
    case Channel(id, _) => id >= 0
    case Other => false
  }

  /** A peer's reference decodes to that peer if and only if its id is in the range of its kind. */
  lemma RoundTripIff(p: Peer)
    ensures Names(Decode(Ref(p)), p) <==> InRange(p)
  {
  }

  /** In those ranges no two peers share a reference, whatever their kinds. */
  lemma ReferencesDoNotCollide(p: Peer, q: Peer)
    requires InRange(p) && InRange(q) && Ref(p) == Ref(q)
    ensures (p.User? <==> q.User?) && (p.Chat? <==> q.Chat?) && p.id == q.id
  {
    RoundTripIff(p);
    RoundTripIff(q);
  }

  // --- the cache ---

  type Known = map<int, Peer>

  function Remember(m: Known, p: Peer): Known {
    if Ref(p) == 0 then m else m[Ref(p) := p]
  }

  function RememberAll(m: Known, ps: seq<Peer>): Known {
    if ps == [] then m else Remember(RememberAll(m, ps[..|ps| - 1]), ps[|ps| - 1])
  }

  /** Every entry sits under its own reference. */
  ghost predicate Consistent(m: Known) {
    forall id :: id in m ==> id != 0 && Ref(m[id]) == id
  }

  predicate Mentions(ps: seq<Peer>, id: int) {
    exists p :: p in ps && Ref(p) == id
  }

  lemma {:induction false} RememberAllKnows(m: Known, ps: seq<Peer>)
    requires Consistent(m)
    ensures Consistent(RememberAll(m, ps))
    ensures forall id :: id in RememberAll(m, ps) <==> id in m || (id != 0 && Mentions(ps, id))
  {
    if ps != [] {
      var front, last := ps[..|ps| - 1], ps[|ps| - 1];
      assert ps == front + [last];
      RememberAllKnows(m, front);
      forall id ensures Mentions(ps, id) <==> Mentions(front, id) || Ref(last) == id {
        assert last in ps;
        if Ref(last) == id { assert Mentions(ps, id); }
        if p :| p in front && Ref(p) == id { assert p in ps; }
      }
    }
  }

  /** Of several peers with one reference the last one is kept. */
  lemma {:induction false} RememberAllKeepsLast(m: Known, ps: seq<Peer>, i: nat)
    requires i < |ps| && Ref(ps[i]) != 0 && forall j :: i < j < |ps| ==> Ref(ps[j]) != Ref(ps[i])
    ensures Ref(ps[i]) in RememberAll(m, ps) && RememberAll(m, ps)[Ref(ps[i])] == ps[i]
  {
    if i < |ps| - 1 { RememberAllKeepsLast(m, ps[..|ps| - 1], i); }
  }

  lemma RememberAllAppend(m: Known, a: seq<Peer>, p: Peer)
    ensures RememberAll(m, a + [p]) == Remember(RememberAll(m, a), p)
  {
    assert (a + [p])[..|a + [p]| - 1] == a;
  }

  lemma {:induction false} RememberAllConcat(m: Known, a: seq<Peer>, b: seq<Peer>)
    ensures RememberAll(m, a + b) == RememberAll(RememberAll(m, a), b)
    decreases |b|
  {
    if b == [] {
      assert a + b == a;
    } else {
      var front := b[..|b| - 1];
      RememberAllConcat(m, a, front);
      assert a + b == (a + front) + [b[|b| - 1]];
      RememberAllAppend(m, a + front, b[|b| - 1]);
    }
  }

  // --- where peers come from ---

  datatype Folder = Folder(pinned: seq<Peer>, included: seq<Peer>, excluded: seq<Peer>)

  /** A contact; a `min` one carries no usable access hash. */
  datatype Contact = Contact(id: int, hash: int, min: bool)

  /** What one sweep can read: None is a request that failed; a chat list is what its iteration yields before it ends. */
  datatype Account = Account(folders: Option<seq<Folder>>, contacts: Option<seq<Contact>>, main: seq<Peer>, archive: seq<Peer>)

  function FolderPeers(fs: seq<Folder>): seq<Peer> {
    if fs == [] then []
    else
      var f := fs[|fs| - 1];
      FolderPeers(fs[..|fs| - 1]) + (f.pinned + f.included + f.excluded)
  }

  function ContactPeers(cs: seq<Contact>): seq<Peer> {
    if cs == [] then []
    else
      var c := cs[|cs| - 1];
      ContactPeers(cs[..|cs| - 1]) + if c.min then [] else [User(c.id, c.hash)]
  }

  const WALK_BOUND := PEER_SWEEP_PAGES * PEER_SWEEP_LIMIT

  function Reach(ds: seq<Peer>): seq<Peer> {
    if |ds| <= WALK_BOUND then ds else ds[..WALK_BOUND]
  }

  function Filed(a: Account): seq<Peer> {
    if a.folders.Some? then FolderPeers(a.folders.value) else []
  }

  function Contacts(a: Account): seq<Peer> {
    if a.contacts.Some? then ContactPeers(a.contacts.value) else []
  }

  lemma {:induction false} FolderPeersMembers(fs: seq<Folder>, p: Peer)
    ensures p in FolderPeers(fs) <==> exists f :: f in fs && (p in f.pinned || p in f.included || p in f.excluded)
  {
    if fs != [] {
      var front, last := fs[..|fs| - 1], fs[|fs| - 1];
      assert fs == front + [last];
      FolderPeersMembers(front, p);
    }
  }

  lemma {:induction false} ContactPeersMembers(cs: seq<Contact>, p: Peer)
    ensures p in ContactPeers(cs) <==> exists c :: c in cs && !c.min && p == User(c.id, c.hash)
  {
    if cs != [] {
      var front, last := cs[..|cs| - 1], cs[|cs| - 1];
      assert cs == front + [last];
      ContactPeersMembers(front, p);
    }
  }

  /** A folder names a chat with this id, pinned, included or excluded. */
  ghost predicate InFolders(a: Account, id: int) {
    a.folders.Some? &&
    exists f, p :: f in a.folders.value && (p in f.pinned || p in f.included || p in f.excluded) && Ref(p) == id
  }

  /** A contact that carries its hash has this id. */
  ghost predicate InContacts(a: Account, id: int) {
    a.contacts.Some? && exists c :: c in a.contacts.value && !c.min && c.id == id
  }

  /** One of the first 1000 entries of the chat list has this id. */
  ghost predicate InList(ds: seq<Peer>, id: int) {
    exists i :: 0 <= i < |ds| && i < 1000 && Ref(ds[i]) == id
  }

  ghost predicate InReach(a: Account, id: int) {
    InFolders(a, id) || InContacts(a, id) || InList(a.main, id) || InList(a.archive, id)
  }

  lemma ListIff(ds: seq<Peer>, id: int)
    ensures Mentions(Reach(ds), id) <==> InList(ds, id)
  {
    if i :| 0 <= i < |ds| && i < 1000 && Ref(ds[i]) == id {
      assert Reach(ds)[i] == ds[i] && ds[i] in Reach(ds);
    }
    if p :| p in Reach(ds) && Ref(p) == id {
      var i :| 0 <= i < |Reach(ds)| && Reach(ds)[i] == p;
      assert ds[i] == p;
    }
  }

  lemma FoldersIff(a: Account, id: int)
    ensures Mentions(Filed(a), id) <==> InFolders(a, id)
  {
    if a.folders.Some? {
      forall p ensures p in Filed(a) <==> exists f :: f in a.folders.value && (p in f.pinned || p in f.included || p in f.excluded) {
        FolderPeersMembers(a.folders.value, p);
      }
    }
  }

  lemma ContactsIff(a: Account, id: int)
    ensures Mentions(Contacts(a), id) <==> InContacts(a, id)
  {
    if a.contacts.Some? {
      forall p ensures p in Contacts(a) <==> exists c :: c in a.contacts.value && !c.min && p == User(c.id, c.hash) {
        ContactPeersMembers(a.contacts.value, p);
      }
      if c :| c in a.contacts.value && !c.min && c.id == id {
        assert User(c.id, c.hash) in Contacts(a) && Ref(User(c.id, c.hash)) == id;
      }
    }
  }

  lemma MentionsOf(a: seq<Peer>, b: seq<Peer>, id: int)
    ensures Mentions(a + b, id) <==> Mentions(a, id) || Mentions(b, id)
  {
    if p :| p in a && Ref(p) == id { assert p in a + b; }
    if p :| p in b && Ref(p) == id { assert p in a + b; }
  }

  /** What a sweep covers, source by source. */
  lemma CoveredIff(a: Account, id: int)
    ensures Mentions(Covered(a), id) <==> InReach(a, id)
  {
    MentionsOf(Filed(a) + Contacts(a) + Reach(a.main), Reach(a.archive), id);
    MentionsOf(Filed(a) + Contacts(a), Reach(a.main), id);
    MentionsOf(Filed(a), Contacts(a), id);
    FoldersIff(a, id);
    ContactsIff(a, id);
    ListIff(a.main, id);
    ListIff(a.archive, id);
  }

  /** Every peer a sweep would look at if nothing stopped it early. */
  function Covered(a: Account): seq<Peer> {
    Filed(a) + Contacts(a) + Reach(a.main) + Reach(a.archive)
  }

  /** Having remembered a first part of what is covered is having swept, if that was all of it or found the id. */
  lemma SweptPart(m: Known, m': Known, a: Account, want: int, part: seq<Peer>)
    requires part <= Covered(a) && m' == RememberAll(m, part)
    requires part == Covered(a) || (want != 0 && want in m')
    ensures SweptFor(m, m', a, want)
  {
    assert Covered(a)[..|part|] == part;
    assert SweptTo(m, m', a, want, |part|);
  }

  lemma PartsOfCovered(a: Account, i: nat, j: nat)
    requires i <= |Reach(a.main)| && j <= |Reach(a.archive)|
    ensures Filed(a) <= Covered(a)
    ensures Filed(a) + Contacts(a) <= Covered(a)
    ensures Filed(a) + Contacts(a) + Reach(a.main)[..i] <= Covered(a)
    ensures Filed(a) + Contacts(a) + Reach(a.main) + Reach(a.archive)[..j] <= Covered(a)
  {
  }

  /** The sweep has looked at some first part of what it covers, and at all of it unless it found what it wanted. */
  ghost predicate SweptFor(m: Known, m': Known, a: Account, want: int) {
    exists n: nat :: SweptTo(m, m', a, want, n)
  }

  ghost predicate SweptTo(m: Known, m': Known, a: Account, want: int, n: nat) {
    n <= |Covered(a)| && m' == RememberAll(m, Covered(a)[..n]) && (n < |Covered(a)| ==> want != 0 && want in m')
  }

  /** So a sweep finds an id if and only if it was known or one of the covered peers has it. */
  lemma SweepFindsIffCovered(m: Known, m': Known, a: Account, want: int)
    requires Consistent(m) && SweptFor(m, m', a, want) && want != 0
    ensures Consistent(m') && (want in m' <==> want in m || InReach(a, want))
  {
    CoveredIff(a, want);
    var n: nat :| SweptTo(m, m', a, want, n);
    var all := Covered(a);
    RememberAllKnows(m, all[..n]);
    if want in m' && want !in m {
      var p :| p in all[..n] && Ref(p) == want;
      assert p in all;
    }
    if n == |all| { assert all[..n] == all; }
  }

  class PeerCache {
    var knownPeers: Known
    var sweptAt: Option<int>

    constructor ()
      ensures knownPeers == map[] && sweptAt == None
    {
      knownPeers := map[];
      sweptAt := None;
    }

    method RememberPeerRef(p: Peer)
      modifies this`knownPeers
      ensures knownPeers == Remember(old(knownPeers), p)
    {
      var id := Ref(p);
      if id == 0 {
        return;
      }
      knownPeers := knownPeers[id := p];
    }

    method KnownPeer(id: int) returns (r: Option<Peer>)
      ensures r == if id in knownPeers then Some(knownPeers[id]) else None
    {
      r := if id in knownPeers then Some(knownPeers[id]) else None;
    }

    method Indexed(id: int) returns (found: bool)
      ensures found == (id != 0 && id in knownPeers)
    {
      if id == 0 {
        return false;
      }
      found := id in knownPeers;
    }

    /** Clearing the cache: ResolveNumeric may be called next, and may sweep at once. */
    method ForgetPeers()
      modifies this
      ensures knownPeers == map[] && sweptAt == None
      ensures Consistent(knownPeers) && forall now :: MaySweep(now)
    {
      knownPeers := map[];
      sweptAt := None;
    }

    method RememberGroup(ps: seq<Peer>)
      modifies this`knownPeers
      ensures knownPeers == RememberAll(old(knownPeers), ps)
    {
      for i := 0 to |ps|
        invariant knownPeers == RememberAll(old(knownPeers), ps[..i])
      {
        assert ps[..i + 1][..i] == ps[..i];
        RememberPeerRef(ps[i]);
      }
      assert ps[..|ps|] == ps;
    }

    method RememberFilterPeers(filters: seq<Folder>)
      modifies this`knownPeers
      ensures knownPeers == RememberAll(old(knownPeers), FolderPeers(filters))
    {
      for i := 0 to |filters|
        invariant knownPeers == RememberAll(old(knownPeers), FolderPeers(filters[..i]))
      {
        assert filters[..i + 1][..i] == filters[..i];
        var f := filters[i];
        ghost var before := knownPeers;
        RememberGroup(f.pinned);
        RememberGroup(f.included);
        RememberGroup(f.excluded);
        RememberAllConcat(before, f.pinned, f.included);
        RememberAllConcat(before, f.pinned + f.included, f.excluded);
        RememberAllConcat(old(knownPeers), FolderPeers(filters[..i]), f.pinned + f.included + f.excluded);
      }
      assert filters[..|filters|] == filters;
    }

    method SweepContacts(contacts: Option<seq<Contact>>)
      modifies this`knownPeers
      ensures knownPeers == RememberAll(old(knownPeers), if contacts.Some? then ContactPeers(contacts.value) else [])
    {
      if contacts.None? {
        return;
      }
      var cs := contacts.value;
      for i := 0 to |cs|
        invariant knownPeers == RememberAll(old(knownPeers), ContactPeers(cs[..i]))
      {
        assert cs[..i + 1][..i] == cs[..i];
        RememberAllConcat(old(knownPeers), ContactPeers(cs[..i]), if cs[i].min then [] else [User(cs[i].id, cs[i].hash)]);
        if cs[i].min {
          continue;
        }
        RememberPeerRef(User(cs[i].id, cs[i].hash));
      }
      assert cs[..|cs|] == cs;
    }

    /** Walks a chat list for at most 1000 entries, stopping as soon as the wanted id is known. */
    method SweepDialogs(ds: seq<Peer>, want: int) returns (found: bool, seen: nat)
      modifies this`knownPeers
      ensures seen <= 1000 && seen <= |Reach(ds)| && knownPeers == RememberAll(old(knownPeers), Reach(ds)[..seen])
      ensures found == (want != 0 && want in knownPeers)
      ensures seen < |Reach(ds)| ==> found
    {
      seen := 0;
      while seen < WALK_BOUND
        invariant seen <= |Reach(ds)| && knownPeers == RememberAll(old(knownPeers), Reach(ds)[..seen])
        decreases WALK_BOUND - seen
      {
        if seen >= |ds| {
          break;
        }
        assert Reach(ds)[..seen + 1] == Reach(ds)[..seen] + [ds[seen]];
        RememberAllAppend(old(knownPeers), Reach(ds)[..seen], ds[seen]);
        RememberPeerRef(ds[seen]);
        seen := seen + 1;
        var now := Indexed(want);
        if now {
          return true, seen;
        }
      }
      found := Indexed(want);
    }

    predicate MaySweep(now: int)
      reads this
    {
      sweptAt.None? || now - sweptAt.value >= PEER_SWEEP_INTERVAL
    }

    /** Folders, then contacts, then the main list, then the archive; at most once every 15 seconds. */
    method SweepPeers(account: Account, want: int, connected: bool, now: int)
      modifies this
      ensures !(connected && old(MaySweep(now))) ==> knownPeers == old(knownPeers) && sweptAt == old(sweptAt)
      ensures connected && old(MaySweep(now)) ==> SweptFor(old(knownPeers), knownPeers, account, want) && sweptAt == Some(now)
    {
      if !connected {
        return;
      }
      if sweptAt.Some? && now - sweptAt.value < PEER_SWEEP_INTERVAL {
        return;
      }
      sweptAt := Some(now);
      ghost var m := knownPeers;
      if account.folders.Some? {
        RememberFilterPeers(account.folders.value);
      }
      ghost var part := Filed(account);
      var found := Indexed(want);
      if found {
        PartsOfCovered(account, 0, 0);
        SweptPart(m, knownPeers, account, want, part);
        return;
      }
      SweepContacts(account.contacts);
      RememberAllConcat(m, part, Contacts(account));
      part := part + Contacts(account);
      found := Indexed(want);
      if found {
        PartsOfCovered(account, 0, 0);
        SweptPart(m, knownPeers, account, want, part);
        return;
      }
      var seen;
      found, seen := SweepDialogs(account.main, want);
      RememberAllConcat(m, part, Reach(account.main)[..seen]);
      part := part + Reach(account.main)[..seen];
      if found {
        PartsOfCovered(account, seen, 0);
        SweptPart(m, knownPeers, account, want, part);
        return;
      }
      assert Reach(account.main)[..seen] == Reach(account.main);
      found, seen := SweepDialogs(account.archive, want);
      RememberAllConcat(m, part, Reach(account.archive)[..seen]);
      part := part + Reach(account.archive)[..seen];
      PartsOfCovered(account, 0, seen);
      if !found {
        assert Reach(account.archive)[..seen] == Reach(account.archive);
      }
      SweptPart(m, knownPeers, account, want, part);
    }

    /**
     * `before` and `after` are what the peer manager, which answers by decoded name, knows before and after the
     * sweep. The result always has the id asked for; and there is one if and only if the manager or the index knew
     * it, or a permitted sweep covers it, or the manager has learnt it meanwhile.
     */
    method ResolveNumeric(id: int, before: map<Name, Peer>, after: map<Name, Peer>, account: Account, connected: bool, now: int)
      returns (r: Option<Peer>)
      requires Consistent(knownPeers)
      requires (forall n :: n in before ==> Names(n, before[n])) && (forall n :: n in after ==> Names(n, after[n]))
      modifies this
      ensures Consistent(knownPeers)
      ensures r.Some? ==> Ref(r.value) == id
      ensures r.Some? <==>
        || Decode(id) in before || id in old(knownPeers)
        || (connected && old(sweptAt.None? || now - sweptAt.value >= 15) && id != 0 && InReach(account, id))
        || Decode(id) in after
      ensures Decode(id) in before ==> r == Some(before[Decode(id)])
      ensures Decode(id) !in before && id in old(knownPeers) ==> r == Some(old(knownPeers)[id])
    {
      if Decode(id) in before {
        DecodedIsEncoded(id, before[Decode(id)]);
        return Some(before[Decode(id)]);
      }
      r := KnownPeer(id);
      if r.Some? {
        return;
      }
      SweepPeers(account, id, connected, now);
      if connected && old(MaySweep(now)) {
        SweptIsConsistent(old(knownPeers), knownPeers, account, id);
      }
      r := KnownPeer(id);
      if r.Some? {
        return;
      }
      if Decode(id) in after {
        DecodedIsEncoded(id, after[Decode(id)]);
        return Some(after[Decode(id)]);
      }
      return None;
    }
  }

  lemma SweptIsConsistent(m: Known, m': Known, a: Account, want: int)
    requires Consistent(m) && SweptFor(m, m', a, want)
    ensures Consistent(m') && (want != 0 ==> (want in m' <==> want in m || InReach(a, want)))
  {
    var n: nat :| SweptTo(m, m', a, want, n);
    RememberAllKnows(m, Covered(a)[..n]);
    if want != 0 { SweepFindsIffCovered(m, m', a, want); }
  }
}
