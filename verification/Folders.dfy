/** Chat folders: picking an id for a new one, reordering the tabs, and moving a chat in and out of one. */
module Folders {
  import opened Wrappers
  import opened Peers

  const FIRST_ID := 2
  const END_ID := 256

  datatype Error = NoneGiven | UnknownFolder(id: int) | NoSlots | NotInFolder | AlreadyInFolder

  /** The least id from 2 to 255 that no folder uses; an error exactly when all 254 are taken. */
  method NextFolderID(existing: seq<int>) returns (r: Result<int, Error>)
    ensures r.Ok? ==> 2 <= r.value <= 255 && r.value !in existing
    ensures r.Ok? ==> forall id :: 2 <= id < r.value ==> id in existing
    ensures r.Err? <==> forall id :: 2 <= id <= 255 ==> id in existing
  {
    for id := FIRST_ID to END_ID
      invariant forall x :: FIRST_ID <= x < id ==> x in existing
    {
      if id !in existing {
        return Ok(id);
      }
    }
    return Err(NoSlots);
  }

  // --- reordering ---

  /** First occurrences, in order. */
  function Dedup(ids: seq<int>): seq<int> {
    if ids == [] then []
    else
      var front := Dedup(ids[..|ids| - 1]);
      if ids[|ids| - 1] in ids[..|ids| - 1] then front else front + [ids[|ids| - 1]]
  }

  function Others(existing: seq<int>, named: seq<int>): seq<int> {
    if existing == [] then []
    else
      var front := Others(existing[..|existing| - 1], named);
      if existing[|existing| - 1] in named then front else front + [existing[|existing| - 1]]
  }

  lemma {:induction false} DedupMembers(ids: seq<int>)
    ensures Distinct(Dedup(ids)) && forall x :: x in Dedup(ids) <==> x in ids
  {
    if ids != [] {
      DedupMembers(ids[..|ids| - 1]);
      assert ids == ids[..|ids| - 1] + [ids[|ids| - 1]];
    }
  }

  /** The k-th id of the request is named here for the first time. */
  predicate FirstTime(ids: seq<int>, k: nat)
    requires k < |ids|
  {
    ids[k] !in ids[..k]
  }

  /** The ids keep the order in which the request first names them: two of them come from two first mentions in that order. */
  lemma {:induction false} DedupKeepsOrder(ids: seq<int>, i: nat, j: nat) returns (p: nat, q: nat)
    requires i < j < |Dedup(ids)|
    ensures p < q < |ids| && ids[p] == Dedup(ids)[i] && ids[q] == Dedup(ids)[j]
    ensures FirstTime(ids, p) && FirstTime(ids, q)
  {
    var front, last := ids[..|ids| - 1], |ids| - 1;
    var d := Dedup(front);
    if j < |d| {
      p, q := DedupKeepsOrder(front, i, j);
    } else {
      DedupMembers(front);
      assert d[i] in d;
      p := FirstMention(front, d[i]);
      q := last;
    }
    assert forall k: nat :: k <= last ==> ids[..k] == front[..k];
  }

  lemma {:induction false} FirstMention(ids: seq<int>, x: int) returns (p: nat)
    requires x in ids
    ensures p < |ids| && ids[p] == x && FirstTime(ids, p)
  {
    var front := ids[..|ids| - 1];
    assert ids == front + [ids[|ids| - 1]];
    if x in front {
      p := FirstMention(front, x);
      assert ids[..p] == front[..p];
    } else {
      p := |ids| - 1;
    }
  }

  lemma {:induction false} OthersMembers(existing: seq<int>, named: seq<int>)
    ensures forall x :: x in Others(existing, named) <==> x in existing && x !in named
  {
    if existing != [] {
      OthersMembers(existing[..|existing| - 1], named);
      assert existing == existing[..|existing| - 1] + [existing[|existing| - 1]];
    }
  }

  lemma {:induction false} OthersCount(existing: seq<int>, named: seq<int>, x: int)
    ensures multiset(Others(existing, named))[x] == if x in named then 0 else multiset(existing)[x]
  {
    if existing != [] {
      var front, last := existing[..|existing| - 1], existing[|existing| - 1];
      OthersCount(front, named, x);
      assert existing == front + [last];
    }
  }

  lemma {:induction false} DistinctCount(ids: seq<int>, x: int)
    requires Distinct(ids)
    ensures multiset(ids)[x] == if x in ids then 1 else 0
  {
    if ids != [] {
      var front, last := ids[..|ids| - 1], ids[|ids| - 1];
      DistinctCount(front, x);
      assert ids == front + [last];
    }
  }

  /**
   * What is sent begins with the request, each id once, and goes on with the folders left out in the order they
   * had; when Telegram's own list has no repeats it is a permutation of that list.
   */
  lemma ReorderIsPermutation(order: seq<int>, existing: seq<int>)
    requires (forall id :: id in order ==> id in existing) && Distinct(existing)
    ensures multiset(Dedup(order) + Others(existing, order)) == multiset(existing)
  {
    var sent := Dedup(order) + Others(existing, order);
    DedupMembers(order);
    forall x ensures multiset(sent)[x] == multiset(existing)[x] {
      DistinctCount(Dedup(order), x);
      DistinctCount(existing, x);
      OthersCount(existing, order, x);
    }
  }

  /** `rank` places each folder left out as before: a subsequence of the old list. */
  lemma {:induction false} OthersKeepOrder(existing: seq<int>, named: seq<int>, i: nat, j: nat) returns (p: nat, q: nat)
    requires i < j < |Others(existing, named)|
    ensures p < q < |existing| && existing[p] == Others(existing, named)[i] && existing[q] == Others(existing, named)[j]
  {
    var front, last := existing[..|existing| - 1], |existing| - 1;
    var o := Others(front, named);
    if j < |o| {
      p, q := OthersKeepOrder(front, named, i, j);
    } else {
      OthersMembers(front, named);
      assert o[i] in o;
      p :| 0 <= p < |front| && front[p] == o[i];
      q := last;
    }
  }

  method ReorderFolders(order: seq<int>, existing: seq<int>) returns (r: Result<seq<int>, Error>)
    ensures order == [] ==> r == Err(NoneGiven)
    ensures order != [] ==> (r.Ok? <==> forall id :: id in order ==> id in existing)
    ensures r.Ok? ==> r.value == Dedup(order) + Others(existing, order)
    ensures order != [] && r.Err? ==> r.error.UnknownFolder? && r.error.id in order && r.error.id !in existing
  {
    if |order| == 0 {
      return Err(NoneGiven);
    }
    var seen: set<int> := {};
    var final := [];
    for i := 0 to |order|
      invariant forall x :: x in seen <==> x in order[..i]
      invariant forall x :: x in order[..i] ==> x in existing
      invariant final == Dedup(order[..i])
    {
      assert order[..i + 1][..i] == order[..i] && order[..i + 1] == order[..i] + [order[i]];
      var id := order[i];
      if id !in existing {
        return Err(UnknownFolder(id));
      }
      if id in seen {
        continue;
      }
      seen := seen + {id};
      final := final + [id];
    }
    assert order[..|order|] == order;
    assert forall x :: x in seen <==> x in order;
    ghost var named := final;
    for i := 0 to |existing|
      invariant final == named + Others(existing[..i], order)
    {
      assert existing[..i + 1][..i] == existing[..i];
      var id := existing[i];
      if id !in seen {
        final := final + [id];
      }
    }
    assert existing[..|existing|] == existing;
    return Ok(final);
  }

  // --- a folder's chats ---

  function WithoutRef(ps: seq<Peer>, ref: int): seq<Peer> {
    if ps == [] then []
    else
      var front := WithoutRef(ps[..|ps| - 1], ref);
      if Ref(ps[|ps| - 1]) == ref then front else front + [ps[|ps| - 1]]
  }

  /** Exactly the chats with another reference are left, in the order they had. */
  lemma {:induction false} WithoutRefMembers(ps: seq<Peer>, ref: int)
    ensures forall p :: p in WithoutRef(ps, ref) <==> p in ps && Ref(p) != ref
  {
    if ps != [] {
      WithoutRefMembers(ps[..|ps| - 1], ref);
      assert ps == ps[..|ps| - 1] + [ps[|ps| - 1]];
    }
  }

  lemma {:induction false} WithoutRefKeepsOrder(ps: seq<Peer>, ref: int, i: nat, j: nat) returns (p: nat, q: nat)
    requires i < j < |WithoutRef(ps, ref)|
    ensures p < q < |ps| && ps[p] == WithoutRef(ps, ref)[i] && ps[q] == WithoutRef(ps, ref)[j]
  {
    var front, last := ps[..|ps| - 1], |ps| - 1;
    var w := WithoutRef(front, ref);
    if j < |w| {
      p, q := WithoutRefKeepsOrder(front, ref, i, j);
    } else {
      WithoutRefMembers(front, ref);
      assert w[i] in w;
      p :| 0 <= p < |front| && front[p] == w[i];
      q := last;
    }
  }

  method SetFolderChat(included: seq<Peer>, peer: Peer, remove: bool) returns (r: Result<seq<Peer>, Error>)
    ensures remove ==> r == if Mentions(included, Ref(peer)) then Ok(WithoutRef(included, Ref(peer))) else Err(NotInFolder)
    ensures !remove ==> r == if Mentions(included, Ref(peer)) then Err(AlreadyInFolder) else Ok(included + [peer])
  {
    var target := Ref(peer);
    var kept := [];
    var found := false;
    for i := 0 to |included|
      invariant found == Mentions(included[..i], target)
      invariant kept == if remove then WithoutRef(included[..i], target) else included[..i]
    {
      assert included[..i + 1][..i] == included[..i] && included[..i + 1] == included[..i] + [included[i]];
      MentionsAppend(included[..i], included[i], target);
      if Ref(included[i]) == target {
        found := true;
        if remove {
          continue;
        }
      }
      kept := kept + [included[i]];
    }
    assert included[..|included|] == included;
    if remove && !found {
      return Err(NotInFolder);
    } else if !remove && found {
      return Err(AlreadyInFolder);
    } else if !remove {
      kept := kept + [peer];
    }
    return Ok(kept);
  }

  lemma MentionsAppend(ps: seq<Peer>, p: Peer, id: int)
    ensures Mentions(ps + [p], id) <==> Mentions(ps, id) || Ref(p) == id
  {
    assert p in ps + [p];
    if q :| q in ps && Ref(q) == id { assert q in ps + [p]; }
  }

  lemma {:induction false} WithoutAbsent(ps: seq<Peer>, ref: int)
    requires !Mentions(ps, ref)
    ensures WithoutRef(ps, ref) == ps
  {
    if ps != [] {
      var front, last := ps[..|ps| - 1], ps[|ps| - 1];
      assert ps == front + [last];
      MentionsAppend(front, last, ref);
      WithoutAbsent(front, ref);
    }
  }

  /** Taking a chat out again undoes having put it in, and leaves no reference to it. */
  lemma RemoveUndoesAdd(included: seq<Peer>, peer: Peer)
    requires !Mentions(included, Ref(peer))
    ensures Mentions(included + [peer], Ref(peer)) && WithoutRef(included + [peer], Ref(peer)) == included
  {
    MentionsAppend(included, peer, Ref(peer));
    WithoutAbsent(included, Ref(peer));
    assert (included + [peer])[..|included|] == included;
  }
}
