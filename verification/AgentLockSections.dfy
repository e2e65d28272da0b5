/**
  The Agent's association map, one step per critical section. closeAssoc deletes the entry under the
  lock and closes the cancel channel after it, so several closers may be between the two at once.
 */
module AgentLockSections {

  /** `cancels[ref]` counts how often the cancel channel of association `ref` was closed. */
  datatype State = State(cancels: seq<nat>, assocs: map<nat, nat>, deleted: multiset<nat>, closed: bool)

  datatype Section =
    | Insert(id: nat)      // openAssoc, only from the read loop, after it found the id absent
    | Delete(id: nat)      // closeAssoc up to its unlock: readLocal, writeLocal, reapIdle or closeAll
    | Cancel(ref: nat)     // the rest of closeAssoc
    | Shut                 // closeAll up to its unlock

  const START := State([], map[], multiset{}, false)

  predicate Enabled(s: State, a: Section) {
    match a
    case Insert(id) => !s.closed && id !in s.assocs
    case Delete(id) => true
    case Cancel(ref) => ref in s.deleted && ref < |s.cancels|
    case Shut => !s.closed
  }

  /** Whether the channel is already closed is not looked at: the count shows it never is. */
  function Next(s: State, a: Section): State
    requires Enabled(s, a)
  {
    match a
    case Insert(id) => s.(cancels := s.cancels + [0], assocs := s.assocs[id := |s.cancels|])
    case Delete(id) =>
      if id in s.assocs then s.(assocs := s.assocs - {id}, deleted := s.deleted + multiset{s.assocs[id]}) else s
    case Cancel(ref) => s.(cancels := s.cancels[ref := s.cancels[ref] + 1], deleted := s.deleted - multiset{ref})
    case Shut => s.(closed := true)
  }

  function Run(run: seq<Section>): State
    decreases |run|
  {
    if run == [] then START
    else
      var before := Run(run[..|run| - 1]);
      var a := run[|run| - 1];
      if Enabled(before, a) then Next(before, a) else before
  }

  ghost predicate Mapped(s: State, ref: nat) {
    exists id :: id in s.assocs && s.assocs[id] == ref
  }

  /** An association is in the map, or deleted and about to be cancelled, or cancelled: exactly one. */
  ghost predicate OneFate(s: State) {
    && (forall id :: id in s.assocs ==> s.assocs[id] < |s.cancels|)
    && (forall i, j :: i in s.assocs && j in s.assocs && s.assocs[i] == s.assocs[j] ==> i == j)
    && (forall ref :: 0 <= ref < |s.cancels| ==>
          s.cancels[ref] + s.deleted[ref] == if Mapped(s, ref) then 0 else 1)
    && (forall ref :: ref in s.deleted ==> ref < |s.cancels|)
  }

  lemma SameFate(s: State, s': State, ref: nat, id: nat)
    requires forall i :: i != id ==> (i in s.assocs <==> i in s'.assocs) && (i in s.assocs ==> s.assocs[i] == s'.assocs[i])
    requires id in s.assocs ==> s.assocs[id] != ref
    requires id in s'.assocs ==> s'.assocs[id] != ref
    ensures Mapped(s', ref) <==> Mapped(s, ref)
  {
    if Mapped(s, ref) {
      var i :| i in s.assocs && s.assocs[i] == ref;
      assert s'.assocs[i] == ref;
    }
  }

  lemma InsertFate(s: State, id: nat)
    requires OneFate(s) && Enabled(s, Insert(id))
    ensures OneFate(Next(s, Insert(id)))
  {
    var s', new_ := Next(s, Insert(id)), |s.cancels|;
    assert s'.assocs[id] == new_;
    forall ref | 0 <= ref < |s'.cancels|
      ensures s'.cancels[ref] + s'.deleted[ref] == if Mapped(s', ref) then 0 else 1
    {
      if ref != new_ { SameFate(s, s', ref, id); } else { assert new_ !in s.deleted; }
    }
  }

  lemma DeleteFate(s: State, id: nat)
    requires OneFate(s) && id in s.assocs
    ensures OneFate(Next(s, Delete(id)))
  {
    var s', gone := Next(s, Delete(id)), s.assocs[id];
    assert Mapped(s, gone) && !Mapped(s', gone);
    forall ref | 0 <= ref < |s'.cancels|
      ensures s'.cancels[ref] + s'.deleted[ref] == if Mapped(s', ref) then 0 else 1
    {
      if ref != gone { SameFate(s, s', ref, id); }
    }
  }

  lemma OneFateNext(s: State, a: Section)
    requires OneFate(s) && Enabled(s, a)
    ensures OneFate(Next(s, a))
  {
    match a
    case Insert(id) => InsertFate(s, id);
    case Delete(id) => if id in s.assocs { DeleteFate(s, id); }
    case Cancel(ref) =>
      assert forall r :: Mapped(Next(s, a), r) <==> Mapped(s, r);
      assert s.deleted[ref] >= 1;
    case Shut =>
      assert forall r :: Mapped(Next(s, a), r) <==> Mapped(s, r);
  }

  lemma {:induction false} CancelAtMostOnce(run: seq<Section>)
    ensures OneFate(Run(run))
    ensures forall ref :: 0 <= ref < |Run(run).cancels| ==> Run(run).cancels[ref] <= 1
    decreases |run|
  {
    if run != [] {
      CancelAtMostOnce(run[..|run| - 1]);
      var s, a := Run(run[..|run| - 1]), run[|run| - 1];
      if Enabled(s, a) {
        OneFateNext(s, a);
      }
    }
  }
}
