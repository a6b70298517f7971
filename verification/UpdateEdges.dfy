/** Updating an account's edges: what the calls on the builder mean, and what the update compiled from
    them does. */
module UpdateEdges {
  import opened Results
  import opened Selections

  // ---------- The compiled update ----------

  /** An edge in an update; a clear without targets drops the whole edge. */
  datatype EdgeSpec = EdgeSpec(nodes: seq<int>)

  datatype UpdateSpec = UpdateSpec(clear: seq<EdgeSpec>, add: seq<EdgeSpec>)

  function ClearAll(ids: set<int>, edges: seq<EdgeSpec>): set<int>
    decreases |edges|
  {
    if edges == [] then ids
    else ClearAll(if edges[0].nodes == [] then {} else ids - Members(edges[0].nodes), edges[1..])
  }

  function AddAll(ids: set<int>, edges: seq<EdgeSpec>): set<int>
    decreases |edges|
  {
    if edges == [] then ids else AddAll(ids + Members(edges[0].nodes), edges[1..])
  }

  /** The database's side: clears before adds. */
  function Applied(ids: set<int>, spec: UpdateSpec): set<int> {
    AddAll(ClearAll(ids, spec.clear), spec.add)
  }

  // ---------- To-many edges ----------

  datatype Call = Add(ids: seq<int>) | Remove(ids: seq<int>) | Clear

  /** What the calls say when each takes effect at once. */
  function Meant(ids: set<int>, calls: seq<Call>): set<int> {
    if calls == [] then ids
    else
      var before := Meant(ids, calls[..|calls| - 1]);
      match calls[|calls| - 1]
      case Add(more) => before + Members(more)
      case Remove(less) => before - Members(less)
      case Clear => {}
  }

  /** The mutation's bookkeeping. */
  datatype Pending = Pending(added: set<int>, removed: set<int>, cleared: bool)

  function Recorded(calls: seq<Call>): Pending {
    if calls == [] then Pending({}, {}, false)
    else
      var p := Recorded(calls[..|calls| - 1]);
      match calls[|calls| - 1]
      case Add(ids) => p.(added := p.added + Members(ids))
      case Remove(ids) => Pending(p.added - Members(ids), p.removed + Members(ids), p.cleared)
      case Clear => p.(cleared := true)
  }

  /** The ids that were waiting to be added at the last `Clear` and that no later call names. */
  function Stale(calls: seq<Call>): set<int> {
    if calls == [] then {}
    else
      var front := calls[..|calls| - 1];
      match calls[|calls| - 1]
      case Add(ids) => Stale(front) - Members(ids)
      case Remove(ids) => Stale(front) - Members(ids)
      case Clear => Recorded(front).added
  }

  function Outcome(ids: set<int>, p: Pending): set<int> {
    (if p.cleared then {} else ids - p.removed) + p.added
  }

  /** The update does what the calls say, plus the stale ids: clearing does not forget what is waiting
      to be added. */
  lemma {:induction false} OutcomeIsMeantAndStale(ids: set<int>, calls: seq<Call>)
    ensures Outcome(ids, Recorded(calls)) == Meant(ids, calls) + Stale(calls)
    ensures Meant(ids, calls) !! Stale(calls)
    decreases |calls|
  {
    if calls != [] {
      OutcomeIsMeantAndStale(ids, calls[..|calls| - 1]);
    }
  }

  /** Exactly when the update does what the calls say. */
  lemma {:induction false} UpdateIsMeantUnlessStale(ids: set<int>, calls: seq<Call>)
    ensures Outcome(ids, Recorded(calls)) == Meant(ids, calls) <==> Stale(calls) == {}
  {
    OutcomeIsMeantAndStale(ids, calls);
  }

  lemma {:induction false} AddThenClearKeeps(ids: set<int>, id: int)
    ensures Outcome(ids, Recorded([Add([id]), Clear])) == {id} && Meant(ids, [Add([id]), Clear]) == {}
  {
    var calls := [Add([id]), Clear];
    assert calls[..1] == [Add([id])] && calls[..1][..0] == [];
    assert Members([id]) == {id};
    assert Recorded(calls[..1]).added == {id};
  }

  class ToManyEdge {
    var added: set<int>
    var removed: set<int>
    var cleared: bool
    ghost var calls: seq<Call>

    ghost predicate Valid()
      reads this
    {
      Pending(added, removed, cleared) == Recorded(calls)
    }

    constructor ()
      ensures Valid() && calls == []
    {
      added, removed, cleared, calls := {}, {}, false, [];
    }

    method AddIDs(ids: seq<int>)
      requires Valid()
      modifies this
      ensures Valid() && calls == old(calls) + [Add(ids)]
    {
      for i := 0 to |ids|
        invariant added == old(added) + Members(ids[..i])
        invariant removed == old(removed) && cleared == old(cleared) && calls == old(calls)
      {
        MembersNext(ids, i);
        added := added + {ids[i]};
      }
      assert ids[..|ids|] == ids;
      calls := calls + [Add(ids)];
      assert calls[..|calls| - 1] == old(calls);
    }

    method RemoveIDs(ids: seq<int>)
      requires Valid()
      modifies this
      ensures Valid() && calls == old(calls) + [Remove(ids)]
    {
      for i := 0 to |ids|
        invariant added == old(added) - Members(ids[..i]) && removed == old(removed) + Members(ids[..i])
        invariant cleared == old(cleared) && calls == old(calls)
      {
        MembersNext(ids, i);
        added := added - {ids[i]};
        removed := removed + {ids[i]};
      }
      assert ids[..|ids|] == ids;
      calls := calls + [Remove(ids)];
      assert calls[..|calls| - 1] == old(calls);
    }

    method ClearEdge()
      requires Valid()
      modifies this
      ensures Valid() && calls == old(calls) + [Clear]
    {
      cleared := true;
      calls := calls + [Clear];
      assert calls[..|calls| - 1] == old(calls);
    }

    /** The edge's part of `sqlSave`. A removal is left out when the edge is cleared, and an empty one
        always: without targets it would clear the edge. */
    method Compile() returns (spec: UpdateSpec)
      requires Valid()
      ensures forall ids :: Applied(ids, spec) == Outcome(ids, Recorded(calls))
      ensures forall ids :: Applied(ids, spec) == Meant(ids, calls) <==> Stale(calls) == {}
    {
      var clear, add := [], [];
      if cleared {
        clear := clear + [EdgeSpec([])];
      }
      var gone := Listed(removed);
      if |gone| > 0 && !cleared {
        clear := clear + [EdgeSpec(gone)];
      }
      var come := Listed(added);
      if |come| > 0 {
        add := add + [EdgeSpec(come)];
      }
      spec := UpdateSpec(clear, add);
      forall ids
        ensures Applied(ids, spec) == Outcome(ids, Recorded(calls))
        ensures Applied(ids, spec) == Meant(ids, calls) <==> Stale(calls) == {}
      {
        CompiledApplies(ids, Recorded(calls), gone, come, clear, add);
        UpdateIsMeantUnlessStale(ids, calls);
      }
    }
  }

  lemma {:induction false} MembersNext(ids: seq<int>, i: nat)
    requires i < |ids|
    ensures Members(ids[..i + 1]) == Members(ids[..i]) + {ids[i]}
  {
    assert ids[..i + 1] == ids[..i] + [ids[i]];
  }

  /** Iterating over a Go map: every key, in some order. */
  method Listed<T(==)>(ids: set<T>) returns (nodes: seq<T>)
    ensures Members(nodes) == ids && (nodes == [] <==> ids == {})
  {
    nodes := [];
    var left := ids;
    while left != {}
      decreases |left|
      invariant left <= ids && Members(nodes) == ids - left
      invariant nodes == [] <==> ids == left
    {
      var id :| id in left;
      MembersAppend(nodes, id);
      nodes := nodes + [id];
      left := left - {id};
    }
  }

  lemma {:induction false} CompiledApplies(ids: set<int>, p: Pending, gone: seq<int>, come: seq<int>,
                                           clear: seq<EdgeSpec>, add: seq<EdgeSpec>)
    requires Members(gone) == p.removed && Members(come) == p.added
    requires clear == if p.cleared then [EdgeSpec([])] else if gone != [] then [EdgeSpec(gone)] else []
    requires add == if come != [] then [EdgeSpec(come)] else []
    ensures Applied(ids, UpdateSpec(clear, add)) == Outcome(ids, p)
  {
    var kept := if p.cleared then {} else ids - p.removed;
    assert clear != [] ==> clear[1..] == [];
    assert gone == [] ==> p.removed == {} && ids - p.removed == ids;
    assert ClearAll(ids, clear) == kept;
    assert add != [] ==> add[1..] == [];
    assert AddAll(kept, add) == kept + p.added;
  }

  // ---------- To-one edges ----------

  /** `ClearField` drops the waiting id and marks the column; `ClearEdge` only marks it. */
  datatype OneCall = Set(id: int) | ClearField | ClearEdge

  function MeantOne(was: Option<int>, calls: seq<OneCall>): Option<int> {
    if calls == [] then was
    else if calls[|calls| - 1].Set? then Some(calls[|calls| - 1].id)
    else None
  }

  datatype PendingOne = PendingOne(id: Option<int>, cleared: bool)

  function RecordedOne(calls: seq<OneCall>): PendingOne {
    if calls == [] then PendingOne(None, false)
    else
      var p := RecordedOne(calls[..|calls| - 1]);
      match calls[|calls| - 1]
      case Set(id) => p.(id := Some(id))
      case ClearField => PendingOne(None, true)
      case ClearEdge => p.(cleared := true)
  }

  /** The foreign key after the update: NULL by a clear, then the waiting id. */
  function OutcomeOne(was: Option<int>, p: PendingOne): Option<int> {
    if p.id.Some? then p.id else if p.cleared then None else was
  }

  /** An id has been set and not been dropped since. */
  ghost predicate Waiting(calls: seq<OneCall>) {
    exists i :: 0 <= i < |calls| && calls[i].Set? && forall j :: i < j < |calls| ==> calls[j] != ClearField
  }

  lemma {:induction false} RecordedWaits(calls: seq<OneCall>)
    ensures RecordedOne(calls).id.Some? <==> Waiting(calls)
  {
    if calls != [] {
      var front, last := calls[..|calls| - 1], calls[|calls| - 1];
      RecordedWaits(front);
      if Waiting(front) && last != ClearField {
        var i :| 0 <= i < |front| && front[i].Set? && forall j :: i < j < |front| ==> front[j] != ClearField;
        assert calls[i].Set? && forall j :: i < j < |calls| ==> calls[j] != ClearField;
      }
      if Waiting(calls) {
        var i :| 0 <= i < |calls| && calls[i].Set? && forall j :: i < j < |calls| ==> calls[j] != ClearField;
        assert i < |front| ==> front[i].Set? && forall j :: i < j < |front| ==> front[j] != ClearField;
      }
    }
  }

  /** Exactly when the update of a to-one edge differs from the last call: an id was waiting when the
      edge was cleared by name. */
  lemma {:induction false} ToOneIsMeantUnlessClearedByName(was: Option<int>, calls: seq<OneCall>)
    ensures OutcomeOne(was, RecordedOne(calls)) == MeantOne(was, calls) <==>
            !(calls != [] && calls[|calls| - 1] == ClearEdge && Waiting(calls[..|calls| - 1]))
  {
    if calls != [] {
      RecordedWaits(calls[..|calls| - 1]);
    }
  }

  /** The smallest such history: the edge keeps the id that was set before it was cleared. */
  lemma {:induction false} SetThenClearKeeps(was: Option<int>, id: int)
    ensures var calls := [Set(id), ClearEdge];
            MeantOne(was, calls) == None && OutcomeOne(was, RecordedOne(calls)) == Some(id)
  {
    var calls := [Set(id), ClearEdge];
    assert calls[..1] == [Set(id)] && calls[..1][..0] == [];
  }
}
