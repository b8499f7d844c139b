// Flow updates that read a whole record and write it back later, interleaved in
// any way with consumes and with each other. One machine has the writes of every
// store, so whatever holds of it holds of each store.
module FlowRaces {
  import opened Wrappers
  import opened OAuth
  import FS = FlowStore

  // An update between its read and its write: what it read, when, and what it will put in.
  datatype Pending = Pending(flowId: Id, read: FS.StoredFlow, methodState: string, at: int)

  datatype System = System(
    rows: FS.Flows,
    pending: map<Id, Pending>,
    saved: FS.Flows,            // as first saved
    latest: map<Id, string>,    // by flow, the state of the latest update that succeeded
    consumed: set<Id>)

  const EMPTY := System(map[], map[], map[], map[], {})

  // Each carries the clock reading its request took, in no particular order.
  datatype Action =
    | Save(flowId: Id, record: FlowRecord, ttl: int, at: int)
    | ReadForUpdate(pid: Id, flowId: Id, methodState: string, at: int)
    | WriteIfUnexpired(pid: Id)                                // D1: UPDATE … WHERE expires_at > at
    | WriteIfExists(pid: Id)                                   // DynamoDB: put of the item as read, if one is there
    | UpdateInPlace(flowId: Id, methodState: string, at: int)  // memory, Postgres, Durable Object
    | Consume(flowId: Id, at: int)
    | Read(flowId: Id, at: int)
    | Drop(flowIds: set<Id>)                                   // expiry sweeps
    | Abort(pid: Id)

  function Updated(p: Pending): FS.StoredFlow {
    FS.WithState(p.read, p.methodState)
  }

  function DoWrite(s: System, pid: Id, succeeds: bool, row: FS.StoredFlow): System
    requires pid in s.pending
  {
    var p := s.pending[pid];
    if succeeds
    then System(s.rows[p.flowId := row], s.pending - {pid}, s.saved, s.latest[p.flowId := p.methodState], s.consumed)
    else s.(pending := s.pending - {pid})
  }

  function Step(s: System, a: Action): System {
    match a
    case Save(id, record, ttl, at) =>
      var (r, rows) := FS.SaveFlow(s.rows, id, record, ttl, at);
      if r.Ok? then s.(rows := rows, saved := s.saved[id := rows[id]]) else s
    case ReadForUpdate(pid, id, methodState, at) =>
      if id in s.rows && at < s.rows[id].expiresAt
      then s.(pending := s.pending[pid := Pending(id, s.rows[id], methodState, at)])
      else s
    case WriteIfUnexpired(pid) =>
      if pid !in s.pending then s
      else
        var p := s.pending[pid];
        if p.flowId in s.rows && s.rows[p.flowId].expiresAt > p.at
        then DoWrite(s, pid, true, s.rows[p.flowId].(record := Updated(p).record))
        else DoWrite(s, pid, false, p.read)
    case WriteIfExists(pid) =>
      if pid !in s.pending then s
      else DoWrite(s, pid, s.pending[pid].flowId in s.rows, Updated(s.pending[pid]))
    case UpdateInPlace(id, methodState, at) =>
      var (r, rows) := FS.UpdateMethodState(s.rows, id, methodState, at);
      s.(rows := rows, latest := if r.Ok? then s.latest[id := methodState] else s.latest)
    case Consume(id, at) =>
      var (r, rows) := FS.ConsumeFlow(s.rows, id, at);
      s.(rows := rows, consumed := if r.Ok? then s.consumed + {id} else s.consumed)
    case Read(id, at) => s.(rows := FS.ReadFlow(s.rows, id, at).1)
    case Drop(ids) => s.(rows := s.rows - ids)
    case Abort(pid) => s.(pending := s.pending - {pid})
  }

  function After(s: System, acts: seq<Action>): System
    decreases |acts|
  {
    if acts == [] then s else After(Step(s, acts[0]), acts[1..])
  }

  // Flow ids are drawn at random: none is saved twice.
  predicate FreshIds(s: System, acts: seq<Action>)
    decreases |acts|
  {
    acts == [] || ((acts[0].Save? ==> acts[0].flowId !in s.saved) && FreshIds(Step(s, acts[0]), acts[1..]))
  }

  // ---------- What every interleaving keeps ----------

  function WithLatest(s: System, id: Id): FS.StoredFlow
    requires id in s.saved
  {
    if id in s.latest then FS.WithState(s.saved[id], s.latest[id]) else s.saved[id]
  }

  predicate SameButState(a: FS.StoredFlow, b: FS.StoredFlow) {
    a.expiresAt == b.expiresAt && a.record.(methodState := None) == b.record.(methodState := None)
  }

  ghost predicate Inv(s: System) {
    && (forall id | id in s.rows :: id in s.saved && id !in s.consumed && s.rows[id] == WithLatest(s, id))
    && (forall pid | pid in s.pending ::
          var p := s.pending[pid];
          p.flowId in s.saved && SameButState(p.read, s.saved[p.flowId]) && p.at < p.read.expiresAt)
    && s.latest.Keys + s.consumed <= s.saved.Keys
  }

  lemma WriteKeeps(s: System, a: Action)
    requires Inv(s) && (a.WriteIfUnexpired? || a.WriteIfExists?)
    ensures Inv(Step(s, a)) && s.consumed == Step(s, a).consumed
  {
    if a.pid in s.pending {
      var p := s.pending[a.pid];
      assert SameButState(p.read, s.saved[p.flowId]);
    }
  }

  lemma UpdateKeeps(s: System, a: Action)
    requires Inv(s) && (a.UpdateInPlace? || a.ReadForUpdate? || a.Abort?)
    ensures Inv(Step(s, a)) && s.consumed == Step(s, a).consumed
  {
  }

  lemma StepKeeps(s: System, a: Action)
    requires Inv(s) && (a.Save? ==> a.flowId !in s.saved)
    ensures Inv(Step(s, a)) && s.consumed <= Step(s, a).consumed
  {
    if a.WriteIfUnexpired? || a.WriteIfExists? {
      WriteKeeps(s, a);
    } else if a.UpdateInPlace? || a.ReadForUpdate? || a.Abort? {
      UpdateKeeps(s, a);
    }
  }

  // In every interleaving, a stored flow is the saved one with nothing but its
  // method state replaced, by the latest update that succeeded.
  lemma {:induction false} StoredIsSavedWithLatest(s: System, acts: seq<Action>)
    requires Inv(s) && FreshIds(s, acts)
    ensures Inv(After(s, acts)) && s.consumed <= After(s, acts).consumed
    ensures forall id | id in After(s, acts).rows ::
              id in After(s, acts).saved && After(s, acts).rows[id] == WithLatest(After(s, acts), id)
    decreases |acts|
  {
    if acts == [] {
    } else {
      StepKeeps(s, acts[0]);
      StoredIsSavedWithLatest(Step(s, acts[0]), acts[1..]);
    }
  }

  lemma {:induction false} AfterMore(s: System, acts: seq<Action>, more: seq<Action>)
    requires FreshIds(s, acts + more)
    ensures FreshIds(s, acts) && FreshIds(After(s, acts), more)
    ensures After(s, acts + more) == After(After(s, acts), more)
    decreases |acts|
  {
    if acts == [] {
      assert acts + more == more;
    } else {
      assert (acts + more)[1..] == acts[1..] + more;
      AfterMore(Step(s, acts[0]), acts[1..], more);
    }
  }

  // A flow that was consumed never comes back, whatever updates were under way:
  // no later read, update or consume finds it.
  lemma ConsumedStaysGone(acts: seq<Action>, more: seq<Action>, id: Id, at: int)
    requires FreshIds(EMPTY, acts + more) && id in After(EMPTY, acts).consumed
    ensures var rows := After(EMPTY, acts + more).rows;
            id !in rows && FS.ConsumeFlow(rows, id, at) == (Err(UnknownState), rows)
  {
    AfterMore(EMPTY, acts, more);
    StoredIsSavedWithLatest(EMPTY, acts);
    StoredIsSavedWithLatest(After(EMPTY, acts), more);
  }

  // A read-then-write takes effect at the write as if it had been indivisible,
  // on the clock reading the request began with.
  lemma WriteIsAtomicUpdate(acts: seq<Action>, pid: Id)
    requires FreshIds(EMPTY, acts) && pid in After(EMPTY, acts).pending
    ensures var s := After(EMPTY, acts);
            var p := s.pending[pid];
            var (r, rows) := FS.UpdateMethodState(s.rows, p.flowId, p.methodState, p.at);
            && Step(s, WriteIfUnexpired(pid)).rows == rows
            && Step(s, WriteIfExists(pid)).rows == rows
            && (r.Ok? <==> p.flowId in s.rows)
  {
    StoredIsSavedWithLatest(EMPTY, acts);
  }

  // With a reused id it does not: an update begun on the old flow puts the old
  // record in place of the new one.
  lemma ReusedIdLosesTheNewFlow(r: FlowRecord, r': FlowRecord)
    requires r.clientId != r'.clientId
    ensures var s := After(EMPTY, [Save(1, r, 10, 0), ReadForUpdate(7, 1, "x", 0), Consume(1, 0), Save(1, r', 10, 0)]);
            && 1 in s.rows && s.rows[1].record == r'
            && Step(s, WriteIfExists(7)).rows[1].record.clientId == r.clientId
            && Step(s, WriteIfUnexpired(7)).rows[1].record.clientId == r.clientId
  {
    var acts := [Save(1, r, 10, 0), ReadForUpdate(7, 1, "x", 0), Consume(1, 0), Save(1, r', 10, 0)];
    var s1 := Step(EMPTY, acts[0]);
    var s2 := Step(s1, acts[1]);
    var s3 := Step(s2, acts[2]);
    var s4 := Step(s3, acts[3]);
    assert After(s4, []) == s4;
    assert After(s3, acts[3..]) == After(s4, acts[3..][1..]);
    assert acts[2..][1..] == acts[3..] && After(s2, acts[2..]) == After(s3, acts[3..]);
    assert acts[1..][1..] == acts[2..] && After(s1, acts[1..]) == After(s2, acts[2..]);
  }
}
