// The flow half of the session stores: the in-memory one, and D1's, which reads
// a flow and writes the whole record back. Clock readings are parameters.
module SessionStores {
  import opened Wrappers
  import opened OAuth
  import FS = FlowStore

  class MemorySessionStore {
    var flows: FS.Flows

    constructor ()
      ensures flows == map[]
    {
      flows := map[];
    }

    method SaveFlow(flowId: Id, payload: FlowRecord, ttl: int, now: int) returns (r: Result<(), AuthError>)
      modifies this
      ensures (r, flows) == FS.SaveFlow(old(flows), flowId, payload, ttl, now)
    {
      if ttl <= 0 {
        return Err(InternalError("saveFlow: ttl"));
      }
      flows := flows[flowId := FS.StoredFlow(payload, now + ttl)];
      return Ok(());
    }

    method UpdateFlowMethodState(flowId: Id, methodState: string, now: int) returns (r: Result<(), AuthError>)
      modifies this
      ensures (r, flows) == FS.UpdateMethodState(old(flows), flowId, methodState, now)
    {
      if flowId !in flows {
        return Err(UnknownState);
      }
      var stored := flows[flowId];
      if now >= stored.expiresAt {
        flows := flows - {flowId};
        return Err(UnknownState);
      }
      flows := flows[flowId := stored.(record := stored.record.(methodState := Some(methodState)))];
      return Ok(());
    }

    method ReadFlow(flowId: Id, now: int) returns (r: Result<FlowRecord, AuthError>)
      modifies this
      ensures (r, flows) == FS.ReadFlow(old(flows), flowId, now)
    {
      if flowId !in flows {
        return Err(UnknownState);
      }
      var stored := flows[flowId];
      if now >= stored.expiresAt {
        flows := flows - {flowId};
        return Err(UnknownState);
      }
      return Ok(stored.record);
    }

    method ConsumeFlow(flowId: Id, now: int) returns (r: Result<FlowRecord, AuthError>)
      modifies this
      ensures (r, flows) == FS.ConsumeFlow(old(flows), flowId, now)
    {
      if flowId !in flows {
        return Err(UnknownState);
      }
      var stored := flows[flowId];
      flows := flows - {flowId};
      if now >= stored.expiresAt {
        return Err(UnknownState);
      }
      return Ok(stored.record);
    }
  }

  class D1SessionStore {
    var rows: FS.Flows

    constructor ()
      ensures rows == map[]
    {
      rows := map[];
    }

    method SaveFlow(flowId: Id, payload: FlowRecord, ttl: int, now: int) returns (r: Result<(), AuthError>)
      modifies this
      ensures flowId !in old(rows) ==> (r, rows) == FS.SaveFlow(old(rows), flowId, payload, ttl, now)
      ensures flowId in old(rows) ==> r.Err? && rows == old(rows)
    {
      if ttl <= 0 {
        return Err(InternalError("saveFlow: ttl"));
      }
      if flowId in rows {
        return Err(InternalError("saveFlow: insert failed"));
      }
      rows := rows[flowId := FS.StoredFlow(payload, now + ttl)];
      return Ok(());
    }

    // SELECT, then UPDATE … SET payload WHERE flow_id AND expires_at > now. An
    // expired row is refused but stays. Run alone, the UPDATE always finds the row
    // the SELECT found; its failure is for a consume in between (FlowRaces).
    method UpdateFlowMethodState(flowId: Id, methodState: string, now: int) returns (r: Result<(), AuthError>)
      modifies this
      ensures r == FS.UpdateMethodState(old(rows), flowId, methodState, now).0
      ensures rows == if r.Ok? then FS.UpdateMethodState(old(rows), flowId, methodState, now).1 else old(rows)
    {
      if flowId !in rows || now >= rows[flowId].expiresAt {
        return Err(UnknownState);
      }
      var next := rows[flowId].record.(methodState := Some(methodState));
      if flowId in rows && rows[flowId].expiresAt > now {
        rows := rows[flowId := rows[flowId].(record := next)];
        return Ok(());
      }
      return Err(UnknownState);
    }

    // DELETE … RETURNING
    method ConsumeFlow(flowId: Id, now: int) returns (r: Result<FlowRecord, AuthError>)
      modifies this
      ensures (r, rows) == FS.ConsumeFlow(old(rows), flowId, now)
    {
      if flowId !in rows {
        return Err(UnknownState);
      }
      var row := rows[flowId];
      rows := rows - {flowId};
      if now >= row.expiresAt {
        return Err(UnknownState);
      }
      return Ok(row.record);
    }
  }
}
