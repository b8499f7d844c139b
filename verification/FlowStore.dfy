// The reference semantics of the flow store: every operation is indivisible
// and an expired record is deleted by whoever trips over it.
module FlowStore {
  import opened Wrappers
  import opened OAuth

  datatype StoredFlow = StoredFlow(record: FlowRecord, expiresAt: int)

  type Flows = map<Id, StoredFlow>

  function WithState(f: StoredFlow, methodState: string): StoredFlow {
    f.(record := f.record.(methodState := Some(methodState)))
  }

  function SaveFlow(flows: Flows, id: Id, record: FlowRecord, ttl: int, now: int): (Result<(), AuthError>, Flows)
  {
    if ttl <= 0 then (Err(InternalError("saveFlow: ttl")), flows)
    else (Ok(()), flows[id := StoredFlow(record, now + ttl)])
  }

  function UpdateMethodState(flows: Flows, id: Id, methodState: string, now: int): (Result<(), AuthError>, Flows)
  {
    if id !in flows then (Err(UnknownState), flows)
    else if now >= flows[id].expiresAt then (Err(UnknownState), flows - {id})
    else (Ok(()), flows[id := WithState(flows[id], methodState)])
  }

  function ReadFlow(flows: Flows, id: Id, now: int): (Result<FlowRecord, AuthError>, Flows)
  {
    if id !in flows then (Err(UnknownState), flows)
    else if now >= flows[id].expiresAt then (Err(UnknownState), flows - {id})
    else (Ok(flows[id].record), flows)
  }

  function ConsumeFlow(flows: Flows, id: Id, now: int): (Result<FlowRecord, AuthError>, Flows)
  {
    if id !in flows then (Err(UnknownState), flows)
    else if now >= flows[id].expiresAt then (Err(UnknownState), flows - {id})
    else (Ok(flows[id].record), flows - {id})
  }
}
