/** ProcessingState: the row the state store keeps per capture flow, the completed-state
    rule of the capture workflow, and the two writes the workflow issues against the store.
    The store is a map keyed by flow id. Its SQL lives in an embedded queries.sql that is not
    part of this model; what the two writes do is taken from the parameters
    ProcessingStateRepository binds: create-if-absent with status Received, and an update
    of status and error message. The LastUpdatedAt column is left out, as a clock value. */
module ProcessingStates {
  import opened Wrappers
  import opened Calendar
  import opened FlowIds

  datatype ProcessingStatus = Received | Processing | Persisted | Sent | Failed

  datatype ProcessingState = ProcessingState(
    captureDate: DateOnly,
    flowId: Guid,
    status: ProcessingStatus,
    errorMessage: Option<string>,
    downstreamSendId: Option<Guid>)

  /** The state store: at most one state per flow id. */
  type StateStore = map<Guid, ProcessingState>

  /** Every state is filed under its own flow id. */
  predicate WellKeyed(states: StateStore) {
    forall g | g in states :: states[g].flowId == g
  }

  /** IsCompletedState: the flow was sent, or persisted with a recorded downstream send. */
  predicate IsCompletedState(state: ProcessingState) {
    state.status == Sent || (state.status == Persisted && state.downstreamSendId.Some?)
  }

  /** CreateStateIfNotExists: a flow without a state gets one, Received, for the capture
      date; a flow that has one keeps it as it is, whatever its date or status. */
  function CreateStateIfNotExists(states: StateStore, captureDate: DateOnly, flowId: Guid): (r: StateStore)
    ensures r.Keys == states.Keys + {flowId}
    ensures forall g | g in states :: r[g] == states[g]
    ensures flowId !in states ==>
      r[flowId] == ProcessingState(captureDate, flowId, Received, None, None)
  {
    if flowId in states then states
    else states[flowId := ProcessingState(captureDate, flowId, Received, None, None)]
  }

  /** UpdateStatus: the flow's status and error message are overwritten (a null message
      clears an earlier one); its capture date and downstream send id are kept. A flow
      without a state is not created. */
  function UpdateStatus(states: StateStore, flowId: Guid, status: ProcessingStatus, error: Option<string>): (r: StateStore)
    ensures r.Keys == states.Keys
    ensures forall g | g in states && g != flowId :: r[g] == states[g]
    ensures flowId in states ==>
      && r[flowId].status == status && r[flowId].errorMessage == error
      && r[flowId].captureDate == states[flowId].captureDate
      && r[flowId].flowId == states[flowId].flowId
      && r[flowId].downstreamSendId == states[flowId].downstreamSendId
  {
    if flowId in states then states[flowId := states[flowId].(status := status, errorMessage := error)]
    else states
  }

  /** GetByFlowId. */
  function GetByFlowId(states: StateStore, flowId: Guid): (r: Option<ProcessingState>)
    ensures r.Some? <==> flowId in states
    ensures r.Some? ==> r.value == states[flowId]
  {
    if flowId in states then Some(states[flowId]) else None
  }

  // ---------------------------------------------------------------- properties

  /** Both writes keep every state filed under its own flow id. */
  lemma WritesKeepWellKeyed(states: StateStore, captureDate: DateOnly, flowId: Guid, status: ProcessingStatus, error: Option<string>)
    requires WellKeyed(states)
    ensures WellKeyed(CreateStateIfNotExists(states, captureDate, flowId))
    ensures WellKeyed(UpdateStatus(states, flowId, status, error))
  {
  }

  /** Only Sent, and Persisted with a downstream send id, are completed: a flow that is
      Received, Processing or Failed is never skipped. */
  lemma CompletedStatuses(state: ProcessingState)
    ensures state.status in {Received, Processing, Failed} ==> !IsCompletedState(state)
    ensures state.status == Sent ==> IsCompletedState(state)
    ensures state.status == Persisted ==> (IsCompletedState(state) <==> state.downstreamSendId.Some?)
  {
  }

  /** Writing Sent completes a state, and writing any other status but Persisted
      un-completes it; Persisted completes it exactly when a downstream send was recorded. */
  lemma StatusWriteCompletes(states: StateStore, flowId: Guid, status: ProcessingStatus, error: Option<string>)
    requires flowId in states
    ensures var r := UpdateStatus(states, flowId, status, error);
      && (status == Sent ==> IsCompletedState(r[flowId]))
      && (status in {Received, Processing, Failed} ==> !IsCompletedState(r[flowId]))
      && (status == Persisted ==> (IsCompletedState(r[flowId]) <==> states[flowId].downstreamSendId.Some?))
  {
  }

  /** Creating a state for a flow that already has one is a no-op, so repeating it is too. */
  lemma CreateIdempotent(states: StateStore, d1: DateOnly, d2: DateOnly, flowId: Guid)
    ensures var once := CreateStateIfNotExists(states, d1, flowId);
      CreateStateIfNotExists(once, d2, flowId) == once
  {
  }
}
