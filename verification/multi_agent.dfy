/** The in-memory conversation registry of `socket/multi_agent.py`
    (`MultiAgentWebSocketManager`): conversations by id, and the reverse
    index from connection (socket session) id to conversation id. Every
    operation is one atomic step from a registry value to a new one; the
    clock is a parameter in milliseconds and the socket.io room calls are
    not modelled. */
module MultiAgent {
  import opened Wrappers

  /** `ConversationSession`. */
  datatype Session = Session(
    convId: string,
    userId: string,
    sessionIds: set<string>,
    agentUids: seq<string>,
    createdAt: int,
    lastActivity: int)

  /** `active_conversations` and `session_to_conv`. */
  datatype Registry = Registry(active: map<string, Session>, index: map<string, string>)

  const EmptyRegistry := Registry(map[], map[])

  /** Each conversation is filed under its own id. */
  predicate Keyed(reg: Registry) {
    forall c | c in reg.active :: reg.active[c].convId == c
  }

  /** No registered conversation is without connections. */
  predicate NoEmptyConversation(reg: Registry) {
    forall c | c in reg.active :: reg.active[c].sessionIds != {}
  }

  /** Every indexed connection points at a registered conversation that
      lists it. */
  predicate IndexSound(reg: Registry) {
    forall s | s in reg.index :: reg.index[s] in reg.active && s in reg.active[reg.index[s]].sessionIds
  }

  /** Every connection a conversation lists is indexed to that very
      conversation, so no connection belongs to two conversations. */
  predicate OneConversationPerConnection(reg: Registry) {
    forall c, s | c in reg.active && s in reg.active[c].sessionIds :: s in reg.index && reg.index[s] == c
  }

  /** What every operation keeps. */
  predicate Valid(reg: Registry) {
    Keyed(reg) && NoEmptyConversation(reg) && IndexSound(reg)
  }

  /** The full two-way agreement between the maps; joins keep it only
      under `JoinKeepsConsistent`'s precondition. */
  predicate Consistent(reg: Registry) {
    Valid(reg) && OneConversationPerConnection(reg)
  }

  /** `join_conversation`: creates the conversation with just this
      connection, or adds the connection to it; always succeeds. */
  function Join(reg: Registry, convId: string, userId: string, sid: string,
                agentUids: seq<string>, now: int): (r: (bool, Registry))
    ensures r.0
    ensures r.1.index == reg.index[sid := convId]
    ensures r.1.active.Keys == reg.active.Keys + {convId}
    ensures forall c | c in reg.active && c != convId :: r.1.active[c] == reg.active[c]
    ensures convId !in reg.active ==>
      var s := r.1.active[convId];
      && s.convId == convId && s.userId == userId && s.sessionIds == {sid}
      && s.agentUids == agentUids && s.createdAt == now && s.lastActivity == now
    ensures convId in reg.active ==>
      var old_ := reg.active[convId];
      var s := r.1.active[convId];
      && s.sessionIds == old_.sessionIds + {sid}
      && s.lastActivity == now
      && s.agentUids == (if agentUids != [] then agentUids else old_.agentUids)
      && s.(sessionIds := old_.sessionIds, lastActivity := old_.lastActivity, agentUids := old_.agentUids) == old_
  {
    var conv :=
      if convId in reg.active then
        var existing := reg.active[convId];
        existing.(sessionIds := existing.sessionIds + {sid},
                  lastActivity := now,
                  agentUids := if agentUids != [] then agentUids else existing.agentUids)
      else
        Session(convId, userId, {sid}, agentUids, now, now);
    (true, Registry(reg.active[convId := conv], reg.index[sid := convId]))
  }

  /** `leave_conversation`: an unindexed connection is refused and nothing
      changes; otherwise the connection leaves its conversation, which is
      deleted when that empties it, and its index entry is removed. */
  function Leave(reg: Registry, sid: string, now: int): (r: (bool, Registry))
    ensures !r.0 <==> sid !in reg.index
    ensures !r.0 ==> r.1 == reg
    ensures r.0 ==> r.1.index == reg.index - {sid}
    ensures r.0 ==>
      var c := reg.index[sid];
      && (forall d | d in reg.active && d != c :: d in r.1.active && r.1.active[d] == reg.active[d])
      && (c in reg.active ==>
            && (c !in r.1.active <==> reg.active[c].sessionIds - {sid} == {})
            && (c in r.1.active ==>
                  && r.1.active[c].sessionIds == reg.active[c].sessionIds - {sid}
                  && r.1.active[c].lastActivity == now
                  && r.1.active[c].(sessionIds := reg.active[c].sessionIds,
                                    lastActivity := reg.active[c].lastActivity) == reg.active[c]))
      && r.1.active.Keys <= reg.active.Keys
  {
    if sid !in reg.index then (false, reg)
    else
      var c := reg.index[sid];
      var active :=
        if c in reg.active then
          var conv := reg.active[c].(sessionIds := reg.active[c].sessionIds - {sid}, lastActivity := now);
          if conv.sessionIds == {} then reg.active - {c} else reg.active[c := conv]
        else reg.active;
      (true, Registry(active, reg.index - {sid}))
  }

  /** The guard of `send_agent_message` and `send_system_message`: an
      unregistered conversation is refused and nothing changes; otherwise
      only that conversation's `last_activity` moves to `now`. */
  function Touch(reg: Registry, convId: string, now: int): (r: (bool, Registry))
    ensures r.0 <==> convId in reg.active
    ensures !r.0 ==> r.1 == reg
    ensures r.0 ==>
      && r.1.index == reg.index
      && r.1.active.Keys == reg.active.Keys
      && r.1.active[convId].lastActivity == now
      && r.1.active[convId].(lastActivity := reg.active[convId].lastActivity) == reg.active[convId]
      && forall c | c in reg.active && c != convId :: r.1.active[c] == reg.active[c]
  {
    if convId !in reg.active then (false, reg)
    else (true, reg.(active := reg.active[convId := reg.active[convId].(lastActivity := now)]))
  }

  /** The payload `send_agent_message` emits to the conversation's room. */
  datatype AgentEnvelope<D> = AgentEnvelope(convId: string, agentId: string, timestampMs: int, data: D)

  /** The payload `send_system_message` emits to the conversation's room. */
  datatype SystemEnvelope<D> = SystemEnvelope(convId: string, messageType: string, timestampMs: int, data: D)

  /** `send_agent_message`: `Some(payload)` is the `True` return, with the
      payload emitted; `None` is `False` for an unregistered conversation. */
  function SendAgentMessage<D>(reg: Registry, convId: string, agentId: string, data: D, nowMs: int)
    : (r: (Option<AgentEnvelope<D>>, Registry))
    ensures r.0.Some? <==> convId in reg.active
    ensures r.0.Some? ==> r.0.value == AgentEnvelope(convId, agentId, nowMs, data)
    ensures r.1 == Touch(reg, convId, nowMs).1
  {
    var (ok, reg') := Touch(reg, convId, nowMs);
    if ok then (Some(AgentEnvelope(convId, agentId, nowMs, data)), reg') else (None, reg')
  }

  /** `send_system_message`, the same guard with the system payload. */
  function SendSystemMessage<D>(reg: Registry, convId: string, messageType: string, data: D, nowMs: int)
    : (r: (Option<SystemEnvelope<D>>, Registry))
    ensures r.0.Some? <==> convId in reg.active
    ensures r.0.Some? ==> r.0.value == SystemEnvelope(convId, messageType, nowMs, data)
    ensures r.1 == Touch(reg, convId, nowMs).1
  {
    var (ok, reg') := Touch(reg, convId, nowMs);
    if ok then (Some(SystemEnvelope(convId, messageType, nowMs, data)), reg') else (None, reg')
  }

  /** `get_conversation_info`. */
  function ConversationInfo(reg: Registry, convId: string): (r: Option<Session>)
    ensures r.Some? <==> convId in reg.active
    ensures r.Some? ==> r.value == reg.active[convId]
  {
    if convId in reg.active then Some(reg.active[convId]) else None
  }

  /** `get_active_conversations`, as a set (the list's order is not kept). */
  function ActiveConversations(reg: Registry): (r: set<Session>)
    requires Keyed(reg)
    ensures forall c | c in reg.active :: reg.active[c] in r
    ensures forall s | s in r :: s.convId in reg.active && reg.active[s.convId] == s
  {
    reg.active.Values
  }

  /** The conversation has been idle longer than the timeout (strictly). */
  predicate Idle(s: Session, nowMs: int, timeoutSeconds: int) {
    nowMs - s.lastActivity > timeoutSeconds * 1000
  }

  /** Some conversation idle at `nowMs` lists connection `sid`. */
  predicate ListedByIdle(reg: Registry, sid: string, nowMs: int, timeoutSeconds: int) {
    exists c | c in reg.active && Idle(reg.active[c], nowMs, timeoutSeconds) :: sid in reg.active[c].sessionIds
  }

  /** `cleanup_inactive_conversations`: removes every idle conversation and
      the index entries of all connections it lists, and counts them. */
  function Cleanup(reg: Registry, nowMs: int, timeoutSeconds: int): (r: (nat, Registry))
    ensures forall c :: c in r.1.active <==> c in reg.active && !Idle(reg.active[c], nowMs, timeoutSeconds)
    ensures forall c | c in r.1.active :: r.1.active[c] == reg.active[c]
    ensures forall s :: s in r.1.index <==> s in reg.index && !ListedByIdle(reg, s, nowMs, timeoutSeconds)
    ensures forall s | s in r.1.index :: r.1.index[s] == reg.index[s]
    ensures r.0 == |reg.active.Keys - r.1.active.Keys|
  {
    var idle := set c | c in reg.active && Idle(reg.active[c], nowMs, timeoutSeconds);
    var active := map c | c in reg.active && c !in idle :: reg.active[c];
    var index := map s | s in reg.index && !ListedByIdle(reg, s, nowMs, timeoutSeconds) :: reg.index[s];
    assert reg.active.Keys - active.Keys == idle;
    (|idle|, Registry(active, index))
  }
}
