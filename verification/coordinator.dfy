/** `process_multi_chat_request` and the validation of the `/multi-chat`
    endpoint in `routers/multi_chat.py`. The agents' calls run
    concurrently in the source; the model fixes one realisation in which
    each agent's messages are sent together, in the order the agents were
    listed, and proves what each agent's own messages are in it. */
module Coordinator {
  import opened Wrappers
  import opened PyStr
  import opened Json
  import opened Dispatcher
  import opened Agents

  /** The conversation-level messages, sent with `send_system_message`. */
  datatype SysMsg =
    | Start(agentCount: nat, agentNames: seq<string>)
    | AllCompleted(agentCount: nat)
    | NoEnabledAgents

  /** What the relay sends to the conversation: a system message, or an
      agent message tagged with the agent's uid. */
  datatype Event = System(sys: SysMsg) | FromAgent(agentUid: string, msg: AgentMsg)

  /** One agent's messages, tagged with its uid. */
  function Tag(uid: string, ms: seq<AgentMsg>): (es: seq<Event>)
    ensures |es| == |ms|
    ensures forall i | 0 <= i < |ms| :: es[i] == FromAgent(uid, ms[i])
  {
    if ms == [] then [] else [FromAgent(uid, ms[0])] + Tag(uid, ms[1..])
  }

  /** The agents' messages, agent after agent. */
  function AgentEvents(agents: seq<Agent>, run: Agent -> seq<AgentMsg>): (es: seq<Event>)
    ensures forall i | 0 <= i < |es| :: es[i].FromAgent? && exists a | a in agents :: es[i].agentUid == a.uid
  {
    if agents == [] then []
    else
      var rest := AgentEvents(agents[1..], run);
      var es := Tag(agents[0].uid, run(agents[0])) + rest;
      forall i | 0 <= i < |es|
        ensures es[i].FromAgent? && exists a | a in agents :: es[i].agentUid == a.uid
      {
        if i >= |run(agents[0])| {
          assert es[i] == rest[i - |run(agents[0])|];
          var a :| a in agents[1..] && rest[i - |run(agents[0])|].agentUid == a.uid;
          assert a in agents;
        } else {
          assert es[i].agentUid == agents[0].uid;
        }
      }
      es
  }

  function Names(agents: seq<Agent>): (ns: seq<string>)
    ensures |ns| == |agents| && forall i | 0 <= i < |agents| :: ns[i] == agents[i].name
  {
    seq(|agents|, i requires 0 <= i < |agents| => agents[i].name)
  }

  /** `process_multi_chat_request` after the lookup: with no agents, one
      error; otherwise the start message, every agent's messages, and the
      completion message, both counting the agents. */
  function FanOut(agents: seq<Agent>, run: Agent -> seq<AgentMsg>): (es: seq<Event>)
    ensures agents == [] <==> es == [System(NoEnabledAgents)]
    ensures agents != [] ==>
      && |es| >= 2
      && es[0] == System(Start(|agents|, Names(agents)))
      && es[|es| - 1] == System(AllCompleted(|agents|))
      && forall i | 0 < i < |es| - 1 :: es[i].FromAgent?
  {
    if agents == [] then [System(NoEnabledAgents)]
    else [System(Start(|agents|, Names(agents)))] + AgentEvents(agents, run) + [System(AllCompleted(|agents|))]
  }

  /** The messages one agent contributed, in order. */
  function Project(es: seq<Event>, uid: string): seq<AgentMsg> {
    if es == [] then []
    else (if es[0].FromAgent? && es[0].agentUid == uid then [es[0].msg] else []) + Project(es[1..], uid)
  }

  lemma {:induction false} ProjectConcat(a: seq<Event>, b: seq<Event>, uid: string)
    ensures Project(a + b, uid) == Project(a, uid) + Project(b, uid)
  {
    if a != [] {
      assert (a + b)[1..] == a[1..] + b;
      ProjectConcat(a[1..], b, uid);
    } else {
      assert a + b == b;
    }
  }

  lemma {:induction false} ProjectTag(owner: string, ms: seq<AgentMsg>, uid: string)
    ensures Project(Tag(owner, ms), uid) == if owner == uid then ms else []
  {
    if ms != [] {
      ProjectTag(owner, ms[1..], uid);
      assert Tag(owner, ms)[1..] == Tag(owner, ms[1..]);
    }
  }

  predicate DistinctUids(agents: seq<Agent>) {
    forall i, j | 0 <= i < j < |agents| :: agents[i].uid != agents[j].uid
  }

  /** The events of agents none of which has `uid` say nothing for it. */
  lemma {:induction false} ProjectAgentEventsAbsent(agents: seq<Agent>, run: Agent -> seq<AgentMsg>, uid: string)
    requires forall a | a in agents :: a.uid != uid
    ensures Project(AgentEvents(agents, run), uid) == []
  {
    if agents != [] {
      ProjectAgentEventsAbsent(agents[1..], run, uid);
      ProjectConcat(Tag(agents[0].uid, run(agents[0])), AgentEvents(agents[1..], run), uid);
      ProjectTag(agents[0].uid, run(agents[0]), uid);
    }
  }

  /** With distinct uids, the events of the agents say for `agents[i]`'s
      uid exactly what its own call produced. */
  lemma {:induction false} ProjectAgentEventsAt(agents: seq<Agent>, run: Agent -> seq<AgentMsg>, i: int)
    requires DistinctUids(agents) && 0 <= i < |agents|
    ensures Project(AgentEvents(agents, run), agents[i].uid) == run(agents[i])
  {
    var uid := agents[i].uid;
    var rest := agents[1..];
    ProjectConcat(Tag(agents[0].uid, run(agents[0])), AgentEvents(rest, run), uid);
    ProjectTag(agents[0].uid, run(agents[0]), uid);
    if i == 0 {
      forall a | a in rest ensures a.uid != uid {
        var j :| 0 <= j < |rest| && rest[j] == a;
        assert agents[j + 1] == a;
      }
      ProjectAgentEventsAbsent(rest, run, uid);
    } else {
      assert rest[i - 1] == agents[i];
      ProjectAgentEventsAt(rest, run, i - 1);
    }
  }

  /** Every listed agent's own messages are sent unaltered and in order,
      and nobody else's are attributed to it. */
  lemma FanOutDeliversEachAgent(agents: seq<Agent>, run: Agent -> seq<AgentMsg>, uid: string)
    requires DistinctUids(agents)
    ensures (forall a | a in agents :: a.uid != uid) ==> Project(FanOut(agents, run), uid) == []
    ensures forall i | 0 <= i < |agents| && agents[i].uid == uid :: Project(FanOut(agents, run), uid) == run(agents[i])
  {
    if agents != [] {
      var s := [System(Start(|agents|, Names(agents)))];
      var c := [System(AllCompleted(|agents|))];
      var body := AgentEvents(agents, run);
      ProjectConcat(s + body, c, uid);
      ProjectConcat(s, body, uid);
      assert Project(s, uid) == [] && Project(c, uid) == [];
      if forall a | a in agents :: a.uid != uid {
        ProjectAgentEventsAbsent(agents, run, uid);
      }
      forall i | 0 <= i < |agents| && agents[i].uid == uid
        ensures Project(FanOut(agents, run), uid) == run(agents[i])
      {
        ProjectAgentEventsAt(agents, run, i);
      }
    } else {
      assert Project([System(NoEnabledAgents)], uid) == [];
    }
  }

  /** The number of terminal agent messages in a run of events. */
  function Terminals(es: seq<Event>): nat {
    if es == [] then 0
    else (if es[0].FromAgent? && IsTerminal(es[0].msg) then 1 else 0) + Terminals(es[1..])
  }

  lemma {:induction false} TerminalsConcat(a: seq<Event>, b: seq<Event>)
    ensures Terminals(a + b) == Terminals(a) + Terminals(b)
  {
    if a != [] {
      assert (a + b)[1..] == a[1..] + b;
      TerminalsConcat(a[1..], b);
    } else {
      assert a + b == b;
    }
  }

  lemma {:induction false} TerminalsTag(uid: string, ms: seq<AgentMsg>)
    requires TerminalOnlyLast(ms)
    ensures Terminals(Tag(uid, ms)) <= 1
  {
    if ms != [] {
      assert Tag(uid, ms)[1..] == Tag(uid, ms[1..]);
      TerminalsTag(uid, ms[1..]);
      if IsTerminal(ms[0]) {
        assert |ms| == 1;
        assert Tag(uid, ms[1..]) == [];
      }
    }
  }

  lemma {:induction false} TerminalsAgentEvents(agents: seq<Agent>, run: Agent -> seq<AgentMsg>)
    requires forall a | a in agents :: TerminalOnlyLast(run(a))
    ensures Terminals(AgentEvents(agents, run)) <= |agents|
  {
    if agents != [] {
      TerminalsAgentEvents(agents[1..], run);
      TerminalsConcat(Tag(agents[0].uid, run(agents[0])), AgentEvents(agents[1..], run));
      TerminalsTag(agents[0].uid, run(agents[0]));
    }
  }

  /** No more `finished` messages are sent than there are agents. */
  lemma FanOutTerminalsBounded(agents: seq<Agent>, run: Agent -> seq<AgentMsg>)
    requires forall a | a in agents :: TerminalOnlyLast(run(a))
    ensures Terminals(FanOut(agents, run)) <= |agents|
  {
    if agents != [] {
      var s := [System(Start(|agents|, Names(agents)))];
      var c := [System(AllCompleted(|agents|))];
      TerminalsConcat(s + AgentEvents(agents, run), c);
      TerminalsConcat(s, AgentEvents(agents, run));
      TerminalsAgentEvents(agents, run);
    }
  }

  /** With distinct uids, each agent is sent at most one `finished`
      message, and nothing of its own follows it. */
  lemma FanOutOneTerminalPerAgent(agents: seq<Agent>, run: Agent -> seq<AgentMsg>)
    requires DistinctUids(agents)
    requires forall a | a in agents :: TerminalOnlyLast(run(a))
    ensures forall uid :: TerminalOnlyLast(Project(FanOut(agents, run), uid))
  {
    forall uid ensures TerminalOnlyLast(Project(FanOut(agents, run), uid)) {
      FanOutDeliversEachAgent(agents, run, uid);
      if i :| 0 <= i < |agents| && agents[i].uid == uid {
        assert agents[i] in agents;
      } else {
        forall a | a in agents ensures a.uid != uid {
          var j :| 0 <= j < |agents| && agents[j] == a;
        }
      }
    }
  }

  /** A duplicate-free listing of table rows never repeats a uid. */
  lemma ListingDistinctUids(t: Table, uids: seq<string>, order: seq<Agent>)
    requires TableInv(t)
    requires (set a | a in order) == EnabledAgentsByUids(t, uids)
    requires forall j, k | 0 <= j < k < |order| :: order[j] != order[k]
    ensures DistinctUids(order)
  {
    UidsInjective(t, set a | a in order);
    forall i, j | 0 <= i < j < |order| ensures order[i].uid != order[j].uid {
      assert order[i] in order && order[j] in order;
    }
  }

  /** A key comes out of the table's gate only for an enabled row. */
  lemma KeyOnlyForEnabled(t: Table, uid: string, decrypt: string -> Option<string>)
    requires TableInv(t)
    requires DecryptedApiKey(t, uid, decrypt).Some?
    ensures exists id | id in t :: t[id].uid == uid && t[id].enabled
  {
    var id :| id in t && t[id].uid == uid;
  }

  /** One agent's call: the key gate of the agent table, then the
      corrected dispatch. Only an enabled agent of the table reaches the
      status message. */
  function RunAgent(t: Table, decrypt: string -> Option<string>, upstream: Agent -> Upstream,
                    decode: string -> Option<Decoded>, a: Agent): (ms: seq<AgentMsg>)
    requires TableInv(t)
    ensures |ms| >= 1 && TerminalOnlyLast(ms)
    ensures ms[0].Status? ==> exists id | id in t :: t[id].uid == a.uid && t[id].enabled
  {
    var key := DecryptedApiKey(t, a.uid, decrypt);
    var ms := Dispatch(a.name, key, upstream(a), decode);
    if ms[0].Status? then KeyOnlyForEnabled(t, a.uid, decrypt); ms else ms
  }

  /** An empty agent list means no requested uid names an enabled row, and
      every listed agent is an enabled requested one. */
  lemma OrderFacts(t: Table, uids: seq<string>, order: seq<Agent>)
    requires (set a | a in order) == EnabledAgentsByUids(t, uids)
    ensures order == [] <==> forall id | id in t :: !(t[id].uid in uids && t[id].enabled)
    ensures forall a | a in order :: a.uid in uids && a.enabled
  {
    if order != [] {
      assert order[0] in EnabledAgentsByUids(t, uids);
    }
  }

  /** A listing without repeats has as many agents as its set. */
  lemma {:induction false} DistinctListingSize(order: seq<Agent>)
    requires forall j, k | 0 <= j < k < |order| :: order[j] != order[k]
    ensures |set a | a in order| == |order|
  {
    if order != [] {
      var rest := order[1..];
      forall j, k | 0 <= j < k < |rest| ensures rest[j] != rest[k] {
        assert rest[j] == order[j + 1] && rest[k] == order[k + 1];
      }
      DistinctListingSize(rest);
      forall k | 0 <= k < |rest| ensures rest[k] != order[0] {
        assert rest[k] == order[k + 1];
      }
      assert (set a | a in order) == {order[0]} + (set a | a in rest);
    }
  }

  /** A listing of the resolved agents, each once, is as long as the
      lookup's result. */
  lemma ListingCountsResolved(t: Table, uids: seq<string>, order: seq<Agent>)
    requires (set a | a in order) == EnabledAgentsByUids(t, uids)
    requires forall j, k | 0 <= j < k < |order| :: order[j] != order[k]
    ensures |order| == |EnabledAgentsByUids(t, uids)|
  {
    DistinctListingSize(order);
  }

  /** The fan-out over a listing of the resolved agents, each once: the
      lone error iff nothing resolved, otherwise start and completion
      messages counting the resolved agents, and only requested uids in
      between. */
  lemma FanOutOverResolved(t: Table, uids: seq<string>, order: seq<Agent>, run: Agent -> seq<AgentMsg>)
    requires (set a | a in order) == EnabledAgentsByUids(t, uids)
    requires forall j, k | 0 <= j < k < |order| :: order[j] != order[k]
    ensures var es := FanOut(order, run);
      && (es == [System(NoEnabledAgents)] <==> forall id | id in t :: !(t[id].uid in uids && t[id].enabled))
      && (es != [System(NoEnabledAgents)] ==>
            && |es| >= 2
            && es[0] == System(Start(|EnabledAgentsByUids(t, uids)|, Names(order)))
            && es[|es| - 1] == System(AllCompleted(|EnabledAgentsByUids(t, uids)|)))
      && forall i | 0 <= i < |es| && es[i].FromAgent? :: es[i].agentUid in uids
  {
    OrderFacts(t, uids, order);
    ListingCountsResolved(t, uids, order);
  }

  /** `process_multi_chat_request`: `order` lists the enabled requested
      agents, each once, as the table returns them. The start and
      completion messages count the agents the lookup resolved. */
  function ProcessRequest(t: Table, uids: seq<string>, order: seq<Agent>,
                          decrypt: string -> Option<string>, upstream: Agent -> Upstream,
                          decode: string -> Option<Decoded>): (es: seq<Event>)
    requires TableInv(t)
    requires (set a | a in order) == EnabledAgentsByUids(t, uids)
    requires forall j, k | 0 <= j < k < |order| :: order[j] != order[k]
    ensures es == [System(NoEnabledAgents)] <==> forall id | id in t :: !(t[id].uid in uids && t[id].enabled)
    ensures es != [System(NoEnabledAgents)] ==>
      && |es| >= 2
      && es[0] == System(Start(|EnabledAgentsByUids(t, uids)|, Names(order)))
      && es[|es| - 1] == System(AllCompleted(|EnabledAgentsByUids(t, uids)|))
    ensures forall i | 0 <= i < |es| && es[i].FromAgent? :: es[i].agentUid in uids
    ensures forall uid :: TerminalOnlyLast(Project(es, uid))
  {
    var run := a => RunAgent(t, decrypt, upstream, decode, a);
    FanOutOverResolved(t, uids, order, run);
    ListingDistinctUids(t, uids, order);
    FanOutOneTerminalPerAgent(order, run);
    FanOut(order, run)
  }

  /** Each enabled requested agent's messages are sent exactly as its own
      call produced them: rows of the table never share a uid. */
  lemma ProcessRequestDeliversEachAgent(t: Table, uids: seq<string>, order: seq<Agent>,
                                        decrypt: string -> Option<string>, upstream: Agent -> Upstream,
                                        decode: string -> Option<Decoded>, i: int)
    requires TableInv(t)
    requires (set a | a in order) == EnabledAgentsByUids(t, uids)
    requires forall j, k | 0 <= j < k < |order| :: order[j] != order[k]
    requires 0 <= i < |order|
    ensures Project(ProcessRequest(t, uids, order, decrypt, upstream, decode), order[i].uid)
         == RunAgent(t, decrypt, upstream, decode, order[i])
  {
    UidsInjective(t, set a | a in order);
    FanOutDeliversEachAgent(order, a => RunAgent(t, decrypt, upstream, decode, a), order[i].uid);
  }

  /** One agent's call as the code is written: an agent with a stored
      configuration fails while its payload is built. Without one it is
      the same call as `RunAgent`. */
  function RunAgentAsWritten(t: Table, decrypt: string -> Option<string>, upstream: Agent -> Upstream,
                             decode: string -> Option<Decoded>, a: Agent): (ms: seq<AgentMsg>)
    requires TableInv(t)
    ensures |ms| >= 1 && TerminalOnlyLast(ms)
    ensures a.config.Some? ==> |ms| == 1 && ms[0].Error?
    ensures a.config.None? ==> ms == RunAgent(t, decrypt, upstream, decode, a)
  {
    DispatchAsWritten(a.name, DecryptedApiKey(t, a.uid, decrypt), a.config.Some?, upstream(a), decode)
  }

  /** `process_multi_chat_request` with the dispatch as written. */
  function ProcessRequestAsWritten(t: Table, uids: seq<string>, order: seq<Agent>,
                                   decrypt: string -> Option<string>, upstream: Agent -> Upstream,
                                   decode: string -> Option<Decoded>): (es: seq<Event>)
    requires TableInv(t)
    requires (set a | a in order) == EnabledAgentsByUids(t, uids)
    requires forall j, k | 0 <= j < k < |order| :: order[j] != order[k]
    ensures es == [System(NoEnabledAgents)] <==> forall id | id in t :: !(t[id].uid in uids && t[id].enabled)
    ensures Terminals(es) <= |order|
    ensures forall uid :: TerminalOnlyLast(Project(es, uid))
  {
    OrderFacts(t, uids, order);
    ListingDistinctUids(t, uids, order);
    var run := a => RunAgentAsWritten(t, decrypt, upstream, decode, a);
    FanOutTerminalsBounded(order, run);
    FanOutOneTerminalPerAgent(order, run);
    FanOut(order, run)
  }

  /** As written, every agent with a stored configuration sends exactly one
      message, an error; agents without one send what the corrected
      coordinator sends for them. */
  lemma AsWrittenPerAgent(t: Table, uids: seq<string>, order: seq<Agent>,
                          decrypt: string -> Option<string>, upstream: Agent -> Upstream,
                          decode: string -> Option<Decoded>, i: int)
    requires TableInv(t)
    requires (set a | a in order) == EnabledAgentsByUids(t, uids)
    requires forall j, k | 0 <= j < k < |order| :: order[j] != order[k]
    requires 0 <= i < |order|
    ensures var p := Project(ProcessRequestAsWritten(t, uids, order, decrypt, upstream, decode), order[i].uid);
            && (order[i].config.Some? ==> |p| == 1 && p[0].Error?)
            && (order[i].config.None? ==> p == Project(ProcessRequest(t, uids, order, decrypt, upstream, decode), order[i].uid))
  {
    UidsInjective(t, set a | a in order);
    FanOutDeliversEachAgent(order, a => RunAgentAsWritten(t, decrypt, upstream, decode, a), order[i].uid);
    ProcessRequestDeliversEachAgent(t, uids, order, decrypt, upstream, decode, i);
  }

  /** The roles allowed to start a multi-agent chat. */
  const ChatRoles: set<string> := {"student", "teacher", "admin", "superadmin"}

  /** `MultiChatRequest`; a missing `history` is `None`. */
  datatype ChatRequest = ChatRequest(
    convId: string,
    userId: string,
    message: string,
    agentUids: seq<string>,
    history: Option<seq<seq<string>>>)

  datatype Rejection = NoAgentUids | EmptyMessage | AccessProhibited

  function StatusCode(e: Rejection): int {
    match e
    case NoAgentUids => 400
    case EmptyMessage => 400
    case AccessProhibited => 403
  }

  /** The endpoint's answer, and on acceptance the arguments of the
      background task it schedules. */
  datatype Submission =
    | Rejected(reason: Rejection)
    | Accepted(convId: string, userId: string, message: string, agentUids: seq<string>, history: seq<seq<string>>)

  /** `multi_chat`: the request checks in order, then the conversation id
      (`freshId` stands for the generated UUID). */
  function Submit(req: ChatRequest, role: string, freshId: string): (r: Submission)
    ensures r == Rejected(NoAgentUids) <==> req.agentUids == []
    ensures r == Rejected(EmptyMessage) <==> req.agentUids != [] && Strip(req.message) == []
    ensures r == Rejected(AccessProhibited) <==>
      req.agentUids != [] && Strip(req.message) != [] && role !in ChatRoles
    ensures r.Accepted? ==>
      && r.convId == (if req.convId != [] then req.convId else freshId)
      && r.history == req.history.GetOr([])
      && (r.userId, r.message, r.agentUids) == (req.userId, req.message, req.agentUids)
  {
    if req.agentUids == [] then Rejected(NoAgentUids)
    else if Strip(req.message) == [] then Rejected(EmptyMessage)
    else if role !in ChatRoles then Rejected(AccessProhibited)
    else
      Accepted(if req.convId != [] then req.convId else freshId,
               req.userId, req.message, req.agentUids, req.history.GetOr([]))
  }

  /** A malformed request is refused for its shape whatever the caller's
      role, so the role check never masks a 400. */
  lemma ShapeCheckedBeforeRole(req: ChatRequest, role1: string, role2: string, f1: string, f2: string)
    requires req.agentUids == [] || AllSpace(req.message)
    ensures Submit(req, role1, f1) == Submit(req, role2, f2)
    ensures StatusCode(Submit(req, role1, f1).reason) == 400
  {
    StripEmptyIffBlank(req.message);
  }
}
