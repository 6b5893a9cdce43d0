# Multi-agent relay core, modelled in Dafny

This project models the in-memory core of the multi-agent chat relay of an
Open WebUI derivative, together with the small credential utilities and
agent-table rules the relay relies on:

- **the conversation registry** (`MultiAgentWebSocketManager`). It has two maps:
  conversations by id, and the reverse index from connection id to conversation
  id. Its operations are join, leave, the send guard (which refreshes activity),
  lookup, listing and the idle cleanup. Each is one atomic step from a registry
  value to a new one (`multi_agent.dfy`). Their invariants, inverses and the
  index gap are in `registry_properties.dfy`.
- **the upstream stream decoder** (`JiutianStreamParser`: `parse_sse_line`,
  `is_stream_complete`), in `stream_parser.dfy`. It reads a simplified subset of
  the event-stream framing in section 9.2.5 of the WHATWG HTML Standard: only
  `data:` lines, each holding one JSON document.
- **the per-agent message generator** (`call_jiutian_api`). It is a pure
  function from three inputs to the sequence of agent messages it sends:
  - the key looked up for the agent;
  - the upstream outcome;
  - the decoded body lines.

  The function is in `dispatcher.dfy`. Its full characterisation is in
  `dispatch_properties.dfy`, and the configuration defect is in
  `config_finding.dfy`.
- **the coordinator** (`process_multi_chat_request`) and the request validation
  of the `/multi-chat` endpoint, in `coordinator.dfy`.
- **`mask_api_key` and `validate_api_key_format`**, in `encryption.dfy`.
- **the JWT helper**, in `jiutian_jwt.dfy`: the `id.secret` split, the claim
  set signed for the upstream API (`exp` as in section 4.1.4 of RFC 7519), and
  the expiry check.
- **the agent table** (`AgentsTable`), over a map from record id to record
  (`agents.dfy`). It covers:
  - the `AgentConfig` defaults;
  - the enabled-by-uid filter;
  - the decrypted-key gate;
  - the owner-or-admin rule, toggle and delete;
  - the insert precondition;
  - `update_agent_by_id` as written.

The shared pieces are these:
- `wrappers.dfy`: `Option` and `Result`.
- `pystr.dfy`: Python's `str.strip`, with exactly Python's whitespace set, and
  `split(".", 1)`.
- `clock.dfy`: the two ways the code turns `time.time()` into seconds. The JWT
  helper uses banker's rounding and the expiry check truncates.
- `json.dfy`: JSON values and their Python truthiness.

The clock is a parameter everywhere, in integer milliseconds.
`json.loads`, Fernet, `jwt.encode`/`jwt.decode` and the HTTP client enter as
parameters or as input datatypes.

Three facts about the code shape what is proved:
- **A connection can be listed twice.** A connection that joins a second
  conversation stays listed in the first, while the index is re-pointed
  (`socket/multi_agent.py:83`). `OneConversationPerConnection` is therefore
  proved only under `JoinKeepsConsistent`'s precondition.
- **An agent can end without a terminal message.** A body that ends without a
  completing record sends no terminal message
  (`DispatchProperties.TerminalIffStopOrFailure`).
- **The 202 status.** The endpoint's docstring promises 202. The route sets no
  status code, so an accepted submission is modelled without one.

## Model

| member | source | states |
|---|---|---|
| Clock.RoundSeconds | backend/open_webui/utils/jiutian_jwt.py:29 | the issue time is the clock rounded to the nearest whole second: within half a second of it, equal to its truncation or one more, and even at an exact half second |
| Clock.FloorSeconds | backend/open_webui/utils/jiutian_jwt.py:104 | the expiry check's "now" is the whole second containing the clock reading |
| PyStr.Strip | backend/open_webui/routers/multi_chat.py:53 | the result occurs in the input with only Python whitespace before and after it, and has no whitespace at either end, so exactly the leading and trailing whitespace is dropped |
| PyStr.SplitOnce | backend/open_webui/utils/encryption.py:107 | `split(c, 1)` gives one part, the whole string, iff `c` does not occur; otherwise two parts that rebuild the string around its first `c` |
| PyStr.StripEmptyIffBlank | backend/open_webui/routers/multi_chat.py:345 | stripping leaves nothing exactly when every character is whitespace, which is what "blank" means for a message |
| StreamParser.ParseSseLine | backend/open_webui/routers/multi_chat.py:51-68 | a record comes out iff the stripped line starts with `data:`, its stripped payload is non-empty, and the decoder accepts that payload; the record is then the decoded payload, so decode failures are dropped rather than raised |
| StreamParser.BlankLineGivesNothing | backend/open_webui/routers/multi_chat.py:52-54 | a line of only whitespace gives no record |
| StreamParser.CommentLineGivesNothing | backend/open_webui/routers/multi_chat.py:52-54 | a line whose stripped form starts with `:` gives no record, whatever the decoder would say about the rest |
| StreamParser.CompletionDisjunctsIndependent | backend/open_webui/routers/multi_chat.py:70-77 | each of `finished == "Stop"`, `delta == "[EOS]"` and a present `Usage` alone completes the stream, while e.g. `finished == "stop"` and a plain delta do not |
| StreamParser.IsStreamComplete | backend/open_webui/routers/multi_chat.py:71-77 | a record completes the stream iff `finished` is exactly `"Stop"`, or `delta` is exactly `"[EOS]"`, or `Usage` is present |
| Json.Truthy | backend/open_webui/routers/multi_chat.py:200 | Python truthiness: `null`, `false`, zero, and the empty string, list and object are false, everything else true |
| Dispatcher.DecodeBody | backend/open_webui/routers/multi_chat.py:184-192 | one decoded item per body line, each the stripped line run through the line decoder |
| Dispatcher.DeltaOf | backend/open_webui/routers/multi_chat.py:195-208 | a record yields a delta message iff it has a `response` and a truthy `delta` other than `[EOS]`; the message is never terminal |
| Dispatcher.EndMessages | backend/open_webui/routers/multi_chat.py:235-255 | a body that simply ends adds nothing; a timeout or exception while reading adds exactly one error |
| Dispatcher.StreamBody | backend/open_webui/routers/multi_chat.py:180-233 | the loop's messages are deltas, except possibly the last, and never a status message |
| Dispatcher.BodyShapeTerminalOnlyLast | backend/open_webui/routers/multi_chat.py:184-233 | in the loop's output no terminal message is followed by another message and no status message appears |
| Dispatcher.CallUpstream | backend/open_webui/routers/multi_chat.py:164-255 | a non-200 answer gives exactly one error naming the status; a failed connection gives exactly one error; only the last message can be terminal |
| Dispatcher.KeyCheck | backend/open_webui/routers/multi_chat.py:100-124 | the key passes iff it is present and has the `id.secret` shape; a failure is a missing key or a bad format |
| Dispatcher.DispatchAsWritten | backend/open_webui/routers/multi_chat.py:98-178 | as written, at least one message and only the last terminal; an agent with a stored configuration gets one error and no status |
| Dispatcher.Dispatch | backend/open_webui/routers/multi_chat.py:95-255 | a failed key check gives exactly that one error; otherwise the first message is the status; a status message appears only first and only after both key checks pass; only the last message may be terminal |
| DispatchProperties.StreamBodyStep | backend/open_webui/routers/multi_chat.py:184-213 | a record that does not end the loop contributes its delta and moves the cumulative text to its `response` |
| DispatchProperties.StreamBodyStop | backend/open_webui/routers/multi_chat.py:213-233 | the record that ends the loop contributes its delta and then one complete message, or an error when it is not an object; nothing follows |
| DispatchProperties.StreamBodyCharacterised | backend/open_webui/routers/multi_chat.py:180-233 | the whole output is the deltas of every record up to the first stopping record, then that record's terminal message carrying the latest cumulative text; when no record stops the loop, it is all the deltas and then the body-end message |
| DispatchProperties.TerminalIffStopOrFailure | backend/open_webui/routers/multi_chat.py:184-255 | the body ends in a terminal message iff some record stops the loop or the body read failed; a body that simply runs out sends none |
| DispatchProperties.DeltasOfSound | backend/open_webui/routers/multi_chat.py:195-208 | every delta in a run of records holds the `delta` and `response` of one of those records |
| DispatchProperties.DeltaOnlyFromTextRecords | backend/open_webui/routers/multi_chat.py:195-208 | every delta message sent is the `delta` and `response` of some body record that has a `response` and a truthy non-`[EOS]` delta |
| DispatchProperties.CompleteCarriesLatestResponse | backend/open_webui/routers/multi_chat.py:181-228 | a complete message is sent only for a completing object record; it carries the `response` of the latest record up to it that had one (else `""`), and that record's `Usage` and `relevant` exactly when present |
| ConfigFinding.StoredConfigAbortsAsWritten | backend/open_webui/routers/multi_chat.py:127-162 | with a valid key and a stored configuration, the code as written sends one error and no status, while the corrected dispatch starts with the status |
| ConfigFinding.StoredConfigCounterexample | backend/open_webui/routers/multi_chat.py:130-132 | for key `id.secret`, a stored configuration and a 200 answer with an empty body, as written gives `[error]`, corrected gives `[status]` |
| ConfigFinding.AsWrittenAgreesWithoutConfig | backend/open_webui/routers/multi_chat.py:130-162 | without a stored configuration the code as written and the corrected dispatch send the same messages |
| ConfigFinding.Non200GivesStatusThenError | backend/open_webui/routers/multi_chat.py:156-178 | with a valid key, a non-200 answer gives exactly the status and then one error naming the status |
| Encryption.MaskApiKey | backend/open_webui/utils/encryption.py:75-93 | empty in iff empty out; above 12 characters: length kept, first 8 and last 4 kept, stars between; 4 to 12: length kept, first 2 and last 2 kept, stars between; 1 to 3: longer than the key, the first two then the last two characters |
| Encryption.ShortKeyFullyRevealed | backend/open_webui/utils/encryption.py:88-90 | a key of at most four characters hides none of its characters |
| Encryption.MaskOfThreeCharacters | backend/open_webui/utils/encryption.py:90 | `abc` is masked as `abbc` |
| Encryption.ValidateApiKeyFormat | backend/open_webui/utils/encryption.py:96-109 | true iff the first `.` has text before and after it; later dots are allowed |
| Encryption.ValidateAcceptsExamples | backend/open_webui/utils/encryption.py:107-108 | accepts `id.secret`, `long_id.long_secret` and `id.sec.ret` |
| Encryption.ValidateRejectsExamples | backend/open_webui/utils/encryption.py:107-108 | rejects `""`, `invalid`, `.`, `id.` and `.secret` |
| JiutianJwt.ValidateApikeyFormat | backend/open_webui/utils/jiutian_jwt.py:54-68 | agrees with the encryption module's check on every string |
| JiutianJwt.BuildClaims | backend/open_webui/utils/jiutian_jwt.py:20-34 | fails iff the key has no `.`, with a message containing "invalid apikey format"; otherwise `api_key` is the dot-free text before the first `.`, the secret is everything after it, `timestamp` is the rounded clock and `exp` is `timestamp + exp_seconds` |
| JiutianJwt.GenerateJwt | backend/open_webui/utils/jiutian_jwt.py:6-51 | fails iff the key has no `.`; otherwise the token is the signature of the built claims under the secret |
| JiutianJwt.GenerationChecksOnlyTheDot | backend/open_webui/utils/jiutian_jwt.py:22-26 | `.`, `.secret` and `id.` all produce claims with an empty id or secret, although the format check rejects each of them |
| JiutianJwt.IsTokenExpired | backend/open_webui/utils/jiutian_jwt.py:89-106 | an unreadable expiry counts as expired; otherwise expired iff the clock has reached the `exp` second (inclusive) |
| JiutianJwt.ExpiryIsMonotonic | backend/open_webui/utils/jiutian_jwt.py:100-105 | a token expired at one time is expired at every later time |
| JiutianJwt.FreshTokenNotExpired | backend/open_webui/utils/jiutian_jwt.py:29-32 | with a positive lifetime, a token is not expired at the moment it is generated, when decoding returns the signed `exp` |
| JiutianJwt.TokenExpiresAfterLifetime | backend/open_webui/utils/jiutian_jwt.py:100-105 | the token is expired once its lifetime has passed after the rounded issue time |
| Agents.DefaultConfig | backend/open_webui/models/agents.py:42-51 | the model id is `jiutian-lan`, the timeout 30, the retries 1, there is no assistant id, and the parameters are temperature 0.8, top_p 0.95 and max_gen_len 256, in that order |
| Agents.EnabledAgentsByUids | backend/open_webui/models/agents.py:218-226 | a record is returned iff its uid is requested and it is enabled; nothing else is returned |
| Agents.EnabledAgentsAtMostRequested | backend/open_webui/models/agents.py:218-226 | no more agents come back than distinct uids were requested |
| Agents.UidsInjective | backend/open_webui/models/agents.py:25 | rows drawn from the table never share a uid |
| Agents.DecryptedApiKey | backend/open_webui/models/agents.py:228-246 | nothing for an unknown uid or a disabled agent; otherwise the decryption of the stored key |
| Agents.ToggleAgent | backend/open_webui/models/agents.py:288-314 | permitted iff the agent and the user exist and the user owns it or is admin or superadmin; a refusal changes nothing; otherwise only `enabled` flips and `updated_at` is stamped |
| Agents.MayModify | backend/open_webui/models/agents.py:296-301 | the user exists and owns the agent or has role admin or superadmin, the rule toggle and delete share |
| Agents.ToggleTwiceRestores | backend/open_webui/models/agents.py:303-311 | two permitted toggles restore the record apart from `updated_at` and leave the other records alone |
| Agents.DeleteAgent | backend/open_webui/models/agents.py:316-336 | same permission rule; an authorised delete removes exactly that record, and a refusal changes nothing |
| Agents.UpdateAgent | backend/open_webui/models/agents.py:248-286 | as written, the update never returns a record and never changes the table |
| Agents.InsertAgent | backend/open_webui/models/agents.py:115-153 | refused before any write iff the key is not `id.secret`; otherwise the new record has the fresh id and uid, the form's fields and flag, and the ENCRYPTED key, and it is the only change; a clashing id or uid leaves the table as it was; the table constraints are kept |
| Agents.ToggleDeleteKeepInv | backend/open_webui/models/agents.py:24-25 | toggle and delete keep each record filed under its id and the uids unique |
| MultiAgent.Join | backend/open_webui/socket/multi_agent.py:44-93 | always true and indexes the connection to the conversation; a new conversation holds only this connection, the caller, the given uids and `created_at = last_activity = now`; an existing one gains the connection, moves `last_activity`, takes the uids only when non-empty, and keeps its owner and creation time; other conversations are untouched |
| MultiAgent.Leave | backend/open_webui/socket/multi_agent.py:95-133 | false with no change iff the connection is unindexed; otherwise the index entry goes, the connection leaves its conversation, which is deleted exactly when that empties it, and other conversations are untouched |
| MultiAgent.Touch | backend/open_webui/socket/multi_agent.py:147-153 | an unknown conversation is refused with no change; otherwise only its `last_activity` moves |
| MultiAgent.SendAgentMessage | backend/open_webui/socket/multi_agent.py:135-175 | the payload is emitted iff the conversation is registered, and carries the conversation, agent, millisecond timestamp and data |
| MultiAgent.SendSystemMessage | backend/open_webui/socket/multi_agent.py:177-218 | the same guard, with the system message type |
| MultiAgent.ConversationInfo | backend/open_webui/socket/multi_agent.py:220-230 | the stored conversation iff registered |
| MultiAgent.ActiveConversations | backend/open_webui/socket/multi_agent.py:232-239 | exactly the registered conversations |
| MultiAgent.Cleanup | backend/open_webui/socket/multi_agent.py:241-273 | removes exactly the conversations idle strictly longer than the timeout, leaves the rest untouched, drops the index entries of every connection they list, and returns how many it removed |
| MultiAgent.Idle | backend/open_webui/socket/multi_agent.py:255-257 | a conversation is idle when strictly more than the timeout, in milliseconds, has passed since its last activity |
| RegistryProperties.JoinKeepsValid | backend/open_webui/socket/multi_agent.py:61-83 | a join keeps every conversation non-empty and filed under its id, and every index entry pointing at a conversation that lists it |
| RegistryProperties.JoinKeepsConsistent | backend/open_webui/socket/multi_agent.py:83 | a join keeps "each listed connection is indexed to its conversation" when the connection is new or rejoins its own conversation |
| RegistryProperties.JoinIdempotent | backend/open_webui/socket/multi_agent.py:61-69 | repeating a join at the same instant changes nothing |
| RegistryProperties.SecondJoinSplitsConnection | backend/open_webui/socket/multi_agent.py:61-83 | a connection that joins a second conversation is indexed to it but still listed in the first |
| RegistryProperties.CleanupAfterSplitOrphansConnection | backend/open_webui/socket/multi_agent.py:260-266 | cleaning up the first conversation then removes the entry the second still relies on, and a later leave of that connection is refused |
| RegistryProperties.LeaveKeepsValid | backend/open_webui/socket/multi_agent.py:107-123 | a leave keeps the registry's invariants, including that no conversation is left empty |
| RegistryProperties.LeaveKeepsConsistent | backend/open_webui/socket/multi_agent.py:107-123 | a leave keeps the two maps in agreement |
| RegistryProperties.LeaveUndoesFreshJoin | backend/open_webui/socket/multi_agent.py:70-123 | joining a fresh conversation on a fresh connection and leaving restores the registry exactly |
| RegistryProperties.TouchKeepsConsistent | backend/open_webui/socket/multi_agent.py:148-153 | the send guard keeps the maps in agreement |
| RegistryProperties.TouchKeepsValid | backend/open_webui/socket/multi_agent.py:148-153 | the send guard keeps the registry's invariants, including that no registered conversation is empty |
| RegistryProperties.CleanupKeepsValid | backend/open_webui/socket/multi_agent.py:251-273 | cleanup keeps the registry's invariants |
| RegistryProperties.CleanupKeepsConsistent | backend/open_webui/socket/multi_agent.py:260-269 | cleanup keeps the maps in agreement |
| RegistryProperties.CleanupKeepsOneConversation | backend/open_webui/socket/multi_agent.py:260-266 | a connection listed by a surviving conversation is indexed to no idle one, so its entry survives and still points at its conversation |
| RegistryProperties.CleanupOfNothingIdle | backend/open_webui/socket/multi_agent.py:255-257 | when no conversation is idle, cleanup leaves the registry as it is and reports zero |
| RegistryProperties.CleanupIdempotent | backend/open_webui/socket/multi_agent.py:255-257 | a second cleanup at the same instant removes nothing |
| RegistryProperties.RegisteredIffIndexed | backend/open_webui/socket/multi_agent.py:35-39 | in a consistent registry a conversation is registered iff some connection is indexed to it |
| Coordinator.AgentEvents | backend/open_webui/routers/multi_chat.py:296-305 | every event of the agents' calls is an agent message from one of the listed agents |
| Coordinator.FanOut | backend/open_webui/routers/multi_chat.py:277-313 | no agents iff the only message is the system error; otherwise it starts with `start`, counting and naming the agents, ends with `complete` counting them, and holds only agent messages between |
| Coordinator.FanOutDeliversEachAgent | backend/open_webui/routers/multi_chat.py:296-305 | each listed agent's messages are sent unaltered and in order, and none are attributed to an unlisted uid |
| Coordinator.FanOutTerminalsBounded | backend/open_webui/routers/multi_chat.py:296-313 | no more terminal messages are sent in all than there are agents, whatever each agent's call is, provided nothing follows its terminal |
| Coordinator.FanOutOneTerminalPerAgent | backend/open_webui/routers/multi_chat.py:296-313 | with distinct uids, the messages sent for any one uid hold at most one terminal message, and it is the last of them |
| Coordinator.KeyOnlyForEnabled | backend/open_webui/models/agents.py:240-243 | a key comes out of the table only for an enabled row with that uid |
| Coordinator.RunAgent | backend/open_webui/routers/multi_chat.py:95-124 | an agent reaches its status message only when an enabled row of the table has its uid |
| Coordinator.OrderFacts | backend/open_webui/routers/multi_chat.py:277-285 | the list of resolved agents is empty iff no requested uid names an enabled row |
| Coordinator.FanOutOverResolved | backend/open_webui/routers/multi_chat.py:277-313 | for any per-agent call, the fan-out over a duplicate-free listing of the resolved agents sends the lone error iff nothing resolved, and otherwise opens and closes with the number of resolved agents |
| Coordinator.ProcessRequest | backend/open_webui/routers/multi_chat.py:275-313 | the lone system error is sent iff no requested uid names an enabled row; otherwise the start message carries the number of agents the lookup resolved and their names, the completion message the same count, every agent message comes from a requested uid, and the messages sent for each uid hold at most one terminal message, as their last |
| Coordinator.ProcessRequestDeliversEachAgent | backend/open_webui/routers/multi_chat.py:277-305 | each resolved agent's messages are sent exactly as its own call produced them |
| Coordinator.RunAgentAsWritten | backend/open_webui/routers/multi_chat.py:124-162 | as written, an agent with a stored configuration sends one error and nothing else; without one it sends what `RunAgent` sends |
| Coordinator.ProcessRequestAsWritten | backend/open_webui/routers/multi_chat.py:275-313 | with the dispatch as written, the lone system error is still sent iff no requested uid names an enabled row, no more terminal messages are sent than agents, and the messages sent for each uid hold at most one terminal message, as their last |
| Coordinator.AsWrittenPerAgent | backend/open_webui/routers/multi_chat.py:124-162 | as written, each resolved agent with a stored configuration sends exactly one message, an error; each one without sends exactly what the corrected coordinator sends for it |
| Coordinator.Submit | backend/open_webui/routers/multi_chat.py:337-375 | 400 for no agent uids; else 400 for a blank message; else 403 for a role outside student, teacher, admin, superadmin; on acceptance the given conversation id is kept (a fresh one if empty), a missing history becomes empty, and the rest is passed on |
| Coordinator.StatusCode | backend/open_webui/routers/multi_chat.py:339-356 | the two shape refusals answer 400 and the role refusal 403 |
| Coordinator.ShapeCheckedBeforeRole | backend/open_webui/routers/multi_chat.py:339-356 | a malformed request gets the same 400 whatever the caller's role |

## Left out

- socket.io rooms, `emit`, `enter_room`, `leave_room` and the socket event handlers are transport plumbing; the model returns the payload an emit would carry.
- The registry's `asyncio.Lock`, the request semaphore (10 in flight), `create_task`/`gather` and the periodic cleanup loop are concurrency and scheduling. Every operation is one atomic step. The fan-out is modelled in one order, with each agent's messages together. What each agent's own messages are is proved for that order only; that they come out the same under any interleaving is an argument, not a proof.
- Sending is not tied to the registry in the coordinator. Each event the relay sends goes through the send guard, which emits nothing and returns false when the conversation is not registered (`MultiAgent.Touch`, `MultiAgent.SendAgentMessage`). That happens, for example, when the endpoint generates a fresh conversation id that nobody has joined, or when a cleanup or the last leave happens during a run. Each send that does go through refreshes `last_activity`. The coordinator's events are what the relay sends, not what is delivered.
- The `except` branches of join, leave and the two send methods catch socket.io and logging failures, which are not modelled, so those methods never return false for an internal fault.
- `process_multi_chat_request`'s own `except` cannot fire in the model, because no modelled step raises.
- The HTTP client is an input (`Upstream`), and so is the moment a timeout or exception fires. The request payload, headers and URL are not modelled. The one effect building the payload has on the messages, the failure on a stored configuration, is modelled as a flag (`DispatchAsWritten`).
- Coordinator.ProcessRequest: runs the corrected dispatch of the Findings row, so agents with a stored configuration are dispatched normally. What the code as written does instead is `Coordinator.ProcessRequestAsWritten`, related to it agent by agent by `Coordinator.AsWrittenPerAgent`.
- `json.loads` is a parameter. Its result is reduced to the five fields the loop reads, plus whether the object has other keys.
- Fernet encryption and decryption, and `jwt.encode`/`jwt.decode`, are parameters; their cryptography is not modelled.
- SQL sessions, commits and rollbacks are replaced by a map; the database's unique constraints appear as `TableInv`.
- `get_enabled_agents_by_uids` returns rows in database order, which is not modelled: the coordinator takes any duplicate-free listing of the returned set.
- `max_retries` is configured but never read by the dispatcher.
- `AgentResponse`, the read methods by id, by uid and by user, and `routers/agents.py` are not part of this model.
- Message texts are not modelled. This covers "Agent X is thinking...", the error strings and the `agent_name` fields. Errors carry a cause instead of a text, and the system `start` message carries the count and the names rather than its sentence.
- The `detail` texts of the endpoint's refusals are not modelled, only their status codes; `ERROR_MESSAGES.ACCESS_PROHIBITED` lives in a constants module that is not part of this model.
- `time.time()` floats are whole milliseconds.
- An explicit `null` for `enabled` in the agent form is not modelled. The form accepts it (`agents.py:94`), and building the `AgentModel` at `agents.py:129` then raises before any write; `AgentForm.enabled` is a plain boolean.
- Agents.UpdateAgent: only the code as written is modelled, a failure that changes nothing. The partial update it was evidently meant to perform is not modelled, because it is not evident which column the key line was meant to write.

## Findings

| source | as written | input that shows it | evidently intended | confidence | as-written member | corrected member |
|---|---|---|---|---|---|---|
| backend/open_webui/routers/multi_chat.py:130-132 | `config = agent.config or {}` and then `config.get(...)`. A stored configuration is an `AgentConfig` model, which has no `get`. The attribute error lands in the generic handler: one error message, no status, no upstream call. | an agent with key `id.secret` and any stored configuration, upstream answering 200 with an empty body: `[error]` instead of `[status]` | the configuration is read as a mapping, and the agent is dispatched normally | not executed | ConfigFinding.StoredConfigCounterexample | Dispatcher.Dispatch |
