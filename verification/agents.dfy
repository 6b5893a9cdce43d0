/** The agent table of `models/agents.py`, over an in-memory map from
    record id to record instead of SQL. Fernet encryption and decryption of
    the stored key are foreign and enter as function parameters; the user
    table enters as a map from user id to role. */
module Agents {
  import opened Wrappers
  import opened Json
  import opened Clock
  import Encryption

  /** `AgentConfig`; `params` is the list of generation parameters. */
  datatype AgentConfig = AgentConfig(
    modelId: string,
    params: Option<seq<(string, Json)>>,
    klAssistId: Option<string>,
    timeout: Option<int>,
    maxRetries: Option<int>)

  /** `AgentConfig()` with every field left at its default. */
  function DefaultConfig(): (c: AgentConfig)
    ensures c.modelId == "jiutian-lan"
    ensures c.timeout == Some(30) && c.maxRetries == Some(1) && c.klAssistId == None
    ensures c.params.Some? && |c.params.value| == 3
    ensures c.params.value[0] == ("temperature", JNum(8, 1))
    ensures c.params.value[1] == ("top_p", JNum(95, 2))
    ensures c.params.value[2] == ("max_gen_len", JNum(256, 0))
  {
    AgentConfig("jiutian-lan",
                Some([("temperature", JNum(8, 1)), ("top_p", JNum(95, 2)), ("max_gen_len", JNum(256, 0))]),
                None, Some(30), Some(1))
  }

  /** One row of the `agent` table; `apiKey` holds the encrypted key. */
  datatype Agent = Agent(
    id: string,
    uid: string,
    name: string,
    owner: string,
    apiHost: string,
    apiKey: string,
    enabled: bool,
    config: Option<AgentConfig>,
    updatedAt: int,
    createdAt: int)

  type Table = map<string, Agent>

  /** User id to role, standing in for the user table. */
  type Users = map<string, string>

  /** The table's constraints: each row is filed under its own id (the
      primary key) and no two rows share a `uid` (the unique column). */
  predicate TableInv(t: Table) {
    && (forall id | id in t :: t[id].id == id)
    && (forall a, b | a in t && b in t :: t[a].uid == t[b].uid ==> a == b)
  }

  /** `get_enabled_agents_by_uids`: the enabled rows whose `uid` is listed;
      unknown and disabled uids contribute nothing. */
  function EnabledAgentsByUids(t: Table, uids: seq<string>): (r: set<Agent>)
    ensures forall id | id in t :: t[id] in r <==> t[id].uid in uids && t[id].enabled
    ensures forall a | a in r :: a.uid in uids && a.enabled && exists id | id in t :: t[id] == a
  {
    set id | id in t && t[id].uid in uids && t[id].enabled :: t[id]
  }

  /** No more agents are resolved than distinct uids were asked for. */
  lemma EnabledAgentsAtMostRequested(t: Table, uids: seq<string>)
    requires TableInv(t)
    ensures |EnabledAgentsByUids(t, uids)| <= |set u | u in uids|
  {
    var r := EnabledAgentsByUids(t, uids);
    var us := set u | u in uids;
    var image := set a | a in r :: a.uid;
    assert image <= us;
    UidsInjective(t, r);
    InjectiveImageSize(r, image);
    SubsetSize(image, us);
  }

  /** Distinct rows of a well-formed table have distinct uids. */
  lemma UidsInjective(t: Table, r: set<Agent>)
    requires TableInv(t)
    requires forall a | a in r :: exists id | id in t :: t[id] == a
    ensures forall a, b | a in r && b in r && a.uid == b.uid :: a == b
  {
    forall a, b | a in r && b in r && a.uid == b.uid ensures a == b {
      var ia :| ia in t && t[ia] == a;
      var ib :| ib in t && t[ib] == b;
    }
  }

  /** The uids of a set of agents with pairwise distinct uids are as many
      as the agents. */
  lemma {:induction false} InjectiveImageSize(r: set<Agent>, image: set<string>)
    requires forall a, b | a in r && b in r && a.uid == b.uid :: a == b
    requires image == set a | a in r :: a.uid
    ensures |image| == |r|
    decreases |r|
  {
    if r != {} {
      var a :| a in r;
      var r' := r - {a};
      var image' := set b | b in r' :: b.uid;
      assert image == image' + {a.uid};
      assert a.uid !in image';
      InjectiveImageSize(r', image');
    }
  }

  lemma SubsetSize(a: set<string>, b: set<string>)
    requires a <= b
    ensures |a| <= |b|
  {
    assert b == a + (b - a);
  }

  /** `get_decrypted_api_key` (the gate): nothing for an unknown uid or a
      disabled agent, and a failed decryption also gives nothing. */
  function DecryptedApiKey(t: Table, uid: string, decrypt: string -> Option<string>): (r: Option<string>)
    requires TableInv(t)
    ensures (forall id | id in t :: t[id].uid != uid) ==> r == None
    ensures forall id | id in t && t[id].uid == uid ::
      r == if t[id].enabled then decrypt(t[id].apiKey) else None
  {
    if exists id | id in t :: t[id].uid == uid then
      var id :| id in t && t[id].uid == uid;
      if t[id].enabled then decrypt(t[id].apiKey) else None
    else None
  }

  /** The owner-or-admin rule of toggle, update and delete: the user must
      exist, and either own the agent or have role `admin` or `superadmin`. */
  predicate MayModify(a: Agent, userId: string, users: Users) {
    userId in users && (a.owner == userId || users[userId] == "admin" || users[userId] == "superadmin")
  }

  /** `toggle_agent_by_id`: flips `enabled` and stamps `updated_at`; any
      refusal returns nothing and changes nothing. */
  function ToggleAgent(t: Table, users: Users, id: string, userId: string, nowMs: nat): (r: (Option<Agent>, Table))
    ensures r.0.Some? <==> id in t && MayModify(t[id], userId, users)
    ensures r.0.None? ==> r.1 == t
    ensures r.0.Some? ==>
      && r.0.value.enabled == !t[id].enabled
      && r.0.value.updatedAt == FloorSeconds(nowMs)
      && r.0.value.(enabled := t[id].enabled, updatedAt := t[id].updatedAt) == t[id]
      && r.1 == t[id := r.0.value]
  {
    if id !in t then (None, t)
    else if userId !in users then (None, t)
    else if !MayModify(t[id], userId, users) then (None, t)
    else
      var a := t[id].(enabled := !t[id].enabled, updatedAt := FloorSeconds(nowMs));
      (Some(a), t[id := a])
  }

  /** Toggling twice restores the record apart from its `updated_at`. */
  lemma ToggleTwiceRestores(t: Table, users: Users, id: string, userId: string, now1: nat, now2: nat)
    requires id in t && MayModify(t[id], userId, users)
    ensures var t1 := ToggleAgent(t, users, id, userId, now1).1;
      var t2 := ToggleAgent(t1, users, id, userId, now2).1;
      && t2.Keys == t.Keys
      && t2[id].enabled == t[id].enabled
      && t2[id].(updatedAt := t[id].updatedAt) == t[id]
      && forall k | k in t && k != id :: t2[k] == t[k]
  {
    var t1 := ToggleAgent(t, users, id, userId, now1).1;
    assert t1[id].owner == t[id].owner;
  }

  /** `delete_agent_by_id`: an authorised delete removes exactly that record. */
  function DeleteAgent(t: Table, users: Users, id: string, userId: string): (r: (bool, Table))
    ensures r.0 <==> id in t && MayModify(t[id], userId, users)
    ensures !r.0 ==> r.1 == t
    ensures r.0 ==> r.1.Keys == t.Keys - {id} && forall k | k in r.1 :: r.1[k] == t[k]
  {
    if id !in t then (false, t)
    else if userId !in users then (false, t)
    else if !MayModify(t[id], userId, users) then (false, t)
    else (true, t - {id})
  }

  /** The fields of `AgentUpdateForm`. */
  datatype AgentUpdateForm = AgentUpdateForm(
    name: Option<string>,
    apiHost: Option<string>,
    apiKey: Option<string>,
    config: Option<AgentConfig>,
    enabled: Option<bool>)

  /** `update_agent_by_id` as written: after the same checks as toggle, it
      reads `form_data.api_key_env`, a field the form does not declare; the
      attribute error lands in the method's own handler, which returns
      nothing, before any write. */
  function UpdateAgent(t: Table, users: Users, id: string, form: AgentUpdateForm, userId: string): (r: (Option<Agent>, Table))
    ensures r.0 == None && r.1 == t
  {
    if id !in t then (None, t)
    else if userId !in users then (None, t)
    else if !MayModify(t[id], userId, users) then (None, t)
    else (None, t)
  }

  /** `AgentForm`; `enabled` is the form's value, `true` when the form
      omits it (an explicit `null` is not modelled). */
  datatype AgentForm = AgentForm(
    name: string,
    apiHost: string,
    apiKey: string,
    config: Option<AgentConfig>,
    enabled: bool)

  const InvalidKeyFormat: string := "Invalid API key format. Expected: id.secret"

  /** `insert_new_agent`: raises before any write when the key is not
      `id.secret`; otherwise files a new record under the fresh id and uid
      holding the ENCRYPTED key. A clash with an existing id or uid makes the
      commit fail, which the method turns into `None` after a rollback. */
  function InsertAgent(t: Table, form: AgentForm, owner: string, newId: string, newUid: string,
                       nowMs: nat, encrypt: string -> string): (r: (Result<Option<Agent>, string>, Table))
    requires TableInv(t)
    ensures r.0.Failure? <==> !Encryption.ValidateApiKeyFormat(form.apiKey)
    ensures r.0.Failure? ==> r.1 == t
    ensures r.0.Success? && r.0.value.None? ==> r.1 == t
    ensures r.0.Success? && r.0.value.None? ==> newId in t || exists id | id in t :: t[id].uid == newUid
    ensures r.0.Success? && r.0.value.Some? ==>
      var a := r.0.value.value;
      && a.id == newId && a.uid == newUid && a.owner == owner
      && a.name == form.name && a.apiHost == form.apiHost && a.config == form.config
      && a.apiKey == encrypt(form.apiKey)
      && a.enabled == form.enabled
      && a.createdAt == a.updatedAt == FloorSeconds(nowMs)
      && newId !in t
      && r.1 == t[newId := a]
    ensures TableInv(r.1)
  {
    if !Encryption.ValidateApiKeyFormat(form.apiKey) then (Failure(InvalidKeyFormat), t)
    else
      var now := FloorSeconds(nowMs);
      var a := Agent(newId, newUid, form.name, owner, form.apiHost, encrypt(form.apiKey),
                     form.enabled, form.config, now, now);
      if newId in t || exists id | id in t :: t[id].uid == newUid then (Success(None), t)
      else (Success(Some(a)), t[newId := a])
  }

  /** Toggle and delete keep the table's constraints. */
  lemma ToggleDeleteKeepInv(t: Table, users: Users, id: string, userId: string, nowMs: nat)
    requires TableInv(t)
    ensures TableInv(ToggleAgent(t, users, id, userId, nowMs).1)
    ensures TableInv(DeleteAgent(t, users, id, userId).1)
  {
  }
}
