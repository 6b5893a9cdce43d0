/** The message-emission logic of `call_jiutian_api` in
    `routers/multi_chat.py`, recast as a pure function from the key lookup
    outcome, whether the agent carries a stored configuration, and the
    upstream outcome to the sequence of per-agent messages it sends.
    The concurrency limiter, the HTTP client and the JWT signer are not
    part of this function; only their observable outcomes are inputs. */
module Dispatcher {
  import opened Wrappers
  import opened PyStr
  import opened Json
  import opened StreamParser
  import JiutianJwt

  /** Why an agent's stream ended in an `error` message. */
  datatype ErrorCause =
    | KeyMissing               // no key, or an empty one
    | KeyFormat                // the key is not `id.secret`
    | ConfigNotMapping         // `config.get` on a stored `AgentConfig` raised
    | HttpStatus(code: int)    // the upstream answered with a status other than 200
    | Timeout                  // the client timeout fired
    | Raised(detail: string)   // any other exception from the HTTP client
    | RecordNotObject          // a truthy non-object payload made `data.get` raise

  /** A per-agent message. `error` and `complete` messages carry
      `finished: true` and are the terminal ones. */
  datatype AgentMsg =
    | Status(agentName: string)
    | Delta(content: Json, accumulated: Json)
    | Complete(content: Json, usage: Option<Json>, references: Option<Json>)
    | Error(cause: ErrorCause)

  predicate IsTerminal(m: AgentMsg) {
    m.Complete? || m.Error?
  }

  /** How the response body ended once its lines were consumed. */
  datatype BodyEnd = Exhausted | BodyTimedOut | BodyRaised(detail: string)

  /** The outcome of the upstream call. */
  datatype Upstream =
    | ConnectTimedOut
    | ConnectRaised(detail: string)
    | Responded(status: int, lines: seq<string>, end: BodyEnd)

  /** A terminal message may only be the last one. */
  predicate TerminalOnlyLast(ms: seq<AgentMsg>) {
    forall i | 0 <= i < |ms| - 1 :: !IsTerminal(ms[i])
  }

  /** The decoded record of one body line (`line.strip()` then
      `parse_sse_line`; the loop's own blank-line skip is subsumed). */
  function LineRecord(line: string, decode: string -> Option<Decoded>): Option<Decoded> {
    ParseSseLine(Strip(line), decode)
  }

  /** The decoded records of the body, line by line. */
  function DecodeBody(lines: seq<string>, decode: string -> Option<Decoded>): (items: seq<Option<Decoded>>)
    ensures |items| == |lines|
    ensures forall i | 0 <= i < |lines| :: items[i] == LineRecord(lines[i], decode)
  {
    seq(|lines|, i requires 0 <= i < |lines| => LineRecord(lines[i], decode))
  }

  /** The record ends the loop: a truthy completing record, or a truthy
      payload that is not an object (the loop raises on it). */
  predicate Stops(d: Option<Decoded>) {
    && d.Some?
    && DecodedTruthy(d.value)
    && (d.value.Object? ==> IsStreamComplete(d.value.rec))
  }

  /** The record carries a cumulative `response`, and its `delta` is
      truthy and not the end sentinel. */
  predicate HasDeltaText(r: Record) {
    r.response.Some? && r.delta.Some? && Truthy(r.delta.value) && r.delta.value != EndOfStream
  }

  /** The delta message a record yields: at most one, never terminal. */
  function DeltaOf(r: Record): (ms: seq<AgentMsg>)
    ensures |ms| <= 1 && (ms != [] <==> HasDeltaText(r))
    ensures forall i | 0 <= i < |ms| :: ms[i].Delta?
  {
    if HasDeltaText(r) then [Delta(r.delta.value, r.response.value)] else []
  }

  /** The shape of a body's messages: deltas, then possibly one message
      that is a delta or a terminal one. */
  predicate BodyShape(ms: seq<AgentMsg>) {
    && (forall i | 0 <= i < |ms| - 1 :: ms[i].Delta?)
    && (ms == [] || !ms[|ms| - 1].Status?)
  }

  /** Deltas in front of a body-shaped sequence keep its shape. */
  lemma DeltaPrefix(pre: seq<AgentMsg>, ms: seq<AgentMsg>)
    requires forall i | 0 <= i < |pre| :: pre[i].Delta?
    requires BodyShape(ms)
    ensures BodyShape(pre + ms)
  {
    if ms == [] {
      assert pre + ms == pre;
    } else {
      forall i | 0 <= i < |pre + ms| - 1 ensures (pre + ms)[i].Delta? {
        if i >= |pre| { assert (pre + ms)[i] == ms[i - |pre|]; }
      }
    }
  }

  lemma BodyShapeTerminalOnlyLast(ms: seq<AgentMsg>)
    requires BodyShape(ms)
    ensures TerminalOnlyLast(ms)
    ensures forall i | 0 <= i < |ms| :: !ms[i].Status?
  {
  }

  /** The message the error or exhausted end of the body produces. */
  function EndMessages(end: BodyEnd): (ms: seq<AgentMsg>)
    ensures |ms| <= 1 && (end.Exhausted? <==> ms == [])
    ensures forall i | 0 <= i < |ms| :: ms[i].Error?
  {
    match end
    case Exhausted => []
    case BodyTimedOut => [Error(Timeout)]
    case BodyRaised(d) => [Error(Raised(d))]
  }

  /** The streaming loop over the decoded body lines, with the cumulative
      text so far. */
  function StreamBody(items: seq<Option<Decoded>>, acc: Json, end: BodyEnd): (ms: seq<AgentMsg>)
    ensures BodyShape(ms)
    decreases |items|
  {
    if items == [] then EndMessages(end)
    else
      var d := items[0];
      if d.None? then StreamBody(items[1..], acc, end)
      else if d.value.NonObject? then
        if !d.value.truthy then StreamBody(items[1..], acc, end)
        else [Error(RecordNotObject)]
      else
        var r := d.value.rec;
        if !RecordTruthy(r) then StreamBody(items[1..], acc, end)
        else
          var acc' := if r.response.Some? then r.response.value else acc;
          if IsStreamComplete(r) then
            DeltaPrefix(DeltaOf(r), [Complete(acc', r.usage, r.relevant)]);
            DeltaOf(r) + [Complete(acc', r.usage, r.relevant)]
          else
            var rest := StreamBody(items[1..], acc', end);
            DeltaPrefix(DeltaOf(r), rest);
            DeltaOf(r) + rest
  }

  /** What happens after the status message. */
  function CallUpstream(up: Upstream, decode: string -> Option<Decoded>): (ms: seq<AgentMsg>)
    ensures TerminalOnlyLast(ms)
    ensures forall i | 0 <= i < |ms| :: !ms[i].Status?
    ensures up.Responded? && up.status != 200 ==> ms == [Error(HttpStatus(up.status))]
    ensures !up.Responded? ==> |ms| == 1 && ms[0].Error?
  {
    match up
    case ConnectTimedOut => [Error(Timeout)]
    case ConnectRaised(d) => [Error(Raised(d))]
    case Responded(status, lines, end) =>
      if status != 200 then [Error(HttpStatus(status))]
      else
        var ms := StreamBody(DecodeBody(lines, decode), JStr(""), end);
        BodyShapeTerminalOnlyLast(ms);
        ms
  }

  /** The two key checks: a missing or empty key, then the `id.secret` shape. */
  function KeyCheck(key: Option<string>): (e: Option<ErrorCause>)
    ensures e == None <==> key.Some? && JiutianJwt.ValidateApikeyFormat(key.value)
    ensures e.Some? ==> e.value.KeyMissing? || e.value.KeyFormat?
  {
    if key.None? || key.value == "" then Some(KeyMissing)
    else if !JiutianJwt.ValidateApikeyFormat(key.value) then Some(KeyFormat)
    else None
  }

  /** `call_jiutian_api` as written: an agent with a stored configuration
      fails when the payload is built, after the key checks and before the
      status message. */
  function DispatchAsWritten(name: string, key: Option<string>, hasConfig: bool, up: Upstream,
                             decode: string -> Option<Decoded>): (ms: seq<AgentMsg>)
    ensures |ms| >= 1 && TerminalOnlyLast(ms)
    ensures hasConfig ==> |ms| == 1 && ms[0].Error?
  {
    match KeyCheck(key)
    case Some(e) => [Error(e)]
    case None =>
      if hasConfig then [Error(ConfigNotMapping)]
      else [Status(name)] + CallUpstream(up, decode)
  }

  /** `call_jiutian_api` with the configuration read as the mapping it was
      meant to be: the stored configuration no longer makes it fail. */
  function Dispatch(name: string, key: Option<string>, up: Upstream,
                    decode: string -> Option<Decoded>): (ms: seq<AgentMsg>)
    ensures |ms| >= 1 && TerminalOnlyLast(ms)
    ensures KeyCheck(key).Some? ==> ms == [Error(KeyCheck(key).value)]
    ensures KeyCheck(key).None? ==> ms[0] == Status(name)
    ensures forall i | 0 <= i < |ms| :: ms[i].Status? ==> i == 0 && KeyCheck(key).None?
  {
    match KeyCheck(key)
    case Some(e) => [Error(e)]
    case None => [Status(name)] + CallUpstream(up, decode)
  }
}
