/** A non-recursive description of what the streaming loop of
    `call_jiutian_api` sends, and the properties that follow from it:
    deltas only for records that carry text, the `complete` message with
    the latest cumulative text, and a terminal message exactly when a
    record stops the loop or the body ends in an error. The loop is
    described over the decoded records of the body lines. */
module DispatchProperties {
  import opened Wrappers
  import opened Json
  import opened StreamParser
  import opened Dispatcher

  /** Index of the first record that stops the loop, or `|items|`. */
  function FirstStop(items: seq<Option<Decoded>>): (p: nat)
    ensures p <= |items|
    ensures forall k | 0 <= k < p :: !Stops(items[k])
    ensures p < |items| ==> Stops(items[p])
  {
    if items == [] then 0
    else if Stops(items[0]) then 0
    else 1 + FirstStop(items[1..])
  }

  /** The delta message one decoded record contributes. */
  function ItemDelta(d: Option<Decoded>): seq<AgentMsg> {
    if d.Some? && d.value.Object? then DeltaOf(d.value.rec) else []
  }

  /** The delta messages of a run of records, record by record. */
  function DeltasOf(items: seq<Option<Decoded>>): seq<AgentMsg> {
    if items == [] then [] else ItemDelta(items[0]) + DeltasOf(items[1..])
  }

  /** `m` is the delta message of `d`: an object carrying a `response` and
      a truthy `delta` other than `[EOS]`, and `m` holds both. */
  predicate DeltaFrom(d: Option<Decoded>, m: AgentMsg) {
    && d.Some? && d.value.Object?
    && HasDeltaText(d.value.rec)
    && m == Delta(d.value.rec.delta.value, d.value.rec.response.value)
  }

  /** The record carries a `response`. */
  predicate HasResponse(d: Option<Decoded>) {
    d.Some? && d.value.Object? && d.value.rec.response.Some?
  }

  /** The cumulative text after one decoded record. */
  function Update(acc: Json, d: Option<Decoded>): Json {
    if HasResponse(d) then d.value.rec.response.value else acc
  }

  /** The `response` of the LAST record in `items` that has one, or `acc`
      when none has; read from the end. */
  function LastResponse(items: seq<Option<Decoded>>, acc: Json): Json {
    if items == [] then acc
    else if HasResponse(items[|items| - 1]) then items[|items| - 1].value.rec.response.value
    else LastResponse(items[..|items| - 1], acc)
  }

  /** The message of the record that stops the loop. */
  function StopMessages(d: Option<Decoded>, text: Json): seq<AgentMsg> {
    if d.Some? && d.value.Object? then [Complete(text, d.value.rec.usage, d.value.rec.relevant)]
    else [Error(RecordNotObject)]
  }

  /** Reading the latest response from the end agrees with accumulating it
      from the front. */
  lemma {:induction false} LastResponseCons(x: Option<Decoded>, items: seq<Option<Decoded>>, acc: Json)
    ensures LastResponse([x] + items, acc) == LastResponse(items, Update(acc, x))
    decreases |items|
  {
    var xs := [x] + items;
    if items == [] {
      assert xs[..|xs| - 1] == [];
    } else {
      assert xs[|xs| - 1] == items[|items| - 1];
      assert xs[..|xs| - 1] == [x] + items[..|items| - 1];
      LastResponseCons(x, items[..|items| - 1], acc);
    }
  }

  /** One turn of the loop on a record that does not stop it. */
  lemma StreamBodyStep(items: seq<Option<Decoded>>, acc: Json, end: BodyEnd)
    requires items != [] && !Stops(items[0])
    ensures StreamBody(items, acc, end) == ItemDelta(items[0]) + StreamBody(items[1..], Update(acc, items[0]), end)
  {
  }

  /** The turn of the loop on the record that stops it. */
  lemma StreamBodyStop(items: seq<Option<Decoded>>, acc: Json, end: BodyEnd)
    requires items != [] && Stops(items[0])
    ensures StreamBody(items, acc, end) == ItemDelta(items[0]) + StopMessages(items[0], Update(acc, items[0]))
  {
  }

  /** The whole output of the streaming loop: the deltas of every record
      up to the one that stops it, then that record's terminal message
      (carrying the latest cumulative text), or, when no record stops it,
      whatever the end of the body produces. */
  predicate Characterised(items: seq<Option<Decoded>>, acc: Json, end: BodyEnd) {
    var p := FirstStop(items);
    StreamBody(items, acc, end) ==
      if p < |items| then
        DeltasOf(items[..p + 1]) + StopMessages(items[p], LastResponse(items[..p + 1], acc))
      else DeltasOf(items) + EndMessages(end)
  }

  lemma {:induction false} StreamBodyCharacterised(items: seq<Option<Decoded>>, acc: Json, end: BodyEnd)
    ensures var p := FirstStop(items);
      StreamBody(items, acc, end) ==
        if p < |items| then
          DeltasOf(items[..p + 1]) + StopMessages(items[p], LastResponse(items[..p + 1], acc))
        else DeltasOf(items) + EndMessages(end)
    decreases |items|
  {
    if items == [] {
    } else if Stops(items[0]) {
      StoppedFirst(items, acc, end);
    } else {
      StreamBodyCharacterised(items[1..], Update(acc, items[0]), end);
      CharacterisedStep(items, acc, end);
    }
  }

  /** The base step of `StreamBodyCharacterised`: the first record stops
      the loop. */
  lemma StoppedFirst(items: seq<Option<Decoded>>, acc: Json, end: BodyEnd)
    requires items != [] && Stops(items[0])
    ensures Characterised(items, acc, end)
  {
    var d := items[0];
    assert FirstStop(items) == 0;
    StreamBodyStop(items, acc, end);
    LastResponseCons(d, [], acc);
    assert items[..1] == [d] + [];
    DeltasOfCons(d, []);
  }

  /** The inductive step of `StreamBodyCharacterised` when the first
      record does not stop the loop. */
  lemma CharacterisedStep(items: seq<Option<Decoded>>, acc: Json, end: BodyEnd)
    requires items != [] && !Stops(items[0])
    requires Characterised(items[1..], Update(acc, items[0]), end)
    ensures Characterised(items, acc, end)
  {
    var d := items[0];
    var tail := items[1..];
    assert items == [d] + tail;
    assert FirstStop(items) == FirstStop(tail) + 1;
    if FirstStop(tail) < |tail| {
      StoppedLater(d, tail, acc, end);
    } else {
      NeverStopped(d, tail, acc, end);
    }
  }

  /** The inductive step of `StreamBodyCharacterised` when no record stops
      the loop. */
  lemma NeverStopped(d: Option<Decoded>, tail: seq<Option<Decoded>>, acc: Json, end: BodyEnd)
    requires !Stops(d)
    requires StreamBody(tail, Update(acc, d), end) == DeltasOf(tail) + EndMessages(end)
    ensures StreamBody([d] + tail, acc, end) == DeltasOf([d] + tail) + EndMessages(end)
  {
    var items := [d] + tail;
    assert items[1..] == tail;
    StreamBodyStep(items, acc, end);
    DeltasOfCons(d, tail);
    var h, t, e := ItemDelta(d), DeltasOf(tail), EndMessages(end);
    assert h + (t + e) == (h + t) + e;
  }

  /** The inductive step of `StreamBodyCharacterised` when a later record
      stops the loop. */
  lemma StoppedLater(d: Option<Decoded>, tail: seq<Option<Decoded>>, acc: Json, end: BodyEnd)
    requires !Stops(d) && FirstStop(tail) < |tail|
    requires var q := FirstStop(tail); var pre := tail[..q + 1];
      StreamBody(tail, Update(acc, d), end) == DeltasOf(pre) + StopMessages(tail[q], LastResponse(pre, Update(acc, d)))
    ensures var q := FirstStop(tail); var items := [d] + tail;
      StreamBody(items, acc, end) == DeltasOf(items[..q + 2]) + StopMessages(items[q + 1], LastResponse(items[..q + 2], acc))
  {
    var q := FirstStop(tail);
    var pre := tail[..q + 1];
    var items := [d] + tail;
    assert items[1..] == tail;
    StreamBodyStep(items, acc, end);
    assert items[..q + 2] == [d] + pre;
    assert items[q + 1] == tail[q];
    ConsAlgebra(d, pre, StopMessages(tail[q], LastResponse(pre, Update(acc, d))), acc);
  }

  /** Putting one record in front of a run: its delta goes first and the
      latest response is read as if accumulated from it. */
  lemma ConsAlgebra(d: Option<Decoded>, pre: seq<Option<Decoded>>, stop: seq<AgentMsg>, acc: Json)
    ensures ItemDelta(d) + (DeltasOf(pre) + stop) == DeltasOf([d] + pre) + stop
    ensures LastResponse([d] + pre, acc) == LastResponse(pre, Update(acc, d))
  {
    DeltasOfCons(d, pre);
    LastResponseCons(d, pre, acc);
  }

  lemma DeltasOfCons(d: Option<Decoded>, items: seq<Option<Decoded>>)
    ensures DeltasOf([d] + items) == ItemDelta(d) + DeltasOf(items)
  {
    assert ([d] + items)[1..] == items;
  }

  /** `DeltasOf` yields delta messages only. */
  lemma {:induction false} DeltasOfAreDeltas(items: seq<Option<Decoded>>)
    ensures forall i | 0 <= i < |DeltasOf(items)| :: DeltasOf(items)[i].Delta?
    decreases |items|
  {
    if items != [] {
      DeltasOfAreDeltas(items[1..]);
      var h := ItemDelta(items[0]);
      var t := DeltasOf(items[1..]);
      assert forall i | 0 <= i < |h + t| :: (h + t)[i] == if i < |h| then h[i] else t[i - |h|];
    }
  }

  /** The output ends in a terminal message exactly when some record stops
      the loop or the body ends in a timeout or an error; in particular a
      body that simply runs out without a completing record yields no
      terminal message at all. */
  lemma TerminalIffStopOrFailure(items: seq<Option<Decoded>>, acc: Json, end: BodyEnd)
    ensures var ms := StreamBody(items, acc, end);
      (ms != [] && IsTerminal(ms[|ms| - 1]))
        <==> (exists k | 0 <= k < |items| :: Stops(items[k])) || !end.Exhausted?
  {
    var p := FirstStop(items);
    StreamBodyCharacterised(items, acc, end);
    var prefix := if p < |items| then items[..p + 1] else items;
    DeltasOfAreDeltas(prefix);
  }

  /** Every delta in `DeltasOf` is the delta message of one of the records. */
  lemma {:induction false} DeltasOfSound(items: seq<Option<Decoded>>)
    ensures forall m | m in DeltasOf(items) :: exists k | 0 <= k < |items| :: DeltaFrom(items[k], m)
    decreases |items|
  {
    if items != [] {
      DeltasOfSound(items[1..]);
      forall m | m in DeltasOf(items)
        ensures exists k | 0 <= k < |items| :: DeltaFrom(items[k], m)
      {
        if m in ItemDelta(items[0]) {
          assert DeltaFrom(items[0], m);
        } else {
          assert m in DeltasOf(items[1..]);
          var k :| 0 <= k < |items[1..]| && DeltaFrom(items[1..][k], m);
          assert items[k + 1] == items[1..][k];
        }
      }
    }
  }

  /** A delta message sent by the loop comes from a record carrying a
      `response` and a truthy `delta` that is not `[EOS]`, and its
      cumulative text is that record's `response`. */
  lemma DeltaOnlyFromTextRecords(items: seq<Option<Decoded>>, acc: Json, end: BodyEnd, m: AgentMsg)
    requires m in StreamBody(items, acc, end) && m.Delta?
    ensures exists k | 0 <= k < |items| :: DeltaFrom(items[k], m)
  {
    var p := FirstStop(items);
    StreamBodyCharacterised(items, acc, end);
    var prefix := if p < |items| then items[..p + 1] else items;
    DeltasOfSound(prefix);
    assert m in DeltasOf(prefix);
    var k :| 0 <= k < |prefix| && DeltaFrom(prefix[k], m);
    assert prefix[k] == items[k];
  }

  /** The `complete` message comes from the first stopping record, which
      is a completing object; it carries the `response` of the latest
      record that had one (or "" when none had), and that record's
      `Usage`/`relevant` values, present exactly when the record has them. */
  lemma CompleteCarriesLatestResponse(items: seq<Option<Decoded>>, end: BodyEnd, m: AgentMsg)
    requires m in StreamBody(items, JStr(""), end) && m.Complete?
    ensures var p := FirstStop(items);
      && p < |items|
      && items[p].Some? && items[p].value.Object?
      && IsStreamComplete(items[p].value.rec)
      && m == Complete(LastResponse(items[..p + 1], JStr("")), items[p].value.rec.usage, items[p].value.rec.relevant)
  {
    var p := FirstStop(items);
    StreamBodyCharacterised(items, JStr(""), end);
    var prefix := if p < |items| then items[..p + 1] else items;
    DeltasOfAreDeltas(prefix);
    var ds := DeltasOf(prefix);
    assert m !in ds;
  }
}
