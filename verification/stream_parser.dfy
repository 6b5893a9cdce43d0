/** `JiutianStreamParser` of `routers/multi_chat.py`: the line decoder for
    the upstream event stream (a simplified subset of the event-stream
    framing of section 9.2.5 of the WHATWG HTML Standard: only `data:`
    lines, one JSON document per line) and the end-of-stream test. */
module StreamParser {
  import opened Wrappers
  import opened PyStr
  import opened Json

  const DataPrefix: string := "data:"
  const StopSentinel: Json := JStr("Stop")
  const EndOfStream: Json := JStr("[EOS]")

  /** The payload of a `data:` line: what follows the marker, stripped. */
  function Payload(line: string): string
    requires StartsWith(Strip(line), DataPrefix)
  {
    Strip(Strip(line)[|DataPrefix|..])
  }

  /** `parse_sse_line`: a record comes out exactly for a `data:` line
      whose stripped payload is non-empty and accepted by `decode`, and it
      is the decoded payload; lines without the marker, empty payloads and
      payloads `decode` rejects all give nothing (blank lines and comments
      are the lemmas below). */
  function ParseSseLine(line: string, decode: string -> Option<Decoded>): (r: Option<Decoded>)
    ensures r.Some? <==>
      && StartsWith(Strip(line), DataPrefix)
      && Payload(line) != ""
      && decode(Payload(line)).Some?
    ensures r.Some? ==> r == decode(Payload(line))
  {
    var l := Strip(line);
    if l == [] then None
    else if StartsWith(l, ":") then
      ColonIsNotData(l);
      None
    else if StartsWith(l, DataPrefix) then
      var content := Strip(l[|DataPrefix|..]);
      if content == [] then None
      else decode(content)
    else
      None
  }

  /** A line starting with `:` does not start with `data:`. */
  lemma ColonIsNotData(l: string)
    requires StartsWith(l, ":")
    ensures !StartsWith(l, DataPrefix)
  {
    if |DataPrefix| <= |l| {
      assert l[..1][0] == ':';
      assert l[..|DataPrefix|][0] == l[0];
    }
  }

  /** Blank lines give nothing. */
  lemma BlankLineGivesNothing(line: string, decode: string -> Option<Decoded>)
    requires AllSpace(line)
    ensures ParseSseLine(line, decode) == None
  {
    StripEmptyIffBlank(line);
  }

  /** `:` comment lines give nothing, whatever follows the colon. */
  lemma CommentLineGivesNothing(line: string, decode: string -> Option<Decoded>)
    requires StartsWith(Strip(line), ":")
    ensures ParseSseLine(line, decode) == None
  {
    ColonIsNotData(Strip(line));
  }

  /** `is_stream_complete`: the three-way disjunction. */
  predicate IsStreamComplete(r: Record) {
    || r.finished == Some(StopSentinel)
    || r.delta == Some(EndOfStream)
    || r.usage.Some?
  }

  /** Each disjunct alone ends the stream, and none of them is needed:
      for each one there is a completing record in which it is false. */
  lemma CompletionDisjunctsIndependent()
    ensures IsStreamComplete(EmptyRecord.(finished := Some(StopSentinel)))
    ensures IsStreamComplete(EmptyRecord.(delta := Some(EndOfStream)))
    ensures IsStreamComplete(EmptyRecord.(usage := Some(JNull)))
    ensures !IsStreamComplete(EmptyRecord.(finished := Some(JNull), delta := Some(JStr("Hi"))))
    ensures !IsStreamComplete(EmptyRecord.(finished := Some(JStr("stop"))))
  {
  }
}
