/** The stored-configuration defect of `call_jiutian_api`, and the
    corrected dispatch the rest of the model uses. */
module ConfigFinding {
  import opened Wrappers
  import opened Json
  import opened Dispatcher
  import Encryption

  /** As written, a valid key and a stored configuration give one error
      message and no upstream call, whatever the upstream would answer. */
  lemma StoredConfigAbortsAsWritten(name: string, key: Option<string>, up: Upstream,
                                    decode: string -> Option<Decoded>)
    requires KeyCheck(key).None?
    ensures DispatchAsWritten(name, key, true, up, decode) == [Error(ConfigNotMapping)]
    ensures Dispatch(name, key, up, decode)[0] == Status(name)
  {
  }

  /** The concrete input: a well-formed key, a stored configuration and an
      upstream that answers 200 with an empty body. */
  lemma StoredConfigCounterexample()
    ensures var decode := (s: string) => None;
            var up := Responded(200, [], Exhausted);
            && DispatchAsWritten("a", Some("id.secret"), true, up, decode) == [Error(ConfigNotMapping)]
            && Dispatch("a", Some("id.secret"), up, decode) == [Status("a")]
  {
    var decode := (s: string) => None;
    var up := Responded(200, [], Exhausted);
    assert KeyCheck(Some("id.secret")) == None by {
      assert "id.secret"[2] == '.';
      assert Encryption.SplitsIdSecret("id.secret", 2);
    }
    assert DecodeBody([], decode) == [];
  }

  /** Without a stored configuration the code as written and the corrected
      dispatch agree message for message. */
  lemma AsWrittenAgreesWithoutConfig(name: string, key: Option<string>, up: Upstream,
                                     decode: string -> Option<Decoded>)
    ensures DispatchAsWritten(name, key, false, up, decode) == Dispatch(name, key, up, decode)
  {
  }

  /** A non-200 answer yields the status message and then exactly one
      error naming the status. */
  lemma Non200GivesStatusThenError(name: string, key: Option<string>, code: int,
                                   lines: seq<string>, end: BodyEnd, decode: string -> Option<Decoded>)
    requires KeyCheck(key).None? && code != 200
    ensures Dispatch(name, key, Responded(code, lines, end), decode) == [Status(name), Error(HttpStatus(code))]
  {
  }
}
