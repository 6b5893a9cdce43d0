/** Invariants of the conversation registry, and the inverses and gaps of
    its operations. */
module RegistryProperties {
  import opened MultiAgent

  lemma JoinKeepsValid(reg: Registry, convId: string, userId: string, sid: string, uids: seq<string>, now: int)
    requires Valid(reg)
    ensures Valid(Join(reg, convId, userId, sid, uids, now).1)
  {
  }

  /** A join keeps the two maps in agreement exactly when the connection is
      new or rejoins the conversation it already belongs to. */
  lemma JoinKeepsConsistent(reg: Registry, convId: string, userId: string, sid: string, uids: seq<string>, now: int)
    requires Consistent(reg)
    requires sid !in reg.index || reg.index[sid] == convId
    ensures Consistent(Join(reg, convId, userId, sid, uids, now).1)
  {
    var r := Join(reg, convId, userId, sid, uids, now).1;
    forall c, s | c in r.active && s in r.active[c].sessionIds
      ensures s in r.index && r.index[s] == c
    {
      if s != sid {
        assert s in reg.active[c].sessionIds;
      }
    }
  }

  /** The gap: a connection that joins a second conversation is re-indexed
      to it but stays listed in the first one. */
  lemma SecondJoinSplitsConnection()
    ensures var r1 := Join(EmptyRegistry, "c1", "u", "s", [], 0).1;
            var r2 := Join(r1, "c2", "u", "s", [], 5000).1;
            && Valid(r2)
            && "s" in r2.active["c1"].sessionIds
            && r2.index["s"] == "c2"
            && !OneConversationPerConnection(r2)
  {
    var r1 := Join(EmptyRegistry, "c1", "u", "s", [], 0).1;
    var r2 := Join(r1, "c2", "u", "s", [], 5000).1;
    JoinKeepsValid(r1, "c2", "u", "s", [], 5000);
    assert "s" in r2.active["c1"].sessionIds && r2.index["s"] != "c1";
  }

  /** Cleaning the first conversation of the gap up removes the index entry
      the second one still relies on: the connection remains listed in the
      live conversation, yet `Leave` refuses it. */
  lemma CleanupAfterSplitOrphansConnection()
    ensures var r1 := Join(EmptyRegistry, "c1", "u", "s", [], 0).1;
            var r2 := Join(r1, "c2", "u", "s", [], 5000).1;
            var r3 := Cleanup(r2, 3_601_000, 3600).1;
            && "c1" !in r3.active
            && "c2" in r3.active && "s" in r3.active["c2"].sessionIds
            && "s" !in r3.index
            && !Leave(r3, "s", 3_601_000).0
  {
    var r1 := Join(EmptyRegistry, "c1", "u", "s", [], 0).1;
    var r2 := Join(r1, "c2", "u", "s", [], 5000).1;
    assert Idle(r2.active["c1"], 3_601_000, 3600);
    assert !Idle(r2.active["c2"], 3_601_000, 3600);
  }

  lemma LeaveKeepsValid(reg: Registry, sid: string, now: int)
    requires Valid(reg)
    ensures Valid(Leave(reg, sid, now).1)
  {
    var r := Leave(reg, sid, now).1;
    if sid in reg.index {
      var c := reg.index[sid];
      forall s | s in r.index
        ensures r.index[s] in r.active && s in r.active[r.index[s]].sessionIds
      {
        var d := reg.index[s];
        assert s != sid && s in reg.active[d].sessionIds;
        if d == c {
          assert s in reg.active[c].sessionIds - {sid};
        }
      }
    }
  }

  lemma LeaveKeepsConsistent(reg: Registry, sid: string, now: int)
    requires Consistent(reg)
    ensures Consistent(Leave(reg, sid, now).1)
  {
    LeaveKeepsValid(reg, sid, now);
    var r := Leave(reg, sid, now).1;
    if sid in reg.index {
      forall d, s | d in r.active && s in r.active[d].sessionIds
        ensures s in r.index && r.index[s] == d
      {
        assert s in reg.active[d].sessionIds;
      }
    }
  }

  /** Joining a fresh conversation on a fresh connection and leaving again
      restores the registry exactly. */
  lemma LeaveUndoesFreshJoin(reg: Registry, convId: string, userId: string, sid: string, uids: seq<string>, t1: int, t2: int)
    requires sid !in reg.index && convId !in reg.active
    ensures Leave(Join(reg, convId, userId, sid, uids, t1).1, sid, t2) == (true, reg)
  {
    var r := Join(reg, convId, userId, sid, uids, t1).1;
    var l := Leave(r, sid, t2).1;
    assert r.active[convId].sessionIds - {sid} == {};
    assert l.active == reg.active;
    assert l.index == reg.index;
  }

  /** Rejoining with the same arguments at the same instant changes
      nothing further. */
  lemma JoinIdempotent(reg: Registry, convId: string, userId: string, sid: string, uids: seq<string>, now: int)
    ensures var r := Join(reg, convId, userId, sid, uids, now).1;
            Join(r, convId, userId, sid, uids, now).1 == r
  {
    var r := Join(reg, convId, userId, sid, uids, now).1;
    var r2 := Join(r, convId, userId, sid, uids, now).1;
    assert r2.active[convId] == r.active[convId];
    assert r2.active == r.active;
  }

  /** The send guard keeps the registry's invariants. */
  lemma TouchKeepsValid(reg: Registry, convId: string, now: int)
    requires Valid(reg)
    ensures Valid(Touch(reg, convId, now).1)
  {
  }

  lemma TouchKeepsConsistent(reg: Registry, convId: string, now: int)
    requires Consistent(reg)
    ensures Consistent(Touch(reg, convId, now).1)
  {
  }

  lemma CleanupKeepsValid(reg: Registry, nowMs: int, timeoutSeconds: int)
    requires Valid(reg)
    ensures Valid(Cleanup(reg, nowMs, timeoutSeconds).1)
  {
    var r := Cleanup(reg, nowMs, timeoutSeconds).1;
    forall s | s in r.index
      ensures r.index[s] in r.active && s in r.active[r.index[s]].sessionIds
    {
      var d := reg.index[s];
      assert s in reg.active[d].sessionIds;
      assert !Idle(reg.active[d], nowMs, timeoutSeconds);
    }
  }

  lemma CleanupKeepsConsistent(reg: Registry, nowMs: int, timeoutSeconds: int)
    requires Consistent(reg)
    ensures Consistent(Cleanup(reg, nowMs, timeoutSeconds).1)
  {
    CleanupKeepsValid(reg, nowMs, timeoutSeconds);
    CleanupKeepsOneConversation(reg, nowMs, timeoutSeconds);
  }

  /** A connection of a surviving conversation belongs to no idle one, so
      its index entry survives the cleanup. */
  lemma CleanupKeepsOneConversation(reg: Registry, nowMs: int, timeoutSeconds: int)
    requires OneConversationPerConnection(reg)
    ensures OneConversationPerConnection(Cleanup(reg, nowMs, timeoutSeconds).1)
  {
    var r := Cleanup(reg, nowMs, timeoutSeconds).1;
    forall c, s | c in r.active && s in r.active[c].sessionIds
      ensures s in r.index && r.index[s] == c
    {
      assert s in reg.active[c].sessionIds;
      assert reg.index[s] == c;
    }
  }

  /** A second cleanup at the same instant finds nothing left to do. */
  lemma CleanupIdempotent(reg: Registry, nowMs: int, timeoutSeconds: int)
    ensures var r := Cleanup(reg, nowMs, timeoutSeconds);
            Cleanup(r.1, nowMs, timeoutSeconds) == (0, r.1)
  {
    var r := Cleanup(reg, nowMs, timeoutSeconds).1;
    forall c | c in r.active ensures !Idle(r.active[c], nowMs, timeoutSeconds) {
      assert r.active[c] == reg.active[c];
    }
    CleanupOfNothingIdle(r, nowMs, timeoutSeconds);
  }

  /** When nothing is idle, cleanup changes nothing and counts zero. */
  lemma CleanupOfNothingIdle(reg: Registry, nowMs: int, timeoutSeconds: int)
    requires forall c | c in reg.active :: !Idle(reg.active[c], nowMs, timeoutSeconds)
    ensures Cleanup(reg, nowMs, timeoutSeconds) == (0, reg)
  {
    var r := Cleanup(reg, nowMs, timeoutSeconds);
    assert r.1.active == reg.active;
    assert r.1.index == reg.index;
    assert reg.active.Keys - r.1.active.Keys == {};
  }

  /** In a consistent registry a conversation is registered exactly when
      some connection is indexed to it. */
  lemma RegisteredIffIndexed(reg: Registry)
    requires Consistent(reg)
    ensures reg.active.Keys == reg.index.Values
  {
    forall c | c in reg.active
      ensures c in reg.index.Values
    {
      var s :| s in reg.active[c].sessionIds;
      assert reg.index[s] == c;
    }
  }
}
