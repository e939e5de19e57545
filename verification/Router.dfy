/** server_common/router.cpp: who receives a broadcast. */
module Router {
  import opened Basics
  import opened SendQueue

  /** The registered sessions other than the excluded one. */
  function Recipients(members: set<nat>, excluded: nat): set<nat> {
    members - {excluded}
  }

  class MemoryRouter {
    var sessions: map<nat, Connection>

    constructor ()
      ensures sessions == map[]
    {
      sessions := map[];
    }

    method RegisterSession(id: nat, connection: Connection)
      modifies this
      ensures sessions == old(sessions)[id := connection]
    {
      sessions := sessions[id := connection];
    }

    method UnregisterSession(id: nat)
      modifies this
      ensures sessions == old(sessions) - {id}
    {
      sessions := sessions - {id};
    }

    method Clear()
      modifies this
      ensures sessions == map[]
    {
      sessions := map[];
    }

    /** The locked part of `broadcast`: every registered session but the excluded one,
        once each. */
    method Snapshot(excluded: nat) returns (recipients: seq<nat>)
      ensures forall id :: id in recipients <==> id in Recipients(sessions.Keys, excluded)
      ensures forall i, j | 0 <= i < j < |recipients| :: recipients[i] != recipients[j]
    {
      recipients := [];
      var rest := sessions.Keys;
      while rest != {}
        invariant rest <= sessions.Keys
        invariant forall id :: id in recipients <==> id in sessions.Keys - rest && id != excluded
        invariant forall i, j | 0 <= i < j < |recipients| :: recipients[i] != recipients[j]
        decreases |rest|
      {
        var id :| id in rest;
        assert sessions.Keys - (rest - {id}) == (sessions.Keys - rest) + {id};
        assert id !in recipients;
        if id != excluded {
          recipients := recipients + [id];
        }
        rest := rest - {id};
      }
    }

    /** Distinct sessions have connections of their own. */
    ghost predicate Valid()
      reads this, sessions.Values
    {
      && (forall id <- sessions :: sessions[id].Valid())
      && (forall i, j | i in sessions && j in sessions && i != j :: sessions[i] != sessions[j])
    }

    /** Undisturbed, a broadcast offers the payload once to every recipient and to nobody
        else. */
    method Broadcast(payload: string, excluded: nat)
      requires Valid()
      modifies sessions.Values
      ensures Valid() && sessions == old(sessions)
      ensures forall id <- sessions :: sessions[id].View() ==
                if id == excluded then old(sessions[id].View())
                else Offer(old(sessions[id].View()), sessions[id].maxSendQueueBytes, Entry(From(excluded), payload))
    {
      hide Offer, OutboxOk, Connection.View, Connection.Valid;
      var recipients := Snapshot(excluded);
      for i := 0 to |recipients|
        invariant forall id <- sessions :: sessions[id].Valid()
        invariant forall id <- sessions :: sessions[id].View() ==
                    if id !in recipients[..i] then old(sessions[id].View())
                    else Offer(old(sessions[id].View()), sessions[id].maxSendQueueBytes, Entry(From(excluded), payload))
      {
        var target := recipients[i];
        assert target in recipients && target !in recipients[..i];
        assert recipients[..i + 1] == recipients[..i] + [target];
        var ok := sessions[target].Enqueue(payload, From(excluded));
      }
      assert recipients[..|recipients|] == recipients;
    }
  }
}
