/** The session manager, changing its two maps in place (crates/ngenorca-gateway/src/sessions.rs). */
module SessionStore {
  import opened Wrappers
  import opened Sessions

  class SessionManager {
    var sessions: map<Id, Session>
    var userSessions: map<Key, Id>

    function State(): Table
      reads this
    {
      Table(sessions, userSessions)
    }

    constructor ()
      ensures State() == Table(map[], map[])
    {
      sessions, userSessions := map[], map[];
    }

    method GetOrCreate(user: Option<string>, channel: string, id: Id, now: int) returns (r: Id)
      modifies this
      ensures (State(), r) == Sessions.GetOrCreate(old(State()), user, channel, id, now)
    {
      if user.None? {
        r := CreateSession(None, channel, id, now);
        return;
      }
      var key := (user.value, channel);
      if key in userSessions {
        var existing := userSessions[key];
        if existing in sessions && Live(sessions[existing]) {
          return existing;
        }
      }
      r := CreateSession(user, channel, id, now);
    }

    method CreateSession(user: Option<string>, channel: string, id: Id, now: int) returns (r: Id)
      modifies this
      ensures State() == Create(old(State()), user, channel, id, now) && r == id
    {
      sessions := sessions[id := NewSession(user, channel, now)];
      if user.Some? {
        userSessions := userSessions[(user.value, channel) := id];
      }
      r := id;
    }

    method RecordMessage(id: Id, tokens: nat, now: int)
      modifies this
      ensures State() == Record(old(State()), id, tokens, now)
    {
      if id in sessions {
        var s := sessions[id];
        var s' := s.(messages := s.messages + 1, tokens := s.tokens + tokens, lastActive := now, state := Active);
        sessions := sessions[id := s'];
      }
    }

    method EndSession(id: Id)
      modifies this
      ensures State() == End(old(State()), id)
    {
      if id in sessions {
        sessions := sessions[id := sessions[id].(state := Ended)];
      }
    }

    method TouchSession(id: Id, now: int)
      modifies this
      ensures State() == Touch(old(State()), id, now)
    {
      if id in sessions {
        var s := sessions[id].(lastActive := now);
        if s.state == Idle {
          s := s.(state := Active);
        }
        sessions := sessions[id := s];
      }
    }

    method DetachUserMapping(id: Id, key: Key)
      modifies this`userSessions
      ensures userSessions == Detach(old(userSessions), key, id)
    {
      if key in userSessions && userSessions[key] == id {
        userSessions := userSessions - {key};
      }
    }

    method PromoteToUser(id: Id, user: string, now: int) returns (r: Option<Id>)
      modifies this
      ensures (State(), r) == Promote(old(State()), id, user, now)
    {
      if id !in sessions {
        return None;
      }
      var current := sessions[id];
      var oldKey := KeyOf(current);
      var newKey := (user, current.channel);
      if oldKey == newKey {
        TouchSession(id, now);
        return Some(id);
      }
      var existing := ActiveFor(State(), newKey);
      if existing.Some? && existing.value != id {
        EndSession(id);
        DetachUserMapping(id, oldKey);
        TouchSession(existing.value, now);
        return existing;
      }
      sessions := sessions[id := current.(user := Some(user), lastActive := now)];
      DetachUserMapping(id, oldKey);
      userSessions := userSessions[newKey := id];
      r := Some(id);
    }

    method PromoteAliasToUser(alias: string, channel: string, canonical: string, now: int)
      returns (r: Result<Option<Id>, ()>)
      modifies this
      ensures (State(), r) == PromoteAlias(old(State()), alias, channel, canonical, now)
    {
      if alias == canonical {
        return Ok(None);
      }
      var key := (alias, channel);
      if key !in userSessions {
        return Ok(None);
      }
      var promoted := PromoteToUser(userSessions[key], canonical, now);
      r := if promoted.Some? then Ok(promoted) else Err(());
    }

    method RemoveSession(id: Id)
      requires id in sessions
      modifies this
      ensures State() == Table(old(sessions) - {id}, Detach(old(userSessions), KeyOf(old(sessions)[id]), id))
    {
      var key := KeyOf(sessions[id]);
      sessions := sessions - {id};
      DetachUserMapping(id, key);
    }

    method PruneExpired(now: int, ttl: nat) returns (count: nat)
      modifies this
      ensures State() == Prune(old(State()), now - ttl)
      ensures count == |ExpiredIds(old(State()), now - ttl)|
    {
      var cutoff := now - ttl;
      var expired := ExpiredIds(State(), cutoff);
      count := |expired|;
      var pending := expired;
      assert State() == Remove(State(), {});
      while pending != {}
        invariant pending <= expired
        invariant State() == Remove(old(State()), expired - pending)
      {
        var id :| id in pending;
        RemoveOneMore(old(State()), expired - pending, id);
        assert expired - (pending - {id}) == expired - pending + {id};
        RemoveSession(id);
        pending := pending - {id};
      }
      assert expired - {} == expired;
    }
  }
}
