/** The session table and its user-and-channel index (crates/ngenorca-gateway/src/sessions.rs). */
module Sessions {
  import opened Wrappers

  datatype SessionState = Active | Idle | Compacting | Ended

  datatype Session = Session(user: Option<string>, channel: string, state: SessionState, lastActive: int, messages: nat,
                             tokens: nat)

  type Id = string

  type Key = (string, string)

  datatype Table = Table(sessions: map<Id, Session>, index: map<Key, Id>)

  predicate Live(s: Session) { s.state == Active || s.state == Idle }

  /** The index key of a session; anonymous sessions share the empty user name. */
  function KeyOf(s: Session): Key {
    (if s.user.Some? then s.user.value else "", s.channel)
  }

  function NewSession(user: Option<string>, channel: string, now: int): Session {
    Session(user, channel, Active, now, 0, 0)
  }

  function Create(t: Table, user: Option<string>, channel: string, id: Id, now: int): Table {
    Table(t.sessions[id := NewSession(user, channel, now)],
          if user.Some? then t.index[(user.value, channel) := id] else t.index)
  }

  /** The live session the index holds for a key. */
  function ActiveFor(t: Table, key: Key): Option<Id> {
    if key in t.index && t.index[key] in t.sessions && Live(t.sessions[t.index[key]]) then Some(t.index[key]) else None
  }

  /** `id` is the identifier a newly created session would get. */
  function GetOrCreate(t: Table, user: Option<string>, channel: string, id: Id, now: int): (Table, Id) {
    if user.Some? && ActiveFor(t, (user.value, channel)).Some? then (t, ActiveFor(t, (user.value, channel)).value)
    else (Create(t, user, channel, id, now), id)
  }

  function Update(t: Table, id: Id, f: Session -> Session): Table {
    if id in t.sessions then t.(sessions := t.sessions[id := f(t.sessions[id])]) else t
  }

  function Record(t: Table, id: Id, tokens: nat, now: int): Table {
    Update(t, id, (s: Session) =>
      s.(messages := s.messages + 1, tokens := s.tokens + tokens, lastActive := now, state := Active))
  }

  function End(t: Table, id: Id): Table {
    Update(t, id, (s: Session) => s.(state := Ended))
  }

  function Touch(t: Table, id: Id, now: int): Table {
    Update(t, id, (s: Session) => s.(lastActive := now, state := if s.state == Idle then Active else s.state))
  }

  /** Removes the entry of `key` when it names `id`. */
  function Detach(index: map<Key, Id>, key: Key, id: Id): map<Key, Id> {
    if key in index && index[key] == id then index - {key} else index
  }

  function Rebind(t: Table, id: Id, user: string, now: int): Table
    requires id in t.sessions
  {
    var s := t.sessions[id];
    Table(t.sessions[id := s.(user := Some(user), lastActive := now)],
          Detach(t.index, KeyOf(s), id)[(user, s.channel) := id])
  }

  /** None stands for the not-found error. */
  function Promote(t: Table, id: Id, user: string, now: int): (Table, Option<Id>) {
    if id !in t.sessions then (t, None)
    else
      var s := t.sessions[id];
      var newKey := (user, s.channel);
      if KeyOf(s) == newKey then (Touch(t, id, now), Some(id))
      else if ActiveFor(t, newKey).Some? && ActiveFor(t, newKey).value != id then
        var existing := ActiveFor(t, newKey).value;
        var ended := End(t, id);
        (Touch(ended.(index := Detach(t.index, KeyOf(s), id)), existing, now), Some(existing))
      else (Rebind(t, id, user, now), Some(id))
  }

  /** Ok(None) when there is nothing to promote. */
  function PromoteAlias(t: Table, alias: string, channel: string, canonical: string, now: int)
    : (Table, Result<Option<Id>, ()>)
  {
    if alias == canonical || (alias, channel) !in t.index then (t, Ok(None))
    else
      var (t', r) := Promote(t, t.index[(alias, channel)], canonical, now);
      (t', if r.Some? then Ok(r) else Err(()))
  }

  predicate Expired(t: Table, id: Id, cutoff: int) {
    id in t.sessions && t.sessions[id].lastActive < cutoff
  }

  /** The entries that go when the sessions in `gone` are removed. */
  predicate Dangling(t: Table, gone: set<Id>, key: Key) {
    key in t.index && t.index[key] in gone && t.index[key] in t.sessions && KeyOf(t.sessions[t.index[key]]) == key
  }

  function Remove(t: Table, gone: set<Id>): Table {
    Table(t.sessions - gone, map k | k in t.index && !Dangling(t, gone, k) :: t.index[k])
  }

  function ExpiredIds(t: Table, cutoff: int): set<Id> {
    set id | id in t.sessions && t.sessions[id].lastActive < cutoff
  }

  function Prune(t: Table, cutoff: int): Table {
    Remove(t, ExpiredIds(t, cutoff))
  }

  lemma RemoveOneMore(t: Table, gone: set<Id>, id: Id)
    requires id in t.sessions && id !in gone
    ensures Remove(t, gone + {id}) ==
            var r := Remove(t, gone); Table(r.sessions - {id}, Detach(r.index, KeyOf(t.sessions[id]), id))
  {
    var r := Remove(t, gone);
    assert Remove(t, gone + {id}).sessions == r.sessions - {id};
    assert Remove(t, gone + {id}).index == Detach(r.index, KeyOf(t.sessions[id]), id);
  }
}
