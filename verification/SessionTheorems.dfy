/** What holds over every run of session operations. */
module SessionTheorems {
  import opened Wrappers
  import opened Sessions

  datatype Op =
    | Open(user: Option<string>, channel: string, id: Id, now: int)
    | Message(id: Id, tokens: nat, now: int)
    | Rebinding(id: Id, owner: string, now: int)
    | AliasRebinding(alias: string, channel: string, canonical: string, now: int)
    | Close(id: Id)
    | Pruning(cutoff: int)

  function Step(t: Table, op: Op): Table {
    match op
    case Open(user, channel, id, now) => GetOrCreate(t, user, channel, id, now).0
    case Message(id, tokens, now) => Record(t, id, tokens, now)
    case Rebinding(id, user, now) => Promote(t, id, user, now).0
    case AliasRebinding(alias, channel, canonical, now) => PromoteAlias(t, alias, channel, canonical, now).0
    case Close(id) => End(t, id)
    case Pruning(cutoff) => Prune(t, cutoff)
  }

  function TableAt(t: Table, ops: seq<Op>, i: nat): Table
    requires i <= |ops|
  {
    if i == 0 then t else Step(TableAt(t, ops, i - 1), ops[i - 1])
  }

  /** A new session gets an identifier that no stored session has. */
  predicate FreshId(t: Table, op: Op) {
    op.Open? ==> op.id !in t.sessions
  }

  ghost predicate FreshRun(t: Table, ops: seq<Op>) {
    forall i :: 0 <= i < |ops| ==> FreshId(TableAt(t, ops, i), ops[i])
  }

  // ---------- the index is sound ----------

  /** Every index entry names a stored session of exactly that user and channel. */
  ghost predicate Sound(t: Table) {
    forall k :: k in t.index ==>
      t.index[k] in t.sessions && t.sessions[t.index[k]].user == Some(k.0) && t.sessions[t.index[k]].channel == k.1
  }

  lemma TouchKeepsSound(t: Table, id: Id, now: int)
    requires Sound(t)
    ensures Sound(Touch(t, id, now))
  {
  }

  lemma EndDetachKeepsSound(t: Table, id: Id)
    requires Sound(t) && id in t.sessions
    ensures Sound(End(t, id).(index := Detach(t.index, KeyOf(t.sessions[id]), id)))
  {
  }

  lemma RebindKeepsSound(t: Table, id: Id, user: string, now: int)
    requires Sound(t) && id in t.sessions
    ensures Sound(Rebind(t, id, user, now))
  {
  }

  lemma PromoteKeepsSound(t: Table, id: Id, user: string, now: int)
    requires Sound(t)
    ensures Sound(Promote(t, id, user, now).0)
  {
    hide Sound, Touch, End, Detach, Rebind;
    if id in t.sessions {
      var s := t.sessions[id];
      TouchKeepsSound(t, id, now);
      EndDetachKeepsSound(t, id);
      RebindKeepsSound(t, id, user, now);
      var existing := ActiveFor(t, (user, s.channel));
      if existing.Some? {
        TouchKeepsSound(End(t, id).(index := Detach(t.index, KeyOf(s), id)), existing.value, now);
      }
    }
  }

  lemma StepKeepsSound(t: Table, op: Op)
    requires Sound(t) && FreshId(t, op)
    ensures Sound(Step(t, op))
  {
    hide Promote;
    match op
    case Rebinding(id, user, now) => PromoteKeepsSound(t, id, user, now);
    case AliasRebinding(alias, channel, canonical, now) =>
      if alias != canonical && (alias, channel) in t.index {
        PromoteKeepsSound(t, t.index[(alias, channel)], canonical, now);
      }
    case _ =>
  }

  /** The index is sound in every state of every run. */
  lemma {:induction false} RunKeepsSound(t: Table, ops: seq<Op>, i: nat)
    requires Sound(t) && FreshRun(t, ops) && i <= |ops|
    ensures Sound(TableAt(t, ops, i))
  {
    hide Step, Sound, FreshId;
    if i > 0 {
      RunKeepsSound(t, ops, i - 1);
      StepKeepsSound(TableAt(t, ops, i - 1), ops[i - 1]);
    }
  }

  // ---------- at most one live session per user and channel ----------

  /** The live session of a user on a channel is the indexed one. */
  ghost predicate LiveIndexed(t: Table) {
    forall id :: id in t.sessions && Live(t.sessions[id]) && t.sessions[id].user.Some? ==>
      KeyOf(t.sessions[id]) in t.index && t.index[KeyOf(t.sessions[id])] == id
  }

  ghost predicate Inv(t: Table) { Sound(t) && LiveIndexed(t) }

  /** Recording a message does not resurrect a session that the index no longer holds. */
  predicate Harmless(t: Table, op: Op) {
    op.Message? && op.id in t.sessions ==>
      var s := t.sessions[op.id];
      Live(s) || s.user.None? || (KeyOf(s) in t.index && t.index[KeyOf(s)] == op.id)
  }

  lemma PromoteKeepsInv(t: Table, id: Id, user: string, now: int)
    requires Inv(t)
    ensures Inv(Promote(t, id, user, now).0)
  {
    hide Promote, Rebind, Detach;
    if id in t.sessions {
      var s := t.sessions[id];
      var newKey := (user, s.channel);
      var t' := Promote(t, id, user, now).0;
      if KeyOf(s) == newKey {
        TouchKeepsInv(t, id, now);
        PromoteSame(t, id, user, now);
      } else if ActiveFor(t, newKey).Some? && ActiveFor(t, newKey).value != id {
        PromoteMerge(t, id, user, now);
        EndDetachKeepsInv(t, id);
        TouchKeepsInv(End(t, id).(index := Detach(t.index, KeyOf(s), id)), ActiveFor(t, newKey).value, now);
      } else {
        PromoteRebind(t, id, user, now);
        RebindKeepsInv(t, id, user, now);
      }
    } else {
      PromoteMissing(t, id, user, now);
    }
  }

  lemma PromoteMissing(t: Table, id: Id, user: string, now: int)
    requires id !in t.sessions
    ensures Promote(t, id, user, now) == (t, None)
  {
  }

  lemma PromoteSame(t: Table, id: Id, user: string, now: int)
    requires id in t.sessions && KeyOf(t.sessions[id]) == (user, t.sessions[id].channel)
    ensures Promote(t, id, user, now) == (Touch(t, id, now), Some(id))
  {
  }

  lemma PromoteMerge(t: Table, id: Id, user: string, now: int)
    requires id in t.sessions && KeyOf(t.sessions[id]) != (user, t.sessions[id].channel)
    requires var e := ActiveFor(t, (user, t.sessions[id].channel)); e.Some? && e.value != id
    ensures var s := t.sessions[id]; var existing := ActiveFor(t, (user, s.channel)).value;
            Promote(t, id, user, now) ==
                (Touch(End(t, id).(index := Detach(t.index, KeyOf(s), id)), existing, now), Some(existing))
  {
  }

  lemma PromoteRebind(t: Table, id: Id, user: string, now: int)
    requires id in t.sessions && KeyOf(t.sessions[id]) != (user, t.sessions[id].channel)
    requires var e := ActiveFor(t, (user, t.sessions[id].channel)); e.None? || e.value == id
    ensures Promote(t, id, user, now) == (Rebind(t, id, user, now), Some(id))
  {
  }

  lemma TouchKeepsInv(t: Table, id: Id, now: int)
    requires Inv(t)
    ensures Inv(Touch(t, id, now))
  {
    var t' := Touch(t, id, now);
    assert forall x :: x in t'.sessions ==> KeyOf(t'.sessions[x]) == KeyOf(t.sessions[x]);
  }

  lemma EndDetachKeepsInv(t: Table, id: Id)
    requires Inv(t) && id in t.sessions
    ensures Inv(End(t, id).(index := Detach(t.index, KeyOf(t.sessions[id]), id)))
  {
  }

  lemma RebindKeepsInv(t: Table, id: Id, user: string, now: int)
    requires Inv(t) && id in t.sessions
    requires KeyOf(t.sessions[id]) != (user, t.sessions[id].channel)
    requires var e := ActiveFor(t, (user, t.sessions[id].channel)); e.None? || e.value == id
    ensures Inv(Rebind(t, id, user, now))
  {
  }

  lemma OpenKeepsInv(t: Table, user: Option<string>, channel: string, id: Id, now: int)
    requires Inv(t) && id !in t.sessions
    ensures Inv(GetOrCreate(t, user, channel, id, now).0)
  {
  }

  lemma PruneKeepsInv(t: Table, cutoff: int)
    requires Inv(t)
    ensures Inv(Prune(t, cutoff))
  {
  }

  lemma StepKeepsInv(t: Table, op: Op)
    requires Inv(t) && FreshId(t, op) && Harmless(t, op)
    ensures Inv(Step(t, op))
  {
    hide Inv, Promote, GetOrCreate, Prune, Record, End;
    match op
    case Open(user, channel, id, now) => OpenKeepsInv(t, user, channel, id, now);
    case Message(id, tokens, now) => RecordExactly(t, id, tokens, now);
    case Rebinding(id, user, now) => PromoteKeepsInv(t, id, user, now);
    case AliasRebinding(alias, channel, canonical, now) =>
      if alias != canonical && (alias, channel) in t.index {
        PromoteKeepsInv(t, t.index[(alias, channel)], canonical, now);
      }
    case Close(id) => EndKeepsInv(t, id);
    case Pruning(cutoff) => PruneKeepsInv(t, cutoff);
  }

  lemma EndKeepsInv(t: Table, id: Id)
    requires Inv(t)
    ensures Inv(End(t, id))
  {
  }

  /** Recording a message keeps the invariant exactly when it resurrects no session outside the index. */
  lemma RecordExactly(t: Table, id: Id, tokens: nat, now: int)
    requires Inv(t)
    ensures Inv(Record(t, id, tokens, now)) <==> Harmless(t, Message(id, tokens, now))
  {
    var t' := Record(t, id, tokens, now);
    if id in t.sessions && !Harmless(t, Message(id, tokens, now)) {
      assert Live(t'.sessions[id]) && KeyOf(t'.sessions[id]) == KeyOf(t.sessions[id]);
    }
  }

  ghost predicate HarmlessRun(t: Table, ops: seq<Op>) {
    FreshRun(t, ops) && forall i :: 0 <= i < |ops| ==> Harmless(TableAt(t, ops, i), ops[i])
  }

  lemma {:induction false} RunKeepsInv(t: Table, ops: seq<Op>, i: nat)
    requires Inv(t) && HarmlessRun(t, ops) && i <= |ops|
    ensures Inv(TableAt(t, ops, i))
  {
    hide Step, Inv, FreshId, Harmless;
    if i > 0 {
      RunKeepsInv(t, ops, i - 1);
      StepKeepsInv(TableAt(t, ops, i - 1), ops[i - 1]);
    }
  }

  lemma HarmfulBreaks(t: Table, op: Op)
    requires Inv(t) && !Harmless(t, op)
    ensures !Inv(Step(t, op))
  {
    hide Inv, Record;
    assert op == Message(op.id, op.tokens, op.now);
    RecordExactly(t, op.id, op.tokens, op.now);
  }

  /** Each live session of a user stays the indexed one throughout a run, exactly if no message of the run
      resurrects a session that the index no longer holds. */
  lemma RunKeepsInvIff(t: Table, ops: seq<Op>)
    requires Inv(t) && FreshRun(t, ops)
    ensures (forall i: nat :: i <= |ops| ==> Inv(TableAt(t, ops, i))) <==> HarmlessRun(t, ops)
  {
    hide Inv, FreshId, Harmless, Step, TableAt;
    if HarmlessRun(t, ops) {
      forall i: nat | i <= |ops|
        ensures Inv(TableAt(t, ops, i))
      {
        RunKeepsInv(t, ops, i);
      }
    } else {
      var i: nat :| i < |ops| && !Harmless(TableAt(t, ops, i), ops[i]);
      TableAtNext(t, ops, i);
      if Inv(TableAt(t, ops, i)) {
        HarmfulBreaks(TableAt(t, ops, i), ops[i]);
        assert !Inv(TableAt(t, ops, i + 1));
      }
    }
  }

  /** In every state of a harmless run two live sessions of one user and channel are the same session,
      the indexed one. */
  lemma OneLiveSession(t: Table, ops: seq<Op>, i: nat, a: Id, b: Id)
    requires Inv(t) && HarmlessRun(t, ops) && i <= |ops|
    requires var s := TableAt(t, ops, i).sessions;
             && a in s && b in s && Live(s[a]) && Live(s[b]) && s[a].user.Some?
             && s[a].user == s[b].user && s[a].channel == s[b].channel
    ensures var t' := TableAt(t, ops, i);
            a == b && ActiveFor(t', (t'.sessions[a].user.value, t'.sessions[a].channel)) == Some(a)
  {
    hide TableAt, HarmlessRun;
    RunKeepsInv(t, ops, i);
  }

  const RESURRECTION := [
    Open(Some("alice"), "web", "one", 0), Close("one"), Open(Some("alice"), "web", "two", 1), Message("one", 5, 2)]

  /** A message recorded on an ended session leaves its user with two live sessions on the channel. */
  lemma ResurrectionBreaksUniqueness()
    ensures var t := TableAt(Table(map[], map[]), RESURRECTION, 4);
            && "one" in t.sessions && "two" in t.sessions && "one" != "two"
            && Live(t.sessions["one"]) && Live(t.sessions["two"])
            && t.sessions["one"].user == t.sessions["two"].user == Some("alice")
            && t.sessions["one"].channel == t.sessions["two"].channel
  {
    var t0 := Table(map[], map[]);
    var t1 := TableAt(t0, RESURRECTION, 1);
    assert "one" != "two" by { assert "one"[0] == 'o' && "two"[0] == 't'; }
    assert t1 == Step(t0, RESURRECTION[0]);
    assert ActiveFor(t1, ("alice", "web")) == Some("one");
    var t2 := TableAt(t0, RESURRECTION, 2);
    assert t2 == Step(t1, RESURRECTION[1]);
    assert ActiveFor(t2, ("alice", "web")) == None;
    var t3 := TableAt(t0, RESURRECTION, 3);
    assert t3 == Step(t2, RESURRECTION[2]);
    assert TableAt(t0, RESURRECTION, 4) == Step(t3, RESURRECTION[3]);
  }

  // ---------- a session is reused until something takes it away ----------

  /** The operations that take a live session of `user` on `channel` away. */
  predicate Disturbs(t: Table, op: Op, id: Id, user: string, channel: string) {
    match op
    case Close(x) => x == id
    case Rebinding(x, u, now) => x == id && u != user
    case AliasRebinding(alias, c, canonical, now) => alias == user && c == channel && canonical != alias
    case Pruning(cutoff) => Expired(t, id, cutoff)
    case _ => false
  }

  predicate Holds(t: Table, id: Id, user: string, channel: string) {
    id in t.sessions && Live(t.sessions[id]) && t.sessions[id].user == Some(user) && t.sessions[id].channel == channel
  }

  lemma PromoteElsewhere(t: Table, x: Id, u: string, now: int, id: Id, user: string, channel: string)
    requires Inv(t) && Holds(t, id, user, channel) && (x == id ==> u == user)
    ensures Holds(Promote(t, x, u, now).0, id, user, channel)
  {
  }

  lemma StepHolds(t: Table, op: Op, id: Id, user: string, channel: string)
    requires Inv(t) && FreshId(t, op) && Holds(t, id, user, channel) && !Disturbs(t, op, id, user, channel)
    ensures Holds(Step(t, op), id, user, channel)
  {
    hide Promote;
    match op
    case Rebinding(x, u, now) => PromoteElsewhere(t, x, u, now, id, user, channel);
    case AliasRebinding(alias, c, canonical, now) =>
      if alias != canonical && (alias, c) in t.index {
        PromoteElsewhere(t, t.index[(alias, c)], canonical, now, id, user, channel);
      }
    case _ =>
  }

  ghost predicate Undisturbed(t: Table, ops: seq<Op>, i: nat, j: nat, id: Id, user: string, channel: string)
    requires j <= |ops|
  {
    forall k :: i <= k < j ==> !Disturbs(TableAt(t, ops, k), ops[k], id, user, channel)
  }

  lemma {:induction false} RunHolds(t: Table, ops: seq<Op>, i: nat, j: nat, id: Id, user: string, channel: string)
    requires Inv(t) && HarmlessRun(t, ops) && i <= j <= |ops|
    requires Undisturbed(t, ops, i, j, id, user, channel) && Holds(TableAt(t, ops, i), id, user, channel)
    ensures Holds(TableAt(t, ops, j), id, user, channel)
  {
    hide Step, Inv, FreshId, Harmless, Holds, Disturbs;
    if i < j {
      RunHolds(t, ops, i, j - 1, id, user, channel);
      RunKeepsInv(t, ops, j - 1);
      StepHolds(TableAt(t, ops, j - 1), ops[j - 1], id, user, channel);
    }
  }

  /** `get_or_create` keeps returning the session it returned once, and changes nothing,
      until that session is ended, pruned or promoted to another user. */
  lemma SessionIsReused(t: Table, ops: seq<Op>, i: nat, j: nat, user: string, channel: string, fresh1: Id, fresh2: Id,
                        now1: int, now2: int)
    requires Inv(t) && HarmlessRun(t, ops) && i < j <= |ops|
    requires ops[i] == Open(Some(user), channel, fresh1, now1)
    requires var id := GetOrCreate(TableAt(t, ops, i), Some(user), channel, fresh1, now1).1;
             Undisturbed(t, ops, i + 1, j, id, user, channel)
    ensures var id := GetOrCreate(TableAt(t, ops, i), Some(user), channel, fresh1, now1).1;
            GetOrCreate(TableAt(t, ops, j), Some(user), channel, fresh2, now2) == (TableAt(t, ops, j), id)
  {
    hide TableAt, HarmlessRun, Undisturbed;
    var a := TableAt(t, ops, i);
    var id := GetOrCreate(a, Some(user), channel, fresh1, now1).1;
    RunKeepsInv(t, ops, i);
    RunKeepsInv(t, ops, j);
    TableAtNext(t, ops, i);
    assert Holds(Step(a, ops[i]), id, user, channel);
    RunHolds(t, ops, i + 1, j, id, user, channel);
  }

  lemma TableAtNext(t: Table, ops: seq<Op>, i: nat)
    requires i < |ops|
    ensures TableAt(t, ops, i + 1) == Step(TableAt(t, ops, i), ops[i])
  {
    hide Step;
  }

  // ---------- what each operation does ----------

  /** The session that the index names for a user and channel, if it is active or idle. */
  predicate IsCurrent(t: Table, user: string, channel: string, id: Id) {
    && (user, channel) in t.index && t.index[(user, channel)] == id
    && id in t.sessions && (t.sessions[id].state == Active || t.sessions[id].state == Idle)
  }

  /** Opening answers the current session of a named user, and otherwise starts a new one: active, with no messages
      and tokens yet, and indexed if the user is named. */
  lemma OpenMeaning(t: Table, user: Option<string>, channel: string, id: Id, now: int)
    ensures var (t', r) := GetOrCreate(t, user, channel, id, now);
            if user.Some? && exists x :: IsCurrent(t, user.value, channel, x)
            then t' == t && IsCurrent(t, user.value, channel, r)
            else r == id && t'.sessions == t.sessions[id := Session(user, channel, Active, now, 0, 0)]
                 && t'.index == if user.Some? then t.index[(user.value, channel) := id] else t.index
  {
    if user.Some? {
      var key := (user.value, channel);
      assert ActiveFor(t, key).Some? ==> IsCurrent(t, user.value, channel, ActiveFor(t, key).value);
    }
  }

  /** Recording a message counts it and its tokens, makes its session active as of now, and changes nothing else;
      a message for an unknown session is ignored. */
  lemma RecordMeaning(t: Table, id: Id, tokens: nat, now: int)
    ensures var t' := Record(t, id, tokens, now);
            && t'.index == t.index
            && (id !in t.sessions ==> t' == t)
            && (id in t.sessions ==>
                  var s := t.sessions[id];
                  t'.sessions ==
                    t.sessions[id := Session(s.user, s.channel, Active, now, s.messages + 1, s.tokens + tokens)])
  {
  }

  /** Ending a session changes its state and nothing else; its index entry stays. */
  lemma EndMeaning(t: Table, id: Id)
    ensures var t' := End(t, id);
            && t'.index == t.index
            && (id !in t.sessions ==> t' == t)
            && (id in t.sessions ==>
                  var s := t.sessions[id];
                  t'.sessions ==
                    t.sessions[id := Session(s.user, s.channel, Ended, s.lastActive, s.messages, s.tokens)])
  {
  }

  /** A session that a message was recorded for survives every prune whose cutoff is not later than the message. */
  lemma RecordedSurvives(t: Table, id: Id, tokens: nat, now: int, cutoff: int)
    requires id in t.sessions && cutoff <= now
    ensures id in Prune(Record(t, id, tokens, now), cutoff).sessions
  {
  }

  /** Which session a promotion yields and what becomes of the index: a session that already answers for the user stays;
      if the user has another current session on the channel, the promoted one ends in its favour;
      otherwise it changes hands. The session yielded was last active now, and is idle only if it changed hands idle. */
  lemma PromoteCases(t: Table, id: Id, user: string, now: int)
    requires id in t.sessions
    ensures var s := t.sessions[id];
            var (t', r) := Promote(t, id, user, now);
            var own := (if s.user.Some? then s.user.value else "", s.channel);
            && r.Some? && r.value in t'.sessions && t'.sessions[r.value].lastActive == now
            && (t'.sessions[r.value].state == Idle ==> own != (user, s.channel) && r.value == id)
            && (forall x :: x in t.sessions && x != id && x != r.value ==>
                  x in t'.sessions && t'.sessions[x] == t.sessions[x])
            && if own == (user, s.channel) then r.value == id && t'.index == t.index
               else if exists x :: x != id && IsCurrent(t, user, s.channel, x) then
                 && IsCurrent(t, user, s.channel, r.value) && r.value != id && t'.sessions[id].state == Ended
                 && t'.index == if own in t.index && t.index[own] == id then t.index - {own} else t.index
               else
                 && r.value == id && t'.sessions[id].user == Some(user) && t'.sessions[id].state == s.state
                 && var detached := if own in t.index && t.index[own] == id then t.index - {own} else t.index;
                    t'.index == detached[(user, s.channel) := id]
  {
    var channel := t.sessions[id].channel;
    var existing := ActiveFor(t, (user, channel));
    assert existing.Some? ==> IsCurrent(t, user, channel, existing.value);
    assert forall x :: IsCurrent(t, user, channel, x) ==> existing == Some(x);
  }

  /** Promoting an alias takes the session indexed for it to the canonical user, on the same channel, and the alias
      has no entry any more; with nothing indexed, or the same name, it does nothing. */
  lemma PromoteAliasMeaning(t: Table, alias: string, channel: string, canonical: string, now: int)
    requires Sound(t)
    ensures var (t', r) := PromoteAlias(t, alias, channel, canonical, now);
            if alias == canonical || (alias, channel) !in t.index then t' == t && r == Ok(None)
            else
              && (alias, channel) !in t'.index
              && r.Ok? && r.value.Some? && r.value.value in t'.sessions
              && t'.sessions[r.value.value].user == Some(canonical) && t'.sessions[r.value.value].channel == channel
              && t'.sessions[r.value.value].lastActive == now
  {
    hide Promote;
    if alias != canonical && (alias, channel) in t.index {
      var id := t.index[(alias, channel)];
      PromoteMeaning(t, id, canonical, now);
      PromoteCases(t, id, canonical, now);
    }
  }

  // ---------- promotion and pruning ----------

  /** Promotion yields a session on the same channel that answers for the user, and drops no session.
      The owner field itself names the user, except that an anonymous session promoted to the empty user
      stays anonymous. */
  lemma PromoteMeaning(t: Table, id: Id, user: string, now: int)
    requires Sound(t) && id in t.sessions
    ensures var (t', r) := Promote(t, id, user, now);
            && r.Some? && r.value in t'.sessions
            && KeyOf(t'.sessions[r.value]) == (user, t.sessions[id].channel)
            && (t'.sessions[r.value].user == Some(user) <==> !(t.sessions[id].user.None? && user == ""))
            && t'.sessions.Keys == t.sessions.Keys
  {
  }

  /** Promotion keeps every counter and channel, and changes no owner but that of the promoted session. */
  lemma PromoteKeepsCounters(t: Table, id: Id, user: string, now: int, x: Id)
    requires x in t.sessions
    ensures var t' := Promote(t, id, user, now).0;
            && x in t'.sessions
            && t'.sessions[x].messages == t.sessions[x].messages && t'.sessions[x].tokens == t.sessions[x].tokens
            && t'.sessions[x].channel == t.sessions[x].channel
            && (x != id ==> t'.sessions[x].user == t.sessions[x].user)
  {
  }

  /** Pruning removes exactly the sessions older than the cutoff and exactly the entries that named them. */
  lemma PruneMeaning(t: Table, cutoff: int)
    requires Sound(t)
    ensures var t' := Prune(t, cutoff);
            && (forall id :: id in t'.sessions <==> id in t.sessions && t.sessions[id].lastActive >= cutoff)
            && (forall id :: id in t'.sessions ==> t'.sessions[id] == t.sessions[id])
            && (forall k :: k in t'.index <==> k in t.index && t.index[k] in t'.sessions)
            && (forall k :: k in t'.index ==> t'.index[k] == t.index[k])
    ensures Sound(Prune(t, cutoff))
  {
    var t' := Prune(t, cutoff);
    forall k | k in t.index
      ensures k in t'.index <==> t.index[k] in t'.sessions
    {
      assert KeyOf(t.sessions[t.index[k]]) == k;
    }
  }

  /** The tokens that the operations `i` to `j` record on one session. */
  function RecordedTokens(ops: seq<Op>, i: nat, j: nat, id: Id): nat
    requires i <= j <= |ops|
  {
    if i == j then 0
    else RecordedTokens(ops, i, j - 1, id) + if ops[j - 1].Message? && ops[j - 1].id == id then ops[j - 1].tokens else 0
  }

  lemma StepTokens(t: Table, op: Op, id: Id)
    requires FreshId(t, op) && id in t.sessions && id in Step(t, op).sessions
    ensures Step(t, op).sessions[id].tokens ==
            t.sessions[id].tokens + if op.Message? && op.id == id then op.tokens else 0
  {
  }

  /** As long as a session stays stored its token total grows by exactly the recorded messages, whoever it is promoted
      to. */
  lemma {:induction false} TokensAreConserved(t: Table, ops: seq<Op>, i: nat, j: nat, id: Id)
    requires FreshRun(t, ops) && i <= j <= |ops|
    requires forall k :: i <= k <= j ==> id in TableAt(t, ops, k).sessions
    ensures TableAt(t, ops, j).sessions[id].tokens ==
              TableAt(t, ops, i).sessions[id].tokens + RecordedTokens(ops, i, j, id)
  {
    hide Step, FreshId;
    if i < j {
      TokensAreConserved(t, ops, i, j - 1, id);
      assert id in TableAt(t, ops, j - 1).sessions && id in TableAt(t, ops, j).sessions;
      assert FreshId(TableAt(t, ops, j - 1), ops[j - 1]);
      StepTokens(TableAt(t, ops, j - 1), ops[j - 1], id);
    }
  }
}
