/** Pairing and challenge requests are good for one use, before they expire, in every run that mixes management
    operations, web requests and inbound messages. */
module RequestTheorems {
  import opened Wrappers
  import opened Text
  import opened Handles
  import opened Directory
  import opened IdentityTheorems
  import opened RuntimeIdentity
  import opened RuntimeTheorems

  /** Stored requests never change except for being marked, and a mark stays. */
  ghost predicate RequestsKept(s: State, s': State) {
    && (forall id :: id in s.pairings ==>
          && id in s'.pairings
          && s'.pairings[id].(completedAt := s.pairings[id].completedAt) == s.pairings[id]
          && (s.pairings[id].completedAt.Some? ==> s'.pairings[id].completedAt == s.pairings[id].completedAt))
    && (forall id :: id in s.challenges ==>
          && id in s'.challenges
          && s'.challenges[id].(verifiedAt := s.challenges[id].verifiedAt) == s.challenges[id]
          && (s.challenges[id].verifiedAt.Some? ==> s'.challenges[id].verifiedAt == s.challenges[id].verifiedAt))
  }

  lemma RequestsKeptTransitive(s0: State, s1: State, s2: State)
    requires RequestsKept(s0, s1) && RequestsKept(s1, s2)
    ensures RequestsKept(s0, s2)
  {
  }

  /** A completion writes to the pairing table only by marking its own open, unexpired request. */
  lemma CompletionRequests(s: State, id: string, completion: PairingCompletion, now: int)
    ensures var (s', e) := CompletePairing(s, id, completion, now);
            && s'.challenges == s.challenges
            && if e.Some? then s'.pairings == s.pairings
               else && id in s.pairings && s.pairings[id].completedAt.None? && now <= s.pairings[id].expiresAt
                    && s'.pairings == s.pairings[id := s.pairings[id].(completedAt := Some(now))]
  {
    hide CompletionUser, CompletionLink, CompletionDevice;
    if id in s.pairings {
      var request := s.pairings[id];
      var s1 := CompletionUser(s, request, completion);
      assert s1.pairings == s.pairings && s1.challenges == s.challenges by {
        UserStageRequests(s, request, completion);
      }
      LinkStageTables(s1, request, completion);
      DeviceStageTables(CompletionLink(s1, request, completion).0, request, completion);
    }
  }

  lemma UserStageRequests(s: State, request: PairingRequest, completion: PairingCompletion)
    ensures CompletionUser(s, request, completion) == s.(users := CompletionUser(s, request, completion).users)
  {
    hide GetOr, OrElse;
  }

  /** What an accepted answer to a challenge means, in both directions. */
  lemma AnswerAccepted(crypto: Crypto, s: State, id: string, signature: string, now: int, user: string, trust: Trust)
    ensures VerifyChallenge(crypto, s, id, signature, now).1 == Ok((user, trust)) <==>
            && id in s.challenges && s.challenges[id].verifiedAt.None? && now <= s.challenges[id].expiresAt
            && crypto.decode(signature).Some? && crypto.decode(s.challenges[id].nonce).Some?
            && ResolveByDevice(s, s.challenges[id].deviceId) == Some((user, trust))
            && crypto.verify(s.devices[s.challenges[id].deviceId].key,
                             crypto.decode(signature).value, crypto.decode(s.challenges[id].nonce).value) == Some(true)
  {
    if id in s.challenges {
      assert ResolveByDevice(MarkVerified(s, id, now), s.challenges[id].deviceId) ==
          ResolveByDevice(s, s.challenges[id].deviceId);
    }
  }

  lemma AnswerRequests(crypto: Crypto, s: State, id: string, signature: string, now: int)
    ensures var (s', r) := VerifyChallenge(crypto, s, id, signature, now);
            && s' == s.(challenges := s'.challenges)
            && if r.Ok? then
                 && id in s.challenges && s.challenges[id].verifiedAt.None? && now <= s.challenges[id].expiresAt
                 && s'.challenges == s.challenges[id := s.challenges[id].(verifiedAt := Some(now))]
               else s'.challenges == s.challenges
  {
    if id in s.challenges {
      assert ResolveByDevice(MarkVerified(s, id, now), s.challenges[id].deviceId) ==
          ResolveByDevice(s, s.challenges[id].deviceId);
    }
  }

  lemma RegisterTables(s: State, user: string, name: string, role: Role)
    ensures Register(s, user, name, role) == s.(users := Register(s, user, name, role).users)
  {
  }

  lemma PairTables(s: State, user: string, device: string, row: Device)
    ensures var s' := PairDevice(s, user, device, row).0; s' == s.(devices := s'.devices)
  {
  }

  lemma RevokeTables(s: State, user: string, device: string)
    ensures RevokeDevice(s, user, device) == s.(devices := RevokeDevice(s, user, device).devices)
  {
  }

  /** Request identifiers are new when a request is issued. */
  predicate FreshId(s: State, op: Op) {
    && (op.StartPairing? ==> op.id !in s.pairings)
    && (op.StartChallenge? ==> op.id !in s.challenges)
  }

  lemma SameRequests(s: State, s': State)
    requires s'.pairings == s.pairings && s'.challenges == s.challenges
    ensures RequestsKept(s, s')
  {
  }

  lemma IssuingKeepsRequests(s: State, op: Op, s': State)
    requires FreshId(s, op)
    requires || (op.StartPairing? && s' == IssuePairing(s, op.id, op.seed, op.now))
             || (op.StartChallenge? &&
                   s' == IssueChallenge(s, op.id, op.subject, op.device, op.nonce, op.reason, op.now))
    ensures RequestsKept(s, s')
  {
  }

  lemma CompletionKeepsRequests(s: State, id: string, completion: PairingCompletion, now: int)
    ensures RequestsKept(s, CompletePairing(s, id, completion, now).0)
  {
    hide CompletePairing;
    CompletionRequests(s, id, completion, now);
  }

  lemma AnswerKeepsRequests(crypto: Crypto, s: State, id: string, signature: string, now: int)
    ensures RequestsKept(s, VerifyChallenge(crypto, s, id, signature, now).0)
  {
    hide VerifyChallenge;
    AnswerRequests(crypto, s, id, signature, now);
  }

  lemma StepKeepsRequests(crypto: Crypto, s: State, op: Op)
    requires FreshId(s, op)
    ensures RequestsKept(s, Step(crypto, s, op).0)
  {
    hide RequestsKept, LinkChannel, CompletePairing, VerifyChallenge, PairDevice, Register, RevokeDevice, IssuePairing,
         IssueChallenge;
    var s' := Step(crypto, s, op).0;
    match op
    case RegisterUser(user, name, role) => RegisterTables(s, user, name, role); SameRequests(s, s');
    case Pair(user, device, row) => PairTables(s, user, device, row); SameRequests(s, s');
    case Revoke(user, device) => RevokeTables(s, user, device); SameRequests(s, s');
    case Link(user, channelId, kind, handle) => LinkTables(s, user, channelId, kind, handle); SameRequests(s, s');
    case StartPairing(id, seed, now) => IssuingKeepsRequests(s, op, s');
    case StartChallenge(id, subject, device, nonce, reason, now) => IssuingKeepsRequests(s, op, s');
    case FinishPairing(id, completion, now) => CompletionKeepsRequests(s, id, completion, now);
    case AnswerChallenge(id, signature, now) => AnswerKeepsRequests(crypto, s, id, signature, now);
  }

  lemma TryLinkTables(s: State, user: string, kind: ChannelKind, raw: string)
    ensures var s' := TryLink(s, user, kind, raw).0; s' == s.(channels := s'.channels)
  {
    hide LinkChannel, ResolveByChannel, Trim, KindName;
    var handle := Trim(raw);
    LinkTables(s, user, KindName(kind) + ":" + handle, kind, handle);
  }

  lemma {:induction false} AutoLinkTables(s: State, user: string, kind: ChannelKind, handles: seq<string>)
    ensures var s' := AutoLink(s, user, kind, handles).0; s' == s.(channels := s'.channels)
    decreases |handles|
  {
    hide TryLink;
    if handles != [] {
      TryLinkTables(s, user, kind, handles[0]);
      AutoLinkTables(TryLink(s, user, kind, handles[0]).0, user, kind, handles[1..]);
    }
  }

  /** A resolution writes to the channel table only. */
  lemma ClaimTables(crypto: Crypto, s: State, claim: Option<Claim>, base: Trust, kind: ChannelKind,
                    handles: seq<string>)
    ensures var s' := ResolveByClaim(crypto, s, claim, base, kind, handles).0; s' == s.(channels := s'.channels)
  {
    hide AutoLink;
    if claim.Some? {
      var resolved := ResolveFromDevice(crypto, s, claim.value);
      if resolved.action.Proceed? {
        AutoLinkTables(s, resolved.user.value, kind, handles);
      }
    }
  }

  /** The request a management operation issues has a new identifier. */
  predicate FreshEvent(s: State, e: Event) { e.Manage? ==> FreshId(s, e.op) }

  ghost predicate FreshEvents(crypto: Crypto, s: State, events: seq<Event>) {
    forall i :: 0 <= i < |events| ==> FreshEvent(StateBefore(crypto, s, events, i), events[i])
  }

  lemma EventKeepsRequests(crypto: Crypto, s: State, e: Event)
    requires FreshEvent(s, e)
    ensures RequestsKept(s, After(crypto, s, e))
  {
    hide Step, ResolveByClaim, FirstResolved, AuthenticatedWebHandles, WebHandles, ChannelHandles, OwnHandle;
    match e
    case Manage(op) => StepKeepsRequests(crypto, s, op);
    case Web(caller, claim) =>
      ClaimTables(crypto, s, claim, AuthTrust(caller.auth), WebChat, AuthenticatedWebHandles(caller));
    case Inbound(message) =>
      ClaimTables(crypto, s, message.claim, message.trust, message.kind, OwnHandle(message));
  }

  lemma {:induction false} RunKeepsRequests(crypto: Crypto, s: State, events: seq<Event>, i: nat, j: nat)
    requires FreshEvents(crypto, s, events) && i <= j <= |events|
    ensures RequestsKept(StateBefore(crypto, s, events, i), StateBefore(crypto, s, events, j))
  {
    hide After, FreshEvent;
    if i < j {
      var last := StateBefore(crypto, s, events, j - 1);
      RunKeepsRequests(crypto, s, events, i, j - 1);
      EventKeepsRequests(crypto, last, events[j - 1]);
      RequestsKeptTransitive(StateBefore(crypto, s, events, i), last, StateBefore(crypto, s, events, j));
    }
  }

  /** How the management operation at position `i` of a run ended. */
  function OutcomeAt(crypto: Crypto, s: State, events: seq<Event>, i: nat): Outcome
    requires i < |events| && events[i].Manage?
  {
    Step(crypto, StateBefore(crypto, s, events, i), events[i].op).1
  }

  lemma ManageNext(crypto: Crypto, s: State, events: seq<Event>, i: nat)
    requires i < |events| && events[i].Manage?
    ensures StateBefore(crypto, s, events, i + 1) == Step(crypto, StateBefore(crypto, s, events, i), events[i].op).0
  {
    hide Step;
    StateBeforeNext(crypto, s, events, i);
  }

  /** No pairing request is completed twice in a run. */
  lemma PairingCompletedOnce(crypto: Crypto, s: State, events: seq<Event>, i: nat, j: nat)
    requires FreshEvents(crypto, s, events) && i < j < |events| && events[i].Manage? && events[j].Manage?
    requires events[i].op.FinishPairing? && events[j].op.FinishPairing? && events[i].op.id == events[j].op.id
    requires OutcomeAt(crypto, s, events, i) == Done
    ensures OutcomeAt(crypto, s, events, j) == Failed(AlreadyDone)
  {
    hide StateBefore, FreshEvents, CompletionUser, CompletionLink, CompletionDevice, MarkCompleted;
    var a, b := StateBefore(crypto, s, events, i), StateBefore(crypto, s, events, i + 1);
    var op := events[i].op;
    ManageNext(crypto, s, events, i);
    CompletionRequests(a, op.id, op.completion, op.now);
    RunKeepsRequests(crypto, s, events, i + 1, j);
    assert b.pairings[op.id].completedAt.Some?;
  }

  /** No challenge is verified twice in a run. */
  lemma ChallengeVerifiedOnce(crypto: Crypto, s: State, events: seq<Event>, i: nat, j: nat)
    requires FreshEvents(crypto, s, events) && i < j < |events| && events[i].Manage? && events[j].Manage?
    requires events[i].op.AnswerChallenge? && events[j].op.AnswerChallenge? && events[i].op.id == events[j].op.id
    requires OutcomeAt(crypto, s, events, i).Identified?
    ensures OutcomeAt(crypto, s, events, j) == Failed(AlreadyDone)
  {
    hide StateBefore, FreshEvents, MarkVerified, VerifySignature, ResolveByDevice;
    var a, b := StateBefore(crypto, s, events, i), StateBefore(crypto, s, events, i + 1);
    var op := events[i].op;
    ManageNext(crypto, s, events, i);
    AnswerRequests(crypto, a, op.id, op.signature, op.now);
    RunKeepsRequests(crypto, s, events, i + 1, j);
    assert b.challenges[op.id].verifiedAt.Some?;
  }

  /** A pairing issued in a run is completed within the hour or not at all. */
  lemma PairingCompletedInTime(crypto: Crypto, s: State, events: seq<Event>, i: nat, j: nat)
    requires FreshEvents(crypto, s, events) && i < j < |events| && events[i].Manage? && events[j].Manage?
    requires events[i].op.StartPairing? && events[j].op.FinishPairing? && events[i].op.id == events[j].op.id
    requires OutcomeAt(crypto, s, events, j) == Done
    ensures events[j].op.now <= events[i].op.now + 60 * 60 * 1_000_000_000
  {
    hide StateBefore, FreshEvents, CompletePairing;
    var start, finish := events[i].op, events[j].op;
    ManageNext(crypto, s, events, i);
    RunKeepsRequests(crypto, s, events, i + 1, j);
    CompletionRequests(StateBefore(crypto, s, events, j), finish.id, finish.completion, finish.now);
    assert StateBefore(crypto, s, events, i + 1).pairings[start.id].expiresAt == start.now + HOUR;
  }

  /** A challenge issued in a run is verified within fifteen minutes or not at all. */
  lemma ChallengeVerifiedInTime(crypto: Crypto, s: State, events: seq<Event>, i: nat, j: nat)
    requires FreshEvents(crypto, s, events) && i < j < |events| && events[i].Manage? && events[j].Manage?
    requires events[i].op.StartChallenge? && events[j].op.AnswerChallenge? && events[i].op.id == events[j].op.id
    requires OutcomeAt(crypto, s, events, j).Identified?
    ensures events[j].op.now <= events[i].op.now + 15 * 60 * 1_000_000_000
  {
    hide StateBefore, FreshEvents, VerifyChallenge;
    var start, answer := events[i].op, events[j].op;
    ManageNext(crypto, s, events, i);
    RunKeepsRequests(crypto, s, events, i + 1, j);
    AnswerRequests(crypto, StateBefore(crypto, s, events, j), answer.id, answer.signature, answer.now);
    assert StateBefore(crypto, s, events, i + 1).challenges[start.id].expiresAt == start.now + QUARTER_HOUR;
  }

  /** A completed pairing leaves its handle resolving to the user, and its device at hardware trust. */
  lemma CompletionTakesEffect(s: State, id: string, completion: PairingCompletion, now: int)
    requires Inv(s) && CompletePairing(s, id, completion, now).1.None?
    ensures var s' := CompletePairing(s, id, completion, now).0;
            var request := s.pairings[id];
            && completion.user in s'.users
            && (request.kind.Some? && request.handle.Some? && Trim(request.handle.value) != "" ==>
                  ResolveByChannel(s', request.kind.value, request.handle.value) == Some(completion.user))
            && (request.deviceId.Some? ==>
                  ResolveByDevice(s', request.deviceId.value) == Some((completion.user, Hardware)))
  {
    hide LinkChannel, CompletionUser, CompletionLink, ResolveByChannel, Inv, OwnsAll;
    var s' := CompletePairing(s, id, completion, now).0;
    var request := s.pairings[id];
    CompletionRows(s, id, completion, now);
    if request.kind.Some? && request.handle.Some? && Trim(request.handle.value) != "" {
      var kind, handle := request.kind.value, request.handle.value;
      CompletionKeepsInv(s, id, completion, now);
      var nobody := Crypto(text => None, (key, signature, message) => None);
      LinksOwnsAll(nobody, s, FinishPairing(id, completion, now), completion.user, kind, handle);
      OwnedAliasResolves(s', completion.user, kind, handle, handle);
    }
  }
}
