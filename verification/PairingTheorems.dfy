/** What a completed pairing leaves behind, and who can answer a challenge afterwards
    (crates/ngenorca-identity/src/lib.rs). */
module PairingTheorems {
  import opened Wrappers
  import opened Handles
  import opened Directory
  import opened IdentityTheorems
  import opened RuntimeIdentity
  import opened RuntimeTheorems
  import opened RequestTheorems

  /** `r` is the first that is given: `a`, else `b`, else the default. */
  predicate IsFirstGiven<T(==)>(r: T, a: Option<T>, b: Option<T>, default: T) {
    || a == Some(r)
    || (a == None && b == Some(r))
    || (a == None && b == None && r == default)
  }

  // ---------- what a completion does ----------

  /** The user is registered; one that was registered before keeps name and role. */
  ghost predicate UserBound(s: State, s': State, request: PairingRequest, completion: PairingCompletion) {
    && completion.user in s'.users
    && (forall u :: u in s.users ==> u in s'.users && s'.users[u] == s.users[u])
    && (forall u :: u in s'.users && u !in s.users ==> u == completion.user)
    && (completion.user !in s.users ==>
          && s'.users[completion.user].role == completion.role
          && IsFirstGiven(s'.users[completion.user].displayName, completion.displayName, request.requestedName,
                          completion.user))
  }

  /** The device of the request belongs to the user at hardware trust, under the public key of the completion. */
  ghost predicate DeviceBound(s: State, s': State, request: PairingRequest, completion: PairingCompletion) {
    && (forall d :: Some(d) != request.deviceId ==> (d in s'.devices <==> d in s.devices))
    && (forall d :: Some(d) != request.deviceId && d in s.devices ==> s'.devices[d] == s.devices[d])
    && (request.deviceId.Some? ==>
          && request.deviceId.value in s'.devices && completion.publicKey.Some?
          && var device := s'.devices[request.deviceId.value];
             && device.owner == completion.user && device.key == completion.publicKey.value && device.trust == Hardware
             && IsFirstGiven(device.name, completion.deviceName, request.deviceName, "Paired device")
             && IsFirstGiven(device.attestation, completion.attestation, None, CompositeFingerprint))
  }

  /** The aliases of the handle of the request belong to the user, under the channel of the completion. */
  ghost predicate HandleBound(s: State, s': State, request: PairingRequest, completion: PairingCompletion) {
    if request.kind.Some? && request.handle.Some? then
      forall k, h ::
        if k == request.kind.value && h in Candidates(k, request.handle.value) then
          && (k, h) in s'.channels && s'.channels[(k, h)].owner == completion.user
          && IsFirstGiven(s'.channels[(k, h)].channelId, completion.channelId, None,
                          KindName(request.kind.value) + ":" + request.handle.value)
        else
          && ((k, h) in s'.channels <==> (k, h) in s.channels)
          && ((k, h) in s.channels ==> s'.channels[(k, h)] == s.channels[(k, h)])
    else s'.channels == s.channels
  }

  lemma UserStage(s: State, request: PairingRequest, completion: PairingCompletion)
    ensures var s' := CompletionUser(s, request, completion);
            UserBound(s, s', request, completion) && s' == s.(users := s'.users)
  {
  }

  lemma LinkStage(s: State, request: PairingRequest, completion: PairingCompletion)
    requires CompletionLink(s, request, completion).1.None?
    ensures var s' := CompletionLink(s, request, completion).0;
            HandleBound(s, s', request, completion) && s' == s.(channels := s'.channels)
  {
    hide Candidates, BindAll, Conflicts, KindName;
    if request.kind.Some? && request.handle.Some? {
      var kind, handle := request.kind.value, request.handle.value;
      var id := GetOr(completion.channelId, KindName(kind) + ":" + handle);
      forall k, h
        ensures var r := BindAll(s.channels, completion.user, id, kind, Candidates(kind, handle));
                && ((k, h) in r <==> (k, h) in s.channels || (k == kind && h in Candidates(kind, handle)))
                && (k == kind && h in Candidates(kind, handle) ==> r[(k, h)] == Binding(completion.user, id))
                && (!(k == kind && h in Candidates(kind, handle)) && (k, h) in r ==> r[(k, h)] == s.channels[(k, h)])
      {
        BindAllRow(s.channels, completion.user, id, kind, Candidates(kind, handle), k, h);
      }
    }
  }

  lemma DeviceStage(s: State, request: PairingRequest, completion: PairingCompletion)
    requires CompletionDevice(s, request, completion).1.None?
    ensures var s' := CompletionDevice(s, request, completion).0;
            DeviceBound(s, s', request, completion) && s' == s.(devices := s'.devices)
  {
  }

  /** A successful completion binds exactly the user, the handle and the device that request and completion name. */
  lemma CompletionBinds(s: State, id: string, completion: PairingCompletion, now: int)
    requires CompletePairing(s, id, completion, now).1.None?
    ensures var s' := CompletePairing(s, id, completion, now).0;
            && id in s.pairings
            && UserBound(s, s', s.pairings[id], completion)
            && HandleBound(s, s', s.pairings[id], completion)
            && DeviceBound(s, s', s.pairings[id], completion)
  {
    hide CompletionUser, CompletionLink, CompletionDevice, Candidates, KindName;
    var request := s.pairings[id];
    var s1 := CompletionUser(s, request, completion);
    var s2 := CompletionLink(s1, request, completion).0;
    UserStage(s, request, completion);
    LinkStage(s1, request, completion);
    DeviceStage(s2, request, completion);
    hide UserBound, HandleBound, DeviceBound;
    var s' := CompletePairing(s, id, completion, now).0;
    SameBounds(s, s1, s, s', request, completion);
    SameBounds(s1, s2, s, s', request, completion);
    SameBounds(s2, CompletionDevice(s2, request, completion).0, s, s', request, completion);
  }

  lemma SameBounds(a: State, a': State, s: State, s': State, request: PairingRequest, completion: PairingCompletion)
    ensures a.users == s.users && a'.users == s'.users && UserBound(a, a', request, completion) ==>
              UserBound(s, s', request, completion)
    ensures a.channels == s.channels && a'.channels == s'.channels && HandleBound(a, a', request, completion) ==>
              HandleBound(s, s', request, completion)
    ensures a.devices == s.devices && a'.devices == s'.devices && DeviceBound(a, a', request, completion) ==>
              DeviceBound(s, s', request, completion)
  {
    hide Candidates, KindName;
  }

  /** No alias of the requested handle belongs to another registered user. */
  ghost predicate HandleFree(s: State, request: PairingRequest, user: string) {
    request.kind.Some? && request.handle.Some? ==>
      forall c :: c in Candidates(request.kind.value, request.handle.value) ==>
        FindByChannel(s, request.kind.value, c) == None || FindByChannel(s, request.kind.value, c) == Some(user)
  }

  /** A completion succeeds exactly if the request is known, open and in time, its handle is free,
      and there is a public key for its device, if it has one. */
  lemma CompletionSucceedsIff(s: State, id: string, completion: PairingCompletion, now: int)
    ensures CompletePairing(s, id, completion, now).1 == None <==>
              && id in s.pairings && s.pairings[id].completedAt == None && now <= s.pairings[id].expiresAt
              && HandleFree(s, s.pairings[id], completion.user)
              && (s.pairings[id].deviceId != None ==> completion.publicKey != None)
  {
    hide Candidates, BindAll, KindName;
    if id in s.pairings {
      var request := s.pairings[id];
      var s1 := CompletionUser(s, request, completion);
      UserStage(s, request, completion);
      if request.kind.Some? && request.handle.Some? {
        forall c
          ensures FindByChannel(s1, request.kind.value, c) == FindByChannel(s, request.kind.value, c)
                  || (FindByChannel(s, request.kind.value, c) == None
                      && FindByChannel(s1, request.kind.value, c) == Some(completion.user))
        {
        }
      }
    }
  }

  /** The checks of a completion, in order. */
  lemma CompletionErrors(s: State, id: string, completion: PairingCompletion, now: int)
    ensures var (s', e) := CompletePairing(s, id, completion, now);
            && (id !in s.pairings ==> s' == s && e == Some(NotFound))
            && (id in s.pairings && s.pairings[id].completedAt != None ==> s' == s && e == Some(AlreadyDone))
            && (id in s.pairings && s.pairings[id].completedAt == None && s.pairings[id].expiresAt < now ==>
                  s' == s && e == Some(Expired))
  {
    hide CompletionUser, CompletionLink, CompletionDevice;
  }

  /** A completion that fails for want of a public key has registered the user and linked the handle all the same;
      the request stays open. */
  lemma MissingKeyStillLinks(s: State, id: string, completion: PairingCompletion, now: int)
    requires Inv(s)
    requires id in s.pairings && s.pairings[id].completedAt == None && now <= s.pairings[id].expiresAt
    requires HandleFree(s, s.pairings[id], completion.user)
    requires s.pairings[id].deviceId != None && completion.publicKey == None
    ensures var (s', e) := CompletePairing(s, id, completion, now);
            && e == Some(MissingKey) && s'.pairings == s.pairings && s'.devices == s.devices
            && UserBound(s, s', s.pairings[id], completion)
            && HandleBound(s, s', s.pairings[id], completion)
  {
    hide Candidates, KindName, HandleBound, UserBound, LinkChannel;
    var request := s.pairings[id];
    var s1 := CompletionUser(s, request, completion);
    UserStage(s, request, completion);
    CompletionSucceedsIff(s, id, completion.(publicKey := Some("")), now);
    SameLink(s1, request, completion);
    LinkStage(s1, request, completion);
    var s' := CompletePairing(s, id, completion, now).0;
    SameBounds(s, s1, s, s', request, completion);
    SameBounds(s1, CompletionLink(s1, request, completion).0, s, s', request, completion);
  }

  lemma SameLink(s: State, request: PairingRequest, completion: PairingCompletion)
    ensures var other := completion.(publicKey := Some(""));
            CompletionLink(s, request, other) == CompletionLink(s, request, completion)
            && CompletionUser(s, request, other) == CompletionUser(s, request, completion)
  {
    hide LinkChannel, Register;
  }

  // ---------- devices over runs ----------

  /** The event pairs the device anew: directly or by a completion. */
  predicate PairsDevice(s: State, e: Event, d: string) {
    && e.Manage?
    && ((e.op.Pair? && e.op.device == d)
        || (e.op.FinishPairing? && e.op.id in s.pairings && s.pairings[e.op.id].deviceId == Some(d)))
  }

  predicate RevokesDevice(e: Event, d: string) { e.Manage? && e.op.Revoke? && e.op.device == d }

  /** A resolution writes to the channel table only. */
  lemma ResolutionTables(crypto: Crypto, s: State, e: Event)
    requires !e.Manage?
    ensures var s' := After(crypto, s, e); s' == s.(channels := s'.channels)
  {
    hide ResolveByClaim, FirstResolved, AuthenticatedWebHandles, WebHandles, ChannelHandles, OwnHandle;
    if e.Web? {
      ClaimTables(crypto, s, e.claim, AuthTrust(e.caller.auth), WebChat, AuthenticatedWebHandles(e.caller));
    } else {
      var message := e.message;
      ClaimTables(crypto, s, message.claim, message.trust, message.kind, OwnHandle(message));
    }
  }

  lemma OpDevices(crypto: Crypto, s: State, op: Op, d: string)
    ensures var s' := Step(crypto, s, op).0;
            && s.users.Keys <= s'.users.Keys
            && (!PairsDevice(s, Manage(op), d) && d !in s.devices ==> d !in s'.devices)
            && (!PairsDevice(s, Manage(op), d) && !RevokesDevice(Manage(op), d) && d in s.devices ==>
                  d in s'.devices && s'.devices[d] == s.devices[d])
  {
    hide LinkChannel, CompletePairing, VerifyChallenge, IssuePairing, IssueChallenge;
    match op
    case Link(user, channelId, kind, handle) => LinkTables(s, user, channelId, kind, handle);
    case FinishPairing(id, completion, now) => CompletionDevices(s, id, completion, now, d);
    case AnswerChallenge(id, signature, now) => AnswerRequests(crypto, s, id, signature, now);
    case StartPairing(id, seed, now) => IssueTables(s, op);
    case StartChallenge(id, subject, device, nonce, reason, now) => IssueTables(s, op);
    case _ =>
  }

  lemma IssueTables(s: State, op: Op)
    ensures op.StartPairing? ==>
              var s' := IssuePairing(s, op.id, op.seed, op.now);
              s' == s.(pairings := s'.pairings)
    ensures op.StartChallenge? ==>
              var s' := IssueChallenge(s, op.id, op.subject, op.device, op.nonce, op.reason, op.now);
              s' == s.(challenges := s'.challenges)
  {
  }

  /** Users stay registered; a device keeps its row unless it is paired or revoked, and appears only by being paired. */
  lemma EventDevices(crypto: Crypto, s: State, e: Event, d: string)
    ensures var s' := After(crypto, s, e);
            && s.users.Keys <= s'.users.Keys
            && (!PairsDevice(s, e, d) && d !in s.devices ==> d !in s'.devices)
            && (!PairsDevice(s, e, d) && !RevokesDevice(e, d) && d in s.devices ==>
                  d in s'.devices && s'.devices[d] == s.devices[d])
  {
    hide Step, ResolveWeb, ResolveMessage, PairsDevice, RevokesDevice;
    if e.Manage? {
      OpDevices(crypto, s, e.op, d);
    } else {
      ResolutionTables(crypto, s, e);
    }
  }

  lemma CompletionDevices(s: State, id: string, completion: PairingCompletion, now: int, d: string)
    ensures var s' := CompletePairing(s, id, completion, now).0;
            && s.users.Keys <= s'.users.Keys
            && (!(id in s.pairings && s.pairings[id].deviceId == Some(d)) ==>
                  (d in s'.devices <==> d in s.devices) && (d in s.devices ==> s'.devices[d] == s.devices[d]))
  {
    hide CompletionUser, CompletionLink;
    if id in s.pairings {
      var request := s.pairings[id];
      UserStageTables(s, request, completion);
      UserStageRequests(s, request, completion);
      LinkStageTables(CompletionUser(s, request, completion), request, completion);
    }
  }

  /** Between two moments nobody pairs or revokes the device. */
  ghost predicate LeftAlone(crypto: Crypto, s: State, events: seq<Event>, i: nat, j: nat, d: string) {
    j <= |events| && forall m: nat :: i <= m < j ==>
      !PairsDevice(StateBefore(crypto, s, events, m), events[m], d) && !RevokesDevice(events[m], d)
  }

  lemma {:induction false} DeviceStays(crypto: Crypto, s: State, events: seq<Event>, i: nat, j: nat, d: string)
    requires i <= j <= |events| && LeftAlone(crypto, s, events, i, j, d)
    requires d in StateBefore(crypto, s, events, i).devices
    ensures var a, b := StateBefore(crypto, s, events, i), StateBefore(crypto, s, events, j);
            d in b.devices && b.devices[d] == a.devices[d] && a.users.Keys <= b.users.Keys
  {
    hide StateBefore, After, PairsDevice;
    if i < j {
      DeviceStays(crypto, s, events, i, j - 1, d);
      EventDevices(crypto, StateBefore(crypto, s, events, j - 1), events[j - 1], d);
      StateBeforeNext(crypto, s, events, j - 1);
    }
  }

  /** A revocation removes the device if the user owns it, and nothing else. */
  lemma RevocationMeaning(s: State, user: string, d: string)
    ensures var s' := RevokeDevice(s, user, d);
            && s' == s.(devices := s'.devices)
            && (forall x :: x in s'.devices <==> x in s.devices && !(x == d && s.devices[x].owner == user))
            && (forall x :: x in s'.devices ==> s'.devices[x] == s.devices[x])
  {
  }

  /** Pairing stores the row as it is given, for the user; it fails only where the database refuses the user. */
  lemma DevicePairing(s: State, user: string, d: string, device: Device)
    ensures var (s', e) := PairDevice(s, user, d, device);
            if e != None then s' == s && e == Some(Database) && s.foreignKeys && user !in s.users
            else && s' == s.(devices := s'.devices) && s'.devices.Keys == s.devices.Keys + {d}
                 && (forall x :: x in s.devices && x != d ==> s'.devices[x] == s.devices[x])
                 && s'.devices[d].owner == user && s'.devices[d].key == device.key
                 && s'.devices[d].trust == device.trust && s'.devices[d].name == device.name
                 && s'.devices[d].attestation == device.attestation
  {
  }

  /** No event pairs the device anew between two moments. */
  ghost predicate NotPaired(crypto: Crypto, s: State, events: seq<Event>, i: nat, j: nat, d: string) {
    j <= |events| && forall m: nat :: i <= m < j ==> !PairsDevice(StateBefore(crypto, s, events, m), events[m], d)
  }

  lemma {:induction false} AbsentStays(crypto: Crypto, s: State, events: seq<Event>, i: nat, j: nat, d: string)
    requires i <= j <= |events| && NotPaired(crypto, s, events, i, j, d)
    requires d !in StateBefore(crypto, s, events, i).devices
    ensures d !in StateBefore(crypto, s, events, j).devices
  {
    hide StateBefore, After, PairsDevice;
    if i < j {
      AbsentStays(crypto, s, events, i, j - 1, d);
      EventDevices(crypto, StateBefore(crypto, s, events, j - 1), events[j - 1], d);
      StateBeforeNext(crypto, s, events, j - 1);
    }
  }

  /** Once its owner has revoked a device, nobody is identified by it until it is paired again. */
  lemma RevokedStaysOut(crypto: Crypto, s: State, events: seq<Event>, i: nat, j: nat, signature: string)
    requires i < j < |events| && events[i].Manage? && events[i].op.Revoke?
    requires var a, op := StateBefore(crypto, s, events, i), events[i].op;
             op.device in a.devices && a.devices[op.device].owner == op.user
    requires NotPaired(crypto, s, events, i + 1, j, events[i].op.device)
    ensures ResolveByDevice(StateBefore(crypto, s, events, j), events[i].op.device) == None
    ensures var b := StateBefore(crypto, s, events, j);
            events[j].Manage? && events[j].op.AnswerChallenge? && events[j].op.id in b.challenges
            && b.challenges[events[j].op.id].deviceId == events[i].op.device ==>
              !OutcomeAt(crypto, s, events, j).Identified?
  {
    hide StateBefore, PairsDevice, VerifyChallenge;
    var a, d := StateBefore(crypto, s, events, i), events[i].op.device;
    ManageNext(crypto, s, events, i);
    RevocationMeaning(a, events[i].op.user, d);
    AbsentStays(crypto, s, events, i + 1, j, d);
    if events[j].Manage? && events[j].op.AnswerChallenge? && OutcomeAt(crypto, s, events, j).Identified? {
      var out := OutcomeAt(crypto, s, events, j);
      AnswerAccepted(crypto, StateBefore(crypto, s, events, j), events[j].op.id, events[j].op.signature,
                     events[j].op.now, out.user, out.trust);
    }
  }

  // ---------- challenges over runs ----------

  /** The event is an accepted answer to the challenge. */
  predicate Accepts(crypto: Crypto, s: State, e: Event, id: string) {
    e.Manage? && e.op.AnswerChallenge? && e.op.id == id && Step(crypto, s, e.op).1.Identified?
  }

  lemma OpChallenge(crypto: Crypto, s: State, op: Op, id: string)
    requires FreshId(s, op) && id in s.challenges
    ensures var s' := Step(crypto, s, op).0;
            && id in s'.challenges
            && s'.challenges[id].(verifiedAt := s.challenges[id].verifiedAt) == s.challenges[id]
            && (Accepts(crypto, s, Manage(op), id) ==> s'.challenges[id].verifiedAt.Some?)
            && (!Accepts(crypto, s, Manage(op), id) ==> s'.challenges[id] == s.challenges[id])
  {
    hide LinkChannel, CompletePairing, VerifyChallenge, PairDevice, Register, RevokeDevice, IssuePairing;
    match op
    case RegisterUser(user, name, role) => RegisterTables(s, user, name, role);
    case Pair(user, device, row) => PairTables(s, user, device, row);
    case Revoke(user, device) => RevokeTables(s, user, device);
    case Link(user, channelId, kind, handle) => LinkTables(s, user, channelId, kind, handle);
    case FinishPairing(other, completion, now) => CompletionRequests(s, other, completion, now);
    case AnswerChallenge(other, signature, now) => AnswerRequests(crypto, s, other, signature, now);
    case StartPairing(other, seed, now) => IssueTables(s, op);
    case StartChallenge(other, subject, device, nonce, reason, now) =>
  }

  /** A stored challenge never changes, except that an accepted answer marks it. */
  lemma EventChallenge(crypto: Crypto, s: State, e: Event, id: string)
    requires FreshEvent(s, e) && id in s.challenges
    ensures var s' := After(crypto, s, e);
            && id in s'.challenges
            && s'.challenges[id].(verifiedAt := s.challenges[id].verifiedAt) == s.challenges[id]
            && (Accepts(crypto, s, e, id) ==> s'.challenges[id].verifiedAt.Some?)
            && (!Accepts(crypto, s, e, id) ==> s'.challenges[id] == s.challenges[id])
  {
    hide Step, ResolveWeb, ResolveMessage;
    if e.Manage? {
      OpChallenge(crypto, s, e.op, id);
    } else {
      ResolutionTables(crypto, s, e);
    }
  }

  /** Some event between two moments is an accepted answer to the challenge. */
  ghost predicate AcceptedBetween(crypto: Crypto, s: State, events: seq<Event>, i: nat, j: nat, id: string)
    requires j <= |events|
  {
    exists m: nat :: i <= m < j && Accepts(crypto, StateBefore(crypto, s, events, m), events[m], id)
  }

  lemma {:induction false} ChallengeStays(crypto: Crypto, s: State, events: seq<Event>, i: nat, j: nat, id: string)
    requires FreshEvents(crypto, s, events) && i <= j <= |events|
    requires var a := StateBefore(crypto, s, events, i); id in a.challenges && a.challenges[id].verifiedAt == None
    ensures var a, b := StateBefore(crypto, s, events, i), StateBefore(crypto, s, events, j);
            && id in b.challenges && b.challenges[id].(verifiedAt := None) == a.challenges[id]
            && (b.challenges[id].verifiedAt == None <==> !AcceptedBetween(crypto, s, events, i, j, id))
  {
    hide StateBefore, After, Accepts, FreshEvent;
    if i < j {
      var last := StateBefore(crypto, s, events, j - 1);
      ChallengeStays(crypto, s, events, i, j - 1, id);
      EventChallenge(crypto, last, events[j - 1], id);
      StateBeforeNext(crypto, s, events, j - 1);
      AcceptedNext(crypto, s, events, i, j, id);
    }
  }

  lemma AcceptedNext(crypto: Crypto, s: State, events: seq<Event>, i: nat, j: nat, id: string)
    requires i < j <= |events|
    ensures AcceptedBetween(crypto, s, events, i, j, id) <==>
              || AcceptedBetween(crypto, s, events, i, j - 1, id)
              || Accepts(crypto, StateBefore(crypto, s, events, j - 1), events[j - 1], id)
  {
    hide StateBefore, Accepts;
    if Accepts(crypto, StateBefore(crypto, s, events, j - 1), events[j - 1], id) {
      assert i <= j - 1 < j;
    }
  }

  /** After a pairing, a challenge issued for the device, while nobody pairs or revokes it, is answered successfully
      exactly by what the public key of the pairing verifies for the issued nonce, once, within fifteen minutes;
      the answer then names the paired user at hardware trust. */
  lemma PairedDeviceAnswers(crypto: Crypto, s: State, events: seq<Event>, i: nat, j: nat, k: nat)
    requires FreshEvents(crypto, s, events) && i < j < k < |events|
    requires events[i].Manage? && events[i].op.FinishPairing? && OutcomeAt(crypto, s, events, i) == Done
    requires events[j].Manage? && events[j].op.StartChallenge?
    requires events[k].Manage? && events[k].op.AnswerChallenge? && events[k].op.id == events[j].op.id
    requires var a := StateBefore(crypto, s, events, i);
             events[i].op.id in a.pairings && a.pairings[events[i].op.id].deviceId == Some(events[j].op.device)
    requires LeftAlone(crypto, s, events, i + 1, k, events[j].op.device)
    ensures var pairing, issue, answer := events[i].op.completion, events[j].op, events[k].op;
            var out := OutcomeAt(crypto, s, events, k);
            && pairing.publicKey.Some?
            && (out.Identified? ==> out == Identified(pairing.user, Hardware))
            && (out.Identified? <==>
                  && answer.now <= issue.now + 15 * 60 * 1_000_000_000
                  && !AcceptedBetween(crypto, s, events, j + 1, k, issue.id)
                  && crypto.decode(answer.signature).Some? && crypto.decode(issue.nonce).Some?
                  && crypto.verify(pairing.publicKey.value, crypto.decode(answer.signature).value,
                                   crypto.decode(issue.nonce).value) == Some(true))
  {
    hide StateBefore, FreshEvents, CompletePairing, VerifyChallenge, PairsDevice, UserBound, HandleBound, Candidates,
         AcceptedBetween;
    var a, b := StateBefore(crypto, s, events, i), StateBefore(crypto, s, events, j);
    var c := StateBefore(crypto, s, events, k);
    var d, user := events[j].op.device, events[i].op.completion.user;
    var issue, answer := events[j].op, events[k].op;
    ManageNext(crypto, s, events, i);
    CompletionBinds(a, events[i].op.id, events[i].op.completion, events[i].op.now);
    var paired := StateBefore(crypto, s, events, i + 1);
    assert user in paired.users by { BoundUser(a, paired, a.pairings[events[i].op.id], events[i].op.completion); }
    DeviceStays(crypto, s, events, i + 1, k, d);
    ManageNext(crypto, s, events, j);
    ChallengeStays(crypto, s, events, j + 1, k, issue.id);
    var q := c.challenges[issue.id];
    assert q.deviceId == d && q.nonce == issue.nonce && q.expiresAt == issue.now + QUARTER_HOUR;
    assert ResolveByDevice(c, d) == Some((user, Hardware));
    AnswerAccepted(crypto, c, answer.id, answer.signature, answer.now, user, Hardware);
    var out := OutcomeAt(crypto, s, events, k);
    if out.Identified? {
      AnswerAccepted(crypto, c, answer.id, answer.signature, answer.now, out.user, out.trust);
    }
  }

  lemma BoundUser(s: State, s': State, request: PairingRequest, completion: PairingCompletion)
    requires UserBound(s, s', request, completion)
    ensures completion.user in s'.users
  {
  }

  // ---------- from issue to completion ----------

  /** A pairing is open from its issue for one hour: whoever completes it then, with a free handle and with a public key
      if it names a device, succeeds. */
  lemma PairingIsOpen(s: State, id: string, seed: PairingSeed, issued: int, completion: PairingCompletion, now: int)
    requires now <= issued + 60 * 60 * 1_000_000_000 && (seed.deviceId != None ==> completion.publicKey != None)
    requires HandleFree(s, IssuePairing(s, id, seed, issued).pairings[id], completion.user)
    ensures CompletePairing(IssuePairing(s, id, seed, issued), id, completion, now).1 == None
  {
    hide Candidates;
    var s1 := IssuePairing(s, id, seed, issued);
    CompletionSucceedsIff(s1, id, completion, now);
    assert forall k, c :: FindByChannel(s1, k, c) == FindByChannel(s, k, c);
  }

  /** A pairing that is issued and later completed binds what was asked for when it was issued. */
  lemma PairingBindsSeed(crypto: Crypto, s: State, events: seq<Event>, i: nat, j: nat)
    requires FreshEvents(crypto, s, events) && i < j < |events|
    requires events[i].Manage? && events[i].op.StartPairing?
    requires events[j].Manage? && events[j].op.FinishPairing? && events[j].op.id == events[i].op.id
    requires OutcomeAt(crypto, s, events, j) == Done
    ensures var b, b' := StateBefore(crypto, s, events, j), StateBefore(crypto, s, events, j + 1);
            var seed, completion := events[i].op.seed, events[j].op.completion;
            var request := PairingRequest(seed.kind, seed.handle, seed.deviceId, seed.deviceName, seed.requestedUser,
                                          seed.requestedName, events[i].op.now + HOUR, None);
            && UserBound(b, b', request, completion) && HandleBound(b, b', request, completion)
            && DeviceBound(b, b', request, completion)
  {
    hide StateBefore, FreshEvents, CompletePairing, UserBound, HandleBound, DeviceBound, Candidates;
    var op := events[j].op;
    var b := StateBefore(crypto, s, events, j);
    ManageNext(crypto, s, events, i);
    ManageNext(crypto, s, events, j);
    RunKeepsRequests(crypto, s, events, i + 1, j);
    CompletionRequests(b, op.id, op.completion, op.now);
    CompletionBinds(b, op.id, op.completion, op.now);
  }

  /** The reasons for which an answer to a challenge is refused, in order. */
  lemma AnswerErrors(crypto: Crypto, s: State, id: string, signature: string, now: int)
    ensures var (s', r) := VerifyChallenge(crypto, s, id, signature, now);
            && (r.Err? ==> s' == s)
            && (id !in s.challenges ==> r == Err(NotFound))
            && (id in s.challenges && s.challenges[id].verifiedAt != None ==> r == Err(AlreadyDone))
            && (id in s.challenges && s.challenges[id].verifiedAt == None && s.challenges[id].expiresAt < now ==>
                  r == Err(Expired))
            && (r == Err(Unauthorized) ==>
                  id in s.challenges && ResolveByDevice(s, s.challenges[id].deviceId).Some?
                  && crypto.decode(signature).Some? && crypto.decode(s.challenges[id].nonce).Some?
                  && crypto.verify(s.devices[s.challenges[id].deviceId].key, crypto.decode(signature).value,
                                   crypto.decode(s.challenges[id].nonce).value) == Some(false))
  {
    AnswerRequests(crypto, s, id, signature, now);
  }
}
