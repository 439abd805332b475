/** What holds over every run of identity operations. */
module IdentityTheorems {
  import opened Wrappers
  import opened Text
  import opened Handles
  import opened Directory

  datatype Op =
    | RegisterUser(user: string, name: string, role: Role)
    | Pair(user: string, device: string, row: Device)
    | Revoke(user: string, device: string)
    | Link(user: string, channelId: string, kind: ChannelKind, handle: string)
    | StartPairing(id: string, seed: PairingSeed, now: int)
    | FinishPairing(id: string, completion: PairingCompletion, now: int)
    | StartChallenge(id: string, subject: Option<string>, device: string, nonce: string, reason: string, now: int)
    | AnswerChallenge(id: string, signature: string, now: int)

  datatype Outcome = Done | Identified(user: string, trust: Trust) | Failed(error: Error)

  function FromError(e: Option<Error>): Outcome { if e.Some? then Failed(e.value) else Done }

  function Step(crypto: Crypto, s: State, op: Op): (State, Outcome) {
    match op
    case RegisterUser(user, name, role) => (Register(s, user, name, role), Done)
    case Pair(user, device, row) => var (s', e) := PairDevice(s, user, device, row); (s', FromError(e))
    case Revoke(user, device) => (RevokeDevice(s, user, device), Done)
    case Link(user, channelId, kind, handle) =>
      var (s', e) := LinkChannel(s, user, channelId, kind, handle); (s', FromError(e))
    case StartPairing(id, seed, now) => (IssuePairing(s, id, seed, now), Done)
    case FinishPairing(id, completion, now) =>
      var (s', e) := CompletePairing(s, id, completion, now); (s', FromError(e))
    case StartChallenge(id, subject, device, nonce, reason, now) =>
      (IssueChallenge(s, id, subject, device, nonce, reason, now), Done)
    case AnswerChallenge(id, signature, now) =>
      var (s', r) := VerifyChallenge(crypto, s, id, signature, now);
      (s', if r.Ok? then Identified(r.value.0, r.value.1) else Failed(r.error))
  }

  /** The tables before operation `i` of a run. */
  function StateAt(crypto: Crypto, s: State, ops: seq<Op>, i: nat): State
    requires i <= |ops|
  {
    if i == 0 then s else Step(crypto, StateAt(crypto, s, ops, i - 1), ops[i - 1]).0
  }

  /** Links name registered users, unless the database itself refuses the others. */
  predicate RegisteredUser(s: State, op: Op) {
    op.Link? ==> s.foreignKeys || op.user in s.users
  }

  ghost predicate Admissible(crypto: Crypto, s: State, ops: seq<Op>) {
    forall i :: 0 <= i < |ops| ==> RegisteredUser(StateAt(crypto, s, ops, i), ops[i])
  }

  // ---------- the invariant ----------

  /** The user a channel row names, whether or not that user is registered. */
  function RowOwner(s: State, kind: ChannelKind, handle: string): Option<string> {
    if (kind, handle) in s.channels then Some(s.channels[(kind, handle)].owner) else None
  }

  ghost predicate OwnersRegistered(s: State) {
    forall k, h :: RowOwner(s, k, h).Some? ==> RowOwner(s, k, h).value in s.users
  }

  /** Whoever owns a spelling owns its lowercase. */
  ghost predicate LowerOwned(s: State) {
    forall k, h {:trigger Lower(h), RowOwner(s, k, h)} ::
      RowOwner(s, k, h).Some? ==> RowOwner(s, k, Lower(h)) == RowOwner(s, k, h)
  }

  /** Whoever owns a colon-free phone spelling owns its digit form. */
  ghost predicate DigitsOwned(s: State) {
    forall k, h {:trigger Digits(h), RowOwner(s, k, h)} ::
      IsPhone(k) && ':' !in h && Digits(h) != "" && RowOwner(s, k, h).Some? ==>
        RowOwner(s, k, Digits(h)) == RowOwner(s, k, h)
  }

  ghost predicate Inv(s: State) {
    OwnersRegistered(s) && LowerOwned(s) && DigitsOwned(s)
  }

  /** Nothing a later state forgets: users stay registered and every bound spelling keeps its owner. */
  ghost predicate Grows(s: State, s': State) {
    && s.users.Keys <= s'.users.Keys
    && forall k, h :: RowOwner(s, k, h).Some? ==> RowOwner(s', k, h) == RowOwner(s, k, h)
  }

  lemma FindIsRowOwner(s: State, kind: ChannelKind, handle: string)
    requires OwnersRegistered(s)
    ensures FindByChannel(s, kind, handle) == RowOwner(s, kind, handle)
  {
    if (kind, handle) in s.channels {
      assert RowOwner(s, kind, handle).Some?;
    }
  }

  /** A successful link gives exactly the candidates to the user and leaves every other row alone. */
  lemma LinkRows(s: State, user: string, channelId: string, kind: ChannelKind, handle: string, k: ChannelKind,
                 h: string)
    requires OwnersRegistered(s)
    requires LinkChannel(s, user, channelId, kind, handle).1.None?
    ensures var s' := LinkChannel(s, user, channelId, kind, handle).0;
            if k == kind && h in Candidates(kind, handle)
            then RowOwner(s', k, h) == Some(user) && (RowOwner(s, k, h).Some? ==> RowOwner(s, k, h) == Some(user))
            else RowOwner(s', k, h) == RowOwner(s, k, h)
  {
    hide Candidates, BindAll, Conflicts;
    BindAllRow(s.channels, user, channelId, kind, Candidates(kind, handle), k, h);
    if k == kind && h in Candidates(kind, handle) {
      NoConflict(s, user, kind, Candidates(kind, handle), h);
      FindIsRowOwner(s, k, h);
    }
  }

  lemma NoConflict(s: State, user: string, kind: ChannelKind, candidates: seq<string>, h: string)
    requires !Conflicts(s, user, kind, candidates) && h in candidates
    ensures FindByChannel(s, kind, h).Some? ==> FindByChannel(s, kind, h) == Some(user)
  {
  }

  lemma LinkKeepsInv(s: State, user: string, channelId: string, kind: ChannelKind, handle: string)
    requires Inv(s) && (s.foreignKeys || user in s.users)
    ensures var s' := LinkChannel(s, user, channelId, kind, handle).0; Inv(s') && Grows(s, s')
  {
    hide Candidates, IsPhone;
    var (s', e) := LinkChannel(s, user, channelId, kind, handle);
    var cs := Candidates(kind, handle);
    CandidatesClosed(kind, handle);
    if e.None? {
      forall k, h
        ensures RowOwner(s', k, h) == if k == kind && h in cs then Some(user) else RowOwner(s, k, h)
        ensures k == kind && h in cs && RowOwner(s, k, h).Some? ==> RowOwner(s, k, h) == Some(user)
      {
        LinkRows(s, user, channelId, kind, handle, k, h);
      }
      forall k, h | IsPhone(k) && ':' !in h && Digits(h) != "" && RowOwner(s', k, h).Some?
        ensures RowOwner(s', k, Digits(h)) == RowOwner(s', k, h)
      {
        if k == kind && h in cs {
          ColonFreeAliasHasDigitForm(kind, handle, h);
        }
      }
    }
  }

  lemma GrowsTransitive(s0: State, s1: State, s2: State)
    requires Grows(s0, s1) && Grows(s1, s2)
    ensures Grows(s0, s2)
  {
  }

  lemma SameRows(s: State, s': State)
    requires Inv(s) && s.channels == s'.channels && s.users.Keys <= s'.users.Keys
    ensures Inv(s') && Grows(s, s')
  {
    assert forall k, h :: RowOwner(s', k, h) == RowOwner(s, k, h);
  }

  /** The rows a completion leaves behind are those of its link stage. */
  lemma CompletionRows(s: State, id: string, completion: PairingCompletion, now: int)
    requires id in s.pairings && s.pairings[id].completedAt.None? && now <= s.pairings[id].expiresAt
    ensures var s1 := CompletionUser(s, s.pairings[id], completion);
            var s2 := CompletionLink(s1, s.pairings[id], completion).0;
            var s' := CompletePairing(s, id, completion, now).0;
            s1.channels == s.channels && s'.channels == s2.channels && s'.users == s1.users == s2.users
    ensures s.users.Keys <= CompletionUser(s, s.pairings[id], completion).users.Keys
    ensures completion.user in CompletionUser(s, s.pairings[id], completion).users
  {
    hide CompletionUser, CompletionLink, CompletionDevice;
    var request := s.pairings[id];
    var s1 := CompletionUser(s, request, completion);
    UserStageTables(s, request, completion);
    LinkStageTables(s1, request, completion);
    DeviceStageTables(CompletionLink(s1, request, completion).0, request, completion);
  }

  lemma UserStageTables(s: State, request: PairingRequest, completion: PairingCompletion)
    ensures var s' := CompletionUser(s, request, completion);
            s'.channels == s.channels && s.users.Keys <= s'.users.Keys && completion.user in s'.users
  {
    hide GetOr, OrElse;
  }

  lemma LinkStageTables(s: State, request: PairingRequest, completion: PairingCompletion)
    ensures var s' := CompletionLink(s, request, completion).0; s' == s.(channels := s'.channels)
  {
    hide LinkChannel, GetOr, KindName;
    if request.kind.Some? && request.handle.Some? {
      LinkTables(s, completion.user,
                 GetOr(completion.channelId, KindName(request.kind.value) + ":" + request.handle.value),
                 request.kind.value, request.handle.value);
    }
  }

  lemma DeviceStageTables(s: State, request: PairingRequest, completion: PairingCompletion)
    ensures var s' := CompletionDevice(s, request, completion).0; s' == s.(devices := s'.devices)
  {
    hide CompletionDeviceRow;
  }

  /** Linking writes to the channel table only. */
  lemma LinkTables(s: State, user: string, channelId: string, kind: ChannelKind, handle: string)
    ensures var s' := LinkChannel(s, user, channelId, kind, handle).0; s' == s.(channels := s'.channels)
  {
    hide Candidates, Conflicts, BindAll;
  }

  lemma CompletionKeepsInv(s: State, id: string, completion: PairingCompletion, now: int)
    requires Inv(s)
    ensures var s' := CompletePairing(s, id, completion, now).0; Inv(s') && Grows(s, s')
  {
    hide LinkChannel, Inv, CompletionUser, CompletionLink;
    var s' := CompletePairing(s, id, completion, now).0;
    if id in s.pairings && s.pairings[id].completedAt.None? && now <= s.pairings[id].expiresAt {
      hide Grows, CompletePairing;
      var request := s.pairings[id];
      var s1 := CompletionUser(s, request, completion);
      var s2 := CompletionLink(s1, request, completion).0;
      CompletionRows(s, id, completion, now);
      SameRows(s, s1);
      CompletionLinkKeepsInv(s1, request, completion);
      SameRows(s2, s');
      GrowsTransitive(s, s1, s2);
      GrowsTransitive(s, s2, s');
    }
  }

  lemma CompletionLinkKeepsInv(s: State, request: PairingRequest, completion: PairingCompletion)
    requires Inv(s) && completion.user in s.users
    ensures var s' := CompletionLink(s, request, completion).0; Inv(s') && Grows(s, s')
  {
    hide LinkChannel, Inv;
    if request.kind.Some? && request.handle.Some? {
      LinkKeepsInv(s, completion.user,
                   GetOr(completion.channelId, KindName(request.kind.value) + ":" + request.handle.value),
                   request.kind.value, request.handle.value);
    }
  }

  lemma StepKeepsInv(crypto: Crypto, s: State, op: Op)
    requires Inv(s) && RegisteredUser(s, op)
    ensures Inv(Step(crypto, s, op).0) && Grows(s, Step(crypto, s, op).0)
  {
    hide LinkChannel, CompletePairing, Inv, Grows;
    match op
    case Link(user, channelId, kind, handle) => LinkKeepsInv(s, user, channelId, kind, handle);
    case FinishPairing(id, completion, now) => CompletionKeepsInv(s, id, completion, now);
    case _ => SameRows(s, Step(crypto, s, op).0);
  }

  /** Every reachable state satisfies the invariant, and no run takes a handle away from its owner. */
  lemma {:induction false} RunKeepsInv(crypto: Crypto, s: State, ops: seq<Op>, i: nat, j: nat)
    requires Inv(s) && Admissible(crypto, s, ops) && i <= j <= |ops|
    ensures Inv(StateAt(crypto, s, ops, i)) && Inv(StateAt(crypto, s, ops, j))
    ensures Grows(StateAt(crypto, s, ops, i), StateAt(crypto, s, ops, j))
  {
    hide Step, Inv, Grows, RegisteredUser;
    if i == j {
      if j > 0 {
        RunKeepsInv(crypto, s, ops, j - 1, j - 1);
        StepKeepsInv(crypto, StateAt(crypto, s, ops, j - 1), ops[j - 1]);
      }
      SameRows(StateAt(crypto, s, ops, i), StateAt(crypto, s, ops, i));
    } else {
      RunKeepsInv(crypto, s, ops, i, j - 1);
      var last := StateAt(crypto, s, ops, j - 1);
      StepKeepsInv(crypto, last, ops[j - 1]);
      GrowsTransitive(StateAt(crypto, s, ops, i), last, StateAt(crypto, s, ops, j));
    }
  }

  lemma EmptyInv(foreignKeys: bool)
    ensures Inv(EmptyState(foreignKeys))
  {
  }

  // ---------- resolving ----------

  /** `i` is the position of the first alias that has a registered owner. */
  predicate IsFirstOwned(s: State, kind: ChannelKind, aliases: seq<string>, i: nat) {
    && i < |aliases| && RowOwner(s, kind, aliases[i]).Some? && RowOwner(s, kind, aliases[i]).value in s.users
    && forall j :: 0 <= j < i && RowOwner(s, kind, aliases[j]).Some? ==>
         RowOwner(s, kind, aliases[j]).value !in s.users
  }

  lemma {:induction false} FirstOwnedFound(s: State, kind: ChannelKind, aliases: seq<string>, i: nat)
    requires IsFirstOwned(s, kind, aliases, i)
    ensures FirstBound(s, kind, aliases) == RowOwner(s, kind, aliases[i])
  {
    if i > 0 {
      FirstOwnedFound(s, kind, aliases[1..], i - 1);
    }
  }

  /** A handle resolves to the owner of the first of its aliases that has a registered owner, and to nobody if none has. */
  lemma ResolvesToFirst(s: State, kind: ChannelKind, handle: string)
    ensures var aliases := Candidates(kind, handle);
            && (forall i: nat :: IsFirstOwned(s, kind, aliases, i) ==>
                  ResolveByChannel(s, kind, handle) == RowOwner(s, kind, aliases[i]))
            && ((forall c :: c in aliases && RowOwner(s, kind, c).Some? ==> RowOwner(s, kind, c).value !in s.users) ==>
                  ResolveByChannel(s, kind, handle) == None)
  {
    hide Candidates;
    var aliases := Candidates(kind, handle);
    forall i: nat | IsFirstOwned(s, kind, aliases, i)
      ensures ResolveByChannel(s, kind, handle) == RowOwner(s, kind, aliases[i])
    {
      FirstOwnedFound(s, kind, aliases, i);
    }
  }

  // ---------- linking is permanent and exclusive ----------

  /** Operation `op` in state `s` links `handle` of `kind` to `user`: a direct link, or the link stage of a pairing. */
  predicate Links(s: State, op: Op, user: string, kind: ChannelKind, handle: string) {
    match op
    case Link(u, channelId, k, h) => u == user && k == kind && h == handle && LinkChannel(s, u, channelId, k, h).1.None?
    case FinishPairing(id, completion, now) =>
      && completion.user == user
      && CompletePairing(s, id, completion, now).1.None?
      && s.pairings[id].kind == Some(kind) && s.pairings[id].handle == Some(handle)
    case _ => false
  }

  ghost predicate OwnsAll(s: State, user: string, kind: ChannelKind, handle: string) {
    forall c :: c in Candidates(kind, handle) ==> RowOwner(s, kind, c) == Some(user)
  }

  lemma LinkOwnsAll(s: State, user: string, channelId: string, kind: ChannelKind, handle: string)
    requires OwnersRegistered(s) && LinkChannel(s, user, channelId, kind, handle).1.None?
    ensures OwnsAll(LinkChannel(s, user, channelId, kind, handle).0, user, kind, handle)
  {
    hide Candidates, LinkChannel, RowOwner, OwnersRegistered;
    forall c | c in Candidates(kind, handle)
      ensures RowOwner(LinkChannel(s, user, channelId, kind, handle).0, kind, c) == Some(user)
    {
      LinkRows(s, user, channelId, kind, handle, kind, c);
    }
  }

  lemma LinksOwnsAll(crypto: Crypto, s: State, op: Op, user: string, kind: ChannelKind, handle: string)
    requires Inv(s) && Links(s, op, user, kind, handle)
    ensures OwnsAll(Step(crypto, s, op).0, user, kind, handle)
  {
    hide Candidates, LinkChannel;
    if op.Link? {
      LinkOwnsAll(s, user, op.channelId, kind, handle);
    } else {
      hide OwnersRegistered;
      var request := s.pairings[op.id];
      CompletionRows(s, op.id, op.completion, op.now);
      var s1 := CompletionUser(s, request, op.completion);
      SameRows(s, s1);
      LinkOwnsAll(s1, user, GetOr(op.completion.channelId, KindName(kind) + ":" + handle), kind, handle);
      OwnsAllRows(CompletionLink(s1, request, op.completion).0, Step(crypto, s, op).0, user, kind, handle);
    }
  }

  lemma OwnsAllRows(s: State, s': State, user: string, kind: ChannelKind, handle: string)
    requires OwnsAll(s, user, kind, handle) && (s.channels == s'.channels || Grows(s, s'))
    ensures OwnsAll(s', user, kind, handle)
  {
    hide Candidates;
    forall c | c in Candidates(kind, handle)
      ensures RowOwner(s', kind, c) == Some(user)
    {
      assert RowOwner(s, kind, c) == Some(user);
    }
  }

  lemma OwnedAliasResolves(s: State, user: string, kind: ChannelKind, handle: string, alias: string)
    requires Inv(s) && OwnsAll(s, user, kind, handle)
    requires alias in Candidates(kind, handle) || (alias == handle && Trim(handle) != "")
    ensures ResolveByChannel(s, kind, alias) == Some(user)
  {
    CandidatesHead(kind, handle);
    if alias in Candidates(kind, handle) {
      AliasHeadsItsOwnList(kind, handle, alias);
    }
    var head := Candidates(kind, alias)[0];
    assert head in Candidates(kind, handle);
    FindIsRowOwner(s, kind, head);
  }

  lemma StateAtNext(crypto: Crypto, s: State, ops: seq<Op>, i: nat)
    requires i < |ops|
    ensures StateAt(crypto, s, ops, i + 1) == Step(crypto, StateAt(crypto, s, ops, i), ops[i]).0
  {
    hide Step;
  }

  lemma LinkedOwnsLater(crypto: Crypto, s: State, ops: seq<Op>, i: nat, j: nat,
                        user: string, kind: ChannelKind, handle: string)
    requires Inv(s) && Admissible(crypto, s, ops) && i < j <= |ops|
    requires Links(StateAt(crypto, s, ops, i), ops[i], user, kind, handle)
    ensures Inv(StateAt(crypto, s, ops, j)) && OwnsAll(StateAt(crypto, s, ops, j), user, kind, handle)
  {
    hide StateAt, Step, Inv, Grows, Links, OwnsAll, Admissible;
    RunKeepsInv(crypto, s, ops, i, i + 1);
    StateAtNext(crypto, s, ops, i);
    LinksOwnsAll(crypto, StateAt(crypto, s, ops, i), ops[i], user, kind, handle);
    RunKeepsInv(crypto, s, ops, i + 1, j);
    OwnsAllRows(StateAt(crypto, s, ops, i + 1), StateAt(crypto, s, ops, j), user, kind, handle);
  }

  /** Once a non-blank handle is linked to a user, it and each of its aliases resolve to that user ever after. */
  lemma LinkIsPermanent(crypto: Crypto, s: State, ops: seq<Op>, i: nat, j: nat,
                        user: string, kind: ChannelKind, handle: string, alias: string)
    requires Inv(s) && Admissible(crypto, s, ops) && i < j <= |ops|
    requires Links(StateAt(crypto, s, ops, i), ops[i], user, kind, handle)
    requires alias in Candidates(kind, handle) || (alias == handle && Trim(handle) != "")
    ensures ResolveByChannel(StateAt(crypto, s, ops, j), kind, alias) == Some(user)
  {
    hide Step, StateAt, Inv, Links, OwnsAll, Admissible, Candidates, Trim, ResolveByChannel;
    LinkedOwnsLater(crypto, s, ops, i, j, user, kind, handle);
    OwnedAliasResolves(StateAt(crypto, s, ops, j), user, kind, handle, alias);
  }

  /** Handles linked to different users at any two moments of a run share no alias. */
  lemma LinkedHandlesAreDisjoint(crypto: Crypto, s: State, ops: seq<Op>, i: nat, j: nat,
                                 u1: string, u2: string, kind: ChannelKind, h1: string, h2: string, c: string)
    requires Inv(s) && Admissible(crypto, s, ops) && i <= j < |ops|
    requires Links(StateAt(crypto, s, ops, i), ops[i], u1, kind, h1)
    requires Links(StateAt(crypto, s, ops, j), ops[j], u2, kind, h2)
    requires u1 != u2
    ensures !(c in Candidates(kind, h1) && c in Candidates(kind, h2))
  {
    hide Step, StateAt, Inv, Links, Admissible, Candidates, RowOwner;
    LinkedOwnsLater(crypto, s, ops, i, j + 1, u1, kind, h1);
    LinkedOwnsLater(crypto, s, ops, j, j + 1, u2, kind, h2);
    assert c in Candidates(kind, h1) ==> RowOwner(StateAt(crypto, s, ops, j + 1), kind, c) == Some(u1);
  }

  /** Without enforced foreign keys a link takes effect exactly when its user is registered. */
  lemma LinkTakesEffect(s: State, user: string, channelId: string, kind: ChannelKind, handle: string)
    requires OwnersRegistered(s) && Trim(handle) != ""
    requires LinkChannel(s, user, channelId, kind, handle).1.None?
    ensures ResolveByChannel(LinkChannel(s, user, channelId, kind, handle).0, kind, handle) == Some(user) <==>
              user in s.users
  {
    hide Candidates;
    var s' := LinkChannel(s, user, channelId, kind, handle).0;
    var cs := Candidates(kind, handle);
    CandidatesHead(kind, handle);
    forall c | c in cs
      ensures FindByChannel(s', kind, c) == if user in s.users then Some(user) else None
    {
      LinkRows(s, user, channelId, kind, handle, kind, c);
    }
    assert cs[0] in cs;
  }

  // ---------- spelling independence ----------

  /** Two colon-free phone handles with the same non-empty digits resolve alike. */
  lemma PhoneSpellingsAgree(s: State, kind: ChannelKind, h1: string, h2: string)
    requires Inv(s) && IsPhone(kind)
    requires ':' !in h1 && ':' !in h2 && Digits(h1) == Digits(h2) != ""
    ensures ResolveByChannel(s, kind, h1) == ResolveByChannel(s, kind, h2)
  {
    ResolvesLikeDigits(s, kind, h1);
    ResolvesLikeDigits(s, kind, h2);
  }

  /** So it is after any number of operations on empty tables. */
  lemma ReachablePhoneSpellingsAgree(crypto: Crypto, foreignKeys: bool, ops: seq<Op>, i: nat, kind: ChannelKind,
                                     h1: string, h2: string)
    requires Admissible(crypto, EmptyState(foreignKeys), ops) && i <= |ops| && IsPhone(kind)
    requires ':' !in h1 && ':' !in h2 && Digits(h1) == Digits(h2) != ""
    ensures var s := StateAt(crypto, EmptyState(foreignKeys), ops, i);
            ResolveByChannel(s, kind, h1) == ResolveByChannel(s, kind, h2)
  {
    hide StateAt, Inv, Admissible, ResolveByChannel, Digits;
    EmptyInv(foreignKeys);
    RunKeepsInv(crypto, EmptyState(foreignKeys), ops, i, i);
    PhoneSpellingsAgree(StateAt(crypto, EmptyState(foreignKeys), ops, i), kind, h1, h2);
  }

  lemma ResolvesLikeDigits(s: State, kind: ChannelKind, h: string)
    requires Inv(s) && IsPhone(kind) && ':' !in h && Digits(h) != ""
    ensures ResolveByChannel(s, kind, h) == RowOwner(s, kind, Digits(h))
  {
    var d := Digits(h);
    ColonFreeHandleHasDigitForm(kind, h);
    FindIsRowOwner(s, kind, d);
    forall c | c in Candidates(kind, h) && RowOwner(s, kind, c).Some?
      ensures RowOwner(s, kind, c) == RowOwner(s, kind, d)
    {
      ColonFreeHandleAliases(kind, h, c);
    }
    var r := ResolveByChannel(s, kind, h);
    if r.Some? {
      var c :| c in Candidates(kind, h) && FindByChannel(s, kind, c) == r;
      FindIsRowOwner(s, kind, c);
    }
  }
}
