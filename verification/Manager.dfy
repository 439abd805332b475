/** The identity manager, updating its tables step by step (crates/ngenorca-identity/src/lib.rs). */
module Manager {
  import opened Wrappers
  import opened Handles
  import opened Directory
  import HandleList

  class IdentityManager {
    const crypto: Crypto
    const foreignKeys: bool
    var users: map<string, User>
    var devices: map<string, Device>
    var channels: map<(ChannelKind, string), Binding>
    var pairings: map<string, PairingRequest>
    var challenges: map<string, ChallengeRequest>

    function Tables(): State
      reads this
    {
      State(foreignKeys, users, devices, channels, pairings, challenges)
    }

    constructor (crypto: Crypto, foreignKeys: bool)
      ensures Tables() == EmptyState(foreignKeys)
      ensures this.crypto == crypto
    {
      this.crypto, this.foreignKeys := crypto, foreignKeys;
      users, devices, channels, pairings, challenges := map[], map[], map[], map[], map[];
    }

    method ResolveByChannel(kind: ChannelKind, handle: string) returns (r: Option<string>)
      ensures r == Directory.ResolveByChannel(Tables(), kind, handle)
    {
      var candidates := HandleList.ChannelHandleCandidates(kind, handle);
      for i := 0 to |candidates|
        invariant FirstBound(Tables(), kind, candidates) == FirstBound(Tables(), kind, candidates[i..])
      {
        var found := FindByChannel(Tables(), kind, candidates[i]);
        assert candidates[i..][1..] == candidates[i + 1..];
        if found.Some? {
          return found;
        }
      }
      r := None;
    }

    method ResolveByDevice(id: string) returns (r: Option<(string, Trust)>)
      ensures r == Directory.ResolveByDevice(Tables(), id)
    {
      if id in devices && devices[id].owner in users {
        r := Some((devices[id].owner, devices[id].trust));
      } else {
        r := None;
      }
    }

    method RegisterUser(user: string, name: string, role: Role)
      modifies this
      ensures Tables() == Register(old(Tables()), user, name, role)
    {
      users := users[user := User(name, role)];
    }

    method PairDevice(user: string, id: string, device: Device) returns (error: Option<Error>)
      modifies this
      ensures (Tables(), error) == Directory.PairDevice(old(Tables()), user, id, device)
    {
      if Refused(Tables(), user) {
        return Some(Database);
      }
      devices := devices[id := device.(owner := user)];
      error := None;
    }

    method RevokeDevice(user: string, id: string)
      modifies this
      ensures Tables() == Directory.RevokeDevice(old(Tables()), user, id)
    {
      if id in devices && devices[id].owner == user {
        devices := devices - {id};
      }
    }

    method HasConflict(user: string, kind: ChannelKind, candidates: seq<string>) returns (found: bool)
      ensures found <==> Conflicts(Tables(), user, kind, candidates)
    {
      for i := 0 to |candidates|
        invariant forall j :: 0 <= j < i ==>
          var existing := FindByChannel(Tables(), kind, candidates[j]);
          existing.Some? ==> existing.value == user
      {
        var existing := FindByChannel(Tables(), kind, candidates[i]);
        if existing.Some? && existing.value != user {
          return true;
        }
      }
      found := false;
    }

    /** Checks every alias first and inserts afterwards, so a conflict leaves no partial binding. */
    method LinkChannel(user: string, channelId: string, kind: ChannelKind, handle: string)
      returns (error: Option<Error>)
      modifies this
      ensures (Tables(), error) == Directory.LinkChannel(old(Tables()), user, channelId, kind, handle)
    {
      var candidates := HandleList.ChannelHandleCandidates(kind, handle);
      var conflict := HasConflict(user, kind, candidates);
      if conflict {
        return Some(Conflict);
      }
      error := InsertBindings(user, channelId, kind, candidates);
    }

    method InsertBindings(user: string, channelId: string, kind: ChannelKind, candidates: seq<string>)
      returns (error: Option<Error>)
      modifies this`channels
      ensures error == if candidates != [] && foreignKeys && user !in users then Some(Database) else None
      ensures channels == if error.Some? then old(channels)
                else BindAll(old(channels), user, channelId, kind, candidates)
    {
      var i := 0;
      while i < |candidates|
        invariant 0 <= i <= |candidates|
        invariant channels == BindFirst(old(channels), user, channelId, kind, candidates, i)
        invariant i > 0 ==> user in users || !foreignKeys
      {
        if foreignKeys && user !in users {
          return Some(Database);
        }
        channels := channels[(kind, candidates[i]) := Binding(user, channelId)];
        i := i + 1;
      }
      error := None;
    }

    method IssuePairingRequest(id: string, seed: PairingSeed, now: int)
      modifies this
      ensures Tables() == IssuePairing(old(Tables()), id, seed, now)
    {
      pairings := pairings[id := PairingRequest(
        seed.kind, seed.handle, seed.deviceId, seed.deviceName, seed.requestedUser, seed.requestedName,
        now + HOUR, None)];
    }

    method CompletePairingRequest(id: string, completion: PairingCompletion, now: int) returns (error: Option<Error>)
      modifies this
      ensures (Tables(), error) == CompletePairing(old(Tables()), id, completion, now)
    {
      if id !in pairings {
        return Some(NotFound);
      }
      var request := pairings[id];
      if request.completedAt.Some? {
        return Some(AlreadyDone);
      }
      if request.expiresAt < now {
        return Some(Expired);
      }
      var user := completion.user;
      if user !in users {
        RegisterUser(user, GetOr(OrElse(completion.displayName, request.requestedName), user), completion.role);
      }
      assert Tables() == CompletionUser(old(Tables()), request, completion);
      if request.kind.Some? && request.handle.Some? {
        var kind, handle := request.kind.value, request.handle.value;
        error := LinkChannel(user, GetOr(completion.channelId, KindName(kind) + ":" + handle), kind, handle);
        if error.Some? {
          return;
        }
      }
      if request.deviceId.Some? {
        if completion.publicKey.None? {
          return Some(MissingKey);
        }
        error := PairDevice(user, request.deviceId.value,
                            CompletionDeviceRow(request, completion, completion.publicKey.value));
        if error.Some? {
          return;
        }
      }
      if id in pairings {
        pairings := pairings[id := pairings[id].(completedAt := Some(now))];
      }
      error := None;
    }

    method IssueChallengeRequest(id: string, user: Option<string>, deviceId: string, nonce: string, reason: string,
                                 now: int)
      modifies this
      ensures Tables() == IssueChallenge(old(Tables()), id, user, deviceId, nonce, reason, now)
    {
      challenges := challenges[id := ChallengeRequest(user, deviceId, nonce, reason, now + QUARTER_HOUR, None)];
    }

    method VerifyChallengeResponse(id: string, signature: string, now: int) returns (r: Result<(string, Trust), Error>)
      modifies this
      ensures (Tables(), r) == VerifyChallenge(crypto, old(Tables()), id, signature, now)
    {
      if id !in challenges {
        return Err(NotFound);
      }
      var request := challenges[id];
      if request.verifiedAt.Some? {
        return Err(AlreadyDone);
      }
      if request.expiresAt < now {
        return Err(Expired);
      }
      var signatureBytes := crypto.decode(signature);
      if signatureBytes.None? {
        return Err(BadEncoding);
      }
      var message := crypto.decode(request.nonce);
      if message.None? {
        return Err(BadEncoding);
      }
      var checked := VerifySignature(crypto, Tables(), request.deviceId, signatureBytes.value, message.value);
      if checked.Err? {
        return Err(checked.error);
      }
      if !checked.value {
        return Err(Unauthorized);
      }
      challenges := challenges[id := request.(verifiedAt := Some(now))];
      var who := ResolveByDevice(request.deviceId);
      r := if who.Some? then Ok(who.value) else Err(NotFound);
    }
  }
}
