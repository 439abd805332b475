/** The identity tables and the meaning of every operation on them
    (crates/ngenorca-identity/src/store.rs and lib.rs). Times are nanoseconds. */
module Directory {
  import opened Wrappers
  import opened Handles

  datatype Trust = Unknown | Channel | Certificate | Hardware {
    function Rank(): nat {
      match this case Unknown => 0 case Channel => 1 case Certificate => 2 case Hardware => 3
    }

    function Min(other: Trust): Trust { if other.Rank() < Rank() then other else this }

    function Max(other: Trust): Trust { if other.Rank() >= Rank() then other else this }
  }

  datatype Role = Owner | Family | Guest

  datatype Attestation = Tpm | SecureEnclave | StrongBox | ClientCertificate | CompositeFingerprint

  datatype User = User(displayName: string, role: Role)

  datatype Device = Device(owner: string, name: string, attestation: Attestation, key: string, trust: Trust)

  datatype Binding = Binding(owner: string, channelId: string)

  datatype PairingRequest = PairingRequest(
    kind: Option<ChannelKind>, handle: Option<string>, deviceId: Option<string>, deviceName: Option<string>,
    requestedUser: Option<string>, requestedName: Option<string>, expiresAt: int, completedAt: Option<int>)

  datatype PairingSeed = PairingSeed(
    kind: Option<ChannelKind>, handle: Option<string>, deviceId: Option<string>, deviceName: Option<string>,
    requestedUser: Option<string>, requestedName: Option<string>)

  datatype PairingCompletion = PairingCompletion(
    user: string, displayName: Option<string>, role: Role, channelId: Option<string>,
    deviceName: Option<string>, attestation: Option<Attestation>, publicKey: Option<string>)

  datatype ChallengeRequest = ChallengeRequest(
    user: Option<string>, deviceId: string, nonce: string, reason: string, expiresAt: int, verifiedAt: Option<int>)

  /** Base64 decoding and Ed25519, both arbitrary; `verify` is None when the stored key does not decode. */
  datatype Crypto = Crypto(
    decode: string -> Option<seq<bv8>>,
    verify: (string, seq<bv8>, seq<bv8>) -> Option<bool>)

  /** The five tables. `foreignKeys` says whether the database enforces REFERENCES users(user_id). */
  datatype State = State(
    foreignKeys: bool,
    users: map<string, User>,
    devices: map<string, Device>,
    channels: map<(ChannelKind, string), Binding>,
    pairings: map<string, PairingRequest>,
    challenges: map<string, ChallengeRequest>)

  datatype Error = NotFound | Conflict | Database | AlreadyDone | Expired | MissingKey | BadEncoding | Unauthorized

  const HOUR := 3_600_000_000_000
  const QUARTER_HOUR := 900_000_000_000

  function EmptyState(foreignKeys: bool): State {
    State(foreignKeys, map[], map[], map[], map[], map[])
  }

  // ---------- lookups ----------

  /** The user a channel row names, provided that user is in the users table. */
  function FindByChannel(s: State, kind: ChannelKind, handle: string): Option<string> {
    if (kind, handle) in s.channels && s.channels[(kind, handle)].owner in s.users
    then Some(s.channels[(kind, handle)].owner)
    else None
  }

  function FirstBound(s: State, kind: ChannelKind, candidates: seq<string>): (r: Option<string>)
    ensures r.None? <==> forall c :: c in candidates ==> FindByChannel(s, kind, c).None?
    ensures r.Some? ==> exists c :: c in candidates && FindByChannel(s, kind, c) == r
  {
    if candidates == [] then None
    else if FindByChannel(s, kind, candidates[0]).Some? then FindByChannel(s, kind, candidates[0])
    else FirstBound(s, kind, candidates[1..])
  }

  function ResolveByChannel(s: State, kind: ChannelKind, handle: string): Option<string> {
    FirstBound(s, kind, Candidates(kind, handle))
  }

  function ResolveByDevice(s: State, id: string): Option<(string, Trust)> {
    if id in s.devices && s.devices[id].owner in s.users
    then Some((s.devices[id].owner, s.devices[id].trust))
    else None
  }

  function VerifySignature(crypto: Crypto, s: State, id: string, signature: seq<bv8>, message: seq<bv8>)
    : Result<bool, Error>
  {
    if ResolveByDevice(s, id).None? then Err(NotFound)
    else match crypto.verify(s.devices[id].key, signature, message)
         case None => Err(BadEncoding)
         case Some(valid) => Ok(valid)
  }

  // ---------- updates ----------

  function Register(s: State, user: string, name: string, role: Role): State {
    s.(users := s.users[user := User(name, role)])
  }

  /** A row whose user is missing is refused when foreign keys are enforced. */
  predicate Refused(s: State, user: string) {
    s.foreignKeys && user !in s.users
  }

  function PairDevice(s: State, user: string, id: string, device: Device): (State, Option<Error>) {
    if Refused(s, user) then (s, Some(Database))
    else (s.(devices := s.devices[id := device.(owner := user)]), None)
  }

  function RevokeDevice(s: State, user: string, id: string): State {
    if id in s.devices && s.devices[id].owner == user then s.(devices := s.devices - {id}) else s
  }

  predicate Conflicts(s: State, user: string, kind: ChannelKind, candidates: seq<string>) {
    exists c :: c in candidates && FindByChannel(s, kind, c).Some? && FindByChannel(s, kind, c).value != user
  }

  /** The channel table after inserting or replacing one row for each of the first `n` candidates. */
  function BindFirst(channels: map<(ChannelKind, string), Binding>, user: string, channelId: string,
                     kind: ChannelKind, candidates: seq<string>, n: nat): map<(ChannelKind, string), Binding>
    requires n <= |candidates|
  {
    if n == 0 then channels
    else
      var earlier := BindFirst(channels, user, channelId, kind, candidates, n - 1);
      earlier[(kind, candidates[n - 1]) := Binding(user, channelId)]
  }

  function BindAll(channels: map<(ChannelKind, string), Binding>, user: string, channelId: string,
                   kind: ChannelKind, candidates: seq<string>): map<(ChannelKind, string), Binding>
  {
    BindFirst(channels, user, channelId, kind, candidates, |candidates|)
  }

  lemma {:induction false} BindFirstRow(channels: map<(ChannelKind, string), Binding>, user: string, channelId: string,
                                        kind: ChannelKind, candidates: seq<string>, n: nat, k: ChannelKind, h: string)
    requires n <= |candidates|
    ensures var r := BindFirst(channels, user, channelId, kind, candidates, n);
            if k == kind && h in candidates[..n] then (k, h) in r && r[(k, h)] == Binding(user, channelId)
            else (k, h) in r <==> (k, h) in channels
    ensures var r := BindFirst(channels, user, channelId, kind, candidates, n);
            !(k == kind && h in candidates[..n]) && (k, h) in r ==> r[(k, h)] == channels[(k, h)]
  {
    if n > 0 {
      BindFirstRow(channels, user, channelId, kind, candidates, n - 1, k, h);
      assert candidates[..n] == candidates[..n - 1] + [candidates[n - 1]];
    }
  }

  /** Linking binds exactly the candidates and keeps every other row. */
  lemma BindAllRow(channels: map<(ChannelKind, string), Binding>, user: string, channelId: string,
                   kind: ChannelKind, candidates: seq<string>, k: ChannelKind, h: string)
    ensures var r := BindAll(channels, user, channelId, kind, candidates);
            && ((k, h) in r <==> (k, h) in channels || (k == kind && h in candidates))
            && (k == kind && h in candidates ==> r[(k, h)] == Binding(user, channelId))
            && (!(k == kind && h in candidates) && (k, h) in r ==> r[(k, h)] == channels[(k, h)])
  {
    assert candidates[..|candidates|] == candidates;
    BindFirstRow(channels, user, channelId, kind, candidates, |candidates|, k, h);
  }

  function LinkChannel(s: State, user: string, channelId: string, kind: ChannelKind, handle: string)
    : (State, Option<Error>)
  {
    var candidates := Candidates(kind, handle);
    if Conflicts(s, user, kind, candidates) then (s, Some(Conflict))
    else if candidates != [] && Refused(s, user) then (s, Some(Database))
    else (s.(channels := BindAll(s.channels, user, channelId, kind, candidates)), None)
  }

  function IssuePairing(s: State, id: string, seed: PairingSeed, now: int): State {
    s.(pairings := s.pairings[id := PairingRequest(
      seed.kind, seed.handle, seed.deviceId, seed.deviceName, seed.requestedUser, seed.requestedName,
      now + HOUR, None)])
  }

  function KindName(kind: ChannelKind): string {
    match kind
    case WhatsApp => "whatsapp"
    case Telegram => "telegram"
    case Discord => "discord"
    case Slack => "slack"
    case Signal => "signal"
    case IMessage => "imessage"
    case Matrix => "matrix"
    case IRC => "irc"
    case WebChat => "webchat"
    case Teams => "teams"
    case Custom(name) => name
  }

  function GetOr<T>(o: Option<T>, default: T): T { if o.Some? then o.value else default }

  function OrElse<T>(o: Option<T>, other: Option<T>): Option<T> { if o.Some? then o else other }

  /** First stage of a completion: the user exists afterwards. */
  function CompletionUser(s: State, request: PairingRequest, completion: PairingCompletion): State {
    if completion.user in s.users then s
    else Register(s, completion.user, GetOr(OrElse(completion.displayName, request.requestedName), completion.user),
                  completion.role)
  }

  /** Second stage: the requested handle, if any, is linked. */
  function CompletionLink(s: State, request: PairingRequest, completion: PairingCompletion): (State, Option<Error>) {
    if request.kind.Some? && request.handle.Some? then
      LinkChannel(s, completion.user,
                  GetOr(completion.channelId, KindName(request.kind.value) + ":" + request.handle.value),
                  request.kind.value, request.handle.value)
    else (s, None)
  }

  function CompletionDeviceRow(request: PairingRequest, completion: PairingCompletion, key: string): Device {
    Device(completion.user, GetOr(OrElse(completion.deviceName, request.deviceName), "Paired device"),
           GetOr(completion.attestation, CompositeFingerprint), key, Hardware)
  }

  /** Third stage: the requested device, if any, is bound at hardware trust; that needs a public key. */
  function CompletionDevice(s: State, request: PairingRequest, completion: PairingCompletion): (State, Option<Error>) {
    if request.deviceId.None? then (s, None)
    else if completion.publicKey.None? then (s, Some(MissingKey))
    else PairDevice(s, completion.user, request.deviceId.value,
                    CompletionDeviceRow(request, completion, completion.publicKey.value))
  }

  function MarkCompleted(s: State, id: string, now: int): State {
    if id in s.pairings then s.(pairings := s.pairings[id := s.pairings[id].(completedAt := Some(now))]) else s
  }

  /** An error in a later stage keeps what the earlier stages did. */
  function CompletePairing(s: State, id: string, completion: PairingCompletion, now: int): (State, Option<Error>) {
    if id !in s.pairings then (s, Some(NotFound))
    else
      var request := s.pairings[id];
      if request.completedAt.Some? then (s, Some(AlreadyDone))
      else if request.expiresAt < now then (s, Some(Expired))
      else
        var s1 := CompletionUser(s, request, completion);
        var (s2, linkError) := CompletionLink(s1, request, completion);
        if linkError.Some? then (s2, linkError)
        else
          var (s3, deviceError) := CompletionDevice(s2, request, completion);
          if deviceError.Some? then (s3, deviceError)
          else (MarkCompleted(s3, id, now), None)
  }

  function IssueChallenge(s: State, id: string, user: Option<string>, deviceId: string, nonce: string, reason: string,
                          now: int): State {
    s.(challenges := s.challenges[id := ChallengeRequest(user, deviceId, nonce, reason, now + QUARTER_HOUR, None)])
  }

  function MarkVerified(s: State, id: string, now: int): State {
    if id in s.challenges then s.(challenges := s.challenges[id := s.challenges[id].(verifiedAt := Some(now))]) else s
  }

  function VerifyChallenge(crypto: Crypto, s: State, id: string, signature: string, now: int)
    : (State, Result<(string, Trust), Error>)
  {
    if id !in s.challenges then (s, Err(NotFound))
    else
      var request := s.challenges[id];
      if request.verifiedAt.Some? then (s, Err(AlreadyDone))
      else if request.expiresAt < now then (s, Err(Expired))
      else if crypto.decode(signature).None? || crypto.decode(request.nonce).None? then (s, Err(BadEncoding))
      else
        match VerifySignature(crypto, s, request.deviceId, crypto.decode(signature).value,
                              crypto.decode(request.nonce).value)
        case Err(e) => (s, Err(e))
        case Ok(false) => (s, Err(Unauthorized))
        case Ok(true) =>
          var s' := MarkVerified(s, id, now);
          match ResolveByDevice(s', request.deviceId)
          case Some(who) => (s', Ok(who))
          case None => (s', Err(NotFound))
  }
}
