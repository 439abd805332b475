/** Identity resolution on the serving paths (crates/ngenorca-gateway/src/runtime_identity.rs
    and the two resolve functions of crates/ngenorca-identity/src/resolver.rs). */
module RuntimeIdentity {
  import opened Wrappers
  import opened Text
  import opened Handles
  import opened Directory
  import opened Manager

  datatype AuthMethod = ByCertificate | ByTrustedProxy | ByToken | ByPassword | Anonymous

  datatype Caller = Caller(username: Option<string>, email: Option<string>, auth: AuthMethod)

  datatype Claim = Claim(device: string, signature: seq<bv8>, message: seq<bv8>)

  /** A metadata entry: a string, or an integer written out in decimal. */
  datatype Entry = Text(text: string) | Numeral(text: string)

  /** An inbound channel message. */
  datatype Message = Message(kind: ChannelKind, user: Option<string>, metadata: map<string, Entry>, trust: Trust,
                             claim: Option<Claim>)

  datatype Action = Proceed | ProceedReduced | RequirePairing | Challenge | Block

  datatype Resolved = Resolved(user: Option<string>, trust: Trust, action: Action)

  datatype Identity = Identity(user: Option<string>, trust: Trust, action: Action, linkedHandles: seq<string>)

  function AuthTrust(auth: AuthMethod): Trust {
    match auth
    case ByCertificate => Certificate
    case ByTrustedProxy | ByToken | ByPassword => Channel
    case Anonymous => Unknown
  }

  function ResolveFromDevice(crypto: Crypto, s: State, claim: Claim): Resolved {
    match ResolveByDevice(s, claim.device)
    case None => Resolved(None, Unknown, RequirePairing)
    case Some((user, stored)) =>
      if claim.signature == [] || claim.message == [] then Resolved(Some(user), stored.Min(Channel), ProceedReduced)
      else if crypto.verify(s.devices[claim.device].key, claim.signature, claim.message) == Some(true)
      then Resolved(Some(user), stored, Proceed)
      else Resolved(Some(user), Unknown, Challenge)
  }

  function ResolveFromChannel(s: State, kind: ChannelKind, handle: string): Resolved {
    match ResolveByChannel(s, kind, handle)
    case Some(user) => Resolved(Some(user), Channel, Proceed)
    case None => Resolved(None, Unknown, RequirePairing)
  }

  // ---------- linking on the way ----------

  function TryLink(s: State, user: string, kind: ChannelKind, raw: string): (State, bool) {
    var handle := Trim(raw);
    if handle == "" || ResolveByChannel(s, kind, handle).Some? then (s, false)
    else
      var (s', e) := LinkChannel(s, user, KindName(kind) + ":" + handle, kind, handle);
      (s', e.None?)
  }

  /** Tries the handles in order; the result lists those that were newly linked. */
  function AutoLink(s: State, user: string, kind: ChannelKind, handles: seq<string>): (State, seq<string>)
    decreases |handles|
  {
    if handles == [] then (s, [])
    else
      var (s1, linked) := TryLink(s, user, kind, handles[0]);
      var (s2, rest) := AutoLink(s1, user, kind, handles[1..]);
      (s2, if linked then [handles[0]] + rest else rest)
  }

  predicate NonBlank(o: Option<string>) { o.Some? && Trim(o.value) != "" }

  /** The caller's own handles, trimmed. */
  function AuthenticatedWebHandles(caller: Caller): seq<string> {
    var own := if NonBlank(caller.username) then [Trim(caller.username.value)] else [];
    if NonBlank(caller.email) then AddUnique(own, Trim(caller.email.value)) else own
  }

  /** The spellings under which a caller is looked up. */
  function WebHandles(caller: Caller): seq<string> {
    var names := if NonBlank(caller.username) then AddAll([], WebForms(caller.username.value)) else [];
    if NonBlank(caller.email) then AddAll(names, WebForms(caller.email.value)) else names
  }

  function FirstResolved(s: State, kind: ChannelKind, handles: seq<string>): Option<string> {
    if handles == [] then None
    else if ResolveFromChannel(s, kind, handles[0]).user.Some? then ResolveFromChannel(s, kind, handles[0]).user
    else FirstResolved(s, kind, handles[1..])
  }

  /** What a device claim settles by itself: None means that the handles decide. */
  function ResolveByClaim(crypto: Crypto, s: State, claim: Option<Claim>, base: Trust, kind: ChannelKind,
                          handles: seq<string>)
    : (State, Option<Identity>)
  {
    if claim.None? then (s, None)
    else
      var resolved := ResolveFromDevice(crypto, s, claim.value);
      match resolved.action
      case Proceed =>
        var (s', linked) := AutoLink(s, resolved.user.value, kind, handles);
        (s', Some(Identity(resolved.user, resolved.trust.Max(base), Proceed, linked)))
      case ProceedReduced => (s, Some(Identity(resolved.user, resolved.trust.Max(base), ProceedReduced, [])))
      case Challenge | Block => (s, Some(Identity(resolved.user, resolved.trust, resolved.action, [])))
      case RequirePairing => (s, None)
  }

  /** A claim that settles nothing changes nothing. */
  lemma UnsettledClaim(crypto: Crypto, s: State, claim: Option<Claim>, base: Trust, kind: ChannelKind,
                       handles: seq<string>)
    ensures var (s', r) := ResolveByClaim(crypto, s, claim, base, kind, handles); if r.Some? then true else s' == s
  {
  }

  function WebFallback(caller: Caller): Identity {
    Identity(caller.username, AuthTrust(caller.auth),
             if caller.username.Some? || caller.email.Some? then ProceedReduced else RequirePairing, [])
  }

  function ResolveWeb(crypto: Crypto, s: State, caller: Caller, claim: Option<Claim>): (State, Identity) {
    var auth := AuthTrust(caller.auth);
    var (s', byClaim) := ResolveByClaim(crypto, s, claim, auth, WebChat, AuthenticatedWebHandles(caller));
    if byClaim.Some? then (s', byClaim.value)
    else
      match FirstResolved(s, WebChat, WebHandles(caller))
      case Some(user) => (s, Identity(Some(user), Channel.Max(auth), Proceed, []))
      case None => (s, WebFallback(caller))
  }

  // ---------- inbound messages ----------

  function StripRuntimePrefix(raw: string): string {
    var t := Trim(raw);
    match SplitOnce(t, ':')
    case Some((prefix, tail)) => if forall c | c in prefix :: IsPrefixChar(c) then tail else t
    case None => t
  }

  function RuntimeForms(kind: ChannelKind, raw: string): seq<string> {
    var t := Trim(raw);
    var u := StripRuntimePrefix(t);
    BasicForms(t) + BasicForms(u) +
    match kind
    case Telegram | Discord => UsernameForms(u)
    case WhatsApp | Signal => PhonePair(Digits(u))
    case Matrix => MatrixForms(u)
    case WebChat => WebForms(u)
    case Slack | Teams | IRC | IMessage | Custom(_) => []
  }

  /** The metadata keys that name the sender, in order, and whether an integer will do. */
  function MetadataKeys(kind: ChannelKind): seq<(string, bool)> {
    match kind
    case Telegram => [("telegram_username", false), ("telegram_user_id", true)]
    case WhatsApp => [("whatsapp_from", false)]
    case Slack => [("slack_user", false)]
    case Signal => [("signal_source", false)]
    case Matrix => [("matrix_sender", false)]
    case Discord => [("discord_author_username", false)]
    case Teams => [("teams_from_name", false)]
    case WebChat | IRC | IMessage | Custom(_) => []
  }

  function MetadataText(message: Message, key: (string, bool)): Option<string> {
    if key.0 in message.metadata && (message.metadata[key.0].Text? || key.1)
    then Some(message.metadata[key.0].text)
    else None
  }

  function MetadataHandles(message: Message, keys: seq<(string, bool)>, values: seq<string>): seq<string>
    decreases |keys|
  {
    if keys == [] then values
    else
      var text := MetadataText(message, keys[0]);
      MetadataHandles(message, keys[1..],
                      if text.Some? then AddAll(values, RuntimeForms(message.kind, text.value)) else values)
  }

  function ChannelHandles(message: Message): seq<string> {
    var fromMetadata := MetadataHandles(message, MetadataKeys(message.kind), []);
    if message.user.Some? then AddAll(fromMetadata, RuntimeForms(message.kind, message.user.value)) else fromMetadata
  }

  function OwnHandle(message: Message): seq<string> {
    if message.user.Some? then [message.user.value] else []
  }

  function MessageFallback(message: Message): Identity {
    Identity(message.user, message.trust, if message.user.Some? then ProceedReduced else RequirePairing, [])
  }

  function ResolveMessage(crypto: Crypto, s: State, message: Message): (State, Identity) {
    var (s', byClaim) := ResolveByClaim(crypto, s, message.claim, message.trust, message.kind, OwnHandle(message));
    if byClaim.Some? then (s', byClaim.value)
    else
      match FirstResolved(s, message.kind, ChannelHandles(message))
      case Some(user) => (s, Identity(Some(user), Channel.Max(message.trust), Proceed, []))
      case None => (s, MessageFallback(message))
  }

  // ---------- the methods that run against the manager ----------

  method TryLinkChannelHandle(identity: IdentityManager, user: string, kind: ChannelKind, raw: string)
    returns (linked: bool)
    modifies identity
    ensures identity.Tables() == TryLink(old(identity.Tables()), user, kind, raw).0
    ensures linked == TryLink(old(identity.Tables()), user, kind, raw).1
  {
    var handle := Trim(raw);
    if handle == "" {
      return false;
    }
    var bound := identity.ResolveByChannel(kind, handle);
    if bound.Some? {
      return false;
    }
    var error := identity.LinkChannel(user, KindName(kind) + ":" + handle, kind, handle);
    linked := error.None?;
  }

  lemma AutoLinkNext(s: State, user: string, kind: ChannelKind, handles: seq<string>, i: nat)
    requires i < |handles|
    ensures var (s', newly) := TryLink(s, user, kind, handles[i]);
            && AutoLink(s, user, kind, handles[i..]).0 == AutoLink(s', user, kind, handles[i + 1..]).0
            && AutoLink(s, user, kind, handles[i..]).1 ==
                 (if newly then [handles[i]] else []) + AutoLink(s', user, kind, handles[i + 1..]).1
  {
    hide TryLink;
    assert handles[i..][1..] == handles[i + 1..];
  }

  lemma NothingToLink(s: State, user: string, kind: ChannelKind)
    ensures AutoLink(s, user, kind, []).0 == s && AutoLink(s, user, kind, []).1 == []
  {
  }

  method AutoLinkHandles(identity: IdentityManager, user: string, kind: ChannelKind, handles: seq<string>)
    returns (linked: seq<string>)
    modifies identity
    ensures identity.Tables() == AutoLink(old(identity.Tables()), user, kind, handles).0
    ensures linked == AutoLink(old(identity.Tables()), user, kind, handles).1
  {
    hide TryLink, AutoLink;
    linked := [];
    assert handles[0..] == handles;
    for i := 0 to |handles|
      invariant AutoLink(old(identity.Tables()), user, kind, handles).0 ==
                  AutoLink(identity.Tables(), user, kind, handles[i..]).0
      invariant AutoLink(old(identity.Tables()), user, kind, handles).1 ==
                  linked + AutoLink(identity.Tables(), user, kind, handles[i..]).1
    {
      AutoLinkNext(identity.Tables(), user, kind, handles, i);
      var newly := TryLinkChannelHandle(identity, user, kind, handles[i]);
      if newly {
        linked := linked + [handles[i]];
      }
    }
    assert handles[|handles|..] == [];
    NothingToLink(identity.Tables(), user, kind);
  }

  method ResolveClaim(identity: IdentityManager, claim: Option<Claim>, base: Trust, kind: ChannelKind,
                      handles: seq<string>) returns (r: Option<Identity>)
    modifies identity
    ensures identity.Tables() == ResolveByClaim(identity.crypto, old(identity.Tables()), claim, base, kind, handles).0
    ensures r == ResolveByClaim(identity.crypto, old(identity.Tables()), claim, base, kind, handles).1
  {
    if claim.None? {
      return None;
    }
    var resolved := ResolveFromDevice(identity.crypto, identity.Tables(), claim.value);
    match resolved.action {
      case Proceed =>
        var linked := AutoLinkHandles(identity, resolved.user.value, kind, handles);
        r := Some(Identity(resolved.user, resolved.trust.Max(base), Proceed, linked));
      case ProceedReduced =>
        r := Some(Identity(resolved.user, resolved.trust.Max(base), ProceedReduced, []));
      case Challenge | Block =>
        r := Some(Identity(resolved.user, resolved.trust, resolved.action, []));
      case RequirePairing =>
        r := None;
    }
  }

  method FindHandleOwner(identity: IdentityManager, kind: ChannelKind, handles: seq<string>) returns (r: Option<string>)
    ensures r == FirstResolved(identity.Tables(), kind, handles)
  {
    assert handles[0..] == handles;
    for i := 0 to |handles|
      invariant FirstResolved(identity.Tables(), kind, handles) == FirstResolved(identity.Tables(), kind, handles[i..])
    {
      assert handles[i..][1..] == handles[i + 1..];
      r := identity.ResolveByChannel(kind, handles[i]);
      if r.Some? {
        return;
      }
    }
    r := None;
  }

  method ResolveWebIdentityWithDevice(identity: IdentityManager, caller: Caller, claim: Option<Claim>)
    returns (r: Identity)
    modifies identity
    ensures identity.Tables() == ResolveWeb(identity.crypto, old(identity.Tables()), caller, claim).0
    ensures r == ResolveWeb(identity.crypto, old(identity.Tables()), caller, claim).1
  {
    hide AuthenticatedWebHandles, WebHandles, ResolveByClaim;
    var auth := AuthTrust(caller.auth);
    UnsettledClaim(identity.crypto, identity.Tables(), claim, auth, WebChat, AuthenticatedWebHandles(caller));
    var byClaim := ResolveClaim(identity, claim, auth, WebChat, AuthenticatedWebHandles(caller));
    if byClaim.Some? {
      return byClaim.value;
    }
    var owner := FindHandleOwner(identity, WebChat, WebHandles(caller));
    if owner.Some? {
      r := Identity(owner, Channel.Max(auth), Proceed, []);
    } else {
      r := WebFallback(caller);
    }
  }

  method ResolveMessageIdentity(identity: IdentityManager, message: Message) returns (r: Identity)
    modifies identity
    ensures identity.Tables() == ResolveMessage(identity.crypto, old(identity.Tables()), message).0
    ensures r == ResolveMessage(identity.crypto, old(identity.Tables()), message).1
  {
    hide OwnHandle, ChannelHandles, ResolveByClaim;
    UnsettledClaim(identity.crypto, identity.Tables(), message.claim, message.trust, message.kind, OwnHandle(message));
    var byClaim := ResolveClaim(identity, message.claim, message.trust, message.kind, OwnHandle(message));
    if byClaim.Some? {
      return byClaim.value;
    }
    var owner := FindHandleOwner(identity, message.kind, ChannelHandles(message));
    if owner.Some? {
      r := Identity(owner, Channel.Max(message.trust), Proceed, []);
    } else {
      r := MessageFallback(message);
    }
  }
}
