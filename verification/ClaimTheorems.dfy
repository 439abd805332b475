/** What a resolution on the serving paths answers, and what it takes for it to change a table
    (crates/ngenorca-gateway/src/runtime_identity.rs). */
module ClaimTheorems {
  import opened Wrappers
  import opened Text
  import opened Handles
  import opened Directory
  import opened IdentityTheorems
  import opened AliasTheorems
  import opened RuntimeIdentity
  import opened RuntimeTheorems
  import opened RequestTheorems

  // ---------- trust ----------

  /** The order Unknown, Channel, Certificate, Hardware. */
  predicate AtLeast(a: Trust, b: Trust) {
    || b == Unknown || a == Hardware || a == b
    || (a == Certificate && b == Channel)
  }

  predicate IsLarger(r: Trust, a: Trust, b: Trust) { (r == a || r == b) && AtLeast(r, a) && AtLeast(r, b) }

  predicate IsSmaller(r: Trust, a: Trust, b: Trust) { (r == a || r == b) && AtLeast(a, r) && AtLeast(b, r) }

  /** What an authentication method is worth by itself. */
  predicate Grants(auth: AuthMethod, t: Trust) {
    || (auth == ByCertificate && t == Certificate)
    || (auth in {ByTrustedProxy, ByToken, ByPassword} && t == Channel)
    || (auth == Anonymous && t == Unknown)
  }

  lemma TrustMeaning(a: Trust, b: Trust)
    ensures IsLarger(a.Max(b), a, b) && IsSmaller(a.Min(b), a, b)
    ensures forall r :: IsLarger(r, a, b) ==> r == a.Max(b)
  {
  }

  // ---------- device claims ----------

  /** The device is stored and its owner is registered. */
  predicate IsKnown(s: State, device: string) { device in s.devices && s.devices[device].owner in s.users }

  /** The claim carries a signature of a message that the stored key of the device verifies. */
  predicate IsSigned(crypto: Crypto, s: State, claim: Claim) {
    && claim.signature != [] && claim.message != []
    && claim.device in s.devices
    && crypto.verify(s.devices[claim.device].key, claim.signature, claim.message) == Some(true)
  }

  predicate IsUnsigned(claim: Claim) { claim.signature == [] || claim.message == [] }

  /** The answer to a claim of a known device: an unsigned claim is believed at channel trust at most,
      a signed one at the stored trust, and one whose signature fails is challenged. */
  predicate AnswersClaim(crypto: Crypto, s: State, claim: Claim, base: Trust, r: Identity)
    requires IsKnown(s, claim.device)
  {
    var device := s.devices[claim.device];
    && r.user == Some(device.owner)
    && if IsUnsigned(claim) then
         && r.action == ProceedReduced && r.linkedHandles == []
         && exists m: Trust :: IsSmaller(m, device.trust, Channel) && IsLarger(r.trust, m, base)
       else if IsSigned(crypto, s, claim) then r.action == Proceed && IsLarger(r.trust, device.trust, base)
       else r.action == Challenge && r.trust == Unknown && r.linkedHandles == []
  }

  lemma UnsignedAnswer(stored: Trust, base: Trust)
    ensures var r := stored.Min(Channel).Max(base);
            exists m: Trust :: IsSmaller(m, stored, Channel) && IsLarger(r, m, base)
  {
    TrustMeaning(stored, Channel);
    TrustMeaning(stored.Min(Channel), base);
  }

  lemma DeviceAnswer(crypto: Crypto, s: State, claim: Claim)
    ensures var r := ResolveFromDevice(crypto, s, claim);
            if !IsKnown(s, claim.device) then r.action == RequirePairing
            else
              && r.user == Some(s.devices[claim.device].owner)
              && if IsUnsigned(claim)
                 then r.action == ProceedReduced && r.trust == s.devices[claim.device].trust.Min(Channel)
                 else if IsSigned(crypto, s, claim) then r.action == Proceed && r.trust == s.devices[claim.device].trust
                 else r.action == Challenge && r.trust == Unknown
  {
  }

  lemma ClaimAnswer(crypto: Crypto, s: State, claim: Claim, base: Trust, kind: ChannelKind, handles: seq<string>)
    ensures var (s', r) := ResolveByClaim(crypto, s, Some(claim), base, kind, handles);
            && (r.Some? <==> IsKnown(s, claim.device))
            && (r.Some? ==> AnswersClaim(crypto, s, claim, base, r.value))
            && (!(IsKnown(s, claim.device) && IsSigned(crypto, s, claim)) ==> s' == s)
            && s' == s.(channels := s'.channels)
            && (IsKnown(s, claim.device) && IsSigned(crypto, s, claim) ==>
                  && s' == AutoLink(s, s.devices[claim.device].owner, kind, handles).0
                  && r.value.linkedHandles == AutoLink(s, s.devices[claim.device].owner, kind, handles).1)
  {
    hide AutoLink, IsLarger, IsSmaller, ResolveFromDevice, IsUnsigned;
    ClaimTables(crypto, s, Some(claim), base, kind, handles);
    DeviceAnswer(crypto, s, claim);
    UnsignedNotSigned(crypto, s, claim);
    hide IsSigned;
    if IsKnown(s, claim.device) {
      UnsignedAnswer(s.devices[claim.device].trust, base);
      TrustMeaning(s.devices[claim.device].trust, base);
    }
  }

  lemma UnsignedNotSigned(crypto: Crypto, s: State, claim: Claim)
    ensures IsUnsigned(claim) ==> !IsSigned(crypto, s, claim)
  {
  }

  /** How a web request with a device claim is answered: by the device if it is known, and otherwise as without
      the claim. */
  lemma WebClaimAnswer(crypto: Crypto, s: State, caller: Caller, claim: Claim, base: Trust)
    requires Grants(caller.auth, base)
    ensures var (s', r) := ResolveWeb(crypto, s, caller, Some(claim));
            if IsKnown(s, claim.device) then AnswersClaim(crypto, s, claim, base, r)
            else s' == s && r == ResolveWeb(crypto, s, caller, None).1
  {
    hide ResolveByClaim, FirstResolved, AuthenticatedWebHandles, WebHandles, AnswersClaim;
    assert AuthTrust(caller.auth) == base;
    ClaimAnswer(crypto, s, claim, base, WebChat, AuthenticatedWebHandles(caller));
    NoClaim(crypto, s, base, WebChat, AuthenticatedWebHandles(caller));
  }

  /** The same for an inbound message. */
  lemma MessageClaimAnswer(crypto: Crypto, s: State, message: Message, claim: Claim)
    requires message.claim == Some(claim)
    ensures var (s', r) := ResolveMessage(crypto, s, message);
            if IsKnown(s, claim.device) then AnswersClaim(crypto, s, claim, message.trust, r)
            else s' == s && r == ResolveMessage(crypto, s, message.(claim := None)).1
  {
    hide ResolveByClaim, FirstResolved, OwnHandle, ChannelHandles, AnswersClaim;
    ClaimAnswer(crypto, s, claim, message.trust, message.kind, OwnHandle(message));
    NoClaim(crypto, s, message.trust, message.kind, OwnHandle(message));
    SameHandles(message);
  }

  lemma SameHandles(message: Message)
    ensures var m := message.(claim := None);
            ChannelHandles(m) == ChannelHandles(message) && OwnHandle(m) == OwnHandle(message)
            && MessageFallback(m) == MessageFallback(message)
  {
    hide RuntimeForms, MetadataKeys;
    SameMetadata(message, MetadataKeys(message.kind), []);
  }

  lemma {:induction false} SameMetadata(message: Message, keys: seq<(string, bool)>, values: seq<string>)
    ensures MetadataHandles(message.(claim := None), keys, values) == MetadataHandles(message, keys, values)
    decreases |keys|
  {
    hide RuntimeForms;
    if keys != [] {
      var text := MetadataText(message, keys[0]);
      SameMetadata(message, keys[1..],
                   if text.Some? then AddAll(values, RuntimeForms(message.kind, text.value)) else values);
    }
  }

  /** Nothing but a verified signature of a known device makes a resolution change a table. */
  lemma OnlySignaturesLink(crypto: Crypto, s: State, caller: Caller, claim: Option<Claim>, message: Message)
    ensures ResolveWeb(crypto, s, caller, claim).0 != s ==>
              claim.Some? && IsKnown(s, claim.value.device) && IsSigned(crypto, s, claim.value)
    ensures ResolveMessage(crypto, s, message).0 != s ==>
              message.claim.Some? && IsKnown(s, message.claim.value.device) && IsSigned(crypto, s, message.claim.value)
  {
    hide ResolveByClaim, FirstResolved, AuthenticatedWebHandles, WebHandles, OwnHandle, ChannelHandles;
    var base := AuthTrust(caller.auth);
    if claim.Some? {
      ClaimAnswer(crypto, s, claim.value, base, WebChat, AuthenticatedWebHandles(caller));
    } else {
      NoClaim(crypto, s, base, WebChat, AuthenticatedWebHandles(caller));
    }
    if message.claim.Some? {
      ClaimAnswer(crypto, s, message.claim.value, message.trust, message.kind, OwnHandle(message));
    } else {
      NoClaim(crypto, s, message.trust, message.kind, OwnHandle(message));
    }
  }

  // ---------- what a signature links ----------

  /** Every row that `s'` has beyond those of `s` is an alias of a handle in `linked` and belongs to the user;
      the rows of `s` are all still there. */
  ghost predicate GainsOnly(s: State, s': State, user: string, kind: ChannelKind, linked: seq<string>) {
    forall k, c :: RowOwner(s', k, c) != RowOwner(s, k, c) ==>
      && RowOwner(s, k, c) == None && RowOwner(s', k, c) == Some(user)
      && k == kind && IsAliasOfOne(kind, linked, c)
  }

  ghost predicate IsAliasOfOne(kind: ChannelKind, linked: seq<string>, c: string) {
    exists h :: h in linked && c in Candidates(kind, Trim(h))
  }

  lemma NobodyOwnsNothing(s: State, kind: ChannelKind, handle: string)
    requires OwnersRegistered(s)
    ensures ResolveByChannel(s, kind, handle) == None <==>
              forall c :: c in Candidates(kind, handle) ==> RowOwner(s, kind, c) == None
  {
    hide Candidates;
    forall c
      ensures FindByChannel(s, kind, c) == RowOwner(s, kind, c)
    {
      FindIsRowOwner(s, kind, c);
    }
  }

  lemma ResolvesToOwner(s: State, kind: ChannelKind, handle: string, user: string)
    requires OwnersRegistered(s)
    requires forall c :: c in Candidates(kind, handle) && RowOwner(s, kind, c) != None ==>
               RowOwner(s, kind, c) == Some(user)
    ensures ResolveByChannel(s, kind, handle) != None ==> ResolveByChannel(s, kind, handle) == Some(user)
  {
    hide Candidates;
    var r := ResolveByChannel(s, kind, handle);
    if r.Some? {
      var c :| c in Candidates(kind, handle) && FindByChannel(s, kind, c) == r;
      FindIsRowOwner(s, kind, c);
    }
  }

  /** A handle that resolved to nobody can only have been won by the user. */
  lemma WonByUser(s: State, s': State, user: string, kind: ChannelKind, linked: seq<string>, handle: string)
    requires OwnersRegistered(s) && OwnersRegistered(s') && GainsOnly(s, s', user, kind, linked)
    requires ResolveByChannel(s, kind, handle) == None
    ensures ResolveByChannel(s', kind, handle) != None ==> ResolveByChannel(s', kind, handle) == Some(user)
  {
    hide Candidates, ResolveByChannel, IsAliasOfOne;
    NobodyOwnsNothing(s, kind, handle);
    ResolvesToOwner(s', kind, handle, user);
  }

  /** A handle that resolves to somebody keeps resolving to somebody. */
  lemma StaysResolved(s: State, s': State, user: string, kind: ChannelKind, linked: seq<string>, handle: string)
    requires OwnersRegistered(s) && OwnersRegistered(s') && GainsOnly(s, s', user, kind, linked)
    ensures ResolveByChannel(s', kind, handle) == None ==> ResolveByChannel(s, kind, handle) == None
  {
    hide Candidates, ResolveByChannel, IsAliasOfOne;
    NobodyOwnsNothing(s, kind, handle);
    NobodyOwnsNothing(s', kind, handle);
  }

  lemma GainsCompose(s0: State, s1: State, s2: State, user: string, kind: ChannelKind, a: seq<string>, b: seq<string>)
    requires GainsOnly(s0, s1, user, kind, a) && GainsOnly(s1, s2, user, kind, b)
    ensures GainsOnly(s0, s2, user, kind, a + b)
  {
    hide Candidates;
    forall c
      ensures IsAliasOfOne(kind, a, c) || IsAliasOfOne(kind, b, c) ==> IsAliasOfOne(kind, a + b, c)
    {
      AliasOfMore(kind, a, b, c);
    }
    hide IsAliasOfOne;
  }

  lemma AliasOfMore(kind: ChannelKind, a: seq<string>, b: seq<string>, c: string)
    ensures IsAliasOfOne(kind, a, c) || IsAliasOfOne(kind, b, c) ==> IsAliasOfOne(kind, a + b, c)
  {
    hide Candidates, Trim;
    if IsAliasOfOne(kind, a, c) {
      var h :| h in a && c in Candidates(kind, Trim(h));
      assert h in a + b;
    }
    if IsAliasOfOne(kind, b, c) {
      var h :| h in b && c in Candidates(kind, Trim(h));
      assert h in a + b;
    }
  }

  lemma TryLinkMeaning(s: State, user: string, kind: ChannelKind, raw: string)
    requires Inv(s) && user in s.users
    ensures var (s', linked) := TryLink(s, user, kind, raw);
            && Inv(s') && user in s'.users
            && GainsOnly(s, s', user, kind, if linked then [raw] else [])
            && (linked <==> Trim(raw) != "" && ResolveByChannel(s, kind, Trim(raw)) == None)
            && (linked ==> ResolveByChannel(s', kind, Trim(raw)) == Some(user))
  {
    hide Trim, Candidates, ResolveByChannel, LinkChannel, Inv, Grows, OwnsAll, TryLink, GainsOnly, OwnersRegistered;
    var (s', linked) := TryLink(s, user, kind, raw);
    var h := Trim(raw);
    TryLinkKeeps(s, user, kind, raw);
    InvOwners(s);
    if linked {
      assert Trim(h) == h by { TrimTwice(raw); }
      OwnedAliasResolves(s', user, kind, h, h);
      NobodyOwnsNothing(s, kind, h);
      LinkedRows(s, user, kind, raw);
    } else {
      assert s' == s by { UnlinkedIsSame(s, user, kind, raw); }
      NoGain(s, user, kind);
    }
  }

  lemma InvOwners(s: State)
    requires Inv(s)
    ensures OwnersRegistered(s)
  {
  }

  lemma UnlinkedIsSame(s: State, user: string, kind: ChannelKind, raw: string)
    requires user in s.users && !TryLink(s, user, kind, raw).1
    ensures TryLink(s, user, kind, raw).0 == s
  {
    hide Trim, ResolveByChannel, LinkChannel;
    var h := Trim(raw);
    if h != "" && ResolveByChannel(s, kind, h).None? {
      TryLinkNeverConflicts(s, user, KindName(kind) + ":" + h, kind, h);
    }
  }

  lemma NoGain(s: State, user: string, kind: ChannelKind)
    ensures GainsOnly(s, s, user, kind, [])
  {
  }

  lemma LinkedRows(s: State, user: string, kind: ChannelKind, raw: string)
    requires OwnersRegistered(s) && user in s.users && TryLink(s, user, kind, raw).1
    requires forall c :: c in Candidates(kind, Trim(raw)) ==> RowOwner(s, kind, c) == None
    ensures GainsOnly(s, TryLink(s, user, kind, raw).0, user, kind, [raw])
  {
    hide Trim, Candidates, ResolveByChannel, LinkChannel, RowOwner, OwnersRegistered;
    var h := Trim(raw);
    var id := KindName(kind) + ":" + h;
    assert raw in [raw];
    forall k, c
      ensures var s' := LinkChannel(s, user, id, kind, h).0;
              RowOwner(s', k, c) != RowOwner(s, k, c) ==>
                RowOwner(s', k, c) == Some(user) && k == kind && c in Candidates(kind, h)
    {
      LinkRows(s, user, id, kind, h, k, c);
    }
  }

  /** Linking handles for a user wins rows for nobody else and touches only aliases of the handles it reports;
      it reports handles that resolved to nobody, and each handle that did so resolves to the user afterwards. */
  lemma {:induction false} AutoLinkMeaning(s: State, user: string, kind: ChannelKind, handles: seq<string>, h: string)
    requires Inv(s) && user in s.users
    ensures var (s', linked) := AutoLink(s, user, kind, handles);
            && Inv(s') && GainsOnly(s, s', user, kind, linked)
            && (h in linked ==> h in handles && Trim(h) != "" && ResolveByChannel(s, kind, Trim(h)) == None)
            && (h in handles && Trim(h) != "" && ResolveByChannel(s, kind, Trim(h)) == None ==>
                  ResolveByChannel(s', kind, Trim(h)) == Some(user))
    decreases |handles|
  {
    hide Trim, ResolveByChannel, Inv, TryLink, GainsOnly, OwnersRegistered;
    if handles == [] {
      NoGain(s, user, kind);
    } else {
      var (s1, linked) := TryLink(s, user, kind, handles[0]);
      TryLinkMeaning(s, user, kind, handles[0]);
      AutoLinkMeaning(s1, user, kind, handles[1..], h);
      var (s2, rest) := AutoLink(s1, user, kind, handles[1..]);
      InvOwners(s);
      InvOwners(s1);
      InvOwners(s2);
      var first := if linked then [handles[0]] else [];
      GainsCompose(s, s1, s2, user, kind, first, rest);
      StaysResolved(s, s1, user, kind, first, Trim(h));
      StaysResolved(s1, s2, user, kind, rest, Trim(h));
      if ResolveByChannel(s, kind, Trim(h)) == None {
        WonByUser(s, s2, user, kind, first + rest, Trim(h));
      }
      assert AutoLink(s, user, kind, handles).1 == first + rest;
      assert h in handles ==> h == handles[0] || h in handles[1..];
    }
  }

  /** A handle the caller authenticated with: the username or the email, trimmed. */
  predicate IsOwnHandle(caller: Caller, h: string) {
    h != "" && ((caller.username.Some? && h == Trim(caller.username.value))
                || (caller.email.Some? && h == Trim(caller.email.value)))
  }

  lemma OwnHandles(caller: Caller, h: string)
    ensures h in AuthenticatedWebHandles(caller) <==> IsOwnHandle(caller, h)
  {
    hide Trim;
  }

  /** A signed web request links for the owner of the device exactly those of the caller's own handles that resolved to
      nobody when their turn came: all of those resolve to the owner afterwards, only they are reported, the username
      if it resolved to nobody at all, and no other row changes. */
  lemma SignedWebRequestLinks(crypto: Crypto, s: State, caller: Caller, claim: Claim, h: string)
    requires Inv(s) && IsKnown(s, claim.device) && IsSigned(crypto, s, claim)
    ensures var (s', r) := ResolveWeb(crypto, s, caller, Some(claim));
            var owner := s.devices[claim.device].owner;
            && s' == s.(channels := s'.channels) && GainsOnly(s, s', owner, WebChat, r.linkedHandles)
            && (h in r.linkedHandles ==> IsOwnHandle(caller, h) && ResolveByChannel(s, WebChat, h) == None)
            && (IsOwnHandle(caller, h) && ResolveByChannel(s, WebChat, h) == None ==>
                  ResolveByChannel(s', WebChat, h) == Some(owner))
            && (caller.username.Some? && Trim(caller.username.value) == h != "" ==>
                  (h in r.linkedHandles <==> ResolveByChannel(s, WebChat, h) == None))
  {
    hide ResolveByClaim, FirstResolved, AuthenticatedWebHandles, WebHandles, AnswersClaim, AutoLink, Inv, Trim,
         GainsOnly, ResolveByChannel, IsOwnHandle;
    var handles := AuthenticatedWebHandles(caller);
    var owner := s.devices[claim.device].owner;
    ClaimAnswer(crypto, s, claim, AuthTrust(caller.auth), WebChat, handles);
    AutoLinkMeaning(s, owner, WebChat, handles, h);
    OwnHandles(caller, h);
    if IsOwnHandle(caller, h) {
      OwnIsTrimmed(caller, h);
    }
    if h in handles {
      OwnIsTrimmed(caller, h);
    }
    if caller.username.Some? && Trim(caller.username.value) == h != "" {
      UsernameFirst(caller);
      FirstIsLinked(s, owner, WebChat, handles);
      TrimTwice(caller.username.value);
    }
  }

  lemma OwnIsTrimmed(caller: Caller, h: string)
    requires IsOwnHandle(caller, h)
    ensures Trim(h) == h && h != ""
  {
    if caller.username.Some? {
      TrimTwice(caller.username.value);
    }
    if caller.email.Some? {
      TrimTwice(caller.email.value);
    }
  }

  lemma UsernameFirst(caller: Caller)
    requires caller.username.Some? && Trim(caller.username.value) != ""
    ensures AuthenticatedWebHandles(caller) != [] && AuthenticatedWebHandles(caller)[0] == Trim(caller.username.value)
  {
    hide Trim;
  }

  lemma FirstIsLinked(s: State, user: string, kind: ChannelKind, handles: seq<string>)
    requires Inv(s) && user in s.users && handles != []
    ensures Trim(handles[0]) != "" && ResolveByChannel(s, kind, Trim(handles[0])) == None ==>
              handles[0] in AutoLink(s, user, kind, handles).1
  {
    hide TryLink, Trim, ResolveByChannel, Inv;
    TryLinkMeaning(s, user, kind, handles[0]);
    assert handles[0] in [handles[0]];
  }

  /** A signed message links its sender's handle for the owner of the device, exactly if it resolved to nobody. */
  lemma SignedMessageLinks(crypto: Crypto, s: State, message: Message, claim: Claim)
    requires Inv(s) && message.claim == Some(claim) && IsKnown(s, claim.device) && IsSigned(crypto, s, claim)
    ensures var (s', r) := ResolveMessage(crypto, s, message);
            var owner := s.devices[claim.device].owner;
            && s' == s.(channels := s'.channels) && GainsOnly(s, s', owner, message.kind, r.linkedHandles)
            && r.linkedHandles ==
                 (if message.user.Some? && Trim(message.user.value) != ""
                     && ResolveByChannel(s, message.kind, Trim(message.user.value)) == None
                  then [message.user.value] else [])
            && (r.linkedHandles != [] ==> ResolveByChannel(s', message.kind, Trim(message.user.value)) == Some(owner))
  {
    hide ResolveByClaim, FirstResolved, ChannelHandles, AnswersClaim, AutoLink, Inv, Trim, GainsOnly, ResolveByChannel;
    var handles := OwnHandle(message);
    var owner := s.devices[claim.device].owner;
    ClaimAnswer(crypto, s, claim, message.trust, message.kind, handles);
    if message.user.Some? {
      AutoLinkMeaning(s, owner, message.kind, handles, message.user.value);
      LinkOne(s, owner, message.kind, message.user.value);
    } else {
      AutoLinkMeaning(s, owner, message.kind, handles, "");
      assert AutoLink(s, owner, message.kind, []).1 == [] by { NothingToLink(s, owner, message.kind); }
    }
  }

  lemma LinkOne(s: State, user: string, kind: ChannelKind, raw: string)
    requires Inv(s) && user in s.users
    ensures AutoLink(s, user, kind, [raw]).1 ==
              if Trim(raw) != "" && ResolveByChannel(s, kind, Trim(raw)) == None then [raw] else []
  {
    hide TryLink, Trim, ResolveByChannel, Inv;
    TryLinkMeaning(s, user, kind, raw);
    NothingToLink(TryLink(s, user, kind, raw).0, user, kind);
    assert [raw][1..] == [];
  }

  // ---------- lookup by handles ----------

  lemma {:induction false} FirstResolvedMeaning(s: State, kind: ChannelKind, handles: seq<string>)
    ensures var r := FirstResolved(s, kind, handles);
            if r == None then forall h :: h in handles ==> ResolveByChannel(s, kind, h) == None
            else exists h :: h in handles && ResolveByChannel(s, kind, h) == r
    ensures handles != [] && ResolveByChannel(s, kind, handles[0]) != None ==>
              FirstResolved(s, kind, handles) == ResolveByChannel(s, kind, handles[0])
  {
    hide ResolveByChannel;
    if handles != [] {
      FirstResolvedMeaning(s, kind, handles[1..]);
      assert forall h :: h in handles <==> h == handles[0] || h in handles[1..];
    }
  }

  /** A text under which a web caller is looked up: the username or the email, or the local part of either. */
  ghost predicate IsWebSpelling(caller: Caller, h: string) {
    || (caller.username.Some? && IsSpellingOf(caller.username.value, h))
    || (caller.email.Some? && IsSpellingOf(caller.email.value, h))
  }

  ghost predicate IsSpellingOf(raw: string, h: string) {
    Spells(h, Trim(raw)) || EmailAlias(Trim(raw), h)
  }

  lemma WebHandlesMeaning(caller: Caller, h: string)
    ensures h in WebHandles(caller) <==> IsWebSpelling(caller, h)
  {
    hide Trim, BasicForms, EmailForms, EmailAlias, Spells;
    if caller.username.Some? {
      WebFormsMeaning(caller.username.value, h);
    }
    if caller.email.Some? {
      WebFormsMeaning(caller.email.value, h);
    }
  }

  lemma WebFormsMeaning(raw: string, h: string)
    ensures h in WebForms(raw) <==> IsSpellingOf(raw, h)
    ensures IsSpellingOf(raw, h) ==> h != "" && Trim(raw) != ""
  {
    hide Trim, BasicForms, EmailForms, IsBefore;
    BasicMeaning(raw, h);
    EmailMeaning(raw, h);
    SpellsNonempty(h, Trim(raw));
    if EmailAlias(Trim(raw), h) {
      var l :| IsBefore(Trim(raw), '@', l) && Spells(h, Trim(l));
      SpellsNonempty(h, Trim(l));
      BeforeNonempty(Trim(raw), '@', l);
    }
  }

  lemma BeforeNonempty(t: string, sep: char, a: string)
    requires IsBefore(t, sep, a)
    ensures t != ""
  {
  }

  /** How a resolution by handles is answered: with an owner of one of them, at channel trust at least,
      or with the sender's own word, at the trust it came with. */
  predicate AnswersHandles(found: Option<string>, own: Option<string>, named: bool, base: Trust, r: Identity) {
    && r.linkedHandles == []
    && if found.Some? then r.user == found && r.action == Proceed && IsLarger(r.trust, Channel, base)
       else r.user == own && r.trust == base && r.action == if named then ProceedReduced else RequirePairing
  }

  /** A web request without a device claim changes nothing. It is answered with the owner of a text it is looked up
      under, the username first, and with its own username exactly if nobody owns any of these texts. */
  lemma WebHandlesAnswer(crypto: Crypto, s: State, caller: Caller, base: Trust) returns (found: Option<string>)
    requires Grants(caller.auth, base)
    ensures ResolveWeb(crypto, s, caller, None).0 == s
    ensures AnswersHandles(found, caller.username, caller.username.Some? || caller.email.Some?, base,
                           ResolveWeb(crypto, s, caller, None).1)
    ensures if found == None then forall h :: IsWebSpelling(caller, h) ==> ResolveByChannel(s, WebChat, h) == None
            else exists h :: IsWebSpelling(caller, h) && ResolveByChannel(s, WebChat, h) == found
    ensures NonBlank(caller.username) && ResolveByChannel(s, WebChat, Trim(caller.username.value)) != None ==>
              found == ResolveByChannel(s, WebChat, Trim(caller.username.value))
  {
    hide ResolveByClaim, FirstResolved, AuthenticatedWebHandles, WebHandles, IsWebSpelling, ResolveByChannel, Trim;
    assert AuthTrust(caller.auth) == base;
    NoClaim(crypto, s, base, WebChat, AuthenticatedWebHandles(caller));
    found := FirstResolved(s, WebChat, WebHandles(caller));
    FirstResolvedMeaning(s, WebChat, WebHandles(caller));
    TrustMeaning(Channel, base);
    forall h
      ensures h in WebHandles(caller) <==> IsWebSpelling(caller, h)
    {
      WebHandlesMeaning(caller, h);
    }
    if NonBlank(caller.username) {
      WebHandlesHead(caller);
    }
  }

  // ---------- the handles of a message ----------

  /** The metadata entry names the sender on this kind of channel: a string under the key of the channel,
      or, for the numeric Telegram identifier, an integer. */
  predicate NamesSender(kind: ChannelKind, key: string, e: Entry) {
    || (kind == Telegram && key == "telegram_username" && e.Text?)
    || (kind == Telegram && key == "telegram_user_id")
    || (kind == WhatsApp && key == "whatsapp_from" && e.Text?)
    || (kind == Slack && key == "slack_user" && e.Text?)
    || (kind == Signal && key == "signal_source" && e.Text?)
    || (kind == Matrix && key == "matrix_sender" && e.Text?)
    || (kind == Discord && key == "discord_author_username" && e.Text?)
    || (kind == Teams && key == "teams_from_name" && e.Text?)
  }

  /** The message gives `raw` as its sender, in its metadata or as its user. */
  ghost predicate GivesSender(message: Message, raw: string) {
    || message.user == Some(raw)
    || exists key :: key in message.metadata && NamesSender(message.kind, key, message.metadata[key])
                     && message.metadata[key].text == raw
  }

  /** What is left of `t` without a prefix; here the rest may be empty. */
  ghost predicate IsRuntimeUnprefixed(t: string, u: string) {
    || (exists p :: RuntimePrefixed(t, p, u))
    || (u == t && forall p, v :: !RuntimePrefixed(t, p, v))
  }

  predicate RuntimePrefixed(t: string, p: string, u: string) {
    t == p + [':'] + u && forall i :: 0 <= i < |p| ==> PrefixChar(p[i])
  }

  /** A text under which the sender `raw` is looked up. */
  ghost predicate IsRuntimeSpelling(kind: ChannelKind, t: string, u: string, h: string) {
    var v := Trim(u);
    || Spells(h, t) || Spells(h, v)
    || match kind
       case Telegram | Discord => NameAlias(v, h)
       case WhatsApp | Signal => PhoneAlias(u, h)
       case Matrix => v != "" && MatrixAlias(v, h)
       case WebChat => EmailAlias(v, h)
       case Slack | Teams | IRC | IMessage | Custom(_) => false
  }

  ghost predicate IsMessageSpelling(message: Message, h: string) {
    exists raw, u :: GivesSender(message, raw) && IsRuntimeUnprefixed(Trim(raw), u)
                     && IsRuntimeSpelling(message.kind, Trim(raw), u, h)
  }

  lemma RuntimeUnprefixedMeaning(raw: string, u: string)
    ensures IsRuntimeUnprefixed(Trim(raw), u) <==> u == StripRuntimePrefix(Trim(raw))
  {
    hide SplitOnce, IsPrefixChar, PrefixChar, Trim;
    var t := Trim(raw);
    assert Trim(t) == t;
    assert forall c :: PrefixChar(c) <==> IsPrefixChar(c) by { PrefixCharsAgree(); }
    forall p, v
      ensures RuntimePrefixed(t, p, v) ==> SplitOnce(t, ':') == Some((p, v))
    {
      if RuntimePrefixed(t, p, v) {
        assert ':' !in p by { ColonIsNoPrefixChar(p); }
        SplitUnique(p, ':', v);
      }
    }
    var split := SplitOnce(t, ':');
    if split.Some? {
      var (p, v) := split.value;
      assert forall i :: 0 <= i < |p| ==> p[i] in p;
      assert RuntimePrefixed(t, p, v) <==> forall c | c in p :: IsPrefixChar(c);
    }
  }

  lemma RuntimeFormsMeaning(kind: ChannelKind, raw: string, h: string)
    ensures var t := Trim(raw); h in RuntimeForms(kind, raw) <==> IsRuntimeSpelling(kind, t, StripRuntimePrefix(t), h)
    ensures h in RuntimeForms(kind, raw) ==> h != ""
  {
    hide Trim, BasicForms, Spells, UsernameForms, PhonePair, MatrixForms, EmailForms, StripRuntimePrefix,
         NameAlias, PhoneAlias, MatrixAlias, EmailAlias;
    var t := Trim(raw);
    var u := StripRuntimePrefix(t);
    assert Trim(t) == t;
    BasicMeaning(t, h);
    BasicMeaning(u, h);
    UsernameMeaning(u, h);
    MatrixMeaning(u, h);
    EmailMeaning(u, h);
    PhonePairMeaning(u, h);
    ClosedRuntimeForms(u);
    SpellsNonempty(h, t);
    SpellsNonempty(h, Trim(u));
  }

  lemma PhonePairMeaning(u: string, h: string)
    ensures h in PhonePair(Digits(u)) <==> PhoneAlias(u, h)
    ensures h in PhonePair(Digits(u)) ==> h != ""
  {
  }

  lemma ClosedRuntimeForms(u: string)
    ensures "" !in UsernameForms(u) && "" !in MatrixForms(u) && "" !in EmailForms(u)
  {
    UsernameClosed(u);
    MatrixClosed(u);
    EmailClosed(u);
  }

  lemma {:induction false} MetadataHandlesMeaning(message: Message, keys: seq<(string, bool)>, values: seq<string>,
                                                  h: string)
    ensures h in MetadataHandles(message, keys, values) <==>
              || h in values
              || exists key :: key in keys && MetadataText(message, key).Some?
                               && h in RuntimeForms(message.kind, MetadataText(message, key).value)
    decreases |keys|
  {
    hide RuntimeForms, MetadataText;
    if keys != [] {
      var text := MetadataText(message, keys[0]);
      var values' := if text.Some? then AddAll(values, RuntimeForms(message.kind, text.value)) else values;
      MetadataHandlesMeaning(message, keys[1..], values', h);
      assert forall key :: key in keys <==> key == keys[0] || key in keys[1..];
      if text.Some? {
        RuntimeFormsMeaning(message.kind, text.value, h);
      }
    }
  }

  lemma KeysNameSender(message: Message, raw: string)
    ensures (exists key :: key in MetadataKeys(message.kind) && MetadataText(message, key) == Some(raw)) <==>
            exists key :: key in message.metadata && NamesSender(message.kind, key, message.metadata[key])
                          && message.metadata[key].text == raw
  {
    if key :| key in message.metadata && NamesSender(message.kind, key, message.metadata[key])
              && message.metadata[key].text == raw
    {
      var pair := (key, key == "telegram_user_id");
      assert pair in MetadataKeys(message.kind) by { KeyListed(message.kind, key, message.metadata[key]); }
      assert MetadataText(message, pair) == Some(raw);
    }
    if pair :| pair in MetadataKeys(message.kind) && MetadataText(message, pair) == Some(raw) {
      assert NamesSender(message.kind, pair.0, message.metadata[pair.0]) by {
        ListedKey(message.kind, pair, message.metadata[pair.0]);
      }
    }
  }

  lemma KeyListed(kind: ChannelKind, key: string, e: Entry)
    requires NamesSender(kind, key, e)
    ensures (key, key == "telegram_user_id") in MetadataKeys(kind) && (e.Text? || key == "telegram_user_id")
  {
    DifferentKeys();
    var pair := (key, key == "telegram_user_id");
    if kind == Telegram {
      assert MetadataKeys(kind)[0] == ("telegram_username", false);
      assert MetadataKeys(kind)[1] == ("telegram_user_id", true);
    } else if MetadataKeys(kind) != [] {
      assert MetadataKeys(kind)[0] == pair;
    }
  }

  lemma DifferentKeys()
    ensures "telegram_user_id" !in {"telegram_username", "whatsapp_from", "slack_user", "signal_source",
                                    "matrix_sender", "discord_author_username", "teams_from_name"}
  {
    var id := "telegram_user_id";
    assert |id| == 16 && |"telegram_username"| == 17 && |"whatsapp_from"| == 13 && |"slack_user"| == 10
           && |"signal_source"| == 13 && |"matrix_sender"| == 13 && |"discord_author_username"| == 23
           && |"teams_from_name"| == 15;
  }

  lemma ListedKey(kind: ChannelKind, pair: (string, bool), e: Entry)
    requires pair in MetadataKeys(kind) && (e.Text? || pair.1)
    ensures NamesSender(kind, pair.0, e)
  {
  }

  lemma ChannelHandlesMeaning(message: Message, h: string)
    ensures h in ChannelHandles(message) <==> IsMessageSpelling(message, h)
  {
    hide RuntimeForms, MetadataKeys, MetadataText, IsRuntimeSpelling, IsRuntimeUnprefixed, StripRuntimePrefix, Trim,
         NamesSender, MetadataHandles;
    MetadataHandlesMeaning(message, MetadataKeys(message.kind), [], h);
    forall raw
      ensures (exists u :: IsRuntimeUnprefixed(Trim(raw), u) && IsRuntimeSpelling(message.kind, Trim(raw), u, h)) <==>
              h in RuntimeForms(message.kind, raw)
      ensures h in RuntimeForms(message.kind, raw) ==> h != ""
    {
      RuntimeFormsMeaning(message.kind, raw, h);
      RuntimeUnprefixedMeaning(raw, StripRuntimePrefix(Trim(raw)));
      forall u
        ensures IsRuntimeUnprefixed(Trim(raw), u) ==> u == StripRuntimePrefix(Trim(raw))
      {
        RuntimeUnprefixedMeaning(raw, u);
      }
    }
    forall raw
      ensures GivesSender(message, raw) <==>
              message.user == Some(raw)
              || exists key :: key in MetadataKeys(message.kind) && MetadataText(message, key) == Some(raw)
    {
      KeysNameSender(message, raw);
    }
    hide GivesSender;
    if IsMessageSpelling(message, h) {
      var raw, u :| GivesSender(message, raw) && IsRuntimeUnprefixed(Trim(raw), u)
                    && IsRuntimeSpelling(message.kind, Trim(raw), u, h);
      assert h in RuntimeForms(message.kind, raw);
    }
    if h in ChannelHandles(message) {
      if message.user.Some? && h in RuntimeForms(message.kind, message.user.value) {
        assert GivesSender(message, message.user.value);
      } else {
        var key :| key in MetadataKeys(message.kind) && MetadataText(message, key).Some?
                   && h in RuntimeForms(message.kind, MetadataText(message, key).value);
        assert GivesSender(message, MetadataText(message, key).value);
      }
    }
  }

  lemma {:induction false} MetadataKeeps(message: Message, keys: seq<(string, bool)>, values: seq<string>)
    ensures values <= MetadataHandles(message, keys, values)
    decreases |keys|
  {
    hide RuntimeForms, MetadataText;
    if keys != [] {
      var text := MetadataText(message, keys[0]);
      MetadataKeeps(message, keys[1..],
                    if text.Some? then AddAll(values, RuntimeForms(message.kind, text.value)) else values);
    }
  }

  lemma RuntimeFormsHead(kind: ChannelKind, raw: string)
    requires Trim(raw) != ""
    ensures [Trim(raw)] <= AddAll([], RuntimeForms(kind, raw))
  {
    hide Trim, StripRuntimePrefix, UsernameForms, PhonePair, MatrixForms, WebForms;
    var t := Trim(raw);
    var forms := RuntimeForms(kind, raw);
    assert Trim(t) == t;
    assert forms[0] == t;
    assert AddUnique([], t) == [t];
    assert AddAll([], forms) == AddAll([t], forms[1..]);
  }

  /** The named metadata entry, for Telegram the username, heads the list of handles. */
  lemma MetadataFirst(message: Message, key: string)
    requires key in message.metadata && NamesSender(message.kind, key, message.metadata[key])
    requires key != "telegram_user_id"
    requires Trim(message.metadata[key].text) != ""
    ensures [Trim(message.metadata[key].text)] <= ChannelHandles(message)
  {
    hide Trim, RuntimeForms, NamesSender;
    var raw := message.metadata[key].text;
    var keys := MetadataKeys(message.kind);
    KeyFirst(message.kind, key, message.metadata[key]);
    hide MetadataKeys;
    assert MetadataText(message, keys[0]) == Some(raw);
    var first := AddAll([], RuntimeForms(message.kind, raw));
    assert MetadataHandles(message, keys, []) == MetadataHandles(message, keys[1..], first);
    MetadataKeeps(message, keys[1..], first);
    RuntimeFormsHead(message.kind, raw);
  }

  lemma KeyFirst(kind: ChannelKind, key: string, e: Entry)
    requires NamesSender(kind, key, e) && key != "telegram_user_id"
    ensures MetadataKeys(kind) != [] && MetadataKeys(kind)[0] == (key, false) && e.Text?
  {
  }

  /** A message without a device claim changes nothing. It is answered with the owner of a text its sender is looked up
      under, the one in its metadata first, and with its own user exactly if nobody owns any of these texts. */
  lemma MessageHandlesAnswer(crypto: Crypto, s: State, message: Message) returns (found: Option<string>)
    requires message.claim == None
    ensures ResolveMessage(crypto, s, message).0 == s
    ensures AnswersHandles(found, message.user, message.user.Some?, message.trust, ResolveMessage(crypto, s, message).1)
    ensures if found == None
            then forall h :: IsMessageSpelling(message, h) ==> ResolveByChannel(s, message.kind, h) == None
            else exists h :: IsMessageSpelling(message, h) && ResolveByChannel(s, message.kind, h) == found
    ensures forall key :: key in message.metadata && NamesSender(message.kind, key, message.metadata[key])
                          && key != "telegram_user_id" && Trim(message.metadata[key].text) != "" ==>
              var r := ResolveByChannel(s, message.kind, Trim(message.metadata[key].text)); r != None ==> found == r
  {
    hide ResolveByClaim, FirstResolved, ChannelHandles, OwnHandle, IsMessageSpelling, ResolveByChannel, NamesSender,
         Trim;
    NoClaim(crypto, s, message.trust, message.kind, OwnHandle(message));
    found := FirstResolved(s, message.kind, ChannelHandles(message));
    FirstResolvedMeaning(s, message.kind, ChannelHandles(message));
    TrustMeaning(Channel, message.trust);
    forall h
      ensures h in ChannelHandles(message) <==> IsMessageSpelling(message, h)
    {
      ChannelHandlesMeaning(message, h);
    }
    forall key | key in message.metadata && NamesSender(message.kind, key, message.metadata[key])
                 && key != "telegram_user_id" && Trim(message.metadata[key].text) != ""
      ensures var r := ResolveByChannel(s, message.kind, Trim(message.metadata[key].text)); r != None ==> found == r
    {
      MetadataFirst(message, key);
    }
  }
}
