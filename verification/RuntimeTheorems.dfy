/** Continuity of identity over every run that mixes management operations, web requests and inbound messages. */
module RuntimeTheorems {
  import opened Wrappers
  import opened Text
  import opened Handles
  import opened Directory
  import opened IdentityTheorems
  import opened RuntimeIdentity

  datatype Event = Manage(op: Op) | Web(caller: Caller, claim: Option<Claim>) | Inbound(message: Message)

  function After(crypto: Crypto, s: State, e: Event): State {
    match e
    case Manage(op) => Step(crypto, s, op).0
    case Web(caller, claim) => ResolveWeb(crypto, s, caller, claim).0
    case Inbound(message) => ResolveMessage(crypto, s, message).0
  }

  function StateBefore(crypto: Crypto, s: State, events: seq<Event>, i: nat): State
    requires i <= |events|
  {
    if i == 0 then s else After(crypto, StateBefore(crypto, s, events, i - 1), events[i - 1])
  }

  ghost predicate AdmissibleEvents(crypto: Crypto, s: State, events: seq<Event>) {
    forall i :: 0 <= i < |events| && events[i].Manage? ==>
      RegisteredUser(StateBefore(crypto, s, events, i), events[i].op)
  }

  /** The link that auto-linking attempts can never meet a conflict. */
  lemma TryLinkNeverConflicts(s: State, user: string, channelId: string, kind: ChannelKind, handle: string)
    requires ResolveByChannel(s, kind, handle).None?
    ensures LinkChannel(s, user, channelId, kind, handle).1 ==
            if Candidates(kind, handle) != [] && Refused(s, user) then Some(Database) else None
  {
    hide Candidates, BindAll;
  }

  lemma TryLinkKeeps(s: State, user: string, kind: ChannelKind, raw: string)
    requires Inv(s) && user in s.users
    ensures var (s', linked) := TryLink(s, user, kind, raw);
            && Inv(s') && Grows(s, s') && user in s'.users
            && (linked ==> OwnsAll(s', user, kind, Trim(raw)))
            && (linked ==> BoundUnder(s', user, ChannelIdOf(kind, Trim(raw)), kind, Trim(raw)))
    ensures TryLink(s, user, kind, raw).1 <==> Trim(raw) != "" && ResolveByChannel(s, kind, Trim(raw)).None?
  {
    hide Inv, Grows, OwnsAll, LinkChannel, ResolveByChannel, Trim;
    var handle := Trim(raw);
    SameRows(s, s);
    if handle != "" && !ResolveByChannel(s, kind, handle).Some? {
      var channelId := KindName(kind) + ":" + handle;
      TryLinkNeverConflicts(s, user, channelId, kind, handle);
      LinkKeepsInv(s, user, channelId, kind, handle);
      LinkTables(s, user, channelId, kind, handle);
      LinkedWhenRegistered(s, user, channelId, kind, handle);
      LinkedUnder(s, user, channelId, kind, handle);
    }
  }

  /** The name of a channel kind, a colon, and the handle. */
  function ChannelIdOf(kind: ChannelKind, handle: string): string {
    (match kind
     case WhatsApp => "whatsapp" case Telegram => "telegram" case Discord => "discord" case Slack => "slack"
     case Signal => "signal" case IMessage => "imessage" case Matrix => "matrix" case IRC => "irc"
     case WebChat => "webchat" case Teams => "teams" case Custom(name) => name)
    + ":" + handle
  }

  /** All aliases of the handle are bound to the user under this channel identifier. */
  ghost predicate BoundUnder(s: State, user: string, channelId: string, kind: ChannelKind, handle: string) {
    forall c :: c in Candidates(kind, handle) ==>
      (kind, c) in s.channels && s.channels[(kind, c)] == Binding(user, channelId)
  }

  lemma LinkedUnder(s: State, user: string, channelId: string, kind: ChannelKind, handle: string)
    ensures var (s', e) := LinkChannel(s, user, channelId, kind, handle);
            e == None ==> BoundUnder(s', user, channelId, kind, handle)
  {
    hide Candidates, BindAll, Conflicts;
    forall c
      ensures c in Candidates(kind, handle) ==>
                var r := BindAll(s.channels, user, channelId, kind, Candidates(kind, handle));
                (kind, c) in r && r[(kind, c)] == Binding(user, channelId)
    {
      BindAllRow(s.channels, user, channelId, kind, Candidates(kind, handle), kind, c);
    }
  }

  lemma LinkedWhenRegistered(s: State, user: string, channelId: string, kind: ChannelKind, handle: string)
    requires Inv(s) && LinkChannel(s, user, channelId, kind, handle).1.None?
    ensures OwnsAll(LinkChannel(s, user, channelId, kind, handle).0, user, kind, handle)
  {
    hide LinkChannel, OwnsAll;
    LinkOwnsAll(s, user, channelId, kind, handle);
  }

  lemma {:induction false} AutoLinkKeeps(s: State, user: string, kind: ChannelKind, handles: seq<string>, h: string)
    requires Inv(s) && user in s.users
    ensures var (s', linked) := AutoLink(s, user, kind, handles);
            && Inv(s') && Grows(s, s')
            && (h in linked ==> h in handles && OwnsAll(s', user, kind, Trim(h)))
    decreases |handles|
  {
    hide Inv, Grows, OwnsAll, TryLink, Trim;
    SameRows(s, s);
    if handles != [] {
      var (s1, linked) := TryLink(s, user, kind, handles[0]);
      TryLinkKeeps(s, user, kind, handles[0]);
      AutoLinkKeeps(s1, user, kind, handles[1..], h);
      var (s2, rest) := AutoLink(s1, user, kind, handles[1..]);
      GrowsTransitive(s, s1, s2);
      if linked {
        OwnsAllRows(s1, s2, user, kind, Trim(handles[0]));
      }
    }
  }

  lemma ClaimKeeps(crypto: Crypto, s: State, claim: Option<Claim>, base: Trust, kind: ChannelKind,
                   handles: seq<string>, h: string)
    requires Inv(s)
    ensures var (s', r) := ResolveByClaim(crypto, s, claim, base, kind, handles);
            && Inv(s') && Grows(s, s')
            && (r.Some? && h in r.value.linkedHandles ==>
                  r.value.user.Some? && h in handles && OwnsAll(s', r.value.user.value, kind, Trim(h)))
  {
    hide Inv, Grows, OwnsAll, AutoLink, Trim;
    SameRows(s, s);
    if claim.Some? {
      var resolved := ResolveFromDevice(crypto, s, claim.value);
      if resolved.action.Proceed? {
        AutoLinkKeeps(s, resolved.user.value, kind, handles, h);
      }
    }
  }

  lemma EventKeeps(crypto: Crypto, s: State, e: Event)
    requires Inv(s) && (e.Manage? ==> RegisteredUser(s, e.op))
    ensures Inv(After(crypto, s, e)) && Grows(s, After(crypto, s, e))
  {
    hide Inv, Grows, Step, ResolveByClaim, FirstResolved, AuthenticatedWebHandles, WebHandles, ChannelHandles;
    SameRows(s, s);
    match e
    case Manage(op) => StepKeepsInv(crypto, s, op);
    case Web(caller, claim) =>
      ClaimKeeps(crypto, s, claim, AuthTrust(caller.auth), WebChat, AuthenticatedWebHandles(caller), "");
    case Inbound(message) => ClaimKeeps(crypto, s, message.claim, message.trust, message.kind, OwnHandle(message), "");
  }

  /** No event of a run, and in particular no resolution, changes the owner of a bound handle. */
  lemma {:induction false} EventsKeepOwners(crypto: Crypto, s: State, events: seq<Event>, i: nat, j: nat)
    requires Inv(s) && AdmissibleEvents(crypto, s, events) && i <= j <= |events|
    ensures Inv(StateBefore(crypto, s, events, i)) && Inv(StateBefore(crypto, s, events, j))
    ensures Grows(StateBefore(crypto, s, events, i), StateBefore(crypto, s, events, j))
  {
    hide After, Inv, Grows, RegisteredUser;
    if i == j {
      if j > 0 {
        EventsKeepOwners(crypto, s, events, j - 1, j - 1);
        EventKeeps(crypto, StateBefore(crypto, s, events, j - 1), events[j - 1]);
      }
      SameRows(StateBefore(crypto, s, events, i), StateBefore(crypto, s, events, i));
    } else {
      EventsKeepOwners(crypto, s, events, i, j - 1);
      var last := StateBefore(crypto, s, events, j - 1);
      EventKeeps(crypto, last, events[j - 1]);
      GrowsTransitive(StateBefore(crypto, s, events, i), last, StateBefore(crypto, s, events, j));
    }
  }

  lemma WebHandlesHead(caller: Caller)
    requires NonBlank(caller.username)
    ensures WebHandles(caller) != [] && WebHandles(caller)[0] == Trim(caller.username.value)
  {
    hide EmailForms, Trim;
    var name := Trim(caller.username.value);
    var forms := WebForms(caller.username.value);
    assert forms[0] == name;
    assert AddUnique([], name) == [name];
    assert [name] <= AddAll([name], forms[1..]);
    assert AddAll([], forms) == AddAll([name], forms[1..]);
  }

  /** A caller whose username a device-verified request reported as linked resolves to the same user ever after,
      without any device claim and whatever the email and the authentication method. */
  lemma LinkedCallerKeepsIdentity(crypto: Crypto, s: State, events: seq<Event>, i: nat, j: nat)
    requires Inv(s) && AdmissibleEvents(crypto, s, events) && i < j < |events|
    requires events[i].Web? && events[j].Web? && events[j].claim.None?
    requires NonBlank(events[i].caller.username) && events[j].caller.username == events[i].caller.username
    requires Trim(events[i].caller.username.value) in
             ResolveWeb(crypto, StateBefore(crypto, s, events, i), events[i].caller, events[i].claim).1.linkedHandles
    ensures var first := ResolveWeb(crypto, StateBefore(crypto, s, events, i), events[i].caller, events[i].claim).1;
            var later := ResolveWeb(crypto, StateBefore(crypto, s, events, j), events[j].caller, events[j].claim).1;
            first.user.Some? && later.user == first.user && later.action == Proceed
  {
    hide Inv, Grows, OwnsAll, Step, ResolveByClaim, Trim, AuthenticatedWebHandles, WebHandles, AdmissibleEvents,
        StateBefore, ResolveByChannel;
    var caller := events[i].caller;
    var name := Trim(caller.username.value);
    var a, b := StateBefore(crypto, s, events, i), StateBefore(crypto, s, events, j);
    EventsKeepOwners(crypto, s, events, i, i + 1);
    EventsKeepOwners(crypto, s, events, i + 1, j);
    StateBeforeNext(crypto, s, events, i);
    ClaimKeeps(crypto, a, events[i].claim, AuthTrust(caller.auth), WebChat, AuthenticatedWebHandles(caller), name);
    var user := ResolveWeb(crypto, a, caller, events[i].claim).1.user.value;
    TrimTwice(caller.username.value);
    OwnsAllRows(StateBefore(crypto, s, events, i + 1), b, user, WebChat, name);
    OwnedAliasResolves(b, user, WebChat, name, name);
    WebHandlesHead(events[j].caller);
    assert ResolveByClaim(crypto, b, None, AuthTrust(events[j].caller.auth), WebChat,
                          AuthenticatedWebHandles(events[j].caller)) == (b, None) by {
      NoClaim(crypto, b, AuthTrust(events[j].caller.auth), WebChat, AuthenticatedWebHandles(events[j].caller));
    }
  }

  lemma TrimTwice(s: string)
    ensures Trim(Trim(s)) == Trim(s)
  {
  }

  lemma NoClaim(crypto: Crypto, s: State, base: Trust, kind: ChannelKind, handles: seq<string>)
    ensures ResolveByClaim(crypto, s, None, base, kind, handles) == (s, None)
  {
  }

  lemma StateBeforeNext(crypto: Crypto, s: State, events: seq<Event>, i: nat)
    requires i < |events|
    ensures StateBefore(crypto, s, events, i + 1) == After(crypto, StateBefore(crypto, s, events, i), events[i])
  {
    hide After;
  }
}
