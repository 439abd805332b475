/** Letter case never decides who a handle resolves to, except after a Teams prefix. */
module SpellingTheorems {
  import opened Wrappers
  import opened Text
  import opened Handles
  import opened Directory
  import opened IdentityTheorems

  // ---------- lowercasing commutes with the string primitives ----------

  lemma LowerSlice(s: string, i: nat, j: nat)
    requires i <= j <= |s|
    ensures Lower(s)[i..j] == Lower(s[i..j])
  {
  }

  lemma {:induction false} TrimStartLower(s: string)
    ensures TrimStart(Lower(s)) == Lower(TrimStart(s))
  {
    if s != "" && IsWhitespace(s[0]) {
      assert Lower(s)[1..] == Lower(s[1..]);
      TrimStartLower(s[1..]);
    }
  }

  lemma {:induction false} TrimEndLower(s: string)
    ensures TrimEnd(Lower(s)) == Lower(TrimEnd(s))
  {
    if s != "" && IsWhitespace(s[|s| - 1]) {
      assert Lower(s)[..|s| - 1] == Lower(s[..|s| - 1]);
      TrimEndLower(s[..|s| - 1]);
    }
  }

  lemma TrimLower(s: string)
    ensures Trim(Lower(s)) == Lower(Trim(s))
  {
    TrimStartLower(s);
    TrimEndLower(TrimStart(s));
  }

  predicate CaseFree(c: char) { !('a' <= c <= 'z') && !('A' <= c <= 'Z') }

  function LowerPair(o: Option<(string, string)>): Option<(string, string)> {
    match o case None => None case Some((a, b)) => Some((Lower(a), Lower(b)))
  }

  lemma LowerCons(c: char, s: string)
    ensures Lower([c] + s) == [LowerChar(c)] + Lower(s)
  {
  }

  lemma {:induction false} SplitLower(s: string, sep: char)
    requires CaseFree(sep)
    ensures SplitOnce(Lower(s), sep) == LowerPair(SplitOnce(s, sep))
  {
    hide Lower;
    if s != "" {
      var c, rest := s[0], s[1..];
      assert s == [c] + rest;
      LowerCons(c, rest);
      assert Lower(s)[1..] == Lower(rest);
      SplitLower(rest, sep);
      if c != sep && SplitOnce(rest, sep).Some? {
        LowerCons(c, SplitOnce(rest, sep).value.0);
      }
    }
  }

  lemma {:induction false} TrimStartCharLower(s: string, c: char)
    requires CaseFree(c)
    ensures TrimStartChar(Lower(s), c) == Lower(TrimStartChar(s, c))
  {
    if s != "" && s[0] == c {
      assert Lower(s)[1..] == Lower(s[1..]);
      TrimStartCharLower(s[1..], c);
    }
  }

  lemma BracketsLower(s: string)
    ensures StripBrackets(Lower(s), "<@", '>') ==
            match StripBrackets(s, "<@", '>') case None => None case Some(inner) => Some(Lower(inner))
  {
    var l := Lower(s);
    if |s| > 2 {
      assert "<@" <= s <==> s[0] == '<' && s[1] == '@';
      assert "<@" <= l <==> l[0] == '<' && l[1] == '@';
      LowerSlice(s, 2, |s| - 1);
    }
  }

  lemma StripChannelPrefixLower(raw: string)
    ensures StripChannelPrefix(Lower(raw)) == Lower(StripChannelPrefix(raw))
  {
    hide Trim, Lower, SplitOnce;
    TrimLower(raw);
    SplitLower(Trim(raw), ':');
    if SplitOnce(Trim(raw), ':').Some? {
      PrefixCharsLower(SplitOnce(Trim(raw), ':').value.0);
      LowerEmpty(SplitOnce(Trim(raw), ':').value.1);
    }
  }

  lemma LowerEmpty(s: string)
    ensures Lower(s) == "" <==> s == ""
  {
  }

  lemma PrefixCharsLower(p: string)
    ensures (forall c | c in Lower(p) :: IsPrefixChar(c)) <==> (forall c | c in p :: IsPrefixChar(c))
  {
    if forall c | c in Lower(p) :: IsPrefixChar(c) {
      forall c | c in p ensures IsPrefixChar(c) {
        var i :| 0 <= i < |p| && p[i] == c;
        assert Lower(p)[i] in Lower(p);
      }
    }
    if forall c | c in p :: IsPrefixChar(c) {
      forall c | c in Lower(p) ensures IsPrefixChar(c) {
        var i :| 0 <= i < |p| && Lower(p)[i] == c;
        assert p[i] in p;
      }
    }
  }

  // ---------- the first owner of a form list ----------

  lemma {:induction false} FirstBoundConcat(s: State, kind: ChannelKind, a: seq<string>, b: seq<string>)
    ensures FirstBound(s, kind, a + b) == OrElse(FirstBound(s, kind, a), FirstBound(s, kind, b))
  {
    if a == [] {
      assert a + b == b;
    } else {
      assert (a + b)[1..] == a[1..] + b;
      FirstBoundConcat(s, kind, a[1..], b);
    }
  }

  lemma FirstBoundAddUnique(s: State, kind: ChannelKind, values: seq<string>, f: string)
    requires f != ""
    ensures FirstBound(s, kind, AddUnique(values, f)) == OrElse(FirstBound(s, kind, values), FindByChannel(s, kind, f))
  {
    hide FindByChannel;
    if f !in values {
      FirstBoundConcat(s, kind, values, [f]);
      assert FirstBound(s, kind, [f]) == OrElse(FindByChannel(s, kind, f), FirstBound(s, kind, []));
    }
  }

  /** Dropping repeated forms does not change the first owner. */
  lemma {:induction false} FirstBoundAddAll(s: State, kind: ChannelKind, values: seq<string>, forms: seq<string>)
    requires "" !in forms
    ensures FirstBound(s, kind, AddAll(values, forms)) ==
              OrElse(FirstBound(s, kind, values), FirstBound(s, kind, forms))
    decreases |forms|
  {
    hide FindByChannel;
    if forms != [] {
      var f, rest := forms[0], forms[1..];
      FirstBoundAddAll(s, kind, AddUnique(values, f), rest);
      FirstBoundAddUnique(s, kind, values, f);
    }
  }

  lemma ResolveByForms(s: State, kind: ChannelKind, handle: string)
    ensures ResolveByChannel(s, kind, handle) == FirstBound(s, kind, Forms(kind, handle))
  {
    hide Forms;
    FormsClosed(kind, handle);
    FirstBoundAddAll(s, kind, [], Forms(kind, handle));
  }

  /** Two form lists that lead to the same owner. */
  predicate Alike(s: State, kind: ChannelKind, a: seq<string>, b: seq<string>) {
    FirstBound(s, kind, a) == FirstBound(s, kind, b)
  }

  lemma AlikeConcat(s: State, kind: ChannelKind, a: seq<string>, a': seq<string>, b: seq<string>, b': seq<string>)
    requires Alike(s, kind, a, a') && Alike(s, kind, b, b')
    ensures Alike(s, kind, a + b, a' + b')
  {
    FirstBoundConcat(s, kind, a, b);
    FirstBoundConcat(s, kind, a', b');
  }

  lemma BasicAlike(s: State, kind: ChannelKind, raw: string)
    requires Inv(s)
    ensures Alike(s, kind, BasicForms(raw), BasicForms(Lower(raw)))
  {
    hide Trim, Lower;
    var t := Trim(raw);
    TrimLower(raw);
    LowerIdempotent(t);
    LowerEmpty(t);
    BasicOwner(s, kind, t);
    FindIsRowOwner(s, kind, Lower(t));
  }

  /** A basic form list leads to the owner of the lowercase spelling. */
  lemma BasicOwner(s: State, kind: ChannelKind, t: string)
    requires Inv(s)
    ensures FirstBound(s, kind, [t, Lower(t)]) == FindByChannel(s, kind, Lower(t)) == FirstBound(s, kind, [Lower(t)])
    ensures Lower(t) == t ==> FirstBound(s, kind, [t]) == FindByChannel(s, kind, Lower(t))
  {
    hide Lower;
    FindIsRowOwner(s, kind, t);
    FindIsRowOwner(s, kind, Lower(t));
    assert [t, Lower(t)][1..] == [Lower(t)];
    assert FirstBound(s, kind, [Lower(t)]) == FindByChannel(s, kind, Lower(t));
  }

  lemma UsernameAlike(s: State, kind: ChannelKind, raw: string)
    requires Inv(s)
    ensures Alike(s, kind, UsernameForms(raw), UsernameForms(Lower(raw)))
  {
    hide Trim, TrimStartChar, BasicForms, Inv, Alike;
    var t := TrimStartChar(Trim(raw), '@');
    TrimLower(raw);
    TrimStartCharLower(Trim(raw), '@');
    BasicAlike(s, kind, t);
    BasicAlike(s, kind, "@" + t);
    assert Lower("@" + t) == "@" + Lower(t);
    AlikeConcat(s, kind, BasicForms(t), BasicForms(Lower(t)), BasicForms("@" + t), BasicForms("@" + Lower(t)));
    AlikeReflexive(s, kind, []);
  }

  lemma AlikeReflexive(s: State, kind: ChannelKind, a: seq<string>)
    ensures Alike(s, kind, a, a)
  {
  }

  lemma PhoneAlike(s: State, kind: ChannelKind, raw: string)
    ensures PhoneForms(Lower(raw)) == PhoneForms(raw)
  {
    PhoneDigitsAreDigits(raw);
    PhoneDigitsAreDigits(Lower(raw));
    DigitsLower(raw);
  }

  lemma EmailAlike(s: State, kind: ChannelKind, raw: string)
    requires Inv(s)
    ensures Alike(s, kind, EmailForms(raw), EmailForms(Lower(raw)))
  {
    hide Trim, Lower, SplitOnce, BasicForms, Inv;
    TrimLower(raw);
    SplitLower(Trim(raw), '@');
    if SplitOnce(Trim(raw), '@').Some? {
      BasicAlike(s, kind, SplitOnce(Trim(raw), '@').value.0);
    }
  }

  lemma BracketedAlike(s: State, kind: ChannelKind, raw: string)
    requires Inv(s)
    ensures Alike(s, kind, BracketedForms(raw), BracketedForms(Lower(raw)))
  {
    hide Trim, Lower, StripBrackets, TrimStartChar, BasicForms, Inv;
    TrimLower(raw);
    BracketsLower(Trim(raw));
    var inner := StripBrackets(Trim(raw), "<@", '>');
    if inner.Some? {
      TrimStartCharLower(inner.value, '!');
      TrimStartCharLower(TrimStartChar(inner.value, '!'), '&');
      BasicAlike(s, kind, TrimStartChar(TrimStartChar(inner.value, '!'), '&'));
    }
  }

  lemma MatrixAlike(s: State, kind: ChannelKind, raw: string)
    requires Inv(s)
    ensures Alike(s, kind, MatrixForms(raw), MatrixForms(Lower(raw)))
  {
    hide Trim, Lower, SplitOnce, BasicForms, UsernameForms, Inv, Alike;
    var t := Trim(raw);
    TrimLower(raw);
    LowerEmpty(t);
    SplitLower(t, ':');
    var user := if SplitOnce(t, ':').Some? then SplitOnce(t, ':').value.0 else t;
    BasicAlike(s, kind, t);
    UsernameAlike(s, kind, user);
    AlikeConcat(s, kind, BasicForms(t), BasicForms(Lower(t)), UsernameForms(user), UsernameForms(Lower(user)));
    AlikeReflexive(s, kind, []);
  }

  lemma SlackAlike(s: State, kind: ChannelKind, u: string)
    requires Inv(s)
    ensures Alike(s, kind, SlackForms(u), SlackForms(Lower(u)))
  {
    hide BasicForms, UsernameForms, BracketedForms, Inv, Alike, StripSlackMention;
    var m := StripSlackMention(u);
    SlackMentionLower(u);
    BasicAlike(s, kind, m);
    UsernameAlike(s, kind, u);
    BracketedAlike(s, kind, u);
    AlikeConcat(s, kind, BracketedForms(u), BracketedForms(Lower(u)), UsernameForms(u), UsernameForms(Lower(u)));
    AlikeConcat(s, kind, BasicForms(m), BasicForms(Lower(m)),
                BracketedForms(u) + UsernameForms(u), BracketedForms(Lower(u)) + UsernameForms(Lower(u)));
  }

  lemma SlackMentionLower(u: string)
    ensures StripSlackMention(Lower(u)) == Lower(StripSlackMention(u))
  {
    hide Trim, Lower, StripBrackets;
    TrimLower(u);
    BracketsLower(Trim(u));
  }

  lemma CustomAlike(s: State, kind: ChannelKind, u: string)
    requires Inv(s)
    ensures Alike(s, kind, CustomForms(u), CustomForms(Lower(u)))
  {
    hide UsernameForms, PhoneForms, EmailForms, Inv, Alike;
    UsernameAlike(s, kind, u);
    PhoneAlike(s, kind, u);
    EmailAlike(s, kind, u);
    AlikeReflexive(s, kind, PhoneForms(u));
    AlikeConcat(s, kind, PhoneForms(u), PhoneForms(u), EmailForms(u), EmailForms(Lower(u)));
    AlikeConcat(s, kind, UsernameForms(u), UsernameForms(Lower(u)),
                PhoneForms(u) + EmailForms(u), PhoneForms(u) + EmailForms(Lower(u)));
  }

  lemma MentionAlike(s: State, kind: ChannelKind, u: string)
    requires Inv(s)
    ensures Alike(s, kind, MentionForms(u), MentionForms(Lower(u)))
  {
    hide UsernameForms, BracketedForms, Inv, Alike;
    UsernameAlike(s, kind, u);
    BracketedAlike(s, kind, u);
    AlikeConcat(s, kind, UsernameForms(u), UsernameForms(Lower(u)), BracketedForms(u), BracketedForms(Lower(u)));
  }

  lemma WebAlike(s: State, kind: ChannelKind, u: string)
    requires Inv(s)
    ensures Alike(s, kind, WebForms(u), WebForms(Lower(u)))
  {
    hide BasicForms, EmailForms, Inv, Alike;
    BasicAlike(s, kind, u);
    EmailAlike(s, kind, u);
    AlikeConcat(s, kind, BasicForms(u), BasicForms(Lower(u)), EmailForms(u), EmailForms(Lower(u)));
  }

  /** The `orgid:` prefixes are matched with their case; this says that no such prefix is there in another case only. */
  predicate TeamsPrefixCaseFree(u: string) {
    var t := Trim(u);
    ("8:orgid:" <= Lower(t) ==> "8:orgid:" <= t) && ("orgid:" <= Lower(t) ==> "orgid:" <= t)
  }

  lemma CaseFreePrefix(p: string, t: string)
    requires p <= Lower(t) && forall i :: 0 <= i < |p| ==> CaseFree(p[i])
    ensures p <= t
  {
    forall i | 0 <= i < |p|
      ensures t[i] == p[i]
    {
      assert Lower(t)[i] == p[i] && CaseFree(p[i]);
    }
  }

  lemma PrefixLower(p: string, t: string)
    requires Lower(p) == p && (p <= Lower(t) ==> p <= t)
    ensures p <= Lower(t) <==> p <= t
    ensures p <= t ==> Lower(t)[|p|..] == Lower(t[|p|..])
  {
    if p <= t {
      LowerSlice(t, 0, |p|);
      LowerSlice(t, |p|, |t|);
      assert t[..|p|] == p;
    }
  }

  lemma TeamsStripLower(u: string)
    requires TeamsPrefixCaseFree(u)
    ensures StripTeamsPrefix(Lower(u)) == Lower(StripTeamsPrefix(u))
  {
    var t := Trim(u);
    TrimLower(u);
    TeamsPrefixes(t);
    hide Trim, Lower;
    PrefixLower("8:orgid:", t);
    PrefixLower("8:", t);
    PrefixLower("29:", t);
    PrefixLower("orgid:", t);
  }

  lemma TeamsPrefixes(t: string)
    ensures Lower("8:orgid:") == "8:orgid:" && Lower("8:") == "8:"
    ensures Lower("29:") == "29:" && Lower("orgid:") == "orgid:"
    ensures ("8:" <= Lower(t) ==> "8:" <= t) && ("29:" <= Lower(t) ==> "29:" <= t)
  {
    if "8:" <= Lower(t) {
      CaseFreePrefix("8:", t);
    }
    if "29:" <= Lower(t) {
      CaseFreePrefix("29:", t);
    }
  }

  lemma TeamsAlike(s: State, kind: ChannelKind, u: string)
    requires Inv(s) && TeamsPrefixCaseFree(u)
    ensures Alike(s, kind, TeamsForms(u), TeamsForms(Lower(u)))
  {
    hide BasicForms, UsernameForms, EmailForms, StripTeamsPrefix, Inv, Alike;
    var t := StripTeamsPrefix(u);
    TeamsStripLower(u);
    BasicAlike(s, kind, t);
    UsernameAlike(s, kind, t);
    EmailAlike(s, kind, t);
    AlikeConcat(s, kind, UsernameForms(t), UsernameForms(Lower(t)), EmailForms(t), EmailForms(Lower(t)));
    AlikeConcat(s, kind, BasicForms(t), BasicForms(Lower(t)),
                UsernameForms(t) + EmailForms(t), UsernameForms(Lower(t)) + EmailForms(Lower(t)));
  }

  lemma KindAlike(s: State, kind: ChannelKind, u: string)
    requires Inv(s) && (kind.Teams? ==> TeamsPrefixCaseFree(u))
    ensures Alike(s, kind, KindForms(kind, u), KindForms(kind, Lower(u)))
  {
    hide MentionForms, PhoneForms, MatrixForms, SlackForms, TeamsForms, WebForms, CustomForms, Inv, Alike, Lower,
        TeamsPrefixCaseFree;
    match kind
    case Telegram | Discord | IRC => MentionAlike(s, kind, u);
    case WhatsApp | Signal | IMessage => PhoneAlike(s, kind, u); AlikeReflexive(s, kind, PhoneForms(u));
    case Matrix => MatrixAlike(s, kind, u);
    case Slack => SlackAlike(s, kind, u);
    case Teams => TeamsAlike(s, kind, u);
    case WebChat => WebAlike(s, kind, u);
    case Custom(_) => CustomAlike(s, kind, u);
  }

  /** In every state that satisfies the invariant, a handle and its lowercase resolve alike;
      on Teams, as long as the prefix is not one that only its lowercase matches. */
  lemma CaseNeverDecides(s: State, kind: ChannelKind, handle: string)
    requires Inv(s) && (kind.Teams? ==> TeamsPrefixCaseFree(StripChannelPrefix(Trim(handle))))
    ensures ResolveByChannel(s, kind, Lower(handle)) == ResolveByChannel(s, kind, handle)
  {
    hide ResolveByChannel, Trim, Lower, BasicForms, StripChannelPrefix, KindForms, Inv, Alike, TeamsPrefixCaseFree;
    var t := Trim(handle);
    var u := StripChannelPrefix(t);
    ResolveByForms(s, kind, handle);
    ResolveByForms(s, kind, Lower(handle));
    TrimLower(handle);
    LowerEmpty(t);
    StripChannelPrefixLower(t);
    BasicAlike(s, kind, t);
    BasicAlike(s, kind, u);
    KindAlike(s, kind, u);
    AlikeConcat(s, kind, BasicForms(u), BasicForms(Lower(u)), KindForms(kind, u), KindForms(kind, Lower(u)));
    AlikeConcat(s, kind, BasicForms(t), BasicForms(Lower(t)),
                BasicForms(u) + KindForms(kind, u), BasicForms(Lower(u)) + KindForms(kind, Lower(u)));
    AlikeOwners(s, kind, Forms(kind, handle), Forms(kind, Lower(handle)), t == "");
  }

  lemma AlikeOwners(s: State, kind: ChannelKind, a: seq<string>, b: seq<string>, bothEmpty: bool)
    requires if bothEmpty then a == b else Alike(s, kind, a, b)
    ensures FirstBound(s, kind, a) == FirstBound(s, kind, b)
  {
  }
}
