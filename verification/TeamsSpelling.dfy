/** Exactly which handles have a spelling whose case matters. */
module TeamsSpelling {
  import opened Wrappers
  import opened Text
  import opened Handles
  import opened Directory
  import opened IdentityTheorems
  import opened SpellingTheorems

  /** A Teams prefix in the wrong case is left in place, while its lowercase is stripped. */
  lemma WrongCase(u: string)
    requires !TeamsPrefixCaseFree(u)
    ensures var s := StripTeamsPrefix(u);
            && Trimmed(s) && |s| >= 6 && Lower(s)[0] == 'o'
            && StripTeamsPrefix(Lower(u)) == Lower(s)[6..]
            && (Lower(Trim(u))[0] == '8' || Lower(Trim(u))[0] == 'o')
  {
    var t := Trim(u);
    TrimLower(u);
    TeamsPrefixes(t);
    PrefixLower("8:", t);
    PrefixLower("29:", t);
    hide Trim;
    if "8:orgid:" <= Lower(t) {
      WrongCaseLong(t);
      assert Lower(t)[0] == '8';
    } else {
      WrongCaseShort(t);
    }
  }

  lemma WrongCaseLong(t: string)
    requires Trimmed(t) && "8:orgid:" <= Lower(t) && ("orgid:" <= Lower(t) ==> "orgid:" <= t)
    requires !("8:orgid:" <= t) && "8:" <= t
    ensures StripTeamsPrefix(t) == t[2..] && |t| >= 8 && Trimmed(t[2..]) && Lower(t[2..])[0] == 'o'
    ensures StripTeamsPrefix(Lower(t)) == Lower(t[2..])[6..]
  {
    hide Trim, Lower;
    LowerSlice(t, 2, |t|);
    assert Lower(t)[2] == 'o';
    assert Lower(t)[8..] == Lower(t)[2..][6..];
  }

  lemma NoDigitPrefix(s: string)
    requires s != "" && s[0] != '8' && s[0] != '2'
    ensures !("8:orgid:" <= s) && !("8:" <= s) && !("29:" <= s)
  {
    assert "8:orgid:"[0] == '8' && "8:"[0] == '8' && "29:"[0] == '2';
  }

  lemma WrongCaseShort(t: string)
    requires Trimmed(t) && "orgid:" <= Lower(t) && !("orgid:" <= t)
    requires !("8:orgid:" <= Lower(t))
    ensures StripTeamsPrefix(t) == t && |t| >= 6 && Lower(t)[0] == 'o'
    ensures StripTeamsPrefix(Lower(t)) == Lower(t)[6..]
  {
    hide Trim;
    assert Lower(t)[0] == 'o' && LowerChar(t[0]) == 'o';
    NoDigitPrefix(t);
    NoDigitPrefix(Lower(t));
    hide Lower;
  }

  lemma {:induction false} TrimStartShortens(s: string)
    ensures |TrimStart(s)| <= |s|
  {
    if s != "" && IsWhitespace(s[0]) {
      TrimStartShortens(s[1..]);
    }
  }

  lemma TrimShortens(s: string)
    ensures |Trim(s)| <= |s|
  {
    TrimStartShortens(s);
  }

  lemma {:induction false} TrimStartCharShortens(s: string, c: char)
    ensures |TrimStartChar(s, c)| <= |s|
  {
    if s != "" && s[0] == c {
      TrimStartCharShortens(s[1..], c);
    }
  }

  lemma BasicShort(raw: string, c: string)
    requires c in BasicForms(raw)
    ensures |c| == |Trim(raw)| <= |raw|
    ensures c == Trim(raw) || c == Lower(Trim(raw))
  {
    TrimShortens(raw);
  }

  /** The forms that Teams handles have beyond their literal spellings are hardly longer than what follows
      the prefix. */
  lemma TeamsFormsShort(u: string, c: string)
    requires c in TeamsForms(u)
    ensures |c| <= |StripTeamsPrefix(u)| + 1
  {
    hide BasicForms, StripTeamsPrefix, Trim, TrimStartChar, SplitOnce;
    var s := StripTeamsPrefix(u);
    TrimShortens(s);
    if c in BasicForms(s) {
      BasicShort(s, c);
    } else if c in UsernameForms(s) {
      var t := TrimStartChar(Trim(s), '@');
      TrimStartCharShortens(Trim(s), '@');
      if c in BasicForms(t) {
        BasicShort(t, c);
      } else {
        BasicShort("@" + t, c);
      }
    } else {
      var split := SplitOnce(Trim(s), '@');
      if split.Some? {
        BasicShort(split.value.0, c);
      }
    }
  }

  /** A trimmed handle that begins with '@' has no channel prefix to strip. */
  lemma NoAtSign(t: string)
    requires Trimmed(t) && t != "" && t[0] == '@'
    ensures StripChannelPrefix(t) == t
  {
    var split := SplitOnce(t, ':');
    if split.Some? {
      var prefix := split.value.0;
      assert prefix != "" by { assert t == prefix + [':'] + split.value.1; }
      assert prefix[0] == '@' && prefix[0] in prefix;
    }
  }

  /** The spelling that tells a wrongly cased handle from its lowercase. */
  function Witness(handle: string): string {
    "@" + Lower(StripTeamsPrefix(StripChannelPrefix(Trim(handle))))
  }

  lemma WitnessIsOneForm(handle: string)
    requires Trim(handle) != "" && !TeamsPrefixCaseFree(StripChannelPrefix(Trim(handle)))
    ensures Witness(handle) in Candidates(Teams, handle)
  {
    hide StripTeamsPrefix, StripChannelPrefix, TeamsPrefixCaseFree, Trim, EmailForms;
    var u := StripChannelPrefix(Trim(handle));
    var s := StripTeamsPrefix(u);
    WrongCase(u);
    assert Trim(s) == s && s[0] != '@';
    assert Trim(Trim(handle)) == Trim(handle);
    assert TrimStartChar(s, '@') == s;
    assert Lower("@" + s) == "@" + Lower(s);
    assert Trim("@" + s) == "@" + s;
    assert Witness(handle) in BasicForms("@" + s);
    assert Witness(handle) in UsernameForms(s);
    assert KindForms(Teams, u) == TeamsForms(u);
    assert Witness(handle) in TeamsForms(u);
  }

  /** The lowercase of a wrongly cased handle has no alias that begins with '@' and is that long. */
  lemma LongAliasIsNoFormOfLower(handle: string, c: string)
    requires Trim(handle) != "" && !TeamsPrefixCaseFree(StripChannelPrefix(Trim(handle)))
    requires |c| >= |Witness(handle)| && c[0] == '@'
    ensures c !in Candidates(Teams, Lower(handle))
  {
    hide StripTeamsPrefix, StripChannelPrefix, TeamsPrefixCaseFree, Trim, BasicForms, TeamsForms, Lower;
    var t := Trim(handle);
    var u := StripChannelPrefix(t);
    WrongCase(u);
    TrimLower(handle);
    LowerEmpty(t);
    StripChannelPrefixLower(t);
    assert Trim(Lower(t)) == Lower(t);
    TrimLower(u);
    LowerIdempotent(t);
    LowerIdempotent(Trim(u));
    if c in Forms(Teams, Lower(handle)) {
      assert KindForms(Teams, Lower(u)) == TeamsForms(Lower(u));
      if c in BasicForms(Lower(t)) {
        BasicShort(Lower(t), c);
        assert t[0] == '@';
        NoAtSign(t);
      } else if c in BasicForms(Lower(u)) {
        BasicShort(Lower(u), c);
      } else {
        TeamsFormsShort(Lower(u), c);
      }
      assert false;
    }
  }

  // ---------- linking the witness and nothing else that matters ----------

  /** A handle whose only aliases are itself and `w`: trimming goes on after the '@' is gone. */
  function Spaced(w: string): string { "@ " + w }

  lemma SpacedForms(w: string, c: string)
    requires Trimmed(w) && Lower(w) == w && w != "" && w[0] == '@'
    requires c in Candidates(Teams, Spaced(w))
    ensures c == w || c == Spaced(w)
  {
    hide Trim, StripTeamsPrefix, StripChannelPrefix, BasicForms, UsernameForms, EmailForms, Lower, Spaced;
    var l := Spaced(w);
    SpacedParts(w);
    assert KindForms(Teams, l) == BasicForms(l) + (UsernameForms(l) + EmailForms(l));
    if c in BasicForms(l) {
      BasicShort(l, c);
    } else if c in UsernameForms(l) {
      SpacedUsernameForms(w, c);
    } else {
      assert c in EmailForms(l);
      assert false by { NoEmailForms(l); }
    }
  }

  lemma SpacedUsernameForms(w: string, c: string)
    requires Trimmed(w) && Lower(w) == w && w != "" && w[0] == '@'
    requires c in UsernameForms(Spaced(w))
    ensures c == w || c == Spaced(w)
  {
    hide Trim, TrimStartChar, BasicForms, Lower, Spaced, StripTeamsPrefix, StripChannelPrefix;
    SpacedParts(w);
    if c in BasicForms(" " + w) {
      BasicShort(" " + w, c);
    } else {
      BasicShort(Spaced(w), c);
    }
  }

  lemma NoEmailForms(l: string)
    requires Trimmed(l) && l != "" && l[0] == '@'
    ensures EmailForms(l) == []
  {
    hide BasicForms;
    assert SplitOnce(l, '@').value.0 == "";
    EmptyHasNoForms();
  }

  lemma EmptyHasNoForms()
    ensures BasicForms("") == []
  {
  }

  lemma SpacedParts(w: string)
    requires Trimmed(w) && Lower(w) == w && w != "" && w[0] == '@'
    ensures var l := Spaced(w);
            && Trim(l) == l && Lower(l) == l && StripChannelPrefix(l) == l && StripTeamsPrefix(l) == l
            && TrimStartChar(l, '@') == " " + w && Trim(" " + w) == w && "@" + (" " + w) == l
  {
    hide StripChannelPrefix, StripTeamsPrefix, Trim, TrimStartChar;
    var l := Spaced(w);
    assert l[0] == '@' && Trimmed(l);
    assert Lower(l) == l by { SpacedIsLower(w); }
    NoAtSign(l);
    AtSignIsNoTeamsPrefix(l);
    DropSpace(w);
  }

  lemma SpacedIsLower(w: string)
    requires Lower(w) == w
    ensures Lower(Spaced(w)) == Spaced(w)
  {
    LowerCons(' ', w);
    LowerCons('@', " " + w);
    assert Spaced(w) == ['@'] + (" " + w);
  }

  lemma AtSignIsNoTeamsPrefix(l: string)
    requires Trimmed(l) && l != "" && l[0] == '@'
    ensures StripTeamsPrefix(l) == l
  {
    assert "8:orgid:"[0] == '8' && "8:"[0] == '8' && "29:"[0] == '2' && "orgid:"[0] == 'o';
  }

  lemma DropSpace(w: string)
    requires Trimmed(w) && w != "" && w[0] == '@'
    ensures TrimStartChar(Spaced(w), '@') == " " + w && Trim(" " + w) == w && "@" + (" " + w) == Spaced(w)
  {
    assert Spaced(w)[1..] == " " + w && (" " + w)[1..] == w;
    assert TrimStart(" " + w) == TrimStart(w) == w;
  }

  lemma SpacedListsIt(w: string)
    requires Trimmed(w) && Lower(w) == w && w != "" && w[0] == '@'
    ensures w in Candidates(Teams, Spaced(w))
  {
    hide Trim, StripTeamsPrefix, StripChannelPrefix, TrimStartChar, EmailForms;
    var l := Spaced(w);
    SpacedParts(w);
    assert KindForms(Teams, l) == TeamsForms(l);
    assert BasicForms(" " + w) == [w];
    assert w in UsernameForms(l);
    assert w in TeamsForms(l);
    assert w in Forms(Teams, l);
  }

  // ---------- one link on empty tables ----------

  /** Alice is registered and links a Teams handle. */
  function AliceLinks(handle: string): seq<Op> {
    [RegisterUser("alice", "Alice", Owner), Link("alice", "teams", Teams, handle)]
  }

  function AliceLinked(foreignKeys: bool, handle: string): State {
    LinkChannel(Register(EmptyState(foreignKeys), "alice", "Alice", Owner), "alice", "teams", Teams, handle).0
  }

  lemma AliceLinkedIsReached(crypto: Crypto, foreignKeys: bool, handle: string)
    ensures Admissible(crypto, EmptyState(foreignKeys), AliceLinks(handle))
    ensures StateAt(crypto, EmptyState(foreignKeys), AliceLinks(handle), 2) == AliceLinked(foreignKeys, handle)
  {
    hide LinkChannel, StateAt;
    var s0 := EmptyState(foreignKeys);
    StateAtNext(crypto, s0, AliceLinks(handle), 0);
    StateAtNext(crypto, s0, AliceLinks(handle), 1);
    assert StateAt(crypto, s0, AliceLinks(handle), 0) == s0 by { StartState(crypto, s0, AliceLinks(handle)); }
  }

  lemma StartState(crypto: Crypto, s: State, ops: seq<Op>)
    ensures StateAt(crypto, s, ops, 0) == s
  {
  }

  lemma AliceLinkedRows(foreignKeys: bool, handle: string, c: string)
    ensures FindByChannel(AliceLinked(foreignKeys, handle), Teams, c) ==
            if c in Candidates(Teams, handle) then Some("alice") else None
  {
    hide Candidates, Inv, LinkChannel;
    var s0 := EmptyState(foreignKeys);
    var s1 := Register(s0, "alice", "Alice", Owner);
    EmptyInv(foreignKeys);
    SameRows(s0, s1);
    LinkKeepsInv(s1, "alice", "teams", Teams, handle);
    AliceAlone(s1, handle);
    LinkRows(s1, "alice", "teams", Teams, handle, Teams, c);
    InvOwners(AliceLinked(foreignKeys, handle));
    FindIsRowOwner(AliceLinked(foreignKeys, handle), Teams, c);
  }

  lemma InvOwners(s: State)
    requires Inv(s)
    ensures OwnersRegistered(s)
  {
  }

  lemma AliceAlone(s: State, handle: string)
    requires s.channels == map[] && "alice" in s.users && Inv(s)
    ensures LinkChannel(s, "alice", "teams", Teams, handle).1.None? && OwnersRegistered(s)
    ensures forall k, h :: RowOwner(s, k, h) == None
  {
    hide Candidates;
  }

  lemma AliceLinkedResolves(foreignKeys: bool, handle: string, h: string)
    ensures ResolveByChannel(AliceLinked(foreignKeys, handle), Teams, h) ==
            if exists c :: c in Candidates(Teams, h) && c in Candidates(Teams, handle) then Some("alice") else None
  {
    hide Candidates, Inv, AliceLinked, FindByChannel;
    forall c
      ensures FindByChannel(AliceLinked(foreignKeys, handle), Teams, c) ==
              if c in Candidates(Teams, handle) then Some("alice") else None
    {
      AliceLinkedRows(foreignKeys, handle, c);
    }
  }

  // ---------- the condition ----------

  /** For every Teams handle with a prefix in the wrong case there is a run of two operations after which
      the handle resolves to a user and its lowercase to nobody. */
  lemma WrongCaseDecides(crypto: Crypto, foreignKeys: bool, handle: string)
    requires !TeamsPrefixCaseFree(StripChannelPrefix(Trim(handle)))
    ensures var ops := AliceLinks(Spaced(Witness(handle)));
            var s := StateAt(crypto, EmptyState(foreignKeys), ops, 2);
            && Admissible(crypto, EmptyState(foreignKeys), ops)
            && ResolveByChannel(s, Teams, handle) == Some("alice")
            && ResolveByChannel(s, Teams, Lower(handle)) == None
  {
    hide Candidates, TeamsPrefixCaseFree, StripChannelPrefix, Trim, ResolveByChannel, Lower, Witness,
         Admissible, StateAt, AliceLinked, AliceLinks, EmptyState, Spaced;
    var w := Witness(handle);
    var l := Spaced(w);
    assert Trim(handle) != "" by { EmptyIsCaseFree(); }
    WitnessIsTrimmedLower(handle);
    SpacedListsIt(w);
    WitnessIsOneForm(handle);
    AliceLinkedIsReached(crypto, foreignKeys, l);
    AliceLinkedResolves(foreignKeys, l, handle);
    AliceLinkedResolves(foreignKeys, l, Lower(handle));
    forall c | c in Candidates(Teams, l)
      ensures c !in Candidates(Teams, Lower(handle))
    {
      SpacedForms(w, c);
      SpacedIsLonger(w);
      LongAliasIsNoFormOfLower(handle, c);
    }
  }

  lemma SpacedIsLonger(w: string)
    ensures |Spaced(w)| > |w| && Spaced(w)[0] == '@'
  {
  }

  lemma EmptyIsCaseFree()
    ensures TeamsPrefixCaseFree(StripChannelPrefix(""))
  {
    assert StripChannelPrefix("") == "";
  }

  lemma WitnessIsTrimmedLower(handle: string)
    requires !TeamsPrefixCaseFree(StripChannelPrefix(Trim(handle)))
    ensures var w := Witness(handle); Trimmed(w) && Lower(w) == w && w != "" && w[0] == '@'
  {
    hide StripTeamsPrefix, StripChannelPrefix, Trim, TeamsPrefixCaseFree;
    var u := StripChannelPrefix(Trim(handle));
    WrongCase(u);
    LowerIdempotent(StripTeamsPrefix(u));
  }

  /** In every state of every run on empty tables the handle and its lowercase resolve alike. */
  ghost predicate AlwaysAlike(kind: ChannelKind, handle: string) {
    forall crypto, foreignKeys, ops, i: nat :: Admissible(crypto, EmptyState(foreignKeys), ops) && i <= |ops| ==>
      AlikeAt(StateAt(crypto, EmptyState(foreignKeys), ops, i), kind, handle)
  }

  predicate AlikeAt(s: State, kind: ChannelKind, handle: string) {
    ResolveByChannel(s, kind, Lower(handle)) == ResolveByChannel(s, kind, handle)
  }

  /** The case of a handle never decides whom it resolves to, in any reachable state, exactly if its kind is not Teams
      or it has no Teams prefix in the wrong case. */
  lemma CaseNeverDecidesIff(kind: ChannelKind, handle: string)
    ensures AlwaysAlike(kind, handle) <==> (kind.Teams? ==> TeamsPrefixCaseFree(StripChannelPrefix(Trim(handle))))
  {
    hide TeamsPrefixCaseFree, StripChannelPrefix, Trim, Inv, ResolveByChannel, Lower, Witness, Spaced,
         Admissible, StateAt, EmptyState, AliceLinks;
    if kind.Teams? && !TeamsPrefixCaseFree(StripChannelPrefix(Trim(handle))) {
      var nobody := Crypto(text => None, (key, signature, message) => None);
      WrongCaseDecides(nobody, false, handle);
      var ops := AliceLinks(Spaced(Witness(handle)));
      assert |ops| == 2 by { TwoOperations(Spaced(Witness(handle))); }
      assert !AlikeAt(StateAt(nobody, EmptyState(false), ops, 2), kind, handle);
    } else {
      forall crypto, foreignKeys, ops, i: nat | Admissible(crypto, EmptyState(foreignKeys), ops) && i <= |ops|
        ensures AlikeAt(StateAt(crypto, EmptyState(foreignKeys), ops, i), kind, handle)
      {
        EmptyInv(foreignKeys);
        RunKeepsInv(crypto, EmptyState(foreignKeys), ops, i, i);
        CaseNeverDecides(StateAt(crypto, EmptyState(foreignKeys), ops, i), kind, handle);
      }
    }
  }

  lemma TwoOperations(handle: string)
    ensures |AliceLinks(handle)| == 2
  {
  }

  // ---------- one such handle ----------

  const UPPER_HANDLE := "8:ORGID:x"

  lemma UpperHandleIsWrong()
    ensures !TeamsPrefixCaseFree(StripChannelPrefix(Trim(UPPER_HANDLE)))
  {
    hide SplitOnce, Trim;
    var eight, tail := ['8'], "ORGID:x";
    assert UPPER_HANDLE == eight + [':'] + tail;
    SplitUnique(eight, ':', tail);
    assert Trimmed(UPPER_HANDLE) && Trimmed(tail);
    assert StripChannelPrefix(UPPER_HANDLE) == tail;
    assert Lower(tail) == "orgid:x";
    assert "orgid:" <= Lower(tail);
    assert tail[0] == 'O' && "orgid:"[0] == 'o';
  }

  lemma LowerOfUpper()
    ensures Lower(UPPER_HANDLE) == "8:orgid:x"
  {
  }

  /** After two operations the Teams handle "8:ORGID:x" resolves to a user and "8:orgid:x" to nobody. */
  lemma TeamsCaseCanDecide(crypto: Crypto, foreignKeys: bool)
    ensures var ops := AliceLinks(Spaced(Witness(UPPER_HANDLE)));
            var s := StateAt(crypto, EmptyState(foreignKeys), ops, 2);
            && Admissible(crypto, EmptyState(foreignKeys), ops)
            && ResolveByChannel(s, Teams, UPPER_HANDLE) == Some("alice")
            && ResolveByChannel(s, Teams, "8:orgid:x") == None
  {
    hide Admissible, StateAt, ResolveByChannel, UPPER_HANDLE, AliceLinks, Spaced, Witness, EmptyState, Lower,
         TeamsPrefixCaseFree, StripChannelPrefix, Trim;
    LowerOfUpper();
    UpperHandleIsWrong();
    WrongCaseDecides(crypto, foreignKeys, UPPER_HANDLE);
  }
}
