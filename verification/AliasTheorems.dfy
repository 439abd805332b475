/** Exactly which aliases a handle has, told from its text (crates/ngenorca-identity/src/resolver.rs). */
module AliasTheorems {
  import opened Wrappers
  import opened Text
  import opened Handles
  import opened Directory
  import opened IdentityTheorems

  // ---------- the parts of a text ----------

  /** `c` is the text itself or its lowercase; a blank text has no spelling. */
  predicate Spells(c: string, text: string) { text != "" && (c == text || c == Lower(text)) }

  predicate PrefixChar(c: char) {
    '0' <= c <= '9' || 'a' <= c <= 'z' || 'A' <= c <= 'Z' || c == '-' || c == '_'
  }

  /** `t` is a prefix of letters, digits, hyphens and underscores, a colon, and a rest. */
  predicate PrefixedBy(t: string, p: string, u: string) {
    t == p + [':'] + u && u != "" && forall i :: 0 <= i < |p| ==> PrefixChar(p[i])
  }

  /** What is left of `t` without its channel prefix, if it has one. */
  ghost predicate IsUnprefixed(t: string, u: string) {
    || (exists p :: PrefixedBy(t, p, u))
    || (u == t && forall p, v :: !PrefixedBy(t, p, v))
  }

  /** `x` is `t` without all its leading `mark`s. */
  predicate IsUnmarked(t: string, mark: char, x: string) {
    && |x| <= |t| && x == t[|t| - |x|..]
    && (forall i :: 0 <= i < |t| - |x| ==> t[i] == mark)
    && (x == "" || x[0] != mark)
  }

  /** The text inside an angle-bracketed mention. */
  predicate IsMentionOf(t: string, inner: string) { t == "<@" + inner + ">" }

  /** `a` is what precedes the first `sep` of `t`. */
  ghost predicate IsBefore(t: string, sep: char, a: string) { sep !in a && exists b :: t == a + [sep] + b }

  /** `s` is `t` without its Teams prefix, the longest one that fits. */
  ghost predicate IsTeamsTail(t: string, s: string) {
    || t == "8:orgid:" + s
    || (t == "8:" + s && !("orgid:" <= s))
    || t == "29:" + s
    || t == "orgid:" + s
    || (s == t && !("8:" <= t) && !("29:" <= t) && !("orgid:" <= t))
  }

  // ---------- what an alias is ----------

  /** A name without its '@'s, and that name with one. */
  ghost predicate NameAlias(t: string, c: string) {
    exists x :: IsUnmarked(t, '@', x) && x != "" && (Spells(c, Trim(x)) || Spells(c, "@" + x))
  }

  /** The identifier inside a mention, without exclamation marks and then without ampersands. */
  ghost predicate MentionAlias(t: string, c: string) {
    exists inner, y, m ::
      IsMentionOf(t, inner) && IsUnmarked(inner, '!', y) && IsUnmarked(y, '&', m) && Spells(c, Trim(m))
  }

  ghost predicate SlackAlias(t: string, c: string) {
    exists inner :: IsMentionOf(t, inner) && Spells(c, Trim(inner))
  }

  ghost predicate PhoneAlias(u: string, c: string) {
    Digits(u) != "" && (c == Digits(u) || c == "+" + Digits(u))
  }

  /** The local part of an address. */
  ghost predicate EmailAlias(t: string, c: string) {
    exists l :: IsBefore(t, '@', l) && Spells(c, Trim(l))
  }

  /** The name before the server of a Matrix identifier, or the whole of it. */
  ghost predicate MatrixAlias(t: string, c: string) {
    if ':' in t then exists l :: IsBefore(t, ':', l) && NameAlias(Trim(l), c) else NameAlias(t, c)
  }

  ghost predicate TeamsAlias(t: string, c: string) {
    exists s :: IsTeamsTail(t, s) && (Spells(c, Trim(s)) || NameAlias(Trim(s), c) || EmailAlias(Trim(s), c))
  }

  /** `c` is an alias of a handle on `kind`, of which `t` is the trimmed and `u` the unprefixed text. */
  ghost predicate IsAlias(kind: ChannelKind, t: string, u: string, c: string) {
    var v := Trim(u);
    || Spells(c, t) || Spells(c, v)
    || match kind
       case Telegram | Discord | IRC => NameAlias(v, c) || MentionAlias(v, c)
       case WhatsApp | Signal | IMessage => PhoneAlias(u, c)
       case Matrix => v != "" && MatrixAlias(v, c)
       case Slack => SlackAlias(v, c) || MentionAlias(v, c) || NameAlias(v, c)
       case Teams => TeamsAlias(v, c)
       case WebChat => EmailAlias(v, c)
       case Custom(_) => NameAlias(v, c) || PhoneAlias(u, c) || EmailAlias(v, c)
  }

  // ---------- the form lists are these parts ----------

  lemma BasicMeaning(raw: string, c: string)
    ensures c in BasicForms(raw) <==> Spells(c, Trim(raw))
  {
    hide Trim, Lower;
  }

  lemma {:induction false} UnmarkedMeaning(t: string, mark: char, x: string)
    ensures IsUnmarked(t, mark, x) <==> x == TrimStartChar(t, mark)
  {
    if t != "" && t[0] == mark {
      UnmarkedMeaning(t[1..], mark, x);
      if IsUnmarked(t[1..], mark, x) {
        assert forall i :: 1 <= i < |t| - |x| ==> t[i] == t[1..][i - 1];
      }
      if IsUnmarked(t, mark, x) {
        assert x != t;
        assert forall i :: 0 <= i < |t| - 1 - |x| ==> t[1..][i] == t[i + 1];
      }
    } else if IsUnmarked(t, mark, x) {
      assert |x| == |t|;
    }
  }

  lemma UsernameMeaning(raw: string, c: string)
    ensures c in UsernameForms(raw) <==> NameAlias(Trim(raw), c)
  {
    hide Trim, TrimStartChar, BasicForms, IsUnmarked, Spells;
    var t := Trim(raw);
    var x := TrimStartChar(t, '@');
    UnmarkedMeaning(t, '@', x);
    BasicMeaning(x, c);
    BasicMeaning("@" + x, c);
    AtTrimmed(t);
    forall y
      ensures IsUnmarked(t, '@', y) ==> y == x
    {
      UnmarkedMeaning(t, '@', y);
    }
  }

  lemma AtTrimmed(t: string)
    requires Trimmed(t)
    ensures var x := TrimStartChar(t, '@'); x != "" ==> Trim("@" + x) == "@" + x
  {
    assert !IsWhitespace('@');
  }

  lemma BracketMeaning(raw: string, inner: string)
    ensures StripBrackets(Trim(raw), "<@", '>') == Some(inner) <==> IsMentionOf(Trim(raw), inner)
  {
    hide Trim;
    var t := Trim(raw);
    if IsMentionOf(t, inner) {
      assert t[..2] == "<@" && t[|t| - 1] == '>';
      assert t[2..|t| - 1] == inner;
    }
  }

  lemma BracketedMeaning(raw: string, c: string)
    ensures c in BracketedForms(raw) <==> MentionAlias(Trim(raw), c)
  {
    hide Trim, BasicForms, Spells, TrimStartChar, StripBrackets, IsUnmarked, IsMentionOf;
    var t := Trim(raw);
    forall inner
      ensures StripBrackets(t, "<@", '>') == Some(inner) <==> IsMentionOf(t, inner)
    {
      BracketMeaning(raw, inner);
    }
    forall s: string, mark, x
      ensures IsUnmarked(s, mark, x) <==> x == TrimStartChar(s, mark)
    {
      UnmarkedMeaning(s, mark, x);
    }
    if StripBrackets(t, "<@", '>').Some? {
      var m := TrimStartChar(TrimStartChar(StripBrackets(t, "<@", '>').value, '!'), '&');
      BasicMeaning(m, c);
      assert IsUnmarked(TrimStartChar(StripBrackets(t, "<@", '>').value, '!'), '&', m);
    }
  }

  lemma SlackMeaning(raw: string, c: string)
    ensures c in BasicForms(StripSlackMention(raw)) <==>
              if exists inner :: IsMentionOf(Trim(raw), inner) then SlackAlias(Trim(raw), c) else Spells(c, Trim(raw))
  {
    hide Trim, BasicForms, Spells, StripBrackets, IsMentionOf;
    var t := Trim(raw);
    forall inner
      ensures StripBrackets(t, "<@", '>') == Some(inner) <==> IsMentionOf(t, inner)
    {
      BracketMeaning(raw, inner);
    }
    BasicMeaning(StripSlackMention(raw), c);
  }

  lemma PhoneMeaning(raw: string, c: string)
    ensures c in PhoneForms(raw) <==> PhoneAlias(raw, c)
  {
    PhoneDigitsAreAll(raw);
  }

  lemma PhoneDigitsAreAll(raw: string)
    ensures PhoneDigits(raw) == Digits(raw)
  {
    hide Trim, TrimStartMatches, Digits;
    DigitsOfPrefixes();
    DigitsTrim(raw);
    DigitsTrimStartMatches(Trim(raw), "tel:");
    DigitsTrimStartMatches(TrimStartMatches(Trim(raw), "tel:"), "sms:");
    DigitsTrimStartMatches(TrimStartMatches(TrimStartMatches(Trim(raw), "tel:"), "sms:"), "waid:");
  }

  /** What precedes the first separator is unique. */
  lemma BeforeMeaning(t: string, sep: char, a: string)
    ensures IsBefore(t, sep, a) <==> SplitOnce(t, sep).Some? && SplitOnce(t, sep).value.0 == a
  {
    if IsBefore(t, sep, a) {
      var b :| t == a + [sep] + b;
      SplitUnique(a, sep, b);
    }
  }

  lemma EmailMeaning(raw: string, c: string)
    ensures c in EmailForms(raw) <==> EmailAlias(Trim(raw), c)
  {
    hide Trim, BasicForms, Spells, SplitOnce, IsBefore;
    var t := Trim(raw);
    forall l
      ensures IsBefore(t, '@', l) <==> SplitOnce(t, '@').Some? && SplitOnce(t, '@').value.0 == l
    {
      BeforeMeaning(t, '@', l);
    }
    if SplitOnce(t, '@').Some? {
      BasicMeaning(SplitOnce(t, '@').value.0, c);
    }
  }

  lemma MatrixMeaning(raw: string, c: string)
    ensures c in MatrixForms(raw) <==> Trim(raw) != "" && (Spells(c, Trim(raw)) || MatrixAlias(Trim(raw), c))
  {
    hide Trim, BasicForms, Spells, SplitOnce, IsBefore, UsernameForms, NameAlias;
    var t := Trim(raw);
    assert Trim(t) == t;
    BasicMeaning(t, c);
    UsernameMeaning(t, c);
    forall l
      ensures IsBefore(t, ':', l) <==> SplitOnce(t, ':').Some? && SplitOnce(t, ':').value.0 == l
    {
      BeforeMeaning(t, ':', l);
    }
    if SplitOnce(t, ':').Some? {
      UsernameMeaning(SplitOnce(t, ':').value.0, c);
    }
  }

  lemma TeamsTailMeaning(raw: string, s: string)
    ensures IsTeamsTail(Trim(raw), s) <==> s == StripTeamsPrefix(raw)
  {
    hide Trim;
    var t := Trim(raw);
    TailAfter(t, "8:orgid:", s);
    TailAfter(t, "8:", s);
    TailAfter(t, "29:", s);
    TailAfter(t, "orgid:", s);
    assert "8:orgid:" == "8:" + "orgid:";
    assert "8:"[0] == '8' && "29:"[0] == '2' && "orgid:"[0] == 'o' && "8:orgid:"[0] == '8';
    if "8:orgid:" <= t {
      assert t[2..] == "orgid:" + t[8..];
    } else if "8:" <= t {
      assert "orgid:" <= t[2..] ==> t[..8] == "8:orgid:";
    }
  }

  lemma TailAfter(t: string, p: string, s: string)
    ensures t == p + s <==> p <= t && s == t[|p|..]
  {
  }

  lemma TeamsMeaning(raw: string, c: string)
    ensures c in TeamsForms(raw) <==> TeamsAlias(Trim(raw), c)
  {
    hide Trim, BasicForms, Spells, StripTeamsPrefix, IsTeamsTail, UsernameForms, NameAlias, EmailForms, EmailAlias;
    var s := StripTeamsPrefix(raw);
    BasicMeaning(s, c);
    UsernameMeaning(s, c);
    EmailMeaning(s, c);
    forall x
      ensures IsTeamsTail(Trim(raw), x) <==> x == s
    {
      TeamsTailMeaning(raw, x);
    }
  }

  lemma UnprefixedMeaning(t: string, u: string)
    requires Trimmed(t)
    ensures IsUnprefixed(t, u) <==> u == StripChannelPrefix(t)
  {
    hide SplitOnce, IsPrefixChar, PrefixChar;
    assert forall c :: PrefixChar(c) <==> IsPrefixChar(c) by { PrefixCharsAgree(); }
    forall p, v
      ensures PrefixedBy(t, p, v) ==> SplitOnce(t, ':') == Some((p, v))
    {
      if PrefixedBy(t, p, v) {
        assert ':' !in p by { ColonIsNoPrefixChar(p); }
        SplitUnique(p, ':', v);
      }
    }
    var split := SplitOnce(t, ':');
    if split.Some? {
      var (p, v) := split.value;
      assert forall i :: 0 <= i < |p| ==> p[i] in p;
      assert PrefixedBy(t, p, v) <==> v != "" && forall c | c in p :: IsPrefixChar(c);
    }
  }

  lemma PrefixCharsAgree()
    ensures forall c :: PrefixChar(c) <==> IsPrefixChar(c)
  {
  }

  lemma ColonIsNoPrefixChar(p: string)
    requires forall i :: 0 <= i < |p| ==> PrefixChar(p[i])
    ensures ':' !in p
  {
  }

  lemma KindMeaning(kind: ChannelKind, u: string, c: string)
    ensures var v := Trim(u);
            var extra := match kind
                         case Telegram | Discord | IRC => NameAlias(v, c) || MentionAlias(v, c)
                         case WhatsApp | Signal | IMessage => PhoneAlias(u, c)
                         case Matrix => v != "" && (Spells(c, v) || MatrixAlias(v, c))
                         case Slack => Spells(c, v) || SlackAlias(v, c) || MentionAlias(v, c) || NameAlias(v, c)
                         case Teams => TeamsAlias(v, c)
                         case WebChat => Spells(c, v) || EmailAlias(v, c)
                         case Custom(_) => NameAlias(v, c) || PhoneAlias(u, c) || EmailAlias(v, c);
            (c in KindForms(kind, u) ==> extra) && (extra ==> c in KindForms(kind, u) || Spells(c, v))
  {
    hide Trim, BasicForms, Spells, UsernameForms, BracketedForms, PhoneForms, MatrixForms, EmailForms, TeamsForms,
         NameAlias, MentionAlias, SlackAlias, PhoneAlias, MatrixAlias, TeamsAlias, EmailAlias, StripSlackMention;
    UsernameMeaning(u, c);
    BracketedMeaning(u, c);
    PhoneMeaning(u, c);
    MatrixMeaning(u, c);
    SlackMeaning(u, c);
    TeamsMeaning(u, c);
    EmailMeaning(u, c);
    BasicMeaning(u, c);
    if kind.Slack? && !(exists inner :: IsMentionOf(Trim(u), inner)) {
      assert !SlackAlias(Trim(u), c) by { NoMention(Trim(u), c); }
    }
  }

  lemma NoMention(t: string, c: string)
    requires !(exists inner :: IsMentionOf(t, inner))
    ensures !SlackAlias(t, c)
  {
  }

  /** The aliases of a handle are exactly those its text gives: its spelling, that of its unprefixed text,
      and what its kind of channel adds. */
  lemma AliasesAre(kind: ChannelKind, handle: string, c: string)
    ensures c in Candidates(kind, handle) <==>
              Trim(handle) != "" && exists u :: IsUnprefixed(Trim(handle), u) && IsAlias(kind, Trim(handle), u, c)
  {
    hide Trim, BasicForms, Spells, KindForms, StripChannelPrefix, IsUnprefixed,
         NameAlias, MentionAlias, SlackAlias, PhoneAlias, MatrixAlias, TeamsAlias, EmailAlias;
    var t := Trim(handle);
    var u := StripChannelPrefix(t);
    if t != "" {
      assert Trim(t) == t;
      BasicMeaning(t, c);
      BasicMeaning(u, c);
      KindMeaning(kind, u, c);
      SpellsNonempty(c, t);
      SpellsNonempty(c, Trim(u));
      FormsNonempty(kind, handle, c);
      forall x
        ensures IsUnprefixed(t, x) <==> x == u
      {
        UnprefixedMeaning(t, x);
      }
      assert c in Forms(kind, handle) <==> c in BasicForms(t) || c in BasicForms(u) || c in KindForms(kind, u);
      assert c in Forms(kind, handle) <==> IsAlias(kind, t, u, c);
      assert IsUnprefixed(t, u);
    }
  }

  lemma SpellsNonempty(c: string, t: string)
    ensures Spells(c, t) ==> c != ""
  {
  }

  lemma FormsNonempty(kind: ChannelKind, handle: string, c: string)
    ensures c in Candidates(kind, handle) <==> c in Forms(kind, handle)
  {
    hide Forms, KindForms;
    FormsClosed(kind, handle);
  }

  // ---------- what the aliases of particular texts are ----------

  lemma AliasesOver(kind: ChannelKind, handle: string, u: string, c: string)
    requires Trim(handle) != "" && forall v :: IsUnprefixed(Trim(handle), v) <==> v == u
    ensures c in Candidates(kind, handle) <==> IsAlias(kind, Trim(handle), u, c)
  {
    hide Candidates, IsAlias, IsUnprefixed, Trim;
    AliasesAre(kind, handle, c);
    assert IsUnprefixed(Trim(handle), u);
  }

  lemma NamedAlias(t: string, x: string, c: string)
    requires IsUnmarked(t, '@', x) && x != "" && Trimmed(x)
    ensures NameAlias(t, c) <==> Spells(c, x) || Spells(c, "@" + x)
  {
    hide Spells, IsUnmarked, Trim;
    assert Trim(x) == x;
    UnmarkedMeaning(t, '@', x);
    forall y
      ensures IsUnmarked(t, '@', y) ==> y == x
    {
      UnmarkedMeaning(t, '@', y);
    }
  }

  lemma NoPrefix(t: string, p: string, u: string)
    requires Trimmed(t) && t == p + [':'] + u && ':' !in p && exists i :: 0 <= i < |p| && !PrefixChar(p[i])
    ensures forall v :: IsUnprefixed(t, v) <==> v == t
  {
    hide PrefixChar;
    forall q, v
      ensures !PrefixedBy(t, q, v)
    {
      if PrefixedBy(t, q, v) {
        ColonIsNoPrefixChar(q);
        SplitUnique(p, ':', u);
        SplitUnique(q, ':', v);
        assert false;
      }
    }
  }

  lemma NoColon(t: string)
    requires ':' !in t
    ensures forall v :: IsUnprefixed(t, v) <==> v == t
  {
    forall q, v
      ensures !PrefixedBy(t, q, v)
    {
      assert ':' in q + [':'] + v;
    }
  }

  /** A Matrix user identifier. */
  predicate IsMatrixId(l: string, s: string) {
    l != "" && Trimmed(l) && ':' !in l && l[0] != '@' && Trimmed("@" + l + ":" + s)
  }

  /** A Matrix identifier has exactly three aliases and their lowercase: itself, its name, and its name with an '@'. */
  lemma MatrixAliases(l: string, s: string, c: string)
    requires IsMatrixId(l, s)
    ensures c in Candidates(Matrix, "@" + l + ":" + s) <==>
              Spells(c, "@" + l + ":" + s) || Spells(c, l) || Spells(c, "@" + l)
  {
    hide Spells, NameAlias, Trim, IsUnprefixed, PrefixChar;
    var name := "@" + l;
    var t := name + ":" + s;
    assert Trim(t) == t && Trim(name) == name;
    assert t == name + [':'] + s && ':' !in name && name[0] == '@' && !PrefixChar('@') by { AtIsNoPrefixChar(); }
    NoPrefix(t, name, s);
    AliasesOver(Matrix, t, t, c);
    assert ':' in t by { assert t[|name|] == ':'; }
    SplitUnique(name, ':', s);
    forall a
      ensures IsBefore(t, ':', a) <==> a == name
    {
      BeforeMeaning(t, ':', a);
    }
    assert IsUnmarked(name, '@', l);
    NamedAlias(name, l, c);
  }

  lemma AtIsNoPrefixChar()
    ensures !PrefixChar('@')
  {
  }

  lemma SpellsLower(c: string, t: string)
    requires Spells(c, t)
    ensures Lower(c) == Lower(t)
  {
    LowerIdempotent(t);
  }

  /** The three lowercase shapes keep apart identifiers with different names. */
  lemma MatrixShapes(l: string, s: string, c: string)
    requires IsMatrixId(l, s) && c in Candidates(Matrix, "@" + l + ":" + s)
    ensures var n := Lower(l);
            || Lower(c) == "@" + n + ":" + Lower(s) || Lower(c) == n || Lower(c) == "@" + n
  {
    hide Candidates, Spells, Lower;
    MatrixAliases(l, s, c);
    LowerParts(l, s);
    if Spells(c, "@" + l + ":" + s) {
      SpellsLower(c, "@" + l + ":" + s);
    } else if Spells(c, l) {
      SpellsLower(c, l);
    } else {
      SpellsLower(c, "@" + l);
    }
  }

  lemma LowerParts(l: string, s: string)
    ensures Lower("@" + l) == "@" + Lower(l)
    ensures Lower("@" + l + ":" + s) == "@" + Lower(l) + ":" + Lower(s)
  {
  }

  /** Two Matrix identifiers whose names differ in more than case share no alias, whatever their servers. */
  lemma MatrixUsersApart(l1: string, s1: string, l2: string, s2: string, c: string)
    requires IsMatrixId(l1, s1) && IsMatrixId(l2, s2) && Lower(l1) != Lower(l2)
    ensures !(c in Candidates(Matrix, "@" + l1 + ":" + s1) && c in Candidates(Matrix, "@" + l2 + ":" + s2))
  {
    hide Candidates;
    if c in Candidates(Matrix, "@" + l1 + ":" + s1) && c in Candidates(Matrix, "@" + l2 + ":" + s2) {
      MatrixShapes(l1, s1, c);
      MatrixShapes(l2, s2, c);
      ShapesApart(l1, s1, l2, s2, Lower(c));
      assert false;
    }
  }

  lemma ShapesApart(l1: string, s1: string, l2: string, s2: string, d: string)
    requires IsMatrixId(l1, s1) && IsMatrixId(l2, s2)
    requires var n := Lower(l1); d == "@" + n + ":" + Lower(s1) || d == n || d == "@" + n
    requires var n := Lower(l2); d == "@" + n + ":" + Lower(s2) || d == n || d == "@" + n
    ensures Lower(l1) == Lower(l2)
  {
    hide Lower, Trim;
    var n1, n2 := Lower(l1), Lower(l2);
    LowerShape(l1);
    LowerShape(l2);
    if ':' in d {
      assert d == "@" + n1 + ":" + Lower(s1) == "@" + n2 + ":" + Lower(s2);
      assert "@" + n1 + ":" + Lower(s1) == ("@" + n1) + [':'] + Lower(s1);
      assert "@" + n2 + ":" + Lower(s2) == ("@" + n2) + [':'] + Lower(s2);
      SplitUnique("@" + n1, ':', Lower(s1));
      SplitUnique("@" + n2, ':', Lower(s2));
      assert ("@" + n1)[1..] == n1 && ("@" + n2)[1..] == n2;
    } else {
      NoColonShape(n1, Lower(s1), d);
      NoColonShape(n2, Lower(s2), d);
    }
  }

  lemma NoColonShape(n: string, s: string, d: string)
    requires n != "" && n[0] != '@' && ':' !in d
    requires d == "@" + n + ":" + s || d == n || d == "@" + n
    ensures n == if d[0] == '@' then d[1..] else d
  {
    assert ':' in "@" + n + ":" + s by { assert ("@" + n + ":" + s)[|n| + 1] == ':'; }
  }

  lemma LowerShape(l: string)
    requires l != "" && ':' !in l && l[0] != '@'
    ensures Lower(l) != "" && ':' !in Lower(l) && Lower(l)[0] != '@'
  {
    assert forall i :: 0 <= i < |l| ==> Lower(l)[i] == LowerChar(l[i]) && l[i] in l;
  }

  /** A bare name: no colon, no '@', no angle bracket. */
  predicate IsPlainName(x: string) { x != "" && Trimmed(x) && ':' !in x && '@' !in x && '<' !in x }

  predicate HasNames(kind: ChannelKind) {
    kind.Telegram? || kind.Discord? || kind.IRC? || kind.Slack? || kind.Matrix? || kind.Teams?
  }

  /** On the channels with user names, a bare name and its '@' form have the same aliases:
      both of them and their lowercase. */
  lemma NameAliases(kind: ChannelKind, x: string, c: string)
    requires HasNames(kind) && IsPlainName(x)
    ensures c in Candidates(kind, x) <==> Spells(c, x) || Spells(c, "@" + x)
    ensures c in Candidates(kind, "@" + x) <==> Spells(c, x) || Spells(c, "@" + x)
  {
    hide Candidates;
    TextOfName(kind, x, x, c);
    TextOfName(kind, x, "@" + x, c);
  }

  lemma TextOfName(kind: ChannelKind, x: string, t: string, c: string)
    requires HasNames(kind) && IsPlainName(x) && (t == x || t == "@" + x)
    ensures c in Candidates(kind, t) <==> Spells(c, x) || Spells(c, "@" + x)
  {
    hide Spells, NameAlias, Trim, IsUnprefixed, EmailAlias, TeamsAlias, Candidates;
    assert Trimmed(t) && Trim(t) == t && t != "" && ':' !in t && t[0] != '<';
    NoColon(t);
    AliasesOver(kind, t, t, c);
    assert IsUnmarked(t, '@', x);
    NamedAlias(t, x, c);
    assert forall inner :: !IsMentionOf(t, inner);
    if kind.Teams? {
      TeamsOfName(x, t, c);
    }
  }

  lemma TeamsOfName(x: string, t: string, c: string)
    requires IsPlainName(x) && (t == x || t == "@" + x)
    ensures TeamsAlias(t, c) <==> Spells(c, x) || Spells(c, "@" + x)
  {
    hide Spells, NameAlias, Trim, IsBefore;
    assert Trim(t) == t && Trimmed(t) && ':' !in t;
    assert ':' in "8:orgid:" && ':' in "8:" && ':' in "29:" && ':' in "orgid:" by {
      assert "8:orgid:"[1] == ':' && "8:"[1] == ':' && "29:"[2] == ':' && "orgid:"[5] == ':';
    }
    NoTeamsTail(t);
    assert IsUnmarked(t, '@', x);
    NamedAlias(t, x, c);
    if EmailAlias(t, c) {
      var l :| IsBefore(t, '@', l) && Spells(c, Trim(l));
      NothingBefore(x, t, l);
      BlankHasNoSpelling(c);
    }
  }

  lemma BlankHasNoSpelling(c: string)
    ensures !Spells(c, Trim(""))
  {
  }

  lemma NothingBefore(x: string, t: string, l: string)
    requires '@' !in x && (t == x || t == "@" + x) && IsBefore(t, '@', l)
    ensures l == ""
  {
    var b :| t == l + ['@'] + b;
    assert t[|l|] == '@';
    assert forall i :: 1 <= i < |t| ==> t[i] != '@' by {
      assert t == "@" + x ==> t[1..] == x;
    }
  }

  lemma NoTeamsTail(t: string)
    requires ':' !in t
    ensures forall s :: IsTeamsTail(t, s) <==> s == t
  {
    NoTail(t, "8:orgid:");
    NoTail(t, "8:");
    NoTail(t, "29:");
    NoTail(t, "orgid:");
  }

  lemma NoTail(t: string, p: string)
    requires ':' !in t && p != "" && p[|p| - 1] == ':'
    ensures !(p <= t) && forall s: string :: t != p + s
  {
    assert p[|p| - 1] in p;
    assert p <= t ==> forall c :: c in p ==> c in t;
    forall s: string
      ensures t != p + s
    {
      assert p <= p + s;
    }
  }

  /** On the web channel an address has exactly itself and its local part as aliases, with their lowercase. */
  lemma AddressAliases(l: string, d: string, c: string)
    requires l != "" && Trimmed(l) && '@' !in l && Trimmed(l + "@" + d) && ':' !in l + "@" + d
    ensures c in Candidates(WebChat, l + "@" + d) <==> Spells(c, l + "@" + d) || Spells(c, l)
  {
    hide Spells, Trim, IsUnprefixed, Candidates;
    var t := l + "@" + d;
    assert t == l + ['@'] + d && Trim(t) == t && Trim(l) == l;
    NoColon(t);
    AliasesOver(WebChat, t, t, c);
    SplitUnique(l, '@', d);
    forall a
      ensures IsBefore(t, '@', a) <==> a == l
    {
      BeforeMeaning(t, '@', a);
    }
    hide IsBefore;
    assert EmailAlias(t, c) <==> Spells(c, Trim(l)) by {
      assert IsBefore(t, '@', l);
    }
  }

  /** A mention has exactly three aliases and their lowercase: itself, itself with an '@', and the identifier inside. */
  lemma MentionAliases(kind: ChannelKind, id: string, c: string)
    requires kind.Telegram? || kind.Discord? || kind.IRC?
    requires id != "" && Trimmed(id) && ':' !in id && id[0] != '!' && id[0] != '&'
    ensures var t := "<@!" + id + ">";
            c in Candidates(kind, t) <==> Spells(c, t) || Spells(c, "@" + t) || Spells(c, id)
  {
    hide Spells, Trim, IsUnprefixed, NameAlias, Candidates, IsUnmarked, IsMentionOf;
    var t := "<@!" + id + ">";
    var bang := "!" + id;
    MentionParts(id);
    NoColon(t);
    AliasesOver(kind, t, t, c);
    NamedAlias(t, t, c);
    forall inner
      ensures IsMentionOf(t, inner) <==> inner == bang
    {
      InsideMention(t, inner, bang);
    }
    forall y
      ensures IsUnmarked(bang, '!', y) <==> y == id
    {
      UnmarkedMeaning(bang, '!', y);
      UnmarkedMeaning(bang, '!', id);
    }
    forall m
      ensures IsUnmarked(id, '&', m) <==> m == id
    {
      UnmarkedMeaning(id, '&', m);
    }
    assert MentionAlias(t, c) <==> Spells(c, Trim(id)) by {
      assert IsMentionOf(t, bang) && IsUnmarked(bang, '!', id) && IsUnmarked(id, '&', id);
    }
  }

  lemma MentionParts(id: string)
    requires id != "" && Trimmed(id) && ':' !in id && id[0] != '!' && id[0] != '&'
    ensures var t := "<@!" + id + ">";
            && Trim(t) == t && Trimmed(t) && Trim(id) == id && ':' !in t
            && IsUnmarked(t, '@', t) && IsMentionOf(t, "!" + id)
            && IsUnmarked("!" + id, '!', id) && IsUnmarked(id, '&', id)
  {
    hide Trim;
    var t := "<@!" + id + ">";
    assert Trimmed(t);
    assert t == "<@" + ("!" + id) + ">";
    assert ("!" + id)[1..] == id;
  }

  lemma InsideMention(t: string, a: string, b: string)
    requires IsMentionOf(t, b)
    ensures IsMentionOf(t, a) <==> a == b
  {
    if IsMentionOf(t, a) {
      assert t[2..|t| - 1] == a && t[2..|t| - 1] == b;
    }
  }

  /** On a phone channel a colon-free handle has exactly its spelling, its digits, and its digits after a plus. */
  lemma PhoneAliases(kind: ChannelKind, handle: string, c: string)
    requires IsPhone(kind) && ':' !in handle && Trim(handle) != ""
    ensures c in Candidates(kind, handle) <==>
              Spells(c, Trim(handle)) || (Digits(handle) != "" && (c == Digits(handle) || c == "+" + Digits(handle)))
  {
    hide Spells, Trim, IsUnprefixed, Candidates, Digits;
    var t := Trim(handle);
    assert ':' !in t by { TrimKeepsAbsence(handle, ':'); }
    assert Trim(t) == t;
    DigitsTrim(handle);
    NoColon(t);
    AliasesOver(kind, handle, t, c);
    assert Trim(t) == t;
  }

  /** A channel prefix adds the prefixed spelling to the aliases of what follows it and takes none away. */
  lemma PrefixOnlyAdds(kind: ChannelKind, p: string, u: string, c: string)
    requires PrefixedBy(p + [':'] + u, p, u) && Trimmed(p + [':'] + u) && Trimmed(u) && ':' !in u
    ensures c in Candidates(kind, p + [':'] + u) <==> Spells(c, p + [':'] + u) || c in Candidates(kind, u)
  {
    hide Spells, Trim, Candidates, NameAlias, MentionAlias, SlackAlias, PhoneAlias, MatrixAlias, TeamsAlias, EmailAlias;
    var t := p + [':'] + u;
    assert Trim(t) == t && Trim(u) == u;
    NoColon(u);
    UnprefixedMeaning(t, u);
    forall v
      ensures IsUnprefixed(t, v) <==> v == u
    {
      UnprefixedMeaning(t, v);
    }
    hide IsUnprefixed;
    AliasesOver(kind, t, u, c);
    AliasesOver(kind, u, u, c);
  }

  // ---------- linking leaves strangers alone ----------

  /** A link changes nobody else's resolution: a handle that shares no alias with the linked one resolves as before. */
  lemma LinkLeavesStrangers(s: State, user: string, channelId: string, kind: ChannelKind, handle: string,
                            k: ChannelKind, other: string)
    requires OwnersRegistered(s) && (s.foreignKeys || user in s.users)
    requires k != kind || forall c :: c in Candidates(kind, handle) ==> c !in Candidates(k, other)
    ensures ResolveByChannel(LinkChannel(s, user, channelId, kind, handle).0, k, other) == ResolveByChannel(s, k, other)
  {
    hide Candidates, LinkChannel, FindByChannel;
    var s' := LinkChannel(s, user, channelId, kind, handle).0;
    forall c | c in Candidates(k, other)
      ensures FindByChannel(s', k, c) == FindByChannel(s, k, c)
    {
      SameRow(s, user, channelId, kind, handle, k, c);
    }
    SameFirst(s, s', k, Candidates(k, other));
  }

  lemma SameRow(s: State, user: string, channelId: string, kind: ChannelKind, handle: string, k: ChannelKind, c: string)
    requires !(k == kind && c in Candidates(kind, handle))
    ensures FindByChannel(LinkChannel(s, user, channelId, kind, handle).0, k, c) == FindByChannel(s, k, c)
  {
    hide Candidates, BindAll, Conflicts;
    BindAllRow(s.channels, user, channelId, kind, Candidates(kind, handle), k, c);
  }

  lemma {:induction false} SameFirst(s: State, s': State, k: ChannelKind, candidates: seq<string>)
    requires forall c :: c in candidates ==> FindByChannel(s', k, c) == FindByChannel(s, k, c)
    ensures FirstBound(s', k, candidates) == FirstBound(s, k, candidates)
  {
    hide FindByChannel;
    if candidates != [] {
      SameFirst(s, s', k, candidates[1..]);
    }
  }

  /** So linking one Matrix user never changes whom an identifier with another name resolves to. */
  lemma MatrixLinkLeavesOthers(s: State, user: string, channelId: string, l1: string, s1: string, l2: string,
                               s2: string)
    requires OwnersRegistered(s) && (s.foreignKeys || user in s.users)
    requires IsMatrixId(l1, s1) && IsMatrixId(l2, s2) && Lower(l1) != Lower(l2)
    ensures var h2 := "@" + l2 + ":" + s2;
            ResolveByChannel(LinkChannel(s, user, channelId, Matrix, "@" + l1 + ":" + s1).0, Matrix, h2) ==
              ResolveByChannel(s, Matrix, h2)
  {
    hide Candidates, LinkChannel, ResolveByChannel, Lower, IsMatrixId;
    forall c | c in Candidates(Matrix, "@" + l1 + ":" + s1)
      ensures c !in Candidates(Matrix, "@" + l2 + ":" + s2)
    {
      MatrixUsersApart(l1, s1, l2, s2, c);
    }
    LinkLeavesStrangers(s, user, channelId, Matrix, "@" + l1 + ":" + s1, Matrix, "@" + l2 + ":" + s2);
  }
}
