/** Alias expansion of raw channel handles (crates/ngenorca-identity/src/resolver.rs). */
module Handles {
  import opened Text

  datatype ChannelKind =
    | WhatsApp | Telegram | Discord | Slack | Signal | IMessage
    | Matrix | IRC | WebChat | Teams | Custom(name: string)

  predicate IsPhone(kind: ChannelKind) {
    kind.WhatsApp? || kind.Signal? || kind.IMessage?
  }

  // ---------- the alias forms, as plain lists with repetitions ----------

  function BasicForms(raw: string): seq<string> {
    var t := Trim(raw);
    if t == "" then [] else if Lower(t) != t then [t, Lower(t)] else [t]
  }

  function UsernameForms(raw: string): seq<string> {
    var t := TrimStartChar(Trim(raw), '@');
    if t == "" then [] else BasicForms(t) + BasicForms("@" + t)
  }

  function PhoneDigits(raw: string): string {
    Digits(TrimStartMatches(TrimStartMatches(TrimStartMatches(Trim(raw), "tel:"), "sms:"), "waid:"))
  }

  function PhonePair(d: string): seq<string> {
    if d == "" then [] else [d, "+" + d]
  }

  function PhoneForms(raw: string): seq<string> {
    PhonePair(PhoneDigits(raw))
  }

  function MatrixForms(raw: string): seq<string> {
    var t := Trim(raw);
    if t == "" then []
    else BasicForms(t) + match SplitOnce(t, ':')
                         case Some((local, _)) => UsernameForms(local)
                         case None => UsernameForms(t)
  }

  function EmailForms(raw: string): seq<string> {
    match SplitOnce(Trim(raw), '@')
    case Some((local, _)) => BasicForms(local)
    case None => []
  }

  function BracketedForms(raw: string): seq<string> {
    match StripBrackets(Trim(raw), "<@", '>')
    case Some(inner) => BasicForms(TrimStartChar(TrimStartChar(inner, '!'), '&'))
    case None => []
  }

  predicate IsPrefixChar(c: char) {
    IsAsciiAlphanumeric(c) || c == '-' || c == '_'
  }

  function StripChannelPrefix(raw: string): string {
    var t := Trim(raw);
    match SplitOnce(t, ':')
    case Some((prefix, tail)) =>
      if tail != "" && (forall c | c in prefix :: IsPrefixChar(c)) then tail else t
    case None => t
  }

  function StripSlackMention(raw: string): string {
    match StripBrackets(Trim(raw), "<@", '>')
    case Some(inner) => inner
    case None => raw
  }

  function StripTeamsPrefix(raw: string): string {
    var t := Trim(raw);
    if "8:orgid:" <= t then t[8..]
    else if "8:" <= t then t[2..]
    else if "29:" <= t then t[3..]
    else if "orgid:" <= t then t[6..]
    else t
  }

  function MentionForms(u: string): seq<string> {
    UsernameForms(u) + BracketedForms(u)
  }

  function SlackForms(u: string): seq<string> {
    BasicForms(StripSlackMention(u)) + (BracketedForms(u) + UsernameForms(u))
  }

  function TeamsForms(u: string): seq<string> {
    var s := StripTeamsPrefix(u);
    BasicForms(s) + (UsernameForms(s) + EmailForms(s))
  }

  function WebForms(u: string): seq<string> {
    BasicForms(u) + EmailForms(u)
  }

  function CustomForms(u: string): seq<string> {
    UsernameForms(u) + (PhoneForms(u) + EmailForms(u))
  }

  function KindForms(kind: ChannelKind, unprefixed: string): seq<string> {
    match kind
    case Telegram | Discord | IRC => MentionForms(unprefixed)
    case WhatsApp | Signal | IMessage => PhoneForms(unprefixed)
    case Matrix => MatrixForms(unprefixed)
    case Slack => SlackForms(unprefixed)
    case Teams => TeamsForms(unprefixed)
    case WebChat => WebForms(unprefixed)
    case Custom(_) => CustomForms(unprefixed)
  }

  /** Every spelling a handle stands for, most literal first. */
  function Forms(kind: ChannelKind, handle: string): seq<string> {
    var t := Trim(handle);
    if t == "" then []
    else BasicForms(t) + (BasicForms(StripChannelPrefix(t)) + KindForms(kind, StripChannelPrefix(t)))
  }

  // ---------- the list the code builds: first occurrences only ----------

  function AddUnique(values: seq<string>, candidate: string): seq<string> {
    if candidate != "" && candidate !in values then values + [candidate] else values
  }

  function AddAll(values: seq<string>, forms: seq<string>): (r: seq<string>)
    ensures values <= r
    ensures forall c :: c in r <==> c in values || (c in forms && c != "")
    decreases |forms|
  {
    if forms == [] then values else AddAll(AddUnique(values, forms[0]), forms[1..])
  }

  lemma {:induction false} AddAllConcat(values: seq<string>, a: seq<string>, b: seq<string>)
    ensures AddAll(values, a + b) == AddAll(AddAll(values, a), b)
    decreases |a|
  {
    if a == [] {
      assert a + b == b;
    } else {
      assert (a + b)[1..] == a[1..] + b;
      AddAllConcat(AddUnique(values, a[0]), a[1..], b);
    }
  }

  function Candidates(kind: ChannelKind, handle: string): seq<string> {
    AddAll([], Forms(kind, handle))
  }

  predicate NoDuplicates(values: seq<string>) {
    forall i, j :: 0 <= i < j < |values| ==> values[i] != values[j]
  }

  lemma {:induction false} AddAllNoDuplicates(values: seq<string>, forms: seq<string>)
    requires NoDuplicates(values)
    ensures NoDuplicates(AddAll(values, forms))
    decreases |forms|
  {
    if forms != [] {
      AddAllNoDuplicates(AddUnique(values, forms[0]), forms[1..]);
    }
  }

  // ---------- properties of every candidate list ----------

  /** A form list is well formed when every form is trimmed and non-empty and its lowercase is a form too. */
  ghost predicate ClosedForms(forms: seq<string>) {
    && (forall c :: c in forms ==> c != "" && Trimmed(c))
    && (forall c {:trigger Lower(c), c in forms} :: c in forms ==> Lower(c) in forms)
  }

  lemma ClosedConcat(a: seq<string>, b: seq<string>)
    requires ClosedForms(a) && ClosedForms(b)
    ensures ClosedForms(a + b)
  {
    forall c | c in a + b
      ensures c != "" && Trimmed(c) && Lower(c) in a + b
    {
      assert c in a || c in b;
    }
  }

  lemma BasicClosed(raw: string)
    ensures ClosedForms(BasicForms(raw))
  {
    var t := Trim(raw);
    if t != "" {
      LowerIdempotent(t);
      assert Lower(t) in BasicForms(raw);
    }
  }

  lemma UsernameClosed(raw: string)
    ensures ClosedForms(UsernameForms(raw))
  {
    var t := TrimStartChar(Trim(raw), '@');
    BasicClosed(t);
    BasicClosed("@" + t);
    ClosedConcat(BasicForms(t), BasicForms("@" + t));
  }

  lemma LowerOfDigits(d: string)
    requires AllDigits(d)
    ensures Lower(d) == d && Lower("+" + d) == "+" + d
  {
    assert forall i :: 0 <= i < |d| ==> IsDigit(d[i]);
  }

  lemma PhoneClosed(raw: string)
    ensures ClosedForms(PhoneForms(raw))
  {
    var d := PhoneDigits(raw);
    LowerOfDigits(d);
    if d != "" {
      assert IsDigit(d[0]) && IsDigit(d[|d| - 1]);
    }
  }

  lemma EmailClosed(raw: string)
    ensures ClosedForms(EmailForms(raw))
  {
    if SplitOnce(Trim(raw), '@').Some? {
      BasicClosed(SplitOnce(Trim(raw), '@').value.0);
    }
  }

  lemma BracketedClosed(raw: string)
    ensures ClosedForms(BracketedForms(raw))
  {
    var inner := StripBrackets(Trim(raw), "<@", '>');
    if inner.Some? {
      BasicClosed(TrimStartChar(TrimStartChar(inner.value, '!'), '&'));
    }
  }

  lemma MatrixClosed(raw: string)
    ensures ClosedForms(MatrixForms(raw))
  {
    var t := Trim(raw);
    BasicClosed(t);
    UsernameClosed(t);
    ClosedConcat(BasicForms(t), UsernameForms(t));
    if SplitOnce(t, ':').Some? {
      var local := SplitOnce(t, ':').value.0;
      UsernameClosed(local);
      ClosedConcat(BasicForms(t), UsernameForms(local));
    }
  }

  lemma SlackClosed(u: string)
    ensures ClosedForms(SlackForms(u))
  {
    BasicClosed(StripSlackMention(u));
    BracketedClosed(u);
    UsernameClosed(u);
    ClosedConcat(BracketedForms(u), UsernameForms(u));
    ClosedConcat(BasicForms(StripSlackMention(u)), BracketedForms(u) + UsernameForms(u));
  }

  lemma TeamsClosed(u: string)
    ensures ClosedForms(TeamsForms(u))
  {
    var s := StripTeamsPrefix(u);
    BasicClosed(s);
    UsernameClosed(s);
    EmailClosed(s);
    ClosedConcat(UsernameForms(s), EmailForms(s));
    ClosedConcat(BasicForms(s), UsernameForms(s) + EmailForms(s));
  }

  lemma CustomClosed(u: string)
    ensures ClosedForms(CustomForms(u))
  {
    UsernameClosed(u);
    PhoneClosed(u);
    EmailClosed(u);
    ClosedConcat(PhoneForms(u), EmailForms(u));
    ClosedConcat(UsernameForms(u), PhoneForms(u) + EmailForms(u));
  }

  lemma MentionClosed(u: string)
    ensures ClosedForms(MentionForms(u))
  {
    UsernameClosed(u);
    BracketedClosed(u);
    ClosedConcat(UsernameForms(u), BracketedForms(u));
  }

  lemma WebClosed(u: string)
    ensures ClosedForms(WebForms(u))
  {
    BasicClosed(u);
    EmailClosed(u);
    ClosedConcat(BasicForms(u), EmailForms(u));
  }

  lemma KindClosed(kind: ChannelKind, u: string)
    ensures ClosedForms(KindForms(kind, u))
  {
    hide MentionForms, PhoneForms, MatrixForms, SlackForms, TeamsForms, WebForms, CustomForms, ClosedForms;
    match kind
    case Telegram | Discord | IRC => MentionClosed(u);
    case WhatsApp | Signal | IMessage => PhoneClosed(u);
    case Matrix => MatrixClosed(u);
    case Slack => SlackClosed(u);
    case Teams => TeamsClosed(u);
    case WebChat => WebClosed(u);
    case Custom(_) => CustomClosed(u);
  }

  lemma FormsClosed(kind: ChannelKind, handle: string)
    ensures ClosedForms(Forms(kind, handle))
  {
    hide BasicForms, KindForms, StripChannelPrefix;
    var t := Trim(handle);
    var u := StripChannelPrefix(t);
    BasicClosed(t);
    BasicClosed(u);
    KindClosed(kind, u);
    ClosedConcat(BasicForms(u), KindForms(kind, u));
    ClosedConcat(BasicForms(t), BasicForms(u) + KindForms(kind, u));
  }

  /** Every alias is non-empty and trimmed, comes with its lowercase, and no alias is listed twice. */
  lemma CandidatesClosed(kind: ChannelKind, handle: string)
    ensures ClosedForms(Candidates(kind, handle))
    ensures NoDuplicates(Candidates(kind, handle))
  {
    FormsClosed(kind, handle);
    AddAllNoDuplicates([], Forms(kind, handle));
  }

  /** The trimmed handle heads its own list; only a blank handle has no alias at all. */
  lemma CandidatesHead(kind: ChannelKind, handle: string)
    ensures Trim(handle) == "" <==> Candidates(kind, handle) == []
    ensures Trim(handle) != "" ==> Candidates(kind, handle)[0] == Trim(handle)
  {
    hide Trim, StripChannelPrefix, KindForms;
    var t := Trim(handle);
    if t != "" {
      var forms := Forms(kind, handle);
      assert Trim(t) == t;
      assert forms[0] == t;
      assert AddUnique([], t) == [t];
      assert AddAll([], forms) == AddAll([t], forms[1..]);
      assert [t] <= AddAll([t], forms[1..]);
    }
  }

  /** Each alias of a handle heads its own candidate list. */
  lemma AliasHeadsItsOwnList(kind: ChannelKind, handle: string, alias: string)
    requires alias in Candidates(kind, handle)
    ensures Candidates(kind, alias) != [] && Candidates(kind, alias)[0] == alias
  {
    CandidatesClosed(kind, handle);
    CandidatesHead(kind, alias);
  }

  // ---------- phone kinds: every colon-free spelling leads to the digits ----------

  lemma PhoneDigitsAreDigits(raw: string)
    ensures PhoneDigits(raw) == Digits(raw)
  {
    var t := Trim(raw);
    DigitsTrim(raw);
    DigitsOfPrefixes();
    DigitsTrimStartMatches(t, "tel:");
    var t1 := TrimStartMatches(t, "tel:");
    DigitsTrimStartMatches(t1, "sms:");
    var t2 := TrimStartMatches(t1, "sms:");
    DigitsTrimStartMatches(t2, "waid:");
  }

  lemma DigitsOfPrefixes()
    ensures Digits("tel:") == "" && Digits("sms:") == "" && Digits("waid:") == ""
  {
    assert Digits("l:") == "" && Digits("s:") == "" && Digits("d:") == "";
    assert Digits("id:") == "";
  }

  lemma PhonePairDigits(d: string, c: string)
    requires AllDigits(d) && c in PhonePair(d)
    ensures Digits(c) == d && ':' !in c
  {
    DigitsOfDigits(d);
    assert ("+" + d)[1..] == d;
    assert forall i :: 0 <= i < |d| ==> d[i] != ':';
  }

  lemma BasicDigits(raw: string, c: string)
    requires c in BasicForms(raw)
    ensures Digits(c) == Digits(raw)
  {
    hide Digits, Trim, Lower;
    DigitsTrim(raw);
    DigitsLower(Trim(raw));
  }

  lemma BasicColon(raw: string, c: string)
    requires c in BasicForms(raw)
    ensures ':' in c <==> ':' in Trim(raw)
  {
    hide Trim;
    var t := Trim(raw);
    if c != t {
      assert c == Lower(t);
      if ':' in t {
        var i :| 0 <= i < |t| && t[i] == ':';
        assert c[i] == ':';
      }
    }
  }

  lemma ColonFreeUnprefixed(handle: string)
    requires ':' !in handle
    ensures ':' !in Trim(handle) && StripChannelPrefix(Trim(handle)) == Trim(handle)
  {
    TrimKeepsAbsence(handle, ':');
  }

  lemma PhoneMembership(kind: ChannelKind, handle: string, c: string)
    requires IsPhone(kind)
    ensures c in Candidates(kind, handle) <==>
            Trim(handle) != "" && c != "" &&
            var u := StripChannelPrefix(Trim(handle));
            (c in BasicForms(Trim(handle)) || c in BasicForms(u) || c in PhoneForms(u))
  {
    assert KindForms(kind, StripChannelPrefix(Trim(handle))) == PhoneForms(StripChannelPrefix(Trim(handle)));
  }

  lemma PhoneFormDigits(raw: string, c: string)
    requires c in PhoneForms(raw)
    ensures Digits(c) == Digits(raw) && ':' !in c
  {
    PhoneDigitsAreDigits(raw);
    PhonePairDigits(Digits(raw), c);
  }

  lemma PhoneFormPresent(raw: string)
    requires Digits(raw) != ""
    ensures Digits(raw) in PhoneForms(raw)
  {
    PhoneDigitsAreDigits(raw);
  }

  /** On a phone channel, a colon-free alias of any handle brings the pure digit form along. */
  lemma ColonFreeAliasHasDigitForm(kind: ChannelKind, handle: string, c: string)
    requires IsPhone(kind)
    requires c in Candidates(kind, handle) && ':' !in c && Digits(c) != ""
    ensures Digits(c) in Candidates(kind, handle)
  {
    var t := Trim(handle);
    var u := StripChannelPrefix(t);
    PhoneMembership(kind, handle, c);
    if c in BasicForms(t) {
      BasicDigits(t, c);
      BasicColon(t, c);
      ColonFreeUnprefixed(t);
    } else if c in BasicForms(u) {
      BasicDigits(u, c);
    } else {
      PhoneFormDigits(u, c);
    }
    PhoneFormPresent(u);
    PhoneMembership(kind, handle, Digits(u));
  }

  /** The aliases of a colon-free phone handle are all colon-free and all have its digits. */
  lemma ColonFreeHandleAliases(kind: ChannelKind, handle: string, c: string)
    requires IsPhone(kind) && ':' !in handle
    requires c in Candidates(kind, handle)
    ensures ':' !in c && Digits(c) == Digits(handle)
  {
    var t := Trim(handle);
    DigitsTrim(handle);
    ColonFreeUnprefixed(handle);
    PhoneMembership(kind, handle, c);
    if c in BasicForms(t) {
      BasicDigits(t, c);
      BasicColon(t, c);
    } else {
      PhoneFormDigits(t, c);
    }
  }

  lemma ColonFreeHandleHasDigitForm(kind: ChannelKind, handle: string)
    requires IsPhone(kind) && ':' !in handle && Digits(handle) != ""
    ensures Digits(handle) in Candidates(kind, handle)
  {
    DigitsTrim(handle);
    ColonFreeUnprefixed(handle);
    PhoneFormPresent(Trim(handle));
    PhoneMembership(kind, handle, Digits(handle));
  }
}
