/** The growing candidate vector of the resolver, and the method that fills it. */
module HandleList {
  import opened Text
  import opened Handles

  class HandleVec {
    var values: seq<string>

    constructor ()
      ensures values == []
    {
      values := [];
    }

    method PushUnique(candidate: string)
      modifies this
      ensures values == AddAll(old(values), [candidate])
      ensures NoDuplicates(old(values)) ==> NoDuplicates(values)
    {
      if candidate != "" && candidate !in values {
        values := values + [candidate];
      }
    }

    method PushBasic(raw: string)
      modifies this
      ensures values == AddAll(old(values), BasicForms(raw))
    {
      var trimmed := Trim(raw);
      if trimmed == "" {
        return;
      }
      PushUnique(trimmed);
      var lowercase := Lower(trimmed);
      if lowercase != trimmed {
        PushUnique(lowercase);
        AddAllConcat(old(values), [trimmed], [lowercase]);
      }
    }

    method PushUsername(raw: string)
      modifies this
      ensures values == AddAll(old(values), UsernameForms(raw))
    {
      var trimmed := TrimStartChar(Trim(raw), '@');
      if trimmed == "" {
        return;
      }
      PushBasic(trimmed);
      PushBasic("@" + trimmed);
      AddAllConcat(old(values), BasicForms(trimmed), BasicForms("@" + trimmed));
    }

    method PushPhone(raw: string)
      modifies this
      ensures values == AddAll(old(values), PhoneForms(raw))
    {
      var digits := PhoneDigits(raw);
      if digits == "" {
        return;
      }
      PushUnique(digits);
      PushUnique("+" + digits);
      AddAllConcat(old(values), [digits], ["+" + digits]);
    }

    method PushMatrix(raw: string)
      modifies this
      ensures values == AddAll(old(values), MatrixForms(raw))
    {
      var trimmed := Trim(raw);
      if trimmed == "" {
        return;
      }
      PushBasic(trimmed);
      match SplitOnce(trimmed, ':') {
        case Some((local, _)) =>
          PushUsername(local);
          AddAllConcat(old(values), BasicForms(trimmed), UsernameForms(local));
        case None =>
          PushUsername(trimmed);
          AddAllConcat(old(values), BasicForms(trimmed), UsernameForms(trimmed));
      }
    }

    method PushEmail(raw: string)
      modifies this
      ensures values == AddAll(old(values), EmailForms(raw))
    {
      match SplitOnce(Trim(raw), '@') {
        case Some((local, _)) => PushBasic(local);
        case None =>
      }
    }

    method PushWeb(raw: string)
      modifies this
      ensures values == AddAll(old(values), WebForms(raw))
    {
      PushBasic(raw);
      PushEmail(raw);
      AddAllConcat(old(values), BasicForms(raw), EmailForms(raw));
    }

    method PushBracketedMention(raw: string)
      modifies this
      ensures values == AddAll(old(values), BracketedForms(raw))
    {
      match StripBrackets(Trim(raw), "<@", '>') {
        case Some(inner) => PushBasic(TrimStartChar(TrimStartChar(inner, '!'), '&'));
        case None =>
      }
    }

    method PushMention(u: string)
      modifies this
      ensures values == AddAll(old(values), MentionForms(u))
    {
      PushUsername(u);
      PushBracketedMention(u);
      AddAllConcat(old(values), UsernameForms(u), BracketedForms(u));
    }

    method PushSlack(u: string)
      modifies this
      ensures values == AddAll(old(values), SlackForms(u))
    {
      var mention := StripSlackMention(u);
      PushBasic(mention);
      AddAllConcat(values, BracketedForms(u), UsernameForms(u));
      AddAllConcat(old(values), BasicForms(mention), BracketedForms(u) + UsernameForms(u));
      PushBracketedMention(u);
      PushUsername(u);
    }

    method PushTeams(u: string)
      modifies this
      ensures values == AddAll(old(values), TeamsForms(u))
    {
      var stripped := StripTeamsPrefix(u);
      PushBasic(stripped);
      AddAllConcat(values, UsernameForms(stripped), EmailForms(stripped));
      AddAllConcat(old(values), BasicForms(stripped), UsernameForms(stripped) + EmailForms(stripped));
      PushUsername(stripped);
      PushEmail(stripped);
    }

    method PushCustom(u: string)
      modifies this
      ensures values == AddAll(old(values), CustomForms(u))
    {
      PushUsername(u);
      AddAllConcat(values, PhoneForms(u), EmailForms(u));
      AddAllConcat(old(values), UsernameForms(u), PhoneForms(u) + EmailForms(u));
      PushPhone(u);
      PushEmail(u);
    }

    method PushKind(kind: ChannelKind, unprefixed: string)
      modifies this
      ensures values == AddAll(old(values), KindForms(kind, unprefixed))
    {
      hide MentionForms, PhoneForms, MatrixForms, SlackForms, TeamsForms, WebForms, CustomForms;
      match kind {
        case Telegram | Discord | IRC => PushMention(unprefixed);
        case WhatsApp | Signal | IMessage => PushPhone(unprefixed);
        case Matrix => PushMatrix(unprefixed);
        case Slack => PushSlack(unprefixed);
        case Teams => PushTeams(unprefixed);
        case WebChat => PushWeb(unprefixed);
        case Custom(_) => PushCustom(unprefixed);
      }
    }
  }

  /** Fills a fresh vector the way `channel_handle_candidates` does. */
  method ChannelHandleCandidates(kind: ChannelKind, handle: string) returns (values: seq<string>)
    ensures values == Candidates(kind, handle)
    ensures NoDuplicates(values)
  {
    CandidatesClosed(kind, handle);
    var trimmed := Trim(handle);
    if trimmed == "" {
      return [];
    }
    var list := new HandleVec();
    list.PushBasic(trimmed);
    var unprefixed := StripChannelPrefix(trimmed);
    AddAllConcat([], BasicForms(trimmed), BasicForms(unprefixed) + KindForms(kind, unprefixed));
    AddAllConcat(list.values, BasicForms(unprefixed), KindForms(kind, unprefixed));
    list.PushBasic(unprefixed);
    list.PushKind(kind, unprefixed);
    values := list.values;
  }
}
