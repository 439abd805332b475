/** Context building and consolidation across the memory tiers (crates/ngenorca-memory/src/lib.rs). */
module MemoryManager {
  import opened MemoryStores
  import WorkingMemory

  // ---------- context budgets ----------

  datatype Intent =
    | QuestionAnswering | Conversation | Summarization | Translation | Extraction | Coding | ToolUse
    | Analysis | Planning | Reasoning | Creative | Vision | UnknownIntent | CustomIntent(name: string)

  datatype Profile = Profile(semanticFraction: nat, episodicFraction: nat, episodicLimit: nat)

  const DEFAULT_PROFILE := Profile(4, 4, 5)

  function RetrievalProfile(intent: Intent): Profile {
    match intent
    case QuestionAnswering | Conversation => Profile(5, 5, 3)
    case Summarization | Translation | Extraction => Profile(5, 3, 4)
    case Coding | ToolUse => Profile(3, 3, 6)
    case Analysis | Planning | Reasoning => Profile(4, 2, 8)
    case Creative => Profile(5, 2, 6)
    case Vision | UnknownIntent | CustomIntent(_) => DEFAULT_PROFILE
  }

  function Share(budget: nat, fraction: nat): nat {
    budget / if fraction > 1 then fraction else 1
  }

  datatype ContextPack = ContextPack(facts: seq<Fact>, episodes: seq<Episode>, working: seq<WorkingMemory.Message>,
                                     totalTokens: nat)

  function FactBytes(facts: seq<Fact>): nat {
    if facts == [] then 0 else FactBytes(facts[..|facts| - 1]) + Utf8.Len(facts[|facts| - 1].text)
  }

  function EpisodeBytes(episodes: seq<Episode>): nat {
    if episodes == [] then 0 else EpisodeBytes(episodes[..|episodes| - 1]) + Utf8.Len(episodes[|episodes| - 1].content)
  }

  function WorkingBytes(messages: seq<WorkingMemory.Message>): nat {
    if messages == [] then 0 else WorkingBytes(messages[..|messages| - 1]) + Utf8.Len(messages[|messages| - 1].content)
  }

  /** Retrieved memory takes at most three quarters of the budget, or it is one single episode too long
      for its share. */
  predicate WithinThreeQuarters(pack: ContextPack, budget: nat, profile: Profile) {
    || 4 * (FactBytes(pack.facts) / 4 + EpisodeBytes(pack.episodes) / 4) <= 3 * budget
    || (|pack.episodes| == 1 && EpisodeChars(pack.episodes[0]) > 4 * Share(budget, profile.episodicFraction))
  }

  /** The two shares are at most three quarters of the budget. */
  predicate WithinShares(budget: nat, profile: Profile) {
    4 * (Share(budget, profile.semanticFraction) + Share(budget, profile.episodicFraction)) <= 3 * budget
  }

  /** What each kind of task gets: one part in so many of the budget for facts and for episodes,
      and so many episodes. */
  predicate TaskGets(intent: Intent, facts: nat, episodes: nat, limit: nat) {
    match intent
    case QuestionAnswering | Conversation => (facts, episodes, limit) == (5, 5, 3)
    case Summarization | Translation | Extraction => (facts, episodes, limit) == (5, 3, 4)
    case Coding | ToolUse => (facts, episodes, limit) == (3, 3, 6)
    case Analysis | Planning | Reasoning => (facts, episodes, limit) == (4, 2, 8)
    case Creative => (facts, episodes, limit) == (5, 2, 6)
    case Vision | UnknownIntent | CustomIntent(_) => (facts, episodes, limit) == (4, 4, 5)
  }

  /** No profile hands out more than three quarters. */
  lemma SharesBound(budget: nat, intent: Intent)
    ensures WithinShares(budget, RetrievalProfile(intent)) && WithinShares(budget, DEFAULT_PROFILE)
  {
  }

  lemma RetrievedWithinThreeQuarters(pack: ContextPack, budget: nat, profile: Profile)
    requires FactChars(pack.facts) <= 4 * Share(budget, profile.semanticFraction)
    requires TotalChars(pack.episodes) <= 4 * Share(budget, profile.episodicFraction) || |pack.episodes| == 1
    requires WithinShares(budget, profile)
    ensures WithinThreeQuarters(pack, budget, profile)
  {
    FactBytesMeaning(pack.facts);
    EpisodeBytesMeaning(pack.episodes);
    if |pack.episodes| == 1 {
      assert pack.episodes[..0] == [];
      assert TotalChars(pack.episodes) == EpisodeChars(pack.episodes[0]);
    }
  }

  /** Every intent has its numbers, and the profile is made of them. */
  lemma ProfileGets(intent: Intent)
    ensures forall facts, episodes, limit ::
              TaskGets(intent, facts, episodes, limit) <==>
                && facts == RetrievalProfile(intent).semanticFraction
                && episodes == RetrievalProfile(intent).episodicFraction
                && limit == RetrievalProfile(intent).episodicLimit
    ensures RetrievalProfile(intent).semanticFraction > 0 && RetrievalProfile(intent).episodicFraction > 0
  {
  }

  /** The context holds the longest prefix of the ranked facts within four characters per token of their share,
      and the episodes end only at the limit or where the next one would not fit theirs. */
  ghost predicate HoldsAllThatFits(pack: ContextPack, ranked: seq<Fact>, scored: seq<Episode>, factShare: nat,
                                   episodeShare: nat, limit: nat) {
    && pack.facts <= ranked && LongestFitting(ranked, 4 * factShare, |pack.facts|)
    && IsTrimmed(scored, limit, 4 * episodeShare, pack.episodes)
  }

  lemma FitsShares(ranked: seq<Fact>, scored: seq<Episode>, facts: seq<Fact>, episodes: seq<Episode>, budget: nat,
                   profile: Profile)
    requires facts <= ranked && LongestFitting(ranked, Share(budget, profile.semanticFraction) * 4, |facts|)
    requires IsTrimmed(scored, profile.episodicLimit, Share(budget, profile.episodicFraction) * 4, episodes)
    ensures FactChars(facts) <= 4 * Share(budget, profile.semanticFraction)
    ensures TotalChars(episodes) <= 4 * Share(budget, profile.episodicFraction) || |episodes| == 1
    ensures profile.semanticFraction > 0 ==>
              Share(budget, profile.semanticFraction) == budget / profile.semanticFraction
    ensures profile.episodicFraction > 0 ==>
              Share(budget, profile.episodicFraction) == budget / profile.episodicFraction
  {
    assert facts == ranked[..|facts|];
  }

  // ---------- what the token estimate counts ----------

  function FactText(facts: seq<Fact>): string {
    if facts == [] then "" else FactText(facts[..|facts| - 1]) + facts[|facts| - 1].text
  }

  function EpisodeText(episodes: seq<Episode>): string {
    if episodes == [] then "" else EpisodeText(episodes[..|episodes| - 1]) + episodes[|episodes| - 1].content
  }

  function WorkingText(messages: seq<WorkingMemory.Message>): string {
    if messages == [] then "" else WorkingText(messages[..|messages| - 1]) + messages[|messages| - 1].content
  }

  /** The estimate of a block is the length of its texts put together, in bytes. */
  lemma {:induction false} FactBytesMeaning(facts: seq<Fact>)
    ensures FactBytes(facts) == |Utf8.Encode(FactText(facts))| && FactChars(facts) == FactBytes(facts) + 20 * |facts|
  {
    if facts != [] {
      FactBytesMeaning(facts[..|facts| - 1]);
      Utf8.EncodeConcat(FactText(facts[..|facts| - 1]), facts[|facts| - 1].text);
    }
  }

  lemma {:induction false} EpisodeBytesMeaning(episodes: seq<Episode>)
    ensures EpisodeBytes(episodes) == |Utf8.Encode(EpisodeText(episodes))|
    ensures TotalChars(episodes) == EpisodeBytes(episodes) + |Utf8.Encode(SummaryText(episodes))|
  {
    if episodes != [] {
      var front, last := episodes[..|episodes| - 1], episodes[|episodes| - 1];
      EpisodeBytesMeaning(front);
      Utf8.EncodeConcat(EpisodeText(front), last.content);
      Utf8.EncodeConcat(SummaryText(front), if last.summary.Some? then last.summary.value else "");
    }
  }

  function SummaryText(episodes: seq<Episode>): string {
    if episodes == [] then ""
    else
      var last := episodes[|episodes| - 1];
      SummaryText(episodes[..|episodes| - 1]) + if last.summary.Some? then last.summary.value else ""
  }

  lemma {:induction false} WorkingBytesMeaning(messages: seq<WorkingMemory.Message>)
    ensures WorkingBytes(messages) == |Utf8.Encode(WorkingText(messages))|
  {
    if messages != [] {
      WorkingBytesMeaning(messages[..|messages| - 1]);
      Utf8.EncodeConcat(WorkingText(messages[..|messages| - 1]), messages[|messages| - 1].content);
    }
  }

  // ---------- consolidation ----------

  /** A fact extracted from an episode. */
  datatype Extracted = Extracted(category: string, text: string, episode: nat)

  /** Pattern extraction and Unicode lowercasing, both arbitrary. */
  datatype Rules = Rules(extract: string -> seq<(string, string)>, lower: string -> string)

  function Tag(pairs: seq<(string, string)>, episode: nat): (r: seq<Extracted>)
    ensures |r| == |pairs|
    ensures forall i :: 0 <= i < |pairs| ==> r[i] == Extracted(pairs[i].0, pairs[i].1, episode)
  {
    seq(|pairs|, i requires 0 <= i < |pairs| => Extracted(pairs[i].0, pairs[i].1, episode))
  }

  function ExtractAll(rules: Rules, entries: seq<Episode>): seq<Extracted> {
    if entries == [] then []
    else
      var last := entries[|entries| - 1];
      ExtractAll(rules, entries[..|entries| - 1]) + Tag(rules.extract(last.content), last.id)
  }

  function Keys(rules: Rules, xs: seq<Extracted>): set<string> {
    set x | x in xs :: rules.lower(x.text)
  }

  /** The extracted facts whose key is neither known nor met before. */
  function Novel(rules: Rules, known: set<string>, xs: seq<Extracted>): seq<Extracted> {
    if xs == [] then []
    else
      var last := |xs| - 1;
      var earlier := Novel(rules, known, xs[..last]);
      var key := rules.lower(xs[last].text);
      if key in known || key in Keys(rules, earlier) then earlier else earlier + [xs[last]]
  }

  lemma KeysAppend(rules: Rules, xs: seq<Extracted>, x: Extracted)
    ensures Keys(rules, xs + [x]) == Keys(rules, xs) + {rules.lower(x.text)}
  {
    assert x in xs + [x];
    assert forall y :: y in xs ==> y in xs + [x];
  }

  /** One more extracted fact: it is novel unless its key is known or was met before. */
  lemma NovelNext(rules: Rules, known: set<string>, xs: seq<Extracted>, x: Extracted)
    ensures var novel := Novel(rules, known, xs);
            Novel(rules, known, xs + [x]) ==
              if rules.lower(x.text) in known + Keys(rules, novel) then novel else novel + [x]
  {
    hide Keys;
    assert (xs + [x])[..|xs|] == xs;
  }

  /** No two of the facts are equal ignoring case. */
  ghost predicate DistinctKeys(rules: Rules, xs: seq<Extracted>) {
    forall i, j :: 0 <= i < j < |xs| ==> rules.lower(xs[i].text) != rules.lower(xs[j].text)
  }

  lemma DistinctKeysAppend(rules: Rules, xs: seq<Extracted>, x: Extracted)
    requires DistinctKeys(rules, xs) && rules.lower(x.text) !in Keys(rules, xs)
    ensures DistinctKeys(rules, xs + [x])
  {
    forall i, j | 0 <= i < j < |xs + [x]|
      ensures rules.lower((xs + [x])[i].text) != rules.lower((xs + [x])[j].text)
    {
      assert xs[i] in xs && rules.lower(xs[i].text) in Keys(rules, xs);
    }
  }

  lemma {:induction false} NovelIsDistinct(rules: Rules, known: set<string>, xs: seq<Extracted>)
    ensures DistinctKeys(rules, Novel(rules, known, xs))
  {
    hide Keys, DistinctKeys;
    if xs == [] {
      assert DistinctKeys(rules, []) by { NothingDistinct(rules); }
    } else {
      var front, x := xs[..|xs| - 1], xs[|xs| - 1];
      NovelIsDistinct(rules, known, front);
      if rules.lower(x.text) !in Keys(rules, Novel(rules, known, front)) {
        DistinctKeysAppend(rules, Novel(rules, known, front), x);
      }
    }
  }

  lemma NothingDistinct(rules: Rules)
    ensures DistinctKeys(rules, [])
  {
  }

  /** The keys of the novel facts are those of all facts that were not known. */
  lemma {:induction false} NovelKeys(rules: Rules, known: set<string>, xs: seq<Extracted>)
    ensures Keys(rules, Novel(rules, known, xs)) == Keys(rules, xs) - known
  {
    if xs == [] {
      assert Keys(rules, []) == {};
    } else {
      var front, x := xs[..|xs| - 1], xs[|xs| - 1];
      NovelKeys(rules, known, front);
      assert xs == front + [x];
      hide Keys;
      KeysAppend(rules, front, x);
      KeysAppend(rules, Novel(rules, known, front), x);
    }
  }

  lemma {:induction false} NovelIsExtracted(rules: Rules, known: set<string>, xs: seq<Extracted>, x: Extracted)
    requires x in Novel(rules, known, xs)
    ensures x in xs
  {
    hide Keys;
    if x != xs[|xs| - 1] {
      NovelIsExtracted(rules, known, xs[..|xs| - 1], x);
    }
  }

  /** No two novel facts are equal ignoring case, all of them were extracted, and their keys are exactly
      those of the extracted facts that were not known: none equals a known one, and every key ends up known. */
  lemma NovelMeaning(rules: Rules, known: set<string>, xs: seq<Extracted>)
    ensures var novel := Novel(rules, known, xs);
            && DistinctKeys(rules, novel)
            && (forall x :: x in novel ==> x in xs)
            && Keys(rules, novel) == Keys(rules, xs) - known
  {
    hide Novel, Keys, DistinctKeys;
    NovelIsDistinct(rules, known, xs);
    NovelKeys(rules, known, xs);
    forall x | x in Novel(rules, known, xs)
      ensures x in xs
    {
      NovelIsExtracted(rules, known, xs, x);
    }
  }

  /** Nothing is novel once every key is known. */
  lemma {:induction false} NothingNovel(rules: Rules, known: set<string>, xs: seq<Extracted>)
    requires forall x :: x in xs ==> rules.lower(x.text) in known
    ensures Novel(rules, known, xs) == []
  {
    if xs != [] {
      NothingNovel(rules, known, xs[..|xs| - 1]);
      assert xs[|xs| - 1] in xs;
    }
  }

  const RECENT_LIMIT := 200
  const LOAD_TOKENS := 10_000
  const PRUNE_CONFIDENCE := 0.1
  const PRUNE_AGE := 180 * 86_400_000_000_000

  datatype Store = Store(facts: seq<Fact>, lastFact: nat, episodes: seq<Episode>)

  function KnownKeys(rules: Rules, loaded: seq<Fact>): set<string> {
    set f | f in loaded :: rules.lower(f.text)
  }

  function NewFact(x: Extracted, id: nat, user: string, now: int): Fact {
    Fact(id, user, x.category, x.text, 0.5, [x.episode], now, now, 0)
  }

  function NewFacts(novel: seq<Extracted>, lastFact: nat, user: string, now: int): (r: seq<Fact>)
    ensures |r| == |novel|
    ensures forall i :: 0 <= i < |novel| ==> r[i] == NewFact(novel[i], lastFact + 1 + i, user, now)
  {
    seq(|novel|, i requires 0 <= i < |novel| => NewFact(novel[i], lastFact + 1 + i, user, now))
  }

  /** What a consolidation answers: episodes scanned, facts created, episodes and facts pruned. */
  datatype Summary = Summary(scanned: nat, created: nat, episodesPruned: nat, factsPruned: nat)

  /** One consolidation: the new store and the answer. */
  function Consolidated(rules: Rules, s: Store, user: string, now: int,
                        recent: seq<Episode>, loaded: seq<Fact>, gone: set<nat>): (Store, Summary)
  {
    if recent == [] then (s, Summary(0, 0, 0, 0))
    else
      var novel := Novel(rules, KnownKeys(rules, loaded), ExtractAll(rules, recent));
      var facts := BumpAll(s.facts, IdsOf(loaded)) + NewFacts(novel, s.lastFact, user, now);
      var kept := Without(facts, user, PRUNE_CONFIDENCE, now - PRUNE_AGE);
      (Store(kept, s.lastFact + |novel|, Except(s.episodes, gone)),
       Summary(|recent|, |novel|, |gone|, |facts| - |kept|))
  }

  class Manager {
    const rules: Rules
    const working: WorkingMemory.Memory
    const episodic: EpisodicMemory
    const semantic: SemanticMemory

    constructor (rules: Rules, working: WorkingMemory.Memory, episodic: EpisodicMemory, semantic: SemanticMemory)
      ensures this.rules == rules && this.working == working && this.episodic == episodic && this.semantic == semantic
    {
      this.rules, this.working, this.episodic, this.semantic := rules, working, episodic, semantic;
    }

    function State(): Store
      reads episodic, semantic
    {
      Store(semantic.rows, semantic.lastId, episodic.rows)
    }

    method BuildContextForTask(user: string, session: string, intent: Intent, budget: nat, ranked: seq<Fact>,
                               scored: seq<Episode>)
      returns (pack: ContextPack)
      requires semantic.Valid() && IsRanking(semantic.rows, user, ranked)
      modifies semantic
      ensures semantic.Valid()
      ensures WithinThreeQuarters(pack, budget, RetrievalProfile(intent))
      ensures forall facts, episodes, limit :: TaskGets(intent, facts, episodes, limit) ==>
                HoldsAllThatFits(pack, ranked, scored, budget / facts, budget / episodes, limit)
      ensures AccessedOnce(old(semantic.rows), semantic.rows, IdsOf(pack.facts))
      ensures pack.working == WorkingMemory.ContextOf(working.sessions, session).messages
      ensures pack.totalTokens ==
                FactBytes(pack.facts) / 4 + EpisodeBytes(pack.episodes) / 4 + WorkingBytes(pack.working) / 4
    {
      SharesBound(budget, intent);
      pack := BuildContextWithProfile(user, session, budget, RetrievalProfile(intent), ranked, scored);
      ProfileGets(intent);
    }

    method BuildContext(user: string, session: string, budget: nat, ranked: seq<Fact>, scored: seq<Episode>)
      returns (pack: ContextPack)
      requires semantic.Valid() && IsRanking(semantic.rows, user, ranked)
      modifies semantic
      ensures semantic.Valid()
      ensures WithinThreeQuarters(pack, budget, DEFAULT_PROFILE)
      ensures HoldsAllThatFits(pack, ranked, scored, budget / 4, budget / 4, 5)
      ensures AccessedOnce(old(semantic.rows), semantic.rows, IdsOf(pack.facts))
      ensures pack.working == WorkingMemory.ContextOf(working.sessions, session).messages
    {
      SharesBound(budget, UnknownIntent);
      pack := BuildContextWithProfile(user, session, budget, DEFAULT_PROFILE, ranked, scored);
    }

    method BuildContextWithProfile(user: string, session: string, budget: nat, profile: Profile, ranked: seq<Fact>,
                                   scored: seq<Episode>)
      returns (pack: ContextPack)
      requires semantic.Valid() && IsRanking(semantic.rows, user, ranked)
      modifies semantic
      ensures semantic.Valid()
      ensures WithinShares(budget, profile) ==> WithinThreeQuarters(pack, budget, profile)
      ensures profile.semanticFraction > 0 && profile.episodicFraction > 0 ==>
                HoldsAllThatFits(pack, ranked, scored, budget / profile.semanticFraction,
                                 budget / profile.episodicFraction, profile.episodicLimit)
      ensures AccessedOnce(old(semantic.rows), semantic.rows, IdsOf(pack.facts))
      ensures pack.working == WorkingMemory.ContextOf(working.sessions, session).messages
      ensures pack.totalTokens ==
                FactBytes(pack.facts) / 4 + EpisodeBytes(pack.episodes) / 4 + WorkingBytes(pack.working) / 4
    {
      hide LongestFitting, IsTrimmed, AccessedOnce, IsRanking;
      var facts := semantic.RetrieveForUser(user, Share(budget, profile.semanticFraction), ranked);
      var episodes := TrimEpisodes(scored, profile.episodicLimit, Share(budget, profile.episodicFraction));
      var messages := WorkingMemory.ContextOf(working.sessions, session).messages;
      pack := ContextPack(facts, episodes, messages,
                          FactBytes(facts) / 4 + EpisodeBytes(episodes) / 4 + WorkingBytes(messages) / 4);
      FitsShares(ranked, scored, facts, episodes, budget, profile);
      if WithinShares(budget, profile) {
        RetrievedWithinThreeQuarters(pack, budget, profile);
      }
    }

    /** The arguments `recent`, `ranked` and `gone` are what the three queries of the run answer. */
    method ConsolidateForUser(user: string, now: int, window: nat, maxEpisodes: nat,
                              recent: seq<Episode>, ranked: seq<Fact>, gone: set<nat>)
      returns (summary: Summary, loaded: seq<Fact>)
      requires semantic.Valid() && IsRanking(semantic.rows, user, ranked)
      requires IsRecent(episodic.rows, user, now - window, 200, recent)
      requires AreOldest(episodic.rows, user, maxEpisodes, gone)
      modifies semantic, episodic
      ensures loaded <= ranked && (recent != [] ==> LongestFitting(ranked, 40_000, |loaded|))
      ensures State() == Consolidated(rules, old(State()), user, now, recent, loaded, gone).0
      ensures summary == Consolidated(rules, old(State()), user, now, recent, loaded, gone).1
    {
      summary, loaded := Summary(0, 0, 0, 0), [];
      if recent == [] {
        return;
      }
      loaded := semantic.RetrieveForUser(user, LOAD_TOKENS, ranked);
      var known := KnownKeys(rules, loaded);
      var created := StoreNovel(user, now, known, recent);
      var episodesPruned := episodic.Prune(user, maxEpisodes, gone);
      var factsPruned := semantic.Prune(user, PRUNE_CONFIDENCE, now - PRUNE_AGE);
      summary := Summary(|recent|, created, episodesPruned, factsPruned);
    }

    /** The scanning loop: stores each extracted fact whose lowercase is not known yet and then knows it. */
    method StoreNovel(user: string, now: int, initial: set<string>, recent: seq<Episode>) returns (created: nat)
      requires semantic.Valid()
      modifies semantic
      ensures semantic.Valid()
      ensures var novel := Novel(rules, initial, ExtractAll(rules, recent));
              && created == |novel| && semantic.lastId == old(semantic.lastId) + created
              && semantic.rows == old(semantic.rows) + NewFacts(novel, old(semantic.lastId), user, now)
    {
      var known := initial;
      created := 0;
      assert Keys(rules, []) == {};
      for i := 0 to |recent|
        invariant semantic.Valid()
        invariant Progress(user, now, initial, ExtractAll(rules, recent[..i]), known, created, old(semantic.rows),
                           old(semantic.lastId))
      {
        assert recent[..i + 1][..i] == recent[..i];
        var tagged := Tag(rules.extract(recent[i].content), recent[i].id);
        known, created := StoreTagged(user, now, initial, ExtractAll(rules, recent[..i]), known, created, tagged,
                                      old(semantic.rows), old(semantic.lastId));
      }
      assert recent[..|recent|] == recent;
    }

    /** The inner loop, over the facts of one episode; `xs` are the facts of the earlier ones. */
    method StoreTagged(user: string, now: int, ghost initial: set<string>, ghost xs: seq<Extracted>, known: set<string>,
                       created: nat, tagged: seq<Extracted>, ghost rows: seq<Fact>, ghost lastFact: nat)
      returns (known': set<string>, created': nat)
      requires semantic.Valid() && Progress(user, now, initial, xs, known, created, rows, lastFact)
      modifies semantic
      ensures semantic.Valid() && Progress(user, now, initial, xs + tagged, known', created', rows, lastFact)
    {
      hide Novel, Keys, Progress;
      known', created' := known, created;
      assert xs + tagged[..0] == xs;
      for j := 0 to |tagged|
        invariant semantic.Valid()
        invariant Progress(user, now, initial, xs + tagged[..j], known', created', rows, lastFact)
      {
        assert xs + tagged[..j + 1] == xs + tagged[..j] + [tagged[j]];
        known', created' := StoreOne(user, now, initial, xs + tagged[..j], known', created', tagged[j], rows, lastFact);
      }
      assert tagged[..|tagged|] == tagged;
    }

    method StoreOne(user: string, now: int, ghost initial: set<string>, ghost xs: seq<Extracted>, known: set<string>,
                    created: nat, x: Extracted, ghost rows: seq<Fact>, ghost lastFact: nat)
      returns (known': set<string>, created': nat)
      requires semantic.Valid() && Progress(user, now, initial, xs, known, created, rows, lastFact)
      modifies semantic
      ensures semantic.Valid() && Progress(user, now, initial, xs + [x], known', created', rows, lastFact)
    {
      hide Keys, Novel, NewFacts;
      known', created' := known, created;
      NovelNext(rules, initial, xs, x);
      NewFactsNext(Novel(rules, initial, xs), x, lastFact, user, now);
      var key := rules.lower(x.text);
      if key !in known {
        var id := semantic.StoreFact(NewFact(x, 0, user, now));
        created' := created + 1;
        known' := known + {key};
        KeysAppend(rules, Novel(rules, initial, xs), x);
      }
    }

    ghost predicate Progress(user: string, now: int, initial: set<string>, xs: seq<Extracted>, known: set<string>,
                             created: nat, rows: seq<Fact>, lastFact: nat)
      reads semantic
    {
      var novel := Novel(rules, initial, xs);
      && known == initial + Keys(rules, novel)
      && created == |novel| && semantic.lastId == lastFact + created
      && semantic.rows == rows + NewFacts(novel, lastFact, user, now)
    }
  }

  lemma NewFactsNext(novel: seq<Extracted>, x: Extracted, lastFact: nat, user: string, now: int)
    ensures NewFacts(novel + [x], lastFact, user, now) ==
            NewFacts(novel, lastFact, user, now) + [NewFact(x, lastFact + 1 + |novel|, user, now)]
  {
  }

  // ---------- a second consolidation finds nothing new ----------

  function WindowSet(rows: seq<Episode>, user: string, since: int): set<Episode> {
    set e | e in rows && InWindow(e, user, since)
  }

  lemma {:induction false} DistinctCount(xs: seq<Episode>)
    requires forall i, j :: 0 <= i < j < |xs| ==> xs[i] != xs[j]
    ensures |set e | e in xs| == |xs|
  {
    if xs == [] {
      assert (set e | e in xs) == {};
    } else {
      var front, x := xs[..|xs| - 1], xs[|xs| - 1];
      DistinctCount(front);
      assert xs == front + [x];
      assert (set e | e in xs) == (set e | e in front) + {x};
      assert x !in front;
    }
  }

  lemma SubsetCount(a: set<Episode>, b: set<Episode>)
    requires a <= b
    ensures |a| <= |b|
  {
    assert b == a + (b - a);
  }

  /** When the window holds at most `limit` episodes, the recent query returns all of them. */
  lemma RecentIsAll(rows: seq<Episode>, user: string, since: int, limit: nat, answer: seq<Episode>, e: Episode)
    requires IsRecent(rows, user, since, limit, answer) && |WindowSet(rows, user, since)| <= limit
    requires e in rows && InWindow(e, user, since)
    ensures e in answer
  {
    if e !in answer {
      var listed := set a | a in answer;
      DistinctCount(answer);
      assert listed + {e} <= WindowSet(rows, user, since);
      assert |listed + {e}| == limit + 1;
      SubsetCount(listed + {e}, WindowSet(rows, user, since));
    }
  }

  lemma LoadsAll(ranked: seq<Fact>, budget: nat, loaded: seq<Fact>)
    requires loaded <= ranked && LongestFitting(ranked, budget, |loaded|) && FactChars(ranked) <= budget
    ensures loaded == ranked
  {
    assert ranked[..|ranked|] == ranked;
    if |loaded| < |ranked| {
      FactCharsMonotone(ranked, |loaded| + 1, |ranked|);
    }
  }

  lemma {:induction false} ExtractMember(rules: Rules, entries: seq<Episode>, x: Extracted)
    ensures x in ExtractAll(rules, entries) <==> exists e :: e in entries && x in Tag(rules.extract(e.content), e.id)
  {
    if entries != [] {
      var front, last := entries[..|entries| - 1], entries[|entries| - 1];
      ExtractMember(rules, front, x);
      assert entries == front + [last];
    }
  }

  /** A fact above the recall threshold survives a consolidation with its text. */
  lemma RecalledFactStays(rules: Rules, s: Store, user: string, now: int,
                          recent: seq<Episode>, loaded: seq<Fact>, gone: set<nat>, f: Fact) returns (f': Fact)
    requires f in s.facts && Recalled(f, user)
    ensures f' in Consolidated(rules, s, user, now, recent, loaded, gone).0.facts
    ensures Recalled(f', user) && f'.text == f.text
  {
    hide Novel, ExtractAll, KnownKeys;
    f' := if recent == [] then f else Bump(f, IdsOf(loaded));
    if recent != [] {
      var i :| 0 <= i < |s.facts| && s.facts[i] == f;
      assert BumpAll(s.facts, IdsOf(loaded))[i] == f';
    }
  }

  /** A fact created by a consolidation is recalled by the next one. */
  lemma CreatedFactStays(rules: Rules, s: Store, user: string, now: int,
                         recent: seq<Episode>, loaded: seq<Fact>, gone: set<nat>, x: Extracted) returns (f: Fact)
    requires recent != [] && x in Novel(rules, KnownKeys(rules, loaded), ExtractAll(rules, recent))
    ensures f in Consolidated(rules, s, user, now, recent, loaded, gone).0.facts
    ensures f == Fact(f.id, user, x.category, x.text, 0.5, [x.episode], now, now, 0) && f.id > s.lastFact
    ensures Recalled(f, user) && f.text == x.text
  {
    hide Novel, ExtractAll, KnownKeys;
    var novel := Novel(rules, KnownKeys(rules, loaded), ExtractAll(rules, recent));
    var i :| 0 <= i < |novel| && novel[i] == x;
    f := NewFact(x, s.lastFact + 1 + i, user, now);
    assert NewFacts(novel, s.lastFact, user, now)[i] == f;
  }

  /** A consolidation that scans anything removes just the user's facts below 0.1 that were last confirmed more than
      180 days ago, and leaves every fact it did not create as it was, but for one more access of each loaded one. */
  lemma ConsolidationKeeps(rules: Rules, s: Store, user: string, now: int, recent: seq<Episode>, loaded: seq<Fact>,
                           gone: set<nat>, f: Fact)
    requires recent != [] && f in s.facts
    ensures var f' := f.(accessCount := f.accessCount + if f.id in IdsOf(loaded) then 1 else 0);
            f.user != user || f.confidence >= 0.1 || f.lastConfirmed >= now - 180 * 24 * 3_600_000_000_000 ==>
              f' in Consolidated(rules, s, user, now, recent, loaded, gone).0.facts
    ensures forall g :: g in Consolidated(rules, s, user, now, recent, loaded, gone).0.facts ==>
              g.user != user || g.confidence >= 0.1 || g.lastConfirmed >= now - 180 * 24 * 3_600_000_000_000
  {
    hide Novel, ExtractAll, KnownKeys;
    var i :| 0 <= i < |s.facts| && s.facts[i] == f;
    assert BumpAll(s.facts, IdsOf(loaded))[i] == Bump(f, IdsOf(loaded));
  }

  /** With no new episodes, a second consolidation creates no fact, provided that the window of the first held at most
      200 episodes and that the user's recalled facts fit the load of the second. */
  lemma SecondConsolidationCreatesNone(
      rules: Rules, s: Store, user: string, window: nat,
      now1: int, recent1: seq<Episode>, ranked1: seq<Fact>, loaded1: seq<Fact>, gone1: set<nat>,
      now2: int, recent2: seq<Episode>, ranked2: seq<Fact>, loaded2: seq<Fact>, gone2: set<nat>)
    requires now1 <= now2
    requires IsRecent(s.episodes, user, now1 - window, 200, recent1)
    requires IsRanking(s.facts, user, ranked1) && loaded1 <= ranked1
    requires |WindowSet(s.episodes, user, now1 - window)| <= 200
    requires var s2 := Consolidated(rules, s, user, now1, recent1, loaded1, gone1).0;
             && IsRecent(s2.episodes, user, now2 - window, 200, recent2)
             && IsRanking(s2.facts, user, ranked2)
             && loaded2 <= ranked2 && LongestFitting(ranked2, 40_000, |loaded2|)
             && FactChars(ranked2) <= 40_000
    ensures var s2 := Consolidated(rules, s, user, now1, recent1, loaded1, gone1).0;
            Consolidated(rules, s2, user, now2, recent2, loaded2, gone2).1.created == 0
  {
    hide Novel, ExtractAll, LongestFitting, FactChars;
    var s2 := Consolidated(rules, s, user, now1, recent1, loaded1, gone1).0;
    LoadsAll(ranked2, 40_000, loaded2);
    if recent2 != [] {
      forall x | x in ExtractAll(rules, recent2)
        ensures rules.lower(x.text) in KnownKeys(rules, loaded2)
      {
        SecondKnows(rules, s, user, window, now1, recent1, ranked1, loaded1, gone1, now2, recent2, ranked2, x);
      }
      NothingNovel(rules, KnownKeys(rules, loaded2), ExtractAll(rules, recent2));
    }
  }

  /** An episode that the second consolidation scans was scanned by the first. */
  lemma SeenBefore(rules: Rules, s: Store, user: string, window: nat, now1: int, recent1: seq<Episode>,
                   loaded1: seq<Fact>, gone1: set<nat>, now2: int, recent2: seq<Episode>, e: Episode)
    requires now1 <= now2
    requires IsRecent(s.episodes, user, now1 - window, RECENT_LIMIT, recent1)
    requires |WindowSet(s.episodes, user, now1 - window)| <= RECENT_LIMIT
    requires IsRecent(Consolidated(rules, s, user, now1, recent1, loaded1, gone1).0.episodes, user, now2 - window,
                      RECENT_LIMIT, recent2)
    requires e in recent2
    ensures e in recent1
  {
    hide Novel, ExtractAll, WindowSet, Except;
    assert e in s.episodes by {
      if recent1 != [] {
        ExceptMember(s.episodes, gone1, e);
      }
    }
    RecentIsAll(s.episodes, user, now1 - window, RECENT_LIMIT, recent1, e);
  }

  /** After a consolidation every fact it extracted is there, ignoring case, above the recall threshold. */
  lemma ExtractedIsStored(rules: Rules, s: Store, user: string, now: int, recent: seq<Episode>, ranked: seq<Fact>,
                          loaded: seq<Fact>, gone: set<nat>, x: Extracted) returns (f: Fact)
    requires IsRanking(s.facts, user, ranked) && loaded <= ranked
    requires recent != [] && x in ExtractAll(rules, recent)
    ensures f in Consolidated(rules, s, user, now, recent, loaded, gone).0.facts
    ensures Recalled(f, user) && rules.lower(f.text) == rules.lower(x.text)
  {
    hide Consolidated, Novel, ExtractAll, Recalled;
    var known, xs := KnownKeys(rules, loaded), ExtractAll(rules, recent);
    var key := rules.lower(x.text);
    NovelKeys(rules, known, xs);
    if key in known {
      var g :| g in loaded && rules.lower(g.text) == key;
      assert g in ranked;
      f := RecalledFactStays(rules, s, user, now, recent, loaded, gone, g);
    } else {
      assert key in Keys(rules, xs) && key in Keys(rules, Novel(rules, known, xs));
      var y :| y in Novel(rules, known, xs) && rules.lower(y.text) == key;
      f := CreatedFactStays(rules, s, user, now, recent, loaded, gone, y);
    }
  }

  lemma SecondKnows(rules: Rules, s: Store, user: string, window: nat,
                    now1: int, recent1: seq<Episode>, ranked1: seq<Fact>, loaded1: seq<Fact>, gone1: set<nat>,
                    now2: int, recent2: seq<Episode>, ranked2: seq<Fact>, x: Extracted)
    requires now1 <= now2
    requires IsRecent(s.episodes, user, now1 - window, RECENT_LIMIT, recent1)
    requires IsRanking(s.facts, user, ranked1) && loaded1 <= ranked1
    requires |WindowSet(s.episodes, user, now1 - window)| <= RECENT_LIMIT
    requires var s2 := Consolidated(rules, s, user, now1, recent1, loaded1, gone1).0;
             IsRecent(s2.episodes, user, now2 - window, RECENT_LIMIT, recent2) && IsRanking(s2.facts, user, ranked2)
    requires x in ExtractAll(rules, recent2)
    ensures rules.lower(x.text) in KnownKeys(rules, ranked2)
  {
    hide Consolidated, ExtractAll, WindowSet, IsRecent, Recalled;
    ExtractMember(rules, recent2, x);
    var e :| e in recent2 && x in Tag(rules.extract(e.content), e.id);
    SeenBefore(rules, s, user, window, now1, recent1, loaded1, gone1, now2, recent2, e);
    ExtractMember(rules, recent1, x);
    var f := ExtractedIsStored(rules, s, user, now1, recent1, ranked1, loaded1, gone1, x);
    assert f in ranked2;
  }
}
