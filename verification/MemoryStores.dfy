/** Tier 2 and tier 3 memory: the episodic and the semantic table
    (crates/ngenorca-memory/src/episodic.rs and semantic.rs). What a query returns is any list
    the database may answer; the arguments called `answer` stand for it. */
module MemoryStores {
  import opened Wrappers
  import Utf8

  datatype Fact = Fact(id: nat, user: string, category: string, text: string, confidence: real,
                       sources: seq<nat>, established: int, lastConfirmed: int, accessCount: nat)

  datatype Episode = Episode(id: nat, user: string, content: string, summary: Option<string>, channel: string,
                             timestamp: int)

  // ---------- semantic facts ----------

  const MIN_RECALL := 0.3

  predicate Recalled(f: Fact, user: string) { f.user == user && f.confidence > MIN_RECALL }

  predicate RanksBefore(a: Fact, b: Fact) {
    a.confidence > b.confidence || (a.confidence == b.confidence && a.lastConfirmed >= b.lastConfirmed)
  }

  /** `answer` lists exactly the user's facts above the recall threshold, best first. */
  ghost predicate IsRanking(rows: seq<Fact>, user: string, answer: seq<Fact>) {
    && (forall f :: f in answer <==> f in rows && Recalled(f, user))
    && (forall i, j :: 0 <= i < j < |answer| ==> RanksBefore(answer[i], answer[j]) && answer[i].id != answer[j].id)
  }

  /** What a list of facts costs: its bytes plus twenty per fact. */
  function FactChars(facts: seq<Fact>): nat {
    if facts == [] then 0 else FactChars(facts[..|facts| - 1]) + Utf8.Len(facts[|facts| - 1].text) + 20
  }

  /** `k` facts fit the budget and either these are all of them or one more would not fit. */
  ghost predicate LongestFitting(facts: seq<Fact>, budget: nat, k: nat) {
    && k <= |facts|
    && FactChars(facts[..k]) <= budget
    && (k < |facts| ==> FactChars(facts[..k + 1]) > budget)
  }

  /** Longer prefixes cost more, so the longest fitting prefix is unique. */
  lemma {:induction false} FactCharsMonotone(facts: seq<Fact>, j: nat, k: nat)
    requires j <= k <= |facts|
    ensures FactChars(facts[..j]) + 20 * (k - j) <= FactChars(facts[..k])
  {
    if j < k {
      FactCharsMonotone(facts, j, k - 1);
      assert facts[..k][..k - 1] == facts[..k - 1];
    }
  }

  lemma LongestFittingUnique(facts: seq<Fact>, budget: nat, k1: nat, k2: nat)
    requires LongestFitting(facts, budget, k1) && LongestFitting(facts, budget, k2)
    ensures k1 == k2
  {
    if k1 < k2 {
      FactCharsMonotone(facts, k1 + 1, k2);
    } else if k2 < k1 {
      FactCharsMonotone(facts, k2 + 1, k1);
    }
  }

  predicate DistinctIds(rows: seq<Fact>) {
    forall i, j :: 0 <= i < j < |rows| ==> rows[i].id != rows[j].id
  }

  function Bump(f: Fact, ids: set<nat>): Fact {
    if f.id in ids then f.(accessCount := f.accessCount + 1) else f
  }

  function BumpAll(rows: seq<Fact>, ids: set<nat>): (r: seq<Fact>)
    ensures |r| == |rows|
    ensures forall i :: 0 <= i < |rows| ==> r[i] == Bump(rows[i], ids)
  {
    seq(|rows|, i requires 0 <= i < |rows| => Bump(rows[i], ids))
  }

  function IdsOf(facts: seq<Fact>): set<nat> { set f | f in facts :: f.id }

  predicate Stale(f: Fact, user: string, minConfidence: real, cutoff: int) {
    f.user == user && f.confidence < minConfidence && f.lastConfirmed < cutoff
  }

  function Without(rows: seq<Fact>, user: string, minConfidence: real, cutoff: int): (r: seq<Fact>)
    ensures forall f :: f in r <==> f in rows && !Stale(f, user, minConfidence, cutoff)
    ensures |r| <= |rows|
  {
    if rows == [] then []
    else (if Stale(rows[0], user, minConfidence, cutoff) then [] else [rows[0]])
         + Without(rows[1..], user, minConfidence, cutoff)
  }

  /** The rows after each of the listed facts has been accessed once. */
  predicate AccessedOnce(rows: seq<Fact>, rows': seq<Fact>, ids: set<nat>) {
    && |rows'| == |rows|
    && forall i :: 0 <= i < |rows| ==>
         rows'[i] == rows[i].(accessCount := rows[i].accessCount + if rows[i].id in ids then 1 else 0)
  }

  /** The rows left by a prune: all but those of the user that are both too uncertain and too old. */
  lemma FactPruneMeaning(rows: seq<Fact>, user: string, minConfidence: real, cutoff: int, f: Fact)
    ensures f in Without(rows, user, minConfidence, cutoff) <==>
              f in rows && (f.user != user || f.confidence >= minConfidence || f.lastConfirmed >= cutoff)
  {
  }

  lemma BumpTwice(rows: seq<Fact>, ids: set<nat>, id: nat)
    requires id !in ids
    ensures BumpAll(BumpAll(rows, ids), {id}) == BumpAll(rows, ids + {id})
  {
  }

  lemma NextId(answer: seq<Fact>, result: seq<Fact>, i: nat)
    requires i < |result| && result <= answer
    requires forall i, j :: 0 <= i < j < |answer| ==> answer[i].id != answer[j].id
    ensures result[i].id !in IdsOf(result[..i]) && IdsOf(result[..i + 1]) == IdsOf(result[..i]) + {result[i].id}
  {
    assert result[..i + 1] == result[..i] + [result[i]];
    assert forall j :: 0 <= j < i ==> result[..i][j] == answer[j];
  }

  class SemanticMemory {
    var rows: seq<Fact>
    var lastId: nat

    constructor ()
      ensures rows == [] && lastId == 0
    {
      rows, lastId := [], 0;
    }

    ghost predicate Valid()
      reads this
    {
      DistinctIds(rows) && forall i :: 0 <= i < |rows| ==> rows[i].id <= lastId
    }

    method StoreFact(fact: Fact) returns (id: nat)
      requires Valid()
      modifies this
      ensures Valid() && id == old(lastId) + 1 == lastId
      ensures rows == old(rows) + [fact.(id := id)]
    {
      lastId := lastId + 1;
      id := lastId;
      rows := rows + [fact.(id := id)];
    }

    /** Returns the longest prefix of the ranked facts within four characters per budgeted token,
        and counts one access for each returned fact and for no other. */
    method RetrieveForUser(user: string, tokenBudget: nat, answer: seq<Fact>) returns (result: seq<Fact>)
      requires Valid() && IsRanking(rows, user, answer)
      modifies this
      ensures Valid() && lastId == old(lastId)
      ensures result <= answer && LongestFitting(answer, tokenBudget * 4, |result|)
      ensures rows == BumpAll(old(rows), IdsOf(result)) && AccessedOnce(old(rows), rows, IdsOf(result))
      ensures forall f :: f in result ==> f.user == user && f.confidence > 0.3
    {
      result := FitBudget(answer, tokenBudget * 4);
      rows := BumpAll(rows, {});
      assert rows == old(rows);
      for i := 0 to |result|
        invariant rows == BumpAll(old(rows), IdsOf(result[..i])) && lastId == old(lastId)
      {
        NextId(answer, result, i);
        BumpTwice(old(rows), IdsOf(result[..i]), result[i].id);
        AddAccess(result[i].id);
      }
      assert result[..|result|] == result;
      assert forall f :: f in result ==> f in answer;
    }

    /** `UPDATE semantic_facts SET access_count = access_count + 1 WHERE id = ?` */
    method AddAccess(id: nat)
      modifies this`rows
      ensures rows == BumpAll(old(rows), {id})
    {
      rows := BumpAll(rows, {id});
    }

    method Prune(user: string, minConfidence: real, cutoff: int) returns (count: nat)
      modifies this`rows
      ensures rows == Without(old(rows), user, minConfidence, cutoff) && count == |old(rows)| - |rows|
    {
      count := |rows|;
      rows := Without(rows, user, minConfidence, cutoff);
      count := count - |rows|;
    }
  }

  /** The trimming loop of fact retrieval: stop at the first fact that would exceed the budget. */
  method FitBudget(facts: seq<Fact>, budget: nat) returns (result: seq<Fact>)
    ensures result <= facts && LongestFitting(facts, budget, |result|)
  {
    var total := 0;
    result := [];
    for i := 0 to |facts|
      invariant result == facts[..i] && total == FactChars(facts[..i]) <= budget
    {
      assert facts[..i + 1][..i] == facts[..i];
      total := total + Utf8.Len(facts[i].text) + 20;
      if total > budget {
        break;
      }
      result := result + [facts[i]];
    }
    assert result == facts[..|result|];
  }

  // ---------- episodes ----------

  function EpisodeChars(e: Episode): nat {
    Utf8.Len(e.content) + if e.summary.Some? then Utf8.Len(e.summary.value) else 0
  }

  function TotalChars(entries: seq<Episode>): nat {
    if entries == [] then 0 else TotalChars(entries[..|entries| - 1]) + EpisodeChars(entries[|entries| - 1])
  }

  lemma TotalCharsNext(entries: seq<Episode>, i: nat)
    requires i < |entries|
    ensures TotalChars(entries[..i + 1]) == TotalChars(entries[..i]) + EpisodeChars(entries[i])
  {
    hide EpisodeChars;
    assert entries[..i + 1][..i] == entries[..i];
  }

  /** A prefix of the scored episodes within the limit and the budget, or the first one alone, that ends only
      at the limit or where the next episode would not fit. */
  ghost predicate IsTrimmed(scored: seq<Episode>, limit: nat, budget: nat, trimmed: seq<Episode>) {
    && trimmed <= scored && |trimmed| <= limit
    && (TotalChars(trimmed) <= budget || |trimmed| == 1)
    && (|trimmed| < |scored| && |trimmed| < limit ==>
          trimmed != [] && TotalChars(scored[..|trimmed| + 1]) > budget)
  }

  /** The budget loop of episodic search over the scored entries, best first: the first entry is always taken. */
  method TrimEpisodes(scored: seq<Episode>, limit: nat, tokenBudget: nat) returns (trimmed: seq<Episode>)
    ensures IsTrimmed(scored, limit, tokenBudget * 4, trimmed)
  {
    hide EpisodeChars;
    var budget := tokenBudget * 4;
    var total := 0;
    trimmed := [];
    var n := if |scored| <= limit then |scored| else limit;
    for i := 0 to n
      invariant trimmed == scored[..i] && total == TotalChars(trimmed)
      invariant total <= budget || |trimmed| == 1
    {
      TotalCharsNext(scored, i);
      var chars := EpisodeChars(scored[i]);
      if trimmed != [] && total + chars > budget {
        break;
      }
      total := total + chars;
      trimmed := trimmed + [scored[i]];
    }
    assert trimmed == scored[..|trimmed|];
  }

  predicate InWindow(e: Episode, user: string, since: int) { e.user == user && e.timestamp > since }

  /** `answer` is what the recent query may return: at most `limit` of the user's episodes after `since`,
      oldest first, leaving none out that is older than a returned one. */
  ghost predicate IsRecent(rows: seq<Episode>, user: string, since: int, limit: nat, answer: seq<Episode>) {
    && (forall e :: e in answer ==> e in rows && InWindow(e, user, since))
    && (forall i, j :: 0 <= i < j < |answer| ==> answer[i].timestamp <= answer[j].timestamp && answer[i] != answer[j])
    && |answer| <= limit
    && (forall e :: e in rows && InWindow(e, user, since) && e !in answer ==>
          |answer| == limit && forall a :: a in answer ==> a.timestamp <= e.timestamp)
  }

  function CountOf(rows: seq<Episode>, user: string): nat {
    if rows == [] then 0
    else CountOf(rows[..|rows| - 1], user) + if rows[|rows| - 1].user == user then 1 else 0
  }

  /** How many episodes of the user there are above `max`. */
  function Excess(rows: seq<Episode>, user: string, max: nat): nat {
    if CountOf(rows, user) <= max then 0 else CountOf(rows, user) - max
  }

  /** The positions are those of rows of the user. */
  ghost predicate RowsOf(rows: seq<Episode>, user: string, gone: set<nat>) {
    forall i :: i in gone ==> i < |rows| && rows[i].user == user
  }

  /** `gone` are the positions that a deletion down to `max` episodes may choose: exactly as many of the user's rows
      as there are too many, and none newer than one that stays. */
  ghost predicate AreOldest(rows: seq<Episode>, user: string, max: nat, gone: set<nat>) {
    && RowsOf(rows, user, gone)
    && |gone| == Excess(rows, user, max)
    && (forall i, j :: i in gone && 0 <= j < |rows| && j !in gone && rows[j].user == user ==>
          rows[i].timestamp <= rows[j].timestamp)
  }

  /** The rows that are left, in order. */
  function Except(rows: seq<Episode>, gone: set<nat>): seq<Episode> {
    if rows == [] then []
    else Except(rows[..|rows| - 1], gone) + if |rows| - 1 in gone then [] else [rows[|rows| - 1]]
  }

  lemma ExceptNext(rows: seq<Episode>, gone: set<nat>)
    requires rows != []
    ensures var front, last := rows[..|rows| - 1], |rows| - 1;
            Except(rows, gone) == if last in gone then Except(front, gone) else Except(front, gone) + [rows[last]]
  {
  }

  lemma CountNext(rows: seq<Episode>, e: Episode, user: string)
    ensures CountOf(rows + [e], user) == CountOf(rows, user) + if e.user == user then 1 else 0
  {
    assert (rows + [e])[..|rows|] == rows;
  }

  lemma {:induction false} ExceptMember(rows: seq<Episode>, gone: set<nat>, e: Episode)
    ensures e in Except(rows, gone) <==> exists i :: 0 <= i < |rows| && i !in gone && rows[i] == e
  {
    if rows != [] {
      hide Except;
      ExceptMember(rows[..|rows| - 1], gone, e);
      ExceptNext(rows, gone);
      MemberNext(rows, gone, e);
    }
  }

  lemma MemberNext(rows: seq<Episode>, gone: set<nat>, e: Episode)
    requires rows != []
    ensures var front, last := rows[..|rows| - 1], |rows| - 1;
            (exists i :: 0 <= i < |rows| && i !in gone && rows[i] == e) <==>
              (exists i :: 0 <= i < |front| && i !in gone && front[i] == e) || (last !in gone && rows[last] == e)
  {
    var front := rows[..|rows| - 1];
    if i :| 0 <= i < |rows| && i !in gone && rows[i] == e {
      assert i < |front| ==> front[i] == e;
    }
    if i :| 0 <= i < |front| && i !in gone && front[i] == e {
      assert rows[i] == e;
    }
  }

  lemma RowsOfFront(rows: seq<Episode>, user: string, gone: set<nat>)
    requires rows != [] && RowsOf(rows, user, gone)
    ensures RowsOf(rows[..|rows| - 1], user, gone - {|rows| - 1})
    ensures |rows| - 1 in gone ==> rows[|rows| - 1].user == user
  {
  }

  lemma ExceptFront(rows: seq<Episode>, gone: set<nat>)
    requires rows != []
    ensures Except(rows[..|rows| - 1], gone) == Except(rows[..|rows| - 1], gone - {|rows| - 1})
  {
    SameBelow(rows[..|rows| - 1], gone, gone - {|rows| - 1});
  }

  lemma NoRows(gone: set<nat>, user: string)
    requires RowsOf([], user, gone)
    ensures gone == {} && Except([], gone) == [] && CountOf([], user) == 0
  {
  }

  lemma {:induction false} ExceptCounts(rows: seq<Episode>, gone: set<nat>, user: string)
    requires RowsOf(rows, user, gone)
    ensures |Except(rows, gone)| == |rows| - |gone|
    ensures CountOf(Except(rows, gone), user) == CountOf(rows, user) - |gone|
  {
    hide Except, CountOf, RowsOf;
    if rows == [] {
      NoRows(gone, user);
    } else {
      var front, last := rows[..|rows| - 1], |rows| - 1;
      RowsOfFront(rows, user, gone);
      ExceptCounts(front, gone - {last}, user);
      ExceptFront(rows, gone);
      ExceptNext(rows, gone);
      CountNext(front, rows[last], user);
      CountNext(Except(front, gone), rows[last], user);
      OneLess(gone, last);
      assert front + [rows[last]] == rows;
    }
  }

  lemma OneLess(s: set<nat>, x: nat)
    ensures |s| == |s - {x}| + if x in s then 1 else 0
  {
    if x !in s {
      assert s - {x} == s;
    }
  }

  lemma {:induction false} SameBelow(rows: seq<Episode>, a: set<nat>, b: set<nat>)
    requires forall i: nat :: i < |rows| ==> (i in a <==> i in b)
    ensures Except(rows, a) == Except(rows, b)
  {
    if rows != [] {
      SameBelow(rows[..|rows| - 1], a, b);
    }
  }

  lemma {:induction false} OthersKept(rows: seq<Episode>, gone: set<nat>, user: string, other: string)
    requires RowsOf(rows, user, gone) && other != user
    ensures OfUser(Except(rows, gone), other) == OfUser(rows, other)
  {
    hide Except, OfUser, RowsOf;
    if rows == [] {
      assert Except(rows, gone) == rows by { NoRows(gone, user); }
    } else {
      var front, last := rows[..|rows| - 1], |rows| - 1;
      RowsOfFront(rows, user, gone);
      OthersKept(front, gone - {last}, user, other);
      ExceptFront(rows, gone);
      ExceptNext(rows, gone);
      OfUserNext(front, rows[last], other);
      OfUserNext(Except(front, gone), rows[last], other);
      assert front + [rows[last]] == rows;
    }
  }

  lemma OfUserNext(rows: seq<Episode>, e: Episode, user: string)
    ensures OfUser(rows + [e], user) == OfUser(rows, user) + if e.user == user then [e] else []
  {
    assert (rows + [e])[..|rows|] == rows;
  }

  /** The episodes of one user, in order. */
  function OfUser(rows: seq<Episode>, user: string): seq<Episode> {
    if rows == [] then []
    else OfUser(rows[..|rows| - 1], user) + if rows[|rows| - 1].user == user then [rows[|rows| - 1]] else []
  }

  /** Pruning keeps min(count, max) of the user's episodes, none older than a removed one, and every other user's. */
  lemma PruneMeaning(rows: seq<Episode>, user: string, max: nat, gone: set<nat>)
    requires AreOldest(rows, user, max, gone)
    ensures var kept := Except(rows, gone);
            && CountOf(kept, user) == (if CountOf(rows, user) <= max then CountOf(rows, user) else max)
            && (forall other :: other != user ==> OfUser(kept, other) == OfUser(rows, other))
            && (forall i, e :: i in gone && e in kept && e.user == user ==> rows[i].timestamp <= e.timestamp)
            && (CountOf(rows, user) <= max ==> kept == rows)
  {
    var kept := Except(rows, gone);
    ExceptCounts(rows, gone, user);
    forall other | other != user
      ensures OfUser(kept, other) == OfUser(rows, other)
    {
      OthersKept(rows, gone, user, other);
    }
    forall i, e | i in gone && e in kept && e.user == user
      ensures rows[i].timestamp <= e.timestamp
    {
      ExceptMember(rows, gone, e);
    }
    if CountOf(rows, user) <= max {
      ExceptNothing(rows);
    }
  }

  lemma {:induction false} ExceptNothing(rows: seq<Episode>)
    ensures Except(rows, {}) == rows
  {
    if rows != [] {
      ExceptNothing(rows[..|rows| - 1]);
    }
  }

  class EpisodicMemory {
    var rows: seq<Episode>
    var lastId: nat

    constructor ()
      ensures rows == [] && lastId == 0
    {
      rows, lastId := [], 0;
    }

    method Store(entry: Episode) returns (id: nat)
      modifies this
      ensures id == old(lastId) + 1 == lastId && rows == old(rows) + [entry.(id := id)]
    {
      lastId := lastId + 1;
      id := lastId;
      rows := rows + [entry.(id := id)];
    }

    /** Keeps the newest `max` of the user's episodes; `gone` is what the deletion picks when there are more. */
    method Prune(user: string, max: nat, gone: set<nat>) returns (count: nat)
      requires AreOldest(rows, user, max, gone)
      modifies this`rows
      ensures rows == Except(old(rows), gone)
      ensures count == |gone| == |old(rows)| - |rows|
    {
      ExceptCounts(rows, gone, user);
      if CountOf(rows, user) <= max {
        ExceptNothing(rows);
        return 0;
      }
      count := CountOf(rows, user) - max;
      rows := Except(rows, gone);
    }
  }
}
