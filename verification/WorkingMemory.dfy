/** Tier 1 memory: the per-session message window and its eviction loop (crates/ngenorca-memory/src/working.rs). */
module WorkingMemory {
  import opened Wrappers

  datatype Message = Message(role: string, content: string, tokens: nat) {
    predicate IsSystem() { role == "system" }
  }

  datatype Context = Context(messages: seq<Message>, total: nat, max: nat)

  const DEFAULT_MAX := 128_000

  function Sum(messages: seq<Message>): nat {
    if messages == [] then 0 else messages[0].tokens + Sum(messages[1..])
  }

  /** The system messages, in order. */
  function System(messages: seq<Message>): seq<Message> {
    if messages == [] then []
    else if messages[0].IsSystem() then [messages[0]] + System(messages[1..])
    else System(messages[1..])
  }

  function CountOthers(messages: seq<Message>): nat {
    if messages == [] then 0
    else (if messages[0].IsSystem() then 0 else 1) + CountOthers(messages[1..])
  }

  /** `messages` without its first `k` non-system messages. */
  function DropOldest(messages: seq<Message>, k: nat): seq<Message>
    requires k <= CountOthers(messages)
  {
    if k == 0 then messages
    else if messages[0].IsSystem() then [messages[0]] + DropOldest(messages[1..], k)
    else DropOldest(messages[1..], k - 1)
  }

  /** The eviction loop goes on: over budget, more than two messages, and one of them evictable. */
  predicate MustEvict(messages: seq<Message>, max: nat) {
    Sum(messages) > max && |messages| > 2 && CountOthers(messages) > 0
  }

  function Evict(messages: seq<Message>, max: nat): seq<Message>
    decreases CountOthers(messages)
  {
    if MustEvict(messages, max) then
      DropKeepsSystem(messages, 1);
      Evict(DropOldest(messages, 1), max)
    else messages
  }

  /** A session may stay as it is: within budget, or at most two messages, or system messages only. */
  ghost predicate Settled(messages: seq<Message>, max: nat) {
    || Sum(messages) <= max
    || |messages| <= 2
    || forall i :: 0 <= i < |messages| ==> messages[i].role == "system"
  }

  /** `k` is the least number of evictions that settles the session. */
  ghost predicate LeastEvictions(messages: seq<Message>, max: nat, k: nat) {
    && k <= CountOthers(messages)
    && Settled(DropOldest(messages, k), max)
    && forall j :: 0 <= j < k ==> !Settled(DropOldest(messages, j), max)
  }

  lemma SettledMeaning(messages: seq<Message>, max: nat)
    ensures Settled(messages, max) <==> !MustEvict(messages, max)
  {
    NoOthers(messages);
  }

  // ---------- facts about dropping the oldest ----------

  lemma {:induction false} SumConcat(a: seq<Message>, b: seq<Message>)
    ensures Sum(a + b) == Sum(a) + Sum(b)
  {
    if a == [] {
      assert a + b == b;
    } else {
      assert (a + b)[1..] == a[1..] + b;
      SumConcat(a[1..], b);
    }
  }

  lemma {:induction false} SystemConcat(a: seq<Message>, b: seq<Message>)
    ensures System(a + b) == System(a) + System(b)
  {
    if a == [] {
      assert a + b == b;
    } else {
      assert (a + b)[1..] == a[1..] + b;
      SystemConcat(a[1..], b);
    }
  }

  lemma {:induction false} DropKeepsSystem(messages: seq<Message>, k: nat)
    requires k <= CountOthers(messages)
    ensures System(DropOldest(messages, k)) == System(messages)
    ensures CountOthers(DropOldest(messages, k)) == CountOthers(messages) - k
    ensures |DropOldest(messages, k)| == |messages| - k
  {
    if k > 0 {
      DropKeepsSystem(messages[1..], if messages[0].IsSystem() then k else k - 1);
    }
  }

  lemma {:induction false} DropMore(messages: seq<Message>, j: nat, k: nat)
    requires j + k <= CountOthers(messages)
    ensures CountOthers(DropOldest(messages, j)) >= k
    ensures DropOldest(DropOldest(messages, j), k) == DropOldest(messages, j + k)
  {
    DropKeepsSystem(messages, j);
    if j > 0 {
      if messages[0].IsSystem() {
        var rest := DropOldest(messages[1..], j);
        DropMore(messages[1..], j, k);
        assert DropOldest(messages, j)[1..] == rest;
      } else {
        DropMore(messages[1..], j - 1, k);
      }
    }
  }

  /** What the loop keeps is the list without its k oldest non-system messages, for the least k that settles it. */
  lemma {:induction false} EvictIsLeast(messages: seq<Message>, max: nat) returns (k: nat)
    ensures LeastEvictions(messages, max, k) && Evict(messages, max) == DropOldest(messages, k)
    decreases CountOthers(messages)
  {
    hide Settled;
    k := 0;
    SettledMeaning(messages, max);
    if MustEvict(messages, max) {
      DropKeepsSystem(messages, 1);
      var rest := DropOldest(messages, 1);
      var k' := EvictIsLeast(rest, max);
      k := k' + 1;
      DropMore(messages, 1, k');
      forall j | 0 <= j < k
        ensures !Settled(DropOldest(messages, j), max)
      {
        if j > 0 {
          DropMore(messages, 1, j - 1);
        }
      }
    }
  }

  /** After eviction the session is settled, and every system message is still there, in order. */
  lemma EvictMeaning(messages: seq<Message>, max: nat)
    ensures Settled(Evict(messages, max), max) && System(Evict(messages, max)) == System(messages)
  {
    var k := EvictIsLeast(messages, max);
    DropKeepsSystem(messages, k);
  }

  lemma {:induction false} DropFirst(messages: seq<Message>, i: nat)
    requires i < |messages| && !messages[i].IsSystem() && forall j :: 0 <= j < i ==> messages[j].IsSystem()
    ensures CountOthers(messages) > 0 && DropOldest(messages, 1) == messages[..i] + messages[i + 1..]
  {
    if i > 0 {
      DropFirst(messages[1..], i - 1);
      assert messages[..i] + messages[i + 1..] == [messages[0]] + (messages[1..][..i - 1] + messages[1..][i..]);
    } else {
      assert messages[..0] + messages[1..] == messages[1..];
    }
  }

  lemma RemoveFromSum(messages: seq<Message>, i: nat)
    requires i < |messages|
    ensures Sum(messages) == Sum(messages[..i] + messages[i + 1..]) + messages[i].tokens
  {
    assert messages == messages[..i] + ([messages[i]] + messages[i + 1..]);
    SumConcat(messages[..i], [messages[i]] + messages[i + 1..]);
    SumConcat(messages[..i], messages[i + 1..]);
  }

  lemma {:induction false} NoOthers(messages: seq<Message>)
    ensures CountOthers(messages) == 0 <==> forall i :: 0 <= i < |messages| ==> messages[i].IsSystem()
  {
    if messages != [] {
      NoOthers(messages[1..]);
      assert forall i :: 0 <= i < |messages| - 1 ==> messages[1..][i] == messages[i + 1];
      if forall i :: 0 <= i < |messages| ==> messages[i].IsSystem() {
        assert messages[0].IsSystem();
      } else if messages[0].IsSystem() {
        var i :| 0 <= i < |messages| && !messages[i].IsSystem();
        assert messages[1..][i - 1] == messages[i];
      }
    }
  }

  /** `Iterator::position` of the first non-system message. */
  method FirstOther(messages: seq<Message>) returns (r: Option<nat>)
    ensures r.None? <==> CountOthers(messages) == 0
    ensures r.Some? ==> r.value < |messages| && !messages[r.value].IsSystem()
    ensures r.Some? ==> forall j :: 0 <= j < r.value ==> messages[j].IsSystem()
  {
    NoOthers(messages);
    for i := 0 to |messages|
      invariant forall j :: 0 <= j < i ==> messages[j].IsSystem()
    {
      if !messages[i].IsSystem() {
        return Some(i);
      }
    }
    r := None;
  }

  type Sessions = map<string, Context>

  function ContextOf(sessions: Sessions, id: string): Context {
    if id in sessions then sessions[id] else Context([], 0, DEFAULT_MAX)
  }

  /** The context after pushing a message. */
  function Pushed(ctx: Context, message: Message): Context {
    var kept := Evict(ctx.messages + [message], ctx.max);
    Context(kept, Sum(kept), ctx.max)
  }

  /** A push appends the message and then drops the oldest non-system messages, the new one too if it is one of them,
      just until the session is settled; the total is the sum of what is left, and the budget stays.
      A session that did not exist starts empty, with a budget of 128,000 tokens. */
  lemma PushMeaning(sessions: Sessions, id: string, message: Message) returns (k: nat)
    ensures var ctx := ContextOf(sessions, id);
            var all, pushed := ctx.messages + [message], Pushed(ctx, message);
            && LeastEvictions(all, ctx.max, k) && pushed.messages == DropOldest(all, k)
            && pushed.total == Sum(pushed.messages) && pushed.max == ctx.max
            && (id !in sessions ==> ctx.messages == [] && ctx.max == 128_000)
  {
    var ctx := ContextOf(sessions, id);
    k := EvictIsLeast(ctx.messages + [message], ctx.max);
  }

  /** Every stored token total is the sum over the stored messages. */
  ghost predicate TotalsAreSums(sessions: Sessions) {
    forall id :: id in sessions ==> sessions[id].total == Sum(sessions[id].messages)
  }

  class Memory {
    var sessions: Sessions

    constructor ()
      ensures sessions == map[]
    {
      sessions := map[];
    }

    method Push(id: string, message: Message)
      requires TotalsAreSums(sessions)
      modifies this
      ensures TotalsAreSums(sessions)
      ensures sessions == old(sessions)[id := Pushed(ContextOf(old(sessions), id), message)]
    {
      var ctx := ContextOf(sessions, id);
      SumConcat(ctx.messages, [message]);
      var messages, total := ctx.messages + [message], ctx.total + message.tokens;
      while total > ctx.max && |messages| > 2
        invariant sessions == old(sessions)
        invariant Evict(messages, ctx.max) == Evict(ctx.messages + [message], ctx.max) && total == Sum(messages)
        decreases |messages|
      {
        var idx := FirstOther(messages);
        if idx.None? {
          break;
        }
        DropFirst(messages, idx.value);
        RemoveFromSum(messages, idx.value);
        total := total - messages[idx.value].tokens;
        messages := messages[..idx.value] + messages[idx.value + 1..];
      }
      assert Evict(messages, ctx.max) == messages;
      sessions := sessions[id := Context(messages, total, ctx.max)];
      assert sessions[id] == Pushed(ctx, message);
    }

    method ClearSession(id: string)
      modifies this
      ensures sessions == old(sessions) - {id}
    {
      sessions := sessions - {id};
    }

    /** Has no effect on a session that has not been created yet. */
    method SetMaxTokens(id: string, max: nat)
      modifies this
      ensures sessions == if id in old(sessions) then old(sessions)[id := old(sessions)[id].(max := max)]
                else old(sessions)
    {
      if id in sessions {
        sessions := sessions[id := sessions[id].(max := max)];
      }
    }
  }

  // ---------- over every run ----------

  datatype Op = Push(id: string, message: Message) | Clear(id: string) | SetMax(id: string, max: nat)

  function Step(sessions: Sessions, op: Op): Sessions {
    match op
    case Push(id, message) => sessions[id := Pushed(ContextOf(sessions, id), message)]
    case Clear(id) => sessions - {id}
    case SetMax(id, max) => if id in sessions then sessions[id := sessions[id].(max := max)] else sessions
  }

  function Run(ops: seq<Op>): Sessions {
    if ops == [] then map[] else Step(Run(ops[..|ops| - 1]), ops[|ops| - 1])
  }

  /** The system messages pushed to a session since it was last cleared. */
  function SystemLog(ops: seq<Op>, id: string): seq<Message> {
    if ops == [] then []
    else
      var earlier, op := SystemLog(ops[..|ops| - 1], id), ops[|ops| - 1];
      if op.id != id || op.SetMax? then earlier
      else if op.Clear? then []
      else earlier + System([op.message])
  }

  /** In every run the totals are the sums, and no system message is ever lost or reordered. */
  lemma {:induction false} SystemMessagesSurvive(ops: seq<Op>, id: string)
    ensures TotalsAreSums(Run(ops))
    ensures System(ContextOf(Run(ops), id).messages) == SystemLog(ops, id)
  {
    if ops != [] {
      var before, op := Run(ops[..|ops| - 1]), ops[|ops| - 1];
      SystemMessagesSurvive(ops[..|ops| - 1], id);
      if op.Push? && op.id == id {
        hide Evict, System, Sum;
        var ctx := ContextOf(before, id);
        EvictMeaning(ctx.messages + [op.message], ctx.max);
        SystemConcat(ctx.messages, [op.message]);
      }
    }
  }
}
