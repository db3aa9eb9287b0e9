/** The agent's tool-call loop and its per-message deduplication of MCP calls (runAgentLoop in agent/loop.go,
    agent/mcp_tool_dedup.go, agent/context.go). */
module ToolLoop {
  import opened Wrappers

  const MCP_PREFIX := "mcp_"
  const NUL := '\0'
  /** Fixed wording: the note put before a reused result (agent/loop.go:521) and the text returned when the
      iterations run out (agent/loop.go:583). */
  datatype Texts = Texts(duplicateNote: string, maxIterations: string)

  /** The arguments of a call: absent, or the JSON they marshal to (None when they cannot be marshalled). */
  datatype Args = Nil | Object(json: Option<string>)

  datatype ToolCall = ToolCall(id: string, name: string, args: Args)

  datatype CallDef = CallDef(id: string, name: string, arguments: string)

  datatype ChatMessage = ChatMessage(role: string, content: string, toolCalls: seq<CallDef>, toolCallId: string,
        name: string)

  /** The provider's answer to one Chat call. */
  datatype ChatReply = ChatError | Reply(content: string, toolCalls: seq<ToolCall>)

  /** The outcome of one tool execution. */
  datatype Execution = Done(result: string) | Failed(error: string)

  function ResultText(e: Execution): (r: string)
    ensures e.Done? ==> r == e.result
    ensures e.Failed? ==> r == "Error: " + e.error
  {
    match e case Done(r) => r case Failed(err) => "Error: " + err
  }

  // ---------------------------------------------------------------- which calls are duplicates

  /** Missing arguments, and ones that cannot be marshalled, count as empty. */
  function ArgsJson(a: Args): (r: string)
    ensures a != Object(Some(r)) ==> r == "{}" && (a == Nil || a == Object(None))
  {
    match a
    case Nil => "{}"
    case Object(json) => if json.None? then "{}" else json.value
  }

  function DedupKey(c: ToolCall): Option<string> {
    if c.name == "" || !(MCP_PREFIX <= c.name) then None else Some(c.name + [NUL] + ArgsJson(c.args))
  }

  /** JSON text has no NUL in it, so the key tells two calls apart exactly by name and arguments. */
  lemma KeyIdentifiesCall(c: ToolCall, d: ToolCall)
    requires DedupKey(c).Some? && DedupKey(d).Some?
    requires NUL !in ArgsJson(c.args) && NUL !in ArgsJson(d.args)
    ensures DedupKey(c) == DedupKey(d) <==> c.name == d.name && ArgsJson(c.args) == ArgsJson(d.args)
  {
    if DedupKey(c) == DedupKey(d) {
      SeparatorFound(c.name, ArgsJson(c.args), d.name, ArgsJson(d.args));
      SeparatorFound(d.name, ArgsJson(d.args), c.name, ArgsJson(c.args));
      var key := DedupKey(c).value;
      assert key[..|c.name|] == c.name && key[..|d.name|] == d.name;
      assert key[|c.name| + 1..] == ArgsJson(c.args) && key[|d.name| + 1..] == ArgsJson(d.args);
    }
  }

  /** MCP calls, which are known by their names, have a key, and no other calls. */
  lemma OnlyMcpHasKey(c: ToolCall)
    ensures DedupKey(c).Some? <==> "mcp_" <= c.name
  {
  }

  lemma SeparatorFound(a: string, x: string, b: string, y: string)
    requires a + [NUL] + x == b + [NUL] + y && NUL !in y
    ensures |a| <= |b|
  {
    var s := a + [NUL] + x;
    assert s[|a|] == NUL;
    assert forall i :: |b| < i < |s| ==> s[i] == y[i - |b| - 1];
  }

  /** No earlier call of the batch is the same MCP call. */
  predicate IsFresh(calls: seq<ToolCall>, i: nat)
    requires i < |calls|
  {
    DedupKey(calls[i]).None? || forall j :: 0 <= j < i ==> DedupKey(calls[j]) != DedupKey(calls[i])
  }

  /** The first call of the batch that is the same as call i. */
  function FirstSame(calls: seq<ToolCall>, i: nat, from: nat): (j: nat)
    requires from <= i < |calls|
    ensures from <= j <= i && DedupKey(calls[j]) == DedupKey(calls[i])
    ensures forall k :: from <= k < j ==> DedupKey(calls[k]) != DedupKey(calls[i])
    decreases i - from
  {
    if DedupKey(calls[from]) == DedupKey(calls[i]) then from else FirstSame(calls, i, from + 1)
  }

  /** How many of the first n calls are executed. */
  function RunsBefore(calls: seq<ToolCall>, n: nat): nat
    requires n <= |calls|
  {
    if n == 0 then 0 else RunsBefore(calls, n - 1) + (if IsFresh(calls, n - 1) then 1 else 0)
  }

  /** The result of the first call that is the same as call i. */
  function FirstResult(calls: seq<ToolCall>, i: nat, exec: nat -> Execution, first: nat): string
    requires i < |calls|
  {
    ResultText(exec(first + RunsBefore(calls, FirstSame(calls, i, 0))))
  }

  /** The answer to call i when the batch's first execution is number `first`: a fresh call is executed, a
      duplicate gets the note and the result of the first same call. */
  function Answer(texts: Texts, calls: seq<ToolCall>, i: nat, exec: nat -> Execution, first: nat): string
    requires i < |calls|
  {
    if IsFresh(calls, i) then ResultText(exec(first + RunsBefore(calls, i)))
    else texts.duplicateNote + FirstResult(calls, i, exec, first)
  }

  function Names(calls: seq<ToolCall>): (r: seq<string>)
    ensures |r| == |calls| && forall i :: 0 <= i < |r| ==> r[i] == calls[i].name
  {
    seq(|calls|, i requires 0 <= i < |calls| => calls[i].name)
  }

  /** Of the calls with the same MCP key exactly one is executed, the first. */
  lemma ExecutedOnce(calls: seq<ToolCall>, i: nat, j: nat)
    requires i < |calls| && j < |calls| && DedupKey(calls[i]).Some? && DedupKey(calls[j]) == DedupKey(calls[i])
    ensures IsFresh(calls, j) <==> j == FirstSame(calls, i, 0)
  {
    if i < j {
      assert FirstSame(calls, i, 0) <= i;
    }
  }

  predicate SameCall(c: ToolCall, d: ToolCall) {
    c.name == d.name && ArgsJson(c.args) == ArgsJson(d.args)
  }

  /** An MCP call with the name and the arguments of an earlier one. */
  predicate IsDuplicate(calls: seq<ToolCall>, i: nat)
    requires i < |calls|
  {
    "mcp_" <= calls[i].name && exists j :: 0 <= j < i && SameCall(calls[j], calls[i])
  }

  /** Call j is the first with the name and the arguments of call i. */
  predicate IsFirstSame(calls: seq<ToolCall>, i: nat, j: int)
    requires i < |calls|
  {
    0 <= j <= i && SameCall(calls[j], calls[i]) && forall k :: 0 <= k < j ==> !SameCall(calls[k], calls[i])
  }

  /** JSON text has no NUL in it. */
  predicate NulFree(calls: seq<ToolCall>) {
    forall c :: c in calls ==> NUL !in ArgsJson(c.args)
  }

  /** The first n calls but the duplicates. */
  function Originals(calls: seq<ToolCall>, n: nat): set<nat>
    requires n <= |calls|
  {
    set i: nat | i < n && !IsDuplicate(calls, i)
  }

  /** What a batch does, by names and arguments: a duplicate is not executed and is answered with the note and the
      result of the first same call; every other call is executed, in order, and answered with its own result. */
  ghost predicate AnswersBatch(texts: Texts, calls: seq<ToolCall>, exec: nat -> Execution, first: nat,
                               results: seq<string>, runs: nat) {
    && |results| == |calls| && runs == |Originals(calls, |calls|)|
    && (forall i: nat :: i < |calls| && !IsDuplicate(calls, i) ==>
          results[i] == ResultText(exec(first + |Originals(calls, i)|)))
    && (forall i: nat :: i < |calls| && IsDuplicate(calls, i) ==> IsReused(texts, calls, i, results))
  }

  ghost predicate IsReused(texts: Texts, calls: seq<ToolCall>, i: nat, results: seq<string>)
    requires i < |calls| == |results|
  {
    exists j: nat :: j < i && IsFirstSame(calls, i, j) && !IsDuplicate(calls, j)
                     && results[i] == texts.duplicateNote + results[j]
  }

  lemma SameKey(calls: seq<ToolCall>, i: nat, j: nat)
    requires i < |calls| && j < |calls| && NulFree(calls) && "mcp_" <= calls[i].name
    ensures DedupKey(calls[j]) == DedupKey(calls[i]) <==> SameCall(calls[j], calls[i])
  {
    hide ArgsJson, DedupKey;
    assert calls[i] in calls && calls[j] in calls;
    OnlyMcpHasKey(calls[i]);
    OnlyMcpHasKey(calls[j]);
    if DedupKey(calls[j]).Some? {
      KeyIdentifiesCall(calls[j], calls[i]);
    }
  }

  lemma FreshIsOriginal(calls: seq<ToolCall>, i: nat)
    requires i < |calls| && NulFree(calls)
    ensures IsFresh(calls, i) <==> !IsDuplicate(calls, i)
    ensures IsDuplicate(calls, i) ==> FirstSame(calls, i, 0) < i && IsFirstSame(calls, i, FirstSame(calls, i, 0))
  {
    hide ArgsJson, DedupKey, SameCall;
    OnlyMcpHasKey(calls[i]);
    if "mcp_" <= calls[i].name {
      forall j | 0 <= j <= i
        ensures DedupKey(calls[j]) == DedupKey(calls[i]) <==> SameCall(calls[j], calls[i])
      {
        SameKey(calls, i, j);
      }
    }
  }

  lemma {:induction false} RunsAreOriginals(calls: seq<ToolCall>, n: nat)
    requires n <= |calls| && NulFree(calls)
    ensures RunsBefore(calls, n) == |Originals(calls, n)|
  {
    hide IsFresh, IsDuplicate, NulFree;
    if n == 0 {
      assert Originals(calls, 0) == {};
    } else {
      RunsAreOriginals(calls, n - 1);
      FreshIsOriginal(calls, n - 1);
      assert Originals(calls, n) == Originals(calls, n - 1) + if IsFresh(calls, n - 1) then {n - 1} else {};
    }
  }

  lemma BatchAnswered(texts: Texts, calls: seq<ToolCall>, exec: nat -> Execution, first: nat, results: seq<string>)
    requires NulFree(calls) && |results| == |calls|
    requires forall i :: 0 <= i < |calls| ==> results[i] == Answer(texts, calls, i, exec, first)
    ensures AnswersBatch(texts, calls, exec, first, results, RunsBefore(calls, |calls|))
  {
    hide IsDuplicate, NulFree, ResultText, RunsBefore, Originals, Answer, IsReused;
    RunsAreOriginals(calls, |calls|);
    forall i: nat | i < |calls| && !IsDuplicate(calls, i)
      ensures results[i] == ResultText(exec(first + |Originals(calls, i)|))
    {
      OriginalAnswered(texts, calls, i, exec, first);
    }
    forall i: nat | i < |calls| && IsDuplicate(calls, i)
      ensures IsReused(texts, calls, i, results)
    {
      DuplicateAnswered(texts, calls, i, exec, first, results);
    }
  }

  lemma OriginalAnswered(texts: Texts, calls: seq<ToolCall>, i: nat, exec: nat -> Execution, first: nat)
    requires NulFree(calls) && i < |calls| && !IsDuplicate(calls, i)
    ensures Answer(texts, calls, i, exec, first) == ResultText(exec(first + |Originals(calls, i)|))
  {
    hide IsFresh, IsDuplicate, NulFree, ResultText, RunsBefore, Originals;
    FreshIsOriginal(calls, i);
    RunsAreOriginals(calls, i);
  }

  lemma DuplicateAnswered(texts: Texts, calls: seq<ToolCall>, i: nat, exec: nat -> Execution, first: nat,
                          results: seq<string>)
    requires NulFree(calls) && i < |calls| == |results| && IsDuplicate(calls, i)
    requires forall k :: 0 <= k < |calls| ==> results[k] == Answer(texts, calls, k, exec, first)
    ensures IsReused(texts, calls, i, results)
  {
    hide IsFresh, IsDuplicate, NulFree, ResultText, RunsBefore, IsFirstSame;
    var j := FirstSame(calls, i, 0);
    FreshIsOriginal(calls, i);
    FirstIsFresh(calls, i);
    FreshIsOriginal(calls, j);
    assert results[j] == Answer(texts, calls, j, exec, first);
  }

  lemma FirstIsFresh(calls: seq<ToolCall>, i: nat)
    requires i < |calls|
    ensures var j := FirstSame(calls, i, 0); IsFresh(calls, j)
  {
    hide DedupKey;
  }

  /** What the dedup map holds after i calls: for each of their keys the first result, and nothing else. */
  ghost predicate Remembers(calls: seq<ToolCall>, i: nat, exec: nat -> Execution, first: nat, dedup: map<string,
        string>)
    requires i <= |calls|
  {
    && (forall j :: 0 <= j < i && DedupKey(calls[j]).Some? ==>
          DedupKey(calls[j]).value in dedup && dedup[DedupKey(calls[j]).value] == FirstResult(calls, j, exec, first))
    && (forall key :: key in dedup ==> exists j :: 0 <= j < i && DedupKey(calls[j]) == Some(key))
  }

  lemma SameFirst(calls: seq<ToolCall>, i: nat, j: nat, exec: nat -> Execution, first: nat)
    requires j < i < |calls| && DedupKey(calls[j]) == DedupKey(calls[i])
    ensures FirstResult(calls, j, exec, first) == FirstResult(calls, i, exec, first)
    ensures DedupKey(calls[i]).Some? ==> !IsFresh(calls, i)
  {
    hide DedupKey, ResultText, RunsBefore;
    assert FirstSame(calls, j, 0) == FirstSame(calls, i, 0);
  }

  lemma FreshFirst(calls: seq<ToolCall>, i: nat, exec: nat -> Execution, first: nat)
    requires i < |calls| && forall j :: 0 <= j < i ==> DedupKey(calls[j]) != DedupKey(calls[i])
    ensures IsFresh(calls, i) && FirstResult(calls, i, exec, first) == ResultText(exec(first + RunsBefore(calls, i)))
  {
    hide DedupKey, ResultText, RunsBefore, FirstSame;
    var j := FirstSame(calls, i, 0);
    assert j == i;
  }

  lemma KnownKey(texts: Texts, calls: seq<ToolCall>, i: nat, exec: nat -> Execution, first: nat, dedup: map<string,
        string>)
    requires i < |calls| && Remembers(calls, i, exec, first, dedup)
    requires DedupKey(calls[i]).Some? && DedupKey(calls[i]).value in dedup
    ensures !IsFresh(calls, i) && Answer(texts, calls, i, exec, first) == texts.duplicateNote
            + dedup[DedupKey(calls[i]).value]
    ensures Remembers(calls, i + 1, exec, first, dedup)
  {
    hide DedupKey, FirstResult, IsFresh;
    var j :| 0 <= j < i && DedupKey(calls[j]) == DedupKey(calls[i]);
    SameFirst(calls, i, j, exec, first);
  }

  lemma NewKey(texts: Texts, calls: seq<ToolCall>, i: nat, exec: nat -> Execution, first: nat, dedup: map<string,
        string>, result: string)
    requires i < |calls| && Remembers(calls, i, exec, first, dedup)
    requires DedupKey(calls[i]).Some? ==> DedupKey(calls[i]).value !in dedup
    requires result == ResultText(exec(first + RunsBefore(calls, i)))
    ensures IsFresh(calls, i) && Answer(texts, calls, i, exec, first) == result
    ensures Remembers(calls, i + 1, exec, first,
                      if DedupKey(calls[i]).Some? then dedup[DedupKey(calls[i]).value := result] else dedup)
  {
    hide DedupKey, FirstResult, RunsBefore, ResultText;
    if DedupKey(calls[i]).Some? {
      forall j | 0 <= j < i
        ensures DedupKey(calls[j]) != DedupKey(calls[i])
      {
        assert DedupKey(calls[j]).Some? ==> DedupKey(calls[j]).value in dedup;
      }
      FreshFirst(calls, i, exec, first);
    }
  }

  /** The tool results for one assistant message: result i answers call i, and `runs` calls were executed. */
  method ExecuteBatch(texts: Texts, calls: seq<ToolCall>, exec: nat -> Execution, first: nat)
        returns (results: seq<string>, runs: nat)
    ensures |results| == |calls| && runs == RunsBefore(calls, |calls|)
    ensures forall i :: 0 <= i < |calls| ==> results[i] == Answer(texts, calls, i, exec, first)
    ensures NulFree(calls) ==> AnswersBatch(texts, calls, exec, first, results, runs)
  {
    hide AnswersBatch, NulFree;
    hide Remembers, IsFresh, Answer, DedupKey, ResultText;
    results, runs := [], 0;
    var mcpDedup: map<string, string> := map[];
    assert Remembers(calls, 0, exec, first, mcpDedup) by { NothingRemembered(calls, exec, first); }
    for i := 0 to |calls|
      invariant |results| == i && runs == RunsBefore(calls, i)
      invariant forall j :: 0 <= j < i ==> results[j] == Answer(texts, calls, j, exec, first)
      invariant Remembers(calls, i, exec, first, mcpDedup)
    {
      var result: string;
      var key := DedupKey(calls[i]);
      if key.Some? && key.value in mcpDedup {
        KnownKey(texts, calls, i, exec, first, mcpDedup);
        result := texts.duplicateNote + mcpDedup[key.value];
      } else {
        result := ResultText(exec(first + runs));
        NewKey(texts, calls, i, exec, first, mcpDedup, result);
        runs := runs + 1;
        if key.Some? {
          mcpDedup := mcpDedup[key.value := result];
        }
      }
      results := results + [result];
    }
    if NulFree(calls) {
      BatchAnswered(texts, calls, exec, first, results);
    }
  }

  lemma NothingRemembered(calls: seq<ToolCall>, exec: nat -> Execution, first: nat)
    ensures Remembers(calls, 0, exec, first, map[])
  {
  }

  // ---------------------------------------------------------------- the transcript

  /** One round: an assistant message with k >= 1 calls, k results with the same ids and names in the same
      order, and one user message. */
  predicate IsBlock(b: seq<ChatMessage>) {
    && |b| >= 3
    && b[0].role == "assistant" && |b[0].toolCalls| == |b| - 2
    && (forall i :: 0 <= i < |b| - 2 ==>
          && b[i + 1].role == "tool" && b[i + 1].toolCalls == []
          && b[i + 1].toolCallId == b[0].toolCalls[i].id && b[i + 1].name == b[0].toolCalls[i].name)
    && b[|b| - 1].role == "user" && b[|b| - 1].toolCalls == []
  }

  /** The messages are exactly n rounds. */
  predicate Rounds(ms: seq<ChatMessage>, n: nat) {
    if n == 0 then ms == []
    else
      && ms != []
      && var k := |ms[0].toolCalls| + 2;
      k <= |ms| && IsBlock(ms[..k]) && Rounds(ms[k..], n - 1)
  }

  lemma {:induction false} OneMoreRound(ms: seq<ChatMessage>, n: nat, b: seq<ChatMessage>)
    requires Rounds(ms, n) && IsBlock(b)
    ensures Rounds(ms + b, n + 1)
  {
    hide IsBlock;
    if n == 0 {
      assert ms + b == b;
      OneRound(b);
    } else {
      var k := |ms[0].toolCalls| + 2;
      OneMoreRound(ms[k..], n - 1, b);
      SlicesOfConcat(ms, b, k);
    }
  }

  lemma OneRound(b: seq<ChatMessage>)
    requires IsBlock(b)
    ensures Rounds(b, 1)
  {
    assert b[..|b|] == b && b[|b|..] == [];
    assert Rounds(b[|b|..], 0);
  }

  lemma NoRounds()
    ensures Rounds([], 0)
  {
  }

  lemma SlicesOfConcat<T>(a: seq<T>, b: seq<T>, k: nat)
    requires 0 < k <= |a|
    ensures (a + b)[..k] == a[..k] && (a + b)[k..] == a[k..] + b && (a + b)[0] == a[0]
  {
  }

  function MarshalledArgs(a: Args): (r: string)
    ensures a.Object? && a.json.Some? ==> r == a.json.value
    ensures a.Nil? ==> r == "null"
    ensures a == Object(None) ==> r == ""
  {
    match a
    case Nil => "null"
    case Object(json) => if json.None? then "" else json.value
  }

  function CallDefs(calls: seq<ToolCall>): (r: seq<CallDef>)
    ensures |r| == |calls|
    ensures forall i :: 0 <= i < |r| ==> r[i] == CallDef(calls[i].id, calls[i].name, MarshalledArgs(calls[i].args))
  {
    seq(|calls|, i requires 0 <= i < |calls| => CallDef(calls[i].id, calls[i].name, MarshalledArgs(calls[i].args)))
  }

  /** The names of all calls in the first n replies. */
  function AllNames(chat: nat -> ChatReply, n: nat): seq<string> {
    if n == 0 then [] else AllNames(chat, n - 1) + (if chat(n - 1).Reply? then Names(chat(n - 1).toolCalls) else [])
  }

  datatype Outcome = ProviderFailed | Final(content: string, usedTools: seq<string>)

  /** How the loop ends after the n-th Chat call, given that all earlier replies called tools. */
  function Ending(texts: Texts, chat: nat -> ChatReply, feedback: nat -> string, n: nat): Outcome {
    if n > 0 && chat(n - 1).ChatError? then ProviderFailed
    else if n > 0 && |chat(n - 1).toolCalls| == 0 then Final(chat(n - 1).content
            + feedback(n - 1), AllNames(chat, n - 1))
    else Final(texts.maxIterations + feedback(n), AllNames(chat, n))
  }

  /** What one tool-calling reply adds to the messages. */
  function Block(texts: Texts, reply: ChatReply, exec: nat -> Execution, first: nat,
        reflect: string): (b: seq<ChatMessage>)
    requires reply.Reply?
    ensures |b| == |reply.toolCalls| + 2
  {
    var calls := reply.toolCalls;
    [ChatMessage("assistant", reply.content, CallDefs(calls), "", "")]
    + ToolMessages(texts, calls, exec, first)
    + [ChatMessage("user", reflect, [], "", "")]
  }

  function ToolMessages(texts: Texts, calls: seq<ToolCall>, exec: nat -> Execution, first: nat): (r: seq<ChatMessage>)
    ensures |r| == |calls|
    ensures forall i :: 0 <= i < |r| ==>
              r[i] == ChatMessage("tool", Answer(texts, calls, i, exec, first), [], calls[i].id, calls[i].name)
  {
    seq(|calls|, i requires 0 <= i < |calls| =>
      ChatMessage("tool", Answer(texts, calls, i, exec, first), [], calls[i].id, calls[i].name))
  }

  lemma BlockIsBlock(texts: Texts, reply: ChatReply, exec: nat -> Execution, first: nat, reflect: string)
    requires reply.Reply? && |reply.toolCalls| > 0
    ensures var b, k := Block(texts, reply, exec, first, reflect), |reply.toolCalls|;
            && IsBlock(b) && |b| == k + 2
            && b[0].content == reply.content && b[k + 1].content == reflect
            && (forall i :: 0 <= i < k ==> b[0].toolCalls[i].arguments == MarshalledArgs(reply.toolCalls[i].args))
            && (forall i :: 0 <= i < k ==> b[0].toolCalls[i].id == reply.toolCalls[i].id)
            && (forall i :: 0 <= i < k ==> b[0].toolCalls[i].name == reply.toolCalls[i].name)
            && forall i :: 0 <= i < k ==> b[i + 1].content == Answer(texts, reply.toolCalls, i, exec, first)
  {
    hide Answer, MarshalledArgs;
    var b := Block(texts, reply, exec, first, reflect);
    assert forall i :: 0 <= i < |b| - 2 ==> b[i + 1] == ToolMessages(texts, reply.toolCalls, exec, first)[i];
  }

  /** How many tools the first n replies had executed. */
  function Executed(chat: nat -> ChatReply, n: nat): nat {
    if n == 0 then 0
    else Executed(chat, n - 1) + (if chat(n - 1).Reply? then RunsBefore(chat(n - 1).toolCalls,
            |chat(n - 1).toolCalls|) else 0)
  }

  /** The first n replies all call tools. */
  predicate AllCallTools(chat: nat -> ChatReply, n: nat) {
    forall i :: 0 <= i < n ==> chat(i).Reply? && |chat(i).toolCalls| > 0
  }

  /** The message list of the (n+1)-st Chat call. */
  function Transcript(texts: Texts, initial: seq<ChatMessage>, chat: nat -> ChatReply, exec: nat -> Execution,
                      reflect: nat -> string, n: nat): seq<ChatMessage>
    requires AllCallTools(chat, n)
  {
    if n == 0 then initial
    else Transcript(texts, initial, chat, exec, reflect, n - 1)
         + Block(texts, chat(n - 1), exec, Executed(chat, n - 1), reflect(n - 1))
  }

  /** Every message list is the initial one followed by whole rounds. */
  lemma {:induction false} TranscriptIsRounds(texts: Texts, initial: seq<ChatMessage>, chat: nat -> ChatReply,
                                              exec: nat -> Execution, reflect: nat -> string, n: nat)
    requires AllCallTools(chat, n)
    ensures var ms := Transcript(texts, initial, chat, exec, reflect, n);
            initial <= ms && Rounds(ms[|initial|..], n)
  {
    hide IsBlock, Block, Rounds, AllNames;
    if n == 0 {
      NoRounds();
      assert initial[|initial|..] == [];
    } else {
      TranscriptIsRounds(texts, initial, chat, exec, reflect, n - 1);
      var ms := Transcript(texts, initial, chat, exec, reflect, n - 1);
      var b := Block(texts, chat(n - 1), exec, Executed(chat, n - 1), reflect(n - 1));
      BlockIsBlock(texts, chat(n - 1), exec, Executed(chat, n - 1), reflect(n - 1));
      OneMoreRound(ms[|initial|..], n - 1, b);
      assert (ms + b)[|initial|..] == ms[|initial|..] + b;
    }
  }

  /** `messages` after the block of one tool-calling reply. */
  method AppendRound(texts: Texts, messages0: seq<ChatMessage>, reply: ChatReply, exec: nat -> Execution, first: nat,
        reflect: string)
    returns (messages: seq<ChatMessage>, runs: nat)
    requires reply.Reply?
    ensures runs == RunsBefore(reply.toolCalls, |reply.toolCalls|)
    ensures messages == messages0 + Block(texts, reply, exec, first, reflect)
  {
    hide Answer, RunsBefore;
    var calls := reply.toolCalls;
    var results;
    results, runs := ExecuteBatch(texts, calls, exec, first);
    var assistant := ChatMessage("assistant", reply.content, CallDefs(calls), "", "");
    messages := messages0 + [assistant];
    for i := 0 to |calls|
      invariant messages == messages0 + [assistant] + ToolMessages(texts, calls, exec, first)[..i]
    {
      messages := messages + [ChatMessage("tool", results[i], [], calls[i].id, calls[i].name)];
    }
    messages := messages + [ChatMessage("user", reflect, [], "", "")];
  }

  lemma OneMoreReply(texts: Texts, initial: seq<ChatMessage>, chat: nat -> ChatReply, exec: nat -> Execution,
                     reflect: nat -> string, n: nat)
    requires AllCallTools(chat, n) && chat(n).Reply? && |chat(n).toolCalls| > 0
    ensures AllCallTools(chat, n + 1)
    ensures Transcript(texts, initial, chat, exec, reflect, n + 1)
            == Transcript(texts, initial, chat, exec, reflect, n)
                    + Block(texts, chat(n), exec, Executed(chat, n), reflect(n))
    ensures AllNames(chat, n + 1) == AllNames(chat, n) + Names(chat(n).toolCalls)
    ensures Executed(chat, n + 1) == Executed(chat, n) + RunsBefore(chat(n).toolCalls, |chat(n).toolCalls|)
  {
    hide Block, RunsBefore;
  }

  lemma LastReplyCalledTools(texts: Texts, chat: nat -> ChatReply, feedback: nat -> string, n: nat)
    requires AllCallTools(chat, n)
    ensures Ending(texts, chat, feedback, n) == Final(texts.maxIterations + feedback(n), AllNames(chat, n))
  {
  }

  /** The loop. `chats` records every message list handed to Chat. */
  method RunAgentLoop(texts: Texts, initial: seq<ChatMessage>, maxIter: int, chat: nat -> ChatReply,
                      exec: nat -> Execution, reflect: nat -> string, feedback: nat -> string)
    returns (outcome: Outcome, calls: nat, ghost chats: seq<seq<ChatMessage>>)
    ensures calls == |chats| && (calls == 0 || (calls <= maxIter && AllCallTools(chat, calls - 1)))
    ensures forall i :: 0 <= i < calls ==> chats[i] == Transcript(texts, initial, chat, exec, reflect, i)
    ensures outcome == Ending(texts, chat, feedback, calls)
    ensures calls < maxIter ==> calls > 0 && (chat(calls - 1).ChatError? || |chat(calls - 1).toolCalls| == 0)
  {
    hide RunsBefore, Block, Transcript, Executed, AllNames;
    var messages := initial;
    var usedTools: seq<string> := [];
    var executed := 0;
    calls, chats := 0, [];
    NoReplyYet(texts, initial, chat, exec, reflect);
    while calls < maxIter
      invariant calls == |chats| && (calls == 0 || calls <= maxIter) && AllCallTools(chat, calls)
      invariant messages == Transcript(texts, initial, chat, exec, reflect, calls)
      invariant forall i :: 0 <= i < calls ==> chats[i] == Transcript(texts, initial, chat, exec, reflect, i)
      invariant usedTools == AllNames(chat, calls) && executed == Executed(chat, calls)
    {
      var reply := chat(calls);
      chats, calls := chats + [messages], calls + 1;
      if reply.ChatError? {
        return ProviderFailed, calls, chats;
      }
      if |reply.toolCalls| == 0 {
        return Final(reply.content + feedback(calls - 1), usedTools), calls, chats;
      }
      usedTools := usedTools + Names(reply.toolCalls);
      OneMoreReply(texts, initial, chat, exec, reflect, calls - 1);
      var runs;
      messages, runs := AppendRound(texts, messages, reply, exec, executed, reflect(calls - 1));
      executed := executed + runs;
    }
    LastReplyCalledTools(texts, chat, feedback, calls);
    return Final(texts.maxIterations + feedback(calls), usedTools), calls, chats;
  }

  lemma NoReplyYet(texts: Texts, initial: seq<ChatMessage>, chat: nat -> ChatReply, exec: nat -> Execution,
        reflect: nat -> string)
    ensures AllCallTools(chat, 0) && Transcript(texts, initial, chat, exec, reflect, 0) == initial
    ensures AllNames(chat, 0) == [] && Executed(chat, 0) == 0
  {
  }
}
