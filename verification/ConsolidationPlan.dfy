/** What token-driven consolidation of a session into MEMORY.md and HISTORY.md does, said without its loops, and
    what follows from it (tools/consolidator.go).
    Strings are byte strings, as in the LCM modules; there is no LCM here, so a prompt holds the whole
    unconsolidated history. */
module ConsolidationPlan {
  import opened Session
  import opened Strings
  import opened Wrappers

  const MAX_ROUNDS := 5
  const MAX_FAILURES := 3
  const ALL_MESSAGES := 999999

  // ---------------------------------------------------------------- the two estimators

  function EstimateMessageTokens(m: Message): nat {
    var n := |m.role| + |m.content| + 10;
    if n == 0 then 1 else if n / 4 < 1 then 1 else n / 4
  }

  /** Four bytes to a token, of role, content and ten bytes of structure; a token begun does not count. */
  lemma MessageEstimate(m: Message)
    ensures var tok := EstimateMessageTokens(m); 4 * tok <= |m.role| + |m.content| + 10 < 4 * tok + 4
  {
  }

  /** Tokens of some messages by the per-message estimator. */
  function MessageTokens(ms: seq<Message>): nat {
    if ms == [] then 0 else MessageTokens(ms[..|ms| - 1]) + EstimateMessageTokens(ms[|ms| - 1])
  }

  /** Bytes of some history entries in a prompt. */
  function PromptBytes(es: seq<Entry>): nat {
    if es == [] then 0
    else
      var e := es[|es| - 1];
      PromptBytes(es[..|es| - 1]) + |e.role| + |e.content| + 20
  }

  /** The whole-prompt estimate: `fixed` bytes of system text, probe and tools, and the history. */
  function PromptTokens(fixed: nat, es: seq<Entry>): (tok: nat)
    ensures tok >= 1
  {
    var n := fixed + PromptBytes(es);
    if n / 4 < 1 then 1 else n / 4
  }

  /** Four bytes to a token, a token begun does not count, but one token at least. */
  lemma PromptEstimate(fixed: nat, es: seq<Entry>)
    ensures var n, tok := fixed + PromptBytes(es), PromptTokens(fixed, es);
            if n < 4 then tok == 1 else 4 * tok <= n < 4 * tok + 4
  {
  }

  lemma {:induction false} PromptBytesConcat(a: seq<Entry>, b: seq<Entry>)
    ensures PromptBytes(a + b) == PromptBytes(a) + PromptBytes(b)
    ensures |a| == 1 ==> PromptBytes(a) == |a[0].role| + |a[0].content| + 20
  {
    if b == [] {
      assert a + b == a;
      if |a| == 1 {
        assert a[..0] == [];
      }
    } else {
      assert (a + b)[..|a + b| - 1] == a + b[..|b| - 1];
      PromptBytesConcat(a, b[..|b| - 1]);
    }
  }

  /** A message weighs four bytes in the prompt for each token it counts for by itself, and ten to thirteen more. */
  lemma {:induction false} BytesCoverTokens(ms: seq<Message>)
    ensures 4 * MessageTokens(ms) + 10 * |ms| <= PromptBytes(Entries(ms)) <= 4 * MessageTokens(ms) + 13 * |ms|
  {
    if ms != [] {
      BytesCoverTokens(ms[..|ms| - 1]);
      assert Entries(ms)[..|ms| - 1] == Entries(ms[..|ms| - 1]);
    }
  }

  /** One round is enough: dropping messages worth the excess by one estimator brings the other to the
      target. */
  lemma {:induction false} OneRoundIsEnough(fixed: nat, fixed2: nat, ms: seq<Message>, k: nat, target: nat)
    requires k <= |ms| && fixed2 <= fixed
    requires MessageTokens(ms[..k]) >= PromptTokens(fixed, Entries(ms)) - target
    ensures PromptTokens(fixed2, Entries(ms[k..])) <= target
  {
    assert Entries(ms) == Entries(ms[..k]) + Entries(ms[k..]);
    PromptBytesConcat(Entries(ms[..k]), Entries(ms[k..]));
    BytesCoverTokens(ms[..k]);
  }

  // ---------------------------------------------------------------- the boundary

  /** A user turn starts at `i`, after `start`. */
  predicate IsBoundary(all: seq<Message>, start: nat, i: int) {
    start < i < |all| && all[i].role == "user"
  }

  /** Cutting at `i` removes at least `need` tokens. */
  predicate RemovesEnough(all: seq<Message>, start: nat, i: int, need: int) {
    start <= i <= |all| && MessageTokens(all[start..i]) >= need
  }

  /** The messages the boundary search looks at. */
  function Seen(messages: seq<Message>): seq<Message> {
    if |messages| <= ALL_MESSAGES then messages else messages[..ALL_MESSAGES]
  }

  /** A user turn starts after `start`. */
  ghost predicate HasBoundary(all: seq<Message>, start: nat) {
    exists i: nat :: IsBoundary(all, start, i)
  }

  /** Some boundary removes enough. */
  ghost predicate CanRemove(all: seq<Message>, start: nat, need: int) {
    exists i :: IsBoundary(all, start, i) && RemovesEnough(all, start, i, need)
  }

  /** No boundary before `end` removes enough. */
  ghost predicate NoneEnough(all: seq<Message>, start: nat, need: int, end: int) {
    forall j: nat :: j < end && IsBoundary(all, start, j) ==> !RemovesEnough(all, start, j, need)
  }

  /** The first boundary that removes enough or, when none does, the last boundary. */
  ghost predicate IsPick(all: seq<Message>, start: nat, need: int, i: nat) {
    && IsBoundary(all, start, i)
    && NoneEnough(all, start, need, i)
    && (!RemovesEnough(all, start, i, need) ==> forall j: nat :: i < j ==> !IsBoundary(all, start, j))
  }

  // ---------------------------------------------------------------- archiving

  /** What the model answered when asked to call save_memory. */
  datatype Reply = ChatFailed | NoToolCall | NoArguments | SaveMemory(entry: string, update: string)

  predicate Usable(reply: Reply) {
    reply.SaveMemory? && reply.entry != "" && reply.update != ""
  }

  function JoinNames(names: seq<string>): string {
    if names == [] then "" else if |names| == 1 then names[0] else names[0] + ", " + JoinNames(names[1..])
  }

  function FormatLine(fmt: int -> string, m: Message): string {
    var tools := if m.toolsUsed != [] then " [tools: " + JoinNames(m.toolsUsed) + "]" else "";
    "[" + fmt(m.timestamp) + "] " + m.role + " " + tools + ": " + m.content
  }

  function NamesLength(names: seq<string>): nat {
    if names == [] then 0 else |names[0]| + NamesLength(names[1..])
  }

  /** The joined names hold each name, and nothing but a comma and a blank between any two. */
  lemma {:induction false} JoinedNames(names: seq<string>)
    requires names != []
    ensures |JoinNames(names)| == NamesLength(names) + 2 * (|names| - 1)
    ensures forall name :: name in names ==> Contains(JoinNames(names), name)
  {
    hide Contains;
    ContainsItself(names[0]);
    if |names| > 1 {
      var rest := JoinNames(names[1..]);
      JoinedNames(names[1..]);
      ContainsWider("", names[0], ", " + rest, names[0]);
      assert "" + names[0] + (", " + rest) == JoinNames(names);
      forall name | name in names[1..]
        ensures Contains(JoinNames(names), name)
      {
        ContainsWider(names[0] + ", ", rest, "", name);
        assert names[0] + ", " + rest + "" == JoinNames(names);
      }
    } else {
      assert names[1..] == [];
    }
  }

  /** An archived line gives the time, the role and the tools of the message besides its content. */
  lemma LineKeepsMessage(fmt: int -> string, m: Message)
    ensures var line := FormatLine(fmt, m);
            && "[" + fmt(m.timestamp) + "] " + m.role + " " <= line
            && line[|line| - |m.content| - 2..] == ": " + m.content
            && (m.toolsUsed == [] ==> |line| == |fmt(m.timestamp)| + |m.role| + |m.content| + 6)
            && (m.toolsUsed != [] ==>
                  |line| == |fmt(m.timestamp)| + |m.role| + |JoinNames(m.toolsUsed)| + |m.content| + 16)
            && forall name :: name in m.toolsUsed ==> Contains(line, name)
  {
    hide JoinNames, Contains;
    var line, head := FormatLine(fmt, m), "[" + fmt(m.timestamp) + "] " + m.role + " ";
    var names := JoinNames(m.toolsUsed);
    if m.toolsUsed == [] {
      assert line == head + (": " + m.content);
    } else {
      JoinedNames(m.toolsUsed);
      assert line == head + " [tools: " + names + ("]: " + m.content);
      assert line == head + (" [tools: " + names + "]") + (": " + m.content);
      forall name | name in m.toolsUsed
        ensures Contains(line, name)
      {
        ContainsWider(head + " [tools: ", names, "]: " + m.content, name);
      }
    }
  }

  /** The lines of the messages, newline between them. */
  function FormatMessages(fmt: int -> string, ms: seq<Message>): string {
    if ms == [] then ""
    else if |ms| == 1 then FormatLine(fmt, ms[0])
    else FormatLine(fmt, ms[0]) + "\n" + FormatMessages(fmt, ms[1..])
  }

  function Itoa(n: nat): string {
    if n < 10 then ["0123456789"[n]] else Itoa(n / 10) + ["0123456789"[n % 10]]
  }

  /** The number that decimal digits stand for. */
  function ValueOf(digits: string): int {
    if digits == "" then 0 else 10 * ValueOf(digits[..|digits| - 1]) + (digits[|digits| - 1] as int - '0' as int)
  }

  lemma {:induction false} ItoaValue(n: nat)
    ensures ValueOf(Itoa(n)) == n && Itoa(n) != ""
  {
    if n >= 10 {
      ItoaValue(n / 10);
      assert Itoa(n)[..|Itoa(n)| - 1] == Itoa(n / 10);
    } else {
      assert Itoa(n)[..0] == "";
    }
  }

  function RawEntry(fmt: int -> string, now: int, chunk: seq<Message>): string {
    "[" + fmt(now) + "] [RAW] " + Itoa(|chunk|) + " messages\n" + FormatMessages(fmt, chunk)
  }

  lemma {:induction false} FormatKeepsContent(fmt: int -> string, ms: seq<Message>, m: Message)
    requires m in ms
    ensures Contains(FormatMessages(fmt, ms), m.content)
  {
    hide FormatLine, Contains;
    var line := FormatLine(fmt, ms[0]);
    if m == ms[0] {
      LineKeepsContent(fmt, m);
      var rest := if |ms| == 1 then "" else "\n" + FormatMessages(fmt, ms[1..]);
      ContainsWider("", line, rest, m.content);
      assert "" + line + rest == FormatMessages(fmt, ms);
    } else {
      var rest := FormatMessages(fmt, ms[1..]);
      FormatKeepsContent(fmt, ms[1..], m);
      ContainsWider(line + "\n", rest, "", m.content);
      assert line + "\n" + rest + "" == FormatMessages(fmt, ms);
    }
  }

  lemma LineKeepsContent(fmt: int -> string, m: Message)
    ensures Contains(FormatLine(fmt, m), m.content)
  {
    var line := FormatLine(fmt, m);
    assert ContainsAt(line, m.content, |line| - |m.content|);
  }

  /** Raw archiving loses no text: the history entry contains the content of every message of the chunk. */
  lemma {:induction false} RawEntryKeepsContent(fmt: int -> string, now: int, chunk: seq<Message>, m: Message)
    requires m in chunk
    ensures Contains(RawEntry(fmt, now, chunk), m.content)
  {
    FormatKeepsContent(fmt, chunk, m);
    var head := "[" + fmt(now) + "] [RAW] " + Itoa(|chunk|) + " messages\n";
    ContainsWider(head, FormatMessages(fmt, chunk), "", m.content);
    assert head + FormatMessages(fmt, chunk) + "" == RawEntry(fmt, now, chunk);
  }

  /** What the outside world does around one round: the model's reply, the messages appended to the session
      meanwhile, the time, and the fixed bytes of the next prompt (None when it cannot be built). */
  datatype World = World(reply: Reply, arrivals: seq<Message>, now: int, fixed: Option<nat>)

  /** The history entry that stands for an archived chunk: the model's or, when it gave none, the raw one. */
  function EntryFor(fmt: int -> string, world: World, chunk: seq<Message>): string {
    if Usable(world.reply) then world.reply.entry else RawEntry(fmt, world.now, chunk)
  }

  // ---------------------------------------------------------------- one round

  /** A conversation with its memory files: the messages and the consolidation mark, HISTORY.md, MEMORY.md, and
      the failures in a row. */
  datatype Conv = Conv(messages: seq<Message>, mark: nat, history: seq<string>, memory: string, fails: nat)

  function Estimate(fixed: Option<nat>, history: seq<Message>): nat {
    if fixed.None? then 0 else PromptTokens(fixed.value, Entries(history))
  }

  /** Whether a chunk will be safe: the model gives a usable answer, or it is the third failure in a row. */
  predicate WillArchive(fails: nat, reply: Reply) {
    Usable(reply) || fails + 1 == MAX_FAILURES
  }

  function MemoryAfter(reply: Reply, memory: string): string {
    if Usable(reply) then reply.update else memory
  }

  /** One round that has `need` tokens to remove. */
  ghost predicate RoundStep(fmt: int -> string, need: int, c: Conv, world: World, c2: Conv, archived: bool) {
    if !HasBoundary(Seen(c.messages), c.mark) then !archived && c2 == c
    else if WillArchive(c.fails, world.reply) then
      && archived
      && IsPick(Seen(c.messages), c.mark, need, c2.mark) && c2.mark <= |c.messages|
      && c2 == Conv(c.messages + world.arrivals, c2.mark,
                    c.history + [EntryFor(fmt, world, c.messages[c.mark..c2.mark])],
                    MemoryAfter(world.reply, c.memory), 0)
    else !archived && c2 == c.(messages := c.messages + world.arrivals, fails := c.fails + 1)
  }

  lemma PickUnique(all: seq<Message>, start: nat, need: int, i: nat, j: nat)
    requires IsPick(all, start, need, i) && IsPick(all, start, need, j)
    ensures i == j
  {
    hide RemovesEnough;
  }

  /** A round has one outcome. */
  lemma RoundUnique(fmt: int -> string, need: int, c: Conv, world: World, c2: Conv, a2: bool, c3: Conv, a3: bool)
    requires RoundStep(fmt, need, c, world, c2, a2) && RoundStep(fmt, need, c, world, c3, a3)
    ensures c2 == c3 && a2 == a3
  {
    hide IsPick, HasBoundary, EntryFor, Usable;
    if HasBoundary(Seen(c.messages), c.mark) && WillArchive(c.fails, world.reply) {
      PickUnique(Seen(c.messages), c.mark, need, c2.mark, c3.mark);
    }
  }

  // ---------------------------------------------------------------- a whole consolidation

  /** What the first n rounds' worlds add to the session. */
  function Arrivals(worlds: nat -> World, n: nat): seq<Message> {
    if n == 0 then [] else Arrivals(worlds, n - 1) + worlds(n - 1).arrivals
  }

  function MessagesAt(c: Conv, worlds: nat -> World, n: nat): seq<Message> {
    c.messages + Arrivals(worlds, n)
  }

  function MemoryAt(c: Conv, worlds: nat -> World, n: nat): string {
    if n == 0 then c.memory else MemoryAfter(worlds(n - 1).reply, MemoryAt(c, worlds, n - 1))
  }

  function FailsAt(c: Conv, n: nat): nat {
    if n == 0 then c.fails else 0
  }

  /** The estimate when n rounds are done and the mark is at `mark`. */
  function EstimateAt(c: Conv, fixed: Option<nat>, worlds: nat -> World, n: nat, mark: nat): nat
    requires mark <= |MessagesAt(c, worlds, n)|
  {
    Estimate(if n == 0 then fixed else worlds(n - 1).fixed, MessagesAt(c, worlds, n)[mark..])
  }

  /** Round i was due and archived messages [start, end), up to the right boundary, under its own entry. */
  ghost predicate IsRound(fmt: int -> string, target: nat, c: Conv, fixed: Option<nat>, worlds: nat -> World, i: nat,
                          start: nat, end: nat, entry: string) {
    var ms := MessagesAt(c, worlds, i);
    && start <= end <= |ms|
    && EstimateAt(c, fixed, worlds, i, start) > target
    && IsPick(Seen(ms), start, EstimateAt(c, fixed, worlds, i, start) - target, end)
    && WillArchive(FailsAt(c, i), worlds(i).reply)
    && entry == EntryFor(fmt, worlds(i), ms[start..end])
  }

  /** `c2` is `c` after as many archived rounds as `marks` has steps. */
  ghost predicate AfterRounds(fmt: int -> string, target: nat, c: Conv, fixed: Option<nat>, worlds: nat -> World,
                              c2: Conv, marks: seq<nat>) {
    && marks != [] && marks[0] == c.mark && marks[|marks| - 1] == c2.mark <= |c2.messages|
    && var n := |marks| - 1;
    && n <= MAX_ROUNDS
    && c2.messages == MessagesAt(c, worlds, n)
    && c2.memory == MemoryAt(c, worlds, n) && c2.fails == FailsAt(c, n)
    && c.history <= c2.history && |c2.history| == |c.history| + n
    && forall i :: 0 <= i < n ==>
         IsRound(fmt, target, c, fixed, worlds, i, marks[i], marks[i + 1], c2.history[|c.history| + i])
  }

  /** No further round is due: there were enough, the estimate is within the target, or nothing is left to cut. */
  ghost predicate IsDone(target: nat, c: Conv, fixed: Option<nat>, worlds: nat -> World, n: nat, mark: nat)
    requires mark <= |MessagesAt(c, worlds, n)|
  {
    || n == MAX_ROUNDS
    || EstimateAt(c, fixed, worlds, n, mark) <= target
    || !HasBoundary(Seen(MessagesAt(c, worlds, n)), mark)
  }

  /** The loop took `c` to `c2`: it did all rounds that were due, or stopped at one whose chunk was not archived. */
  ghost predicate IsLoop(fmt: int -> string, target: nat, c: Conv, fixed: Option<nat>, worlds: nat -> World, c2: Conv,
                         marks: seq<nat>) {
    exists mid: Conv :: IsLoopVia(fmt, target, c, fixed, worlds, mid, c2, marks)
  }

  ghost predicate IsLoopVia(fmt: int -> string, target: nat, c: Conv, fixed: Option<nat>, worlds: nat -> World,
                            mid: Conv, c2: Conv, marks: seq<nat>) {
    && AfterRounds(fmt, target, c, fixed, worlds, mid, marks)
    && Ends(target, c, fixed, worlds, |marks| - 1, mid, c2)
  }

  ghost predicate Ends(target: nat, c: Conv, fixed: Option<nat>, worlds: nat -> World, n: nat, mid: Conv, c2: Conv)
    requires mid.mark <= |MessagesAt(c, worlds, n)|
  {
    if IsDone(target, c, fixed, worlds, n, mid.mark) then c2 == mid
    else
      && !WillArchive(FailsAt(c, n), worlds(n).reply)
      && c2 == mid.(messages := MessagesAt(c, worlds, n + 1), fails := mid.fails + 1)
  }

  /** A call of MaybeConsolidateByTokens: nothing unless the prompt fills the window, the loop otherwise. */
  ghost predicate IsConsolidation(fmt: int -> string, contextTok: int, c: Conv, fixed: Option<nat>,
                                  worlds: nat -> World, c2: Conv, marks: seq<nat>)
    requires c.mark <= |c.messages|
  {
    if !(0 < contextTok <= Estimate(fixed, c.messages[c.mark..])) then c2 == c && marks == [c.mark]
    else IsLoop(fmt, contextTok / 2, c, fixed, worlds, c2, marks)
  }

  lemma NoArrivals(c: Conv, worlds: nat -> World)
    ensures MessagesAt(c, worlds, 0) == c.messages
  {
  }

  lemma NoRounds(fmt: int -> string, target: nat, c: Conv, fixed: Option<nat>, worlds: nat -> World)
    requires c.mark <= |c.messages|
    ensures AfterRounds(fmt, target, c, fixed, worlds, c, [c.mark])
    ensures EstimateAt(c, fixed, worlds, 0, c.mark) == Estimate(fixed, c.messages[c.mark..])
    ensures MessagesAt(c, worlds, 0) == c.messages
  {
    hide Estimate;
  }

  lemma {:induction false} MoreArrivals(c: Conv, worlds: nat -> World, m: nat, n: nat)
    requires m <= n
    ensures MessagesAt(c, worlds, m) <= MessagesAt(c, worlds, n)
  {
    if m < n {
      MoreArrivals(c, worlds, m, n - 1);
      NextMessages(c, worlds, n - 1);
    }
  }

  lemma NextMessages(c: Conv, worlds: nat -> World, n: nat)
    ensures MessagesAt(c, worlds, n + 1) == MessagesAt(c, worlds, n) + worlds(n).arrivals
  {
  }

  /** One more archived round. */
  lemma OneMoreRound(fmt: int -> string, target: nat, c: Conv, fixed: Option<nat>, worlds: nat -> World, c2: Conv,
                     marks: seq<nat>, c3: Conv)
    requires AfterRounds(fmt, target, c, fixed, worlds, c2, marks) && |marks| <= MAX_ROUNDS
    requires var estimated := EstimateAt(c, fixed, worlds, |marks| - 1, c2.mark);
             estimated > target && RoundStep(fmt, estimated - target, c2, worlds(|marks| - 1), c3, true)
    ensures AfterRounds(fmt, target, c, fixed, worlds, c3, marks + [c3.mark])
    ensures c3.mark <= |MessagesAt(c, worlds, |marks|)|
    ensures EstimateAt(c, fixed, worlds, |marks|, c3.mark)
            == Estimate(worlds(|marks| - 1).fixed, c3.messages[c3.mark..])
  {
    hide HasBoundary, EntryFor, Usable, Estimate, IsRound, IsPick, MessagesAt, Seen;
    var n := |marks| - 1;
    NextMessages(c, worlds, n);
    PickedRound(fmt, target, c, fixed, worlds, c2, n, c3);
    RoundsSnoc(fmt, target, c, fixed, worlds, marks, c3.mark, c2.history, c3.history);
  }

  lemma RoundsSnoc(fmt: int -> string, target: nat, c: Conv, fixed: Option<nat>, worlds: nat -> World,
                   marks: seq<nat>, mark: nat, history: seq<string>, history2: seq<string>)
    requires marks != [] && |history| == |c.history| + |marks| - 1 && history <= history2
    requires |history2| == |history| + 1
    requires forall i :: 0 <= i < |marks| - 1 ==>
               IsRound(fmt, target, c, fixed, worlds, i, marks[i], marks[i + 1], history[|c.history| + i])
    requires IsRound(fmt, target, c, fixed, worlds, |marks| - 1, marks[|marks| - 1], mark, history2[|history|])
    ensures var marks2 := marks + [mark];
            forall i :: 0 <= i < |marks| ==>
              IsRound(fmt, target, c, fixed, worlds, i, marks2[i], marks2[i + 1], history2[|c.history| + i])
  {
    hide IsRound;
    var marks2 := marks + [mark];
    forall i | 0 <= i < |marks|
      ensures IsRound(fmt, target, c, fixed, worlds, i, marks2[i], marks2[i + 1], history2[|c.history| + i])
    {
      if i < |marks| - 1 {
        assert IsRound(fmt, target, c, fixed, worlds, i, marks[i], marks[i + 1], history[|c.history| + i]);
      }
    }
  }

  lemma PickedRound(fmt: int -> string, target: nat, c: Conv, fixed: Option<nat>, worlds: nat -> World, c2: Conv,
                    n: nat, c3: Conv)
    requires c2.messages == MessagesAt(c, worlds, n) && c2.mark <= |c2.messages| && c2.fails == FailsAt(c, n)
    requires var estimated := EstimateAt(c, fixed, worlds, n, c2.mark);
             estimated > target && RoundStep(fmt, estimated - target, c2, worlds(n), c3, true)
    ensures c2.mark < c3.mark < |c2.messages| && |c3.history| == |c2.history| + 1
    ensures IsRound(fmt, target, c, fixed, worlds, n, c2.mark, c3.mark, c3.history[|c2.history|])
  {
    hide HasBoundary, EntryFor, Usable, Estimate, RemovesEnough, NoneEnough;
  }

  // ---------------------------------------------------------------- what a consolidation does

  /** A consolidation has one outcome: its description leaves nothing open. */
  lemma ConsolidationUnique(fmt: int -> string, contextTok: int, c: Conv, fixed: Option<nat>, worlds: nat -> World,
                            c2: Conv, marks2: seq<nat>, c3: Conv, marks3: seq<nat>)
    requires c.mark <= |c.messages|
    requires IsConsolidation(fmt, contextTok, c, fixed, worlds, c2, marks2)
    requires IsConsolidation(fmt, contextTok, c, fixed, worlds, c3, marks3)
    ensures c2 == c3 && marks2 == marks3
  {
    hide IsLoopVia, Estimate;
    if 0 < contextTok <= Estimate(fixed, c.messages[c.mark..]) {
      var target := contextTok / 2;
      var m2: Conv :| IsLoopVia(fmt, target, c, fixed, worlds, m2, c2, marks2);
      var m3: Conv :| IsLoopVia(fmt, target, c, fixed, worlds, m3, c3, marks3);
      if |marks2| <= |marks3| {
        SameRounds(fmt, target, c, fixed, worlds, m2, c2, marks2, m3, c3, marks3);
      } else {
        SameRounds(fmt, target, c, fixed, worlds, m3, c3, marks3, m2, c2, marks2);
      }
      SameEnd(fmt, target, c, fixed, worlds, m2, m3, marks2, c2, c3);
    }
  }

  lemma SameEnd(fmt: int -> string, target: nat, c: Conv, fixed: Option<nat>, worlds: nat -> World, m2: Conv, m3: Conv,
                marks: seq<nat>, c2: Conv, c3: Conv)
    requires IsLoopVia(fmt, target, c, fixed, worlds, m2, c2, marks)
    requires IsLoopVia(fmt, target, c, fixed, worlds, m3, c3, marks)
    ensures c2 == c3
  {
    hide IsRound, IsDone;
    SameEntries(fmt, target, c, fixed, worlds, m2, m3, marks);
  }

  lemma SameEntries(fmt: int -> string, target: nat, c: Conv, fixed: Option<nat>, worlds: nat -> World, m2: Conv,
                    m3: Conv, marks: seq<nat>)
    requires AfterRounds(fmt, target, c, fixed, worlds, m2, marks)
    requires AfterRounds(fmt, target, c, fixed, worlds, m3, marks)
    ensures m2.history == m3.history
  {
    hide AfterRounds;
    RoundsBounded(fmt, target, c, fixed, worlds, m2, marks);
    RoundsBounded(fmt, target, c, fixed, worlds, m3, marks);
    forall k | 0 <= k < |m2.history|
      ensures m2.history[k] == m3.history[k]
    {
      if k >= |c.history| {
        SameEntry(fmt, target, c, fixed, worlds, m2, m3, marks, k - |c.history|);
      }
    }
  }

  lemma SameEntry(fmt: int -> string, target: nat, c: Conv, fixed: Option<nat>, worlds: nat -> World, m2: Conv,
                  m3: Conv, marks: seq<nat>, i: nat)
    requires AfterRounds(fmt, target, c, fixed, worlds, m2, marks)
    requires AfterRounds(fmt, target, c, fixed, worlds, m3, marks) && i < |marks| - 1
    ensures |m2.history| == |m3.history| == |c.history| + |marks| - 1
    ensures m2.history[|c.history| + i] == m3.history[|c.history| + i]
  {
    hide AfterRounds, IsPick, EntryFor, Usable, Estimate, MessagesAt;
    RoundIn(fmt, target, c, fixed, worlds, m2, marks, i);
    RoundIn(fmt, target, c, fixed, worlds, m3, marks, i);
  }

  /** The shorter of two sequences of rounds that ends does not go on in the other. */
  lemma SameRounds(fmt: int -> string, target: nat, c: Conv, fixed: Option<nat>, worlds: nat -> World, m2: Conv,
                   c2: Conv, marks2: seq<nat>, m3: Conv, c3: Conv, marks3: seq<nat>)
    requires IsLoopVia(fmt, target, c, fixed, worlds, m2, c2, marks2)
    requires IsLoopVia(fmt, target, c, fixed, worlds, m3, c3, marks3) && |marks2| <= |marks3|
    ensures marks2 == marks3
  {
    hide IsLoopVia;
    SameLength(fmt, target, c, fixed, worlds, m2, c2, marks2, m3, c3, marks3);
    forall i | 0 <= i < |marks2|
      ensures marks2[i] == marks3[i]
    {
      SameMarks(fmt, target, c, fixed, worlds, m2, c2, marks2, m3, c3, marks3, i);
    }
  }

  lemma SameLength(fmt: int -> string, target: nat, c: Conv, fixed: Option<nat>, worlds: nat -> World, m2: Conv,
                   c2: Conv, marks2: seq<nat>, m3: Conv, c3: Conv, marks3: seq<nat>)
    requires IsLoopVia(fmt, target, c, fixed, worlds, m2, c2, marks2)
    requires IsLoopVia(fmt, target, c, fixed, worlds, m3, c3, marks3) && |marks2| <= |marks3|
    ensures |marks2| == |marks3|
  {
    hide IsRound, IsDone, AfterRounds, WillArchive, FailsAt, MessagesAt, Arrivals;
    RoundsBounded(fmt, target, c, fixed, worlds, m2, marks2);
    RoundsBounded(fmt, target, c, fixed, worlds, m3, marks3);
    var n := |marks2| - 1;
    SameMarks(fmt, target, c, fixed, worlds, m2, c2, marks2, m3, c3, marks3, n);
    if |marks2| < |marks3| {
      RoundIn(fmt, target, c, fixed, worlds, m3, marks3, n);
      NotDone(fmt, target, c, fixed, worlds, n, marks3[n], marks3[n + 1], m3.history[|c.history| + n]);
    }
  }

  lemma RoundsBounded(fmt: int -> string, target: nat, c: Conv, fixed: Option<nat>, worlds: nat -> World, c2: Conv,
                      marks: seq<nat>)
    requires AfterRounds(fmt, target, c, fixed, worlds, c2, marks)
    ensures 1 <= |marks| <= MAX_ROUNDS + 1 && marks[0] == c.mark && marks[|marks| - 1] == c2.mark
    ensures c2.mark <= |MessagesAt(c, worlds, |marks| - 1)| && |c2.history| == |c.history| + |marks| - 1
    ensures c.history <= c2.history
  {
    hide IsRound;
  }

  lemma RoundIn(fmt: int -> string, target: nat, c: Conv, fixed: Option<nat>, worlds: nat -> World, c2: Conv,
                marks: seq<nat>, i: nat)
    requires AfterRounds(fmt, target, c, fixed, worlds, c2, marks) && i < |marks| - 1
    ensures |c2.history| == |c.history| + |marks| - 1
    ensures IsRound(fmt, target, c, fixed, worlds, i, marks[i], marks[i + 1], c2.history[|c.history| + i])
  {
    hide IsRound;
  }

  lemma NotDone(fmt: int -> string, target: nat, c: Conv, fixed: Option<nat>, worlds: nat -> World, i: nat,
                start: nat, end: nat, entry: string)
    requires IsRound(fmt, target, c, fixed, worlds, i, start, end, entry) && i < MAX_ROUNDS
    ensures !IsDone(target, c, fixed, worlds, i, start) && WillArchive(FailsAt(c, i), worlds(i).reply)
  {
    hide EntryFor, Usable, Estimate, RemovesEnough, NoneEnough;
    assert IsBoundary(Seen(MessagesAt(c, worlds, i)), start, end);
  }

  lemma {:induction false} SameMarks(fmt: int -> string, target: nat, c: Conv, fixed: Option<nat>,
                                     worlds: nat -> World, m2: Conv, c2: Conv, marks2: seq<nat>, m3: Conv, c3: Conv,
                                     marks3: seq<nat>, k: nat)
    requires IsLoopVia(fmt, target, c, fixed, worlds, m2, c2, marks2)
    requires IsLoopVia(fmt, target, c, fixed, worlds, m3, c3, marks3)
    requires k < |marks2| && k < |marks3|
    ensures marks2[k] == marks3[k]
  {
    hide AfterRounds, Ends;
    RoundsBounded(fmt, target, c, fixed, worlds, m2, marks2);
    RoundsBounded(fmt, target, c, fixed, worlds, m3, marks3);
    if k > 0 {
      var i := k - 1;
      SameMarks(fmt, target, c, fixed, worlds, m2, c2, marks2, m3, c3, marks3, i);
      NextMarkSame(fmt, target, c, fixed, worlds, m2, marks2, m3, marks3, i);
    }
  }

  lemma NextMarkSame(fmt: int -> string, target: nat, c: Conv, fixed: Option<nat>, worlds: nat -> World, m2: Conv,
                     marks2: seq<nat>, m3: Conv, marks3: seq<nat>, i: nat)
    requires AfterRounds(fmt, target, c, fixed, worlds, m2, marks2)
    requires AfterRounds(fmt, target, c, fixed, worlds, m3, marks3)
    requires i + 1 < |marks2| && i + 1 < |marks3| && marks2[i] == marks3[i]
    ensures marks2[i + 1] == marks3[i + 1]
  {
    hide AfterRounds, IsRound;
    RoundIn(fmt, target, c, fixed, worlds, m2, marks2, i);
    RoundIn(fmt, target, c, fixed, worlds, m3, marks3, i);
    SameMark(fmt, target, c, fixed, worlds, i, marks2[i], marks2[i + 1], m2.history[|c.history| + i],
             marks3[i + 1], m3.history[|c.history| + i]);
  }

  lemma SameMark(fmt: int -> string, target: nat, c: Conv, fixed: Option<nat>, worlds: nat -> World, i: nat,
                 start: nat, end2: nat, entry2: string, end3: nat, entry3: string)
    requires IsRound(fmt, target, c, fixed, worlds, i, start, end2, entry2)
    requires IsRound(fmt, target, c, fixed, worlds, i, start, end3, entry3)
    ensures end2 == end3
  {
    hide EntryFor, Usable, Estimate, IsPick;
    PickUnique(Seen(MessagesAt(c, worlds, i)), start, EstimateAt(c, fixed, worlds, i, start) - target, end2, end3);
  }

  /** The prompt fills the window, and there is a later user turn to cut at. */
  ghost predicate Triggers(contextTok: int, c: Conv, fixed: Option<nat>)
    requires c.mark <= |c.messages|
  {
    0 < contextTok <= Estimate(fixed, c.messages[c.mark..]) && HasBoundary(Seen(c.messages), c.mark)
  }

  /** Consolidation begins exactly when the prompt fills the window, there is a turn to cut at and the first
      chunk gets archived. */
  lemma ConsolidationBegins(fmt: int -> string, contextTok: int, c: Conv, fixed: Option<nat>, worlds: nat -> World,
                            c2: Conv, marks: seq<nat>)
    requires c.mark <= |c.messages| && IsConsolidation(fmt, contextTok, c, fixed, worlds, c2, marks)
    ensures |marks| > 1 <==> Triggers(contextTok, c, fixed) && WillArchive(c.fails, worlds(0).reply)
  {
    hide Estimate, IsRound, Usable, HasBoundary;
    if 0 < contextTok <= Estimate(fixed, c.messages[c.mark..]) {
      var mid: Conv :| IsLoopVia(fmt, contextTok / 2, c, fixed, worlds, mid, c2, marks);
      NoRounds(fmt, contextTok / 2, c, fixed, worlds);
      if |marks| > 1 {
        var entry := mid.history[|c.history| + 0];
        assert IsRound(fmt, contextTok / 2, c, fixed, worlds, 0, marks[0], marks[1], entry);
        NotDone(fmt, contextTok / 2, c, fixed, worlds, 0, marks[0], marks[1], entry);
      }
    }
  }

  /** Stretches of messages archived under their own entries: the mark moves strictly from `start` to `mark`, and
      entries[i] stands for messages[marks[i]..marks[i + 1]] in the world worlds[i]. */
  ghost predicate Archives(fmt: int -> string, worlds: seq<World>, messages: seq<Message>, start: nat, mark: nat,
                           marks: seq<nat>, entries: seq<string>) {
    && |worlds| == |entries| && |marks| == |entries| + 1 && marks[0] == start && marks[|entries|] == mark
    && forall i :: 0 <= i < |entries| ==> IsArchive(fmt, worlds[i], messages, marks[i], marks[i + 1], entries[i])
  }

  ghost predicate IsArchive(fmt: int -> string, world: World, messages: seq<Message>, start: nat, end: nat,
                            entry: string) {
    start < end <= |messages| && entry == EntryFor(fmt, world, messages[start..end])
  }

  function FirstWorlds(worlds: nat -> World, n: nat): (ws: seq<World>)
    ensures |ws| == n && forall i :: 0 <= i < n ==> ws[i] == worlds(i)
  {
    seq(n, i requires 0 <= i < n => worlds(i))
  }

  /** What a consolidation adds to the history stands, entry by entry, for what it archives; it ends at a user
      turn, and the session only gains the messages that arrived. */
  lemma ConsolidationArchives(fmt: int -> string, contextTok: int, c: Conv, fixed: Option<nat>, worlds: nat -> World,
                              c2: Conv, marks: seq<nat>)
    requires c.mark <= |c.messages| && IsConsolidation(fmt, contextTok, c, fixed, worlds, c2, marks)
    ensures marks != [] && c.messages <= c2.messages && c2.mark <= |c2.messages| && c.history <= c2.history
    ensures Archives(fmt, FirstWorlds(worlds, |marks| - 1), c2.messages, c.mark, c2.mark, marks,
                     c2.history[|c.history|..])
    ensures |marks| > 1 ==> c2.mark < |c2.messages| && c2.messages[c2.mark].role == "user"
    ensures c2.messages in {MessagesAt(c, worlds, |marks| - 1), MessagesAt(c, worlds, |marks|)}
  {
    hide Estimate, IsRound, Usable, HasBoundary, IsDone, EntryFor, MessagesAt, Archives;
    NoArrivals(c, worlds);
    if 0 < contextTok <= Estimate(fixed, c.messages[c.mark..]) {
      var mid: Conv :| IsLoopVia(fmt, contextTok / 2, c, fixed, worlds, mid, c2, marks);
      MoreArrivals(c, worlds, 0, |marks| - 1);
      MoreArrivals(c, worlds, |marks| - 1, |marks|);
      RoundsArchive(fmt, contextTok / 2, c, fixed, worlds, mid, marks, c2.messages);
    } else {
      NothingArchived(fmt, c.messages, c.mark);
      assert c.history[|c.history|..] == [] && FirstWorlds(worlds, 0) == [];
    }
  }

  lemma RoundsArchive(fmt: int -> string, target: nat, c: Conv, fixed: Option<nat>, worlds: nat -> World, mid: Conv,
                      marks: seq<nat>, messages: seq<Message>)
    requires AfterRounds(fmt, target, c, fixed, worlds, mid, marks) && mid.messages <= messages
    ensures Archives(fmt, FirstWorlds(worlds, |marks| - 1), messages, c.mark, mid.mark, marks,
                     mid.history[|c.history|..])
    ensures |marks| > 1 ==> mid.mark < |messages| && messages[mid.mark].role == "user"
  {
    hide IsRound, IsArchive, MessagesAt, MemoryAt, FirstWorlds;
    var n, entries := |marks| - 1, mid.history[|c.history|..];
    forall i | 0 <= i < n
      ensures IsArchive(fmt, FirstWorlds(worlds, n)[i], messages, marks[i], marks[i + 1], entries[i])
    {
      RoundArchives(fmt, target, c, fixed, worlds, i, n, marks[i], marks[i + 1], entries[i], messages);
    }
    if n > 0 {
      RoundArchives(fmt, target, c, fixed, worlds, n - 1, n, marks[n - 1], marks[n], entries[n - 1], messages);
    }
  }

  lemma RoundArchives(fmt: int -> string, target: nat, c: Conv, fixed: Option<nat>, worlds: nat -> World, i: nat,
                      n: nat, start: nat, end: nat, entry: string, messages: seq<Message>)
    requires IsRound(fmt, target, c, fixed, worlds, i, start, end, entry)
    requires i <= n && MessagesAt(c, worlds, n) <= messages
    ensures IsArchive(fmt, worlds(i), messages, start, end, entry)
    ensures end < |messages| && messages[end].role == "user"
  {
    hide EntryFor, Usable, Estimate, RemovesEnough, NoneEnough;
    MoreArrivals(c, worlds, i, n);
    var ms := MessagesAt(c, worlds, i);
    assert ms <= messages;
    assert messages[start..end] == ms[start..end];
  }

  lemma NothingArchived(fmt: int -> string, messages: seq<Message>, mark: nat)
    ensures Archives(fmt, [], messages, mark, mark, [mark], [])
  {
  }

  lemma StillArchived(fmt: int -> string, worlds: seq<World>, before: seq<Message>, messages: seq<Message>,
                      start: nat, mark: nat, marks: seq<nat>, entries: seq<string>)
    requires Archives(fmt, worlds, before, start, mark, marks, entries) && before <= messages
    ensures Archives(fmt, worlds, messages, start, mark, marks, entries)
  {
    hide EntryFor;
    forall i | 0 <= i < |entries|
      ensures IsArchive(fmt, worlds[i], messages, marks[i], marks[i + 1], entries[i])
    {
      assert IsArchive(fmt, worlds[i], before, marks[i], marks[i + 1], entries[i]);
      assert messages[marks[i]..marks[i + 1]] == before[marks[i]..marks[i + 1]];
    }
  }

  /** Rounds join those that came before. */
  lemma ArchivesJoin(fmt: int -> string, worlds1: seq<World>, worlds2: seq<World>, messages: seq<Message>,
                     start: nat, mark: nat, next: nat, marks1: seq<nat>, marks2: seq<nat>, entries1: seq<string>,
                     entries2: seq<string>)
    requires Archives(fmt, worlds1, messages, start, mark, marks1, entries1)
    requires Archives(fmt, worlds2, messages, mark, next, marks2, entries2)
    ensures Archives(fmt, worlds1 + worlds2, messages, start, next, marks1 + marks2[1..], entries1 + entries2)
  {
    hide IsArchive;
    var worlds, marks, entries := worlds1 + worlds2, marks1 + marks2[1..], entries1 + entries2;
    var n := |entries1|;
    forall i | 0 <= i < |entries|
      ensures IsArchive(fmt, worlds[i], messages, marks[i], marks[i + 1], entries[i])
    {
      if i < n {
        assert IsArchive(fmt, worlds1[i], messages, marks1[i], marks1[i + 1], entries1[i]);
      } else {
        assert marks[i] == marks2[i - n] && marks[i + 1] == marks2[i - n + 1];
        assert IsArchive(fmt, worlds2[i - n], messages, marks2[i - n], marks2[i - n + 1], entries2[i - n]);
      }
    }
  }

  predicate Rising(bound: nat, marks: seq<nat>) {
    && (forall i :: 0 <= i < |marks| ==> marks[i] <= bound)
    && (forall i :: 0 <= i < |marks| - 1 ==> marks[i] < marks[i + 1])
  }

  /** The stretches between the marks, one after the other. */
  function Chunks(messages: seq<Message>, marks: seq<nat>): seq<Message>
    requires Rising(|messages|, marks)
  {
    if |marks| <= 1 then []
    else
      var n := |marks| - 2;
      Chunks(messages, marks[..n + 1]) + messages[marks[n]..marks[n + 1]]
  }

  /** The archived chunks, in order, are the messages between the first mark and the last: none lost, repeated or
      moved. */
  lemma {:induction false} ChunksAreMessages(fmt: int -> string, worlds: seq<World>, messages: seq<Message>,
                                             start: nat, mark: nat, marks: seq<nat>, entries: seq<string>)
    requires Archives(fmt, worlds, messages, start, mark, marks, entries) && start <= |messages|
    ensures start <= mark <= |messages| && Rising(|messages|, marks)
    ensures Chunks(messages, marks) == messages[start..mark]
  {
    hide IsArchive, Rising;
    var n := |entries|;
    if n == 0 {
      OneMark(|messages|, marks);
    } else {
      LastArchive(fmt, worlds, messages, start, mark, marks, entries);
      ChunksAreMessages(fmt, worlds[..n - 1], messages, start, marks[n - 1], marks[..n], entries[..n - 1]);
      RisingSnoc(|messages|, marks);
      assert messages[start..marks[n - 1]] + messages[marks[n - 1]..mark] == messages[start..mark];
    }
  }

  lemma LastArchive(fmt: int -> string, worlds: seq<World>, messages: seq<Message>, start: nat, mark: nat,
                    marks: seq<nat>, entries: seq<string>)
    requires Archives(fmt, worlds, messages, start, mark, marks, entries) && entries != []
    ensures var n := |entries|;
            && Archives(fmt, worlds[..n - 1], messages, start, marks[n - 1], marks[..n], entries[..n - 1])
            && marks[n - 1] < mark <= |messages|
  {
    hide EntryFor;
    var n := |entries|;
    assert IsArchive(fmt, worlds[n - 1], messages, marks[n - 1], marks[n], entries[n - 1]);
  }

  lemma OneMark(bound: nat, marks: seq<nat>)
    requires |marks| == 1 && marks[0] <= bound
    ensures Rising(bound, marks)
  {
  }

  lemma RisingSnoc(bound: nat, marks: seq<nat>)
    requires |marks| >= 2
    ensures var n := |marks| - 1;
            Rising(bound, marks[..n]) && marks[n - 1] < marks[n] <= bound ==> Rising(bound, marks)
  {
    var n := |marks| - 1;
    assert forall i :: 0 <= i < n ==> marks[i] == marks[..n][i];
    if Rising(bound, marks[..n]) && marks[n - 1] < marks[n] {
      assert forall i :: 0 <= i < n - 1 ==> marks[..n][i] < marks[..n][i + 1];
    }
  }

  // ---------------------------------------------------------------- one round is enough

  /** If nothing is added to the session during the first round and the fixed part of the prompt does not grow, there
      is one round at most, whatever the model answers, and it brings the prompt within half the window whenever some
      cut removes the excess. */
  lemma OnceInSteadyWorld(fmt: int -> string, contextTok: int, c: Conv, fixed: nat, worlds: nat -> World, c2: Conv,
                          marks: seq<nat>)
    requires c.mark <= |c.messages| && IsConsolidation(fmt, contextTok, c, Some(fixed), worlds, c2, marks)
    requires worlds(0).arrivals == [] && (worlds(0).fixed.Some? ==> worlds(0).fixed.value <= fixed)
    ensures 1 <= |marks| <= 2
    ensures |marks| == 2 && worlds(0).fixed.Some?
            && CanRemove(Seen(c.messages), c.mark,
                         PromptTokens(fixed, Entries(c.messages[c.mark..])) - contextTok / 2) ==>
              c2.mark <= |c2.messages|
              && PromptTokens(worlds(0).fixed.value, Entries(c2.messages[c2.mark..])) <= contextTok / 2
  {
    hide Estimate, IsRound, Usable, HasBoundary, CanRemove, PromptTokens, Seen;
    if 0 < contextTok <= Estimate(Some(fixed), c.messages[c.mark..]) {
      var target := contextTok / 2;
      var mid: Conv :| IsLoopVia(fmt, target, c, Some(fixed), worlds, mid, c2, marks);
      if |marks| >= 2 {
        var e0 := mid.history[|c.history| + 0];
        assert IsRound(fmt, target, c, Some(fixed), worlds, 0, marks[0], marks[1], e0);
        FirstRoundFinishes(fmt, target, c, fixed, worlds, marks[0], marks[1], e0);
        if |marks| > 2 {
          var e1 := mid.history[|c.history| + 1];
          assert IsRound(fmt, target, c, Some(fixed), worlds, 1, marks[1], marks[2], e1);
          NotDone(fmt, target, c, Some(fixed), worlds, 1, marks[1], marks[2], e1);
        }
      }
    }
  }

  lemma FirstRoundFinishes(fmt: int -> string, target: nat, c: Conv, fixed: nat, worlds: nat -> World, start: nat,
                           end: nat, entry: string)
    requires IsRound(fmt, target, c, Some(fixed), worlds, 0, start, end, entry)
    requires worlds(0).arrivals == [] && (worlds(0).fixed.Some? ==> worlds(0).fixed.value <= fixed)
    ensures MessagesAt(c, worlds, 1) == c.messages && start <= end <= |c.messages|
    ensures IsDone(target, c, Some(fixed), worlds, 1, end)
    ensures worlds(0).fixed.Some?
            && CanRemove(Seen(c.messages), start, PromptTokens(fixed, Entries(c.messages[start..])) - target) ==>
              PromptTokens(worlds(0).fixed.value, Entries(c.messages[end..])) <= target
  {
    hide CanRemove, HasBoundary, Seen, PromptTokens, RemovesEnough, Usable, EntryFor, IsPick;
    NextMessages(c, worlds, 0);
    assert MessagesAt(c, worlds, 0) == c.messages;
    var need := EstimateAt(c, Some(fixed), worlds, 0, start) - target;
    PickDecides(c.messages, start, need, end);
    if worlds(0).fixed.Some? && RemovesEnough(c.messages, start, end, need) {
      EnoughRemoved(c.messages, start, end, need);
      var ms := c.messages[start..];
      assert ms[..end - start] == c.messages[start..end] && ms[end - start..] == c.messages[end..];
      OneRoundIsEnough(fixed, worlds(0).fixed.value, ms, end - start, target);
    }
  }

  /** A pick removes enough if anything does, and one that does not is the last boundary. */
  lemma PickDecides(messages: seq<Message>, start: nat, need: int, end: nat)
    requires IsPick(Seen(messages), start, need, end)
    ensures CanRemove(Seen(messages), start, need) ==> RemovesEnough(messages, start, end, need)
    ensures RemovesEnough(messages, start, end, need) || !HasBoundary(Seen(messages), end)
  {
    hide RemovesEnough;
    SeenRemoves(messages, start, end, need);
    var all := Seen(messages);
    assert forall j: nat :: IsBoundary(all, end, j) ==> IsBoundary(all, start, j);
  }

  lemma SeenRemoves(messages: seq<Message>, start: nat, end: nat, need: int)
    requires end <= |Seen(messages)|
    ensures RemovesEnough(Seen(messages), start, end, need) <==> RemovesEnough(messages, start, end, need)
  {
    if start <= end {
      assert Seen(messages)[start..end] == messages[start..end];
    }
  }

  lemma EnoughRemoved(all: seq<Message>, start: nat, i: nat, need: int)
    requires start <= i <= |all|
    ensures RemovesEnough(all, start, i, need) <==> MessageTokens(all[start..i]) >= need
  {
  }
}
