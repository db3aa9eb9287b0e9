/** Token-driven consolidation of a session into MEMORY.md and HISTORY.md: the object and its loops
    (tools/consolidator.go). */
module Consolidator {
  import opened Session
  import opened Wrappers
  import opened ConsolidationPlan

  class MemoryConsolidator {
    const contextTok: int
    const fmt: int -> string
    var memory: string          // MEMORY.md
    var history: seq<string>    // entries of HISTORY.md
    var consecFail: nat

    ghost predicate Valid()
      reads this
    {
      consecFail < MAX_FAILURES
    }

    constructor (contextTok: int, fmt: int -> string)
      ensures Valid() && this.contextTok == contextTok && memory == "" && history == []
    {
      this.contextTok, this.fmt := contextTok, fmt;
      memory, history, consecFail := "", [], 0;
    }

    /** The first boundary from `start` on that removes enough, or how far the search got: the last boundary,
        -1 when there is none. */
    static method ScanBoundaries(all: seq<Message>, start: nat, need: int) returns (enough: bool, boundary: int)
      requires start <= |all|
      ensures enough ==> IsBoundary(all, start, boundary) && RemovesEnough(all, start, boundary, need)
                         && NoneEnough(all, start, need, boundary)
      ensures !enough ==> NoneEnough(all, start, need, |all|)
                          && (boundary == -1 || IsBoundary(all, start, boundary))
                          && forall j: nat :: boundary < j ==> !IsBoundary(all, start, j)
    {
      hide EstimateMessageTokens, MessageTokens, RemovesEnough;
      var removed := 0;
      NoTokens(all[start..start]);
      boundary := -1;
      for i := start to |all|
        invariant removed == MessageTokens(all[start..i])
        invariant NoneEnough(all, start, need, i)
        invariant boundary == -1 || (boundary < i && IsBoundary(all, start, boundary))
        invariant forall j: nat :: boundary < j < i ==> !IsBoundary(all, start, j)
      {
        EnoughRemoved(all, start, i, need);
        if i > start && all[i].role == "user" {
          boundary := i;
          if removed >= need {
            return true, i;
          }
        }
        OneMoreMessage(all, start, i);
        removed := removed + EstimateMessageTokens(all[i]);
      }
      return false, boundary;
    }

    method PickConsolidationBoundary(sess: Session, need: int) returns (end: nat, ok: bool)
      ensures ok ==> need > 0 && IsPick(Seen(sess.messages), sess.lastConsolidated, need, end)
      ensures !ok ==> need <= 0 || forall i: nat :: !IsBoundary(Seen(sess.messages), sess.lastConsolidated, i)
    {
      hide RemovesEnough;
      var start := sess.lastConsolidated;
      var all := sess.GetMessagesFrom(0, ALL_MESSAGES);
      assert all == Seen(sess.messages);
      if start >= |all| || need <= 0 {
        return 0, false;
      }
      var enough, boundary := ScanBoundaries(all, start, need);
      if enough || boundary >= 0 {
        return boundary, true;
      }
      return 0, false;
    }

    /** Asks the model to fold the chunk into the memory files; after three failures in a row the chunk is
        archived as it is. True when the chunk is safe. */
    method ConsolidateMessages(chunk: seq<Message>, reply: Reply, now: int) returns (archived: bool)
      requires Valid()
      modifies this
      ensures Valid()
      ensures chunk == [] ==>
                archived && history == old(history) && memory == old(memory) && consecFail == old(consecFail)
      ensures chunk != [] && reply.SaveMemory? && reply.entry != "" && reply.update != "" ==>
                archived && history == old(history) + [reply.entry] && memory == reply.update && consecFail == 0
      ensures chunk != [] && !(reply.SaveMemory? && reply.entry != "" && reply.update != "") ==>
                && archived == (old(consecFail) + 1 == MAX_FAILURES)
                && memory == old(memory)
                && history == (if archived then old(history) + [RawEntry(fmt, now, chunk)] else old(history))
                && consecFail == (if archived then 0 else old(consecFail) + 1)
    {
      if |chunk| == 0 {
        return true;
      }
      if !reply.SaveMemory? || reply.entry == "" || reply.update == "" {
        archived := FailOrRawArchive(chunk, now);
        return;
      }
      history := history + [reply.entry];
      if reply.update != memory {
        memory := reply.update;
      }
      consecFail := 0;
      return true;
    }

    method FailOrRawArchive(chunk: seq<Message>, now: int) returns (archived: bool)
      requires Valid()
      modifies this`consecFail, this`history
      ensures Valid() && archived == (old(consecFail) + 1 == MAX_FAILURES)
      ensures history == (if archived then old(history) + [RawEntry(fmt, now, chunk)] else old(history))
      ensures consecFail == (if archived then 0 else old(consecFail) + 1)
    {
      consecFail := consecFail + 1;
      if consecFail < MAX_FAILURES {
        return false;
      }
      history := history + [RawEntry(fmt, now, chunk)];
      consecFail := 0;
      return true;
    }

    /** The estimate for the session as it stands; 0 when the prompt cannot be built. */
    method EstimateSessionPromptTokens(sess: Session, fixed: Option<nat>) returns (tok: nat)
      requires sess.lastConsolidated <= |sess.messages|
      ensures tok == Estimate(fixed, sess.messages[sess.lastConsolidated..])
    {
      var entries := sess.GetHistory(0, true);
      if fixed.None? {
        return 0;
      }
      var n := 0;
      for i := 0 to |entries|
        invariant n == PromptBytes(entries[..i])
      {
        assert entries[..i + 1][..i] == entries[..i];
        n := n + |entries[i].role| + |entries[i].content| + 20;
      }
      assert entries[..|entries|] == entries;
      n := n + fixed.value;
      return if n / 4 < 1 then 1 else n / 4;
    }

    /** The session and the memory files as they are. */
    ghost function Now(sess: Session): (c: Conv)
      reads this`history, this`memory, this`consecFail, sess`messages, sess`lastConsolidated
      ensures c.messages == sess.messages && c.mark == sess.lastConsolidated
    {
      Conv(sess.messages, sess.lastConsolidated, history, memory, consecFail)
    }

    /** One round of the loop, and the estimate after it. */
    method Round(sess: Session, target: nat, estimated: nat, world: World) returns (archived: bool, next: nat)
      requires Valid() && sess.Valid() && estimated > target
      modifies this, sess
      ensures Valid() && sess.Valid()
      ensures RoundStep(fmt, estimated - target, old(Now(sess)), world, Now(sess), archived)
      ensures next == if archived then Estimate(world.fixed, sess.messages[sess.lastConsolidated..]) else 0
    {
      hide HasBoundary, IsPick, Seen, PromptTokens, RawEntry;
      var end, ok := PickConsolidationBoundary(sess, estimated - target);
      PickFound(Seen(sess.messages), sess.lastConsolidated, estimated - target, end, ok);
      if !ok {
        return false, 0;
      }
      var start := sess.lastConsolidated;
      SeenShorter(sess.messages);
      var chunk := sess.GetMessagesFrom(start, end);
      sess.messages := sess.messages + world.arrivals;
      archived := ConsolidateMessages(chunk, world.reply, world.now);
      if !archived {
        return false, 0;
      }
      sess.SetLastConsolidated(end);
      next := EstimateSessionPromptTokens(sess, world.fixed);
    }

    /** Consolidates until the prompt fits half the window, at most five rounds. `marks` are the places the mark
        was at. */
    method MaybeConsolidateByTokens(sess: Session, fixed: Option<nat>, worlds: nat -> World)
      returns (rounds: nat, ghost marks: seq<nat>)
      requires Valid() && sess.Valid()
      modifies this, sess
      ensures Valid() && sess.Valid() && |marks| == rounds + 1
      ensures IsConsolidation(fmt, contextTok, old(Now(sess)), fixed, worlds, Now(sess), marks)
    {
      hide HasBoundary, Estimate, AfterRounds, RoundStep, IsDone, Ends, IsLoopVia, Usable, MessagesAt;
      rounds, marks := 0, [sess.lastConsolidated];
      if contextTok <= 0 {
        return;
      }
      var target := contextTok / 2;
      ghost var c := Now(sess);
      NoRounds(fmt, target, c, fixed, worlds);
      if |sess.messages| == 0 {
        EmptySession(fmt, target, c, fixed, worlds);
        return;
      }
      var estimated: nat := EstimateSessionPromptTokens(sess, fixed);
      if estimated <= 0 || estimated < contextTok {
        return;
      }
      while rounds < MAX_ROUNDS && estimated > target
        invariant Valid() && sess.Valid() && rounds <= MAX_ROUNDS && |marks| == rounds + 1
        invariant AfterRounds(fmt, target, c, fixed, worlds, Now(sess), marks)
        invariant sess.lastConsolidated <= |MessagesAt(c, worlds, rounds)|
        invariant estimated == EstimateAt(c, fixed, worlds, rounds, sess.lastConsolidated)
      {
        ghost var before := Now(sess);
        var archived, next := Round(sess, target, estimated, worlds(rounds));
        if !archived {
          Stopped(fmt, target, c, fixed, worlds, before, marks, Now(sess));
          return;
        }
        OneMoreRound(fmt, target, c, fixed, worlds, before, marks, Now(sess));
        marks := marks + [sess.lastConsolidated];
        rounds, estimated := rounds + 1, next;
      }
      Finished(fmt, target, c, fixed, worlds, Now(sess), marks);
    }
  }

  /** The search succeeds exactly when there is a boundary. */
  lemma PickFound(all: seq<Message>, start: nat, need: int, end: nat, ok: bool)
    requires need > 0
    requires if ok then IsPick(all, start, need, end) else forall i: nat :: !IsBoundary(all, start, i)
    ensures ok <==> HasBoundary(all, start)
    ensures ok ==> start < end < |all|
  {
    hide RemovesEnough, NoneEnough;
    if ok {
      assert IsBoundary(all, start, end);
    }
  }

  lemma SeenShorter(messages: seq<Message>)
    ensures |Seen(messages)| <= |messages|
  {
  }

  lemma EmptySession(fmt: int -> string, target: nat, c: Conv, fixed: Option<nat>, worlds: nat -> World)
    requires c.messages == [] && c.mark == 0
    ensures IsLoop(fmt, target, c, fixed, worlds, c, [0])
  {
    hide AfterRounds, Estimate;
    NoRounds(fmt, target, c, fixed, worlds);
    assert IsDone(target, c, fixed, worlds, 0, 0);
    assert IsLoopVia(fmt, target, c, fixed, worlds, c, c, [0]);
  }

  /** The loop ends when no round is due ... */
  lemma Finished(fmt: int -> string, target: nat, c: Conv, fixed: Option<nat>, worlds: nat -> World, c2: Conv,
                 marks: seq<nat>)
    requires AfterRounds(fmt, target, c, fixed, worlds, c2, marks)
    requires |marks| == MAX_ROUNDS + 1 || EstimateAt(c, fixed, worlds, |marks| - 1, c2.mark) <= target
    ensures IsLoop(fmt, target, c, fixed, worlds, c2, marks)
  {
    hide Estimate, IsRound, HasBoundary;
    assert IsLoopVia(fmt, target, c, fixed, worlds, c2, c2, marks);
  }

  /** ... or when a round archives nothing. */
  lemma Stopped(fmt: int -> string, target: nat, c: Conv, fixed: Option<nat>, worlds: nat -> World, c2: Conv,
                marks: seq<nat>, c3: Conv)
    requires AfterRounds(fmt, target, c, fixed, worlds, c2, marks) && |marks| <= MAX_ROUNDS
    requires var estimated := EstimateAt(c, fixed, worlds, |marks| - 1, c2.mark);
             estimated > target && RoundStep(fmt, estimated - target, c2, worlds(|marks| - 1), c3, false)
    ensures IsLoop(fmt, target, c, fixed, worlds, c3, marks)
  {
    hide Estimate, IsRound, HasBoundary, Usable, EntryFor, IsPick;
    NextMessages(c, worlds, |marks| - 1);
    assert IsLoopVia(fmt, target, c, fixed, worlds, c2, c3, marks);
  }

  lemma NoTokens(ms: seq<Message>)
    requires |ms| == 0
    ensures MessageTokens(ms) == 0
  {
  }

  lemma OneMoreMessage(all: seq<Message>, start: nat, i: nat)
    requires start <= i < |all|
    ensures MessageTokens(all[start..i + 1]) == MessageTokens(all[start..i]) + EstimateMessageTokens(all[i])
  {
    assert all[start..i + 1][..i - start] == all[start..i];
  }
}
