/** The compaction engine: its scanning and trimming loops and the passes that rewrite the store
    (lcm/compaction.go). */
module LcmCompaction {
  import opened Wrappers
  import opened LcmTypes
  import opened LcmTables
  import opened LcmStore
  import opened LcmPlan

  /** One call of the summarizer: its reply (None for an error), the random id drawn for the summary, and
      the messages other turns append while no lock is held. */
  datatype ModelCall = ModelCall(reply: Option<string>, sid: string, arrivals: seq<MessageRow>)

  /** What other turns and the summarizer do during a compaction run: the two calls, and the messages appended
      between the commit of the leaf and the reading of the list for the condensation. */
  datatype Calls = Calls(leaf: ModelCall, between: seq<MessageRow>, condensed: ModelCall)

  function AllArrivals(calls: Calls): seq<MessageRow> {
    calls.leaf.arrivals + (calls.between + calls.condensed.arrivals)
  }

  class CompactionEngine {
    const store: Store
    const cfg: Config
    const fmt: int -> string  // RFC 3339 formatting of a time stamp

    constructor (store: Store, cfg: Config, fmt: int -> string)
      ensures this.store == store && this.cfg == cfg && this.fmt == fmt
    {
      this.store, this.cfg, this.fmt := store, cfg, fmt;
    }

    /** The message ids in front of the first summary, among the first `bound` rows. */
    static method ScanMessages(details: seq<ContextRow>, bound: nat) returns (start: int, end: int, msgIDs: seq<int>)
      requires Dense(details) && bound <= |details|
      ensures start == 0 && end == |msgIDs| <= bound
      ensures AllMessages(details, |msgIDs|) && (|msgIDs| == bound || !details[|msgIDs|].ref.Msg?)
      ensures forall j :: 0 <= j < |msgIDs| ==> details[j].ref == Msg(msgIDs[j])
    {
      start, end, msgIDs := 0, 0, [];
      var i := 0;
      while i < bound && details[i].ref.Msg?
        invariant 0 <= i <= bound && AllMessages(details, i) && |msgIDs| == i && end == i && start == 0
        invariant forall j :: 0 <= j < i ==> details[j].ref == Msg(msgIDs[j])
      {
        if |msgIDs| == 0 {
          start := details[i].ordinal;
        }
        msgIDs := msgIDs + [details[i].ref.id];
        end := details[i].ordinal + 1;
        i := i + 1;
      }
    }

    static method SumTokens(msgs: seq<MessageRow>) returns (total: nat)
      ensures total == TokenSum(msgs)
    {
      total := 0;
      for j := 0 to |msgs|
        invariant total == TokenSum(msgs[..j])
      {
        assert msgs[..j + 1][..j] == msgs[..j];
        total := total + msgs[j].tokens;
      }
      assert msgs[..|msgs|] == msgs;
    }

    /** Drops rows and ids from the end, in step, until the rest fits or one is left. */
    static method TrimChunk(msgs0: seq<MessageRow>, msgIDs0: seq<int>, total0: nat, limit: int)
      returns (msgs: seq<MessageRow>, msgIDs: seq<int>, total: nat)
      requires msgs0 != [] && |msgIDs0| == |msgs0| && total0 == TokenSum(msgs0)
      ensures 1 <= |msgs| <= |msgs0| && msgs == msgs0[..|msgs|] && msgIDs == msgIDs0[..|msgs|]
      ensures total == TokenSum(msgs) && (|msgs| == 1 || total <= limit)
      ensures forall j :: |msgs| < j <= |msgs0| ==> TokenSum(msgs0[..j]) > limit
    {
      msgs, msgIDs, total := msgs0, msgIDs0, total0;
      while |msgs| > 1 && total > limit
        invariant 1 <= |msgs| <= |msgs0| && msgs == msgs0[..|msgs|] && msgIDs == msgIDs0[..|msgs|]
        invariant total == TokenSum(msgs)
        invariant forall j :: |msgs| < j <= |msgs0| ==> TokenSum(msgs0[..j]) > limit
      {
        total := total - msgs[|msgs| - 1].tokens;
        msgs := msgs[..|msgs| - 1];
        msgIDs := msgIDs[..|msgIDs| - 1];
      }
    }

    /** The reading half of a leaf pass. `msgs` and `msgIDs` name the same rows, the first k of the log, and
        [start, end) the same k items; k is 0 when there is nothing to compact. */
    method PickLeafChunk() returns (start: int, end: int, msgIDs: seq<int>, msgs: seq<MessageRow>, total: nat)
      requires Dense(store.items) && Ordered(store.messages) && Lossless(store.T())
      ensures msgs == [] ==> forall k: nat :: !IsLeafChunk(cfg, store.T(), k)
      ensures msgs != [] ==>
                && IsLeafChunk(cfg, store.T(), |msgs|)
                && msgs == store.messages[..|msgs|] && msgIDs == Ids(msgs)
                && start == 0 && end == |msgs| && total == TokenSum(msgs)
    {
      hide Lossless, Ordered, SelectByIds, TokenSum, IsLeafChunk;
      start, end, msgIDs, msgs, total := 0, 0, [], [], 0;
      var details := store.items;
      var n, tail := |details|, FreshTail(cfg);
      if n <= tail {
        NoChunk(cfg, store.T(), 0);
        return;
      }
      start, end, msgIDs := ScanMessages(details, n - tail);
      if |msgIDs| < cfg.leafMinFanout || |msgIDs| == 0 {
        NoChunk(cfg, store.T(), |msgIDs|);
        return;
      }
      ghost var run := |msgIDs|;
      ScannedRows(store.T(), msgIDs);
      msgs := store.GetMessagesByIDs(msgIDs);
      total := SumTokens(msgs);
      if total > cfg.leafChunkTokens {
        msgs, msgIDs, total := TrimChunk(msgs, msgIDs, total, cfg.leafChunkTokens);
        end := details[|msgIDs| - 1].ordinal + 1;
      }
      assert store.messages[..run][..|msgs|] == msgs;
      TrimmedChunk(cfg, store.T(), run, |msgs|);
      if |msgIDs| < cfg.leafMinFanout {
        msgs := [];
      }
    }

    /** The first run of at least m leaf summaries, empty when there is none. */
    static method FindRun(evictable: seq<ContextItem>, m: nat) returns (a: nat, b: nat)
      requires m >= 1
      ensures LeafRun(evictable, a, b)
      ensures a == b ==> forall s: nat, e: nat :: LeafRun(evictable, s, e) ==> e - s < m
      ensures a < b ==>
                && b - a >= m && (b == |evictable| || !IsLeafItem(evictable[b]))
                && forall s: nat, e: nat :: s < a && LeafRun(evictable, s, e) ==> e - s < m
    {
      var i := 0;
      while i < |evictable|
        invariant forall s: nat, e: nat :: s < i && LeafRun(evictable, s, e) ==> e - s < m
      {
        if IsLeafItem(evictable[i]) {
          var j := i;
          while j < |evictable| && IsLeafItem(evictable[j])
            invariant i <= j && LeafRun(evictable, i, j)
          {
            j := j + 1;
          }
          if j - i >= m {
            return i, j;
          }
          i := j;
        }
        i := i + 1;
      }
      return 0, 0;
    }

    /** How many leaves of the run to keep: those in front of the first, beyond the fanout, at which the
        tokens exceed the limit. */
    static method TrimSegment(segment: seq<ContextItem>, m: nat) returns (trimEnd: nat)
      requires m <= |segment|
      ensures m <= trimEnd <= |segment|
      ensures trimEnd > m ==> ContentTokens(segment[..trimEnd]) <= MAX_CONDENSED_INPUT_TOKENS
      ensures trimEnd < |segment| ==> ContentTokens(segment[..trimEnd + 1]) > MAX_CONDENSED_INPUT_TOKENS
    {
      var total := 0;
      for k := 0 to |segment|
        invariant total == ContentTokens(segment[..k])
        invariant k > m ==> total <= MAX_CONDENSED_INPUT_TOKENS
      {
        assert segment[..k + 1][..k] == segment[..k];
        total := total + EstimateTokens(segment[k].content);
        if total > MAX_CONDENSED_INPUT_TOKENS && k >= m {
          return k;
        }
      }
      return |segment|;
    }

    /** The segment a condensation takes, empty when there is none. */
    static method PickSegment(evictable: seq<ContextItem>, m: nat) returns (a: nat, b: nat)
      requires m >= 1
      ensures a == b ==> forall c: nat, d: nat :: !IsSegment(m, evictable, c, d)
      ensures a != b ==> IsSegment(m, evictable, a, b)
    {
      hide ContentTokens;
      a, b := FindRun(evictable, m);
      if a == b {
        return;
      }
      var trimEnd := TrimSegment(evictable[a..b], m);
      TrimmedSegment(evictable, m, a, b, a + trimEnd);
      b := a + trimEnd;
    }

    static method CondensedInputOf(fmt: int -> string, segment: seq<ContextItem>) returns (input: string)
      ensures input == CondensedInput(fmt, segment)
    {
      input := "";
      for i := 0 to |segment|
        invariant input == CondensedInput(fmt, segment[..i])
      {
        assert segment[..i + 1][..i] == segment[..i];
        input := input + "[" + fmt(segment[i].earliest) + " - " + fmt(segment[i].latest) + "]\n"
                + segment[i].content + "\n\n";
      }
      assert segment[..|segment|] == segment;
    }

    static method LeafInputOf(fmt: int -> string, msgs: seq<MessageRow>) returns (input: string)
      ensures input == LeafInput(fmt, msgs)
    {
      input := "";
      for i := 0 to |msgs|
        invariant input == LeafInput(fmt, msgs[..i])
      {
        assert msgs[..i + 1][..i] == msgs[..i];
        input := input + "[" + fmt(msgs[i].createdAt) + "] " + msgs[i].role + ": " + msgs[i].content + "\n\n";
      }
      assert msgs[..|msgs|] == msgs;
    }

    /** Parents, time hull and descendant total of a segment, in one pass. */
    static method Gather(segment: seq<ContextItem>)
      returns (parentIDs: seq<string>, earliest: int, latest: int, descendants: nat)
      requires segment != [] && LeafRun(segment, 0, |segment|)
      ensures |parentIDs| == |segment| && forall j :: 0 <= j < |segment| ==> segment[j].ref == Sum(parentIDs[j])
      ensures descendants == DescendantTotal(segment)
      ensures forall it :: it in segment ==> earliest <= it.earliest && it.latest <= latest
      ensures exists it :: it in segment && it.earliest == earliest
      ensures exists it :: it in segment && it.latest == latest
    {
      ghost var first, last := segment[0], segment[0];
      parentIDs, earliest, latest, descendants := [], segment[0].earliest, segment[0].latest, 0;
      for i := 0 to |segment|
        invariant |parentIDs| == i && forall j :: 0 <= j < i ==> segment[j].ref == Sum(parentIDs[j])
        invariant descendants == DescendantTotal(segment[..i])
        invariant forall j :: 0 <= j < i ==> earliest <= segment[j].earliest && segment[j].latest <= latest
        invariant first in segment && first.earliest == earliest && last in segment && last.latest == latest
      {
        assert segment[..i + 1][..i] == segment[..i];
        var it := segment[i];
        parentIDs := parentIDs + [it.ref.sid];
        if it.earliest < earliest {
          earliest, first := it.earliest, it;
        }
        if it.latest > latest {
          latest, last := it.latest, it;
        }
        descendants := descendants + 1 + it.descendants;
      }
      assert segment[..|segment|] == segment;
    }

    static method MakeCondensed(cfg: Config, fmt: int -> string, segment: seq<ContextItem>, reply: Option<string>,
          sid: string)
      returns (s: Summary)
      requires segment != [] && LeafRun(segment, 0, |segment|)
      ensures s.sid == sid && IsCondensedSummary(cfg, fmt, segment, reply, s)
    {
      var input := CondensedInputOf(fmt, segment);
      var text := CondensedText(cfg, input, reply);
      var parentIDs, earliest, latest, descendants := Gather(segment);
      s := Summary(sid, SummaryRow(Condensed, 1, text, EstimateTokens(text), earliest, latest, descendants), [],
              parentIDs);
    }

    /** A leaf pass: plan, call the summarizer while others append, then replace. */
    method LeafPass(call: ModelCall) returns (ok: bool, k: nat)
      requires Valid(store.T()) && Sequenced(store.messages, call.arrivals)
      modifies store
      ensures k == 0 ==> ok && store.T() == old(store.T()) && forall j: nat :: !IsLeafChunk(cfg, old(store.T()), j)
      ensures k > 0 ==>
                && IsLeafChunk(cfg, old(store.T()), k)
                && ok == (call.sid !in old(store.summaries))
                && LeafPassEffect(cfg, fmt, old(store.T()), k, call, store.T())
      ensures k > 0 && ok ==>
                StoresLeaf(cfg, LeafInput(fmt, old(store.messages)[..k]), old(store.messages)[..k], call, store.T())
      ensures Valid(store.T())
    {
      hide Valid, IsLeafChunk, Replace, Ingest, LeafPassEffect, Lossless, Ordered, StoresLeaf;
      ghost var t := store.T();
      ReadablePlan(t);
      var start, end, msgIDs, msgs, total := PickLeafChunk();
      if msgs == [] {
        return true, 0;
      }
      k := |msgs|;
      ChunkInRange(cfg, t, k);
      var input := LeafInputOf(fmt, msgs);
      var arrived := store.IngestMessages(call.arrivals);
      var text := LeafText(cfg, input, total, call.reply);
      var s := Summary(call.sid,
                       SummaryRow(Leaf, 0, text, EstimateTokens(text), msgs[0].createdAt,
                               msgs[|msgs| - 1].createdAt, 0),
                       msgIDs, []);
      LeafPassResult(cfg, fmt, t, k, call);
      ok := store.ReplaceContextRange(start, end, s);
      if ok {
        LeafStored(cfg, fmt, t, k, call, store.T());
      }
    }

    /** The reading half of a condensation: the context items and the range to take, empty for none. */
    method PlanCondensation() returns (items: seq<ContextItem>, a: nat, b: nat)
      requires Valid(store.T())
      ensures items == View(store.T())
      ensures a == b ==> forall c: nat, d: nat :: !IsSegment(MinCondensedFanout(cfg), Evictable(cfg, items), c, d)
      ensures a != b ==>
                && IsSegment(MinCondensedFanout(cfg), Evictable(cfg, items), a, b)
                && a < b <= |items| && LeafRun(items[a..b], 0, b - a)
                && items[a].ordinal == a && items[b - 1].ordinal == b - 1
    {
      hide Valid, IsSegment, View, ItemOf, LeafRun;
      items := store.GetContextItems();
      ViewRead(store.T(), items);
      var freshStart := |items| - FreshTail(cfg);
      if freshStart <= 0 {
        NoSegmentInNothing(MinCondensedFanout(cfg));
        return items, 0, 0;
      }
      a, b := PickSegment(items[..freshStart], MinCondensedFanout(cfg));
      if a != b {
        SegmentInView(cfg, store.T(), a, b);
        ViewOrdinals(store.T(), a);
        ViewOrdinals(store.T(), b - 1);
      }
    }

    /** A condensation: plan, call the summarizer while others append, then replace. Items [a, b) were taken. */
    method CondensedPass(call: ModelCall) returns (a: nat, b: nat)
      requires Valid(store.T()) && Sequenced(store.messages, call.arrivals)
      modifies store
      ensures a == b ==> store.T() == old(store.T())
                         && forall c: nat, d: nat :: !IsSegment(MinCondensedFanout(cfg), Evictable(cfg,
                                 View(old(store.T()))), c, d)
      ensures a != b ==> CondensedPassEffect(cfg, fmt, old(store.T()), a, b, call, store.T())
      ensures Valid(store.T())
    {
      hide Valid, IsSegment, IsCondensedSummary, CondensedPassEffect, Replace, Ingest, IsView;
      hide LeafRun, Sequenced, Evictable, View;
      ghost var t := store.T();
      var items;
      items, a, b := PlanCondensation();
      if a == b {
        return;
      }
      var arrived := store.IngestMessages(call.arrivals);
      var s := MakeCondensed(cfg, fmt, items[a..b], call.reply, call.sid);
      CondensedPassResult(cfg, fmt, t, a, b, call, s);
      var ok := store.ReplaceContextRange(items[a].ordinal, items[b - 1].ordinal + 1, s);
    }

    /** One leaf pass and, when it stored a leaf and condensation is on, one condensation. Whatever arrives
        meanwhile, the log only grows, the context stays lossless, and the last FreshTailCount items stay as
        they were, less the items that arrived before the condensation was planned. */
    method RunIncremental(calls: Calls) returns (ok: bool, k: nat, a: nat, b: nat)
      requires Valid(store.T()) && Sequenced(store.messages, AllArrivals(calls))
      modifies store
      ensures Valid(store.T())
      ensures k == 0 ==> store.T() == old(store.T()) && forall j: nat :: !IsLeafChunk(cfg, old(store.T()), j)
      ensures k > 0 ==> IsLeafChunk(cfg, old(store.T()), k) && ok == (calls.leaf.sid !in old(store.summaries))
      ensures a != b ==> ok && k > 0 && cfg.incrementalMaxDepth != 0
      ensures k > 0 ==> RunEffect(cfg, fmt, old(store.T()), k, calls, ok, a, b, store.T())
      ensures old(store.messages) <= store.messages
      ensures |store.messages| <= |old(store.messages)| + |AllArrivals(calls)|
      ensures var arrived := Arrived(old(store.T()), calls.leaf.arrivals) + |calls.between|;
              arrived <= FreshTail(cfg) ==> KeepsTail(FreshTail(cfg) - arrived, old(store.T()), store.T())
    {
      hide Valid, Sequenced, KeepsTail, IsLeafChunk, LeafPassEffect, CondensedPassEffect, IsSegment, Ingest, Extends;
      hide StoresLeaf, LeafInput, Evictable, View;
      a, b := 0, 0;
      ghost var t, f := store.T(), FreshTail(cfg);
      ghost var arrived := Arrived(t, calls.leaf.arrivals) + |calls.between|;
      ArrivalsStaySequenced(t, calls.leaf.arrivals, calls.between + calls.condensed.arrivals);
      ok, k := LeafPass(calls.leaf);
      ghost var t1 := store.T();
      if k == 0 {
        UnchangedKeepsTail(f - arrived, t);
        return;
      }
      LeafPassTail(cfg, fmt, t, k, calls.leaf, t1);
      if ok && cfg.incrementalMaxDepth != 0 {
        ArrivalsStaySequenced(t1, calls.between, calls.condensed.arrivals);
        ArrivalsExtend(t1, calls.between);
        ArrivalCount(t1, calls.between);
        var came := store.IngestMessages(calls.between);
        ghost var t2 := store.T();
        MessagesGrow(t1, t2);
        a, b := CondensedPass(calls.condensed);
        CondensedPassTail(cfg, fmt, t2, a, b, calls.condensed, store.T());
        if arrived <= f {
          TailAcross(f, t, t1, t2, store.T(), arrived);
        }
      } else if arrived <= f {
        ExtendsItself(t1);
        UnchangedKeepsTail(f, t1);
        TailAcross(f, t, t1, t1, t1, arrived);
      }
    }
  }

  lemma MessagesGrow(t: Tables, t2: Tables)
    requires Extends(t, t2)
    ensures t.messages <= t2.messages
  {
  }

  /** Two passes with appends in between. */
  lemma TailAcross(f: nat, t: Tables, t1: Tables, t2: Tables, t3: Tables, arrived: nat)
    requires KeepsTail(f, t, t1) && Extends(t1, t2) && KeepsTail(f, t2, t3)
    requires t.messages <= t2.messages && |t2.messages| - |t.messages| <= arrived <= f
    ensures KeepsTail(f - arrived, t, t3)
  {
    hide KeepsTail, Extends;
    AppendsKeepTail(f, t, t1, t2);
    KeepsTailTwice(f, t, t2, t3);
    KeepsLess(f - (|t2.messages| - |t.messages|), f - arrived, t, t3);
  }

  lemma PrefixSelected(ms: seq<MessageRow>, k: nat, ids: seq<int>)
    requires Ordered(ms) && |ids| == k <= |ms| && forall j :: 0 <= j < k ==> ids[j] == ms[j].id
    ensures SelectByIds(ms, ids) == ms[..k] && ids == Ids(ms[..k])
  {
    assert forall i :: 0 <= i < k ==> ids[i] in ids;
    SelectPrefixAligned(ms, k, ids);
  }

  /** Rows read back for the scanned ids are the first rows of the log. */
  lemma ScannedRows(t: Tables, ids: seq<int>)
    requires Lossless(t) && Ordered(t.messages) && |ids| <= |t.items| && AllMessages(t.items, |ids|)
    requires forall j :: 0 <= j < |ids| ==> t.items[j].ref == Msg(ids[j])
    ensures |ids| <= |t.messages|
    ensures SelectByIds(t.messages, ids) == t.messages[..|ids|] && ids == Ids(t.messages[..|ids|])
  {
    LeadingMessagesAligned(t, |ids|);
    PrefixSelected(t.messages, |ids|, ids);
  }

  /** No chunk without messages outside the tail, or with fewer than the fanout. */
  lemma NoChunk(cfg: Config, t: Tables, run: nat)
    requires run < cfg.leafMinFanout || run == 0
    requires |t.items| <= FreshTail(cfg)
             || (run <= |t.items| - FreshTail(cfg) && (run == |t.items| - FreshTail(cfg) || !t.items[run].ref.Msg?))
    ensures forall k: nat :: !IsLeafChunk(cfg, t, k)
  {
    hide TokenSum;
  }

  /** A maximal run of leading messages, read and trimmed, is the chunk or too short for one. */
  lemma TrimmedChunk(cfg: Config, t: Tables, run: nat, k: nat)
    requires 1 <= k <= run <= |t.messages| && run <= |t.items| - FreshTail(cfg) && AllMessages(t.items, run)
    requires run == |t.items| - FreshTail(cfg) || !t.items[run].ref.Msg?
    requires var read := t.messages[..run];
             && (k == 1 || TokenSum(read[..k]) <= cfg.leafChunkTokens)
             && forall j :: k < j <= run ==> TokenSum(read[..j]) > cfg.leafChunkTokens
    ensures t.messages[..run][..k] == t.messages[..k] && Ids(t.messages[..run])[..k] == Ids(t.messages[..k])
    ensures if k < cfg.leafMinFanout then forall j: nat :: !IsLeafChunk(cfg, t, j) else IsLeafChunk(cfg, t, k)
  {
    hide TokenSum;
    PrefixOfPrefix(t.messages, run, k);
    PrefixSums(t.messages, run, k, cfg.leafChunkTokens);
    ChunkDecided(cfg, t, run, k);
  }

  lemma PrefixOfPrefix(ms: seq<MessageRow>, n: nat, k: nat)
    requires k <= n <= |ms|
    ensures ms[..n][..k] == ms[..k] && Ids(ms[..n])[..k] == Ids(ms[..k])
  {
  }

  lemma PrefixSums(ms: seq<MessageRow>, n: nat, k: nat, limit: int)
    requires k <= n <= |ms|
    requires forall j :: k < j <= n ==> TokenSum(ms[..n][..j]) > limit
    ensures forall j :: k < j <= n ==> TokenSum(ms[..j]) > limit
  {
    forall j | k < j <= n
      ensures TokenSum(ms[..j]) > limit
    {
      assert ms[..n][..j] == ms[..j];
    }
  }

  /** A maximal run of leading messages and its longest fitting prefix decide the chunk. */
  lemma ChunkDecided(cfg: Config, t: Tables, run: nat, k: nat)
    requires 1 <= k <= run <= |t.messages| && run <= |t.items| - FreshTail(cfg) && AllMessages(t.items, run)
    requires run == |t.items| - FreshTail(cfg) || !t.items[run].ref.Msg?
    requires k == 1 || TokenSum(t.messages[..k]) <= cfg.leafChunkTokens
    requires forall j :: k < j <= run ==> TokenSum(t.messages[..j]) > cfg.leafChunkTokens
    ensures if k < cfg.leafMinFanout then forall j: nat :: !IsLeafChunk(cfg, t, j) else IsLeafChunk(cfg, t, k)
  {
  }

  lemma {:induction false} TrimmedSegment(items: seq<ContextItem>, m: nat, a: nat, b: nat, c: nat)
    requires m >= 1 && LeafRun(items, a, b) && a + m <= c <= b
    requires b == |items| || !IsLeafItem(items[b])
    requires forall s: nat, e: nat :: s < a && LeafRun(items, s, e) ==> e - s < m
    requires c - a > m ==> ContentTokens(items[a..b][..c - a]) <= MAX_CONDENSED_INPUT_TOKENS
    requires c < b ==> ContentTokens(items[a..b][..c - a + 1]) > MAX_CONDENSED_INPUT_TOKENS
    ensures IsSegment(m, items, a, c)
  {
    assert items[a..b][..c - a] == items[a..c];
    forall e: nat | c < e && LeafRun(items, a, e)
      ensures ContentTokens(items[a..e]) > MAX_CONDENSED_INPUT_TOKENS
    {
      assert e <= b;
      assert items[a..b][..e - a] == items[a..e];
      ContentTokensMonotone(items[a..b], c - a + 1, e - a);
    }
  }

  // ---------------------------------------------------------------- effects of the passes

  /** How many of the offered rows were appended. */
  function Arrived(t: Tables, ms: seq<MessageRow>): nat {
    if Ingest(t, ms).Some? then |ms| else 0
  }

  /** The leaf of `chunk` is in the tables: the reply if it is no larger than the chunk; after a failed call the
      whole input, if it is short, or its front. */
  ghost predicate StoresLeaf(cfg: Config, input: string, chunk: seq<MessageRow>, call: ModelCall, t: Tables) {
    && call.sid in t.summaries && call.sid in t.sources && t.sources[call.sid] == Ids(chunk)
    && var row, total := t.summaries[call.sid], TokenSum(chunk);
    && row.kind == Leaf && row.depth == 0 && row.descendants == 0 && row.tokens == EstimateTokens(row.content)
    && chunk != [] && row.earliest == chunk[0].createdAt && row.latest == chunk[|chunk| - 1].createdAt
    && (call.reply.Some? && |call.reply.value| <= 4 * total ==> row.content == call.reply.value)
    && (call.reply.None? && |input| <= 2048 && |input| <= 4 * total ==> row.content == input)
    && KeepsFront(cfg, input, total, call.reply, row.content)
  }

  lemma LeafStored(cfg: Config, fmt: int -> string, t: Tables, k: nat, call: ModelCall, t2: Tables)
    requires IsLeafChunk(cfg, t, k) && call.sid !in t.summaries && LeafPassEffect(cfg, fmt, t, k, call, t2)
    ensures StoresLeaf(cfg, LeafInput(fmt, t.messages[..k]), t.messages[..k], call, t2)
  {
    hide IsLeafChunk, LeafInput, KeepsFront, LeafText, Ingest;
    ChunkInRange(cfg, t, k);
    var chunk := t.messages[..k];
    LeafTextCut(cfg, LeafInput(fmt, chunk), TokenSum(chunk), call.reply);
  }

  ghost predicate LeafPassEffect(cfg: Config, fmt: int -> string, t: Tables, k: nat, call: ModelCall, t2: Tables)
    requires 1 <= k <= |t.messages| && k <= |t.items|
  {
    var t1 := AfterArrivals(t, call.arrivals);
    var s := LeafSummary(cfg, fmt, t.messages[..k], call.reply, call.sid);
    if call.sid in t.summaries then t2 == t1
    else
      && Replace(t1, 0, k, s) == Some(t2)
      && t2.messages == t1.messages && t.messages <= t2.messages
      && Refs(t2.items) == [Sum(call.sid)] + Refs(t.items)[k..] + MsgRefs(t2.messages[|t.messages|..])
  }

  /** A leaf pass, and then, if the leaf was stored and condensation is on, the appends that came in between and
      a condensation if there is a segment. */
  ghost predicate RunEffect(cfg: Config, fmt: int -> string, t: Tables, k: nat, calls: Calls, ok: bool,
                            a: nat, b: nat, t2: Tables)
    requires 1 <= k <= |t.messages| && k <= |t.items|
  {
    exists mid: Tables ::
      && LeafPassEffect(cfg, fmt, t, k, calls.leaf, mid)
      && (if !ok || cfg.incrementalMaxDepth == 0 then t2 == mid
          else
            var mid2 := AfterArrivals(mid, calls.between);
            if a != b then CondensedPassEffect(cfg, fmt, mid2, a, b, calls.condensed, t2)
            else
              && t2 == mid2
              && forall c: nat, d: nat :: !IsSegment(MinCondensedFanout(cfg), Evictable(cfg, View(mid2)), c, d))
  }

  /** A whole compaction run took `t` to `t2`: nothing happened for want of a chunk, or the passes did. */
  ghost predicate Compacted(cfg: Config, fmt: int -> string, t: Tables, calls: Calls, t2: Tables) {
    || (t2 == t && forall j: nat :: !IsLeafChunk(cfg, t, j))
    || exists k: nat, ok: bool, a: nat, b: nat ::
         && IsLeafChunk(cfg, t, k) && ok == (calls.leaf.sid !in t.summaries)
         && (a != b ==> ok && cfg.incrementalMaxDepth != 0)
         && RunEffect(cfg, fmt, t, k, calls, ok, a, b, t2)
  }

  ghost predicate CondensedPassEffect(cfg: Config, fmt: int -> string, t: Tables, a: nat, b: nat, call: ModelCall,
        t2: Tables) {
    exists s: Summary ::
      && s.sid == call.sid && IsCondensation(cfg, fmt, t, a, b, call.reply, s)
      && CondensedEffect(t, a, b, call, s, t2)
  }

  ghost predicate CondensedEffect(t: Tables, a: nat, b: nat, call: ModelCall, s: Summary, t2: Tables)
    requires a < b <= |t.items|
  {
    var t1 := AfterArrivals(t, call.arrivals);
    if call.sid in t.summaries then t2 == t1
    else
      && Replace(t1, a, b, s) == Some(t2)
      && t2.messages == t1.messages && t.messages <= t2.messages
      && Refs(t2.items) == Refs(t.items)[..a] + [Sum(call.sid)] + Refs(t.items)[b..]
              + MsgRefs(t2.messages[|t.messages|..])
  }

  lemma ReadablePlan(t: Tables)
    requires Valid(t)
    ensures Dense(t.items) && Ordered(t.messages) && Lossless(t)
  {
  }

  lemma UsedSidRejected(t: Tables, t1: Tables, a: int, b: int, s: Summary)
    requires Extends(t, t1) && s.sid in t.summaries
    ensures Replace(t1, a, b, s).None?
  {
  }

  lemma {:induction false} LeafPassResult(cfg: Config, fmt: int -> string, t: Tables, k: nat, call: ModelCall)
    requires Valid(t) && Sequenced(t.messages, call.arrivals) && IsLeafChunk(cfg, t, k)
    ensures var t1 := AfterArrivals(t, call.arrivals);
            var r := Replace(t1, 0, k, LeafSummary(cfg, fmt, t.messages[..k], call.reply, call.sid));
            && Valid(t1)
            && (r.Some? <==> call.sid !in t.summaries)
            && (r.Some? ==> Valid(r.value))
            && LeafPassEffect(cfg, fmt, t, k, call, if r.Some? then r.value else t1)
  {
    hide Valid, Replace, Ingest;
    var t1 := AfterArrivals(t, call.arrivals);
    var s := LeafSummary(cfg, fmt, t.messages[..k], call.reply, call.sid);
    ArrivalsExtend(t, call.arrivals);
    if call.sid in t.summaries {
      UsedSidRejected(t, t1, 0, k, s);
    } else {
      LeafChunkCovered(cfg, fmt, t, k, call.reply, call.sid);
      StaleReplaceKeepsValid(t, t1, 0, k, s);
      assert Refs(t.items)[..0] + [Sum(call.sid)] == [Sum(call.sid)];
    }
  }

  lemma {:induction false} CondensedPassResult(cfg: Config, fmt: int -> string, t: Tables, a: nat, b: nat,
        call: ModelCall, s: Summary)
    requires Valid(t) && Sequenced(t.messages, call.arrivals)
    requires IsCondensation(cfg, fmt, t, a, b, call.reply, s) && s.sid == call.sid
    ensures var t1 := AfterArrivals(t, call.arrivals);
            var r := Replace(t1, a, b, s);
            && Valid(t1)
            && (r.Some? <==> call.sid !in t.summaries)
            && (r.Some? ==> Valid(r.value))
            && CondensedPassEffect(cfg, fmt, t, a, b, call, if r.Some? then r.value else t1)
  {
    hide Valid, Replace, Ingest, IsCondensation;
    CondensationInRange(cfg, fmt, t, a, b, call.reply, s);
    var t1 := AfterArrivals(t, call.arrivals);
    ArrivalsExtend(t, call.arrivals);
    if call.sid in t.summaries {
      UsedSidRejected(t, t1, a, b, s);
      assert CondensedEffect(t, a, b, call, s, t1);
    } else {
      LinkedParts(t);
      CondensationCovered(cfg, fmt, t, a, b, call.reply, s);
      StaleReplaceKeepsValid(t, t1, a, b, s);
      assert CondensedEffect(t, a, b, call, s, Replace(t1, a, b, s).value);
    }
  }

  lemma ViewRead(t: Tables, items: seq<ContextItem>)
    requires IsView(t, items)
    ensures items == View(t)
  {
  }

  lemma NoSegmentInNothing(m: nat)
    requires m >= 1
    ensures forall c: nat, d: nat :: !IsSegment(m, [], c, d)
  {
  }

  lemma SegmentInView(cfg: Config, t: Tables, a: nat, b: nat)
    requires a != b && IsSegment(MinCondensedFanout(cfg), Evictable(cfg, View(t)), a, b)
    ensures a < b <= |View(t)| && LeafRun(View(t)[a..b], 0, b - a)
  {
    EvictableIsPrefix(cfg, t, a, b);
    SliceOfRun(View(t), a, b);
  }

  lemma SliceOfRun(items: seq<ContextItem>, a: nat, b: nat)
    requires LeafRun(items, a, b)
    ensures LeafRun(items[a..b], 0, b - a)
  {
  }

  lemma ViewOrdinals(t: Tables, i: nat)
    requires Valid(t) && i < |View(t)|
    ensures View(t)[i].ordinal == i
  {
    assert View(t)[i] == ItemOf(t, t.items[i]);
  }

  lemma ChunkInRange(cfg: Config, t: Tables, k: nat)
    requires IsLeafChunk(cfg, t, k)
    ensures 1 <= k <= |t.messages| && k <= |t.items|
  {
  }

  lemma LinkedParts(t: Tables)
    requires Valid(t)
    ensures Linked(t) && Annotated(t)
  {
  }

  lemma CondensationInRange(cfg: Config, fmt: int -> string, t: Tables, a: nat, b: nat, reply: Option<string>,
        s: Summary)
    requires IsCondensation(cfg, fmt, t, a, b, reply, s)
    ensures a < b <= |t.items| - FreshTail(cfg)
  {
    EvictableIsPrefix(cfg, t, a, b);
  }

  lemma UnchangedKeepsTail(f: int, t: Tables)
    ensures KeepsTail(f, t, t)
  {
    ExtendsItself(t);
    ExtendsKeepsTail(f, t, t);
  }

  lemma LeafPassTail(cfg: Config, fmt: int -> string, t: Tables, k: nat, call: ModelCall, t2: Tables)
    requires Valid(t) && Sequenced(t.messages, call.arrivals) && IsLeafChunk(cfg, t, k)
    requires LeafPassEffect(cfg, fmt, t, k, call, t2)
    ensures KeepsTail(FreshTail(cfg), t, t2)
    ensures t2.messages == AfterArrivals(t, call.arrivals).messages && t.messages <= t2.messages
    ensures |t2.messages| - |t.messages| == Arrived(t, call.arrivals)
  {
    hide Valid, Replace;
    ArrivalsExtend(t, call.arrivals);
    ArrivalCount(t, call.arrivals);
    if call.sid in t.summaries {
      ExtendsKeepsTail(FreshTail(cfg), t, t2);
    } else {
      assert Refs(t.items)[..0] + [Sum(call.sid)] == [Sum(call.sid)];
      SpliceKeepsTail(FreshTail(cfg), Refs(t.items), 0, k, Sum(call.sid), MsgRefs(t2.messages[|t.messages|..]));
    }
  }

  lemma ArrivalCount(t: Tables, ms: seq<MessageRow>)
    ensures |AfterArrivals(t, ms).messages| - |t.messages| == Arrived(t, ms)
  {
    if Ingest(t, ms).Some? {
      IngestAppends(t, ms);
    }
  }

  lemma CondensedPassTail(cfg: Config, fmt: int -> string, t: Tables, a: nat, b: nat, call: ModelCall, t2: Tables)
    requires Valid(t) && Sequenced(t.messages, call.arrivals)
    requires if a == b then t2 == t else CondensedPassEffect(cfg, fmt, t, a, b, call, t2)
    ensures KeepsTail(FreshTail(cfg), t, t2)
    ensures t.messages <= t2.messages && |t2.messages| <= |t.messages| + |call.arrivals|
  {
    hide Valid, Replace;
    ArrivalsExtend(t, call.arrivals);
    ArrivalCount(t, call.arrivals);
    if a == b {
      UnchangedKeepsTail(FreshTail(cfg), t);
    } else {
      var s: Summary :| s.sid == call.sid && IsCondensation(cfg, fmt, t, a, b, call.reply, s)
                        && CondensedEffect(t, a, b, call, s, t2);
      CondensationInRange(cfg, fmt, t, a, b, call.reply, s);
      if call.sid in t.summaries {
        ExtendsKeepsTail(FreshTail(cfg), t, t2);
      } else {
        SpliceKeepsTail(FreshTail(cfg), Refs(t.items), a, b, Sum(call.sid), MsgRefs(t2.messages[|t.messages|..]));
      }
    }
  }
}
