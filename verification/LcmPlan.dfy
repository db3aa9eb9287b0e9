/** What the compactor may pick, said without its loops, and what its steps do to tokens, tail and runs
    (lcm/compaction.go). */
module LcmPlan {
  import opened Wrappers
  import opened LcmTypes
  import opened LcmTables
  import opened LcmStore
  import opened Sets
  import opened Strings

  const MAX_CONDENSED_INPUT_TOKENS := 8000
  const FAILED_LEAF_TOKENS := 512

  function MinCondensedFanout(cfg: Config): (m: nat)
    ensures m >= 1 && (cfg.condensedMinFanout > 0 ==> m == cfg.condensedMinFanout)
    ensures cfg.condensedMinFanout <= 0 ==> m == 4
  {
    if cfg.condensedMinFanout <= 0 then 4 else cfg.condensedMinFanout
  }

  // ---------------------------------------------------------------- the leaf chunk

  predicate AllMessages(items: seq<ContextRow>, k: nat)
    requires k <= |items|
  {
    forall i :: 0 <= i < k ==> items[i].ref.Msg?
  }

  /** The first k items are the chunk a leaf pass compacts: messages outside the fresh tail, as many as the
      token limit admits but at least one, and no fewer than the fanout. */
  ghost predicate IsLeafChunk(cfg: Config, t: Tables, k: nat) {
    && 1 <= k <= |t.items| - FreshTail(cfg) && k <= |t.messages|
    && AllMessages(t.items, k)
    && k >= cfg.leafMinFanout
    && (k == 1 || TokenSum(t.messages[..k]) <= cfg.leafChunkTokens)
    && forall j :: k < j <= |t.items| - FreshTail(cfg) && j <= |t.messages| && AllMessages(t.items, j) ==>
         TokenSum(t.messages[..j]) > cfg.leafChunkTokens
  }

  lemma LeafChunkUnique(cfg: Config, t: Tables, j: nat, k: nat)
    requires IsLeafChunk(cfg, t, j) && IsLeafChunk(cfg, t, k)
    ensures j == k
  {
  }

  /** The chunk exceeds the limit exactly when its first message alone does (and then it is that message). */
  lemma {:induction false} LeafChunkWithinLimit(cfg: Config, t: Tables, k: nat)
    requires IsLeafChunk(cfg, t, k)
    ensures TokenSum(t.messages[..k]) <= cfg.leafChunkTokens <==> t.messages[0].tokens <= cfg.leafChunkTokens
    ensures cfg.leafMinFanout >= 2 ==> TokenSum(t.messages[..k]) <= cfg.leafChunkTokens
  {
    assert t.messages[..1][..0] == [] && TokenSum(t.messages[..1]) == t.messages[0].tokens;
    TokenSumMonotone(t.messages, 1, k);
  }

  /** That does happen: with a fanout of one, an oversized first message is compacted alone. */
  lemma OversizedChunk()
    ensures exists cfg: Config, t: Tables ::
              && Valid(t) && (forall m :: m in t.messages ==> m.tokens == EstimateTokens(m.content))
              && IsLeafChunk(cfg, t, 1) && TokenSum(t.messages[..1]) > cfg.leafChunkTokens
  {
    hide Valid;
    var text := seq(20, i => 'x');
    var big, small := MessageRow(1, 1, "user", text, 5, 0), MessageRow(2, 2, "assistant", text, 5, 0);
    var t := Tables([big, small], map[], map[], map[], [ContextRow(0, Msg(1)), ContextRow(1, Msg(2))], 2);
    var cfg := Config(1, 1, 4, 3, 10, 10, 0);
    assert t.messages[..1] == [big] && [big][..0] == [] && TokenSum(t.messages[..1]) == 5;
    TwoMessages(big, small);
    assert IsLeafChunk(cfg, t, 1);
  }

  lemma TwoMessages(a: MessageRow, b: MessageRow)
    requires a.id < b.id && a.seqNo < b.seqNo
    ensures Valid(Tables([a, b], map[], map[], map[], [ContextRow(0, Msg(a.id)), ContextRow(1, Msg(b.id))], b.id))
  {
    hide Expand;
    var t := Tables([a, b], map[], map[], map[], [ContextRow(0, Msg(a.id)), ContextRow(1, Msg(b.id))], b.id);
    assert Refs(t.items) == [Msg(a.id), Msg(b.id)];
    ExpandMessages(t, [Msg(a.id), Msg(b.id)]);
  }

  lemma {:induction false} TokenSumConcat(a: seq<MessageRow>, b: seq<MessageRow>)
    ensures TokenSum(a + b) == TokenSum(a) + TokenSum(b)
    ensures |a| == 1 ==> TokenSum(a) == a[0].tokens
  {
    if b == [] {
      assert a + b == a;
      if |a| == 1 {
        assert a[..0] == [];
      }
    } else {
      assert (a + b)[..|a + b| - 1] == a + b[..|b| - 1];
      TokenSumConcat(a, b[..|b| - 1]);
    }
  }

  lemma {:induction false} TokenSumMonotone(ms: seq<MessageRow>, j: nat, k: nat)
    requires j <= k <= |ms|
    ensures TokenSum(ms[..j]) <= TokenSum(ms[..k])
  {
    if j < k {
      assert ms[..k][..k - 1] == ms[..k - 1];
      TokenSumMonotone(ms, j, k - 1);
    }
  }

  /** The leading messages of the context list are the leading messages of the log. */
  lemma {:induction false} LeadingMessagesAligned(t: Tables, k: nat)
    requires Lossless(t) && k <= |t.items| && AllMessages(t.items, k)
    ensures k <= |t.messages|
    ensures forall i :: 0 <= i < k ==> t.items[i].ref == Msg(t.messages[i].id)
  {
    var refs := Refs(t.items);
    assert refs == refs[..k] + refs[k..];
    ExpandConcat(t, refs[..k], refs[k..]);
    ExpandMessages(t, refs[..k]);
    forall i | 0 <= i < k
      ensures t.items[i].ref == Msg(t.messages[i].id)
    {
      assert Ids(t.messages)[i] == Expand(t, refs[..k])[i] == refs[i].id;
    }
  }

  function LeafLine(fmt: int -> string, m: MessageRow): string {
    "[" + fmt(m.createdAt) + "] " + m.role + ": " + m.content
  }

  function LeafInput(fmt: int -> string, ms: seq<MessageRow>): string {
    if ms == [] then "" else LeafInput(fmt, ms[..|ms| - 1]) + LeafLine(fmt, ms[|ms| - 1]) + "\n\n"
  }

  lemma {:induction false} LeafInputKeepsLine(fmt: int -> string, ms: seq<MessageRow>, m: MessageRow)
    requires m in ms
    ensures Contains(LeafInput(fmt, ms), LeafLine(fmt, m))
  {
    hide Contains, LeafLine;
    var n := |ms| - 1;
    var line := LeafLine(fmt, ms[n]);
    if m == ms[n] {
      ContainsItself(line);
      ContainsWider(LeafInput(fmt, ms[..n]), line, "\n\n", line);
    } else {
      LeafInputKeepsLine(fmt, ms[..n], m);
      ContainsWider("", LeafInput(fmt, ms[..n]), line + "\n\n", LeafLine(fmt, m));
      assert LeafInput(fmt, ms) == "" + LeafInput(fmt, ms[..n]) + (line + "\n\n");
    }
  }

  /** The input of a leaf contains the time, role and content of every message of the chunk. */
  lemma LeafInputKeepsContent(fmt: int -> string, ms: seq<MessageRow>, m: MessageRow)
    requires m in ms
    ensures Contains(LeafInput(fmt, ms), "[" + fmt(m.createdAt) + "] " + m.role + ": " + m.content)
    ensures Contains(LeafInput(fmt, ms), m.content)
  {
    hide LeafInput, Contains;
    LeafInputKeepsLine(fmt, ms, m);
    ContainsEnd(LeafInput(fmt, ms), "[" + fmt(m.createdAt) + "] " + m.role + ": ", m.content);
  }

  /** `text` is what a cut of `input` to n bytes leaves: all of it, or the first n bytes and the note. */
  predicate IsCutTo(input: string, n: nat, text: string) {
    if |input| <= n then text == input
    else
      && input[..n] <= text && |text| >= |TRUNCATION_NOTE|
      && text[|text| - |TRUNCATION_NOTE|..] == TRUNCATION_NOTE && |text| <= n + 1 + |TRUNCATION_NOTE|
  }

  /** The summary text: the model's reply or a cut of the input, and a shorter cut if that did not shrink. A failed
      call loses nothing of an input of up to 2048 bytes that fits the chunk, and keeps the front of any other. */
  function LeafText(cfg: Config, input: string, total: nat, reply: Option<string>): (text: string)
    ensures reply.Some? && EstimateTokens(reply.value) <= total ==> text == reply.value
    ensures EstimateTokens(text) <= total || EstimateTokens(text) <= cfg.leafTargetTokens / 2 + 9
    ensures reply.None? && |input| <= 2048 && |input| <= 4 * total ==> text == input
  {
    var first := match reply case Some(s) => s case None => TruncateFallback(input, FAILED_LEAF_TOKENS);
    if EstimateTokens(first) > total then TruncateFallback(input, cfg.leafTargetTokens / 2) else first
  }

  lemma CutText(input: string, tokens: nat)
    ensures IsCutTo(input, 4 * tokens, TruncateFallback(input, tokens))
  {
  }

  /** Whatever replaces a reply that failed or did not shrink keeps the front of the input: 2048 bytes after a
      failure, if that fits the chunk, and otherwise half the target. */
  predicate KeepsFront(cfg: Config, input: string, total: nat, reply: Option<string>, text: string) {
    var half := 4 * (cfg.leafTargetTokens / 2);
    && (reply.None? && 2048 + 1 + |TRUNCATION_NOTE| <= 4 * total ==> IsCutTo(input, 2048, text))
    && (reply.Some? && |reply.value| > 4 * total ==> IsCutTo(input, half, text))
    && (reply.None? ==> (IsCutTo(input, 2048, text) && |text| <= 4 * total) || IsCutTo(input, half, text))
  }

  lemma LeafTextCut(cfg: Config, input: string, total: nat, reply: Option<string>)
    ensures KeepsFront(cfg, input, total, reply, LeafText(cfg, input, total, reply))
  {
    hide IsCutTo;
    CutText(input, FAILED_LEAF_TOKENS);
    CutText(input, cfg.leafTargetTokens / 2);
    CutLength(input, FAILED_LEAF_TOKENS);
  }

  lemma CutLength(input: string, tokens: nat)
    ensures |TruncateFallback(input, tokens)| <= 4 * tokens + 1 + |TRUNCATION_NOTE|
  {
  }

  function LeafSummary(cfg: Config, fmt: int -> string, chunk: seq<MessageRow>, reply: Option<string>,
        sid: string): (s: Summary)
    requires chunk != []
    ensures s.row.tokens == EstimateTokens(s.row.content) && s.row.kind == Leaf && s.row.depth == 0
  {
    var text := LeafText(cfg, LeafInput(fmt, chunk), TokenSum(chunk), reply);
    Summary(sid,
            SummaryRow(Leaf, 0, text, EstimateTokens(text), chunk[0].createdAt, chunk[|chunk| - 1].createdAt, 0),
            Ids(chunk), [])
  }

  /** When the log's clock does not run backwards a leaf's interval is the hull of its messages' times. */
  lemma LeafIntervalIsHull(cfg: Config, fmt: int -> string, chunk: seq<MessageRow>, reply: Option<string>, sid: string)
    requires chunk != [] && forall i, j :: 0 <= i < j < |chunk| ==> chunk[i].createdAt <= chunk[j].createdAt
    ensures var row := LeafSummary(cfg, fmt, chunk, reply, sid).row;
            && (forall m :: m in chunk ==> row.earliest <= m.createdAt <= row.latest)
            && (exists m :: m in chunk && m.createdAt == row.earliest)
            && (exists m :: m in chunk && m.createdAt == row.latest)
  {
    hide LeafText, LeafInput;
    assert chunk[0] in chunk && chunk[|chunk| - 1] in chunk;
  }

  lemma LeafChunkCovered(cfg: Config, fmt: int -> string, t: Tables, k: nat, reply: Option<string>, sid: string)
    requires Valid(t) && IsLeafChunk(cfg, t, k) && sid !in t.summaries
    ensures Covers(t, 0, k, LeafSummary(cfg, fmt, t.messages[..k], reply, sid))
  {
    LeadingMessagesAligned(t, k);
  }

  // ---------------------------------------------------------------- the condensed segment

  predicate IsLeafItem(it: ContextItem) {
    it.ref.Sum? && it.kind == Some(Leaf)
  }

  lemma LeafItems(t: Tables, row: ContextRow)
    requires row.ref.Sum? ==> row.ref.sid in t.summaries
    ensures IsLeafItem(ItemOf(t, row)) <==> IsLeaf(t, row.ref)
  {
  }

  lemma {:induction false} ContentTokensConcat(a: seq<ContextItem>, b: seq<ContextItem>)
    ensures ContentTokens(a + b) == ContentTokens(a) + ContentTokens(b)
    ensures |a| == 1 ==> ContentTokens(a) == EstimateTokens(a[0].content)
  {
    if b == [] {
      assert a + b == a;
      if |a| == 1 {
        assert a[..0] == [];
      }
    } else {
      assert (a + b)[..|a + b| - 1] == a + b[..|b| - 1];
      ContentTokensConcat(a, b[..|b| - 1]);
    }
  }

  /** All of the items [a, b) are leaf summaries. */
  predicate LeafRun(items: seq<ContextItem>, a: nat, b: nat) {
    a <= b <= |items| && forall i :: a <= i < b ==> IsLeafItem(items[i])
  }

  function ContentTokens(items: seq<ContextItem>): nat {
    if items == [] then 0
    else ContentTokens(items[..|items| - 1]) + EstimateTokens(items[|items| - 1].content)
  }

  /** Items [a, b) of the evictable ones are what a condensation takes: they start the first run of at least
      `m` leaves and are as many of it as 8000 tokens admit, but at least `m`. */
  ghost predicate IsSegment(m: nat, evictable: seq<ContextItem>, a: nat, b: nat) {
    && LeafRun(evictable, a, b) && b - a >= m
    && (forall s: nat, e: nat :: s < a && LeafRun(evictable, s, e) ==> e - s < m)
    && (b - a == m || ContentTokens(evictable[a..b]) <= MAX_CONDENSED_INPUT_TOKENS)
    && (forall e: nat :: b < e && LeafRun(evictable, a, e) ==>
          ContentTokens(evictable[a..e]) > MAX_CONDENSED_INPUT_TOKENS)
  }

  lemma SegmentUnique(m: nat, items: seq<ContextItem>, a: nat, b: nat, c: nat, d: nat)
    requires m >= 1 && IsSegment(m, items, a, b) && IsSegment(m, items, c, d)
    ensures a == c && b == d
  {
  }

  lemma {:induction false} ContentTokensMonotone(items: seq<ContextItem>, j: nat, k: nat)
    requires j <= k <= |items|
    ensures ContentTokens(items[..j]) <= ContentTokens(items[..k])
  {
    if j < k {
      assert items[..k][..k - 1] == items[..k - 1];
      ContentTokensMonotone(items, j, k - 1);
    }
  }

  function CondensedInput(fmt: int -> string, segment: seq<ContextItem>): string {
    if segment == [] then ""
    else CondensedInput(fmt, segment[..|segment| - 1]) + CondensedPart(fmt, segment[|segment| - 1]) + "\n\n"
  }

  function CondensedPart(fmt: int -> string, it: ContextItem): string {
    "[" + fmt(it.earliest) + " - " + fmt(it.latest) + "]\n" + it.content
  }

  lemma {:induction false} CondensedInputKeepsPart(fmt: int -> string, segment: seq<ContextItem>, it: ContextItem)
    requires it in segment
    ensures Contains(CondensedInput(fmt, segment), CondensedPart(fmt, it))
  {
    hide Contains, CondensedPart;
    var n := |segment| - 1;
    var part := CondensedPart(fmt, segment[n]);
    if it == segment[n] {
      ContainsItself(part);
      ContainsWider(CondensedInput(fmt, segment[..n]), part, "\n\n", part);
    } else {
      CondensedInputKeepsPart(fmt, segment[..n], it);
      ContainsWider("", CondensedInput(fmt, segment[..n]), part + "\n\n", CondensedPart(fmt, it));
      assert CondensedInput(fmt, segment) == "" + CondensedInput(fmt, segment[..n]) + (part + "\n\n");
    }
  }

  /** The input of a condensation contains the interval and the content of every summary. */
  lemma CondensedInputKeepsContent(fmt: int -> string, segment: seq<ContextItem>, it: ContextItem)
    requires it in segment
    ensures Contains(CondensedInput(fmt, segment), "[" + fmt(it.earliest) + " - " + fmt(it.latest) + "]\n" + it.content)
    ensures Contains(CondensedInput(fmt, segment), it.content)
  {
    hide CondensedInput, Contains;
    CondensedInputKeepsPart(fmt, segment, it);
    ContainsEnd(CondensedInput(fmt, segment), "[" + fmt(it.earliest) + " - " + fmt(it.latest) + "]\n", it.content);
  }

  /** The model's reply, and a cut of the input when there is none. */
  function CondensedText(cfg: Config, input: string, reply: Option<string>): (text: string)
    ensures reply.Some? ==> text == reply.value
    ensures reply.None? ==> IsCutTo(input, 4 * (cfg.condensedTargetTokens / 2), text)
  {
    match reply
    case Some(s) => s
    case None => TruncateFallback(input, cfg.condensedTargetTokens / 2)
  }

  function DescendantTotal(segment: seq<ContextItem>): nat {
    if segment == [] then 0
    else DescendantTotal(segment[..|segment| - 1]) + 1 + segment[|segment| - 1].descendants
  }

  lemma {:induction false} LeavesOnlyCountThemselves(segment: seq<ContextItem>)
    requires forall i :: 0 <= i < |segment| ==> segment[i].descendants == 0
    ensures DescendantTotal(segment) == |segment|
  {
    if segment != [] {
      LeavesOnlyCountThemselves(segment[..|segment| - 1]);
    }
  }

  /** `s` is the summary a condensation of `segment` stores. */
  predicate IsCondensedSummary(cfg: Config, fmt: int -> string, segment: seq<ContextItem>, reply: Option<string>,
        s: Summary) {
    && s.row.kind == Condensed && s.row.depth == 1
    && s.row.content == CondensedText(cfg, CondensedInput(fmt, segment), reply)
    && s.row.tokens == EstimateTokens(s.row.content)
    && s.row.descendants == DescendantTotal(segment) && |s.parents| == |segment|
    && (forall i :: 0 <= i < |segment| ==> segment[i].ref == Sum(s.parents[i]))
    && (forall it :: it in segment ==> s.row.earliest <= it.earliest && it.latest <= s.row.latest)
    && (exists it :: it in segment && it.earliest == s.row.earliest)
    && (exists it :: it in segment && it.latest == s.row.latest)
  }

  predicate IsView(t: Tables, items: seq<ContextItem>) {
    |items| == |t.items| && forall i :: 0 <= i < |items| ==> items[i] == ItemOf(t, t.items[i])
  }

  lemma SegmentHull(t: Tables, segment: seq<ContextItem>, s: Summary)
    requires |segment| == |s.parents|
    requires forall i :: 0 <= i < |segment| ==>
               && s.parents[i] in t.summaries
               && segment[i].earliest == t.summaries[s.parents[i]].earliest
               && segment[i].latest == t.summaries[s.parents[i]].latest
    requires forall it :: it in segment ==> s.row.earliest <= it.earliest && it.latest <= s.row.latest
    requires exists it :: it in segment && it.earliest == s.row.earliest
    requires exists it :: it in segment && it.latest == s.row.latest
    ensures IsHull(t.summaries, s.parents, s.row.earliest, s.row.latest)
  {
    var i :| 0 <= i < |segment| && segment[i].earliest == s.row.earliest;
    var j :| 0 <= j < |segment| && segment[j].latest == s.row.latest;
    assert s.parents[i] in s.parents && s.parents[j] in s.parents;
    forall p | p in s.parents
      ensures p in t.summaries && s.row.earliest <= t.summaries[p].earliest && t.summaries[p].latest <= s.row.latest
    {
      var x :| 0 <= x < |s.parents| && s.parents[x] == p;
      assert segment[x] in segment;
    }
  }

  lemma SegmentItem(t: Tables, items: seq<ContextItem>, a: nat, b: nat, i: nat)
    requires Linked(t) && Annotated(t) && IsView(t, items) && LeafRun(items, a, b) && i < b - a
    ensures var it := items[a..b][i];
            && it.ref == t.items[a + i].ref && IsLeaf(t, it.ref) && it.descendants == 0
            && it.earliest == t.summaries[it.ref.sid].earliest && it.latest == t.summaries[it.ref.sid].latest
  {
    hide IsHull;
    assert items[a + i] == ItemOf(t, t.items[a + i]) && IsLeafItem(items[a + i]);
  }

  lemma SegmentItems(t: Tables, items: seq<ContextItem>, a: nat, b: nat, ps: seq<string>)
    requires Linked(t) && Annotated(t) && IsView(t, items) && LeafRun(items, a, b)
    requires |ps| == b - a && forall i :: 0 <= i < b - a ==> items[a..b][i].ref == Sum(ps[i])
    ensures forall i :: a <= i < b ==> t.items[i].ref == Sum(ps[i - a]) && IsLeaf(t, t.items[i].ref)
    ensures forall i :: 0 <= i < b - a ==>
              && items[a..b][i].descendants == 0 && ps[i] in t.summaries
              && items[a..b][i].earliest == t.summaries[ps[i]].earliest
              && items[a..b][i].latest == t.summaries[ps[i]].latest
  {
    hide Linked, Annotated, IsView, IsLeafItem;
    ViewLength(t, items);
    forall i | 0 <= i < b - a
      ensures t.items[a + i].ref == Sum(ps[i]) && IsLeaf(t, t.items[a + i].ref) && items[a..b][i].descendants == 0
      ensures ps[i] in t.summaries && items[a..b][i].earliest == t.summaries[ps[i]].earliest
      ensures items[a..b][i].latest == t.summaries[ps[i]].latest
    {
      SegmentItem(t, items, a, b, i);
    }
    forall i | a <= i < b
      ensures t.items[i].ref == Sum(ps[i - a]) && IsLeaf(t, t.items[i].ref)
    {
      assert t.items[a + (i - a)].ref == Sum(ps[i - a]);
    }
  }

  lemma ViewLength(t: Tables, items: seq<ContextItem>)
    requires IsView(t, items)
    ensures |items| == |t.items|
  {
  }

  lemma SegmentCovered(cfg: Config, fmt: int -> string, t: Tables, items: seq<ContextItem>, a: nat, b: nat,
                       reply: Option<string>, s: Summary)
    requires Linked(t) && Annotated(t) && IsView(t, items) && a < b && LeafRun(items, a, b) && s.sid !in t.summaries
    requires IsCondensedSummary(cfg, fmt, items[a..b], reply, s)
    ensures Covers(t, a, b, s)
  {
    hide Linked, Annotated, IsHull, CondensedInput, CondensedText, DescendantTotal, IsView, IsLeaf;
    ViewLength(t, items);
    SegmentItems(t, items, a, b, s.parents);
    LeavesOnlyCountThemselves(items[a..b]);
    SegmentHull(t, items[a..b], s);
  }

  // ---------------------------------------------------------------- passes

  /** The tables after other turns tried to append `ms`. */
  function AfterArrivals(t: Tables, ms: seq<MessageRow>): Tables {
    match Ingest(t, ms) case Some(t2) => t2 case None => t
  }

  lemma {:induction false} ArrivalsExtend(t: Tables, ms: seq<MessageRow>)
    requires Valid(t) && Sequenced(t.messages, ms)
    ensures Valid(AfterArrivals(t, ms)) && Extends(t, AfterArrivals(t, ms))
  {
    if Ingest(t, ms).Some? {
      IngestKeepsValid(t, ms);
    } else {
      ExtendsItself(t);
    }
  }

  /** What arrived first leaves room for what arrives next. */
  lemma ArrivalsStaySequenced(t: Tables, ms: seq<MessageRow>, more: seq<MessageRow>)
    requires Sequenced(t.messages, ms + more)
    ensures Sequenced(t.messages, ms)
    ensures Sequenced(AfterArrivals(t, ms).messages, more)
  {
    hide Ingest, Sequenced, Later, Appended;
    SequencedParts(t.messages, ms, more);
    if Ingest(t, ms).Some? {
      IngestAppends(t, ms);
      LaterRows(t.messages, ms, Ingest(t, ms).value.messages, more);
    }
  }

  lemma LaterRows(log: seq<MessageRow>, ms: seq<MessageRow>, log2: seq<MessageRow>, more: seq<MessageRow>)
    requires Appended(log, ms, log2) && Sequenced(log, more) && Later(ms, more)
    ensures Sequenced(log2, more)
  {
    assert forall i :: 0 <= i < |log| ==> log2[i] == log[i];
    forall x | x in log2
      ensures x in log || exists y :: y in ms && y.seqNo == x.seqNo
    {
      var i :| 0 <= i < |log2| && log2[i] == x;
      if i >= |log| {
        assert SameButId(log2[|log| + (i - |log|)], ms[i - |log|]) && ms[i - |log|] in ms;
      }
    }
  }

  lemma SequencedParts(log: seq<MessageRow>, ms: seq<MessageRow>, more: seq<MessageRow>)
    requires Sequenced(log, ms + more)
    ensures Sequenced(log, ms) && Sequenced(log, more) && Later(ms, more)
  {
    var all := ms + more;
    assert forall i :: 0 <= i < |ms| ==> all[i] == ms[i];
    assert forall i :: 0 <= i < |more| ==> all[|ms| + i] == more[i];
    assert forall m :: m in ms || m in more ==> m in all;
  }

  function LastRefs(refs: seq<Ref>, f: int): (r: seq<Ref>)
    ensures |r| <= |refs| && (f >= 0 ==> |r| <= f)
  {
    if f <= 0 then [] else if |refs| <= f then refs else refs[|refs| - f..]
  }

  /** `t2` still ends with the last f items of `t`, followed by the messages logged since, and has no more
      items in front of them. */
  ghost predicate KeepsTail(f: int, t: Tables, t2: Tables) {
    && t.messages <= t2.messages
    && TailKept(Refs(t.items), f, MsgRefs(t2.messages[|t.messages|..]), Refs(t2.items))
  }

  ghost predicate TailKept(refs: seq<Ref>, f: int, added: seq<Ref>, refs2: seq<Ref>) {
    exists front: seq<Ref> ::
      && |front| + |LastRefs(refs, f)| <= |refs|
      && refs2 == front + LastRefs(refs, f) + added
  }

  lemma SpliceKeepsTail(f: nat, refs: seq<Ref>, a: nat, b: nat, r: Ref, added: seq<Ref>)
    requires a < b <= |refs| - f
    ensures TailKept(refs, f, added, refs[..a] + [r] + refs[b..] + added)
  {
    hide LastRefs;
    SplicedTail(refs, f, a, b, [r], added);
    var front := refs[..a] + [r] + refs[b..|refs| - f];
    assert |front| + |LastRefs(refs, f)| <= |refs|;
  }

  lemma SplicedTail(refs: seq<Ref>, f: nat, a: nat, b: nat, r: seq<Ref>, added: seq<Ref>)
    requires a <= b <= |refs| - f
    ensures refs[..a] + r + refs[b..] + added == (refs[..a] + r + refs[b..|refs| - f]) + LastRefs(refs, f) + added
  {
  }

  lemma AppendsKeepTail(f: int, t: Tables, t1: Tables, t2: Tables)
    requires KeepsTail(f, t, t1) && Extends(t1, t2)
    ensures KeepsTail(f, t, t2)
  {
    hide TailKept, LastRefs;
    ThreeMessageParts(t.messages, t1.messages, t2.messages);
    AppendedTail(f, Refs(t.items), MsgRefs(t1.messages[|t.messages|..]), Refs(t1.items),
                 MsgRefs(t2.messages[|t1.messages|..]));
  }

  lemma AppendedTail(f: int, refs: seq<Ref>, added: seq<Ref>, refs1: seq<Ref>, more: seq<Ref>)
    requires TailKept(refs, f, added, refs1)
    ensures TailKept(refs, f, added + more, refs1 + more)
  {
    hide LastRefs;
    var front: seq<Ref> :| |front| + |LastRefs(refs, f)| <= |refs| && refs1 == front + LastRefs(refs, f) + added;
    assert refs1 + more == front + LastRefs(refs, f) + (added + more);
  }

  lemma KeepsLess(f: nat, g: nat, t: Tables, t2: Tables)
    requires KeepsTail(f, t, t2) && g <= f
    ensures KeepsTail(g, t, t2)
  {
    hide LastRefs;
    var refs, added, refs2 := Refs(t.items), MsgRefs(t2.messages[|t.messages|..]), Refs(t2.items);
    var front: seq<Ref> :| |front| + |LastRefs(refs, f)| <= |refs| && refs2 == front + LastRefs(refs, f) + added;
    var part := ShorterTail(f, g, refs);
    assert refs2 == (front + part) + LastRefs(refs, g) + added;
  }

  /** The last f are something and the last g. */
  function ShorterTail(f: nat, g: nat, refs: seq<Ref>): (part: seq<Ref>)
    requires g <= f
    ensures LastRefs(refs, f) == part + LastRefs(refs, g)
  {
    var a, b := LastRefs(refs, f), LastRefs(refs, g);
    a[..|a| - |b|]
  }

  lemma ExtendsKeepsTail(f: int, t: Tables, t2: Tables)
    requires Extends(t, t2)
    ensures KeepsTail(f, t, t2)
  {
    var refs := Refs(t.items);
    var front := refs[..|refs| - |LastRefs(refs, f)|];
    assert refs == front + LastRefs(refs, f);
  }

  /** Two passes: what arrives during the first pushes that many items out of the protected tail. */
  lemma {:induction false} KeepsTailTwice(f: nat, t: Tables, t2: Tables, t3: Tables)
    requires KeepsTail(f, t, t2) && KeepsTail(f, t2, t3) && |t2.messages| - |t.messages| <= f
    ensures KeepsTail(f - (|t2.messages| - |t.messages|), t, t3)
  {
    hide TailKept, LastRefs;
    var m12, m23 := MsgRefs(t2.messages[|t.messages|..]), MsgRefs(t3.messages[|t2.messages|..]);
    assert t.messages <= t3.messages && MsgRefs(t3.messages[|t.messages|..]) == m12 + m23 by {
      ThreeMessageParts(t.messages, t2.messages, t3.messages);
    }
    assert TailKept(Refs(t.items), f - |m12|, m12 + m23, Refs(t3.items)) by {
      TailKeptTwice(f, Refs(t.items), m12, Refs(t2.items), m23, Refs(t3.items));
    }
  }

  lemma TailKeptTwice(f: nat, refs: seq<Ref>, m12: seq<Ref>, refs2: seq<Ref>, m23: seq<Ref>, refs3: seq<Ref>)
    requires TailKept(refs, f, m12, refs2) && TailKept(refs2, f, m23, refs3) && |m12| <= f
    ensures TailKept(refs, f - |m12|, m12 + m23, refs3)
  {
    var f1: seq<Ref> :| |f1| + |LastRefs(refs, f)| <= |refs| && refs2 == f1 + LastRefs(refs, f) + m12;
    var f2: seq<Ref> :| |f2| + |LastRefs(refs2, f)| <= |refs2| && refs3 == f2 + LastRefs(refs2, f) + m23;
    TailOfTail(f, refs, f1, m12);
    AssociateParts(f2, LastRefs(refs, f - |m12|), m12, m23);
  }

  lemma ThreeMessageParts(a: seq<MessageRow>, b: seq<MessageRow>, c: seq<MessageRow>)
    requires a <= b <= c
    ensures a <= c && MsgRefs(c[|a|..]) == MsgRefs(b[|a|..]) + MsgRefs(c[|b|..])
  {
    PrefixSplit(a, b, c);
    MsgRefsConcat(b[|a|..], c[|b|..]);
  }

  lemma AssociateParts<T>(a: seq<T>, b: seq<T>, c: seq<T>, d: seq<T>)
    ensures a + (b + c) + d == a + b + (c + d)
  {
  }

  lemma TailOfTail(f: nat, refs: seq<Ref>, f1: seq<Ref>, m12: seq<Ref>)
    requires |f1| + |LastRefs(refs, f)| <= |refs| && |m12| <= f
    ensures LastRefs(f1 + LastRefs(refs, f) + m12, f) == LastRefs(refs, f - |m12|) + m12
  {
    hide LastRefs;
    LastOfLast(f, refs, f1, f - |m12|);
    LastWithSuffix(f, f1 + LastRefs(refs, f), m12);
  }

  lemma LastWithSuffix(f: nat, a: seq<Ref>, b: seq<Ref>)
    requires |b| <= f
    ensures LastRefs(a + b, f) == LastRefs(a, f - |b|) + b
  {
    if |b| < f && |a| > f - |b| {
      assert (a + b)[|a| + |b| - f..] == a[|a| + |b| - f..] + b;
    }
  }

  /** The last g of the last f are the last g. */
  lemma LastOfLast(f: nat, refs: seq<Ref>, front: seq<Ref>, g: nat)
    requires |front| + |LastRefs(refs, f)| <= |refs| && g <= f
    ensures LastRefs(front + LastRefs(refs, f), g) == LastRefs(refs, g)
  {
    if 0 < g {
      if |refs| <= f {
        assert front + refs == refs;
      } else {
        SuffixOfSuffix(front, refs, f, g);
      }
    }
  }

  lemma SuffixOfSuffix<T>(front: seq<T>, s: seq<T>, f: nat, g: nat)
    requires g <= f <= |s|
    ensures (front + s[|s| - f..])[|front| + f - g..] == s[|s| - g..]
  {
  }

  // ---------------------------------------------------------------- token accounting

  lemma {:induction false} TotalTokensConcat(t: Tables, a: seq<Ref>, b: seq<Ref>)
    ensures TotalTokens(t, a + b) == TotalTokens(t, a) + TotalTokens(t, b)
  {
    if b == [] {
      assert a + b == a;
    } else {
      assert (a + b)[..|a + b| - 1] == a + b[..|b| - 1];
      TotalTokensConcat(t, a, b[..|b| - 1]);
    }
  }

  lemma {:induction false} TotalTokensKept(t: Tables, t2: Tables, refs: seq<Ref>)
    requires t2.messages == t.messages
    requires forall s :: s in t.summaries ==> s in t2.summaries && t2.summaries[s] == t.summaries[s]
    requires forall r :: r in refs && r.Sum? ==> r.sid in t.summaries
    ensures TotalTokens(t2, refs) == TotalTokens(t, refs)
  {
    if refs != [] {
      assert refs[|refs| - 1] in refs;
      TotalTokensKept(t, t2, refs[..|refs| - 1]);
    }
  }

  lemma {:induction false} LeadingTokens(t: Tables, refs: seq<Ref>, k: nat)
    requires Ordered(t.messages) && k == |refs| <= |t.messages|
    requires forall i :: 0 <= i < k ==> refs[i] == Msg(t.messages[i].id)
    ensures TotalTokens(t, refs) == TokenSum(t.messages[..k])
  {
    hide Ordered, MessageById;
    if k > 0 {
      LeadingTokens(t, refs[..k - 1], k - 1);
      MessageByIdAt(t.messages, k - 1);
      assert RowTokens(t, refs[k - 1]) == t.messages[k - 1].tokens;
      LastToken(t.messages, k);
    }
  }

  lemma LastToken(ms: seq<MessageRow>, k: nat)
    requires 0 < k <= |ms|
    ensures TokenSum(ms[..k]) == TokenSum(ms[..k - 1]) + ms[k - 1].tokens
  {
    assert ms[..k][..k - 1] == ms[..k - 1];
  }

  lemma {:induction false} SplicedTokens(t: Tables, t2: Tables, refs: seq<Ref>, k: nat, r: Ref)
    requires k <= |refs| && t2.messages == t.messages
    requires forall s :: s in t.summaries ==> s in t2.summaries && t2.summaries[s] == t.summaries[s]
    requires forall x :: x in refs && x.Sum? ==> x.sid in t.summaries
    ensures TotalTokens(t2, [r] + refs[k..]) == TotalTokens(t, refs) - TotalTokens(t, refs[..k]) + RowTokens(t2, r)
  {
    assert refs == refs[..k] + refs[k..];
    TotalTokensConcat(t, refs[..k], refs[k..]);
    TotalTokensConcat(t2, [r], refs[k..]);
    TotalTokensKept(t, t2, refs[k..]);
    assert [r][..0] == [];
  }

  /** A leaf step trades the chunk's tokens for the summary's, which are never more than the chunk's or, when
      the summary had to be cut, half the target and nine. */
  lemma {:induction false} LeafStepTokens(cfg: Config, fmt: int -> string, t: Tables, k: nat, reply: Option<string>,
        sid: string)
    requires Valid(t) && IsLeafChunk(cfg, t, k) && sid !in t.summaries
    ensures var s := LeafSummary(cfg, fmt, t.messages[..k], reply, sid);
            var chunk := TokenSum(t.messages[..k]);
            && Replace(t, 0, k, s).Some?
            && (var t2 := Replace(t, 0, k, s).value;
                TotalTokens(t2, Refs(t2.items)) == TotalTokens(t, Refs(t.items)) - chunk + s.row.tokens)
            && (s.row.tokens <= chunk || s.row.tokens <= cfg.leafTargetTokens / 2 + 9)
  {
    var s := LeafSummary(cfg, fmt, t.messages[..k], reply, sid);
    LeafChunkCovered(cfg, fmt, t, k, reply, sid);
    CoverAccepted(t, 0, k, s);
    ReplaceSplices(t, 0, k, s);
    LeadingMessagesAligned(t, k);
    LeafSpliceTokens(t, Replace(t, 0, k, s).value, k, s);
  }

  lemma {:induction false} LeafSpliceTokens(t: Tables, t2: Tables, k: nat, s: Summary)
    requires Ordered(t.messages) && Linked(t) && Spliced(t, 0, k, s, t2) && s.sid !in t.summaries
    requires k <= |t.messages| && forall i :: 0 <= i < k ==> t.items[i].ref == Msg(t.messages[i].id)
    ensures TotalTokens(t2, Refs(t2.items)) == TotalTokens(t, Refs(t.items)) - TokenSum(t.messages[..k]) + s.row.tokens
  {
    var refs := Refs(t.items);
    assert refs[..0] + [Sum(s.sid)] == [Sum(s.sid)];
    LeadingTokens(t, refs[..k], k);
    SplicedTokens(t, t2, refs, k, Sum(s.sid));
  }

  // ---------------------------------------------------------------- whole runs

  function View(t: Tables): (v: seq<ContextItem>)
    ensures IsView(t, v)
  {
    seq(|t.items|, i requires 0 <= i < |t.items| => ItemOf(t, t.items[i]))
  }

  /** The context items in front of the fresh tail. */
  function Evictable(cfg: Config, items: seq<ContextItem>): (r: seq<ContextItem>)
    ensures r <= items && |items| - |r| == if |items| <= FreshTail(cfg) then |items| else FreshTail(cfg)
  {
    if |items| <= FreshTail(cfg) then [] else items[..|items| - FreshTail(cfg)]
  }

  ghost predicate IsCondensation(cfg: Config, fmt: int -> string, t: Tables, a: nat, b: nat, reply: Option<string>,
        s: Summary) {
    && a < b
    && IsSegment(MinCondensedFanout(cfg), Evictable(cfg, View(t)), a, b)
    && IsCondensedSummary(cfg, fmt, View(t)[a..b], reply, s)
  }

  ghost predicate IngestStep(t: Tables, t2: Tables) {
    exists ms :: Sequenced(t.messages, ms) && Ingest(t, ms) == Some(t2)
  }

  /** A leaf pass planned on `plan` and committed on `t`. */
  ghost predicate LeafStep(cfg: Config, fmt: int -> string, plan: Tables, t: Tables, t2: Tables) {
    exists k: nat, reply, sid ::
      IsLeafChunk(cfg, plan, k) && Replace(t, 0, k, LeafSummary(cfg, fmt, plan.messages[..k], reply, sid)) == Some(t2)
  }

  /** A condensation planned on `plan` and committed on `t`. */
  ghost predicate CondensedStep(cfg: Config, fmt: int -> string, plan: Tables, t: Tables, t2: Tables) {
    exists a: nat, b: nat, reply, s ::
      IsCondensation(cfg, fmt, plan, a, b, reply, s) && Replace(t, a, b, s) == Some(t2)
  }

  /** A history of committed transactions. Step i commits a plan made on the earlier state plans[i], with
      nothing but appends in between. */
  ghost predicate IsRun(cfg: Config, fmt: int -> string, ts: seq<Tables>, plans: seq<nat>) {
    && |ts| == |plans| + 1
    && forall i {:trigger plans[i]} :: 0 <= i < |plans| ==>
         && plans[i] <= i && Extends(ts[plans[i]], ts[i])
         && (IngestStep(ts[i], ts[i + 1])
             || LeafStep(cfg, fmt, ts[plans[i]], ts[i], ts[i + 1])
             || CondensedStep(cfg, fmt, ts[plans[i]], ts[i], ts[i + 1]))
  }

  lemma {:induction false} IngestStepValid(t: Tables, t2: Tables)
    requires Valid(t) && IngestStep(t, t2)
    ensures Valid(t2) && Extends(t, t2)
  {
    var ms :| Sequenced(t.messages, ms) && Ingest(t, ms) == Some(t2);
    IngestKeepsValid(t, ms);
  }

  lemma ReplaceFresh(t: Tables, a: int, b: int, s: Summary)
    requires Replace(t, a, b, s).Some?
    ensures s.sid !in t.summaries
  {
  }

  lemma {:induction false} LeafStepValid(cfg: Config, fmt: int -> string, plan: Tables, t: Tables, t2: Tables)
    requires Valid(plan) && Valid(t) && Extends(plan, t) && LeafStep(cfg, fmt, plan, t, t2)
    ensures Valid(t2) && t2.messages == t.messages
    ensures t.items != [] && t.items[0].ref.Msg? && t2.items != [] && t2.items[0].ref.Sum?
    ensures |t2.sources| == |t.sources| + 1 && t2.parents == t.parents
  {
    var k: nat, reply, sid :|
      IsLeafChunk(cfg, plan, k) && Replace(t, 0, k, LeafSummary(cfg, fmt, plan.messages[..k], reply, sid)) == Some(t2);
    var s := LeafSummary(cfg, fmt, plan.messages[..k], reply, sid);
    ReplaceFresh(t, 0, k, s);
    LeafChunkCovered(cfg, fmt, plan, k, reply, sid);
    CoversAfterAppends(plan, t, 0, k, s);
    ReplaceKeepsValid(t, 0, k, s);
    FirstItemReplaced(t, k, s, t2);
  }

  lemma FirstItemReplaced(t: Tables, k: nat, s: Summary, t2: Tables)
    requires Dense(t.items) && s.sid !in t.sources && Covers(t, 0, k, s) && s.row.kind == Leaf
            && Replace(t, 0, k, s) == Some(t2)
    ensures t.items != [] && t.items[0].ref.Msg? && t2.items != [] && t2.items[0].ref.Sum?
    ensures |t2.sources| == |t.sources| + 1 && t2.parents == t.parents
  {
    ReplaceSplices(t, 0, k, s);
    assert t2.items[0].ref == Refs(t2.items)[0];
    assert t2.sources.Keys == t.sources.Keys + {s.sid} && s.sid !in t.sources.Keys;
  }

  lemma EvictableIsPrefix(cfg: Config, t: Tables, a: nat, b: nat)
    requires LeafRun(Evictable(cfg, View(t)), a, b)
    ensures LeafRun(View(t), a, b)
    ensures a < b ==> b <= |t.items| - FreshTail(cfg)
  {
  }

  lemma {:induction false} CondensedStepValid(cfg: Config, fmt: int -> string, plan: Tables, t: Tables, t2: Tables)
    requires Valid(plan) && Valid(t) && Extends(plan, t) && CondensedStep(cfg, fmt, plan, t, t2)
    ensures Valid(t2) && t2.messages == t.messages
    ensures t2.sources == t.sources && t2.items != []
    ensures t.items != [] && t.items[0].ref.Sum? ==> t2.items[0].ref.Sum?
    ensures |t.sources| >= MinCondensedFanout(cfg)
  {
    var a: nat, b: nat, reply, s :| IsCondensation(cfg, fmt, plan, a, b, reply, s) && Replace(t, a, b, s) == Some(t2);
    ReplaceFresh(t, a, b, s);
    CondensationCovered(cfg, fmt, plan, a, b, reply, s);
    CoversAfterAppends(plan, t, a, b, s);
    ReplaceKeepsValid(t, a, b, s);
    CondensedEdges(t, a, b, s);
    ParentsAreLeaves(t.sources, s.parents);
    FirstRefAfterSplice(t, a, b, s, t2);
    ReplaceSplices(t, a, b, s);
  }

  lemma CondensationCovered(cfg: Config, fmt: int -> string, t: Tables, a: nat, b: nat, reply: Option<string>,
        s: Summary)
    requires Linked(t) && Annotated(t) && IsCondensation(cfg, fmt, t, a, b, reply, s) && s.sid !in t.summaries
    ensures Covers(t, a, b, s) && s.row.kind == Condensed && |s.parents| >= MinCondensedFanout(cfg)
  {
    EvictableIsPrefix(cfg, t, a, b);
    SegmentCovered(cfg, fmt, t, View(t), a, b, reply, s);
  }

  lemma FirstRefAfterSplice(t: Tables, a: nat, b: nat, s: Summary, t2: Tables)
    requires a < b <= |t.items| && Refs(t2.items) == Refs(t.items)[..a] + [Sum(s.sid)] + Refs(t.items)[b..]
    ensures t2.items != []
    ensures t.items[0].ref.Sum? ==> t2.items[0].ref.Sum?
  {
    assert t2.items[0].ref == Refs(t2.items)[0];
  }

  lemma ParentsAreLeaves(sources: map<string, seq<int>>, ps: seq<string>)
    requires NoDup(ps) && forall p :: p in ps ==> p in sources
    ensures |ps| <= |sources|
  {
    DistinctCount(ps);
    SubsetSize((set p | p in ps), sources.Keys);
  }

  /** Every reachable state of the store is lossless and keeps the DAG invariant: any interleaving of
      appends, leaf passes and condensations, planned on the current state or on one that appends have
      outrun, from any well-formed state. */
  lemma {:induction false} RunValid(cfg: Config, fmt: int -> string, ts: seq<Tables>, plans: seq<nat>, i: nat)
    requires IsRun(cfg, fmt, ts, plans) && Valid(ts[0]) && i < |ts|
    ensures forall j :: 0 <= j <= i ==> Valid(ts[j])
  {
    hide Valid, IngestStep, LeafStep, CondensedStep, Extends;
    if i > 0 {
      RunValid(cfg, fmt, ts, plans, i - 1);
      var p := plans[i - 1];
      if IngestStep(ts[i - 1], ts[i]) {
        IngestStepValid(ts[i - 1], ts[i]);
      } else if LeafStep(cfg, fmt, ts[p], ts[i - 1], ts[i]) {
        LeafStepValid(cfg, fmt, ts[p], ts[i - 1], ts[i]);
      } else {
        CondensedStepValid(cfg, fmt, ts[p], ts[i - 1], ts[i]);
      }
    }
  }

  /** Once the context starts with a summary it always will, and no leaf pass happens again. Any conversation
      therefore gets at most one more leaf in its whole life, and is never condensed again unless the leaves it
      has and that one are enough to condense. One that starts without summaries gets one leaf. */
  lemma {:induction false} OneMoreLeaf(cfg: Config, fmt: int -> string, ts: seq<Tables>, plans: seq<nat>, i: nat)
    requires IsRun(cfg, fmt, ts, plans) && Valid(ts[0]) && i < |ts|
    ensures |ts[i].sources| <= |ts[0].sources| + 1
    ensures |ts[i].sources| == |ts[0].sources| + 1 ==> ts[i].items != [] && ts[i].items[0].ref.Sum?
    ensures |ts[0].sources| + 1 < MinCondensedFanout(cfg) ==> ts[i].parents == ts[0].parents
  {
    hide Valid, IngestStep, LeafStep, CondensedStep, Extends;
    RunValid(cfg, fmt, ts, plans, i);
    if i > 0 {
      OneMoreLeaf(cfg, fmt, ts, plans, i - 1);
      var p := plans[i - 1];
      if IngestStep(ts[i - 1], ts[i]) {
        IngestStepValid(ts[i - 1], ts[i]);
        FirstRefAfterAppend(ts[i - 1], ts[i]);
      } else if LeafStep(cfg, fmt, ts[p], ts[i - 1], ts[i]) {
        LeafStepValid(cfg, fmt, ts[p], ts[i - 1], ts[i]);
      } else {
        CondensedStepValid(cfg, fmt, ts[p], ts[i - 1], ts[i]);
      }
    }
  }

  lemma FirstRefAfterAppend(t: Tables, t2: Tables)
    requires Extends(t, t2)
    ensures t2.sources == t.sources && t2.parents == t.parents
    ensures t.items != [] ==> t2.items != [] && t2.items[0].ref == t.items[0].ref
  {
    if t.items != [] {
      assert t2.items[0].ref == Refs(t2.items)[0];
    }
  }
}
