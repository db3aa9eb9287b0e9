/** The LCM entry points: importing a session, recording a turn, assembling a prompt (lcm/engine.go). */
module LcmEngine {
  import opened LcmTypes
  import opened LcmTables
  import opened LcmStore
  import opened LcmPlan
  import opened LcmCompaction
  import opened LcmAssembler
  import opened Session

  /** Sequence numbers are 1, 2, 3, ... without a gap. */
  predicate DenseSeqs(log: seq<MessageRow>) {
    forall i :: 0 <= i < |log| ==> log[i].seqNo == i + 1
  }

  lemma DenseMaxSeq(log: seq<MessageRow>, x: int)
    requires DenseSeqs(log) && IsMaxSeq(log, x)
    ensures x == |log|
  {
    if log != [] {
      assert log[|log| - 1] in log;
    }
  }

  /** `row` records `e` at position `i` of the conversation. */
  predicate Records(row: MessageRow, e: Entry, i: nat) {
    row.seqNo == i + 1 && row.role == e.role && row.content == e.content && row.tokens == EstimateTokens(e.content)
  }

  /** `log` continues `old` with exactly the entries `es`. */
  predicate Continues(before: seq<MessageRow>, es: seq<Entry>, log: seq<MessageRow>) {
    && before <= log && |log| == |before| + |es|
    && forall i :: 0 <= i < |es| ==> Records(log[|before| + i], es[i], |before| + i)
  }

  /** In terms of the rows: each new one has the next number, the entry's role and content, and a token for every
      four bytes begun. */
  lemma ContinuesMeaning(before: seq<MessageRow>, es: seq<Entry>, log: seq<MessageRow>, i: nat)
    requires Continues(before, es, log) && i < |es|
    ensures |log| == |before| + |es| && log[..|before|] == before
    ensures var row := log[|before| + i];
            && row.seqNo == |before| + i + 1 && row.role == es[i].role && row.content == es[i].content
            && |row.content| <= 4 * row.tokens < |row.content| + 4
  {
    assert Records(log[|before| + i], es[i], |before| + i);
  }

  predicate LegalRoles(es: seq<Entry>) {
    forall e :: e in es ==> e.role in ROLES
  }

  /** The rows carry increasing sequence numbers above n. */
  predicate ComeAfter(n: nat, ms: seq<MessageRow>) {
    && (forall m :: m in ms ==> m.seqNo > n)
    && (forall i, j :: 0 <= i < j < |ms| ==> ms[i].seqNo < ms[j].seqNo)
  }

  lemma ComeAfterSequenced(log: seq<MessageRow>, ms: seq<MessageRow>)
    requires DenseSeqs(log) && ComeAfter(|log|, ms)
    ensures Sequenced(log, ms)
  {
  }

  lemma RowsSequenced(log: seq<MessageRow>, rows: seq<MessageRow>)
    requires DenseSeqs(log) && forall i :: 0 <= i < |rows| ==> rows[i].seqNo == |log| + i + 1
    ensures Sequenced(log, rows)
  {
  }

  /** What ingesting rows built from `es` amounts to. */
  lemma {:induction false} IngestRecords(t: Tables, es: seq<Entry>, rows: seq<MessageRow>)
    requires Valid(t) && DenseSeqs(t.messages) && |rows| == |es|
    requires forall i :: 0 <= i < |es| ==> Records(rows[i], es[i], |t.messages| + i)
    ensures Ingest(t, rows).Some? <==> LegalRoles(es)
    ensures Ingest(t, rows).Some? ==>
              var t2 := Ingest(t, rows).value;
              Valid(t2) && Extends(t, t2) && Continues(t.messages, es, t2.messages) && DenseSeqs(t2.messages)
  {
    hide Valid, Ingest, Sequenced, Unused, LegalRows;
    RowsSequenced(t.messages, rows);
    SequencedUnused(t.messages, rows);
    IngestAccepts(t, rows);
    SameRoles(es, rows);
    if Ingest(t, rows).Some? {
      IngestKeepsValid(t, rows);
      IngestAppends(t, rows);
      RecordsKept(t.messages, es, rows, Ingest(t, rows).value.messages);
    }
  }

  lemma SameRoles(es: seq<Entry>, rows: seq<MessageRow>)
    requires |rows| == |es| && forall i :: 0 <= i < |es| ==> rows[i].role == es[i].role
    ensures LegalRoles(es) <==> LegalRows(rows)
  {
    assert forall i :: 0 <= i < |es| ==> rows[i] in rows && es[i] in es;
  }

  lemma RecordsKept(before: seq<MessageRow>, es: seq<Entry>, rows: seq<MessageRow>, log: seq<MessageRow>)
    requires DenseSeqs(before) && |rows| == |es| && before <= log && |log| == |before| + |rows|
    requires forall i :: 0 <= i < |es| ==> Records(rows[i], es[i], |before| + i)
    requires forall i :: 0 <= i < |rows| ==> SameButId(log[|before| + i], rows[i])
    ensures Continues(before, es, log) && DenseSeqs(log)
  {
    forall j | 0 <= j < |log|
      ensures log[j].seqNo == j + 1
    {
      if j >= |before| {
        assert SameButId(log[|before| + (j - |before|)], rows[j - |before|]);
      }
    }
  }

  /** The messages are the items from k on, summaries as `xml` renders them. */
  predicate Renders(items: seq<ContextItem>, k: nat, xml: ContextItem -> string, out: seq<RoleContent>) {
    && k <= |items| && |out| == |items| - k
    && forall i :: 0 <= i < |out| ==>
         out[i] == if items[k + i].ref.Sum? then RoleContent("user", xml(items[k + i]))
                   else RoleContent(items[k + i].role, items[k + i].content)
  }

  lemma RendersEnd(items: seq<ContextItem>, end: seq<ContextItem>, xml: ContextItem -> string, out: seq<RoleContent>)
    requires |end| <= |items| && end == items[|items| - |end|..] && |out| == |end|
    requires forall i :: 0 <= i < |end| ==>
               out[i] == if end[i].ref.Sum? then RoleContent("user", xml(end[i]))
                         else RoleContent(end[i].role, end[i].content)
    ensures Renders(items, |items| - |end|, xml, out)
  {
    assert forall i :: 0 <= i < |end| ==> end[i] == items[|items| - |end| + i];
  }

  /** Each message shows the role and content of the log row it comes from, or a summary as the user's. */
  ghost predicate ShowsLog(t: Tables, k: nat, out: seq<RoleContent>) {
    && |t.items| == k + |out|
    && (forall i, m :: 0 <= i < |out| && m in t.messages && t.items[k + i].ref == Msg(m.id) ==>
          out[i] == RoleContent(m.role, m.content))
    && (forall i :: 0 <= i < |out| && t.items[k + i].ref.Sum? ==> out[i].role == "user")
  }

  lemma RenderedLog(t: Tables, k: nat, xml: ContextItem -> string, out: seq<RoleContent>)
    requires Valid(t) && Renders(View(t), k, xml, out)
    ensures ShowsLog(t, k, out)
  {
    hide Linked, Lossless, Forest, Annotated, ItemOf;
    var items := View(t);
    forall i, m | 0 <= i < |out| && m in t.messages && t.items[k + i].ref == Msg(m.id)
      ensures out[i] == RoleContent(m.role, m.content)
    {
      ItemShowsMessage(t, t.items[k + i], m);
      assert items[k + i] == ItemOf(t, t.items[k + i]);
    }
    forall i | 0 <= i < |out| && t.items[k + i].ref.Sum?
      ensures out[i].role == "user"
    {
      assert items[k + i] == ItemOf(t, t.items[k + i]);
    }
  }

  lemma RenderedMessages(t: Tables, k: nat, out: seq<RoleContent>)
    requires Valid(t) && ShowsLog(t, k, out) && forall row :: row in t.items ==> row.ref.Msg?
    ensures |out| <= |t.messages|
    ensures var skip := |t.messages| - |out|;
            forall i :: 0 <= i < |out| ==>
              out[i] == RoleContent(t.messages[skip + i].role, t.messages[skip + i].content)
  {
    hide Valid;
    OnlyMessages(t);
    forall i | 0 <= i < |out|
      ensures out[i] == RoleContent(t.messages[k + i].role, t.messages[k + i].content)
    {
      assert t.messages[k + i] in t.messages && t.items[k + i].ref == Msg(t.messages[k + i].id);
    }
  }

  /** A context without summaries lists the whole log. */
  lemma OnlyMessages(t: Tables)
    requires Valid(t) && forall row :: row in t.items ==> row.ref.Msg?
    ensures |t.items| == |t.messages|
    ensures forall i :: 0 <= i < |t.items| ==> t.items[i].ref == Msg(t.messages[i].id)
  {
    hide Linked, Forest, Annotated, MessagesInOrder, Expand;
    ExpandMessages(t, Refs(t.items));
    LeadingMessagesAligned(t, |t.items|);
  }

  class Engine {
    const store: Store
    const cfg: Config
    const comp: CompactionEngine

    constructor (store: Store, cfg: Config, fmt: int -> string)
      ensures this.store == store && this.cfg == cfg && comp.store == store && comp.cfg == cfg
    {
      this.store, this.cfg := store, cfg;
      comp := new CompactionEngine(store, cfg, fmt);
    }

    /** Rows for `es`, numbered after `maxSeq`. */
    static method MakeRows(es: seq<Entry>, maxSeq: nat, clock: nat -> int) returns (rows: seq<MessageRow>)
      ensures |rows| == |es| && forall i :: 0 <= i < |es| ==> Records(rows[i], es[i], maxSeq + i)
    {
      rows := [];
      for i := 0 to |es|
        invariant |rows| == i && forall j :: 0 <= j < i ==> Records(rows[j], es[j], maxSeq + j)
      {
        rows := rows + [MessageRow(0, maxSeq + i + 1, es[i].role, es[i].content, EstimateTokens(es[i].content),
                clock(i))];
      }
    }

    /** Imports what the log is missing of the session; a log that is not behind is left alone. */
    method Bootstrap(history: seq<Entry>, clock: nat -> int) returns (ok: bool)
      requires Valid(store.T()) && DenseSeqs(store.messages)
      modifies store
      ensures Valid(store.T()) && DenseSeqs(store.messages)
      ensures |old(store.messages)| >= |history| ==> ok && store.T() == old(store.T())
      ensures |old(store.messages)| < |history| ==>
                && ok == LegalRoles(history[|old(store.messages)|..])
                && (if ok then
                      && Extends(old(store.T()), store.T())
                      && Continues(old(store.messages), history[|old(store.messages)|..], store.messages)
                    else store.T() == old(store.T()))
    {
      hide Valid, Ingest;
      var maxSeq := store.GetMaxSeq();
      DenseMaxSeq(store.messages, maxSeq);
      if maxSeq >= |history| {
        return true;
      }
      var rows := MakeRows(history[maxSeq..], maxSeq, clock);
      IngestRecords(store.T(), history[maxSeq..], rows);
      ok := store.IngestMessages(rows);
    }

    /** Records a turn and compacts exactly when the context is then over the threshold (the configured
        fraction of 128000 tokens, truncated). `recorded` are the tables in between; during the compaction other
        turns may append, with later sequence numbers. */
    method IngestTurn(newMessages: seq<Entry>, clock: nat -> int, threshold: int, calls: Calls)
      returns (ok: bool, ghost recorded: Tables)
      requires comp.store == store && Valid(store.T()) && DenseSeqs(store.messages)
      requires ComeAfter(|store.messages| + |newMessages|, AllArrivals(calls))
      modifies store
      ensures Valid(store.T()) && ok == LegalRoles(newMessages)
      ensures !ok ==> store.T() == old(store.T())
      ensures ok ==>
                && Extends(old(store.T()), recorded)
                && Continues(old(store.messages), newMessages, recorded.messages) && DenseSeqs(recorded.messages)
                && recorded.messages <= store.messages
                && |store.messages| <= |recorded.messages| + |AllArrivals(calls)|
                && (if newMessages != [] && TotalTokens(recorded, Refs(recorded.items)) > threshold
                    then Compacted(comp.cfg, comp.fmt, recorded, calls, store.T())
                    else store.T() == recorded)
    {
      hide Valid, Ingest, IsLeafChunk, KeepsTail, RunEffect, TotalTokens, ComeAfter, Sequenced, AllArrivals;
      recorded := store.T();
      var maxSeq := store.GetMaxSeq();
      DenseMaxSeq(store.messages, maxSeq);
      var rows := MakeRows(newMessages, maxSeq, clock);
      if |rows| == 0 {
        ExtendsItself(recorded);
        return true, recorded;
      }
      IngestRecords(store.T(), newMessages, rows);
      ok := store.IngestMessages(rows);
      if !ok {
        return;
      }
      recorded := store.T();
      var total := store.GetTotalTokenCount();
      if total > threshold {
        ComeAfterSequenced(store.messages, AllArrivals(calls));
        var done, k, a, b := comp.RunIncremental(calls);
      }
    }

    /** The prompt part: what is shown stands for a gap-free end of the log. */
    method AssembleContext(scaled: int, maxContextTokens: int, xml: ContextItem -> string)
          returns (out: seq<RoleContent>)
      requires Valid(store.T())
      ensures exists k: nat ::
                && k <= |store.items| && IsCut(cfg, View(store.T()), EffectiveThreshold(scaled, maxContextTokens), k)
                && Renders(View(store.T()), k, xml, out) && ShowsLog(store.T(), k, out)
                && (var shown := Expand(store.T(), Refs(store.items)[k..]);
                    |shown| <= |store.messages| && shown == Ids(store.messages)[|store.messages| - |shown|..])
      ensures (forall row :: row in store.items ==> row.ref.Msg?) ==>
                var skip := |store.messages| - |out|;
                && skip >= 0
                && forall i :: 0 <= i < |out| ==>
                     out[i] == RoleContent(store.messages[skip + i].role, store.messages[skip + i].content)
    {
      hide Valid, IsCut, Expand, ItemOf, View, EffectiveThreshold, ShowsLog, Renders;
      var items := store.GetContextItems();
      ViewRead(store.T(), items);
      var assembled := Assemble(items, cfg, scaled, maxContextTokens);
      ghost var k := |items| - |assembled|;
      CutCoversLogSuffix(cfg, store.T(), EffectiveThreshold(scaled, maxContextTokens), k);
      out := ItemsToRoleContent(assembled, xml);
      RendersEnd(items, assembled, xml, out);
      RenderedLog(store.T(), k, xml, out);
      if forall row :: row in store.items ==> row.ref.Msg? {
        RenderedMessages(store.T(), k, out);
      }
    }
  }
}
