/** The store object: the tables of one conversation, read and rewritten row by row (lcm/store.go). */
module LcmStore {
  import opened Wrappers
  import opened LcmTypes
  import opened LcmTables

  const NO_TIME := 0

  /** A context row joined with its message or summary; a join that finds nothing leaves zero values. */
  function ItemOf(t: Tables, row: ContextRow): (it: ContextItem)
    ensures it.ordinal == row.ordinal && it.ref == row.ref
  {
    match row.ref
    case Msg(id) =>
      (match MessageById(t.messages, id)
       case Some(m) => ContextItem(row.ordinal, row.ref, m.role, m.content, None, 0, 0, NO_TIME, NO_TIME)
       case None => ContextItem(row.ordinal, row.ref, "", "", None, 0, 0, NO_TIME, NO_TIME))
    case Sum(s) =>
      if s in t.summaries then
        var r := t.summaries[s];
        ContextItem(row.ordinal, row.ref, "user", r.content, Some(r.kind), r.depth, r.descendants, r.earliest, r.latest)
      else ContextItem(row.ordinal, row.ref, "user", "", None, 0, 0, NO_TIME, NO_TIME)
  }

  /** An item that names a message of the log shows its role and its content. */
  lemma ItemShowsMessage(t: Tables, row: ContextRow, m: MessageRow)
    requires Ordered(t.messages) && m in t.messages && row.ref == Msg(m.id)
    ensures ItemOf(t, row).role == m.role && ItemOf(t, row).content == m.content && ItemOf(t, row).kind == None
  {
  }

  /** An item whose message or summary is missing shows nothing. */
  lemma ItemShowsNothing(t: Tables, row: ContextRow)
    ensures row.ref.Msg? && (forall m :: m in t.messages ==> m.id != row.ref.id) ==>
              ItemOf(t, row).role == "" && ItemOf(t, row).content == "" && ItemOf(t, row).kind == None
    ensures row.ref.Sum? && row.ref.sid !in t.summaries ==>
              ItemOf(t, row).role == "user" && ItemOf(t, row).content == "" && ItemOf(t, row).kind == None
  {
  }

  class Store {
    var messages: seq<MessageRow>
    var summaries: map<string, SummaryRow>
    var sources: map<string, seq<int>>
    var parents: map<string, seq<string>>
    var items: seq<ContextRow>
    var lastId: int

    /** The current contents of all tables. */
    ghost function T(): Tables
      reads this
    {
      Tables(messages, summaries, sources, parents, items, lastId)
    }

    constructor ()
      ensures Valid(T()) && messages == [] && items == [] && summaries == map[]
    {
      messages, summaries, sources, parents, items, lastId := [], map[], map[], map[], [], 0;
    }

    method GetMaxSeq() returns (maxSeq: int)
      ensures IsMaxSeq(messages, maxSeq)
    {
      maxSeq := 0;
      for i := 0 to |messages|
        invariant IsMaxSeq(messages[..i], maxSeq)
      {
        assert messages[..i + 1] == messages[..i] + [messages[i]];
        if i == 0 || messages[i].seqNo > maxSeq {
          maxSeq := messages[i].seqNo;
          assert messages[i] in messages[..i + 1];
        } else {
          var m :| m in messages[..i] && m.seqNo == maxSeq;
          assert m in messages[..i + 1];
        }
      }
      assert messages[..|messages|] == messages;
    }

    /** Forgets the conversation with all that hangs on it. Ids are not handed out again. */
    method DeleteConversation()
      modifies this
      ensures Valid(T()) && messages == [] && items == [] && summaries == map[] && lastId == old(lastId)
    {
      messages, summaries, sources, parents, items := [], map[], map[], map[], [];
    }

    /** The ordinal after the last one in use. */
    static method NextOrdinal(rows: seq<ContextRow>) returns (next: int)
      ensures next == MaxOrdinal(rows) + 1
    {
      var maxOrd := -1;
      for j := 0 to |rows|
        invariant maxOrd == MaxOrdinal(rows[..j])
      {
        assert rows[..j + 1][..j] == rows[..j];
        if rows[j].ordinal >= maxOrd {
          maxOrd := rows[j].ordinal;
        }
      }
      assert rows[..|rows|] == rows;
      return maxOrd + 1;
    }

    /** The two INSERTs for one message. */
    static method InsertMessage(tx: Tables, m: MessageRow) returns (r: Option<Tables>)
      ensures r == Insert(tx, m)
    {
      if m.role !in ROLES || exists x :: x in tx.messages && x.seqNo == m.seqNo {
        return None;
      }
      var id := tx.lastId + 1;
      var ordinal := NextOrdinal(tx.items);
      return Some(tx.(messages := tx.messages + [m.(id := id)],
                      items := tx.items + [ContextRow(ordinal, Msg(id))],
                      lastId := id));
    }

    /** Appends the rows to the log and to the context list, all of them or, when a constraint fails, none. */
    method IngestMessages(ms: seq<MessageRow>) returns (ok: bool)
      modifies this
      ensures ok == Ingest(old(T()), ms).Some?
      ensures T() == if ok then Ingest(old(T()), ms).value else old(T())
    {
      hide Insert;
      var tx := Tables(messages, summaries, sources, parents, items, lastId);
      for i := 0 to |ms|
        invariant T() == old(T())
        invariant Ingest(old(T()), ms) == Ingest(tx, ms[i..])
      {
        assert ms[i..][0] == ms[i] && ms[i..][1..] == ms[i + 1..];
        var r := InsertMessage(tx, ms[i]);
        if r.None? {
          return false;
        }
        tx := r.value;
      }
      messages, summaries, sources, parents, items, lastId :=
        tx.messages, tx.summaries, tx.sources, tx.parents, tx.items, tx.lastId;
      return true;
    }

    method GetContextItems() returns (out: seq<ContextItem>)
      ensures |out| == |items| && forall i :: 0 <= i < |out| ==> out[i] == ItemOf(T(), items[i])
      ensures Dense(items) ==> forall i :: 0 <= i < |out| ==> out[i].ordinal == i
      ensures Ordered(messages) ==> forall i, m :: 0 <= i < |out| && m in messages && items[i].ref == Msg(m.id) ==>
                out[i].role == m.role && out[i].content == m.content
      ensures forall i, s :: 0 <= i < |out| && s in summaries && items[i].ref == Sum(s) ==>
                var row, it := summaries[s], out[i];
                && it.role == "user" && it.content == row.content && it.kind == Some(row.kind) && it.depth == row.depth
                && it.descendants == row.descendants && it.earliest == row.earliest && it.latest == row.latest
    {
      out := [];
      for i := 0 to |items|
        invariant |out| == i && forall j :: 0 <= j < i ==> out[j] == ItemOf(T(), items[j])
      {
        var row := items[i];
        var it := ItemOf(Tables(messages, summaries, sources, parents, items, lastId), row);
        out := out + [it];
      }
    }

    /** The log rows with the given ids, in seq order. */
    method GetMessagesByIDs(ids: seq<int>) returns (out: seq<MessageRow>)
      ensures out == SelectByIds(messages, ids)
      ensures SortedBySeq(out)
      ensures forall m :: multiset(out)[m] == if m.id in ids then multiset(messages)[m] else 0
    {
      hide SortedBySeq;
      out := [];
      for i := 0 to |messages|
        invariant out == SelectByIds(messages[..i], ids)
      {
        assert messages[..i + 1][..i] == messages[..i];
        if messages[i].id in ids {
          out := InsertBySeq(out, messages[i]);
        }
      }
      assert messages[..|messages|] == messages;
      SelectMeaning(messages, ids);
    }

    method GetTotalTokenCount() returns (total: nat)
      ensures total == TotalTokens(T(), Refs(items))
    {
      total := 0;
      for i := 0 to |items|
        invariant total == TotalTokens(T(), Refs(items)[..i])
      {
        assert Refs(items)[..i + 1][..i] == Refs(items)[..i];
        total := total + RowTokens(Tables(messages, summaries, sources, parents, items, lastId), items[i].ref);
      }
      assert Refs(items)[..|items|] == Refs(items);
    }

    /** summary_messages rows, one by one: a repeated or unknown message rejects them. */
    static method InsertSources(targets: seq<int>, ms: seq<MessageRow>) returns (ok: bool)
      ensures ok <==> NoDup(targets) && forall x :: x in targets ==> x in Ids(ms)
    {
      var edges: seq<int> := [];
      for i := 0 to |targets|
        invariant edges == targets[..i] && NoDup(edges)
        invariant forall x :: x in edges ==> x in Ids(ms)
      {
        var x := targets[i];
        assert x in targets;
        if x in edges || x !in Ids(ms) {
          return false;
        }
        edges := edges + [x];
      }
      assert edges == targets;
      return true;
    }

    /** summary_parents rows, one by one: a repeated or unknown parent rejects them. */
    static method InsertParents(targets: seq<string>, known: set<string>) returns (ok: bool)
      ensures ok <==> NoDup(targets) && forall p :: p in targets ==> p in known
    {
      var edges: seq<string> := [];
      for i := 0 to |targets|
        invariant edges == targets[..i] && NoDup(edges)
        invariant forall p :: p in edges ==> p in known
      {
        var p := targets[i];
        assert p in targets;
        if p in edges || p !in known {
          return false;
        }
        edges := edges + [p];
      }
      assert edges == targets;
      return true;
    }

    /** The rows around the range, renumbered, with the summary in its place. */
    static method Rebuild(all: seq<ContextRow>, start: int, end: int, sid: string) returns (rebuilt: seq<ContextRow>)
      ensures rebuilt == Number(RebuildRefs(all, start, end, sid))
    {
      rebuilt := [];
      var newOrd := 0;
      for i := 0 to |all|
        invariant newOrd == |rebuilt|
        invariant rebuilt == Number(RebuildRefs(all[..i], start, end, sid))
      {
        var r := all[i];
        assert all[..i + 1][..i] == all[..i];
        if r.ordinal >= start && r.ordinal < end {
          if r.ordinal == start {
            rebuilt := rebuilt + [ContextRow(newOrd, Sum(sid))];
            newOrd := newOrd + 1;
          }
        } else {
          rebuilt := rebuilt + [ContextRow(newOrd, r.ref)];
          newOrd := newOrd + 1;
        }
      }
      assert all[..|all|] == all;
    }

    /** Stores the summary with its edges and rebuilds the context list around it, or changes nothing. */
    method ReplaceContextRange(start: int, end: int, s: Summary) returns (ok: bool)
      modifies this
      ensures ok == Replace(old(T()), start, end, s).Some?
      ensures T() == if ok then Replace(old(T()), start, end, s).value else old(T())
    {
      if s.sid in summaries {
        return false;
      }
      if s.row.kind == Leaf {
        ok := InsertSources(s.sources, messages);
      } else {
        ok := InsertParents(s.parents, summaries.Keys + {s.sid});
      }
      if !ok {
        return;
      }
      items := Rebuild(items, start, end, s.sid);
      summaries := summaries[s.sid := s.row];
      if s.row.kind == Leaf {
        sources := sources[s.sid := s.sources];
      } else {
        parents := parents[s.sid := s.parents];
      }
    }
  }
}
