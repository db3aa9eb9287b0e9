/** What the tables mean: what an item of the context list stands for, the two writing transactions as
    functions of the tables, and the invariant that makes the context list lossless (lcm/store.go). */
module LcmTables {
  import opened Wrappers
  import opened LcmTypes

  // ---------------------------------------------------------------- meaning of the context list

  /** The messages under a sequence of leaf summaries. */
  function UnderLeaves(sources: map<string, seq<int>>, leaves: seq<string>): seq<int> {
    if leaves == [] then []
    else UnderLeaves(sources, leaves[..|leaves| - 1]) +
         (var s := leaves[|leaves| - 1]; if s in sources then sources[s] else [])
  }

  /** What one context item stands for: a message for itself, a leaf for its source messages, a condensed
      summary for what its parents stand for. */
  function ExpandRef(t: Tables, r: Ref): seq<int> {
    match r
    case Msg(id) => [id]
    case Sum(s) =>
      if s in t.sources then t.sources[s]
      else if s in t.parents then UnderLeaves(t.sources, t.parents[s])
      else []
  }

  function Expand(t: Tables, refs: seq<Ref>): seq<int> {
    if refs == [] then [] else Expand(t, refs[..|refs| - 1]) + ExpandRef(t, refs[|refs| - 1])
  }

  // ---------------------------------------------------------------- invariant

  predicate IsLeaf(t: Tables, r: Ref) {
    r.Sum? && r.sid in t.summaries && t.summaries[r.sid].kind == Leaf
  }

  predicate MessagesInOrder(t: Tables) {
    && Ordered(t.messages)
    && forall m :: m in t.messages ==> m.id <= t.lastId
  }

  /** Every reference resolves, and a condensed summary has leaf parents only. */
  predicate Linked(t: Tables) {
    && Dense(t.items)
    && t.sources.Keys + t.parents.Keys == t.summaries.Keys
    && (forall s :: s in t.sources ==> s in t.summaries && t.summaries[s].kind == Leaf)
    && (forall s :: s in t.parents ==> s in t.summaries && t.summaries[s].kind == Condensed)
    && (forall i :: 0 <= i < |t.items| && t.items[i].ref.Sum? ==> t.items[i].ref.sid in t.summaries)
    && (forall c, p :: c in t.parents && p in t.parents[c] ==> p in t.sources)
    && (forall s, x :: s in t.sources && x in t.sources[s] ==> x in Ids(t.messages))
  }

  /** Expanding the context list gives the message log, nothing lost, repeated or moved. */
  predicate Lossless(t: Tables) {
    Expand(t, Refs(t.items)) == Ids(t.messages)
  }

  /** The summary DAG is a forest: no message under two leaves, no leaf under two condensed summaries,
      and nothing listed in the context is also covered by a summary. */
  predicate Forest(t: Tables) {
    && NoDup(Refs(t.items))
    && (forall a, b, x :: a in t.sources && b in t.sources && x in t.sources[a] && x in t.sources[b] ==> a == b)
    && (forall a, b, x :: a in t.parents && b in t.parents && x in t.parents[a] && x in t.parents[b] ==> a == b)
    && (forall s :: s in t.sources ==> NoDup(t.sources[s]) && s !in t.parents)
    && (forall c :: c in t.parents ==> NoDup(t.parents[c]))
    && (forall r, s :: r in Refs(t.items) && r.Msg? && s in t.sources ==> r.id !in t.sources[s])
    && (forall r, c :: r in Refs(t.items) && r.Sum? && c in t.parents ==> r.sid !in t.parents[c])
  }

  /** [lo, hi] is the smallest interval holding the intervals of all of `ps`. */
  predicate IsHull(summaries: map<string, SummaryRow>, ps: seq<string>, lo: int, hi: int) {
    && (forall p :: p in ps ==> p in summaries && lo <= summaries[p].earliest && summaries[p].latest <= hi)
    && (exists p :: p in ps && p in summaries && summaries[p].earliest == lo)
    && (exists p :: p in ps && p in summaries && summaries[p].latest == hi)
  }

  /** Descendant counts and time intervals that the edges justify. */
  predicate Annotated(t: Tables)
    requires Linked(t)
  {
    && (forall s :: s in t.sources ==> t.summaries[s].descendants == 0)
    && (forall c :: c in t.parents ==>
          && t.summaries[c].descendants == |t.parents[c]|
          && IsHull(t.summaries, t.parents[c], t.summaries[c].earliest, t.summaries[c].latest))
  }

  predicate Valid(t: Tables) {
    MessagesInOrder(t) && Linked(t) && Lossless(t) && Forest(t) && Annotated(t)
  }

  // ---------------------------------------------------------------- expansion lemmas

  lemma {:induction false} ExpandConcat(t: Tables, a: seq<Ref>, b: seq<Ref>)
    ensures Expand(t, a + b) == Expand(t, a) + Expand(t, b)
  {
    if b == [] {
      assert a + b == a;
    } else {
      assert (a + b)[..|a + b| - 1] == a + b[..|b| - 1];
      ExpandConcat(t, a, b[..|b| - 1]);
    }
  }

  lemma {:induction false} ExpandOne(t: Tables, r: Ref)
    ensures Expand(t, [r]) == ExpandRef(t, r)
  {
    assert Expand(t, [r][..0]) == [];
    assert [] + ExpandRef(t, r) == ExpandRef(t, r);
  }

  lemma {:induction false} ExpandMessages(t: Tables, refs: seq<Ref>)
    requires forall r :: r in refs ==> r.Msg?
    ensures |Expand(t, refs)| == |refs|
    ensures forall i :: 0 <= i < |refs| ==> Expand(t, refs)[i] == refs[i].id
  {
    if refs != [] {
      ExpandMessages(t, refs[..|refs| - 1]);
    }
  }

  lemma {:induction false} ExpandLeaves(t: Tables, refs: seq<Ref>, leaves: seq<string>)
    requires |refs| == |leaves|
    requires forall i :: 0 <= i < |refs| ==> refs[i] == Sum(leaves[i]) && leaves[i] in t.sources
    ensures Expand(t, refs) == UnderLeaves(t.sources, leaves)
  {
    if refs != [] {
      ExpandLeaves(t, refs[..|refs| - 1], leaves[..|leaves| - 1]);
    }
  }

  /** `t2` resolves everything `t1` does, in the same way. */
  predicate Keeps(t1: Tables, t2: Tables) {
    && (forall s :: s in t1.sources ==> s in t2.sources && t2.sources[s] == t1.sources[s])
    && (forall c :: c in t1.parents ==> c in t2.parents && c !in t2.sources && t2.parents[c] == t1.parents[c])
  }

  lemma {:induction false} UnderLeavesKept(m1: map<string, seq<int>>, m2: map<string, seq<int>>, leaves: seq<string>)
    requires forall s :: s in leaves ==> s in m1 && s in m2 && m2[s] == m1[s]
    ensures UnderLeaves(m2, leaves) == UnderLeaves(m1, leaves)
  {
    if leaves != [] {
      UnderLeavesKept(m1, m2, leaves[..|leaves| - 1]);
    }
  }

  lemma {:induction false} ExpandKept(t1: Tables, t2: Tables, refs: seq<Ref>)
    requires Linked(t1) && Keeps(t1, t2)
    requires forall r :: r in refs && r.Sum? ==> r.sid in t1.summaries
    ensures Expand(t2, refs) == Expand(t1, refs)
  {
    if refs != [] {
      var r := refs[|refs| - 1];
      assert r in refs;
      ExpandKept(t1, t2, refs[..|refs| - 1]);
      if r.Sum? && r.sid !in t1.sources {
        assert r.sid in t1.parents;
        UnderLeavesKept(t1.sources, t2.sources, t1.parents[r.sid]);
      }
    }
  }

  lemma {:induction false} ExpandThree(t: Tables, a: seq<Ref>, b: seq<Ref>, c: seq<Ref>)
    ensures Expand(t, a + b + c) == Expand(t, a) + Expand(t, b) + Expand(t, c)
  {
    ExpandConcat(t, a + b, c);
    ExpandConcat(t, a, b);
  }

  /** Replacing a stretch of references by one that stands for the same messages changes nothing. */
  lemma {:induction false} ExpandSplice(t1: Tables, t2: Tables, refs: seq<Ref>, a: nat, b: nat, r: Ref)
    requires a <= b <= |refs|
    requires Linked(t1) && Keeps(t1, t2)
    requires forall x :: x in refs && x.Sum? ==> x.sid in t1.summaries
    requires ExpandRef(t2, r) == Expand(t1, refs[a..b])
    ensures Expand(t2, refs[..a] + [r] + refs[b..]) == Expand(t1, refs)
  {
    hide Expand, ExpandRef, Linked, Keeps;
    ExpandKept(t1, t2, refs[..a]);
    ExpandKept(t1, t2, refs[b..]);
    ExpandOne(t2, r);
    ExpandThree(t2, refs[..a], [r], refs[b..]);
    assert refs == refs[..a] + refs[a..b] + refs[b..];
    ExpandThree(t1, refs[..a], refs[a..b], refs[b..]);
  }

  // ---------------------------------------------------------------- reading

  predicate IsMaxSeq(ms: seq<MessageRow>, x: int) {
    if ms == [] then x == 0
    else (exists m :: m in ms && m.seqNo == x) && forall m :: m in ms ==> m.seqNo <= x
  }

  /** The first message with this id. */
  function MessageById(ms: seq<MessageRow>, id: int): (r: Option<MessageRow>)
    ensures r.Some? ==> r.value in ms && r.value.id == id
    ensures r.None? ==> forall m :: m in ms ==> m.id != id
  {
    if ms == [] then None
    else if ms[0].id == id then Some(ms[0])
    else MessageById(ms[1..], id)
  }

  lemma {:induction false} MessageByIdAt(ms: seq<MessageRow>, i: nat)
    requires Ordered(ms) && i < |ms|
    ensures MessageById(ms, ms[i].id) == Some(ms[i])
  {
    var r := MessageById(ms, ms[i].id);
    var j :| 0 <= j < |ms| && ms[j] == r.value;
    assert j == i;
  }

  /** Insertion of a row into rows sorted by seq. */
  function InsertBySeq(ms: seq<MessageRow>, m: MessageRow): seq<MessageRow> {
    if ms == [] || ms[|ms| - 1].seqNo <= m.seqNo then ms + [m]
    else InsertBySeq(ms[..|ms| - 1], m) + [ms[|ms| - 1]]
  }

  /** SELECT ... WHERE message_id IN (ids) ORDER BY seq. */
  function SelectByIds(ms: seq<MessageRow>, ids: seq<int>): seq<MessageRow> {
    if ms == [] then []
    else
      var rest := SelectByIds(ms[..|ms| - 1], ids);
      var m := ms[|ms| - 1];
      if m.id in ids then InsertBySeq(rest, m) else rest
  }

  predicate SortedBySeq(ms: seq<MessageRow>) {
    forall i, j :: 0 <= i < j < |ms| ==> ms[i].seqNo <= ms[j].seqNo
  }

  /** The selected rows are exactly those with one of the ids, each as often as it is there, in seq order. */
  lemma {:induction false} SelectMeaning(ms: seq<MessageRow>, ids: seq<int>)
    ensures SortedBySeq(SelectByIds(ms, ids))
    ensures forall m :: multiset(SelectByIds(ms, ids))[m] == if m.id in ids then multiset(ms)[m] else 0
  {
    hide InsertBySeq, SortedBySeq;
    if ms == [] {
      NothingSorted();
    } else {
      var n := |ms| - 1;
      SelectMeaning(ms[..n], ids);
      InsertSorted(SelectByIds(ms[..n], ids), ms[n]);
      InsertCounts(SelectByIds(ms[..n], ids), ms[n]);
      assert ms == ms[..n] + [ms[n]];
    }
  }

  lemma NothingSorted()
    ensures SortedBySeq([])
  {
  }

  lemma {:induction false} InsertCounts(ms: seq<MessageRow>, m: MessageRow)
    ensures multiset(InsertBySeq(ms, m)) == multiset(ms) + multiset{m}
  {
    if ms != [] && ms[|ms| - 1].seqNo > m.seqNo {
      var n := |ms| - 1;
      InsertCounts(ms[..n], m);
      assert ms == ms[..n] + [ms[n]];
    }
  }

  predicate AtMost(ms: seq<MessageRow>, bound: int) {
    forall i :: 0 <= i < |ms| ==> ms[i].seqNo <= bound
  }

  lemma {:induction false} InsertAtMost(ms: seq<MessageRow>, m: MessageRow, bound: int)
    requires AtMost(ms, bound) && m.seqNo <= bound
    ensures AtMost(InsertBySeq(ms, m), bound)
  {
    if ms != [] && ms[|ms| - 1].seqNo > m.seqNo {
      InsertAtMost(ms[..|ms| - 1], m, bound);
    }
  }

  lemma SortedSnoc(ms: seq<MessageRow>, m: MessageRow)
    ensures SortedBySeq(ms + [m]) <==> SortedBySeq(ms) && AtMost(ms, m.seqNo)
  {
    if SortedBySeq(ms + [m]) {
      assert forall i :: 0 <= i < |ms| ==> ms[i] == (ms + [m])[i];
      assert (ms + [m])[|ms|] == m;
    }
  }

  lemma {:induction false} InsertSorted(ms: seq<MessageRow>, m: MessageRow)
    requires SortedBySeq(ms)
    ensures SortedBySeq(InsertBySeq(ms, m))
  {
    hide SortedBySeq, AtMost;
    if ms == [] {
      NothingSorted();
      NothingAtMost(m.seqNo);
      SortedSnoc([], m);
    } else {
      var n := |ms| - 1;
      assert ms == ms[..n] + [ms[n]];
      SortedSnoc(ms[..n], ms[n]);
      if ms[n].seqNo <= m.seqNo {
        LargerBound(ms[..n], ms[n], m.seqNo);
        SortedSnoc(ms, m);
      } else {
        InsertSorted(ms[..n], m);
        InsertAtMost(ms[..n], m, ms[n].seqNo);
        SortedSnoc(InsertBySeq(ms[..n], m), ms[n]);
      }
    }
  }

  lemma NothingAtMost(bound: int)
    ensures AtMost([], bound)
  {
  }

  lemma LargerBound(ms: seq<MessageRow>, m: MessageRow, bound: int)
    requires AtMost(ms, m.seqNo) && m.seqNo <= bound
    ensures AtMost(ms + [m], bound)
  {
  }

  /** The rows of a prefix of the log come back in the order of the ids asked for: position k of the
      selected rows and position k of the ids name the same message. */
  lemma SelectPrefixAligned(ms: seq<MessageRow>, k: nat, ids: seq<int>)
    requires Ordered(ms) && k <= |ms| && forall i :: 0 <= i < |ms| ==> (ms[i].id in ids <==> i < k)
    ensures SelectByIds(ms, ids) == ms[..k]
  {
    SelectSkips(ms, k, ids);
    SelectAll(ms[..k], ids);
  }

  lemma {:induction false} SelectAll(ms: seq<MessageRow>, ids: seq<int>)
    requires Ordered(ms) && forall i :: 0 <= i < |ms| ==> ms[i].id in ids
    ensures SelectByIds(ms, ids) == ms
  {
    if ms != [] {
      var n := |ms| - 1;
      OrderedInit(ms);
      SelectAll(ms[..n], ids);
      InsertAtEnd(ms[..n], ms[n]);
    }
  }

  lemma {:induction false} SelectSkips(ms: seq<MessageRow>, k: nat, ids: seq<int>)
    requires k <= |ms| && forall i :: k <= i < |ms| ==> ms[i].id !in ids
    ensures SelectByIds(ms, ids) == SelectByIds(ms[..k], ids)
  {
    if k < |ms| {
      assert ms[..|ms| - 1][..k] == ms[..k];
      SelectSkips(ms[..|ms| - 1], k, ids);
    } else {
      assert ms[..k] == ms;
    }
  }

  lemma OrderedInit(ms: seq<MessageRow>)
    requires Ordered(ms) && ms != []
    ensures var n := |ms| - 1; Ordered(ms[..n]) && (n > 0 ==> ms[n - 1].seqNo <= ms[n].seqNo)
  {
  }

  lemma InsertAtEnd(ms: seq<MessageRow>, m: MessageRow)
    requires ms == [] || ms[|ms| - 1].seqNo <= m.seqNo
    ensures InsertBySeq(ms, m) == ms + [m]
  {
  }

  /** The token_count a context row contributes (a LEFT JOIN that finds nothing contributes nothing). */
  function RowTokens(t: Tables, r: Ref): nat {
    match r
    case Msg(id) => (match MessageById(t.messages, id) case None => 0 case Some(m) => m.tokens)
    case Sum(s) => if s in t.summaries then t.summaries[s].tokens else 0
  }

  /** A row whose message or summary is missing counts for nothing. */
  lemma DanglingCountsNothing(t: Tables, r: Ref)
    requires r.Msg? ==> forall m :: m in t.messages ==> m.id != r.id
    requires r.Sum? ==> r.sid !in t.summaries
    ensures RowTokens(t, r) == 0
  {
  }

  function TotalTokens(t: Tables, refs: seq<Ref>): nat {
    if refs == [] then 0 else TotalTokens(t, refs[..|refs| - 1]) + RowTokens(t, refs[|refs| - 1])
  }

  // ---------------------------------------------------------------- ingesting

  const ROLES := {"system", "user", "assistant", "tool"}

  /** The highest ordinal, -1 for an empty list. */
  function MaxOrdinal(items: seq<ContextRow>): (m: int)
    ensures Dense(items) ==> m == |items| - 1
  {
    if items == [] then -1
    else
      var rest := MaxOrdinal(items[..|items| - 1]);
      if rest > items[|items| - 1].ordinal then rest else items[|items| - 1].ordinal
  }

  function Insert(t: Tables, m: MessageRow): Option<Tables> {
    if m.role !in ROLES || exists x :: x in t.messages && x.seqNo == m.seqNo then None
    else
      var id := t.lastId + 1;
      Some(t.(messages := t.messages + [m.(id := id)],
              items := t.items + [ContextRow(MaxOrdinal(t.items) + 1, Msg(id))],
              lastId := id))
  }

  /** One transaction: all rows or none. */
  function Ingest(t: Tables, ms: seq<MessageRow>): Option<Tables>
    decreases |ms|
  {
    if ms == [] then Some(t)
    else match Insert(t, ms[0])
      case None => None
      case Some(t1) => Ingest(t1, ms[1..])
  }

  /** Every row of `ms` comes after every row of `log`. */
  predicate Later(log: seq<MessageRow>, ms: seq<MessageRow>) {
    forall m, x :: m in ms && x in log ==> x.seqNo < m.seqNo
  }

  /** The rows come after everything in the log and in increasing seq order. */
  predicate Sequenced(log: seq<MessageRow>, ms: seq<MessageRow>) {
    && Later(log, ms)
    && (forall i, j :: 0 <= i < j < |ms| ==> ms[i].seqNo < ms[j].seqNo)
  }

  function MsgRefs(ms: seq<MessageRow>): (r: seq<Ref>)
    ensures |r| == |ms| && forall i :: 0 <= i < |r| ==> r[i] == Msg(ms[i].id)
  {
    seq(|ms|, i requires 0 <= i < |ms| => Msg(ms[i].id))
  }

  /** `t2` is `t1` after any number of appends, and of nothing else. */
  predicate Extends(t1: Tables, t2: Tables) {
    && t2.summaries == t1.summaries && t2.sources == t1.sources && t2.parents == t1.parents
    && t1.messages <= t2.messages
    && Refs(t2.items) == Refs(t1.items) + MsgRefs(t2.messages[|t1.messages|..])
  }

  /** The same row but for its id, which the database chooses. */
  predicate SameButId(a: MessageRow, b: MessageRow) {
    && a.seqNo == b.seqNo && a.role == b.role && a.content == b.content
    && a.tokens == b.tokens && a.createdAt == b.createdAt
  }

  /** `log2` is `log` with the rows `ms` at the end, under ids of the database's choice. */
  predicate Appended(log: seq<MessageRow>, ms: seq<MessageRow>, log2: seq<MessageRow>) {
    && log <= log2 && |log2| == |log| + |ms|
    && forall i :: 0 <= i < |ms| ==> SameButId(log2[|log| + i], ms[i])
  }

  lemma MsgRefsConcat(a: seq<MessageRow>, b: seq<MessageRow>)
    ensures MsgRefs(a + b) == MsgRefs(a) + MsgRefs(b)
  {
  }

  lemma PrefixSplit<T>(a: seq<T>, b: seq<T>, c: seq<T>)
    requires a <= b <= c
    ensures a <= c && c[|a|..] == b[|a|..] + c[|b|..]
  {
  }

  lemma ConcatAssociative<T>(a: seq<T>, b: seq<T>, c: seq<T>)
    ensures (a + b) + c == a + (b + c)
  {
  }

  lemma ExtendsItself(t: Tables)
    ensures Extends(t, t)
  {
    assert t.messages[|t.messages|..] == [];
  }

  lemma ExtendsTransitive(t1: Tables, t2: Tables, t3: Tables)
    requires Extends(t1, t2) && Extends(t2, t3)
    ensures Extends(t1, t3)
  {
    PrefixSplit(t1.messages, t2.messages, t3.messages);
    MsgRefsConcat(t2.messages[|t1.messages|..], t3.messages[|t2.messages|..]);
    ConcatAssociative(Refs(t1.items), MsgRefs(t2.messages[|t1.messages|..]), MsgRefs(t3.messages[|t2.messages|..]));
  }

  lemma InsertExtends(t: Tables, m: MessageRow)
    requires Linked(t) && Insert(t, m).Some?
    ensures var t2 := Insert(t, m).value; var row := m.(id := t.lastId + 1);
            && Extends(t, t2) && Dense(t2.items)
            && t2.messages == t.messages + [row]
            && Refs(t2.items) == Refs(t.items) + [Msg(row.id)]
            && Ids(t2.messages) == Ids(t.messages) + [row.id]
  {
    var t2, row := Insert(t, m).value, m.(id := t.lastId + 1);
    assert t2.messages[|t.messages|..] == [row];
    assert MsgRefs([row]) == [Msg(row.id)];
    assert Refs(t2.items) == Refs(t.items) + [Msg(row.id)];
  }

  lemma {:induction false} InsertLossless(t: Tables, m: MessageRow)
    requires Linked(t) && Lossless(t) && Insert(t, m).Some?
    ensures Lossless(Insert(t, m).value)
  {
    var t2, r := Insert(t, m).value, Msg(t.lastId + 1);
    InsertExtends(t, m);
    ExpandConcat(t2, Refs(t.items), [r]);
    ExpandOne(t2, r);
    ExpandKept(t, t2, Refs(t.items));
  }

  lemma {:induction false} InsertForest(t: Tables, m: MessageRow)
    requires MessagesInOrder(t) && Linked(t) && Lossless(t) && Forest(t) && Insert(t, m).Some?
    ensures Forest(Insert(t, m).value)
  {
    var r := Msg(t.lastId + 1);
    InsertExtends(t, m);
    ListedAreLogged(t);
    assert r.id !in Ids(t.messages);
    assert r !in Refs(t.items);
  }

  lemma InsertLinked(t: Tables, m: MessageRow)
    requires MessagesInOrder(t) && Linked(t) && Sequenced(t.messages, [m]) && Insert(t, m).Some?
    ensures MessagesInOrder(Insert(t, m).value) && Linked(Insert(t, m).value)
  {
    hide Insert, MessagesInOrder, Extends, Sequenced;
    InsertOrdered(t, m);
    InsertExtends(t, m);
    LinkedWithMore(t, Insert(t, m).value, t.lastId + 1);
  }

  lemma InsertOrdered(t: Tables, m: MessageRow)
    requires MessagesInOrder(t) && Sequenced(t.messages, [m]) && Insert(t, m).Some?
    ensures MessagesInOrder(Insert(t, m).value)
    ensures var t2 := Insert(t, m).value;
            t2.summaries == t.summaries && t2.sources == t.sources && t2.parents == t.parents
  {
    assert m in [m];
  }

  lemma LinkedWithMore(t: Tables, t2: Tables, id: int)
    requires Linked(t) && Dense(t2.items) && Refs(t2.items) == Refs(t.items) + [Msg(id)]
    requires t2.summaries == t.summaries && t2.sources == t.sources && t2.parents == t.parents
    requires Ids(t2.messages) == Ids(t.messages) + [id]
    ensures Linked(t2)
  {
    forall i | 0 <= i < |t2.items| && t2.items[i].ref.Sum?
      ensures t2.items[i].ref.sid in t2.summaries
    {
      assert t2.items[i].ref == Refs(t2.items)[i] == Refs(t.items)[i] == t.items[i].ref;
    }
  }

  lemma {:induction false} InsertKeepsValid(t: Tables, m: MessageRow)
    requires Valid(t) && Sequenced(t.messages, [m]) && m.role in ROLES
    ensures Insert(t, m).Some? && Valid(Insert(t, m).value)
  {
    assert m in [m];
    InsertLinked(t, m);
    InsertLossless(t, m);
    InsertForest(t, m);
  }

  /** Every message in the context list is in the log. */
  lemma {:induction false} ListedAreLogged(t: Tables)
    requires Lossless(t)
    ensures forall id :: Msg(id) in Refs(t.items) ==> id in Ids(t.messages)
  {
    forall id | Msg(id) in Refs(t.items)
      ensures id in Ids(t.messages)
    {
      var refs := Refs(t.items);
      var i :| 0 <= i < |refs| && refs[i] == Msg(id);
      assert refs == refs[..i] + [refs[i]] + refs[i + 1..];
      ExpandConcat(t, refs[..i] + [refs[i]], refs[i + 1..]);
      ExpandConcat(t, refs[..i], [refs[i]]);
      ExpandOne(t, refs[i]);
      assert id in ExpandRef(t, refs[i]);
    }
  }

  /** No seq number is used twice, in the log or among the rows. */
  predicate Unused(log: seq<MessageRow>, ms: seq<MessageRow>) {
    && (forall m, x :: m in ms && x in log ==> x.seqNo != m.seqNo)
    && (forall i, j :: 0 <= i < j < |ms| ==> ms[i].seqNo != ms[j].seqNo)
  }

  predicate LegalRows(ms: seq<MessageRow>) {
    forall m :: m in ms ==> m.role in ROLES
  }

  /** A whole ingest transaction goes through exactly when every role is legal and every seq number unused ... */
  lemma {:induction false} IngestAccepts(t: Tables, ms: seq<MessageRow>)
    ensures Ingest(t, ms).Some? <==> LegalRows(ms) && Unused(t.messages, ms)
    decreases |ms|
  {
    hide Insert, LegalRows, Unused;
    if ms == [] {
      NothingToAccept(t.messages);
    } else {
      FirstAccepted(t, ms);
      if Insert(t, ms[0]).Some? {
        IngestAccepts(Insert(t, ms[0]).value, ms[1..]);
      }
    }
  }

  lemma NothingToAccept(log: seq<MessageRow>)
    ensures LegalRows([]) && Unused(log, [])
  {
  }

  lemma FirstAccepted(t: Tables, ms: seq<MessageRow>)
    requires ms != []
    ensures Insert(t, ms[0]).None? ==> !(LegalRows(ms) && Unused(t.messages, ms))
    ensures Insert(t, ms[0]).Some? ==>
              (LegalRows(ms) && Unused(t.messages, ms) <==>
               LegalRows(ms[1..]) && Unused(Insert(t, ms[0]).value.messages, ms[1..]))
  {
    assert ms[0] in ms && ms == [ms[0]] + ms[1..];
    if Insert(t, ms[0]).Some? {
      FirstUnused(t.messages, ms[0].(id := t.lastId + 1), ms);
    }
  }

  lemma FirstUnused(log: seq<MessageRow>, row: MessageRow, ms: seq<MessageRow>)
    requires ms != [] && row.seqNo == ms[0].seqNo
    requires forall x :: x in log ==> x.seqNo != ms[0].seqNo
    ensures Unused(log, ms) <==> Unused(log + [row], ms[1..])
  {
    var rest := ms[1..];
    assert forall m :: m in ms <==> m == ms[0] || m in rest;
    assert forall x :: x in log + [row] <==> x in log || x == row;
    if Unused(log + [row], rest) {
      assert row in log + [row];
      forall i, j | 0 <= i < j < |ms|
        ensures ms[i].seqNo != ms[j].seqNo
      {
        assert ms[j] == rest[j - 1];
        assert i > 0 ==> ms[i] == rest[i - 1];
      }
    }
    if Unused(log, ms) {
      forall m | m in rest
        ensures m.seqNo != row.seqNo
      {
        var j :| 0 <= j < |rest| && rest[j] == m;
        assert ms[j + 1] == m;
      }
    }
  }

  lemma SequencedUnused(log: seq<MessageRow>, ms: seq<MessageRow>)
    requires Sequenced(log, ms)
    ensures Unused(log, ms)
  {
  }

  /** ... and then appends exactly the given rows to the log, ... */
  lemma {:induction false} IngestAppends(t: Tables, ms: seq<MessageRow>)
    requires Ingest(t, ms).Some?
    ensures Appended(t.messages, ms, Ingest(t, ms).value.messages)
    decreases |ms|
  {
    hide Insert, Appended;
    if ms == [] {
      NothingAppended(t.messages);
    } else {
      var t1 := Insert(t, ms[0]).value;
      InsertAppends(t, ms[0]);
      IngestAppends(t1, ms[1..]);
      AppendedTwice(t.messages, t1.messages, Ingest(t, ms).value.messages, ms);
    }
  }

  lemma InsertAppends(t: Tables, m: MessageRow)
    requires Insert(t, m).Some?
    ensures Appended(t.messages, [m], Insert(t, m).value.messages)
  {
  }

  lemma NothingAppended(log: seq<MessageRow>)
    ensures Appended(log, [], log)
  {
  }

  lemma AppendedTwice(log: seq<MessageRow>, log1: seq<MessageRow>, log2: seq<MessageRow>, ms: seq<MessageRow>)
    requires ms != [] && Appended(log, [ms[0]], log1) && Appended(log1, ms[1..], log2)
    ensures Appended(log, ms, log2)
  {
    hide SameButId;
    forall i | 0 <= i < |ms|
      ensures SameButId(log2[|log| + i], ms[i])
    {
      if i == 0 {
        assert SameButId(log1[|log| + 0], [ms[0]][0]);
      } else {
        assert SameButId(log2[|log1| + (i - 1)], ms[1..][i - 1]);
      }
    }
  }

  /** ... keeps the invariant, and appends the new messages to the end of the context list. */
  lemma {:induction false} IngestKeepsValid(t: Tables, ms: seq<MessageRow>)
    requires Valid(t) && Sequenced(t.messages, ms) && Ingest(t, ms).Some?
    ensures Valid(Ingest(t, ms).value) && Extends(t, Ingest(t, ms).value)
    decreases |ms|
  {
    if ms == [] {
      ExtendsItself(t);
    } else {
      var t1 := Insert(t, ms[0]).value;
      SequencedHead(t, ms);
      InsertKeepsValid(t, ms[0]);
      SequencedTail(t, ms);
      IngestKeepsValid(t1, ms[1..]);
      InsertExtends(t, ms[0]);
      ExtendsTransitive(t, t1, Ingest(t, ms).value);
    }
  }

  lemma SequencedHead(t: Tables, ms: seq<MessageRow>)
    requires ms != [] && Sequenced(t.messages, ms)
    ensures Sequenced(t.messages, [ms[0]])
  {
    assert ms[0] in ms;
  }

  lemma SequencedTail(t: Tables, ms: seq<MessageRow>)
    requires ms != [] && Sequenced(t.messages, ms) && Insert(t, ms[0]).Some?
    ensures Sequenced(Insert(t, ms[0]).value.messages, ms[1..])
  {
    assert forall m :: m in ms[1..] ==> m in ms;
    assert forall j :: 0 <= j < |ms[1..]| ==> ms[1..][j] == ms[j + 1];
    var log := t.messages + [ms[0].(id := t.lastId + 1)];
    forall m, x | m in ms[1..] && x in log
      ensures x.seqNo < m.seqNo
    {
      var j :| 0 <= j < |ms[1..]| && ms[1..][j] == m;
    }
  }

  // ---------------------------------------------------------------- replacing a range

  /** The references that remain when the rows with ordinals in [start, end) give way to one summary. */
  function RebuildRefs(rows: seq<ContextRow>, start: int, end: int, sid: string): seq<Ref> {
    if rows == [] then []
    else
      var r := rows[|rows| - 1];
      RebuildRefs(rows[..|rows| - 1], start, end, sid) +
      (if start <= r.ordinal < end then (if r.ordinal == start then [Sum(sid)] else []) else [r.ref])
  }

  /** One transaction: None where a key or foreign-key constraint rejects a row. */
  function Replace(t: Tables, start: int, end: int, s: Summary): Option<Tables> {
    var rebuilt := Number(RebuildRefs(t.items, start, end, s.sid));
    if s.sid in t.summaries then None
    else if s.row.kind == Leaf then
      if NoDup(s.sources) && forall x :: x in s.sources ==> x in Ids(t.messages) then
        Some(t.(summaries := t.summaries[s.sid := s.row], sources := t.sources[s.sid := s.sources], items := rebuilt))
      else None
    else
      if NoDup(s.parents) && forall p :: p in s.parents ==> p in t.summaries || p == s.sid then
        Some(t.(summaries := t.summaries[s.sid := s.row], parents := t.parents[s.sid := s.parents], items := rebuilt))
      else None
  }

  /** On a dense list the rebuild puts the summary exactly where the range was. */
  lemma {:induction false} RebuildSplices(rows: seq<ContextRow>, start: nat, end: nat, sid: string)
    requires Dense(rows) && start < end <= |rows|
    ensures RebuildRefs(rows, start, end, sid) == Refs(rows)[..start] + [Sum(sid)] + Refs(rows)[end..]
  {
    var n := |rows| - 1;
    var refs, init := Refs(rows), Refs(rows[..n]);
    assert refs == init + [rows[n].ref];
    if end <= n {
      RebuildSplices(rows[..n], start, end, sid);
      SnocSlices(init, rows[n].ref, start, end, [Sum(sid)]);
    } else {
      RebuildInside(rows[..n], start, end, sid);
      if start == n {
        RebuildBefore(rows[..n], start, end, sid);
        assert refs[..start] == init;
      } else {
        assert refs[..start] == init[..start];
      }
      assert refs[end..] == [];
    }
  }

  lemma SnocSlices<T>(s: seq<T>, x: T, a: nat, b: nat, mid: seq<T>)
    requires a <= b <= |s|
    ensures (s[..a] + mid + s[b..]) + [x] == (s + [x])[..a] + mid + (s + [x])[b..]
  {
  }

  lemma {:induction false} RebuildBefore(rows: seq<ContextRow>, start: nat, end: nat, sid: string)
    requires Dense(rows) && |rows| <= start
    ensures RebuildRefs(rows, start, end, sid) == Refs(rows)
  {
    if rows != [] {
      var n := |rows| - 1;
      RebuildBefore(rows[..n], start, end, sid);
      assert Refs(rows) == Refs(rows[..n]) + [rows[n].ref];
    }
  }

  lemma {:induction false} RebuildInside(rows: seq<ContextRow>, start: nat, end: nat, sid: string)
    requires Dense(rows) && start < end && |rows| <= end
    ensures start < |rows| ==> RebuildRefs(rows, start, end, sid) == Refs(rows)[..start] + [Sum(sid)]
  {
    if start < |rows| {
      var n := |rows| - 1;
      if start == n {
        RebuildBefore(rows[..n], start, end, sid);
        assert Refs(rows)[..n] == Refs(rows[..n]);
      } else {
        RebuildInside(rows[..n], start, end, sid);
        assert Refs(rows)[..start] == Refs(rows[..n])[..start];
      }
    }
  }

  /** A summary that stands for exactly the references [a, b) of the context list. */
  predicate Covers(t: Tables, a: nat, b: nat, s: Summary) {
    && a < b <= |t.items|
    && s.sid !in t.summaries
    && match s.row.kind
       case Leaf =>
         && |s.sources| == b - a && s.row.descendants == 0
         && forall i :: a <= i < b ==> t.items[i].ref == Msg(s.sources[i - a])
       case Condensed =>
         && |s.parents| == b - a && s.row.descendants == b - a
         && (forall i :: a <= i < b ==> t.items[i].ref == Sum(s.parents[i - a]) && IsLeaf(t, t.items[i].ref))
         && IsHull(t.summaries, s.parents, s.row.earliest, s.row.latest)
  }

  /** `t2` is `t` with `s` stored and the references [a, b) replaced by it. */
  predicate Spliced(t: Tables, a: nat, b: nat, s: Summary, t2: Tables) {
    && a <= b <= |t.items|
    && t2.messages == t.messages && t2.lastId == t.lastId
    && t2.summaries == t.summaries[s.sid := s.row]
    && (if s.row.kind == Leaf
        then t2.sources == t.sources[s.sid := s.sources] && t2.parents == t.parents
        else t2.sources == t.sources && t2.parents == t.parents[s.sid := s.parents])
    && Dense(t2.items)
    && Refs(t2.items) == Refs(t.items)[..a] + [Sum(s.sid)] + Refs(t.items)[b..]
  }

  lemma ReplaceSplices(t: Tables, a: nat, b: nat, s: Summary)
    requires Dense(t.items) && a < b <= |t.items| && Replace(t, a, b, s).Some?
    ensures Spliced(t, a, b, s, Replace(t, a, b, s).value)
  {
    RebuildSplices(t.items, a, b, s.sid);
  }

  lemma LeafEdges(t: Tables, a: nat, b: nat, s: Summary)
    requires Lossless(t) && NoDup(Refs(t.items)) && Covers(t, a, b, s) && s.row.kind == Leaf
    ensures NoDup(s.sources) && forall x :: x in s.sources ==> x in Ids(t.messages)
  {
    ListedAreLogged(t);
    assert forall i :: 0 <= i < |s.sources| ==> Refs(t.items)[a + i] == Msg(s.sources[i]);
  }

  lemma CondensedEdges(t: Tables, a: nat, b: nat, s: Summary)
    requires Linked(t) && NoDup(Refs(t.items)) && Covers(t, a, b, s) && s.row.kind == Condensed
    ensures NoDup(s.parents) && forall p :: p in s.parents ==> p in t.sources && p in t.summaries
  {
    var refs := Refs(t.items);
    forall i | 0 <= i < |s.parents|
      ensures refs[a + i] == Sum(s.parents[i]) && s.parents[i] in t.sources
    {
      assert IsLeaf(t, t.items[a + i].ref);
    }
  }

  lemma CoverAccepted(t: Tables, a: nat, b: nat, s: Summary)
    requires Valid(t) && Covers(t, a, b, s)
    ensures Replace(t, a, b, s).Some?
  {
    if s.row.kind == Leaf {
      LeafEdges(t, a, b, s);
    } else {
      CondensedEdges(t, a, b, s);
    }
  }

  lemma ResolvedRefs(t: Tables, t2: Tables, a: nat, b: nat, sid: string)
    requires Linked(t) && a <= b <= |t.items|
    requires forall s :: s in t.summaries || s == sid ==> s in t2.summaries
    requires Refs(t2.items) == Refs(t.items)[..a] + [Sum(sid)] + Refs(t.items)[b..]
    ensures forall i :: 0 <= i < |t2.items| && t2.items[i].ref.Sum? ==> t2.items[i].ref.sid in t2.summaries
  {
    assert forall r :: r in Refs(t.items) && r.Sum? ==> r.sid in t.summaries;
    assert forall r :: r in Refs(t2.items) && r.Sum? ==> r.sid in t2.summaries;
    forall i | 0 <= i < |t2.items| && t2.items[i].ref.Sum?
      ensures t2.items[i].ref.sid in t2.summaries
    {
      assert Refs(t2.items)[i] in Refs(t2.items);
    }
  }

  lemma ReplaceLinked(t: Tables, a: nat, b: nat, s: Summary, t2: Tables)
    requires Linked(t) && Lossless(t) && NoDup(Refs(t.items)) && Covers(t, a, b, s) && Spliced(t, a, b, s, t2)
    ensures Linked(t2)
  {
    if s.row.kind == Leaf {
      LeafEdges(t, a, b, s);
    } else {
      CondensedEdges(t, a, b, s);
    }
    ResolvedRefs(t, t2, a, b, s.sid);
  }

  lemma {:induction false} LeafStandsForRun(t: Tables, a: nat, b: nat, s: Summary)
    requires Covers(t, a, b, s) && s.row.kind == Leaf
    ensures Expand(t, Refs(t.items)[a..b]) == s.sources
  {
    var run := Refs(t.items)[a..b];
    assert forall i :: 0 <= i < |run| ==> run[i] == Msg(s.sources[i]);
    ExpandMessages(t, run);
  }

  lemma {:induction false} CondensedStandsForRun(t: Tables, a: nat, b: nat, s: Summary)
    requires t.sources.Keys + t.parents.Keys == t.summaries.Keys
    requires forall c :: c in t.parents ==> c in t.summaries && t.summaries[c].kind == Condensed
    requires Covers(t, a, b, s) && s.row.kind == Condensed
    ensures Expand(t, Refs(t.items)[a..b]) == UnderLeaves(t.sources, s.parents)
  {
    var run := Refs(t.items)[a..b];
    forall i | 0 <= i < |run|
      ensures run[i] == Sum(s.parents[i]) && s.parents[i] in t.sources
    {
      assert IsLeaf(t, t.items[a + i].ref);
    }
    ExpandLeaves(t, run, s.parents);
  }

  lemma SplicedKeeps(t: Tables, a: nat, b: nat, s: Summary, t2: Tables)
    requires Linked(t) && s.sid !in t.summaries && Spliced(t, a, b, s, t2)
    ensures Keeps(t, t2) && (s.row.kind == Condensed ==> s.sid !in t2.sources)
    ensures forall r :: r in Refs(t.items) && r.Sum? ==> r.sid in t.summaries
  {
  }

  lemma {:induction false} ReplaceLossless(t: Tables, a: nat, b: nat, s: Summary, t2: Tables)
    requires Linked(t) && Lossless(t) && Covers(t, a, b, s) && Spliced(t, a, b, s, t2)
    ensures Lossless(t2)
  {
    SplicedKeeps(t, a, b, s, t2);
    if s.row.kind == Leaf {
      LeafStandsForRun(t, a, b, s);
    } else {
      CondensedStandsForRun(t, a, b, s);
    }
    assert ExpandRef(t2, Sum(s.sid)) == Expand(t, Refs(t.items)[a..b]);
    ExpandSplice(t, t2, Refs(t.items), a, b, Sum(s.sid));
  }

  lemma SpliceNoDup<T>(r: seq<T>, a: nat, b: nat, x: T)
    requires NoDup(r) && x !in r && a <= b <= |r|
    ensures NoDup(r[..a] + [x] + r[b..])
    ensures forall y :: y in r[..a] + [x] + r[b..] ==> y == x || (y in r && y !in r[a..b])
  {
  }

  lemma {:induction false} ReplaceForest(t: Tables, a: nat, b: nat, s: Summary, t2: Tables)
    requires Valid(t) && Covers(t, a, b, s) && Spliced(t, a, b, s, t2)
    ensures Forest(t2)
  {
    hide Linked, Lossless, Annotated, MessagesInOrder, Forest, Covers, Spliced;
    if s.row.kind == Leaf {
      ReplaceLeafForest(t, a, b, s, t2);
    } else {
      ReplaceCondensedForest(t, a, b, s, t2);
    }
  }

  lemma FreshRef(t: Tables, sid: string)
    requires Linked(t) && sid !in t.summaries
    ensures Sum(sid) !in Refs(t.items)
  {
  }

  lemma ReplaceLeafForest(t: Tables, a: nat, b: nat, s: Summary, t2: Tables)
    requires Linked(t) && Lossless(t) && Forest(t) && s.row.kind == Leaf
    requires Covers(t, a, b, s) && Spliced(t, a, b, s, t2)
    ensures Forest(t2)
  {
    hide Lossless, Dense;
    var run := Refs(t.items)[a..b];
    FreshRef(t, s.sid);
    SpliceNoDup(Refs(t.items), a, b, Sum(s.sid));
    LeafEdges(t, a, b, s);
    assert forall i :: 0 <= i < |s.sources| ==> run[i] == Msg(s.sources[i]);
    LeafForest(t, run, s, t2);
  }

  lemma ReplaceCondensedForest(t: Tables, a: nat, b: nat, s: Summary, t2: Tables)
    requires Linked(t) && Forest(t) && s.row.kind == Condensed
    requires Covers(t, a, b, s) && Spliced(t, a, b, s, t2)
    ensures Forest(t2)
  {
    hide Dense, IsHull;
    var run := Refs(t.items)[a..b];
    FreshRef(t, s.sid);
    SpliceNoDup(Refs(t.items), a, b, Sum(s.sid));
    CondensedEdges(t, a, b, s);
    assert forall i :: 0 <= i < |s.parents| ==> run[i] == Sum(s.parents[i]);
    CondensedForest(t, run, s, t2);
  }

  lemma LeafForest(t: Tables, run: seq<Ref>, s: Summary, t2: Tables)
    requires Linked(t) && Forest(t) && s.sid !in t.summaries
    requires t2.parents == t.parents && t2.sources == t.sources[s.sid := s.sources]
    requires NoDup(s.sources) && |run| == |s.sources|
    requires forall i :: 0 <= i < |run| ==> run[i] == Msg(s.sources[i]) && run[i] in Refs(t.items)
    requires NoDup(Refs(t2.items))
    requires forall y :: y in Refs(t2.items) ==> y == Sum(s.sid) || (y in Refs(t.items) && y !in run)
    ensures Forest(t2)
  {
    forall x | x in s.sources
      ensures Msg(x) in run && Msg(x) in Refs(t.items)
    {
      var i :| 0 <= i < |run| && s.sources[i] == x;
      assert run[i] == Msg(x);
    }
  }

  lemma CondensedForest(t: Tables, run: seq<Ref>, s: Summary, t2: Tables)
    requires Linked(t) && Forest(t) && s.sid !in t.summaries
    requires t2.sources == t.sources && t2.parents == t.parents[s.sid := s.parents]
    requires NoDup(s.parents) && |run| == |s.parents|
    requires forall i :: 0 <= i < |run| ==> run[i] == Sum(s.parents[i]) && run[i] in Refs(t.items)
    requires NoDup(Refs(t2.items)) && s.sid !in s.parents
    requires forall y :: y in Refs(t2.items) ==> y == Sum(s.sid) || (y in Refs(t.items) && y !in run)
    ensures Forest(t2)
  {
    forall x | x in s.parents
      ensures Sum(x) in run && Sum(x) in Refs(t.items)
    {
      var i :| 0 <= i < |run| && s.parents[i] == x;
      assert run[i] == Sum(x);
    }
  }

  lemma ReplaceAnnotated(t: Tables, s: Summary, t2: Tables)
    requires Linked(t) && Annotated(t) && s.sid !in t.summaries && Linked(t2)
    requires t2.summaries == t.summaries[s.sid := s.row]
    requires if s.row.kind == Leaf
             then t2.sources == t.sources[s.sid := s.sources] && t2.parents == t.parents && s.row.descendants == 0
             else t2.sources == t.sources && t2.parents == t.parents[s.sid := s.parents]
                  && s.row.descendants == |s.parents| && IsHull(t.summaries, s.parents, s.row.earliest, s.row.latest)
    ensures Annotated(t2)
  {
    hide IsHull, Dense;
    forall c | c in t2.parents
      ensures t2.summaries[c].descendants == |t2.parents[c]|
      ensures IsHull(t2.summaries, t2.parents[c], t2.summaries[c].earliest, t2.summaries[c].latest)
    {
      var row := t2.summaries[c];
      HullKept(t.summaries, s.sid, s.row, t2.parents[c], row.earliest, row.latest);
    }
  }

  lemma HullKept(m: map<string, SummaryRow>, sid: string, row: SummaryRow, ps: seq<string>, lo: int, hi: int)
    requires sid !in m && IsHull(m, ps, lo, hi)
    ensures IsHull(m[sid := row], ps, lo, hi)
  {
    var p :| p in ps && p in m && m[p].earliest == lo;
    var q :| q in ps && q in m && m[q].latest == hi;
    assert m[sid := row][p].earliest == lo && m[sid := row][q].latest == hi;
  }

  /** Replacing a run of messages by a leaf, or of leaves by a condensed summary, is always accepted, keeps
      the log, the losslessness and the DAG, and touches no other item. */
  lemma {:induction false} ReplaceKeepsValid(t: Tables, a: nat, b: nat, s: Summary)
    requires Valid(t) && Covers(t, a, b, s)
    ensures Replace(t, a, b, s).Some?
    ensures var t2 := Replace(t, a, b, s).value;
            && Valid(t2) && t2.messages == t.messages
            && Refs(t2.items) == Refs(t.items)[..a] + [Sum(s.sid)] + Refs(t.items)[b..]
  {
    CoverAccepted(t, a, b, s);
    var t2 := Replace(t, a, b, s).value;
    ReplaceSplices(t, a, b, s);
    ReplaceLinked(t, a, b, s, t2);
    ReplaceLossless(t, a, b, s, t2);
    ReplaceForest(t, a, b, s, t2);
    ReplaceAnnotated(t, s, t2);
  }

  /** What a plan made before some appends covers, it still covers after them. */
  lemma CoversAfterAppends(t: Tables, t2: Tables, a: nat, b: nat, s: Summary)
    requires Linked(t) && Covers(t, a, b, s) && Extends(t, t2)
    ensures Covers(t2, a, b, s)
  {
    assert forall i :: 0 <= i < |t.items| ==> t2.items[i].ref == Refs(t2.items)[i] == Refs(t.items)[i];
  }

  /** Stale snapshot: a replacement planned on `t` and carried out after any number of appends is still
      lossless, and every appended item keeps its place at the end. */
  lemma {:induction false} StaleReplaceKeepsValid(t: Tables, t2: Tables, a: nat, b: nat, s: Summary)
    requires Valid(t) && Covers(t, a, b, s) && Extends(t, t2) && Valid(t2)
    ensures Replace(t2, a, b, s).Some?
    ensures var t3 := Replace(t2, a, b, s).value;
            && Valid(t3) && t3.messages == t2.messages
            && Refs(t3.items) == Refs(t.items)[..a] + [Sum(s.sid)] + Refs(t.items)[b..]
                                 + MsgRefs(t2.messages[|t.messages|..])
  {
    CoversAfterAppends(t, t2, a, b, s);
    ReplaceKeepsValid(t2, a, b, s);
    SliceOfConcat(Refs(t.items), MsgRefs(t2.messages[|t.messages|..]), a, b);
  }

  lemma SliceOfConcat<T>(r: seq<T>, e: seq<T>, a: nat, b: nat)
    requires a <= b <= |r|
    ensures (r + e)[..a] == r[..a] && (r + e)[b..] == r[b..] + e
  {
  }

  // ---------------------------------------------------------------- the DAG

  /** The summaries reachable from `s` along at most `depth` edges of summary_parents. */
  function Below(parents: map<string, seq<string>>, s: string, depth: nat): set<string>
    decreases depth, 0
  {
    if depth == 0 || s !in parents then {} else BelowAll(parents, parents[s], depth - 1)
  }

  function BelowAll(parents: map<string, seq<string>>, ps: seq<string>, depth: nat): set<string>
    decreases depth, 1 + |ps|
  {
    if ps == [] then {}
    else
      var p := ps[|ps| - 1];
      BelowAll(parents, ps[..|ps| - 1], depth) + {p} + Below(parents, p, depth)
  }

  lemma {:induction false} BelowLeaves(parents: map<string, seq<string>>, ps: seq<string>, depth: nat)
    requires forall p :: p in ps ==> p !in parents
    ensures BelowAll(parents, ps, depth) == set p | p in ps
  {
    if ps != [] {
      BelowLeaves(parents, ps[..|ps| - 1], depth);
      assert ps == ps[..|ps| - 1] + [ps[|ps| - 1]];
    }
  }

  lemma {:induction false} DistinctCount<T>(s: seq<T>)
    requires NoDup(s)
    ensures |set x | x in s| == |s|
  {
    if s != [] {
      var init, last := s[..|s| - 1], s[|s| - 1];
      DistinctCount(init);
      assert (set x | x in s) == (set x | x in init) + {last};
    }
  }

  lemma {:induction false} BelowCount(parents: map<string, seq<string>>, c: string, depth: nat)
    requires c in parents && NoDup(parents[c]) && forall p :: p in parents[c] ==> p !in parents
    ensures |Below(parents, c, depth + 1)| == |parents[c]|
  {
    BelowLeaves(parents, parents[c], depth);
    DistinctCount(parents[c]);
  }

  /** descendant_count is the number of proper descendants, however far the edges are followed. */
  lemma {:induction false} DescendantsCounted(t: Tables, s: string, depth: nat)
    requires Valid(t) && s in t.summaries
    ensures t.summaries[s].descendants == |Below(t.parents, s, depth + 1)|
  {
    hide Lossless, Dense, IsHull;
    if s in t.parents {
      BelowCount(t.parents, s, depth);
    }
  }
}
