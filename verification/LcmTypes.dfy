/** Rows and tables of the LCM store, with the token estimator (lcm/types.go, lcm/store.go, lcm/assembler.go).

    A `string` here is a Go string: one `char` per byte, so `|s|` is Go's `len(s)`. */
module LcmTypes {

  import opened Wrappers

  /** lcm.Config. The context threshold, a float, is passed to its users as the integer it scales to. */
  datatype Config = Config(
    freshTailCount: int,
    leafMinFanout: int,
    condensedMinFanout: int,
    leafChunkTokens: int,
    leafTargetTokens: nat,
    condensedTargetTokens: nat,
    incrementalMaxDepth: int)

  /** A row of `messages`. */
  datatype MessageRow = MessageRow(
    id: int, seqNo: int, role: string, content: string, tokens: nat, createdAt: int)

  /** What a row of `context_items` points at: exactly one of message_id and summary_id is not null. */
  datatype Ref = Msg(id: int) | Sum(sid: string)

  datatype ContextRow = ContextRow(ordinal: int, ref: Ref)

  datatype Kind = Leaf | Condensed

  /** A row of `summaries`. */
  datatype SummaryRow = SummaryRow(
    kind: Kind, depth: nat, content: string, tokens: nat, earliest: int, latest: int, descendants: nat)

  /** lcm.Summary as handed to ReplaceContextRange: a row with its id and its edges. */
  datatype Summary = Summary(sid: string, row: SummaryRow, sources: seq<int>, parents: seq<string>)

  /** lcm.ContextItem: a context row joined with what it points at. */
  datatype ContextItem = ContextItem(
    ordinal: int, ref: Ref, role: string, content: string,
    kind: Option<Kind>, depth: nat, descendants: nat, earliest: int, latest: int)

  /** The tables of one conversation. `sources` and `parents` are summary_messages and summary_parents,
      each summary's edges in `ordinal` order; `lastId` is the last message id the database handed out. */
  datatype Tables = Tables(
    messages: seq<MessageRow>,
    summaries: map<string, SummaryRow>,
    sources: map<string, seq<int>>,
    parents: map<string, seq<string>>,
    items: seq<ContextRow>,
    lastId: int)

  const DEFAULT_FRESH_TAIL := 32
  const TRUNCATION_NOTE := "[Truncated for context management]"

  function FreshTail(cfg: Config): (f: nat)
    ensures f >= 1 && (cfg.freshTailCount > 0 ==> f == cfg.freshTailCount) && (cfg.freshTailCount <= 0 ==> f == 32)
  {
    if cfg.freshTailCount <= 0 then DEFAULT_FRESH_TAIL else cfg.freshTailCount
  }

  /** Four bytes to a token, a token begun counts. */
  function EstimateTokens(s: string): (tok: nat)
    ensures |s| <= 4 * tok < |s| + 4
  {
    (|s| + 3) / 4
  }

  function TruncateFallback(s: string, maxTokens: nat): (r: string)
    ensures |s| <= 4 * maxTokens ==> r == s
    ensures |s| > 4 * maxTokens ==>
              s[..4 * maxTokens] <= r && |r| >= |TRUNCATION_NOTE| && r[|r| - |TRUNCATION_NOTE|..] == TRUNCATION_NOTE
    ensures |s| > 4 * maxTokens ==> |r| > |TRUNCATION_NOTE| && r[|r| - |TRUNCATION_NOTE| - 1] == '\n'
    ensures |s| > 4 * maxTokens > 0 && s[4 * maxTokens - 1] == '\n' ==> |r| == 4 * maxTokens + |TRUNCATION_NOTE|
    ensures |r| <= |s| + 1 + |TRUNCATION_NOTE| && EstimateTokens(r) <= maxTokens + 9
  {
    var maxChars := maxTokens * 4;
    if |s| <= maxChars then s
    else
      var truncated := s[..maxChars];
      var line := if maxChars > 0 && truncated[maxChars - 1] == '\n' then truncated else truncated + "\n";
      line + TRUNCATION_NOTE
  }

  function Refs(items: seq<ContextRow>): (r: seq<Ref>)
    ensures |r| == |items| && forall i :: 0 <= i < |r| ==> r[i] == items[i].ref
  {
    seq(|items|, i requires 0 <= i < |items| => items[i].ref)
  }

  function Ids(ms: seq<MessageRow>): (r: seq<int>)
    ensures |r| == |ms| && forall i :: 0 <= i < |r| ==> r[i] == ms[i].id
  {
    seq(|ms|, i requires 0 <= i < |ms| => ms[i].id)
  }

  /** Rows numbered 0, 1, 2, ... in order. */
  function Number(refs: seq<Ref>): (rows: seq<ContextRow>)
    ensures |rows| == |refs| && Refs(rows) == refs
    ensures Dense(rows)
  {
    seq(|refs|, i requires 0 <= i < |refs| => ContextRow(i, refs[i]))
  }

  predicate Dense(rows: seq<ContextRow>) {
    forall i :: 0 <= i < |rows| ==> rows[i].ordinal == i
  }

  predicate Ordered(ms: seq<MessageRow>) {
    forall i, j :: 0 <= i < j < |ms| ==> ms[i].id < ms[j].id && ms[i].seqNo < ms[j].seqNo
  }

  predicate NoDup<T(==)>(s: seq<T>) {
    forall i, j :: 0 <= i < j < |s| ==> s[i] != s[j]
  }

  function TokenSum(ms: seq<MessageRow>): nat {
    if ms == [] then 0 else TokenSum(ms[..|ms| - 1]) + ms[|ms| - 1].tokens
  }
}
