/** Cutting the context to the token budget (lcm/assembler.go). */
module LcmAssembler {
  import opened LcmTypes
  import opened LcmTables
  import opened LcmPlan

  const ITEM_OVERHEAD := 10

  function TailCost(items: seq<ContextItem>): nat {
    if items == [] then 0
    else
      var it := items[|items| - 1];
      TailCost(items[..|items| - 1]) + EstimateTokens(it.content) + (if it.role != "" then ITEM_OVERHEAD else 0)
  }

  /** The cost of items[k..]: the protected ones from freshStart on, and every older one. */
  function SuffixCost(items: seq<ContextItem>, freshStart: nat, k: nat): nat
    requires k <= freshStart <= |items|
    decreases freshStart - k
  {
    if k == freshStart then TailCost(items[freshStart..])
    else SuffixCost(items, freshStart, k + 1) + EstimateTokens(items[k].content) + ITEM_OVERHEAD
  }

  function FreshStart(cfg: Config, n: nat): (s: nat)
    ensures s <= n && n - s == if n <= FreshTail(cfg) then n else FreshTail(cfg)
  {
    if n <= FreshTail(cfg) then 0 else n - FreshTail(cfg)
  }

  /** The threshold in force: the scaled one (maxContextTokens times the configured fraction, truncated)
      unless that is not positive. */
  function EffectiveThreshold(scaled: int, maxContextTokens: int): (t: int)
    ensures scaled > 0 ==> t == scaled
    ensures scaled <= 0 ==> t == maxContextTokens
  {
    if scaled <= 0 then maxContextTokens else scaled
  }

  /** items[k..] is the longest suffix with the fresh tail that fits, or just the tail if that alone does not
      leave any budget. */
  ghost predicate IsCut(cfg: Config, items: seq<ContextItem>, threshold: int, k: nat) {
    var s := FreshStart(cfg, |items|);
    && k <= s
    && (if SuffixCost(items, s, s) >= threshold then k == s
        else
          && SuffixCost(items, s, k) <= threshold
          && forall j :: 0 <= j < k ==> SuffixCost(items, s, j) > threshold)
  }

  /** When the protected items have roles, as those of legal messages and of summaries do, a suffix costs what its
      contents are estimated at and ten tokens an item. */
  lemma {:induction false} SuffixCostMeaning(items: seq<ContextItem>, s: nat, k: nat)
    requires k <= s <= |items| && forall i :: s <= i < |items| ==> items[i].role != ""
    ensures SuffixCost(items, s, k) == ContentTokens(items[k..]) + 10 * (|items| - k)
    decreases s - k
  {
    if k == s {
      TailCostMeaning(items[s..]);
    } else {
      SuffixCostMeaning(items, s, k + 1);
      ContentTokensConcat([items[k]], items[k + 1..]);
      assert items[k..] == [items[k]] + items[k + 1..];
    }
  }

  lemma {:induction false} TailCostMeaning(items: seq<ContextItem>)
    requires forall i :: 0 <= i < |items| ==> items[i].role != ""
    ensures TailCost(items) == ContentTokens(items) + 10 * |items|
  {
    if items != [] {
      TailCostMeaning(items[..|items| - 1]);
    }
  }

  lemma {:induction false} CostGrows(items: seq<ContextItem>, s: nat, j: nat, k: nat)
    requires j < k <= s <= |items|
    ensures SuffixCost(items, s, j) >= SuffixCost(items, s, k) + ITEM_OVERHEAD
    decreases k - j
  {
    if j + 1 < k {
      CostGrows(items, s, j + 1, k);
    }
  }

  method CountTail(tail: seq<ContextItem>) returns (tailTokens: nat)
    ensures tailTokens == TailCost(tail)
  {
    tailTokens := 0;
    for i := 0 to |tail|
      invariant tailTokens == TailCost(tail[..i])
    {
      assert tail[..i + 1][..i] == tail[..i];
      tailTokens := tailTokens + EstimateTokens(tail[i].content);
      if tail[i].role != "" {
        tailTokens := tailTokens + ITEM_OVERHEAD;
      }
    }
    assert tail[..|tail|] == tail;
  }

  /** The newest of the older items that fit the budget. */
  method FillBudget(items: seq<ContextItem>, freshStart: nat, budget: nat) returns (k: nat, out: seq<ContextItem>)
    requires freshStart <= |items|
    ensures k <= freshStart && out == items[k..freshStart]
    ensures var tail := TailCost(items[freshStart..]);
            && SuffixCost(items, freshStart, k) <= tail + budget
            && (k > 0 ==> SuffixCost(items, freshStart, k - 1) > tail + budget)
  {
    out, k := [], freshStart;
    var used := 0;
    while k > 0 && used < budget
      invariant 0 <= k <= freshStart && out == items[k..freshStart]
      invariant SuffixCost(items, freshStart, freshStart) + used == SuffixCost(items, freshStart, k)
      invariant used <= budget
    {
      var tok := EstimateTokens(items[k - 1].content) + ITEM_OVERHEAD;
      if used + tok > budget {
        break;
      }
      used := used + tok;
      out := [items[k - 1]] + out;
      k := k - 1;
    }
  }

  method Assemble(items: seq<ContextItem>, cfg: Config, scaled: int, maxContextTokens: int)
        returns (out: seq<ContextItem>)
    ensures |out| <= |items| && out == items[|items| - |out|..]
    ensures IsCut(cfg, items, EffectiveThreshold(scaled, maxContextTokens), |items| - |out|)
  {
    hide IsCut, SuffixCost, TailCost;
    var threshold := if scaled <= 0 then maxContextTokens else scaled;
    var n := |items|;
    if n == 0 {
      NothingToCut(cfg, items, threshold);
      return [];
    }
    var freshStart := if n - FreshTail(cfg) < 0 then 0 else n - FreshTail(cfg);
    var tailTokens := CountTail(items[freshStart..]);
    var budget := threshold - tailTokens;
    if budget <= 0 {
      JustTheTail(cfg, items, threshold);
      return items[freshStart..];
    }
    var k;
    k, out := FillBudget(items, freshStart, budget);
    CutFound(cfg, items, threshold, k);
    out := out + items[freshStart..];
    assert out == items[k..];
  }

  lemma NothingToCut(cfg: Config, items: seq<ContextItem>, threshold: int)
    requires items == []
    ensures IsCut(cfg, items, threshold, 0)
  {
  }

  lemma JustTheTail(cfg: Config, items: seq<ContextItem>, threshold: int)
    requires TailCost(items[FreshStart(cfg, |items|)..]) >= threshold
    ensures IsCut(cfg, items, threshold, FreshStart(cfg, |items|))
  {
    hide TailCost;
  }

  lemma CutFound(cfg: Config, items: seq<ContextItem>, threshold: int, k: nat)
    requires var s := FreshStart(cfg, |items|);
             && k <= s && TailCost(items[s..]) < threshold
             && SuffixCost(items, s, k) <= threshold && (k > 0 ==> SuffixCost(items, s, k - 1) > threshold)
    ensures IsCut(cfg, items, threshold, k)
  {
    hide TailCost;
    OlderCostMore(items, FreshStart(cfg, |items|), k, threshold);
  }

  lemma {:induction false} OlderCostMore(items: seq<ContextItem>, s: nat, k: nat, threshold: int)
    requires k <= s <= |items| && (k > 0 ==> SuffixCost(items, s, k - 1) > threshold)
    ensures forall j :: 0 <= j < k ==> SuffixCost(items, s, j) > threshold
  {
    forall j | 0 <= j < k
      ensures SuffixCost(items, s, j) > threshold
    {
      if j < k - 1 {
        CostGrows(items, s, j, k - 1);
      }
    }
  }

  lemma {:induction false} CutUnique(cfg: Config, items: seq<ContextItem>, threshold: int, j: nat, k: nat)
    requires IsCut(cfg, items, threshold, j) && IsCut(cfg, items, threshold, k)
    ensures j == k
  {
    CutMonotone(cfg, items, threshold, j, threshold, k);
    CutMonotone(cfg, items, threshold, k, threshold, j);
  }

  /** A larger threshold never drops an item a smaller one kept. */
  lemma {:induction false} CutMonotone(cfg: Config, items: seq<ContextItem>, small: int, j: nat, large: int, k: nat)
    requires small <= large && IsCut(cfg, items, small, j) && IsCut(cfg, items, large, k)
    ensures k <= j
  {
  }

  /** Whatever the budget, the assembled items stand for a suffix of the message log, without a gap. */
  lemma {:induction false} CutCoversLogSuffix(cfg: Config, t: Tables, threshold: int, k: nat)
    requires Valid(t) && IsCut(cfg, View(t), threshold, k)
    ensures var shown := Expand(t, Refs(t.items)[k..]);
            |shown| <= |t.messages| && shown == Ids(t.messages)[|t.messages| - |shown|..]
  {
    hide Linked, Forest, Annotated, MessagesInOrder, SuffixCost;
    EndCoversLogEnd(t, k);
  }

  lemma EndCoversLogEnd(t: Tables, k: nat)
    requires Lossless(t) && k <= |t.items|
    ensures var shown := Expand(t, Refs(t.items)[k..]);
            |shown| <= |t.messages| && shown == Ids(t.messages)[|t.messages| - |shown|..]
  {
    hide Expand;
    var refs := Refs(t.items);
    assert refs == refs[..k] + refs[k..];
    ExpandConcat(t, refs[..k], refs[k..]);
  }

  /** What a compaction run leaves untouched at the end, the next assembly shows at the end. */
  lemma TailSurvivesAssembly(cfg: Config, f: nat, t: Tables, t2: Tables, threshold: int, k: nat)
    requires KeepsTail(f, t, t2) && f + (|t2.messages| - |t.messages|) <= FreshTail(cfg)
    requires IsCut(cfg, View(t2), threshold, k)
    ensures var end := LastRefs(Refs(t.items), f) + MsgRefs(t2.messages[|t.messages|..]);
            |end| <= |Refs(t2.items)[k..]| && Refs(t2.items)[k..][|Refs(t2.items)[k..]| - |end|..] == end
  {
    hide SuffixCost, TailKept, LastRefs;
    TailShown(FreshTail(cfg), Refs(t.items), f, MsgRefs(t2.messages[|t.messages|..]), Refs(t2.items), k);
  }

  lemma TailShown(kept: nat, refs: seq<Ref>, f: int, added: seq<Ref>, refs2: seq<Ref>, k: nat)
    requires TailKept(refs, f, added, refs2) && |LastRefs(refs, f) + added| <= kept
    requires k == 0 || k <= |refs2| - kept
    ensures var end := LastRefs(refs, f) + added;
            k + |end| <= |refs2| && refs2[k..][|refs2| - k - |end|..] == end
  {
    hide LastRefs;
    var front: seq<Ref> :| |front| + |LastRefs(refs, f)| <= |refs| && refs2 == front + LastRefs(refs, f) + added;
    assert refs2 == front + (LastRefs(refs, f) + added);
    EndOfSuffix(front, LastRefs(refs, f) + added, refs2, k);
  }

  lemma EndOfSuffix<T>(front: seq<T>, end: seq<T>, all: seq<T>, k: nat)
    requires all == front + end && k + |end| <= |all|
    ensures all[k..][|all| - k - |end|..] == end
  {
  }

  datatype RoleContent = RoleContent(role: string, content: string)

  /** One message per item, in order; `xml` renders a summary. */
  method ItemsToRoleContent(items: seq<ContextItem>, xml: ContextItem -> string) returns (out: seq<RoleContent>)
    ensures |out| == |items|
    ensures forall i :: 0 <= i < |items| ==>
              out[i] == if items[i].ref.Sum? then RoleContent("user", xml(items[i]))
                        else RoleContent(items[i].role, items[i].content)
  {
    out := [];
    for i := 0 to |items|
      invariant |out| == i
      invariant forall j :: 0 <= j < i ==>
                  out[j] == if items[j].ref.Sum? then RoleContent("user", xml(items[j]))
                            else RoleContent(items[j].role, items[j].content)
    {
      if items[i].ref.Sum? {
        out := out + [RoleContent("user", xml(items[i]))];
      } else {
        out := out + [RoleContent(items[i].role, items[i].content)];
      }
    }
  }
}
