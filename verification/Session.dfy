/** The conversation of one session (session/manager.go). */
module Session {

  datatype Message = Message(role: string, content: string, timestamp: int, toolsUsed: seq<string>)

  /** One entry of a history in LLM format. */
  datatype Entry = Entry(role: string, content: string)

  function Entries(ms: seq<Message>): (r: seq<Entry>)
    ensures |r| == |ms| && forall i :: 0 <= i < |r| ==> r[i] == Entry(ms[i].role, ms[i].content)
  {
    seq(|ms|, i requires 0 <= i < |ms| => Entry(ms[i].role, ms[i].content))
  }

  class Session {
    var messages: seq<Message>
    var lastConsolidated: nat

    /** The consolidation mark does not pass the end. */
    ghost predicate Valid()
      reads this
    {
      lastConsolidated <= |messages|
    }

    constructor ()
      ensures Valid() && messages == [] && lastConsolidated == 0
    {
      messages, lastConsolidated := [], 0;
    }

    method AddMessage(role: string, content: string, toolsUsed: seq<string>, now: int)
      modifies this`messages
      ensures messages == old(messages) + [Message(role, content, now, toolsUsed)]
      ensures old(Valid()) ==> Valid()
    {
      messages := messages + [Message(role, content, now, toolsUsed)];
    }

    /** The last maxMessages (all when not positive) of the whole conversation or of its unconsolidated part. */
    method GetHistory(maxMessages: int, fromConsolidated: bool) returns (out: seq<Entry>)
      requires fromConsolidated ==> lastConsolidated <= |messages|
      ensures var part := if fromConsolidated then messages[lastConsolidated..] else messages;
              out == Entries(if maxMessages > 0 && |part| > maxMessages then part[|part| - maxMessages..] else part)
    {
      var start := 0;
      if fromConsolidated && lastConsolidated > 0 {
        start := lastConsolidated;
      }
      var part := messages[start..];
      assert !fromConsolidated ==> part == messages;
      if maxMessages > 0 && |part| > maxMessages {
        part := part[|part| - maxMessages..];
      }
      out := [];
      for i := 0 to |part|
        invariant |out| == i && forall j :: 0 <= j < i ==> out[j] == Entry(part[j].role, part[j].content)
      {
        out := out + [Entry(part[i].role, part[i].content)];
      }
    }

    method Clear()
      modifies this
      ensures Valid() && messages == [] && lastConsolidated == 0
    {
      messages, lastConsolidated := [], 0;
    }

    method SetLastConsolidated(n: nat)
      modifies this`lastConsolidated
      ensures lastConsolidated == n
    {
      lastConsolidated := n;
    }

    /** Messages start..end, both bounds clipped to what there is. */
    method GetMessagesFrom(start: int, end: int) returns (out: seq<Message>)
      ensures var a, b := if start < 0 then 0 else start, if end > |messages| then |messages| else end;
              out == if a >= b then [] else messages[a..b]
    {
      var a, b := if start < 0 then 0 else start, if end > |messages| then |messages| else end;
      if a >= b {
        return [];
      }
      return messages[a..b];
    }
  }
}
