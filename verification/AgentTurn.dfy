/** The order in which one turn touches the session and the LCM log (processMessage in agent/loop.go). */
module AgentTurn {
  import opened LcmTypes
  import opened LcmTables
  import opened LcmCompaction
  import opened LcmEngine
  import opened Session
  import opened Wrappers

  /** How many messages the import of a session looks at. */
  const BOOTSTRAP_LIMIT := 999999

  /** The log records the first messages of the session, role by role, numbered from 1. */
  predicate Follows(session: seq<Message>, log: seq<MessageRow>) {
    && |log| <= |session| && DenseSeqs(log)
    && forall i :: 0 <= i < |log| ==> log[i].role == session[i].role
  }

  /** The log records the whole session. */
  predicate InStep(session: seq<Message>, log: seq<MessageRow>) {
    Follows(session, log) && |log| == |session|
  }

  /** The import at the start of a turn can close the gap. */
  predicate CanCatchUp(session: seq<Message>, log: seq<MessageRow>)
    requires |log| <= |session|
  {
    |log| == |session| || (|session| <= BOOTSTRAP_LIMIT && LegalRoles(Entries(session[|log|..])))
  }

  /** The gap can stay open: over a role the message table does not admit, and over a session longer than the
      import reads. */
  lemma CannotCatchUp()
    ensures exists session, log :: Follows(session, log) && |session| == 1 && !CanCatchUp(session, log)
    ensures exists session, log :: Follows(session, log) && LegalRoles(Entries(session)) && !CanCatchUp(session, log)
  {
    var odd := [Message("narrator", "", 0, [])];
    assert Entries(odd[0..])[0].role !in ROLES && Entries(odd[0..])[0] in Entries(odd[0..]);
    assert Follows(odd, []) && !CanCatchUp(odd, []);
    var long := seq(BOOTSTRAP_LIMIT + 1, i requires 0 <= i => Message("user", "", 0, []));
    assert Follows(long, []) && LegalRoles(Entries(long)) && !CanCatchUp(long, []);
  }

  lemma FollowsExtended(session: seq<Message>, log: seq<MessageRow>, more: seq<Message>, es: seq<Entry>,
        log2: seq<MessageRow>)
    requires InStep(session, log) && Continues(log, es, log2)
    requires |more| == |es| && forall i :: 0 <= i < |es| ==> more[i].role == es[i].role
    ensures InStep(session + more, log2)
  {
    forall j | 0 <= j < |log2|
      ensures log2[j].seqNo == j + 1 && log2[j].role == (session + more)[j].role
    {
      if j >= |log| {
        assert Records(log2[|log| + (j - |log|)], es[j - |log|], j);
      }
    }
  }

  /** The last messages of a session, as the import reads them. */
  function Window(session: seq<Message>): seq<Entry> {
    Entries(if |session| > BOOTSTRAP_LIMIT then session[|session| - BOOTSTRAP_LIMIT..] else session)
  }

  /** What the import makes of a log, whether it closes the gap or not. */
  predicate Imported(session: seq<Message>, log: seq<MessageRow>, log2: seq<MessageRow>) {
    if |log| < |Window(session)| && LegalRoles(Window(session)[|log|..])
    then Continues(log, Window(session)[|log|..], log2)
    else log2 == log
  }

  /** The import: history, then Bootstrap. */
  method CatchUp(sess: Session, engine: Engine, clock: nat -> int)
    requires Valid(engine.store.T()) && Follows(sess.messages, engine.store.messages)
    modifies engine.store
    ensures Valid(engine.store.T()) && DenseSeqs(engine.store.messages)
    ensures old(engine.store.messages) <= engine.store.messages
    ensures Imported(sess.messages, old(engine.store.messages), engine.store.messages)
    ensures CanCatchUp(sess.messages, old(engine.store.messages)) ==>
              && InStep(sess.messages, engine.store.messages)
              && Continues(old(engine.store.messages), Entries(sess.messages[|old(engine.store.messages)|..]),
                           engine.store.messages)
    ensures !CanCatchUp(sess.messages, old(engine.store.messages)) ==> |engine.store.messages| < |sess.messages|
  {
    hide Valid, Extends, LegalRoles, Follows, InStep, CanCatchUp, DenseSeqs, Continues;
    FollowsDense(sess.messages, engine.store.messages);
    var history := sess.GetHistory(BOOTSTRAP_LIMIT, false);
    ghost var log := engine.store.messages;
    var ok := engine.Bootstrap(history, clock);
    CaughtUp(sess.messages, log, history, ok, engine.store.messages);
  }

  lemma FollowsDense(session: seq<Message>, log: seq<MessageRow>)
    requires Follows(session, log)
    ensures DenseSeqs(log)
  {
  }

  /** What Bootstrap does to the log is what catching up takes. */
  lemma CaughtUp(session: seq<Message>, log: seq<MessageRow>, history: seq<Entry>, ok: bool, log2: seq<MessageRow>)
    requires Follows(session, log)
    requires history == Window(session)
    requires |log| >= |history| ==> log2 == log
    requires |log| < |history| ==>
               && ok == LegalRoles(history[|log|..])
               && if ok then Continues(log, history[|log|..], log2) else log2 == log
    ensures |log| <= |session| && log <= log2
    ensures if CanCatchUp(session, log) then InStep(session, log2) && Continues(log, Entries(session[|log|..]), log2)
            else |log2| < |session|
  {
    hide DenseSeqs, LegalRoles, Continues, Follows;
    var n := |log|;
    FollowsPrefix(session, log);
    if n < |history| && ok {
      ContinuesLength(log, history[n..], log2);
    }
    if n < |session| <= BOOTSTRAP_LIMIT {
      assert history[n..] == Entries(session[n..]);
      if ok {
        assert session[..n] + session[n..] == session;
        FollowsExtended(session[..n], log, session[n..], history[n..], log2);
      }
    } else if n == |session| {
      assert session[..n] == session && Entries(session[n..]) == [];
      ContinuesNothing(log);
    }
  }

  lemma ContinuesNothing(log: seq<MessageRow>)
    ensures Continues(log, [], log)
  {
  }

  lemma {:induction false} ContinuesTwice(log: seq<MessageRow>, es1: seq<Entry>, log1: seq<MessageRow>,
                                          es2: seq<Entry>, log2: seq<MessageRow>)
    requires Continues(log, es1, log1) && Continues(log1, es2, log2)
    ensures Continues(log, es1 + es2, log2)
  {
    hide Records;
    forall i | 0 <= i < |es1 + es2|
      ensures Records(log2[|log| + i], (es1 + es2)[i], |log| + i)
    {
      if i < |es1| {
        assert log2[|log| + i] == log1[|log| + i];
      } else {
        assert Records(log2[|log1| + (i - |es1|)], es2[i - |es1|], |log1| + (i - |es1|));
      }
    }
  }

  lemma FollowsPrefix(session: seq<Message>, log: seq<MessageRow>)
    requires Follows(session, log)
    ensures |log| <= |session| && InStep(session[..|log|], log)
  {
  }

  lemma ContinuesLength(log: seq<MessageRow>, es: seq<Entry>, log2: seq<MessageRow>)
    requires Continues(log, es, log2)
    ensures |log2| == |log| + |es| && log <= log2
  {
  }

  /** The two entries of a completed turn. */
  function TurnEntries(userContent: string, finalContent: string): seq<Entry> {
    [Entry("user", userContent), Entry("assistant", finalContent)]
  }

  function TurnMessages(content: string, finalContent: string, toolNames: seq<string>, now: int): seq<Message> {
    [Message("user", content, now, []), Message("assistant", finalContent, now, toolNames)]
  }

  /** A turn that runs to completion. `content` is what the user sent, `userContent` the same with attached
      documents expanded. Afterwards the log records every message of the session exactly when the import
      could close the gap, and has gained exactly what it was missing and the turn; from then on it always
      does. */
  method CompleteTurn(sess: Session, engine: Engine, content: string, userContent: string, finalContent: string,
                      toolNames: seq<string>, now: int, clock: nat -> int, threshold: int, calls: Calls)
    requires engine.comp.store == engine.store && Valid(engine.store.T())
    requires Follows(sess.messages, engine.store.messages)
    requires AllArrivals(calls) == []
    modifies sess`messages, engine.store
    ensures Valid(engine.store.T()) && DenseSeqs(engine.store.messages)
    ensures sess.messages == old(sess.messages) + TurnMessages(content, finalContent, toolNames, now)
    ensures old(engine.store.messages) <= engine.store.messages
    ensures exists log: seq<MessageRow> ::
              && Imported(old(sess.messages), old(engine.store.messages), log)
              && Continues(log, TurnEntries(userContent, finalContent), engine.store.messages)
    ensures InStep(sess.messages, engine.store.messages) <==> CanCatchUp(old(sess.messages), old(engine.store.messages))
    ensures InStep(sess.messages, engine.store.messages) ==>
              Continues(old(engine.store.messages),
                        Entries(old(sess.messages)[|old(engine.store.messages)|..])
                        + TurnEntries(userContent, finalContent),
                        engine.store.messages)
  {
    hide Valid, Extends, TotalTokens, Compacted, Follows, CanCatchUp, Continues, DenseSeqs, AllArrivals, Imported;
    CatchUp(sess, engine, clock);
    ghost var log, before := engine.store.messages, sess.messages;
    sess.AddMessage("user", content, [], now);
    sess.AddMessage("assistant", finalContent, toolNames, now);
    ghost var more := TurnMessages(content, finalContent, toolNames, now);
    assert sess.messages == before + more;
    var turn := [Entry("user", userContent), Entry("assistant", finalContent)];
    NothingComes(|log| + |turn|);
    var ok, recorded := engine.IngestTurn(turn, clock, threshold, calls);
    assert engine.store.messages == recorded.messages;
    TurnLegal(userContent, finalContent);
    ContinuesLength(log, turn, recorded.messages);
    if CanCatchUp(before, old(engine.store.messages)) {
      FollowsExtended(before, log, more, turn, engine.store.messages);
      ContinuesTwice(old(engine.store.messages), Entries(before[|old(engine.store.messages)|..]), log, turn,
                     engine.store.messages);
    }
  }

  lemma NothingComes(n: nat)
    ensures ComeAfter(n, [])
  {
  }

  lemma TurnLegal(userContent: string, finalContent: string)
    ensures LegalRoles(TurnEntries(userContent, finalContent))
  {
  }

  // ---------------------------------------------------------------- many turns

  /** One inbound message of a session: /new, or a question, which imports and then, unless the tool loop fails,
      is completed. */
  datatype Turn =
    | NewSession
    | Question(content: string, userContent: string, answer: Option<Answered>, now: int, clock: nat -> int,
               threshold: int, calls: Calls)

  datatype Answered = Answered(finalContent: string, toolNames: seq<string>)

  /** What one turn leaves in the log ... */
  function LoggedIn(turn: Turn): seq<Entry> {
    if turn.NewSession? || turn.answer.None? then [] else TurnEntries(turn.userContent, turn.answer.value.finalContent)
  }

  /** ... and in the session. */
  function SaidIn(turn: Turn): seq<Message> {
    if turn.NewSession? || turn.answer.None? then []
    else TurnMessages(turn.content, turn.answer.value.finalContent, turn.answer.value.toolNames, turn.now)
  }

  /** What the turns since the last /new leave in the log ... */
  function Logged(turns: seq<Turn>): seq<Entry> {
    if turns == [] || turns[|turns| - 1].NewSession? then []
    else Logged(turns[..|turns| - 1]) + LoggedIn(turns[|turns| - 1])
  }

  /** ... and in the session. */
  function Said(turns: seq<Turn>): seq<Message> {
    if turns == [] || turns[|turns| - 1].NewSession? then []
    else Said(turns[..|turns| - 1]) + SaidIn(turns[|turns| - 1])
  }

  predicate Undisturbed(turn: Turn) {
    turn.Question? ==> AllArrivals(turn.calls) == []
  }

  /** The log after some turns: what was missing at the start, and every completed turn once, in order, since the
      start or the last /new. */
  ghost predicate RecordsTurns(log0: seq<MessageRow>, missing: seq<Entry>, turns: seq<Turn>, log: seq<MessageRow>) {
    if NewSession in turns then Continues([], Logged(turns), log) else Continues(log0, missing + Logged(turns), log)
  }

  /** Session and log after some turns that began with `messages0` and `log0`. */
  ghost predicate IsAfter(messages0: seq<Message>, log0: seq<MessageRow>, turns: seq<Turn>, session: seq<Message>,
                          log: seq<MessageRow>) {
    && |log0| <= |messages0|
    && session == (if NewSession in turns then [] else messages0) + Said(turns)
    && if turns == [] then log == log0
       else InStep(session, log) && RecordsTurns(log0, Entries(messages0[|log0|..]), turns, log)
  }

  /** Any run of turns that do not overlap, from a log that can catch up: it ends, and therefore every turn ends,
      with session and log in step, and no turn is lost or logged twice. */
  method RunTurns(sess: Session, engine: Engine, turns: seq<Turn>)
    requires engine.comp.store == engine.store && Valid(engine.store.T())
    requires Follows(sess.messages, engine.store.messages) && CanCatchUp(sess.messages, engine.store.messages)
    requires forall turn :: turn in turns ==> Undisturbed(turn)
    modifies sess, engine.store
    ensures Valid(engine.store.T())
    ensures IsAfter(old(sess.messages), old(engine.store.messages), turns, sess.messages, engine.store.messages)
  {
    hide Valid, Follows, CanCatchUp, Continues, DenseSeqs, AllArrivals, IsAfter, InStep;
    ghost var log0, messages0 := engine.store.messages, sess.messages;
    AtStart(messages0, log0);
    for i := 0 to |turns|
      invariant Valid(engine.store.T())
      invariant IsAfter(messages0, log0, turns[..i], sess.messages, engine.store.messages)
      invariant Follows(sess.messages, engine.store.messages) && |engine.store.messages| <= |sess.messages|
      invariant CanCatchUp(sess.messages, engine.store.messages)
    {
      assert turns[..i + 1] == turns[..i] + [turns[i]];
      assert turns[i] in turns && Undisturbed(turns[i]);
      ghost var log, messages := engine.store.messages, sess.messages;
      if turns[i].NewSession? {
        sess.Clear();
        engine.store.DeleteConversation();
        AfterNew(messages0, log0, turns[..i]);
      } else {
        Answer(sess, engine, turns[i]);
        OneMoreTurn(messages0, log0, turns[..i], turns[i], messages, log, sess.messages, engine.store.messages);
      }
      StaysInStep(messages0, log0, turns[..i], turns[i], sess.messages, engine.store.messages);
    }
    assert turns[..|turns|] == turns;
  }

  /** One question: import, and, unless the tool loop fails, the rest of the turn. */
  method Answer(sess: Session, engine: Engine, turn: Turn)
    requires engine.comp.store == engine.store && Valid(engine.store.T())
    requires Follows(sess.messages, engine.store.messages) && |engine.store.messages| <= |sess.messages|
    requires CanCatchUp(sess.messages, engine.store.messages) && turn.Question? && Undisturbed(turn)
    modifies sess`messages, engine.store
    ensures Valid(engine.store.T()) && InStep(sess.messages, engine.store.messages)
    ensures sess.messages == old(sess.messages) + SaidIn(turn)
    ensures Continues(old(engine.store.messages),
                      Entries(old(sess.messages)[|old(engine.store.messages)|..]) + LoggedIn(turn),
                      engine.store.messages)
  {
    hide Valid, Follows, CanCatchUp, Continues, DenseSeqs, AllArrivals, InStep;
    if turn.answer.Some? {
      CompleteTurn(sess, engine, turn.content, turn.userContent, turn.answer.value.finalContent,
                   turn.answer.value.toolNames, turn.now, turn.clock, turn.threshold, turn.calls);
    } else {
      ghost var missing := Entries(sess.messages[|engine.store.messages|..]);
      CatchUp(sess, engine, turn.clock);
      assert missing + [] == missing;
    }
  }

  lemma AtStart(messages0: seq<Message>, log0: seq<MessageRow>)
    requires Follows(messages0, log0)
    ensures |log0| <= |messages0| && IsAfter(messages0, log0, [], messages0, log0)
  {
  }

  lemma StaysInStep(messages0: seq<Message>, log0: seq<MessageRow>, turns: seq<Turn>, turn: Turn,
                    session: seq<Message>, log: seq<MessageRow>)
    requires IsAfter(messages0, log0, turns + [turn], session, log)
    ensures Follows(session, log) && |log| == |session| && CanCatchUp(session, log)
  {
    hide RecordsTurns;
  }

  lemma AfterNew(messages0: seq<Message>, log0: seq<MessageRow>, turns: seq<Turn>)
    requires |log0| <= |messages0|
    ensures IsAfter(messages0, log0, turns + [NewSession], [], [])
  {
    var all := turns + [NewSession];
    assert all[|turns|] == NewSession && Logged(all) == [] && Said(all) == [];
  }

  lemma OneMoreTurn(messages0: seq<Message>, log0: seq<MessageRow>, turns: seq<Turn>, turn: Turn,
                    messages: seq<Message>, log: seq<MessageRow>, messages2: seq<Message>, log2: seq<MessageRow>)
    requires IsAfter(messages0, log0, turns, messages, log) && |log| <= |messages| && turn.Question?
    requires messages2 == messages + SaidIn(turn) && InStep(messages2, log2)
    requires Continues(log, Entries(messages[|log|..]) + LoggedIn(turn), log2)
    ensures IsAfter(messages0, log0, turns + [turn], messages2, log2)
  {
    hide Continues, LoggedIn, SaidIn, Follows, Logged, Said;
    OneMoreSaid(turns, turn);
    Regroup(if NewSession in turns then [] else messages0, Said(turns), SaidIn(turn));
    if turns == [] {
      NothingSaid();
      assert messages0 + [] == messages0;
    } else {
      NothingMissing(messages, log, LoggedIn(turn));
    }
    OneMoreRecorded(log0, Entries(messages0[|log0|..]), turns, turn, log, log2);
  }

  lemma NothingMissing(messages: seq<Message>, log: seq<MessageRow>, es: seq<Entry>)
    requires |log| == |messages|
    ensures Entries(messages[|log|..]) + es == es
  {
  }

  lemma NothingSaid()
    ensures Said([]) == [] && Logged([]) == []
  {
  }

  lemma OneMoreSaid(turns: seq<Turn>, turn: Turn)
    requires turn.Question?
    ensures Said(turns + [turn]) == Said(turns) + SaidIn(turn)
    ensures Logged(turns + [turn]) == Logged(turns) + LoggedIn(turn)
    ensures NewSession in turns + [turn] <==> NewSession in turns
  {
    hide SaidIn, LoggedIn;
    assert (turns + [turn])[..|turns|] == turns;
  }

  lemma OneMoreRecorded(log0: seq<MessageRow>, missing: seq<Entry>, turns: seq<Turn>, turn: Turn,
                        log: seq<MessageRow>, log2: seq<MessageRow>)
    requires turn.Question?
    requires if turns == [] then Continues(log0, missing + LoggedIn(turn), log2)
             else RecordsTurns(log0, missing, turns, log) && Continues(log, LoggedIn(turn), log2)
    ensures RecordsTurns(log0, missing, turns + [turn], log2)
  {
    hide Continues, LoggedIn, Logged;
    OneMoreSaid(turns, turn);
    if turns == [] {
      NothingSaid();
      assert [] + LoggedIn(turn) == LoggedIn(turn);
    } else if NewSession in turns {
      ContinuesTwice([], Logged(turns), log, LoggedIn(turn), log2);
    } else {
      ContinuesTwice(log0, missing + Logged(turns), log, LoggedIn(turn), log2);
      Regroup(missing, Logged(turns), LoggedIn(turn));
    }
  }

  lemma Regroup<T>(a: seq<T>, b: seq<T>, c: seq<T>)
    ensures a + b + c == a + (b + c)
  {
  }
}
