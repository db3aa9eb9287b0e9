/** Consolidation over whole runs of turns of one session (processMessage in agent/loop.go with
    tools/consolidator.go), without LCM. */
module MemoryTurns {
  import opened Wrappers
  import opened Session
  import opened ConsolidationPlan
  import opened Consolidator

  /** One inbound message of a session: /new, or a question, which first consolidates and then, unless the tool
      loop fails, leaves two messages. */
  datatype Turn =
    | NewSession
    | Question(fixed: Option<nat>, worlds: nat -> World, answer: Option<Answered>)

  datatype Answered = Answered(content: string, finalContent: string, toolNames: seq<string>, now: int)

  /** The two messages of a completed turn. */
  function SaidIn(turn: Turn): seq<Message> {
    if turn.NewSession? || turn.answer.None? then []
    else
      var a := turn.answer.value;
      [Message("user", a.content, a.now, []), Message("assistant", a.finalContent, a.now, a.toolNames)]
  }

  /** One turn took `c` to `c2`; `marks` are the places the mark was at. */
  ghost predicate TurnStep(fmt: int -> string, contextTok: int, c: Conv, turn: Turn, c2: Conv, marks: seq<nat>)
    requires c.mark <= |c.messages|
  {
    match turn
    case NewSession => c2 == c.(messages := [], mark := 0) && marks == [0]
    case Question(fixed, worlds, _) =>
      exists mid: Conv ::
        && IsConsolidation(fmt, contextTok, c, fixed, worlds, mid, marks)
        && c2 == mid.(messages := mid.messages + SaidIn(turn))
  }

  /** A run: states[i] is the conversation before turn i, and marks[i] the places of the mark during it. */
  ghost predicate IsTrace(fmt: int -> string, contextTok: int, turns: seq<Turn>, states: seq<Conv>,
                          marks: seq<seq<nat>>) {
    && |states| == |turns| + 1 && |marks| == |turns|
    && forall i :: 0 <= i < |turns| ==>
         && states[i].mark <= |states[i].messages|
         && TurnStep(fmt, contextTok, states[i], turns[i], states[i + 1], marks[i])
  }

  /** Any run of turns: its end is pinned down by its beginning and the turns (see TraceUnique). */
  method RunTurns(sess: Session, consolidator: MemoryConsolidator, turns: seq<Turn>)
    returns (ghost states: seq<Conv>, ghost marks: seq<seq<nat>>)
    requires consolidator.Valid() && sess.Valid()
    modifies consolidator, sess
    ensures consolidator.Valid() && sess.Valid()
    ensures IsTrace(consolidator.fmt, consolidator.contextTok, turns, states, marks)
    ensures states[0] == old(consolidator.Now(sess)) && states[|turns|] == consolidator.Now(sess)
  {
    hide IsConsolidation, TurnStep;
    states, marks := [consolidator.Now(sess)], [];
    for i := 0 to |turns|
      invariant consolidator.Valid() && sess.Valid()
      invariant IsTrace(consolidator.fmt, consolidator.contextTok, turns[..i], states, marks)
      invariant states[0] == old(consolidator.Now(sess)) && states[i] == consolidator.Now(sess)
    {
      assert turns[..i + 1] == turns[..i] + [turns[i]];
      ghost var steps := ProcessMessage(sess, consolidator, turns[i]);
      TraceSnoc(consolidator.fmt, consolidator.contextTok, turns[..i], states, marks, turns[i],
                consolidator.Now(sess), steps);
      states, marks := states + [consolidator.Now(sess)], marks + [steps];
    }
    assert turns[..|turns|] == turns;
  }

  /** One inbound message. */
  method ProcessMessage(sess: Session, consolidator: MemoryConsolidator, turn: Turn) returns (ghost marks: seq<nat>)
    requires consolidator.Valid() && sess.Valid()
    modifies consolidator, sess
    ensures consolidator.Valid() && sess.Valid()
    ensures TurnStep(consolidator.fmt, consolidator.contextTok, old(consolidator.Now(sess)), turn,
                     consolidator.Now(sess), marks)
  {
    hide IsConsolidation;
    match turn {
      case NewSession =>
        sess.Clear();
        marks := [0];
      case Question(fixed, worlds, answer) =>
        var rounds;
        rounds, marks := consolidator.MaybeConsolidateByTokens(sess, fixed, worlds);
        ghost var mid := consolidator.Now(sess);
        if answer.Some? {
          sess.AddMessage("user", answer.value.content, [], answer.value.now);
          sess.AddMessage("assistant", answer.value.finalContent, answer.value.toolNames, answer.value.now);
        }
        assert sess.messages == mid.messages + SaidIn(turn);
        assert consolidator.Now(sess) == mid.(messages := mid.messages + SaidIn(turn));
    }
  }

  lemma TraceSnoc(fmt: int -> string, contextTok: int, turns: seq<Turn>, states: seq<Conv>, marks: seq<seq<nat>>,
                  turn: Turn, c: Conv, steps: seq<nat>)
    requires IsTrace(fmt, contextTok, turns, states, marks) && states[|turns|].mark <= |states[|turns|].messages|
    requires TurnStep(fmt, contextTok, states[|turns|], turn, c, steps)
    ensures IsTrace(fmt, contextTok, turns + [turn], states + [c], marks + [steps])
  {
    hide TurnStep;
  }

  lemma TraceInit(fmt: int -> string, contextTok: int, turns: seq<Turn>, states: seq<Conv>, marks: seq<seq<nat>>)
    requires IsTrace(fmt, contextTok, turns, states, marks) && turns != []
    ensures var n := |turns| - 1;
            && IsTrace(fmt, contextTok, turns[..n], states[..n + 1], marks[..n])
            && states[n].mark <= |states[n].messages|
            && TurnStep(fmt, contextTok, states[n], turns[n], states[n + 1], marks[n])
  {
    hide TurnStep;
  }

  lemma TurnUnique(fmt: int -> string, contextTok: int, c: Conv, turn: Turn, c2: Conv, marks2: seq<nat>, c3: Conv,
                   marks3: seq<nat>)
    requires c.mark <= |c.messages|
    requires TurnStep(fmt, contextTok, c, turn, c2, marks2) && TurnStep(fmt, contextTok, c, turn, c3, marks3)
    ensures c2 == c3 && marks2 == marks3
  {
    hide IsConsolidation;
    if turn.Question? {
      var m2: Conv :| IsConsolidation(fmt, contextTok, c, turn.fixed, turn.worlds, m2, marks2)
                      && c2 == m2.(messages := m2.messages + SaidIn(turn));
      var m3: Conv :| IsConsolidation(fmt, contextTok, c, turn.fixed, turn.worlds, m3, marks3)
                      && c3 == m3.(messages := m3.messages + SaidIn(turn));
      ConsolidationUnique(fmt, contextTok, c, turn.fixed, turn.worlds, m2, marks2, m3, marks3);
    }
  }

  /** A run has one course: where it begins and what comes in decide every state. */
  lemma {:induction false} TraceUnique(fmt: int -> string, contextTok: int, turns: seq<Turn>, states2: seq<Conv>,
                                       marks2: seq<seq<nat>>, states3: seq<Conv>, marks3: seq<seq<nat>>)
    requires IsTrace(fmt, contextTok, turns, states2, marks2) && IsTrace(fmt, contextTok, turns, states3, marks3)
    requires states2[0] == states3[0]
    ensures states2 == states3 && marks2 == marks3
  {
    hide TurnStep;
    if turns != [] {
      var n := |turns| - 1;
      TraceInit(fmt, contextTok, turns, states2, marks2);
      TraceInit(fmt, contextTok, turns, states3, marks3);
      TraceUnique(fmt, contextTok, turns[..n], states2[..n + 1], marks2[..n], states3[..n + 1], marks3[..n]);
      assert states2[n] == states2[..n + 1][n] == states3[..n + 1][n] == states3[n];
      TurnUnique(fmt, contextTok, states2[n], turns[n], states2[n + 1], marks2[n], states3[n + 1], marks3[n]);
      assert states2 == states2[..n + 1] + [states2[n + 1]] && states3 == states3[..n + 1] + [states3[n + 1]];
      assert marks2 == marks2[..n] + [marks2[n]] && marks3 == marks3[..n] + [marks3[n]];
    }
  }

  // ---------------------------------------------------------------- what a run archives

  /** How long HISTORY.md was at the last /new, or at the start. */
  function Base(turns: seq<Turn>, states: seq<Conv>): nat
    requires |states| == |turns| + 1
  {
    var n := |turns|;
    if n == 0 || turns[n - 1].NewSession? then |states[n].history| else Base(turns[..n - 1], states[..n])
  }

  /** All places of the mark since the last /new, or the start. */
  function Marks(turns: seq<Turn>, states: seq<Conv>, marks: seq<seq<nat>>): seq<nat>
    requires |states| == |turns| + 1 && |marks| == |turns|
  {
    var n := |turns|;
    if n == 0 || turns[n - 1].NewSession? then [states[n].mark]
    else Marks(turns[..n - 1], states[..n], marks[..n - 1]) + if marks[n - 1] == [] then [] else marks[n - 1][1..]
  }

  /** The worlds of the rounds since then. */
  function Worlds(turns: seq<Turn>, marks: seq<seq<nat>>): seq<World>
    requires |marks| == |turns|
  {
    var n := |turns|;
    if n == 0 || turns[n - 1].NewSession? then []
    else
      Worlds(turns[..n - 1], marks[..n - 1])
      + if marks[n - 1] == [] then [] else FirstWorlds(turns[n - 1].worlds, |marks[n - 1]| - 1)
  }

  /** Over any run of turns, the entries HISTORY.md gained since the last /new (or since the start) correspond one to
      one, in order, to the stretches of a partition of the messages up to the mark, each standing for its stretch. */
  lemma {:induction false} TracePartition(fmt: int -> string, contextTok: int, turns: seq<Turn>, states: seq<Conv>,
                                          marks: seq<seq<nat>>)
    requires IsTrace(fmt, contextTok, turns, states, marks) && states[0].mark <= |states[0].messages|
    ensures var c := states[|turns|];
            && c.mark <= |c.messages| && states[0].history <= c.history
            && |states[0].history| <= Base(turns, states) <= |c.history|
            && Archives(fmt, Worlds(turns, marks), c.messages, if NewSession in turns then 0 else states[0].mark,
                        c.mark, Marks(turns, states, marks), c.history[Base(turns, states)..])
            && (NewSession !in turns ==> states[0].messages <= c.messages)
  {
    hide TurnStep, Archives, FirstWorlds;
    var n := |turns|;
    if n == 0 {
      assert states[0].history[|states[0].history|..] == [];
      NothingArchived(fmt, states[0].messages, states[0].mark);
    } else {
      TraceInit(fmt, contextTok, turns, states, marks);
      TracePartition(fmt, contextTok, turns[..n - 1], states[..n], marks[..n - 1]);
      assert turns == turns[..n - 1] + [turns[n - 1]];
      var c, c2 := states[n - 1], states[n];
      assert states[..n][n - 1] == c;
      if turns[n - 1].NewSession? {
        ClearedTurn(fmt, contextTok, c, turns[n - 1], c2, marks[n - 1]);
        assert c2.history[|c2.history|..] == [];
        NothingArchived(fmt, c2.messages, 0);
      } else {
        var base := Base(turns[..n - 1], states[..n]);
        TurnArchives(fmt, contextTok, c, turns[n - 1], c2, marks[n - 1]);
        assert c2.history[base..] == c.history[base..] + c2.history[|c.history|..];
        StillArchived(fmt, Worlds(turns[..n - 1], marks[..n - 1]), c.messages, c2.messages,
                      if NewSession in turns[..n - 1] then 0 else states[0].mark, c.mark,
                      Marks(turns[..n - 1], states[..n], marks[..n - 1]), c.history[base..]);
        ArchivesJoin(fmt, Worlds(turns[..n - 1], marks[..n - 1]), FirstWorlds(turns[n - 1].worlds, |marks[n - 1]| - 1),
                     c2.messages, if NewSession in turns[..n - 1] then 0 else states[0].mark, c.mark, c2.mark,
                     Marks(turns[..n - 1], states[..n], marks[..n - 1]), marks[n - 1], c.history[base..],
                     c2.history[|c.history|..]);
      }
    }
  }

  lemma ClearedTurn(fmt: int -> string, contextTok: int, c: Conv, turn: Turn, c2: Conv, marks: seq<nat>)
    requires c.mark <= |c.messages| && TurnStep(fmt, contextTok, c, turn, c2, marks) && turn.NewSession?
    ensures c2 == c.(messages := [], mark := 0)
  {
  }

  lemma TurnArchives(fmt: int -> string, contextTok: int, c: Conv, turn: Turn, c2: Conv, marks: seq<nat>)
    requires c.mark <= |c.messages| && TurnStep(fmt, contextTok, c, turn, c2, marks) && turn.Question?
    ensures marks != [] && c.messages <= c2.messages && c2.mark <= |c2.messages| && c.history <= c2.history
    ensures Archives(fmt, FirstWorlds(turn.worlds, |marks| - 1), c2.messages, c.mark, c2.mark, marks,
                     c2.history[|c.history|..])
  {
    hide IsConsolidation, Archives, FirstWorlds, SaidIn;
    var mid: Conv :| IsConsolidation(fmt, contextTok, c, turn.fixed, turn.worlds, mid, marks)
                     && c2 == mid.(messages := mid.messages + SaidIn(turn));
    ConsolidationArchives(fmt, contextTok, c, turn.fixed, turn.worlds, mid, marks);
    StillArchived(fmt, FirstWorlds(turn.worlds, |marks| - 1), mid.messages, c2.messages, c.mark, mid.mark, marks,
                  mid.history[|c.history|..]);
  }

  // ---------------------------------------------------------------- what a run leaves in the session

  /** What the turns since the last /new said. */
  function Said(turns: seq<Turn>): seq<Message> {
    if turns == [] || turns[|turns| - 1].NewSession? then []
    else Said(turns[..|turns| - 1]) + SaidIn(turns[|turns| - 1])
  }

  /** No one else writes to the session. */
  ghost predicate Undisturbed(turn: Turn) {
    turn.Question? ==> forall n :: turn.worlds(n).arrivals == []
  }

  /** If no one else writes to it, the session holds exactly what the turns said: consolidation neither adds nor
      removes a message. */
  lemma {:induction false} TraceTranscript(fmt: int -> string, contextTok: int, turns: seq<Turn>, states: seq<Conv>,
                                           marks: seq<seq<nat>>)
    requires IsTrace(fmt, contextTok, turns, states, marks)
    requires forall turn :: turn in turns ==> Undisturbed(turn)
    ensures states[|turns|].messages == (if NewSession in turns then [] else states[0].messages) + Said(turns)
  {
    hide TurnStep, Undisturbed, SaidIn;
    var n := |turns|;
    if n > 0 {
      TraceInit(fmt, contextTok, turns, states, marks);
      assert turns == turns[..n - 1] + [turns[n - 1]] && turns[n - 1] in turns;
      TraceTranscript(fmt, contextTok, turns[..n - 1], states[..n], marks[..n - 1]);
      if turns[n - 1].NewSession? {
        ClearedTurn(fmt, contextTok, states[n - 1], turns[n - 1], states[n], marks[n - 1]);
      } else {
        TurnSays(fmt, contextTok, states[n - 1], turns[n - 1], states[n], marks[n - 1]);
      }
    }
  }

  lemma TurnSays(fmt: int -> string, contextTok: int, c: Conv, turn: Turn, c2: Conv, marks: seq<nat>)
    requires c.mark <= |c.messages| && TurnStep(fmt, contextTok, c, turn, c2, marks) && turn.Question?
    requires Undisturbed(turn)
    ensures c2.messages == c.messages + SaidIn(turn)
  {
    hide IsConsolidation, Archives, SaidIn;
    var mid: Conv :| IsConsolidation(fmt, contextTok, c, turn.fixed, turn.worlds, mid, marks)
                     && c2 == mid.(messages := mid.messages + SaidIn(turn));
    ConsolidationArchives(fmt, contextTok, c, turn.fixed, turn.worlds, mid, marks);
    NoOneWrites(c, turn.worlds, |marks| - 1);
    NoOneWrites(c, turn.worlds, |marks|);
  }

  lemma {:induction false} NoOneWrites(c: Conv, worlds: nat -> World, n: nat)
    requires forall k :: worlds(k).arrivals == []
    ensures MessagesAt(c, worlds, n) == c.messages
  {
    if n > 0 {
      NoOneWrites(c, worlds, n - 1);
      NextMessages(c, worlds, n - 1);
    }
  }
}
