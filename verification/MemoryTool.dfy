/** The memory tool: add, replace and remove on the note files (ExecuteMemoryTool in tools/memory_store.go). */
module MemoryTool {
  import opened MemoryNotes
  import opened Strings

  // ---------------------------------------------------------------- comparing entries

  /** RE2's \s. */
  predicate IsAsciiSpace(c: char) {
    c in {'\t', '\n', '\U{C}', '\r', ' '}
  }

  /** Every run of white space becomes one blank. */
  function Collapse(s: string, inRun: bool): string {
    if s == "" then ""
    else if IsAsciiSpace(s[0]) then (if inRun then "" else " ") + Collapse(s[1..], true)
    else [s[0]] + Collapse(s[1..], false)
  }

  function Lower(lower: char -> char, s: string): string {
    seq(|s|, i requires 0 <= i < |s| => lower(s[i]))
  }

  /** normalizeEntryForCompare; `lower` is Unicode lower-casing. */
  function Norm(lower: char -> char, s: string): string {
    var t := Trim(Lower(lower, s));
    if t == "" then "" else Collapse(t, false)
  }

  lemma {:induction false} NormOfBlank(lower: char -> char, s: string)
    requires Blank(Lower(lower, s))
    ensures Norm(lower, s) == ""
  {
    TrimBlank(Lower(lower, s));
  }

  /** Words with gaps between them. */
  function Spread(words: seq<string>, gaps: seq<string>): string
    requires |words| == |gaps| + 1
  {
    if gaps == [] then words[0] else words[0] + gaps[0] + Spread(words[1..], gaps[1..])
  }

  predicate IsWord(s: string) {
    s != "" && forall i :: 0 <= i < |s| ==> !IsAsciiSpace(s[i])
  }

  predicate IsGap(s: string) {
    s != "" && forall i :: 0 <= i < |s| ==> IsAsciiSpace(s[i])
  }

  lemma {:induction false} CollapseWord(w: string, rest: string, inRun: bool)
    requires IsWord(w)
    ensures Collapse(w + rest, inRun) == w + Collapse(rest, false)
  {
    assert (w + rest)[1..] == w[1..] + rest;
    if |w| > 1 {
      CollapseWord(w[1..], rest, false);
      assert [w[0]] + (w[1..] + Collapse(rest, false)) == w + Collapse(rest, false);
    } else {
      assert w[1..] + rest == rest && [w[0]] == w;
    }
  }

  lemma {:induction false} CollapseGap(g: string, rest: string, inRun: bool)
    requires IsGap(g)
    ensures Collapse(g + rest, inRun) == (if inRun then "" else " ") + Collapse(rest, true)
  {
    assert (g + rest)[1..] == g[1..] + rest;
    if |g| > 1 {
      CollapseGap(g[1..], rest, true);
      assert "" + Collapse(rest, true) == Collapse(rest, true);
    } else {
      assert g[1..] + rest == rest;
    }
  }

  function Blanks(n: nat): seq<string> {
    seq(n, i => " ")
  }

  lemma {:induction false} CollapseSpread(words: seq<string>, gaps: seq<string>, inRun: bool)
    requires |words| == |gaps| + 1
    requires (forall w :: w in words ==> IsWord(w)) && forall g :: g in gaps ==> IsGap(g)
    ensures Collapse(Spread(words, gaps), inRun) == Spread(words, Blanks(|gaps|))
  {
    hide IsWord, IsGap, Collapse;
    assert words[0] in words;
    if gaps == [] {
      CollapseWord(words[0], "", inRun);
      NothingToCollapse();
      assert words[0] + "" == words[0];
    } else {
      assert gaps[0] in gaps;
      var rest := Spread(words[1..], gaps[1..]);
      assert words[0] + gaps[0] + rest == words[0] + (gaps[0] + rest);
      CollapseWord(words[0], gaps[0] + rest, inRun);
      CollapseGap(gaps[0], rest, false);
      CollapseSpread(words[1..], gaps[1..], true);
      assert Blanks(|gaps|)[1..] == Blanks(|gaps| - 1);
      var end := Spread(words[1..], Blanks(|gaps| - 1));
      assert words[0] + (" " + end) == words[0] + " " + end;
    }
  }

  lemma NothingToCollapse()
    ensures Collapse("", false) == ""
  {
  }

  /** Texts that differ only in case and in the white space around and between their words read the same: with the
      words in lower case and one blank between them. */
  lemma NormOfWords(lower: char -> char, s: string, front: string, words: seq<string>, gaps: seq<string>, end: string)
    requires |words| == |gaps| + 1
    requires (forall w :: w in words ==> IsWord(w)) && forall g :: g in gaps ==> IsGap(g)
    requires Blank(front) && Blank(end) && IsEntry(Spread(words, gaps))
    requires Lower(lower, s) == front + Spread(words, gaps) + end
    ensures Norm(lower, s) == Spread(words, Blanks(|gaps|))
  {
    hide Spread, IsWord, IsGap, Collapse, Blank;
    TrimAround(front, Spread(words, gaps), end);
    CollapseSpread(words, gaps, false);
  }

  // ---------------------------------------------------------------- what a call does to the entries

  datatype Reply = Failure(error: string) | Success(message: string, entries: seq<string>)

  /** Whether the file stays or is rewritten. */
  datatype Change = Keep | Write(entries: seq<string>)

  /** What the tool cannot influence: lower-casing and the safety scan. */
  datatype Env = Env(lower: char -> char, blocked: string -> bool)

  predicate Matches(env: Env, e: string, needle: string) {
    Contains(Norm(env.lower, e), Norm(env.lower, needle))
  }

  function Flags(env: Env, es: seq<string>, needle: string): (f: seq<bool>)
    ensures |f| == |es| && forall i :: 0 <= i < |es| ==> f[i] == Matches(env, es[i], needle)
  {
    seq(|es|, i requires 0 <= i < |es| => Matches(env, es[i], needle))
  }

  /** The indices below n whose flag is set, in order. */
  function Indices(flags: seq<bool>, n: nat): (ms: seq<nat>)
    requires n <= |flags|
    ensures forall i :: 0 <= i < |ms| ==> ms[i] < n && flags[ms[i]]
    ensures forall i :: 0 <= i < n && flags[i] ==> i in ms
    ensures forall i, j :: 0 <= i < j < |ms| ==> ms[i] < ms[j]
  {
    if n == 0 then [] else Indices(flags, n - 1) + (if flags[n - 1] then [n - 1] else [])
  }

  /** The indices of the entries that match. */
  function AllMatches(env: Env, es: seq<string>, needle: string): (ms: seq<nat>)
    ensures forall i :: 0 <= i < |ms| ==> ms[i] < |es|
  {
    Indices(Flags(env, es, needle), |es|)
  }

  /** Several matches that are not all the same text. */
  predicate Ambiguous(es: seq<string>, ms: seq<nat>)
    requires forall i :: 0 <= i < |ms| ==> ms[i] < |es|
  {
    |ms| > 1 && exists i :: 0 <= i < |ms| && es[ms[i]] != es[ms[0]]
  }

  predicate Holds(env: Env, es: seq<string>, c: string, skip: int) {
    exists i :: 0 <= i < |es| && i != skip && Norm(env.lower, es[i]) == Norm(env.lower, c)
  }

  function Add(env: Env, limit: nat, es: seq<string>, content: string): (Reply, Change) {
    var c := Trim(content);
    if c == "" then (Failure("content is required for add"), Keep)
    else if env.blocked(c) then (Failure("content blocked by safety scan"), Keep)
    else if Holds(env, es, c, -1) then (Success("Entry already exists (no duplicate added).", es), Keep)
    else if ByteLen(Join(es + [c])) > limit then (Failure("Would exceed char budget"), Keep)
    else (Success("Entry added.", es + [c]), Write(es + [c]))
  }

  function Replace(env: Env, limit: nat, es: seq<string>, content: string, oldText: string): (Reply, Change) {
    var needle, c := Trim(oldText), Trim(content);
    if needle == "" || c == "" then (Failure("old_text and content are required for replace"), Keep)
    else if env.blocked(c) then (Failure("content blocked by safety scan"), Keep)
    else
      var ms := AllMatches(env, es, needle);
      if |ms| == 0 then (Failure("no entry matched old_text"), Keep)
      else if Ambiguous(es, ms) then (Failure("multiple entries matched; be more specific"), Keep)
      else
        var test := es[ms[0] := c];
        if ByteLen(Join(test)) > limit then (Failure("replacement would exceed char budget"), Keep)
        else if Holds(env, test, c, ms[0]) then
          (Success("Replacement already covered by existing entry (no duplicate written).", test), Keep)
        else (Success("Entry replaced.", test), Write(test))
  }

  function Without(es: seq<string>, k: nat): seq<string>
    requires k < |es|
  {
    es[..k] + es[k + 1..]
  }

  function Remove(env: Env, es: seq<string>, oldText: string): (Reply, Change) {
    var needle := Trim(oldText);
    if needle == "" then (Failure("old_text is required for remove"), Keep)
    else
      var ms := AllMatches(env, es, needle);
      if |ms| == 0 then (Failure("no entry matched old_text"), Keep)
      else if Ambiguous(es, ms) then (Failure("multiple entries matched; be more specific"), Keep)
      else
        (Success("Entry removed.", Without(es, ms[0])), Write(Without(es, ms[0])))
  }

  function Apply(env: Env, limit: nat, es: seq<string>, call: Call): (Reply, Change) {
    match call.action
    case "add" => Add(env, limit, es, call.content)
    case "replace" => Replace(env, limit, es, call.content, call.oldText)
    case "remove" => Remove(env, es, call.oldText)
    case _ => (Failure("unknown action (use add, replace, remove)"), Keep)
  }

  datatype Call = Call(action: string, target: string, content: string, oldText: string)

  // ---------------------------------------------------------------- the invariant of a note file

  /** No two entries are the same after normalisation, each is clean, and together they fit the budget. */
  predicate Tidy(env: Env, limit: nat, es: seq<string>) {
    && (forall e :: e in es ==> IsEntry(e) && IsClean(e))
    && Distinct(env, es)
    && ByteLen(Join(es)) <= limit
  }

  predicate Distinct(env: Env, es: seq<string>) {
    forall i, j :: 0 <= i < j < |es| ==> Norm(env.lower, es[i]) != Norm(env.lower, es[j])
  }

  /** The file holds a tidy list of entries. */
  ghost predicate TidyFile(env: Env, limit: nat, file: string) {
    file == FileOf(ReadEntries(file)) && Tidy(env, limit, ReadEntries(file))
  }

  function SumLen(es: seq<string>): nat {
    if es == [] then 0 else ByteLen(es[0]) + SumLen(es[1..])
  }

  lemma DelimiterLength()
    ensures ByteLen(DELIMITER) == 4
  {
    var one, two := ['\n'], ['\n', SECTION];
    assert one[..0] == "" && two[..1] == one && DELIMITER[..2] == two;
    assert ByteLen(one) == 1 && ByteLen(two) == 3;
  }

  lemma {:induction false} JoinLength(es: seq<string>)
    requires es != []
    ensures ByteLen(Join(es)) == SumLen(es) + 4 * (|es| - 1)
  {
    if |es| > 1 {
      JoinLength(es[1..]);
      DelimiterLength();
      ByteLenConcat(es[0] + DELIMITER, Join(es[1..]));
      ByteLenConcat(es[0], DELIMITER);
    } else {
      assert es[1..] == [];
    }
  }

  lemma {:induction false} SumLenConcat(a: seq<string>, b: seq<string>)
    ensures SumLen(a + b) == SumLen(a) + SumLen(b)
  {
    if a == [] {
      assert a + b == b;
    } else {
      assert (a + b)[1..] == a[1..] + b;
      SumLenConcat(a[1..], b);
    }
  }

  lemma SumLenWithout(es: seq<string>, i: nat)
    requires i < |es|
    ensures SumLen(Without(es, i)) == SumLen(es) - ByteLen(es[i])
  {
    SumLenConcat(es[..i], es[i + 1..]);
    SumLenConcat(es[..i], es[i..]);
    assert es[..i] + es[i..] == es && es[i..][1..] == es[i + 1..];
  }

  lemma RemovalShrinks(es: seq<string>, i: nat)
    requires i < |es|
    ensures ByteLen(Join(Without(es, i))) <= ByteLen(Join(es))
  {
    SumLenWithout(es, i);
    JoinLength(es);
    if |es| > 1 {
      JoinLength(Without(es, i));
    } else {
      EmptyJoin(Without(es, i));
    }
  }

  lemma EmptyJoin(es: seq<string>)
    requires |es| == 0
    ensures ByteLen(Join(es)) == 0
  {
  }

  lemma AddTidy(env: Env, limit: nat, es: seq<string>, content: string)
    requires Tidy(env, limit, es) && Add(env, limit, es, content).1.Write? && IsClean(Trim(content))
    ensures Tidy(env, limit, Add(env, limit, es, content).1.entries)
  {
    TrimMeaning(content);
  }

  lemma ReplaceTidy(env: Env, limit: nat, es: seq<string>, content: string, oldText: string)
    requires Tidy(env, limit, es) && Replace(env, limit, es, content, oldText).1.Write? && IsClean(Trim(content))
    ensures Tidy(env, limit, Replace(env, limit, es, content, oldText).1.entries)
  {
    hide Norm, IsEntry, IsClean, Join, ByteLen, Trim, AllMatches, Replace, Holds;
    TrimMeaning(content);
    ReplaceFits(env, limit, es, content, oldText);
    ReplaceSucceeds(env, limit, es, content, oldText);
    WithOneTidy(env, limit, es, AllMatches(env, es, Trim(oldText))[0], Trim(content));
  }

  lemma ReplaceFits(env: Env, limit: nat, es: seq<string>, content: string, oldText: string)
    requires Replace(env, limit, es, content, oldText).1.Write?
    ensures Replace(env, limit, es, content, oldText).0.Success? && Trim(content) != ""
    ensures ByteLen(Join(Replace(env, limit, es, content, oldText).1.entries)) <= limit
  {
    hide Trim, AllMatches, Ambiguous, Holds, Join, ByteLen;
  }

  lemma WithOneTidy(env: Env, limit: nat, es: seq<string>, k: nat, c: string)
    requires Tidy(env, limit, es) && k < |es| && IsEntry(c) && IsClean(c)
    requires !Holds(env, es[k := c], c, k) && ByteLen(Join(es[k := c])) <= limit
    ensures Tidy(env, limit, es[k := c])
  {
    hide Norm, IsEntry, IsClean, Join, ByteLen;
  }

  lemma RemoveTidy(env: Env, limit: nat, es: seq<string>, oldText: string)
    requires Tidy(env, limit, es) && Remove(env, es, oldText).1.Write?
    ensures Tidy(env, limit, Remove(env, es, oldText).1.entries)
  {
    hide Trim, AllMatches, Ambiguous, Remove, Tidy, Without;
    RemoveWrites(env, es, oldText);
    WithoutOneTidy(env, limit, es, AllMatches(env, es, Trim(oldText))[0]);
  }

  lemma WithoutOneTidy(env: Env, limit: nat, es: seq<string>, k: nat)
    requires Tidy(env, limit, es) && k < |es|
    ensures Tidy(env, limit, Without(es, k))
  {
    hide Norm, IsEntry, IsClean, Join, ByteLen;
    RemovalShrinks(es, k);
  }

  /** The content a call may write. */
  predicate WritesCleanly(call: Call) {
    call.action in {"add", "replace"} ==> IsClean(Trim(call.content))
  }

  lemma ApplyTidy(env: Env, limit: nat, es: seq<string>, call: Call)
    requires Tidy(env, limit, es) && Apply(env, limit, es, call).1.Write? && WritesCleanly(call)
    ensures Tidy(env, limit, Apply(env, limit, es, call).1.entries)
  {
    hide Tidy, Add, Replace, Remove;
    if call.action == "add" {
      AddTidy(env, limit, es, call.content);
    } else if call.action == "replace" {
      ReplaceTidy(env, limit, es, call.content, call.oldText);
    } else {
      RemoveTidy(env, limit, es, call.oldText);
    }
  }

  /** Entry k matches and no other does. */
  predicate OnlyMatch(env: Env, es: seq<string>, needle: string, k: int) {
    0 <= k < |es| && forall i :: 0 <= i < |es| ==> (Matches(env, es[i], needle) <==> i == k)
  }

  lemma AcceptedMatchIsOnly(env: Env, limit: nat, es: seq<string>, needle: string)
    requires Tidy(env, limit, es)
    ensures var ms := AllMatches(env, es, needle);
            ms != [] && !Ambiguous(es, ms) ==> OnlyMatch(env, es, needle, ms[0])
  {
    hide Norm, IsEntry, IsClean, Join, ByteLen, Contains;
    var ms := AllMatches(env, es, needle);
    assert forall i, j :: 0 <= i < j < |ms| ==> es[ms[i]] != es[ms[j]];
  }

  /** On a tidy list a written replacement changes exactly one entry, the only match, in its place ... */
  lemma ReplaceChangesOne(env: Env, limit: nat, es: seq<string>, content: string, oldText: string)
    requires Tidy(env, limit, es) && Replace(env, limit, es, content, oldText).1.Write?
    ensures exists k: nat ::
              OnlyMatch(env, es, Trim(oldText), k)
              && Replace(env, limit, es, content, oldText).1.entries == es[k := Trim(content)]
  {
    AcceptedMatchIsOnly(env, limit, es, Trim(oldText));
  }

  /** ... and a removal drops exactly the only match. */
  lemma RemoveDropsOne(env: Env, limit: nat, es: seq<string>, oldText: string)
    requires Tidy(env, limit, es) && Remove(env, es, oldText).1.Write?
    ensures exists k: nat ::
              OnlyMatch(env, es, Trim(oldText), k)
              && Remove(env, es, oldText).1.entries == Without(es, k)
  {
    AcceptedMatchIsOnly(env, limit, es, Trim(oldText));
  }

  // ---------------------------------------------------------------- the two files

  /** The note files, and one call on them. */
  datatype Notes = Notes(user: string, memory: string)

  function FileFor(notes: Notes, target: string): string {
    if target == "user" then notes.user else notes.memory
  }

  function LimitFor(target: string): nat {
    if target == "user" then USER_LIMIT else MEMORY_LIMIT
  }

  function Execute(env: Env, notes: Notes, call: Call): (Reply, Notes) {
    if call.target !in {"user", "memory"} then (Failure("invalid target (use memory or user)"), notes)
    else
      var (reply, change) := Apply(env, LimitFor(call.target), ReadEntries(FileFor(notes, call.target)), call);
      if change.Keep? then (reply, notes)
      else if call.target == "user" then (reply, notes.(user := FileOf(change.entries)))
      else (reply, notes.(memory := FileOf(change.entries)))
  }

  ghost predicate TidyNotes(env: Env, notes: Notes) {
    TidyFile(env, USER_LIMIT, notes.user) && TidyFile(env, MEMORY_LIMIT, notes.memory)
  }

  /** What a write persists is what it accepted exactly when its content is clean. */
  lemma PersistedAsAccepted(env: Env, limit: nat, es: seq<string>, call: Call)
    requires Tidy(env, limit, es) && Apply(env, limit, es, call).1.Write?
    ensures var next := Apply(env, limit, es, call).1.entries;
            ReadEntries(FileOf(next)) == next <==> WritesCleanly(call)
  {
    var next := Apply(env, limit, es, call).1.entries;
    TrimMeaning(call.content);
    WrittenEntries(env, limit, es, call);
    RoundTrip(next);
  }

  /** A write keeps old entries and adds at most the trimmed content. */
  lemma WrittenEntries(env: Env, limit: nat, es: seq<string>, call: Call)
    requires Apply(env, limit, es, call).1.Write?
    ensures var next := Apply(env, limit, es, call).1.entries;
            && (forall e :: e in next ==> e in es || (call.action in {"add", "replace"} && e == Trim(call.content)))
            && (call.action in {"add", "replace"} ==> Trim(call.content) in next && Trim(call.content) != "")
  {
    hide Trim, Add, Replace, Remove, AllMatches, Holds, Join, ByteLen;
    if call.action == "add" {
      AddWrites(env, limit, es, call.content);
    } else if call.action == "replace" {
      ReplaceFits(env, limit, es, call.content, call.oldText);
      ReplaceSucceeds(env, limit, es, call.content, call.oldText);
      var k := AllMatches(env, es, Trim(call.oldText))[0];
      assert es[k := Trim(call.content)][k] == Trim(call.content);
    } else {
      RemoveWrites(env, es, call.oldText);
    }
  }

  /** When an add is accepted, by what was asked: not blank, not blocked, not there yet, and within the limit. */
  lemma AddAccepted(env: Env, limit: nat, es: seq<string>, content: string)
    ensures var c := Trim(content);
            && (Add(env, limit, es, content).0.Failure? <==>
                  c == "" || env.blocked(c)
                  || (ByteLen(Join(es + [c])) > limit
                      && forall e :: e in es ==> Norm(env.lower, e) != Norm(env.lower, c)))
            && (Add(env, limit, es, content).1.Write? <==>
                  && c != "" && !env.blocked(c) && ByteLen(Join(es + [c])) <= limit
                  && forall e :: e in es ==> Norm(env.lower, e) != Norm(env.lower, c))
  {
    hide Trim, Norm, Join, ByteLen;
  }

  /** When a replacement is written: neither text blank, the new one not blocked, exactly one kind of entry matching,
      the result within the limit, and no other entry reading like the new one. */
  lemma ReplaceAccepted(env: Env, limit: nat, es: seq<string>, content: string, oldText: string)
    ensures Replace(env, limit, es, content, oldText).1.Write? <==>
              && Trim(oldText) != "" && Trim(content) != "" && !env.blocked(Trim(content))
              && exists k: nat ::
                   && IsTheMatch(env, es, Trim(oldText), k) && ByteLen(Join(es[k := Trim(content)])) <= limit
                   && forall i :: 0 <= i < |es| && i != k ==> Norm(env.lower, es[i]) != Norm(env.lower, Trim(content))
  {
    hide Trim, Norm, Join, ByteLen, IsTheMatch, AllMatches, Ambiguous;
    var needle, c := Trim(oldText), Trim(content);
    MatchFound(env, es, needle);
    if AllMatches(env, es, needle) != [] && !Ambiguous(es, AllMatches(env, es, needle)) {
      var k := AllMatches(env, es, needle)[0];
      assert IsTheMatch(env, es, needle, k);
      HoldsElsewhere(env, es, c, k);
    }
  }

  lemma HoldsElsewhere(env: Env, es: seq<string>, c: string, k: nat)
    requires k < |es|
    ensures Holds(env, es[k := c], c, k) <==> exists i :: 0 <= i < |es| && i != k
                                                        && Norm(env.lower, es[i]) == Norm(env.lower, c)
  {
    hide Norm;
    forall i | 0 <= i < |es| && i != k
      ensures es[k := c][i] == es[i]
    {
    }
  }

  /** When a removal is written. */
  lemma RemoveAccepted(env: Env, es: seq<string>, oldText: string)
    ensures Remove(env, es, oldText).1.Write? <==>
              Trim(oldText) != "" && exists k: nat :: IsTheMatch(env, es, Trim(oldText), k)
  {
    hide Trim, IsTheMatch, AllMatches, Ambiguous;
    var ms := AllMatches(env, es, Trim(oldText));
    MatchFound(env, es, Trim(oldText));
    if ms != [] && !Ambiguous(es, ms) {
      assert IsTheMatch(env, es, Trim(oldText), ms[0]);
    }
  }

  /** Entry k is the first that contains the text, compared without regard to case and spacing, and all others that
      do are the same text. */
  ghost predicate IsTheMatch(env: Env, es: seq<string>, needle: string, k: nat) {
    && k < |es| && Contains(Norm(env.lower, es[k]), Norm(env.lower, needle))
    && (forall i :: 0 <= i < k ==> !Contains(Norm(env.lower, es[i]), Norm(env.lower, needle)))
    && forall i :: 0 <= i < |es| && Contains(Norm(env.lower, es[i]), Norm(env.lower, needle)) ==> es[i] == es[k]
  }

  lemma MatchFound(env: Env, es: seq<string>, needle: string)
    ensures var ms := AllMatches(env, es, needle);
            && (forall k: nat :: IsTheMatch(env, es, needle, k) <==>
                  ms != [] && !Ambiguous(es, ms) && k == ms[0])
  {
    hide Norm, Contains;
    var ms := AllMatches(env, es, needle);
    forall k: nat
      ensures IsTheMatch(env, es, needle, k) <==> ms != [] && !Ambiguous(es, ms) && k == ms[0]
    {
      if ms != [] && !Ambiguous(es, ms) {
        assert forall i :: 0 <= i < |es| && i in ms ==> es[i] == es[ms[0]];
      }
      if IsTheMatch(env, es, needle, k) {
        assert k in ms;
        assert ms[0] <= k;
      }
    }
  }

  lemma AddWrites(env: Env, limit: nat, es: seq<string>, content: string)
    requires Add(env, limit, es, content).1.Write?
    ensures Add(env, limit, es, content).1.entries == es + [Trim(content)] && Trim(content) != ""
    ensures ByteLen(Join(es + [Trim(content)])) <= limit
  {
    hide Trim, Holds, Join, ByteLen;
  }

  lemma RemoveWrites(env: Env, es: seq<string>, oldText: string)
    requires Remove(env, es, oldText).1.Write?
    ensures var ms := AllMatches(env, es, Trim(oldText));
            && ms != [] && ms[0] < |es|
            && Remove(env, es, oldText) == (Success("Entry removed.", Without(es, ms[0])), Write(Without(es, ms[0])))
  {
    hide Trim, Flags, Ambiguous;
  }

  /** Without clean contents the promise fails: one accepted entry with the delimiter inside is read back as
      two entries that are the same. */
  lemma DelimiterInContent(env: Env, notes: Notes)
    requires notes.memory == "" && !env.blocked(['a'] + DELIMITER + ['a'])
    ensures var call := Call("add", "memory", ['a'] + DELIMITER + ['a'], "");
            var (reply, notes2) := Execute(env, notes, call);
            reply.Success? && ReadEntries(notes2.memory) == ["a", "a"] && !TidyFile(env, MEMORY_LIMIT, notes2.memory)
  {
    var c := ['a'] + DELIMITER + ['a'];
    TrimMeaning(c);
    assert ReadEntries("") == [] && Join([] + [c]) == c;
    ByteLenConcat(['a'] + DELIMITER, ['a']);
    ByteLenConcat(['a'], DELIMITER);
    DelimiterLength();
    assert ByteLen("a") == 1 by { assert "a"[..0] == ""; }
    assert ReadEntries(FileOf([c])) == ["a", "a"] by { TwoForOne(c); }
    assert IsEntry(c) && Trim(c) == c && ByteLen(c) == 6 && [] + [c] == [c];
    assert Add(env, MEMORY_LIMIT, [], c) == (Success("Entry added.", [c]), Write([c]));
    assert Norm(env.lower, ["a", "a"][0]) == Norm(env.lower, ["a", "a"][1]);
  }

  lemma TwoForOne(c: string)
    requires c == ['a'] + DELIMITER + ['a']
    ensures ReadEntries(FileOf([c])) == ["a", "a"]
  {
    FileNotBlank([c]);
    SplitCleanHead("a", "a\n");
    assert c + "\n" == "a" + DELIMITER + "a\n" && "a" + "\n" == "a\n";
  }

  predicate AllClean(es: seq<string>) {
    forall e :: e in es ==> IsEntry(e) && IsClean(e)
  }

  /** The file begins with the entries `pre` and ends with the entries `post`. */
  ghost predicate KeepsAround(file: string, pre: seq<string>, post: seq<string>) {
    var es := ReadEntries(file);
    |es| >= |pre| + |post| && es[..|pre|] == pre && es[|es| - |post|..] == post
  }

  /** The content does no harm between the entries `pre` and `post`: it rejoins from its pieces, and with them in
      its place all entries are distinct. */
  predicate Fits(env: Env, pre: seq<string>, c: string, post: seq<string>) {
    Rejoins(c) && Distinct(env, pre + Pieces(Split(c)) + post)
  }

  /** A write keeps the file tidy and the other entries as they are exactly when its content does no harm. */
  lemma WriteStaysTidy(env: Env, limit: nat, pre: seq<string>, c: string, post: seq<string>)
    requires AllClean(pre) && AllClean(post) && IsEntry(c) && ByteLen(Join(pre + [c] + post)) <= limit
    ensures var file := FileOf(pre + [c] + post);
            TidyFile(env, limit, file) && KeepsAround(file, pre, post) <==> Fits(env, pre, c, post)
  {
    hide IsClean, ByteLen, Norm, Join, Split, Pieces, ReadEntries, Distinct, FileOf;
    if Rejoins(c) {
      PiecesWritten(pre, c, post);
    }
    var file := FileOf(pre + [c] + post);
    if TidyFile(env, limit, file) && KeepsAround(file, pre, post) {
      TidyRejoins(pre, c, post);
    }
  }

  lemma PiecesWritten(pre: seq<string>, c: string, post: seq<string>)
    requires AllClean(pre) && AllClean(post) && IsEntry(c) && Rejoins(c)
    ensures var all := pre + Pieces(Split(c)) + post;
            && AllClean(all) && Join(pre + [c] + post) == Join(all)
            && FileOf(pre + [c] + post) == FileOf(all) && ReadEntries(FileOf(all)) == all
            && KeepsAround(FileOf(all), pre, post)
  {
    hide IsEntry, IsClean, Split, Pieces, Join, ReadEntries;
    var ps := Pieces(Split(c));
    EntryNotEmpty(c);
    JoinNothing();
    PiecesAreEntries(Split(c));
    JoinPieces(pre, c, ps, post);
    var all := pre + ps + post;
    assert AllClean(all);
    RoundTrip(all);
    assert all[..|pre|] == pre && all[|all| - |post|..] == post;
  }

  lemma EntryNotEmpty(c: string)
    requires IsEntry(c)
    ensures c != ""
  {
  }

  lemma JoinNothing()
    ensures Join([]) == ""
  {
  }

  lemma TidyRejoins(pre: seq<string>, c: string, post: seq<string>)
    requires IsEntry(c)
    requires var file := FileOf(pre + [c] + post);
             KeepsAround(file, pre, post) && file == FileOf(ReadEntries(file)) && AllClean(ReadEntries(file))
    ensures Rejoins(c) && ReadEntries(FileOf(pre + [c] + post)) == pre + Pieces(Split(c)) + post
  {
    hide IsEntry, IsClean, Split, Pieces, Join, ReadEntries;
    var es := ReadEntries(FileOf(pre + [c] + post));
    var qs := es[|pre|..|es| - |post|];
    assert es == pre + qs + post;
    EntryNotEmpty(c);
    SameFile(pre + [c] + post, es);
    Between(pre, c, qs, post);
    BareRoundTrip(qs);
  }

  lemma SameFile(a: seq<string>, b: seq<string>)
    requires FileOf(a) == FileOf(b)
    ensures Join(a) == Join(b)
  {
    hide Join;
    if Join(a) != "" && Join(b) != "" {
      assert (Join(a) + "\n")[..|Join(a)|] == Join(a) && (Join(b) + "\n")[..|Join(b)|] == Join(b);
    }
  }

  /** An add keeps the file tidy exactly when its content does no harm at the end ... */
  lemma AddStaysTidy(env: Env, limit: nat, es: seq<string>, content: string)
    requires Tidy(env, limit, es) && Add(env, limit, es, content).1.Write?
    ensures TidyFile(env, limit, FileOf(Add(env, limit, es, content).1.entries)) <==> Fits(env, es, Trim(content), [])
  {
    hide Add, Trim, IsEntry, IsClean, Distinct, Join, ByteLen, FileOf, ReadEntries, TidyFile, Fits;
    var c := Trim(content);
    AddWrites(env, limit, es, content);
    TrimMeaning(content);
    assert es + [c] + [] == es + [c];
    WriteStaysTidy(env, limit, es, c, []);
    AppendKeepsAround(es, c);
  }

  lemma AppendKeepsAround(es: seq<string>, c: string)
    requires AllClean(es) && IsEntry(c)
    ensures KeepsAround(FileOf(es + [c]), es, [])
  {
    hide IsClean, Split, Pieces;
    FileNotBlank(es + [c]);
    PrefixKept(es, c);
  }

  /** ... a replacement keeps it tidy, and the other entries as they are, exactly when its content does no harm
      in its place ... */
  lemma ReplaceStaysTidy(env: Env, limit: nat, es: seq<string>, content: string, oldText: string)
    requires Tidy(env, limit, es) && Replace(env, limit, es, content, oldText).1.Write?
    ensures exists k: nat ::
              && OnlyMatch(env, es, Trim(oldText), k)
              && var file := FileOf(Replace(env, limit, es, content, oldText).1.entries);
                 TidyFile(env, limit, file) && KeepsAround(file, es[..k], es[k + 1..])
                 <==> Fits(env, es[..k], Trim(content), es[k + 1..])
  {
    hide Replace, Trim, IsEntry, IsClean, Distinct, Join, ByteLen, FileOf, ReadEntries, TidyFile, Fits, OnlyMatch;
    hide KeepsAround;
    TrimMeaning(content);
    ReplaceFits(env, limit, es, content, oldText);
    ReplaceSucceeds(env, limit, es, content, oldText);
    AcceptedMatchIsOnly(env, limit, es, Trim(oldText));
    ReplacedUnambiguous(env, limit, es, content, oldText);
    var k, c := AllMatches(env, es, Trim(oldText))[0], Trim(content);
    assert es[k := c] == es[..k] + [c] + es[k + 1..];
    WriteStaysTidy(env, limit, es[..k], c, es[k + 1..]);
  }

  lemma ReplacedUnambiguous(env: Env, limit: nat, es: seq<string>, content: string, oldText: string)
    requires Replace(env, limit, es, content, oldText).1.Write?
    ensures var ms := AllMatches(env, es, Trim(oldText)); ms != [] && !Ambiguous(es, ms)
  {
    hide Trim, Holds, Join, ByteLen, AllMatches, Ambiguous;
  }

  /** ... and content without a delimiter never does any. */
  lemma ExecuteTidy(env: Env, notes: Notes, call: Call)
    requires TidyNotes(env, notes) && WritesCleanly(call)
    ensures TidyNotes(env, Execute(env, notes, call).1)
  {
    var limit, es := LimitFor(call.target), ReadEntries(FileFor(notes, call.target));
    if call.target in {"user", "memory"} && Apply(env, limit, es, call).1.Write? {
      ApplyTidy(env, limit, es, call);
      PersistedAsAccepted(env, limit, es, call);
    }
  }

  lemma FailureKeeps(env: Env, limit: nat, es: seq<string>, call: Call)
    ensures Apply(env, limit, es, call).0.Failure? ==> Apply(env, limit, es, call).1.Keep?
  {
    hide Trim, AllMatches, Ambiguous, Holds, Join, ByteLen;
  }

  /** A failed call changes nothing, and no call touches the other file. */
  lemma ExecuteFrame(env: Env, notes: Notes, call: Call)
    ensures Execute(env, notes, call).0.Failure? ==> Execute(env, notes, call).1 == notes
    ensures call.target != "user" ==> Execute(env, notes, call).1.user == notes.user
    ensures call.target != "memory" ==> Execute(env, notes, call).1.memory == notes.memory
  {
    FailureKeeps(env, LimitFor(call.target), ReadEntries(FileFor(notes, call.target)), call);
  }

  function RunCalls(env: Env, notes: Notes, calls: seq<Call>): Notes {
    if calls == [] then notes
    else Execute(env, RunCalls(env, notes, calls[..|calls| - 1]), calls[|calls| - 1]).1
  }

  /** Any sequence of calls with clean contents keeps both files tidy. */
  lemma {:induction false} RunTidy(env: Env, notes: Notes, calls: seq<Call>)
    requires TidyNotes(env, notes) && forall c :: c in calls ==> WritesCleanly(c)
    ensures TidyNotes(env, RunCalls(env, notes, calls))
  {
    if calls != [] {
      RunTidy(env, notes, calls[..|calls| - 1]);
      ExecuteTidy(env, RunCalls(env, notes, calls[..|calls| - 1]), calls[|calls| - 1]);
    }
  }

  /** A replacement that an existing entry already covers. */
  predicate Covered(env: Env, es: seq<string>, call: Call) {
    call.action == "replace"
    && var ms := AllMatches(env, es, Trim(call.oldText));
    ms != [] && Holds(env, es[ms[0] := Trim(call.content)], Trim(call.content), ms[0])
  }

  /** That happens: with the entries "a" and "b", replacing "a" by "b" reports two entries "b", and the file keeps
      "a" and "b". */
  lemma CoveredHappens(env: Env, limit: nat)
    requires env.lower('a') == 'a' && env.lower('b') == 'b' && !env.blocked("b") && limit >= 6
    ensures var call := Call("replace", "memory", "b", "a");
            && Tidy(env, limit, ["a", "b"]) && Covered(env, ["a", "b"], call)
            && Apply(env, limit, ["a", "b"], call).0.Success?
            && Apply(env, limit, ["a", "b"], call).0.entries == ["b", "b"]
            && Apply(env, limit, ["a", "b"], call).1 == Keep
  {
    hide Norm, Trim, Join, ByteLen, Tidy, AllMatches;
    OneLetter(env, 'a');
    OneLetter(env, 'b');
    TwoLetters(env, limit);
    var es := ["a", "b"];
    OnlyFirst(env);
    assert es[0 := "b"] == ["b", "b"];
    assert Norm(env.lower, ["b", "b"][1]) == Norm(env.lower, "b");
  }

  lemma OneLetter(env: Env, c: char)
    requires env.lower(c) == c && c in {'a', 'b'}
    ensures IsEntry([c]) && IsClean([c]) && Trim([c]) == [c] && Norm(env.lower, [c]) == [c] && ByteLen([c]) == 1
  {
    TrimMeaning([c]);
    assert Lower(env.lower, [c]) == [c];
    assert Collapse([c], false) == [c] + Collapse([], false);
    assert [c][..0] == "";
  }

  lemma TwoLetters(env: Env, limit: nat)
    requires env.lower('a') == 'a' && env.lower('b') == 'b' && limit >= 6
    ensures Tidy(env, limit, ["a", "b"])
    ensures ByteLen(Join(["b", "b"])) <= limit
  {
    hide Norm, ByteLen, Trim, IsEntry, IsClean;
    OneLetter(env, 'a');
    OneLetter(env, 'b');
    JoinLength(["a", "b"]);
    JoinLength(["b", "b"]);
    assert ["a", "b"][1..] == ["b"] && ["b", "b"][1..] == ["b"] && ["b"][1..] == [];
    assert ["a", "b"][0] == ['a'] && ["a", "b"][1] == ['b'];
  }

  /** Only the first of the two entries matches "a". */
  lemma OnlyFirst(env: Env)
    requires env.lower('a') == 'a' && env.lower('b') == 'b'
    ensures AllMatches(env, ["a", "b"], "a") == [0]
  {
    hide Norm, Trim;
    OneLetter(env, 'a');
    OneLetter(env, 'b');
    assert ContainsAt("a", "a", 0);
    assert !Contains("b", "a");
    var flags := Flags(env, ["a", "b"], "a");
    assert flags[0] && !flags[1];
    assert Indices(flags, 0) == [] && Indices(flags, 1) == [0];
  }

  /** A successful reply lists the entries the file then holds, except for a covered replacement: that one
      reports the replacement although the file keeps the old entry. */
  lemma ReplyMatchesFile(env: Env, limit: nat, es: seq<string>, call: Call)
    requires Tidy(env, limit, es) && Apply(env, limit, es, call).0.Success?
    ensures var (reply, change) := Apply(env, limit, es, call);
            reply.entries == (if change.Keep? then es else change.entries) <==> !Covered(env, es, call)
  {
    hide Norm, IsEntry, IsClean, Join, ByteLen, Trim, Tidy, Replace, Holds, AllMatches;
    if call.action == "replace" {
      ReplaceSucceeds(env, limit, es, call.content, call.oldText);
      var k := AllMatches(env, es, Trim(call.oldText))[0];
      if Covered(env, es, call) {
        CoveredMisreports(env, limit, es, k, Trim(call.content));
      }
    }
  }

  lemma ReplaceSucceeds(env: Env, limit: nat, es: seq<string>, content: string, oldText: string)
    requires Replace(env, limit, es, content, oldText).0.Success?
    ensures var ms, (reply, change) := AllMatches(env, es, Trim(oldText)), Replace(env, limit, es, content, oldText);
            && ms != [] && ms[0] < |es|
            && (var test := es[ms[0] := Trim(content)];
                && reply.entries == test
                && change == if Holds(env, test, Trim(content), ms[0]) then Keep else Write(test))
  {
    hide Trim, Holds, Join, ByteLen;
  }

  lemma CoveredMisreports(env: Env, limit: nat, es: seq<string>, k: nat, c: string)
    requires Tidy(env, limit, es) && k < |es| && Holds(env, es[k := c], c, k)
    ensures es[k := c] != es
  {
    hide Norm, IsEntry, IsClean, Join, ByteLen;
    var i :| 0 <= i < |es| && i != k && Norm(env.lower, es[k := c][i]) == Norm(env.lower, c);
    assert Norm(env.lower, es[i]) != Norm(env.lower, es[k]);
    assert es[k := c][k] != es[k];
  }

  class MemoryNoteStore {
    const env: Env
    const configured: bool  // a workspace is set
    var user: string        // USER.md, empty when missing
    var memory: string      // NOTE.md, empty when missing

    constructor (env: Env, configured: bool, user: string, memory: string)
      ensures this.env == env && this.configured == configured && this.user == user && this.memory == memory
    {
      this.env, this.configured, this.user, this.memory := env, configured, user, memory;
    }

    /** The indices of the matching entries. */
    method FindMatches(es: seq<string>, needle: string) returns (ms: seq<nat>)
      ensures ms == AllMatches(env, es, needle)
    {
      hide Norm, Contains, Flags;
      ms := [];
      var normOld := Norm(env.lower, needle);
      for i := 0 to |es|
        invariant ms == Indices(Flags(env, es, needle), i)
      {
        if Contains(Norm(env.lower, es[i]), normOld) {
          ms := ms + [i];
        }
      }
    }

    /** Whether some entry other than the excepted one reads the same as c. */
    method FindEqual(es: seq<string>, c: string, skip: int) returns (found: bool)
      ensures found == Holds(env, es, c, skip)
    {
      hide Norm;
      for i := 0 to |es|
        invariant forall j :: 0 <= j < i && j != skip ==> Norm(env.lower, es[j]) != Norm(env.lower, c)
      {
        if i != skip && Norm(env.lower, es[i]) == Norm(env.lower, c) {
          return true;
        }
      }
      return false;
    }

    method Write(target: string, es: seq<string>)
      modifies this
      ensures Notes(user, memory) == if target == "user" then Notes(FileOf(es), old(memory))
              else Notes(old(user), FileOf(es))
    {
      if target == "user" {
        user := FileOf(es);
      } else {
        memory := FileOf(es);
      }
    }

    method ExecuteMemoryTool(call: Call) returns (r: Reply)
      modifies this
      ensures !configured ==> r.Failure? && user == old(user) && memory == old(memory)
      ensures configured ==> (r, Notes(user, memory)) == Execute(env, Notes(old(user), old(memory)), call)
    {
      hide Norm, Contains, Flags, Indices, Holds, Join, ByteLen, ReadEntries, FileOf, Trim;
      if !configured {
        return Failure("memory tool not configured");
      }
      if call.target != "user" && call.target != "memory" {
        return Failure("invalid target (use memory or user)");
      }
      var limit, es := LimitFor(call.target), ReadEntries(FileFor(Notes(user, memory), call.target));
      match call.action {
        case "add" => r := AddEntry(limit, es, call);
        case "replace" => r := ReplaceEntry(limit, es, call);
        case "remove" => r := RemoveEntry(es, call);
        case _ => r := Failure("unknown action (use add, replace, remove)");
      }
    }

    method AddEntry(limit: nat, es: seq<string>, call: Call) returns (r: Reply)
      modifies this
      ensures var (reply, change) := Add(env, limit, es, call.content);
              r == reply && Changed(change, call.target, old(user), old(memory))
    {
      hide Holds, Join, ByteLen, Trim;
      var c := Trim(call.content);
      if c == "" {
        return Failure("content is required for add");
      }
      if env.blocked(c) {
        return Failure("content blocked by safety scan");
      }
      var dup := FindEqual(es, c, -1);
      if dup {
        return Success("Entry already exists (no duplicate added).", es);
      }
      var next := es + [c];
      if ByteLen(Join(next)) > limit {
        return Failure("Would exceed char budget");
      }
      Write(call.target, next);
      return Success("Entry added.", next);
    }

    method ReplaceEntry(limit: nat, es: seq<string>, call: Call) returns (r: Reply)
      modifies this
      ensures var (reply, change) := Replace(env, limit, es, call.content, call.oldText);
              r == reply && Changed(change, call.target, old(user), old(memory))
    {
      hide Holds, Join, ByteLen, Trim, Norm;
      var needle, c := Trim(call.oldText), Trim(call.content);
      if needle == "" || c == "" {
        return Failure("old_text and content are required for replace");
      }
      if env.blocked(c) {
        return Failure("content blocked by safety scan");
      }
      var ms := FindMatches(es, needle);
      if |ms| == 0 {
        return Failure("no entry matched old_text");
      }
      if Ambiguous(es, ms) {
        return Failure("multiple entries matched; be more specific");
      }
      var test := es[ms[0] := c];
      if ByteLen(Join(test)) > limit {
        return Failure("replacement would exceed char budget");
      }
      var covered := FindEqual(test, c, ms[0]);
      if covered {
        return Success("Replacement already covered by existing entry (no duplicate written).", test);
      }
      Write(call.target, test);
      return Success("Entry replaced.", test);
    }

    method RemoveEntry(es: seq<string>, call: Call) returns (r: Reply)
      modifies this
      ensures var (reply, change) := Remove(env, es, call.oldText);
              r == reply && Changed(change, call.target, old(user), old(memory))
    {
      hide Trim, Norm;
      var needle := Trim(call.oldText);
      if needle == "" {
        return Failure("old_text is required for remove");
      }
      var ms := FindMatches(es, needle);
      if |ms| == 0 {
        return Failure("no entry matched old_text");
      }
      if Ambiguous(es, ms) {
        return Failure("multiple entries matched; be more specific");
      }
      var rest := Without(es, ms[0]);
      Write(call.target, rest);
      return Success("Entry removed.", rest);
    }

    /** The files after a change to `target`. */
    ghost predicate Changed(change: Change, target: string, user0: string, memory0: string)
      reads this
    {
      Notes(user, memory) ==
        if change.Keep? then Notes(user0, memory0)
        else if target == "user" then Notes(FileOf(change.entries), memory0)
        else Notes(user0, FileOf(change.entries))
    }
  }
}
