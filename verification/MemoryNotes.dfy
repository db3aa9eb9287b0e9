/** The curated note files USER.md and NOTE.md: entries joined by a delimiter (tools/memory_store.go).
    A `string` here is a sequence of Unicode code points; sizes are counted in UTF-8 bytes. */
module MemoryNotes {
  import opened Wrappers

  const SECTION := '\U{A7}'
  const DELIMITER: string := ['\n', SECTION, '\n']
  const MEMORY_LIMIT := 2200
  const USER_LIMIT := 1375

  // ---------------------------------------------------------------- strings

  /** unicode.IsSpace. */
  predicate IsSpace(c: char) {
    || c in {'\t', '\n', '\U{B}', '\U{C}', '\r', ' ', '\U{85}', '\U{A0}', '\U{1680}', '\U{2028}', '\U{2029}'}
    || c in {'\U{202F}', '\U{205F}', '\U{3000}'}
    || '\U{2000}' <= c <= '\U{200A}'
  }

  function TrimLeft(s: string): string {
    if s == "" || !IsSpace(s[0]) then s else TrimLeft(s[1..])
  }

  function TrimRight(s: string): string {
    if s == "" || !IsSpace(s[|s| - 1]) then s else TrimRight(s[..|s| - 1])
  }

  function Trim(s: string): string {
    TrimRight(TrimLeft(s))
  }

  /** A trimmed, non-empty text. */
  predicate IsEntry(e: string) {
    e != "" && !IsSpace(e[0]) && !IsSpace(e[|e| - 1])
  }

  lemma {:induction false} TrimRightMeaning(s: string)
    ensures TrimRight(s) <= s
    ensures TrimRight(s) == "" || !IsSpace(TrimRight(s)[|TrimRight(s)| - 1])
    ensures s != "" && !IsSpace(s[0]) ==> TrimRight(s) != ""
  {
    if s != "" && IsSpace(s[|s| - 1]) {
      TrimRightMeaning(s[..|s| - 1]);
    }
  }

  lemma {:induction false} TrimLeftMeaning(s: string)
    ensures TrimLeft(s) == "" || !IsSpace(TrimLeft(s)[0])
  {
    if s != "" && IsSpace(s[0]) {
      TrimLeftMeaning(s[1..]);
    }
  }

  /** Trimming gives nothing or an entry, and leaves an entry alone. */
  lemma TrimMeaning(s: string)
    ensures Trim(s) == "" || IsEntry(Trim(s))
    ensures IsEntry(s) ==> Trim(s) == s
  {
    TrimLeftMeaning(s);
    TrimRightMeaning(TrimLeft(s));
  }

  predicate Blank(s: string) {
    forall i :: 0 <= i < |s| ==> IsSpace(s[i])
  }

  lemma {:induction false} TrimBlank(s: string)
    requires Blank(s)
    ensures Trim(s) == ""
  {
    if s != "" {
      TrimBlank(s[1..]);
    }
  }

  /** White space around an entry goes, of any kind and length. */
  lemma TrimAround(a: string, e: string, b: string)
    requires Blank(a) && IsEntry(e) && Blank(b)
    ensures Trim(a + e + b) == e
  {
    assert a + e + b == a + (e + b);
    TrimLeftAround(a, e + b);
    TrimRightAround(e, b);
  }

  lemma {:induction false} TrimLeftAround(a: string, s: string)
    requires Blank(a) && s != "" && !IsSpace(s[0])
    ensures TrimLeft(a + s) == s
  {
    if a == "" {
      assert a + s == s;
    } else {
      assert (a + s)[1..] == a[1..] + s;
      TrimLeftAround(a[1..], s);
    }
  }

  lemma {:induction false} TrimRightAround(s: string, b: string)
    requires Blank(b) && s != "" && !IsSpace(s[|s| - 1])
    ensures TrimRight(s + b) == s
  {
    if b == "" {
      assert s + b == s;
    } else {
      assert (s + b)[..|s + b| - 1] == s + b[..|b| - 1];
      TrimRightAround(s, b[..|b| - 1]);
    }
  }

  lemma TrimNewline(e: string)
    requires IsEntry(e)
    ensures Trim(e + "\n") == e
  {
    var s := e + "\n";
    assert s[0] == e[0] && s[|s| - 1] == '\n' && s[..|s| - 1] == e;
    assert TrimRight(s) == TrimRight(e);
  }

  /** UTF-8 bytes of a code point. */
  function Width(c: char): nat {
    if c < '\U{80}' then 1 else if c < '\U{800}' then 2 else if c < '\U{10000}' then 3 else 4
  }

  /** Seven bits fit one byte, eleven two, sixteen three. */
  lemma WidthMeaning(c: char)
    ensures var w := Width(c);
            && 1 <= w <= 4
            && (w == 1 <==> c as int < 128) && (w <= 2 <==> c as int < 2048) && (w <= 3 <==> c as int < 65536)
  {
  }

  function ByteLen(s: string): nat {
    if s == "" then 0 else ByteLen(s[..|s| - 1]) + Width(s[|s| - 1])
  }

  lemma {:induction false} ByteLenConcat(a: string, b: string)
    ensures ByteLen(a + b) == ByteLen(a) + ByteLen(b)
  {
    if b == "" {
      assert a + b == a;
    } else {
      assert (a + b)[..|a + b| - 1] == a + b[..|b| - 1];
      ByteLenConcat(a, b[..|b| - 1]);
    }
  }

  // ---------------------------------------------------------------- the file format

  predicate DelimiterAt(s: string, i: int) {
    0 <= i && i + 3 <= |s| && s[i] == '\n' && s[i + 1] == SECTION && s[i + 2] == '\n'
  }

  /** Where the delimiter first occurs. */
  function FindDelimiter(s: string): (r: Option<nat>)
    ensures r.Some? ==> DelimiterAt(s, r.value) && forall j :: 0 <= j < r.value ==> !DelimiterAt(s, j)
    ensures r.None? ==> forall j :: !DelimiterAt(s, j)
  {
    if s == "" then None
    else if DelimiterAt(s, 0) then Some(0)
    else
      var rest := FindDelimiter(s[1..]);
      assert forall j :: j > 0 ==> (DelimiterAt(s, j) <==> DelimiterAt(s[1..], j - 1));
      if rest.None? then None else Some(rest.value + 1)
  }

  /** strings.Split at the delimiter: leftmost occurrences, not overlapping. */
  function Split(s: string): seq<string>
    decreases |s|
  {
    match FindDelimiter(s)
    case None => [s]
    case Some(i) => [s[..i]] + Split(s[i + 3..])
  }

  /** The trimmed pieces that are not empty. */
  function Pieces(ps: seq<string>): seq<string> {
    if ps == [] then []
    else if Trim(ps[0]) == "" then Pieces(ps[1..])
    else [Trim(ps[0])] + Pieces(ps[1..])
  }

  /** The entries of a file; a missing file reads like an empty one. */
  function ReadEntries(file: string): seq<string> {
    if Trim(file) == "" then [] else Pieces(Split(file))
  }

  function Join(es: seq<string>): string {
    if es == [] then ""
    else if |es| == 1 then es[0]
    else es[0] + DELIMITER + Join(es[1..])
  }

  function FileOf(es: seq<string>): string {
    var content := Join(es);
    if content != "" then content + "\n" else content
  }

  /** An entry the file format can hold: no delimiter inside and none begun at its end. */
  predicate IsClean(e: string) {
    && FindDelimiter(e).None?
    && !(|e| >= 2 && e[|e| - 2] == '\n' && e[|e| - 1] == SECTION)
  }

  lemma FirstAt(s: string, i: nat)
    requires DelimiterAt(s, i) && forall j :: 0 <= j < i ==> !DelimiterAt(s, j)
    ensures FindDelimiter(s) == Some(i)
  {
  }

  /** What follows a clean entry in a file is found where the entry ends. */
  lemma CleanSplits(e: string, rest: string)
    requires IsClean(e)
    ensures FindDelimiter(e + DELIMITER + rest) == Some(|e|)
    ensures FindDelimiter(e + "\n").None?
  {
    var s := e + DELIMITER + rest;
    forall j | 0 <= j < |e|
      ensures !DelimiterAt(s, j)
    {
      assert !DelimiterAt(e, j);
    }
    FirstAt(s, |e|);
    forall j | 0 <= j
      ensures !DelimiterAt(e + "\n", j)
    {
      assert !DelimiterAt(e, j);
    }
  }

  lemma SplitCleanHead(e: string, rest: string)
    requires IsEntry(e) && IsClean(e)
    ensures Pieces(Split(e + DELIMITER + rest)) == [e] + Pieces(Split(rest))
    ensures Pieces(Split(e + "\n")) == [e]
  {
    CleanSplits(e, rest);
    var s := e + DELIMITER + rest;
    assert s[..|e|] == e && s[|e| + 3..] == rest;
    TrimMeaning(e);
    TrimNewline(e);
    assert Pieces([]) == [];
  }

  lemma JoinCons(es: seq<string>)
    requires |es| > 1
    ensures Join(es) + "\n" == es[0] + DELIMITER + (Join(es[1..]) + "\n")
  {
  }

  lemma {:induction false} CleanRoundTrip(es: seq<string>)
    requires es != [] && forall e :: e in es ==> IsEntry(e) && IsClean(e)
    ensures Pieces(Split(Join(es) + "\n")) == es
  {
    hide IsEntry, IsClean, Pieces, Split;
    if |es| == 1 {
      SplitCleanHead(es[0], "");
    } else {
      JoinCons(es);
      SplitCleanHead(es[0], Join(es[1..]) + "\n");
      CleanRoundTrip(es[1..]);
    }
  }

  /** The file text that follows the first entry begins with a newline. */
  lemma TextAfterHead(es: seq<string>)
    requires es != []
    ensures es[0] <= Join(es) + "\n" && (Join(es) + "\n")[|es[0]|] == '\n'
  {
  }

  /** An unclean entry is cut short: the first piece of a text that starts with it is a shorter one. */
  lemma {:induction false} UncleanCut(e: string, s: string)
    requires IsEntry(e) && !IsClean(e) && e <= s && |s| > |e| && s[|e|] == '\n'
    ensures Pieces(Split(s)) != [] && |Pieces(Split(s))[0]| < |e|
  {
    var q := if FindDelimiter(e).Some? then FindDelimiter(e).value else |e| - 2;
    assert DelimiterAt(s, q);
    var i := FindDelimiter(s).value;
    assert 0 < i <= q;
    TrimRightMeaning(s[..i]);
    assert Split(s)[0] == s[..i] && Trim(s[..i]) != "";
  }

  lemma {:induction false} UncleanNeverComesBack(es: seq<string>)
    requires es != [] && (forall e :: e in es ==> IsEntry(e)) && exists e :: e in es && !IsClean(e)
    ensures Pieces(Split(Join(es) + "\n")) != es
  {
    if IsClean(es[0]) {
      assert |es| > 1 && exists e :: e in es[1..] && !IsClean(e);
      SplitCleanHead(es[0], Join(es[1..]) + "\n");
      JoinCons(es);
      UncleanNeverComesBack(es[1..]);
    } else {
      TextAfterHead(es);
      UncleanCut(es[0], Join(es) + "\n");
    }
  }

  lemma FileNotBlank(es: seq<string>)
    requires es != [] && IsEntry(es[0])
    ensures Join(es) != "" && Trim(Join(es) + "\n") != ""
  {
    TrimRightMeaning(Join(es) + "\n");
  }

  /** Writing entries and reading them back gives them back exactly when each of them is clean. */
  lemma RoundTrip(es: seq<string>)
    requires forall e :: e in es ==> IsEntry(e)
    ensures ReadEntries(FileOf(es)) == es <==> forall e :: e in es ==> IsClean(e)
  {
    if es != [] {
      FileNotBlank(es);
      if forall e :: e in es ==> IsClean(e) {
        CleanRoundTrip(es);
      } else {
        UncleanNeverComesBack(es);
      }
    }
  }

  // ---------------------------------------------------------------- unclean entries that do no harm

  /** The text is what its own pieces join to, and each of them can be held: writing it is writing them. */
  predicate Rejoins(c: string) {
    var ps := Pieces(Split(c));
    Join(ps) == c && forall p :: p in ps ==> IsClean(p)
  }

  lemma {:induction false} PiecesAreEntries(ps: seq<string>)
    ensures forall p :: p in Pieces(ps) ==> IsEntry(p)
  {
    if ps != [] {
      TrimMeaning(ps[0]);
      PiecesAreEntries(ps[1..]);
    }
  }

  lemma WholeText(e: string)
    requires IsEntry(e) && IsClean(e)
    ensures Pieces(Split(e)) == [e]
  {
    TrimMeaning(e);
    assert Pieces([]) == [];
  }

  /** Joined clean entries split into themselves, also without the final newline. */
  lemma {:induction false} BareRoundTrip(es: seq<string>)
    requires es != [] && forall e :: e in es ==> IsEntry(e) && IsClean(e)
    ensures Pieces(Split(Join(es))) == es
  {
    hide IsEntry, IsClean, Pieces, Split;
    if |es| == 1 {
      WholeText(es[0]);
    } else {
      SplitCleanHead(es[0], Join(es[1..]));
      BareRoundTrip(es[1..]);
    }
  }

  /** What follows some entries in the joined text. */
  function Tail(es: seq<string>): string {
    if es == [] then "" else DELIMITER + Join(es)
  }

  lemma {:induction false} JoinTail(a: seq<string>, b: seq<string>)
    requires a != []
    ensures Join(a + b) == Join(a) + Tail(b)
  {
    assert (a + b)[1..] == a[1..] + b;
    if |a| > 1 {
      JoinTail(a[1..], b);
    }
  }

  /** An entry that rejoins can be written as its pieces. */
  lemma JoinPieces(pre: seq<string>, c: string, ps: seq<string>, post: seq<string>)
    requires ps != [] && Join(ps) == c
    ensures Join(pre + [c] + post) == Join(pre + ps + post)
  {
    hide Join;
    JoinTail([c], post);
    JoinTail(ps, post);
    JoinOne(c);
    assert pre + [c] + post == pre + ([c] + post) && pre + ps + post == pre + (ps + post);
    if pre == [] {
      assert pre + ([c] + post) == [c] + post && pre + (ps + post) == ps + post;
    } else {
      JoinTail(pre, [c] + post);
      JoinTail(pre, ps + post);
    }
  }

  /** Entries in front of a text are read back whatever the text. */
  lemma {:induction false} PrefixKept(pre: seq<string>, c: string)
    requires forall e :: e in pre ==> IsEntry(e) && IsClean(e)
    ensures Pieces(Split(Join(pre + [c]) + "\n")) == pre + Pieces(Split(c + "\n"))
  {
    hide IsEntry, IsClean, Pieces, Split;
    if pre == [] {
      assert pre + [c] == [c];
    } else {
      assert (pre + [c])[1..] == pre[1..] + [c];
      JoinCons(pre + [c]);
      SplitCleanHead(pre[0], Join(pre[1..] + [c]) + "\n");
      PrefixKept(pre[1..], c);
    }
  }

  /** Equal joined texts with equal entries around: what is between is equal, too. */
  lemma Between(pre: seq<string>, c: string, qs: seq<string>, post: seq<string>)
    requires c != "" && Join(pre + [c] + post) == Join(pre + qs + post)
    ensures qs != [] && Join(qs) == c
  {
    assert pre + [c] + post == pre + ([c] + post) && pre + qs + post == pre + (qs + post);
    if pre == [] {
      assert pre + ([c] + post) == [c] + post && pre + (qs + post) == qs + post;
    } else {
      JoinTail(pre, [c] + post);
      JoinTail(pre, qs + post);
      SameTail(Join(pre), [c] + post, qs + post);
    }
    BetweenFirst(c, qs, post);
  }

  lemma SameTail(s: string, a: seq<string>, b: seq<string>)
    requires a != [] && s + Tail(a) == s + Tail(b)
    ensures Join(a) == Join(b)
  {
    hide Join;
    assert (s + Tail(a))[|s|..] == Tail(a) && (s + Tail(b))[|s|..] == Tail(b);
    assert |Tail(a)| >= 3 && Tail(a)[3..] == Join(a);
    assert b != [] && Tail(b)[3..] == Join(b);
  }

  lemma BetweenFirst(c: string, qs: seq<string>, post: seq<string>)
    requires c != "" && Join([c] + post) == Join(qs + post)
    ensures qs != [] && Join(qs) == c
  {
    hide Join;
    JoinTail([c], post);
    JoinOne(c);
    assert [] + post == post;
    if qs != [] {
      JoinTail(qs, post);
      SameFront(c, Join(qs), Tail(post));
    }
  }

  lemma JoinOne(c: string)
    ensures Join([c]) == c && Join([]) == ""
  {
  }

  lemma SameFront(a: string, b: string, end: string)
    requires a + end == b + end
    ensures a == b
  {
    assert (a + end)[..|a|] == a && (b + end)[..|b|] == b;
  }

  /** An unclean entry can spoil its neighbour: one that ends where a delimiter begins takes the newline of the
      next delimiter, and the entry after it takes the rest. */
  lemma NeighbourSpoiled(e: string, f: string)
    requires IsEntry(e) && IsClean(e) && IsEntry(f) && IsClean([SECTION, '\n'] + f)
    ensures ReadEntries(FileOf([e + ['\n', SECTION], f])) == [e, [SECTION, '\n'] + f]
  {
    hide IsClean, Pieces, Split;
    var es, next := [e + ['\n', SECTION], f], [SECTION, '\n'] + f;
    assert es[1..] == [f] && Join(es) == es[0] + DELIMITER + f;
    FileNotBlank(es);
    SplitCleanHead(e, next + "\n");
    SplitCleanHead(next, "");
    assert Join(es) + "\n" == e + DELIMITER + (next + "\n");
  }
}
