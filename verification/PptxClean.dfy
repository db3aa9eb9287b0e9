/** Removing unreferenced parts from an unpacked presentation (skills/pptx/scripts/clean.py).
    A package maps each file to the in-package targets of its relationships (none unless it is a .rels file). */
module PptxClean {
  import opened Sets

  datatype Path = Path(dir: seq<string>, name: string)

  type Files = map<Path, set<Path>>

  const RELS := ".rels"
  const RELS_OWNERS: set<string> := {"charts", "diagrams", "drawings"}
  const RESOURCES: set<string> := {"media", "embeddings", "charts", "diagrams", "tags", "drawings", "ink"}
  const SLIDES := ["ppt", "slides"]
  const SLIDE_RELS := ["ppt", "slides", "_rels"]
  const THEME := ["ppt", "theme"]
  const THEME_RELS := ["ppt", "theme", "_rels"]
  const NOTES := ["ppt", "notesSlides"]
  const NOTES_RELS := ["ppt", "notesSlides", "_rels"]
  const TRASH := ["[trash]"]
  const PRESENTATION_RELS := Path(["ppt", "_rels"], "presentation.xml.rels")

  predicate EndsWith(s: string, end: string) {
    |end| <= |s| && s[|s| - |end|..] == end
  }

  predicate IsRels(p: Path) {
    EndsWith(p.name, RELS)
  }

  /** name.replace(".rels", ""). */
  function StripRels(name: string): string
    decreases |name|
  {
    if |name| < |RELS| then name
    else if name[..|RELS|] == RELS then StripRels(name[|RELS|..])
    else [name[0]] + StripRels(name[1..])
  }

  // ---------------------------------------------------------------- what refers to what

  /** Everything the slides' relationships point at. */
  function SlideTargets(files: Files): set<Path> {
    set r, t | r in files && r.dir == SLIDE_RELS && IsRels(r) && t in files[r] :: t
  }

  /** Everything any relationship points at. */
  function AllTargets(files: Files): set<Path> {
    set r, t | r in files && IsRels(r) && t in files[r] :: t
  }

  predicate IsResource(p: Path) {
    |p.dir| == 2 && p.dir[0] == "ppt" && p.dir[1] in RESOURCES
  }

  /** The .rels file of a chart, diagram or drawing. */
  predicate IsOwnedRels(p: Path) {
    |p.dir| == 3 && p.dir[0] == "ppt" && p.dir[1] in RELS_OWNERS && p.dir[2] == "_rels" && IsRels(p)
  }

  /** What a .rels file in a _rels folder belongs to, the folder itself when nothing is left of its name. */
  function OwnerOf(p: Path): Path
    requires |p.dir| >= 2
  {
    var n := |p.dir| - 1;
    if StripRels(p.name) == "" then Path(p.dir[..n - 1], p.dir[n - 1]) else Path(p.dir[..n], StripRels(p.name))
  }

  /** Some file lies in the folder `p` or below. */
  predicate IsFolder(files: Files, p: Path) {
    exists f :: f in files && p.dir + [p.name] <= f.dir
  }

  /** `p` is there, as a file or a folder. */
  predicate Exists(files: Files, p: Path) {
    p in files || IsFolder(files, p)
  }

  predicate IsTheme(p: Path) {
    p.dir == THEME && |p.name| >= 9 && p.name[..5] == "theme" && EndsWith(p.name, ".xml")
  }

  predicate IsNotes(p: Path) {
    p.dir == NOTES && EndsWith(p.name, ".xml")
  }

  predicate IsNotesRels(p: Path) {
    p.dir == NOTES_RELS && IsRels(p)
  }

  /** Files that stay only as long as something refers to them. */
  predicate IsScanned(p: Path) {
    IsResource(p) || IsTheme(p) || IsNotes(p)
  }

  // ---------------------------------------------------------------- one round

  predicate KeepsRels(files: Files, slideTargets: set<Path>, p: Path) {
    IsOwnedRels(p) ==> Exists(files, OwnerOf(p)) && OwnerOf(p) in slideTargets
  }

  /** The .rels files a round removes first. */
  function OrphanRels(files: Files): set<Path> {
    set p | p in files && !KeepsRels(files, SlideTargets(files), p)
  }

  /** The .rels file of a theme that is being removed. */
  predicate IsRelsOfLost(files: Files, referenced: set<Path>, p: Path) {
    p.dir == THEME_RELS && |p.name| >= |RELS| && IsRels(p)
    && var t := Path(THEME, p.name[..|p.name| - |RELS|]);
    t in files && IsTheme(t) && t !in referenced
  }

  predicate IsLost(files: Files, referenced: set<Path>, p: Path) {
    || (IsScanned(p) && p !in referenced)
    || IsRelsOfLost(files, referenced, p)
    || (IsNotesRels(p) && !OwnerStays(files, referenced, p))
  }

  /** What the notes relationships `p` belong to is there and will not go. */
  predicate OwnerStays(files: Files, referenced: set<Path>, p: Path)
    requires IsNotesRels(p)
  {
    var o := OwnerOf(p);
    IsFolder(files, o) || (o in files && (IsNotes(o) ==> o in referenced))
  }

  /** The files a round removes then. */
  function Lost(files: Files, referenced: set<Path>): set<Path> {
    set p | p in files && IsLost(files, referenced, p)
  }

  function AfterRels(files: Files): Files {
    files - OrphanRels(files)
  }

  function AfterRound(files: Files): Files {
    var f := AfterRels(files);
    f - Lost(f, AllTargets(f))
  }

  /** A round would remove nothing. */
  predicate IsStable(files: Files) {
    OrphanRels(files) == {} && Lost(files, AllTargets(files)) == {}
  }

  // ---------------------------------------------------------------- slides and trash

  predicate IsLostSlide(kept: set<string>, p: Path) {
    p.dir == SLIDES && |p.name| >= 9 && p.name[..5] == "slide" && EndsWith(p.name, ".xml") && p.name !in kept
  }

  function SlideRelsOf(slide: Path): Path {
    Path(SLIDE_RELS, slide.name + RELS)
  }

  /** What goes with the slides that the presentation does not list. */
  function LostSlides(kept: set<string>, files: Files): set<Path> {
    (set p | p in files && IsLostSlide(kept, p))
    + (set p | p in files && IsLostSlide(kept, p) && SlideRelsOf(p) in files :: SlideRelsOf(p))
  }

  /** The presentation's relationships lose their entries for slides that are not listed. */
  function WithoutLostSlides(kept: set<string>, files: Files): Files {
    var lost := LostSlides(kept, files);
    var rest := files - lost;
    if lost != {} && PRESENTATION_RELS in rest
    then rest[PRESENTATION_RELS := set t | t in rest[PRESENTATION_RELS] && (t.dir == SLIDES ==> t.name in kept)]
    else rest
  }

  function WithoutTrash(files: Files): Files {
    files - set p | p in files && p.dir == TRASH
  }

  // ---------------------------------------------------------------- rounds until nothing changes

  lemma {:induction false} FewerFiles(files: Files, gone: set<Path>)
    ensures |files - gone| <= |files|
    ensures files - gone != files ==> |files - gone| < |files|
  {
    assert (files - gone).Keys == files.Keys - gone;
    SubsetSize(files.Keys - gone, files.Keys);
  }

  lemma RoundShrinks(files: Files)
    ensures AfterRound(files) != files ==> |AfterRound(files)| < |files|
  {
    var f := AfterRels(files);
    FewerFiles(files, OrphanRels(files));
    FewerFiles(f, Lost(f, AllTargets(f)));
  }

  /** Rounds until one removes nothing. */
  function Settle(files: Files): Files
    decreases |files|
  {
    RoundShrinks(files);
    if AfterRound(files) == files then files else Settle(AfterRound(files))
  }

  /** What a whole run leaves. */
  function Cleaned(kept: set<string>, files: Files): Files {
    Settle(WithoutTrash(WithoutLostSlides(kept, files)))
  }

  lemma UnchangedIsStable(files: Files)
    requires AfterRound(files) == files
    ensures IsStable(files)
  {
    var f := AfterRels(files);
    assert forall p :: p in AfterRound(files) ==> p in f && p !in OrphanRels(files) && p !in Lost(f, AllTargets(f));
    assert OrphanRels(files) == {};
    assert f == files;
  }

  /** The loop ends in a package from which a further round removes nothing. */
  lemma {:induction false} SettleStable(files: Files)
    ensures IsStable(Settle(files))
    decreases |files|
  {
    RoundShrinks(files);
    if AfterRound(files) == files {
      UnchangedIsStable(files);
    } else {
      SettleStable(AfterRound(files));
    }
  }

  /** In a stable package every file of the scanned folders is the target of a relationship that is there. */
  lemma StableIsReferenced(files: Files, p: Path)
    requires IsStable(files) && p in files && IsScanned(p)
    ensures exists r :: r in files && IsRels(r) && p in files[r]
  {
    assert p !in Lost(files, AllTargets(files));
  }

  // ---------------------------------------------------------------- nothing needed is removed

  /** Files of `all` that justify each other's presence: cut down to them, the package is stable, and no theme
      relationships stay without the theme. */
  predicate SelfSupporting(all: Files, part: set<Path>) {
    && part <= all.Keys
    && (forall p :: p in part ==> KeepsRels(Only(all, part), SlideTargets(Only(all, part)), p))
    && (forall p :: p in part && IsScanned(p) ==> p in AllTargets(Only(all, part)))
    && (forall p :: p in part && IsNotesRels(p) ==> Exists(Only(all, part), OwnerOf(p)))
    && ThemesWithRels(all, part)
  }

  /** The relationships of a theme of `all` are in `part` only with the theme. */
  predicate ThemesWithRels(all: Files, part: set<Path>) {
    forall p :: p in part && p.dir == THEME_RELS && |p.name| >= |RELS| && IsRels(p) ==>
      var t := Path(THEME, p.name[..|p.name| - |RELS|]); t in all && IsTheme(t) ==> t in part
  }

  function Only(all: Files, part: set<Path>): Files {
    map p | p in all && p in part :: all[p]
  }

  /** `files` is a part of `all`, with the same relationships. */
  predicate IsPart(files: Files, all: Files) {
    forall p :: p in files ==> p in all && files[p] == all[p]
  }

  lemma {:induction false} RoundKeepsSupported(all: Files, files: Files, part: set<Path>)
    requires IsPart(files, all) && part <= files.Keys && SelfSupporting(all, part)
    ensures IsPart(AfterRound(files), all) && part <= AfterRound(files).Keys
  {
    var only := Only(all, part);
    assert SlideTargets(only) <= SlideTargets(files);
    forall p | p in part
      ensures p in AfterRels(files)
    {
      assert KeepsRels(only, SlideTargets(only), p);
    }
    var f := AfterRels(files);
    LostSparesSupported(all, f, part);
  }

  lemma LostSparesSupported(all: Files, f: Files, part: set<Path>)
    requires IsPart(f, all) && part <= f.Keys && SelfSupporting(all, part)
    ensures part !! Lost(f, AllTargets(f))
  {
    hide OwnerOf, IsResource, IsTheme, IsRels;
    MoreTargets(all, f, part);
    forall p | p in part
      ensures !IsLost(f, AllTargets(f), p)
    {
      if IsNotesRels(p) {
        OwnerSupported(all, f, part, p);
      }
    }
  }

  lemma MoreTargets(all: Files, f: Files, part: set<Path>)
    requires IsPart(f, all) && part <= f.Keys
    ensures AllTargets(Only(all, part)) <= AllTargets(f) && SlideTargets(Only(all, part)) <= SlideTargets(f)
    ensures Only(all, part).Keys <= f.Keys
  {
  }

  lemma OwnerSupported(all: Files, f: Files, part: set<Path>, p: Path)
    requires IsPart(f, all) && part <= f.Keys && SelfSupporting(all, part) && p in part && IsNotesRels(p)
    ensures OwnerStays(f, AllTargets(f), p)
  {
    hide OwnerOf, AllTargets, SlideTargets, KeepsRels, ThemesWithRels;
    MoreTargets(all, f, part);
    MoreFolders(Only(all, part), f, OwnerOf(p));
    assert OwnerOf(p) in part && IsNotes(OwnerOf(p)) ==> IsScanned(OwnerOf(p));
  }

  lemma MoreFolders(f: Files, f2: Files, p: Path)
    requires f.Keys <= f2.Keys
    ensures IsFolder(f, p) ==> IsFolder(f2, p)
  {
  }

  /** The loop never removes a file that files justifying each other include. */
  lemma {:induction false} SettleKeepsSupported(all: Files, files: Files, part: set<Path>)
    requires IsPart(files, all) && part <= files.Keys && SelfSupporting(all, part)
    ensures part <= Settle(files).Keys && IsPart(Settle(files), all)
    decreases |files|
  {
    RoundShrinks(files);
    if AfterRound(files) != files {
      RoundKeepsSupported(all, files, part);
      SettleKeepsSupported(all, AfterRound(files), part);
    }
  }

  lemma RoundKeepsThemes(all: Files, files: Files)
    requires IsPart(files, all) && ThemesWithRels(all, files.Keys)
    ensures IsPart(AfterRound(files), all) && ThemesWithRels(all, AfterRound(files).Keys)
  {
    var f := AfterRels(files);
    forall p | p in AfterRound(files) && p.dir == THEME_RELS && |p.name| >= |RELS| && IsRels(p)
      ensures var t := Path(THEME, p.name[..|p.name| - |RELS|]); t in all && IsTheme(t) ==> t in AfterRound(files)
    {
      var t := Path(THEME, p.name[..|p.name| - |RELS|]);
      assert p in f && !IsLost(f, AllTargets(f), p);
      if t in all && IsTheme(t) {
        assert t in f && t in AllTargets(f);
      }
    }
  }

  lemma StableSupportsItself(all: Files, files: Files)
    requires IsStable(files) && IsPart(files, all) && ThemesWithRels(all, files.Keys)
    ensures SelfSupporting(all, files.Keys)
  {
    assert Only(all, files.Keys) == files;
    forall p | p in files
      ensures KeepsRels(files, SlideTargets(files), p)
      ensures IsScanned(p) ==> p in AllTargets(files)
      ensures IsNotesRels(p) ==> Exists(files, OwnerOf(p))
    {
      assert p !in OrphanRels(files) && p !in Lost(files, AllTargets(files));
    }
  }

  lemma {:induction false} SettleSupportsItself(all: Files, files: Files)
    requires IsPart(files, all) && ThemesWithRels(all, files.Keys)
    ensures SelfSupporting(all, Settle(files).Keys)
    decreases |files|
  {
    RoundShrinks(files);
    if AfterRound(files) == files {
      UnchangedIsStable(files);
      StableSupportsItself(all, files);
    } else {
      RoundKeepsThemes(all, files);
      SettleSupportsItself(all, AfterRound(files));
    }
  }

  /** What the loop leaves is exactly the largest part of the package whose files justify each other. */
  lemma SettleIsLargest(files: Files)
    ensures SelfSupporting(files, Settle(files).Keys)
    ensures forall part :: SelfSupporting(files, part) ==> part <= Settle(files).Keys
  {
    SettleSupportsItself(files, files);
    forall part | SelfSupporting(files, part)
      ensures part <= Settle(files).Keys
    {
      SettleKeepsSupported(files, files, part);
    }
  }

  predicate InRelsFolder(p: Path) {
    |p.dir| > 0 && p.dir[|p.dir| - 1] == "_rels"
  }

  predicate IsSlideRels(p: Path) {
    p.dir == SLIDE_RELS && IsRels(p)
  }

  /** Parts that a slide's relationships target. */
  function OnSlides(files: Files): set<Path> {
    set p | p in files && p in SlideTargets(files) && !InRelsFolder(p)
  }

  /** The relationships of charts, diagrams and drawings among them ... */
  function OwnedByShown(files: Files): set<Path> {
    set p | p in files && IsOwnedRels(p) && OwnerOf(p) in OnSlides(files)
  }

  /** ... and the parts those target. */
  function BehindShown(files: Files): set<Path> {
    set r, t | r in OwnedByShown(files) && r in files && t in files[r] && t in files && !InRelsFolder(t) :: t
  }

  /** What the slides show: the slides' relationships and all of the above. */
  function Shown(files: Files): set<Path> {
    (set p | p in files && IsSlideRels(p)) + OnSlides(files) + OwnedByShown(files) + BehindShown(files)
  }

  lemma ShownSlideTargets(files: Files)
    ensures SlideTargets(Only(files, Shown(files))) == SlideTargets(files)
  {
    var only := Only(files, Shown(files));
    forall t | t in SlideTargets(files)
      ensures t in SlideTargets(only)
    {
      var r :| r in files && r.dir == SLIDE_RELS && IsRels(r) && t in files[r];
      assert IsSlideRels(r) && r in only && only[r] == files[r];
    }
  }

  lemma ShownRelsKept(files: Files, p: Path)
    requires p in Shown(files)
    ensures KeepsRels(Only(files, Shown(files)), SlideTargets(files), p)
  {
    if IsOwnedRels(p) {
      assert InRelsFolder(p);
      assert p in OwnedByShown(files);
      assert OwnerOf(p) in OnSlides(files);
    }
  }

  lemma TargetOf(files: Files, r: Path, t: Path)
    requires r in files && IsRels(r) && t in files[r]
    ensures t in AllTargets(files)
  {
  }

  lemma ShownIsTargeted(files: Files, p: Path)
    requires p in Shown(files) && !InRelsFolder(p)
    ensures p in AllTargets(Only(files, Shown(files)))
  {
    hide AllTargets, OnSlides, BehindShown, IsRels;
    if p in OnSlides(files) {
      OnSlidesTargeted(files, p);
    } else {
      BehindShownTargeted(files, p);
    }
  }

  lemma OnSlidesTargeted(files: Files, p: Path)
    requires p in OnSlides(files)
    ensures p in AllTargets(Only(files, Shown(files)))
  {
    hide AllTargets, OwnedByShown, BehindShown, IsRels;
    var r :| r in files && r.dir == SLIDE_RELS && IsRels(r) && p in files[r];
    assert IsSlideRels(r) && r in Shown(files);
    TargetOf(Only(files, Shown(files)), r, p);
  }

  lemma BehindShownTargeted(files: Files, p: Path)
    requires p in BehindShown(files)
    ensures p in AllTargets(Only(files, Shown(files)))
  {
    hide AllTargets, SlideTargets, IsRels;
    var r :| r in OwnedByShown(files) && r in files && p in files[r];
    assert IsRels(r) && r in Shown(files);
    TargetOf(Only(files, Shown(files)), r, p);
  }

  lemma ShownFolders(files: Files, p: Path)
    requires p in Shown(files) && InRelsFolder(p)
    ensures IsSlideRels(p) || IsOwnedRels(p)
  {
  }

  lemma ShownElement(files: Files, p: Path)
    requires p in Shown(files)
    ensures p in files
    ensures KeepsRels(Only(files, Shown(files)), SlideTargets(Only(files, Shown(files))), p)
    ensures IsScanned(p) ==> p in AllTargets(Only(files, Shown(files)))
    ensures !IsNotesRels(p) && p.dir != THEME_RELS
  {
    hide Shown, Only, KeepsRels, AllTargets, SlideTargets;
    ShownSlideTargets(files);
    ShownRelsKept(files, p);
    ShownInPackage(files, p);
    if InRelsFolder(p) {
      ShownFolders(files, p);
    } else {
      ShownIsTargeted(files, p);
    }
  }

  lemma ShownInPackage(files: Files, p: Path)
    requires p in Shown(files)
    ensures p in files
  {
    hide SlideTargets, IsOwnedRels;
  }

  lemma ShownSupportsItself(files: Files)
    ensures SelfSupporting(files, Shown(files))
  {
    hide Shown, Only, KeepsRels, AllTargets, SlideTargets, IsScanned, IsNotesRels, IsTheme;
    forall p | p in Shown(files)
      ensures p in files && KeepsRels(Only(files, Shown(files)), SlideTargets(Only(files, Shown(files))), p)
      ensures IsScanned(p) ==> p in AllTargets(Only(files, Shown(files)))
      ensures !IsNotesRels(p) && p.dir != THEME_RELS
    {
      ShownElement(files, p);
    }
  }

  /** No file the slides show is ever removed by the loop. */
  lemma ShownSurvives(files: Files)
    ensures Shown(files) <= Settle(files).Keys
  {
    ShownSupportsItself(files);
    SettleKeepsSupported(files, files, Shown(files));
  }

  /** Over the whole script a resource that the relationships of a slide that stays target stays, too ... */
  lemma ShownStays(kept: set<string>, files: Files, r: Path, t: Path)
    requires r in files && IsSlideRels(r) && r !in LostSlides(kept, files)
    requires t in files[r] && t in files && IsResource(t)
    ensures r in Cleaned(kept, files) && t in Cleaned(kept, files)
  {
    hide WithoutTrash, WithoutLostSlides, LostSlides;
    var start := WithoutTrash(WithoutLostSlides(kept, files));
    OtherFolder(kept, files, t);
    Untouched(kept, files, r);
    Untouched(kept, files, t);
    assert r in Shown(start) && t in OnSlides(start);
    ShownSurvives(start);
  }

  /** ... and so do a chart's, diagram's or drawing's own relationships and the resources they target. */
  lemma BehindShownStays(kept: set<string>, files: Files, r: Path, o: Path, t: Path)
    requires r in files && IsSlideRels(r) && r !in LostSlides(kept, files)
    requires o in files && IsOwnedRels(o) && OwnerOf(o) in files[r] && OwnerOf(o) in files && IsResource(OwnerOf(o))
    requires t in files[o] && t in files && IsResource(t)
    ensures o in Cleaned(kept, files) && t in Cleaned(kept, files)
  {
    hide WithoutTrash, WithoutLostSlides, LostSlides, OwnerOf, StripRels;
    var start := WithoutTrash(WithoutLostSlides(kept, files));
    OtherFolder(kept, files, o);
    OtherFolder(kept, files, OwnerOf(o));
    OtherFolder(kept, files, t);
    Untouched(kept, files, r);
    Untouched(kept, files, o);
    Untouched(kept, files, OwnerOf(o));
    Untouched(kept, files, t);
    assert OwnerOf(o) in OnSlides(start);
    assert o in OwnedByShown(start) && t in BehindShown(start);
    ShownSurvives(start);
  }

  lemma OtherFolder(kept: set<string>, files: Files, p: Path)
    requires p.dir != SLIDES && p.dir != SLIDE_RELS
    ensures p !in LostSlides(kept, files)
  {
  }

  /** Slides and trash aside, the loop starts with what was there. */
  lemma Untouched(kept: set<string>, files: Files, p: Path)
    requires p in files && p !in LostSlides(kept, files) && p.dir != TRASH && p != PRESENTATION_RELS
    ensures var start := WithoutTrash(WithoutLostSlides(kept, files)); p in start && start[p] == files[p]
  {
    hide LostSlides;
  }

  // ---------------------------------------------------------------- a second run

  lemma StableIsSettled(files: Files)
    requires IsStable(files)
    ensures Settle(files) == files
  {
    assert AfterRels(files) == files;
    assert AfterRound(files) == files;
  }

  lemma {:induction false} SettlePart(files: Files)
    ensures IsPart(Settle(files), files)
    decreases |files|
  {
    RoundShrinks(files);
    if AfterRound(files) != files {
      SettlePart(AfterRound(files));
    }
  }

  /** After a run nothing is in the trash and no slide is there that the presentation does not list. */
  lemma CleanedHasNoLeftovers(kept: set<string>, files: Files)
    ensures LostSlides(kept, Cleaned(kept, files)) == {}
    ensures forall p :: p in Cleaned(kept, files) ==> p.dir != TRASH
  {
    var start := WithoutTrash(WithoutLostSlides(kept, files));
    SettlePart(start);
    assert forall p :: p in start ==> p in files && p !in LostSlides(kept, files) && p.dir != TRASH;
    assert forall p :: p in start ==> !IsLostSlide(kept, p);
  }

  /** A second run changes nothing. */
  lemma CleanTwice(kept: set<string>, files: Files)
    ensures Cleaned(kept, Cleaned(kept, files)) == Cleaned(kept, files)
  {
    var once := Cleaned(kept, files);
    CleanedHasNoLeftovers(kept, files);
    assert WithoutLostSlides(kept, once) == once;
    assert WithoutTrash(once) == once;
    SettleStable(WithoutTrash(WithoutLostSlides(kept, files)));
    StableIsSettled(once);
  }
}
