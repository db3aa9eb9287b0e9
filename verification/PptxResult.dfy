/** What is left of a package after a run, said by folders and file names (skills/pptx/scripts/clean.py). */
module PptxResult {
  import opened PptxClean
  import opened Strings

  // ---------------------------------------------------------------- slides

  /** A file that no phase of the script looks at stays, with its targets. */
  lemma PlainStays(kept: set<string>, files: Files, p: Path)
    requires p in files && p !in LostSlides(kept, files) && p.dir != TRASH && p != PRESENTATION_RELS
    requires !IsOwnedRels(p) && !IsScanned(p) && !IsNotesRels(p) && p.dir != THEME_RELS
    ensures p in Cleaned(kept, files) && Cleaned(kept, files)[p] == files[p]
  {
    hide LostSlides, IsOwnedRels, IsScanned, IsNotesRels, WithoutTrash, WithoutLostSlides;
    var start := WithoutTrash(WithoutLostSlides(kept, files));
    Untouched(kept, files, p);
    SettleKeepsSupported(start, start, {p});
  }

  /** A listed slide stays, and so do its relationships ... */
  lemma KeptSlideStays(kept: set<string>, files: Files, name: string)
    requires name in kept
    ensures var slide := Path(["ppt", "slides"], name);
            slide in files ==> slide in Cleaned(kept, files) && Cleaned(kept, files)[slide] == files[slide]
    ensures var rels := Path(["ppt", "slides", "_rels"], name + ".rels");
            rels in files ==> rels in Cleaned(kept, files) && Cleaned(kept, files)[rels] == files[rels]
  {
    var slide, rels := Path(["ppt", "slides"], name), Path(["ppt", "slides", "_rels"], name + ".rels");
    KeptNotLost(kept, files, name);
    if slide in files {
      PlainStays(kept, files, slide);
    }
    if rels in files {
      PlainStays(kept, files, rels);
    }
  }

  lemma KeptNotLost(kept: set<string>, files: Files, name: string)
    requires name in kept
    ensures Path(["ppt", "slides"], name) !in LostSlides(kept, files)
    ensures Path(["ppt", "slides", "_rels"], name + ".rels") !in LostSlides(kept, files)
  {
    var rels := Path(["ppt", "slides", "_rels"], name + ".rels");
    forall p | p in files && IsLostSlide(kept, p)
      ensures SlideRelsOf(p) != rels
    {
      SameStem(p.name, name);
    }
  }

  lemma SameStem(a: string, b: string)
    ensures a + ".rels" == b + ".rels" ==> a == b
  {
    if a + ".rels" == b + ".rels" {
      assert |a| == |b| && (a + ".rels")[..|a|] == a && (b + ".rels")[..|b|] == b;
    }
  }

  /** ... and an unlisted one goes, with its relationships. */
  lemma UnlistedSlideGoes(kept: set<string>, files: Files, name: string)
    requires name !in kept && |name| >= 9 && "slide" <= name && name[|name| - 4..] == ".xml"
    ensures Path(["ppt", "slides"], name) !in Cleaned(kept, files)
    ensures Path(["ppt", "slides"], name) in files ==>
              Path(["ppt", "slides", "_rels"], name + ".rels") !in Cleaned(kept, files)
  {
    hide WithoutTrash, Settle;
    var slide, rels := Path(["ppt", "slides"], name), Path(["ppt", "slides", "_rels"], name + ".rels");
    assert IsLostSlide(kept, slide) && SlideRelsOf(slide) == rels;
    OnlyWhatWas(kept, files, slide);
    OnlyWhatWas(kept, files, rels);
  }

  /** The loop adds no file. */
  lemma OnlyWhatWas(kept: set<string>, files: Files, p: Path)
    ensures p in Cleaned(kept, files) ==>
              && p in files && p !in LostSlides(kept, files) && p.dir != TRASH
              && (p != PRESENTATION_RELS ==> Cleaned(kept, files)[p] == files[p])
  {
    hide LostSlides;
    SettlePart(WithoutTrash(WithoutLostSlides(kept, files)));
  }

  lemma TrashGoes(kept: set<string>, files: Files, name: string)
    ensures Path(["[trash]"], name) !in Cleaned(kept, files)
  {
    hide Cleaned;
    OnlyWhatWas(kept, files, Path(["[trash]"], name));
  }

  /** The presentation keeps its relationships, but for those to slides it does not list once a slide goes. */
  lemma PresentationRels(kept: set<string>, files: Files, t: Path)
    requires Path(["ppt", "_rels"], "presentation.xml.rels") in files
    ensures var rels := Path(["ppt", "_rels"], "presentation.xml.rels");
            && rels in Cleaned(kept, files)
            && (t in Cleaned(kept, files)[rels] ==> t in files[rels])
            && (t in files[rels] && (t.dir != ["ppt", "slides"] || t.name in kept) ==> t in Cleaned(kept, files)[rels])
            && (LostSlides(kept, files) != {} && t.dir == ["ppt", "slides"] && t.name !in kept ==>
                  t !in Cleaned(kept, files)[rels])
  {
    hide LostSlides, Settle;
    var rels := PRESENTATION_RELS;
    NotASlide(kept, files, rels);
    var start := WithoutTrash(WithoutLostSlides(kept, files));
    assert !IsOwnedRels(rels) && !IsScanned(rels) && !IsNotesRels(rels) && rels.dir != THEME_RELS;
    SettleKeepsSupported(start, start, {rels});
  }

  lemma NotASlide(kept: set<string>, files: Files, p: Path)
    requires p.dir != ["ppt", "slides"] && p.dir != ["ppt", "slides", "_rels"]
    ensures p !in LostSlides(kept, files)
  {
  }

  // ---------------------------------------------------------------- what is removed, and what is not

  /** Files outside the folders the script cleans stay as they are. */
  lemma OtherFilesStay(kept: set<string>, files: Files, p: Path)
    requires p in files && p != Path(["ppt", "_rels"], "presentation.xml.rels") && p.dir != ["[trash]"]
    requires |p.dir| >= 2 && p.dir[0] == "ppt" ==>
               p.dir[1] !in {"slides", "media", "embeddings", "charts", "diagrams", "tags", "drawings", "ink", "theme",
                             "notesSlides"}
    ensures p in Cleaned(kept, files) && Cleaned(kept, files)[p] == files[p]
  {
    hide LostSlides;
    NotASlide(kept, files, p);
    PlainStays(kept, files, p);
  }

  /** The folders and names of which only what is referred to stays. */
  predicate IsCollected(p: Path) {
    || p.dir in {["ppt", "media"], ["ppt", "embeddings"], ["ppt", "charts"], ["ppt", "diagrams"], ["ppt", "tags"],
                 ["ppt", "drawings"], ["ppt", "ink"]}
    || (p.dir == ["ppt", "theme"] && |p.name| >= 9 && "theme" <= p.name && p.name[|p.name| - 4..] == ".xml")
    || (p.dir == ["ppt", "notesSlides"] && |p.name| >= 4 && p.name[|p.name| - 4..] == ".xml")
  }

  lemma CollectedIsScanned(p: Path)
    ensures IsCollected(p) <==> IsScanned(p)
  {
    if IsScanned(p) && IsResource(p) {
      assert p.dir == ["ppt", p.dir[1]];
    }
  }

  /** Nothing in them is left that no relationship of the package targets ... */
  lemma NothingUnreferenced(kept: set<string>, files: Files, p: Path)
    requires p in Cleaned(kept, files) && IsCollected(p)
    ensures exists r :: r in Cleaned(kept, files) && |r.name| >= 5 && r.name[|r.name| - 5..] == ".rels"
                        && p in Cleaned(kept, files)[r]
  {
    hide IsScanned, IsCollected, Settle;
    CollectedIsScanned(p);
    SettleStable(WithoutTrash(WithoutLostSlides(kept, files)));
    StableIsReferenced(Cleaned(kept, files), p);
  }

  /** ... and what a relationships file outside the cleaned folders, or of a listed slide, targets is not removed. */
  lemma TargetedStays(kept: set<string>, files: Files, r: Path, p: Path)
    requires r in files && |r.name| >= 5 && r.name[|r.name| - 5..] == ".rels"
    requires r !in LostSlides(kept, files) && r.dir != ["[trash]"]
    requires r.dir !in {["ppt", "charts", "_rels"], ["ppt", "diagrams", "_rels"], ["ppt", "drawings", "_rels"],
                        ["ppt", "notesSlides", "_rels"], ["ppt", "theme", "_rels"]}
    requires !IsCollected(r) && IsCollected(p) && p in files && p in files[r]
    ensures p in Cleaned(kept, files)
  {
    hide IsCollected, LostSlides, WithoutTrash, WithoutLostSlides;
    var start := WithoutTrash(WithoutLostSlides(kept, files));
    CollectedIsScanned(p);
    CollectedIsScanned(r);
    CollectedFolder(p);
    NotASlide(kept, files, p);
    Untouched(kept, files, p);
    TargetKept(kept, files, r, p);
    NotOwned(r);
    PairSupportsItself(start, r, p);
    SettleKeepsSupported(start, start, {r, p});
  }

  lemma CollectedFolder(p: Path)
    requires IsCollected(p)
    ensures |p.dir| == 2 && p.dir != ["ppt", "slides"] && p.dir != TRASH && p != PRESENTATION_RELS
  {
  }

  lemma NotOwned(r: Path)
    requires r.dir !in {["ppt", "charts", "_rels"], ["ppt", "diagrams", "_rels"], ["ppt", "drawings", "_rels"],
                        ["ppt", "notesSlides", "_rels"], ["ppt", "theme", "_rels"]}
    ensures !IsOwnedRels(r) && !IsNotesRels(r) && r.dir != THEME_RELS
  {
    OwnedFolder(r);
  }

  lemma OwnedFolder(p: Path)
    ensures IsOwnedRels(p) ==>
              p.dir in {["ppt", "charts", "_rels"], ["ppt", "diagrams", "_rels"], ["ppt", "drawings", "_rels"]}
  {
    if IsOwnedRels(p) {
      assert p.dir == ["ppt", p.dir[1], "_rels"];
    }
  }

  lemma TargetKept(kept: set<string>, files: Files, r: Path, p: Path)
    requires r in files && r !in LostSlides(kept, files) && r.dir != TRASH
    requires p in files[r] && p.dir != ["ppt", "slides"]
    ensures var start := WithoutTrash(WithoutLostSlides(kept, files)); r in start && p in start[r]
  {
    hide LostSlides;
  }

  lemma PairSupportsItself(files: Files, r: Path, p: Path)
    requires r in files && p in files && IsRels(r) && p in files[r]
    requires !IsOwnedRels(r) && !IsNotesRels(r) && r.dir != THEME_RELS && !IsScanned(r) && IsScanned(p)
    ensures SelfSupporting(files, {r, p})
  {
    hide SlideTargets;
    var only := Only(files, {r, p});
    assert r in only && p in only[r] && p in AllTargets(only);
    assert !IsOwnedRels(p) && !IsNotesRels(p) && p.dir != THEME_RELS;
  }

  // ---------------------------------------------------------------- relationships of removed parts

  /** A name after which ".rels" can be added without any earlier ".rels" in the result. */
  predicate IsStem(base: string) {
    base != "" && NoneBefore(base)
  }

  predicate NoneBefore(base: string) {
    forall i :: 0 <= i < |base| ==> !ContainsAt(base + ".rels", ".rels", i)
  }

  lemma {:induction false} StripAdded(base: string)
    requires NoneBefore(base)
    ensures StripRels(base + ".rels") == base
  {
    hide NoneBefore;
    var name := base + ".rels";
    if base == "" {
      assert name[5..] == "" && name[..5] == ".rels";
    } else {
      NotAtFront(base);
      ShorterStem(base);
      assert name[1..] == base[1..] + ".rels";
      StripAdded(base[1..]);
    }
  }

  lemma NotAtFront(base: string)
    requires NoneBefore(base) && base != ""
    ensures (base + ".rels")[..5] != ".rels"
  {
    assert !ContainsAt(base + ".rels", ".rels", 0);
  }

  lemma ShorterStem(base: string)
    requires NoneBefore(base) && base != ""
    ensures NoneBefore(base[1..])
  {
    var name, short := base + ".rels", base[1..] + ".rels";
    forall i | 0 <= i < |base| - 1
      ensures !ContainsAt(short, ".rels", i)
    {
      assert short[i..i + 5] == name[i + 1..i + 1 + 5];
      assert !ContainsAt(name, ".rels", i + 1);
    }
  }

  /** The relationships chart1.xml.rels, say, belong to chart1.xml in the folder above. */
  lemma OwnerByName(dir: seq<string>, base: string)
    requires IsStem(base) && dir != []
    ensures OwnerOf(Path(dir + ["_rels"], base + ".rels")) == Path(dir, base)
  {
    hide StripRels, NoneBefore;
    StripAdded(base);
    assert (dir + ["_rels"])[..|dir|] == dir;
  }

  /** A file named .rels alone belongs to the folder above. */
  lemma OwnerOfBare(dir: seq<string>, folder: string)
    ensures OwnerOf(Path(dir + [folder, "_rels"], ".rels")) == Path(dir, folder)
  {
    StripAdded("");
    assert "" + ".rels" == ".rels";
    assert (dir + [folder, "_rels"])[..|dir|] == dir;
  }

  /** A folder is there when something lies in it, at any depth. */
  lemma FolderExists(files: Files, f: Path, dir: seq<string>, folder: string)
    requires f in files && dir + [folder] <= f.dir
    ensures Exists(files, Path(dir, folder))
  {
  }

  /** Relationships of a chart, diagram or drawing are left only if it is there and a slide's relationships target
      it ... */
  lemma OwnedRelsLeft(kept: set<string>, files: Files, kind: string, base: string)
    requires kind in {"charts", "diagrams", "drawings"} && IsStem(base)
    requires Path(["ppt", kind, "_rels"], base + ".rels") in Cleaned(kept, files)
    ensures Exists(Cleaned(kept, files), Path(["ppt", kind], base))
    ensures exists r :: r in Cleaned(kept, files) && r.dir == ["ppt", "slides", "_rels"] && |r.name| >= 5
                        && r.name[|r.name| - 5..] == ".rels" && Path(["ppt", kind], base) in Cleaned(kept, files)[r]
  {
    hide OwnerOf, IsStem, Settle, Exists;
    var clean, p := Cleaned(kept, files), Path(["ppt", kind, "_rels"], base + ".rels");
    assert ["ppt", kind] + ["_rels"] == ["ppt", kind, "_rels"];
    OwnerByName(["ppt", kind], base);
    SettleStable(WithoutTrash(WithoutLostSlides(kept, files)));
    assert p !in OrphanRels(clean);
    assert IsOwnedRels(p);
  }

  /** ... those of notes only if the notes are there ... */
  lemma NotesRelsLeft(kept: set<string>, files: Files, base: string)
    requires IsStem(base) && Path(["ppt", "notesSlides", "_rels"], base + ".rels") in Cleaned(kept, files)
    ensures Exists(Cleaned(kept, files), Path(["ppt", "notesSlides"], base))
  {
    hide OwnerOf, IsStem, Settle, IsFolder, IsScanned, IsRelsOfLost;
    var clean, p := Cleaned(kept, files), Path(["ppt", "notesSlides", "_rels"], base + ".rels");
    assert ["ppt", "notesSlides"] + ["_rels"] == ["ppt", "notesSlides", "_rels"];
    OwnerByName(["ppt", "notesSlides"], base);
    SettleStable(WithoutTrash(WithoutLostSlides(kept, files)));
    assert p !in Lost(clean, AllTargets(clean));
    assert IsNotesRels(p);
  }

  /** ... and those of a theme go with it. */
  lemma ThemeRelsGo(kept: set<string>, files: Files, name: string)
    requires |name| >= 9 && "theme" <= name && name[|name| - 4..] == ".xml"
    requires Path(["ppt", "theme"], name) in files && Path(["ppt", "theme"], name) !in Cleaned(kept, files)
    ensures Path(["ppt", "theme", "_rels"], name + ".rels") !in Cleaned(kept, files)
  {
    hide LostSlides, Settle, WithoutTrash, WithoutLostSlides;
    var t, p := Path(["ppt", "theme"], name), Path(["ppt", "theme", "_rels"], name + ".rels");
    NotASlide(kept, files, t);
    Untouched(kept, files, t);
    var start := WithoutTrash(WithoutLostSlides(kept, files));
    SettleSupportsItself(start, start);
    assert p.name[..|p.name| - 5] == name && IsTheme(t);
  }

  // ---------------------------------------------------------------- what listed slides show

  /** A resource that the relationships of a listed slide target stays ... */
  lemma KeptSlideShows(kept: set<string>, files: Files, name: string, t: Path)
    requires name in kept && Path(["ppt", "slides", "_rels"], name + ".rels") in files
    requires t in files[Path(["ppt", "slides", "_rels"], name + ".rels")] && t in files
    requires t.dir in {["ppt", "media"], ["ppt", "embeddings"], ["ppt", "charts"], ["ppt", "diagrams"], ["ppt", "tags"],
                       ["ppt", "drawings"], ["ppt", "ink"]}
    ensures t in Cleaned(kept, files)
  {
    KeptNotLost(kept, files, name);
    hide Cleaned, LostSlides;
    ShownStays(kept, files, Path(["ppt", "slides", "_rels"], name + ".rels"), t);
  }

  /** ... and so do the relationships of such a chart, diagram or drawing, and the resources they target. */
  lemma BehindKeptSlide(kept: set<string>, files: Files, name: string, kind: string, base: string, t: Path)
    requires name in kept && Path(["ppt", "slides", "_rels"], name + ".rels") in files
    requires kind in {"charts", "diagrams", "drawings"} && IsStem(base)
    requires Path(["ppt", kind], base) in files[Path(["ppt", "slides", "_rels"], name + ".rels")]
    requires Path(["ppt", kind], base) in files && Path(["ppt", kind, "_rels"], base + ".rels") in files
    requires t in files[Path(["ppt", kind, "_rels"], base + ".rels")] && t in files
    requires t.dir in {["ppt", "media"], ["ppt", "embeddings"], ["ppt", "charts"], ["ppt", "diagrams"], ["ppt", "tags"],
                       ["ppt", "drawings"], ["ppt", "ink"]}
    ensures Path(["ppt", kind, "_rels"], base + ".rels") in Cleaned(kept, files) && t in Cleaned(kept, files)
  {
    hide Cleaned, LostSlides, OwnerOf, IsStem;
    KeptNotLost(kept, files, name);
    assert ["ppt", kind] + ["_rels"] == ["ppt", kind, "_rels"];
    OwnerByName(["ppt", kind], base);
    BehindShownStays(kept, files, Path(["ppt", "slides", "_rels"], name + ".rels"),
                     Path(["ppt", kind, "_rels"], base + ".rels"), t);
  }
}
