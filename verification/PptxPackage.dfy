/** The cleaning script on a package that it changes in place (skills/pptx/scripts/clean.py). */
module PptxPackage {
  import opened PptxClean
  import opened PptxResult

  class Package {
    var files: Files

    constructor (files: Files)
      ensures this.files == files
    {
      this.files := files;
    }

    /** Deletes the candidates that are not to be kept, one after the other. */
    method Unlink(candidates: set<Path>, keep: set<Path>) returns (removed: seq<Path>)
      requires candidates <= files.Keys
      modifies this
      ensures files == old(files) - (candidates - keep)
      ensures forall p :: p in removed <==> p in candidates && p !in keep
    {
      removed := [];
      var pending := candidates;
      while pending != {}
        invariant pending <= candidates
        invariant files == old(files) - (candidates - pending - keep)
        invariant forall p :: p in removed <==> p in candidates && p !in pending && p !in keep
        decreases |pending|
      {
        var p :| p in pending;
        pending := pending - {p};
        if p !in keep {
          files := files - {p};
          removed := removed + [p];
        }
        assert files == old(files) - (candidates - pending - keep);
      }
    }

    method RemoveOrphanedRelsFiles() returns (removed: seq<Path>)
      modifies this
      ensures files == AfterRels(old(files))
      ensures forall p :: p in removed <==> p in OrphanRels(old(files))
    {
      var slideTargets := SlideTargets(files);
      var candidates := set p | p in files && IsOwnedRels(p);
      var keep := set p | p in files && IsOwnedRels(p) && Exists(files, OwnerOf(p)) && OwnerOf(p) in slideTargets;
      assert candidates - keep == OrphanRels(files);
      removed := Unlink(candidates, keep);
    }

    /** Resources, then themes with their relationships, then notes, then the relationships of absent notes. */
    method RemoveOrphanedFiles(referenced: set<Path>) returns (removed: seq<Path>)
      modifies this
      ensures files == old(files) - Lost(old(files), referenced)
      ensures forall p :: p in removed <==> p in Lost(old(files), referenced)
    {
      hide Lost, LostIn, LostThemeRels, LostNotesRels, Resources, Themes, NotesIn, NotesRelsIn, OwnedNotesRels;
      ghost var all := files;
      LostTogether(all, referenced);
      LostByPhase(all, referenced);
      var r1 := Unlink(Resources(files), referenced);
      ghost var f1 := files;
      ThemePhase(all, f1, referenced);
      var lostRels := LostThemeRels(files, referenced);
      var r2 := Unlink(Themes(files), referenced);
      var r3 := Unlink(lostRels, {});
      NotesPhase(all, files, referenced);
      var r4 := Unlink(NotesIn(files), referenced);
      NotesRelsPhase(all, files, referenced);
      var notesRels := NotesRelsIn(files);
      var r5 := Unlink(notesRels, OwnedNotesRels(files));
      removed := r1 + r2 + r3 + r4 + r5;
    }

    method RemoveOrphanedSlides(kept: set<string>) returns (removed: seq<Path>)
      modifies this
      ensures files == WithoutLostSlides(kept, old(files))
      ensures files.Keys == old(files).Keys - LostSlides(kept, old(files))
      ensures forall p :: p in removed <==> p in LostSlides(kept, old(files))
    {
      var lost := LostSlides(kept, files);
      removed := Unlink(lost, {});
      if |removed| > 0 {
        assert removed[0] in removed;
      } else {
        assert forall p :: p in lost ==> p in removed;
      }
      if |removed| > 0 && PRESENTATION_RELS in files {
        var targets := set t | t in files[PRESENTATION_RELS] && (t.dir == SLIDES ==> t.name in kept);
        files := files[PRESENTATION_RELS := targets];
      }
    }

    /** The whole script, but for the content-type list: `kept` are the slides the presentation lists. The
        result names exactly the files that are gone. */
    method CleanUnusedFiles(kept: set<string>) returns (all: seq<Path>)
      modifies this
      ensures files == Cleaned(kept, old(files)) && IsStable(files)
      ensures forall p :: p in all <==> p in old(files) && p !in files
      ensures AsListed(kept, old(files), files)
    {
      hide AfterRels, Lost, AllTargets, OrphanRels, WithoutLostSlides, AsListed;
      all := RemoveOrphanedSlides(kept);
      LostSlidesAreFiles(kept, old(files));
      var trash := Unlink((set p | p in files && p.dir == TRASH), {});
      all := all + trash;
      assert files == WithoutTrash(WithoutLostSlides(kept, old(files)));
      ghost var start := files;
      while true
        invariant Settle(files) == Settle(start)
        invariant forall p :: p in all <==> p in old(files) && p !in files
        invariant files.Keys <= old(files).Keys
        decreases |files|
      {
        ghost var before := files;
        RoundShrinks(files);
        var removedRels := RemoveOrphanedRelsFiles();
        var referenced := AllTargets(files);
        var removedFiles := RemoveOrphanedFiles(referenced);
        assert files == AfterRound(before);
        RoundRemoves(before, removedRels, removedFiles);
        if |removedRels + removedFiles| == 0 {
          break;
        }
        all := all + (removedRels + removedFiles);
      }
      SettleStable(start);
      SlidesAsListed(kept, old(files));
    }
  }

  /** Of the slides exactly the listed ones are left. */
  ghost predicate AsListed(kept: set<string>, files: Files, files2: Files) {
    && (forall name :: name in kept && Path(["ppt", "slides"], name) in files ==>
          Path(["ppt", "slides"], name) in files2)
    && (forall name :: name !in kept && |name| >= 9 && "slide" <= name && name[|name| - 4..] == ".xml" ==>
          Path(["ppt", "slides"], name) !in files2)
  }

  lemma SlidesAsListed(kept: set<string>, files: Files)
    ensures AsListed(kept, files, Cleaned(kept, files))
  {
    hide Cleaned;
    forall name | name in kept {
      KeptSlideStays(kept, files, name);
    }
    forall name | name !in kept && |name| >= 9 && "slide" <= name && name[|name| - 4..] == ".xml" {
      UnlistedSlideGoes(kept, files, name);
    }
  }

  lemma LostSlidesAreFiles(kept: set<string>, files: Files)
    ensures LostSlides(kept, files) <= files.Keys
  {
  }

  /** The files a round reports are the files it removed. */
  lemma RoundRemoves(files: Files, removedRels: seq<Path>, removedFiles: seq<Path>)
    requires forall p :: p in removedRels <==> p in OrphanRels(files)
    requires forall p :: p in removedFiles <==> p in Lost(AfterRels(files), AllTargets(AfterRels(files)))
    ensures forall p :: p in removedRels + removedFiles <==> p in files && p !in AfterRound(files)
    ensures AfterRound(files).Keys <= files.Keys
    ensures AfterRound(files) == files <==> |removedRels + removedFiles| == 0
  {
    var gone := removedRels + removedFiles;
    forall p
      ensures p in gone <==> p in files && p !in AfterRound(files)
    {
      assert p in gone <==> p in removedRels || p in removedFiles;
    }
    if |gone| == 0 {
      assert AfterRound(files).Keys == files.Keys;
    } else {
      assert gone[0] in gone;
    }
  }

  // ---------------------------------------------------------------- the phases of a round

  function Resources(files: Files): (r: set<Path>)
    ensures r <= files.Keys
  {
    set p | p in files && IsResource(p)
  }

  function Themes(files: Files): (r: set<Path>)
    ensures r <= files.Keys
  {
    set p | p in files && IsTheme(p)
  }

  function NotesIn(files: Files): (r: set<Path>)
    ensures r <= files.Keys
  {
    set p | p in files && IsNotes(p)
  }

  function NotesRelsIn(files: Files): (r: set<Path>)
    ensures r <= files.Keys
  {
    set p | p in files && IsNotesRels(p)
  }

  /** The unreferenced scanned files. */
  function LostIn(files: Files, referenced: set<Path>): set<Path> {
    set p | p in files && IsScanned(p) && p !in referenced
  }

  function LostThemeRels(files: Files, referenced: set<Path>): set<Path> {
    set p | p in files && IsRelsOfLost(files, referenced, p)
  }

  function LostNotesRels(files: Files, referenced: set<Path>): set<Path> {
    set p | p in files && IsNotesRels(p) && !OwnerStays(files, referenced, p)
  }

  lemma LostByPhase(files: Files, referenced: set<Path>)
    ensures Lost(files, referenced) == LostIn(files, referenced) + LostThemeRels(files, referenced)
            + LostNotesRels(files, referenced)
  {
  }

  lemma ThemePhase(all: Files, f1: Files, referenced: set<Path>)
    requires f1 == all - (Resources(all) - referenced)
    ensures LostThemeRels(f1, referenced) == LostThemeRels(all, referenced)
    ensures LostThemeRels(f1, referenced) <= (f1 - (Themes(f1) - referenced)).Keys
    ensures Themes(f1) == Themes(all)
  {
  }

  lemma NotesPhase(all: Files, f3: Files, referenced: set<Path>)
    requires f3 == all - (Resources(all) - referenced)
                       - (Themes(all) - referenced) - LostThemeRels(all, referenced)
    ensures NotesIn(f3) == NotesIn(all)
  {
  }

  /** The notes relationships whose owner is there. */
  function OwnedNotesRels(files: Files): set<Path> {
    set p | p in files && IsNotesRels(p) && Exists(files, OwnerOf(p))
  }

  lemma NotesRelsPhase(all: Files, f4: Files, referenced: set<Path>)
    requires f4 == all - (Resources(all) - referenced)
                       - (Themes(all) - referenced) - LostThemeRels(all, referenced)
                       - (NotesIn(all) - referenced)
    ensures NotesRelsIn(f4) - OwnedNotesRels(f4) == LostNotesRels(all, referenced)
  {
    hide OwnerOf, IsFolder, OwnerStays;
    forall p
      ensures p in NotesRelsIn(f4) - OwnedNotesRels(f4) <==> p in LostNotesRels(all, referenced)
    {
      NotesRelsStay(all, f4, referenced, p);
      if p in f4 && IsNotesRels(p) {
        OwnerThere(all, f4, referenced, p);
      }
    }
  }

  lemma NotesRelsStay(all: Files, f4: Files, referenced: set<Path>, p: Path)
    requires f4 == all - (Resources(all) - referenced)
                       - (Themes(all) - referenced) - LostThemeRels(all, referenced)
                       - (NotesIn(all) - referenced)
    ensures IsNotesRels(p) ==> (p in f4 <==> p in all)
  {
  }

  /** An owner is there once the notes are gone exactly when it was there and did not have to go. */
  lemma OwnerThere(all: Files, f4: Files, referenced: set<Path>, p: Path)
    requires f4 == all - (Resources(all) - referenced)
                       - (Themes(all) - referenced) - LostThemeRels(all, referenced)
                       - (NotesIn(all) - referenced)
    requires p in f4 && IsNotesRels(p)
    ensures Exists(f4, OwnerOf(p)) <==> OwnerStays(all, referenced, p)
  {
    hide StripRels;
    FolderStays(all, f4, referenced, p);
  }

  lemma FolderStays(all: Files, f4: Files, referenced: set<Path>, p: Path)
    requires f4 == all - (Resources(all) - referenced)
                       - (Themes(all) - referenced) - LostThemeRels(all, referenced)
                       - (NotesIn(all) - referenced)
    requires p in f4 && IsNotesRels(p)
    ensures IsFolder(f4, OwnerOf(p)) <==> IsFolder(all, OwnerOf(p))
  {
    hide StripRels;
    var o := OwnerOf(p);
    if o == Path(["ppt"], "notesSlides") {
      assert o.dir + [o.name] == NOTES <= p.dir;
    } else if IsFolder(all, o) {
      var f :| f in all && o.dir + [o.name] <= f.dir;
      assert f.dir[..2] == NOTES && |f.dir| >= 3;
      assert f.dir[1] == NOTES[1] && THEME_RELS[1] != NOTES[1];
      assert f in f4;
    }
  }

  lemma LostTogether(all: Files, referenced: set<Path>)
    ensures LostIn(all, referenced) == (Resources(all) - referenced)
                                       + (Themes(all) - referenced)
                                       + (NotesIn(all) - referenced)
  {
  }
}
