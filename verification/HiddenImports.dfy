/**
 * The hidden-import list of the main window and the two operations that
 * append to it: applying a ready-made template, which also sets the
 * `--windowed` and `--onefile` check boxes, and detecting the packages a
 * source file imports.  The list widget is a sequence of names; the check
 * boxes are booleans.
 */
module HiddenImports {
  import opened Wrappers
  import opened Text
  import opened ImportParsing

  /** The six entries of the template table. */
  datatype Template = Gui | Console | Web | Data | Game | Custom

  /** What a template sets: the two check boxes and the hidden imports it brings. */
  datatype TemplateSettings = TemplateSettings(windowed: bool, onefile: bool, hiddenImports: seq<string>)

  /** The template table: each template's two check boxes and its hidden imports, which hold no repeats. */
  function Settings(t: Template): (r: TemplateSettings)
    ensures Distinct(r.hiddenImports)
    ensures r.hiddenImports == [] <==> t == Console || t == Custom
  {
    match t
    case Gui => TemplateSettings(true, true, ["PyQt5", "PyQt5.QtWidgets", "PyQt5.QtCore", "PyQt5.QtGui"])
    case Console => TemplateSettings(false, true, [])
    case Web => TemplateSettings(false, false, ["flask", "jinja2", "werkzeug"])
    case Data => TemplateSettings(false, true, ["pandas", "numpy", "openpyxl"])
    case Game => TemplateSettings(true, false, ["pygame"])
    case Custom => TemplateSettings(false, true, [])
  }

  /** Standard-library packages import detection never adds: eleven distinct names. */
  function Excluded(): (names: set<string>)
    ensures |names| == 11
    ensures "sys" in names && "os" in names && "time" in names && "" !in names
  {
    {"sys", "os", "json", "datetime", "pathlib", "threading", "subprocess", "re", "math", "random", "time"}
  }

  predicate Distinct(s: seq<string>) {
    forall i, j | 0 <= i < j < |s| :: s[i] != s[j]
  }

  /**
   * The list after appending, one by one, each name of `t` that the list
   * does not hold at that moment.  The old entries stay in front and in
   * order; what follows them is new and has no repeats; every name of `t`
   * ends up present.
   */
  function MergeAppend(l: seq<string>, t: seq<string>): (r: seq<string>)
    ensures |l| <= |r| && r[..|l|] == l
    ensures forall x :: x in r <==> x in l || x in t
    ensures forall i | |l| <= i < |r| :: r[i] !in l
    ensures Distinct(r[|l|..])
    ensures Distinct(l) ==> Distinct(r)
    decreases |t|
  {
    if t == [] then l
    else
      var m := MergeAppend(l, t[..|t| - 1]);
      var x := t[|t| - 1];
      assert forall y :: y in t <==> y in t[..|t| - 1] || y == x;
      if x in m then m
      else
        assert (m + [x])[..|l|] == m[..|l|];
        assert (m + [x])[|l|..] == m[|l|..] + [x];
        m + [x]
  }

  /** Names that are all present already add nothing. */
  lemma {:induction false} MergeAppendPresent(l: seq<string>, t: seq<string>)
    requires forall x | x in t :: x in l
    ensures MergeAppend(l, t) == l
    decreases |t|
  {
    if t != [] {
      MergeAppendPresent(l, t[..|t| - 1]);
      assert t[|t| - 1] in t;
    }
  }

  /** Names that are new and distinct are appended as they stand. */
  lemma {:induction false} MergeAppendFresh(l: seq<string>, t: seq<string>)
    requires Distinct(t) && forall x | x in t :: x !in l
    ensures MergeAppend(l, t) == l + t
    decreases |t|
  {
    if t != [] {
      var init, x := t[..|t| - 1], t[|t| - 1];
      assert Distinct(init);
      MergeAppendFresh(l, init);
      forall j | 0 <= j < |init| ensures init[j] != x {
        assert init[j] == t[j];
      }
      assert x !in l + init;
      assert l + init + [x] == l + t;
    }
  }

  /** A template applied to an empty list gives exactly the template's list. */
  lemma TemplateOnEmpty(t: Template)
    ensures MergeAppend([], Settings(t).hiddenImports) == Settings(t).hiddenImports
  {
    MergeAppendFresh([], Settings(t).hiddenImports);
  }

  /** Appending the same names a second time leaves the list as the first time left it. */
  lemma MergeAppendIdempotent(l: seq<string>, t: seq<string>)
    ensures MergeAppend(MergeAppend(l, t), t) == MergeAppend(l, t)
  {
    MergeAppendPresent(MergeAppend(l, t), t);
  }

  /** How `detect_imports` ends. */
  datatype Detection =
    | NoSource                            // no source path, or not an existing file
    | ReadFailed                          // the file could not be read as UTF-8 text
    | Detected(found: nat, added: nat)    // packages found, and how many of them were appended

  /** The state of the main window that the two operations read and change. */
  class MainWindow {
    var hiddenImports: seq<string>
    var windowed: bool
    var onefile: bool

    /** The list starts empty, `--onefile` checked and `--windowed` not. */
    constructor ()
      ensures hiddenImports == [] && !windowed && onefile
    {
      hiddenImports := [];
      windowed := false;
      onefile := true;
    }

    /**
     * Applies the selected template, if one is selected: both check boxes
     * take the template's values and its imports are appended.
     */
    method ApplySelectedTemplate(selection: Option<Template>)
      modifies this
      ensures selection.None? ==>
        hiddenImports == old(hiddenImports) && windowed == old(windowed) && onefile == old(onefile)
      ensures selection.Some? ==>
        var s := Settings(selection.value);
        windowed == s.windowed && onefile == s.onefile &&
        hiddenImports == MergeAppend(old(hiddenImports), s.hiddenImports)
    {
      if selection.None? {
        return;
      }
      var s := Settings(selection.value);
      windowed := s.windowed;
      onefile := s.onefile;
      AppendMissing(s.hiddenImports);
    }

    /** Appends each of `imports` that the list does not hold at that moment, one at a time. */
    method AppendMissing(imports: seq<string>)
      modifies this
      ensures hiddenImports == MergeAppend(old(hiddenImports), imports)
      ensures windowed == old(windowed) && onefile == old(onefile)
    {
      for i := 0 to |imports|
        invariant hiddenImports == MergeAppend(old(hiddenImports), imports[..i])
        invariant windowed == old(windowed) && onefile == old(onefile)
      {
        var imp := imports[i];
        var existing := hiddenImports;
        if imp !in existing {
          hiddenImports := hiddenImports + [imp];
        }
        assert imports[..i + 1][..i] == imports[..i];
      }
      assert imports[..|imports|] == imports;
    }

    /**
     * Detects the packages the source file imports and appends those the
     * list did not hold before and that are not excluded.  `files` are the
     * paths that are existing files; `content` is the file's text, or
     * nothing when reading it fails.
     */
    method DetectImports(source: string, files: set<string>, content: Option<string>) returns (outcome: Detection)
      modifies this
      ensures windowed == old(windowed) && onefile == old(onefile)
      ensures outcome.NoSource? <==> source == "" || source !in files
      ensures outcome.ReadFailed? <==> source != "" && source in files && content.None?
      ensures !outcome.Detected? ==> hiddenImports == old(hiddenImports)
      ensures outcome.Detected? ==>
        var imports := DetectedModules(content.value);
        var before := old(hiddenImports);
        |before| <= |hiddenImports| && hiddenImports[..|before|] == before &&
        outcome.found == |imports| && outcome.added == |hiddenImports| - |before| &&
        (forall x :: x in hiddenImports[|before|..] <==> x in imports && x !in before && x !in Excluded()) &&
        Distinct(hiddenImports[|before|..])
    {
      if source == "" || source !in files {
        return NoSource;
      }
      if content.None? {
        return ReadFailed;
      }
      var imports := DetectedModules(content.value);
      var added := AppendNew(imports, Excluded());
      outcome := Detected(|imports|, added);
    }

    /**
     * Appends, in some order, each of `imports` that the list did not hold
     * when the loop began and that is not in `excluded`, and counts them.
     */
    method AppendNew(imports: set<string>, excluded: set<string>) returns (added: nat)
      modifies this
      ensures windowed == old(windowed) && onefile == old(onefile)
      ensures |old(hiddenImports)| <= |hiddenImports| && hiddenImports[..|old(hiddenImports)|] == old(hiddenImports)
      ensures added == |hiddenImports| - |old(hiddenImports)|
      ensures forall x :: x in hiddenImports[|old(hiddenImports)|..] <==>
        x in imports && x !in old(hiddenImports) && x !in excluded
      ensures Distinct(hiddenImports[|old(hiddenImports)|..])
    {
      var existing := hiddenImports;
      ghost var appended: seq<string> := [];
      var remaining := imports;
      added := 0;
      while remaining != {}
        invariant remaining <= imports
        invariant hiddenImports == existing + appended && added == |appended|
        invariant forall x :: x in appended <==> x in imports && x !in remaining && x !in existing && x !in excluded
        invariant Distinct(appended)
        invariant windowed == old(windowed) && onefile == old(onefile)
        decreases remaining
      {
        var imp :| imp in remaining;
        if imp !in existing && imp !in excluded {
          hiddenImports := hiddenImports + [imp];
          appended := appended + [imp];
          added := added + 1;
        }
        remaining := remaining - {imp};
      }
      assert hiddenImports[|existing|..] == appended;
    }
  }
}
