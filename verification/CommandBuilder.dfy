/**
 * `MainWindow.build_command`: turns the converter's options into the
 * argument list of `python -m PyInstaller`, or reports that no valid source
 * file was chosen.  The widgets the Python method reads are gathered in the
 * immutable `Options` record; the file-system tests, `sys.executable` and
 * `sys.platform` come in through `Host`.
 */
module CommandBuilder {
  import opened Wrappers
  import opened Text
  import opened Paths

  /** Index of the optimisation combo box, whose three entries are levels 0, 1 and 2. */
  type OptimizeLevel = n: nat | n <= 2

  /** Value of the UPX level spin box, whose range is 0 to 9. */
  type UpxLevel = n: nat | n <= 9

  /** The six check boxes that each map to one PyInstaller switch. */
  datatype Flags = Flags(onefile: bool, windowed: bool, noconsole: bool, clean: bool, noconfirm: bool, strip: bool)

  /** What the window holds when the command is built; an empty string is an empty text field. */
  datatype Options = Options(
    source: string,
    outputName: string,
    outputDir: string,
    icon: string,
    flags: Flags,
    extraFiles: seq<string>,
    hiddenImports: seq<string>,
    optimize: OptimizeLevel,
    upx: bool,
    upxLevel: UpxLevel,
    extraArgs: string)

  /**
   * The machine the command is built on: `sys.executable`, the platform,
   * the paths `os.path.isfile` accepts and the paths `os.path.exists` accepts.
   */
  datatype Host = Host(executable: string, platform: Platform, files: set<string>, existing: set<string>)

  /** The only way building fails: the source field is empty or names no existing file. */
  datatype BuildError = MissingSource

  function Prefix(host: Host): seq<string> {
    [host.executable, "-m", "PyInstaller"]
  }

  /** The switch tokens, in the order the check boxes are consulted. */
  const FlagNames: seq<string> := ["--onefile", "--windowed", "--noconsole", "--clean", "--noconfirm", "--strip"]

  predicate IsFlagToken(t: string) {
    t in FlagNames
  }

  /** The state of the six switch check boxes, in the order of `FlagNames`. */
  function Ticks(f: Flags): seq<bool> {
    [f.onefile, f.windowed, f.noconsole, f.clean, f.noconfirm, f.strip]
  }

  function FlagTokens(f: Flags): seq<string> {
    (if f.onefile then ["--onefile"] else [])
    + (if f.windowed then ["--windowed"] else [])
    + (if f.noconsole then ["--noconsole"] else [])
    + (if f.clean then ["--clean"] else [])
    + (if f.noconfirm then ["--noconfirm"] else [])
    + (if f.strip then ["--strip"] else [])
  }

  function NameTokens(o: Options): seq<string> {
    if o.outputName != "" then ["--name", o.outputName] else []
  }

  function IconTokens(o: Options, host: Host): seq<string> {
    if o.icon != "" && o.icon in host.files then ["--icon", o.icon] else []
  }

  function OutputDirTokens(o: Options, p: Platform): seq<string> {
    if o.outputDir != "" then
      ["--distpath", Join(p, o.outputDir, "dist"), "--workpath", Join(p, o.outputDir, "build"), "--specpath", o.outputDir]
    else []
  }

  /** The value of one `--add-data` option: the path, the platform's separator, then its base name. */
  function DataSpec(path: string, p: Platform): string {
    path + [DataSeparator(p)] + Basename(p, path)
  }

  /** The extra files and folders that still exist, in the order they were added. */
  function Existing(paths: seq<string>, host: Host): seq<string> {
    if paths == [] then []
    else
      var last := paths[|paths| - 1];
      Existing(paths[..|paths| - 1], host) + (if last in host.existing then [last] else [])
  }

  /** `a` can be obtained from `b` by deleting elements: the order of `a` is the order in `b`. */
  predicate IsSubsequence<T(==)>(a: seq<T>, b: seq<T>)
    decreases |b|
  {
    a == [] || (b != [] &&
      if a[|a| - 1] == b[|b| - 1] then IsSubsequence(a[..|a| - 1], b[..|b| - 1])
      else IsSubsequence(a, b[..|b| - 1]))
  }

  /**
   * The kept paths are exactly the listed paths that exist, in list order:
   * a path that no longer exists is skipped, nothing else is.
   */
  lemma {:induction false} ExistingKeepsOrder(paths: seq<string>, host: Host)
    ensures forall x :: x in Existing(paths, host) <==> x in paths && x in host.existing
    ensures IsSubsequence(Existing(paths, host), paths)
    ensures (forall i | 0 <= i < |paths| :: paths[i] in host.existing) ==> Existing(paths, host) == paths
    ensures forall x :: multiset(Existing(paths, host))[x] == if x in host.existing then multiset(paths)[x] else 0
  {
    ExistingInOrder(paths, host);
    ExistingCounts(paths, host);
  }

  /** The order and membership half of `ExistingKeepsOrder`. */
  lemma {:induction false} ExistingInOrder(paths: seq<string>, host: Host)
    ensures forall x :: x in Existing(paths, host) <==> x in paths && x in host.existing
    ensures IsSubsequence(Existing(paths, host), paths)
    ensures (forall i | 0 <= i < |paths| :: paths[i] in host.existing) ==> Existing(paths, host) == paths
    decreases |paths|
  {
    if paths != [] {
      var init, last := paths[..|paths| - 1], paths[|paths| - 1];
      ExistingInOrder(init, host);
      assert paths == init + [last];
      var kept := Existing(paths, host);
      if last in host.existing {
        assert kept[..|kept| - 1] == Existing(init, host);
      } else {
        assert kept == Existing(init, host);
        assert forall x | x in kept :: x in host.existing;
      }
    }
  }

  /** Each existing path is kept as often as the list holds it, and a missing one never. */
  lemma {:induction false} ExistingCounts(paths: seq<string>, host: Host)
    ensures forall x :: multiset(Existing(paths, host))[x] == if x in host.existing then multiset(paths)[x] else 0
    decreases |paths|
  {
    if paths != [] {
      var init, last := paths[..|paths| - 1], paths[|paths| - 1];
      ExistingCounts(init, host);
      assert paths == init + [last];
      assert multiset(paths) == multiset(init) + multiset{last};
    }
  }

  /** One `--add-data` pair per extra path that still exists, in list order. */
  function AddDataTokens(paths: seq<string>, host: Host): seq<string> {
    if paths == [] then []
    else
      var last := paths[|paths| - 1];
      AddDataTokens(paths[..|paths| - 1], host)
      + (if last in host.existing then ["--add-data", DataSpec(last, host.platform)] else [])
  }

  /**
   * The `--add-data` block holds one pair per kept path, in order: the
   * option name, then the path, the platform separator and its base name.
   */
  lemma {:induction false} AddDataPairs(paths: seq<string>, host: Host)
    ensures |AddDataTokens(paths, host)| == 2 * |Existing(paths, host)|
    ensures forall j | 0 <= j < |Existing(paths, host)| ::
      AddDataTokens(paths, host)[2 * j] == "--add-data"
      && AddDataTokens(paths, host)[2 * j + 1] == DataSpec(Existing(paths, host)[j], host.platform)
    decreases |paths|
  {
    if paths != [] {
      var init := paths[..|paths| - 1];
      AddDataPairs(init, host);
      var prev := AddDataTokens(init, host);
      assert AddDataTokens(paths, host)[..|prev|] == prev;
      assert Existing(paths, host)[..|Existing(init, host)|] == Existing(init, host);
    }
  }

  /** One `--hidden-import` pair per list entry, in list order. */
  function HiddenImportTokens(names: seq<string>): seq<string> {
    if names == [] then []
    else HiddenImportTokens(names[..|names| - 1]) + ["--hidden-import", names[|names| - 1]]
  }

  /** The hidden-import block is the entries of the list, each preceded by `--hidden-import`. */
  lemma {:induction false} HiddenImportPairs(names: seq<string>)
    ensures |HiddenImportTokens(names)| == 2 * |names|
    ensures forall j | 0 <= j < |names| ::
      HiddenImportTokens(names)[2 * j] == "--hidden-import" && HiddenImportTokens(names)[2 * j + 1] == names[j]
    decreases |names|
  {
    if names != [] {
      var init := names[..|names| - 1];
      HiddenImportPairs(init);
      assert HiddenImportTokens(names)[..2 * |init|] == HiddenImportTokens(init);
    }
  }

  function OptimizeTokens(o: Options): seq<string> {
    if o.optimize > 0 then ["-O" + DigitString(o.optimize)] else []
  }

  /**
   * The compression tokens: exactly one of `--upx-dir=upx` and `--noupx`;
   * a `--upx-level=n` token only right after `--upx-dir=upx`, and only for a
   * positive level.
   */
  function UpxTokens(o: Options): seq<string> {
    if o.upx then
      ["--upx-dir=upx"] + (if o.upxLevel > 0 then ["--upx-level=" + DigitString(o.upxLevel)] else [])
    else
      ["--noupx"]
  }

  /**
   * Exactly one of `--upx-dir=upx` and `--noupx`; a `--upx-level=n` token
   * only right after `--upx-dir=upx`, and only for a positive level.
   */
  lemma UpxChoice(o: Options)
    ensures ("--upx-dir=upx" in UpxTokens(o)) == o.upx
    ensures ("--noupx" in UpxTokens(o)) == !o.upx
    ensures forall i | 0 <= i < |UpxTokens(o)| ::
      StartsWith(UpxTokens(o)[i], "--upx-level=") <==> (i == 1 && o.upx && o.upxLevel > 0)
    ensures |UpxTokens(o)| == 2 ==>
      UpxTokens(o)[0] == "--upx-dir=upx" && UpxTokens(o)[1] == "--upx-level=" + DigitString(o.upxLevel)
  {
    assert !StartsWith("--upx-dir=upx", "--upx-level=") by {
      assert "--upx-dir=upx"[6] != "--upx-level="[6];
    }
  }

  /** Positions of the blocks in `Blocks`, in the order the window's widgets are read. */
  const SwitchBlock := 1
  const NameBlock := 2
  const IconBlock := 3
  const OutputDirBlock := 4
  const AddDataBlock := 5
  const HiddenImportBlock := 6
  const OptimizeBlock := 7
  const UpxBlock := 8
  const ExtraArgsBlock := 9
  const SourceBlock := 10

  /** The blocks of the command: the interpreter running PyInstaller first, the source file last. */
  function Blocks(o: Options, host: Host): seq<seq<string>> {
    [Prefix(host), FlagTokens(o.flags), NameTokens(o), IconTokens(o, host), OutputDirTokens(o, host.platform),
     AddDataTokens(o.extraFiles, host), HiddenImportTokens(o.hiddenImports), OptimizeTokens(o),
     UpxTokens(o), Words(o.extraArgs), [o.source]]
  }

  /** The blocks one after the other. */
  function Concat<T>(bs: seq<seq<T>>): seq<T> {
    if bs == [] then [] else Concat(bs[..|bs| - 1]) + bs[|bs| - 1]
  }

  /** The full argument list for a valid source file. */
  function CommandTokens(o: Options, host: Host): seq<string> {
    Concat(Blocks(o, host))
  }

  predicate MissingSourceFile(o: Options, host: Host) {
    o.source == "" || o.source !in host.files
  }

  /**
   * The command, or `MissingSource` exactly when the source field is empty or
   * names no existing file, whatever the other options are.  A command
   * starts with the interpreter running PyInstaller and ends with the source.
   */
  function Build(o: Options, host: Host): (r: Result<seq<string>, BuildError>)
    ensures r.Failure? <==> MissingSourceFile(o, host)
    ensures r.Success? ==> |r.value| >= 4 && r.value[..3] == [host.executable, "-m", "PyInstaller"]
    ensures r.Success? ==> r.value[|r.value| - 1] == o.source
  {
    if MissingSourceFile(o, host) then Failure(MissingSource)
    else
      var bs := Blocks(o, host);
      ConcatEnds(bs);
      Success(CommandTokens(o, host))
  }

  /** The concatenation starts with the first block and ends with the last. */
  lemma ConcatEnds<T>(bs: seq<seq<T>>)
    requires |bs| >= 2
    ensures |Concat(bs)| >= |bs[0]| + |bs[|bs| - 1]|
    ensures Concat(bs)[..|bs[0]|] == bs[0]
    ensures Concat(bs)[|Concat(bs)| - |bs[|bs| - 1]|..] == bs[|bs| - 1]
  {
    var last := |bs| - 1;
    ConcatSplit(bs, 1);
    ConcatSplit(bs, last);
    assert Concat(bs[..1]) == bs[0] by {
      assert bs[..1][..0] == [];
    }
    assert Concat(bs[last..]) == bs[last] by {
      assert bs[last..] == [bs[last]];
      assert [bs[last]][..0] == [];
    }
    assert |Concat(bs[..last])| >= |bs[0]| by {
      ConcatSplit(bs[..last], 1);
      assert bs[..last][..1] == bs[..1];
    }
  }

  lemma {:induction false} ConcatSplit<T>(bs: seq<seq<T>>, i: nat)
    requires i <= |bs|
    ensures Concat(bs) == Concat(bs[..i]) + Concat(bs[i..])
    decreases |bs|
  {
    if i < |bs| {
      var init := bs[..|bs| - 1];
      ConcatSplit(init, i);
      assert init[..i] == bs[..i];
      assert bs[i..][..|bs[i..]| - 1] == init[i..];
      assert bs[i..][|bs[i..]| - 1] == bs[|bs| - 1];
    } else {
      assert bs[..i] == bs;
      assert bs[i..] == [];
    }
  }

  /** The blocks from `i` on are block `i` followed by the blocks after it. */
  lemma ConcatRest<T>(bs: seq<seq<T>>, i: nat)
    requires i < |bs|
    ensures Concat(bs[i..]) == bs[i] + Concat(bs[i + 1..])
  {
    ConcatSplit(bs[i..], 1);
    assert bs[i..][..1] == [bs[i]];
    assert Concat([bs[i]]) == bs[i] by {
      assert [bs[i]][..0] == [];
    }
    assert bs[i..][1..] == bs[i + 1..];
  }

  /** Eleven blocks one after the other, in the order a builder appends them. */
  lemma ElevenBlocks<T>(bs: seq<seq<T>>)
    requires |bs| == 11
    ensures Concat(bs) == bs[0] + bs[1] + bs[2] + bs[3] + bs[4] + bs[5] + bs[6] + bs[7] + bs[8] + bs[9] + bs[10]
  {
    assert Concat(bs[..0]) == [];
    ConcatStep(bs, 0);
    assert Concat(bs[..1]) == [] + bs[0];
    ConcatStep(bs, 1);
    assert Concat(bs[..2]) == bs[0] + bs[1];
    ConcatStep(bs, 2);
    assert Concat(bs[..3]) == bs[0] + bs[1] + bs[2];
    ConcatStep(bs, 3);
    assert Concat(bs[..4]) == bs[0] + bs[1] + bs[2] + bs[3];
    ConcatStep(bs, 4);
    assert Concat(bs[..5]) == bs[0] + bs[1] + bs[2] + bs[3] + bs[4];
    ConcatStep(bs, 5);
    assert Concat(bs[..6]) == bs[0] + bs[1] + bs[2] + bs[3] + bs[4] + bs[5];
    ConcatStep(bs, 6);
    assert Concat(bs[..7]) == bs[0] + bs[1] + bs[2] + bs[3] + bs[4] + bs[5] + bs[6];
    ConcatStep(bs, 7);
    assert Concat(bs[..8]) == bs[0] + bs[1] + bs[2] + bs[3] + bs[4] + bs[5] + bs[6] + bs[7];
    ConcatStep(bs, 8);
    assert Concat(bs[..9]) == bs[0] + bs[1] + bs[2] + bs[3] + bs[4] + bs[5] + bs[6] + bs[7] + bs[8];
    ConcatStep(bs, 9);
    assert Concat(bs[..10]) == bs[0] + bs[1] + bs[2] + bs[3] + bs[4] + bs[5] + bs[6] + bs[7] + bs[8] + bs[9];
    ConcatStep(bs, 10);
    assert Concat(bs[..11]) == bs[0] + bs[1] + bs[2] + bs[3] + bs[4] + bs[5] + bs[6] + bs[7] + bs[8] + bs[9] + bs[10];
    assert bs[..11] == bs;
  }

  /** The command is its blocks appended one after the other, as the builder appends them. */
  lemma BlocksInOrder(o: Options, host: Host)
    ensures CommandTokens(o, host) == Prefix(host) + FlagTokens(o.flags) + NameTokens(o) + IconTokens(o, host)
      + OutputDirTokens(o, host.platform) + AddDataTokens(o.extraFiles, host)
      + HiddenImportTokens(o.hiddenImports) + OptimizeTokens(o) + UpxTokens(o) + Words(o.extraArgs) + [o.source]
  {
    ElevenBlocks(Blocks(o, host));
  }

  lemma ConcatStep<T>(bs: seq<seq<T>>, i: nat)
    requires i < |bs|
    ensures Concat(bs[..i + 1]) == Concat(bs[..i]) + bs[i]
  {
    assert bs[..i + 1][..i] == bs[..i];
  }

  /**
   * The switch block lists the switch of each ticked box and nothing else,
   * each at most once, in the fixed order of `FlagNames`.
   */
  lemma SwitchesInOrder(f: Flags)
    ensures IsSubsequence(FlagTokens(f), FlagNames)
    ensures forall k | 0 <= k < |FlagNames| :: (FlagNames[k] in FlagTokens(f)) == Ticks(f)[k]
    ensures forall i | 0 <= i < |FlagTokens(f)| :: IsFlagToken(FlagTokens(f)[i])
    ensures forall i, j | 0 <= i < j < |FlagTokens(f)| :: FlagTokens(f)[i] != FlagTokens(f)[j]
  {
    FlagTokensSelected(f);
    SwitchNamesDistinct();
    SelectedInOrder(FlagNames, Ticks(f), 6);
    assert FlagNames[..6] == FlagNames;
  }

  lemma FlagTokensSelected(f: Flags)
    ensures FlagTokens(f) == Selected(FlagNames, Ticks(f), 6)
  {
    var t := Ticks(f);
    assert Selected(FlagNames, t, 1) == Switch(f.onefile, "--onefile");
    assert Selected(FlagNames, t, 2) == Selected(FlagNames, t, 1) + Switch(f.windowed, "--windowed");
    assert Selected(FlagNames, t, 3) == Selected(FlagNames, t, 2) + Switch(f.noconsole, "--noconsole");
    assert Selected(FlagNames, t, 4) == Selected(FlagNames, t, 3) + Switch(f.clean, "--clean");
    assert Selected(FlagNames, t, 5) == Selected(FlagNames, t, 4) + Switch(f.noconfirm, "--noconfirm");
    assert Selected(FlagNames, t, 6) == Selected(FlagNames, t, 5) + Switch(f.strip, "--strip");
  }

  function Switch(on: bool, t: string): seq<string> {
    if on then [t] else []
  }

  lemma SwitchNamesDistinct()
    ensures forall i, j | 0 <= i < j < |FlagNames| :: FlagNames[i] != FlagNames[j]
  {
    assert "--clean"[2] != "--strip"[2];
    assert "--noconfirm"[7] != "--noconsole"[7];
  }

  /** The names among the first `n` whose box is ticked, in their order. */
  function Selected<T>(names: seq<T>, ticks: seq<bool>, n: nat): seq<T>
    requires |ticks| == |names| && n <= |names|
  {
    if n == 0 then [] else Selected(names, ticks, n - 1) + (if ticks[n - 1] then [names[n - 1]] else [])
  }

  lemma SelectedInOrder<T>(names: seq<T>, ticks: seq<bool>, n: nat)
    requires |ticks| == |names| && n <= |names|
    requires forall i, j | 0 <= i < j < |names| :: names[i] != names[j]
    ensures IsSubsequence(Selected(names, ticks, n), names[..n])
    ensures forall k | 0 <= k < |names| :: (names[k] in Selected(names, ticks, n)) == (k < n && ticks[k])
    ensures forall i | 0 <= i < |Selected(names, ticks, n)| :: Selected(names, ticks, n)[i] in names[..n]
    ensures forall i, j | 0 <= i < j < |Selected(names, ticks, n)| :: Selected(names, ticks, n)[i] != Selected(names, ticks, n)[j]
  {
    SelectedMembers(names, ticks, n);
    SelectedOrdered(names, ticks, n);
    SelectedDistinct(names, ticks, n);
  }

  /** A name is selected exactly when it is among the first `n` and ticked. */
  lemma {:induction false} SelectedMembers<T>(names: seq<T>, ticks: seq<bool>, n: nat)
    requires |ticks| == |names| && n <= |names|
    requires forall i, j | 0 <= i < j < |names| :: names[i] != names[j]
    ensures forall k | 0 <= k < |names| :: (names[k] in Selected(names, ticks, n)) == (k < n && ticks[k])
    ensures forall i | 0 <= i < |Selected(names, ticks, n)| :: Selected(names, ticks, n)[i] in names[..n]
  {
    if n > 0 {
      SelectedMembers(names, ticks, n - 1);
      var s := Selected(names, ticks, n - 1);
      assert names[..n] == names[..n - 1] + [names[n - 1]];
      if ticks[n - 1] {
        assert Selected(names, ticks, n) == s + [names[n - 1]];
      }
    }
  }

  /** The selection keeps the order of `names`. */
  lemma {:induction false} SelectedOrdered<T>(names: seq<T>, ticks: seq<bool>, n: nat)
    requires |ticks| == |names| && n <= |names|
    requires forall i, j | 0 <= i < j < |names| :: names[i] != names[j]
    ensures IsSubsequence(Selected(names, ticks, n), names[..n])
  {
    if n > 0 {
      SelectedOrdered(names, ticks, n - 1);
      var s := Selected(names, ticks, n - 1);
      var prefix := names[..n];
      assert prefix[..n - 1] == names[..n - 1];
      if ticks[n - 1] {
        var t := s + [names[n - 1]];
        assert Selected(names, ticks, n) == t;
        assert t[..|t| - 1] == s && t[|t| - 1] == prefix[|prefix| - 1];
        assert IsSubsequence(t, prefix);
      } else if s != [] {
        assert Selected(names, ticks, n) == s;
        SelectedMembers(names, ticks, n - 1);
        assert s[|s| - 1] in names[..n - 1];
        assert s[|s| - 1] != prefix[|prefix| - 1];
        assert IsSubsequence(s, prefix);
      }
    }
  }

  /** With distinct names, the selection holds no repeats. */
  lemma {:induction false} SelectedDistinct<T>(names: seq<T>, ticks: seq<bool>, n: nat)
    requires |ticks| == |names| && n <= |names|
    requires forall i, j | 0 <= i < j < |names| :: names[i] != names[j]
    ensures forall i, j | 0 <= i < j < |Selected(names, ticks, n)| :: Selected(names, ticks, n)[i] != Selected(names, ticks, n)[j]
  {
    if n > 0 && ticks[n - 1] {
      SelectedDistinct(names, ticks, n - 1);
      SelectedMembers(names, ticks, n - 1);
      var s := Selected(names, ticks, n - 1);
      assert Selected(names, ticks, n) == s + [names[n - 1]];
      assert names[n - 1] !in s;
    } else if n > 0 {
      SelectedDistinct(names, ticks, n - 1);
    }
  }

  /** The longest run of switch tokens at the front of `ts`. */
  function LeadingSwitches(ts: seq<string>): seq<string> {
    if ts != [] && IsFlagToken(ts[0]) then [ts[0]] + LeadingSwitches(ts[1..]) else []
  }

  lemma {:induction false} LeadingSwitchesOf(a: seq<string>, b: seq<string>)
    requires forall i | 0 <= i < |a| :: IsFlagToken(a[i])
    requires b == [] || !IsFlagToken(b[0])
    ensures LeadingSwitches(a + b) == a
    decreases |a|
  {
    if a == [] {
      assert a + b == b;
    } else {
      assert (a + b)[1..] == a[1..] + b;
      LeadingSwitchesOf(a[1..], b);
    }
  }

  /** Appends the switch of every ticked check box, in the fixed order of `FlagNames`. */
  method AppendSwitches(start: seq<string>, on: Flags) returns (cmd: seq<string>)
    ensures cmd == start + FlagTokens(on)
  {
    cmd := start;
    ghost var switches: seq<string> := [];
    AppendAssoc(start, switches, (if on.onefile then ["--onefile"] else []));
    cmd := cmd + (if on.onefile then ["--onefile"] else []);
    switches := switches + (if on.onefile then ["--onefile"] else []);
    assert cmd == start + switches;
    AppendAssoc(start, switches, (if on.windowed then ["--windowed"] else []));
    cmd := cmd + (if on.windowed then ["--windowed"] else []);
    switches := switches + (if on.windowed then ["--windowed"] else []);
    assert cmd == start + switches;
    AppendAssoc(start, switches, (if on.noconsole then ["--noconsole"] else []));
    cmd := cmd + (if on.noconsole then ["--noconsole"] else []);
    switches := switches + (if on.noconsole then ["--noconsole"] else []);
    assert cmd == start + switches;
    AppendAssoc(start, switches, (if on.clean then ["--clean"] else []));
    cmd := cmd + (if on.clean then ["--clean"] else []);
    switches := switches + (if on.clean then ["--clean"] else []);
    assert cmd == start + switches;
    AppendAssoc(start, switches, (if on.noconfirm then ["--noconfirm"] else []));
    cmd := cmd + (if on.noconfirm then ["--noconfirm"] else []);
    switches := switches + (if on.noconfirm then ["--noconfirm"] else []);
    assert cmd == start + switches;
    AppendAssoc(start, switches, (if on.strip then ["--strip"] else []));
    cmd := cmd + (if on.strip then ["--strip"] else []);
    switches := switches + (if on.strip then ["--strip"] else []);
    assert cmd == start + switches;
    assert switches == FlagTokens(on) by {
      assert [] + (if on.onefile then ["--onefile"] else []) == (if on.onefile then ["--onefile"] else []);
    }
  }

  lemma AppendAssoc<T>(a: seq<T>, b: seq<T>, c: seq<T>)
    ensures a + b + c == a + (b + c)
  {
  }

  /** Appends `--distpath dir/dist`, `--workpath dir/build` and `--specpath dir` for a chosen output directory. */
  method AppendOutputDir(start: seq<string>, o: Options, p: Platform) returns (cmd: seq<string>)
    ensures cmd == start + OutputDirTokens(o, p)
  {
    cmd := start;
    if o.outputDir != "" {
      var dist, build := Join(p, o.outputDir, "dist"), Join(p, o.outputDir, "build");
      cmd := cmd + ["--distpath", dist];
      cmd := cmd + ["--workpath", build];
      cmd := cmd + ["--specpath", o.outputDir];
      assert cmd == start + ["--distpath", dist, "--workpath", build, "--specpath", o.outputDir];
    }
  }

  /** Appends an `--add-data` pair for each extra path that exists, skipping the others. */
  method AppendAddData(start: seq<string>, paths: seq<string>, host: Host) returns (cmd: seq<string>)
    ensures cmd == start + AddDataTokens(paths, host)
  {
    cmd := start;
    var sep := DataSeparator(host.platform);
    for i := 0 to |paths|
      invariant cmd == start + AddDataTokens(paths[..i], host)
    {
      var path := paths[i];
      AddDataStep(paths, i, host);
      if path in host.existing {
        var dest := Basename(host.platform, path);
        assert path + [sep] + dest == DataSpec(path, host.platform);
        cmd := cmd + ["--add-data", path + [sep] + dest];
      }
    }
    assert paths[..|paths|] == paths;
  }

  /** One more path adds its pair when it exists, and nothing when it does not. */
  lemma AddDataStep(paths: seq<string>, i: nat, host: Host)
    requires i < |paths|
    ensures AddDataTokens(paths[..i + 1], host) == AddDataTokens(paths[..i], host)
      + (if paths[i] in host.existing then ["--add-data", DataSpec(paths[i], host.platform)] else [])
  {
    assert paths[..i + 1][..i] == paths[..i];
  }

  /** Appends a `--hidden-import` pair for each list entry. */
  method AppendHiddenImports(start: seq<string>, names: seq<string>) returns (cmd: seq<string>)
    ensures cmd == start + HiddenImportTokens(names)
  {
    cmd := start;
    for i := 0 to |names|
      invariant cmd == start + HiddenImportTokens(names[..i])
    {
      var imp := names[i];
      cmd := cmd + ["--hidden-import", imp];
      assert names[..i + 1][..i] == names[..i];
    }
    assert names[..|names|] == names;
  }

  /** Appends the UPX choice: `--upx-dir=upx` and possibly a level, or `--noupx`. */
  method AppendUpx(start: seq<string>, o: Options) returns (cmd: seq<string>)
    ensures cmd == start + UpxTokens(o)
  {
    cmd := start;
    if o.upx {
      cmd := cmd + ["--upx-dir=upx"];
      if o.upxLevel > 0 {
        cmd := cmd + ["--upx-level=" + DigitString(o.upxLevel)];
      }
    } else {
      cmd := cmd + ["--noupx"];
    }
  }

  /**
   * The argument list, appended to block by block in the order the window's
   * widgets are read; the blocks are the methods above.
   */
  method BuildCommand(o: Options, host: Host) returns (r: Result<seq<string>, BuildError>)
    ensures r == Build(o, host)
  {
    if o.source == "" || o.source !in host.files {
      return Failure(MissingSource);
    }
    var cmd := [host.executable, "-m", "PyInstaller"];
    cmd := AppendSwitches(cmd, o.flags);
    if o.outputName != "" {
      cmd := cmd + ["--name", o.outputName];
    }
    assert cmd == Prefix(host) + FlagTokens(o.flags) + NameTokens(o);
    if o.icon != "" && o.icon in host.files {
      cmd := cmd + ["--icon", o.icon];
    }
    assert cmd == Prefix(host) + FlagTokens(o.flags) + NameTokens(o) + IconTokens(o, host);
    cmd := AppendOutputDir(cmd, o, host.platform);
    cmd := AppendAddData(cmd, o.extraFiles, host);
    cmd := AppendHiddenImports(cmd, o.hiddenImports);
    if o.optimize > 0 {
      cmd := cmd + ["-O" + DigitString(o.optimize)];
    }
    ghost var withOptimize := cmd;
    assert withOptimize == Prefix(host) + FlagTokens(o.flags) + NameTokens(o) + IconTokens(o, host)
      + OutputDirTokens(o, host.platform) + AddDataTokens(o.extraFiles, host)
      + HiddenImportTokens(o.hiddenImports) + OptimizeTokens(o);
    cmd := AppendUpx(cmd, o);
    if o.extraArgs != "" {
      cmd := cmd + Words(o.extraArgs);
    }
    assert cmd == withOptimize + UpxTokens(o) + Words(o.extraArgs);
    cmd := cmd + [o.source];
    BlocksInOrder(o, host);
    return Success(cmd);
  }
}
