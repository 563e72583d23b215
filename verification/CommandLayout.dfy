/**
 * Where each option block of a `build_command` result sits.  The user's own
 * strings (a name, a hidden import, a free-form argument) may spell any
 * option token, so a claim such as "`--name` appears only when a name was
 * typed" is stated at the slot where the name block belongs: the index of
 * its first token, which an empty block shares with the next one.
 */
module CommandLayout {
  import opened Text
  import opened Paths
  import opened CommandBuilder

  /** Index in the command of the first token of block `i`. */
  function Slot(o: Options, host: Host, i: nat): nat
    requires i <= |Blocks(o, host)|
  {
    |Concat(Blocks(o, host)[..i])|
  }

  /** From the slot of block `i` on, the concatenation is block `i` followed by the blocks after it. */
  lemma SlotSuffix<T>(bs: seq<seq<T>>, i: nat)
    requires i < |bs|
    ensures |Concat(bs[..i])| <= |Concat(bs)|
    ensures Concat(bs)[|Concat(bs[..i])|..] == bs[i] + Concat(bs[i + 1..])
  {
    ConcatSplit(bs, i);
    ConcatRest(bs, i);
  }

  lemma NextSlot<T>(bs: seq<seq<T>>, i: nat)
    requires i < |bs|
    ensures |Concat(bs[..i + 1])| == |Concat(bs[..i])| + |bs[i]|
  {
    assert bs[..i + 1][..i] == bs[..i];
  }

  /**
   * Which option block a token opens: `--name`, `--icon`, `--distpath`,
   * `--add-data`, `--hidden-import`, an `-O` level, or one of the two UPX
   * tokens; `SourceBlock + 1` for any other token.
   */
  function OpenedBlock(t: string): nat {
    if t == "--name" then NameBlock
    else if t == "--icon" then IconBlock
    else if t == "--distpath" then OutputDirBlock
    else if t == "--add-data" then AddDataBlock
    else if t == "--hidden-import" then HiddenImportBlock
    else if |t| == 3 && t[0] == '-' && t[1] == 'O' then OptimizeBlock
    else if t == "--upx-dir=upx" || t == "--noupx" then UpxBlock
    else SourceBlock + 1
  }

  /**
   * Each option block from the name to UPX is empty or starts with its own
   * opening token, and is present exactly when its widget asks for it; the
   * UPX block is never empty.
   */
  lemma BlocksOpen(o: Options, host: Host)
    ensures NameTokens(o) == [] || OpenedBlock(NameTokens(o)[0]) == NameBlock
    ensures IconTokens(o, host) == [] || OpenedBlock(IconTokens(o, host)[0]) == IconBlock
    ensures OutputDirTokens(o, host.platform) == [] || OpenedBlock(OutputDirTokens(o, host.platform)[0]) == OutputDirBlock
    ensures AddDataTokens(o.extraFiles, host) == [] || OpenedBlock(AddDataTokens(o.extraFiles, host)[0]) == AddDataBlock
    ensures HiddenImportTokens(o.hiddenImports) == [] || OpenedBlock(HiddenImportTokens(o.hiddenImports)[0]) == HiddenImportBlock
    ensures OptimizeTokens(o) == [] || OpenedBlock(OptimizeTokens(o)[0]) == OptimizeBlock
    ensures UpxTokens(o) != [] && OpenedBlock(UpxTokens(o)[0]) == UpxBlock
    ensures NameTokens(o) != [] <==> o.outputName != ""
    ensures IconTokens(o, host) != [] <==> o.icon != "" && o.icon in host.files
    ensures OutputDirTokens(o, host.platform) != [] <==> o.outputDir != ""
    ensures AddDataTokens(o.extraFiles, host) != [] <==> Existing(o.extraFiles, host) != []
    ensures HiddenImportTokens(o.hiddenImports) != [] <==> o.hiddenImports != []
    ensures OptimizeTokens(o) != [] <==> o.optimize > 0
  {
    OpensSimple(o, host);
    OpensAddData(o, host);
    OpensHiddenImport(o);
  }

  /** The name, icon, output-directory, optimisation and UPX blocks open with their own token. */
  lemma OpensSimple(o: Options, host: Host)
    ensures NameTokens(o) == [] || OpenedBlock(NameTokens(o)[0]) == NameBlock
    ensures IconTokens(o, host) == [] || OpenedBlock(IconTokens(o, host)[0]) == IconBlock
    ensures OutputDirTokens(o, host.platform) == [] || OpenedBlock(OutputDirTokens(o, host.platform)[0]) == OutputDirBlock
    ensures OptimizeTokens(o) == [] || OpenedBlock(OptimizeTokens(o)[0]) == OptimizeBlock
    ensures UpxTokens(o) != [] && OpenedBlock(UpxTokens(o)[0]) == UpxBlock
    ensures NameTokens(o) != [] <==> o.outputName != ""
    ensures IconTokens(o, host) != [] <==> o.icon != "" && o.icon in host.files
    ensures OutputDirTokens(o, host.platform) != [] <==> o.outputDir != ""
    ensures OptimizeTokens(o) != [] <==> o.optimize > 0
  {
    assert "--icon"[2] != "--name"[2];
    assert "--add-data"[2] != "--distpath"[2];
  }

  /** The `--add-data` block opens with `--add-data`, and is present exactly when some extra path exists. */
  lemma OpensAddData(o: Options, host: Host)
    ensures AddDataTokens(o.extraFiles, host) == [] || OpenedBlock(AddDataTokens(o.extraFiles, host)[0]) == AddDataBlock
    ensures AddDataTokens(o.extraFiles, host) != [] <==> Existing(o.extraFiles, host) != []
  {
    AddDataPairs(o.extraFiles, host);
    if Existing(o.extraFiles, host) != [] {
      assert AddDataTokens(o.extraFiles, host)[2 * 0] == "--add-data";
    }
  }

  /** The `--hidden-import` block opens with `--hidden-import`, and is present exactly when the list is not empty. */
  lemma OpensHiddenImport(o: Options)
    ensures HiddenImportTokens(o.hiddenImports) == [] || OpenedBlock(HiddenImportTokens(o.hiddenImports)[0]) == HiddenImportBlock
    ensures HiddenImportTokens(o.hiddenImports) != [] <==> o.hiddenImports != []
  {
    HiddenImportPairs(o.hiddenImports);
    if o.hiddenImports != [] {
      assert HiddenImportTokens(o.hiddenImports)[2 * 0] == "--hidden-import";
    }
  }

  /** The blocks from the name to UPX each start with their own opening token when present. */
  lemma OpensOwnBlocks(o: Options, host: Host)
    ensures var bs := Blocks(o, host);
      && bs[UpxBlock] != []
      && forall j | NameBlock <= j <= UpxBlock :: bs[j] == [] || OpenedBlock(bs[j][0]) == j
  {
    BlocksOpen(o, host);
    var bs := Blocks(o, host);
    assert bs[NameBlock] == NameTokens(o);
    assert bs[IconBlock] == IconTokens(o, host);
    assert bs[OutputDirBlock] == OutputDirTokens(o, host.platform);
    assert bs[AddDataBlock] == AddDataTokens(o.extraFiles, host);
    assert bs[HiddenImportBlock] == HiddenImportTokens(o.hiddenImports);
    assert bs[OptimizeBlock] == OptimizeTokens(o);
    assert bs[UpxBlock] == UpxTokens(o);
  }

  /**
   * If each block from `i` to `last` is empty or starts with its own opening
   * token, and block `last` is not empty, the blocks from `i` on start with
   * the opening token of the first non-empty one.
   */
  lemma {:induction false} FirstOpening(bs: seq<seq<string>>, i: nat, last: nat)
    requires i <= last < |bs|
    requires forall j | i <= j <= last :: bs[j] == [] || OpenedBlock(bs[j][0]) == j
    requires bs[last] != []
    ensures Concat(bs[i..]) != []
    ensures i <= OpenedBlock(Concat(bs[i..])[0]) <= last
    ensures OpenedBlock(Concat(bs[i..])[0]) == i <==> bs[i] != []
    decreases last - i
  {
    ConcatRest(bs, i);
    if bs[i] == [] {
      FirstOpening(bs, i + 1, last);
    }
  }

  /**
   * At the slot of option block `i`, the command holds a token opening block
   * `i` or a later one, and block `i`'s own exactly when block `i` is present.
   */
  lemma SlotOpening(o: Options, host: Host, i: nat)
    requires NameBlock <= i <= UpxBlock
    ensures Slot(o, host, i) < |CommandTokens(o, host)|
    ensures var b := OpenedBlock(CommandTokens(o, host)[Slot(o, host, i)]);
      i <= b <= UpxBlock && (b == i <==> Blocks(o, host)[i] != [])
  {
    var bs := Blocks(o, host);
    OpensOwnBlocks(o, host);
    SlotSuffix(bs, i);
    ConcatRest(bs, i);
    FirstOpening(bs, i, UpxBlock);
    assert CommandTokens(o, host)[Slot(o, host, i)] == Concat(bs[i..])[0];
  }

  /** `--name n` is in the name slot exactly when a name was typed, followed by that name. */
  lemma NameOption(o: Options, host: Host)
    ensures var cmd, k := CommandTokens(o, host), Slot(o, host, NameBlock);
      && k < |cmd|
      && (cmd[k] == "--name" <==> o.outputName != "")
      && (o.outputName != "" ==> k + 1 < |cmd| && cmd[k + 1] == o.outputName)
  {
    SlotOpening(o, host, NameBlock);
    BlocksOpen(o, host);
    SlotSuffix(Blocks(o, host), NameBlock);
  }

  /** `--icon p` is in the icon slot exactly when the icon field names an existing file, followed by that path. */
  lemma IconOption(o: Options, host: Host)
    ensures var cmd, k := CommandTokens(o, host), Slot(o, host, IconBlock);
      && k < |cmd|
      && (cmd[k] == "--icon" <==> o.icon != "" && o.icon in host.files)
      && (o.icon != "" && o.icon in host.files ==> k + 1 < |cmd| && cmd[k + 1] == o.icon)
  {
    SlotOpening(o, host, IconBlock);
    BlocksOpen(o, host);
    SlotSuffix(Blocks(o, host), IconBlock);
  }

  /**
   * With an output directory the command holds, at its slot, the output
   * folder `dir/dist`, the work folder `dir/build` and the spec folder `dir`;
   * without one, no `--distpath` opens that slot.
   */
  lemma OutputDirOptions(o: Options, host: Host)
    ensures var cmd, k := CommandTokens(o, host), Slot(o, host, OutputDirBlock);
      && k < |cmd|
      && (cmd[k] == "--distpath" <==> o.outputDir != "")
      && (o.outputDir != "" ==>
            && k + 6 <= |cmd|
            && cmd[k..k + 6] == ["--distpath", Join(host.platform, o.outputDir, "dist"),
                                 "--workpath", Join(host.platform, o.outputDir, "build"),
                                 "--specpath", o.outputDir])
  {
    SlotOpening(o, host, OutputDirBlock);
    BlocksOpen(o, host);
    SlotSuffix(Blocks(o, host), OutputDirBlock);
    var cmd, k := CommandTokens(o, host), Slot(o, host, OutputDirBlock);
    if o.outputDir != "" {
      assert cmd[k..k + 6] == cmd[k..][..6];
    }
  }

  /** Pairs `tag, vals[j]` laid out in `block`, which sits at index `k` of `s`, are at `k + 2 * j` of `s`. */
  lemma PairsAt<T>(s: seq<T>, k: nat, block: seq<T>, rest: seq<T>, tag: T, vals: seq<T>)
    requires k <= |s| && s[k..] == block + rest
    requires |block| == 2 * |vals|
    requires forall j | 0 <= j < |vals| :: block[2 * j] == tag && block[2 * j + 1] == vals[j]
    ensures k + |block| <= |s|
    ensures forall j | 0 <= j < |vals| :: s[k + 2 * j] == tag && s[k + 2 * j + 1] == vals[j]
  {
    forall j | 0 <= j < |vals|
      ensures s[k + 2 * j] == tag && s[k + 2 * j + 1] == vals[j]
    {
      assert s[k + 2 * j] == s[k..][2 * j];
      assert s[k + 2 * j + 1] == s[k..][2 * j + 1];
    }
  }

  /**
   * From its slot on, the command holds one `--add-data` pair per extra path
   * that still exists, in list order; the hidden imports' slot follows.
   */
  lemma DataFileOptions(o: Options, host: Host)
    ensures var cmd, k, kept := CommandTokens(o, host), Slot(o, host, AddDataBlock), Existing(o.extraFiles, host);
      && Slot(o, host, HiddenImportBlock) == k + 2 * |kept| <= |cmd|
      && (forall j | 0 <= j < |kept| ::
            cmd[k + 2 * j] == "--add-data" && cmd[k + 2 * j + 1] == DataSpec(kept[j], host.platform))
  {
    var bs := Blocks(o, host);
    SlotSuffix(bs, AddDataBlock);
    NextSlot(bs, AddDataBlock);
    AddDataPairs(o.extraFiles, host);
    var kept := Existing(o.extraFiles, host);
    PairsAt(CommandTokens(o, host), Slot(o, host, AddDataBlock), bs[AddDataBlock], Concat(bs[AddDataBlock + 1..]),
      "--add-data", seq(|kept|, j requires 0 <= j < |kept| => DataSpec(kept[j], host.platform)));
  }

  /** From its slot on, the command holds the hidden imports in list order, each after `--hidden-import`. */
  lemma HiddenImportOptions(o: Options, host: Host)
    ensures var cmd, k, names := CommandTokens(o, host), Slot(o, host, HiddenImportBlock), o.hiddenImports;
      && Slot(o, host, OptimizeBlock) == k + 2 * |names| <= |cmd|
      && (forall j | 0 <= j < |names| :: cmd[k + 2 * j] == "--hidden-import" && cmd[k + 2 * j + 1] == names[j])
  {
    var bs := Blocks(o, host);
    SlotSuffix(bs, HiddenImportBlock);
    NextSlot(bs, HiddenImportBlock);
    HiddenImportPairs(o.hiddenImports);
    PairsAt(CommandTokens(o, host), Slot(o, host, HiddenImportBlock), bs[HiddenImportBlock],
      Concat(bs[HiddenImportBlock + 1..]), "--hidden-import", o.hiddenImports);
  }

  /** The optimisation slot holds `-O1` or `-O2` exactly for a positive level. */
  lemma OptimizeOption(o: Options, host: Host)
    ensures var cmd, k := CommandTokens(o, host), Slot(o, host, OptimizeBlock);
      && k < |cmd|
      && (OpenedBlock(cmd[k]) == OptimizeBlock <==> o.optimize > 0)
      && (o.optimize > 0 ==> cmd[k] == "-O" + DigitString(o.optimize))
  {
    SlotOpening(o, host, OptimizeBlock);
    BlocksOpen(o, host);
    SlotSuffix(Blocks(o, host), OptimizeBlock);
  }

  /**
   * The command ends with the UPX choice, then the free-form arguments split
   * at white space, then the source file.
   */
  lemma CommandEnding(o: Options, host: Host)
    ensures var cmd := CommandTokens(o, host);
      && Slot(o, host, UpxBlock) <= |cmd|
      && cmd[Slot(o, host, UpxBlock)..] == UpxTokens(o) + Words(o.extraArgs) + [o.source]
  {
    var bs := Blocks(o, host);
    SlotSuffix(bs, UpxBlock);
    ConcatRest(bs, ExtraArgsBlock);
    ConcatRest(bs, SourceBlock);
    assert bs[SourceBlock + 1..] == [];
  }

  /**
   * Ticking or clearing switches changes only the switch block: everything
   * after it is the same, token for token; and the switches are the
   * command's leading run of switch tokens after the interpreter prefix.
   */
  lemma SwitchesOnlyChangeSwitchBlock(o: Options, host: Host, f: Flags)
    ensures var o' := o.(flags := f);
      && Slot(o', host, NameBlock) <= |CommandTokens(o', host)|
      && Slot(o, host, NameBlock) <= |CommandTokens(o, host)|
      && CommandTokens(o', host)[Slot(o', host, NameBlock)..] == CommandTokens(o, host)[Slot(o, host, NameBlock)..]
    ensures |CommandTokens(o, host)| >= 3 && LeadingSwitches(CommandTokens(o, host)[3..]) == FlagTokens(o.flags)
  {
    var o' := o.(flags := f);
    var bs, bs' := Blocks(o, host), Blocks(o', host);
    SlotSuffix(bs, NameBlock);
    SlotSuffix(bs', NameBlock);
    assert bs[NameBlock + 1..] == bs'[NameBlock + 1..];
    SwitchBlockFollowedByOption(o, host);
  }

  lemma SwitchBlockFollowedByOption(o: Options, host: Host)
    ensures |CommandTokens(o, host)| >= 3 && LeadingSwitches(CommandTokens(o, host)[3..]) == FlagTokens(o.flags)
  {
    var cmd, k := CommandTokens(o, host), Slot(o, host, NameBlock);
    SwitchBlockAt(o, host);
    SlotOpening(o, host, NameBlock);
    OpeningsAreNotSwitches(cmd[k]);
    SwitchesInOrder(o.flags);
    LeadingSwitchesOf(FlagTokens(o.flags), cmd[k..]);
  }

  /** After the three prefix tokens come the switches, then the command from the name slot on. */
  lemma SwitchBlockAt(o: Options, host: Host)
    ensures var cmd, k := CommandTokens(o, host), Slot(o, host, NameBlock);
      3 <= k <= |cmd| && cmd[3..] == FlagTokens(o.flags) + cmd[k..]
  {
    var bs := Blocks(o, host);
    assert Concat(bs[..1]) == Prefix(host) by {
      assert bs[..1][..0] == [];
    }
    SlotSuffix(bs, SwitchBlock);
    SlotSuffix(bs, NameBlock);
    ConcatRest(bs, NameBlock);
  }

  lemma OpeningsAreNotSwitches(t: string)
    requires OpenedBlock(t) <= UpxBlock
    ensures !IsFlagToken(t)
  {
    assert "--distpath"[2] != "--windowed"[2];
    assert "--add-data"[2] != "--windowed"[2];
    assert "--noupx"[2] != "--clean"[2] && "--noupx"[2] != "--strip"[2];
  }
}
