/**
 * The text scan of `MainWindow.detect_imports`: the source file is split
 * into lines, each line is stripped, and a line that starts with `import `
 * or `from ` names the top-level packages it imports.  The scan is purely
 * textual: it does not parse Python, so strings, comments and continuation
 * lines are read like any other line.
 */
module ImportParsing {
  import opened Text

  /** A plain package name: not empty, and without whitespace, dots or commas. */
  predicate Identifier(n: string) {
    n != [] && forall i | 0 <= i < |n| :: !IsSpace(n[i]) && n[i] != '.' && n[i] != ','
  }

  /**
   * One comma-separated part of an `import` line: the text before ` as `,
   * then before the first dot, of the stripped part.
   */
  function ImportedName(part: string): (m: string)
    ensures '.' !in m
  {
    var m := BeforeFirst(BeforeFirst(Strip(part), " as "), ".");
    ContainsChar(m, '.');
    m
  }

  /** The text after `from `: before ` import`, stripped, then before the first dot. */
  function FromName(rest: string): (m: string)
    ensures '.' !in m
  {
    var m := BeforeFirst(Strip(BeforeFirst(rest, " import")), ".");
    ContainsChar(m, '.');
    m
  }

  /** The names of the parts, in order, leaving out the empty ones. */
  function PartNames(parts: seq<string>): (ms: seq<string>)
    ensures |ms| <= |parts|
    ensures forall i | 0 <= i < |ms| :: ms[i] != [] && '.' !in ms[i]
  {
    if parts == [] then []
    else
      var m := ImportedName(parts[0]);
      (if m != [] then [m] else []) + PartNames(parts[1..])
  }

  /** The packages one stripped line names; a line of any other form names none. */
  function ModulesOfStatement(line: string): (ms: seq<string>)
    ensures forall i | 0 <= i < |ms| :: ms[i] != [] && '.' !in ms[i]
    ensures ms != [] ==> StartsWith(line, "import ") || StartsWith(line, "from ")
  {
    if StartsWith(line, "import ") then PartNames(SplitChar(line[7..], ','))
    else if StartsWith(line, "from ") then
      var m := FromName(line[5..]);
      if m != [] then [m] else []
    else []
  }

  /** The packages one line of the file names, once it is stripped. */
  function ModulesOfLine(raw: string): (ms: seq<string>)
    ensures forall i | 0 <= i < |ms| :: ms[i] != [] && '.' !in ms[i]
    ensures ms != [] ==> StartsWith(Strip(raw), "import ") || StartsWith(Strip(raw), "from ")
  {
    ModulesOfStatement(Strip(raw))
  }

  /** The same, as a set. */
  function LineModules(raw: string): (found: set<string>)
    ensures forall m :: m in found <==> m in ModulesOfLine(raw)
  {
    var ms := ModulesOfLine(raw);
    set i | 0 <= i < |ms| :: ms[i]
  }

  /** Every package the lines name. */
  function ModulesOfLines(lines: seq<string>): (found: set<string>)
    ensures forall m | m in found :: m != [] && '.' !in m
  {
    if lines == [] then {} else LineModules(lines[0]) + ModulesOfLines(lines[1..])
  }

  /** The set `detect_imports` builds from the file's text, split at line feeds. */
  function DetectedModules(content: string): (found: set<string>)
    ensures forall m | m in found :: m != [] && '.' !in m
  {
    ModulesOfLines(SplitChar(content, '\n'))
  }

  /** A package is detected exactly when some line of the file names it. */
  lemma {:induction false} DetectedFromSomeLine(lines: seq<string>, m: string)
    ensures m in ModulesOfLines(lines) <==> exists k | 0 <= k < |lines| :: m in ModulesOfLine(lines[k])
  {
    if lines != [] {
      DetectedFromSomeLine(lines[1..], m);
      if m in ModulesOfLines(lines[1..]) {
        var k :| 0 <= k < |lines[1..]| && m in ModulesOfLine(lines[1..][k]);
        assert m in ModulesOfLine(lines[k + 1]);
      }
      if exists k | 0 <= k < |lines| :: m in ModulesOfLine(lines[k]) {
        var k :| 0 <= k < |lines| && m in ModulesOfLine(lines[k]);
        if k > 0 {
          assert lines[1..][k - 1] == lines[k];
        }
      }
    }
  }

  /** An `import ` statement names the parts of the rest, split at commas. */
  lemma ImportForm(rest: string)
    ensures ModulesOfStatement("import " + rest) == PartNames(SplitChar(rest, ','))
  {
    var line := "import " + rest;
    assert line[..7] == "import ";
    assert line[7..] == rest;
  }

  /** A `from ` statement names what `FromName` finds in the rest, if anything. */
  lemma FromForm(rest: string)
    ensures var m := FromName(rest); ModulesOfStatement("from " + rest) == if m != [] then [m] else []
  {
    var line := "from " + rest;
    assert line[0] != "import "[0];
    assert line[..5] == "from ";
    assert line[5..] == rest;
  }

  /** `import a,b,c` over plain names gives the names back, in order. */
  lemma ImportLineRoundTrip(names: seq<string>)
    requires |names| >= 1 && forall i | 0 <= i < |names| :: Identifier(names[i])
    ensures ModulesOfLine("import " + JoinChar(names, ',')) == names
  {
    ImportLineStripped(names);
    ImportJoined(names);
  }

  lemma ImportLineStripped(names: seq<string>)
    requires |names| >= 1 && forall i | 0 <= i < |names| :: Identifier(names[i])
    ensures var line := "import " + JoinChar(names, ','); ModulesOfLine(line) == ModulesOfStatement(line)
  {
    JoinedEnds(names);
    assert "import "[0] == 'i' && !IsSpace('i');
    AlreadyStripped("import ", JoinChar(names, ','));
  }

  /** Text that does not end in whitespace. */
  predicate EndsSolid(s: string) {
    s != [] && !IsSpace(s[|s| - 1])
  }

  /** A line that neither starts nor ends with whitespace is read as it stands. */
  lemma AlreadyStripped(a: string, b: string)
    requires a != [] && !IsSpace(a[0]) && EndsSolid(b)
    ensures ModulesOfLine(a + b) == ModulesOfStatement(a + b)
  {
    StripKeeps(a, b);
  }

  lemma ImportJoined(names: seq<string>)
    requires |names| >= 1 && forall i | 0 <= i < |names| :: Identifier(names[i])
    ensures ModulesOfStatement("import " + JoinChar(names, ',')) == names
  {
    ImportForm(JoinChar(names, ','));
    assert forall i | 0 <= i < |names| :: ',' !in names[i];
    SplitJoinRoundTrip(names, ',');
    PlainPartNames(names);
  }

  /** A comma-joined list of plain names ends in the last character of its last name, which is not whitespace. */
  lemma {:induction false} JoinedEnds(names: seq<string>)
    requires |names| >= 1 && forall i | 0 <= i < |names| :: Identifier(names[i])
    ensures EndsSolid(JoinChar(names, ','))
  {
    var last := names[|names| - 1];
    assert !IsSpace(last[|last| - 1]);
    if |names| > 1 {
      JoinedEnds(names[1..]);
    }
  }

  lemma {:induction false} PlainPartNames(names: seq<string>)
    requires forall i | 0 <= i < |names| :: Identifier(names[i])
    ensures PartNames(names) == names
  {
    if names != [] {
      PlainName(names[0]);
      PlainPartNames(names[1..]);
    }
  }

  /** A plain name is its own imported name. */
  lemma PlainName(n: string)
    requires Identifier(n)
    ensures ImportedName(n) == n
  {
    assert Strip(n) == n;
    BeforeFirstWhole(n, " as ");
    BeforeFirstWhole(n, ".");
  }

  /** `import pkg.sub` names the top-level package. */
  lemma SubmoduleImport(n: string, sub: string)
    requires Identifier(n) && sub != [] && forall i | 0 <= i < |sub| :: !IsSpace(sub[i])
    ensures ImportedName(n + "." + sub) == n
  {
    var s := n + "." + sub;
    assert s[0] == n[0] && s[|s| - 1] == sub[|sub| - 1];
    assert Strip(s) == s;
    assert ' ' !in s by {
      forall i | 0 <= i < |s| ensures s[i] != ' ' {
        assert IsSpace(' ');
      }
    }
    BeforeFirstWhole(s, " as ");
    BeforeFirstOf(n, ".", sub);
  }

  /** `import pkg as alias` names the package, not the alias. */
  lemma AliasedImport(n: string, alias: string)
    requires Identifier(n) && alias != [] && !IsSpace(alias[|alias| - 1])
    ensures ImportedName(n + " as " + alias) == n
  {
    var s := n + " as " + alias;
    assert s[0] == n[0] && s[|s| - 1] == alias[|alias| - 1];
    assert Strip(s) == s;
    assert " as "[0] !in n by { assert IsSpace(' '); }
    BeforeFirstOf(n, " as ", alias);
    BeforeFirstWhole(n, ".");
  }

  /** `import pkg.sub as alias` names the top-level package. */
  lemma DottedAliased(n: string, sub: string, alias: string)
    requires Identifier(n) && forall i | 0 <= i < |sub| :: !IsSpace(sub[i])
    requires EndsSolid(alias)
    ensures ImportedName(n + "." + sub + " as " + alias) == n
  {
    var d := n + "." + sub;
    assert d[0] == n[0];
    StripKeeps3(d, " as ", alias);
    NoSpaceInDotted(n, sub);
    BeforeFirstOf(d, " as ", alias);
    BeforeFirstOf(n, ".", sub);
  }

  /** A plain name, a dot and text without whitespace hold no blank. */
  lemma NoSpaceInDotted(n: string, sub: string)
    requires Identifier(n) && forall i | 0 <= i < |sub| :: !IsSpace(sub[i])
    ensures ' ' !in n + "." + sub
  {
    var d := n + "." + sub;
    forall i | 0 <= i < |d| ensures d[i] != ' ' {
      assert IsSpace(' ');
      if i < |n| { assert d[i] == n[i]; } else if i > |n| { assert d[i] == sub[i - |n| - 1]; }
    }
  }

  /** `import pkg.sub as alias, other` names `pkg` and `other`. */
  lemma DottedAliasedLine(n: string, sub: string, alias: string, m: string)
    requires Identifier(n) && Identifier(m)
    requires forall i | 0 <= i < |sub| :: !IsSpace(sub[i]) && sub[i] != ','
    requires EndsSolid(alias) && ',' !in alias
    ensures var part := n + "." + sub + " as " + alias; ModulesOfLine("import " + part + ", " + m) == [n, m]
  {
    var part := n + "." + sub + " as " + alias;
    CommaFree(n, sub, alias);
    ImportPairLine(part, m);
    DottedAliased(n, sub, alias);
    SpacedName(m);
    PairNames(part, " " + m, n, m);
  }

  /** `import part, m` reads the two parts `part` and ` m`. */
  lemma ImportPairLine(part: string, m: string)
    requires ',' !in part && Identifier(m)
    ensures ModulesOfLine("import " + part + ", " + m) == PartNames([part, " " + m])
  {
    var rest := part + ", " + m;
    Regroup("import ", part, ", ", m);
    assert ',' !in m;
    PartsOfPair(part, m);
    ImportLineOf(rest, m);
    ImportForm(rest);
  }

  /** An `import` line whose text ends in a plain name is read as it stands. */
  lemma ImportLineOf(rest: string, m: string)
    requires Identifier(m) && |m| <= |rest| && rest[|rest| - |m|..] == m
    ensures ModulesOfLine("import " + rest) == ModulesOfStatement("import " + rest)
  {
    assert EndsSolid(rest) by { assert rest[|rest| - 1] == m[|m| - 1]; }
    assert "import "[0] == 'i' && !IsSpace('i');
    AlreadyStripped("import ", rest);
  }

  /** `a, m` splits at the comma into `a` and ` m`. */
  lemma PartsOfPair(a: string, m: string)
    requires ',' !in a && ',' !in m
    ensures |a + ", " + m| >= |m| && (a + ", " + m)[|a + ", " + m| - |m|..] == m
    ensures SplitChar(a + ", " + m, ',') == [a, " " + m]
  {
    var s := a + ", " + m;
    assert s[|s| - |m|..] == m;
    assert s == a + [','] + (" " + m);
    assert ',' !in " " + m by {
      forall i | 0 <= i < |" " + m| ensures (" " + m)[i] != ',' {
        if i > 0 { assert (" " + m)[i] == m[i - 1]; }
      }
    }
    SplitAfterFirstSeparator(a, " " + m, ',');
    SplitWithoutSeparator(" " + m, ',');
  }

  lemma PairNames(a: string, b: string, x: string, y: string)
    requires ImportedName(a) == x && x != [] && ImportedName(b) == y && y != []
    ensures PartNames([a, b]) == [x, y]
  {
    assert [a, b][1..] == [b];
    assert [b][1..] == [];
  }

  lemma CommaFree(n: string, sub: string, alias: string)
    requires Identifier(n)
    requires forall i | 0 <= i < |sub| :: sub[i] != ','
    requires ',' !in alias
    ensures ',' !in n + "." + sub + " as " + alias
  {
    var first := n + "." + sub + " as " + alias;
    forall i | 0 <= i < |first| ensures first[i] != ',' {
      if i < |n| { assert first[i] == n[i]; }
      else if |n| < i < |n| + 1 + |sub| { assert first[i] == sub[i - |n| - 1]; }
      else if i >= |n| + 1 + |sub| + 4 { assert first[i] == alias[i - |n| - 1 - |sub| - 4]; }
    }
  }

  /** A part with a blank in front of a plain name names it. */
  lemma SpacedName(m: string)
    requires Identifier(m)
    ensures ImportedName(" " + m) == m
  {
    assert IsSpace(' ');
    StripSpaceFront(' ', m);
    PlainName(m);
  }

  /** `from pkg.sub import what` names the top-level package. */
  lemma FromDotted(n: string, sub: string, what: string)
    requires Identifier(n) && forall i | 0 <= i < |sub| :: !IsSpace(sub[i])
    requires what == [] || !IsSpace(what[|what| - 1])
    ensures var d := n + "." + sub; ModulesOfLine("from " + d + " import" + what) == [n]
  {
    var d := n + "." + sub;
    var rest := d + " import" + what;
    Regroup("from ", d, " import", what);
    FromLineOf(d, what);
    FromForm(rest);
    NoSpaceInDotted(n, sub);
    BeforeFirstOf(d, " import", what);
    DottedStripped(n, sub);
    BeforeFirstOf(n, ".", sub);
  }

  /** A dotted name without whitespace is left alone by `strip()`. */
  lemma DottedStripped(n: string, sub: string)
    requires Identifier(n) && forall i | 0 <= i < |sub| :: !IsSpace(sub[i])
    ensures Strip(n + "." + sub) == n + "." + sub
  {
    var d := n + "." + sub;
    assert d[0] == n[0];
    if sub == [] {
      assert d[|d| - 1] == '.';
    } else {
      assert d[|d| - 1] == sub[|sub| - 1];
    }
  }

  /** A `from` line whose tail does not end in whitespace is read as it stands. */
  lemma FromLineOf(d: string, what: string)
    requires what == [] || !IsSpace(what[|what| - 1])
    ensures var line := "from " + (d + " import" + what); ModulesOfLine(line) == ModulesOfStatement(line)
  {
    var tail := d + " import" + what;
    assert EndsSolid(tail) by {
      assert tail[|tail| - 1] == if what == [] then 't' else what[|what| - 1];
    }
    assert "from "[0] == 'f' && !IsSpace('f');
    AlreadyStripped("from ", tail);
  }

  /** `from pkg import what` names `pkg`. */
  lemma FromImport(n: string, what: string)
    requires Identifier(n) && (what == [] || !IsSpace(what[|what| - 1]))
    ensures ModulesOfLine("from " + n + " import" + what) == [n]
  {
    var rest := n + " import" + what;
    var line := "from " + rest;
    assert line == "from " + n + " import" + what;
    assert line[0] == 'f';
    assert line[|line| - 1] == if what == [] then 't' else what[|what| - 1];
    assert Strip(line) == line;
    FromForm(rest);
    FromPlainName(n, what);
  }

  lemma FromPlainName(n: string, what: string)
    requires Identifier(n)
    ensures FromName(n + " import" + what) == n
  {
    assert " import"[0] !in n by { assert IsSpace(' '); }
    BeforeFirstOf(n, " import", what);
    assert Strip(n) == n;
    BeforeFirstWhole(n, ".");
  }

  /** A relative import, `from .x import y` or `from . import y`, names nothing. */
  lemma RelativeImportSkipped(raw: string)
    requires StartsWith(Strip(raw), "from .")
    ensures ModulesOfLine(raw) == []
  {
    var line := Strip(raw);
    StartsWithSplit(line, "from .", 5);
    assert "from ."[..5] == "from " && "from ."[5..] == ".";
    FromForm(line[5..]);
    RelativeFromName(line[5..]);
  }

  lemma RelativeFromName(rest: string)
    requires StartsWith(rest, ".")
    ensures FromName(rest) == []
  {
    assert rest[0] == rest[..1][0] == '.';
    var before := BeforeFirst(rest, " import");
    assert before != [] && before[0] == '.' by {
      assert |rest| < 7 || rest[..7][0] != " import"[0];
    }
    assert TrimLeft(before) == before;
    var stripped := Strip(before);
    assert stripped != [] && stripped[0] == '.';
    BeforeFirstAtStart(stripped, ".");
  }
}
