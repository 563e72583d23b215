/**
 * The few Python string operations the converter relies on, stated over
 * `seq<char>`: `str.isspace`, `str.strip`, `str.startswith`, the `in`
 * substring test, `str.split(c)` for one separator character,
 * `str.split(sep)[0]` and the argument-less `str.split()`.
 */
module Text {

  /** Python's `str.isspace` for a single character (the characters `strip()` and `split()` drop). */
  predicate IsSpace(c: char) {
    var n := c as int;
    (9 <= n <= 13) || (28 <= n <= 32) || n == 0x85 || n == 0xA0 || n == 0x1680
    || (0x2000 <= n <= 0x200A) || n == 0x2028 || n == 0x2029 || n == 0x202F
    || n == 0x205F || n == 0x3000
  }

  predicate HasSpace(s: string) {
    exists i | 0 <= i < |s| :: IsSpace(s[i])
  }

  /** `s.startswith(p)` */
  predicate StartsWith(s: string, p: string) {
    |p| <= |s| && s[..|p|] == p
  }

  /** `s.startswith(p)` holds exactly when `p` fits in `s` and agrees with it character by character. */
  lemma StartsWithCharwise(s: string, p: string)
    ensures StartsWith(s, p) <==> |p| <= |s| && forall i | 0 <= i < |p| :: s[i] == p[i]
  {
  }

  /** Python's `sub in s` for strings: `sub` occurs somewhere in `s`. */
  predicate Contains(s: string, sub: string)
    decreases |s|
  {
    StartsWith(s, sub) || (s != [] && Contains(s[1..], sub))
  }

  /** `sub in s` holds exactly when `sub` starts at some position of `s`. */
  lemma {:induction false} ContainsAt(s: string, sub: string)
    ensures Contains(s, sub) <==> exists i | 0 <= i <= |s| :: StartsWith(s[i..], sub)
    decreases |s|
  {
    assert s[0..] == s;
    if s != [] {
      ContainsAt(s[1..], sub);
      if exists i | 0 <= i <= |s[1..]| :: StartsWith(s[1..][i..], sub) {
        var i :| 0 <= i <= |s[1..]| && StartsWith(s[1..][i..], sub);
        assert s[1..][i..] == s[i + 1..];
      }
      if exists i | 0 <= i <= |s| :: StartsWith(s[i..], sub) {
        var i :| 0 <= i <= |s| && StartsWith(s[i..], sub);
        if i > 0 {
          assert s[1..][i - 1..] == s[i..];
        }
      }
    }
  }

  /** `s.lstrip()` */
  function TrimLeft(s: string): (r: string)
    ensures |r| <= |s| && r == s[|s| - |r|..]
    ensures r == [] || !IsSpace(r[0])
    ensures forall i | 0 <= i < |s| - |r| :: IsSpace(s[i])
  {
    if s != [] && IsSpace(s[0]) then TrimLeft(s[1..]) else s
  }

  /** `s.rstrip()` */
  function TrimRight(s: string): (r: string)
    ensures |r| <= |s| && r == s[..|r|]
    ensures r == [] || !IsSpace(r[|r| - 1])
    ensures forall i | |r| <= i < |s| :: IsSpace(s[i])
  {
    if s != [] && IsSpace(s[|s| - 1]) then TrimRight(s[..|s| - 1]) else s
  }

  /**
   * `s.strip()`: the result neither starts nor ends with whitespace, and a
   * string that already does neither is returned unchanged.
   */
  function Strip(s: string): (r: string)
    ensures |r| <= |s|
    ensures r == [] || (!IsSpace(r[0]) && !IsSpace(r[|r| - 1]))
    ensures (s == [] || (!IsSpace(s[0]) && !IsSpace(s[|s| - 1]))) ==> r == s
  {
    var l := TrimLeft(s);
    var r := TrimRight(l);
    assert r != [] ==> r[0] == l[0];
    r
  }

  /**
   * What `strip()` removes: the result is a slice of `s` with only
   * whitespace before and after it.  With `Strip`'s own contract (the slice
   * neither starts nor ends with whitespace) this fixes the result.
   */
  lemma StripSlice(s: string)
    ensures var r := Strip(s);
      exists i | 0 <= i <= |s| - |r| :: s[i..][..|r|] == r &&
        (forall k | 0 <= k < i :: IsSpace(s[k])) && (forall k | i + |r| <= k < |s| :: IsSpace(s[k]))
  {
    var l := TrimLeft(s);
    var r := TrimRight(l);
    var i := |s| - |l|;
    assert Strip(s) == r;
    assert s[i..][..|r|] == r;
    assert forall k | i + |r| <= k < |s| :: s[k] == l[k - i];
    assert (forall k | 0 <= k < i :: IsSpace(s[k])) && (forall k | i + |r| <= k < |s| :: IsSpace(s[k]));
  }

  /** Text that starts and ends with non-whitespace is left alone by `strip()`, however it is put together. */
  lemma StripKeeps(a: string, b: string)
    requires a != [] && !IsSpace(a[0]) && b != [] && !IsSpace(b[|b| - 1])
    ensures Strip(a + b) == a + b
  {
    var s := a + b;
    assert s[0] == a[0] && s[|s| - 1] == b[|b| - 1];
  }

  /** The same for text put together from three pieces. */
  lemma StripKeeps3(a: string, b: string, c: string)
    requires a != [] && !IsSpace(a[0]) && c != [] && !IsSpace(c[|c| - 1])
    ensures Strip(a + b + c) == a + b + c
  {
    var s := a + b + c;
    assert s[0] == a[0] && s[|s| - 1] == c[|c| - 1];
  }

  /** Concatenation regrouped to the right after its first piece. */
  lemma Regroup(a: string, b: string, c: string, d: string)
    ensures a + b + c + d == a + (b + c + d)
  {
  }

  /** Leading whitespace does not change what `strip()` gives. */
  lemma StripSpaceFront(c: char, s: string)
    requires IsSpace(c)
    ensures Strip([c] + s) == Strip(s)
  {
    assert ([c] + s)[1..] == s;
  }

  /** A string that starts with `p` is `p`'s first `k` characters followed by a string that starts with the rest of `p`. */
  lemma StartsWithSplit(s: string, p: string, k: nat)
    requires StartsWith(s, p) && k <= |p|
    ensures s == p[..k] + s[k..] && StartsWith(s[k..], p[k..])
  {
    assert s[..k] == p[..k];
    assert s[k..][..|p| - k] == s[..|p|][k..];
  }

  /**
   * `s.split(c)[0]` generalised to a separator string: the part of `s`
   * before the first occurrence of `sep`, or all of `s` when there is none.
   */
  function BeforeFirst(s: string, sep: string): (r: string)
    requires sep != []
    ensures StartsWith(s, r)
    ensures !Contains(r, sep)
    ensures forall i | 0 <= i < |r| :: !StartsWith(s[i..], sep)
    ensures r == s || StartsWith(s[|r|..], sep)
    decreases |s|
  {
    if |s| < |sep| then
      assert !Contains(s, sep) by { ShorterContainsNothing(s, sep); }
      s
    else if s[..|sep|] == sep then
      assert !Contains([], sep);
      ""
    else
      var rest := BeforeFirst(s[1..], sep);
      var r := [s[0]] + rest;
      assert r[1..] == rest;
      assert !StartsWith(r, sep) by {
        if |sep| <= |r| {
          assert r[..|sep|] == s[..|sep|];
        }
      }
      assert s[|r|..] == s[1..][|rest|..];
      assert forall i | 1 <= i < |r| :: s[i..] == s[1..][i - 1..];
      r
  }

  /** With no separator start in `s`, `s.split(sep)[0]` is all of `s`. */
  lemma {:induction false} BeforeFirstWhole(s: string, sep: string)
    requires sep != [] && sep[0] !in s
    ensures BeforeFirst(s, sep) == s
    decreases |s|
  {
    if |sep| <= |s| {
      assert s[..|sep|][0] == s[0];
      BeforeFirstWhole(s[1..], sep);
    }
  }

  /** `(a + sep + b).split(sep)[0] == a` when no separator can start inside `a`. */
  lemma {:induction false} BeforeFirstOf(a: string, sep: string, b: string)
    requires sep != [] && sep[0] !in a
    ensures BeforeFirst(a + sep + b, sep) == a
    decreases |a|
  {
    var s := a + sep + b;
    if a == [] {
      assert s[..|sep|] == sep;
    } else {
      assert s[..|sep|][0] == a[0];
      assert s[1..] == a[1..] + sep + b;
      BeforeFirstOf(a[1..], sep, b);
      assert [s[0]] + a[1..] == a;
    }
  }

  /** A string that starts with the separator splits off an empty first piece. */
  lemma BeforeFirstAtStart(s: string, sep: string)
    requires sep != [] && StartsWith(s, sep)
    ensures BeforeFirst(s, sep) == []
  {
  }

  /** A one-character separator occurs exactly when the character does. */
  lemma {:induction false} ContainsChar(s: string, c: char)
    ensures Contains(s, [c]) <==> c in s
    decreases |s|
  {
    if s != [] {
      ContainsChar(s[1..], c);
      assert c in s <==> s[0] == c || c in s[1..];
    }
  }

  lemma {:induction false} ShorterContainsNothing(s: string, sub: string)
    requires sub != [] && |s| < |sub|
    ensures !Contains(s, sub)
    decreases |s|
  {
    if s != [] {
      ShorterContainsNothing(s[1..], sub);
    }
  }

  /** `s.split(c)`: every piece between two separators, empty pieces included. */
  function SplitChar(s: string, c: char): (parts: seq<string>)
    ensures |parts| >= 1
    ensures forall i | 0 <= i < |parts| :: c !in parts[i]
    ensures JoinChar(parts, c) == s
    decreases |s|
  {
    if s == [] then [""]
    else
      var rest := SplitChar(s[1..], c);
      if s[0] == c then
        assert JoinChar([""] + rest, c) == [c] + JoinChar(rest, c);
        [""] + rest
      else
        var parts := [[s[0]] + rest[0]] + rest[1..];
        assert parts[1..] == rest[1..];
        assert JoinChar(parts, c) == [s[0]] + JoinChar(rest, c);
        parts
  }

  /** `c.join(parts)`, the inverse of `SplitChar`. */
  function JoinChar(parts: seq<string>, c: char): string
    requires |parts| >= 1
  {
    if |parts| == 1 then parts[0] else parts[0] + [c] + JoinChar(parts[1..], c)
  }

  /** Splitting a joined list gives the list back when no piece holds the separator. */
  lemma {:induction false} SplitJoinRoundTrip(parts: seq<string>, c: char)
    requires |parts| >= 1
    requires forall i | 0 <= i < |parts| :: c !in parts[i]
    ensures SplitChar(JoinChar(parts, c), c) == parts
    decreases |parts|
  {
    if |parts| == 1 {
      SplitWithoutSeparator(parts[0], c);
    } else {
      SplitJoinRoundTrip(parts[1..], c);
      SplitAfterFirstSeparator(parts[0], JoinChar(parts[1..], c), c);
      assert [parts[0]] + parts[1..] == parts;
    }
  }

  lemma {:induction false} SplitWithoutSeparator(s: string, c: char)
    requires c !in s
    ensures SplitChar(s, c) == [s]
    decreases |s|
  {
    if s != [] {
      SplitWithoutSeparator(s[1..], c);
    }
  }

  lemma {:induction false} SplitAfterFirstSeparator(a: string, b: string, c: char)
    requires c !in a
    ensures SplitChar(a + [c] + b, c) == [a] + SplitChar(b, c)
    decreases |a|
  {
    if a == [] {
      assert a + [c] + b == [c] + b;
      assert ([c] + b)[1..] == b;
    } else {
      SplitAfterFirstSeparator(a[1..], b, c);
      var s := a + [c] + b;
      assert s[0] == a[0] && s[0] != c;
      assert s[1..] == a[1..] + [c] + b;
      var rest := SplitChar(s[1..], c);
      assert rest == [a[1..]] + SplitChar(b, c);
      assert [s[0]] + rest[0] == a;
      assert rest[1..] == SplitChar(b, c);
    }
  }

  /** The longest prefix of `s` without whitespace. */
  function LeadingWord(s: string): (w: string)
    ensures |w| <= |s| && w == s[..|w|]
    ensures !HasSpace(w)
    ensures |w| == |s| || IsSpace(s[|w|])
  {
    if s == [] || IsSpace(s[0]) then [] else [s[0]] + LeadingWord(s[1..])
  }

  /**
   * `s.split()` with no argument: the maximal runs of non-whitespace
   * characters, in order; each word is non-empty and holds no whitespace.
   */
  function Words(s: string): (ws: seq<string>)
    ensures forall i | 0 <= i < |ws| :: ws[i] != [] && !HasSpace(ws[i])
    decreases |s|
  {
    if s == [] then []
    else if IsSpace(s[0]) then Words(s[1..])
    else
      var w := LeadingWord(s);
      [w] + Words(s[|w|..])
  }

  /** A single word splits into itself. */
  lemma WordsOfWord(w: string)
    requires w != [] && !HasSpace(w)
    ensures Words(w) == [w]
  {
    LeadingWordOf(w, "");
    assert w + "" == w;
    assert w[|w|..] == [];
  }

  /** A whitespace character separates: the words of `a`, then the words of `b`. */
  lemma {:induction false} WordsSplitAtSpace(a: string, c: char, b: string)
    requires IsSpace(c)
    ensures Words(a + [c] + b) == Words(a) + Words(b)
    decreases |a|
  {
    var y := [c] + b;
    assert a + [c] + b == a + y;
    if a == [] {
      assert a + y == y && y[1..] == b;
    } else {
      var k := if IsSpace(a[0]) then 1 else |LeadingWord(a)|;
      if !IsSpace(a[0]) {
        LeadingWordExtends(a, y);
      }
      DropJoined(a, k, y);
      assert a[k..] + [c] + b == a[k..] + y;
      WordsSplitAtSpace(a[k..], c, b);
      if IsSpace(a[0]) {
        assert Words(a + y) == Words(a[1..] + y);
      } else {
        assert Words(a + y) == [LeadingWord(a)] + Words(a[k..] + y);
      }
    }
  }

  /** Dropping a prefix of `a` from `a + y`. */
  lemma DropJoined(a: string, k: nat, y: string)
    requires 0 < k <= |a|
    ensures (a + y)[0] == a[0] && (a + y)[k..] == a[k..] + y
  {
  }

  /** Text that starts with whitespace, or nothing, does not lengthen the leading word. */
  lemma {:induction false} LeadingWordExtends(a: string, x: string)
    requires x == [] || IsSpace(x[0])
    ensures LeadingWord(a + x) == LeadingWord(a)
    decreases |a|
  {
    if a == [] {
      assert a + x == x;
    } else {
      assert (a + x)[0] == a[0];
      assert (a + x)[1..] == a[1..] + x;
      LeadingWordExtends(a[1..], x);
    }
  }

  /** `" ".join(ws)` */
  function Unwords(ws: seq<string>): string {
    if ws == [] then "" else if |ws| == 1 then ws[0] else ws[0] + " " + Unwords(ws[1..])
  }

  /** Splitting words joined by single spaces gives the words back. */
  lemma {:induction false} WordsUnwordsRoundTrip(ws: seq<string>)
    requires forall i | 0 <= i < |ws| :: ws[i] != [] && !HasSpace(ws[i])
    ensures Words(Unwords(ws)) == ws
    decreases |ws|
  {
    if ws == [] {
    } else if |ws| == 1 {
      LeadingWordOf(ws[0], "");
      assert ws[0] + "" == ws[0];
    } else {
      var rest := Unwords(ws[1..]);
      WordsUnwordsRoundTrip(ws[1..]);
      LeadingWordOf(ws[0], " " + rest);
      var s := ws[0] + " " + rest;
      assert s == ws[0] + (" " + rest);
      assert s[|ws[0]|..] == " " + rest;
      assert (" " + rest)[1..] == rest;
      assert [ws[0]] + ws[1..] == ws;
    }
  }

  lemma {:induction false} LeadingWordOf(w: string, x: string)
    requires !HasSpace(w)
    requires x == [] || IsSpace(x[0])
    ensures LeadingWord(w + x) == w
    decreases |w|
  {
    if w == [] {
      assert w + x == x;
    } else {
      assert !IsSpace(w[0]);
      assert !HasSpace(w[1..]) by {
        forall i | 0 <= i < |w[1..]| ensures !IsSpace(w[1..][i]) {
          assert w[1..][i] == w[i + 1];
        }
      }
      LeadingWordOf(w[1..], x);
      assert (w + x)[1..] == w[1..] + x;
    }
  }

  /** The one-character decimal rendering of a digit, as `f"{n}"` gives it for `0 <= n <= 9`. */
  function DigitString(n: nat): (s: string)
    requires n <= 9
    ensures |s| == 1 && '0' <= s[0] <= '9' && s[0] as int - '0' as int == n
  {
    [('0' as int + n) as char]
  }
}
