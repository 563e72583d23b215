/**
 * The read loop of `ConversionThread.run`: PyInstaller's output is read line
 * by line; each line is logged stripped, may raise the progress bar, and the
 * cancel flag is looked at before each line.  The run ends in exactly one
 * `finished` signal: success with 100 percent, failure, or cancellation.
 *
 * The child process is not started here: its behaviour is the `Child` value
 * the loop is given, one `Arrival` per output line, paired with the value of
 * the cancel flag when that line arrives.
 */
module ConversionRunner {
  import opened Wrappers
  import opened Text

  /** One output line of PyInstaller and whether cancellation had been requested when it arrived. */
  datatype Arrival = Arrival(cancelRequested: bool, line: string)

  /** The child as the loop sees it: it could not be started, or it printed lines and exited with a code. */
  datatype Child = SpawnFailed(reason: string) | Ran(output: seq<Arrival>, returnCode: int)

  /** The text of the `finished` signal, by meaning. */
  datatype Message = Converted | ConversionFailed | OperationCancelled | Crashed(reason: string)

  /** The signals the thread emits, in order; banner and timestamp log lines are not modelled. */
  datatype Event = Log(text: string) | Progress(percent: int) | Finished(success: bool, message: Message)

  /** A keyword of PyInstaller's output, how far it moves the progress bar and the most it moves it to. */
  datatype Keyword = Keyword(word: string, step: nat, ceiling: nat)

  /** The keywords in the order they are tried: the first one the line contains wins. */
  const Keywords: seq<Keyword> :=
    [Keyword("Analyzing", 5, 50), Keyword("Processing", 2, 70), Keyword("Building", 5, 85), Keyword("Copying", 2, 95)]

  /** The index of the first keyword the line contains, if any. */
  function FirstMatch(line: string, ks: seq<Keyword>): (r: Option<nat>)
    ensures r.Some? ==> r.value < |ks| && Contains(line, ks[r.value].word)
    ensures forall j | 0 <= j < |ks| && (r.None? || j < r.value) :: !Contains(line, ks[j].word)
  {
    if ks == [] then None
    else if Contains(line, ks[0].word) then Some(0)
    else
      match FirstMatch(line, ks[1..])
      case None => None
      case Some(i) => Some(i + 1)
  }

  /** The update the source writes, `min(progress + step, ceiling)`. */
  function AdvanceAsWritten(p: int, step: nat, ceiling: nat): (r: int)
    ensures r <= ceiling && r <= p + step
    ensures r == ceiling || r == p + step
  {
    if p + step < ceiling then p + step else ceiling
  }

  /**
   * The update as intended: move towards the ceiling by at most one step,
   * and never back.  It agrees with `AdvanceAsWritten` whenever the progress
   * is not already above the ceiling.
   */
  function Advance(p: int, step: nat, ceiling: nat): (r: int)
    ensures p <= r <= p + step
    ensures r <= if p <= ceiling then ceiling else p
    ensures p <= ceiling ==> r == AdvanceAsWritten(p, step, ceiling)
  {
    if p >= ceiling then p else AdvanceAsWritten(p, step, ceiling)
  }

  /** Which progress update a run applies: the source's `min(progress + step, ceiling)`, or the intended one. */
  datatype Rule = AsWritten | Intended

  function Apply(rule: Rule, p: int, step: nat, ceiling: nat): int {
    if rule == AsWritten then AdvanceAsWritten(p, step, ceiling) else Advance(p, step, ceiling)
  }

  /** The progress after one line: the first keyword it contains moves it, a line without one leaves it. */
  function Bump(rule: Rule, p: int, line: string): int {
    match FirstMatch(line, Keywords)
    case None => p
    case Some(i) => Apply(rule, p, Keywords[i].step, Keywords[i].ceiling)
  }

  /**
   * The `elif` chain over the four keywords computes the table lookup of
   * `Bump`.  Under either rule a line moves the progress up by at most 5
   * and never past 95; under the intended rule it never falls.
   */
  lemma BumpChain(rule: Rule, p: int, line: string)
    ensures Bump(rule, p, line) ==
      if Contains(line, "Analyzing") then Apply(rule, p, 5, 50)
      else if Contains(line, "Processing") then Apply(rule, p, 2, 70)
      else if Contains(line, "Building") then Apply(rule, p, 5, 85)
      else if Contains(line, "Copying") then Apply(rule, p, 2, 95)
      else p
    ensures Bump(rule, p, line) <= p + 5
    ensures p <= 95 ==> Bump(rule, p, line) <= 95
    ensures 20 <= p ==> 20 <= Bump(rule, p, line)
    ensures rule == Intended ==> p <= Bump(rule, p, line)
  {
    var m := FirstMatch(line, Keywords);
    assert Keywords[0].word == "Analyzing" && Keywords[1].word == "Processing";
    assert Keywords[2].word == "Building" && Keywords[3].word == "Copying";
    if m.Some? {
      assert m.value < 4;
    }
  }

  /** What the thread emits once the child has exited: 100 percent and success for code 0, failure otherwise. */
  function Ending(returnCode: int): (r: seq<Event>)
    ensures r != [] && r[|r| - 1].Finished? && (r[|r| - 1].success <==> returnCode == 0)
    ensures forall k | 0 <= k < |r| - 1 :: r[k] == Progress(100)
    ensures |r| == 2 <==> returnCode == 0
  {
    if returnCode == 0 then [Progress(100), Finished(true, Converted)]
    else [Finished(false, ConversionFailed)]
  }

  /** The lines of the output, without the cancel flags. */
  function Lines(out: seq<Arrival>): (ls: seq<string>)
    ensures |ls| == |out| && forall k | 0 <= k < |out| :: ls[k] == out[k].line
  {
    if out == [] then [] else [out[0].line] + Lines(out[1..])
  }

  /**
   * The signals of the read loop, given the progress value each line leads
   * to: a line that arrives after cancellation ends the run; any other line
   * is logged stripped and followed by its progress value.
   */
  function Emit(out: seq<Arrival>, ps: seq<int>, returnCode: int): seq<Event>
    requires |ps| == |out|
  {
    if out == [] then Ending(returnCode)
    else if out[0].cancelRequested then [Finished(false, OperationCancelled)]
    else [Log(Strip(out[0].line)), Progress(ps[0])] + Emit(out[1..], ps[1..], returnCode)
  }

  /** The signals of the read loop from progress `p` on, under an update rule. */
  function Drain(rule: Rule, out: seq<Arrival>, p: int, returnCode: int): seq<Event> {
    Emit(out, ProgressTrace(rule, Lines(out), p), returnCode)
  }

  /** Everything the thread emits: 10 percent, the child is started, 20 percent, then the read loop. */
  function RunEvents(rule: Rule, child: Child): seq<Event> {
    match child
    case SpawnFailed(reason) => [Progress(10), Finished(false, Crashed(reason))]
    case Ran(out, rc) => [Progress(10), Progress(20)] + Drain(rule, out, 20, rc)
  }

  predicate CancelRequested(out: seq<Arrival>) {
    exists i | 0 <= i < |out| :: out[i].cancelRequested
  }

  /**
   * Runs the thread body over the child, with the source's update.
   * `terminated` says whether the child was killed, which happens exactly
   * when a line arrives after cancellation was requested.
   */
  method Run(child: Child) returns (events: seq<Event>, terminated: bool)
    ensures events == RunEvents(AsWritten, child)
    ensures terminated <==> child.Ran? && CancelRequested(child.output)
  {
    events := [Progress(10)];
    terminated := false;
    if child.SpawnFailed? {
      events := events + [Finished(false, Crashed(child.reason))];
      return;
    }
    events := events + [Progress(20)];
    var rest;
    rest, terminated := ReadLoop(child.output, 20, child.returnCode);
    events := events + rest;
  }

  /**
   * The read loop from progress `p`: each line is checked against the cancel
   * flag, logged and turned into a progress value; the exit code decides the
   * ending once the output is exhausted.
   */
  method ReadLoop(out: seq<Arrival>, p: int, rc: int) returns (events: seq<Event>, terminated: bool)
    ensures events == Drain(AsWritten, out, p, rc)
    ensures terminated <==> CancelRequested(out)
  {
    events := [];
    terminated := false;
    var progress := p;
    var i := 0;
    while i < |out|
      invariant 0 <= i <= |out|
      invariant events + Drain(AsWritten, out[i..], progress, rc) == Drain(AsWritten, out, p, rc)
      invariant forall j | 0 <= j < i :: !out[j].cancelRequested
    {
      if out[i].cancelRequested {
        terminated := true;
        events := events + [Finished(false, OperationCancelled)];
        return;
      }
      var line := out[i].line;
      var q := BumpProgress(progress, line);
      DrainStep(AsWritten, out, i, progress, rc);
      events := events + [Log(Strip(line)), Progress(q)];
      progress, i := q, i + 1;
    }
    events := events + Ending(rc);
  }

  /** A line that arrives before any cancellation is logged, then the progress it leads to is emitted. */
  lemma DrainStep(rule: Rule, out: seq<Arrival>, i: nat, p: int, rc: int)
    requires i < |out| && !out[i].cancelRequested
    ensures var q := Bump(rule, p, out[i].line);
      Drain(rule, out[i..], p, rc) == [Log(Strip(out[i].line)), Progress(q)] + Drain(rule, out[i + 1..], q, rc)
  {
    assert out[i..][1..] == out[i + 1..];
  }

  /** The keyword `elif` chain of the loop body, each branch taking the minimum of the raised value and the ceiling. */
  method BumpProgress(progress: int, line: string) returns (q: int)
    ensures q == Bump(AsWritten, progress, line)
  {
    q := progress;
    if Contains(line, "Analyzing") {
      q := AdvanceAsWritten(q, 5, 50);
    } else if Contains(line, "Processing") {
      q := AdvanceAsWritten(q, 2, 70);
    } else if Contains(line, "Building") {
      q := AdvanceAsWritten(q, 5, 85);
    } else if Contains(line, "Copying") {
      q := AdvanceAsWritten(q, 2, 95);
    }
    BumpChain(AsWritten, progress, line);
  }

  /** The progress values a rule gives for the lines, from `p` on, ignoring cancellation. */
  function ProgressTrace(rule: Rule, lines: seq<string>, p: int): (t: seq<int>)
    ensures |t| == |lines|
  {
    if lines == [] then [] else var q := Bump(rule, p, lines[0]); [q] + ProgressTrace(rule, lines[1..], q)
  }

  /** `n` copies of `x`. */
  function Repeat(x: string, n: nat): (r: seq<string>)
    ensures |r| == n && forall i | 0 <= i < n :: r[i] == x
  {
    if n == 0 then [] else [x] + Repeat(x, n - 1)
  }

  /**
   * As written, the bar can move back: seven `Building` lines take it from
   * 20 to 55, and an `Analyzing` line then sets it to `min(60, 50)`, 50.
   */
  lemma AsWrittenProgressFalls()
    ensures var t := ProgressTrace(AsWritten, Repeat("Building", 7) + ["Analyzing"], 20);
      |t| == 8 && t[6] == 55 && t[7] == 50
  {
    BuildingLine();
    Ramp("Building", 7, ["Analyzing"], 20);
    AnalyzingLine();
    TraceHead(AsWritten, ["Analyzing"], 55);
  }

  /** `n` copies of a line that raises the progress by 5 below 85 raise it by 5 each. */
  lemma {:induction false} Ramp(x: string, n: nat, rest: seq<string>, p: int)
    requires forall q: int | q <= 80 :: Bump(AsWritten, q, x) == q + 5
    requires p + 5 * n <= 85
    ensures |ProgressTrace(AsWritten, Repeat(x, n) + rest, p)| == n + |rest|
    ensures forall i | 0 <= i < n :: ProgressTrace(AsWritten, Repeat(x, n) + rest, p)[i] == p + 5 * (i + 1)
    ensures ProgressTrace(AsWritten, Repeat(x, n) + rest, p)[n..] == ProgressTrace(AsWritten, rest, p + 5 * n)
    decreases n
  {
    var ls := Repeat(x, n) + rest;
    if n == 0 {
      assert ls == rest;
    } else {
      TraceHead(AsWritten, ls, p);
      assert ls[0] == x;
      assert ls[1..] == Repeat(x, n - 1) + rest;
      Ramp(x, n - 1, rest, p + 5);
    }
  }

  /** A `Building` line matches only the third keyword. */
  lemma BuildingLine()
    ensures forall p: int :: Bump(AsWritten, p, "Building") == AdvanceAsWritten(p, 5, 85)
  {
    assert StartsWith("Building", "Building");
    ShorterContainsNothing("Building", "Analyzing");
    ShorterContainsNothing("Building", "Processing");
    assert FirstMatch("Building", Keywords[2..]) == Some(0);
    assert Keywords[1..][1..] == Keywords[2..];
    assert FirstMatch("Building", Keywords[1..]) == Some(1);
    assert FirstMatch("Building", Keywords) == Some(2);
  }

  /** An `Analyzing` line matches the first keyword. */
  lemma AnalyzingLine()
    ensures forall p: int :: Bump(AsWritten, p, "Analyzing") == AdvanceAsWritten(p, 5, 50)
  {
    assert StartsWith("Analyzing", "Analyzing");
    assert FirstMatch("Analyzing", Keywords) == Some(0);
  }

  /** With the intended update, the progress values never fall and stay between the start and 95. */
  lemma {:induction false} ProgressTraceRises(lines: seq<string>, p: int)
    requires p <= 95
    ensures forall i | 0 <= i < |lines| :: p <= ProgressTrace(Intended, lines, p)[i] <= 95
    ensures forall i, j | 0 <= i < j < |lines| :: ProgressTrace(Intended, lines, p)[i] <= ProgressTrace(Intended, lines, p)[j]
  {
    if lines != [] {
      var q := Bump(Intended, p, lines[0]);
      BumpChain(Intended, p, lines[0]);
      TraceHead(Intended, lines, p);
      ProgressTraceRises(lines[1..], q);
    }
  }

  /**
   * Without cancellation, the read loop emits for the `k`-th line its
   * stripped text and then the `k`-th value of the progress trace.
   */
  lemma DrainFollowsTrace(rule: Rule, out: seq<Arrival>, p: int, rc: int)
    requires forall k | 0 <= k < |out| :: !out[k].cancelRequested
    ensures var d, t := Drain(rule, out, p, rc), ProgressTrace(rule, Lines(out), p);
      |d| >= 2 * |out| &&
      forall k | 0 <= k < |out| :: d[2 * k] == Log(Strip(out[k].line)) && d[2 * k + 1] == Progress(t[k])
  {
    EmitPairs(out, ProgressTrace(rule, Lines(out), p), rc);
  }

  lemma {:induction false} EmitPairs(out: seq<Arrival>, ps: seq<int>, rc: int)
    requires |ps| == |out| && forall k | 0 <= k < |out| :: !out[k].cancelRequested
    ensures var d := Emit(out, ps, rc);
      |d| >= 2 * |out| &&
      forall k | 0 <= k < |out| :: d[2 * k] == Log(Strip(out[k].line)) && d[2 * k + 1] == Progress(ps[k])
  {
    var d := Emit(out, ps, rc);
    EmitSuffix(out, ps, rc, |out|);
    forall k | 0 <= k < |out|
      ensures d[2 * k] == Log(Strip(out[k].line)) && d[2 * k + 1] == Progress(ps[k])
    {
      EmitSuffix(out, ps, rc, k);
      var e := Emit(out[k..], ps[k..], rc);
      assert out[k..][0] == out[k] && out[k..][1..] == out[k + 1..] && ps[k..][0] == ps[k];
      assert e[0] == Log(Strip(out[k].line)) && e[1] == Progress(ps[k]);
      assert d[2 * k..][0] == d[2 * k] && d[2 * k..][1] == d[2 * k + 1];
    }
  }

  /** After `k` uncancelled lines, the rest of the signals are the loop's signals for the remaining lines. */
  lemma {:induction false} EmitSuffix(out: seq<Arrival>, ps: seq<int>, rc: int, k: nat)
    requires |ps| == |out| && k <= |out| && forall j | 0 <= j < k :: !out[j].cancelRequested
    ensures |Emit(out, ps, rc)| >= 2 * k && Emit(out, ps, rc)[2 * k..] == Emit(out[k..], ps[k..], rc)
  {
    if k > 0 {
      EmitSuffix(out, ps, rc, k - 1);
      var d, e := Emit(out, ps, rc), Emit(out[k - 1..], ps[k - 1..], rc);
      assert out[k - 1..][0] == out[k - 1] && out[k - 1..][1..] == out[k..] && ps[k - 1..][1..] == ps[k..];
      assert e == [Log(Strip(out[k - 1].line)), Progress(ps[k - 1])] + Emit(out[k..], ps[k..], rc);
      assert d[2 * k..] == d[2 * (k - 1)..][2..];
    }
  }

  lemma TraceHead(rule: Rule, lines: seq<string>, p: int)
    requires lines != []
    ensures var t := ProgressTrace(rule, lines, p);
      t[0] == Bump(rule, p, lines[0]) && t[1..] == ProgressTrace(rule, lines[1..], Bump(rule, p, lines[0]))
  {
  }

  lemma ShiftPairs(x: Event, y: Event, r: seq<Event>)
    ensures var d := [x, y] + r; |d| == |r| + 2 && d[0] == x && d[1] == y && forall k | 2 <= k < |d| :: d[k] == r[k - 2]
  {
  }

  /** The given lines, each arriving before any cancellation is requested. */
  function Quiet(lines: seq<string>): (out: seq<Arrival>)
    ensures |out| == |lines| && forall k | 0 <= k < |lines| :: out[k] == Arrival(false, lines[k])
  {
    seq(|lines|, k requires 0 <= k < |lines| => Arrival(false, lines[k]))
  }

  /** Without cancellation, the thread emits the `k`-th value of the progress trace from 20 for the `k`-th line. */
  lemma RunFollowsTrace(rule: Rule, lines: seq<string>, rc: int)
    ensures var e, t := RunEvents(rule, Ran(Quiet(lines), rc)), ProgressTrace(rule, lines, 20);
      |e| >= 2 * |lines| + 2 && forall k | 0 <= k < |lines| :: e[2 * k + 3] == Progress(t[k])
  {
    var out := Quiet(lines);
    DrainFollowsTrace(rule, out, 20, rc);
    assert Lines(out) == lines;
    ShiftPairs(Progress(10), Progress(20), Drain(rule, out, 20, rc));
  }

  /**
   * The thread as written emits 55 for the seventh of seven `Building` lines
   * and then 50 for an `Analyzing` line.
   */
  lemma AsWrittenRunFalls(rc: int)
    ensures var e := RunEvents(AsWritten, Ran(Quiet(Repeat("Building", 7) + ["Analyzing"]), rc));
      |e| > 17 && e[15] == Progress(55) && e[17] == Progress(50)
  {
    var lines := Repeat("Building", 7) + ["Analyzing"];
    RunFollowsTrace(AsWritten, lines, rc);
    AsWrittenProgressFalls();
    var e := RunEvents(AsWritten, Ran(Quiet(lines), rc));
    assert e[2 * 6 + 3] == Progress(55);
    assert e[2 * 7 + 3] == Progress(50);
  }

  /** How many lines arrive before the first one that finds cancellation requested. */
  function Uncancelled(out: seq<Arrival>): (n: nat)
    ensures n <= |out|
    ensures forall j | 0 <= j < n :: !out[j].cancelRequested
    ensures n < |out| ==> out[n].cancelRequested
  {
    if out == [] || out[0].cancelRequested then 0 else 1 + Uncancelled(out[1..])
  }

  /** Cancellation is requested at some line exactly when the uncancelled lines stop short of the end. */
  lemma CancelledEarly(out: seq<Arrival>)
    ensures CancelRequested(out) <==> Uncancelled(out) < |out|
  {
  }

  lemma CancelRequestedStep(out: seq<Arrival>)
    requires out != []
    ensures CancelRequested(out) <==> out[0].cancelRequested || CancelRequested(out[1..])
  {
    if CancelRequested(out) && !out[0].cancelRequested {
      var i :| 0 <= i < |out| && out[i].cancelRequested;
      assert out[1..][i - 1] == out[i];
    }
    if CancelRequested(out[1..]) {
      var i :| 0 <= i < |out[1..]| && out[1..][i].cancelRequested;
      assert out[i + 1].cancelRequested;
    }
  }

  /** Exactly one `finished` signal, and it comes last. */
  predicate FinishesOnce(d: seq<Event>) {
    d != [] && d[|d| - 1].Finished? && forall k | 0 <= k < |d| - 1 :: !d[k].Finished?
  }

  /** Every progress value lies between `lo` and 95, or is 100. */
  predicate BoundedFrom(d: seq<Event>, lo: int) {
    forall k | 0 <= k < |d| && d[k].Progress? :: lo <= d[k].percent && (d[k].percent <= 95 || d[k].percent == 100)
  }

  /** Bounded from `lo`, and no progress value is below an earlier one. */
  predicate RisesFrom(d: seq<Event>, lo: int) {
    BoundedFrom(d, lo) &&
    (forall i, j | 0 <= i < j < |d| && d[i].Progress? && d[j].Progress? :: d[i].percent <= d[j].percent)
  }

  /** Two signals other than `finished` in front keep a single final `finished`. */
  lemma StepFinishesOnce(x: Event, y: Event, r: seq<Event>)
    requires !x.Finished? && !y.Finished? && FinishesOnce(r)
    ensures FinishesOnce([x, y] + r)
  {
    var d := [x, y] + r;
    assert forall k | 2 <= k < |d| :: d[k] == r[k - 2];
  }

  /** A log or progress `p`, then progress `q`, in front of signals bounded from `lo`, stay bounded from `lo`. */
  lemma StepBounded(x: Event, q: int, lo: int, r: seq<Event>)
    requires !x.Progress? || lo <= x.percent <= 95
    requires lo <= q <= 95 && BoundedFrom(r, lo)
    ensures BoundedFrom([x, Progress(q)] + r, lo)
  {
    var d := [x, Progress(q)] + r;
    assert forall k | 2 <= k < |d| :: d[k] == r[k - 2];
  }

  /** A log or progress `p`, then progress `q`, in front of signals that rise from `q`, rise from `p`. */
  lemma StepRises(x: Event, q: int, p: int, r: seq<Event>)
    requires !x.Finished? && (x.Progress? ==> x.percent == p)
    requires p <= q <= 95 && RisesFrom(r, q)
    ensures RisesFrom([x, Progress(q)] + r, p)
  {
    var d := [x, Progress(q)] + r;
    assert forall k | 2 <= k < |d| :: d[k] == r[k - 2];
  }

  /** Under either rule, from a start of at most 95 the progress stays at most 95, and at least 20 from a start of at least 20. */
  lemma {:induction false} TraceBounded(rule: Rule, lines: seq<string>, p: int)
    requires p <= 95
    ensures forall k | 0 <= k < |lines| :: ProgressTrace(rule, lines, p)[k] <= 95
    ensures 20 <= p ==> forall k | 0 <= k < |lines| :: 20 <= ProgressTrace(rule, lines, p)[k]
    decreases |lines|
  {
    if lines != [] {
      BumpChain(rule, p, lines[0]);
      TraceHead(rule, lines, p);
      TraceBounded(rule, lines[1..], Bump(rule, p, lines[0]));
    }
  }

  /** The read loop emits exactly one `finished` signal, and it is the last thing it emits. */
  lemma DrainFinishesOnce(rule: Rule, out: seq<Arrival>, p: int, rc: int)
    ensures FinishesOnce(Drain(rule, out, p, rc))
  {
    EmitFinishesOnce(out, ProgressTrace(rule, Lines(out), p), rc);
  }

  lemma {:induction false} EmitFinishesOnce(out: seq<Arrival>, ps: seq<int>, rc: int)
    requires |ps| == |out|
    ensures FinishesOnce(Emit(out, ps, rc))
    decreases |out|
  {
    if out != [] && !out[0].cancelRequested {
      EmitFinishesOnce(out[1..], ps[1..], rc);
      StepFinishesOnce(Log(Strip(out[0].line)), Progress(ps[0]), Emit(out[1..], ps[1..], rc));
    }
  }

  /**
   * The read loop emits one log and one progress signal per line before the
   * first that finds cancellation requested; then only the cancellation
   * signal follows it, or, if no line finds it, the ending for the exit code.
   */
  lemma DrainLength(rule: Rule, out: seq<Arrival>, p: int, rc: int)
    ensures |Drain(rule, out, p, rc)| ==
      2 * Uncancelled(out) + if Uncancelled(out) < |out| then 1 else |Ending(rc)|
  {
    EmitLength(out, ProgressTrace(rule, Lines(out), p), rc);
  }

  lemma {:induction false} EmitLength(out: seq<Arrival>, ps: seq<int>, rc: int)
    requires |ps| == |out|
    ensures |Emit(out, ps, rc)| == 2 * Uncancelled(out) + if Uncancelled(out) < |out| then 1 else |Ending(rc)|
    decreases |out|
  {
    if out != [] && !out[0].cancelRequested {
      EmitLength(out[1..], ps[1..], rc);
    }
  }

  /**
   * The `finished` signal: cancellation if a line arrived after it was
   * requested; otherwise success exactly for exit code 0.
   */
  lemma DrainOutcome(rule: Rule, out: seq<Arrival>, p: int, rc: int)
    ensures var d := Drain(rule, out, p, rc);
      d != [] && d[|d| - 1] ==
        if CancelRequested(out) then Finished(false, OperationCancelled)
        else if rc == 0 then Finished(true, Converted)
        else Finished(false, ConversionFailed)
  {
    EmitOutcome(out, ProgressTrace(rule, Lines(out), p), rc);
  }

  lemma {:induction false} EmitOutcome(out: seq<Arrival>, ps: seq<int>, rc: int)
    requires |ps| == |out|
    ensures var d := Emit(out, ps, rc);
      d != [] && d[|d| - 1] ==
        if CancelRequested(out) then Finished(false, OperationCancelled)
        else if rc == 0 then Finished(true, Converted)
        else Finished(false, ConversionFailed)
    decreases |out|
  {
    if out != [] {
      CancelRequestedStep(out);
      if !out[0].cancelRequested {
        EmitOutcome(out[1..], ps[1..], rc);
      }
    }
  }

  /**
   * Under either rule, every progress value the read loop emits from a start
   * in [20, 95] lies between 20 and 95, or is the final 100.
   */
  lemma DrainProgressBounded(rule: Rule, out: seq<Arrival>, p: int, rc: int)
    requires 20 <= p <= 95
    ensures BoundedFrom(Drain(rule, out, p, rc), 20)
  {
    TraceBounded(rule, Lines(out), p);
    EmitBounded(out, ProgressTrace(rule, Lines(out), p), rc, 20);
  }

  lemma {:induction false} EmitBounded(out: seq<Arrival>, ps: seq<int>, rc: int, lo: int)
    requires lo <= 95
    requires |ps| == |out| && forall k | 0 <= k < |ps| :: lo <= ps[k] <= 95
    ensures BoundedFrom(Emit(out, ps, rc), lo)
    decreases |out|
  {
    if out != [] && !out[0].cancelRequested {
      EmitBounded(out[1..], ps[1..], rc, lo);
      StepBounded(Log(Strip(out[0].line)), ps[0], lo, Emit(out[1..], ps[1..], rc));
    }
  }

  /**
   * With the intended update, every progress value the read loop emits lies
   * between its start and 95, or is the final 100; and no progress value is
   * below an earlier one.
   */
  lemma DrainProgressRises(out: seq<Arrival>, p: int, rc: int)
    requires p <= 95
    ensures RisesFrom(Drain(Intended, out, p, rc), p)
  {
    ProgressTraceRises(Lines(out), p);
    EmitRises(out, ProgressTrace(Intended, Lines(out), p), rc, p);
  }

  lemma {:induction false} EmitRises(out: seq<Arrival>, ps: seq<int>, rc: int, lo: int)
    requires lo <= 95
    requires |ps| == |out| && forall k | 0 <= k < |ps| :: lo <= ps[k] <= 95
    requires forall i, j | 0 <= i < j < |ps| :: ps[i] <= ps[j]
    ensures RisesFrom(Emit(out, ps, rc), lo)
    decreases |out|
  {
    if out != [] && !out[0].cancelRequested {
      EmitRises(out[1..], ps[1..], rc, ps[0]);
      StepRises(Log(Strip(out[0].line)), ps[0], lo, Emit(out[1..], ps[1..], rc));
    }
  }

  /** The bar reaches 100 exactly when no line found cancellation requested and the exit code is 0. */
  lemma DrainCompletes(rule: Rule, out: seq<Arrival>, p: int, rc: int)
    requires p <= 95
    ensures Progress(100) in Drain(rule, out, p, rc) <==> !CancelRequested(out) && rc == 0
  {
    TraceBounded(rule, Lines(out), p);
    EmitCompletes(out, ProgressTrace(rule, Lines(out), p), rc);
  }

  lemma {:induction false} EmitCompletes(out: seq<Arrival>, ps: seq<int>, rc: int)
    requires |ps| == |out| && forall k | 0 <= k < |ps| :: ps[k] <= 95
    ensures Progress(100) in Emit(out, ps, rc) <==> !CancelRequested(out) && rc == 0
    decreases |out|
  {
    if out != [] {
      CancelRequestedStep(out);
      if !out[0].cancelRequested {
        EmitCompletes(out[1..], ps[1..], rc);
      }
    }
  }

  /** The texts of the log signals, in order. */
  function Logs(d: seq<Event>): (r: seq<string>)
    ensures |r| <= |d|
  {
    if d == [] then [] else (if d[0].Log? then [d[0].text] else []) + Logs(d[1..])
  }

  lemma {:induction false} LogsOfConcat(a: seq<Event>, b: seq<Event>)
    ensures Logs(a + b) == Logs(a) + Logs(b)
  {
    if a == [] {
      assert a + b == b;
    } else {
      assert (a + b)[0] == a[0];
      assert (a + b)[1..] == a[1..] + b;
      LogsOfConcat(a[1..], b);
    }
  }

  /** The loop logs, stripped and in order, exactly the lines that arrived before cancellation was seen. */
  lemma DrainLogsLines(rule: Rule, out: seq<Arrival>, p: int, rc: int)
    ensures var l := Logs(Drain(rule, out, p, rc));
      |l| == Uncancelled(out) && forall k | 0 <= k < |l| :: l[k] == Strip(out[k].line)
  {
    EmitLogs(out, ProgressTrace(rule, Lines(out), p), rc);
  }

  lemma {:induction false} EmitLogs(out: seq<Arrival>, ps: seq<int>, rc: int)
    requires |ps| == |out|
    ensures var l := Logs(Emit(out, ps, rc));
      |l| == Uncancelled(out) && forall k | 0 <= k < |l| :: l[k] == Strip(out[k].line)
    decreases |out|
  {
    if out == [] || out[0].cancelRequested {
      assert Logs(Emit(out, ps, rc)) == [] by {
        if out == [] {
          if rc == 0 { assert Logs([Finished(true, Converted)]) == []; }
        } else {
          assert Logs([Finished(false, OperationCancelled)]) == [];
        }
      }
    } else {
      EmitLogs(out[1..], ps[1..], rc);
      var head: seq<Event> := [Log(Strip(out[0].line)), Progress(ps[0])];
      LogsOfConcat(head, Emit(out[1..], ps[1..], rc));
      assert Logs(head) == [Strip(out[0].line)];
    }
  }

  /**
   * The whole thread, under either rule: it first reports 10 percent, then
   * emits exactly one `finished` signal, last; every progress value is at
   * least 10 and at most 95, or is the final 100.
   */
  lemma RunFinishesOnce(rule: Rule, child: Child)
    ensures var e := RunEvents(rule, child); FinishesOnce(e) && e[0] == Progress(10) && BoundedFrom(e, 10)
  {
    match child
    case SpawnFailed(reason) =>
      var e := RunEvents(rule, child);
      assert e == [Progress(10), Finished(false, Crashed(reason))];
    case Ran(out, rc) =>
      var d := Drain(rule, out, 20, rc);
      DrainFinishesOnce(rule, out, 20, rc);
      DrainProgressBounded(rule, out, 20, rc);
      StepFinishesOnce(Progress(10), Progress(20), d);
      assert BoundedFrom(d, 10);
      StepBounded(Progress(10), 20, 10, d);
  }

  /** With the intended update, the thread's progress never falls. */
  lemma RunProgressRises(child: Child)
    ensures RisesFrom(RunEvents(Intended, child), 10)
  {
    match child
    case SpawnFailed(reason) =>
      var e := RunEvents(Intended, child);
      assert e == [Progress(10), Finished(false, Crashed(reason))];
    case Ran(out, rc) =>
      DrainProgressRises(out, 20, rc);
      StepRises(Progress(10), 20, 10, Drain(Intended, out, 20, rc));
  }

  /**
   * The conversion succeeds, and the bar reaches 100, exactly when the child
   * was started, no output line found cancellation requested and the exit
   * code is 0.
   */
  lemma RunSucceeds(rule: Rule, child: Child)
    ensures var e := RunEvents(rule, child);
      e != [] && e[|e| - 1].Finished? &&
      (e[|e| - 1].success <==> child.Ran? && !CancelRequested(child.output) && child.returnCode == 0) &&
      (Progress(100) in e <==> e[|e| - 1].success)
  {
    match child
    case SpawnFailed(reason) =>
    case Ran(out, rc) =>
      DrainOutcome(rule, out, 20, rc);
      DrainCompletes(rule, out, 20, rc);
      var d := Drain(rule, out, 20, rc);
      assert RunEvents(rule, child)[|RunEvents(rule, child)| - 1] == d[|d| - 1];
  }
}
