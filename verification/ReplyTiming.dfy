/**
 The timing of one reply: six stage marks and the waits for acknowledgements between them. All
 times are milliseconds on the worker's clock.
 */
module ReplyTiming {
  import opened Sets
  import opened Wrappers

  datatype Stage = Stage(stage: string, elapsed: nat)

  datatype Kind = Delta | Terminal

  /** The wait ended at `elapsed` and took `duration`. */
  datatype Ack = Ack(kind: Kind, applied: bool, elapsed: int, duration: nat) {
    function Start(): int {
      elapsed - duration
    }
  }

  const LONGEST := 3_600_000
  const CAPACITY := 512

  predicate Admissible(line: Option<Ack>) {
    line.Some? && line.value.duration <= line.value.elapsed <= LONGEST
  }

  function Admitted(lines: seq<Option<Ack>>): (acks: seq<Ack>)
    ensures forall a | a in acks :: a.duration <= a.elapsed <= LONGEST
  {
    if lines == [] then [] else
      var last := lines[|lines| - 1];
      Admitted(lines[..|lines| - 1]) + if Admissible(last) then [last.value] else []
  }

  /** Admitted is every line that matched and whose wait lies within the first hour. */
  lemma {:induction false} AdmittedExactly(lines: seq<Option<Ack>>, a: Ack)
    ensures a in Admitted(lines) <==> Some(a) in lines && a.duration <= a.elapsed <= 3_600_000
  {
    if lines != [] {
      SplitLast(lines);
      AdmittedExactly(lines[..|lines| - 1], a);
    }
  }

  lemma {:induction false} AdmittedMore(lines: seq<Option<Ack>>, k: nat)
    requires k <= |lines|
    ensures Admitted(lines[..k]) <= Admitted(lines)
    decreases |lines| - k
  {
    if k < |lines| {
      AdmittedMore(lines, k + 1);
      assert lines[..k + 1][..k] == lines[..k];
    } else {
      assert lines[..k] == lines;
    }
  }

  /** `None` is a line that does not match. The reading stops once enough are collected. */
  method AcknowledgementTimings(lines: seq<Option<Ack>>) returns (acks: seq<Ack>)
    ensures acks == if |Admitted(lines)| <= 512 then Admitted(lines) else Admitted(lines)[..512]
  {
    acks := [];
    var i := 0;
    while i < |lines|
      invariant i <= |lines| && acks == Admitted(lines[..i]) && |acks| < CAPACITY
    {
      assert lines[..i + 1][..i] == lines[..i];
      AdmittedMore(lines, i + 1);
      if Admissible(lines[i]) {
        acks := acks + [lines[i].value];
        if |acks| == CAPACITY {
          return;
        }
      }
      i := i + 1;
    }
    assert lines[..i] == lines;
  }

  // Sums

  function Total(acks: seq<Ack>): nat {
    if acks == [] then 0 else Total(acks[..|acks| - 1]) + acks[|acks| - 1].duration
  }

  /** The waits that ended by the limit. */
  function Until(acks: seq<Ack>, limit: int): nat {
    if acks == [] then 0 else
      var last := acks[|acks| - 1];
      Until(acks[..|acks| - 1], limit) + if last.elapsed <= limit then last.duration else 0
  }

  function Of(acks: seq<Ack>, kind: Kind): (r: seq<Ack>)
    ensures forall a :: a in r <==> a in acks && a.kind == kind
  {
    if acks == [] then [] else
      var last := acks[|acks| - 1];
      Of(acks[..|acks| - 1], kind) + if last.kind == kind then [last] else []
  }

  lemma TotalMore(acks: seq<Ack>, a: Ack)
    ensures Total(acks + [a]) == Total(acks) + a.duration
  {
    assert (acks + [a])[..|acks|] == acks;
  }

  lemma OfMore(acks: seq<Ack>, a: Ack, kind: Kind)
    ensures Of(acks + [a], kind) == if a.kind == kind then Of(acks, kind) + [a] else Of(acks, kind)
  {
    assert (acks + [a])[..|acks|] == acks;
    assert Of(acks, kind) + [] == Of(acks, kind);
  }

  predicate ByKind(acks: seq<Ack>) {
    Total(acks) == Total(Of(acks, Delta)) + Total(Of(acks, Terminal))
  }

  lemma {:induction false} TotalByKind(acks: seq<Ack>)
    ensures ByKind(acks)
  {
    if acks != [] {
      SplitLast(acks);
      TotalByKind(acks[..|acks| - 1]);
      KindStep(acks[..|acks| - 1], acks[|acks| - 1]);
    }
  }

  lemma KindStep(front: seq<Ack>, last: Ack)
    ensures ByKind(front) ==> ByKind(front + [last])
  {
    TotalMore(front, last);
    OfMore(front, last, Delta);
    OfMore(front, last, Terminal);
    TotalMore(Of(front, last.kind), last);
  }

  // The waits for deltas follow one another

  function EndBefore(delta: seq<Ack>, i: nat, first: int): int
    requires i <= |delta|
  {
    if i == 0 then first else delta[i - 1].elapsed
  }

  /** Each wait begins at the end of the previous one or later, ends before generation does, and does
      not straddle the end of the stream. */
  predicate Follows(delta: seq<Ack>, i: nat, first: int, stream: int, generation: int)
    requires i < |delta|
  {
    && EndBefore(delta, i, first) <= delta[i].Start() && delta[i].elapsed <= generation
    && !(delta[i].Start() < stream < delta[i].elapsed)
  }

  predicate InOrder(delta: seq<Ack>, first: int, stream: int, generation: int) {
    forall i | 0 <= i < |delta| :: Follows(delta, i, first, stream, generation)
  }

  lemma InOrderFront(delta: seq<Ack>, first: int, stream: int, generation: int)
    requires delta != [] && InOrder(delta, first, stream, generation)
    ensures InOrder(delta[..|delta| - 1], first, stream, generation)
  {
    var front := delta[..|delta| - 1];
    forall i | 0 <= i < |front| ensures Follows(front, i, first, stream, generation) {
      assert Follows(delta, i, first, stream, generation);
    }
  }

  /** Waits one after another take no longer than the time from before the first to the end of the last. */
  lemma {:induction false} TotalBound(delta: seq<Ack>, first: int, stream: int, generation: int)
    requires InOrder(delta, first, stream, generation)
    ensures Total(delta) <= EndBefore(delta, |delta|, first) - first
  {
    if delta != [] {
      InOrderFront(delta, first, stream, generation);
      TotalBound(delta[..|delta| - 1], first, stream, generation);
      assert Follows(delta, |delta| - 1, first, stream, generation);
    }
  }

  /** Hence those counted before the end of the stream fit between the first delta and that end. */
  lemma {:induction false} UntilBound(delta: seq<Ack>, first: int, stream: int, generation: int)
    requires InOrder(delta, first, stream, generation) && first <= stream
    ensures Until(delta, stream) <= stream - first
    ensures delta != [] && delta[|delta| - 1].elapsed <= stream ==> Until(delta, stream) == Total(delta)
  {
    if delta != [] {
      var front := delta[..|delta| - 1];
      InOrderFront(delta, first, stream, generation);
      UntilBound(front, first, stream, generation);
      TotalBound(delta, first, stream, generation);
      assert Follows(delta, |delta| - 1, first, stream, generation);
    }
  }

  /** The counted waits are the first ones: each is over by the end of the stream, and every other begins behind it. */
  lemma {:induction false} UntilIsPrefix(delta: seq<Ack>, first: int, stream: int, generation: int) returns (n: nat)
    requires InOrder(delta, first, stream, generation)
    ensures n <= |delta| && Until(delta, stream) == Total(delta[..n])
    ensures forall i | 0 <= i < n :: delta[i].elapsed <= stream
    ensures forall i | n <= i < |delta| :: stream <= delta[i].Start() && stream < delta[i].elapsed
  {
    if delta == [] {
      n := 0;
    } else {
      var front := delta[..|delta| - 1];
      InOrderFront(delta, first, stream, generation);
      n := UntilIsPrefix(front, first, stream, generation);
      assert forall i | 0 <= i < |front| :: front[i] == delta[i];
      assert Follows(delta, |delta| - 1, first, stream, generation);
      if delta[|delta| - 1].elapsed <= stream {
        assert n == |front|;
        n := |delta|;
        assert front[..|front|] == front && delta[..n] == delta;
      } else {
        assert delta[..n] == front[..n];
      }
    }
  }

  /** No two waits overlap. */
  lemma {:induction false} Disjoint(delta: seq<Ack>, first: int, stream: int, generation: int, i: nat, j: nat)
    requires InOrder(delta, first, stream, generation) && i < j < |delta|
    ensures delta[i].elapsed <= delta[j].Start()
  {
    assert Follows(delta, j, first, stream, generation);
    if i < j - 1 {
      Disjoint(delta, first, stream, generation, i, j - 1);
    }
  }

  // The metrics of a run

  const NAMES := ["run_started", "generation_started", "first_delta", "stream_completed", "generation_completed", "terminal_applied"]
  const LIMIT := 120_000

  function Matches(stages: seq<Stage>, name: string): seq<nat> {
    if stages == [] then [] else
      var last := stages[|stages| - 1];
      Matches(stages[..|stages| - 1], name) + if last.stage == name then [last.elapsed] else []
  }

  predicate Once(stages: seq<Stage>, name: string) {
    |Matches(stages, name)| == 1
  }

  /** The time of a stage that is marked once. */
  function At(stages: seq<Stage>, name: string): nat
    requires Once(stages, name)
  {
    Matches(stages, name)[0]
  }

  /** A stage has a time exactly when one mark bears its name, and then the time of that mark. */
  lemma {:induction false} OnceExactly(stages: seq<Stage>, name: string)
    ensures Once(stages, name) <==> exists i :: OnlyMark(stages, name, i)
    ensures forall i | OnlyMark(stages, name, i) :: Once(stages, name) && At(stages, name) == stages[i].elapsed
    ensures Matches(stages, name) == [] <==> forall i | 0 <= i < |stages| :: stages[i].stage != name
  {
    if stages != [] {
      var front := stages[..|stages| - 1];
      OnceExactly(front, name);
      assert forall i | 0 <= i < |front| :: front[i] == stages[i];
      if Once(stages, name) {
        if stages[|front|].stage == name {
          assert OnlyMark(stages, name, |front|);
        } else {
          var i :| OnlyMark(front, name, i);
          assert OnlyMark(stages, name, i);
        }
      }
      forall i | OnlyMark(stages, name, i)
        ensures Once(stages, name) && At(stages, name) == stages[i].elapsed
      {
        if i < |front| {
          assert OnlyMark(front, name, i);
        }
      }
    }
  }

  predicate OnlyMark(stages: seq<Stage>, name: string, i: int) {
    0 <= i < |stages| && stages[i].stage == name && forall j | 0 <= j < |stages| && j != i :: stages[j].stage != name
  }

  datatype Marks = Marks(run: nat, started: nat, first: nat, stream: nat, generation: nat, terminal: nat)

  predicate AllOnce(stages: seq<Stage>) {
    forall i | 0 <= i < |NAMES| :: Once(stages, NAMES[i])
  }

  function MarksOf(times: seq<nat>): Marks
    requires |times| == 6
  {
    Marks(times[0], times[1], times[2], times[3], times[4], times[5])
  }

  predicate Ordered(m: Marks) {
    m.run <= m.started <= m.first <= m.stream <= m.generation <= m.terminal <= LIMIT
  }

  predicate NotFailed(stages: seq<Stage>) {
    forall i | 0 <= i < |stages| :: stages[i].stage != "run_failed" && stages[i].stage != "run_timeout"
  }

  /** The single wait for the terminal acknowledgement lies between generation and the last mark. */
  predicate TerminalFits(m: Marks, terminal: Ack) {
    terminal.elapsed <= m.terminal && m.generation <= terminal.Start()
  }

  /** The marks and waits of a run that count; nothing is said about sums. */
  predicate Complete(m: Marks, stages: seq<Stage>, acks: seq<Ack>) {
    var delta, terminal := Of(acks, Delta), Of(acks, Terminal);
    && m.run <= m.started <= m.first <= m.stream <= m.generation <= m.terminal <= 120_000
    && (forall row | row in stages :: row.stage != "run_failed" && row.stage != "run_timeout") && Once(stages, "engine_ready")
    && delta != [] && |terminal| == 1 && (forall i | 0 <= i < |acks| :: acks[i].applied)
    && m.generation <= terminal[0].Start() && terminal[0].elapsed <= m.terminal
    && InOrder(delta, m.first, m.stream, m.generation) && EndBefore(delta, |delta|, m.first) <= terminal[0].Start()
  }

  datatype Metrics = Metrics(engineReady: nat, generationWall: int, generationNet: int, deltaCount: nat, deltaTotal: nat,
    deltaMax: nat, total: nat, terminalWait: nat, terminalApplied: nat)

  predicate IsLongest(delta: seq<Ack>, max: nat) {
    (exists a :: a in delta && a.duration == max) && forall i | 0 <= i < |delta| :: delta[i].duration <= max
  }

  /** The report of a complete run: every number in terms of the marks and the waits. */
  ghost predicate Reports(r: Metrics, m: Marks, stages: seq<Stage>, acks: seq<Ack>)
    requires Complete(m, stages, acks)
  {
    var delta, terminal := Of(acks, Delta), Of(acks, Terminal);
    var wall := m.stream - m.started;
    && r == Metrics(At(stages, "engine_ready"), wall, wall - Until(delta, m.stream), |delta|, Total(delta), r.deltaMax,
                    Total(acks), terminal[0].duration, m.terminal)
    && IsLongest(delta, r.deltaMax)
  }

  /** There is one report. */
  lemma OneReport(r: Metrics, s: Metrics, m: Marks, stages: seq<Stage>, acks: seq<Ack>)
    requires Complete(m, stages, acks) && Reports(r, m, stages, acks) && Reports(s, m, stages, acks)
    ensures r == s
  {
    var delta := Of(acks, Delta);
    var a :| a in delta && a.duration == r.deltaMax;
    var b :| b in delta && b.duration == s.deltaMax;
    assert a.duration <= s.deltaMax && b.duration <= r.deltaMax;
  }

  /** The waits of one complete run, and the two bounds on their sums. */
  lemma Bounds(m: Marks, stages: seq<Stage>, acks: seq<Ack>)
    requires Complete(m, stages, acks)
    ensures Until(Of(acks, Delta), m.stream) <= m.stream - m.first <= m.stream - m.started
    ensures Total(acks) == Total(Of(acks, Delta)) + Of(acks, Terminal)[0].duration
    ensures Total(acks) <= m.terminal - m.first
  {
    var delta, terminal := Of(acks, Delta), Of(acks, Terminal);
    UntilBound(delta, m.first, m.stream, m.generation);
    TotalBound(delta, m.first, m.stream, m.generation);
    TotalByKind(acks);
    assert terminal == [] + [terminal[0]];
    TotalMore([], terminal[0]);
  }

  /** All waits of a complete run, the terminal one included, lie between its first delta and its last mark, and each
      ends before a later one begins. */
  lemma AllDisjoint(m: Marks, stages: seq<Stage>, acks: seq<Ack>, i: nat, j: nat)
    requires Complete(m, stages, acks) && i < j < |Of(acks, Delta) + Of(acks, Terminal)|
    ensures var waits := Of(acks, Delta) + Of(acks, Terminal);
            m.first <= waits[i].Start() && waits[i].elapsed <= waits[j].Start() && waits[j].elapsed <= m.terminal
  {
    var delta := Of(acks, Delta);
    assert Follows(delta, 0, m.first, m.stream, m.generation);
    assert Follows(delta, i, m.first, m.stream, m.generation);
    if i > 0 {
      Disjoint(delta, m.first, m.stream, m.generation, 0, i);
    }
    if j < |delta| {
      Disjoint(delta, m.first, m.stream, m.generation, i, j);
      assert Follows(delta, j, m.first, m.stream, m.generation);
    }
  }

  method Values(stages: seq<Stage>) returns (times: Option<seq<nat>>)
    ensures times.Some? <==> AllOnce(stages)
    ensures times.Some? ==> |times.value| == 6 && forall i | 0 <= i < 6 :: times.value[i] == At(stages, NAMES[i])
  {
    var values := [];
    var i := 0;
    while i < |NAMES|
      invariant i <= |NAMES| && |values| == i
      invariant forall j | 0 <= j < i :: Once(stages, NAMES[j]) && values[j] == At(stages, NAMES[j])
    {
      var matches := Matches(stages, NAMES[i]);
      if |matches| != 1 {
        assert !Once(stages, NAMES[i]);
        return None;
      }
      values := values + [matches[0]];
      i := i + 1;
    }
    times := Some(values);
  }

  method DeltasInOrder(delta: seq<Ack>, m: Marks) returns (ok: bool, previousEnd: int)
    ensures ok <==> InOrder(delta, m.first, m.stream, m.generation)
    ensures ok ==> previousEnd == EndBefore(delta, |delta|, m.first)
  {
    previousEnd := m.first;
    var i := 0;
    while i < |delta|
      invariant i <= |delta| && previousEnd == EndBefore(delta, i, m.first)
      invariant forall j | 0 <= j < i :: Follows(delta, j, m.first, m.stream, m.generation)
    {
      var end := delta[i].elapsed;
      var start := end - delta[i].duration;
      if start < previousEnd || end > m.generation || start < m.stream < end {
        assert !Follows(delta, i, m.first, m.stream, m.generation);
        return false, previousEnd;
      }
      previousEnd := end;
      i := i + 1;
    }
    ok := true;
  }

  method Longest(delta: seq<Ack>) returns (max: nat)
    requires delta != []
    ensures IsLongest(delta, max)
  {
    max := delta[0].duration;
    assert delta[0] in delta;
    var i := 1;
    while i < |delta|
      invariant 1 <= i <= |delta|
      invariant exists a :: a in delta && a.duration == max
      invariant forall j | 0 <= j < i :: delta[j].duration <= max
    {
      if delta[i].duration > max {
        max := delta[i].duration;
        assert delta[i] in delta;
      }
      i := i + 1;
    }
  }

  predicate AreMarks(marks: Option<Marks>, stages: seq<Stage>) {
    && (marks.Some? <==>
          && Once(stages, "run_started") && Once(stages, "generation_started") && Once(stages, "first_delta")
          && Once(stages, "stream_completed") && Once(stages, "generation_completed") && Once(stages, "terminal_applied"))
    && (marks.Some? ==>
          marks.value == Marks(At(stages, "run_started"), At(stages, "generation_started"), At(stages, "first_delta"),
                               At(stages, "stream_completed"), At(stages, "generation_completed"), At(stages, "terminal_applied")))
  }

  method ReadMarks(stages: seq<Stage>) returns (marks: Option<Marks>)
    ensures AreMarks(marks, stages)
  {
    var times := Values(stages);
    if times.None? {
      return None;
    }
    return Some(MarksOf(times.value));
  }

  /** Whether the marks and waits make a complete run. */
  method IsComplete(m: Marks, stages: seq<Stage>, acks: seq<Ack>) returns (ok: bool)
    ensures ok <==> Complete(m, stages, acks)
  {
    var delta, terminal := Of(acks, Delta), Of(acks, Terminal);
    if !Ordered(m) || !NotFailed(stages) || delta == [] || |terminal| != 1
       || !(forall i | 0 <= i < |acks| :: acks[i].applied) || !TerminalFits(m, terminal[0]) {
      return false;
    }
    var inOrder, previousEnd := DeltasInOrder(delta, m);
    return inOrder && terminal[0].Start() >= previousEnd && Once(stages, "engine_ready");
  }

  /** The numbers of a complete run; the test that the waits fit into the generation never fails. */
  method Report(m: Marks, stages: seq<Stage>, acks: seq<Ack>) returns (r: Option<Metrics>)
    requires Complete(m, stages, acks)
    ensures r.Some? && Reports(r.value, m, stages, acks)
    ensures r.value.generationNet >= m.first - m.started && r.value.deltaMax <= r.value.deltaTotal
    ensures r.value.total == r.value.deltaTotal + r.value.terminalWait <= r.value.terminalApplied - m.first
  {
    var delta, terminal := Of(acks, Delta), Of(acks, Terminal);
    Bounds(m, stages, acks);
    var wall := m.stream - m.started;
    var during := Until(delta, m.stream);
    if during > wall {
      return None;
    }
    var max := Longest(delta);
    OneOfTotal(delta, max);
    r := Some(Metrics(At(stages, "engine_ready"), wall, wall - during, |delta|, Total(delta), max, Total(acks),
                      terminal[0].duration, m.terminal));
  }

  /** Accepts exactly the complete runs: the last test, that the waits fit into the generation, never rejects one. */
  method RunMetrics(stages: seq<Stage>, acks: seq<Ack>) returns (marks: Option<Marks>, r: Option<Metrics>)
    ensures marks.Some? <==>
              && Once(stages, "run_started") && Once(stages, "generation_started") && Once(stages, "first_delta")
              && Once(stages, "stream_completed") && Once(stages, "generation_completed") && Once(stages, "terminal_applied")
    ensures marks.Some? ==>
      marks.value == Marks(At(stages, "run_started"), At(stages, "generation_started"), At(stages, "first_delta"),
                           At(stages, "stream_completed"), At(stages, "generation_completed"), At(stages, "terminal_applied"))
    ensures r.Some? <==> marks.Some? && Complete(marks.value, stages, acks)
    ensures r.Some? ==> Reports(r.value, marks.value, stages, acks)
    ensures r.Some? ==>
      && r.value.generationNet >= marks.value.first - marks.value.started
      && r.value.total == r.value.deltaTotal + r.value.terminalWait <= r.value.terminalApplied - marks.value.first
      && r.value.deltaMax <= r.value.deltaTotal
  {
    r := None;
    marks := ReadMarks(stages);
    if marks.None? {
      return;
    }
    var complete := IsComplete(marks.value, stages, acks);
    if complete {
      r := Report(marks.value, stages, acks);
    }
  }

  lemma {:induction false} OneOfTotal(delta: seq<Ack>, max: nat)
    requires exists a :: a in delta && a.duration == max
    ensures max <= Total(delta)
  {
    var a :| a in delta && a.duration == max;
    var last := delta[|delta| - 1];
    if last.duration != max {
      assert a in delta[..|delta| - 1];
      OneOfTotal(delta[..|delta| - 1], max);
    }
  }
}
