/**
 The field device's scan cycle with delayed logic: what one scan does to the countdowns and to the
 updated tags, and what follows over any number of scans.
 */
module DelayedLogic {
  import opened Wrappers

  type Tag = string

  datatype Value = Binary(status: bool) | Analog(value: real)

  /** A logic line: known says whether the left-hand side is a binary or analog tag at all. */
  datatype Line = Line(lhs: Tag, delay: nat, known: bool)

  /** What a line meets in one scan: the stored value, and its expression's result unless evaluation throws. */
  datatype Reading = Reading(stored: Value, result: Option<Value>)

  /** One scan: tags already updated by others when it starts, and one reading per line. */
  datatype Scan = Scan(pending: map<Tag, Value>, readings: seq<Reading>)

  /** delayed holds the countdowns in milliseconds, updated what this scan sends out. */
  datatype State = State(delayed: map<Tag, int>, updated: map<Tag, Value>)

  /** A delayed line is skipped while its countdown lasts. */
  predicate Skips(s: State, line: Line, cycle: int) {
    line.lhs in s.delayed && s.delayed[line.lhs] - cycle > 0
  }

  /** One turn of the loop over the lines. */
  function ScanLine(s: State, line: Line, r: Reading, cycle: int): State {
    var tag := line.lhs;
    if Skips(s, line, cycle) then s.(delayed := s.delayed[tag := s.delayed[tag] - cycle])
    else if !line.known || r.result == None then s
    else if r.result.value != r.stored && tag !in s.updated then
      if line.delay > 0 && tag !in s.delayed then s.(delayed := s.delayed[tag := line.delay * cycle])
      else State(s.delayed - {tag}, s.updated[tag := r.result.value])
    else s.(delayed := s.delayed - {tag})
  }

  function ScanLines(s: State, lines: seq<Line>, readings: seq<Reading>, cycle: int): State
    requires |readings| == |lines|
    decreases |lines|
  {
    if lines == [] then s else ScanLines(ScanLine(s, lines[0], readings[0], cycle), lines[1..], readings[1..], cycle)
  }

  predicate Fits(lines: seq<Line>, scans: seq<Scan>) {
    forall s | s in scans :: |s.readings| == |lines|
  }

  /** The state right after scan n, before the updated tags are sent and cleared. */
  function AfterScan(lines: seq<Line>, cycle: int, scans: seq<Scan>, n: nat): State
    requires Fits(lines, scans) && n < |scans|
    decreases n, 1
  {
    ScanLines(State(Before(lines, cycle, scans, n), scans[n].pending), lines, scans[n].readings, cycle)
  }

  /** The countdowns when scan n starts. */
  function Before(lines: seq<Line>, cycle: int, scans: seq<Scan>, n: nat): map<Tag, int>
    requires Fits(lines, scans) && n <= |scans|
    decreases n, 0
  {
    if n == 0 then map[] else AfterScan(lines, cycle, scans, n - 1).delayed
  }

  function Lookup<V>(m: map<Tag, V>, tag: Tag): Option<V> {
    if tag in m then Some(m[tag]) else None
  }

  // Countdowns stay positive multiples of the cycle time.

  predicate Multiple(x: int, cycle: int, limit: nat) {
    exists m: nat :: 1 <= m <= limit && x == m * cycle
  }

  /** Every countdown is a positive number of cycles, at most the delay of some line of its tag. */
  ghost predicate CountdownsOk(delayed: map<Tag, int>, lines: seq<Line>, cycle: int) {
    forall tag | tag in delayed :: exists line | line in lines ::
      line.lhs == tag && Multiple(delayed[tag], cycle, line.delay)
  }

  lemma Shrinks(x: int, cycle: int, limit: nat)
    requires cycle > 0 && Multiple(x, cycle, limit) && x - cycle > 0
    ensures Multiple(x - cycle, cycle, limit)
  {
    var m: nat :| 1 <= m <= limit && x == m * cycle;
    assert x - cycle == (m - 1) * cycle;
  }

  lemma LineKeepsCountdowns(s: State, line: Line, r: Reading, lines: seq<Line>, cycle: int)
    requires cycle > 0 && line in lines && CountdownsOk(s.delayed, lines, cycle)
    ensures CountdownsOk(ScanLine(s, line, r, cycle).delayed, lines, cycle)
  {
    var d := ScanLine(s, line, r, cycle).delayed;
    forall tag | tag in d ensures exists l | l in lines :: l.lhs == tag && Multiple(d[tag], cycle, l.delay) {
      if tag == line.lhs && Skips(s, line, cycle) {
        var l :| l in lines && l.lhs == tag && Multiple(s.delayed[tag], cycle, l.delay);
        Shrinks(s.delayed[tag], cycle, l.delay);
      } else if tag == line.lhs && tag !in s.delayed {
        assert Multiple(line.delay * cycle, cycle, line.delay);
      }
    }
  }

  lemma {:induction false} LinesKeepCountdowns(s: State, lines: seq<Line>, readings: seq<Reading>,
                                               all: seq<Line>, cycle: int)
    requires cycle > 0 && |readings| == |lines| && (forall l | l in lines :: l in all)
      && CountdownsOk(s.delayed, all, cycle)
    ensures CountdownsOk(ScanLines(s, lines, readings, cycle).delayed, all, cycle)
    decreases |lines|
  {
    hide CountdownsOk, ScanLine;
    if lines != [] {
      LineKeepsCountdowns(s, lines[0], readings[0], all, cycle);
      LinesKeepCountdowns(ScanLine(s, lines[0], readings[0], cycle), lines[1..], readings[1..], all, cycle);
    }
  }

  /** Over every run of scans, with any number of lines per tag. */
  lemma {:induction false} CountdownsStayOk(lines: seq<Line>, cycle: int, scans: seq<Scan>, n: nat)
    requires cycle > 0 && Fits(lines, scans) && n <= |scans|
    ensures CountdownsOk(Before(lines, cycle, scans, n), lines, cycle)
    decreases n
  {
    if n > 0 {
      CountdownsStayOk(lines, cycle, scans, n - 1);
      var s := State(Before(lines, cycle, scans, n - 1), scans[n - 1].pending);
      LinesKeepCountdowns(s, lines, scans[n - 1].readings, lines, cycle);
    }
  }

  // One tag with one line: the other lines do not touch it.

  /** A countdown and an update of one tag. */
  datatype View = View(countdown: Option<int>, update: Option<Value>)

  function ViewOf(s: State, tag: Tag): View {
    View(Lookup(s.delayed, tag), Lookup(s.updated, tag))
  }

  /** What one scan does to a tag, given the one line it has. */
  function TagStep(v: View, line: Line, r: Reading, cycle: int): View {
    if v.countdown.Some? && v.countdown.value - cycle > 0 then v.(countdown := Some(v.countdown.value - cycle))
    else if !line.known || r.result == None then v
    else if r.result.value != r.stored && v.update == None then
      if line.delay > 0 && v.countdown == None then v.(countdown := Some(line.delay * cycle))
      else View(None, r.result)
    else v.(countdown := None)
  }

  lemma ScanLineView(s: State, line: Line, r: Reading, cycle: int, tag: Tag)
    ensures ViewOf(ScanLine(s, line, r, cycle), tag) ==
      if line.lhs == tag then TagStep(ViewOf(s, tag), line, r, cycle) else ViewOf(s, tag)
  {
  }

  lemma {:induction false} OthersLeaveAlone(s: State, lines: seq<Line>, readings: seq<Reading>, cycle: int, tag: Tag)
    requires |readings| == |lines| && forall l | l in lines :: l.lhs != tag
    ensures ViewOf(ScanLines(s, lines, readings, cycle), tag) == ViewOf(s, tag)
    decreases |lines|
  {
    hide ScanLine, ViewOf;
    if lines != [] {
      assert lines[0] in lines;
      ScanLineView(s, lines[0], readings[0], cycle, tag);
      OthersLeaveAlone(ScanLine(s, lines[0], readings[0], cycle), lines[1..], readings[1..], cycle, tag);
    }
  }

  /** Line i is the only one of its tag. */
  predicate OnlyLine(lines: seq<Line>, i: nat) {
    i < |lines| && forall j | 0 <= j < |lines| && j != i :: lines[j].lhs != lines[i].lhs
  }

  lemma {:induction false} OneLineDecides(s: State, lines: seq<Line>, readings: seq<Reading>, cycle: int, i: nat)
    requires |readings| == |lines| && OnlyLine(lines, i)
    ensures ViewOf(ScanLines(s, lines, readings, cycle), lines[i].lhs)
      == TagStep(ViewOf(s, lines[i].lhs), lines[i], readings[i], cycle)
    decreases |lines|
  {
    hide ScanLine, ViewOf, TagStep;
    var next := ScanLine(s, lines[0], readings[0], cycle);
    ScanLineView(s, lines[0], readings[0], cycle, lines[i].lhs);
    if i == 0 {
      assert forall l | l in lines[1..] :: l.lhs != lines[0].lhs;
      OthersLeaveAlone(next, lines[1..], readings[1..], cycle, lines[0].lhs);
    } else {
      assert lines[1..][i - 1] == lines[i] && readings[1..][i - 1] == readings[i];
      OneLineDecides(next, lines[1..], readings[1..], cycle, i - 1);
    }
  }

  // The delay over a run.

  /** The reading of line i in scan n asks for an update. */
  predicate Differs(scans: seq<Scan>, n: nat, i: nat, line: Line)
    requires n < |scans| && i < |scans[n].readings|
  {
    var r := scans[n].readings[i];
    line.known && r.result.Some? && r.result.value != r.stored && line.lhs !in scans[n].pending
  }

  /** Line i is not looked at in scan n. */
  predicate SkippedIn(lines: seq<Line>, cycle: int, scans: seq<Scan>, n: nat, i: nat)
    requires Fits(lines, scans) && n < |scans| && i < |lines|
  {
    Skips(State(Before(lines, cycle, scans, n), scans[n].pending), lines[i], cycle)
  }

  lemma ScanView(lines: seq<Line>, cycle: int, scans: seq<Scan>, n: nat, i: nat)
    requires Fits(lines, scans) && n < |scans| && OnlyLine(lines, i)
    ensures |scans[n].readings| == |lines|
    ensures ViewOf(AfterScan(lines, cycle, scans, n), lines[i].lhs) ==
      TagStep(View(Lookup(Before(lines, cycle, scans, n), lines[i].lhs), Lookup(scans[n].pending, lines[i].lhs)),
              lines[i], scans[n].readings[i], cycle)
  {
    assert scans[n] in scans;
    OneLineDecides(State(Before(lines, cycle, scans, n), scans[n].pending), lines, scans[n].readings, cycle, i);
  }

  /** j scans after the delay started, the countdown stands at the remaining cycles. */
  lemma {:induction false} CountsDown(lines: seq<Line>, cycle: int, scans: seq<Scan>, i: nat, k: nat, j: nat)
    requires cycle > 0 && Fits(lines, scans) && OnlyLine(lines, i) && lines[i].delay > 0
    requires k + j < |scans| && j < lines[i].delay && |scans[k].readings| == |lines|
    requires lines[i].lhs !in Before(lines, cycle, scans, k) && Differs(scans, k, i, lines[i])
    ensures Lookup(Before(lines, cycle, scans, k + j + 1), lines[i].lhs) == Some((lines[i].delay - j) * cycle)
    ensures j > 0 ==> SkippedIn(lines, cycle, scans, k + j, i)
    decreases j
  {
    hide AfterScan, ScanLines;
    ScanView(lines, cycle, scans, k + j, i);
    if j > 0 {
      CountsDown(lines, cycle, scans, i, k, j - 1);
      var d := lines[i].delay;
      assert (d - (j - 1)) * cycle - cycle == (d - j) * cycle;
      assert (d - j) * cycle > 0;
    }
  }

  /** A scan between the first difference and the end of the delay. */
  lemma DelayedScan(lines: seq<Line>, cycle: int, scans: seq<Scan>, i: nat, k: nat, n: nat)
    requires cycle > 0 && Fits(lines, scans) && OnlyLine(lines, i) && lines[i].delay > 0
    requires k < n < k + lines[i].delay && n < |scans| && |scans[k].readings| == |lines|
    requires lines[i].lhs !in Before(lines, cycle, scans, k) && Differs(scans, k, i, lines[i])
    ensures SkippedIn(lines, cycle, scans, n, i)
    ensures Lookup(AfterScan(lines, cycle, scans, n).updated, lines[i].lhs) == Lookup(scans[n].pending, lines[i].lhs)
    ensures Lookup(AfterScan(lines, cycle, scans, n).delayed, lines[i].lhs) == Some((k + lines[i].delay - n) * cycle)
  {
    hide AfterScan, Before;
    CountsDown(lines, cycle, scans, i, k, n - k);
    ScanView(lines, cycle, scans, n, i);
    var d, j := lines[i].delay, n - k;
    CountsDown(lines, cycle, scans, i, k, j - 1);
    assert (d - (j - 1)) * cycle - cycle == (d - j) * cycle;
  }

  /**
   Delay safety. When the result of a tag's only line first differs in scan k, the line is not
   evaluated and the tag not updated in the scans up to k + delay - 1, and its countdown is the
   remaining number of cycles. In scan k + delay the line is evaluated: if the result still differs
   the tag is updated with it, if not the tag is released without an update, and if evaluation
   fails the countdown stays at one cycle, to be tried again in the next scan.
   */
  lemma DelaySafety(lines: seq<Line>, cycle: int, scans: seq<Scan>, i: nat, k: nat)
    requires cycle > 0 && Fits(lines, scans) && OnlyLine(lines, i) && lines[i].delay > 0
    requires k + lines[i].delay < |scans| && |scans[k].readings| == |lines|
    requires lines[i].lhs !in Before(lines, cycle, scans, k) && Differs(scans, k, i, lines[i])
    ensures lines[i].lhs !in AfterScan(lines, cycle, scans, k).updated
    ensures forall n | k < n < k + lines[i].delay ::
      && SkippedIn(lines, cycle, scans, n, i)
      && Lookup(AfterScan(lines, cycle, scans, n).updated, lines[i].lhs) == Lookup(scans[n].pending, lines[i].lhs)
      && Lookup(AfterScan(lines, cycle, scans, n).delayed, lines[i].lhs) == Some((k + lines[i].delay - n) * cycle)
    ensures var e := k + lines[i].delay; var tag, after := lines[i].lhs, AfterScan(lines, cycle, scans, e);
      && |scans[e].readings| == |lines| && !SkippedIn(lines, cycle, scans, e, i)
      && (Differs(scans, e, i, lines[i]) ==>
          Lookup(after.updated, tag) == scans[e].readings[i].result && tag !in after.delayed)
      && (!Differs(scans, e, i, lines[i]) ==> Lookup(after.updated, tag) == Lookup(scans[e].pending, tag))
      && (!Differs(scans, e, i, lines[i]) && scans[e].readings[i].result.Some? ==> tag !in after.delayed)
      && (scans[e].readings[i].result == None ==> Lookup(after.delayed, tag) == Some(cycle))
  {
    var d, e := lines[i].delay, k + lines[i].delay;
    hide AfterScan, Before;
    forall n | k < n < e
      ensures SkippedIn(lines, cycle, scans, n, i)
      ensures Lookup(AfterScan(lines, cycle, scans, n).updated, lines[i].lhs) == Lookup(scans[n].pending, lines[i].lhs)
      ensures Lookup(AfterScan(lines, cycle, scans, n).delayed, lines[i].lhs) == Some((e - n) * cycle)
    {
      hide Fits, OnlyLine, Differs, SkippedIn;
      DelayedScan(lines, cycle, scans, i, k, n);
    }
    ScanView(lines, cycle, scans, k, i);
    CountsDown(lines, cycle, scans, i, k, d - 1);
    ScanView(lines, cycle, scans, e, i);
  }

  // Several lines for one tag.

  function LinesOf(lines: seq<Line>, tag: Tag): nat {
    if lines == [] then 0 else (if lines[0].lhs == tag then 1 else 0) + LinesOf(lines[1..], tag)
  }

  /** No line of the tag is evaluated in the scan. */
  predicate AllSkipped(s: State, lines: seq<Line>, readings: seq<Reading>, cycle: int, tag: Tag)
    requires |readings| == |lines|
    decreases |lines|
  {
    lines == [] ||
    ((lines[0].lhs == tag ==> Skips(s, lines[0], cycle))
     && AllSkipped(ScanLine(s, lines[0], readings[0], cycle), lines[1..], readings[1..], cycle, tag))
  }

  /** A scan takes one cycle off a countdown for every line of the tag, or evaluates one of them if that is too much. */
  lemma {:induction false} CountdownSpeed(s: State, lines: seq<Line>, readings: seq<Reading>, cycle: int,
                                          tag: Tag, x: int)
    requires cycle > 0 && |readings| == |lines| && Lookup(s.delayed, tag) == Some(x) && x > 0
    ensures AllSkipped(s, lines, readings, cycle, tag) <==> x > LinesOf(lines, tag) * cycle
    ensures AllSkipped(s, lines, readings, cycle, tag) ==>
      ViewOf(ScanLines(s, lines, readings, cycle), tag)
        == View(Some(x - LinesOf(lines, tag) * cycle), Lookup(s.updated, tag))
    decreases |lines|
  {
    hide ScanLine;
    if lines != [] {
      var next := ScanLine(s, lines[0], readings[0], cycle);
      ScanLineView(s, lines[0], readings[0], cycle, tag);
      var n := LinesOf(lines[1..], tag);
      assert n * cycle >= 0 && (n + 1) * cycle == n * cycle + cycle;
      if lines[0].lhs != tag {
        CountdownSpeed(next, lines[1..], readings[1..], cycle, tag, x);
      } else if x - cycle > 0 {
        CountdownSpeed(next, lines[1..], readings[1..], cycle, tag, x - cycle);
      }
    }
  }

  /** No line of the tag is evaluated in scan n. */
  predicate TagSkipped(lines: seq<Line>, cycle: int, scans: seq<Scan>, n: nat, tag: Tag)
    requires Fits(lines, scans) && n < |scans|
  {
    AllSkipped(State(Before(lines, cycle, scans, n), scans[n].pending), lines, scans[n].readings, cycle, tag)
  }

  /** The countdown j scans later, if it is still running. */
  lemma {:induction false} CountdownAfter(lines: seq<Line>, cycle: int, scans: seq<Scan>, k: nat, j: nat,
                                          tag: Tag, x: int)
    requires cycle > 0 && Fits(lines, scans) && k + j <= |scans|
    requires Lookup(Before(lines, cycle, scans, k), tag) == Some(x) && x > 0
    requires j == 0 || x > j * LinesOf(lines, tag) * cycle
    ensures Lookup(Before(lines, cycle, scans, k + j), tag) == Some(x - j * LinesOf(lines, tag) * cycle)
    decreases j
  {
    if j > 0 {
      var n := LinesOf(lines, tag);
      Distributes(j - 1, n, cycle);
      CountdownAfter(lines, cycle, scans, k, j - 1, tag, x);
      var m := k + j - 1;
      assert |scans[m].readings| == |lines| by { assert scans[m] in scans; }
      CountdownSpeed(State(Before(lines, cycle, scans, m), scans[m].pending), lines, scans[m].readings, cycle, tag,
                     x - (j - 1) * n * cycle);
      hide ScanLines, LinesOf, AllSkipped;
    }
  }

  lemma Distributes(j: nat, n: nat, cycle: int)
    requires cycle > 0
    ensures (j + 1) * n * cycle == j * n * cycle + n * cycle && j * n * cycle >= 0 && n * cycle >= 0
  {
    assert (j + 1) * n == j * n + n;
    assert (j * n + n) * cycle == j * n * cycle + n * cycle;
  }

  /**
   Over a run: with countdown x before scan k, no line of the tag is evaluated in the j scans from k on
   if and only if x outlasts one cycle for each line of the tag in each of these scans.
   */
  lemma {:induction false} CountdownLasts(lines: seq<Line>, cycle: int, scans: seq<Scan>, k: nat, j: nat,
                                          tag: Tag, x: int)
    requires cycle > 0 && Fits(lines, scans) && k + j <= |scans|
    requires Lookup(Before(lines, cycle, scans, k), tag) == Some(x) && x > 0
    ensures (forall n | k <= n < k + j :: TagSkipped(lines, cycle, scans, n, tag)) <==>
      j == 0 || x > j * LinesOf(lines, tag) * cycle
    decreases j
  {
    if j > 0 {
      var n, m := LinesOf(lines, tag), k + j - 1;
      Distributes(j - 1, n, cycle);
      hide Before, ScanLines, LinesOf, AllSkipped;
      CountdownLasts(lines, cycle, scans, k, j - 1, tag, x);
      if j == 1 || x > (j - 1) * n * cycle {
        CountdownAfter(lines, cycle, scans, k, j - 1, tag, x);
        assert |scans[m].readings| == |lines| by { assert scans[m] in scans; }
        CountdownSpeed(State(Before(lines, cycle, scans, m), scans[m].pending), lines, scans[m].readings, cycle, tag,
                       x - (j - 1) * n * cycle);
        assert TagSkipped(lines, cycle, scans, m, tag) <==> x > j * n * cycle;
        hide TagSkipped;
        assert k <= m < k + j;
      } else {
        var n' :| k <= n' < k + (j - 1) && !TagSkipped(lines, cycle, scans, n', tag);
        assert k <= n' < k + j;
      }
    }
  }

  /**
   A countdown of c cycles is on time, that is no line of the tag is evaluated in the next c - 1 scans,
   if and only if the tag has one line or only one cycle is left.
   */
  lemma OnTime(lines: seq<Line>, cycle: int, scans: seq<Scan>, k: nat, c: nat, tag: Tag)
    requires cycle > 0 && Fits(lines, scans) && c > 0 && k + (c - 1) <= |scans|
    requires Lookup(Before(lines, cycle, scans, k), tag) == Some(c * cycle)
    ensures LinesOf(lines, tag) > 0
    ensures (forall n | k <= n < k + (c - 1) :: TagSkipped(lines, cycle, scans, n, tag)) <==>
      LinesOf(lines, tag) == 1 || c == 1
  {
    assert c * cycle > 0;
    CountdownHasLine(lines, cycle, scans, k, tag);
    CountdownLasts(lines, cycle, scans, k, c - 1, tag, c * cycle);
    hide Before, LinesOf, TagSkipped, Fits;
    OneLineIsEnough(c, LinesOf(lines, tag), cycle);
  }

  lemma OneLineIsEnough(c: nat, n: nat, cycle: int)
    requires cycle > 0 && c > 0 && n > 0
    ensures c - 1 == 0 || c * cycle > (c - 1) * n * cycle <==> n == 1 || c == 1
  {
    var product := (c - 1) * n;
    FewerCycles(c, n, product);
    ScaledOrder(c, product, cycle);
  }

  lemma FewerCycles(c: nat, n: nat, product: nat)
    requires c > 0 && n > 0 && product == (c - 1) * n
    ensures c - 1 == 0 || c > product <==> n == 1 || c == 1
  {
    if n == 1 {
      assert product == c - 1;
    } else {
      AtLeastTwice(c - 1, n);
    }
  }

  lemma {:induction false} AtLeastTwice(a: nat, n: nat)
    requires n >= 2
    ensures a * n >= 2 * a
    decreases n
  {
    if n > 2 {
      AtLeastTwice(a, n - 1);
      assert a * n == a * (n - 1) + a;
    }
  }

  lemma ScaledOrder(a: nat, b: nat, cycle: int)
    requires cycle > 0
    ensures a * cycle > b * cycle <==> a > b
  {
    assert a * cycle - b * cycle == (a - b) * cycle;
    assert a > b ==> (a - b) * cycle > 0;
    assert a <= b ==> (b - a) * cycle >= 0;
  }

  lemma CountdownHasLine(lines: seq<Line>, cycle: int, scans: seq<Scan>, k: nat, tag: Tag)
    requires cycle > 0 && Fits(lines, scans) && k <= |scans| && tag in Before(lines, cycle, scans, k)
    ensures LinesOf(lines, tag) > 0
  {
    hide Before;
    CountdownsStayOk(lines, cycle, scans, k);
    var line :| line in lines && line.lhs == tag;
    LineCounts(lines, line);
  }

  lemma {:induction false} LineCounts(lines: seq<Line>, line: Line)
    requires line in lines
    ensures LinesOf(lines, line.lhs) > 0
    decreases |lines|
  {
    if lines[0] != line {
      assert line in lines[1..];
      LineCounts(lines[1..], line);
    }
  }

  /** With two lines for the tag the countdown runs twice as fast: a delay of two cycles is over after one. */
  lemma TwoLinesShortenDelay()
    ensures var lines, r := [Line("t", 2, true), Line("t", 2, true)], Reading(Binary(false), Some(Binary(true)));
      var scans := [Scan(map[], [r, r]), Scan(map[], [r, r])];
      Fits(lines, scans) && Differs(scans, 0, 0, lines[0]) && "t" in AfterScan(lines, 1, scans, 1).updated
  {
    var lines, r := [Line("t", 2, true), Line("t", 2, true)], Reading(Binary(false), Some(Binary(true)));
    var scans := [Scan(map[], [r, r]), Scan(map[], [r, r])];
    assert scans[0].readings == [r, r] && scans[1].readings == [r, r];
    var tail := lines[1..];
    assert tail == [lines[1]] && tail[1..] == [] && [r, r][1..] == [r];
    var first := ScanLine(State(map[], map[]), lines[0], r, 1);
    assert AfterScan(lines, 1, scans, 0) == ScanLines(first, tail, [r], 1);
    assert ScanLines(first, tail, [r], 1) == ScanLine(first, lines[1], r, 1);
    var second := ScanLine(State(AfterScan(lines, 1, scans, 0).delayed, map[]), lines[0], r, 1);
    assert AfterScan(lines, 1, scans, 1) == ScanLines(second, tail, [r], 1);
    assert ScanLines(second, tail, [r], 1) == ScanLine(second, lines[1], r, 1);
  }
}
