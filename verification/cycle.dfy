/**
 * One check cycle, as the monitor's `job` runs it: classify every target in
 * order, collect the down ones, render the summary and the alert, and send
 * the alert only when something is down.
 */
module Cycle {
  import opened Wrappers
  import opened Text
  import opened Classifier

  /** One configured target together with what probing it produced this cycle. */
  datatype Probed = Probed(url: string, outcome: ProbeOutcome)

  datatype Template = Template(subject: string, body: string)

  /** One dispatch of the alert mail. */
  datatype Alert = Alert(subject: string, body: string)

  datatype CycleReport = CycleReport(
    downEntries: seq<string>,
    summary: string,
    /** The dispatch events of the cycle, in order. */
    sends: seq<Alert>,
    /** Rendering a template raised, which ends the cycle before the dispatch decision. */
    renderFailed: bool)

  /**
   * Python's `str.format` with keyword arguments: the rendered text, or None
   * when formatting raises (an unknown placeholder, unbalanced braces).
   */
  type Formatter = (string, map<string, string>) -> Option<string>

  const AllUpSummary := "All websites are up and running."

  predicate IsDown(c: Probed) {
    !Classify(c.outcome).alive
  }

  /** The line a down target contributes: `"{url}: {message}"`. */
  function Entry(c: Probed): (e: string)
    ensures StartsWith(e, c.url)
    ensures |e| > |c.url| && e[|c.url|] == ':'
  {
    c.url + ": " + Classify(c.outcome).message
  }

  /** Positions of the down targets, in increasing order. */
  function DownIndices(cs: seq<Probed>): (idx: seq<nat>)
    ensures forall k :: 0 <= k < |idx| ==> idx[k] < |cs| && IsDown(cs[idx[k]])
    ensures forall k, l :: 0 <= k < l < |idx| ==> idx[k] < idx[l]
    ensures forall i :: 0 <= i < |cs| && IsDown(cs[i]) ==> i in idx
    decreases |cs|
  {
    if cs == [] then []
    else
      var n := |cs| - 1;
      DownIndices(cs[..n]) + (if IsDown(cs[n]) then [n] else [])
  }

  /** The entries of the down targets, in input order, as the loop in `job` appends them. */
  function DownEntries(cs: seq<Probed>): (r: seq<string>)
    ensures |r| <= |cs|
    decreases |cs|
  {
    if cs == [] then []
    else
      var n := |cs| - 1;
      DownEntries(cs[..n]) + (if IsDown(cs[n]) then [Entry(cs[n])] else [])
  }

  /**
   * The entries are exactly those of the down targets, in input order: the
   * k-th entry belongs to the k-th down position.
   */
  lemma {:induction false} DownEntriesAtDownIndices(cs: seq<Probed>)
    ensures |DownEntries(cs)| == |DownIndices(cs)|
    ensures forall k :: 0 <= k < |DownIndices(cs)| ==> DownEntries(cs)[k] == Entry(cs[DownIndices(cs)[k]])
    decreases |cs|
  {
    if cs != [] {
      var n := |cs| - 1;
      var pre := cs[..n];
      DownEntriesAtDownIndices(pre);
      var e := DownEntries(cs);
      var idx := DownIndices(cs);
      var e0 := DownEntries(pre);
      var idx0 := DownIndices(pre);
      if IsDown(cs[n]) {
        assert e == e0 + [Entry(cs[n])];
        assert idx == idx0 + [n];
      } else {
        assert e == e0;
        assert idx == idx0;
      }
      forall k | 0 <= k < |idx0|
        ensures e[k] == Entry(cs[idx[k]])
      {
        assert idx[k] == idx0[k];
        assert e[k] == e0[k];
        assert pre[idx0[k]] == cs[idx0[k]];
      }
    }
  }

  /** Nothing is listed exactly when every target is up. */
  lemma DownEntriesEmptyIffAllUp(cs: seq<Probed>)
    ensures DownEntries(cs) == [] <==> forall i :: 0 <= i < |cs| ==> !IsDown(cs[i])
  {
    DownEntriesAtDownIndices(cs);
    var idx := DownIndices(cs);
    if idx != [] {
      assert IsDown(cs[idx[0]]);
    }
  }

  /** An up target's position never appears among the listed ones. */
  lemma UpTargetsNotListed(cs: seq<Probed>, i: nat)
    requires i < |cs| && !IsDown(cs[i])
    ensures i !in DownIndices(cs)
  {
  }

  /** Collecting over two consecutive stretches of targets concatenates their entries. */
  lemma {:induction false} DownEntriesAppend(a: seq<Probed>, b: seq<Probed>)
    ensures DownEntries(a + b) == DownEntries(a) + DownEntries(b)
    decreases |b|
  {
    if b == [] {
      assert a + b == a;
    } else {
      var n := |b| - 1;
      assert (a + b)[..|a + b| - 1] == a + b[..n];
      assert (a + b)[|a + b| - 1] == b[n];
      DownEntriesAppend(a, b[..n]);
    }
  }

  /**
   * The text the alert body lists under `down_websites`: the fixed sentence
   * when nothing is down, otherwise the lines themselves, one per line.
   */
  function Summary(entries: seq<string>): (r: string)
    ensures entries == [] ==> r == AllUpSummary
    ensures entries != [] ==> StartsWith(r, entries[0])
    ensures entries != [] && (forall i :: 0 <= i < |entries| ==> '\n' !in entries[i]) ==> SplitLines(r) == entries
  {
    if entries == [] then AllUpSummary
    else
      SplitJoinLinesWithoutBreaks(entries);
      JoinLines(entries)
  }

  function SubjectArgs(date: string): map<string, string> {
    map["date" := date]
  }

  function BodyArgs(date: string, summary: string): map<string, string> {
    map["date" := date, "down_websites" := summary]
  }

  /**
   * The loop of `job`: classify each target in order and append the entry
   * of every down one.
   */
  method CollectDownEntries(cs: seq<Probed>) returns (down: seq<string>)
    ensures down == DownEntries(cs)
  {
    down := [];
    var i := 0;
    while i < |cs|
      invariant 0 <= i <= |cs|
      invariant down == DownEntries(cs[..i])
    {
      assert cs[..i + 1][..i] == cs[..i];
      assert DownEntries(cs[..i + 1]) == DownEntries(cs[..i]) + (if IsDown(cs[i]) then [Entry(cs[i])] else []);
      var outcome := Classify(cs[i].outcome);
      if !outcome.alive {
        down := down + [cs[i].url + ": " + outcome.message];
      }
      i := i + 1;
    }
    assert cs[..i] == cs;
  }

  /**
   * One whole cycle. The subject and body are rendered before the dispatch
   * decision; if either rendering raises, the cycle ends there without a
   * dispatch. Otherwise exactly one alert goes out when something is down
   * and none when everything is up.
   */
  function RunCycle(cs: seq<Probed>, template: Template, date: string, format: Formatter): (r: CycleReport)
    ensures r.downEntries == DownEntries(cs)
    ensures r.summary == AllUpSummary <==> forall i :: 0 <= i < |cs| ==> !IsDown(cs[i])
    ensures r.downEntries != [] ==> r.summary == JoinLines(r.downEntries)
    ensures r.renderFailed <==>
              format(template.subject, SubjectArgs(date)).None? ||
              format(template.body, BodyArgs(date, r.summary)).None?
    ensures |r.sends| <= 1
    ensures |r.sends| == 1 <==> r.downEntries != [] && !r.renderFailed
    ensures |r.sends| == 1 ==>
              r.sends[0] == Alert(format(template.subject, SubjectArgs(date)).value,
                                  format(template.body, BodyArgs(date, r.summary)).value)
  {
    var entries := DownEntries(cs);
    var summary := Summary(entries);
    SummaryAllUpIffNothingDown(cs);
    var subject := format(template.subject, SubjectArgs(date));
    var body := format(template.body, BodyArgs(date, summary));
    if subject.None? || body.None? then
      CycleReport(entries, summary, [], true)
    else if entries != [] then
      CycleReport(entries, summary, [Alert(subject.value, body.value)], false)
    else
      CycleReport(entries, summary, [], false)
  }

  /** The cycle as a method, with the collection loop of `job`. */
  method Job(cs: seq<Probed>, template: Template, date: string, format: Formatter) returns (r: CycleReport)
    ensures r == RunCycle(cs, template, date, format)
  {
    var entries := CollectDownEntries(cs);
    var subject := format(template.subject, SubjectArgs(date));
    var summary := if entries != [] then JoinLines(entries) else AllUpSummary;
    var body := format(template.body, BodyArgs(date, summary));
    if subject.None? || body.None? {
      return CycleReport(entries, summary, [], true);
    }
    if entries != [] {
      r := CycleReport(entries, summary, [Alert(subject.value, body.value)], false);
    } else {
      r := CycleReport(entries, summary, [], false);
    }
  }

  /** A join whose first line has a colon differs from the all-up sentence, which has none. */
  lemma JoinWithColonIsNotAllUp(xs: seq<string>, j: nat)
    requires |xs| >= 1 && j < |xs[0]| && xs[0][j] == ':'
    ensures JoinLines(xs) != AllUpSummary
  {
    assert JoinLines(xs)[j] == ':';
    assert ':' !in AllUpSummary;
  }

  /** The summary is the fixed all-up sentence exactly when no target is down. */
  lemma {:induction false} SummaryAllUpIffNothingDown(cs: seq<Probed>)
    ensures Summary(DownEntries(cs)) == AllUpSummary <==> forall i :: 0 <= i < |cs| ==> !IsDown(cs[i])
  {
    DownEntriesEmptyIffAllUp(cs);
    var entries := DownEntries(cs);
    if entries != [] {
      DownEntriesAtDownIndices(cs);
      var c := cs[DownIndices(cs)[0]];
      assert entries[0] == Entry(c);
      JoinWithColonIsNotAllUp(entries, |c.url|);
    }
  }

  /**
   * When no down target's line contains a line break, the summary lists one
   * down target per line, in input order.
   */
  lemma {:induction false} SummaryLinesAreEntries(cs: seq<Probed>)
    requires DownEntries(cs) != []
    requires forall i :: 0 <= i < |cs| && IsDown(cs[i]) ==> '\n' !in Entry(cs[i])
    ensures SplitLines(Summary(DownEntries(cs))) == DownEntries(cs)
  {
    var entries := DownEntries(cs);
    var idx := DownIndices(cs);
    DownEntriesAtDownIndices(cs);
    forall k | 0 <= k < |entries|
      ensures '\n' !in entries[k]
    {
      assert entries[k] == Entry(cs[idx[k]]);
    }
    SplitJoinLines(entries);
  }

  /** The dispatch decision: one alert when something is down and rendering succeeded, none otherwise. */
  lemma DispatchGating(cs: seq<Probed>, template: Template, date: string, format: Formatter)
    ensures var r := RunCycle(cs, template, date, format);
            |r.sends| == (if (exists i :: 0 <= i < |cs| && IsDown(cs[i])) && !r.renderFailed then 1 else 0)
  {
    DownEntriesEmptyIffAllUp(cs);
  }

  /**
   * Down entries and summary depend on the probe results only: two cycles
   * over the same results agree on them whatever the date, template or
   * formatter.
   */
  lemma ReportIndependentOfRendering(cs: seq<Probed>, t1: Template, d1: string, f1: Formatter,
                                     t2: Template, d2: string, f2: Formatter)
    ensures RunCycle(cs, t1, d1, f1).downEntries == RunCycle(cs, t2, d2, f2).downEntries
    ensures RunCycle(cs, t1, d1, f1).summary == RunCycle(cs, t2, d2, f2).summary
  {
  }
}
