/** The metrics text of `generate_metrics` (main.py): five gauges written in
    the Prometheus text-based exposition format, one `# HELP` line, one
    `# TYPE` line and one sample line per gauge, joined with newlines. */
module Metrics {
  import opened Text
  import opened Decimal

  /** The text Python's float `repr` gives the CPU percentage. The model does
      not compute it; it relies only on what every such text is: at least one
      character, and no blank or newline among them. */
  predicate IsFloatToken(s: string)
  {
    |s| >= 1 && forall i :: 0 <= i < |s| ==> s[i] != ' ' && s[i] != '\n'
  }

  type FloatText = s: string | IsFloatToken(s) witness "0.0"

  /** The operating-system readings one call of `generate_metrics` takes:
      `psutil.cpu_percent()`, the `total` and `available` fields of
      `psutil.virtual_memory()`, and the `total` and `used` fields of
      `psutil.disk_usage("/")`. */
  datatype Readings = Readings(
    cpuPercent: FloatText,
    memoryTotal: nat,
    memoryAvailable: nat,
    diskTotal: nat,
    diskUsed: nat)

  /** The five values the text reports. `memoryUsed` is Python's integer
      difference, which nothing but the operating system keeps non-negative. */
  datatype Snapshot = Snapshot(
    cpuUsage: FloatText,
    memoryTotal: nat,
    memoryUsed: int,
    diskTotal: nat,
    diskUsed: nat)

  /** The values `generate_metrics` derives from the readings. */
  function Sample(r: Readings): (s: Snapshot)
    ensures s.memoryUsed + r.memoryAvailable == s.memoryTotal == r.memoryTotal
    ensures r.memoryAvailable <= r.memoryTotal ==> 0 <= s.memoryUsed <= s.memoryTotal
    ensures r.memoryAvailable > r.memoryTotal ==> s.memoryUsed < 0
    ensures s.cpuUsage == r.cpuPercent && s.diskTotal == r.diskTotal && s.diskUsed == r.diskUsed
  {
    Snapshot(r.cpuPercent, r.memoryTotal, r.memoryTotal - r.memoryAvailable, r.diskTotal, r.diskUsed)
  }

  /** The metric names, in the order the text reports them. */
  const MetricNames: seq<string> :=
    ["cpu_usage", "memory_total", "memory_used", "disk_total", "disk_used"]

  /** The `# HELP` descriptions, in the same order. */
  const HelpTexts: seq<string> :=
    ["CPU usage percentage", "Total system memory in bytes", "Used system memory in bytes",
     "Total disk space in bytes", "Used disk space in bytes"]

  const GaugeCount := 5

  /** The text of the k-th value, as the f-string placeholder writes it. */
  function ValueText(s: Snapshot, k: nat): string
    requires k < GaugeCount
  {
    if k == 0 then s.cpuUsage
    else if k == 1 then NatToString(s.memoryTotal)
    else if k == 2 then IntToString(s.memoryUsed)
    else if k == 3 then NatToString(s.diskTotal)
    else NatToString(s.diskUsed)
  }

  /** `# HELP <name> <description>` for the k-th metric. */
  function HelpLine(k: nat): string
    requires k < GaugeCount
  {
    "# HELP " + MetricNames[k] + " " + HelpTexts[k]
  }

  /** `# TYPE <name> gauge` for the k-th metric. */
  function TypeLine(k: nat): string
    requires k < GaugeCount
  {
    "# TYPE " + MetricNames[k] + " gauge"
  }

  /** `<name> <value>` for the k-th metric. */
  function SampleLine(k: nat, value: string): string
    requires k < GaugeCount
  {
    MetricNames[k] + " " + value
  }

  /** The list of lines `generate_metrics` builds: line for line the source's
      literal list, with each fixed string spelt as name and description. */
  function Lines(s: Snapshot): (ls: seq<string>)
    ensures |ls| == 3 * GaugeCount
  {
    [
      HelpLine(0), TypeLine(0), SampleLine(0, ValueText(s, 0)),
      HelpLine(1), TypeLine(1), SampleLine(1, ValueText(s, 1)),
      HelpLine(2), TypeLine(2), SampleLine(2, ValueText(s, 2)),
      HelpLine(3), TypeLine(3), SampleLine(3, ValueText(s, 3)),
      HelpLine(4), TypeLine(4), SampleLine(4, ValueText(s, 4))
    ]
  }

  /** The text the handler serves: the lines joined with a newline. */
  function Render(s: Snapshot): string
  {
    Join(Lines(s), '\n')
  }

  /** `generate_metrics()` with the operating system's answers as arguments. */
  function GenerateMetrics(r: Readings): string
  {
    Render(Sample(r))
  }

  /** Line 3k, 3k+1 and 3k+2 are the HELP, TYPE and sample line of metric k.
      This indexes the list `Lines` writes out; the statement of the layout
      that is independent of that list, read off the text by its fields, is
      `Exposition.ClassifyLines`. */
  lemma LinesLayout(s: Snapshot, k: nat)
    requires k < GaugeCount
    ensures Lines(s)[3 * k] == HelpLine(k)
    ensures Lines(s)[3 * k + 1] == TypeLine(k)
    ensures Lines(s)[3 * k + 2] == SampleLine(k, ValueText(s, k))
  {
  }

  /** No character of a canonical numeral is a blank or a newline. */
  lemma DigitsAreTokens(s: string)
    requires AllDigits(s)
    ensures ' ' !in s && '\n' !in s
  {
    assert forall i :: 0 <= i < |s| ==> IsDigit(s[i]);
  }

  /** Every value is a single non-empty token: no blank and no newline. */
  lemma ValueTextIsToken(s: Snapshot, k: nat)
    requires k < GaugeCount
    ensures |ValueText(s, k)| >= 1
    ensures ' ' !in ValueText(s, k) && '\n' !in ValueText(s, k)
  {
    if k == 0 {
      assert IsFloatToken(s.cpuUsage);
    } else if k == 2 {
      var t := IntToString(s.memoryUsed);
      if s.memoryUsed < 0 {
        DigitsAreTokens(NatToString(-s.memoryUsed));
        assert t == "-" + NatToString(-s.memoryUsed);
      } else {
        DigitsAreTokens(t);
      }
    } else {
      DigitsAreTokens(ValueText(s, k));
    }
  }

  /** The names hold neither blank nor newline, the descriptions no newline. */
  lemma FixedTextsClean(k: nat)
    requires k < GaugeCount
    ensures |MetricNames[k]| >= 1 && MetricNames[k][0] != '#'
    ensures ' ' !in MetricNames[k] && '\n' !in MetricNames[k] && '\n' !in HelpTexts[k]
  {
    NamesClean(k);
    HelpTextsClean(k);
  }

  lemma NamesClean(k: nat)
    requires k < GaugeCount
    ensures |MetricNames[k]| >= 1 && MetricNames[k][0] != '#'
    ensures ' ' !in MetricNames[k] && '\n' !in MetricNames[k]
  {
    if k == 0 {
      assert ' ' !in "cpu_usage" && '\n' !in "cpu_usage";
    } else if k == 1 {
      assert ' ' !in "memory_total" && '\n' !in "memory_total";
    } else if k == 2 {
      assert ' ' !in "memory_used" && '\n' !in "memory_used";
    } else if k == 3 {
      assert ' ' !in "disk_total" && '\n' !in "disk_total";
    } else {
      assert ' ' !in "disk_used" && '\n' !in "disk_used";
    }
  }

  lemma HelpTextsClean(k: nat)
    requires k < GaugeCount
    ensures '\n' !in HelpTexts[k]
  {
    if k == 0 {
      assert '\n' !in "CPU usage percentage";
    } else if k == 1 {
      assert '\n' !in "Total system memory in bytes";
    } else if k == 2 {
      assert '\n' !in "Used system memory in bytes";
    } else if k == 3 {
      assert '\n' !in "Total disk space in bytes";
    } else {
      assert '\n' !in "Used disk space in bytes";
    }
  }

  /** No line holds a newline, so each survives the join whole. */
  lemma {:induction false} LinesHaveNoNewline(s: Snapshot)
    ensures forall i :: 0 <= i < |Lines(s)| ==> '\n' !in Lines(s)[i]
  {
    forall k | 0 <= k < GaugeCount
      ensures '\n' !in HelpLine(k) && '\n' !in TypeLine(k) && '\n' !in SampleLine(k, ValueText(s, k))
    {
      FixedTextsClean(k);
      ValueTextIsToken(s, k);
    }
    forall i | 0 <= i < |Lines(s)|
      ensures '\n' !in Lines(s)[i]
    {
      var k := i / 3;
      LinesLayout(s, k);
      assert i == 3 * k || i == 3 * k + 1 || i == 3 * k + 2;
    }
  }

  /** Splitting the served text at its newlines gives back the fifteen lines. */
  lemma SplitRender(s: Snapshot)
    ensures Split(Render(s), '\n') == Lines(s)
  {
    LinesHaveNoNewline(s);
    SplitJoin(Lines(s), '\n');
  }

  /** The text holds exactly fourteen newlines: one between each two of the
      fifteen lines, none at the end. */
  lemma RenderNewlines(s: Snapshot)
    ensures Count(Render(s), '\n') == 3 * GaugeCount - 1
    ensures |Render(s)| >= 1 && Render(s)[|Render(s)| - 1] != '\n'
  {
    LinesHaveNoNewline(s);
    CountJoin(Lines(s), '\n');
    RenderEndsWithLastLine(Lines(s));
    LinesLayout(s, GaugeCount - 1);
    ValueTextIsToken(s, GaugeCount - 1);
  }

  lemma {:induction false} RenderEndsWithLastLine(ls: seq<string>)
    requires |ls| >= 1 && |ls[|ls| - 1]| >= 1
    ensures var t := Join(ls, '\n'); |t| >= 1 && t[|t| - 1] == ls[|ls| - 1][|ls[|ls| - 1]| - 1]
  {
    if |ls| > 1 {
      RenderEndsWithLastLine(ls[1..]);
    }
  }
}
