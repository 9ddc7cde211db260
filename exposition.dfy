/** The reading side of the text-based exposition format, used as the partner
    of `Metrics.Render`: a scraper splits the text into lines and each line
    into blank-separated fields, and recognises HELP and TYPE comments and
    sample lines. */
module Exposition {
  import opened Wrappers
  import opened Text
  import opened Decimal
  import opened Metrics

  /** What a reader makes of one line. */
  datatype LineKind =
    | HelpComment(name: string, words: seq<string>)
    | TypeComment(name: string, metricType: string)
    | SampleValue(name: string, value: string)
    | Unrecognised

  /** Classifies a line by its blank-separated fields: `# HELP name words…`,
      `# TYPE name type`, or `name value` where the name does not start a
      comment. */
  function Classify(line: string): LineKind
  {
    var f := Split(line, ' ');
    if |f| >= 3 && f[0] == "#" && f[1] == "HELP" then HelpComment(f[2], f[3..])
    else if |f| == 4 && f[0] == "#" && f[1] == "TYPE" then TypeComment(f[2], f[3])
    else if |f| == 2 && |f[0]| >= 1 && f[0][0] != '#' then SampleValue(f[0], f[1])
    else Unrecognised
  }

  /** The (name, type) pairs of the TYPE comments among `ls`, in order. */
  function TypeDeclarations(ls: seq<string>): seq<(string, string)>
  {
    if |ls| == 0 then []
    else
      match Classify(ls[0])
      case TypeComment(n, t) => [(n, t)] + TypeDeclarations(ls[1..])
      case _ => TypeDeclarations(ls[1..])
  }

  /** The value of the sample line `line` if it reports metric k. */
  function SampleOf(line: string, k: nat): Option<string>
    requires k < GaugeCount
  {
    match Classify(line)
    case SampleValue(n, v) => if n == MetricNames[k] then Some(v) else None
    case _ => None
  }

  function NatSampleOf(line: string, k: nat): Option<nat>
    requires k < GaugeCount
  {
    match SampleOf(line, k)
    case Some(v) => ParseNat(v)
    case None => None
  }

  function IntSampleOf(line: string, k: nat): Option<int>
    requires k < GaugeCount
  {
    match SampleOf(line, k)
    case Some(v) => ParseInt(v)
    case None => None
  }

  /** True when the HELP and TYPE lines of every block are the fixed ones. */
  predicate FixedLinesMatch(ls: seq<string>)
    requires |ls| == 3 * GaugeCount
  {
    forall k :: 0 <= k < GaugeCount ==> ls[3 * k] == HelpLine(k) && ls[3 * k + 1] == TypeLine(k)
  }

  /** Reads the five values back out of the value lines of `ls`. */
  function ReadValues(ls: seq<string>): Option<Snapshot>
    requires |ls| == 3 * GaugeCount
  {
    var cpu := SampleOf(ls[2], 0);
    var memoryTotal := NatSampleOf(ls[5], 1);
    var memoryUsed := IntSampleOf(ls[8], 2);
    var diskTotal := NatSampleOf(ls[11], 3);
    var diskUsed := NatSampleOf(ls[14], 4);
    if cpu.Some? && IsFloatToken(cpu.value) && memoryTotal.Some? && memoryUsed.Some?
       && diskTotal.Some? && diskUsed.Some?
    then Some(Snapshot(cpu.value, memoryTotal.value, memoryUsed.value, diskTotal.value, diskUsed.value))
    else None
  }

  /** Reads the five values back out of a metrics text, or refuses it. */
  function ParseMetrics(text: string): Option<Snapshot>
  {
    var ls := Split(text, '\n');
    if |ls| != 3 * GaugeCount || !FixedLinesMatch(ls) then None
    else ReadValues(ls)
  }

  /** The TYPE declarations the served text must carry: one gauge per metric, in order. */
  function GaugeDeclarations(): (ds: seq<(string, string)>)
    ensures |ds| == GaugeCount
  {
    seq(GaugeCount, k requires 0 <= k < GaugeCount => (MetricNames[k], "gauge"))
  }

  /** The kind every line of the served text must have: line 3k is metric k's
      HELP comment, line 3k+1 its TYPE comment declaring a gauge, line 3k+2
      its sample. */
  function ExpectedKind(s: Snapshot, i: nat): LineKind
    requires i < 3 * GaugeCount
  {
    var k := i / 3;
    if i % 3 == 0 then HelpComment(MetricNames[k], Split(HelpTexts[k], ' '))
    else if i % 3 == 1 then TypeComment(MetricNames[k], "gauge")
    else SampleValue(MetricNames[k], ValueText(s, k))
  }

  lemma HelpFields(name: string, text: string)
    requires ' ' !in name
    ensures Split("# HELP " + name + " " + text, ' ') == ["#", "HELP", name] + Split(text, ' ')
  {
    var s3 := name + [' '] + text;
    var s2 := "HELP" + [' '] + s3;
    var s1 := "#" + [' '] + s2;
    assert Split(s3, ' ') == [name] + Split(text, ' ') by { SplitAtFirst(name, text, ' '); }
    assert Split(s2, ' ') == ["HELP"] + Split(s3, ' ') by { SplitAtFirst("HELP", s3, ' '); }
    assert Split(s1, ' ') == ["#"] + Split(s2, ' ') by { SplitAtFirst("#", s2, ' '); }
    assert s1 == "# HELP " + name + " " + text;
  }

  lemma ClassifyHelp(name: string, text: string)
    requires ' ' !in name
    ensures Classify("# HELP " + name + " " + text) == HelpComment(name, Split(text, ' '))
  {
    HelpFields(name, text);
    var f := ["#", "HELP", name] + Split(text, ' ');
    assert f[0] == "#" && f[1] == "HELP" && f[2] == name && f[3..] == Split(text, ' ');
  }

  lemma TypeFields(name: string)
    requires ' ' !in name
    ensures Split("# TYPE " + name + " gauge", ' ') == ["#", "TYPE", name, "gauge"]
  {
    var s3 := name + [' '] + "gauge";
    var s2 := "TYPE" + [' '] + s3;
    var s1 := "#" + [' '] + s2;
    assert Split(s3, ' ') == [name, "gauge"] by {
      SplitNoSep("gauge", ' ');
      SplitAtFirst(name, "gauge", ' ');
    }
    assert Split(s2, ' ') == ["TYPE"] + Split(s3, ' ') by { SplitAtFirst("TYPE", s3, ' '); }
    assert Split(s1, ' ') == ["#"] + Split(s2, ' ') by { SplitAtFirst("#", s2, ' '); }
    assert s1 == "# TYPE " + name + " gauge";
  }

  lemma ClassifyType(name: string)
    requires ' ' !in name
    ensures Classify("# TYPE " + name + " gauge") == TypeComment(name, "gauge")
  {
    TypeFields(name);
    assert "TYPE" != "HELP";
  }

  lemma ClassifySample(name: string, v: string)
    requires |name| >= 1 && name[0] != '#' && ' ' !in name
    requires ' ' !in v
    ensures Classify(name + " " + v) == SampleValue(name, v)
  {
    SplitNoSep(v, ' ');
    SplitAtFirst(name, v, ' ');
    assert name != "#";
  }

  /** The three lines of block k have the kinds HELP, TYPE gauge and sample,
      all naming metric k. */
  lemma ClassifyBlock(s: Snapshot, k: nat)
    requires k < GaugeCount
    ensures Classify(Lines(s)[3 * k]) == HelpComment(MetricNames[k], Split(HelpTexts[k], ' '))
    ensures Classify(Lines(s)[3 * k + 1]) == TypeComment(MetricNames[k], "gauge")
    ensures Classify(Lines(s)[3 * k + 2]) == SampleValue(MetricNames[k], ValueText(s, k))
  {
    LinesLayout(s, k);
    FixedTextsClean(k);
    ValueTextIsToken(s, k);
    ClassifyHelp(MetricNames[k], HelpTexts[k]);
    ClassifyType(MetricNames[k]);
    ClassifySample(MetricNames[k], ValueText(s, k));
  }

  /** Each of the fifteen lines has the kind its position calls for. */
  lemma ClassifyLines(s: Snapshot, i: nat)
    requires i < 3 * GaugeCount
    ensures Classify(Lines(s)[i]) == ExpectedKind(s, i)
  {
    var k := i / 3;
    ClassifyBlock(s, k);
    if i % 3 == 0 {
      assert i == 3 * k;
    } else if i % 3 == 1 {
      assert i == 3 * k + 1;
    } else {
      assert i == 3 * k + 2;
    }
  }

  /** Read line by line, the served text is five blocks in the fixed metric
      order, each a HELP comment, a TYPE comment declaring a gauge and a
      sample, all three naming the block's metric; in particular TYPE
      comments stand exactly at lines 1, 4, 7, 10 and 13. */
  lemma RenderedLineKinds(s: Snapshot, i: nat)
    requires i < 3 * GaugeCount
    ensures var ls := Split(Render(s), '\n');
      |ls| == 3 * GaugeCount && Classify(ls[i]) == ExpectedKind(s, i)
    ensures var ls := Split(Render(s), '\n');
      |ls| == 3 * GaugeCount && (Classify(ls[i]).TypeComment? <==> i % 3 == 1)
  {
    SplitRender(s);
    ClassifyLines(s, i);
  }

  lemma TypeDeclarationsStep(ls: seq<string>)
    requires |ls| >= 1
    ensures TypeDeclarations(ls) ==
      (if Classify(ls[0]).TypeComment? then [(Classify(ls[0]).name, Classify(ls[0]).metricType)] else [])
      + TypeDeclarations(ls[1..])
  {
  }

  /** A block of three lines with only its middle one a TYPE comment adds
      exactly that declaration. */
  lemma TypeDeclarationsBlock(ls: seq<string>, i: nat)
    requires i + 3 <= |ls|
    requires !Classify(ls[i]).TypeComment? && Classify(ls[i + 1]).TypeComment?
    requires !Classify(ls[i + 2]).TypeComment?
    ensures TypeDeclarations(ls[i..]) ==
      [(Classify(ls[i + 1]).name, Classify(ls[i + 1]).metricType)] + TypeDeclarations(ls[i + 3..])
  {
    TypeDeclarationsStep(ls[i..]);
    assert ls[i..][1..] == ls[i + 1..];
    TypeDeclarationsStep(ls[i + 1..]);
    assert ls[i + 1..][1..] == ls[i + 2..];
    TypeDeclarationsStep(ls[i + 2..]);
    assert ls[i + 2..][1..] == ls[i + 3..];
  }

  /** Lines whose blocks hold a TYPE gauge comment in the middle only. */
  predicate TypedBlocks(ls: seq<string>)
  {
    |ls| == 3 * GaugeCount &&
    forall k :: 0 <= k < GaugeCount ==>
      && !Classify(ls[3 * k]).TypeComment?
      && Classify(ls[3 * k + 1]) == TypeComment(MetricNames[k], "gauge")
      && !Classify(ls[3 * k + 2]).TypeComment?
  }

  lemma {:induction false} TypeDeclarationsFrom(ls: seq<string>, m: nat)
    requires TypedBlocks(ls) && m <= GaugeCount
    ensures TypeDeclarations(ls[3 * m..]) == GaugeDeclarations()[m..]
    decreases GaugeCount - m
  {
    if m < GaugeCount {
      TypeDeclarationsFrom(ls, m + 1);
      var i := 3 * m;
      assert !Classify(ls[i]).TypeComment? && !Classify(ls[i + 2]).TypeComment?;
      assert Classify(ls[i + 1]) == TypeComment(MetricNames[m], "gauge");
      TypeDeclarationsBlock(ls, i);
      assert GaugeDeclarations()[m..] == [GaugeDeclarations()[m]] + GaugeDeclarations()[m + 1..];
    }
  }

  /** The served text declares exactly five metrics, all gauges, in the order
      cpu_usage, memory_total, memory_used, disk_total, disk_used. */
  lemma TypeDeclarationsOfRender(s: Snapshot)
    ensures var ds := TypeDeclarations(Split(Render(s), '\n'));
      |ds| == GaugeCount && forall k :: 0 <= k < GaugeCount ==> ds[k] == (MetricNames[k], "gauge")
  {
    var ls := Split(Render(s), '\n');
    SplitRender(s);
    forall k | 0 <= k < GaugeCount
      ensures !Classify(ls[3 * k]).TypeComment?
      ensures Classify(ls[3 * k + 1]) == TypeComment(MetricNames[k], "gauge")
      ensures !Classify(ls[3 * k + 2]).TypeComment?
    {
      ClassifyBlock(s, k);
    }
    TypeDeclarationsFrom(ls, 0);
    assert ls[0..] == ls;
  }

  /** `ls` consists of the five blocks that `s` renders. */
  predicate IsBlocksOf(ls: seq<string>, s: Snapshot)
  {
    |ls| == 3 * GaugeCount &&
    forall k :: 0 <= k < GaugeCount ==>
      ls[3 * k] == HelpLine(k) && ls[3 * k + 1] == TypeLine(k) && ls[3 * k + 2] == SampleLine(k, ValueText(s, k))
  }

  lemma LinesAreBlocks(s: Snapshot)
    ensures IsBlocksOf(Lines(s), s)
  {
    forall k | 0 <= k < GaugeCount
      ensures Lines(s)[3 * k] == HelpLine(k) && Lines(s)[3 * k + 1] == TypeLine(k)
      ensures Lines(s)[3 * k + 2] == SampleLine(k, ValueText(s, k))
    {
      LinesLayout(s, k);
    }
  }

  /** The blocks fix every line. */
  lemma BlocksDetermineLines(ls: seq<string>, s: Snapshot)
    requires IsBlocksOf(ls, s)
    ensures ls == Lines(s)
  {
    var ms := Lines(s);
    LinesAreBlocks(s);
    forall i | 0 <= i < |ls|
      ensures ls[i] == ms[i]
    {
      var k := i / 3;
      assert i == 3 * k || i == 3 * k + 1 || i == 3 * k + 2;
    }
  }

  lemma SampleOfSampleLine(k: nat, v: string)
    requires k < GaugeCount && ' ' !in v
    ensures SampleOf(SampleLine(k, v), k) == Some(v)
  {
    FixedTextsClean(k);
    ClassifySample(MetricNames[k], v);
  }

  /** The value lines of the rendered blocks read back as the values. */
  lemma ReadValuesOfBlocks(ls: seq<string>, s: Snapshot)
    requires IsBlocksOf(ls, s)
    ensures ReadValues(ls) == Some(s)
  {
    forall k | 0 <= k < GaugeCount
      ensures SampleOf(ls[3 * k + 2], k) == Some(ValueText(s, k))
    {
      ValueTextIsToken(s, k);
      SampleOfSampleLine(k, ValueText(s, k));
    }
    assert SampleOf(ls[2], 0) == Some(ValueText(s, 0));
    assert NatSampleOf(ls[5], 1) == Some(s.memoryTotal) by {
      assert SampleOf(ls[5], 1) == Some(ValueText(s, 1));
      ParseNatToString(s.memoryTotal);
    }
    assert IntSampleOf(ls[8], 2) == Some(s.memoryUsed) by {
      assert SampleOf(ls[8], 2) == Some(ValueText(s, 2));
      ParseIntToString(s.memoryUsed);
    }
    assert NatSampleOf(ls[11], 3) == Some(s.diskTotal) by {
      assert SampleOf(ls[11], 3) == Some(ValueText(s, 3));
      ParseNatToString(s.diskTotal);
    }
    assert NatSampleOf(ls[14], 4) == Some(s.diskUsed) by {
      assert SampleOf(ls[14], 4) == Some(ValueText(s, 4));
      ParseNatToString(s.diskUsed);
    }
  }

  /** Reading the rendered text gives back every value it was rendered from. */
  lemma ParseRender(s: Snapshot)
    ensures ParseMetrics(Render(s)) == Some(s)
  {
    var ls := Split(Render(s), '\n');
    SplitRender(s);
    LinesAreBlocks(s);
    assert FixedLinesMatch(ls);
    ReadValuesOfBlocks(ls, s);
  }

  /** A sample line is the name, one blank and the value. */
  lemma SampleLineOfClassify(line: string, name: string, v: string)
    requires Classify(line) == SampleValue(name, v)
    ensures line == name + " " + v
  {
    JoinSplit(line, ' ');
  }

  /** What an accepted text's lines are: the fixed HELP and TYPE lines, and
      sample lines whose values are the texts of the values read. */
  lemma ParsedLines(text: string, s: Snapshot)
    requires ParseMetrics(text) == Some(s)
    ensures var ls := Split(text, '\n');
      |ls| == 3 * GaugeCount && FixedLinesMatch(ls) &&
      forall k :: 0 <= k < GaugeCount ==> SampleOf(ls[3 * k + 2], k) == Some(ValueText(s, k))
  {
    var ls := Split(text, '\n');
    ReadValuesLines(ls, s);
  }

  lemma ReadValuesLines(ls: seq<string>, s: Snapshot)
    requires |ls| == 3 * GaugeCount && ReadValues(ls) == Some(s)
    ensures forall k :: 0 <= k < GaugeCount ==> SampleOf(ls[3 * k + 2], k) == Some(ValueText(s, k))
  {
    assert SampleOf(ls[2], 0) == Some(ValueText(s, 0));
    assert SampleOf(ls[5], 1) == Some(ValueText(s, 1)) by { NatSampleText(ls[5], 1); }
    assert SampleOf(ls[8], 2) == Some(ValueText(s, 2)) by { IntSampleText(ls[8], 2); }
    assert SampleOf(ls[11], 3) == Some(ValueText(s, 3)) by { NatSampleText(ls[11], 3); }
    assert SampleOf(ls[14], 4) == Some(ValueText(s, 4)) by { NatSampleText(ls[14], 4); }
    forall k | 0 <= k < GaugeCount
      ensures SampleOf(ls[3 * k + 2], k) == Some(ValueText(s, k))
    {
      assert k == 0 || k == 1 || k == 2 || k == 3 || k == 4;
    }
  }

  /** A natural value that is read was written as its own decimal text. */
  lemma NatSampleText(line: string, k: nat)
    requires k < GaugeCount && NatSampleOf(line, k).Some?
    ensures SampleOf(line, k) == Some(NatToString(NatSampleOf(line, k).value))
  {
    NatToStringParse(SampleOf(line, k).value);
  }

  /** An integer value that is read was written as its own decimal text. */
  lemma IntSampleText(line: string, k: nat)
    requires k < GaugeCount && IntSampleOf(line, k).Some?
    ensures SampleOf(line, k) == Some(IntToString(IntSampleOf(line, k).value))
  {
    IntToStringParse(SampleOf(line, k).value);
  }

  /** The value line of metric k in an accepted text is the one `s` renders. */
  lemma ParsedSampleLine(line: string, s: Snapshot, k: nat)
    requires k < GaugeCount
    requires SampleOf(line, k) == Some(ValueText(s, k))
    ensures line == SampleLine(k, ValueText(s, k))
  {
    match Classify(line)
    case SampleValue(n, v) =>
      SampleLineOfClassify(line, n, v);
    case _ =>
  }

  /** Every text the reader accepts is exactly the rendering of what it read:
      the reader accepts one text per snapshot and nothing else. */
  lemma RenderParse(text: string, s: Snapshot)
    requires ParseMetrics(text) == Some(s)
    ensures Render(s) == text
  {
    var ls := Split(text, '\n');
    ParsedLines(text, s);
    forall k | 0 <= k < GaugeCount
      ensures ls[3 * k + 2] == SampleLine(k, ValueText(s, k))
    {
      ParsedSampleLine(ls[3 * k + 2], s, k);
    }
    BlocksDetermineLines(ls, s);
    JoinSplit(text, '\n');
  }

  /** The reader and the renderer are inverse to each other. */
  lemma ParseMetricsIffRender(text: string, s: Snapshot)
    ensures ParseMetrics(text) == Some(s) <==> Render(s) == text
  {
    if ParseMetrics(text) == Some(s) {
      RenderParse(text, s);
    }
    if Render(s) == text {
      ParseRender(s);
    }
  }
}
