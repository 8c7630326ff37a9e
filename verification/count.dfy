/**
 The severity tally of the findings reporter: every finding is counted once, under its
 lowercased severity, or under `low` when that is not one of the four names; the threshold
 count adds up the counters from `critical` down to the threshold.
 */
module Count {
  import opened Wrappers
  import Text
  import opened Json
  import JsonText
  import Findings

  /** The four counters, most severe first. */
  datatype Level = Critical | High | Medium | Low

  /** The name of a level, as it appears in findings and on the command line. */
  function Name(l: Level): (r: string)
    ensures r in Findings.Severities
  {
    match l
    case Critical => "critical"
    case High => "high"
    case Medium => "medium"
    case Low => "low"
  }

  /** The level a name stands for, if it is one of the four. */
  function Parse(s: string): (r: Option<Level>)
    ensures r.Some? <==> s in Findings.Severities
  {
    if s == "critical" then Some(Critical)
    else if s == "high" then Some(High)
    else if s == "medium" then Some(Medium)
    else if s == "low" then Some(Low)
    else None
  }

  lemma ParseName(l: Level, s: string)
    ensures Parse(Name(l)) == Some(l)
    ensures Parse(s).Some? ==> Name(Parse(s).value) == s
  {
  }

  /** Position in `SEVERITY_ORDER`. */
  function Rank(l: Level): (r: nat)
    ensures r < |Findings.Severities| && Findings.Severities[r] == Name(l)
  {
    match l
    case Critical => 0
    case High => 1
    case Medium => 2
    case Low => 3
  }

  datatype Counts = Counts(critical: nat, high: nat, medium: nat, low: nat)

  const Zero := Counts(0, 0, 0, 0)

  function Total(c: Counts): nat {
    c.critical + c.high + c.medium + c.low
  }

  /** `counts[Name(l)]`. */
  function CountOf(c: Counts, l: Level): nat {
    match l
    case Critical => c.critical
    case High => c.high
    case Medium => c.medium
    case Low => c.low
  }

  /** The counter a lowercased severity goes to: its own, or `low` for any other name. */
  function Bucket(sev: string): Level {
    Parse(sev).GetOr(Low)
  }

  /** `f.get("severity", "low").lower()`. A finding that is not a dict has no `get` and a
      severity that is not a string has no `lower`: both raise `AttributeError`. */
  function SeverityOf(f: Json): Result<string, PyError> {
    match Get(f, "severity", JStr("low"))
    case Err(e) => Err(e)
    case Ok(v) => if v.JStr? then Ok(Text.Lower(v.s)) else Err(AttributeError)
  }

  /** One more finding under `l`. */
  function Bump(c: Counts, l: Level): Counts {
    match l
    case Critical => c.(critical := c.critical + 1)
    case High => c.(high := c.high + 1)
    case Medium => c.(medium := c.medium + 1)
    case Low => c.(low := c.low + 1)
  }

  /** Bumping a counter adds one to it and leaves the others as they were. */
  lemma BumpOne(c: Counts, l: Level, m: Level)
    ensures CountOf(Bump(c, l), m) == CountOf(c, m) + (if l == m then 1 else 0)
    ensures Total(Bump(c, l)) == Total(c) + 1
  {
  }

  /** The counter each severity goes to. */
  function Buckets(sevs: seq<string>): (r: seq<Level>)
    ensures |r| == |sevs|
    ensures forall k :: 0 <= k < |sevs| ==> r[k] == Bucket(sevs[k])
  {
    seq(|sevs|, k requires 0 <= k < |sevs| => Bucket(sevs[k]))
  }

  /** The counters after the loop, for findings that go to the counters `ls`. */
  function Tally(ls: seq<Level>): (r: Counts)
    ensures Total(r) == |ls|
  {
    if |ls| == 0 then Zero
    else
      var c := Tally(ls[1..]);
      BumpOne(c, ls[0], ls[0]);
      Bump(c, ls[0])
  }

  /** How many times `l` occurs in `ls`. */
  function Occurrences(ls: seq<Level>, l: Level): nat {
    if |ls| == 0 then 0 else (if ls[0] == l then 1 else 0) + Occurrences(ls[1..], l)
  }

  /** Each counter holds exactly the findings that go to it. */
  lemma {:induction false} TallyCountsEach(ls: seq<Level>, l: Level)
    ensures CountOf(Tally(ls), l) == Occurrences(ls, l)
  {
    if |ls| > 0 {
      var rest := ls[1..];
      TallyCountsEach(rest, l);
      BumpOne(Tally(rest), ls[0], l);
    }
  }

  /** The lowercased severity of every finding, or the exception of the first one without. */
  function SeveritiesOf(findings: seq<Json>): Result<seq<string>, PyError> {
    MapAll(SeverityOf, findings)
  }

  /** A finding without a severity counts as low, and so does one whose severity is none of
      the four names. */
  lemma UnnamedCountsAsLow(f: Json)
    requires f.JObj?
    ensures !HasKey(f.fields, "severity") ==> Bucket(SeverityOf(f).value) == Low
    ensures Lookup(f.fields, "severity") == Some(JStr("info")) ==> Bucket(SeverityOf(f).value) == Low
  {
    Text.LowerFixes("low");
    Text.LowerFixes("info");
  }

  /** A capitalised name counts under its own counter. */
  lemma CapitalisedCounts(f: Json)
    requires f.JObj? && Lookup(f.fields, "severity") == Some(JStr("High"))
    ensures Bucket(SeverityOf(f).value) == High
  {
    Text.LowerFixes("igh");
    assert "High"[1..] == "igh";
  }

  /** `SEVERITY_ORDER.index(t)`, which raises `ValueError` for any other name. */
  function IndexOf(t: string): (r: Result<nat, PyError>)
    ensures r.Ok? <==> t in Findings.Severities
    ensures r.Ok? ==> r.value < |Findings.Severities| && Findings.Severities[r.value] == t
  {
    match Parse(t)
    case None => Err(ValueError)
    case Some(l) => Ok(Rank(l))
  }

  /** The counter at a position of `SEVERITY_ORDER`. */
  function At(c: Counts, i: nat): nat
    requires i < |Findings.Severities|
  {
    if i == 0 then c.critical else if i == 1 then c.high else if i == 2 then c.medium else c.low
  }

  /** The sum of the first `n` counters of `SEVERITY_ORDER`. */
  function SumFirst(c: Counts, n: nat): nat
    requires n <= |Findings.Severities|
  {
    if n == 0 then 0 else SumFirst(c, n - 1) + At(c, n - 1)
  }

  /** `sum(counts[s] for s in SEVERITY_ORDER[:SEVERITY_ORDER.index(t) + 1])`. */
  function ThresholdCount(c: Counts, t: string): (r: Result<nat, PyError>)
    ensures r.Ok? <==> t in Findings.Severities
    ensures r.Err? ==> r.error == ValueError
  {
    match IndexOf(t)
    case Err(e) => Err(e)
    case Ok(i) => Ok(SumFirst(c, i + 1))
  }

  lemma {:induction false} SumFirstGrows(c: Counts, m: nat, n: nat)
    requires m <= n <= |Findings.Severities|
    ensures SumFirst(c, m) <= SumFirst(c, n)
    decreases n
  {
    if m < n {
      SumFirstGrows(c, m, n - 1);
    }
  }

  /** A more lenient threshold never counts fewer findings. */
  lemma ThresholdMonotone(c: Counts, strict: string, lenient: string)
    requires IndexOf(strict).Ok? && IndexOf(lenient).Ok? && IndexOf(strict).value <= IndexOf(lenient).value
    ensures ThresholdCount(c, strict).value <= ThresholdCount(c, lenient).value
  {
    SumFirstGrows(c, IndexOf(strict).value + 1, IndexOf(lenient).value + 1);
  }

  /** The threshold count is at most the total; `low` counts everything and `critical` only the
      critical findings. */
  lemma ThresholdBounds(c: Counts, t: string)
    requires t in Findings.Severities
    ensures ThresholdCount(c, t).value <= Total(c)
    ensures ThresholdCount(c, "low") == Ok(Total(c))
    ensures ThresholdCount(c, "critical") == Ok(c.critical)
  {
    SumFirstGrows(c, IndexOf(t).value + 1, 4);
    assert SumFirst(c, 1) == c.critical;
    assert SumFirst(c, 4) == Total(c) by {
      assert SumFirst(c, 2) == c.critical + c.high;
      assert SumFirst(c, 3) == c.critical + c.high + c.medium;
    }
  }

  /** When every finding is critical, every threshold counts all of them. */
  lemma AllCriticalMeetEveryThreshold(c: Counts, t: string)
    requires t in Findings.Severities && c.critical == Total(c)
    ensures ThresholdCount(c, t) == Ok(Total(c))
  {
    ThresholdBounds(c, t);
    SumFirstGrows(c, 1, IndexOf(t).value + 1);
    assert SumFirst(c, 1) == c.critical;
  }

  /** How many of `ls` rank at position `i` of `SEVERITY_ORDER` or before it: the findings at the
      threshold `SEVERITY_ORDER[i]` or above, counted one by one. */
  function AtOrAbove(ls: seq<Level>, i: nat): nat {
    if |ls| == 0 then 0 else (if Rank(ls[0]) <= i then 1 else 0) + AtOrAbove(ls[1..], i)
  }

  /** Bumping a counter raises the sum of the first `n` counters exactly when it is among them. */
  lemma {:induction false} SumFirstBump(c: Counts, l: Level, n: nat)
    requires n <= |Findings.Severities|
    ensures SumFirst(Bump(c, l), n) == SumFirst(c, n) + (if Rank(l) < n then 1 else 0)
  {
    if n > 0 {
      SumFirstBump(c, l, n - 1);
    }
  }

  /** Summing the counters through position `i` counts the findings at that rank or above. */
  lemma {:induction false} SumFirstCountsAtOrAbove(ls: seq<Level>, i: nat)
    requires i < |Findings.Severities|
    ensures SumFirst(Tally(ls), i + 1) == AtOrAbove(ls, i)
  {
    if |ls| == 0 {
      SumFirstZero(i + 1);
    } else {
      SumFirstCountsAtOrAbove(ls[1..], i);
      AtOrAboveStep(ls, i);
    }
  }

  /** One finding more: both sides grow by one exactly when it ranks at `i` or before. */
  lemma AtOrAboveStep(ls: seq<Level>, i: nat)
    requires |ls| > 0 && i < |Findings.Severities|
    requires SumFirst(Tally(ls[1..]), i + 1) == AtOrAbove(ls[1..], i)
    ensures SumFirst(Tally(ls), i + 1) == AtOrAbove(ls, i)
  {
    AtOrAboveFirst(ls, i);
    BumpedSum(Tally(ls[1..]), ls[0], i, AtOrAbove(ls[1..], i));
    assert Tally(ls) == Bump(Tally(ls[1..]), ls[0]);
  }

  lemma BumpedSum(c: Counts, l: Level, i: nat, n: nat)
    requires i < |Findings.Severities| && SumFirst(c, i + 1) == n
    ensures SumFirst(Bump(c, l), i + 1) == n + (if Rank(l) <= i then 1 else 0)
  {
    SumFirstBump(c, l, i + 1);
  }

  lemma AtOrAboveFirst(ls: seq<Level>, i: nat)
    requires |ls| > 0
    ensures AtOrAbove(ls, i) == AtOrAbove(ls[1..], i) + (if Rank(ls[0]) <= i then 1 else 0)
  {
  }

  lemma {:induction false} SumFirstZero(n: nat)
    requires n <= |Findings.Severities|
    ensures SumFirst(Zero, n) == 0
  {
    if n > 0 {
      SumFirstZero(n - 1);
    }
  }

  /** `sum(counts[s] for s in SEVERITY_ORDER[:SEVERITY_ORDER.index(t) + 1])` is the number of
      findings at `t` or above. */
  lemma ThresholdCountsAtOrAbove(ls: seq<Level>, t: string, i: nat)
    requires IndexOf(t) == Ok(i)
    ensures ThresholdCount(Tally(ls), t) == Ok(AtOrAbove(ls, i))
  {
    SumFirstCountsAtOrAbove(ls, i);
    ThresholdCountAt(Tally(ls), t, i, AtOrAbove(ls, i));
  }

  lemma ThresholdCountAt(c: Counts, t: string, i: nat, n: nat)
    requires IndexOf(t) == Ok(i) && SumFirst(c, i + 1) == n
    ensures ThresholdCount(c, t) == Ok(n)
  {
  }

  /** The report printed: the total, the four counters, the threshold and its count. */
  datatype Summary = Summary(total: nat, critical: nat, high: nat, medium: nat, low: nat,
                             threshold: string, thresholdCount: nat)

  /** The threshold argument, lowercased, `high` when it is not given. */
  function Threshold(arg: Option<string>): string {
    Text.Lower(arg.GetOr("high"))
  }

  /** `main`: read the findings, tally them, count those at or above the threshold. A findings
      file that cannot be read or iterated, a finding whose severity cannot be read, and a
      threshold that is none of the four severities each end the run with an exception. */
  function Report(file: JsonFile, threshold: Option<string>): (r: Result<Summary, PyError>)
    ensures r.Ok? <==> (Findings.Read(file).Ok? && SeveritiesOf(Findings.Read(file).value).Ok?
      && Threshold(threshold) in Findings.Severities)
    ensures r.Ok? ==> r.value.total == |Findings.Read(file).value|
    ensures r.Ok? ==> r.value.total == r.value.critical + r.value.high + r.value.medium + r.value.low
    ensures r.Ok? ==> r.value.threshold == Threshold(threshold) && r.value.thresholdCount <= r.value.total
  {
    var t := Threshold(threshold);
    match Findings.Read(file)
    case Err(e) => Err(e)
    case Ok(findings) =>
      match SeveritiesOf(findings)
      case Err(e) => Err(e)
      case Ok(sevs) =>
        var c := Tally(Buckets(sevs));
        match ThresholdCount(c, t)
        case Err(e) => Err(e)
        case Ok(n) =>
          ThresholdBounds(c, t);
          Ok(Summary(Total(c), c.critical, c.high, c.medium, c.low, t, n))
  }

  /** Each counter reported is the number of findings whose lowercased severity names it (any
      other name counting as `low`), and the threshold count is the counters summed through the
      threshold; `ThresholdCountsAtOrAbove` makes that the number of findings at the threshold or
      above. */
  lemma ReportCountsEach(file: JsonFile, threshold: Option<string>, l: Level)
    requires Report(file, threshold).Ok?
    ensures var s := Report(file, threshold).value;
      var levels := Buckets(SeveritiesOf(Findings.Read(file).value).value);
      && CountOf(Counts(s.critical, s.high, s.medium, s.low), l) == Occurrences(levels, l)
      && s.thresholdCount == ThresholdCount(Tally(levels), s.threshold).value
  {
    TallyCountsEach(Buckets(SeveritiesOf(Findings.Read(file).value).value), l);
  }

  /** The summary as the JSON object printed, members in the order written. */
  function SummaryJson(s: Summary): Json {
    JObj([("total", JInt(s.total)), ("critical", JInt(s.critical)), ("high", JInt(s.high)),
          ("medium", JInt(s.medium)), ("low", JInt(s.low)), ("threshold", JStr(s.threshold)),
          ("threshold_count", JInt(s.thresholdCount))])
  }

  /** `json.dumps(result)`. */
  function SummaryText(s: Summary): (r: string)
    ensures Text.IsAscii(r)
  {
    JsonText.Dumps(JsonText.Spaced, SummaryJson(s))
  }

  /** `main`'s output: the summary on one line of ASCII text. */
  function Output(file: JsonFile, threshold: Option<string>): (r: Result<string, PyError>)
    ensures r.Ok? <==> Report(file, threshold).Ok?
    ensures r.Ok? ==> Text.IsAscii(r.value) && |r.value| > 0 && r.value[|r.value| - 1] == '\n'
  {
    var rep := Report(file, threshold);
    if rep.Err? then Err(rep.error) else Ok(SummaryLine(rep.value))
  }

  /** The summary followed by the newline `print` adds. */
  function SummaryLine(s: Summary): (r: string)
    ensures Text.IsAscii(r) && |r| > 0 && r[|r| - 1] == '\n'
  {
    var t := SummaryText(s);
    assert (t + "\n")[|t|] == '\n';
    t + "\n"
  }
}
