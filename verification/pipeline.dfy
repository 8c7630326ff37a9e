/**
 The stages together: what a scanner normaliser writes, the severity counter reads back, and
 every finding is counted under the severity the normaliser gave it.
 */
module Pipeline {
  import opened Wrappers
  import opened Json
  import Text
  import Findings
  import Count
  import Gitleaks
  import Checkov

  /** The four severity names are their own lower case. */
  lemma SeverityNamesAreLower(s: string)
    requires s in Findings.Severities
    ensures Text.Lower(s) == s
  {
    Text.LowerFixes(s);
  }

  /** The counter reads a written finding's severity back unchanged. */
  lemma ReadBySeverity(f: Findings.Finding)
    requires f.severity in Findings.Severities
    ensures Count.SeverityOf(Findings.ToJson(f)) == Ok(f.severity)
  {
    Findings.SeverityReadBack(f);
    SeverityNamesAreLower(f.severity);
  }

  /** The counter each finding goes to, by the severity it was written with. */
  function LevelsOf(fs: seq<Findings.Finding>): (r: seq<Count.Level>)
    ensures |r| == |fs|
  {
    seq(|fs|, k requires 0 <= k < |fs| => Count.Bucket(fs[k].severity))
  }

  /** Counting the written findings: the run succeeds for any of the four thresholds, the total
      is the number of findings and each counter holds the findings written with its severity. */
  lemma CountedAsWritten(fs: seq<Findings.Finding>, threshold: Option<string>, l: Count.Level)
    requires forall k :: 0 <= k < |fs| ==> fs[k].severity in Findings.Severities
    requires Count.Threshold(threshold) in Findings.Severities
    ensures var js := Findings.AllToJson(fs);
      && Count.SeveritiesOf(js).Ok? && Count.Buckets(Count.SeveritiesOf(js).value) == LevelsOf(fs)
    ensures var rep := Count.Report(Parsed(JArr(Findings.AllToJson(fs))), threshold);
      && rep.Ok? && rep.value.total == |fs|
      && Count.CountOf(Count.Counts(rep.value.critical, rep.value.high, rep.value.medium, rep.value.low), l)
         == Count.Occurrences(LevelsOf(fs), l)
      && rep.value.thresholdCount == Count.ThresholdCount(Count.Tally(LevelsOf(fs)), rep.value.threshold).value
  {
    var file := Parsed(JArr(Findings.AllToJson(fs)));
    var js := Findings.AllToJson(fs);
    forall k | 0 <= k < |js| ensures Count.SeverityOf(js[k]) == Ok(fs[k].severity) {
      ReadBySeverity(fs[k]);
    }
    var sevs := Count.SeveritiesOf(js).value;
    assert Count.Buckets(sevs) == LevelsOf(fs);
    Count.ReportCountsEach(file, threshold, l);
  }

  /** A list of findings that all go to one counter fills only that counter. */
  lemma {:induction false} OccurrencesOfOne(ls: seq<Count.Level>, l: Count.Level)
    requires forall k :: 0 <= k < |ls| ==> ls[k] == l
    ensures Count.Occurrences(ls, l) == |ls|
  {
    if |ls| > 0 {
      OccurrencesOfOne(ls[1..], l);
    }
  }

  /** Findings all written with one severity are all counted under it. */
  lemma AllAtOneLevel(fs: seq<Findings.Finding>, threshold: Option<string>, l: Count.Level)
    requires forall k :: 0 <= k < |fs| ==> fs[k].severity == Count.Name(l)
    requires Count.Threshold(threshold) in Findings.Severities
    ensures var rep := Count.Report(Parsed(JArr(Findings.AllToJson(fs))), threshold);
      && rep.Ok? && rep.value.total == |fs|
      && Count.CountOf(Count.Counts(rep.value.critical, rep.value.high, rep.value.medium, rep.value.low), l) == |fs|
    ensures var rep := Count.Report(Parsed(JArr(Findings.AllToJson(fs))), threshold);
      forall m :: m != l ==> Count.CountOf(Count.Counts(rep.value.critical, rep.value.high, rep.value.medium, rep.value.low), m) == 0
  {
    Count.ParseName(l, Count.Name(l));
    CountedAsWritten(fs, threshold, l);
    OccurrencesOfOne(LevelsOf(fs), l);
    var s := Count.Report(Parsed(JArr(Findings.AllToJson(fs))), threshold).value;
    OnlyOneCounter(Count.Counts(s.critical, s.high, s.medium, s.low), l, s.total);
  }

  /** When one counter holds the whole total, the other three are empty. */
  lemma OnlyOneCounter(c: Count.Counts, l: Count.Level, n: nat)
    requires c.critical + c.high + c.medium + c.low == n && Count.CountOf(c, l) == n
    ensures forall m :: m != l ==> Count.CountOf(c, m) == 0
  {
  }

  /** Every secret Gitleaks reports is counted as critical, and passes every threshold. */
  lemma SecretsCountAsCritical(file: Gitleaks.TextFile, parse: string -> Result<Json, ParseFailure>, threshold: Option<string>)
    requires Gitleaks.Normalise(file, parse).Ok? && Count.Threshold(threshold) in Findings.Severities
    ensures var fs := Gitleaks.Normalise(file, parse).value;
      var rep := Count.Report(Parsed(JArr(Findings.AllToJson(fs))), threshold);
      rep.Ok? && rep.value.critical == |fs| && rep.value.total == |fs| && rep.value.thresholdCount == |fs|
  {
    var fs := Gitleaks.Normalise(file, parse).value;
    AllCritical(fs, threshold);
  }

  lemma AllCritical(fs: seq<Findings.Finding>, threshold: Option<string>)
    requires forall k :: 0 <= k < |fs| ==> fs[k].severity == "critical"
    requires Count.Threshold(threshold) in Findings.Severities
    ensures var rep := Count.Report(Parsed(JArr(Findings.AllToJson(fs))), threshold);
      rep.Ok? && rep.value.critical == |fs| && rep.value.total == |fs| && rep.value.thresholdCount == |fs|
  {
    AllAtOneLevel(fs, threshold, Count.Critical);
    CountedAsWritten(fs, threshold, Count.Critical);
    var c := Count.Tally(LevelsOf(fs));
    OccurrencesOfOne(LevelsOf(fs), Count.Critical);
    Count.TallyCountsEach(LevelsOf(fs), Count.Critical);
    Count.AllCriticalMeetEveryThreshold(c, Count.Threshold(threshold));
  }

  /** Every failed Checkov check is counted as high, and none as critical. */
  lemma MisconfigurationsCountAsHigh(file: JsonFile, cloud: string, threshold: Option<string>)
    requires Checkov.Normalise(file, cloud).Ok? && Count.Threshold(threshold) in Findings.Severities
    ensures var fs := Checkov.Normalise(file, cloud).value;
      var rep := Count.Report(Parsed(JArr(Findings.AllToJson(fs))), threshold);
      rep.Ok? && rep.value.high == |fs| && rep.value.critical == 0
  {
    AllHigh(Checkov.Normalise(file, cloud).value, threshold);
  }

  lemma AllHigh(fs: seq<Findings.Finding>, threshold: Option<string>)
    requires forall k :: 0 <= k < |fs| ==> fs[k].severity == "high"
    requires Count.Threshold(threshold) in Findings.Severities
    ensures var rep := Count.Report(Parsed(JArr(Findings.AllToJson(fs))), threshold);
      rep.Ok? && rep.value.high == |fs| && rep.value.critical == 0
  {
    AllAtOneLevel(fs, threshold, Count.High);
    var rep := Count.Report(Parsed(JArr(Findings.AllToJson(fs))), threshold).value;
    assert Count.CountOf(Count.Counts(rep.critical, rep.high, rep.medium, rep.low), Count.Critical) == 0;
  }
}
