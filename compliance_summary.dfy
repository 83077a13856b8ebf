/** The severity tally of the compliance handler (`_summarize_findings`). */
module ComplianceSummary {
  import opened Wrappers
  import Json
  import opened ComplianceRules

  /** The three counters of `by_severity`. */
  datatype Bucket = High | Medium | Low

  datatype SeverityCounts = SeverityCounts(high: nat, medium: nat, low: nat)

  /** `{"n_findings": ..., "by_severity": ...}`. */
  datatype Summary = Summary(nFindings: nat, bySeverity: SeverityCounts)

  /** `f.get("severity", "low")`: an absent severity reads as "low". */
  function SeverityOf(f: Finding): Json.Value
  {
    if f.severity.Some? then f.severity.value else Json.Str("low")
  }

  /**
   * The counter a severity value lands in: "high", "medium" and "low" their own, any other
   * hashable value "low"; a list or an object cannot be looked up in the dict and raises.
   */
  function BucketOf(sev: Json.Value): (r: Result<Bucket, string>)
    ensures r.Err? <==> !Json.Hashable(sev)
    ensures r == Ok(High) <==> sev == Json.Str("high")
    ensures r == Ok(Medium) <==> sev == Json.Str("medium")
  {
    if !Json.Hashable(sev) then Err(Json.UnhashableMessage(sev))
    else if sev == Json.Str("high") then Ok(High)
    else if sev == Json.Str("medium") then Ok(Medium)
    else Ok(Low)
  }

  /** How many of `fs` land in counter `b`. */
  function CountIn(fs: seq<Finding>, b: Bucket): (n: nat)
    ensures n <= |fs|
  {
    if |fs| == 0 then 0
    else CountIn(fs[..|fs| - 1], b) + (if BucketOf(SeverityOf(fs[|fs| - 1])) == Ok(b) then 1 else 0)
  }

  /** Every finding's severity can be looked up. */
  predicate AllHashable(fs: seq<Finding>)
  {
    forall i :: 0 <= i < |fs| ==> Json.Hashable(SeverityOf(fs[i]))
  }

  /** The error `_summarize_findings` raises at the first finding whose severity is a list or an object. */
  predicate FailsAt(fs: seq<Finding>, k: int, msg: string)
  {
    && 0 <= k < |fs| && !Json.Hashable(SeverityOf(fs[k]))
    && AllHashable(fs[..k])
    && msg == Json.UnhashableMessage(SeverityOf(fs[k]))
  }

  /**
   * `_summarize_findings`: counts the findings per severity with the three-key dict the
   * source updates, falling back to "low"; the lookup of an unhashable severity raises.
   */
  method SummarizeFindings(findings: seq<Finding>) returns (r: Result<Summary, string>)
    ensures r.Ok? <==> AllHashable(findings)
    ensures r.Ok? ==> r.value == Summary(|findings|,
      SeverityCounts(CountIn(findings, High), CountIn(findings, Medium), CountIn(findings, Low)))
    ensures r.Err? ==> exists k :: FailsAt(findings, k, r.error)
  {
    var counts: map<string, nat> := map["high" := 0, "medium" := 0, "low" := 0];
    for i := 0 to |findings|
      invariant counts.Keys == {"high", "medium", "low"}
      invariant AllHashable(findings[..i])
      invariant counts["high"] == CountIn(findings[..i], High)
      invariant counts["medium"] == CountIn(findings[..i], Medium)
      invariant counts["low"] == CountIn(findings[..i], Low)
    {
      var sev := SeverityOf(findings[i]);
      assert findings[..i + 1][..i] == findings[..i];
      if !Json.Hashable(sev) {
        assert FailsAt(findings, i, Json.UnhashableMessage(sev));
        return Err(Json.UnhashableMessage(sev));
      }
      if sev.Str? && sev.s in counts {
        counts := counts[sev.s := counts[sev.s] + 1];
      } else {
        counts := counts["low" := counts["low"] + 1];
      }
    }
    assert findings[..|findings|] == findings;
    r := Ok(Summary(|findings|, SeverityCounts(counts["high"], counts["medium"], counts["low"])));
  }

  lemma {:induction false} CountInAppend(a: seq<Finding>, b: seq<Finding>, k: Bucket)
    ensures CountIn(a + b, k) == CountIn(a, k) + CountIn(b, k)
    decreases |b|
  {
    if |b| == 0 {
      assert a + b == a;
    } else {
      assert (a + b)[..|a + b| - 1] == a + b[..|b| - 1];
      CountInAppend(a, b[..|b| - 1], k);
    }
  }

  /** When nothing raises, every finding is counted exactly once: the counters add up to `n_findings`. */
  lemma {:induction false} CountsAddUp(fs: seq<Finding>)
    requires AllHashable(fs)
    ensures CountIn(fs, High) + CountIn(fs, Medium) + CountIn(fs, Low) == |fs|
  {
    if |fs| != 0 {
      var pre := fs[..|fs| - 1];
      assert AllHashable(pre) by {
        forall i | 0 <= i < |pre| ensures Json.Hashable(SeverityOf(pre[i])) {
          assert pre[i] == fs[i];
        }
      }
      CountsAddUp(pre);
    }
  }

  lemma SeverityBuckets()
    ensures BucketOf(Json.Str("high")) == Ok(High) && BucketOf(Json.Str("medium")) == Ok(Medium)
  {
  }

  /**
   * Findings that all carry the same explicit severity, one with counter `b`: all of them land
   * in `b`, none elsewhere, and nothing raises.
   */
  lemma {:induction false} UniformCounts(fs: seq<Finding>, sev: string, b: Bucket)
    requires forall i :: 0 <= i < |fs| ==> fs[i].severity == Some(Json.Str(sev))
    requires BucketOf(Json.Str(sev)) == Ok(b)
    ensures AllHashable(fs)
    ensures forall b2 :: CountIn(fs, b2) == if b2 == b then |fs| else 0
    decreases |fs|
  {
    if |fs| != 0 {
      var pre := fs[..|fs| - 1];
      assert forall i :: 0 <= i < |pre| ==> pre[i] == fs[i];
      UniformCounts(pre, sev, b);
      assert SeverityOf(fs[|fs| - 1]) == Json.Str(sev);
    }
  }

  lemma AllHashableAppend(a: seq<Finding>, b: seq<Finding>)
    requires AllHashable(a) && AllHashable(b)
    ensures AllHashable(a + b)
  {
    forall i | 0 <= i < |a + b|
      ensures Json.Hashable(SeverityOf((a + b)[i]))
    {
      if i < |a| {
        assert (a + b)[i] == a[i];
      } else {
        assert (a + b)[i] == b[i - |a|];
      }
    }
  }
}
