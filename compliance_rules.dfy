/** The local rule engine of the compliance handler: the PII scan and the SOX keyword scan. */
module ComplianceRules {
  import opened Wrappers
  import opened Strings
  import opened Seqs
  import Json

  // ---------------------------------------------------------------------------------------
  // Findings
  // ---------------------------------------------------------------------------------------

  /** The payload of a finding: a PII match, a SOX keyword hit, or an entry the advisory model returned. */
  datatype Detail =
    | PiiMatch(kind: PiiKind, text: string)
    | KeywordMatch(keyword: string, text: string)
    | AdvisoryDetail(payload: Json.Value)

  /**
   * One finding. `severity` is the raw value stored under the "severity" key (`None` when the
   * key is absent); it is normalised only when the findings are summarised.
   */
  datatype Finding = Finding(ruleId: string, detail: Detail, severity: Option<Json.Value>)

  /** `RULE_SEVERITY`: the severity of each local rule. */
  const RULE_SEVERITY: map<string, string> :=
    map["gdpr_pii" := "high", "gdpr_sensitive" := "high", "sox_keyword" := "medium"]

  /** `RULE_SEVERITY.get(rule, default)`. */
  function RuleSeverity(rule: string, default: string): string
  {
    if rule in RULE_SEVERITY then RULE_SEVERITY[rule] else default
  }

  // ---------------------------------------------------------------------------------------
  // PII scan
  // ---------------------------------------------------------------------------------------

  /** The keys of `PII_PATTERNS`. */
  datatype PiiKind = Email | Phone | Ssn | Date

  /** The keys of `PII_PATTERNS` in the dict's insertion order, which is the order they are scanned in. */
  const PII_KINDS: seq<PiiKind> := [Email, Phone, Ssn, Date]

  /** The most findings emitted for one kind. */
  const PII_CAP: nat := 10

  function KindName(k: PiiKind): string
  {
    match k
    case Email => "email"
    case Phone => "phone"
    case Ssn => "ssn"
    case Date => "date"
  }

  /** The position of a kind in `PII_KINDS`. */
  function KindRank(k: PiiKind): (r: nat)
    ensures r < |PII_KINDS| && PII_KINDS[r] == k
  {
    match k
    case Email => 0
    case Phone => 1
    case Ssn => 2
    case Date => 3
  }

  /** The four keys are different strings: their first letters already differ. */
  lemma KindNamesDiffer(a: PiiKind, b: PiiKind)
    requires a != b
    ensures KindName(a) != KindName(b)
  {
    assert KindName(a)[0] != KindName(b)[0];
  }

  /**
   * A kind's compiled pattern run with `finditer` over a text: the matched substrings, in
   * match order. The regular expressions themselves are not part of this model.
   */
  type Finditer = (PiiKind, string) -> seq<string>

  lemma RuleSeverities()
    ensures RuleSeverity("gdpr_pii", "high") == "high"
    ensures RuleSeverity("sox_keyword", "medium") == "medium"
  {
    assert "gdpr_pii" in RULE_SEVERITY && "sox_keyword" in RULE_SEVERITY;
  }

  function PiiFinding(kind: PiiKind, m: string): Finding
  {
    Finding("gdpr_pii", PiiMatch(kind, m), Some(Json.Str(RuleSeverity("gdpr_pii", "high"))))
  }

  /** One finding per match, in match order. */
  function PiiBlock(kind: PiiKind, ms: seq<string>): (r: seq<Finding>)
    ensures |r| == |ms|
  {
    if |ms| == 0 then [] else PiiBlock(kind, ms[..|ms| - 1]) + [PiiFinding(kind, ms[|ms| - 1])]
  }

  lemma {:induction false} PiiBlockAt(kind: PiiKind, ms: seq<string>)
    ensures forall i :: 0 <= i < |ms| ==> PiiBlock(kind, ms)[i] == PiiFinding(kind, ms[i])
  {
    if |ms| != 0 {
      PiiBlockAt(kind, ms[..|ms| - 1]);
    }
  }

  lemma PiiBlockSnoc(kind: PiiKind, ms: seq<string>, m: string)
    ensures PiiBlock(kind, ms + [m]) == PiiBlock(kind, ms) + [PiiFinding(kind, m)]
  {
    assert (ms + [m])[..|ms|] == ms;
  }

  /** The matches that are kept: the first `PII_CAP` of them. */
  function Capped(ms: seq<string>): seq<string>
  {
    ms[..Min(|ms|, PII_CAP)]
  }

  /** The findings of the first `n` kinds of `kinds`, scanned in that order. */
  function PiiScan(text: string, finditer: Finditer, kinds: seq<PiiKind>, n: nat): seq<Finding>
    requires n <= |kinds|
  {
    if n == 0 then []
    else
      var kind := kinds[n - 1];
      PiiScan(text, finditer, kinds, n - 1) + PiiBlock(kind, Capped(finditer(kind, text)))
  }

  /** What `_local_pii_checks(text)` returns. */
  function PiiFindings(text: string, finditer: Finditer): seq<Finding>
  {
    PiiScan(text, finditer, PII_KINDS, |PII_KINDS|)
  }

  /**
   * `f.get("type") == kind`. A PII finding's `type` is the name of its kind, and the
   * names are different strings (KindNamesDiffer), so comparing the kinds is the same test.
   */
  predicate HasType(f: Finding, kind: PiiKind)
  {
    f.detail.PiiMatch? && f.detail.kind == kind
  }

  /** `[f for f in fs if f.get("type") == KindName(name)]`. */
  function OfType(fs: seq<Finding>, name: PiiKind): (r: seq<Finding>)
    ensures |r| <= |fs|
  {
    if |fs| == 0 then []
    else
      var last := fs[|fs| - 1];
      OfType(fs[..|fs| - 1], name) + (if HasType(last, name) then [last] else [])
  }

  /** `len([f for f in fs if f.get("type") == KindName(name)])`. */
  function CountType(fs: seq<Finding>, name: PiiKind): nat
  {
    if |fs| == 0 then 0
    else CountType(fs[..|fs| - 1], name) + (if HasType(fs[|fs| - 1], name) then 1 else 0)
  }

  lemma {:induction false} CountTypeAppend(a: seq<Finding>, b: seq<Finding>, name: PiiKind)
    ensures CountType(a + b, name) == CountType(a, name) + CountType(b, name)
    decreases |b|
  {
    if |b| == 0 {
      assert a + b == a;
    } else {
      assert (a + b)[..|a + b| - 1] == a + b[..|b| - 1];
      CountTypeAppend(a, b[..|b| - 1], name);
    }
  }

  lemma {:induction false} CountTypeIsLength(fs: seq<Finding>, name: PiiKind)
    ensures CountType(fs, name) == |OfType(fs, name)|
    decreases |fs|
  {
    if |fs| != 0 {
      CountTypeIsLength(fs[..|fs| - 1], name);
    }
  }

  lemma {:induction false} OfTypeAppend(a: seq<Finding>, b: seq<Finding>, name: PiiKind)
    ensures OfType(a + b, name) == OfType(a, name) + OfType(b, name)
    decreases |b|
  {
    if |b| == 0 {
      assert a + b == a;
    } else {
      var last := b[|b| - 1];
      assert (a + b)[..|a + b| - 1] == a + b[..|b| - 1];
      OfTypeAppend(a, b[..|b| - 1], name);
    }
  }

  lemma {:induction false} OfTypeBlock(kind: PiiKind, ms: seq<string>, name: PiiKind)
    ensures OfType(PiiBlock(kind, ms), name) == if name == kind then PiiBlock(kind, ms) else []
    decreases |ms|
  {
    if |ms| != 0 {
      var init := ms[..|ms| - 1];
      var blk := PiiBlock(kind, ms);
      assert blk == PiiBlock(kind, init) + [PiiFinding(kind, ms[|ms| - 1])];
      assert blk[..|blk| - 1] == PiiBlock(kind, init);
      OfTypeBlock(kind, init, name);
    }
  }

  lemma {:induction false} OfTypeScan(text: string, finditer: Finditer, kinds: seq<PiiKind>, n: nat, k: PiiKind)
    requires n <= |kinds| && Distinct(kinds)
    ensures OfType(PiiScan(text, finditer, kinds, n), k)
         == if k in kinds[..n] then PiiBlock(k, Capped(finditer(k, text))) else []
  {
    if n != 0 {
      var kind := kinds[n - 1];
      var pre := PiiScan(text, finditer, kinds, n - 1);
      var blk := PiiBlock(kind, Capped(finditer(kind, text)));
      assert PiiScan(text, finditer, kinds, n) == pre + blk;
      assert kinds[..n] == kinds[..n - 1] + [kind];
      OfTypeScan(text, finditer, kinds, n - 1, k);
      OfTypeAppend(pre, blk, k);
      OfTypeBlock(kind, Capped(finditer(kind, text)), k);
      if k == kind {
        assert k !in kinds[..n - 1];
      }
    }
  }

  lemma PiiKindsDistinct()
    ensures Distinct(PII_KINDS)
  {
  }

  /**
   * Per-kind cap: the findings of kind `k` are the first min(10, #matches) matches of that
   * kind, in match order; how many matches the other kinds have plays no part.
   */
  lemma PiiPerKind(text: string, finditer: Finditer, k: PiiKind)
    ensures OfType(PiiFindings(text, finditer), k) == PiiBlock(k, Capped(finditer(k, text)))
    ensures |OfType(PiiFindings(text, finditer), k)| == Min(|finditer(k, text)|, PII_CAP)
    ensures forall i :: 0 <= i < |OfType(PiiFindings(text, finditer), k)| ==>
      OfType(PiiFindings(text, finditer), k)[i].detail == PiiMatch(k, finditer(k, text)[i])
  {
    PiiKindsDistinct();
    KindListed(k);
    PerKindOf(text, finditer, PII_KINDS, k);
  }

  lemma KindListed(k: PiiKind)
    ensures k in PII_KINDS
  {
    var r := KindRank(k);
  }

  /** PiiPerKind for any list of distinct kinds that `k` is on. */
  lemma PerKindOf(text: string, finditer: Finditer, kinds: seq<PiiKind>, k: PiiKind)
    requires Distinct(kinds) && k in kinds
    ensures OfType(PiiScan(text, finditer, kinds, |kinds|), k) == PiiBlock(k, Capped(finditer(k, text)))
    ensures forall i :: 0 <= i < |OfType(PiiScan(text, finditer, kinds, |kinds|), k)| ==>
      OfType(PiiScan(text, finditer, kinds, |kinds|), k)[i].detail == PiiMatch(k, finditer(k, text)[i])
  {
    assert kinds[..|kinds|] == kinds;
    OfTypeScan(text, finditer, kinds, |kinds|, k);
    PiiBlockAt(k, Capped(finditer(k, text)));
  }

  /** A finding as the PII scan emits it: rule "gdpr_pii", severity "high", and the `type` of a kind of `kinds`. */
  predicate IsPiiFinding(f: Finding, kinds: seq<PiiKind>)
  {
    f.ruleId == "gdpr_pii" && f.severity == Some(Json.Str("high"))
    && f.detail.PiiMatch? && f.detail.kind in kinds
  }

  /** The position in `kinds` of a finding's kind; `|kinds|` when it has none. */
  function TypeRank(f: Finding, kinds: seq<PiiKind>): int
  {
    if f.detail.PiiMatch? then IndexOf(kinds, f.detail.kind) else |kinds|
  }

  /** The findings are grouped by kind, in the order of `kinds`. */
  predicate GroupedByKind(r: seq<Finding>, kinds: seq<PiiKind>)
  {
    forall i, j :: 0 <= i < j < |r| ==> TypeRank(r[i], kinds) <= TypeRank(r[j], kinds)
  }

  lemma {:induction false} PiiScanShape(text: string, finditer: Finditer, kinds: seq<PiiKind>, n: nat)
    requires n <= |kinds| && Distinct(kinds)
    ensures forall i :: 0 <= i < |PiiScan(text, finditer, kinds, n)| ==>
      IsPiiFinding(PiiScan(text, finditer, kinds, n)[i], kinds) && TypeRank(PiiScan(text, finditer, kinds, n)[i], kinds) < n
    ensures GroupedByKind(PiiScan(text, finditer, kinds, n), kinds)
  {
    if n != 0 {
      var kind := kinds[n - 1];
      PiiScanShape(text, finditer, kinds, n - 1);
      var pre := PiiScan(text, finditer, kinds, n - 1);
      var blk := PiiBlock(kind, Capped(finditer(kind, text)));
      var r := PiiScan(text, finditer, kinds, n);
      assert r == pre + blk;
      BlockShape(blk, Capped(finditer(kind, text)), kinds, n);
      RankedAppend(pre, blk, r, kinds, n);
    }
  }

  /** The block of the kind at position `n - 1` of `kinds`. */
  lemma BlockShape(blk: seq<Finding>, ms: seq<string>, kinds: seq<PiiKind>, n: nat)
    requires 0 < n <= |kinds| && Distinct(kinds) && blk == PiiBlock(kinds[n - 1], ms)
    ensures forall i :: 0 <= i < |blk| ==> IsPiiFinding(blk[i], kinds) && TypeRank(blk[i], kinds) == n - 1
  {
    RuleSeverities();
    PiiBlockAt(kinds[n - 1], ms);
    IndexOfDistinct(kinds, n - 1);
  }

  /** Appending a block of rank `n - 1` to findings ranked below it keeps them grouped. */
  lemma RankedAppend(pre: seq<Finding>, blk: seq<Finding>, r: seq<Finding>, kinds: seq<PiiKind>, n: nat)
    requires r == pre + blk
    requires forall i :: 0 <= i < |pre| ==> IsPiiFinding(pre[i], kinds) && TypeRank(pre[i], kinds) < n - 1
    requires GroupedByKind(pre, kinds)
    requires forall i :: 0 <= i < |blk| ==> IsPiiFinding(blk[i], kinds) && TypeRank(blk[i], kinds) == n - 1
    ensures forall i :: 0 <= i < |r| ==> IsPiiFinding(r[i], kinds) && TypeRank(r[i], kinds) < n
    ensures GroupedByKind(r, kinds)
  {
    forall i | 0 <= i < |r|
      ensures IsPiiFinding(r[i], kinds) && TypeRank(r[i], kinds) < n
    {
      if i >= |pre| {
        assert r[i] == blk[i - |pre|];
      } else {
        assert r[i] == pre[i];
      }
    }
    forall i, j | 0 <= i < j < |r|
      ensures TypeRank(r[i], kinds) <= TypeRank(r[j], kinds)
    {
      if j >= |pre| {
        assert r[j] == blk[j - |pre|];
        if i >= |pre| {
          assert r[i] == blk[i - |pre|];
        } else {
          assert r[i] == pre[i];
        }
      } else {
        assert r[i] == pre[i] && r[j] == pre[j];
      }
    }
  }

  /**
   * Fields and order: every PII finding has rule "gdpr_pii", severity "high" and the `type` of
   * one of the four kinds, and the findings are grouped by kind in the order email, phone, ssn, date.
   */
  lemma PiiShape(text: string, finditer: Finditer)
    ensures forall i :: 0 <= i < |PiiFindings(text, finditer)| ==> IsPiiFinding(PiiFindings(text, finditer)[i], PII_KINDS)
    ensures GroupedByKind(PiiFindings(text, finditer), PII_KINDS)
  {
    PiiKindsDistinct();
    PiiScanShape(text, finditer, PII_KINDS, |PII_KINDS|);
  }

  /** One step of the scan of a kind: append the finding of match `j`; the kind then has `j + 1` findings. */
  lemma ScanStep(before: seq<Finding>, kind: PiiKind, ms: seq<string>, j: nat)
    requires j < |ms| && CountType(before, kind) == 0
    ensures before + PiiBlock(kind, ms[..j]) + [PiiFinding(kind, ms[j])] == before + PiiBlock(kind, ms[..j + 1])
    ensures CountType(before + PiiBlock(kind, ms[..j + 1]), kind) == j + 1
  {
    assert ms[..j + 1] == ms[..j] + [ms[j]];
    PiiBlockSnoc(kind, ms[..j], ms[j]);
    CountTypeAppend(before, PiiBlock(kind, ms[..j + 1]), kind);
    CountTypeIsLength(PiiBlock(kind, ms[..j + 1]), kind);
    OfTypeBlock(kind, ms[..j + 1], kind);
  }

  lemma CappedAt(ms: seq<string>, j: nat)
    requires (j == |ms| && j < PII_CAP) || (j == PII_CAP && j <= |ms|)
    ensures ms[..j] == Capped(ms)
  {
  }

  /** `_local_pii_checks`: scan the kinds in order, leaving a kind once it has 10 findings. */
  method LocalPiiChecks(text: string, finditer: Finditer) returns (findings: seq<Finding>)
    ensures findings == PiiFindings(text, finditer)
  {
    PiiKindsDistinct();
    findings := ScanKinds(text, finditer, PII_KINDS);
  }

  /** The loop of `_local_pii_checks` over the kinds of `kinds`. */
  method ScanKinds(text: string, finditer: Finditer, kinds: seq<PiiKind>) returns (findings: seq<Finding>)
    requires Distinct(kinds)
    ensures findings == PiiScan(text, finditer, kinds, |kinds|)
  {
    findings := [];
    for n := 0 to |kinds|
      invariant findings == PiiScan(text, finditer, kinds, n)
    {
      var kind := kinds[n];
      var matches := finditer(kind, text);
      assert CountType(findings, kind) == 0 by {
        OfTypeScan(text, finditer, kinds, n, kind);
        CountTypeIsLength(findings, kind);
        assert kind !in kinds[..n];
      }
      findings := ScanMatches(findings, kind, matches);
    }
  }

  /** The inner loop: append a finding per match until the kind has 10 of them. */
  method ScanMatches(before: seq<Finding>, kind: PiiKind, matches: seq<string>) returns (findings: seq<Finding>)
    requires CountType(before, kind) == 0
    ensures findings == before + PiiBlock(kind, Capped(matches))
  {
    findings := before;
    var j := 0;
    while j < |matches|
      invariant j <= |matches| && j < PII_CAP
      invariant findings == before + PiiBlock(kind, matches[..j])
    {
      var snippet := matches[j];
      ScanStep(before, kind, matches, j);
      findings := findings + [PiiFinding(kind, snippet)];
      j := j + 1;
      assert findings == before + PiiBlock(kind, matches[..j]);
      if CountType(findings, kind) >= PII_CAP {
        assert j == PII_CAP;
        break;
      }
    }
    CappedAt(matches, j);
  }

  // ---------------------------------------------------------------------------------------
  // SOX keyword scan
  // ---------------------------------------------------------------------------------------

  /** `SOX_KEYWORDS`, in scan order. */
  const SOX_KEYWORDS: seq<string> := [
    "revenue", "net income", "financial statements", "internal control", "material weakness",
    "fraud", "audit", "compliance", "whistleblow"
  ]

  /** How many characters of context are kept on each side of a keyword hit. */
  const CONTEXT_RADIUS: nat := 40

  /** `max(0, idx - 40)`. */
  function WindowStart(idx: int): int
  {
    Max(0, idx - CONTEXT_RADIUS)
  }

  /** `min(len(text), idx + len(kw) + 40)`. */
  function WindowEnd(textLen: int, idx: int, kwLen: int): int
  {
    Min(textLen, idx + kwLen + CONTEXT_RADIUS)
  }

  function SoxFinding(kw: string, snippet: string): Finding
  {
    Finding("sox_keyword", KeywordMatch(kw, snippet), Some(Json.Str(RuleSeverity("sox_keyword", "medium"))))
  }

  /** The finding keyword `kw` contributes to the scan of `text`: none, or one for its first occurrence. */
  function SoxFindingFor(text: string, kw: string): (r: seq<Finding>)
    ensures |r| <= 1 && (|r| == 1 ==> r[0].detail.KeywordMatch? && r[0].detail.keyword == kw)
  {
    var low := Lower(text);
    if Contains(low, kw) then
      var idx := Find(low, kw);
      [SoxFinding(kw, Strip(text[WindowStart(idx)..WindowEnd(|text|, idx, |kw|)]))]
    else []
  }

  /** The findings the scan produces for the first `n` keywords of `kws`, in their order. */
  function SoxScan(text: string, kws: seq<string>, n: nat): seq<Finding>
    requires n <= |kws|
  {
    if n == 0 then [] else SoxScan(text, kws, n - 1) + SoxFindingFor(text, kws[n - 1])
  }

  /** What `_local_sox_checks(text)` returns. */
  function SoxFindings(text: string): seq<Finding>
  {
    SoxScan(text, SOX_KEYWORDS, |SOX_KEYWORDS|)
  }

  /** `_local_sox_checks`: one finding per keyword that occurs in the lower-cased text. */
  method LocalSoxChecks(text: string) returns (findings: seq<Finding>)
    ensures findings == SoxFindings(text)
  {
    findings := ScanKeywords(text, SOX_KEYWORDS);
  }

  /** The loop of `_local_sox_checks`, over any keyword list. */
  method ScanKeywords(text: string, kws: seq<string>) returns (findings: seq<Finding>)
    ensures findings == SoxScan(text, kws, |kws|)
  {
    findings := [];
    var lowtext := Lower(text);
    for n := 0 to |kws|
      invariant findings == SoxScan(text, kws, n)
    {
      var kw := kws[n];
      if Contains(lowtext, kw) {
        var idx := Find(lowtext, kw);
        assert 0 <= idx && idx + |kw| <= |text|;
        var start := Max(0, idx - 40);
        var end := Min(|text|, idx + |kw| + 40);
        assert start == WindowStart(idx) && end == WindowEnd(|text|, idx, |kw|);
        var snippet := Strip(text[start..end]);
        findings := findings + [SoxFinding(kw, snippet)];
      }
    }
  }

  lemma SoxKeywordsDistinct()
    ensures Distinct(SOX_KEYWORDS)
  {
  }

  /** A keyword that is non-empty and starts and ends with a non-space character. */
  predicate Trimmed(kw: string)
  {
    |kw| > 0 && !IsSpace(kw[0]) && !IsSpace(kw[|kw| - 1])
  }

  lemma SoxKeywordsTrimmed(kw: string)
    requires kw in SOX_KEYWORDS
    ensures Trimmed(kw)
  {
    assert 'a' <= kw[0] <= 'z' && 'a' <= kw[|kw| - 1] <= 'z';
    LetterNotSpace(kw[0]);
    LetterNotSpace(kw[|kw| - 1]);
  }

  /** The keyword of a SOX finding, "" for any other finding. */
  function KeywordOf(f: Finding): string
  {
    if f.detail.KeywordMatch? then f.detail.keyword else ""
  }

  /** The keywords of a list of findings. */
  function Keywords(fs: seq<Finding>): (r: seq<string>)
    ensures |r| == |fs| && forall i :: 0 <= i < |fs| ==> r[i] == KeywordOf(fs[i])
  {
    seq(|fs|, i requires 0 <= i < |fs| => KeywordOf(fs[i]))
  }

  /** `[f for f in fs if f.get("keyword") == kw]`. */
  function OfKeyword(fs: seq<Finding>, kw: string): (r: seq<Finding>)
    ensures |r| <= |fs|
  {
    if |fs| == 0 then []
    else
      var last := fs[|fs| - 1];
      OfKeyword(fs[..|fs| - 1], kw) + (if last.detail.KeywordMatch? && last.detail.keyword == kw then [last] else [])
  }

  lemma {:induction false} OfKeywordAppend(a: seq<Finding>, b: seq<Finding>, kw: string)
    ensures OfKeyword(a + b, kw) == OfKeyword(a, kw) + OfKeyword(b, kw)
    decreases |b|
  {
    if |b| == 0 {
      assert a + b == a;
    } else {
      assert (a + b)[..|a + b| - 1] == a + b[..|b| - 1];
      OfKeywordAppend(a, b[..|b| - 1], kw);
    }
  }

  /** At most one finding, for keyword `k`: keeping those for `kw` keeps it exactly when `kw` is `k`. */
  lemma OfKeywordSingle(hit: seq<Finding>, k: string, kw: string)
    requires |hit| <= 1 && (|hit| == 1 ==> hit[0].detail.KeywordMatch? && hit[0].detail.keyword == k)
    ensures OfKeyword(hit, kw) == if kw == k then hit else []
  {
    if |hit| == 1 {
      assert hit[..0] == [];
    }
  }

  lemma {:induction false} OfKeywordScan(text: string, kws: seq<string>, n: nat, kw: string)
    requires n <= |kws| && Distinct(kws)
    ensures OfKeyword(SoxScan(text, kws, n), kw) == if kw in kws[..n] then SoxFindingFor(text, kw) else []
  {
    if n != 0 {
      var k := kws[n - 1];
      assert kws[..n] == kws[..n - 1] + [k];
      OfKeywordScan(text, kws, n - 1, kw);
      OfKeywordAppend(SoxScan(text, kws, n - 1), SoxFindingFor(text, k), kw);
      OfKeywordSingle(SoxFindingFor(text, k), k, kw);
      if kw == k {
        assert kw !in kws[..n - 1];
      }
    }
  }

  /**
   * Keyword coverage: the scan holds exactly one finding for each keyword that occurs in the
   * lower-cased text, the one SoxFindingFor describes, and none for any other string.
   */
  lemma SoxPerKeyword(text: string, kw: string)
    ensures OfKeyword(SoxFindings(text), kw) == if kw in SOX_KEYWORDS then SoxFindingFor(text, kw) else []
    ensures |OfKeyword(SoxFindings(text), kw)| == if kw in SOX_KEYWORDS && Contains(Lower(text), kw) then 1 else 0
  {
    SoxKeywordsDistinct();
    assert SOX_KEYWORDS[..|SOX_KEYWORDS|] == SOX_KEYWORDS;
    OfKeywordScan(text, SOX_KEYWORDS, |SOX_KEYWORDS|, kw);
  }

  /** A finding as the SOX scan emits it: rule "sox_keyword", severity "medium", a keyword of `kws`. */
  predicate IsSoxFinding(f: Finding, kws: seq<string>)
  {
    f.ruleId == "sox_keyword" && f.severity == Some(Json.Str("medium"))
    && f.detail.KeywordMatch? && f.detail.keyword in kws
  }

  lemma {:induction false} SoxScanShape(text: string, kws: seq<string>, n: nat)
    requires n <= |kws| && Distinct(kws)
    ensures forall i :: 0 <= i < |SoxScan(text, kws, n)| ==> IsSoxFinding(SoxScan(text, kws, n)[i], kws[..n])
    ensures InOrderOf(Keywords(SoxScan(text, kws, n)), kws)
  {
    if n != 0 {
      var k := kws[n - 1];
      assert kws[..n] == kws[..n - 1] + [k];
      SoxScanShape(text, kws, n - 1);
      var before := SoxScan(text, kws, n - 1);
      var blk := SoxFindingFor(text, k);
      var r := SoxScan(text, kws, n);
      var ks := Keywords(r);
      assert r == before + blk;
      RuleSeverities();
      forall i | 0 <= i < |r|
        ensures IsSoxFinding(r[i], kws[..n]) && ks[i] in kws
      {
        if i >= |before| {
          assert r[i] == blk[i - |before|];
        } else {
          assert r[i] == before[i] && IsSoxFinding(before[i], kws[..n - 1]);
        }
      }
      forall i, j | 0 <= i < j < |r|
        ensures IndexOf(kws, ks[i]) < IndexOf(kws, ks[j])
      {
        assert i < |before|;
        assert r[i] == before[i] && IsSoxFinding(before[i], kws[..n - 1]);
        assert Keywords(before)[i] == ks[i];
        if j >= |before| {
          assert r[j] == blk[j - |before|] && ks[j] == k;
          IndexOfDistinct(kws, n - 1);
          assert ks[i] in kws[..n - 1];
        } else {
          assert r[j] == before[j] && Keywords(before)[j] == ks[j];
        }
      }
    }
  }

  /**
   * Fields and order: every SOX finding has rule "sox_keyword", severity "medium" and a keyword of
   * `SOX_KEYWORDS`, and the findings' keywords follow the order of `SOX_KEYWORDS` (so none repeats).
   */
  lemma SoxShape(text: string)
    ensures forall i :: 0 <= i < |SoxFindings(text)| ==> IsSoxFinding(SoxFindings(text)[i], SOX_KEYWORDS)
    ensures InOrderOf(Keywords(SoxFindings(text)), SOX_KEYWORDS)
  {
    SoxKeywordsDistinct();
    assert SOX_KEYWORDS[..|SOX_KEYWORDS|] == SOX_KEYWORDS;
    SoxScanShape(text, SOX_KEYWORDS, |SOX_KEYWORDS|);
  }

  /**
   * The context window of a trimmed keyword that occurs in the lower-cased text, around its
   * first occurrence `idx`: `start` and `end` stay inside the text and around the keyword, the
   * stripped snippet is at most 80 characters longer than the keyword, and it still contains
   * the keyword once lower-cased.
   */
  lemma WindowContext(text: string, kw: string)
    requires Trimmed(kw) && Contains(Lower(text), kw)
    ensures var idx := Find(Lower(text), kw);
      var start := WindowStart(idx);
      var end := WindowEnd(|text|, idx, |kw|);
      && OccursAt(Lower(text), kw, idx)
      && (forall j :: 0 <= j < idx ==> !OccursAt(Lower(text), kw, j))
      && 0 <= start <= idx && idx + |kw| <= end <= |text|
      && |Strip(text[start..end])| <= |kw| + 2 * CONTEXT_RADIUS
      && Contains(Lower(Strip(text[start..end])), kw)
  {
    var low := Lower(text);
    var idx := Find(low, kw);
    var start := WindowStart(idx);
    var end := WindowEnd(|text|, idx, |kw|);
    LowerSliceKeeps(text, kw, idx, start, end);
    StripKeepsOccurrence(text[start..end], kw, idx - start);
  }

  /** For a SOX keyword that occurs, its one finding carries the stripped window as its snippet. */
  lemma SoxContext(text: string, kw: string)
    requires kw in SOX_KEYWORDS && Contains(Lower(text), kw)
    ensures var idx := Find(Lower(text), kw);
      SoxFindingFor(text, kw) == [SoxFinding(kw, Strip(text[WindowStart(idx)..WindowEnd(|text|, idx, |kw|)]))]
    ensures var idx := Find(Lower(text), kw);
      Contains(Lower(Strip(text[WindowStart(idx)..WindowEnd(|text|, idx, |kw|)])), kw)
  {
    SoxKeywordsTrimmed(kw);
    WindowContext(text, kw);
  }
}
