/** `lambda_handler` of the compliance agent: validation, the Bedrock merge, local rules and the summary. */
module ComplianceHandler {
  import opened Wrappers
  import opened Strings
  import opened Seqs
  import Json
  import opened ComplianceRules
  import opened ComplianceSummary
  import opened ComplianceAdvisory

  /** The `s3` object of the event; an absent or null field is None. */
  datatype S3Info = S3Info(bucket: Option<string>, key: Option<string>)

  /** The event: anything that is not a JSON object, or an object with the fields the handler reads. */
  datatype Event =
    | NotAnObject
    | Payload(contractId: Option<string>, s3: Option<S3Info>, extractedText: Option<string>)

  /** The environment variable `USE_BEDROCK` and the Bedrock side. */
  datatype Environment = Environment(useBedrockEnv: Option<string>, bedrock: BedrockWorld)

  datatype ComplianceResult =
    | ComplianceError(message: string)
    | ComplianceOk(contractId: string, bucket: string, key: string, findings: seq<Finding>,
                   summary: Summary, bedrockUsed: bool, bedrockResponse: Option<BedrockReply>)
      /** The exception that escapes the handler when the summary cannot look a severity up. */
    | ComplianceRaised(message: string)

  const NOT_AN_OBJECT_MESSAGE: string := "Event must be a JSON object"

  /** The field names in the order the handler checks them. */
  const REQUIRED_FIELDS: seq<string> := ["contract_id", "s3.bucket", "s3.key", "extracted_text"]

  /** `value or ""`. */
  function OrEmpty(v: Option<string>): string
  {
    if v.Some? then v.value else ""
  }

  /** `(event.get("s3") or {}).get("bucket")`. */
  function BucketField(s3: Option<S3Info>): Option<string>
  {
    if s3.Some? then s3.value.bucket else None
  }

  /** `(event.get("s3") or {}).get("key")`. */
  function KeyField(s3: Option<S3Info>): Option<string>
  {
    if s3.Some? then s3.value.key else None
  }

  /** The names, among the first `n`, whose value is empty, in the order of `names`. */
  function Missing(names: seq<string>, values: seq<string>, n: nat): (m: seq<string>)
    requires n <= |names| == |values|
    ensures |m| <= n
  {
    if n == 0 then []
    else Missing(names, values, n - 1) + (if values[n - 1] == "" then [names[n - 1]] else [])
  }

  lemma {:induction false} MissingShape(names: seq<string>, values: seq<string>, n: nat)
    requires n <= |names| == |values| && Distinct(names)
    ensures forall i :: 0 <= i < n ==> (names[i] in Missing(names, values, n) <==> values[i] == "")
    ensures forall i :: 0 <= i < |Missing(names, values, n)| ==> Missing(names, values, n)[i] in names[..n]
    ensures InOrderOf(Missing(names, values, n), names)
  {
    if n != 0 {
      MissingShape(names, values, n - 1);
      var pre := Missing(names, values, n - 1);
      var m := Missing(names, values, n);
      var last := names[n - 1];
      assert names[..n] == names[..n - 1] + [last];
      assert last !in names[..n - 1];
      assert last !in pre;
      forall i | 0 <= i < n - 1
        ensures names[i] in m <==> values[i] == ""
      {
        assert names[i] != last;
      }
      forall i | 0 <= i < |m|
        ensures m[i] in names[..n]
      {
        if i < |pre| {
          assert m[i] == pre[i];
        }
      }
      forall i, j | 0 <= i < j < |m|
        ensures IndexOf(names, m[i]) < IndexOf(names, m[j])
      {
        assert m[i] == pre[i] && m[i] in names[..n - 1];
        if j >= |pre| {
          IndexOfDistinct(names, n - 1);
        } else {
          assert m[j] == pre[j];
        }
      }
    }
  }

  /** The names the handler collects in `missing`, for the four fields' values. */
  function MissingFields(contractId: string, bucket: string, key: string, text: string): seq<string>
  {
    Missing(REQUIRED_FIELDS, [contractId, bucket, key, text], |REQUIRED_FIELDS|)
  }

  function MissingFieldsOf(e: Event): seq<string>
    requires e.Payload?
  {
    MissingFields(OrEmpty(e.contractId), OrEmpty(BucketField(e.s3)), OrEmpty(KeyField(e.s3)), OrEmpty(e.extractedText))
  }

  function MissingMessage(missing: seq<string>): string
  {
    "Missing required fields: " + Join(missing, ", ")
  }

  lemma RequiredFieldsDistinct()
    ensures Distinct(REQUIRED_FIELDS)
  {
  }

  /**
   * Validation: a field is listed exactly when its value is empty or absent, each name at most
   * once, in the fixed order contract_id, s3.bucket, s3.key, extracted_text; nothing is
   * missing exactly when all four are non-empty.
   */
  lemma MissingFieldsSound(contractId: string, bucket: string, key: string, text: string)
    ensures var m := MissingFields(contractId, bucket, key, text);
      && ("contract_id" in m <==> contractId == "")
      && ("s3.bucket" in m <==> bucket == "")
      && ("s3.key" in m <==> key == "")
      && ("extracted_text" in m <==> text == "")
      && (m == [] <==> contractId != "" && bucket != "" && key != "" && text != "")
      && InOrderOf(m, REQUIRED_FIELDS)
  {
    var values := [contractId, bucket, key, text];
    RequiredFieldsDistinct();
    MissingShape(REQUIRED_FIELDS, values, 4);
    var m := MissingFields(contractId, bucket, key, text);
    assert REQUIRED_FIELDS[0] == "contract_id" && REQUIRED_FIELDS[1] == "s3.bucket";
    assert REQUIRED_FIELDS[2] == "s3.key" && REQUIRED_FIELDS[3] == "extracted_text";
    if m != [] {
      assert m[0] in REQUIRED_FIELDS[..4];
    }
  }

  lemma OnlyTextMissing()
    ensures MissingMessage(MissingFields("c-1", "bucket", "a.pdf", "")) == "Missing required fields: extracted_text"
  {
    var values := ["c-1", "bucket", "a.pdf", ""];
    assert Missing(REQUIRED_FIELDS, values, 1) == [];
    assert Missing(REQUIRED_FIELDS, values, 2) == [];
    assert Missing(REQUIRED_FIELDS, values, 3) == [];
    assert Missing(REQUIRED_FIELDS, values, 4) == ["extracted_text"];
  }

  lemma IdAndKeyMissing()
    ensures MissingMessage(MissingFields("", "bucket", "", "text")) == "Missing required fields: contract_id, s3.key"
  {
    var values := ["", "bucket", "", "text"];
    assert Missing(REQUIRED_FIELDS, values, 1) == ["contract_id"];
    assert Missing(REQUIRED_FIELDS, values, 2) == ["contract_id"];
    assert Missing(REQUIRED_FIELDS, values, 3) == ["contract_id", "s3.key"];
    assert Missing(REQUIRED_FIELDS, values, 4) == ["contract_id", "s3.key"];
    JoinTwo("contract_id", "s3.key", ", ");
  }

  lemma JoinTwo(a: string, b: string, sep: string)
    ensures Join([a, b], sep) == a + sep + b
  {
    assert [a, b][1..] == [b];
  }

  /** The Bedrock reply the handler works with: none unless `USE_BEDROCK` enables it. */
  function ReplyFor(text: string, env: Environment): Option<BedrockReply>
  {
    if UseBedrock(env.useBedrockEnv) then CallBedrock(text, env.bedrock) else None
  }

  /** Bedrock-derived findings ahead of the local PII findings, then the SOX findings. */
  function AllFindings(text: string, env: Environment, finditer: Finditer): seq<Finding>
  {
    AdvisoryFindings(ReplyFor(text, env)) + PiiFindings(text, finditer) + SoxFindings(text)
  }

  /**
   * The part of `lambda_handler` after validation: the Bedrock merge when `USE_BEDROCK` enables
   * it, then the local PII and SOX findings, always appended, then the summary, which raises on
   * an unhashable severity.
   */
  method RunChecks(contractId: string, bucket: string, key: string, text: string, env: Environment, finditer: Finditer)
    returns (r: ComplianceResult)
    ensures var reply := ReplyFor(text, env);
      var fs := AllFindings(text, env, finditer);
      && !r.ComplianceError?
      && (r.ComplianceOk? <==> AllHashable(fs))
      && (r.ComplianceOk? ==>
          && r.contractId == contractId && r.bucket == bucket && r.key == key
          && r.findings == fs
          && r.summary == Summary(|fs|, SeverityCounts(CountIn(fs, High), CountIn(fs, Medium), CountIn(fs, Low)))
          && r.bedrockUsed == Merged(reply) && r.bedrockResponse == reply)
      && (r.ComplianceRaised? ==> exists k :: FailsAt(fs, k, r.message))
  {
    var findings: seq<Finding> := [];
    var bedrockUsed := false;
    var bedrockResp: Option<BedrockReply> := None;
    if UseBedrock(env.useBedrockEnv) {
      bedrockResp := CallBedrock(text, env.bedrock);
      var advice;
      advice, bedrockUsed := MergeAdvisory(bedrockResp);
      findings := findings + advice;
    }
    assert findings == AdvisoryFindings(ReplyFor(text, env)) && bedrockResp == ReplyFor(text, env);

    var pii := LocalPiiChecks(text, finditer);
    findings := findings + pii;
    var sox := LocalSoxChecks(text);
    findings := findings + sox;
    assert findings == AllFindings(text, env, finditer);

    var summary := SummarizeFindings(findings);
    if summary.Err? {
      return ComplianceRaised(summary.error);
    }
    r := ComplianceOk(contractId, bucket, key, findings, summary.value, bedrockUsed, bedrockResp);
  }

  /**
   * `lambda_handler`. The regex engine is `finditer`; the environment and Bedrock are `env`.
   * A non-object event or one with a missing field is answered with an error and no
   * findings; otherwise the result is that of the checks on the event's fields.
   */
  method LambdaHandler(event: Event, env: Environment, finditer: Finditer) returns (r: ComplianceResult)
    ensures event.NotAnObject? ==> r == ComplianceError(NOT_AN_OBJECT_MESSAGE)
    ensures event.Payload? && MissingFieldsOf(event) != [] ==> r == ComplianceError(MissingMessage(MissingFieldsOf(event)))
    ensures event.Payload? && MissingFieldsOf(event) == [] ==>
      var text := OrEmpty(event.extractedText);
      var reply := ReplyFor(text, env);
      var fs := AllFindings(text, env, finditer);
      && !r.ComplianceError?
      && (r.ComplianceOk? <==> AllHashable(fs))
      && (r.ComplianceOk? ==>
          && r.contractId == OrEmpty(event.contractId) && r.bucket == OrEmpty(BucketField(event.s3))
          && r.key == OrEmpty(KeyField(event.s3))
          && r.findings == fs
          && r.summary == Summary(|fs|, SeverityCounts(CountIn(fs, High), CountIn(fs, Medium), CountIn(fs, Low)))
          && r.bedrockUsed == Merged(reply) && r.bedrockResponse == reply)
      && (r.ComplianceRaised? ==> exists k :: FailsAt(fs, k, r.message))
  {
    if event.NotAnObject? {
      return ComplianceError(NOT_AN_OBJECT_MESSAGE);
    }
    var contractId := OrEmpty(event.contractId);
    var bucket := OrEmpty(BucketField(event.s3));
    var key := OrEmpty(KeyField(event.s3));
    var text := OrEmpty(event.extractedText);
    ghost var values := [contractId, bucket, key, text];

    var missing: seq<string> := [];
    if contractId == "" {
      missing := missing + ["contract_id"];
    }
    assert missing == Missing(REQUIRED_FIELDS, values, 1);
    if bucket == "" {
      missing := missing + ["s3.bucket"];
    }
    assert missing == Missing(REQUIRED_FIELDS, values, 2);
    if key == "" {
      missing := missing + ["s3.key"];
    }
    assert missing == Missing(REQUIRED_FIELDS, values, 3);
    if text == "" {
      missing := missing + ["extracted_text"];
    }
    assert missing == Missing(REQUIRED_FIELDS, values, 4);
    if missing != [] {
      return ComplianceError(MissingMessage(missing));
    }
    r := RunChecks(contractId, bucket, key, text, env, finditer);
  }

  /**
   * The local findings alone: their summary never raises, "high" counts the PII findings,
   * "medium" the SOX findings and "low" nothing.
   */
  lemma LocalSummary(text: string, finditer: Finditer)
    ensures var p, s := PiiFindings(text, finditer), SoxFindings(text);
      && AllHashable(p + s)
      && CountIn(p + s, High) == |p| && CountIn(p + s, Medium) == |s| && CountIn(p + s, Low) == 0
  {
    var p, s := PiiFindings(text, finditer), SoxFindings(text);
    PiiShape(text, finditer);
    SoxShape(text);
    SeverityBuckets();
    UniformCounts(p, "high", High);
    UniformCounts(s, "medium", Medium);
    AllHashableAppend(p, s);
    CountInAppend(p, s, High);
    CountInAppend(p, s, Medium);
    CountInAppend(p, s, Low);
  }

  /**
   * A Bedrock reply that is missing, failed or carries no object result adds nothing: the
   * findings are the local ones and their summary never raises.
   */
  lemma AdvisoryFallback(text: string, env: Environment, finditer: Finditer)
    requires !Merged(ReplyFor(text, env))
    ensures var p, s := PiiFindings(text, finditer), SoxFindings(text);
      var fs := AllFindings(text, env, finditer);
      && fs == p + s
      && AllHashable(fs)
      && CountIn(fs, High) == |p| && CountIn(fs, Medium) == |s| && CountIn(fs, Low) == 0
  {
    var p, s := PiiFindings(text, finditer), SoxFindings(text);
    assert AdvisoryFindings(ReplyFor(text, env)) == [];
    assert AllFindings(text, env, finditer) == p + s;
    LocalSummary(text, finditer);
  }

  /** With Bedrock switched off the handler's findings are exactly the local ones, and it never raises. */
  lemma LocalOnly(text: string, env: Environment, finditer: Finditer)
    requires !UseBedrock(env.useBedrockEnv)
    ensures ReplyFor(text, env) == None
    ensures AllFindings(text, env, finditer) == PiiFindings(text, finditer) + SoxFindings(text)
    ensures AllHashable(AllFindings(text, env, finditer))
  {
    LocalSummary(text, finditer);
  }
}
