/**
 * `extract_text_from_s3` and `handler` of the ingestion agent. S3, Textract and the clock are
 * a `TextractWorld`: what each call would answer, or the message of the exception it raises.
 */
module IngestionHandler {
  import opened Wrappers
  import opened Strings
  import opened IngestionText
  import opened TextractPoller

  /** The `s3` object of the event; an absent or null field is None. */
  datatype S3Location = S3Location(bucket: Option<string>, key: Option<string>)

  /** The fields of the event the handler reads. */
  datatype Event = Event(contractId: Option<string>, s3: Option<S3Location>)

  /**
   * The outside world: `_detect_text_sync` (download and synchronous detection),
   * `_start_text_detection_async` (the job id), the answers to the job's successive
   * `get_document_text_detection` requests, and the readings of `time.time()`.
   */
  datatype TextractWorld = TextractWorld(
    detect: (Option<string>, Option<string>) -> Result<seq<Block>, string>,
    start: (Option<string>, Option<string>) -> Result<string, string>,
    responses: seq<JobResponse>,
    clock: seq<int>)

  /** The service calls made, in order. */
  datatype ServiceCall =
    | DetectText(bucket: Option<string>, key: Option<string>)
    | StartDetection(bucket: Option<string>, key: Option<string>)
    | GetResults(jobId: string, nextToken: Option<string>)
    | Pause(seconds: nat)

  /** What `extract_text_from_s3` returns or raises; Unfinished when the world's answers run out. */
  datatype ExtractOutcome = Extracted(extraction: Extraction) | ExtractFailed(message: string) | ExtractUnfinished

  datatype ExtractionRun = ExtractionRun(outcome: ExtractOutcome, calls: seq<ServiceCall>)

  /** The handler's answer; `IngestUnfinished` when the world's answers run out. */
  datatype IngestionResult =
    | IngestError(message: string)
    | ExtractionError(message: string, contractId: string, s3: S3Location)
    | Ingested(contractId: string, bucket: Option<string>, key: Option<string>, text: string,
               lines: seq<string>, nLines: nat, nChars: nat)
    | IngestUnfinished

  const PDF: string := ".pdf"

  const MISSING_S3_MESSAGE: string := "Missing required fields: s3.bucket, s3.key"

  /** The polling effects as calls against the job `jobId`. */
  function PollCalls(jobId: string, effects: seq<Effect>): (calls: seq<ServiceCall>)
    ensures |calls| == |effects|
    ensures forall i :: 0 <= i < |effects| ==>
      (effects[i].Fetch? ==> calls[i] == GetResults(jobId, effects[i].token))
      && (effects[i].Sleep? ==> calls[i] == Pause(effects[i].seconds))
  {
    seq(|effects|, i requires 0 <= i < |effects| =>
      match effects[i]
      case Fetch(t) => GetResults(jobId, t)
      case Sleep(n) => Pause(n))
  }

  /** The `NextToken` argument of each results request among `calls`, in order. */
  function RequestedTokens(calls: seq<ServiceCall>): seq<Option<string>>
  {
    if |calls| == 0 then []
    else (if calls[0].GetResults? then [calls[0].nextToken] else []) + RequestedTokens(calls[1..])
  }

  /** The results requests made while polling carry exactly the tokens of the fetch effects. */
  lemma {:induction false} PollCallsTokens(jobId: string, effects: seq<Effect>)
    ensures RequestedTokens(PollCalls(jobId, effects)) == FetchTokens(effects)
    decreases |effects|
  {
    if |effects| > 0 {
      var calls := PollCalls(jobId, effects);
      assert calls[1..] == PollCalls(jobId, effects[1..]);
      PollCallsTokens(jobId, effects[1..]);
    }
  }

  /** How polling ends, as `extract_text_from_s3` passes it on. */
  function PollResult(outcome: PollOutcome): ExtractOutcome
  {
    match outcome
    case Lines(ls) => Extracted(Assemble(ls))
    case JobFailed(m) => ExtractFailed(m)
    case TimedOut(m) => ExtractFailed(m)
    case ServiceError(m) => ExtractFailed(m)
    case Unfinished => ExtractUnfinished
  }

  /** `extract_text_from_s3(bucket, key)`: a ".pdf" key is an asynchronous job, anything else is synchronous. */
  function Extract(bucket: Option<string>, key: Option<string>, w: TextractWorld): ExtractionRun
  {
    if GetExtension(key) == PDF then
      match w.start(bucket, key)
      case Err(m) => ExtractionRun(ExtractFailed(m), [StartDetection(bucket, key)])
      case Ok(jobId) =>
        var p := Poll(DefaultConfig(jobId), w.responses, w.clock);
        ExtractionRun(PollResult(p.outcome), [StartDetection(bucket, key)] + PollCalls(jobId, p.effects))
    else
      match w.detect(bucket, key)
      case Err(m) => ExtractionRun(ExtractFailed(m), [DetectText(bucket, key)])
      case Ok(blocks) => ExtractionRun(Extracted(Assemble(LineTexts(blocks))), [DetectText(bucket, key)])
  }

  method ExtractTextFromS3(bucket: Option<string>, key: Option<string>, w: TextractWorld) returns (run: ExtractionRun)
    ensures run == Extract(bucket, key, w)
  {
    var ext := GetExtension(key);
    var lines: seq<string>;
    var calls: seq<ServiceCall>;
    if ext == PDF {
      calls := [StartDetection(bucket, key)];
      var started := w.start(bucket, key);
      if started.Err? {
        return ExtractionRun(ExtractFailed(started.error), calls);
      }
      var jobId := started.value;
      var outcome, effects := PollJob(DefaultConfig(jobId), w.responses, w.clock);
      calls := calls + PollCalls(jobId, effects);
      if !outcome.Lines? {
        return ExtractionRun(PollResult(outcome), calls);
      }
      lines := outcome.lines;
    } else {
      calls := [DetectText(bucket, key)];
      var detected := w.detect(bucket, key);
      if detected.Err? {
        return ExtractionRun(ExtractFailed(detected.error), calls);
      }
      lines := ExtractLines(detected.value);
    }
    run := ExtractionRun(Extracted(Assemble(lines)), calls);
  }

  /** `event.get("s3") or {}`. */
  function S3Of(e: Event): S3Location
  {
    if e.s3.Some? then e.s3.value else S3Location(None, None)
  }

  /** What the handler returns, with the service calls it made. */
  datatype HandlerRun = HandlerRun(result: IngestionResult, calls: seq<ServiceCall>)

  /** `handler` as a function of the event, the id `uuid4` would give and the world. */
  function Respond(event: Event, freshId: string, w: TextractWorld): HandlerRun
  {
    var s3 := S3Of(event);
    if Truthy(event.contractId) && !(Truthy(s3.bucket) && Truthy(s3.key)) then
      HandlerRun(IngestError(MISSING_S3_MESSAGE), [])
    else
      var id := if Truthy(event.contractId) then event.contractId.value else freshId;
      var x := Extract(s3.bucket, s3.key, w);
      match x.outcome
      case ExtractFailed(m) => HandlerRun(ExtractionError(m, id, s3), x.calls)
      case ExtractUnfinished => HandlerRun(IngestUnfinished, x.calls)
      case Extracted(e) => HandlerRun(Ingested(id, s3.bucket, s3.key, e.text, e.lines, e.nLines, e.nChars), x.calls)
  }

  /**
   * `handler`. A falsy `contract_id` is replaced by `freshId` (the `uuid4` the handler draws)
   * and then the bucket and key are not checked; a truthy one with a falsy bucket or key is
   * answered with an error and no call. Otherwise the extraction's result is echoed with the
   * id, or its exception's message comes back with the id and the `s3` object.
   */
  method Handler(event: Event, freshId: string, w: TextractWorld) returns (res: IngestionResult, calls: seq<ServiceCall>)
    ensures var s3 := S3Of(event);
      Truthy(event.contractId) && !(Truthy(s3.bucket) && Truthy(s3.key)) ==>
        res == IngestError(MISSING_S3_MESSAGE) && calls == []
    ensures var s3 := S3Of(event);
      var id := if Truthy(event.contractId) then event.contractId.value else freshId;
      var x := Extract(s3.bucket, s3.key, w);
      !Truthy(event.contractId) || (Truthy(s3.bucket) && Truthy(s3.key)) ==>
        && calls == x.calls
        && (x.outcome.Extracted? ==>
              var e := x.outcome.extraction;
              res == Ingested(id, s3.bucket, s3.key, e.text, e.lines, e.nLines, e.nChars))
        && (x.outcome.ExtractFailed? ==> res == ExtractionError(x.outcome.message, id, s3))
        && (x.outcome.ExtractUnfinished? ==> res == IngestUnfinished)
    ensures HandlerRun(res, calls) == Respond(event, freshId, w)
  {
    var contractId := event.contractId;
    var s3Info := S3Of(event);
    var bucket := s3Info.bucket;
    var key := s3Info.key;
    if !Truthy(contractId) {
      contractId := Some(freshId);
    } else if !Truthy(bucket) || !Truthy(key) {
      return IngestError(MISSING_S3_MESSAGE), [];
    }
    var run := ExtractTextFromS3(bucket, key, w);
    calls := run.calls;
    match run.outcome
    case ExtractFailed(m) =>
      res := ExtractionError(m, contractId.value, s3Info);
    case ExtractUnfinished =>
      res := IngestUnfinished;
    case Extracted(e) =>
      res := Ingested(contractId.value, bucket, key, e.text, e.lines, e.nLines, e.nChars);
  }

  /** Dispatch: a ".pdf" extension, in any case, starts a job and never uses the synchronous path. */
  lemma PdfGoesAsync(bucket: Option<string>, key: Option<string>, w: TextractWorld)
    requires GetExtension(key) == PDF
    ensures var calls := Extract(bucket, key, w).calls;
      && |calls| > 0 && calls[0] == StartDetection(bucket, key)
      && forall i :: 1 <= i < |calls| ==> calls[i].GetResults? || calls[i].Pause?
  {
  }

  /** Dispatch: every other extension makes exactly one synchronous detection and nothing else. */
  lemma OtherGoesSync(bucket: Option<string>, key: Option<string>, w: TextractWorld)
    requires GetExtension(key) != PDF
    ensures Extract(bucket, key, w).calls == [DetectText(bucket, key)]
  {
  }

  /**
   * The requests of a started job, as recorded in the calls: every results request names the
   * job, and the m-th one sends the token of the last SUCCEEDED page before it, or none.
   */
  lemma PdfRequestTokens(bucket: Option<string>, key: Option<string>, w: TextractWorld)
    requires GetExtension(key) == PDF && w.start(bucket, key).Ok?
    ensures var calls := Extract(bucket, key, w).calls;
      forall i :: 1 <= i < |calls| && calls[i].GetResults? ==> calls[i].jobId == w.start(bucket, key).value
    ensures var ft := RequestedTokens(Extract(bucket, key, w).calls);
      |ft| <= |w.responses| && forall m :: 0 <= m < |ft| ==> ft[m] == RequestToken(Carried(None, w.responses[..m]))
  {
    var jobId := w.start(bucket, key).value;
    var p := Poll(DefaultConfig(jobId), w.responses, w.clock);
    var calls := Extract(bucket, key, w).calls;
    assert calls == [StartDetection(bucket, key)] + PollCalls(jobId, p.effects);
    assert calls[1..] == PollCalls(jobId, p.effects);
    PollCallsTokens(jobId, p.effects);
    PollTokens(DefaultConfig(jobId), w.responses, w.clock);
  }

  lemma UpperCasePdfGoesAsync(bucket: Option<string>, w: TextractWorld)
    ensures Extract(bucket, Some("contracts/abc.PDF"), w).calls[0] == StartDetection(bucket, Some("contracts/abc.PDF"))
  {
    PdfExtension();
    PdfGoesAsync(bucket, Some("contracts/abc.PDF"), w);
  }

  /**
   * The extracted lines are the LINE texts of the synchronous answer, or those of the job's
   * SUCCEEDED pages up to the last one; the counts are those of the assembled text.
   */
  lemma ExtractedLines(bucket: Option<string>, key: Option<string>, w: TextractWorld)
    requires Extract(bucket, key, w).outcome.Extracted?
    ensures var e := Extract(bucket, key, w).outcome.extraction;
      && e == Assemble(e.lines)
      && e.nLines == |e.lines| && e.nChars == |e.text|
      && (GetExtension(key) != PDF ==> w.detect(bucket, key).Ok? && e.lines == LineTexts(w.detect(bucket, key).value))
      && (GetExtension(key) == PDF ==>
            w.start(bucket, key).Ok?
            && exists k :: FinishesAt(w.responses, 0, k) && e.lines == SucceededLines(w.responses[..k]))
  {
    if GetExtension(key) == PDF {
      PollLines(DefaultConfig(w.start(bucket, key).value), w.responses, w.clock);
    }
  }

  /**
   * An extraction error carries the message of the exception that was raised: the download or
   * detection's, the job start's, the failed job's, the timeout's, or a polling request's.
   */
  lemma ExtractFailedMessage(bucket: Option<string>, key: Option<string>, w: TextractWorld)
    requires Extract(bucket, key, w).outcome.ExtractFailed?
    ensures var m := Extract(bucket, key, w).outcome.message;
      && (GetExtension(key) != PDF ==> w.detect(bucket, key) == Err(m))
      && (GetExtension(key) == PDF ==>
            || w.start(bucket, key) == Err(m)
            || (w.start(bucket, key).Ok? &&
                var id := w.start(bucket, key).value;
                || m == FailedMessage(id)
                || m == TimeoutMessage(DefaultConfig(id))
                || exists k :: 0 <= k < |w.responses| && w.responses[k] == ServiceRaised(m)))
  {
    if GetExtension(key) == PDF && w.start(bucket, key).Ok? {
      var cfg := DefaultConfig(w.start(bucket, key).value);
      PollFailed(cfg, w.responses, w.clock);
      PollTimedOut(cfg, w.responses, w.clock);
      PollServiceError(cfg, w.responses, w.clock);
    }
  }

  /**
   * The asymmetry as written: an event with no `contract_id` and no `s3` object is not
   * rejected; the handler draws a fresh id and extracts with no bucket and no key, on the
   * synchronous path. The same event with a `contract_id` is rejected without any call.
   */
  lemma AbsentIdSkipsS3Check(freshId: string, w: TextractWorld)
    ensures var r := Respond(Event(None, None), freshId, w);
      && !r.result.IngestError?
      && r.calls == [DetectText(None, None)]
      && (r.result.Ingested? ==> r.result.contractId == freshId)
      && (r.result.ExtractionError? ==> r.result.contractId == freshId)
    ensures Respond(Event(Some("c-1"), None), freshId, w) == HandlerRun(IngestError(MISSING_S3_MESSAGE), [])
  {
    OtherGoesSync(None, None, w);
  }
}
