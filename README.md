# Contract ingestion and compliance agents, modelled in Dafny

The repository has two AWS Lambda handlers that together check a contract document:

- **Ingestion** (`src/agents/ingestion/main.py`) takes an S3 location and extracts the
  document's text with Textract. A key whose extension is `.pdf` goes through an asynchronous
  job: the handler starts the job and polls it until it succeeds, fails or runs out of time.
  Any other key goes through the synchronous call. The handler keeps only the `LINE` blocks,
  joins them with newlines and returns the text with its line and character counts.
- **Compliance** (`src/agents/compliance/main.py`) takes that result:
  - It validates the required fields.
  - It optionally asks a Bedrock model for advice.
  - It runs two local rule sets: four PII regexes, capped at ten matches per kind, and a list
    of SOX keywords, each reported once with a context snippet.
  - It merges all findings, the Bedrock ones first.
  - It counts the findings per severity.

For the functions it covers, the model keeps the branches, constants and messages of the code:
- the local rule scans and the severity summary;
- the validation, merge and result of both handlers;
- the prompt truncation;
- extension parsing and dispatch, block filtering and text assembly;
- the Textract polling loop.

The AWS services, the regex engine, the clock, the environment and `uuid` become inputs. The
Bedrock plumbing around the prompt is abstract, and "## Left out" lists what that leaves out.
The modules are:

- `Wrappers`, `Json`, `Seqs`, `Strings`: option and result types, parsed JSON values, sequence
  helpers, and the Python string builtins the handlers use (`lower`, `strip`, `find`, `in`,
  `join`). `split` is added only to state that the joined text splits back into its lines.
- `ComplianceRules`: the PII scan (`_local_pii_checks`) and the SOX scan (`_local_sox_checks`).
  Each is an imperative method with the loops of the source, proved equal to a specification
  function. The properties are proved about that function.
- `ComplianceSummary`: `_summarize_findings`, a loop over the findings that updates a counts map.
- `ComplianceAdvisory`: the prompt truncation, the outcome of `_call_bedrock_for_checks`, the
  `USE_BEDROCK` switch and the merge of the Bedrock result.
- `ComplianceHandler`: `lambda_handler`, covering validation, merge, local checks and the result.
- `IngestionText`: `_get_extension` (following `os.path.splitext`), `_extract_lines_from_blocks`
  and the text assembly of `extract_text_from_s3`.
- `TextractPoller`: `_get_text_detection_results`.
  - The input is a script of job responses and a script of clock readings.
  - The output is the poll outcome plus the sequence of service calls and sleeps the loop makes.
  - Each turn of the `while True` loop is one step function. The method `PollJob` runs those
    steps in a loop.
- `IngestionHandler`: `extract_text_from_s3`, with its dispatch on the extension, and `handler`.

Points where the code behaves differently from what a reader might expect:

- The prompt quotes at most 2000 characters of the document, and appends `"..."` when it cuts
  (`src/agents/compliance/main.py:90`).
- `_summarize_findings` counts a missing or unknown severity as low. But a severity that is a
  list or an object makes `sev in counts` raise `TypeError` (`src/agents/compliance/main.py:201`).
  Such a severity can only reach it through a Bedrock issue entry
  (`src/agents/compliance/main.py:267`). `SummarizeFindings` returns that error, and the
  counts add up exactly when no severity is unhashable.
- The SOX window takes 40 characters on each side of the keyword's first occurrence, so before
  clipping to the text it is `len(kw) + 80` characters wide rather than 80
  (`src/agents/compliance/main.py:182-183`; `ComplianceRules.WindowContext`).
- The comment at `src/agents/compliance/main.py:255` says Bedrock defaults to off. The code at
  line 256 uses the default `"true"`, so an unset `USE_BEDROCK` switches it on
  (`ComplianceAdvisory.UseBedrock`).
- The ingestion handler checks the bucket and key only when `contract_id` is truthy. With no id
  it draws a fresh one and goes on to extraction (`src/agents/ingestion/main.py:126-131`). The
  model reproduces this as written (`IngestionHandler.Handler`,
  `IngestionHandler.AbsentIdSkipsS3Check`).

## Model

| member | source | states |
|---|---|---|
| ComplianceRules.LocalPiiChecks | src/agents/compliance/main.py:153-171 | The nested loop with its early `break` returns exactly `PiiFindings`, the specification of the PII scan. |
| ComplianceRules.ScanKinds | src/agents/compliance/main.py:157-170 | The outer loop over the kinds, in order, yields the scan of every kind. Each kind starts with no finding of its own type, which is why the cap test sees only the current kind. |
| ComplianceRules.ScanMatches | src/agents/compliance/main.py:158-170 | The inner loop over one kind's matches appends one finding per match and stops once ten findings of that type exist. It appends exactly the first min(10, matches) findings, in match order. |
| ComplianceRules.PiiPerKind | src/agents/compliance/main.py:157-170 | For every kind, the findings of that type are exactly the blocks built from its first min(10, n) matches, in match order, each carrying its own match. So their number is min(n, 10), and the cap on one kind does not affect the others. |
| ComplianceRules.OfTypeScan | src/agents/compliance/main.py:157-170 | After scanning a prefix of distinct kinds, the findings of type k are k's capped block if k was scanned, and none otherwise. |
| ComplianceRules.PiiShape | src/agents/compliance/main.py:23-30 | Every PII finding has rule "gdpr_pii", severity "high" and a listed kind. The findings are grouped by kind in the order email, phone, ssn, date. |
| ComplianceRules.PiiScanShape | src/agents/compliance/main.py:157-167 | For any list of distinct kinds, each scanned finding is a PII finding whose kind's rank is below the number scanned, and ranks never decrease along the list. |
| ComplianceRules.KindNamesDiffer | src/agents/compliance/main.py:23-30 | The four kind names are pairwise different, so comparing the `type` strings is the same as comparing the kinds. |
| ComplianceRules.RuleSeverities | src/agents/compliance/main.py:46-50 | The lookups made with the rule severity table give "high" for "gdpr_pii" and "medium" for "sox_keyword". |
| ComplianceRules.LocalSoxChecks | src/agents/compliance/main.py:174-193 | The keyword loop returns exactly `SoxFindings`, the specification of the SOX scan. |
| ComplianceRules.ScanKeywords | src/agents/compliance/main.py:177-193 | For any keyword list, the loop yields the in-order concatenation of the per-keyword findings. |
| ComplianceRules.SoxFindingFor | src/agents/compliance/main.py:179-192 | One keyword contributes at most one finding, and that finding names the keyword. |
| ComplianceRules.SoxPerKeyword | src/agents/compliance/main.py:178-179 | The findings for keyword kw are its own finding when kw is listed, and none otherwise. There is exactly one such finding if kw is listed and occurs in the lower-cased text, and none otherwise. |
| ComplianceRules.SoxShape | src/agents/compliance/main.py:33-43 | Every SOX finding has rule "sox_keyword", severity "medium" and a listed keyword. The keywords appear in the order of the keyword list. |
| ComplianceRules.SoxScanShape | src/agents/compliance/main.py:178-192 | For any list of distinct keywords, the scanned findings are keyword findings over the scanned prefix, in list order. |
| ComplianceRules.WindowContext | src/agents/compliance/main.py:181-184 | Take idx as the first occurrence of the keyword in the lower-cased text. Then 0 <= start <= idx and idx+len(kw) <= end <= len(text). The stripped snippet is at most len(kw)+80 long and still contains the keyword case-insensitively. |
| ComplianceRules.SoxContext | src/agents/compliance/main.py:179-192 | For a listed keyword that occurs, the finding's snippet is the stripped window around its first occurrence, and the snippet contains the keyword. |
| Strings.Lower | src/agents/compliance/main.py:177 | Lower-casing keeps the length and maps each character on its own. |
| Strings.Find | src/agents/compliance/main.py:181 | `find` gives -1 when the pattern does not occur. Otherwise it gives an index where it occurs, with no occurrence before it. |
| Strings.Contains | src/agents/compliance/main.py:179 | `kw in lowtext` holds exactly when the keyword occurs at some index. |
| Strings.StripEmpty | src/agents/compliance/main.py:184 | `strip()` leaves nothing exactly when every character is whitespace. Whitespace is the `str.isspace` set: 9-13, 28-32, U+0085, U+00A0, U+1680, U+2000-U+200A, U+2028, U+2029, U+202F, U+205F and U+3000. |
| Strings.StripStretch | src/agents/compliance/main.py:184 | What `strip()` leaves of a string that is not all whitespace starts and ends with a non-space character. It is the slice after the leading whitespace, and every character outside it is whitespace. |
| Strings.StripKeepsOccurrence | src/agents/compliance/main.py:184 | When a keyword that neither starts nor ends with whitespace occurs in the lower-cased text, it still occurs after stripping, shifted by the leading whitespace. |
| Strings.JoinLength | src/agents/ingestion/main.py:102 | The length of `sep.join(parts)` is that of the parts plus one separator between each two of them. |
| Strings.SplitJoin | src/agents/ingestion/main.py:102 | Splitting a join on its one-character separator gives back the parts, when no part contains it. |
| ComplianceSummary.SummarizeFindings | src/agents/compliance/main.py:196-205 | It succeeds exactly when every severity is hashable. Then n_findings is the number of findings and each count is the number of findings in that bucket. Otherwise the error is the TypeError message of the first unhashable severity. |
| ComplianceSummary.BucketOf | src/agents/compliance/main.py:200-204 | A severity counts as high exactly when it is "high", and as medium exactly when it is "medium". It fails exactly when it is unhashable. Every other value, a missing one included, counts as low. |
| ComplianceSummary.CountsAddUp | src/agents/compliance/main.py:198-205 | When every severity is hashable, high + medium + low equals n_findings. |
| ComplianceSummary.UniformCounts | src/agents/compliance/main.py:198-204 | Findings that all carry the same severity string are all counted in that string's bucket, and in no other. |
| ComplianceAdvisory.PromptDocument | src/agents/compliance/main.py:90 | The document is the text itself when it is at most 2000 characters long. Otherwise it is the first 2000 characters followed by "...". It equals the text exactly when the text is short, or already has that truncated form. |
| ComplianceAdvisory.Prompt | src/agents/compliance/main.py:86-92 | The prompt starts with the fixed instruction head and ends with the fixed "Respond ONLY with valid JSON." tail. The document part lies between them, and the length is the sum of the three. |
| ComplianceAdvisory.PromptIgnoresTail | src/agents/compliance/main.py:90 | Two long texts with the same first 2000 characters give the same prompt. |
| ComplianceAdvisory.ModelId | src/agents/compliance/main.py:83 | The model id is the environment value when it is set and non-empty, and the fixed default otherwise. It is never empty. |
| ComplianceAdvisory.CallBedrock | src/agents/compliance/main.py:66-92 | Without a client the reply is the "unavailable" failure. With a client, the model id and the prompt are invoked. A parsed result gives the answer carrying that result and model id, and a recognised error gives the failure with its message. An answer arises only that way. None is returned exactly when the invocation ends in an unrecognised error. |
| ComplianceAdvisory.UseBedrock | src/agents/compliance/main.py:256 | Bedrock is used when the variable is unset. Otherwise it is used exactly when the lower-cased value is "1", "true" or "yes". |
| ComplianceAdvisory.UseBedrockExamples | src/agents/compliance/main.py:256 | "TRUE", "Yes" and "1" switch Bedrock on; "0", "false" and "" switch it off. |
| ComplianceAdvisory.MergeAdvisory | src/agents/compliance/main.py:257-268 | The two loops append exactly the advisory findings. `bedrock_used` is set exactly when the reply has a truthy object result, and nothing is appended otherwise. |
| ComplianceAdvisory.AdvisoryShape | src/agents/compliance/main.py:264-267 | There is one finding per `pii` entry and one per `issues` entry, the `pii` ones first. Each `pii` entry becomes ("gdpr_pii_bedrock", high). Each issue becomes ("sox_or_other_bedrock", the issue's severity), and each finding carries its entry as its detail. |
| ComplianceAdvisory.NonListContributesNothing | src/agents/compliance/main.py:264-266 | A missing or non-list `pii`/`issues` field contributes no entries. |
| ComplianceAdvisory.IssueSeverityCases | src/agents/compliance/main.py:267 | An issue's severity is its own "severity" field when it is an object that has one, and "medium" otherwise. |
| ComplianceHandler.MissingFieldsSound | src/agents/compliance/main.py:236-244 | Each required field is listed exactly when its value is empty. The list is empty exactly when all four are present, and it follows the order contract_id, s3.bucket, s3.key, extracted_text. |
| ComplianceHandler.OnlyTextMissing | src/agents/compliance/main.py:243-246 | The message for a missing text alone is "Missing required fields: extracted_text". |
| ComplianceHandler.IdAndKeyMissing | src/agents/compliance/main.py:236-246 | The message for a missing id and key is "Missing required fields: contract_id, s3.key". |
| ComplianceHandler.LambdaHandler | src/agents/compliance/main.py:208-292 | A non-object event gets "Event must be a JSON object". Missing fields get the joined message, and no findings are computed. Otherwise the result echoes the id, bucket and key, and lists the advisory findings, then the PII findings, then the SOX findings. It carries their summary, `bedrock_used` and the raw reply. A summary failure is reported as raised. |
| ComplianceHandler.RunChecks | src/agents/compliance/main.py:250-289 | With valid fields, the result lists the advisory findings, then the local PII and SOX findings, whatever the Bedrock outcome. It carries their summary and the Bedrock flag. |
| ComplianceHandler.LocalSummary | src/agents/compliance/main.py:272-279 | The local findings alone always summarise: high counts the PII findings, medium the SOX findings, and low is 0. |
| ComplianceHandler.AdvisoryFallback | src/agents/compliance/main.py:257-279 | When the Bedrock reply is missing, failed or not merged, the findings are only the local ones, counted as high PII and medium SOX, and none is unhashable. By RunChecks the result is then a success with `bedrock_used` false. |
| ComplianceHandler.LocalOnly | src/agents/compliance/main.py:256-275 | With Bedrock switched off, there is no reply, the findings are the local ones, and the summary cannot fail. |
| IngestionText.GetExtension | src/agents/ingestion/main.py:18-20 | The extension is empty for a missing key. A non-empty one starts with a dot and holds no further dot or slash. |
| IngestionText.SplitExt | src/agents/ingestion/main.py:19 | `root + ext` is the key. A non-empty ext starts at the last dot of the final path component, with a non-dot character before that dot in the component. An empty ext means no such dot exists. |
| IngestionText.ExtensionAt | src/agents/ingestion/main.py:18-20 | Suppose a dot is the last dot of the final path component and a non-dot character precedes it there. Then the extension is the lower-cased suffix starting at that dot. |
| IngestionText.NoExtension | src/agents/ingestion/main.py:18-20 | When no dot of the final path component has a non-dot character before it there, the extension is empty. |
| IngestionText.ExtensionIsSuffix | src/agents/ingestion/main.py:18-20 | The extension is a suffix of the lower-cased key. |
| IngestionText.PdfExtension | src/agents/ingestion/main.py:18-20 | "contracts/abc.PDF" has extension ".pdf". |
| IngestionText.LastExtension | src/agents/ingestion/main.py:18-20 | "a.tar.gz" has extension ".gz". |
| IngestionText.HiddenFileExtension | src/agents/ingestion/main.py:18-20 | "dir/.pdf" has no extension, because leading dots of the basename are not one. |
| IngestionText.DirectoryDot | src/agents/ingestion/main.py:18-20 | "archive.d/file" has no extension, because a dot in a directory name does not count. |
| IngestionText.NoKeyExtension | src/agents/ingestion/main.py:19 | An empty or missing key has no extension. |
| IngestionText.ExtractLines | src/agents/ingestion/main.py:23-28 | The loop returns exactly the line texts of the blocks. |
| IngestionText.LineTextsExact | src/agents/ingestion/main.py:23-28 | There is one output per `LINE` block that has a text. Every output is such a block's text, and every such text is output. The output is never longer than the input. |
| IngestionText.LineTextsAppend | src/agents/ingestion/main.py:25-27 | Filtering preserves order: the lines of a concatenation are the lines of each part, concatenated. |
| IngestionText.Assemble | src/agents/ingestion/main.py:102-108 | n_lines is the number of lines. n_chars is the length of the text: 0 for no lines, else the sum of the line lengths plus n_lines - 1. |
| IngestionText.AssembleSplits | src/agents/ingestion/main.py:102 | When no line contains a newline, splitting the text on newlines gives back the lines. |
| TextractPoller.StatusOf | src/agents/ingestion/main.py:64-78 | A status is SUCCEEDED or FAILED exactly when it equals that string. Anything else, a missing status included, is pending. |
| TextractPoller.Turn | src/agents/ingestion/main.py:55-81 | One turn of the loop makes the step the step function specifies. |
| TextractPoller.PollJob | src/agents/ingestion/main.py:48-83 | The loop's outcome and its calls are those of the poll specification. |
| TextractPoller.StepSucceeded | src/agents/ingestion/main.py:67-74 | A SUCCEEDED response appends its line texts. With a truthy NextToken, the loop continues at once with that token, with no clock reading and no sleep; otherwise it returns the lines. |
| TextractPoller.StepFailed | src/agents/ingestion/main.py:75-76 | A FAILED response raises "Textract job <id> failed" and does not read the clock. |
| TextractPoller.StepPending | src/agents/ingestion/main.py:77-81 | Any other status times out exactly when elapsed > wait_seconds. Otherwise the loop sleeps poll_interval and retries with the same token and lines. |
| TextractPoller.StepShape | src/agents/ingestion/main.py:55-81 | Each step makes one fetch with the current token. A step that finishes with lines saw a final SUCCEEDED. A continuing step carries the token and extends the lines only on SUCCEEDED. |
| TextractPoller.PollLines | src/agents/ingestion/main.py:64-74 | A successful poll returns the in-order concatenation of the LINE texts of every SUCCEEDED response. It stops right after the first SUCCEEDED response without a NextToken. |
| TextractPoller.PollTokens | src/agents/ingestion/main.py:56-59 | The m-th request carries the token of the last SUCCEEDED response before it, or none. Pending responses keep the previous token. |
| TextractPoller.PollTimedOut | src/agents/ingestion/main.py:79-80 | A timeout carries the timeout message, and some clock reading exceeded the start by more than wait_seconds. |
| TextractPoller.PollFailed | src/agents/ingestion/main.py:75-76 | A failure carries the failed-job message, and some response was FAILED. |
| TextractPoller.PollServiceError | src/agents/ingestion/main.py:55-62 | A service error passes on the message of a response that raised. |
| TextractPoller.TimeoutIsStrict | src/agents/ingestion/main.py:79 | With wait 1, an elapsed time of exactly 1 sleeps and retries; an elapsed time of 2 times out. |
| TextractPoller.TokenSurvivesPending | src/agents/ingestion/main.py:56-74 | A token from page 1 is still sent after an IN_PROGRESS response, and only LINE blocks are kept. |
| IngestionHandler.PollCalls | src/agents/ingestion/main.py:56-59 | Each fetch becomes a results request with its token, and each sleep a pause. |
| IngestionHandler.PollCallsTokens | src/agents/ingestion/main.py:56-59 | The results requests among the polling calls carry exactly the tokens of the poller's fetches, in order. |
| IngestionHandler.PdfRequestTokens | src/agents/ingestion/main.py:56-59 | For a started PDF job, every results request names the job id. The m-th request carries the token of the last SUCCEEDED response before it, or none. |
| IngestionHandler.ExtractTextFromS3 | src/agents/ingestion/main.py:86-108 | The method's calls and outcome are those of the extraction specification. |
| IngestionHandler.PdfGoesAsync | src/agents/ingestion/main.py:92-95 | A ".pdf" key starts an async job first, and afterwards only requests results or pauses; it never uses the sync call. |
| IngestionHandler.OtherGoesSync | src/agents/ingestion/main.py:96-97 | Any other extension makes exactly one sync detection call. |
| IngestionHandler.UpperCasePdfGoesAsync | src/agents/ingestion/main.py:87-93 | An upper-case ".PDF" key also starts an async job. |
| IngestionHandler.ExtractedLines | src/agents/ingestion/main.py:91-108 | A successful extraction is the assembly of its lines. These are the sync lines for a non-PDF key, and the lines of the SUCCEEDED responses up to the finishing one for a PDF key. |
| IngestionHandler.ExtractFailedMessage | src/agents/ingestion/main.py:91-100 | A failed extraction passes on the message of the sync call or the job start, the failed-job message, the timeout message or a polling error. |
| IngestionHandler.Handler | src/agents/ingestion/main.py:121-151 | A truthy contract_id with a missing bucket or key gets "Missing required fields: s3.bucket, s3.key" and makes no call. Otherwise the extraction runs with the given id, or with a fresh one when the id is absent or empty. Success echoes the id, bucket and key, with the counts as metadata. A failure reports its message with the id and location. |
| IngestionHandler.AbsentIdSkipsS3Check | src/agents/ingestion/main.py:126-134 | The event has no contract_id and no s3 object. The handler does not answer with the missing-fields error: it makes exactly the sync detection call with no bucket and no key, and reports the fresh id. The same event with a contract_id gets the error and makes no call. This is the bucket/key asymmetry, as written. |

## Left out

- `Strings.LowerChar`: `str.lower()` is modelled for ASCII letters only. It is length preserving, which the SOX index properties rely on; full Unicode lower-casing can change lengths.
- The PII regexes are not modelled: each kind's `finditer` is an input returning its ordered matches.
- `ComplianceRules.PiiFinding`: the finding stores its kind as the `PiiKind` enumeration. The Python `type` string is `KindName(kind)`, and `KindNamesDiffer` shows that the two comparisons agree.
- The Bedrock call is modelled as its outcome, and these parts of it are left out:
  - the client-name loop of `_safe_bedrock_client`, which becomes a boolean: whether a client could be created;
  - the payload constants;
  - the "Empty response from Bedrock" error;
  - the branch for a response body with `read`;
  - the matching of error messages against the listed substrings (`src/agents/compliance/main.py:58-63, 104-150`).

  An invocation yields a parsed result, an error the code reports, or None for an error whose message matches none of those substrings.
- AWS is abstract: boto3 clients, S3 `get_object`, the Textract calls and Bedrock `invoke_model`. Their results are inputs: a sync result, a job start result, a script of job responses and an invoke function.
- `json.dumps`/`json.loads` of the model output are abstract; the parsed result is a JSON value input.
- `time.time()` and `time.sleep` are a finite script of integer clock readings and recorded `Sleep` effects. The float `poll_interval` default of 2.0 is the integer 2.
- `TextractPoller.Poll`: a response or clock script that runs out before the loop stops ends in `Unfinished`. That outcome is an artefact of finite inputs, and `IngestUnfinished` follows from it.
- `uuid.uuid4()` is the `freshId` parameter. `USE_BEDROCK` and `BEDROCK_MODEL_ID` are optional string parameters, while `LOG_LEVEL`, logging and `print` are left out.
- Compliance event fields are modelled as strings or absent. A truthy non-string `contract_id`, bucket or key is not modelled, and neither is an `s3` value that is not an object.
- Ingestion event fields are modelled as strings or absent, and the event itself as an object. Three cases are not modelled:
  - a truthy non-string `contract_id`, which Python keeps and echoes;
  - a truthy `s3` value that is not an object, on which `s3_info.get` raises;
  - an event that is not an object.
- IngestionHandler.Handler: the extraction-error result echoes the `s3` object as its bucket and key only. Python echoes the whole object, including any extra keys (`src/agents/ingestion/main.py:136`).
- The `except` around the local checks (`src/agents/compliance/main.py:276-277`) is not modelled: the model's scans cannot raise.
- JSON numbers are integers only; floats are not modelled.
