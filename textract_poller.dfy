/**
 * `_get_text_detection_results`: polling an asynchronous Textract job. The service's answers
 * and the clock are inputs: the responses to successive requests, in order, and the
 * successive readings of `time.time()`.
 */
module TextractPoller {
  import opened Wrappers
  import opened Strings
  import opened IngestionText

  /** What one `get_document_text_detection` call gives: an exception, or a response. */
  datatype JobResponse =
    | ServiceRaised(message: string)
    | Reply(status: Option<string>, blocks: seq<Block>, nextToken: Option<string>)

  /** What the poller does to the outside world: a request, with or without `NextToken`, or a sleep. */
  datatype Effect = Fetch(token: Option<string>) | Sleep(seconds: nat)

  /**
   * How polling ends: the lines, the RuntimeError of a failed job, the TimeoutError, the
   * service's exception, or Unfinished when the given responses or clock readings run out.
   */
  datatype PollOutcome =
    | Lines(lines: seq<string>)
    | JobFailed(message: string)
    | TimedOut(message: string)
    | ServiceError(message: string)
    | Unfinished

  /** `job_id`, `wait_seconds` and `poll_interval`. */
  datatype PollConfig = PollConfig(jobId: string, waitSeconds: int, pollInterval: nat)

  /** The defaults `extract_text_from_s3` relies on. */
  function DefaultConfig(jobId: string): PollConfig
  {
    PollConfig(jobId, 60, 2)
  }

  /** The loop's variables: the next response to read, the next clock reading (`tick`), `next_token`, `all_lines`. */
  datatype PollState = PollState(next: nat, tick: nat, token: Option<string>, lines: seq<string>)

  /** The outcome of polling and everything it did on the way. */
  datatype PollRun = PollRun(outcome: PollOutcome, effects: seq<Effect>)

  /** One turn of the loop: go on from a new state, or end. */
  datatype Step = Continue(state: PollState, effects: seq<Effect>) | Stop(outcome: PollOutcome, effects: seq<Effect>)

  /** `if next_token:`. */
  predicate Truthy(t: Option<string>)
  {
    t.Some? && t.value != ""
  }

  /** The `NextToken` argument of a request. */
  function RequestToken(t: Option<string>): Option<string>
  {
    if Truthy(t) then t else None
  }

  function FailedMessage(jobId: string): string
  {
    "Textract job " + jobId + " failed"
  }

  function TimeoutMessage(cfg: PollConfig): string
  {
    "Textract job " + cfg.jobId + " did not complete within " + IntToString(cfg.waitSeconds) + " seconds"
  }

  /** The three ways the loop treats `JobStatus`. */
  datatype StatusClass = Succeeded | Failed | Pending

  /** `status == "SUCCEEDED"`, `status == "FAILED"`, or anything else, an absent status included. */
  function StatusOf(status: Option<string>): (c: StatusClass)
    ensures c == Succeeded <==> status == Some("SUCCEEDED")
    ensures c == Failed <==> status == Some("FAILED")
  {
    if status == Some("SUCCEEDED") then Succeeded
    else if status == Some("FAILED") then (assert |"FAILED"| != |"SUCCEEDED"|; Failed)
    else Pending
  }

  predicate IsSucceeded(r: JobResponse)
  {
    r.Reply? && StatusOf(r.status) == Succeeded
  }

  predicate IsFailed(r: JobResponse)
  {
    r.Reply? && StatusOf(r.status) == Failed
  }

  /** A response that neither finishes nor fails the job: IN_PROGRESS, or any other status. */
  predicate IsPending(r: JobResponse)
  {
    r.Reply? && !IsSucceeded(r) && !IsFailed(r)
  }

  /** One turn of the `while True` loop, from state `s` with the clock started at `started`. */
  function StepOf(cfg: PollConfig, rs: seq<JobResponse>, clock: seq<int>, started: int, s: PollState): (st: Step)
    requires s.next < |rs|
    ensures st.Continue? ==> st.state.next == s.next + 1
  {
    var fetch := Fetch(RequestToken(s.token));
    match rs[s.next]
    case ServiceRaised(m) => Stop(ServiceError(m), [fetch])
    case Reply(status, blocks, nt) =>
      match StatusOf(status)
      case Succeeded =>
        var lines := s.lines + LineTexts(blocks);
        if Truthy(nt) then Continue(PollState(s.next + 1, s.tick, nt, lines), [fetch])
        else Stop(Lines(lines), [fetch])
      case Failed =>
        Stop(JobFailed(FailedMessage(cfg.jobId)), [fetch])
      case Pending =>
        if s.tick >= |clock| then
          Stop(Unfinished, [fetch])
        else if clock[s.tick] - started > cfg.waitSeconds then
          Stop(TimedOut(TimeoutMessage(cfg)), [fetch])
        else
          Continue(PollState(s.next + 1, s.tick + 1, s.token, s.lines), [fetch, Sleep(cfg.pollInterval)])
  }

  /** The loop run to its end from state `s`. */
  function Run(cfg: PollConfig, rs: seq<JobResponse>, clock: seq<int>, started: int, s: PollState): PollRun
    decreases |rs| - s.next
  {
    if s.next >= |rs| then PollRun(Unfinished, [])
    else
      match StepOf(cfg, rs, clock, started, s)
      case Stop(o, es) => PollRun(o, es)
      case Continue(s2, es) =>
        var rest := Run(cfg, rs, clock, started, s2);
        PollRun(rest.outcome, es + rest.effects)
  }

  /** `_get_text_detection_results`: the first clock reading is `started`. */
  function Poll(cfg: PollConfig, rs: seq<JobResponse>, clock: seq<int>): PollRun
  {
    if |clock| == 0 then PollRun(Unfinished, [])
    else Run(cfg, rs, clock, clock[0], PollState(0, 1, None, []))
  }

  lemma RunUnfold(cfg: PollConfig, rs: seq<JobResponse>, clock: seq<int>, started: int, s: PollState)
    requires s.next < |rs|
    ensures var st := StepOf(cfg, rs, clock, started, s);
      var r := Run(cfg, rs, clock, started, s);
      && (st.Stop? ==> r == PollRun(st.outcome, st.effects))
      && (st.Continue? ==> var rest := Run(cfg, rs, clock, started, st.state);
          r == PollRun(rest.outcome, st.effects + rest.effects))
  {
  }

  /**
   * One turn of the `while True` loop: the request, with the token when it is truthy, then what
   * the response calls for: the service's exception, the lines of a SUCCEEDED page and the
   * `continue` or `break` on its NextToken, the RuntimeError of a FAILED job, or the timeout
   * check and the sleep.
   */
  method Turn(cfg: PollConfig, responses: seq<JobResponse>, clock: seq<int>, started: int, s: PollState)
    returns (st: Step)
    requires s.next < |responses|
    ensures st == StepOf(cfg, responses, clock, started, s)
  {
    var fetch := Fetch(RequestToken(s.token));
    var resp := responses[s.next];
    if resp.ServiceRaised? {
      return Stop(ServiceError(resp.message), [fetch]);
    }
    var status := StatusOf(resp.status);
    if status == Succeeded {
      var blockLines := ExtractLines(resp.blocks);
      var allLines := s.lines + blockLines;
      var nextToken := resp.nextToken;
      if Truthy(nextToken) {
        return Continue(PollState(s.next + 1, s.tick, nextToken, allLines), [fetch]);
      }
      return Stop(Lines(allLines), [fetch]);
    } else if status == Failed {
      return Stop(JobFailed(FailedMessage(cfg.jobId)), [fetch]);
    }
    if s.tick >= |clock| {
      return Stop(Unfinished, [fetch]);
    }
    if clock[s.tick] - started > cfg.waitSeconds {
      return Stop(TimedOut(TimeoutMessage(cfg)), [fetch]);
    }
    st := Continue(PollState(s.next + 1, s.tick + 1, s.token, s.lines), [fetch, Sleep(cfg.pollInterval)]);
  }

  /** `_get_text_detection_results` as a loop over the responses and the clock readings. */
  method PollJob(cfg: PollConfig, responses: seq<JobResponse>, clock: seq<int>)
    returns (outcome: PollOutcome, effects: seq<Effect>)
    ensures PollRun(outcome, effects) == Poll(cfg, responses, clock)
  {
    effects := [];
    if |clock| == 0 {
      return Unfinished, effects;
    }
    var started := clock[0];
    var s := PollState(0, 1, None, []);
    while s.next < |responses|
      invariant var rest := Run(cfg, responses, clock, started, s);
        Poll(cfg, responses, clock) == PollRun(rest.outcome, effects + rest.effects)
      decreases |responses| - s.next
    {
      var st := Turn(cfg, responses, clock, started, s);
      RunUnfold(cfg, responses, clock, started, s);
      if st.Stop? {
        return st.outcome, effects + st.effects;
      }
      var rest := Run(cfg, responses, clock, started, st.state).effects;
      assert effects + (st.effects + rest) == (effects + st.effects) + rest;
      effects := effects + st.effects;
      s := st.state;
    }
    outcome := Unfinished;
  }

  /**
   * A SUCCEEDED response: its LINE texts are added and its NextToken becomes the token; there
   * is no sleep and the clock is not read. Polling goes on exactly when that token is truthy.
   */
  lemma StepSucceeded(cfg: PollConfig, rs: seq<JobResponse>, clock: seq<int>, started: int, s: PollState)
    requires s.next < |rs| && IsSucceeded(rs[s.next])
    ensures var st := StepOf(cfg, rs, clock, started, s);
      var r := rs[s.next];
      && st.effects == [Fetch(RequestToken(s.token))]
      && (st.Continue? <==> Truthy(r.nextToken))
      && (st.Continue? ==> st.state == PollState(s.next + 1, s.tick, r.nextToken, s.lines + LineTexts(r.blocks)))
      && (st.Stop? ==> st.outcome == Lines(s.lines + LineTexts(r.blocks)))
    ensures forall clock2: seq<int>, started2: int ::
      StepOf(cfg, rs, clock2, started2, s) == StepOf(cfg, rs, clock, started, s)
  {
  }

  /** A FAILED response ends polling with the job's RuntimeError at once, whatever the clock says. */
  lemma StepFailed(cfg: PollConfig, rs: seq<JobResponse>, clock: seq<int>, started: int, s: PollState)
    requires s.next < |rs| && IsFailed(rs[s.next])
    ensures StepOf(cfg, rs, clock, started, s) == Stop(JobFailed(FailedMessage(cfg.jobId)), [Fetch(RequestToken(s.token))])
    ensures forall clock2: seq<int>, started2: int ::
      StepOf(cfg, rs, clock2, started2, s) == StepOf(cfg, rs, clock, started, s)
  {
  }

  /**
   * Any other status reads the clock: polling times out only when the elapsed time is strictly
   * above `wait_seconds`; otherwise it sleeps `poll_interval` and retries with the same token.
   */
  lemma StepPending(cfg: PollConfig, rs: seq<JobResponse>, clock: seq<int>, started: int, s: PollState)
    requires s.next < |rs| && IsPending(rs[s.next])
    ensures var st := StepOf(cfg, rs, clock, started, s);
      && st.effects[0] == Fetch(RequestToken(s.token))
      && (st.Stop? && st.outcome.TimedOut? <==> s.tick < |clock| && clock[s.tick] - started > cfg.waitSeconds)
      && (st.Continue? <==> s.tick < |clock| && clock[s.tick] - started <= cfg.waitSeconds)
      && (st.Continue? ==>
            st.state == PollState(s.next + 1, s.tick + 1, s.token, s.lines)
            && st.effects == [Fetch(RequestToken(s.token)), Sleep(cfg.pollInterval)])
  {
  }

  /** What one turn of the loop does to the token, the lines and the requests, whatever the status. */
  lemma StepShape(cfg: PollConfig, rs: seq<JobResponse>, clock: seq<int>, started: int, s: PollState)
    requires s.next < |rs|
    ensures var st := StepOf(cfg, rs, clock, started, s);
      var r := rs[s.next];
      && FetchTokens(st.effects) == [RequestToken(s.token)]
      && (st.Stop? && st.outcome.Lines? ==> Finishes(r) && st.outcome.lines == s.lines + LineTexts(r.blocks))
      && (st.Continue? ==>
            && r.Reply? && !IsFailed(r) && !Finishes(r)
            && st.state.token == Carried(s.token, [r])
            && st.state.lines == s.lines + (if IsSucceeded(r) then LineTexts(r.blocks) else [])
            && s.tick <= st.state.tick)
  {
    var st := StepOf(cfg, rs, clock, started, s);
    var r := rs[s.next];
    assert [r][..0] == [];
    assert FetchTokens(st.effects[1..]) == [] by {
      if |st.effects| > 1 {
        assert st.effects[1..][1..] == [];
      }
    }
  }

  /** The LINE texts of the SUCCEEDED responses of `rs`, in order. */
  function SucceededLines(rs: seq<JobResponse>): seq<string>
  {
    if |rs| == 0 then []
    else (if IsSucceeded(rs[0]) then LineTexts(rs[0].blocks) else []) + SucceededLines(rs[1..])
  }

  /** A response that ends polling with the lines: SUCCEEDED without a truthy NextToken. */
  predicate Finishes(r: JobResponse)
  {
    IsSucceeded(r) && !Truthy(r.nextToken)
  }

  /**
   * The responses `rs[from..k]` lead up to polling ending with the lines: the last one
   * finishes, and none before it raised, failed or finished.
   */
  predicate FinishesAt(rs: seq<JobResponse>, from: int, k: int)
  {
    && 0 <= from < k <= |rs|
    && Finishes(rs[k - 1])
    && forall j :: from <= j < k - 1 ==> rs[j].Reply? && !IsFailed(rs[j]) && !Finishes(rs[j])
  }

  lemma {:induction false} RunLines(cfg: PollConfig, rs: seq<JobResponse>, clock: seq<int>, started: int, s: PollState)
    requires Run(cfg, rs, clock, started, s).outcome.Lines?
    ensures exists k ::
      FinishesAt(rs, s.next, k)
      && Run(cfg, rs, clock, started, s).outcome.lines == s.lines + SucceededLines(rs[s.next..k])
    decreases |rs| - s.next
  {
    var st := StepOf(cfg, rs, clock, started, s);
    RunUnfold(cfg, rs, clock, started, s);
    StepShape(cfg, rs, clock, started, s);
    var r := rs[s.next];
    if st.Stop? {
      assert rs[s.next..s.next + 1][1..] == [];
      assert SucceededLines(rs[s.next..s.next + 1]) == LineTexts(r.blocks);
      assert FinishesAt(rs, s.next, s.next + 1);
    } else {
      var s2 := st.state;
      RunLines(cfg, rs, clock, started, s2);
      var k :| FinishesAt(rs, s2.next, k)
        && Run(cfg, rs, clock, started, s2).outcome.lines == s2.lines + SucceededLines(rs[s2.next..k]);
      FinishesEarlier(rs, s.next, k);
      var head := if IsSucceeded(r) then LineTexts(r.blocks) else [];
      assert Run(cfg, rs, clock, started, s).outcome == Run(cfg, rs, clock, started, s2).outcome;
      assert s2.lines == s.lines + head;
      LinesAssoc(s.lines, head, SucceededLines(rs[s2.next..k]));
    }
  }

  /**
   * Regrouping the accumulated lines. Stated apart to keep the concatenation terms out of
   * RunLines' proof context.
   */
  lemma LinesAssoc(a: seq<string>, b: seq<string>, c: seq<string>)
    ensures (a + b) + c == a + (b + c)
  {
  }

  /** One more response in front that neither raised, failed nor finished. */
  lemma FinishesEarlier(rs: seq<JobResponse>, n: nat, k: int)
    requires n + 1 < |rs| && FinishesAt(rs, n + 1, k)
    requires rs[n].Reply? && !IsFailed(rs[n]) && !Finishes(rs[n])
    ensures FinishesAt(rs, n, k)
    ensures SucceededLines(rs[n..k]) ==
      (if IsSucceeded(rs[n]) then LineTexts(rs[n].blocks) else []) + SucceededLines(rs[n + 1..k])
  {
    assert rs[n..k][1..] == rs[n + 1..k];
  }

  /**
   * Poller result: when polling returns lines, they are the LINE texts of the SUCCEEDED
   * responses, in order, up to the first one without a NextToken, which ends polling; no
   * response before it failed or raised.
   */
  lemma PollLines(cfg: PollConfig, rs: seq<JobResponse>, clock: seq<int>)
    requires Poll(cfg, rs, clock).outcome.Lines?
    ensures exists k :: FinishesAt(rs, 0, k) && Poll(cfg, rs, clock).outcome.lines == SucceededLines(rs[..k])
  {
    RunLines(cfg, rs, clock, clock[0], PollState(0, 1, None, []));
    assert rs[0..] == rs;
  }

  /** The token after the responses `rs`, starting from `t`: the NextToken of the last SUCCEEDED one. */
  function Carried(t: Option<string>, rs: seq<JobResponse>): Option<string>
  {
    if |rs| == 0 then t
    else if IsSucceeded(rs[|rs| - 1]) then rs[|rs| - 1].nextToken
    else Carried(t, rs[..|rs| - 1])
  }

  lemma {:induction false} CarriedCons(t: Option<string>, x: JobResponse, p: seq<JobResponse>)
    ensures Carried(t, [x] + p) == Carried(Carried(t, [x]), p)
    decreases |p|
  {
    if |p| != 0 {
      assert ([x] + p)[..|[x] + p| - 1] == [x] + p[..|p| - 1];
      CarriedCons(t, x, p[..|p| - 1]);
    }
  }

  /** The `NextToken` arguments of the requests among `es`, in order. */
  function FetchTokens(es: seq<Effect>): seq<Option<string>>
  {
    if |es| == 0 then [] else (if es[0].Fetch? then [es[0].token] else []) + FetchTokens(es[1..])
  }

  lemma {:induction false} FetchTokensAppend(a: seq<Effect>, b: seq<Effect>)
    ensures FetchTokens(a + b) == FetchTokens(a) + FetchTokens(b)
  {
    if |a| == 0 {
      assert a + b == b;
    } else {
      assert (a + b)[0] == a[0];
      assert (a + b)[1..] == a[1..] + b;
      FetchTokensAppend(a[1..], b);
    }
  }

  /**
   * The `NextToken` arguments of requests made for each response of `rs` in turn, starting from
   * token `t`: each request passes the current token when it is truthy, and each response then
   * carries the token over.
   */
  function ExpectedTokens(t: Option<string>, rs: seq<JobResponse>): (r: seq<Option<string>>)
    ensures |r| == |rs|
    decreases |rs|
  {
    if |rs| == 0 then [] else [RequestToken(t)] + ExpectedTokens(Carried(t, [rs[0]]), rs[1..])
  }

  /** The `m`-th expected request passes the token carried over the responses before it. */
  lemma {:induction false} ExpectedTokensAt(t: Option<string>, rs: seq<JobResponse>, m: nat)
    requires m < |rs|
    ensures ExpectedTokens(t, rs)[m] == RequestToken(Carried(t, rs[..m]))
    decreases m
  {
    if m > 0 {
      var t2 := Carried(t, [rs[0]]);
      ExpectedTokensAt(t2, rs[1..], m - 1);
      assert rs[..m] == [rs[0]] + rs[1..][..m - 1];
      CarriedCons(t, rs[0], rs[1..][..m - 1]);
    }
  }

  lemma {:induction false} RunTokens(cfg: PollConfig, rs: seq<JobResponse>, clock: seq<int>, started: int, s: PollState)
    requires s.next <= |rs|
    ensures FetchTokens(Run(cfg, rs, clock, started, s).effects) <= ExpectedTokens(s.token, rs[s.next..])
    decreases |rs| - s.next
  {
    if s.next < |rs| {
      var st := StepOf(cfg, rs, clock, started, s);
      RunEffects(cfg, rs, clock, started, s);
      StepTokens(cfg, rs, clock, started, s);
      var rest := if st.Continue? then Run(cfg, rs, clock, started, st.state).effects else [];
      FetchTokensAppend(st.effects, rest);
      var t2 := Carried(s.token, [rs[s.next]]);
      assert rs[s.next..][1..] == rs[s.next + 1..];
      assert ExpectedTokens(s.token, rs[s.next..]) == [RequestToken(s.token)] + ExpectedTokens(t2, rs[s.next + 1..]);
      if st.Continue? {
        RunTokens(cfg, rs, clock, started, st.state);
      } else {
        assert FetchTokens(rest) == [];
      }
    }
  }

  /** The effects of a run: those of its first turn, then those of the run from the next state. */
  lemma RunEffects(cfg: PollConfig, rs: seq<JobResponse>, clock: seq<int>, started: int, s: PollState)
    requires s.next < |rs|
    ensures var st := StepOf(cfg, rs, clock, started, s);
      Run(cfg, rs, clock, started, s).effects
        == st.effects + (if st.Continue? then Run(cfg, rs, clock, started, st.state).effects else [])
  {
    RunUnfold(cfg, rs, clock, started, s);
    var st := StepOf(cfg, rs, clock, started, s);
    assert st.Stop? ==> st.effects + [] == st.effects;
  }

  /** One turn makes one request, with the token it starts from, and carries the token over its response. */
  lemma StepTokens(cfg: PollConfig, rs: seq<JobResponse>, clock: seq<int>, started: int, s: PollState)
    requires s.next < |rs|
    ensures var st := StepOf(cfg, rs, clock, started, s);
      && FetchTokens(st.effects) == [RequestToken(s.token)]
      && (st.Continue? ==> st.state.next == s.next + 1 && st.state.token == Carried(s.token, [rs[s.next]]))
  {
    StepShape(cfg, rs, clock, started, s);
  }

  /**
   * Token carry-over: the `m`-th request passes the NextToken of the last SUCCEEDED response
   * before it, when that token is truthy, and no token otherwise; a response with any other
   * status leaves the token as it was.
   */
  lemma PollTokens(cfg: PollConfig, rs: seq<JobResponse>, clock: seq<int>)
    ensures var ft := FetchTokens(Poll(cfg, rs, clock).effects);
      |ft| <= |rs| && forall m :: 0 <= m < |ft| ==> ft[m] == RequestToken(Carried(None, rs[..m]))
  {
    if |clock| != 0 {
      RunTokens(cfg, rs, clock, clock[0], PollState(0, 1, None, []));
      assert rs[0..] == rs;
      var ft := FetchTokens(Poll(cfg, rs, clock).effects);
      forall m | 0 <= m < |ft|
        ensures ft[m] == RequestToken(Carried(None, rs[..m]))
      {
        ExpectedTokensAt(None, rs, m);
      }
    }
  }

  lemma {:induction false} RunTimedOut(cfg: PollConfig, rs: seq<JobResponse>, clock: seq<int>, started: int, s: PollState)
    requires Run(cfg, rs, clock, started, s).outcome.TimedOut?
    ensures Run(cfg, rs, clock, started, s).outcome.message == TimeoutMessage(cfg)
    ensures exists c :: s.tick <= c < |clock| && clock[c] - started > cfg.waitSeconds
    decreases |rs| - s.next
  {
    var st := StepOf(cfg, rs, clock, started, s);
    RunUnfold(cfg, rs, clock, started, s);
    if st.Continue? {
      RunTimedOut(cfg, rs, clock, started, st.state);
    } else {
      assert clock[s.tick] - started > cfg.waitSeconds;
    }
  }

  /**
   * The timeout: polling raises TimeoutError only after a clock reading more than
   * `wait_seconds` after the first one, so never while every reading stays within the budget.
   */
  lemma PollTimedOut(cfg: PollConfig, rs: seq<JobResponse>, clock: seq<int>)
    ensures Poll(cfg, rs, clock).outcome.TimedOut? ==>
      Poll(cfg, rs, clock).outcome.message == TimeoutMessage(cfg)
      && exists c :: 1 <= c < |clock| && clock[c] - clock[0] > cfg.waitSeconds
  {
    if Poll(cfg, rs, clock).outcome.TimedOut? {
      RunTimedOut(cfg, rs, clock, clock[0], PollState(0, 1, None, []));
    }
  }

  lemma {:induction false} RunFailed(cfg: PollConfig, rs: seq<JobResponse>, clock: seq<int>, started: int, s: PollState)
    requires Run(cfg, rs, clock, started, s).outcome.JobFailed?
    ensures Run(cfg, rs, clock, started, s).outcome.message == FailedMessage(cfg.jobId)
    ensures exists k :: s.next <= k < |rs| && IsFailed(rs[k])
    decreases |rs| - s.next
  {
    var st := StepOf(cfg, rs, clock, started, s);
    RunUnfold(cfg, rs, clock, started, s);
    if st.Continue? {
      RunFailed(cfg, rs, clock, started, st.state);
    } else {
      assert IsFailed(rs[s.next]);
    }
  }

  lemma {:induction false} RunServiceError(cfg: PollConfig, rs: seq<JobResponse>, clock: seq<int>, started: int, s: PollState)
    requires Run(cfg, rs, clock, started, s).outcome.ServiceError?
    ensures exists k :: s.next <= k < |rs| && rs[k] == ServiceRaised(Run(cfg, rs, clock, started, s).outcome.message)
    decreases |rs| - s.next
  {
    var st := StepOf(cfg, rs, clock, started, s);
    RunUnfold(cfg, rs, clock, started, s);
    if st.Continue? {
      RunServiceError(cfg, rs, clock, started, st.state);
    } else {
      assert rs[s.next].ServiceRaised?;
    }
  }

  /** An exception of the service is passed on unchanged, and only when a request raised it. */
  lemma PollServiceError(cfg: PollConfig, rs: seq<JobResponse>, clock: seq<int>)
    ensures Poll(cfg, rs, clock).outcome.ServiceError? ==>
      exists k :: 0 <= k < |rs| && rs[k] == ServiceRaised(Poll(cfg, rs, clock).outcome.message)
  {
    if Poll(cfg, rs, clock).outcome.ServiceError? {
      RunServiceError(cfg, rs, clock, clock[0], PollState(0, 1, None, []));
    }
  }

  /** A RuntimeError comes only from a FAILED response, and names the job. */
  lemma PollFailed(cfg: PollConfig, rs: seq<JobResponse>, clock: seq<int>)
    ensures Poll(cfg, rs, clock).outcome.JobFailed? ==>
      Poll(cfg, rs, clock).outcome.message == FailedMessage(cfg.jobId) && exists k :: 0 <= k < |rs| && IsFailed(rs[k])
  {
    if Poll(cfg, rs, clock).outcome.JobFailed? {
      RunFailed(cfg, rs, clock, clock[0], PollState(0, 1, None, []));
    }
  }

  /**
   * With a 1-second budget and readings 0, 1, 2: the first IN_PROGRESS answer is one second
   * in, which is not over the budget, so the poller sleeps; the second is two seconds in.
   */
  lemma TimeoutIsStrict()
    ensures var cfg := PollConfig("job-1", 1, 2);
      var pending := Reply(Some("IN_PROGRESS"), [], None);
      Poll(cfg, [pending, pending, pending], [0, 1, 2])
        == PollRun(TimedOut(TimeoutMessage(cfg)), [Fetch(None), Sleep(2), Fetch(None)])
  {
    var cfg := PollConfig("job-1", 1, 2);
    var pending := Reply(Some("IN_PROGRESS"), [], None);
    var rs, clock := [pending, pending, pending], [0, 1, 2];
    assert IsPending(pending) by {
      assert |"IN_PROGRESS"| != |"SUCCEEDED"| && |"IN_PROGRESS"| != |"FAILED"|;
    }
    var s0 := PollState(0, 1, None, []);
    StepPending(cfg, rs, clock, 0, s0);
    var s1 := PollState(1, 2, None, []);
    StepPending(cfg, rs, clock, 0, s1);
    RunUnfold(cfg, rs, clock, 0, s0);
    RunUnfold(cfg, rs, clock, 0, s1);
  }

  /**
   * A NextToken from a SUCCEEDED page is kept through an IN_PROGRESS answer and sent again;
   * the lines of both SUCCEEDED pages are returned, and WORD blocks are dropped.
   */
  lemma TokenSurvivesPending()
    ensures var page1 := Reply(Some("SUCCEEDED"), [Block(Some("LINE"), Some("a"))], Some("t1"));
      var waiting := Reply(Some("IN_PROGRESS"), [], None);
      var page2 := Reply(Some("SUCCEEDED"), [Block(Some("LINE"), Some("b")), Block(Some("WORD"), Some("b"))], None);
      Poll(DefaultConfig("job-2"), [page1, waiting, page2], [0, 5])
        == PollRun(Lines(["a", "b"]), [Fetch(None), Fetch(Some("t1")), Sleep(2), Fetch(Some("t1"))])
  {
    var cfg := DefaultConfig("job-2");
    var page1 := Reply(Some("SUCCEEDED"), [Block(Some("LINE"), Some("a"))], Some("t1"));
    var waiting := Reply(Some("IN_PROGRESS"), [], None);
    var page2 := Reply(Some("SUCCEEDED"), [Block(Some("LINE"), Some("b")), Block(Some("WORD"), Some("b"))], None);
    var rs, clock := [page1, waiting, page2], [0, 5];
    assert IsPending(waiting) by {
      assert |"IN_PROGRESS"| != |"SUCCEEDED"| && |"IN_PROGRESS"| != |"FAILED"|;
    }
    assert LineTexts(page1.blocks) == ["a"];
    assert LineTexts(page2.blocks) == ["b"] by {
      assert "WORD"[0] != "LINE"[0];
    }
    var s0 := PollState(0, 1, None, []);
    StepSucceeded(cfg, rs, clock, 0, s0);
    var s1 := PollState(1, 1, Some("t1"), ["a"]);
    StepPending(cfg, rs, clock, 0, s1);
    var s2 := PollState(2, 2, Some("t1"), ["a"]);
    StepSucceeded(cfg, rs, clock, 0, s2);
    RunUnfold(cfg, rs, clock, 0, s0);
    RunUnfold(cfg, rs, clock, 0, s1);
    RunUnfold(cfg, rs, clock, 0, s2);
  }
}
