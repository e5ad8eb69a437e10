/**
 * The firmware update of `DFUController` (core/dfu_controller.py): every
 * line of the loaded file is sent through feature 0x00D0, and the device's
 * status byte decides whether to go on, wait, resend or give up.
 *
 * The worker thread is replaced by a pure run of the loop. What the device
 * does is an input: `events` holds, in order, the outcome of every exchange
 * the loop makes, be it a packet sent through `construct_and_process_request`
 * (already validated, None when nothing acceptable came back) or a frame
 * popped from the input queue by `get_buffer_in_req` (None when the queue was
 * empty). When the events run out while a line still waits for its answer
 * the run ends `Stalled`: the source would keep polling and resending.
 *
 * `time.sleep` is not modelled; the timeout is kept in milliseconds, so
 * `attempt_cnt * 0.001 > timeout_s` reads `attempt > timeoutMs`.
 */
module DfuController {
  import opened Wrappers
  import opened Frame
  import opened Device
  import opened Connection
  import opened FeatureCall
  import opened DfuFile
  import opened Bits

  const DfuFeatureId := 0x00D0

  /** `dfu_start` sends the header line with function 4. */
  const StartFunction := 4

  /** `restart` asks the entity to restart with function 5. */
  const RestartFunction := 5

  /** The status the loop treats as "not answered yet", also given to a missing response. */
  const WaitStatus := 3

  /** The statuses that accept a line: success and the three "DFU success" codes. */
  predicate Accepts(status: int) {
    status == 1 || status == 2 || status == 5 || status == 6
  }

  /**
   * The arguments of `__dfu_process` that shape the run: the timeout, whether
   * a progress and an error callback are installed, and whether to restart.
   */
  datatype Config = Config(timeoutMs: nat, progress: bool, onError: bool, restart: bool)

  /** What the loop does that can be seen from outside, in order. */
  datatype Action =
    | Send(line: nat, func: int, params: seq<int>)   // a packet to feature 0x00D0
    | Poll                                            // one `get_buffer_in_req`
    | Progress(line: nat, total: nat)                 // the progress callback
    | ErrorReport(line: nat, params: seq<int>)        // the error callback
    | Restart(params: seq<int>)                       // the restart request, function 5

  /**
   * How the loop stopped: after the last line; on an error status; with the
   * events used up; or by an exception that ends the worker thread, at the
   * line being handled or, for the restart after the last line, at `totLine`.
   */
  datatype End =
    | Completed
    | Aborted(line: nat)
    | Stalled(line: nat)
    | Failed(line: nat, exc: Exc)

  datatype Run = Run(data: DfuData, actions: seq<Action>, end: End)

  /**
   * `__dfu_get_res_status`: a missing response reads as the wait status,
   * otherwise the status is the fifth param, and a reply with fewer params
   * raises IndexError.
   */
  function ResponseStatus(res: Option<Request>): (r: Result<int>)
    ensures r.Raised? <==> res.Some? && |res.value.params| < 5
    ensures r.Raised? ==> r.exc == IndexError
    ensures r.Ok? && r.value != WaitStatus ==> res.Some? && r.value == res.value.params[4]
    ensures res.None? ==> r == Ok(WaitStatus)
  {
    match res
    case None => Ok(WaitStatus)
    case Some(rep) => if |rep.params| < 5 then Raised(IndexError) else Ok(rep.params[4])
  }

  /** The function number line `line` goes out with, when line `from` goes out with `seqNb`. */
  function FuncFor(seqNb: int, from: nat, line: nat): int
  {
    if line == 0 then StartFunction else (seqNb + (line - from)) % 4
  }

  /**
   * `__dfu_send_packet`: line 0 goes to `dfu_start`, every other line to
   * `dfu_cmd_data` with the current sequence number as function. Without a
   * file the slicing raises TypeError.
   */
  function Packet(d: DfuData, line: nat): (r: Result<Action>)
    ensures d.content.None? ==> r == Raised(TypeError)
    ensures d.content.Some? ==>
      && r.Ok? && r.value.Send? && r.value.line == line
      && r.value.params == ExtractLine(d.content.value, line)
      && (line == 0 ==> r.value.func == StartFunction)
      && (0 <= d.seqNb < 4 ==> r.value.func == FuncFor(d.seqNb, line, line))
  {
    match d.content
    case None => Raised(TypeError)
    case Some(bytes) =>
      Ok(Send(line, if line == 0 then StartFunction else d.seqNb, ExtractLine(bytes, line)))
  }

  /** The params of `restart(entityIdx)`: the entity, then fifteen zeros. */
  function RestartParams(entityIdx: int): (p: seq<int>)
    ensures |p| == 16 && p[0] == entityIdx
    ensures forall i :: 1 <= i < 16 ==> p[i] == 0
  {
    [entityIdx] + seq(15, _ => 0)
  }

  function Prepend(pre: seq<Action>, r: Run): Run
  {
    r.(actions := pre + r.actions)
  }

  /** A send the run from line `from` makes: a line of the file, in range, with its function. */
  predicate SentFrom(d: DfuData, from: nat, r: Run, a: Action)
    requires a.Send?
  {
    && from <= a.line < d.totLine
    && (r.end.Completed? || a.line <= r.end.line)
    && d.content.Some? && a.params == ExtractLine(d.content.value, a.line)
    && (a.line == 0 ==> a.func == StartFunction)
    && (0 <= d.seqNb < 4 ==> a.func == FuncFor(d.seqNb, from, a.line))
  }

  /**
   * The end of a run whose every line was accepted and that then asked for a
   * restart: `X00D0.restart` sends its request and calls
   * `reconnect_with_name`, which `ConnectedDevice` does not define, so the
   * worker thread dies with AttributeError before `dfu_ongoing` is cleared.
   */
  function RestartFailure(d: DfuData): End
  {
    Failed(d.totLine, AttributeError)
  }

  /** Every line of the file was accepted: the run completed, or died in the restart. */
  predicate AllAccepted(d: DfuData, r: Run)
  {
    r.end.Completed? || r.end == RestartFailure(d)
  }

  /** What every run from line `from` guarantees; shared by the two halves of the loop. */
  predicate RunFrom(d: DfuData, cfg: Config, from: nat, r: Run)
  {
    && r.data == d.(seqNb := r.data.seqNb, dfuOngoing := r.data.dfuOngoing)
    && (r.end.Completed? ==> !r.data.dfuOngoing && !cfg.restart)
    && (!r.end.Completed? ==> r.data.dfuOngoing == d.dfuOngoing && from <= r.end.line <= d.totLine)
    && (!r.end.Completed? && r.end.line == d.totLine ==> r.end == RestartFailure(d))
    && (AllAccepted(d, r) && 0 <= d.seqNb < 4 ==> r.data.seqNb == (d.seqNb + (d.totLine - from)) % 4)
    && (forall i :: 0 <= i < |r.actions| && r.actions[i].Send? ==> SentFrom(d, from, r, r.actions[i]))
    && (forall i :: 0 <= i < |r.actions| && r.actions[i].Progress? ==>
          && cfg.progress && from <= r.actions[i].line < d.totLine && r.actions[i].total == d.totLine
          && (r.end.Completed? || r.actions[i].line < r.end.line))
    && (forall i :: 0 <= i < |r.actions| && r.actions[i].ErrorReport? ==>
          && cfg.onError && r.end.Aborted? && i == |r.actions| - 1 && r.actions[i].line == r.end.line
          && |r.actions[i].params| >= 5 && !Accepts(r.actions[i].params[4])
          && r.actions[i].params[4] != WaitStatus)
    && (forall i :: 0 <= i < |r.actions| && r.actions[i].Restart? ==>
          r.end == RestartFailure(d) && i == |r.actions| - 1)
    && (r.end == RestartFailure(d) ==>
          cfg.restart && |r.actions| > 0 && r.actions[|r.actions| - 1] == Restart(RestartParams(d.entityIdx)))
  }

  /**
   * After the last line: with `restart` the restart request goes out and the
   * thread dies in it, the update still marked ongoing; without it the update
   * is no longer ongoing.
   */
  function Finish(d: DfuData, cfg: Config): (r: Run)
  {
    if cfg.restart then Run(d, [Restart(RestartParams(d.entityIdx))], RestartFailure(d))
    else Run(d.(dfuOngoing := false), [], Completed)
  }

  /** The `for line_nb` loop from line `line` on. */
  function ProcessFrom(d: DfuData, cfg: Config, events: seq<Option<Request>>, line: nat): (r: Run)
    requires line <= d.totLine
    ensures RunFrom(d, cfg, line, r)
    decreases |events|, d.totLine - line, 2
  {
    if line == d.totLine then Finish(d, cfg)
    else
      match Packet(d, line)
      case Raised(e) => Run(d, [], Failed(line, e))
      case Ok(pkt) =>
        if events == [] then Run(d, [pkt], Stalled(line))
        else
          var r := Await(d, cfg, events[1..], line, 1, events[0], pkt);
          PrependSend(d, cfg, line, pkt, r);
          Prepend([pkt], r)
  }

  /**
   * The `while not resp_ok` loop of one line, with `res` the response in
   * hand and `attempt` the attempt counter: an accepting status moves on to
   * the next line, the wait status polls, any other status aborts.
   */
  function Await(d: DfuData, cfg: Config, events: seq<Option<Request>>, line: nat, attempt: int,
                 res: Option<Request>, pkt: Action): (r: Run)
    requires line < d.totLine
    requires Packet(d, line) == Ok(pkt)
    ensures RunFrom(d, cfg, line, r)
    decreases |events|, d.totLine - line, 1
  {
    match ResponseStatus(res)
    case Raised(e) => Run(d, [], Failed(line, e))
    case Ok(status) =>
      if Accepts(status) then
        var rest := ProcessFrom(IncSeqNb(d), cfg, events, line + 1);
        AcceptedLine(d, cfg, line, rest);
        if cfg.progress then Prepend([Progress(line, d.totLine)], rest) else rest
      else if status == WaitStatus then Retry(d, cfg, events, line, attempt, pkt)
      else
        Run(d, if cfg.onError then [ErrorReport(line, res.value.params)] else [], Aborted(line))
  }

  /**
   * The wait status: poll the input queue, count the attempt, and once the
   * attempts exceed the timeout resend the line and count from 1 again. The
   * frame that poll popped is then dropped.
   */
  function Retry(d: DfuData, cfg: Config, events: seq<Option<Request>>, line: nat, attempt: int,
                 pkt: Action): (r: Run)
    requires line < d.totLine
    requires Packet(d, line) == Ok(pkt)
    ensures RunFrom(d, cfg, line, r)
    decreases |events|, d.totLine - line, 0
  {
    if events == [] then Run(d, [Poll], Stalled(line))
    else if attempt + 1 > cfg.timeoutMs then
      if |events| < 2 then
        PrependSend(d, cfg, line, pkt, Run(d, [], Stalled(line)));
        Run(d, [Poll, pkt], Stalled(line))
      else
        var r := Await(d, cfg, events[2..], line, 1, events[1], pkt);
        PrependSend(d, cfg, line, pkt, r);
        PrependPoll(d, cfg, line, Prepend([pkt], r));
        assert [Poll] + ([pkt] + r.actions) == [Poll, pkt] + r.actions;
        Prepend([Poll, pkt], r)
    else
      var r := Await(d, cfg, events[1..], line, attempt + 1, events[0], pkt);
      PrependPoll(d, cfg, line, r);
      Prepend([Poll], r)
  }

  /** Sending this line's packet in front of a run from the same line keeps the run's guarantees. */
  lemma {:induction false} PrependSend(d: DfuData, cfg: Config, line: nat, pkt: Action, r: Run)
    requires line < d.totLine && Packet(d, line) == Ok(pkt)
    requires RunFrom(d, cfg, line, r)
    ensures RunFrom(d, cfg, line, Prepend([pkt], r))
  {
    var r' := Prepend([pkt], r);
    forall i | 0 <= i < |r'.actions|
      ensures r'.actions[i].Send? ==> SentFrom(d, line, r', r'.actions[i])
    {
      if i > 0 {
        assert r'.actions[i] == r.actions[i - 1];
      }
    }
  }

  /** A poll in front of a run keeps the run's guarantees. */
  lemma {:induction false} PrependPoll(d: DfuData, cfg: Config, line: nat, r: Run)
    requires RunFrom(d, cfg, line, r)
    ensures RunFrom(d, cfg, line, Prepend([Poll], r))
  {
    var r' := Prepend([Poll], r);
    forall i | 0 <= i < |r'.actions|
      ensures r'.actions[i].Send? ==> SentFrom(d, line, r', r'.actions[i])
    {
      if i > 0 {
        assert r'.actions[i] == r.actions[i - 1];
      }
    }
  }

  lemma {:induction false} ModShift(s: int, k: int)
    ensures ((s + 1) % 4 + k) % 4 == (s + 1 + k) % 4
  {
  }

  /**
   * An accepted line: the run from the next line, with the sequence number
   * advanced, is a run from this line, with or without the progress report
   * in front.
   */
  lemma {:induction false} AcceptedLine(d: DfuData, cfg: Config, line: nat, rest: Run)
    requires line < d.totLine
    requires RunFrom(IncSeqNb(d), cfg, line + 1, rest)
    ensures RunFrom(d, cfg, line, rest)
    ensures cfg.progress ==> RunFrom(d, cfg, line, Prepend([Progress(line, d.totLine)], rest))
  {
    NextLineSends(d, cfg, line, rest);
    if cfg.progress {
      var r' := Prepend([Progress(line, d.totLine)], rest);
      forall i | 0 <= i < |r'.actions|
        ensures r'.actions[i].Send? ==> SentFrom(d, line, r', r'.actions[i])
      {
        if i > 0 {
          assert r'.actions[i] == rest.actions[i - 1];
        }
      }
    }
  }

  lemma {:induction false} NextLineSends(d: DfuData, cfg: Config, line: nat, rest: Run)
    requires line < d.totLine
    requires RunFrom(IncSeqNb(d), cfg, line + 1, rest)
    ensures RunFrom(d, cfg, line, rest)
  {
    var d' := IncSeqNb(d);
    if 0 <= d.seqNb < 4 {
      assert d'.seqNb == (d.seqNb + 1) % 4;
      ModShift(d.seqNb, d.totLine - line - 1);
      forall i | 0 <= i < |rest.actions| && rest.actions[i].Send?
        ensures rest.actions[i].func == FuncFor(d.seqNb, line, rest.actions[i].line)
      {
        ModShift(d.seqNb, rest.actions[i].line - line - 1);
      }
    }
  }

  /**
   * `__dfu_process` as written: the update is marked ongoing and the loop
   * runs from the first line. Every packet is a line of the file, line 0
   * with the start function and line n with the sequence number n steps on;
   * nothing is sent past the line the run stopped at; an error report is the
   * last thing an aborted run does and carries a status that is neither
   * accepting nor waiting. A run that gets every line accepted advances the
   * sequence number once per line; with `restart` it then sends the restart
   * request, last, and dies in `reconnect_with_name` with the update still
   * ongoing, so it completes only without `restart`.
   */
  function Process(d: DfuData, cfg: Config, events: seq<Option<Request>>): (r: Run)
    ensures r.data == d.(seqNb := r.data.seqNb, dfuOngoing := r.data.dfuOngoing)
    ensures r.end.Completed? <==> !r.data.dfuOngoing
    ensures r.end.Completed? ==> !cfg.restart
    ensures r.end == RestartFailure(d) ==> cfg.restart
    ensures AllAccepted(d, r) && 0 <= d.seqNb < 4 ==> r.data.seqNb == (d.seqNb + d.totLine) % 4
    ensures !AllAccepted(d, r) ==> r.end.line < d.totLine
    ensures forall i :: 0 <= i < |r.actions| && r.actions[i].Send? ==>
      && r.actions[i].line < d.totLine
      && (r.end.Completed? || r.actions[i].line <= r.end.line)
      && d.content.Some? && r.actions[i].params == ExtractLine(d.content.value, r.actions[i].line)
      && (r.actions[i].line == 0 ==> r.actions[i].func == StartFunction)
      && (0 <= d.seqNb < 4 && r.actions[i].line > 0 ==> r.actions[i].func == (d.seqNb + r.actions[i].line) % 4)
    ensures (exists i :: 0 <= i < |r.actions| && r.actions[i].Restart?) <==> r.end == RestartFailure(d)
    ensures r.end == RestartFailure(d) ==> r.actions[|r.actions| - 1] == Restart(RestartParams(d.entityIdx))
    ensures forall i :: 0 <= i < |r.actions| && r.actions[i].ErrorReport? ==>
      && r.end.Aborted? && cfg.onError && i == |r.actions| - 1 && r.actions[i].line == r.end.line
      && |r.actions[i].params| >= 5 && !Accepts(r.actions[i].params[4]) && r.actions[i].params[4] != WaitStatus
    ensures forall i :: 0 <= i < |r.actions| && r.actions[i].Progress? ==>
      cfg.progress && r.actions[i].total == d.totLine && (r.end.Completed? || r.actions[i].line < r.end.line)
  {
    var r := ProcessFrom(d.(dfuOngoing := true), cfg, events, 0);
    StartedRunSends(d, cfg, r);
    StartedRunCallbacks(d, cfg, r);
    r
  }

  /**
   * `__dfu_process` with a restart that reconnects: the same actions, and a
   * run that got every line accepted completes, restart or not. It ends
   * Completed exactly when the update is no longer ongoing; a restart is
   * sent exactly when every line was accepted and `restart` was asked for,
   * and then it is the last action.
   */
  function ProcessCorrected(d: DfuData, cfg: Config, events: seq<Option<Request>>): (r: Run)
    ensures r.actions == Process(d, cfg, events).actions
    ensures Process(d, cfg, events).end != RestartFailure(d) ==> r == Process(d, cfg, events)
    ensures r.data == d.(seqNb := r.data.seqNb, dfuOngoing := r.data.dfuOngoing)
    ensures r.end.Completed? <==> !r.data.dfuOngoing
    ensures r.end.Completed? && 0 <= d.seqNb < 4 ==> r.data.seqNb == (d.seqNb + d.totLine) % 4
    ensures !r.end.Completed? ==> r.end.line < d.totLine
    ensures (exists i :: 0 <= i < |r.actions| && r.actions[i].Restart?) <==> r.end.Completed? && cfg.restart
    ensures r.end.Completed? && cfg.restart ==> r.actions[|r.actions| - 1] == Restart(RestartParams(d.entityIdx))
  {
    var w := Process(d, cfg, events);
    if w.end == RestartFailure(d) then w.(data := w.data.(dfuOngoing := false), end := Completed) else w
  }

  lemma {:induction false} StartedRunSends(d: DfuData, cfg: Config, r: Run)
    requires RunFrom(d.(dfuOngoing := true), cfg, 0, r)
    ensures forall i :: 0 <= i < |r.actions| && r.actions[i].Send? ==>
      && r.actions[i].line < d.totLine
      && (r.end.Completed? || r.actions[i].line <= r.end.line)
      && d.content.Some? && r.actions[i].params == ExtractLine(d.content.value, r.actions[i].line)
      && (r.actions[i].line == 0 ==> r.actions[i].func == StartFunction)
      && (0 <= d.seqNb < 4 && r.actions[i].line > 0 ==> r.actions[i].func == (d.seqNb + r.actions[i].line) % 4)
  {
    forall i | 0 <= i < |r.actions| && r.actions[i].Send?
      ensures SentFrom(d.(dfuOngoing := true), 0, r, r.actions[i])
    {
    }
  }

  lemma {:induction false} StartedRunCallbacks(d: DfuData, cfg: Config, r: Run)
    requires RunFrom(d.(dfuOngoing := true), cfg, 0, r)
    ensures (exists i :: 0 <= i < |r.actions| && r.actions[i].Restart?) <==> r.end == RestartFailure(d)
    ensures r.end == RestartFailure(d) ==> cfg.restart && r.actions[|r.actions| - 1] == Restart(RestartParams(d.entityIdx))
  {
    if r.end == RestartFailure(d) {
      assert r.actions[|r.actions| - 1].Restart?;
    }
  }

  /** The packets of a whole update in order: line n of the file, with its function. */
  function AllPackets(content: seq<int>, seqNb: int, total: nat): (s: seq<Action>)
    ensures |s| == total
  {
    seq(total, n requires 0 <= n < total => Send(n, FuncFor(seqNb, 0, n), ExtractLine(content, n)))
  }

  /** The exchange at position k accepts: a reply whose status byte is an accepting one. */
  predicate AcceptsAt(events: seq<Option<Request>>, k: nat)
  {
    k < |events| && events[k].Some? && |events[k].value.params| >= 5 && Accepts(events[k].value.params[4])
  }

  /** The restart request `restart` adds after the last line, if any. */
  function RestartTail(d: DfuData, cfg: Config): seq<Action>
  {
    if cfg.restart then [Restart(RestartParams(d.entityIdx))] else []
  }

  /**
   * A device that accepts every packet at once gets every line of the file
   * exactly once, in order, then the restart request if asked for, and
   * nothing else. As written the update then completes only without
   * `restart`; with it the thread dies in the restart and the update stays
   * marked ongoing.
   */
  lemma {:induction false} PromptDeviceGetsEveryLine(d: DfuData, cfg: Config, events: seq<Option<Request>>)
    requires d.content.Some? && 0 <= d.seqNb < 4
    requires !cfg.progress
    requires forall k :: 0 <= k < d.totLine ==> AcceptsAt(events, k)
    ensures Process(d, cfg, events).end == if cfg.restart then Failed(d.totLine, AttributeError) else Completed
    ensures Process(d, cfg, events).data.dfuOngoing == cfg.restart
    ensures Process(d, cfg, events).actions
         == AllPackets(d.content.value, d.seqNb, d.totLine) + RestartTail(d, cfg)
  {
    var d0 := d.(dfuOngoing := true);
    PromptFrom(d0, cfg, events, 0);
    PacketsFromStart(d.content.value, d.seqNb, d.totLine);
  }

  /** With a restart that reconnects, the same device sees the update complete, restart or not. */
  lemma {:induction false} PromptDeviceCompletesCorrected(d: DfuData, cfg: Config, events: seq<Option<Request>>)
    requires d.content.Some? && 0 <= d.seqNb < 4
    requires !cfg.progress
    requires forall k :: 0 <= k < d.totLine ==> AcceptsAt(events, k)
    ensures ProcessCorrected(d, cfg, events).end == Completed
    ensures !ProcessCorrected(d, cfg, events).data.dfuOngoing
    ensures ProcessCorrected(d, cfg, events).actions
         == AllPackets(d.content.value, d.seqNb, d.totLine) + RestartTail(d, cfg)
  {
    PromptDeviceGetsEveryLine(d, cfg, events);
  }

  lemma {:induction false} PromptFrom(d: DfuData, cfg: Config, events: seq<Option<Request>>, line: nat)
    requires line <= d.totLine && d.content.Some? && 0 <= d.seqNb < 4
    requires !cfg.progress
    requires forall k :: 0 <= k < d.totLine - line ==> AcceptsAt(events, k)
    ensures ProcessFrom(d, cfg, events, line).end == if cfg.restart then RestartFailure(d) else Completed
    ensures ProcessFrom(d, cfg, events, line).data.dfuOngoing == (cfg.restart && d.dfuOngoing)
    ensures ProcessFrom(d, cfg, events, line).actions
         == PacketsFrom(d.content.value, d.seqNb, line, d.totLine) + RestartTail(d, cfg)
    decreases d.totLine - line
  {
    if line < d.totLine {
      var d' := IncSeqNb(d);
      assert AcceptsAt(events, 0);
      forall k | 0 <= k < d'.totLine - (line + 1)
        ensures AcceptsAt(events[1..], k)
      {
        assert AcceptsAt(events, k + 1);
      }
      PromptFrom(d', cfg, events[1..], line + 1);
      AcceptedAtOnce(d, cfg, events, line);
      assert RestartTail(d', cfg) == RestartTail(d, cfg) && RestartFailure(d') == RestartFailure(d);
      PromptStep(d, cfg, line, Packet(d, line).value, ProcessFrom(d', cfg, events[1..], line + 1).actions);
    }
  }

  /** One accepted line puts its packet in front of the rest of a prompt run. */
  lemma {:induction false} PromptStep(d: DfuData, cfg: Config, line: nat, pkt: Action, rest: seq<Action>)
    requires line < d.totLine && d.content.Some? && 0 <= d.seqNb < 4
    requires pkt == Send(line, FuncFor(d.seqNb, line, line), ExtractLine(d.content.value, line))
    requires rest == PacketsFrom(d.content.value, IncSeqNb(d).seqNb, line + 1, d.totLine) + RestartTail(d, cfg)
    ensures [pkt] + rest == PacketsFrom(d.content.value, d.seqNb, line, d.totLine) + RestartTail(d, cfg)
  {
    PacketsFromCons(d.content.value, d.seqNb, line, d.totLine);
  }

  /** The packets of lines `line` to `total - 1`, numbered round the cycle from `seqNb` on. */
  function PacketsFrom(content: seq<int>, seqNb: int, line: nat, total: nat): (s: seq<Action>)
    ensures |s| == if line <= total then total - line else 0
  {
    if line <= total then
      seq(total - line, k requires 0 <= k < total - line =>
        Send(line + k, FuncFor(seqNb, line, line + k), ExtractLine(content, line + k)))
    else []
  }

  /** The packets from a line: its own, then the next line's with the number one further round. */
  lemma {:induction false} PacketsFromCons(content: seq<int>, seqNb: int, line: nat, total: nat)
    requires line < total && 0 <= seqNb < 4
    ensures PacketsFrom(content, seqNb, line, total)
         == [Send(line, FuncFor(seqNb, line, line), ExtractLine(content, line))]
            + PacketsFrom(content, (seqNb + 1) % 4, line + 1, total)
  {
    var want := PacketsFrom(content, seqNb, line, total);
    var got := [Send(line, FuncFor(seqNb, line, line), ExtractLine(content, line))]
               + PacketsFrom(content, (seqNb + 1) % 4, line + 1, total);
    forall k | 0 <= k < total - line
      ensures got[k] == want[k]
    {
      if k > 0 {
        var later := PacketsFrom(content, (seqNb + 1) % 4, line + 1, total);
        assert got[k] == later[k - 1];
        assert later[k - 1] == Send(line + k, FuncFor((seqNb + 1) % 4, line + 1, line + k), ExtractLine(content, line + k));
        ModShift(seqNb, k - 1);
      }
    }
    assert got == want;
  }

  /** From the first line on, the packets are all the packets. */
  lemma {:induction false} PacketsFromStart(content: seq<int>, seqNb: int, total: nat)
    ensures PacketsFrom(content, seqNb, 0, total) == AllPackets(content, seqNb, total)
  {
  }

  /** A line accepted by the first answer: its packet, then the run from the next line. */
  lemma {:induction false} AcceptedAtOnce(d: DfuData, cfg: Config, events: seq<Option<Request>>, line: nat)
    requires line < d.totLine && d.content.Some? && !cfg.progress
    requires AcceptsAt(events, 0)
    ensures ProcessFrom(d, cfg, events, line)
         == Prepend([Packet(d, line).value], ProcessFrom(IncSeqNb(d), cfg, events[1..], line + 1))
  {
    assert Await(d, cfg, events[1..], line, 1, events[0], Packet(d, line).value)
        == ProcessFrom(IncSeqNb(d), cfg, events[1..], line + 1);
  }

  /**
   * A device that never answers: after the packet, the loop polls once per
   * millisecond of the timeout and then sends the same packet again.
   */
  lemma {:induction false} SilentDeviceGetsPacketAgain(d: DfuData, cfg: Config, events: seq<Option<Request>>)
    requires d.content.Some? && d.totLine > 0 && cfg.timeoutMs >= 1
    requires |events| >= cfg.timeoutMs + 2
    requires forall k :: 0 <= k < cfg.timeoutMs ==> events[k].None?
    ensures var r := Process(d, cfg, events);
      && |r.actions| >= cfg.timeoutMs + 2
      && r.actions[0] == r.actions[cfg.timeoutMs + 1] == Packet(d, 0).value
      && forall k :: 1 <= k <= cfg.timeoutMs ==> r.actions[k] == Poll
  {
    var d0 := d.(dfuOngoing := true);
    var pkt := Packet(d0, 0).value;
    RetryPollsThenResends(d0, cfg, events[1..], 0, 1, pkt);
    var rest := Retry(d0, cfg, events[1..], 0, 1, pkt);
    assert ProcessFrom(d0, cfg, events, 0) == Prepend([pkt], rest);
  }

  lemma {:induction false} RetryPollsThenResends(d: DfuData, cfg: Config, events: seq<Option<Request>>,
                                                 line: nat, attempt: nat, pkt: Action)
    requires line < d.totLine && Packet(d, line) == Ok(pkt)
    requires 1 <= attempt <= cfg.timeoutMs
    requires |events| >= cfg.timeoutMs - attempt + 2
    requires forall k :: 0 <= k < cfg.timeoutMs - attempt ==> events[k].None?
    ensures var r := Retry(d, cfg, events, line, attempt, pkt);
      && |r.actions| >= cfg.timeoutMs - attempt + 2
      && (forall k :: 0 <= k <= cfg.timeoutMs - attempt ==> r.actions[k] == Poll)
      && r.actions[cfg.timeoutMs - attempt + 1] == pkt
    decreases cfg.timeoutMs - attempt
  {
    if attempt < cfg.timeoutMs {
      assert events[0].None?;
      RetryPollsThenResends(d, cfg, events[1..], line, attempt + 1, pkt);
      var rest := Retry(d, cfg, events[1..], line, attempt + 1, pkt);
      assert Await(d, cfg, events[1..], line, attempt + 1, events[0], pkt) == rest;
      assert Retry(d, cfg, events, line, attempt, pkt) == Prepend([Poll], rest);
    }
  }

  // ------------------------------------------------------------ entry points

  /** `load_dfu_file`: the file is set, then its header summary is returned. */
  function LoadDfuFile(d: DfuData, filename: string, file: Option<seq<int>>)
    : (r: (DfuData, Result<(int, string, int, int, int)>))
    requires file.Some? ==> IsBytes(file.value)
    ensures r.0 == SetDfuFile(d, filename, file).0
    ensures r.1.Ok? <==> SetDfuFile(d, filename, file).1.Ok?
    ensures r.1.Ok? ==> r.1.value == (r.0.entityIdx, r.0.magicStr, r.0.flag, r.0.securLvl, r.0.totLine)
    ensures file.None? ==> r.1 == Ok((0, "", 0, 0, 0))
  {
    var s := SetDfuFile(d, filename, file);
    match s.1
    case Raised(e) => (s.0, Raised(e))
    case Ok(_) => (s.0, Ok(DfuInfoList(s.0)))
  }

  /** What `perform_dfu` leaves behind: the connection, the link, and the run it started, if any. */
  datatype Perform = Perform(conn: Conn, link: Link, out: Result<Option<Run>>)

  /**
   * `perform_dfu` as written: past the readiness check it reads
   * `connected_device.device`, an attribute `ConnectedDevice` never sets, so
   * every call with a ready file raises AttributeError before anything is sent.
   */
  function PerformDfuAsWritten(d: DfuData, c: Conn, link: Link, cfg: Config, events: seq<Option<Request>>)
    : (r: Perform)
    ensures r.conn == c && r.link == link
    ensures !d.readyForUpdate ==> r.out == Ok(None)
  {
    if !d.readyForUpdate then Perform(c, link, Ok(None))
    else Perform(c, link, Raised(AttributeError))
  }

  /** As written, no file, however well formed, is ever sent to any device. */
  lemma {:induction false} ReadyFileNeverSent(d: DfuData, c: Conn, link: Link, cfg: Config, events: seq<Option<Request>>)
    ensures PerformDfuAsWritten(d, c, link, cfg, events).out.Ok? ==> !d.readyForUpdate
    ensures PerformDfuAsWritten(d, c, link, cfg, events).out != Ok(Some(Process(d, cfg, events)))
  {
  }

  /**
   * `perform_dfu` with the feature check made on `device_info`: nothing
   * without a ready file; on a device that knows feature 0x00D0 the update
   * runs at once; otherwise the feature is looked up first and the update
   * runs only when it is found.
   */
  function PerformDfu(d: DfuData, c: Conn, link: Link, cfg: Config, events: seq<Option<Request>>)
    : (r: Perform)
    requires Valid(c.info)
    ensures Valid(r.conn.info)
    ensures !d.readyForUpdate ==> r == Perform(c, link, Ok(None))
    ensures d.readyForUpdate && IsEnumerated(c.info, DfuFeatureId) ==>
      r == Perform(c, link, Ok(Some(Process(d, cfg, events))))
    ensures r.out.Ok? && r.out.value.Some? ==>
      && d.readyForUpdate && IsEnumerated(r.conn.info, DfuFeatureId)
      && r.out.value.value == Process(d, cfg, events)
    ensures !c.connected && !IsEnumerated(c.info, DfuFeatureId) ==> r == Perform(c, link, Ok(None))
  {
    if !d.readyForUpdate then Perform(c, link, Ok(None))
    else if IsEnumerated(c.info, DfuFeatureId) then Perform(c, link, Ok(Some(Process(d, cfg, events))))
    else
      var e := EnumerateFeature(c, link, DfuFeatureId);
      match e.out
      case Raised(x) => Perform(e.conn, e.link, Raised(x))
      case Ok(found) =>
        if found then Perform(e.conn, e.link, Ok(Some(Process(d, cfg, events))))
        else Perform(e.conn, e.link, Ok(None))
  }
}
