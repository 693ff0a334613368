/**
 * The service around the resolver: admission under the query counter and
 * the throttle flag, one resolution per admitted query, the reply sent to
 * the client, and the block of trace lines appended to the event log.
 *
 * Threads and locks are not modelled: each operation is one atomic step of
 * a sequential state, and the delayed thread that lowers the throttle flag
 * is the separate operation `ClearThrottle`.
 */
module Dispatch {
  import opened Dns
  import opened EventLog
  import opened ResolutionSpec
  import opened Resolution

  const THROTTLE_EVERY: nat := 75
  const REPLY_TTL: nat := 60

  /** The process-wide rate-limit state: queries admitted so far, and
      whether new queries must wait. */
  datatype Limits = Limits(count: nat, throttled: bool)

  /** One admission attempt: a query may start only while the flag is clear;
      it is then counted, and the flag is raised when the new count is a
      multiple of 75. */
  function Admit(s: Limits): (r: (bool, Limits))
    ensures r.0 <==> !s.throttled
    ensures r.1.count == s.count + (if r.0 then 1 else 0)
    ensures r.1.throttled <==> s.throttled || r.1.count % THROTTLE_EVERY == 0
  {
    if s.throttled then (false, s)
    else
      var n := s.count + 1;
      (true, Limits(n, n % THROTTLE_EVERY == 0))
  }

  /** n consecutive admission attempts with no clearing in between: how many
      were admitted, and the state after them. */
  function Attempts(s: Limits, n: nat): (r: (nat, Limits))
    decreases n
  {
    if n == 0 then (0, s)
    else
      var (ok, s1) := Admit(s);
      var (k, s2) := Attempts(s1, n - 1);
      (k + (if ok then 1 else 0), s2)
  }

  function Min(a: nat, b: nat): nat
  {
    if a <= b then a else b
  }

  /** While the flag is raised nothing is admitted and nothing changes: only
      the clearing operation lowers it. */
  lemma {:induction false} ThrottledAdmitsNothing(s: Limits, n: nat)
    requires s.throttled
    ensures Attempts(s, n) == (0, s)
    decreases n
  {
    if n > 0 {
      ThrottledAdmitsNothing(s, n - 1);
    }
  }

  /** Between two clearings at most 75 queries start: from a clear flag,
      attempts are admitted until the count reaches the next multiple of 75,
      and none after that. */
  lemma {:induction false} AdmissionsPerWindow(s: Limits, n: nat)
    requires !s.throttled
    ensures Attempts(s, n).0 == Min(n, THROTTLE_EVERY - s.count % THROTTLE_EVERY)
    ensures Attempts(s, n).0 <= THROTTLE_EVERY
    decreases n
  {
    if n > 0 {
      var s1 := Admit(s).1;
      NextRemainder(s.count);
      if s1.throttled {
        ThrottledAdmitsNothing(s1, n - 1);
      } else {
        AdmissionsPerWindow(s1, n - 1);
      }
    }
  }

  /** Counting one more query either completes a window of 75 or moves one
      step further into it. */
  lemma NextRemainder(c: nat)
    ensures (c + 1) % THROTTLE_EVERY == 0 ==> c % THROTTLE_EVERY == THROTTLE_EVERY - 1
    ensures (c + 1) % THROTTLE_EVERY != 0 ==> (c + 1) % THROTTLE_EVERY == c % THROTTLE_EVERY + 1
  {
    var k := c / THROTTLE_EVERY;
    assert c == k * THROTTLE_EVERY + c % THROTTLE_EVERY;
  }

  /** The reply to a resolved query: the request's id and question, flags
      qr=1 aa=0 ra=1 rcode=0, and one A answer for the question's name. */
  function Reply(request: Message, addr: Addr): Message
  {
    Message(request.id, true, false, true, 0, request.question,
            [Record(TYPE_A, request.question.qname, REPLY_TTL, addr)], [], [])
  }

  /** The trace as written to the log: a "[FINAL_STATE: FAILED]" line is
      added when the trace is empty or its last line does not mention
      RESOLUTION_COMPLETE. */
  function Finalise(lines: seq<LogLine>): seq<LogLine>
  {
    if lines == [] || !Contains(Text(lines[|lines| - 1]), COMPLETE_TOKEN) then lines + [FinalStateFailed]
    else lines
  }

  /** Lines joined by newlines. */
  function Join(texts: seq<string>): string
  {
    if texts == [] then ""
    else if |texts| == 1 then texts[0]
    else texts[0] + "\n" + Join(texts[1..])
  }

  function Texts(lines: seq<LogLine>): (ts: seq<string>)
    ensures |ts| == |lines| && forall i :: 0 <= i < |lines| ==> ts[i] == Text(lines[i])
  {
    seq(|lines|, i requires 0 <= i < |lines| => Text(lines[i]))
  }

  /** The block appended to the event log for one query: the lines joined by
      newlines, then a blank line. */
  function Block(lines: seq<LogLine>): (b: string)
    ensures |b| >= 2 && b[|b| - 2..] == "\n\n"
  {
    Join(Texts(lines)) + "\n\n"
  }

  /** Each text followed by a newline. */
  function Terminated(texts: seq<string>): string
  {
    if texts == [] then "" else texts[0] + "\n" + Terminated(texts[1..])
  }

  /** A block is every line followed by a newline, then one more newline:
      the lines of one query end with an empty line. */
  lemma {:induction false} JoinTerminated(texts: seq<string>)
    requires texts != []
    ensures Join(texts) + "\n" == Terminated(texts)
    decreases |texts|
  {
    if |texts| > 1 {
      JoinTerminated(texts[1..]);
      assert Join(texts) + "\n" == texts[0] + "\n" + (Join(texts[1..]) + "\n");
    } else {
      assert texts[1..] == [];
    }
  }

  lemma BlockLayout(lines: seq<LogLine>)
    requires lines != []
    ensures Block(lines) == Terminated(Texts(lines)) + "\n"
  {
    JoinTerminated(Texts(lines));
  }

  /** Whatever the trace, the written lines keep it as a prefix and end
      either with a line mentioning RESOLUTION_COMPLETE or with the failure
      marker, which is added at most once; a trace whose last line mentions
      the token is written unchanged, and any other trace, the empty one
      included, gets exactly the marker appended. */
  lemma FinaliseEndsWithVerdict(lines: seq<LogLine>)
    ensures var out := Finalise(lines);
            lines <= out && |out| <= |lines| + 1 && out != [] &&
            (Contains(Text(out[|out| - 1]), COMPLETE_TOKEN) || out[|out| - 1] == FinalStateFailed) &&
            (out[|out| - 1] == FinalStateFailed <==> out == lines + [FinalStateFailed])
    ensures lines != [] && Contains(Text(lines[|lines| - 1]), COMPLETE_TOKEN) ==> Finalise(lines) == lines
    ensures lines == [] || !Contains(Text(lines[|lines| - 1]), COMPLETE_TOKEN) ==> Finalise(lines) == lines + [FinalStateFailed]
  {
    var out := Finalise(lines);
    if out != lines + [FinalStateFailed] {
      assert out == lines && lines != [];
      if lines[|lines| - 1] == FinalStateFailed {
        MarkerLacksToken();
      }
    }
  }

  /** How an admitted query ends in the model: answered or not, with its
      block written, or still resolving when the fuel ran out. */
  datatype Handling = Waiting | Unfinished | Handled(reply: Option<Message>)

  datatype Served = Served(handling: Handling, written: string)

  /** What serving an admitted query does.  `request` is None when the
      datagram does not decode to a message with a question: the handler's
      exception path writes a block holding only the failure marker. */
  function Serve(net: Network, request: Option<Message>, fuel: nat): (s: Served)
    ensures s.handling != Waiting
    ensures s.handling.Handled? <==> s.written != ""
    ensures request.None? ==> s == Served(Handled(None), Block([FinalStateFailed]))
  {
    match request
    case None => Served(Handled(None), Block(Finalise([])))
    case Some(req) =>
      var r := Resolve(net, req.question.qname, 0, "", fuel, Context(0, [], []));
      if r.outcome.OutOfFuel? then Served(Unfinished, "")
      else
        var reply := if r.outcome.Found? && r.outcome.addr != "" then Some(Reply(req, r.outcome.addr)) else None;
        Served(Handled(reply), Block(Finalise(r.ctx.trace)))
  }

  /** A reply is sent exactly for a resolved non-empty address, and it
      echoes the request's id and question with the fixed flags and one A
      answer of ttl 60 carrying that address; a finished resolution without
      one is handled with no reply. */
  lemma ReplyEchoesRequest(net: Network, req: Message, fuel: nat)
    ensures var s := Serve(net, Some(req), fuel);
            var r := Resolve(net, req.question.qname, 0, "", fuel, Context(0, [], []));
            s.handling.Handled? && s.handling.reply.Some? ==>
              var m := s.handling.reply.value;
              r.outcome.Found? && r.outcome.addr != "" &&
              m.id == req.id && m.question == req.question &&
              m.qr && !m.aa && m.ra && m.rcode == 0 &&
              m.answers == [Record(TYPE_A, req.question.qname, REPLY_TTL, r.outcome.addr)]
    ensures var s := Serve(net, Some(req), fuel);
            var r := Resolve(net, req.question.qname, 0, "", fuel, Context(0, [], []));
            r.outcome.Found? && r.outcome.addr != "" ==> s.handling == Handled(Some(Reply(req, r.outcome.addr)))
    ensures var s := Serve(net, Some(req), fuel);
            var r := Resolve(net, req.question.qname, 0, "", fuel, Context(0, [], []));
            !r.outcome.OutOfFuel? && !(r.outcome.Found? && r.outcome.addr != "") ==> s.handling == Handled(None)
  {
  }

  /** A successful resolution is written without the failure marker: its
      trace already ends with the RESOLUTION_COMPLETE line. */
  lemma SuccessWrittenUnmarked(net: Network, req: Message, fuel: nat)
    requires Resolve(net, req.question.qname, 0, "", fuel, Context(0, [], [])).outcome.Found?
    ensures var r := Resolve(net, req.question.qname, 0, "", fuel, Context(0, [], []));
            Serve(net, Some(req), fuel).written == Block(r.ctx.trace) &&
            r.ctx.trace[|r.ctx.trace| - 1] == Completed(req.question.qname, r.outcome.addr, |r.ctx.sent|)
  {
    var r := Resolve(net, req.question.qname, 0, "", fuel, Context(0, [], []));
    var last := r.ctx.trace[|r.ctx.trace| - 1];
    CompletedMentionsToken(last.domain, last.addr, last.visited);
  }

  /** A failed resolution's trace does not end with a RESOLUTION_COMPLETE
      line (it holds none at all), so its block is marked unless the text of
      its last line happens to mention the token. */
  lemma FailureEndsWithoutCompletion(net: Network, req: Message, fuel: nat)
    requires Resolve(net, req.question.qname, 0, "", fuel, Context(0, [], [])).outcome.NotFound?
    ensures var r := Resolve(net, req.question.qname, 0, "", fuel, Context(0, [], []));
            r.ctx.trace != [] && r.ctx.trace[0] == Queried(req.question.qname) &&
            (forall i :: 0 <= i < |r.ctx.trace| ==> !r.ctx.trace[i].Completed?) &&
            (Contains(Text(r.ctx.trace[|r.ctx.trace| - 1]), COMPLETE_TOKEN) ||
             Serve(net, Some(req), fuel).written == Block(r.ctx.trace + [FinalStateFailed]))
  {
    var q := req.question.qname;
    var c1 := Log(Context(0, [], []), [Queried(q)]);
    var r := Loop(net, q, [ROOT_SERVER], 0, 0, q, fuel, c1);
    assert r.ctx.trace[..1] == [Queried(q)];
  }

  /** The service state: the admission counter and throttle flag, and the
      contents of the event log file. */
  class Service {
    const net: Network
    var queryCount: nat
    var throttled: bool
    var eventLog: string

    function State(): Limits
      reads this
    {
      Limits(queryCount, throttled)
    }

    /** A service starting with no query counted, the flag clear, and the log
        file holding whatever an earlier run left in it. */
    constructor (net: Network, existingLog: string)
      ensures this.net == net && State() == Limits(0, false) && eventLog == existingLog
    {
      this.net := net;
      queryCount := 0;
      throttled := false;
      eventLog := existingLog;
    }

    /** The admission step of a query handler; false means the handler keeps
        waiting for the flag to clear. */
    method TryAdmit() returns (admitted: bool)
      modifies this`queryCount, this`throttled
      ensures (admitted, State()) == Admit(old(State()))
      ensures admitted <==> !old(throttled)
      ensures admitted ==> queryCount == old(queryCount) + 1 && (throttled <==> queryCount % THROTTLE_EVERY == 0)
      ensures !admitted ==> queryCount == old(queryCount) && throttled
    {
      if throttled {
        return false;
      }
      queryCount := queryCount + 1;
      if queryCount % THROTTLE_EVERY == 0 {
        throttled := true;
      }
      return true;
    }

    /** The delayed clearing of the throttle flag. */
    method ClearThrottle()
      modifies this`throttled
      ensures !throttled && queryCount == old(queryCount)
    {
      throttled := false;
    }

    /** Handles one incoming datagram: admission, resolution in a fresh
        context, the reply for a resolved address, and the log block. */
    method Dispatch(request: Option<Message>, fuel: nat) returns (h: Handling)
      modifies this
      ensures old(throttled) ==> h == Waiting && State() == old(State()) && eventLog == old(eventLog)
      ensures !old(throttled) ==>
                State() == Admit(old(State())).1 &&
                h == Serve(net, request, fuel).handling &&
                eventLog == old(eventLog) + Serve(net, request, fuel).written
    {
      var admitted := TryAdmit();
      if !admitted {
        return Waiting;
      }
      var ctx := new ResolutionContext(net);
      var reply: Option<Message> := None;
      if request.Some? {
        var outcome := ctx.Resolve(request.value.question.qname, 0, "", fuel);
        if outcome.OutOfFuel? {
          return Unfinished;
        }
        if outcome.Found? && outcome.addr != "" {
          reply := Some(Reply(request.value, outcome.addr));
        }
      }
      eventLog := eventLog + Block(Finalise(ctx.trace));
      return Handled(reply);
    }
  }
}
