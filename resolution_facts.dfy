/**
 * Properties of the iterative resolution definition: what one step does
 * with each shape of response, what a whole resolution logs and counts,
 * and why the fuel bound does not change any finished result.
 */
module ResolutionFacts {
  import opened Dns
  import opened EventLog
  import opened ResolutionSpec

  // ----- The candidates of one step -----

  /** A step asks the candidates in order, counts one visit per server asked
      and sends one datagram per server asked, and stops at the first server
      that answers. */
  lemma StepCountsServersAsked(net: Network, q: Name, servers: seq<Addr>, level: nat, depth: nat,
                               domain: Name, fuel: nat, c: Context)
    requires |servers| > 0
    ensures var a := TryServers(net, q, servers, |c.sent|);
            var s := Step(net, q, servers, level, depth, domain, fuel, c);
            c.sent + Probes(servers, q, a.tried) <= s.ctx.sent &&
            s.ctx.visited == c.visited + a.tried + (|s.ctx.sent| - |c.sent| - a.tried)
  {
    var a := TryServers(net, q, servers, |c.sent|);
    var c1 := Context(c.visited + a.tried, c.trace, c.sent + Probes(servers, q, a.tried));
    var s := Step(net, q, servers, level, depth, domain, fuel, c);
    assert Extends(c1, s.ctx);
  }

  /** When no candidate answers, the step ends the resolution with exactly a
      "Response: FAILED" line naming the first candidate and a
      RESOLUTION_FAILED line naming the domain; every candidate was asked. */
  lemma NoResponseFails(net: Network, q: Name, servers: seq<Addr>, level: nat, depth: nat,
                        domain: Name, fuel: nat, c: Context)
    requires |servers| > 0
    requires forall j :: 0 <= j < |servers| ==> net(|c.sent| + j, servers[j], q).None?
    ensures var s := Step(net, q, servers, level, depth, domain, fuel, c);
            s.next == Done(NotFound) &&
            s.ctx.trace == c.trace + [ContactFailed(servers[0], StageOf(level)), Failed(domain)] &&
            s.ctx.visited == c.visited + |servers| &&
            s.ctx.sent == c.sent + Probes(servers, q, |servers|)
  {
    var a := TryServers(net, q, servers, |c.sent|);
    assert net(|c.sent| + (|servers| - 1), servers[|servers| - 1], q).None?;
  }

  /** A pass whose candidates all failed, in terms of the attempt. */
  lemma StepSilent(net: Network, q: Name, servers: seq<Addr>, level: nat, depth: nat,
                   domain: Name, fuel: nat, c: Context)
    requires |servers| > 0
    requires TryServers(net, q, servers, |c.sent|).response.None?
    ensures var a := TryServers(net, q, servers, |c.sent|);
            Step(net, q, servers, level, depth, domain, fuel, c)
            == StepRun(Done(NotFound), Context(c.visited + a.tried, c.trace + [ContactFailed(a.contacted, StageOf(level)), Failed(domain)],
                                               c.sent + Probes(servers, q, a.tried)))
  {
  }

  /** A pass that got a response goes on as `Respond` from the state after
      the attempt. */
  lemma StepAnswered(net: Network, q: Name, servers: seq<Addr>, level: nat, depth: nat,
                     domain: Name, fuel: nat, c: Context)
    requires |servers| > 0
    requires TryServers(net, q, servers, |c.sent|).response.Some?
    ensures var a := TryServers(net, q, servers, |c.sent|);
            Step(net, q, servers, level, depth, domain, fuel, c)
            == Respond(net, a.response.value, q, servers, level, a.contacted, depth, domain, fuel,
                       Context(c.visited + a.tried, c.trace, c.sent + Probes(servers, q, a.tried)))
  {
  }

  // ----- What a step does with a response -----

  /** The first A or CNAME record among the answers decides: an A record
      ends the resolution with its address; at depth 0 a RESOLUTION_COMPLETE
      line with the domain, the address and the counter follows the ANSWER
      line. */
  lemma FirstAnswerDecides(net: Network, m: Message, q: Name, servers: seq<Addr>, level: nat,
                           from: Addr, depth: nat, domain: Name, fuel: nat, c: Context, j: nat)
    requires |servers| > 0
    requires j < |m.answers| && m.answers[j].rtype == TYPE_A
    requires forall k :: 0 <= k < j ==> !Decisive(m.answers[k])
    ensures var s := Respond(net, m, q, servers, level, from, depth, domain, fuel, c);
            var a := m.answers[j].rdata;
            s.next == Done(Found(a)) &&
            s.ctx == Log(c, [Answered(from, StageOf(level), a)] +
                            (if depth == 0 then [Completed(domain, a, c.visited)] else []))
  {
    assert FirstDecisive(m.answers) == j;
  }

  /** A CNAME record deciding the answer scan restarts the walk for its
      target: the query name becomes the target, the candidates reset to the
      root server and the stage to Root, after one CNAME line. */
  lemma CnameRestartsAtRoot(net: Network, m: Message, q: Name, servers: seq<Addr>, level: nat,
                            from: Addr, depth: nat, domain: Name, fuel: nat, c: Context, j: nat)
    requires |servers| > 0
    requires j < |m.answers| && m.answers[j].rtype == TYPE_CNAME
    requires forall k :: 0 <= k < j ==> !Decisive(m.answers[k])
    ensures var s := Respond(net, m, q, servers, level, from, depth, domain, fuel, c);
            s.next == Continue(m.answers[j].rdata, [ROOT_SERVER], 0) &&
            s.ctx == Log(c, [Aliased(from, StageOf(level), m.answers[j].rdata)])
  {
    assert FirstDecisive(m.answers) == j;
  }

  /** Answers holding neither an A nor a CNAME record leave the query, the
      candidates and the stage as they were, and log nothing: the next step
      asks the same servers again. */
  lemma NeitherAnswerRepeats(net: Network, m: Message, q: Name, servers: seq<Addr>, level: nat,
                             from: Addr, depth: nat, domain: Name, fuel: nat, c: Context)
    requires |servers| > 0
    requires |m.answers| > 0
    requires forall k :: 0 <= k < |m.answers| ==> !Decisive(m.answers[k])
    ensures Respond(net, m, q, servers, level, from, depth, domain, fuel, c) == StepRun(Continue(q, servers, level), c)
  {
    assert FirstDecisive(m.answers) == |m.answers|;
  }

  /** Against a first candidate that always replies with such answers, the
      main loop never ends: whatever the fuel, it runs out, having asked that
      server once per pass and logged nothing. */
  lemma {:induction false} NeitherAnswerNeverEnds(net: Network, m: Message, q: Name, servers: seq<Addr>,
                                                  level: nat, depth: nat, domain: Name, fuel: nat, c: Context)
    requires |servers| > 0
    requires |m.answers| > 0
    requires forall k :: 0 <= k < |m.answers| ==> !Decisive(m.answers[k])
    requires forall n: nat :: net(n, servers[0], q) == Some(m)
    ensures var r := Loop(net, q, servers, level, depth, domain, fuel, c);
            r.outcome == OutOfFuel && r.ctx.trace == c.trace && r.ctx.visited == c.visited + fuel
    decreases fuel
  {
    if fuel > 0 {
      var a := TryServers(net, q, servers, |c.sent|);
      assert net(|c.sent| + 0, servers[0], q).Some?;
      assert a.tried == 1 && a.response == Some(m);
      var c1 := Context(c.visited + 1, c.trace, c.sent + Probes(servers, q, 1));
      NeitherAnswerRepeats(net, m, q, servers, level, a.contacted, depth, domain, fuel - 1, c1);
      NeitherAnswerNeverEnds(net, m, q, servers, level, depth, domain, fuel - 1, c1);
    }
  }

  /** A referral carrying glue: one REFERRAL line, the stage level rises by
      one, the glue addresses become the candidates, and no nested
      resolution is made (nothing is sent and nothing else logged). */
  lemma GlueShortCircuits(net: Network, m: Message, q: Name, servers: seq<Addr>, level: nat,
                          from: Addr, depth: nat, domain: Name, fuel: nat, c: Context, j: nat)
    requires |servers| > 0
    requires |m.answers| == 0 && |m.authority| > 0 && m.authority[0].rtype == TYPE_NS
    requires j < |m.additional| && m.additional[j].rtype == TYPE_A
    ensures Respond(net, m, q, servers, level, from, depth, domain, fuel, c)
         == StepRun(Continue(q, Glue(m.additional), level + 1),
                    Log(c, [Referred(from, StageOf(level), m.authority[0].rdata)]))
  {
    GlueNonEmpty(m.additional, j);
  }

  /** A referral without glue whose nameservers all fail to resolve ends the
      resolution: the last two lines are "NS resolution failed" and
      RESOLUTION_FAILED for the domain. */
  lemma GluelessReferralFails(net: Network, m: Message, q: Name, servers: seq<Addr>, level: nat,
                              from: Addr, depth: nat, domain: Name, fuel: nat, c: Context)
    requires |servers| > 0
    requires |m.answers| == 0 && |m.authority| > 0 && m.authority[0].rtype == TYPE_NS
    requires forall j :: 0 <= j < |m.additional| ==> m.additional[j].rtype != TYPE_A
    requires var ns := NsFold(net, m.authority, 0, [], depth, domain, fuel,
                              Log(c, [Referred(from, StageOf(level), m.authority[0].rdata)]));
             !ns.exhausted && ns.addrs == []
    ensures var s := Respond(net, m, q, servers, level, from, depth, domain, fuel, c);
            s.next == Done(NotFound) &&
            |s.ctx.trace| >= |c.trace| + 3 &&
            s.ctx.trace[|s.ctx.trace| - 2..] == [NsFailed, Failed(domain)]
  {
    GlueEmpty(m.additional);
  }

  /** A glueless referral whose nameservers resolve continues with the
      addresses found as the candidates and the stage level one higher. */
  lemma GluelessReferralContinues(net: Network, m: Message, q: Name, servers: seq<Addr>, level: nat,
                                  from: Addr, depth: nat, domain: Name, fuel: nat, c: Context)
    requires |servers| > 0
    requires |m.answers| == 0 && |m.authority| > 0 && m.authority[0].rtype == TYPE_NS
    requires forall j :: 0 <= j < |m.additional| ==> m.additional[j].rtype != TYPE_A
    requires var ns := NsFold(net, m.authority, 0, [], depth, domain, fuel,
                              Log(c, [Referred(from, StageOf(level), m.authority[0].rdata)]));
             !ns.exhausted && ns.addrs != []
    ensures var s := Respond(net, m, q, servers, level, from, depth, domain, fuel, c);
            var ns := NsFold(net, m.authority, 0, [], depth, domain, fuel,
                             Log(c, [Referred(from, StageOf(level), m.authority[0].rdata)]));
            s == StepRun(Continue(q, ns.addrs, level + 1), ns.ctx) &&
            |ns.addrs| <= |m.authority| &&
            forall k :: 0 <= k < |ns.addrs| ==> ns.addrs[k] != ""
  {
    GlueEmpty(m.additional);
  }

  /** A response with no answers whose authority section is empty or does not
      start with an NS record ends the resolution without a log line. */
  lemma UnusableResponseFails(net: Network, m: Message, q: Name, servers: seq<Addr>, level: nat,
                              from: Addr, depth: nat, domain: Name, fuel: nat, c: Context)
    requires |servers| > 0
    requires |m.answers| == 0 && (|m.authority| == 0 || m.authority[0].rtype != TYPE_NS)
    ensures Respond(net, m, q, servers, level, from, depth, domain, fuel, c) == StepRun(Done(NotFound), c)
  {
  }

  // ----- The nameservers of a glueless referral -----

  /** One authority record: its nameserver is logged and resolved one level
      deeper, and the fold goes on with the next record from the state after
      that nested resolution, its address appended when it found a non-empty
      one. */
  lemma NsFoldStep(net: Network, auth: seq<Record>, i: nat, acc: seq<Addr>, depth: nat, domain: Name,
                   fuel: nat, c: Context)
    requires i < |auth|
    requires !Resolve(net, auth[i].rdata, depth + 1, domain, fuel, Log(c, [ResolvingNs(auth[i].rdata)])).outcome.OutOfFuel?
    ensures var sub := Resolve(net, auth[i].rdata, depth + 1, domain, fuel, Log(c, [ResolvingNs(auth[i].rdata)]));
            var found := sub.outcome.Found? && sub.outcome.addr != "";
            NsFold(net, auth, i, acc, depth, domain, fuel, c)
            == NsFold(net, auth, i + 1, if found then acc + [sub.outcome.addr] else acc, depth, domain, fuel, sub.ctx)
  {
  }

  /** A line at index a, and the lines found from b > a on, are all found
      from a on. */
  lemma ResolvingLinesFrom(auth: seq<Record>, i: nat, t: seq<LogLine>, a: nat, b: nat)
    requires i < |auth| && a < b <= |t|
    requires t[a] == ResolvingNs(auth[i].rdata)
    requires forall k :: i < k < |auth| ==> ResolvingNs(auth[k].rdata) in t[b..]
    ensures forall k :: i <= k < |auth| ==> ResolvingNs(auth[k].rdata) in t[a..]
  {
    assert t[a..][0] == ResolvingNs(auth[i].rdata);
    forall k | i < k < |auth|
      ensures ResolvingNs(auth[k].rdata) in t[a..]
    {
      var x := ResolvingNs(auth[k].rdata);
      var p :| 0 <= p < |t[b..]| && t[b..][p] == x;
      assert t[a..][p + b - a] == x;
    }
  }

  /** The fold does not stop at the first nameserver that resolves: unless
      the fuel runs out, every authority record from i on has its "Resolving
      NS record" line in what the fold logs. */
  lemma {:induction false} NsFoldResolvesEvery(net: Network, auth: seq<Record>, i: nat, acc: seq<Addr>, depth: nat,
                                               domain: Name, fuel: nat, c: Context)
    requires i <= |auth|
    ensures var r := NsFold(net, auth, i, acc, depth, domain, fuel, c);
            !r.exhausted ==> forall k :: i <= k < |auth| ==> ResolvingNs(auth[k].rdata) in r.ctx.trace[|c.trace|..]
    decreases |auth| - i
  {
    if i < |auth| {
      var c1 := Log(c, [ResolvingNs(auth[i].rdata)]);
      var sub := Resolve(net, auth[i].rdata, depth + 1, domain, fuel, c1);
      if !sub.outcome.OutOfFuel? {
        var acc' := if sub.outcome.Found? && sub.outcome.addr != "" then acc + [sub.outcome.addr] else acc;
        NsFoldStep(net, auth, i, acc, depth, domain, fuel, c);
        var rest := NsFold(net, auth, i + 1, acc', depth, domain, fuel, sub.ctx);
        NsFoldResolvesEvery(net, auth, i + 1, acc', depth, domain, fuel, sub.ctx);
        if !rest.exhausted {
          assert c1.trace <= sub.ctx.trace <= rest.ctx.trace;
          ResolvingLinesFrom(auth, i, rest.ctx.trace, |c.trace|, |sub.ctx.trace|);
        }
      }
    }
  }

  /** The candidates are in the order of the authority records: when the
      first record's nameserver resolves to a non-empty address, that address
      is the first candidate, whatever the later records give. */
  lemma FirstResolvedNameserverLeads(net: Network, auth: seq<Record>, depth: nat, domain: Name, fuel: nat, c: Context)
    requires 0 < |auth|
    requires var sub := Resolve(net, auth[0].rdata, depth + 1, domain, fuel, Log(c, [ResolvingNs(auth[0].rdata)]));
             sub.outcome.Found? && sub.outcome.addr != ""
    ensures var sub := Resolve(net, auth[0].rdata, depth + 1, domain, fuel, Log(c, [ResolvingNs(auth[0].rdata)]));
            var r := NsFold(net, auth, 0, [], depth, domain, fuel, c);
            r.addrs != [] && r.addrs[0] == sub.outcome.addr
  {
    var sub := Resolve(net, auth[0].rdata, depth + 1, domain, fuel, Log(c, [ResolvingNs(auth[0].rdata)]));
    NsFoldStep(net, auth, 0, [], depth, domain, fuel, c);
    var rest := NsFold(net, auth, 1, [sub.outcome.addr], depth, domain, fuel, sub.ctx);
    assert [sub.outcome.addr] <= rest.addrs;
  }

  // ----- The glue addresses -----

  lemma {:induction false} GlueAppend(rs: seq<Record>, ts: seq<Record>)
    ensures Glue(rs + ts) == Glue(rs) + Glue(ts)
    decreases |ts|
  {
    if ts == [] {
      assert rs + ts == rs;
    } else {
      var init := ts[..|ts| - 1];
      assert (rs + ts)[..|rs + ts| - 1] == rs + init;
      GlueAppend(rs, init);
    }
  }

  /** Glue keeps exactly the A records' values, in order. */
  lemma {:induction false} GlueOfOne(r: Record)
    ensures Glue([r]) == if r.rtype == TYPE_A then [r.rdata] else []
  {
    assert [r][..0] == [];
  }

  lemma {:induction false} GlueNonEmpty(rs: seq<Record>, j: nat)
    requires j < |rs| && rs[j].rtype == TYPE_A
    ensures |Glue(rs)| > 0
  {
    assert rs == rs[..j] + [rs[j]] + rs[j + 1..];
    GlueAppend(rs[..j] + [rs[j]], rs[j + 1..]);
    GlueAppend(rs[..j], [rs[j]]);
    GlueOfOne(rs[j]);
  }

  lemma {:induction false} GlueEmpty(rs: seq<Record>)
    requires forall j :: 0 <= j < |rs| ==> rs[j].rtype != TYPE_A
    ensures Glue(rs) == []
    decreases |rs|
  {
    if rs != [] {
      GlueEmpty(rs[..|rs| - 1]);
    }
  }

  // ----- A whole resolution -----

  /** From a fresh context, a successful top-level resolution's last trace
      line is RESOLUTION_COMPLETE with the queried domain, the address, and a
      SERVERS_VISITED count equal to the number of datagrams sent by the
      whole resolution, nested nameserver resolutions included. */
  lemma CompletionCountsEveryServer(net: Network, query: Name, fuel: nat)
    ensures var r := Resolve(net, query, 0, "", fuel, Context(0, [], []));
            r.outcome.Found? ==>
              r.ctx.trace[|r.ctx.trace| - 1] == Completed(query, r.outcome.addr, |r.ctx.sent|)
  {
  }

  /** A nested resolution never appends a RESOLUTION_COMPLETE line, and a
      top-level one that did not find an address appends none either. */
  lemma CompletionOnlyOnTopLevelSuccess(net: Network, query: Name, depth: nat, domain: Name,
                                        fuel: nat, c: Context)
    ensures var r := Resolve(net, query, depth, domain, fuel, c);
            (depth > 0 || !r.outcome.Found?) ==> NoCompletion(c, r.ctx)
  {
  }

  // ----- Fuel -----

  /** More fuel never changes a resolution that finished: every outcome other
      than OutOfFuel is independent of the bound. */
  lemma {:induction false} ResolveFuel(net: Network, query: Name, depth: nat, domain: Name,
                                       f: nat, g: nat, c: Context)
    requires f <= g
    requires !Resolve(net, query, depth, domain, f, c).outcome.OutOfFuel?
    ensures Resolve(net, query, depth, domain, g, c) == Resolve(net, query, depth, domain, f, c)
    decreases f, 1, 0
  {
    var dom := if depth == 0 then query else domain;
    var c1 := if depth == 0 then Log(c, [Queried(dom)]) else c;
    LoopFuel(net, query, [ROOT_SERVER], 0, depth, dom, f, g, c1);
  }

  /** A pass that ends the loop ends it the same way with any fuel. */
  lemma LoopFuelDone(net: Network, q: Name, servers: seq<Addr>, level: nat, depth: nat,
                     domain: Name, f: nat, g: nat, c: Context)
    requires |servers| > 0 && 0 < f <= g
    requires Step(net, q, servers, level, depth, domain, f - 1, c) == Step(net, q, servers, level, depth, domain, g - 1, c)
    requires Step(net, q, servers, level, depth, domain, f - 1, c).next.Done?
    ensures Loop(net, q, servers, level, depth, domain, g, c) == Loop(net, q, servers, level, depth, domain, f, c)
  {
  }

  /** The rest of the loop, one unit of fuel down on both sides. */
  lemma {:induction false} LoopFuelRest(net: Network, q: Name, servers: seq<Addr>, level: nat, depth: nat,
                                        domain: Name, f: nat, g: nat, c: Context)
    requires |servers| > 0 && 0 < f <= g
    requires !Loop(net, q, servers, level, depth, domain, f - 1, c).outcome.OutOfFuel?
    ensures Loop(net, q, servers, level, depth, domain, g - 1, c) == Loop(net, q, servers, level, depth, domain, f - 1, c)
    decreases f, 0, 0
  {
    LoopFuel(net, q, servers, level, depth, domain, f - 1, g - 1, c);
  }

  lemma LoopFuelJoin(net: Network, q: Name, servers: seq<Addr>, level: nat, depth: nat,
                     domain: Name, f: nat, g: nat, c: Context)
    requires |servers| > 0 && 0 < f <= g
    requires Step(net, q, servers, level, depth, domain, f - 1, c) == Step(net, q, servers, level, depth, domain, g - 1, c)
    requires var s := Step(net, q, servers, level, depth, domain, f - 1, c);
             s.next.Continue? &&
             Loop(net, s.next.q, s.next.servers, s.next.level, depth, domain, g - 1, s.ctx)
             == Loop(net, s.next.q, s.next.servers, s.next.level, depth, domain, f - 1, s.ctx)
    ensures Loop(net, q, servers, level, depth, domain, g, c) == Loop(net, q, servers, level, depth, domain, f, c)
  {
  }

  /** A loop that finished had fuel for its first pass, that pass did not run
      out, and the loop after it finished too. */
  lemma LoopFinished(net: Network, q: Name, servers: seq<Addr>, level: nat, depth: nat,
                     domain: Name, f: nat, c: Context)
    requires |servers| > 0
    requires !Loop(net, q, servers, level, depth, domain, f, c).outcome.OutOfFuel?
    ensures f > 0
    ensures var s := Step(net, q, servers, level, depth, domain, f - 1, c);
            s.next != Done(OutOfFuel) &&
            (s.next.Continue? ==> !Loop(net, s.next.q, s.next.servers, s.next.level, depth, domain, f - 1, s.ctx).outcome.OutOfFuel?)
  {
  }

  lemma {:induction false} LoopFuel(net: Network, q: Name, servers: seq<Addr>, level: nat, depth: nat,
                                    domain: Name, f: nat, g: nat, c: Context)
    requires |servers| > 0 && f <= g
    requires !Loop(net, q, servers, level, depth, domain, f, c).outcome.OutOfFuel?
    ensures Loop(net, q, servers, level, depth, domain, g, c) == Loop(net, q, servers, level, depth, domain, f, c)
    decreases f, 0, 1
  {
    LoopFinished(net, q, servers, level, depth, domain, f, c);
    StepFuel(net, q, servers, level, depth, domain, f - 1, g - 1, c);
    var s := Step(net, q, servers, level, depth, domain, f - 1, c);
    if s.next.Continue? {
      LoopFuelRest(net, s.next.q, s.next.servers, s.next.level, depth, domain, f, g, s.ctx);
      LoopFuelJoin(net, q, servers, level, depth, domain, f, g, c);
    } else {
      LoopFuelDone(net, q, servers, level, depth, domain, f, g, c);
    }
  }

  lemma {:induction false} StepFuel(net: Network, q: Name, servers: seq<Addr>, level: nat, depth: nat,
                                    domain: Name, f: nat, g: nat, c: Context)
    requires |servers| > 0 && f <= g
    requires Step(net, q, servers, level, depth, domain, f, c).next != Done(OutOfFuel)
    ensures Step(net, q, servers, level, depth, domain, g, c) == Step(net, q, servers, level, depth, domain, f, c)
    decreases f, 5, 0
  {
    var a := TryServers(net, q, servers, |c.sent|);
    if a.response.Some? {
      StepFuelAnswered(net, q, servers, level, depth, domain, f, g, c, a.response.value, a.tried, a.contacted);
    } else {
      StepSilent(net, q, servers, level, depth, domain, f, c);
      StepSilent(net, q, servers, level, depth, domain, g, c);
    }
  }

  lemma {:induction false} StepFuelAnswered(net: Network, q: Name, servers: seq<Addr>, level: nat, depth: nat,
                                            domain: Name, f: nat, g: nat, c: Context,
                                            m: Message, tried: nat, from: Addr)
    requires |servers| > 0 && f <= g
    requires TryServers(net, q, servers, |c.sent|) == Attempt(Some(m), tried, from)
    requires Step(net, q, servers, level, depth, domain, f, c).next != Done(OutOfFuel)
    ensures Step(net, q, servers, level, depth, domain, g, c) == Step(net, q, servers, level, depth, domain, f, c)
    decreases f, 4, 0
  {
    var c1 := Context(c.visited + tried, c.trace, c.sent + Probes(servers, q, tried));
    StepAnswered(net, q, servers, level, depth, domain, f, c);
    StepAnswered(net, q, servers, level, depth, domain, g, c);
    RespondFuel(net, m, q, servers, level, from, depth, domain, f, g, c1);
  }

  lemma {:induction false} RespondFuel(net: Network, m: Message, q: Name, servers: seq<Addr>, level: nat,
                                       from: Addr, depth: nat, domain: Name, f: nat, g: nat, c: Context)
    requires |servers| > 0 && f <= g
    requires Respond(net, m, q, servers, level, from, depth, domain, f, c).next != Done(OutOfFuel)
    ensures Respond(net, m, q, servers, level, from, depth, domain, g, c)
         == Respond(net, m, q, servers, level, from, depth, domain, f, c)
    decreases f, 3, 0
  {
    if |m.answers| == 0 && |m.authority| > 0 && m.authority[0].rtype == TYPE_NS && |Glue(m.additional)| == 0 {
      var c1 := Log(c, [Referred(from, StageOf(level), m.authority[0].rdata)]);
      NsFoldFuel(net, m.authority, 0, [], depth, domain, f, g, c1);
    }
  }

  lemma {:induction false} NsFoldFuel(net: Network, auth: seq<Record>, i: nat, acc: seq<Addr>, depth: nat,
                                      domain: Name, f: nat, g: nat, c: Context)
    requires i <= |auth| && f <= g
    requires !NsFold(net, auth, i, acc, depth, domain, f, c).exhausted
    ensures NsFold(net, auth, i, acc, depth, domain, g, c) == NsFold(net, auth, i, acc, depth, domain, f, c)
    decreases f, 2, |auth| - i
  {
    if i < |auth| {
      var c1 := Log(c, [ResolvingNs(auth[i].rdata)]);
      var sub := Resolve(net, auth[i].rdata, depth + 1, domain, f, c1);
      ResolveFuel(net, auth[i].rdata, depth + 1, domain, f, g, c1);
      var acc' := if sub.outcome.Found? && sub.outcome.addr != "" then acc + [sub.outcome.addr] else acc;
      NsFoldFuel(net, auth, i + 1, acc', depth, domain, f, g, sub.ctx);
    }
  }
}
