/**
 * What one iterative resolution does, as a pure state-passing definition.
 *
 * The resolution state that the imperative resolver threads through its
 * recursive calls (the shared visited-server counter, the append-only trace
 * and the datagrams sent upstream) is a `Context` value here; each function
 * takes the context before and returns the context after, with the outcome.
 *
 * The resolver has no bound on CNAME chains, on re-queries of a response
 * with neither A nor CNAME answers, or on nested nameserver resolution, so
 * the definition carries fuel: each pass of the main loop costs one unit,
 * and the nested resolutions started in a pass get what is left.  Running
 * out gives `OutOfFuel`; every other outcome is the resolver's own.
 */
module ResolutionSpec {
  import opened Dns
  import opened EventLog

  const ROOT_SERVER: Addr := "198.41.0.4"

  datatype Outcome = Found(addr: Addr) | NotFound | OutOfFuel

  /** One datagram sent upstream: the server asked and the name asked for. */
  datatype Probe = Probe(server: Addr, qname: Name)

  /** The per-query state shared by a resolution and its nested calls. */
  datatype Context = Context(visited: nat, trace: seq<LogLine>, sent: seq<Probe>)

  datatype Run = Run(outcome: Outcome, ctx: Context)

  function Log(c: Context, lines: seq<LogLine>): (d: Context)
    ensures d.trace == c.trace + lines && d.visited == c.visited && d.sent == c.sent
  {
    c.(trace := c.trace + lines)
  }

  /** `d` is a later state of `c`: the trace and the datagrams sent only grow,
      and the counter grew by exactly the number of datagrams sent. */
  predicate Extends(c: Context, d: Context)
  {
    c.trace <= d.trace && c.sent <= d.sent && d.visited == c.visited + (|d.sent| - |c.sent|)
  }

  lemma ExtendsTransitive(c: Context, d: Context, e: Context)
    requires Extends(c, d) && Extends(d, e)
    ensures Extends(c, e)
  {
    assert e.trace[..|c.trace|] == e.trace[..|d.trace|][..|c.trace|];
    assert e.sent[..|c.sent|] == e.sent[..|d.sent|][..|c.sent|];
  }

  /** No line appended between `c` and `d` is a RESOLUTION_COMPLETE line. */
  predicate NoCompletion(c: Context, d: Context)
    requires c.trace <= d.trace
  {
    forall i :: |c.trace| <= i < |d.trace| ==> !d.trace[i].Completed?
  }

  /** A RESOLUTION_COMPLETE line appended by a run is appended only at depth 0,
      only when the run found an address, and only as the run's last line. */
  predicate CompletionOnlyAtEnd(c: Context, r: Run, depth: nat)
    requires c.trace <= r.ctx.trace
  {
    forall i :: |c.trace| <= i < |r.ctx.trace| && r.ctx.trace[i].Completed? ==>
      depth == 0 && r.outcome.Found? && i == |r.ctx.trace| - 1
  }

  /** A top-level success ends the trace with the completion line, naming the
      originally queried domain, the address and the counter's final value. */
  predicate EndsWithCompletion(c: Context, r: Run, domain: Name)
  {
    |r.ctx.trace| > |c.trace| &&
    r.outcome.Found? &&
    r.ctx.trace[|r.ctx.trace| - 1] == Completed(domain, r.outcome.addr, r.ctx.visited)
  }

  /** Index of the first server in `servers[i..]` that answers, or |servers|. */
  function FirstResponder(net: Network, q: Name, servers: seq<Addr>, base: nat, i: nat): (k: nat)
    requires i <= |servers|
    ensures i <= k <= |servers|
    ensures forall j :: i <= j < k ==> net(base + j, servers[j], q).None?
    ensures k < |servers| ==> net(base + k, servers[k], q).Some?
    decreases |servers| - i
  {
    if i == |servers| then i
    else if net(base + i, servers[i], q).Some? then i
    else FirstResponder(net, q, servers, base, i + 1)
  }

  /** The result of trying the candidate servers in order. */
  datatype Attempt = Attempt(response: Option<Message>, tried: nat, contacted: Addr)

  /** Candidates are tried in order until one answers; `tried` counts the
      servers asked, `contacted` is the one that answered, or the first
      candidate when none did.  `base` numbers the first datagram. */
  function TryServers(net: Network, q: Name, servers: seq<Addr>, base: nat): (a: Attempt)
    requires |servers| > 0
    ensures 1 <= a.tried <= |servers|
    ensures forall j :: 0 <= j < a.tried - 1 ==> net(base + j, servers[j], q).None?
    ensures a.response == net(base + a.tried - 1, servers[a.tried - 1], q)
    ensures a.response.None? <==> a.tried == |servers| && net(base + |servers| - 1, servers[|servers| - 1], q).None?
    ensures a.contacted == if a.response.Some? then servers[a.tried - 1] else servers[0]
  {
    var k := FirstResponder(net, q, servers, base, 0);
    if k < |servers| then Attempt(net(base + k, servers[k], q), k + 1, servers[k])
    else Attempt(None, |servers|, servers[0])
  }

  /** The datagrams sent when the first n candidates are tried. */
  function Probes(servers: seq<Addr>, q: Name, n: nat): (ps: seq<Probe>)
    requires n <= |servers|
    ensures |ps| == n
    ensures forall j :: 0 <= j < n ==> ps[j] == Probe(servers[j], q)
  {
    seq(n, j requires 0 <= j < n <= |servers| => Probe(servers[j], q))
  }

  /** Trying one more candidate sends one more datagram, to that candidate. */
  lemma ProbesNext(servers: seq<Addr>, q: Name, n: nat)
    requires n < |servers|
    ensures Probes(servers, q, n + 1) == Probes(servers, q, n) + [Probe(servers[n], q)]
  {
    assert Probes(servers, q, n + 1)[..n] == Probes(servers, q, n);
  }

  /** The candidate at index i answers after every earlier one failed: it is
      the one contacted, and i + 1 servers were tried. */
  lemma TryServersAnswered(net: Network, q: Name, servers: seq<Addr>, base: nat, i: nat)
    requires i < |servers|
    requires forall j :: 0 <= j < i ==> net(base + j, servers[j], q).None?
    requires net(base + i, servers[i], q).Some?
    ensures TryServers(net, q, servers, base) == Attempt(net(base + i, servers[i], q), i + 1, servers[i])
  {
  }

  /** No candidate answers: all were tried, and the first is reported. */
  lemma TryServersSilent(net: Network, q: Name, servers: seq<Addr>, base: nat)
    requires |servers| > 0
    requires forall j :: 0 <= j < |servers| ==> net(base + j, servers[j], q).None?
    ensures TryServers(net, q, servers, base) == Attempt(None, |servers|, servers[0])
  {
  }

  /** Whether an answer record settles the answer scan. */
  predicate Decisive(r: Record)
  {
    r.rtype == TYPE_A || r.rtype == TYPE_CNAME
  }

  /** Index of the first A or CNAME record, or |rs| when there is none. */
  function FirstDecisive(rs: seq<Record>): (k: nat)
    ensures k <= |rs|
    ensures forall j :: 0 <= j < k ==> !Decisive(rs[j])
    ensures k < |rs| ==> Decisive(rs[k])
  {
    if rs == [] then 0
    else if Decisive(rs[0]) then 0
    else 1 + FirstDecisive(rs[1..])
  }

  /** The addresses of the A records in the additional section, in order. */
  function Glue(rs: seq<Record>): (ips: seq<Addr>)
    ensures |ips| <= |rs|
  {
    if rs == [] then []
    else Glue(rs[..|rs| - 1]) + (if rs[|rs| - 1].rtype == TYPE_A then [rs[|rs| - 1].rdata] else [])
  }

  /** One resolution call: at depth 0 the queried name becomes the domain the
      trace is attributed to and a "Domain name queried" line is appended;
      nested calls keep their caller's domain.  The walk starts at the root. */
  function Resolve(net: Network, query: Name, depth: nat, domain: Name, fuel: nat, c: Context): (r: Run)
    ensures Extends(c, r.ctx)
    ensures CompletionOnlyAtEnd(c, r, depth)
    ensures depth == 0 && r.outcome.Found? ==> EndsWithCompletion(c, r, query)
    decreases fuel, 1, 0
  {
    var dom := if depth == 0 then query else domain;
    var c1 := if depth == 0 then Log(c, [Queried(dom)]) else c;
    var r := Loop(net, query, [ROOT_SERVER], 0, depth, dom, fuel, c1);
    ExtendsTransitive(c, c1, r.ctx);
    r
  }

  /** The main loop from the state (query name, candidates, stage level):
      one step per unit of fuel until a step is final. */
  function Loop(net: Network, q: Name, servers: seq<Addr>, level: nat, depth: nat, domain: Name,
                fuel: nat, c: Context): (r: Run)
    requires |servers| > 0
    ensures Extends(c, r.ctx)
    ensures CompletionOnlyAtEnd(c, r, depth)
    ensures depth == 0 && r.outcome.Found? ==> EndsWithCompletion(c, r, domain)
    decreases fuel, 0, 0
  {
    if fuel == 0 then Run(OutOfFuel, c)
    else
      var s := Step(net, q, servers, level, depth, domain, fuel - 1, c);
      match s.next
      case Done(o) => Run(o, s.ctx)
      case Continue(q', servers', level') =>
        var r := Loop(net, q', servers', level', depth, domain, fuel - 1, s.ctx);
        ExtendsTransitive(c, s.ctx, r.ctx);
        r
  }

  /** Where a step of the main loop leaves it: finished with an outcome, or
      continuing from a new (query name, candidates, stage level). */
  datatype Next = Done(outcome: Outcome) | Continue(q: Name, servers: seq<Addr>, level: nat)

  datatype StepRun = StepRun(next: Next, ctx: Context)

  /** One pass of the main loop: contact the candidates, then act on the
      response.  `fuel` is what nested nameserver resolutions may use. */
  function Step(net: Network, q: Name, servers: seq<Addr>, level: nat, depth: nat, domain: Name,
                fuel: nat, c: Context): (s: StepRun)
    requires |servers| > 0
    ensures Extends(c, s.ctx)
    ensures s.next.Continue? ==> |s.next.servers| > 0 && NoCompletion(c, s.ctx)
    ensures s.next.Done? ==> CompletionOnlyAtEnd(c, Run(s.next.outcome, s.ctx), depth)
    ensures depth == 0 && s.next.Done? && s.next.outcome.Found? ==>
              EndsWithCompletion(c, Run(s.next.outcome, s.ctx), domain)
    decreases fuel, 4, 0
  {
    var a := TryServers(net, q, servers, |c.sent|);
    var c1 := Context(c.visited + a.tried, c.trace, c.sent + Probes(servers, q, a.tried));
    var stage := StageOf(level);
    if a.response.None? then
      StepRun(Done(NotFound), Log(c1, [ContactFailed(a.contacted, stage), Failed(domain)]))
    else
      var m := a.response.value;
      var r := Respond(net, m, q, servers, level, a.contacted, depth, domain, fuel, c1);
      ExtendsTransitive(c, c1, r.ctx);
      r
  }

  /** What a step does with the response of the server `from`. */
  function Respond(net: Network, m: Message, q: Name, servers: seq<Addr>, level: nat, from: Addr,
                   depth: nat, domain: Name, fuel: nat, c: Context): (s: StepRun)
    requires |servers| > 0
    ensures Extends(c, s.ctx)
    ensures s.next.Continue? ==> |s.next.servers| > 0 && NoCompletion(c, s.ctx)
    ensures s.next.Done? ==> CompletionOnlyAtEnd(c, Run(s.next.outcome, s.ctx), depth)
    ensures depth == 0 && s.next.Done? && s.next.outcome.Found? ==>
              EndsWithCompletion(c, Run(s.next.outcome, s.ctx), domain)
    decreases fuel, 3, 0
  {
    var stage := StageOf(level);
    if |m.answers| > 0 then
      var k := FirstDecisive(m.answers);
      if k == |m.answers| then
        StepRun(Continue(q, servers, level), c)
      else if m.answers[k].rtype == TYPE_A then
        var a := m.answers[k].rdata;
        var c1 := Log(c, [Answered(from, stage, a)]);
        StepRun(Done(Found(a)), if depth == 0 then Log(c1, [Completed(domain, a, c.visited)]) else c1)
      else
        var target := m.answers[k].rdata;
        StepRun(Continue(target, [ROOT_SERVER], 0), Log(c, [Aliased(from, stage, target)]))
    else if |m.authority| > 0 then
      if m.authority[0].rtype == TYPE_NS then
        var c1 := Log(c, [Referred(from, stage, m.authority[0].rdata)]);
        var glue := Glue(m.additional);
        if |glue| > 0 then
          StepRun(Continue(q, glue, level + 1), c1)
        else
          var ns := NsFold(net, m.authority, 0, [], depth, domain, fuel, c1);
          ExtendsTransitive(c, c1, ns.ctx);
          if ns.exhausted then StepRun(Done(OutOfFuel), ns.ctx)
          else if |ns.addrs| == 0 then StepRun(Done(NotFound), Log(ns.ctx, [NsFailed, Failed(domain)]))
          else StepRun(Continue(q, ns.addrs, level + 1), ns.ctx)
      else StepRun(Done(NotFound), c)
    else StepRun(Done(NotFound), c)
  }

  /** The outcome of resolving the nameservers of a glueless referral. */
  datatype NsRun = NsRun(exhausted: bool, addrs: seq<Addr>, ctx: Context)

  /** Resolves the value of every authority record from index i on, each by a
      nested call one level deeper, collecting the addresses found. */
  function NsFold(net: Network, auth: seq<Record>, i: nat, acc: seq<Addr>, depth: nat, domain: Name,
                  fuel: nat, c: Context): (r: NsRun)
    requires i <= |auth|
    ensures Extends(c, r.ctx)
    ensures NoCompletion(c, r.ctx)
    ensures acc <= r.addrs && |r.addrs| <= |acc| + (|auth| - i)
    ensures forall j :: |acc| <= j < |r.addrs| ==> r.addrs[j] != ""
    decreases fuel, 2, |auth| - i
  {
    if i == |auth| then NsRun(false, acc, c)
    else
      var c1 := Log(c, [ResolvingNs(auth[i].rdata)]);
      var sub := Resolve(net, auth[i].rdata, depth + 1, domain, fuel, c1);
      ExtendsTransitive(c, c1, sub.ctx);
      if sub.outcome.OutOfFuel? then NsRun(true, acc, sub.ctx)
      else
        var acc' := if sub.outcome.Found? && sub.outcome.addr != "" then acc + [sub.outcome.addr] else acc;
        var r := NsFold(net, auth, i + 1, acc', depth, domain, fuel, sub.ctx);
        ExtendsTransitive(c, sub.ctx, r.ctx);
        r
  }
}
