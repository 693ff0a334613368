/**
 * The iterative resolver as the imperative procedure it is: a main loop
 * that reassigns the query name, the candidate servers and the stage level,
 * and a per-query context object holding the shared visited-server counter,
 * the append-only trace and the datagrams sent, which nested nameserver
 * resolutions update in place.  Each method is proved to do exactly what the
 * corresponding definition in ResolutionSpec says.
 */
module Resolution {
  import opened Dns
  import opened EventLog
  import opened ResolutionSpec
  import opened ResolutionFacts

  /** The addresses of the glue (A) records in a response's additional
      section, in order. */
  method GlueAddresses(response: Message) returns (ips: seq<Addr>)
    ensures ips == Glue(response.additional)
    ensures |ips| > 0 <==> exists j :: 0 <= j < |response.additional| && response.additional[j].rtype == TYPE_A
  {
    var ar := response.additional;
    ips := [];
    for i := 0 to |ar|
      invariant ips == Glue(ar[..i])
      invariant |ips| > 0 <==> exists j :: 0 <= j < i && ar[j].rtype == TYPE_A
    {
      assert ar[..i + 1][..i] == ar[..i];
      if ar[i].rtype == TYPE_A {
        ips := ips + [ar[i].rdata];
      }
    }
    assert ar[..|ar|] == ar;
  }

  class ResolutionContext {
    const net: Network
    var visited: nat
    var trace: seq<LogLine>
    var sent: seq<Probe>

    function Snapshot(): Context
      reads this
    {
      Context(visited, trace, sent)
    }

    /** A fresh context: counter at zero, empty trace, nothing sent. */
    constructor (net: Network)
      ensures this.net == net && Snapshot() == Context(0, [], [])
    {
      this.net := net;
      visited := 0;
      trace := [];
      sent := [];
    }

    /** Appends one line to the trace. */
    method LogEvent(line: LogLine)
      modifies this`trace
      ensures trace == old(trace) + [line]
    {
      trace := trace + [line];
    }

    /** Tries the candidates in order, counting each one in the shared
        counter, until one answers. */
    method Contact(q: Name, servers: seq<Addr>) returns (response: Option<Message>, contacted: Addr)
      requires |servers| > 0
      modifies this`visited, this`sent
      ensures var a := TryServers(net, q, servers, |old(sent)|);
        response == a.response && contacted == a.contacted &&
        visited == old(visited) + a.tried && sent == old(sent) + Probes(servers, q, a.tried)
    {
      ghost var base := |sent|;
      contacted := servers[0];
      response := None;
      for i := 0 to |servers|
        invariant visited == old(visited) + i && sent == old(sent) + Probes(servers, q, i)
        invariant forall j :: 0 <= j < i ==> net(base + j, servers[j], q).None?
        invariant response.None? && contacted == servers[0]
      {
        visited := visited + 1;
        response := net(|sent|, servers[i], q);
        ProbesNext(servers, q, i);
        sent := sent + [Probe(servers[i], q)];
        if response.Some? {
          contacted := servers[i];
          TryServersAnswered(net, q, servers, base, i);
          return;
        }
      }
      TryServersSilent(net, q, servers, base);
    }

    /** One resolution call: `depth` is 0 for the client's query and one more
        for each nested nameserver resolution; `domain` is the top-level
        domain the trace is attributed to (ignored at depth 0). */
    method Resolve(query: Name, depth: nat, domain: Name, fuel: nat) returns (r: Outcome)
      modifies this
      ensures Run(r, Snapshot()) == ResolutionSpec.Resolve(net, query, depth, domain, fuel, old(Snapshot()))
      decreases fuel, 0
    {
      var dom := if depth == 0 then query else domain;
      if depth == 0 {
        LogEvent(Queried(dom));
      }
      var q: Name, servers: seq<Addr>, level: nat, f: nat := query, [ROOT_SERVER], 0, fuel;
      while true
        invariant |servers| > 0 && f <= fuel
        invariant Loop(net, q, servers, level, depth, dom, f, Snapshot())
               == ResolutionSpec.Resolve(net, query, depth, domain, fuel, old(Snapshot()))
        decreases f
      {
        if f == 0 {
          return OutOfFuel;
        }
        f := f - 1;
        var next := Step(q, servers, level, depth, dom, f);
        match next
        case Done(o) =>
          return o;
        case Continue(q', servers', level') =>
          q, servers, level := q', servers', level';
      }
    }

    /** One pass of the main loop.  `fuel` is what the nested nameserver
        resolutions of this pass may use. */
    method Step(q: Name, servers: seq<Addr>, level: nat, depth: nat, dom: Name, fuel: nat)
      returns (next: Next)
      requires |servers| > 0
      modifies this
      ensures StepRun(next, Snapshot()) == ResolutionSpec.Step(net, q, servers, level, depth, dom, fuel, old(Snapshot()))
      decreases fuel, 4
    {
      ghost var c := Snapshot();
      var stage := StageOf(level);
      var response, contacted := Contact(q, servers);
      if response.None? {
        StepSilent(net, q, servers, level, depth, dom, fuel, c);
        LogEvent(ContactFailed(contacted, stage));
        LogEvent(Failed(dom));
        return Done(NotFound);
      }
      StepAnswered(net, q, servers, level, depth, dom, fuel, c);
      next := Respond(response.value, q, servers, level, contacted, depth, dom, fuel);
    }

    /** Acts on the response `m` of server `from`: its answers when it has
        any, otherwise its authority section. */
    method Respond(m: Message, q: Name, servers: seq<Addr>, level: nat, from: Addr,
                   depth: nat, dom: Name, fuel: nat) returns (next: Next)
      requires |servers| > 0
      modifies this
      ensures StepRun(next, Snapshot()) == ResolutionSpec.Respond(net, m, q, servers, level, from, depth, dom, fuel, old(Snapshot()))
      decreases fuel, 3
    {
      if |m.answers| > 0 {
        next := FollowAnswers(m, q, servers, level, from, depth, dom, fuel);
      } else {
        next := FollowReferral(m, q, servers, level, from, depth, dom, fuel);
      }
    }

    /** The first A or CNAME answer decides; answers with neither leave the
        loop where it was. */
    method FollowAnswers(m: Message, q: Name, servers: seq<Addr>, level: nat, from: Addr,
                         depth: nat, dom: Name, fuel: nat) returns (next: Next)
      requires |servers| > 0 && |m.answers| > 0
      modifies this`trace
      ensures StepRun(next, Snapshot()) == ResolutionSpec.Respond(net, m, q, servers, level, from, depth, dom, fuel, old(Snapshot()))
    {
      ghost var c := Snapshot();
      var stage := StageOf(level);
      var j := 0;
      while j < |m.answers| && !Decisive(m.answers[j])
        invariant j <= |m.answers|
        invariant forall k :: 0 <= k < j ==> !Decisive(m.answers[k])
      {
        j := j + 1;
      }
      if j == |m.answers| {
        NeitherAnswerRepeats(net, m, q, servers, level, from, depth, dom, fuel, c);
        return Continue(q, servers, level);
      }
      var rec := m.answers[j];
      if rec.rtype == TYPE_A {
        FirstAnswerDecides(net, m, q, servers, level, from, depth, dom, fuel, c, j);
        LogEvent(Answered(from, stage, rec.rdata));
        if depth == 0 {
          LogEvent(Completed(dom, rec.rdata, visited));
        }
        return Done(Found(rec.rdata));
      }
      CnameRestartsAtRoot(net, m, q, servers, level, from, depth, dom, fuel, c, j);
      LogEvent(Aliased(from, stage, rec.rdata));
      return Continue(rec.rdata, [ROOT_SERVER], 0);
    }

    /** A response without answers: a referral whose first authority record
        is NS moves on to the glue addresses, or to the nameservers' own
        addresses; anything else ends the resolution. */
    method FollowReferral(m: Message, q: Name, servers: seq<Addr>, level: nat, from: Addr,
                          depth: nat, dom: Name, fuel: nat) returns (next: Next)
      requires |servers| > 0 && |m.answers| == 0
      modifies this
      ensures StepRun(next, Snapshot()) == ResolutionSpec.Respond(net, m, q, servers, level, from, depth, dom, fuel, old(Snapshot()))
      decreases fuel, 2
    {
      ghost var c := Snapshot();
      if |m.authority| == 0 || m.authority[0].rtype != TYPE_NS {
        UnusableResponseFails(net, m, q, servers, level, from, depth, dom, fuel, c);
        return Done(NotFound);
      }
      LogEvent(Referred(from, StageOf(level), m.authority[0].rdata));
      var glue := GlueAddresses(m);
      if |glue| > 0 {
        ghost var j :| 0 <= j < |m.additional| && m.additional[j].rtype == TYPE_A;
        GlueShortCircuits(net, m, q, servers, level, from, depth, dom, fuel, c, j);
        return Continue(q, glue, level + 1);
      }
      GlueEmpty(m.additional);
      var exhausted, found := ResolveNameservers(m.authority, depth, dom, fuel);
      if exhausted {
        return Done(OutOfFuel);
      }
      if |found| == 0 {
        LogEvent(NsFailed);
        LogEvent(Failed(dom));
        return Done(NotFound);
      }
      return Continue(q, found, level + 1);
    }

    /** Resolves the value of every authority record by a nested resolution
        one level deeper, sharing this context, and collects the addresses
        found, in call order. */
    method ResolveNameservers(auth: seq<Record>, depth: nat, dom: Name, fuel: nat)
      returns (exhausted: bool, found: seq<Addr>)
      modifies this
      ensures NsRun(exhausted, found, Snapshot()) == NsFold(net, auth, 0, [], depth, dom, fuel, old(Snapshot()))
      decreases fuel, 1
    {
      found := [];
      for i := 0 to |auth|
        invariant NsFold(net, auth, i, found, depth, dom, fuel, Snapshot())
               == NsFold(net, auth, 0, [], depth, dom, fuel, old(Snapshot()))
      {
        LogEvent(ResolvingNs(auth[i].rdata));
        var sub := Resolve(auth[i].rdata, depth + 1, dom, fuel);
        if sub.OutOfFuel? {
          return true, found;
        }
        if sub.Found? && sub.addr != "" {
          found := found + [sub.addr];
        }
      }
      exhausted := false;
    }
  }
}
