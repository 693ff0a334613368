/**
 * The event-log scanner of the plotting tool: one pass over the log's lines
 * that remembers the domain of the last "Domain name queried" line and the
 * round-trip times seen since, and emits one record per RESOLUTION_COMPLETE
 * line of that domain.
 *
 * The three regular expressions are not modelled; each line is given as
 * what each of them finds in it (`LogText`), and the scanner itself applies
 * them in its order: query pattern, then round-trip pattern, then
 * completion pattern.
 */
module ResolverLogs {
  import opened Dns

  /** What float() makes of a captured number: its value, or an error
      (the pattern admits texts such as "1.2.3"). */
  datatype Number = Parsed(value: real) | Unparsable

  /** The groups of the completion pattern: domain, address, total time and
      SERVERS_VISITED (digits only, so always an integer). */
  datatype CompleteMatch = CompleteMatch(domain: Name, ip: Addr, totalTime: Number, serversVisited: nat)

  /** One log line as the three patterns see it. */
  datatype LogText = LogText(query: Option<Name>, rtt: Option<Number>, complete: Option<CompleteMatch>)

  /** One emitted record. */
  datatype Entry = Entry(domain: Name, resolvedIp: Addr, totalTime: real, serversVisited: nat, avgRtt: real)

  /** The scanner's state: the current domain (None before any query line and
      after an emission), the round-trip times collected, the records so far. */
  datatype Scan = Scan(domain: Option<Name>, rtts: seq<real>, entries: seq<Entry>)

  const START: Scan := Scan(None, [], [])

  function Sum(xs: seq<real>): real
  {
    if xs == [] then 0.0 else Sum(xs[..|xs| - 1]) + xs[|xs| - 1]
  }

  /** Mean of the collected round-trip times, 0 when there are none. */
  function Average(xs: seq<real>): real
  {
    if xs == [] then 0.0 else Sum(xs) / (|xs| as real)
  }

  /** One line; None when float() raises on a captured number. */
  function ScanLine(s: Scan, line: LogText): (r: Option<Scan>)
    ensures r.Some? ==> s.entries <= r.value.entries && |r.value.entries| <= |s.entries| + 1
    ensures r.Some? && |r.value.entries| == |s.entries| + 1 ==> r.value.domain.None? && r.value.rtts == []
  {
    if line.query.Some? then
      Some(Scan(Some(line.query.value), [], s.entries))
    else if line.rtt.Some? then
      match line.rtt.value
      case Unparsable => None
      case Parsed(x) => Some(s.(rtts := s.rtts + [x]))
    else if line.complete.Some? && s.domain == Some(line.complete.value.domain) then
      var c := line.complete.value;
      match c.totalTime
      case Unparsable => None
      case Parsed(t) =>
        Some(Scan(None, [], s.entries + [Entry(c.domain, c.ip, t, c.serversVisited, Average(s.rtts))]))
    else
      Some(s)
  }

  /** The rest of the file from state s; None when a number fails to parse. */
  function ScanFrom(s: Scan, lines: seq<LogText>): Option<Scan>
    decreases |lines|
  {
    if lines == [] then Some(s)
    else
      match ScanLine(s, lines[0])
      case None => None
      case Some(s') => ScanFrom(s', lines[1..])
  }

  /** The records of a log file; `file` is None when the file does not exist.
      Any parse error discards everything, as the handler returns an empty
      table. */
  function Records(file: Option<seq<LogText>>): seq<Entry>
  {
    match file
    case None => []
    case Some(lines) =>
      match ScanFrom(START, lines)
      case None => []
      case Some(s) => s.entries
  }

  /** Number of lines the query pattern matches. */
  function QueryLines(lines: seq<LogText>): nat
  {
    if lines == [] then 0 else QueryLines(lines[..|lines| - 1]) + (if lines[|lines| - 1].query.Some? then 1 else 0)
  }

  /** The scanner as the loop it is. */
  method ProcessResolverLogs(file: Option<seq<LogText>>) returns (entries: seq<Entry>)
    ensures entries == Records(file)
    ensures file.None? ==> entries == []
    ensures file.Some? ==> |entries| <= QueryLines(file.value)
  {
    if file.None? {
      return [];
    }
    var lines := file.value;
    var domain: Option<Name> := None;
    var rtts: seq<real> := [];
    entries := [];
    for i := 0 to |lines|
      invariant ScanFrom(Scan(domain, rtts, entries), lines[i..]) == ScanFrom(START, lines)
      invariant |entries| + (if domain.Some? then 1 else 0) <= QueryLines(lines[..i])
    {
      var line := lines[i];
      assert lines[i..][1..] == lines[i + 1..];
      assert lines[..i + 1][..i] == lines[..i];
      if line.query.Some? {
        domain := line.query;
        rtts := [];
        continue;
      }
      if line.rtt.Some? {
        if line.rtt.value.Unparsable? {
          return [];
        }
        rtts := rtts + [line.rtt.value.value];
        continue;
      }
      if line.complete.Some? && domain == Some(line.complete.value.domain) {
        var avg := Average(rtts);
        var c := line.complete.value;
        if c.totalTime.Unparsable? {
          return [];
        }
        entries := entries + [Entry(c.domain, c.ip, c.totalTime.value, c.serversVisited, avg)];
        domain := None;
        rtts := [];
      }
    }
    assert lines[|lines|..] == [];
    assert lines[..|lines|] == lines;
  }

  // ----- One line -----

  /** A query line sets the current domain and empties the collected times,
      whatever else the line holds: it is never tested against the other
      patterns. */
  lemma QueryLineResets(s: Scan, line: LogText)
    requires line.query.Some?
    ensures ScanLine(s, line) == Some(Scan(line.query, [], s.entries))
  {
  }

  /** A round-trip line that is not a query line appends exactly its time,
      and is never tested against the completion pattern. */
  lemma RttLineAppends(s: Scan, line: LogText, x: real)
    requires line.query.None? && line.rtt == Some(Parsed(x))
    ensures ScanLine(s, line) == Some(Scan(s.domain, s.rtts + [x], s.entries))
  {
  }

  /** A completion line for the current domain emits one record: domain,
      address, time and SERVERS_VISITED from the line, and the mean of the
      collected times; the domain and the times are then cleared. */
  lemma CompletionEmits(s: Scan, line: LogText, t: real)
    requires line.query.None? && line.rtt.None?
    requires line.complete.Some? && s.domain == Some(line.complete.value.domain)
    requires line.complete.value.totalTime == Parsed(t)
    ensures var c := line.complete.value;
            ScanLine(s, line) == Some(Scan(None, [], s.entries + [Entry(c.domain, c.ip, t, c.serversVisited, Average(s.rtts))]))
  {
  }

  /** A completion line for another domain, or with no current domain (so a
      repeated completion line after an emission), changes nothing. */
  lemma OtherCompletionIgnored(s: Scan, line: LogText)
    requires line.query.None? && line.rtt.None?
    requires line.complete.None? || s.domain != Some(line.complete.value.domain)
    ensures ScanLine(s, line) == Some(s)
  {
  }

  // ----- The whole log -----

  /** Records are only ever appended, so they come out in log order. */
  lemma {:induction false} RecordsAppendOnly(s: Scan, lines: seq<LogText>)
    requires ScanFrom(s, lines).Some?
    ensures s.entries <= ScanFrom(s, lines).value.entries
    decreases |lines|
  {
    if lines != [] {
      var s' := ScanLine(s, lines[0]).value;
      RecordsAppendOnly(s', lines[1..]);
    }
  }

  function Pending(s: Scan): nat
  {
    |s.entries| + (if s.domain.Some? then 1 else 0)
  }

  lemma QueryLinesSplit(line: LogText, rest: seq<LogText>)
    ensures QueryLines([line] + rest) == (if line.query.Some? then 1 else 0) + QueryLines(rest)
    decreases |rest|
  {
    if rest != [] {
      var init := rest[..|rest| - 1];
      assert ([line] + rest)[..|[line] + rest| - 1] == [line] + init;
      QueryLinesSplit(line, init);
    } else {
      assert ([line] + rest)[..0] == [];
    }
  }

  /** Each record uses up the domain of one query line: records plus a
      pending domain never outnumber the query lines read. */
  lemma {:induction false} RecordsPerQueryLine(s: Scan, lines: seq<LogText>)
    requires ScanFrom(s, lines).Some?
    ensures Pending(ScanFrom(s, lines).value) <= Pending(s) + QueryLines(lines)
    decreases |lines|
  {
    if lines != [] {
      var s' := ScanLine(s, lines[0]).value;
      RecordsPerQueryLine(s', lines[1..]);
      assert lines == [lines[0]] + lines[1..];
      QueryLinesSplit(lines[0], lines[1..]);
    }
  }

  /** At most one record per query line in the file, and none for a
      missing file. */
  lemma RecordsBounded(file: Option<seq<LogText>>)
    ensures file.None? ==> Records(file) == []
    ensures file.Some? ==> |Records(file)| <= QueryLines(file.value)
  {
    if file.Some? && ScanFrom(START, file.value).Some? {
      RecordsPerQueryLine(START, file.value);
    }
  }

  // ----- The mean round-trip time -----

  lemma {:induction false} SumBounds(xs: seq<real>, lo: real, hi: real)
    requires forall i :: 0 <= i < |xs| ==> lo <= xs[i] <= hi
    ensures (|xs| as real) * lo <= Sum(xs) <= (|xs| as real) * hi
    decreases |xs|
  {
    if xs != [] {
      SumBounds(xs[..|xs| - 1], lo, hi);
    }
  }

  /** The recorded mean lies between the smallest and the largest time
      collected. */
  lemma AverageBetween(xs: seq<real>, lo: real, hi: real)
    requires xs != []
    requires forall i :: 0 <= i < |xs| ==> lo <= xs[i] <= hi
    ensures lo <= Average(xs) <= hi
  {
    SumBounds(xs, lo, hi);
    var n := |xs| as real;
    assert Average(xs) == Sum(xs) / n;
    assert n * lo <= Sum(xs) <= n * hi;
    assert lo == (n * lo) / n && hi == (n * hi) / n;
  }
}
