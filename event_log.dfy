/**
 * The lines a resolution appends to its trace, and their text.
 *
 * Each line is kept as structured data; `Text` renders the message part of
 * the line as the resolver writes it, without the leading timestamp and
 * without the round-trip and elapsed-time figures (clocks are not modelled).
 */
module EventLog {
  import opened Dns

  /** The stage label of a contacted server. */
  datatype Stage = Root | Tld | Authoritative

  /** The label for a stage level: the level is unbounded, the label is
      capped at the third name. */
  function StageOf(level: nat): (s: Stage)
    ensures s == Root <==> level == 0
    ensures s == Tld <==> level == 1
    ensures s == Authoritative <==> level >= 2
  {
    if level == 0 then Root else if level == 1 then Tld else Authoritative
  }

  function StageName(s: Stage): string
  {
    match s
    case Root => "Root"
    case Tld => "TLD"
    case Authoritative => "Authoritative"
  }

  datatype LogLine =
    | Queried(domain: Name)
    | ContactFailed(server: Addr, stage: Stage)
    | Answered(server: Addr, stage: Stage, addr: Addr)
    | Aliased(server: Addr, stage: Stage, target: Name)
    | Referred(server: Addr, stage: Stage, nameserver: Name)
    | ResolvingNs(host: Name)
    | NsFailed
    | Completed(domain: Name, addr: Addr, visited: nat)
    | Failed(domain: Name)
    | FinalStateFailed

  const COMPLETE_TOKEN: string := "RESOLUTION_COMPLETE"
  const FINAL_STATE_FAILED: string := "[FINAL_STATE: FAILED]"

  /** Decimal digits of a natural number, most significant first. */
  function Decimal(n: nat): (s: string)
    ensures |s| > 0
    ensures forall i :: 0 <= i < |s| ==> '0' <= s[i] <= '9'
  {
    var d := ['0' + (n % 10) as char];
    if n < 10 then d else Decimal(n / 10) + d
  }

  function Contacted(server: Addr, stage: Stage): string
  {
    "DNS server IP contacted: " + server + " (" + StageName(stage) + ")"
  }

  function Text(line: LogLine): string
  {
    match line
    case Queried(d) => "Domain name queried: " + d + " | Resolution mode: Iterative"
    case ContactFailed(s, st) => Contacted(s, st) + " | Response: FAILED"
    case Answered(s, st, a) => Contacted(s, st) + " | Response or referral received: ANSWER (" + a + ")"
    case Aliased(s, st, t) => Contacted(s, st) + " | Response or referral received: CNAME (" + t + ")"
    case Referred(s, st, n) => Contacted(s, st) + " | Response or referral received: REFERRAL (" + n + ")"
    case ResolvingNs(h) => "Resolving NS record: " + h
    case NsFailed => "NS resolution failed"
    case Completed(d, a, n) => COMPLETE_TOKEN + ": " + d + " | IP: " + a + " | SERVERS_VISITED: " + Decimal(n)
    case Failed(d) => "RESOLUTION_FAILED: " + d
    case FinalStateFailed => FINAL_STATE_FAILED
  }

  /** Substring test, `t in s` on strings. */
  predicate Contains(s: string, t: string)
    decreases |s|
  {
    t <= s || (|s| > 0 && Contains(s[1..], t))
  }

  lemma {:induction false} ShorterContainsNothing(s: string, t: string)
    requires |s| < |t|
    ensures !Contains(s, t)
    decreases |s|
  {
    if |s| > 0 {
      ShorterContainsNothing(s[1..], t);
    }
  }

  /** A RESOLUTION_COMPLETE line mentions the completion token, so the
      dispatcher recognises it as a successful end of trace. */
  lemma CompletedMentionsToken(d: Name, a: Addr, n: nat)
    ensures Contains(Text(Completed(d, a, n)), COMPLETE_TOKEN)
  {
    var rest := ": " + d + " | IP: " + a + " | SERVERS_VISITED: " + Decimal(n);
    assert Text(Completed(d, a, n)) == COMPLETE_TOKEN + rest;
    assert COMPLETE_TOKEN <= COMPLETE_TOKEN + rest;
  }

  /** The synthetic failure marker never mentions the completion token. */
  lemma MarkerLacksToken()
    ensures !Contains(Text(FinalStateFailed), COMPLETE_TOKEN)
  {
    var s := FINAL_STATE_FAILED;
    assert !(COMPLETE_TOKEN <= s) by { assert s[0] != COMPLETE_TOKEN[0]; }
    assert !(COMPLETE_TOKEN <= s[1..]) by { assert s[1] != COMPLETE_TOKEN[0]; }
    assert !(COMPLETE_TOKEN <= s[2..]) by { assert s[2] != COMPLETE_TOKEN[0]; }
    ShorterContainsNothing(s[3..], COMPLETE_TOKEN);
    assert s[1..][1..] == s[2..] && s[2..][1..] == s[3..];
  }
}
