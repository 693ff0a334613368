/**
 * Abstract DNS messages as the resolver sees them after decoding, and the
 * upstream network as an oracle.  The wire codec itself is not modelled:
 * a message is the decoded value, with one question and three ordered
 * record sections.
 */
module Dns {

  datatype Option<+T> = None | Some(value: T)

  /** Domain names and IPv4 addresses are text, as the resolver handles them. */
  type Name = string
  type Addr = string

  /** Record type tags the resolver distinguishes. */
  const TYPE_A: nat := 1
  const TYPE_NS: nat := 2
  const TYPE_CNAME: nat := 5

  /** A resource record: type tag, owner name, time to live and its value
      (an address for A, a domain name for NS and CNAME). */
  datatype Record = Record(rtype: nat, owner: Name, ttl: nat, rdata: string)

  datatype Question = Question(qname: Name, qtype: nat)

  datatype Message = Message(
    id: nat,
    qr: bool,       // response flag
    aa: bool,       // authoritative answer
    ra: bool,       // recursion available
    rcode: nat,
    question: Question,
    answers: seq<Record>,
    authority: seq<Record>,
    additional: seq<Record>)

  /** The upstream network: the reply (or none, on timeout or a reply that
      could not be decoded) to the n-th datagram a resolution sends, sent to
      `server` and asking for `qname`.  Indexing by n lets the same question
      get different replies over time. */
  type Network = (nat, Addr, Name) -> Option<Message>
}
