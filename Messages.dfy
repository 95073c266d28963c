/** The parts of a DNS message the resolver looks at (section 4.1 of
    RFC 1035), and its response cache: the key a question is filed under,
    the lazy time-to-live check of a lookup, and the guarded replacement of
    an insertion. */
module Messages {
  import opened Basics

  /** Response codes, type codes and class codes the resolver compares with. */
  const NoError: nat := 0
  const TypeA: nat := 1
  const TypeCNAME: nat := 5
  const TypeSOA: nat := 6
  const TypeAXFR: nat := 252
  const ClassIN: nat := 1

  datatype Endpoint = Endpoint(address: seq<byte>, port: nat)

  datatype Header = Header(id: nat, rcode: nat, qdcount: nat, ancount: nat, nscount: nat, arcount: nat)

  datatype Question = Question(qname: string, qtype: nat, qclass: nat)

  /** A resource record: its owner name, type and class, the time to live it
      was received with, the seconds it has lived since, and the text form of
      its decoded data (for an A record, the dotted address). */
  datatype RR = RR(name: string, rtype: nat, rclass: nat, ttl: nat, timeLived: int, record: string)

  datatype Response = Response(
    header: Header,
    questions: seq<Question>,
    answers: seq<RR>,
    authorities: seq<RR>,
    additionals: seq<RR>,
    server: Option<Endpoint>,
    messageSize: int,
    error: string)

  /** A response with nothing in it, as a freshly made one starts out. */
  const Empty: Response := Response(Header(0, 0, 0, 0, 0, 0), [], [], [], [], None, 0, "")

  /** A response that carries only an error text. */
  function Failure(message: string): (r: Response)
    ensures r.error == message && r.questions == [] && r.answers == []
  {
    Empty.(error := message)
  }

  /** Every record of a response, answers first, then authorities, then
      additionals. */
  function AllRecords(r: Response): seq<RR> {
    r.answers + r.authorities + r.additionals
  }

  /** What is left of a record's time to live; never negative. */
  function RemainingTtl(rr: RR): (t: int)
    ensures t >= 0
    ensures t == 0 <==> rr.ttl <= rr.timeLived
    ensures t > 0 ==> t == rr.ttl - rr.timeLived
  {
    if rr.ttl - rr.timeLived > 0 then rr.ttl - rr.timeLived else 0
  }

  /** The records with their lived time set to `elapsed` seconds. */
  function StampAll(rs: seq<RR>, elapsed: int): (s: seq<RR>)
    ensures |s| == |rs|
    ensures forall i :: 0 <= i < |rs| ==> s[i] == rs[i].(timeLived := elapsed)
  {
    seq(|rs|, i requires 0 <= i < |rs| => rs[i].(timeLived := elapsed))
  }

  function Stamp(r: Response, elapsed: int): (s: Response)
    ensures AllRecords(s) == StampAll(AllRecords(r), elapsed)
  {
    r.(answers := StampAll(r.answers, elapsed),
       authorities := StampAll(r.authorities, elapsed),
       additionals := StampAll(r.additionals, elapsed))
  }

  /** A cached response is still usable after `elapsed` seconds when every
      one of its records outlives that time. */
  predicate Fresh(r: Response, elapsed: int) {
    forall i :: 0 <= i < |AllRecords(r)| ==> AllRecords(r)[i].ttl > elapsed
  }

  /** The key a question is filed under: class, type and name joined by
      dashes, the codes written in decimal. */
  function CacheKey(q: Question): string {
    Decimal(q.qclass) + "-" + Decimal(q.qtype) + "-" + q.qname
  }

  lemma DashAfter(a: string, x: string)
    ensures (a + "-" + x)[|a|] == '-'
  {
  }

  lemma DigitsThenDash(a: string, x: string, b: string, y: string)
    requires AllDigits(a) && AllDigits(b)
    requires a + "-" + x == b + "-" + y
    ensures a == b && x == y
  {
    var s := a + "-" + x;
    if |a| < |b| {
      DashAfter(a, x);
      assert false;
    } else if |b| < |a| {
      DashAfter(b, y);
      assert false;
    }
    assert a == s[..|a|] == b;
    assert x == s[|a| + 1..] == y;
  }

  /** Different questions never share a cache entry. */
  lemma CacheKeyInjective(p: Question, q: Question)
    requires CacheKey(p) == CacheKey(q)
    ensures p == q
  {
    var cp, tp := Decimal(p.qclass), Decimal(p.qtype);
    var cq, tq := Decimal(q.qclass), Decimal(q.qtype);
    assert cp + "-" + (tp + "-" + p.qname) == CacheKey(p);
    assert cq + "-" + (tq + "-" + q.qname) == CacheKey(q);
    DigitsThenDash(cp, tp + "-" + p.qname, cq, tq + "-" + q.qname);
    DigitsThenDash(tp, p.qname, tq, q.qname);
    DecimalInjective(p.qclass, q.qclass);
    DecimalInjective(p.qtype, q.qtype);
  }

  /** What a cache lookup answers: nothing when caching is off, the question
      was never filed, or some record of the filed response has run out of
      time; otherwise the filed response with every record's lived time set. */
  function Lookup(enabled: bool, cache: map<string, Response>, q: Question, elapsed: int): (r: Option<Response>)
    ensures r.Some? <==> enabled && CacheKey(q) in cache && Fresh(cache[CacheKey(q)], elapsed)
    ensures r.Some? ==> r.value == Stamp(cache[CacheKey(q)], elapsed)
  {
    if !enabled || CacheKey(q) !in cache then None
    else
      var stored := cache[CacheKey(q)];
      var stamped := StampAll(AllRecords(stored), elapsed);
      if exists i :: 0 <= i < |stamped| && RemainingTtl(stamped[i]) == 0 then None
      else Some(Stamp(stored, elapsed))
  }

  /** A response is filed only when caching is on, it has a question, and it
      reports no error. */
  predicate Cacheable(enabled: bool, r: Response) {
    enabled && |r.questions| > 0 && r.header.rcode == NoError
  }

  /** The cache after offering it a response: filed under the key of its
      first question, replacing what was there, every other key untouched. */
  function Added(enabled: bool, cache: map<string, Response>, r: Response): (c: map<string, Response>)
    ensures !Cacheable(enabled, r) ==> c == cache
    ensures Cacheable(enabled, r) ==>
      var key := CacheKey(r.questions[0]);
      key in c && c[key] == r && c.Keys == cache.Keys + {key}
      && forall k :: k in cache && k != key ==> c[k] == cache[k]
  {
    if Cacheable(enabled, r) then cache[CacheKey(r.questions[0]) := r] else cache
  }

  /** Looking up the question of a response just filed finds it, stamped,
      for as long as all its records live, and nothing afterwards. */
  lemma AddThenLookup(enabled: bool, cache: map<string, Response>, r: Response, elapsed: int)
    requires Cacheable(enabled, r)
    ensures Lookup(enabled, Added(enabled, cache, r), r.questions[0], elapsed)
         == if Fresh(r, elapsed) then Some(Stamp(r, elapsed)) else None
  {
  }

  /** Filing a response does not change what any other question finds. */
  lemma AddKeepsOthers(enabled: bool, cache: map<string, Response>, r: Response, q: Question, elapsed: int)
    requires |r.questions| > 0 && q != r.questions[0]
    ensures Lookup(enabled, Added(enabled, cache, r), q, elapsed) == Lookup(enabled, cache, q, elapsed)
  {
    if CacheKey(q) == CacheKey(r.questions[0]) {
      CacheKeyInjective(q, r.questions[0]);
    }
  }

  /** Once usable, a cached response stays usable for any shorter elapsed
      time, and once expired it stays expired. */
  lemma FreshShrinks(r: Response, elapsed: int, earlier: int)
    requires Fresh(r, elapsed) && earlier <= elapsed
    ensures Fresh(r, earlier)
  {
  }
}
