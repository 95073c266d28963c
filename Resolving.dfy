/** The resolver: its settings, its response cache, the query id counter,
    and the retry loops of a UDP and a TCP exchange over a scripted network.
    Every try of either loop bumps the 16-bit query id counter once,
    whatever its fate. */
module Resolving {
  import opened Basics
  import opened Messages
  import opened Transport
  import opened HostEntries

  datatype TransportType = Udp | Tcp | Unlisted(code: int)

  /** The value assigned to the server list: none, the very list the resolver
      holds, or any other list. */
  datatype ServerList = Missing | OwnList | Given(endpoints: seq<Endpoint>)

  /** The end of an operation: a value, or an exception the resolver lets
      escape. */
  datatype Outcome<+T> = Done(value: T) | Fault

  const InitialRetries: int := 3
  const TimeoutError := "Timeout Error"
  const UnknownTransport := "Unknown TransportType"

  /** What one exchange amounts to: its outcome, how many tries it made, and
      the cache it leaves. */
  datatype Exchange = Exchange(outcome: Outcome<Response>, tries: nat, cache: map<string, Response>)

  /** A UDP exchange: attempts times servers tries, in attempt-major order;
      the first reply is stamped with its server, offered to the cache and
      returned; when every try is lost, the timeout error. */
  function UdpExchange(script: seq<UdpTry>, servers: seq<Endpoint>, retries: nat, enabled: bool, cache: map<string, Response>): (x: Exchange)
    ensures x.tries <= retries * |servers| && x.outcome.Done?
  {
    var total := retries * |servers|;
    var k := FirstAnswered(script, total);
    if k < total then
      var r := UdpAt(script, k).message.(server := Some(servers[k % |servers|]));
      Exchange(Done(r), k + 1, Added(enabled, cache, r))
    else Exchange(Done(Failure(TimeoutError)), total, cache)
  }

  /** How the first TCP try that gets past connecting settles the exchange. */
  function Settle(t: TcpTry, server: Endpoint, enabled: bool, cache: map<string, Response>): (x: Exchange)
    requires t != NotConnected
  {
    match t
    case Refused(reason) => Exchange(Done(Failure(reason)), 0, cache)
    case Connected(frames, readError) =>
      match Stream(frames, readError, server, Start)
      case Escaped => Exchange(Fault, 0, cache)
      case Finished(r, offer) => Exchange(Done(r), 0, if offer then Added(enabled, cache, r) else cache)
  }

  /** A TCP exchange: tries that end up not connected move on to the next
      server; the first other try settles the exchange, even when it fails;
      when no try connects, the timeout error. */
  function TcpExchange(script: seq<TcpTry>, servers: seq<Endpoint>, retries: nat, enabled: bool, cache: map<string, Response>): (x: Exchange)
    ensures x.tries <= retries * |servers|
  {
    var total := retries * |servers|;
    var k := FirstConnected(script, total);
    if k < total then Settle(TcpAt(script, k), servers[k % |servers|], enabled, cache).(tries := k + 1)
    else Exchange(Done(Failure(TimeoutError)), total, cache)
  }

  /** An exchange over the configured transport. */
  function NetworkExchange(transport: TransportType, udp: seq<UdpTry>, tcp: seq<TcpTry>, servers: seq<Endpoint>,
                           retries: nat, enabled: bool, cache: map<string, Response>): Exchange
  {
    match transport
    case Udp => UdpExchange(udp, servers, retries, enabled, cache)
    case Tcp => TcpExchange(tcp, servers, retries, enabled, cache)
    case Unlisted(_) => Exchange(Done(Failure(UnknownTransport)), 0, cache)
  }

  /** A query: answered from the cache without any try when the cache has a
      usable response, over the network otherwise. */
  function QueryExchange(q: Question, elapsed: int, transport: TransportType, udp: seq<UdpTry>, tcp: seq<TcpTry>,
                         servers: seq<Endpoint>, retries: nat, enabled: bool, cache: map<string, Response>): (x: Exchange)
    ensures Lookup(enabled, cache, q, elapsed).Some? ==>
      x == Exchange(Done(Stamp(cache[CacheKey(q)], elapsed)), 0, cache)
  {
    match Lookup(enabled, cache, q, elapsed)
    case Some(r) => Exchange(Done(r), 0, cache)
    case None => NetworkExchange(transport, udp, tcp, servers, retries, enabled, cache)
  }

  /** The number of the try of an attempt on a server, counting from zero
      in attempt-major order over `n` servers. */
  function TryNumber(attempt: nat, server: nat, n: nat): nat {
    attempt * n + server
  }

  lemma {:induction false} MulMono(a: nat, b: nat, n: nat)
    requires a <= b
    ensures a * n <= b * n
    decreases b - a
  {
    if a < b {
      MulMono(a, b - 1, n);
      assert b * n == (b - 1) * n + n;
    }
  }

  lemma DivModUnique(i: nat, n: nat, q: nat, r: nat)
    requires r < n && i == q * n + r
    ensures i / n == q && i % n == r
  {
    var q', r' := i / n, i % n;
    assert i == q' * n + r';
    if q' > q {
      MulMono(q + 1, q', n);
      assert false;
    } else if q' < q {
      MulMono(q' + 1, q, n);
      assert false;
    }
  }

  /** Each (attempt, server) pair within the limits has its own try number
      below the total, from which both can be read back. */
  lemma TryIndex(attempt: nat, server: nat, n: nat, retries: nat)
    requires attempt < retries && server < n
    ensures TryNumber(attempt, server, n) < retries * n
    ensures TryNumber(attempt, server, n) / n == attempt && TryNumber(attempt, server, n) % n == server
  {
    MulMono(attempt + 1, retries, n);
    assert (attempt + 1) * n == attempt * n + n;
    DivModUnique(attempt * n + server, n, attempt, server);
  }

  /** A try numbered before the try of (attempt, server) belongs to an
      earlier attempt, or to the same attempt and an earlier server. */
  lemma EarlierTry(attempt: nat, server: nat, n: nat, i: nat)
    requires server < n && i < TryNumber(attempt, server, n)
    ensures i == TryNumber(i / n, i % n, n)
    ensures i / n < attempt || (i / n == attempt && i % n < server)
  {
    var a := i / n;
    if a > attempt {
      MulMono(attempt + 1, a, n);
      assert false;
    }
  }

  /** The 16-bit query id counter after `t` tries from `u`. */
  function IdAfter(u: nat, t: nat): nat {
    (u + t) % 0x1_0000
  }

  /** Bumping the counter once more is one more try. */
  lemma NextId(u: nat, t: nat)
    ensures (IdAfter(u, t) + 1) % 0x1_0000 == IdAfter(u, t + 1)
  {
  }

  /** An answered try after only lost ones settles the UDP exchange. */
  lemma UdpAnsweredAt(script: seq<UdpTry>, servers: seq<Endpoint>, retries: nat, enabled: bool,
                      cache: map<string, Response>, attempt: nat, server: nat)
    requires attempt < retries && server < |servers|
    requires forall i :: 0 <= i < TryNumber(attempt, server, |servers|) ==> UdpAt(script, i) == Lost
    requires UdpAt(script, TryNumber(attempt, server, |servers|)).Answered?
    ensures var r := UdpAt(script, TryNumber(attempt, server, |servers|)).message.(server := Some(servers[server]));
      UdpExchange(script, servers, retries, enabled, cache)
        == Exchange(Done(r), TryNumber(attempt, server, |servers|) + 1, Added(enabled, cache, r))
  {
    TryIndex(attempt, server, |servers|, retries);
  }

  /** A try other than a not-connected one, after only not-connected ones,
      settles the TCP exchange. */
  lemma TcpSettledAt(script: seq<TcpTry>, servers: seq<Endpoint>, retries: nat, enabled: bool,
                     cache: map<string, Response>, attempt: nat, server: nat)
    requires attempt < retries && server < |servers|
    requires forall i :: 0 <= i < TryNumber(attempt, server, |servers|) ==> TcpAt(script, i) == NotConnected
    requires TcpAt(script, TryNumber(attempt, server, |servers|)) != NotConnected
    ensures TcpExchange(script, servers, retries, enabled, cache)
         == Settle(TcpAt(script, TryNumber(attempt, server, |servers|)), servers[server], enabled, cache)
              .(tries := TryNumber(attempt, server, |servers|) + 1)
  {
    TryIndex(attempt, server, |servers|, retries);
  }

  /** When no try connects, the TCP exchange makes all its tries and gives
      the timeout error, the cache untouched. */
  lemma TcpNoneConnected(script: seq<TcpTry>, servers: seq<Endpoint>, retries: nat, enabled: bool, cache: map<string, Response>)
    requires forall i :: 0 <= i < TryNumber(retries, 0, |servers|) ==> TcpAt(script, i) == NotConnected
    ensures TcpExchange(script, servers, retries, enabled, cache)
         == Exchange(Done(Failure(TimeoutError)), TryNumber(retries, 0, |servers|), cache)
  {
  }

  /** The UDP exchange is settled by the first answered (attempt, server)
      pair in attempt-major order: its reply, stamped with that server, is
      returned and offered to the cache. */
  lemma UdpFirstAnswerWins(script: seq<UdpTry>, servers: seq<Endpoint>, retries: nat, enabled: bool,
                           cache: map<string, Response>, attempt: nat, server: nat)
    requires attempt < retries && server < |servers|
    requires UdpAt(script, TryNumber(attempt, server, |servers|)).Answered?
    requires forall a, s :: 0 <= a < retries && 0 <= s < |servers| && (a < attempt || (a == attempt && s < server))
               ==> UdpAt(script, TryNumber(a, s, |servers|)) == Lost
    ensures var r := UdpAt(script, TryNumber(attempt, server, |servers|)).message.(server := Some(servers[server]));
      UdpExchange(script, servers, retries, enabled, cache)
        == Exchange(Done(r), TryNumber(attempt, server, |servers|) + 1, Added(enabled, cache, r))
  {
    var n := |servers|;
    forall i | 0 <= i < TryNumber(attempt, server, n)
      ensures UdpAt(script, i) == Lost
    {
      EarlierTry(attempt, server, n, i);
    }
    UdpAnsweredAt(script, servers, retries, enabled, cache, attempt, server);
  }

  /** When every try is lost, the UDP exchange makes all its tries and gives
      the timeout error, the cache untouched. */
  lemma UdpAllLost(script: seq<UdpTry>, servers: seq<Endpoint>, retries: nat, enabled: bool, cache: map<string, Response>)
    requires forall i :: 0 <= i < TryNumber(retries, 0, |servers|) ==> UdpAt(script, i) == Lost
    ensures UdpExchange(script, servers, retries, enabled, cache)
         == Exchange(Done(Failure(TimeoutError)), TryNumber(retries, 0, |servers|), cache)
  {
  }

  /** A TCP try whose connection fails with an error, after only tries that
      were not connected, ends the exchange with that error: the servers
      after it are never tried. */
  lemma TcpRefusalStops(script: seq<TcpTry>, servers: seq<Endpoint>, retries: nat, enabled: bool,
                        cache: map<string, Response>, attempt: nat, server: nat, reason: string)
    requires attempt < retries && server < |servers|
    requires TcpAt(script, TryNumber(attempt, server, |servers|)) == Refused(reason)
    requires forall a, s :: 0 <= a < retries && 0 <= s < |servers| && (a < attempt || (a == attempt && s < server))
               ==> TcpAt(script, TryNumber(a, s, |servers|)) == NotConnected
    ensures TcpExchange(script, servers, retries, enabled, cache)
         == Exchange(Done(Failure(reason)), TryNumber(attempt, server, |servers|) + 1, cache)
  {
    var n := |servers|;
    forall i | 0 <= i < TryNumber(attempt, server, n)
      ensures TcpAt(script, i) == NotConnected
    {
      EarlierTry(attempt, server, n, i);
    }
    TcpSettledAt(script, servers, retries, enabled, cache, attempt, server);
    assert Settle(Refused(reason), servers[server], enabled, cache) == Exchange(Done(Failure(reason)), 0, cache);
  }

  class Resolver {
    var servers: seq<Endpoint>
    var retries: int
    var useCache: bool
    var unique: nat
    var cache: map<string, Response>
    var recursion: bool
    var transport: TransportType

    /** Retries never drop below one, and the query id counter is a 16-bit
        value. */
    ghost predicate Valid()
      reads this
    {
      retries >= 1 && unique < 0x1_0000
    }

    /** A resolver over the given servers, with three retries, caching on,
        recursion asked for, UDP, and a query id counter seeded from a random
        number truncated to 16 bits. */
    constructor (servers: seq<Endpoint>, seed: nat)
      ensures Valid()
      ensures this.servers == servers && retries == InitialRetries && useCache && cache == map[]
      ensures unique == seed % 0x1_0000 && recursion && transport == Udp
    {
      this.servers := servers;
      unique := seed % 0x1_0000;
      retries := InitialRetries;
      recursion := true;
      useCache := true;
      cache := map[];
      transport := Udp;
    }

    /** The address of the first server, if there is one. */
    function DnsServer(): (r: Option<seq<byte>>)
      reads this
      ensures r.Some? <==> |servers| > 0
      ensures r.Some? ==> r.value == servers[0].address
    {
      if servers == [] then None else Some(servers[0].address)
    }

    /** Values below one are ignored. */
    method SetRetries(value: int)
      requires Valid()
      modifies this`retries
      ensures Valid()
      ensures retries == if value >= 1 then value else old(retries)
    {
      if value >= 1 {
        retries := value;
      }
    }

    /** Empties the server list, then appends the given one. The list given
        may be the resolver's own (what the getter hands out), which emptying
        has already cleared, so that assignment leaves no servers at all. */
    method SetDnsServers(value: ServerList)
      modifies this`servers
      ensures servers == if value.Given? then value.endpoints else []
    {
      servers := [];
      if value != Missing {
        var source := if value.OwnList? then servers else value.endpoints;
        servers := servers + source;
      }
    }

    /** Turning caching off empties the cache. */
    method SetUseCache(value: bool)
      modifies this`useCache, this`cache
      ensures useCache == value
      ensures cache == if value then old(cache) else map[]
    {
      useCache := value;
      if !useCache {
        ClearCache();
      }
    }

    method ClearCache()
      modifies this`cache
      ensures cache == map[]
    {
      cache := map[];
    }

    /** Looks a question up, `elapsed` seconds after the filed response was
        made: every record gets that lived time, and the first record with
        no time left makes the lookup miss. */
    method SearchInCache(q: Question, elapsed: int) returns (r: Option<Response>)
      ensures r == Lookup(useCache, cache, q, elapsed)
    {
      if !useCache {
        return None;
      }
      var key := CacheKey(q);
      if key !in cache {
        return None;
      }
      var response := cache[key];
      var records := AllRecords(response);
      for i := 0 to |records|
        invariant forall j :: 0 <= j < i ==> RemainingTtl(records[j].(timeLived := elapsed)) > 0
      {
        var rr := records[i].(timeLived := elapsed);
        if RemainingTtl(rr) == 0 {
          assert StampAll(records, elapsed)[i] == rr;
          return None;
        }
      }
      return Some(Stamp(response, elapsed));
    }

    /** Offers a response to the cache. */
    method AddToCache(response: Response)
      modifies this`cache
      ensures cache == Added(useCache, old(cache), response)
    {
      if !useCache {
        return;
      }
      if |response.questions| == 0 {
        return;
      }
      if response.header.rcode != NoError {
        return;
      }
      var key := CacheKey(response.questions[0]);
      if key in cache {
        cache := map k | k in cache && k != key :: cache[k];
      }
      cache := cache[key := response];
    }

    /** The UDP retry loop: for each attempt, each server in turn. */
    method UdpRequest(script: seq<UdpTry>) returns (response: Response)
      requires Valid()
      modifies this`unique, this`cache
      ensures Valid()
      ensures var x := UdpExchange(script, servers, retries, useCache, old(cache));
        x.outcome == Done(response) && cache == x.cache && unique == IdAfter(old(unique), x.tries)
    {
      var attempt := 0;
      while attempt < retries
        invariant 0 <= attempt <= retries
        invariant Valid() && cache == old(cache) && unique == IdAfter(old(unique), TryNumber(attempt, 0, |servers|))
        invariant servers == old(servers) && retries == old(retries) && useCache == old(useCache)
        invariant forall i :: 0 <= i < TryNumber(attempt, 0, |servers|) ==> UdpAt(script, i) == Lost
      {
        var answered;
        answered, response := UdpAttempt(script, attempt, old(unique));
        if answered {
          return;
        }
        attempt := attempt + 1;
      }
      UdpAllLost(script, servers, retries, useCache, cache);
      response := Failure(TimeoutError);
    }

    /** One pass of the UDP retry loop over the servers, until one answers. */
    method UdpAttempt(script: seq<UdpTry>, attempt: nat, ghost start: nat) returns (answered: bool, response: Response)
      requires Valid() && attempt < retries
      requires unique == IdAfter(start, TryNumber(attempt, 0, |servers|))
      requires forall i :: 0 <= i < TryNumber(attempt, 0, |servers|) ==> UdpAt(script, i) == Lost
      modifies this`unique, this`cache
      ensures Valid()
      ensures answered ==> var x := UdpExchange(script, servers, retries, useCache, old(cache));
        x.outcome == Done(response) && cache == x.cache && unique == IdAfter(start, x.tries)
      ensures !answered ==> cache == old(cache) && unique == IdAfter(start, TryNumber(attempt + 1, 0, |servers|))
      ensures !answered ==> forall i :: 0 <= i < TryNumber(attempt + 1, 0, |servers|) ==> UdpAt(script, i) == Lost
    {
      var n := |servers|;
      var tried := TryNumber(attempt, 0, n);
      var server := 0;
      while server < n
        invariant 0 <= server <= n && tried == TryNumber(attempt, server, n)
        invariant Valid() && cache == old(cache) && unique == IdAfter(start, tried)
        invariant forall i :: 0 <= i < tried ==> UdpAt(script, i) == Lost
      {
        var t := UdpAt(script, tried);
        if t.Answered? {
          response := AcceptReply(script, attempt, server, start);
          return true, response;
        }
        NextId(start, tried);
        unique := (unique + 1) % 0x1_0000;
        tried := tried + 1;
        server := server + 1;
      }
      assert TryNumber(attempt, n, n) == TryNumber(attempt + 1, 0, n);
      return false, Empty;
    }

    /** The body of a UDP try that was answered after only lost ones: the
        reply, stamped with its server, is offered to the cache. */
    method AcceptReply(script: seq<UdpTry>, attempt: nat, server: nat, ghost start: nat) returns (response: Response)
      requires Valid() && attempt < retries && server < |servers|
      requires forall i :: 0 <= i < TryNumber(attempt, server, |servers|) ==> UdpAt(script, i) == Lost
      requires UdpAt(script, TryNumber(attempt, server, |servers|)).Answered?
      requires unique == IdAfter(start, TryNumber(attempt, server, |servers|))
      modifies this`unique, this`cache
      ensures Valid()
      ensures var x := UdpExchange(script, servers, retries, useCache, old(cache));
        x.outcome == Done(response) && cache == x.cache && unique == IdAfter(start, x.tries)
    {
      var tried := TryNumber(attempt, server, |servers|);
      response := UdpAt(script, tried).message.(server := Some(servers[server]));
      UdpAnsweredAt(script, servers, retries, useCache, cache, attempt, server);
      AddToCache(response);
      NextId(start, tried);
      unique := (unique + 1) % 0x1_0000;
    }

    /** The TCP retry loop: for each attempt, each server in turn; a try
        that is not connected moves on, any other try settles the exchange. */
    method TcpRequest(script: seq<TcpTry>) returns (outcome: Outcome<Response>)
      requires Valid()
      modifies this`unique, this`cache
      ensures Valid()
      ensures var x := TcpExchange(script, servers, retries, useCache, old(cache));
        x.outcome == outcome && cache == x.cache && unique == IdAfter(old(unique), x.tries)
    {
      var attempt := 0;
      while attempt < retries
        invariant 0 <= attempt <= retries
        invariant Valid() && cache == old(cache) && unique == IdAfter(old(unique), TryNumber(attempt, 0, |servers|))
        invariant servers == old(servers) && retries == old(retries) && useCache == old(useCache)
        invariant forall i :: 0 <= i < TryNumber(attempt, 0, |servers|) ==> TcpAt(script, i) == NotConnected
      {
        var settled;
        settled, outcome := TcpAttempt(script, attempt, old(unique));
        if settled {
          return;
        }
        attempt := attempt + 1;
      }
      TcpNoneConnected(script, servers, retries, useCache, cache);
      outcome := Done(Failure(TimeoutError));
    }

    /** One pass of the TCP retry loop over the servers, until a try gets
        past connecting. */
    method TcpAttempt(script: seq<TcpTry>, attempt: nat, ghost start: nat) returns (settled: bool, outcome: Outcome<Response>)
      requires Valid() && attempt < retries
      requires unique == IdAfter(start, TryNumber(attempt, 0, |servers|))
      requires forall i :: 0 <= i < TryNumber(attempt, 0, |servers|) ==> TcpAt(script, i) == NotConnected
      modifies this`unique, this`cache
      ensures Valid()
      ensures settled ==> var x := TcpExchange(script, servers, retries, useCache, old(cache));
        x.outcome == outcome && cache == x.cache && unique == IdAfter(start, x.tries)
      ensures !settled ==> cache == old(cache) && unique == IdAfter(start, TryNumber(attempt + 1, 0, |servers|))
      ensures !settled ==> forall i :: 0 <= i < TryNumber(attempt + 1, 0, |servers|) ==> TcpAt(script, i) == NotConnected
    {
      var n := |servers|;
      var tried := TryNumber(attempt, 0, n);
      var server := 0;
      while server < n
        invariant 0 <= server <= n && tried == TryNumber(attempt, server, n)
        invariant Valid() && cache == old(cache) && unique == IdAfter(start, tried)
        invariant forall i :: 0 <= i < tried ==> TcpAt(script, i) == NotConnected
      {
        var t := TcpAt(script, tried);
        if !t.NotConnected? {
          outcome := SettleExchange(script, attempt, server, start);
          return true, outcome;
        }
        NextId(start, tried);
        unique := (unique + 1) % 0x1_0000;
        tried := tried + 1;
        server := server + 1;
      }
      assert TryNumber(attempt, n, n) == TryNumber(attempt + 1, 0, n);
      return false, Fault;
    }

    /** A TCP try that got past connecting after only tries that did not
        settles the exchange. */
    method SettleExchange(script: seq<TcpTry>, attempt: nat, server: nat, ghost start: nat) returns (outcome: Outcome<Response>)
      requires Valid() && attempt < retries && server < |servers|
      requires forall i :: 0 <= i < TryNumber(attempt, server, |servers|) ==> TcpAt(script, i) == NotConnected
      requires TcpAt(script, TryNumber(attempt, server, |servers|)) != NotConnected
      requires unique == IdAfter(start, TryNumber(attempt, server, |servers|))
      modifies this`unique, this`cache
      ensures Valid()
      ensures var x := TcpExchange(script, servers, retries, useCache, old(cache));
        x.outcome == outcome && cache == x.cache && unique == IdAfter(start, x.tries)
    {
      var tried := TryNumber(attempt, server, |servers|);
      TcpSettledAt(script, servers, retries, useCache, cache, attempt, server);
      outcome := SettleTry(TcpAt(script, tried), servers[server]);
      NextId(start, tried);
      unique := (unique + 1) % 0x1_0000;
    }

    /** The body of a TCP try that got past connecting. */
    method SettleTry(t: TcpTry, server: Endpoint) returns (outcome: Outcome<Response>)
      requires t != NotConnected
      modifies this`cache
      ensures var x := Settle(t, server, useCache, old(cache));
        x.outcome == outcome && cache == x.cache
    {
      if t.Refused? {
        return Done(Failure(t.reason));
      }
      var end := ReadStream(t.frames, t.readError, server);
      if end.Escaped? {
        return Fault;
      }
      if end.cache {
        AddToCache(end.response);
      }
      return Done(end.response);
    }

    /** Sends a request over the configured transport. */
    method GetResponse(udp: seq<UdpTry>, tcp: seq<TcpTry>) returns (outcome: Outcome<Response>)
      requires Valid()
      modifies this`unique, this`cache
      ensures Valid()
      ensures var x := NetworkExchange(transport, udp, tcp, servers, retries, useCache, old(cache));
        outcome == x.outcome && cache == x.cache && unique == IdAfter(old(unique), x.tries)
    {
      if transport == Udp {
        assert NetworkExchange(transport, udp, tcp, servers, retries, useCache, cache)
            == UdpExchange(udp, servers, retries, useCache, cache);
        var response := UdpRequest(udp);
        return Done(response);
      }
      if transport == Tcp {
        assert NetworkExchange(transport, udp, tcp, servers, retries, useCache, cache)
            == TcpExchange(tcp, servers, retries, useCache, cache);
        outcome := TcpRequest(tcp);
        return;
      }
      return Done(Failure(UnknownTransport));
    }

    /** Answers a question from the cache when it can, and otherwise over
        the network; `elapsed` is the age in seconds of a cached response. */
    method Query(name: string, qtype: nat, qclass: nat, elapsed: int, udp: seq<UdpTry>, tcp: seq<TcpTry>)
      returns (outcome: Outcome<Response>)
      requires Valid()
      modifies this`unique, this`cache
      ensures Valid()
      ensures var x := QueryExchange(Question(name, qtype, qclass), elapsed, transport, udp, tcp,
                                     servers, retries, useCache, old(cache));
        outcome == x.outcome && cache == x.cache && unique == IdAfter(old(unique), x.tries)
    {
      var question := Question(name, qtype, qclass);
      var cached := SearchInCache(question, elapsed);
      if cached.Some? {
        return Done(cached.value);
      }
      outcome := GetResponse(udp, tcp);
    }

    /** Queries the A records of a name and builds its host entry from the
        answers; an exception of the query escapes. */
    method MakeEntry(hostName: string, elapsed: int, udp: seq<UdpTry>, tcp: seq<TcpTry>)
      returns (entry: Outcome<HostEntry>)
      requires Valid()
      modifies this`unique, this`cache
      ensures Valid()
      ensures var x := QueryExchange(Question(hostName, TypeA, ClassIN), elapsed, transport, udp, tcp,
                                     servers, retries, useCache, old(cache));
        cache == x.cache && unique == IdAfter(old(unique), x.tries)
        && entry == match x.outcome
                    case Fault => Fault
                    case Done(r) => Done(HostEntry(LastOwner(hostName, r.answers), Addresses(r.answers), Aliases(r.answers)))
    {
      var outcome := Query(hostName, TypeA, ClassIN, elapsed, udp, tcp);
      if outcome.Fault? {
        return Fault;
      }
      var filled := Collect(hostName, outcome.value.answers);
      return Done(filled);
    }
  }
}
