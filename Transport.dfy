/** The network as the resolver sees it: a script of what each try brings
    back, and for TCP the stream of length-prefixed messages of one
    connection (section 4.2.2 of RFC 1035), read until a reply is settled or
    a zone transfer (RFC 5936) is complete. */
module Transport {
  import opened Basics
  import opened Messages

  /** The fate of one UDP try: a reply came back and was decoded, or the send
      or the receive failed with a socket error. */
  datatype UdpTry = Answered(message: Response) | Lost

  /** The fate of one TCP try: connecting threw a socket or timeout error
      with the given text, the client ended up not connected, or it connected
      and the server sent these frames before the stream ran dry. */
  datatype TcpTry = Refused(reason: string) | NotConnected | Connected(frames: seq<Frame>, readError: string)

  /** One message on a TCP stream: the value read for its two-byte length
      prefix, and the message decoded from the bytes that follow. */
  datatype Frame = Frame(prefix: int, message: Response)

  /** How reading a stream ends: with a response, and whether that response
      is offered to the cache; or with an exception the resolver does not
      catch (a first question or a first answer that is not there). */
  datatype StreamEnd = Finished(response: Response, cache: bool) | Escaped

  /** The zone-transfer aggregate while it is built: the question list of the
      first message, the record lists of all messages so far, how many of
      them began with an SOA record, and the sum of their length prefixes. */
  datatype Transfer = Transfer(
    questions: seq<Question>,
    answers: seq<RR>,
    authorities: seq<RR>,
    additionals: seq<RR>,
    soa: nat,
    size: int)

  const Start: Transfer := Transfer([], [], [], [], 0, 0)

  /** The try a script gives at index `i`; tries the script does not reach
      fail. */
  function UdpAt(script: seq<UdpTry>, i: nat): UdpTry {
    if i < |script| then script[i] else Lost
  }

  function TcpAt(script: seq<TcpTry>, i: nat): TcpTry {
    if i < |script| then script[i] else NotConnected
  }

  /** The index of the first of `total` UDP tries that is answered, or
      `total` when none is. */
  function FirstAnswered(script: seq<UdpTry>, total: nat): (k: nat)
    ensures k <= total
    ensures forall i :: 0 <= i < k ==> UdpAt(script, i) == Lost
    ensures k < total ==> UdpAt(script, k).Answered?
  {
    var tries := seq(total, i requires 0 <= i < total => UdpAt(script, i));
    var k := FirstWhere(tries, (t: UdpTry) => t.Answered?);
    assert forall i :: 0 <= i < k ==> tries[i] == UdpAt(script, i);
    k
  }

  /** The index of the first of `total` TCP tries that gets past connecting,
      or `total` when none does. */
  function FirstConnected(script: seq<TcpTry>, total: nat): (k: nat)
    ensures k <= total
    ensures forall i :: 0 <= i < k ==> TcpAt(script, i) == NotConnected
    ensures k < total ==> TcpAt(script, k) != NotConnected
  {
    var tries := seq(total, i requires 0 <= i < total => TcpAt(script, i));
    var k := FirstWhere(tries, (t: TcpTry) => t != NotConnected);
    assert forall i :: 0 <= i < k ==> tries[i] == TcpAt(script, i);
    k
  }

  /** Whether a message opens with an SOA record. */
  predicate OpensWithSoa(m: Response)
    requires |m.answers| > 0
  {
    m.answers[0].rtype == TypeSOA
  }

  /** The aggregate after one more zone-transfer message. */
  function Absorb(t: Transfer, f: Frame): (u: Transfer)
    requires |f.message.answers| > 0
    ensures u.soa == t.soa + (if OpensWithSoa(f.message) then 1 else 0)
  {
    var m := f.message;
    Transfer(
      if t.questions == [] then m.questions else t.questions,
      t.answers + m.answers,
      t.authorities + m.authorities,
      t.additionals + m.additionals,
      t.soa + (if OpensWithSoa(m) then 1 else 0),
      t.size + f.prefix)
  }

  /** The response a completed zone transfer returns: the gathered lists,
      header counts equal to their lengths as 16-bit values, and the summed
      prefixes as its size. */
  function Assemble(t: Transfer): (r: Response)
    ensures r.questions == t.questions && r.answers == t.answers
    ensures r.authorities == t.authorities && r.additionals == t.additionals
    ensures r.header.qdcount == |t.questions| % 0x1_0000 && r.header.ancount == |t.answers| % 0x1_0000
    ensures r.header.nscount == |t.authorities| % 0x1_0000 && r.header.arcount == |t.additionals| % 0x1_0000
    ensures r.messageSize == t.size && r.error == ""
  {
    Empty.(
      header := Empty.header.(
        qdcount := |t.questions| % 0x1_0000,
        ancount := |t.answers| % 0x1_0000,
        nscount := |t.authorities| % 0x1_0000,
        arcount := |t.additionals| % 0x1_0000),
      questions := t.questions,
      answers := t.answers,
      authorities := t.authorities,
      additionals := t.additionals,
      messageSize := t.size)
  }

  /** Reading a TCP stream from server `server` with the aggregate `t` built
      so far: a prefix that is not positive (the stream has run dry, which
      reads as -1) fails the try with the read error; an error reply is
      returned as it is; a reply to anything but a zone transfer is returned
      and cached; a zone-transfer message is gathered, and the second one
      that opens with an SOA record completes the transfer. */
  function Stream(frames: seq<Frame>, readError: string, server: Endpoint, t: Transfer): StreamEnd
    requires t.soa < 2
    decreases |frames|
  {
    if frames == [] || frames[0].prefix <= 0 then Finished(Failure(readError), false)
    else
      var m := frames[0].message.(server := Some(server));
      if m.header.rcode != NoError then Finished(m, false)
      else if m.questions == [] then Escaped
      else if m.questions[0].qtype != TypeAXFR then Finished(m, true)
      else if m.answers == [] then Escaped
      else
        var u := Absorb(t, frames[0]);
        if u.soa == 2 then Finished(Assemble(u), false)
        else Stream(frames[1..], readError, server, u)
  }

  /** The read loop of one TCP try: the `while (true)` that reads a length
      prefix and a message, and either settles the try or gathers one more
      zone-transfer message. */
  method ReadStream(frames: seq<Frame>, readError: string, server: Endpoint) returns (end: StreamEnd)
    ensures end == Stream(frames, readError, server, Start)
  {
    var questions: seq<Question> := [];
    var answers: seq<RR> := [];
    var authorities: seq<RR> := [];
    var additionals: seq<RR> := [];
    var soa := 0;
    var size := 0;
    var i := 0;
    while true
      invariant 0 <= i <= |frames| && soa < 2
      invariant Stream(frames, readError, server, Start)
             == Stream(frames[i..], readError, server, Transfer(questions, answers, authorities, additionals, soa, size))
      decreases |frames| - i
    {
      if i == |frames| || frames[i].prefix <= 0 {
        return Finished(Failure(readError), false);
      }
      var prefix := frames[i].prefix;
      size := size + prefix;
      var response := frames[i].message.(server := Some(server));
      if response.header.rcode != NoError {
        return Finished(response, false);
      }
      if response.questions == [] {
        return Escaped;
      }
      if response.questions[0].qtype != TypeAXFR {
        return Finished(response, true);
      }
      if questions == [] {
        questions := response.questions;
      }
      answers := answers + response.answers;
      authorities := authorities + response.authorities;
      additionals := additionals + response.additionals;
      if response.answers == [] {
        return Escaped;
      }
      if response.answers[0].rtype == TypeSOA {
        soa := soa + 1;
      }
      if soa == 2 {
        return Finished(Assemble(Transfer(questions, answers, authorities, additionals, soa, size)), false);
      }
      assert frames[i..][1..] == frames[i + 1..];
      i := i + 1;
    }
  }

  /** A message that carries a zone transfer forward: a positive prefix, no
      error, a first question asking for AXFR, and a first answer. */
  predicate Carries(f: Frame) {
    f.prefix > 0 && f.message.header.rcode == NoError
    && |f.message.questions| > 0 && f.message.questions[0].qtype == TypeAXFR
    && |f.message.answers| > 0
  }

  predicate AllCarry(fs: seq<Frame>) {
    forall i :: 0 <= i < |fs| ==> Carries(fs[i])
  }

  /** How many of the messages open with an SOA record. */
  function SoaCount(fs: seq<Frame>): nat
    requires AllCarry(fs)
  {
    if fs == [] then 0 else (if OpensWithSoa(fs[0].message) then 1 else 0) + SoaCount(fs[1..])
  }

  function AnswersOf(fs: seq<Frame>): seq<RR> {
    if fs == [] then [] else fs[0].message.answers + AnswersOf(fs[1..])
  }

  function AuthoritiesOf(fs: seq<Frame>): seq<RR> {
    if fs == [] then [] else fs[0].message.authorities + AuthoritiesOf(fs[1..])
  }

  function AdditionalsOf(fs: seq<Frame>): seq<RR> {
    if fs == [] then [] else fs[0].message.additionals + AdditionalsOf(fs[1..])
  }

  function PrefixSum(fs: seq<Frame>): int {
    if fs == [] then 0 else fs[0].prefix + PrefixSum(fs[1..])
  }

  /** The aggregate after gathering each of the messages in turn. */
  function AbsorbAll(t: Transfer, fs: seq<Frame>): Transfer
    requires AllCarry(fs)
    decreases |fs|
  {
    if fs == [] then t else AbsorbAll(Absorb(t, fs[0]), fs[1..])
  }

  /** Gathering appends each message's lists in order, counts the messages
      that open with SOA, adds up the prefixes, and keeps the first question
      list that is not empty. */
  lemma {:induction false} AbsorbAllGathers(t: Transfer, fs: seq<Frame>)
    requires AllCarry(fs)
    ensures AbsorbAll(t, fs) == Transfer(
      if t.questions == [] && fs != [] then fs[0].message.questions else t.questions,
      t.answers + AnswersOf(fs),
      t.authorities + AuthoritiesOf(fs),
      t.additionals + AdditionalsOf(fs),
      t.soa + SoaCount(fs),
      t.size + PrefixSum(fs))
    decreases |fs|
  {
    if fs != [] {
      var u := Absorb(t, fs[0]);
      assert Carries(fs[0]);
      assert u.questions == if t.questions == [] then fs[0].message.questions else t.questions;
      AbsorbAllGathers(u, fs[1..]);
      assert (t.answers + fs[0].message.answers) + AnswersOf(fs[1..]) == t.answers + AnswersOf(fs);
      assert (t.authorities + fs[0].message.authorities) + AuthoritiesOf(fs[1..]) == t.authorities + AuthoritiesOf(fs);
      assert (t.additionals + fs[0].message.additionals) + AdditionalsOf(fs[1..]) == t.additionals + AdditionalsOf(fs);
    }
  }

  /** While fewer than two SOA-led messages have arrived, reading goes on
      from the aggregate of what was gathered. */
  lemma {:induction false} StreamResumes(fs: seq<Frame>, rest: seq<Frame>, readError: string, server: Endpoint, t: Transfer)
    requires AllCarry(fs) && t.soa + SoaCount(fs) < 2
    ensures AbsorbAll(t, fs).soa < 2
    ensures Stream(fs + rest, readError, server, t) == Stream(rest, readError, server, AbsorbAll(t, fs))
    decreases |fs|
  {
    AbsorbAllGathers(t, fs);
    if fs != [] {
      assert Carries(fs[0]) && (fs + rest)[0] == fs[0];
      assert (fs + rest)[1..] == fs[1..] + rest;
      var u := Absorb(t, fs[0]);
      assert u.soa + SoaCount(fs[1..]) == t.soa + SoaCount(fs);
      StreamResumes(fs[1..], rest, readError, server, u);
      assert Stream(fs + rest, readError, server, t) == Stream(fs[1..] + rest, readError, server, u);
    } else {
      assert fs + rest == rest;
    }
  }

  /** A zone transfer completes with the message that brings the SOA count
      to two, whatever follows it: the result holds the questions of the
      first message, every message's answers, authorities and additionals in
      order, header counts equal to their lengths, and the sum of all prefixes as its
      size; it is not cached. */
  lemma TransferCompletes(fs: seq<Frame>, last: Frame, rest: seq<Frame>, readError: string, server: Endpoint)
    requires AllCarry(fs) && Carries(last) && SoaCount(fs) == 1 && OpensWithSoa(last.message)
    ensures var all := fs + [last];
      var r := Stream(fs + [last] + rest, readError, server, Start);
      r.Finished? && !r.cache
      && r.response.questions == all[0].message.questions
      && r.response.answers == AnswersOf(all)
      && r.response.authorities == AuthoritiesOf(all)
      && r.response.additionals == AdditionalsOf(all)
      && r.response.header.qdcount == |all[0].message.questions| % 0x1_0000
      && r.response.header.ancount == |AnswersOf(all)| % 0x1_0000
      && r.response.header.nscount == |AuthoritiesOf(all)| % 0x1_0000
      && r.response.header.arcount == |AdditionalsOf(all)| % 0x1_0000
      && r.response.messageSize == PrefixSum(all)
  {
    var all := fs + [last];
    AbsorbAllSnoc(Start, fs, last);
    assert fs + [last] + rest == fs + ([last] + rest);
    StreamResumes(fs, [last] + rest, readError, server, Start);
    var t := AbsorbAll(Start, fs);
    AbsorbAllGathers(Start, fs);
    AbsorbAllGathers(Start, all);
  }

  /** Gathering one more message at the end. */
  lemma {:induction false} AbsorbAllSnoc(t: Transfer, fs: seq<Frame>, last: Frame)
    requires AllCarry(fs) && Carries(last)
    ensures AllCarry(fs + [last])
    ensures AbsorbAll(t, fs + [last]) == Absorb(AbsorbAll(t, fs), last)
    decreases |fs|
  {
    if fs == [] {
      assert [] + [last] == [last];
    } else {
      assert (fs + [last])[1..] == fs[1..] + [last];
      AbsorbAllSnoc(Absorb(t, fs[0]), fs[1..], last);
    }
  }

  /** A stream that runs dry before the second SOA-led message fails the try
      with the read error, whatever was gathered. */
  lemma TransferCutShort(fs: seq<Frame>, readError: string, server: Endpoint)
    requires AllCarry(fs) && SoaCount(fs) < 2
    ensures Stream(fs, readError, server, Start) == Finished(Failure(readError), false)
  {
    assert fs + [] == fs;
    StreamResumes(fs, [], readError, server, Start);
  }

  /** An error reply in the middle of a zone transfer is returned on its own,
      uncached, and everything gathered so far is dropped. */
  lemma TransferInterrupted(fs: seq<Frame>, bad: Frame, rest: seq<Frame>, readError: string, server: Endpoint)
    requires AllCarry(fs) && SoaCount(fs) < 2
    requires bad.prefix > 0 && bad.message.header.rcode != NoError
    ensures Stream(fs + [bad] + rest, readError, server, Start)
         == Finished(bad.message.(server := Some(server)), false)
  {
    assert fs + [bad] + rest == fs + ([bad] + rest);
    StreamResumes(fs, [bad] + rest, readError, server, Start);
  }
}
