/** Turning the answers to an A query into a host entry: the addresses of
    the A records in order, the owner names of the CNAME records in order,
    and a host name overwritten by the owner of each A record in turn. */
module HostEntries {
  import opened Messages

  /** A host entry: its name, its addresses (each in the text form its A
      record prints), and its aliases. */
  datatype HostEntry = HostEntry(hostName: string, addresses: seq<string>, aliases: seq<string>)

  /** The addresses of the A answers, in order. */
  function Addresses(answers: seq<RR>): seq<string> {
    if answers == [] then []
    else (if answers[0].rtype == TypeA then [answers[0].record] else []) + Addresses(answers[1..])
  }

  /** The owner names of the CNAME answers, in order. */
  function Aliases(answers: seq<RR>): seq<string> {
    if answers == [] then []
    else (if answers[0].rtype == TypeCNAME then [answers[0].name] else []) + Aliases(answers[1..])
  }

  /** The owner of the last A answer, or `hostName` when there is none. */
  function LastOwner(hostName: string, answers: seq<RR>): string {
    if answers == [] then hostName
    else if answers[|answers| - 1].rtype == TypeA then answers[|answers| - 1].name
    else LastOwner(hostName, answers[..|answers| - 1])
  }

  /** Filtering a concatenation filters each part, in order. */
  lemma {:induction false} AddressesAppend(xs: seq<RR>, ys: seq<RR>)
    ensures Addresses(xs + ys) == Addresses(xs) + Addresses(ys)
    decreases |xs|
  {
    if xs != [] {
      assert (xs + ys)[1..] == xs[1..] + ys;
      AddressesAppend(xs[1..], ys);
    } else {
      assert xs + ys == ys;
    }
  }

  lemma {:induction false} AliasesAppend(xs: seq<RR>, ys: seq<RR>)
    ensures Aliases(xs + ys) == Aliases(xs) + Aliases(ys)
    decreases |xs|
  {
    if xs != [] {
      assert (xs + ys)[1..] == xs[1..] + ys;
      AliasesAppend(xs[1..], ys);
    } else {
      assert xs + ys == ys;
    }
  }

  /** An address is listed exactly when some A answer carries it. */
  lemma {:induction false} AddressesFromA(answers: seq<RR>, x: string)
    ensures x in Addresses(answers)
        <==> exists i :: 0 <= i < |answers| && answers[i].rtype == TypeA && answers[i].record == x
    decreases |answers|
  {
    if answers != [] {
      AddressesFromA(answers[1..], x);
      if x in Addresses(answers[1..]) {
        var i :| 0 <= i < |answers[1..]| && answers[1..][i].rtype == TypeA && answers[1..][i].record == x;
        assert answers[i + 1] == answers[1..][i];
      }
      if exists i :: 0 <= i < |answers| && answers[i].rtype == TypeA && answers[i].record == x {
        var i :| 0 <= i < |answers| && answers[i].rtype == TypeA && answers[i].record == x;
        if i > 0 {
          assert answers[1..][i - 1] == answers[i];
        }
      }
    }
  }

  /** An alias is listed exactly when some CNAME answer is owned by it. */
  lemma {:induction false} AliasesFromCname(answers: seq<RR>, x: string)
    ensures x in Aliases(answers)
        <==> exists i :: 0 <= i < |answers| && answers[i].rtype == TypeCNAME && answers[i].name == x
    decreases |answers|
  {
    if answers != [] {
      AliasesFromCname(answers[1..], x);
      if x in Aliases(answers[1..]) {
        var i :| 0 <= i < |answers[1..]| && answers[1..][i].rtype == TypeCNAME && answers[1..][i].name == x;
        assert answers[i + 1] == answers[1..][i];
      }
      if exists i :: 0 <= i < |answers| && answers[i].rtype == TypeCNAME && answers[i].name == x {
        var i :| 0 <= i < |answers| && answers[i].rtype == TypeCNAME && answers[i].name == x;
        if i > 0 {
          assert answers[1..][i - 1] == answers[i];
        }
      }
    }
  }

  /** The host name ends up as the owner of the A answer that no other A
      answer follows. */
  lemma {:induction false} LastOwnerIsLastA(hostName: string, answers: seq<RR>, j: nat)
    requires j < |answers| && answers[j].rtype == TypeA
    requires forall i :: j < i < |answers| ==> answers[i].rtype != TypeA
    ensures LastOwner(hostName, answers) == answers[j].name
    decreases |answers|
  {
    if j < |answers| - 1 {
      var front := answers[..|answers| - 1];
      assert front[j] == answers[j];
      LastOwnerIsLastA(hostName, front, j);
    }
  }

  /** Without A answers the host name is the one asked for. */
  lemma {:induction false} LastOwnerWithoutA(hostName: string, answers: seq<RR>)
    requires forall i :: 0 <= i < |answers| ==> answers[i].rtype != TypeA
    ensures LastOwner(hostName, answers) == hostName
    decreases |answers|
  {
    if answers != [] {
      LastOwnerWithoutA(hostName, answers[..|answers| - 1]);
    }
  }

  /** The loop of the entry builder over the answers. */
  method Collect(hostName: string, answers: seq<RR>) returns (entry: HostEntry)
    ensures entry == HostEntry(LastOwner(hostName, answers), Addresses(answers), Aliases(answers))
  {
    entry := HostEntry(hostName, [], []);
    var addressList: seq<string> := [];
    var aliases: seq<string> := [];
    var i := 0;
    while i < |answers|
      invariant 0 <= i <= |answers|
      invariant entry.hostName == LastOwner(hostName, answers[..i])
      invariant addressList == Addresses(answers[..i])
      invariant aliases == Aliases(answers[..i])
    {
      var rr := answers[i];
      assert answers[..i + 1] == answers[..i] + [rr];
      AddressesAppend(answers[..i], [rr]);
      AliasesAppend(answers[..i], [rr]);
      if rr.rtype == TypeA {
        addressList := addressList + [rr.record];
        entry := entry.(hostName := rr.name);
      } else if rr.rtype == TypeCNAME {
        aliases := aliases + [rr.name];
      }
      i := i + 1;
    }
    assert answers[..i] == answers;
    entry := entry.(addresses := addressList, aliases := aliases);
  }
}
