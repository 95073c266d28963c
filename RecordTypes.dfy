/** The record-type dispatch of the wire reader: which decoder a resource
    record of a given type code is handed to, and which of them also receives
    the record's RDATA length. The type codes are those of the IANA "Resource
    Record (RR) TYPEs" registry (section 3.2.2 of RFC 1035 for the first
    sixteen); the enumeration that names them in the library is not part of
    this model. */
module RecordTypes {
  import opened Basics

  /** The record kinds the reader has a dedicated decoder for, and `Unknown`
      for every other type code. */
  datatype RecordKind =
    A | NS | MD | MF | CNAME | SOA | MB | MG | MR | NULL |
    WKS | PTR | HINFO | MINFO | MX | TXT | RP | AFSDB | X25 | ISDN |
    RT | NSAP | NSAPPTR | SIG | KEY | PX | GPOS | AAAA | LOC | NXT |
    EID | NIMLOC | SRV | ATMA | NAPTR | KX | CERT | A6 | DNAME | SINK |
    OPT | APL | DS | SSHFP | IPSECKEY | RRSIG | NSEC | DNSKEY | DHCID | NSEC3 |
    NSEC3PARAM | HIP | SPF | UINFO | UID | GID | UNSPEC | TKEY | TSIG | Unknown

  /** The type code of a kind that has a dedicated decoder. */
  function TypeCode(k: RecordKind): (c: nat)
    requires k != Unknown
    ensures 0 < c < 0x1_0000
  {
    match k
      case A => 1
      case NS => 2
      case MD => 3
      case MF => 4
      case CNAME => 5
      case SOA => 6
      case MB => 7
      case MG => 8
      case MR => 9
      case NULL => 10
      case WKS => 11
      case PTR => 12
      case HINFO => 13
      case MINFO => 14
      case MX => 15
      case TXT => 16
      case RP => 17
      case AFSDB => 18
      case X25 => 19
      case ISDN => 20
      case RT => 21
      case NSAP => 22
      case NSAPPTR => 23
      case SIG => 24
      case KEY => 25
      case PX => 26
      case GPOS => 27
      case AAAA => 28
      case LOC => 29
      case NXT => 30
      case EID => 31
      case NIMLOC => 32
      case SRV => 33
      case ATMA => 34
      case NAPTR => 35
      case KX => 36
      case CERT => 37
      case A6 => 38
      case DNAME => 39
      case SINK => 40
      case OPT => 41
      case APL => 42
      case DS => 43
      case SSHFP => 44
      case IPSECKEY => 45
      case RRSIG => 46
      case NSEC => 47
      case DNSKEY => 48
      case DHCID => 49
      case NSEC3 => 50
      case NSEC3PARAM => 51
      case HIP => 55
      case SPF => 99
      case UINFO => 100
      case UID => 101
      case GID => 102
      case UNSPEC => 103
      case TKEY => 249
      case TSIG => 250
  }

  /** The kind whose decoder handles a type code; codes without a dedicated
      decoder fall to the default branch, `Unknown`. The one switch of the
      reader is written here as a choice of range followed by a switch over
      that range, which picks the same kind for every code. */
  function KindOf(code: int): RecordKind
  {
    if code <= 12 then KindsUpTo12(code)
    else if code <= 24 then KindsUpTo24(code)
    else if code <= 36 then KindsUpTo36(code)
    else if code <= 51 then KindsUpTo51(code)
    else KindsAbove51(code)
  }

  function KindsUpTo12(code: int): RecordKind
  {
    match code
      case 1 => A
      case 2 => NS
      case 3 => MD
      case 4 => MF
      case 5 => CNAME
      case 6 => SOA
      case 7 => MB
      case 8 => MG
      case 9 => MR
      case 10 => NULL
      case 11 => WKS
      case 12 => PTR
      case _ => Unknown
  }

  function KindsUpTo24(code: int): RecordKind
  {
    match code
      case 13 => HINFO
      case 14 => MINFO
      case 15 => MX
      case 16 => TXT
      case 17 => RP
      case 18 => AFSDB
      case 19 => X25
      case 20 => ISDN
      case 21 => RT
      case 22 => NSAP
      case 23 => NSAPPTR
      case 24 => SIG
      case _ => Unknown
  }

  function KindsUpTo36(code: int): RecordKind
  {
    match code
      case 25 => KEY
      case 26 => PX
      case 27 => GPOS
      case 28 => AAAA
      case 29 => LOC
      case 30 => NXT
      case 31 => EID
      case 32 => NIMLOC
      case 33 => SRV
      case 34 => ATMA
      case 35 => NAPTR
      case 36 => KX
      case _ => Unknown
  }

  function KindsUpTo51(code: int): RecordKind
  {
    match code
      case 37 => CERT
      case 38 => A6
      case 39 => DNAME
      case 40 => SINK
      case 41 => OPT
      case 42 => APL
      case 43 => DS
      case 44 => SSHFP
      case 45 => IPSECKEY
      case 46 => RRSIG
      case 47 => NSEC
      case 48 => DNSKEY
      case 49 => DHCID
      case 50 => NSEC3
      case 51 => NSEC3PARAM
      case _ => Unknown
  }

  function KindsAbove51(code: int): RecordKind
  {
    match code
      case 55 => HIP
      case 99 => SPF
      case 100 => UINFO
      case 101 => UID
      case 102 => GID
      case 103 => UNSPEC
      case 249 => TKEY
      case 250 => TSIG
      case _ => Unknown
  }

  /** A kind chosen for a type code has that code. */
  lemma KindHasCode(code: int)
    ensures KindOf(code) != Unknown ==> TypeCode(KindOf(code)) == code
  {
    if code <= 12 {
      CodesOfUpTo12(code);
    } else if code <= 24 {
      CodesOfUpTo24(code);
    } else if code <= 36 {
      CodesOfUpTo36(code);
    } else if code <= 51 {
      CodesOfUpTo51(code);
    } else {
      CodesOfAbove51(code);
    }
  }

  lemma CodesOfUpTo12(code: int)
    ensures KindsUpTo12(code) != Unknown ==> TypeCode(KindsUpTo12(code)) == code
  {
  }

  lemma CodesOfUpTo24(code: int)
    ensures KindsUpTo24(code) != Unknown ==> TypeCode(KindsUpTo24(code)) == code
  {
  }

  lemma CodesOfUpTo36(code: int)
    ensures KindsUpTo36(code) != Unknown ==> TypeCode(KindsUpTo36(code)) == code
  {
  }

  lemma CodesOfUpTo51(code: int)
    ensures KindsUpTo51(code) != Unknown ==> TypeCode(KindsUpTo51(code)) == code
  {
  }

  lemma CodesOfAbove51(code: int)
    ensures KindsAbove51(code) != Unknown ==> TypeCode(KindsAbove51(code)) == code
  {
  }

  /** The decoder chosen for a record: its kind, and the RDATA length when
      that decoder takes one. */
  datatype Decoder = Decoder(kind: RecordKind, length: Option<int>)

  /** Picks the decoder for a record of type `code` whose RDATA is `length`
      bytes long. Only the TXT decoder is given the length. */
  function ReadRecord(code: int, length: int): (d: Decoder)
    ensures d.kind != Unknown ==> TypeCode(d.kind) == code
    ensures d.length.Some? <==> d.kind == TXT
    ensures d.length.Some? ==> d.length.value == length
  {
    var k := KindOf(code);
    KindHasCode(code);
    if k == TXT then Decoder(k, Some(length)) else Decoder(k, None)
  }

  /** Every kind with a dedicated decoder is chosen for its own type code. */
  lemma DispatchRoundTrip(k: RecordKind, length: int)
    requires k != Unknown
    ensures ReadRecord(TypeCode(k), length).kind == k
  {
    var c := TypeCode(k);
    if c <= 12 {
      DispatchUpTo12(k);
    } else if c <= 24 {
      DispatchUpTo24(k);
    } else if c <= 36 {
      DispatchUpTo36(k);
    } else if c <= 51 {
      DispatchUpTo51(k);
    } else {
      DispatchAbove51(k);
    }
  }

  /** The round trip within one range of type codes. */
  lemma DispatchUpTo12(k: RecordKind)
    requires k != Unknown && 0 < TypeCode(k) <= 12
    ensures KindOf(TypeCode(k)) == k
  {
  }

  lemma DispatchUpTo24(k: RecordKind)
    requires k != Unknown && 12 < TypeCode(k) <= 24
    ensures KindOf(TypeCode(k)) == k
  {
  }

  lemma DispatchUpTo36(k: RecordKind)
    requires k != Unknown && 24 < TypeCode(k) <= 36
    ensures KindOf(TypeCode(k)) == k
  {
  }

  lemma DispatchUpTo51(k: RecordKind)
    requires k != Unknown && 36 < TypeCode(k) <= 51
    ensures KindOf(TypeCode(k)) == k
  {
  }

  lemma DispatchAbove51(k: RecordKind)
    requires k != Unknown && 51 < TypeCode(k)
    ensures KindOf(TypeCode(k)) == k
  {
  }

  /** A type code reaches the default decoder exactly when no kind has it. */
  lemma UnknownExactlyWhenUnlisted(code: int, length: int)
    ensures ReadRecord(code, length).kind == Unknown
        <==> forall k :: k != Unknown ==> TypeCode(k) != code
  {
    var d := ReadRecord(code, length);
    if d.kind == Unknown {
      forall k | k != Unknown
        ensures TypeCode(k) != code
      {
        DispatchRoundTrip(k, length);
      }
    }
  }

  /** Distinct kinds have distinct type codes. */
  lemma TypeCodeInjective(j: RecordKind, k: RecordKind)
    requires j != Unknown && k != Unknown && TypeCode(j) == TypeCode(k)
    ensures j == k
  {
    DispatchRoundTrip(j, 0);
    DispatchRoundTrip(k, 0);
  }
}
