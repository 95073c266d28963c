/** The byte cursor over a DNS message (class RecordReader) and the
    specification of what its reads return.

    A cursor is a fixed message plus a mutable position. Reads past the end of
    the message yield the byte 0 and leave the position where it is, so every
    read is described by two functions of the message and the old position:
    `ByteAt` (what is read) and `Advance` (where the position ends). */
module Wire {
  import opened Basics

  /** The byte a read at offset `p` yields: 0 past the end of the message. */
  function ByteAt(d: seq<byte>, p: nat): byte {
    if p < |d| then d[p] else 0
  }

  /** Where the position ends after `n` single-byte reads from `p`: a read
      past the end does not move it. */
  function Advance(d: seq<byte>, p: nat, n: nat): nat {
    if p >= |d| then p else if p + n <= |d| then p + n else |d|
  }

  /** The character a byte reads as (a C# `(char)` cast of a byte). */
  function ToChar(b: byte): char {
    (b as int) as char
  }

  /** The `n` characters read one byte at a time from offset `p`. */
  function CharsAt(d: seq<byte>, p: nat, n: nat): (s: string)
    ensures |s| == n
  {
    seq(n, i requires 0 <= i < n => ToChar(ByteAt(d, p + i)))
  }

  /** Big-endian 16-bit value of the two bytes read from `p`. */
  function U16At(d: seq<byte>, p: nat): nat {
    256 * ByteAt(d, p) as nat + ByteAt(d, p + 1) as nat
  }

  /** Big-endian 32-bit value of the four bytes read from `p`. */
  function U32At(d: seq<byte>, p: nat): nat {
    65536 * U16At(d, p) + U16At(d, p + 2)
  }

  /** A length byte whose two top bits are set starts a compression pointer
      (section 4.1.4 of RFC 1035). Only that mask is tested: bytes 0x40 to
      0xBF are ordinary label lengths. */
  function IsPointer(b: byte): (r: bool)
    ensures r <==> b >= 0xC0
  {
    TopBits(b) == 3
  }

  /** The two top bits of a byte, `(b & 0xC0) >> 6`. */
  function TopBits(b: byte): (t: nat)
    ensures t < 4
  {
    b as nat / 64
  }

  /** The 14-bit offset a pointer names: the low six bits of its first byte
      followed by all eight bits of the second. */
  function PointerTarget(hi: byte, lo: byte): (t: nat)
    ensures t < 0x4000
    ensures IsPointer(hi) ==> t == (hi as int - 0xC0) * 256 + lo as int
  {
    LowBits(hi) * 256 + lo as int
  }

  /** The six low bits of a byte, `b & 0x3F`. */
  function LowBits(b: byte): (t: nat)
    ensures t < 64
    ensures b as nat == 64 * TopBits(b) + t
  {
    b as nat % 64
  }

  /** The text a name decodes to and the position the cursor ends at. */
  datatype Decoded = Decoded(text: string, end: nat)

  function Rank(d: seq<byte>, p: nat): nat {
    if p < |d| then |d| - p else 0
  }

  /** The labels read from offset `p` before the terminator: each plain label
      contributes its characters followed by '.', a pointer contributes the
      whole name decoded at its target and ends the name. `None` when the
      pointer chain needs more than `hops` pointers. */
  function Labels(d: seq<byte>, p: nat, hops: nat): (r: Option<Decoded>)
    ensures r.Some? ==> p <= r.value.end
    decreases hops, Rank(d, p), 0
  {
    if p >= |d| || d[p] == 0 then Some(Decoded("", Advance(d, p, 1)))
    else if IsPointer(d[p]) then
      if hops == 0 then None
      else
        match DomainName(d, PointerTarget(d[p], ByteAt(d, p + 1)), hops - 1)
        case None => None
        case Some(inner) => Some(Decoded(inner.text, Advance(d, p + 1, 1)))
    else
      var len := d[p] as nat;
      match Labels(d, Advance(d, p + 1, len), hops)
      case None => None
      case Some(rest) => Some(Decoded(CharsAt(d, p + 1, len) + "." + rest.text, rest.end))
  }

  /** What ReadDomainName returns from offset `p`: the labels, or "." when
      there are none (the root name). Never empty. */
  function DomainName(d: seq<byte>, p: nat, hops: nat): (r: Option<Decoded>)
    ensures r.Some? <==> Labels(d, p, hops).Some?
    ensures r.Some? ==> r.value.text != "" && r.value.end == Labels(d, p, hops).value.end
    decreases hops, Rank(d, p), 1
  {
    match Labels(d, p, hops)
    case None => None
    case Some(r) => Some(if r.text == "" then Decoded(".", r.end) else r)
  }

  /** Reading at the position `k` single-byte reads have reached gives the
      byte at offset `p + k`, and one more read advances as `k + 1` reads do. */
  lemma ReadAfter(d: seq<byte>, p: nat, k: nat)
    ensures ByteAt(d, Advance(d, p, k)) == ByteAt(d, p + k)
    ensures Advance(d, Advance(d, p, k), 1) == Advance(d, p, k + 1)
  {
  }

  lemma AdvanceTwice(d: seq<byte>, p: nat, a: nat, b: nat)
    ensures Advance(d, Advance(d, p, a), b) == Advance(d, p, a + b)
  {
  }

  lemma CharsStep(d: seq<byte>, p: nat, k: nat)
    ensures CharsAt(d, p, k + 1) == CharsAt(d, p, k) + [ToChar(ByteAt(d, p + k))]
  {
  }

  /** One plain label, unfolded. */
  lemma PlainLabelStep(d: seq<byte>, p: nat, hops: nat)
    requires p < |d| && d[p] != 0 && !IsPointer(d[p])
    requires Labels(d, p, hops).Some?
    ensures var next := Advance(d, p + 1, d[p] as nat);
      && Labels(d, next, hops).Some?
      && Labels(d, p, hops).value
         == Decoded(CharsAt(d, p + 1, d[p] as nat) + "." + Labels(d, next, hops).value.text,
                    Labels(d, next, hops).value.end)
  {
  }

  /** A pointer, unfolded. */
  lemma PointerStep(d: seq<byte>, p: nat, hops: nat)
    requires p < |d| && IsPointer(d[p])
    requires Labels(d, p, hops).Some?
    ensures hops > 0
    ensures var inner := DomainName(d, PointerTarget(d[p], ByteAt(d, p + 1)), hops - 1);
      && inner.Some?
      && Labels(d, p, hops).value == Decoded(inner.value.text, Advance(d, p + 1, 1))
  {
  }

  /** A reader over a message, as in RecordReader.cs: the message is fixed,
      the position moves with every read and can be set from outside. */
  class RecordReader {
    const data: seq<byte>
    var pos: nat

    constructor (data: seq<byte>)
      ensures this.data == data && pos == 0
    {
      this.data := data;
      pos := 0;
    }

    constructor At(data: seq<byte>, position: nat)
      ensures this.data == data && pos == position
    {
      this.data := data;
      pos := position;
    }

    /** The Position setter. */
    method SetPosition(position: nat)
      modifies this`pos
      ensures pos == position
    {
      pos := position;
    }

    /** The next byte, or 0 without moving when the position is past the end. */
    method ReadByte() returns (b: byte)
      modifies this`pos
      ensures old(pos) >= |data| ==> b == 0 && pos == old(pos)
      ensures old(pos) < |data| ==> b == data[old(pos)] && pos == old(pos) + 1
      ensures b == ByteAt(data, old(pos)) && pos == Advance(data, old(pos), 1)
    {
      if pos >= |data| {
        return 0;
      }
      b := data[pos];
      pos := pos + 1;
    }

    method ReadChar() returns (c: char)
      modifies this`pos
      ensures c == ToChar(ByteAt(data, old(pos))) && pos == Advance(data, old(pos), 1)
    {
      var b := ReadByte();
      c := ToChar(b);
    }

    /** Two bytes, most significant first. */
    method ReadUInt16() returns (r: nat)
      modifies this`pos
      ensures r == U16At(data, old(pos)) && r < 0x1_0000
      ensures pos == Advance(data, old(pos), 2)
    {
      var hi := ReadByte();
      var lo := ReadByte();
      r := hi as nat * 256 + lo as nat;
    }

    /** ReadUInt16 after moving the position by `offset`. */
    method ReadUInt16At(offset: int) returns (r: nat)
      requires pos + offset >= 0
      modifies this`pos
      ensures r == U16At(data, old(pos) + offset)
      ensures pos == Advance(data, old(pos) + offset, 2)
    {
      pos := pos + offset;
      r := ReadUInt16();
    }

    /** Two 16-bit values, the first one the high half. */
    method ReadUInt32() returns (r: nat)
      modifies this`pos
      ensures r == U32At(data, old(pos)) && r < 0x1_0000_0000
      ensures pos == Advance(data, old(pos), 4)
    {
      var hi := ReadUInt16();
      var lo := ReadUInt16();
      r := hi * 65536 + lo;
    }

    /** A character-string (section 3.3 of RFC 1035): one length byte, then
        that many characters. */
    method ReadString() returns (s: string)
      modifies this`pos
      ensures |s| == ByteAt(data, old(pos)) as int
      ensures s == CharsAt(data, old(pos) + 1, ByteAt(data, old(pos)) as nat)
      ensures pos == Advance(data, old(pos), 1 + ByteAt(data, old(pos)) as nat)
    {
      var length := ReadByte();
      AdvanceTwice(data, old(pos), 1, length as nat);
      s := ReadChars(length as nat);
    }

    /** `n` characters, one byte each: the character loop of ReadString and
        of the label copy in ReadDomainName. */
    method ReadChars(n: nat) returns (s: string)
      modifies this`pos
      ensures s == CharsAt(data, old(pos), n)
      ensures pos == Advance(data, old(pos), n)
    {
      s := "";
      var i := 0;
      while i < n
        invariant i <= n
        invariant s == CharsAt(data, old(pos), i)
        invariant pos == Advance(data, old(pos), i)
      {
        ReadAfter(data, old(pos), i);
        CharsStep(data, old(pos), i);
        var c := ReadChar();
        s := s + [c];
        i := i + 1;
      }
    }

    /** An unchecked copy of the next `n` bytes: the caller must keep it inside
        the message (Array.Copy faults otherwise). */
    method ReadBytes(n: int) returns (result: array<byte>)
      requires 0 <= n && pos + n <= |data|
      modifies this`pos
      ensures fresh(result)
      ensures result[..] == data[old(pos)..old(pos) + n]
      ensures pos == old(pos) + n
    {
      result := new byte[n];
      var start := pos;
      forall i | 0 <= i < n {
        result[i] := data[start + i];
      }
      pos := pos + n;
    }

    /** A domain name (section 4.1.4 of RFC 1035). Plain labels are copied a
        character at a time, each followed by '.'; a pointer hands the rest of
        the name to a second reader at the pointed-to offset and ends the name,
        leaving this reader just after the two pointer bytes. The source sets
        no bound on pointer chains, so the ghost `hops` says how many pointers
        the chain from here follows; a chain that loops has no such bound and
        is outside this model. */
    method ReadDomainName(ghost hops: nat) returns (name: string)
      requires DomainName(data, pos, hops).Some?
      modifies this`pos
      ensures DomainName(data, old(pos), hops) == Some(Decoded(name, pos))
      decreases hops, 1
    {
      ghost var whole := Labels(data, pos, hops).value;
      ghost var at := pos;
      ghost var tail := whole;
      name := "";
      var length := ReadByte();
      while length != 0
        invariant length == ByteAt(data, at) && pos == Advance(data, at, 1)
        invariant Labels(data, at, hops) == Some(tail)
        invariant whole == Decoded(name + tail.text, tail.end)
        decreases Rank(data, at)
      {
        if IsPointer(length) {
          PointerStep(data, at, hops);
          ReadAfter(data, at, 1);
          var rest := ReadPointedName(length, hops);
          name := name + rest;
          return;
        }
        PlainLabelStep(data, at, hops);
        ghost var text := CharsAt(data, at + 1, length as nat);
        ghost var next := Labels(data, Advance(data, at + 1, length as nat), hops).value;
        assert tail == Decoded(text + "." + next.text, next.end);
        ghost var before := name;
        ReadAfter(data, at, 1);
        var chars := ReadChars(length as nat);
        name := name + chars;
        name := name + ".";
        assert name + next.text == before + tail.text;
        at := pos;
        tail := next;
        length := ReadByte();
      }
      assert tail == Decoded("", pos);
      assert name + "" == name;
      if name == "" {
        name := ".";
      }
    }

    /** The pointer branch of ReadDomainName: reads the second pointer byte and
        decodes the name at the target with a second reader over the same
        message, whose position is independent of this one. */
    method ReadPointedName(first: byte, ghost hops: nat) returns (rest: string)
      requires IsPointer(first) && hops > 0
      requires DomainName(data, PointerTarget(first, ByteAt(data, pos)), hops - 1).Some?
      modifies this`pos
      ensures DomainName(data, PointerTarget(first, ByteAt(data, old(pos))), hops - 1).value.text == rest
      ensures pos == Advance(data, old(pos), 1)
      decreases hops, 0
    {
      var lo := ReadByte();
      var reader := new RecordReader.At(data, PointerTarget(first, lo));
      rest := reader.ReadDomainName(hops - 1);
    }
  }
}
