/** What the name decoder of the byte cursor does on well-formed and on
    compressed input: the root name, plain labels (against their uncompressed
    wire form), a pointer after some labels (against inlining the pointed-to
    name), termination of plain labels, and that a larger pointer budget never
    changes a decoded name. */
module NameProperties {
  import opened Basics
  import opened Wire

  /** A label the decoder reads back as written: not empty, a length byte
      below 0xC0 (so not a pointer, though RFC 1035 stops at 63), and
      characters that fit in a byte. */
  predicate IsLabel(l: string) {
    0 < |l| < 0xC0 && forall i :: 0 <= i < |l| ==> l[i] as int < 256
  }

  function LabelBytes(l: string): (b: seq<byte>)
    requires IsLabel(l)
    ensures |b| == |l|
  {
    seq(|l|, i requires 0 <= i < |l| => l[i] as int as byte)
  }

  /** Length-prefixed labels, without the terminating zero. */
  function EncodeLabels(ls: seq<string>): seq<byte>
    requires forall i :: 0 <= i < |ls| ==> IsLabel(ls[i])
  {
    if ls == [] then []
    else
      assert IsLabel(ls[0]);
      [|ls[0]| as byte] + LabelBytes(ls[0]) + EncodeLabels(ls[1..])
  }

  /** The uncompressed wire form of a name: its labels and a zero byte. */
  function EncodeName(ls: seq<string>): seq<byte>
    requires forall i :: 0 <= i < |ls| ==> IsLabel(ls[i])
  {
    EncodeLabels(ls) + [0]
  }

  /** Each label followed by a dot. */
  function JoinLabels(ls: seq<string>): string {
    if ls == [] then "" else ls[0] + "." + JoinLabels(ls[1..])
  }

  /** The text of a name: its dotted labels, or "." for the root. */
  function Dotted(ls: seq<string>): string {
    if ls == [] then "." else JoinLabels(ls)
  }

  /** A lone zero byte is the root name "." and moves the cursor by one. */
  lemma RootName(d: seq<byte>, p: nat, hops: nat)
    requires p < |d| && d[p] == 0
    ensures DomainName(d, p, hops) == Some(Decoded(".", p + 1))
  {
  }

  /** The uncompressed wire form of the labels `ls` sits in `d` from offset
      `p` on, byte for byte. */
  predicate EncodedAt(d: seq<byte>, p: nat, ls: seq<string>)
    requires forall i :: 0 <= i < |ls| ==> IsLabel(ls[i])
  {
    p + |EncodeLabels(ls)| <= |d| && forall j :: 0 <= j < |EncodeLabels(ls)| ==> d[p + j] == EncodeLabels(ls)[j]
  }

  /** The bytes of a label read back as its characters. */
  lemma LabelChars(d: seq<byte>, p: nat, l: string)
    requires IsLabel(l)
    requires p + |l| <= |d| && forall i :: 0 <= i < |l| ==> d[p + i] == LabelBytes(l)[i]
    ensures CharsAt(d, p, |l|) == l
  {
    forall i | 0 <= i < |l|
      ensures CharsAt(d, p, |l|)[i] == l[i]
    {
      assert d[p + i] == LabelBytes(l)[i] == l[i] as int as byte;
      assert CharsAt(d, p, |l|)[i] == ToChar(ByteAt(d, p + i));
      assert ToChar(l[i] as int as byte) == l[i];
    }
  }

  /** One plain label in front of whatever follows it. */
  lemma LabelInFront(d: seq<byte>, p: nat, l: string, hops: nat, rest: Decoded)
    requires IsLabel(l)
    requires p + 1 + |l| <= |d| && d[p] == |l| as byte
    requires forall i :: 0 <= i < |l| ==> d[p + 1 + i] == LabelBytes(l)[i]
    requires Labels(d, p + 1 + |l|, hops) == Some(rest)
    ensures Labels(d, p, hops) == Some(Decoded(l + "." + rest.text, rest.end))
  {
    LabelChars(d, p + 1, l);
    assert Advance(d, p + 1, |l|) == p + 1 + |l|;
  }

  /** A pointer in front: the name at its target, the cursor after both bytes. */
  lemma PointerInFront(d: seq<byte>, p: nat, hops: nat, inner: Decoded)
    requires p + 1 < |d| && IsPointer(d[p])
    requires DomainName(d, PointerTarget(d[p], d[p + 1]), hops) == Some(inner)
    ensures Labels(d, p, hops + 1) == Some(Decoded(inner.text, p + 2))
  {
  }

  lemma JoinStep(ls: seq<string>, t: string)
    requires ls != []
    ensures JoinLabels(ls) + t == ls[0] + "." + (JoinLabels(ls[1..]) + t)
  {
  }

  /** The first label of an encoding, and the encoding of the others after
      it. */
  lemma FirstLabel(d: seq<byte>, p: nat, ls: seq<string>)
    requires forall i :: 0 <= i < |ls| ==> IsLabel(ls[i])
    requires ls != [] && EncodedAt(d, p, ls)
    ensures var l := ls[0];
      p + 1 + |l| <= |d| && d[p] == |l| as byte
      && (forall i :: 0 <= i < |l| ==> d[p + 1 + i] == LabelBytes(l)[i])
      && EncodedAt(d, p + 1 + |l|, ls[1..])
      && |EncodeLabels(ls)| == 1 + |l| + |EncodeLabels(ls[1..])|
  {
    var l, e, e' := ls[0], EncodeLabels(ls), EncodeLabels(ls[1..]);
    assert e == [|l| as byte] + LabelBytes(l) + e';
    assert d[p] == e[0];
    forall i | 0 <= i < |l|
      ensures d[p + 1 + i] == LabelBytes(l)[i]
    {
      assert d[p + (1 + i)] == e[1 + i];
    }
    forall j | 0 <= j < |e'|
      ensures d[p + 1 + |l| + j] == e'[j]
    {
      assert d[p + (1 + |l| + j)] == e[1 + |l| + j];
    }
  }

  /** Plain labels in front of whatever follows them. */
  lemma {:induction false} LabelsInFront(d: seq<byte>, p: nat, ls: seq<string>, hops: nat, rest: Decoded)
    requires forall i :: 0 <= i < |ls| ==> IsLabel(ls[i])
    requires EncodedAt(d, p, ls)
    requires Labels(d, p + |EncodeLabels(ls)|, hops) == Some(rest)
    ensures Labels(d, p, hops) == Some(Decoded(JoinLabels(ls) + rest.text, rest.end))
    decreases |ls|
  {
    if ls == [] {
      assert JoinLabels(ls) + rest.text == rest.text;
    } else {
      var l, tail := ls[0], ls[1..];
      FirstLabel(d, p, ls);
      LabelsInFront(d, p + 1 + |l|, tail, hops, rest);
      LabelInFront(d, p, l, hops, Decoded(JoinLabels(tail) + rest.text, rest.end));
      JoinStep(ls, rest.text);
    }
  }

  /** Labels written after `pre` are encoded at offset `|pre|`. */
  lemma Placed(pre: seq<byte>, ls: seq<string>, post: seq<byte>)
    requires forall i :: 0 <= i < |ls| ==> IsLabel(ls[i])
    ensures EncodedAt(pre + EncodeLabels(ls) + post, |pre|, ls)
  {
  }

  /** A name written after `pre` is encoded at offset `|pre|`, its zero byte
      just after its labels. */
  lemma NamePlaced(pre: seq<byte>, ls: seq<string>, post: seq<byte>)
    requires forall i :: 0 <= i < |ls| ==> IsLabel(ls[i])
    ensures var d := pre + EncodeName(ls) + post;
      EncodedAt(d, |pre|, ls) && d[|pre| + |EncodeLabels(ls)|] == 0
  {
    var e, d := EncodeLabels(ls), pre + EncodeName(ls) + post;
    forall j | 0 <= j < |e|
      ensures d[|pre| + j] == e[j]
    {
      assert EncodeName(ls)[j] == e[j];
    }
    assert EncodeName(ls)[|e|] == 0;
  }

  /** Encoding a name without compression and decoding it gives back its
      text; the cursor ends just past the terminating zero. */
  lemma NameRoundTrip(pre: seq<byte>, ls: seq<string>, post: seq<byte>, hops: nat)
    requires forall i :: 0 <= i < |ls| ==> IsLabel(ls[i])
    ensures DomainName(pre + EncodeName(ls) + post, |pre|, hops)
         == Some(Decoded(Dotted(ls), |pre| + |EncodeName(ls)|))
  {
    var e := EncodeLabels(ls);
    var d := pre + EncodeName(ls) + post;
    var q := |pre| + |e|;
    NamePlaced(pre, ls, post);
    assert q < |d| && d[q] == 0;
    assert Labels(d, q, hops) == Some(Decoded("", q + 1));
    LabelsInFront(d, |pre|, ls, hops, Decoded("", q + 1));
    var text := JoinLabels(ls) + "";
    assert text == JoinLabels(ls);
    assert Labels(d, |pre|, hops) == Some(Decoded(JoinLabels(ls), q + 1));
    if ls != [] {
      assert JoinLabels(ls) != "";
    }
  }

  /** Labels followed by a compression pointer decode to the labels' text
      followed by the text the decoder gives at the pointer's target ("." when
      the target is the root name, so this is not the same as writing that
      name in place); the cursor ends just after the two pointer bytes. */
  lemma PointerSplice(pre: seq<byte>, ls: seq<string>, post: seq<byte>, hops: nat, inner: Decoded)
    requires forall i :: 0 <= i < |ls| ==> IsLabel(ls[i])
    requires 2 <= |post| && IsPointer(post[0])
    requires DomainName(pre + EncodeLabels(ls) + post, PointerTarget(post[0], post[1]), hops) == Some(inner)
    ensures Labels(pre + EncodeLabels(ls) + post, |pre|, hops + 1)
         == Some(Decoded(JoinLabels(ls) + inner.text, |pre| + |EncodeLabels(ls)| + 2))
  {
    var d := pre + EncodeLabels(ls) + post;
    var q := |pre| + |EncodeLabels(ls)|;
    assert d[q] == post[0] && d[q + 1] == post[1];
    PointerInFront(d, q, hops, inner);
    Placed(pre, ls, post);
    LabelsInFront(d, |pre|, ls, hops + 1, Decoded(inner.text, q + 2));
  }

  /** The quirk of a prefix followed by a pointer to the root: "www" and a
      pointer to a zero byte decode to "www.." (the prefix's dot, then the
      root's "."). */
  lemma PrefixThenRootPointer(hops: nat)
    ensures var d: seq<byte> := [0, 3, 119, 119, 119, 0xC0, 0];
      DomainName(d, 1, hops + 1) == Some(Decoded("www..", 7))
  {
    var d: seq<byte> := [0, 3, 119, 119, 119, 0xC0, 0];
    assert LabelBytes("www") == [119, 119, 119];
    assert EncodeLabels(["www"]) == [3, 119, 119, 119];
    assert d == [0] + EncodeLabels(["www"]) + [0xC0, 0];
    assert IsPointer(0xC0) && PointerTarget(0xC0, 0) == 0;
    RootName(d, 0, hops);
    PointerSplice([0], ["www"], [0xC0, 0], hops, Decoded(".", 1));
    assert JoinLabels(["www"]) + "." == "www..";
    assert Labels(d, 1, hops + 1) == Some(Decoded("www..", 7));
  }

  /** Plain labels always terminate: when no byte from `p` on starts a
      pointer, the name decodes without any pointer budget. */
  lemma {:induction false} PlainNamesTerminate(d: seq<byte>, p: nat)
    requires forall i :: p <= i < |d| ==> !IsPointer(d[i])
    ensures Labels(d, p, 0).Some?
    decreases Rank(d, p)
  {
    if p < |d| && d[p] != 0 {
      PlainNamesTerminate(d, Advance(d, p + 1, d[p] as nat));
    }
  }

  /** A larger pointer budget never changes a decoded name. */
  lemma {:induction false} LabelsBudget(d: seq<byte>, p: nat, hops: nat, more: nat)
    requires Labels(d, p, hops).Some? && hops <= more
    ensures Labels(d, p, more) == Labels(d, p, hops)
    decreases hops, Rank(d, p), 0
  {
    if p >= |d| || d[p] == 0 {
    } else if IsPointer(d[p]) {
      NameBudget(d, PointerTarget(d[p], ByteAt(d, p + 1)), hops - 1, more - 1);
    } else {
      LabelsBudget(d, Advance(d, p + 1, d[p] as nat), hops, more);
    }
  }

  lemma {:induction false} NameBudget(d: seq<byte>, p: nat, hops: nat, more: nat)
    requires DomainName(d, p, hops).Some? && hops <= more
    ensures DomainName(d, p, more) == DomainName(d, p, hops)
    decreases hops, Rank(d, p), 1
  {
    LabelsBudget(d, p, hops, more);
  }
}
