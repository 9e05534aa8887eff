/** Netlink attributes (src/nl.c:55-82).

`nl_add_rtattr` appends an attribute behind a message, padded to four bytes, and
`nl_rtattr_parse` walks the attributes of a message. Both use `struct rtattr`, two
16-bit fields in host order, which is taken to be little-endian.
 */
module Netlink {
  import opened Wire

  /** What the parser hands to its callback. */
  datatype Attr = Attr(typ: nat, data: Bytes)

  /** sizeof(struct rtattr) */
  const RTA_HDR: nat := 4

  /** NLMSG_ALIGN and RTA_ALIGN */
  function Align(n: nat): (a: nat)
    ensures n <= a < n + 4
  {
    (n + 3) / 4 * 4
  }

  function Le16(b: Bytes, at: nat): (v: U16)
    requires at + 2 <= |b|
  {
    b[at] + (b[at + 1] as int) * 0x100
  }

  /** RTA_OK for the attribute at `pos` with `rtlen` bytes of the message left. */
  predicate RtaOk(buf: Bytes, pos: nat, rtlen: nat)
    requires pos + rtlen <= |buf|
  {
    rtlen >= RTA_HDR && RTA_HDR <= Le16(buf, pos) <= rtlen
  }

  /** The attributes in `rtlen` bytes from `pos`. */
  function Attrs(buf: Bytes, pos: nat, rtlen: nat): (l: seq<Attr>)
    requires pos + rtlen <= |buf|
    decreases rtlen
  {
    if !RtaOk(buf, pos, rtlen) then []
    else
      var len := Le16(buf, pos);
      [Attr(Le16(buf, pos + 2), buf[pos + RTA_HDR..pos + len])]
      + if Align(len) >= rtlen then [] else Attrs(buf, pos + Align(len), rtlen - Align(len))
  }

  /** The walk uses up all of the bytes. */
  ghost predicate Exact(buf: Bytes, pos: nat, rtlen: nat)
    requires pos + rtlen <= |buf|
    decreases rtlen
  {
    rtlen == 0 ||
    (RtaOk(buf, pos, rtlen) && Align(Le16(buf, pos)) <= rtlen &&
     Exact(buf, pos + Align(Le16(buf, pos)), rtlen - Align(Le16(buf, pos))))
  }

  /** The walk ends before the end of the bytes, or there. */
  ghost predicate StaysInside(buf: Bytes, pos: nat, rtlen: nat)
    requires pos + rtlen <= |buf|
    decreases rtlen
  {
    RtaOk(buf, pos, rtlen) ==>
      && Align(Le16(buf, pos)) <= rtlen
      && StaysInside(buf, pos + Align(Le16(buf, pos)), rtlen - Align(Le16(buf, pos)))
  }

  lemma {:induction false} AlignedStaysInside(buf: Bytes, pos: nat, rtlen: nat)
    requires pos + rtlen <= |buf| && rtlen % 4 == 0
    ensures StaysInside(buf, pos, rtlen)
    decreases rtlen
  {
    if RtaOk(buf, pos, rtlen) {
      var n := Align(Le16(buf, pos));
      AlignedFits(Le16(buf, pos), rtlen);
      AlignedStaysInside(buf, pos + n, rtlen - n);
    }
  }

  /** Empty attributes, and a last one that is not padded. */
  function Unpadded(n: nat): (b: Bytes)
    requires n >= RTA_HDR
    ensures |b| == n
  {
    if n < 2 * RTA_HDR then Header(0, n) + Zeros(n - RTA_HDR) else Header(0, RTA_HDR) + Unpadded(n - RTA_HDR)
  }

  lemma {:induction false} UnpaddedLeaves(buf: Bytes, pos: nat, rtlen: nat)
    requires pos + rtlen <= |buf| && rtlen >= RTA_HDR && rtlen % 4 != 0 && buf[pos..pos + rtlen] == Unpadded(rtlen)
    ensures !StaysInside(buf, pos, rtlen)
    decreases rtlen
  {
    hide Align, Le16, Header, StaysInside;
    var h := if rtlen < 2 * RTA_HDR then rtlen else RTA_HDR;
    assert buf[pos..pos + RTA_HDR] == Unpadded(rtlen)[..RTA_HDR] == Header(0, h);
    HeaderReads(buf, pos, 0, h);
    AlignSmall(h);
    if rtlen < 2 * RTA_HDR {
      Beyond(buf, pos, rtlen);
    } else {
      Over(buf, pos, rtlen, RTA_HDR);
      assert buf[pos + RTA_HDR..pos + rtlen] == Unpadded(rtlen)[RTA_HDR..] == Unpadded(rtlen - RTA_HDR);
      UnpaddedLeaves(buf, pos + RTA_HDR, rtlen - RTA_HDR);
    }
  }

  lemma AlignSmall(n: nat)
    ensures n == 4 ==> Align(n) == 4
    ensures 4 < n <= 8 ==> Align(n) == 8
  {
  }

  /** The lengths for which the walk stays inside, whatever the bytes are. */
  lemma StaysInsideIff(n: nat)
    ensures (forall buf: Bytes :: |buf| == n ==> StaysInside(buf, 0, n)) <==> n % 4 == 0 || n < RTA_HDR
  {
    if n % 4 == 0 {
      forall buf: Bytes | |buf| == n ensures StaysInside(buf, 0, n) {
        AlignedStaysInside(buf, 0, n);
      }
    } else if n >= RTA_HDR {
      var b := Unpadded(n);
      assert b[0..0 + n] == b;
      UnpaddedLeaves(b, 0, n);
    }
  }

  /** `struct rtattr` in memory. */
  function Header(typ: nat, length: nat): (h: Bytes)
    ensures |h| == RTA_HDR
  {
    [length % 0x100, length / 0x100 % 0x100, typ % 0x100, typ / 0x100 % 0x100]
  }

  lemma HeaderReads(buf: Bytes, at: nat, typ: nat, length: nat)
    requires at + RTA_HDR <= |buf| && buf[at..at + RTA_HDR] == Header(typ, length)
    ensures Le16(buf, at) == length % 0x1_0000 && Le16(buf, at + 2) == typ % 0x1_0000
  {
    var h := buf[at..at + RTA_HDR];
    assert h[0] == buf[at] && h[1] == buf[at + 1] && h[2] == buf[at + 2] && h[3] == buf[at + 3];
    LowHalf(length);
    LowHalf(typ);
  }

  lemma LowHalf(v: nat)
    ensures v % 0x1_0000 == v % 0x100 + v / 0x100 % 0x100 * 0x100
  {
    var a := v / 0x100;
    var b := a / 0x100;
    assert v == a * 0x100 + v % 0x100;
    assert a == b * 0x100 + a % 0x100;
    assert v == b * 0x1_0000 + (a % 0x100 * 0x100 + v % 0x100);
  }

  /** `buf` up to `len`, and behind it the header and data of an attribute; both header
      fields keep 16 bits only. */
  ghost predicate Appended(old_: Bytes, len: nat, typ: nat, data: Bytes, buf: Bytes) {
    && len + RTA_HDR + |data| <= |buf| == |old_|
    && buf[..len] == old_[..len]
    && Le16(buf, len) == (RTA_HDR + |data|) % 0x1_0000
    && Le16(buf, len + 2) == typ % 0x1_0000
    && buf[len + RTA_HDR..len + RTA_HDR + |data|] == data
  }

  lemma {:induction false} AttrsBounded(buf: Bytes, pos: nat, rtlen: nat, i: nat)
    requires pos + rtlen <= |buf| && i < |Attrs(buf, pos, rtlen)|
    ensures var a := Attrs(buf, pos, rtlen)[i]; a.typ <= 0xffff && RTA_HDR + |a.data| <= 0xffff
    decreases rtlen
  {
    hide Align, Le16;
    var n := Align(Le16(buf, pos));
    if i > 0 {
      AttrsBounded(buf, pos + n, rtlen - n, i - 1);
    }
  }

  lemma AlignedFits(n: nat, rtlen: nat)
    requires n <= rtlen && rtlen % 4 == 0
    ensures Align(n) <= rtlen && (rtlen - Align(n)) % 4 == 0
  {
  }

  lemma AlignedUp(len: nat, length: nat)
    requires len % 4 == 0
    ensures (len + Align(length)) % 4 == 0
  {
  }

  lemma AppendImage(was: Bytes, len: nat, typ: nat, data: Bytes, mid: Bytes, now: Bytes)
    requires len + RTA_HDR + |data| <= |was|
    requires mid == was[..len] + Header(typ, RTA_HDR + |data|) + was[len + RTA_HDR..]
    requires now == mid[..len + RTA_HDR] + data + mid[len + RTA_HDR + |data|..]
    ensures Appended(was, len, typ, data, now)
  {
    hide Header, Le16;
    assert now[len..len + RTA_HDR] == Header(typ, RTA_HDR + |data|);
    HeaderReads(now, len, typ, RTA_HDR + |data|);
  }

  /** One step of the walk. */
  lemma Over(buf: Bytes, pos: nat, rtlen: nat, n: nat)
    requires pos + rtlen <= |buf| && RtaOk(buf, pos, rtlen) && n == Align(Le16(buf, pos)) <= rtlen
    ensures Attrs(buf, pos, rtlen) ==
            [Attr(Le16(buf, pos + 2), buf[pos + RTA_HDR..pos + Le16(buf, pos)])] + Attrs(buf, pos + n, rtlen - n)
    ensures Exact(buf, pos, rtlen) == Exact(buf, pos + n, rtlen - n)
    ensures StaysInside(buf, pos, rtlen) == StaysInside(buf, pos + n, rtlen - n)
  {
    hide Align, Le16;
  }

  /** The end of the walk. */
  lemma Stop(buf: Bytes, pos: nat, rtlen: nat)
    requires pos + rtlen <= |buf| && !RtaOk(buf, pos, rtlen)
    ensures Attrs(buf, pos, rtlen) == [] && Exact(buf, pos, rtlen) == (rtlen == 0) && StaysInside(buf, pos, rtlen)
  {
  }

  /** The padding of the last attribute is missing. */
  lemma Beyond(buf: Bytes, pos: nat, rtlen: nat)
    requires pos + rtlen <= |buf| && RtaOk(buf, pos, rtlen) && Align(Le16(buf, pos)) > rtlen
    ensures Attrs(buf, pos, rtlen) == [Attr(Le16(buf, pos + 2), buf[pos + RTA_HDR..pos + Le16(buf, pos)])]
    ensures !StaysInside(buf, pos, rtlen)
  {
    hide Align, Le16;
  }

  lemma ExactOver(buf: Bytes, pos: nat, rtlen: nat)
    requires 0 < rtlen && pos + rtlen <= |buf| && Exact(buf, pos, rtlen)
    ensures RtaOk(buf, pos, rtlen) && Align(Le16(buf, pos)) <= rtlen
  {
  }

  lemma {:induction false} AppendWalk(old_: Bytes, len: nat, a: Attr, buf: Bytes, pos: nat, end: nat)
    requires Appended(old_, len, a.typ, a.data, buf) && a.typ <= 0xffff && RTA_HDR + |a.data| <= 0xffff
    requires pos <= len && end == len + Align(RTA_HDR + |a.data|) <= |buf|
    requires Exact(old_, pos, len - pos)
    ensures Attrs(buf, pos, end - pos) == Attrs(old_, pos, len - pos) + [a] && Exact(buf, pos, end - pos)
    decreases len - pos
  {
    hide Attrs, Exact, Align;
    if pos == len {
      Over(buf, pos, end - pos, end - len);
      Stop(buf, end, 0);
      Stop(old_, pos, 0);
    } else {
      ExactOver(old_, pos, len - pos);
      var n := Align(Le16(old_, pos));
      Over(old_, pos, len - pos, n);
      AppendWalk(old_, len, a, buf, pos + n, end);
      AppendWalkOver(old_, len, a, buf, pos, end, n);
    }
  }

  lemma AppendWalkOver(old_: Bytes, len: nat, a: Attr, buf: Bytes, pos: nat, end: nat, n: nat)
    requires pos <= len <= end <= |buf| == |old_| && old_[..len] == buf[..len]
    requires RtaOk(old_, pos, len - pos) && n == Align(Le16(old_, pos)) <= len - pos
    requires Attrs(buf, pos + n, end - pos - n) == Attrs(old_, pos + n, len - pos - n) + [a]
    requires Exact(buf, pos + n, end - pos - n)
    ensures Attrs(buf, pos, end - pos) == Attrs(old_, pos, len - pos) + [a] && Exact(buf, pos, end - pos)
  {
    hide Attrs, Exact, Align, Le16;
    SamePrefix(old_, buf, len, pos);
    Over(old_, pos, len - pos, n);
    Over(buf, pos, end - pos, n);
  }

  lemma SamePrefix(a: Bytes, b: Bytes, len: nat, pos: nat)
    requires pos <= len <= |a| == |b| && a[..len] == b[..len]
    requires RtaOk(a, pos, len - pos)
    ensures Le16(a, pos) == Le16(b, pos) && Le16(a, pos + 2) == Le16(b, pos + 2)
    ensures a[pos + RTA_HDR..pos + Le16(a, pos)] == b[pos + RTA_HDR..pos + Le16(a, pos)]
  {
    assert forall k :: 0 <= k < len ==> a[k] == a[..len][k] && b[k] == b[..len][k];
  }

  /** An attribute that was appended to a message made of whole attributes reads back behind
      the others exactly when its type and its length fit the 16-bit header fields. */
  lemma AppendReadsBackIff(old_: Bytes, off: nat, len: nat, a: Attr, buf: Bytes)
    requires Appended(old_, len, a.typ, a.data, buf)
    requires off <= len && len + Align(RTA_HDR + |a.data|) <= |buf| == |old_|
    requires Exact(old_, off, len - off)
    ensures Attrs(buf, off, len + Align(RTA_HDR + |a.data|) - off) == Attrs(old_, off, len - off) + [a]
            <==> a.typ <= 0xffff && RTA_HDR + |a.data| <= 0xffff
  {
    hide Exact, Align, Attrs, Appended;
    var end := len + Align(RTA_HDR + |a.data|);
    if a.typ <= 0xffff && RTA_HDR + |a.data| <= 0xffff {
      AppendWalk(old_, len, a, buf, off, end);
    } else if Attrs(buf, off, end - off) == Attrs(old_, off, len - off) + [a] {
      AttrsBounded(buf, off, end - off, |Attrs(old_, off, len - off)|);
      assert false;
    }
  }

  /** A netlink message under construction: its buffer and the `nlmsg_len` of its header. */
  class Message {
    const buf: array<Byte>
    var len: nat

    ghost predicate Valid()
      reads this, buf
    {
      len % 4 == 0 && len <= buf.Length
    }

    constructor (size: nat, headerLen: nat)
      requires headerLen % 4 == 0 && headerLen <= size
      ensures Valid() && fresh(buf) && buf.Length == size && len == headerLen
    {
      buf := new Byte[size](_ => 0);
      len := headerLen;
    }

    /** False stands for -E2BIG. */
    method AddRtattr(maxLength: nat, typ: nat, data: Bytes) returns (ok: bool)
      requires Valid() && maxLength <= buf.Length
      modifies this, buf
      ensures Valid()
      ensures ok == (old(len) + Align(RTA_HDR + |data|) <= maxLength)
      ensures !ok ==> len == old(len) && buf[..] == old(buf[..])
      ensures ok ==> len == old(len) + Align(RTA_HDR + |data|) && Appended(old(buf[..]), old(len), typ, data, buf[..])
    {
      var length := RTA_HDR + |data|;
      if len + Align(length) > maxLength {
        return false;
      }
      ghost var was := buf[..];
      var rta := len;
      WriteHeader(rta, typ, length);
      ghost var mid := buf[..];
      Copy(buf, rta + RTA_HDR, data);
      AppendImage(was, rta, typ, data, mid, buf[..]);
      AlignedUp(len, length);
      hide Appended, Align;
      len := len + Align(length);
      return true;
    }

    method WriteHeader(rta: nat, typ: nat, length: nat)
      requires rta + RTA_HDR <= buf.Length
      modifies buf
      ensures buf[..] == old(buf[..])[..rta] + Header(typ, length) + old(buf[..])[rta + RTA_HDR..]
    {
      buf[rta + 2], buf[rta + 3] := typ % 0x100, typ / 0x100 % 0x100;
      buf[rta], buf[rta + 1] := length % 0x100, length / 0x100 % 0x100;
    }

    /** Collects what the callback sees; `rtattr_assign` never stops the walk. The walk leaves the message if its
        remaining length, which is unsigned, goes below zero; then the list is what was seen up to there. */
    method RtattrParse(offset: nat) returns (l: seq<Attr>, inside: bool)
      requires len <= buf.Length
      ensures inside <==> Align(offset) <= len && StaysInside(buf[..], Align(offset), len - Align(offset))
      ensures l == if Align(offset) <= len then Attrs(buf[..], Align(offset), len - Align(offset)) else []
    {
      hide Attrs, Align, StaysInside, Le16;
      l := [];
      if Align(offset) > len {
        return [], false;
      }
      var b := buf[..];
      var pos, rtlen := Align(offset), len - Align(offset);
      ghost var want, stays := Attrs(b, pos, rtlen), StaysInside(b, pos, rtlen);
      while RtaOk(b, pos, rtlen)
        invariant 0 <= rtlen && pos + rtlen == len
        invariant want == l + Attrs(b, pos, rtlen) && stays == StaysInside(b, pos, rtlen)
        decreases rtlen
      {
        var n := Align(Le16(b, pos));
        l := l + [Attr(Le16(b, pos + 2), b[pos + RTA_HDR..pos + Le16(b, pos)])];
        if n > rtlen {
          Beyond(b, pos, rtlen);
          return l, false;
        }
        Over(b, pos, rtlen, n);
        pos, rtlen := pos + n, rtlen - n;
      }
      Stop(b, pos, rtlen);
      inside := true;
    }
  }
}
