/** The DHCP option codec (src/options.c).

Three scanners walk an option field in place, and the adders write behind the END
marker. `Parse` is the reference meaning of a field: its list of options up to END.
Every scanner is proved against that list, and the adders against `Rendered`, the
byte image of a list.
 */
module Options {
  import opened Wire

  datatype Tlv = Tlv(code: Byte, data: Bytes) {
    /** A list element that the encoding can carry. */
    predicate Valid() {
      code != PADDING && code != END && |data| <= 255
    }
  }

  /** The two bits of the overload value that are ever tested. */
  datatype Overload = Overload(file: bool, sname: bool) {
    function Or(b: Byte): Overload {
      Overload(file || b % 2 == 1, sname || b / 2 % 2 == 1)
    }
  }

  // ---------------------------------------------------------------------------
  // Reference meaning
  // ---------------------------------------------------------------------------

  /** The complete options of `buf` from offset `i` up to END or the end of the field. Padding is 0 and END is
      255 (sections 3.1 and 3.2 of RFC 2132). */
  function Parse(buf: Bytes, i: nat): (l: seq<Tlv>)
    decreases |buf| - i
  {
    if i >= |buf| then []
    else if buf[i] == 0 then Parse(buf, i + 1)
    else if buf[i] == 255 || i + 2 >= |buf| then []
    else
      var next := i + 2 + buf[i + 1];
      if next > |buf| then [] else [Tlv(buf[i], buf[i + 2..next])] + Parse(buf, next)
  }

  lemma ParseUnfolds(buf: Bytes, i: nat)
    ensures i >= |buf| || buf[i] == END || (buf[i] != PADDING && i + 2 >= |buf|) ==> Parse(buf, i) == []
    ensures i < |buf| && buf[i] == PADDING ==> Parse(buf, i) == Parse(buf, i + 1)
    ensures i + 2 < |buf| && buf[i] != PADDING && buf[i] != END ==>
              var next := i + 2 + buf[i + 1];
              Parse(buf, i) == if next > |buf| then [] else [Tlv(buf[i], buf[i + 2..next])] + Parse(buf, next)
  {
  }

  /** All values of `code`, concatenated (section 7 of RFC 3396). */
  function Values(l: seq<Tlv>, code: Byte): (v: Bytes) {
    if l == [] then []
    else (if l[0].code == code then l[0].data else []) + Values(l[1..], code)
  }

  /** What is left of `Values` in a buffer of `room` bytes: the scan of a field stops
      at the first value that does not fit. */
  function Gather(l: seq<Tlv>, code: Byte, room: nat): (v: Bytes)
    ensures |v| <= room
  {
    if l == [] then []
    else if l[0].code != code then Gather(l[1..], code, room)
    else if room < |l[0].data| then []
    else l[0].data + Gather(l[1..], code, room - |l[0].data|)
  }

  /** The overload bits that the one-byte OVERLOAD options of a list add to `ol`. */
  function OverloadOf(l: seq<Tlv>, ol: Overload): (r: Overload) {
    if l == [] then ol
    else
      OverloadOf(l[1..], if l[0].code == OVERLOAD && |l[0].data| == 1 then ol.Or(l[0].data[0]) else ol)
  }

  /** Which of `file` and `sname` hold further options. */
  function OverloadValue(p: Packet): (r: Overload) {
    var ol := OverloadOf(Parse(p.options, 0), Overload(false, false));
    if ol.file && ol.sname then ol
    else if ol.file then OverloadOf(Parse(p.file, 0), ol)
    else if ol.sname then OverloadOf(Parse(p.sname, 0), ol)
    else ol
  }

  /** Every option that a packet carries: `options`, then `file`, then `sname`. */
  function AllOptions(p: Packet): (l: seq<Tlv>) {
    var ol := OverloadValue(p);
    Parse(p.options, 0)
    + (if ol.file then Parse(p.file, 0) else [])
    + (if ol.sname then Parse(p.sname, 0) else [])
  }

  /** The bytes that `get_dhcp_opt` leaves in a buffer of `room` bytes. */
  function Opt(p: Packet, code: Byte, room: nat): (v: Bytes)
    ensures |v| <= room
  {
    var ol := OverloadValue(p);
    var a := Gather(Parse(p.options, 0), code, room);
    var b := if ol.file then Gather(Parse(p.file, 0), code, room - |a|) else [];
    var c := if ol.sname then Gather(Parse(p.sname, 0), code, room - |a| - |b|) else [];
    a + b + c
  }

  /** A list holds a one-byte OVERLOAD option whose bit `bit` is set: 1 is the bit of `file`, and 2 that of
      `sname` (section 9.3 of RFC 2132). */
  ghost predicate Overloads(l: seq<Tlv>, bit: nat)
    requires bit == 1 || bit == 2
  {
    exists t :: t in l && t.code == 52 && |t.data| == 1 && t.data[0] / bit % 2 == 1
  }

  lemma {:induction false} OverloadOfIff(l: seq<Tlv>, ol: Overload)
    ensures OverloadOf(l, ol).file <==> ol.file || Overloads(l, 1)
    ensures OverloadOf(l, ol).sname <==> ol.sname || Overloads(l, 2)
  {
    if l != [] {
      var or := if l[0].code == OVERLOAD && |l[0].data| == 1 then ol.Or(l[0].data[0]) else ol;
      OverloadOfIff(l[1..], or);
      OverloadsStep(l, 1);
      OverloadsStep(l, 2);
    }
  }

  lemma OverloadsStep(l: seq<Tlv>, bit: nat)
    requires l != [] && (bit == 1 || bit == 2)
    ensures Overloads(l, bit) <==>
            (l[0].code == 52 && |l[0].data| == 1 && l[0].data[0] / bit % 2 == 1) || Overloads(l[1..], bit)
  {
    assert l == [l[0]] + l[1..];
  }

  /** Exactly which fields are selected: those that OVERLOAD options in `options` name, and the other one if
      `options` names only one and that one names the other. */
  lemma SelectedIff(p: Packet)
    ensures var o, f, n := Parse(p.options, 0), Parse(p.file, 0), Parse(p.sname, 0);
            && (OverloadValue(p).file <==> Overloads(o, 1) || (Overloads(o, 2) && Overloads(n, 1)))
            && (OverloadValue(p).sname <==> Overloads(o, 2) || (Overloads(o, 1) && Overloads(f, 2)))
  {
    hide Parse, Overloads, OverloadOf;
    OverloadOfIff(Parse(p.options, 0), Overload(false, false));
    OverloadOfIff(Parse(p.file, 0), OverloadOf(Parse(p.options, 0), Overload(false, false)));
    OverloadOfIff(Parse(p.sname, 0), OverloadOf(Parse(p.options, 0), Overload(false, false)));
  }

  /** The meaning of the three values of RFC 2132, in a packet whose fields have no other OVERLOAD option. */
  lemma OverloadMeans(p: Packet, v: Byte)
    requires Tlv(52, [v]) in Parse(p.options, 0) && 1 <= v <= 3
    requires forall t :: t in Parse(p.options, 0) && t.code == 52 ==> t.data == [v]
    requires forall t :: t in Parse(p.file, 0) + Parse(p.sname, 0) ==> t.code != 52
    ensures AllOptions(p) == Parse(p.options, 0) + (if v == 1 then Parse(p.file, 0)
                                                    else if v == 2 then Parse(p.sname, 0)
                                                    else Parse(p.file, 0) + Parse(p.sname, 0))
  {
    hide Parse, OverloadValue;
    SelectedIff(p);
    var t := Tlv(52, [v]);
    assert t.data[0] == v;
    assert Overloads(Parse(p.options, 0), 1) <==> v == 1 || v == 3;
    assert Overloads(Parse(p.options, 0), 2) <==> v == 2 || v == 3;
    assert !Overloads(Parse(p.file, 0), 2) && !Overloads(Parse(p.sname, 0), 1);
  }

  lemma {:induction false} ValuesConcat(a: seq<Tlv>, b: seq<Tlv>, code: Byte)
    ensures Values(a + b, code) == Values(a, code) + Values(b, code)
  {
    if a == [] {
      assert a + b == b;
    } else {
      assert (a + b)[1..] == a[1..] + b;
      ValuesConcat(a[1..], b, code);
    }
  }

  lemma {:induction false} GatherExact(l: seq<Tlv>, code: Byte, room: nat)
    ensures |Values(l, code)| <= room ==> Gather(l, code, room) == Values(l, code)
  {
    if l != [] {
      if l[0].code != code {
        GatherExact(l[1..], code, room);
      } else if |l[0].data| <= room {
        GatherExact(l[1..], code, room - |l[0].data|);
      }
    }
  }

  /** `get_dhcp_opt` returns the concatenation of all values of a code, in field order,
      exactly when that concatenation fits the caller's buffer. */
  lemma OptIsConcatenationIffFits(p: Packet, code: Byte, room: nat)
    ensures Opt(p, code, room) == Values(AllOptions(p), code) <==> |Values(AllOptions(p), code)| <= room
  {
    var ol := OverloadValue(p);
    var a := Parse(p.options, 0);
    var b := if ol.file then Parse(p.file, 0) else [];
    var c := if ol.sname then Parse(p.sname, 0) else [];
    ValuesConcat(a + b, c, code);
    ValuesConcat(a, b, code);
    GatherExact(a, code, room);
    if |Values(a, code)| <= room {
      var room' := room - |Values(a, code)|;
      GatherExact(b, code, room');
      if |Values(b, code)| <= room' {
        GatherExact(c, code, room' - |Values(b, code)|);
      }
    }
  }

  // ---------------------------------------------------------------------------
  // The END marker
  // ---------------------------------------------------------------------------

  /** The offset of END as the walk from `i` finds it, or -1. */
  function EndIdx(buf: Bytes, i: nat): (e: int)
    ensures e == -1 || (i <= e < |buf| && buf[e] == END)
    decreases |buf| - i
  {
    if i >= |buf| then -1
    else if buf[i] == END then i
    else if buf[i] == PADDING then EndIdx(buf, i + 1)
    else if i + 1 >= |buf| then -1
    else EndIdx(buf, i + 2 + buf[i + 1])
  }

  lemma SameSlice(a: Bytes, b: Bytes, e: nat, lo: nat, hi: nat)
    requires e <= |a| && e <= |b| && a[..e] == b[..e] && lo <= hi <= e
    ensures lo < e ==> a[lo] == b[lo]
    ensures a[lo..hi] == b[lo..hi]
  {
    assert forall k :: 0 <= k < e ==> a[k] == a[..e][k] && b[k] == b[..e][k];
  }

  /** One step of both walks over a complete option at `i`. */
  lemma StepOver(buf: Bytes, i: nat)
    requires i + 2 < |buf| && buf[i] != PADDING && buf[i] != END && i + 2 + buf[i + 1] <= |buf|
    ensures var next := i + 2 + buf[i + 1];
            && Parse(buf, i) == [Tlv(buf[i], buf[i + 2..next])] + Parse(buf, next)
            && EndIdx(buf, i) == EndIdx(buf, next)
  {
  }

  /** The value scanners and the END scanner step over the same boundaries: what lies
      behind END has no influence on either. */
  lemma {:induction false} SamePrefixSameParse(a: Bytes, b: Bytes, e: nat, i: nat)
    requires |a| == |b| && EndIdx(a, i) == e && a[..e + 1] == b[..e + 1]
    ensures EndIdx(b, i) == e
    ensures Parse(b, i) == Parse(a, i)
    decreases |a| - i
  {
    SameSlice(a, b, e + 1, i, i);
    if a[i] == PADDING {
      SamePrefixSameParse(a, b, e, i + 1);
    } else if a[i] != END {
      SamePrefixOver(a, b, e, i);
    }
  }

  lemma {:induction false} SamePrefixOver(a: Bytes, b: Bytes, e: nat, i: nat)
    requires |a| == |b| && EndIdx(a, i) == e && a[..e + 1] == b[..e + 1]
    requires i < e && a[i] == b[i] && a[i] != PADDING && a[i] != END
    ensures EndIdx(b, i) == e
    ensures Parse(b, i) == Parse(a, i)
    decreases |a| - i, 0
  {
    hide Parse;
    assert i + 2 + a[i + 1] <= e;
    hide EndIdx;
    var next := i + 2 + a[i + 1];
    assert EndIdx(a, next) == e && Parse(a, i) == [Tlv(a[i], a[i + 2..next])] + Parse(a, next) by {
      StepOver(a, i);
    }
    assert EndIdx(b, i) == EndIdx(b, next) && Parse(b, i) == [Tlv(a[i], a[i + 2..next])] + Parse(b, next) by {
      SameSlice(a, b, e + 1, i + 1, next);
      SameSlice(a, b, e + 1, i + 2, next);
      StepOver(b, i);
    }
    SamePrefixSameParse(a, b, e, next);
  }

  /** Two packets that agree on `file`, `sname` and `options` through END give the same
      value for every code. */
  lemma EqualThroughEndEqualOptions(p: Packet, q: Packet, code: Byte, room: nat)
    requires p.file == q.file && p.sname == q.sname
    requires EndIdx(p.options, 0) >= 0
    requires p.options[..EndIdx(p.options, 0) + 1] == q.options[..EndIdx(p.options, 0) + 1]
    ensures Opt(q, code, room) == Opt(p, code, room)
    ensures EndIdx(q.options, 0) == EndIdx(p.options, 0)
  {
    SamePrefixSameParse(p.options, q.options, EndIdx(p.options, 0), 0);
    hide Parse, Gather, OverloadOf;
  }

  /** Sending a message only up to END preserves its meaning, whatever bytes the receiver's
      buffer held behind the part that arrived. */
  lemma ShorteningPreservesMeaning(p: Packet, rest: Bytes, code: Byte, room: nat)
    requires EndIdx(p.options, 0) >= 0
    requires EndIdx(p.options, 0) + 1 + |rest| == OPTIONS_SIZE
    ensures var q := p.(options := p.options[..EndIdx(p.options, 0) + 1] + rest);
            Opt(q, code, room) == Opt(p, code, room) && EndIdx(q.options, 0) == EndIdx(p.options, 0)
  {
    var e := EndIdx(p.options, 0);
    var q: Packet := p.(options := p.options[..e + 1] + rest);
    assert q.options[..e + 1] == p.options[..e + 1];
    EqualThroughEndEqualOptions(p, q, code, room);
  }

  // ---------------------------------------------------------------------------
  // Adding an option
  // ---------------------------------------------------------------------------

  /** Whether `buf` has a marker and room for `t` and a new marker behind it. */
  predicate HasRoom(buf: Bytes, t: Tlv) {
    EndIdx(buf, 0) >= 0 && EndIdx(buf, 0) + 2 + |t.data| < |buf|
  }

  /** `buf` with `t` written over the marker and the marker behind it. */
  function Added(buf: Bytes, t: Tlv): (r: Bytes)
    requires |t.data| <= 255
    ensures |r| == |buf|
  {
    if !HasRoom(buf, t) then buf
    else
      var e := EndIdx(buf, 0);
      buf[..e] + [t.code, |t.data|] + t.data + [END] + buf[e + 3 + |t.data|..]
  }

  /** `r` is `buf` with `t` written at the marker `e`. */
  ghost predicate WrittenAt(buf: Bytes, t: Tlv, e: nat, r: Bytes) {
    && |r| == |buf| && e + 2 + |t.data| < |buf|
    && r[..e] == buf[..e]
    && r[e] == t.code && r[e + 1] == |t.data|
    && r[e + 2..e + 2 + |t.data|] == t.data
    && r[e + 2 + |t.data|] == END
  }

  lemma {:induction false} AddedWalk(buf: Bytes, t: Tlv, e: nat, r: Bytes, i: nat)
    requires t.Valid() && WrittenAt(buf, t, e, r) && EndIdx(buf, i) == e
    ensures EndIdx(r, i) == e + 2 + |t.data|
    ensures Parse(r, i) == Parse(buf, i) + [t]
    decreases |buf| - i
  {
    if i == e {
      StepOver(r, i);
      assert Parse(r, e + 2 + |t.data|) == [] && Parse(buf, i) == [];
    } else {
      SameSlice(r, buf, e, i, e);
      if buf[i] == PADDING {
        AddedWalk(buf, t, e, r, i + 1);
      } else {
        AddedWalkOver(buf, t, e, r, i);
      }
    }
  }

  lemma {:induction false} AddedWalkOver(buf: Bytes, t: Tlv, e: nat, r: Bytes, i: nat)
    requires t.Valid() && WrittenAt(buf, t, e, r) && EndIdx(buf, i) == e && i < e
    requires r[i] == buf[i] && buf[i] != PADDING && buf[i] != END
    ensures EndIdx(r, i) == e + 2 + |t.data|
    ensures Parse(r, i) == Parse(buf, i) + [t]
    decreases |buf| - i, 0
  {
    hide Parse;
    assert i + 2 + buf[i + 1] <= e;
    hide EndIdx;
    var next := i + 2 + buf[i + 1];
    var x := Tlv(buf[i], buf[i + 2..next]);
    assert Parse(buf, i) == [x] + Parse(buf, next) && EndIdx(buf, next) == e by {
      StepOver(buf, i);
    }
    assert Parse(r, i) == [x] + Parse(r, next) && EndIdx(r, i) == EndIdx(r, next) by {
      SameSlice(r, buf, e, i + 1, next);
      SameSlice(r, buf, e, i + 2, next);
      StepOver(r, i);
    }
    AddedWalk(buf, t, e, r, next);
    assert [x] + (Parse(buf, next) + [t]) == ([x] + Parse(buf, next)) + [t];
  }

  /** An add either leaves the field alone, or appends exactly one option to its list and
      moves END by exactly the option's length. */
  lemma AddAppendsOneOption(buf: Bytes, t: Tlv)
    requires t.Valid()
    ensures !HasRoom(buf, t) ==> Added(buf, t) == buf
    ensures HasRoom(buf, t) ==> Parse(Added(buf, t), 0) == Parse(buf, 0) + [t]
    ensures HasRoom(buf, t) ==> EndIdx(Added(buf, t), 0) == EndIdx(buf, 0) + 2 + |t.data|
  {
    if HasRoom(buf, t) {
      assert WrittenAt(buf, t, EndIdx(buf, 0), Added(buf, t));
      AddedWalk(buf, t, EndIdx(buf, 0), Added(buf, t), 0);
    }
  }

  lemma {:induction false} OverloadOfAppend(l: seq<Tlv>, t: Tlv, ol: Overload)
    requires t.code != OVERLOAD
    ensures OverloadOf(l + [t], ol) == OverloadOf(l, ol)
  {
    if l == [] {
      assert OverloadOf([t][1..], ol) == ol;
    } else {
      assert (l + [t])[1..] == l[1..] + [t];
      OverloadOfAppend(l[1..], t, if l[0].code == OVERLOAD && |l[0].data| == 1 then ol.Or(l[0].data[0]) else ol);
    }
  }

  /** The options in the fields that overloading selects. */
  function Overflow(p: Packet): (l: seq<Tlv>) {
    var ol := OverloadValue(p);
    (if ol.file then Parse(p.file, 0) else []) + (if ol.sname then Parse(p.sname, 0) else [])
  }

  /** The packet behind an add. */
  function WithOption(p: Packet, t: Tlv): (q: Packet)
    requires |t.data| <= 255
  {
    p.(options := Added(p.options, t))
  }

  /** No option but OVERLOAD changes which fields are selected. */
  lemma AddKeepsOverload(p: Packet, t: Tlv)
    requires t.Valid() && t.code != OVERLOAD && HasRoom(p.options, t)
    ensures Parse(WithOption(p, t).options, 0) == Parse(p.options, 0) + [t]
    ensures OverloadValue(WithOption(p, t)) == OverloadValue(p) && Overflow(WithOption(p, t)) == Overflow(p)
  {
    hide Parse, OverloadOf;
    AddAppendsOneOption(p.options, t);
    OverloadOfAppend(Parse(p.options, 0), t, Overload(false, false));
  }

  lemma AllOptionsSplit(p: Packet)
    ensures AllOptions(p) == Parse(p.options, 0) + Overflow(p)
  {
    hide Parse, OverloadValue;
  }

  lemma {:induction false} GatherSkips(l: seq<Tlv>, t: Tlv, code: Byte, room: nat)
    requires t.code != code
    ensures Gather(l + [t], code, room) == Gather(l, code, room)
  {
    if l == [] {
      assert Gather([t][1..], code, room) == [];
    } else {
      assert (l + [t])[1..] == l[1..] + [t];
      GatherSkips(l[1..], t, code, if l[0].code == code && room >= |l[0].data| then room - |l[0].data| else room);
    }
  }

  /** An add changes no other code, whatever the room. */
  lemma AddLeavesOthersAlone(p: Packet, t: Tlv, code: Byte, room: nat)
    requires t.Valid() && t.code != OVERLOAD && t.code != code && HasRoom(p.options, t)
    ensures Opt(WithOption(p, t), code, room) == Opt(p, code, room)
  {
    hide Parse, Gather, OverloadValue, Added, Overflow;
    AddKeepsOverload(p, t);
    GatherSkips(Parse(p.options, 0), t, code, room);
  }

  /** Seen through `get_dhcp_opt`, an add with room puts its data behind the values of its code in
      `options`, before those in overloaded fields, and changes no other code. */
  lemma AddSeenThroughGet(p: Packet, t: Tlv, code: Byte, room: nat)
    requires t.Valid() && t.code != OVERLOAD && HasRoom(p.options, t)
    requires code == t.code ==> |Values(AllOptions(p), code)| + |t.data| <= room
    ensures code != t.code ==> Opt(WithOption(p, t), code, room) == Opt(p, code, room)
    ensures code == t.code ==>
              var own := Values(Parse(p.options, 0), code);
              && own <= Opt(p, code, room)
              && Opt(WithOption(p, t), code, room) == own + t.data + Opt(p, code, room)[|own|..]
  {
    hide Parse, OverloadValue, Added, Overflow, Opt, AllOptions;
    if code != t.code {
      AddLeavesOthersAlone(p, t, code, room);
    } else {
      var q, l, rest := WithOption(p, t), Parse(p.options, 0), Values(Overflow(p), code);
      AddKeepsOverload(p, t);
      AllOptionsSplit(p);
      AllOptionsSplit(q);
      ValuesConcat(l, Overflow(p), code);
      ValuesConcat(l, [t], code);
      ValuesConcat(l + [t], Overflow(p), code);
      assert Values([t], code) == t.data + Values([t][1..], code);
      OptIsConcatenationIffFits(p, code, room);
      OptIsConcatenationIffFits(q, code, room);
      assert Opt(p, code, room)[|Values(l, code)|..] == rest;
    }
  }

  /** Without overloaded fields, as in every message that the client builds, it appends its data. */
  lemma AddAppendsToGet(p: Packet, t: Tlv, room: nat)
    requires t.Valid() && t.code != OVERLOAD && HasRoom(p.options, t)
    requires OverloadValue(p) == Overload(false, false)
    requires |Values(AllOptions(p), t.code)| + |t.data| <= room
    ensures Opt(WithOption(p, t), t.code, room) == Opt(p, t.code, room) + t.data
  {
    hide Parse, Gather, Values;
    AddSeenThroughGet(p, t, t.code, room);
    OptIsConcatenationIffFits(p, t.code, room);
    assert AllOptions(p) == Parse(p.options, 0);
  }

  // ---------------------------------------------------------------------------
  // The builder refines a list
  // ---------------------------------------------------------------------------

  ghost predicate AllValid(l: seq<Tlv>) {
    forall t :: t in l ==> t.Valid()
  }

  function Encode(l: seq<Tlv>): (b: Bytes)
    requires AllValid(l)
  {
    if l == [] then []
    else
      var t := l[|l| - 1];
      assert t in l;
      Encode(l[..|l| - 1]) + [t.code, |t.data|] + t.data
  }

  /** The byte image of a list: its options, END, and zeros up to the field's size. */
  function Rendered(l: seq<Tlv>): (b: Bytes)
    requires AllValid(l) && |Encode(l)| < OPTIONS_SIZE
    ensures |b| == OPTIONS_SIZE
  {
    Encode(l) + [END] + Zeros(OPTIONS_SIZE - 1 - |Encode(l)|)
  }

  /** The list that a sequence of adds builds: an option without room is left out. */
  function Kept(l: seq<Tlv>): (k: seq<Tlv>)
    requires AllValid(l)
    ensures AllValid(k) && |Encode(k)| < OPTIONS_SIZE
    ensures forall t :: t in k ==> t in l
  {
    if l == [] then []
    else
      var k := Kept(l[..|l| - 1]);
      var t := l[|l| - 1];
      var k' := k + [t];
      assert k'[..|k|] == k && t in l;
      if |Encode(k)| + 2 + |t.data| < OPTIONS_SIZE then k' else k
  }

  function AddAll(buf: Bytes, l: seq<Tlv>): (r: Bytes)
    requires AllValid(l)
  {
    if l == [] then buf
    else
      assert l[|l| - 1] in l;
      Added(AddAll(buf, l[..|l| - 1]), l[|l| - 1])
  }

  lemma {:induction false} RenderedReads(l: seq<Tlv>)
    requires AllValid(l) && |Encode(l)| < OPTIONS_SIZE
    ensures EndIdx(Rendered(l), 0) == |Encode(l)|
    ensures Parse(Rendered(l), 0) == l
  {
    if l != [] {
      hide Parse, EndIdx, Rendered, Added;
      var k, t := l[..|l| - 1], l[|l| - 1];
      assert t in l;
      RenderedReads(k);
      RenderedAdd(k, t);
      AddAppendsOneOption(Rendered(k), t);
      assert k + [t] == l;
    }
  }

  lemma RenderedAdd(k: seq<Tlv>, t: Tlv)
    requires AllValid(k) && t.Valid() && |Encode(k)| + 2 + |t.data| < OPTIONS_SIZE
    requires EndIdx(Rendered(k), 0) == |Encode(k)|
    ensures AllValid(k + [t]) && |Encode(k + [t])| == |Encode(k)| + 2 + |t.data|
    ensures Added(Rendered(k), t) == Rendered(k + [t])
  {
    assert (k + [t])[..|k|] == k;
    var e := |Encode(k)|;
    assert Rendered(k)[..e] == Encode(k);
    assert Rendered(k)[e + 3 + |t.data|..] == Zeros(OPTIONS_SIZE - 1 - (e + 2 + |t.data|));
  }

  /** From an empty field, any sequence of adds leaves exactly the image of the list of
      those that had room, and both scanners read that list back. */
  lemma {:induction false} BuilderRefinesList(l: seq<Tlv>)
    requires AllValid(l)
    ensures AddAll(Rendered([]), l) == Rendered(Kept(l))
    ensures Parse(AddAll(Rendered([]), l), 0) == Kept(l)
    ensures EndIdx(AddAll(Rendered([]), l), 0) == |Encode(Kept(l))|
  {
    RenderedReads(Kept(l));
    if l != [] {
      var t := l[|l| - 1];
      assert t in l;
      var k := Kept(l[..|l| - 1]);
      BuilderRefinesList(l[..|l| - 1]);
      RenderedReads(k);
      if |Encode(k)| + 2 + |t.data| < OPTIONS_SIZE {
        RenderedAdd(k, t);
      }
    }
  }

  // ---------------------------------------------------------------------------
  // The scanners and adders
  // ---------------------------------------------------------------------------

  method DoOverloadValue(buf: Bytes, overload: Overload) returns (r: Overload)
    ensures r == OverloadOf(Parse(buf, 0), overload)
  {
    r := overload;
    var i := 0;
    while i < |buf|
      invariant 0 <= i
      invariant OverloadOf(Parse(buf, 0), overload) == OverloadOf(Parse(buf, i), r)
    {
      if buf[i] == PADDING {
        i := i + 1;
        continue;
      }
      if buf[i] == END || i >= |buf| - 2 {
        break;
      }
      if buf[i] == OVERLOAD && buf[i + 1] == 1 {
        r := r.Or(buf[i + 2]);
        i := i + 3;
        continue;
      }
      i := i + buf[i + 1] + 2;
    }
  }

  method GetOverloadValue(p: Packet) returns (r: Overload)
    ensures r == OverloadValue(p)
  {
    r := DoOverloadValue(p.options, Overload(false, false));
    if r.file && r.sname {
      return;
    }
    if r.file {
      r := DoOverloadValue(p.file, r);
    } else if r.sname {
      r := DoOverloadValue(p.sname, r);
    }
  }

  method DoGetDhcpOpt(sbuf: Bytes, code: Byte, dbuf: array<Byte>, didx: nat) returns (d: nat)
    requires didx <= dbuf.Length
    modifies dbuf
    ensures d == didx + |Gather(Parse(sbuf, 0), code, dbuf.Length - didx)|
    ensures dbuf[..] == old(dbuf[..])[..didx] + Gather(Parse(sbuf, 0), code, dbuf.Length - didx) + old(dbuf[..])[d..]
  {
    hide Parse, Gather;
    d := didx;
    ghost var was := dbuf[..];
    ghost var want := Gather(Parse(sbuf, 0), code, dbuf.Length - didx);
    ghost var got: Bytes := [];
    var i := 0;
    while i < |sbuf|
      invariant 0 <= i && d == didx + |got| <= dbuf.Length
      invariant want == got + Gather(Parse(sbuf, i), code, dbuf.Length - d)
      invariant dbuf[..] == was[..didx] + got + was[d..]
    {
      GatherSteps(sbuf, i, code, dbuf.Length - d);
      if sbuf[i] == PADDING {
        i := i + 1;
        continue;
      }
      if sbuf[i] == END || i >= |sbuf| - 2 {
        break;
      }
      var soptsiz := sbuf[i + 1];
      if sbuf[i] == code {
        if dbuf.Length < soptsiz + d || |sbuf| < soptsiz + i + 2 {
          break;
        }
        ConcatAssociates(got, sbuf[i + 2..i + 2 + soptsiz],
                         Gather(Parse(sbuf, i + 2 + soptsiz), code, dbuf.Length - d - soptsiz));
        got := CopyBehind(dbuf, d, sbuf[i + 2..i + 2 + soptsiz], was, didx, got);
        d := d + soptsiz;
      }
      i := i + soptsiz + 2;
    }
    GatherSteps(sbuf, i, code, dbuf.Length - d);
  }

  lemma ConcatAssociates(a: Bytes, b: Bytes, c: Bytes)
    ensures a + (b + c) == (a + b) + c
  {
  }

  /** What one iteration of the value scanner contributes. */
  lemma GatherSteps(buf: Bytes, i: nat, code: Byte, room: nat)
    ensures i >= |buf| || buf[i] == END || (buf[i] != PADDING && i + 2 >= |buf|) ==>
              Gather(Parse(buf, i), code, room) == []
    ensures i < |buf| && buf[i] == PADDING ==>
              Gather(Parse(buf, i), code, room) == Gather(Parse(buf, i + 1), code, room)
    ensures i + 2 < |buf| && buf[i] != PADDING && buf[i] != END ==>
              var next := i + 2 + buf[i + 1];
              Gather(Parse(buf, i), code, room) ==
              if buf[i] != code then Gather(Parse(buf, next), code, room)
              else if room < buf[i + 1] || |buf| < next then []
              else buf[i + 2..next] + Gather(Parse(buf, next), code, room - buf[i + 1])
  {
    hide Parse;
    ParseUnfolds(buf, i);
    if i + 2 < |buf| && buf[i] != PADDING && buf[i] != END {
      var next := i + 2 + buf[i + 1];
      if next > |buf| {
        ParseUnfolds(buf, next);
      } else {
        assert Parse(buf, i)[1..] == Parse(buf, next);
      }
    }
  }

  /** Copies `value` behind the bytes `got` gathered so far. */
  method CopyBehind(dbuf: array<Byte>, d: nat, value: Bytes, ghost was: Bytes, ghost at: nat, ghost got: Bytes)
    returns (ghost got': Bytes)
    requires d == at + |got| && d + |value| <= dbuf.Length == |was|
    requires dbuf[..] == was[..at] + got + was[d..]
    modifies dbuf
    ensures got' == got + value
    ensures dbuf[..] == was[..at] + got' + was[d + |value|..]
  {
    Copy(dbuf, d, value);
    got' := got + value;
    assert old(dbuf[..])[..d] == was[..at] + got;
    assert old(dbuf[..])[d + |value|..] == was[d + |value|..];
  }

  method GetDhcpOpt(p: Packet, code: Byte, dbuf: array<Byte>) returns (didx: nat)
    modifies dbuf
    ensures didx == |Opt(p, code, dbuf.Length)|
    ensures dbuf[..] == Opt(p, code, dbuf.Length) + old(dbuf[didx..])
  {
    hide Parse, Gather, OverloadValue;
    var ol := GetOverloadValue(p);
    ghost var was := dbuf[..];
    didx := DoGetDhcpOpt(p.options, code, dbuf, 0);
    ghost var a := Gather(Parse(p.options, 0), code, dbuf.Length);
    if ol.file {
      didx := GetSection(p.file, code, dbuf, didx, was, a);
    }
    ghost var b := if ol.file then Gather(Parse(p.file, 0), code, dbuf.Length - |a|) else [];
    assert dbuf[..] == (a + b) + was[didx..];
    if ol.sname {
      didx := GetSection(p.sname, code, dbuf, didx, was, a + b);
    }
  }

  /** One further field, behind the bytes `got` that the earlier ones left. */
  method GetSection(sbuf: Bytes, code: Byte, dbuf: array<Byte>, didx: nat, ghost was: Bytes, ghost got: Bytes)
    returns (d: nat)
    requires didx == |got| <= dbuf.Length == |was| && dbuf[..] == got + was[didx..]
    modifies dbuf
    ensures d == didx + |Gather(Parse(sbuf, 0), code, dbuf.Length - didx)|
    ensures dbuf[..] == got + Gather(Parse(sbuf, 0), code, dbuf.Length - didx) + was[d..]
  {
    d := DoGetDhcpOpt(sbuf, code, dbuf, didx);
    assert old(dbuf[..])[..didx] == got;
    assert old(dbuf[..])[d..] == was[d..];
  }

  method GetEndOptionIdx(options: array<Byte>) returns (e: int)
    ensures e == EndIdx(options[..], 0)
  {
    var i := 0;
    while i < options.Length
      invariant 0 <= i && EndIdx(options[..], i) == EndIdx(options[..], 0)
    {
      if options[i] == END {
        return i;
      }
      if options[i] != PADDING {
        if i + 1 >= options.Length {
          break;
        }
        i := i + options[i + 1] + 1;
      }
      i := i + 1;
    }
    return -1;
  }

  /** Writes an option at the marker; the caller has checked the room. */
  method Write(options: array<Byte>, end: nat, code: Byte, data: Bytes)
    requires |data| <= 255 && HasRoom(options[..], Tlv(code, data)) && end == EndIdx(options[..], 0)
    modifies options
    ensures options[..] == Added(old(options[..]), Tlv(code, data))
  {
    ghost var was := options[..];
    assert Added(was, Tlv(code, data)) == was[..end] + [code, |data|] + data + [END] + was[end + 3 + |data|..];
    assert end + 2 + |data| < |was|;
    hide *;
    options[end] := code;
    options[end + 1] := |data|;
    ghost var head: Bytes := was[end := code][end + 1 := |data|];
    assert options[..] == head;
    Copy(options, end + 2, data);
    options[end + 2 + |data|] := END;
    WriteImage(was, end, code, data);
  }

  lemma WriteImage(was: Bytes, end: nat, code: Byte, data: Bytes)
    requires |data| <= 255 && end + 2 + |data| < |was|
    ensures var head: Bytes := was[end := code][end + 1 := |data|];
            var body: Bytes := head[..end + 2] + data + head[end + 2 + |data|..];
            body[end + 2 + |data| := END] == was[..end] + [code, |data|] + data + [END] + was[end + 3 + |data|..]
  {
    var head: Bytes := was[end := code][end + 1 := |data|];
    assert head[..end + 2] == was[..end] + [code, |data|];
    assert head[end + 2 + |data|..] == was[end + 2 + |data|..];
  }

  method AddOptionString(options: array<Byte>, code: Byte, str: Bytes) returns (len: nat)
    modifies options
    ensures var ok := |str| <= 255 && code != PADDING && code != END && HasRoom(old(options[..]), Tlv(code, str));
            len == (if ok then 2 + |str| else 0) &&
            options[..] == (if ok then Added(old(options[..]), Tlv(code, str)) else old(options[..]))
  {
    if |str| > 255 || code == PADDING || code == END {
      return 0;
    }
    var end := GetEndOptionIdx(options);
    if end < 0 || end + 2 + |str| >= options.Length {
      return 0;
    }
    Write(options, end, code, str);
    return 2 + |str|;
  }

  /** The fixed-size adders `add_u8_option`, `add_u16_option` and `add_u32_option`, which
      differ in the number of network-order bytes only. */
  method AddFixedOption(options: array<Byte>, code: Byte, data: Bytes) returns (len: nat)
    requires |data| == 1 || |data| == 2 || |data| == 4
    modifies options
    ensures options[..] == Added(old(options[..]), Tlv(code, data))
    ensures len == if HasRoom(old(options[..]), Tlv(code, data)) then 2 + |data| else 0
  {
    var end := GetEndOptionIdx(options);
    if end < 0 || end + 2 + |data| >= options.Length {
      return 0;
    }
    Write(options, end, code, data);
    return 2 + |data|;
  }

  // ---------------------------------------------------------------------------
  // Typed readers
  // ---------------------------------------------------------------------------

  /** The value of an option that must be four bytes long. */
  function Opt32(p: Packet, code: Byte): (r: Option<U32>) {
    var v := Opt(p, code, MAX_DOPT_SIZE);
    if |v| == 4 then Some(FromBe32(v)) else None
  }

  function OptionServerId(p: Packet): (r: Option<U32>) {
    Opt32(p, SERVER_ID)
  }

  function OptionLeaseTime(p: Packet): (r: U32) {
    var v := Opt32(p, LEASET);
    if v.Some? then v.value else 0
  }

  function OptionRouter(p: Packet): (r: U32) {
    var v := Opt32(p, ROUTER);
    if v.Some? then v.value else 0
  }

  function OptionMsgType(p: Packet): (r: Byte) {
    var v := Opt(p, MSGTYPE, MAX_DOPT_SIZE);
    if |v| == 1 then v[0] else 0
  }

  /** What the typed readers find, in the numbers of RFC 2132: the router, the lease time, the message type and
      the server id. A value of another length counts as none. */
  lemma TypedReaders(p: Packet)
    ensures var v := Values(AllOptions(p), 3); OptionRouter(p) == if |v| == 4 then FromBe32(v) else 0
    ensures var v := Values(AllOptions(p), 51); OptionLeaseTime(p) == if |v| == 4 then FromBe32(v) else 0
    ensures var v := Values(AllOptions(p), 53); OptionMsgType(p) == if |v| == 1 then v[0] else 0
    ensures var v := Values(AllOptions(p), 54); OptionServerId(p) == if |v| == 4 then Some(FromBe32(v)) else None
  {
    hide Opt, AllOptions, Values, FromBe32;
    AlwaysFits(p, ROUTER);
    AlwaysFits(p, LEASET);
    AlwaysFits(p, MSGTYPE);
    AlwaysFits(p, SERVER_ID);
  }

  lemma {:induction false} ValuesWithin(buf: Bytes, i: nat, code: Byte)
    requires i <= |buf|
    ensures |Values(Parse(buf, i), code)| <= |buf| - i
    decreases |buf| - i
  {
    if i < |buf| && buf[i] == PADDING {
      ValuesWithin(buf, i + 1, code);
    } else if i + 2 < |buf| && buf[i] != END && i + 2 + buf[i + 1] <= |buf| {
      var next := i + 2 + buf[i + 1];
      ValuesWithin(buf, next, code);
      assert Parse(buf, i)[1..] == Parse(buf, next);
    }
  }

  /** The buffers of the client are large enough: in every packet the value of an option is the concatenation
      of all its parts. */
  lemma AlwaysFits(p: Packet, code: Byte)
    ensures Opt(p, code, MAX_DOPT_SIZE) == Values(AllOptions(p), code)
  {
    hide Parse, Values, Opt, OverloadValue;
    var ol := OverloadValue(p);
    var f, n := if ol.file then Parse(p.file, 0) else [], if ol.sname then Parse(p.sname, 0) else [];
    ValuesWithin(p.options, 0, code);
    ValuesWithin(p.file, 0, code);
    ValuesWithin(p.sname, 0, code);
    ValuesConcat(Parse(p.options, 0) + f, n, code);
    ValuesConcat(Parse(p.options, 0), f, code);
    NoValues(code);
    OptIsConcatenationIffFits(p, code, MAX_DOPT_SIZE);
  }

  lemma NoValues(code: Byte)
    ensures Values([], code) == []
  {
  }
}
