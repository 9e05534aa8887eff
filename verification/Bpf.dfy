/** The socket filters of src/sockd.c and the C validators that they stand in for.

A filter is constant data for the kernel's packet-filter machine; `Exec` is that
machine for the instructions that occur. Arithmetic is 32-bit and loads are big-endian;
a load outside the packet rejects it.
 */
module Bpf {
  import opened Wire
  import opened Bits

  datatype Insn =
    | LdB(k: U32)                            // BPF_LD + BPF_B + BPF_ABS
    | LdH(k: U32)                            // BPF_LD + BPF_H + BPF_ABS
    | LdW(k: U32)                            // BPF_LD + BPF_W + BPF_ABS
    | LdHInd(k: U32)                         // BPF_LD + BPF_H + BPF_IND
    | LdWInd(k: U32)                         // BPF_LD + BPF_W + BPF_IND
    | LdxMsh(k: U32)                         // BPF_LDX + BPF_B + BPF_MSH
    | JeqK(k: U32, jt: nat, jf: nat)         // BPF_JMP + BPF_JEQ + BPF_K
    | JeqX(jt: nat, jf: nat)                 // BPF_JMP + BPF_JEQ + BPF_X
    | JsetK(k: U32, jt: nat, jf: nat)        // BPF_JMP + BPF_JSET + BPF_K
    | SubK(k: U32)                           // BPF_ALU + BPF_SUB + BPF_K
    | Tax                                    // BPF_MISC + BPF_TAX
    | St0                                    // BPF_ST, M[0]
    | LdMem0                                 // BPF_LD + BPF_MEM, M[0]
    | RetK(k: U32)                           // BPF_RET + BPF_K
    | RetA                                   // BPF_RET + BPF_A

  datatype Machine = Machine(pc: nat, a: U32, x: U32, m0: U32)

  datatype Next = Go(m: Machine) | Ret(v: U32)

  /** The big-endian number in n bytes of the packet, if it has them. */
  function Load(pkt: Bytes, at: nat, n: nat): (v: Option<U32>)
    requires n == 1 || n == 2 || n == 4
  {
    if at + n > |pkt| then None
    else if n == 1 then Some(pkt[at])
    else if n == 2 then Some(FromBe16(pkt[at..at + 2]))
    else Some(FromBe32(pkt[at..at + 4]))
  }

  function LoadInto(m: Machine, v: Option<U32>): Next {
    if v.None? then Ret(0) else Go(m.(pc := m.pc + 1, a := v.value))
  }

  function Jump(m: Machine, c: bool, jt: nat, jf: nat): Next {
    Go(m.(pc := m.pc + 1 + if c then jt else jf))
  }

  function Step(i: Insn, m: Machine, pkt: Bytes): (n: Next)
    ensures n.Go? ==> n.m.pc > m.pc
  {
    var next := m.(pc := m.pc + 1);
    match i
    case LdB(k) => LoadInto(m, Load(pkt, k, 1))
    case LdH(k) => LoadInto(m, Load(pkt, k, 2))
    case LdW(k) => LoadInto(m, Load(pkt, k, 4))
    case LdHInd(k) => LoadInto(m, Load(pkt, m.x + k, 2))
    case LdWInd(k) => LoadInto(m, Load(pkt, m.x + k, 4))
    case LdxMsh(k) =>
      var v := Load(pkt, k, 1);
      if v.None? then Ret(0) else Go(next.(x := And(v.value, 15) * 4 % 0x1_0000_0000))
    case JeqK(k, jt, jf) => Jump(m, m.a == k, jt, jf)
    case JeqX(jt, jf) => Jump(m, m.a == m.x, jt, jf)
    case JsetK(k, jt, jf) => Jump(m, And(m.a, k) != 0, jt, jf)
    case SubK(k) => Go(next.(a := (m.a as int - k) % 0x1_0000_0000))
    case Tax => Go(next.(x := m.a))
    case St0 => Go(next.(m0 := m.a))
    case LdMem0 => Go(next.(a := m.m0))
    case RetK(k) => Ret(k)
    case RetA => Ret(m.a)
  }

  /** The number of bytes of `pkt` that the program lets through from machine state `m`. */
  function Exec(prog: seq<Insn>, m: Machine, pkt: Bytes): (v: U32)
    decreases |prog| - m.pc
  {
    if m.pc >= |prog| then 0
    else
      match Step(prog[m.pc], m, pkt)
      case Ret(v) => v
      case Go(m') => Exec(prog, m', pkt)
  }

  function Filter(prog: seq<Insn>, pkt: Bytes): (v: U32) {
    Exec(prog, Machine(0, 0, 0, 0), pkt)
  }

  const IPPROTO_UDP: Byte := 17
  const DHCP_SERVER_PORT: U16 := 67
  const DHCP_CLIENT_PORT: U16 := 68
  const ETH_P_IP: U16 := 0x0800
  const ETH_P_ARP: U16 := 0x0806
  const ARPHRD_ETHER: U16 := 1

  function SfDhcp(): (prog: seq<Insn>) {
    [
    LdB(0), JeqK(0x45, 1, 0), RetK(0),
    LdB(9), JeqK(17, 1, 0), RetK(0),
    LdH(6), JsetK(0x3fff, 0, 1), RetK(0),
    LdxMsh(0),
    LdWInd(0), JeqK(67 * 0x1_0000 + 68, 1, 0), RetK(0),
    LdHInd(4), Tax,
    LdH(2), St0,
    SubK(20), JeqX(1, 0), RetK(0),
    LdMem0, RetA]
  }

  function SfArp(): (prog: seq<Insn>) {
    [
    LdW(12), JeqK(0x0806 * 0x1_0000 + 1, 1, 0), RetK(0),
    LdW(16), JeqK(0x0800 * 0x1_0000 + 0x0604, 1, 0), RetK(0),
    RetK(0x7fff_ffff)]
  }

  // ---------------------------------------------------------------------------
  // The C validators, over the bytes of the headers
  // ---------------------------------------------------------------------------

  function Half(pkt: Bytes, at: nat): (v: U16)
    requires at + 2 <= |pkt|
  {
    FromBe16(pkt[at..at + 2])
  }

  /** `get_raw_packet_validate_bpf` */
  predicate ValidateRawPacket(pkt: Bytes)
    requires |pkt| >= 28
  {
    && pkt[0] / 16 == 4
    && pkt[0] % 16 == 20 / 4
    && pkt[9] == IPPROTO_UDP
    && Half(pkt, 22) == DHCP_CLIENT_PORT
    && LengthsAgree(pkt)
  }

  /** The UDP length is the IP length less the IP header, as a `size_t`. */
  predicate LengthsAgree(pkt: Bytes)
    requires |pkt| >= 28
  {
    Half(pkt, 24) == (Half(pkt, 2) as int - 20) % 0x1_0000_0000_0000_0000
  }

  predicate FromServerPort(pkt: Bytes)
    requires |pkt| >= 28
  {
    Half(pkt, 20) == DHCP_SERVER_PORT
  }

  /** More-fragments flag and fragment offset are all zero. */
  predicate NotFragment(pkt: Bytes)
    requires |pkt| >= 28
  {
    Half(pkt, 6) % 0x4000 == 0
  }

  /** `arp_validate_bpf` */
  predicate ValidateArp(pkt: Bytes)
    requires |pkt| >= 20
  {
    && Half(pkt, 12) == ETH_P_ARP
    && Half(pkt, 14) == ARPHRD_ETHER
    && Half(pkt, 16) == ETH_P_IP
    && pkt[18] == 6
    && pkt[19] == 4
  }

  // ---------------------------------------------------------------------------
  // Refinement
  // ---------------------------------------------------------------------------

  lemma WordSplits(pkt: Bytes, at: nat)
    requires at + 4 <= |pkt|
    ensures Load(pkt, at, 4) == Some((Half(pkt, at) as int) * 0x1_0000 + Half(pkt, at + 2))
  {
    assert pkt[at..at + 4] == pkt[at..at + 2] + pkt[at + 2..at + 4];
  }

  lemma HalfLoads(pkt: Bytes, at: nat)
    requires at + 2 <= |pkt|
    ensures Load(pkt, at, 2) == Some(Half(pkt, at))
  {
  }

  lemma ByteLoads(pkt: Bytes, at: nat)
    requires at < |pkt|
    ensures Load(pkt, at, 1) == Some(pkt[at])
  {
  }

  lemma Low14(v: nat)
    ensures And(v, 0x3fff) == v % 0x4000
  {
    assert Pow2(8) == 0x100;
    assert Pow2(14) == 0x4000;
    AndOnes(v, 14);
  }

  lemma Low4(v: nat)
    ensures And(v, 15) == v % 16
  {
    assert Pow2(4) == 16;
    AndOnes(v, 4);
  }

  /** Running the program at `m` is one step. */
  lemma Steps(prog: seq<Insn>, m: Machine, pkt: Bytes)
    requires m.pc < |prog|
    ensures var n := Step(prog[m.pc], m, pkt);
            Exec(prog, m, pkt) == if n.Ret? then n.v else Exec(prog, n.m, pkt)
  {
  }

  /** The block that most tests consist of: load v, go on if it is k, otherwise reject. */
  lemma TestBlock(prog: seq<Insn>, m: Machine, pkt: Bytes, v: U32, k: U32)
    requires m.pc + 2 < |prog|
    requires Step(prog[m.pc], m, pkt) == Go(m.(pc := m.pc + 1, a := v))
    requires prog[m.pc + 1] == JeqK(k, 1, 0) && prog[m.pc + 2] == RetK(0)
    ensures Exec(prog, m, pkt) == if v == k then Exec(prog, m.(pc := m.pc + 3, a := v), pkt) else 0
  {
    var m1 := m.(pc := m.pc + 1, a := v);
    Steps(prog, m, pkt);
    Steps(prog, m1, pkt);
    Steps(prog, m1.(pc := m.pc + 2), pkt);
  }

  lemma IpInsns()
    ensures var p := SfDhcp();
            && |p| == 22
            && p[0] == LdB(0) && p[1] == JeqK(0x45, 1, 0) && p[2] == RetK(0)
            && p[3] == LdB(9) && p[4] == JeqK(17, 1, 0) && p[5] == RetK(0)
  {
  }

  lemma FragmentInsns()
    ensures var p := SfDhcp();
            |p| == 22 && p[6] == LdH(6) && p[7] == JsetK(0x3fff, 0, 1) && p[8] == RetK(0)
  {
  }

  lemma PortInsns()
    ensures var p := SfDhcp();
            && |p| == 22 && p[9] == LdxMsh(0)
            && p[10] == LdWInd(0) && p[11] == JeqK(67 * 0x1_0000 + 68, 1, 0) && p[12] == RetK(0)
  {
  }

  lemma LengthInsns()
    ensures var p := SfDhcp();
            && |p| == 22
            && p[13] == LdHInd(4) && p[14] == Tax && p[15] == LdH(2) && p[16] == St0 && p[17] == SubK(20)
  {
  }

  lemma VerdictInsns()
    ensures var p := SfDhcp();
            |p| == 22 && p[18] == JeqX(1, 0) && p[19] == RetK(0) && p[20] == LdMem0 && p[21] == RetA
  {
  }

  lemma ArpInsns()
    ensures var p := SfArp();
            && |p| == 7
            && p[0] == LdW(12) && p[1] == JeqK(0x0806 * 0x1_0000 + 1, 1, 0) && p[2] == RetK(0)
            && p[3] == LdW(16) && p[4] == JeqK(0x0800 * 0x1_0000 + 0x0604, 1, 0) && p[5] == RetK(0)
            && p[6] == RetK(0x7fff_ffff)
  {
  }

  /** The test for fragments. */
  lemma DhcpFragment(pkt: Bytes, m: Machine)
    requires |pkt| >= 28 && m.pc == 6
    ensures Exec(SfDhcp(), m, pkt) ==
            if NotFragment(pkt) then Exec(SfDhcp(), m.(pc := 9, a := Half(pkt, 6)), pkt) else 0
  {
    hide SfDhcp;
    var p := SfDhcp();
    FragmentInsns();
    hide Exec, And, Half, Load;
    HalfLoads(pkt, 6);
    Low14(Half(pkt, 6));
    var m1 := m.(pc := 7, a := Half(pkt, 6));
    Steps(p, m, pkt);
    Steps(p, m1, pkt);
    Steps(p, m1.(pc := 8), pkt);
  }

  /** The tests on the IP header: version, header length, protocol and fragmentation. */
  lemma DhcpIpHeader(pkt: Bytes)
    requires |pkt| >= 28
    ensures Filter(SfDhcp(), pkt) ==
            if pkt[0] == 0x45 && pkt[9] == IPPROTO_UDP && NotFragment(pkt)
            then Exec(SfDhcp(), Machine(9, Half(pkt, 6), 0, 0), pkt) else 0
  {
    hide SfDhcp;
    var p := SfDhcp();
    IpInsns();
    hide Exec;
    TestBlock(p, Machine(0, 0, 0, 0), pkt, pkt[0], 0x45);
    TestBlock(p, Machine(3, pkt[0], 0, 0), pkt, pkt[9], 17);
    DhcpFragment(pkt, Machine(6, pkt[9], 0, 0));
  }

  /** The tests on the UDP ports, once X points behind a 20-byte IP header. */
  lemma DhcpPorts(pkt: Bytes, a: U32)
    requires |pkt| >= 28 && pkt[0] == 0x45
    ensures Exec(SfDhcp(), Machine(9, a, 0, 0), pkt) ==
            if FromServerPort(pkt) && Half(pkt, 22) == DHCP_CLIENT_PORT
            then Exec(SfDhcp(), Machine(13, 67 * 0x1_0000 + 68, 20, 0), pkt) else 0
  {
    hide SfDhcp;
    var p := SfDhcp();
    PortInsns();
    hide Exec, And, Half, Load;
    WordSplits(pkt, 20);
    ByteLoads(pkt, 0);
    Low4(pkt[0]);
    Steps(p, Machine(9, a, 0, 0), pkt);
    TestBlock(p, Machine(10, a, 20, 0), pkt, (Half(pkt, 20) as int) * 0x1_0000 + Half(pkt, 22), 67 * 0x1_0000 + 68);
  }

  /** The verdict on A, the difference of the lengths, and X, the UDP length. */
  lemma DhcpVerdict(pkt: Bytes, a: U32, x: U32, tot: U32)
    ensures Exec(SfDhcp(), Machine(18, a, x, tot), pkt) == if a == x then tot else 0
  {
    hide SfDhcp, Exec;
    var p := SfDhcp();
    VerdictInsns();
    Steps(p, Machine(18, a, x, tot), pkt);
    Steps(p, Machine(19, a, x, tot), pkt);
    Steps(p, Machine(20, a, x, tot), pkt);
    Steps(p, Machine(21, tot, x, tot), pkt);
  }

  /** The comparison of the two length fields. */
  lemma DhcpLengths(pkt: Bytes, a: U32)
    requires |pkt| >= 28
    ensures Exec(SfDhcp(), Machine(13, a, 20, 0), pkt) == if LengthsAgree(pkt) then Half(pkt, 2) else 0
  {
    var udp, tot := Half(pkt, 24), Half(pkt, 2);
    var d := (tot as int - 20) % 0x1_0000_0000;
    assert LengthsAgree(pkt) == (udp == d);
    hide SfDhcp, Exec, Load, LengthsAgree, Half;
    var p := SfDhcp();
    LengthInsns();
    HalfLoads(pkt, 24);
    HalfLoads(pkt, 2);
    Steps(p, Machine(13, a, 20, 0), pkt);
    Steps(p, Machine(14, udp, 20, 0), pkt);
    Steps(p, Machine(15, udp, udp, 0), pkt);
    Steps(p, Machine(16, tot, udp, 0), pkt);
    Steps(p, Machine(17, tot, udp, tot), pkt);
    DhcpVerdict(pkt, d, udp, tot);
  }

  /** On every packet that is long enough for both headers, the filter accepts exactly what
      the C validator accepts, restricted to unfragmented packets from the server port; and it
      passes exactly the bytes of the IP datagram. */
  lemma DhcpFilterRefinesValidator(pkt: Bytes)
    requires |pkt| >= 28
    ensures Filter(SfDhcp(), pkt) != 0 <==> ValidateRawPacket(pkt) && FromServerPort(pkt) && NotFragment(pkt)
    ensures Filter(SfDhcp(), pkt) != 0 ==> Filter(SfDhcp(), pkt) == Half(pkt, 2)
  {
    assert pkt[0] == 0x45 <==> pkt[0] / 16 == 4 && pkt[0] % 16 == 5;
    assert LengthsAgree(pkt) ==> Half(pkt, 2) != 0;
    hide Exec, Filter, Half, SfDhcp, LengthsAgree, NotFragment, FromServerPort;
    DhcpIpHeader(pkt);
    if pkt[0] == 0x45 {
      DhcpPorts(pkt, Half(pkt, 6));
      DhcpLengths(pkt, 67 * 0x1_0000 + 68);
    }
  }

  /** The basic ARP filter accepts exactly what `arp_validate_bpf` accepts, and passes
      everything of it. */
  lemma ArpFilterRefinesValidator(pkt: Bytes)
    requires |pkt| >= 20
    ensures Filter(SfArp(), pkt) == if ValidateArp(pkt) then 0x7fff_ffff else 0
  {
    hide SfArp;
    var p := SfArp();
    ArpInsns();
    WordSplits(pkt, 12);
    WordSplits(pkt, 16);
    hide Exec;
    var v := (Half(pkt, 12) as int) * 0x1_0000 + Half(pkt, 14);
    var w := (Half(pkt, 16) as int) * 0x1_0000 + Half(pkt, 18);
    TestBlock(p, Machine(0, 0, 0, 0), pkt, v, 0x0806 * 0x1_0000 + 1);
    TestBlock(p, Machine(3, v, 0, 0), pkt, w, 0x0800 * 0x1_0000 + 0x0604);
    Steps(p, Machine(6, w, 0, 0), pkt);
  }
}
