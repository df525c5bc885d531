/** Machine words, PM4 packets, and the packet header encoding. */
module Pm4 {
  import opened Wrappers

  type u32 = w: int | 0 <= w < 0x1_0000_0000
  type u64 = a: int | 0 <= a < 0x1_0000_0000_0000_0000

  function Lower32(a: u64): u32 { a % 0x1_0000_0000 }
  function Upper32(a: u64): u32 { a / 0x1_0000_0000 }
  function Join64(lo: u32, hi: u32): u64 { hi * 0x1_0000_0000 + lo }

  /** A packet: header kind, opcode or register number, and payload words. */
  datatype Packet =
    | T0(id: nat, payload: seq<u32>)
    | T3(id: nat, payload: seq<u32>)
    | T4(id: nat, payload: seq<u32>)
    | T7(id: nat, payload: seq<u32>)

  datatype Header = Header(kind: nat, id: nat, count: nat)

  /** The packets whose fields fit the header bit fields. */
  predicate Fits(p: Packet) {
    match p
    case T0(reg, ws) => reg < 0x8000 && 1 <= |ws| <= 0x4000
    case T3(op, ws) => op < 0x80 && 1 <= |ws| <= 0x4000
    case T4(reg, ws) => reg < 0x4_0000 && |ws| < 0x80
    case T7(op, ws) => op < 0x80 && |ws| < 0x4000
  }

  predicate AllFit(ps: seq<Packet>) {
    forall p :: p in ps ==> Fits(p)
  }

  lemma FitAppend(ps: seq<Packet>, qs: seq<Packet>)
    requires AllFit(ps) && AllFit(qs)
    ensures AllFit(ps + qs)
  {
  }

  /** The bit that makes the number of set bits, itself included, odd. */
  function OddParity(v: nat): (p: nat)
    ensures p <= 1
  {
    if v == 0 then 1 else (v % 2 + OddParity(v / 2)) % 2
  }

  function Type0(reg: nat, count: nat): u32
    requires reg < 0x8000 && 1 <= count <= 0x4000
  {
    (count - 1) * 0x1_0000 + reg
  }

  function Type3(op: nat, count: nat): u32
    requires op < 0x80 && 1 <= count <= 0x4000
  {
    0xC000_0000 + (count - 1) * 0x1_0000 + op * 0x100
  }

  function Type4(reg: nat, count: nat): u32
    requires reg < 0x4_0000 && count < 0x80
  {
    0x4000_0000 + OddParity(reg) * 0x800_0000 + reg * 0x100 + OddParity(count) * 0x80 + count
  }

  function Type7(op: nat, count: nat): u32
    requires op < 0x80 && count < 0x4000
  {
    0x7000_0000 + OddParity(op) * 0x80_0000 + op * 0x1_0000 + OddParity(count) * 0x8000 + count
  }

  function HeaderWord(p: Packet): u32 {
    if !Fits(p) then 0
    else
      match p
      case T0(reg, ws) => Type0(reg, |ws|)
      case T3(op, ws) => Type3(op, |ws|)
      case T4(reg, ws) => Type4(reg, |ws|)
      case T7(op, ws) => Type7(op, |ws|)
  }

  /** Reads a header word: kind, field values, and the parity and reserved-bit checks. */
  function Decode(w: u32): Option<Header> {
    if w / 0x4000_0000 == 0 then
      Some(Header(0, w % 0x8000, (w / 0x1_0000) % 0x4000 + 1))
    else if w / 0x4000_0000 == 3 then
      if (w / 2) % 0x80 == 0 && (w / 0x8000) % 2 == 0
      then Some(Header(3, (w / 0x100) % 0x100, (w / 0x1_0000) % 0x4000 + 1))
      else None
    else if w / 0x1000_0000 == 4 then
      if && (w / 0x800_0000) % 2 == OddParity((w / 0x100) % 0x8_0000)
         && (w / 0x80) % 2 == OddParity(w % 0x80)
      then Some(Header(4, (w / 0x100) % 0x8_0000, w % 0x80))
      else None
    else if w / 0x1000_0000 == 7 then
      if && (w / 0x100_0000) % 0x10 == 0
         && (w / 0x80_0000) % 2 == OddParity((w / 0x1_0000) % 0x80)
         && (w / 0x8000) % 2 == OddParity(w % 0x4000)
      then Some(Header(7, (w / 0x1_0000) % 0x80, w % 0x4000))
      else None
    else None
  }

  function Kind(p: Packet): nat {
    match p case T0(_, _) => 0 case T3(_, _) => 3 case T4(_, _) => 4 case T7(_, _) => 7
  }

  function Make(h: Header, ws: seq<u32>): Packet {
    if h.kind == 0 then T0(h.id, ws)
    else if h.kind == 3 then T3(h.id, ws)
    else if h.kind == 4 then T4(h.id, ws)
    else T7(h.id, ws)
  }

  lemma Type4Fields(w: int, pr: int, reg: int, pc: int, n: int)
    requires 0 <= pr <= 1 && 0 <= pc <= 1 && 0 <= reg < 0x4_0000 && 0 <= n < 0x80
    requires w == 0x4000_0000 + pr * 0x800_0000 + reg * 0x100 + pc * 0x80 + n
    ensures w / 0x4000_0000 == 1 && w / 0x1000_0000 == 4 && (w / 0x800_0000) % 2 == pr
    ensures (w / 0x100) % 0x8_0000 == reg && (w / 0x80) % 2 == pc && w % 0x80 == n
  {
    assert w / 0x80 == 0x80_0000 + pr * 0x10_0000 + reg * 2 + pc;
    assert w / 0x100 == 0x40_0000 + pr * 0x8_0000 + reg;
    assert w / 0x800_0000 == 8 + pr;
  }

  lemma Type7Fields(w: int, po: int, op: int, pc: int, n: int)
    requires 0 <= po <= 1 && 0 <= pc <= 1 && 0 <= op < 0x80 && 0 <= n < 0x4000
    requires w == 0x7000_0000 + po * 0x80_0000 + op * 0x1_0000 + pc * 0x8000 + n
    ensures w / 0x4000_0000 == 1 && w / 0x1000_0000 == 7 && (w / 0x100_0000) % 0x10 == 0
    ensures (w / 0x80_0000) % 2 == po && (w / 0x1_0000) % 0x80 == op
    ensures (w / 0x8000) % 2 == pc && w % 0x4000 == n
  {
    assert w / 0x8000 == 0xE000 + po * 0x100 + op * 2 + pc;
    assert w / 0x1_0000 == 0x7000 + po * 0x80 + op;
    assert w / 0x80_0000 == 0xE0 + po;
    assert w / 0x100_0000 == 0x70;
  }

  lemma Type3Fields(w: int, op: int, n: int)
    requires 0 <= op < 0x80 && 1 <= n <= 0x4000
    requires w == 0xC000_0000 + (n - 1) * 0x1_0000 + op * 0x100
    ensures w / 0x4000_0000 == 3 && (w / 2) % 0x80 == 0 && (w / 0x8000) % 2 == 0
    ensures (w / 0x100) % 0x100 == op && (w / 0x1_0000) % 0x4000 + 1 == n
  {
    assert w / 2 == 0x6000_0000 + (n - 1) * 0x8000 + op * 0x80;
    assert w / 0x100 == 0xC0_0000 + (n - 1) * 0x100 + op;
    assert w / 0x8000 == 0x1_8000 + (n - 1) * 2;
    assert w / 0x1_0000 == 0xC000 + (n - 1);
  }

  lemma Type0Fields(w: int, reg: int, n: int)
    requires 0 <= reg < 0x8000 && 1 <= n <= 0x4000
    requires w == (n - 1) * 0x1_0000 + reg
    ensures w / 0x4000_0000 == 0 && w % 0x8000 == reg && (w / 0x1_0000) % 0x4000 + 1 == n
  {
    assert w / 0x1_0000 == n - 1;
    assert w / 0x8000 == (n - 1) * 2;
    assert w / 0x4000_0000 == 0;
  }

  /** Every header built from fields that fit is accepted and gives the fields back. */
  lemma HeaderRoundTrip(p: Packet)
    requires Fits(p)
    ensures Decode(HeaderWord(p)) == Some(Header(Kind(p), p.id, |p.payload|))
  {
    var w, n := HeaderWord(p), |p.payload|;
    match p
    case T0(reg, ws) => Type0Fields(w, reg, n);
    case T3(op, ws) => Type3Fields(w, op, n);
    case T4(reg, ws) => Type4Fields(w, OddParity(reg), reg, OddParity(n), n);
    case T7(op, ws) => Type7Fields(w, OddParity(op), op, OddParity(n), n);
  }

  function Words(p: Packet): seq<u32> {
    [HeaderWord(p)] + p.payload
  }

  function Encode(ps: seq<Packet>): seq<u32> {
    FlatMap(Words, ps)
  }

  lemma EncodeAppend(ps: seq<Packet>, qs: seq<Packet>)
    ensures Encode(ps + qs) == Encode(ps) + Encode(qs)
  {
    FlatMapAppend(Words, ps, qs);
  }

  lemma EncodeOne(p: Packet)
    ensures Encode([p]) == Words(p)
  {
    FlatMapOne(Words, p);
  }

  /** Splits a word stream into whole packets; None if a header is bad or a payload is cut short. */
  function Parse(ws: seq<u32>): Option<seq<Packet>> {
    if ws == [] then Some([])
    else
      match Decode(ws[0])
      case None => None
      case Some(h) =>
        if h.count >= |ws| then None
        else
          match Parse(ws[1 + h.count..])
          case None => None
          case Some(rest) => Some([Make(h, ws[1..1 + h.count])] + rest)
  }

  /** The parser inverts the encoder on every packet list that fits. */
  lemma {:induction false} ParseEncode(ps: seq<Packet>)
    requires AllFit(ps)
    ensures Parse(Encode(ps)) == Some(ps)
  {
    hide HeaderWord, Decode, Fits;
    if ps != [] {
      var p, ws := ps[0], Encode(ps);
      HeaderRoundTrip(p);
      ParseEncode(ps[1..]);
      assert ws[0] == HeaderWord(p);
      assert ws[1..1 + |p.payload|] == p.payload;
      assert ws[1 + |p.payload|..] == Encode(ps[1..]);
      assert [p] + ps[1..] == ps;
    }
  }

  /** The first packet of a stream that starts well, and the words after it. */
  lemma ParseCons(ws: seq<u32>, h: Header, rest: seq<u32>)
    requires ws != [] && Decode(ws[0]) == Some(h) && h.count < |ws| && rest == ws[1 + h.count..]
    ensures Parse(ws) == match Parse(rest)
                         case None => None
                         case Some(ps) => Some([Make(h, ws[1..1 + h.count])] + ps)
  {
    hide Decode, Make;
  }

  lemma ParseFirst(ws: seq<u32>)
    requires ws != [] && Parse(ws).Some?
    ensures Decode(ws[0]).Some? && Decode(ws[0]).value.count < |ws|
    ensures Parse(ws[1 + Decode(ws[0]).value.count..]).Some?
  {
  }

  /** Streams that are whole stay whole when joined. */
  lemma {:induction false} ParseAppend(a: seq<u32>, b: seq<u32>)
    requires Parse(a).Some? && Parse(b).Some?
    ensures Parse(a + b) == Some(Parse(a).value + Parse(b).value)
  {
    if a == [] {
      assert a + b == b && [] + Parse(b).value == Parse(b).value;
    } else {
      hide Decode, Parse;
      ParseFirst(a);
      var h := Decode(a[0]).value;
      var n := 1 + h.count;
      AppendSlices(a, b, n);
      ParseCons(a, h, a[n..]);
      ParseCons(a + b, h, a[n..] + b);
      ParseAppend(a[n..], b);
      ConsAppend(Make(h, a[1..n]), Parse(a[n..]).value, Parse(b).value);
    }
  }

  lemma SplitJoin64(a: u64)
    ensures Join64(Lower32(a), Upper32(a)) == a
  {
  }

  /** What the command processor does as it works through a stream. */
  datatype Event =
    | IndirectBuffer(addr: u64, size: u32)
    | MemWrite(addr: u64, values: seq<u32>)
    | RegWrite(reg: nat, value: u32)
    | RegModify(reg: nat, kept: u32, added: u32)     // the register's bits in `kept`, and those in `added`
    | RegWait(reg: nat, value: u32, mask: u32)
    | RegToMem(source: u32, addr: u64)
    | TableUpdate(ttbr0: u64, id: u32)
    | Stamp(addr: u64, value: u32, interrupts: bool) // once all before it is done and the caches are written back
    | ReportRptr(addr: u64)
    | PreemptGlobal(level: u32)
    | PreemptLocal(level: u32)
    | Yield(addr: u64, value: u32, interrupts: bool)
    | Mark(id: u32)                                  // a NOP around one word, for who reads the ring later
    | Mode(op: nat, on: bool)                        // protected or secure mode, from here on
    | Act(op: nat, words: seq<u32>)                  // anything else but a longer NOP: waits, flushes, settings

  const CP_NOP := 0x10
  const CP_WAIT_MEM_WRITES := 0x12
  const CP_WAIT_FOR_ME := 0x13
  const CP_YIELD_ENABLE := 0x1C
  const CP_REG_RMW := 0x21
  const CP_WAIT_FOR_IDLE := 0x26
  const CP_SET_CONSTANT := 0x2d
  const CP_INVALIDATE_STATE := 0x3b
  const CP_MEM_WRITE := 0x3d
  const CP_REG_TO_MEM := 0x3e
  const CP_INDIRECT_BUFFER_PFE := 0x3F
  const CP_EVENT_WRITE := 0x46
  const CP_WAIT_REG_EQ := 0x52
  const CP_SMMU_TABLE_UPDATE := 0x53
  const CP_SET_PROTECTED_MODE := 0x5f
  const CP_WHERE_AM_I := 0x62
  const CP_SET_SECURE_MODE := 0x66
  const CP_PREEMPT_ENABLE_GLOBAL := 0x69
  const CP_PREEMPT_ENABLE_LOCAL := 0x6A
  const CP_CONTEXT_SWITCH_YIELD := 0x6B
  const CP_SET_RENDER_MODE := 0x6C
  const CP_REG_WR_NO_CTXT := 0x78

  const CACHE_FLUSH_TS: u32 := 4

  function RegWrites(reg: nat, ws: seq<u32>): seq<Event>
    decreases ws
  {
    if ws == [] then [] else [RegWrite(reg, ws[0])] + RegWrites(reg + 1, ws[1..])
  }

  function Marks(ws: seq<u32>): seq<Event> { if |ws| == 1 then [Mark(ws[0])] else [] }

  function Events7(op: nat, ws: seq<u32>): seq<Event> {
    if op == CP_INDIRECT_BUFFER_PFE && |ws| == 3 then [IndirectBuffer(Join64(ws[0], ws[1]), ws[2])]
    else if op == CP_MEM_WRITE && |ws| >= 3 then [MemWrite(Join64(ws[0], ws[1]), ws[2..])]
    else if op == CP_REG_TO_MEM && |ws| == 3 then [RegToMem(ws[0], Join64(ws[1], ws[2]))]
    else if op == CP_SMMU_TABLE_UPDATE && |ws| == 3 then [TableUpdate(Join64(ws[0], ws[1]), ws[2])]
    else if op == CP_EVENT_WRITE && |ws| == 4 && ws[0] % 0x8000_0000 == CACHE_FLUSH_TS then
      [Stamp(Join64(ws[1], ws[2]), ws[3], ws[0] >= 0x8000_0000)]
    else if op == CP_WHERE_AM_I && |ws| == 2 then [ReportRptr(Join64(ws[0], ws[1]))]
    else if op == CP_PREEMPT_ENABLE_GLOBAL && |ws| == 1 then [PreemptGlobal(ws[0])]
    else if op == CP_PREEMPT_ENABLE_LOCAL && |ws| == 1 then [PreemptLocal(ws[0])]
    else if op == CP_CONTEXT_SWITCH_YIELD && |ws| == 4 then [Yield(Join64(ws[0], ws[1]), ws[2], ws[3] % 2 == 1)]
    else if (op == CP_SET_PROTECTED_MODE || op == CP_SET_SECURE_MODE) && |ws| == 1 then [Mode(op, ws[0] != 0)]
    else if op == CP_NOP then Marks(ws)
    else [Act(op, ws)]
  }

  function Events3(op: nat, ws: seq<u32>): seq<Event> {
    if op == CP_INDIRECT_BUFFER_PFE && |ws| == 2 then [IndirectBuffer(ws[0], ws[1])]
    else if op == CP_MEM_WRITE && |ws| >= 2 then [MemWrite(ws[0], ws[1..])]
    else if op == CP_EVENT_WRITE && |ws| == 3 && ws[0] % 0x8000_0000 == CACHE_FLUSH_TS then
      [Stamp(ws[1], ws[2], ws[0] >= 0x8000_0000)]
    else if op == CP_REG_WR_NO_CTXT && |ws| >= 1 then RegWrites(ws[0], ws[1..])
    else if op == CP_REG_RMW && |ws| == 3 then [RegModify(ws[0], ws[1], ws[2])]
    else if op == CP_WAIT_REG_EQ && |ws| == 4 then [RegWait(ws[0], ws[1], ws[2])]
    else if op == CP_SET_PROTECTED_MODE && |ws| == 1 then [Mode(op, ws[0] != 0)]
    else if op == CP_NOP then Marks(ws)
    else [Act(op, ws)]
  }

  function EventsOf(p: Packet): seq<Event> {
    match p
    case T0(reg, ws) => RegWrites(reg, ws)
    case T4(reg, ws) => RegWrites(reg, ws)
    case T3(op, ws) => Events3(op, ws)
    case T7(op, ws) => Events7(op, ws)
  }

  /** The packet sets a mode (protected, secure) rather than doing something in it. */
  predicate SetsMode(p: Packet, op: nat) {
    (p.T3? || p.T7?) && p.id == op && |p.payload| == 1
  }

  /** The modes the packets leave behind, and everything done so far. */
  datatype Cp = Cp(prot: bool, secure: bool, trace: seq<Event>)

  function Step(cp: Cp, p: Packet): Cp {
    Cp(if SetsMode(p, CP_SET_PROTECTED_MODE) then p.payload[0] != 0 else cp.prot,
       if SetsMode(p, CP_SET_SECURE_MODE) then p.payload[0] != 0 else cp.secure,
       cp.trace + EventsOf(p))
  }

  function Exec(cp: Cp, ps: seq<Packet>): Cp {
    Fold(Step, cp, ps)
  }
}
