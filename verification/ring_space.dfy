/** Ring memory: space allocation, the read/write offsets, and packet output. */
module RingSpace {
  import opened Wrappers
  import opened Pm4

  const RB_DWORDS := 8192

  datatype Space = NoSpace | Space(start: nat, wptr: nat, wrapped: bool)

  function Alloc(wptr: nat, rptr: nat, dwords: nat): Space {
    if rptr <= wptr && wptr + dwords <= RB_DWORDS - 2 then
      Space(wptr, (wptr + dwords) % RB_DWORDS, false)
    else if rptr <= wptr && dwords < rptr then
      Space(0, dwords, true)
    else if wptr + dwords < rptr then
      Space(wptr, (wptr + dwords) % RB_DWORDS, false)
    else
      NoSpace
  }

  /** The dwords between the read and the write offset, going round the end of the ring. */
  predicate Unread(rptr: nat, wptr: nat, i: nat) {
    if rptr <= wptr then rptr <= i < wptr else rptr <= i < RB_DWORDS || i < wptr
  }

  /** Leaves the ring, or reaches the read offset (of a ring that is not empty at that place). */
  predicate Blocked(wptr: nat, rptr: nat, start: nat, dwords: nat) {
    || start + dwords > RB_DWORDS - 2
    || (start <= rptr <= start + dwords && !(start == wptr == rptr))
  }

  /** An allocation is one contiguous run of free dwords, the unread dwords grow by exactly that
      run (and by the tail the NOP covers), a non-empty ring never looks empty, and a refusal
      means that the run is blocked both at the write offset and at the start of the ring. */
  lemma AllocIsSafe(wptr: nat, rptr: nat, dwords: nat)
    requires rptr < RB_DWORDS && wptr <= RB_DWORDS - 2 && dwords > 0
    ensures match Alloc(wptr, rptr, dwords)
            case Space(start, end, wrapped) =>
              && end == start + dwords <= RB_DWORDS - 2 && end != rptr
              && (forall i: nat :: start <= i < end ==> !Unread(rptr, wptr, i))
              && (forall i: nat :: i < RB_DWORDS ==>
                    (Unread(rptr, end, i) <==>
                     Unread(rptr, wptr, i) || start <= i < end || (wrapped && wptr <= i)))
              && (wrapped ==> start == 0 && 1 <= RB_DWORDS - wptr - 1 < 0x4000)
            case NoSpace =>
              && Blocked(wptr, rptr, wptr, dwords)
              && (rptr <= wptr ==> Blocked(wptr, rptr, 0, dwords))
  {
  }

  /** Offsets taken round the ring agree exactly when the running totals do, as long as less than
      a ring's worth is outstanding; so "empty" can be judged on running totals. */
  lemma EmptyOnTotals(read: nat, written: nat)
    requires read <= written < read + RB_DWORDS
    ensures read % RB_DWORDS == written % RB_DWORDS <==> read == written
  {
    var d := written - read;
    assert written == read + d;
    if read % RB_DWORDS == written % RB_DWORDS {
      assert (written - read) % RB_DWORDS == 0;
    }
  }

  /** Where the read offset can have got to while the write offset stays. */
  predicate OnWay(rptr: nat, wptr: nat, later: nat) {
    later < RB_DWORDS && (if rptr <= wptr then rptr <= later <= wptr else rptr <= later || later <= wptr)
  }

  /** What an allocation reserved and the stream did not use can be had afterwards, right behind the stream
      and without going round, however far the hardware has read on in the meantime. */
  lemma RestIsFree(wptr: nat, rptr: nat, dwords: nat, used: nat, more: nat, later: nat)
    requires rptr < RB_DWORDS && wptr <= RB_DWORDS - 2 && OnWay(rptr, wptr, later)
    requires Alloc(wptr, rptr, dwords) != NoSpace && 0 < more && used + more <= dwords
    ensures var at := Alloc(wptr, rptr, dwords).start + used;
            Alloc(at, later, more) == Space(at, at + more, false)
  {
  }

  lemma RoundTotals(q: nat, r: nat)
    requires r < RB_DWORDS
    ensures (q * RB_DWORDS + r) / RB_DWORDS == q && (q * RB_DWORDS + r) % RB_DWORDS == r
  {
  }

  /** The same allocation on running totals: the write total grows by what is used, and by the tail when the
      ring is gone round, and stays less than a ring's worth ahead of the read total. */
  lemma AllocOnTotals(read: nat, written: nat, dwords: nat, used: nat)
    requires read <= written < read + RB_DWORDS && written % RB_DWORDS <= RB_DWORDS - 2 && 0 < used <= dwords
    ensures match Alloc(written % RB_DWORDS, read % RB_DWORDS, dwords)
            case NoSpace => read < written || written % RB_DWORDS + dwords > RB_DWORDS - 2
            case Space(start, _, wrapped) =>
              var total := (if wrapped then (written / RB_DWORDS + 1) * RB_DWORDS else written) + used;
              && written < total < read + RB_DWORDS
              && total % RB_DWORDS == start + used <= RB_DWORDS - 2
  {
    var q, w, p, r := written / RB_DWORDS, written % RB_DWORDS, read / RB_DWORDS, read % RB_DWORDS;
    assert written == q * RB_DWORDS + w && read == p * RB_DWORDS + r;
    assert p == q || p == q - 1;
    match Alloc(w, r, dwords)
    case NoSpace =>
    case Space(start, _, wrapped) =>
      RoundTotals(if wrapped then q + 1 else q, start + used);
  }

  /** `m` with the words `ws` written from offset `at`. */
  function Splice(m: seq<u32>, at: nat, ws: seq<u32>): seq<u32>
    requires at + |ws| <= |m|
  {
    m[..at] + ws + m[at + |ws|..]
  }

  lemma SpliceSplice(m: seq<u32>, at: nat, a: seq<u32>, b: seq<u32>)
    requires at + |a| + |b| <= |m|
    ensures Splice(Splice(m, at, a), at + |a|, b) == Splice(m, at, a + b)
  {
  }

  lemma SpliceNothing(m: seq<u32>, at: nat)
    requires at <= |m|
    ensures Encode([]) == [] && Splice(m, at, Encode([])) == m
  {
  }

  lemma SpliceFront(m: seq<u32>, ws: seq<u32>)
    requires |ws| <= |m|
    ensures Splice(m, 0, ws)[..|ws|] == ws
  {
  }

  /** What the hardware has still to read: from its offset to the write offset, round the end of the ring. */
  function ToRead(m: seq<u32>, rptr: nat, wptr: nat): seq<u32>
    requires rptr <= |m| && wptr <= |m|
  {
    if rptr <= wptr then m[rptr..wptr] else m[rptr..] + m[..wptr]
  }

  lemma ReadOn(m: seq<u32>, from: nat, rptr: nat, ws: seq<u32>)
    requires from + |ws| <= |m| && rptr <= |m| && (rptr <= from || from + |ws| < rptr)
    ensures ToRead(Splice(m, from, ws), rptr, from + |ws|) == ToRead(m, rptr, from) + ws
  {
    hide Splice;
    SpliceParts(m, from, ws);
    var t, to := Splice(m, from, ws), from + |ws|;
    if rptr <= from {
      DropTake(t, 0, rptr, to);
      assert t[rptr..to] == t[..to][rptr..] == (m[..from] + ws)[rptr..] == m[..from][rptr..] + ws;
    } else {
      DropDrop(t, to, rptr - to);
      DropDrop(m, to, rptr - to);
      RegroupAll(m[rptr..], m[..from], ws);
    }
  }

  lemma SpliceParts(m: seq<u32>, at: nat, ws: seq<u32>)
    requires at + |ws| <= |m|
    ensures var t := Splice(m, at, ws);
            |t| == |m| && t[..at + |ws|] == m[..at] + ws && t[at + |ws|..] == m[at + |ws|..]
  {
  }

  lemma ReadRound(m: seq<u32>, t: seq<u32>, from: nat, rptr: nat, ws: seq<u32>)
    requires rptr <= from <= |m| == |t| && |ws| < rptr && t[..from] == m[..from]
    ensures ToRead(Splice(t, 0, ws), rptr, |ws|) == ToRead(m, rptr, from) + t[from..] + ws
  {
    var s := Splice(t, 0, ws);
    assert s[..|ws|] == ws;
    assert t[rptr..from] == m[rptr..from] by {
      assert t[..from][rptr..] == m[..from][rptr..];
    }
    assert s[rptr..] == t[rptr..];
    assert t[rptr..] == t[rptr..from] + t[from..];
  }

  /** Copies words to an offset, one by one, and touches nothing else. */
  method Copy(mem: array<u32>, at: nat, ws: seq<u32>) returns (end: nat)
    requires at + |ws| <= mem.Length
    modifies mem
    ensures end == at + |ws| && mem[..] == Splice(old(mem[..]), at, ws)
  {
    end := at;
    for i := 0 to |ws|
      invariant end == at + i
      invariant forall k :: at <= k < end ==> mem[k] == ws[k - at]
      invariant forall k :: 0 <= k < at || end <= k < mem.Length ==> mem[k] == old(mem[k])
    {
      mem[end] := ws[i];
      end := end + 1;
    }
  }

  /** Appends a packet to a stream that began at `start` in memory `m` and holds `ps` so far. */
  method Emit(mem: array<u32>, ghost m: seq<u32>, ghost start: nat, at: nat, ghost ps: seq<Packet>, p: Packet)
    returns (end: nat, ghost qs: seq<Packet>)
    requires at == start + |Encode(ps)| && at + 1 + |p.payload| <= mem.Length == |m|
    requires mem[..] == Splice(m, start, Encode(ps))
    modifies mem
    ensures qs == ps + [p] && end == at + 1 + |p.payload| == start + |Encode(qs)|
    ensures mem[..] == Splice(m, start, Encode(qs))
  {
    qs := ps + [p];
    FlatMapAppend(Words, ps, [p]);
    FlatMapOne(Words, p);
    end := Copy(mem, at, [HeaderWord(p)] + p.payload);
    SpliceSplice(m, start, Encode(ps), Words(p));
  }

  /** The hardware's write pointer register. */
  class Register {
    var value: nat
  }

  /** A ring: its memory, the next write offset, the last submitted one, and its timestamp. */
  class Ringbuffer {
    const mem: array<u32>
    const legacy: bool
    var wptrNext: nat
    var wptr: nat
    var timestamp: u32

    ghost predicate Valid()
      reads this
    {
      mem.Length == RB_DWORDS && wptrNext <= RB_DWORDS - 2
    }

    /** Everything written to the ring has been handed over. */
    predicate Published()
      reads this
    {
      wptr == wptrNext
    }

    constructor (legacy: bool)
      ensures Valid() && Published() && fresh(mem)
      ensures this.legacy == legacy && wptrNext == wptr == 0 && timestamp == 0
    {
      mem := new u32[RB_DWORDS](_ => 0);
      this.legacy := legacy;
      wptrNext, wptr, timestamp := 0, 0, 0;
    }

    /** The memory after an allocation: going round puts a NOP over the tail. */
    ghost function AfterAlloc(m: seq<u32>, from: nat, wrapped: bool): seq<u32>
      requires |m| == RB_DWORDS && from <= RB_DWORDS - 2
    {
      if !wrapped then m
      else m[from := if legacy then Type3(CP_NOP, RB_DWORDS - from - 1) else Type7(CP_NOP, RB_DWORDS - from - 1)]
    }

    /** Going round leaves one NOP that swallows the whole tail, whatever was there; every other word of the ring
        is as before, and without going round all are. */
    lemma TailIsOneNop(m: seq<u32>, from: nat)
      requires |m| == RB_DWORDS && from <= RB_DWORDS - 2
      ensures AfterAlloc(m, from, false) == m
      ensures var t := AfterAlloc(m, from, true);
              var tail := m[from + 1..];
              && |t| == |m| && t[..from] == m[..from] && t[from + 1..] == tail
              && Decode(t[from]) == Some(Header(if legacy then 3 else 7, CP_NOP, RB_DWORDS - from - 1))
              && Parse(t[from..]) == Some([if legacy then T3(CP_NOP, tail) else T7(CP_NOP, tail)])
    {
      hide Decode, Parse, HeaderWord, Encode;
      var nop := TailNop(m, from);
      NopWord(m, from);
      assert AfterAlloc(m, from, true)[from..] == Words(nop);
      EncodeOne(nop);
      HeaderRoundTrip(nop);
      ParseEncode([nop]);
    }

    /** The tail of the ring as the payload of a NOP. */
    function TailNop(m: seq<u32>, from: nat): Packet
      requires from < |m|
    {
      if legacy then T3(CP_NOP, m[from + 1..]) else T7(CP_NOP, m[from + 1..])
    }

    lemma NopWord(m: seq<u32>, from: nat)
      requires |m| == RB_DWORDS && from <= RB_DWORDS - 2
      ensures Fits(TailNop(m, from)) && AfterAlloc(m, from, true) == m[from := HeaderWord(TailNop(m, from))]
    {
    }

    /** What the hardware has yet to read splits into packets as before, then the NOP over the tail if the ring is
        gone round, and then the packets of what was written: nothing else is in between, whatever else is in the
        ring. */
    lemma StreamGrows(m: seq<u32>, from: nat, rptr: nat, dwords: nat, ws: seq<u32>)
      requires |m| == RB_DWORDS && rptr < RB_DWORDS && from <= RB_DWORDS - 2
      requires Alloc(from, rptr, dwords) != NoSpace && 0 < |ws| <= dwords
      requires Parse(ToRead(m, rptr, from)).Some? && Parse(ws).Some?
      ensures var space := Alloc(from, rptr, dwords);
              && space.start + |ws| <= RB_DWORDS - 2
              && Parse(ToRead(Splice(AfterAlloc(m, from, space.wrapped), space.start, ws), rptr, space.start + |ws|))
                 == Some(Parse(ToRead(m, rptr, from)).value
                         + (if !space.wrapped then [] else if legacy then [T3(CP_NOP, m[from + 1..])]
                            else [T7(CP_NOP, m[from + 1..])])
                         + Parse(ws).value)
    {
      hide Decode, Parse, AfterAlloc;
      var space := Alloc(from, rptr, dwords);
      TailIsOneNop(m, from);
      var old_words := ToRead(m, rptr, from);
      if space.wrapped {
        var t := AfterAlloc(m, from, true);
        ReadRound(m, t, from, rptr, ws);
        ParseAppend(old_words, t[from..]);
        ParseAppend(old_words + t[from..], ws);
      } else {
        ReadOn(m, from, rptr, ws);
        ParseAppend(old_words, ws);
        assert Parse(old_words).value + [] == Parse(old_words).value;
      }
    }

    method AllocSpace(rptr: nat, dwords: nat) returns (start: Option<nat>)
      requires Valid() && rptr < RB_DWORDS && dwords > 0
      modifies this`wptrNext, mem
      ensures Valid()
      ensures match Alloc(old(wptrNext), rptr, dwords)
              case Space(s, end, wrapped) =>
                && start == Some(s) && wptrNext == end
                && mem[..] == AfterAlloc(old(mem[..]), old(wptrNext), wrapped)
              case NoSpace =>
                start == None && wptrNext == old(wptrNext) && mem[..] == old(mem[..])
      ensures start.Some? && wptrNext <= old(wptrNext) ==>
        var from := old(wptrNext);
        && mem[..from] == old(mem[..])[..from] && mem[from + 1..] == old(mem[..])[from + 1..]
        && Decode(mem[from]) == Some(Header(if legacy then 3 else 7, CP_NOP, RB_DWORDS - from - 1))
      ensures wptrNext > old(wptrNext) ==> mem[..] == old(mem[..])
    {
      hide Decode, Parse;
      TailIsOneNop(mem[..], wptrNext);
      if rptr <= wptrNext {
        if wptrNext + dwords <= RB_DWORDS - 2 {
          start := Some(wptrNext);
          wptrNext := (wptrNext + dwords) % RB_DWORDS;
          return;
        }
        if dwords < rptr {
          var count := RB_DWORDS - wptrNext - 1;
          mem[wptrNext] := if legacy then Type3(CP_NOP, count) else Type7(CP_NOP, count);
          wptrNext := dwords;
          return Some(0);
        }
      }
      if wptrNext + dwords < rptr {
        start := Some(wptrNext);
        wptrNext := (wptrNext + dwords) % RB_DWORDS;
        return;
      }
      start := None;
    }
  }
}
