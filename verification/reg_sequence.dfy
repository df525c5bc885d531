/** The register sequences of the sequence file: records, their encoding, and the interpreter. */
module RegSequence {
  import opened Wrappers
  import opened Pm4

  datatype Record =
    | Write32(reg: u64, value: u32)
    | Write64(reg: u64, wide: u64)
    | Delay(us: u32)

  function EncodeRecord(r: Record): seq<u32> {
    match r
    case Write32(reg, v) => [1, Lower32(reg), Upper32(reg), v]
    case Write64(reg, v) => [2, Lower32(reg), Upper32(reg), Lower32(v), Upper32(v)]
    case Delay(us) => [3, us]
  }

  function EncodeAll(rs: seq<Record>): seq<u32> {
    if rs == [] then [] else EncodeAll(rs[..|rs| - 1]) + EncodeRecord(rs[|rs| - 1])
  }

  /** What a record does to the device: register numbers and values are cut to 32 bits. */
  datatype Effect = Wrote(reg: u32, value: u32) | Waited(us: u32)

  function EffectOf(r: Record): Effect {
    match r
    case Write32(reg, v) => Wrote(Lower32(reg), v)
    case Write64(reg, v) => Wrote(Lower32(reg), Lower32(v))
    case Delay(us) => Waited(us)
  }

  function Effects(rs: seq<Record>): seq<Effect> {
    if rs == [] then [] else Effects(rs[..|rs| - 1]) + [EffectOf(rs[|rs| - 1])]
  }

  /** The record at the start of the words, if there is a whole one. */
  function First(ws: seq<u32>): (r: Option<Record>)
    ensures r.Some? ==> 0 < |EncodeRecord(r.value)| <= |ws|
  {
    if |ws| >= 4 && ws[0] == 1 then Some(Write32(Join64(ws[1], ws[2]), ws[3]))
    else if |ws| >= 5 && ws[0] == 2 then Some(Write64(Join64(ws[1], ws[2]), Join64(ws[3], ws[4])))
    else if |ws| >= 2 && ws[0] == 3 then Some(Delay(ws[1]))
    else None
  }

  /** The records of the longest well-formed prefix. */
  function Records(ws: seq<u32>): seq<Record>
    decreases |ws|
  {
    match First(ws)
    case None => []
    case Some(r) => [r] + Records(ws[|EncodeRecord(r)|..])
  }

  lemma SplitOfJoin(lo: u32, hi: u32)
    ensures Lower32(Join64(lo, hi)) == lo && Upper32(Join64(lo, hi)) == hi
  {
  }

  lemma FirstIsPrefix(ws: seq<u32>)
    requires First(ws).Some?
    ensures var r := First(ws).value; ws[..|EncodeRecord(r)|] == EncodeRecord(r)
  {
    if ws[0] != 3 { SplitOfJoin(ws[1], ws[2]); }
    if ws[0] == 2 { SplitOfJoin(ws[3], ws[4]); }
  }

  lemma FirstOfRecord(r: Record, rest: seq<u32>)
    ensures First(EncodeRecord(r) + rest) == Some(r)
  {
    match r
    case Write32(reg, _) => SplitJoin64(reg);
    case Write64(reg, v) => SplitJoin64(reg); SplitJoin64(v);
    case Delay(_) =>
  }

  lemma {:induction false} EncodeCons(r: Record, rs: seq<Record>)
    ensures EncodeAll([r] + rs) == EncodeRecord(r) + EncodeAll(rs)
  {
    hide EncodeRecord;
    if rs == [] {
      assert [r] + rs == [r] && [r][..0] == [];
      assert EncodeAll([]) == [];
      assert EncodeAll([r]) == EncodeAll([r][..0]) + EncodeRecord(r);
    } else {
      EncodeCons(r, rs[..|rs| - 1]);
      assert ([r] + rs)[..|rs|] == [r] + rs[..|rs| - 1];
    }
  }

  /** Every word list is its records, in order, and a rest that starts with no whole record. */
  lemma {:induction false} RecordsArePrefix(ws: seq<u32>)
    ensures var n := |EncodeAll(Records(ws))|;
            n <= |ws| && ws[..n] == EncodeAll(Records(ws)) && First(ws[n..]).None?
    decreases |ws|
  {
    hide EncodeRecord, EncodeAll, First;
    match First(ws)
    case None => EncodeNothing();
    case Some(r) =>
      var k := |EncodeRecord(r)|;
      FirstIsPrefix(ws);
      RecordsArePrefix(ws[k..]);
      EncodeCons(r, Records(ws[k..]));
      var n := |EncodeAll(Records(ws[k..]))|;
      assert ws[k..][..n] == ws[k..k + n] && ws[k..][n..] == ws[k + n..];
      assert ws[..k + n] == ws[..k] + ws[k..k + n];
  }

  lemma EncodeNothing()
    ensures EncodeAll([]) == []
  {
  }

  /** And only one list of records is followed by such a rest: no record is the start of another. */
  lemma {:induction false} RecordsAreUnique(rs: seq<Record>, rest: seq<u32>)
    requires First(rest).None?
    ensures Records(EncodeAll(rs) + rest) == rs
  {
    hide EncodeRecord, EncodeAll, First;
    if rs == [] {
      EncodeNothing();
      assert EncodeAll([]) + rest == rest;
    } else {
      var ws := EncodeAll(rs) + rest;
      assert rs == [rs[0]] + rs[1..];
      EncodeCons(rs[0], rs[1..]);
      assert ws == EncodeRecord(rs[0]) + (EncodeAll(rs[1..]) + rest);
      FirstOfRecord(rs[0], EncodeAll(rs[1..]) + rest);
      assert ws[|EncodeRecord(rs[0])|..] == EncodeAll(rs[1..]) + rest;
      RecordsAreUnique(rs[1..], rest);
    }
  }

  /** The whole input is a concatenation of records. */
  ghost predicate IsSequence(ws: seq<u32>) {
    exists rs :: EncodeAll(rs) == ws
  }

  lemma SequenceIff(ws: seq<u32>)
    ensures IsSequence(ws) <==> EncodeAll(Records(ws)) == ws
  {
    if IsSequence(ws) {
      var rs :| EncodeAll(rs) == ws;
      assert ws + [] == ws;
      RecordsAreUnique(rs, []);
    }
  }

  lemma {:induction false} EncodePrefix(rs: seq<Record>, k: nat)
    requires k <= |rs|
    ensures EncodeAll(rs[..k]) <= EncodeAll(rs)
  {
    if k == |rs| {
      assert rs[..k] == rs;
    } else {
      EncodePrefix(rs[..|rs| - 1], k);
      assert rs[..|rs| - 1][..k] == rs[..k];
    }
  }

  lemma {:induction false} EffectsAt(rs: seq<Record>, k: nat)
    requires k < |rs|
    ensures |Effects(rs)| == |rs| && Effects(rs)[k] == EffectOf(rs[k])
    decreases |rs|
  {
    EffectsCount(rs[..|rs| - 1]);
    if k < |rs| - 1 { EffectsAt(rs[..|rs| - 1], k); }
  }

  lemma {:induction false} EffectsCount(rs: seq<Record>)
    ensures |Effects(rs)| == |rs|
  {
    if rs != [] { EffectsCount(rs[..|rs| - 1]); }
  }

  /** The record that starts at word `p` does `e`, by the words of the input: a register's number is the word behind
      the opcode, a value the first word behind the number's two, a delay the word behind the opcode; `next` is where
      it ends. */
  predicate DoneAt(ws: seq<u32>, p: nat, e: Effect, next: nat) {
    && p < next <= |ws|
    && ((ws[p] == 1 && next == p + 4 && e == Wrote(ws[p + 1], ws[p + 3]))
        || (ws[p] == 2 && next == p + 5 && e == Wrote(ws[p + 1], ws[p + 3]))
        || (ws[p] == 3 && next == p + 2 && e == Waited(ws[p + 1])))
  }

  /** The effects of an input are those of its words, one record behind the other from the first word on. */
  lemma EffectsByWords(ws: seq<u32>, k: nat)
    requires k < |Records(ws)|
    ensures var rs := Records(ws);
            && |EncodeAll(rs[..0])| == 0 && |Effects(rs)| == |rs|
            && DoneAt(ws, |EncodeAll(rs[..k])|, Effects(rs)[k], |EncodeAll(rs[..k + 1])|)
  {
    hide Records, Effects;
    var rs := Records(ws);
    RecordsArePrefix(ws);
    EffectsAt(rs, k);
    EncodePrefix(rs, k + 1);
    assert rs[..k + 1][..k] == rs[..k] && rs[..k + 1][k] == rs[k];
    var p, w := |EncodeAll(rs[..k])|, EncodeRecord(rs[k]);
    assert EncodeAll(rs[..k + 1]) == EncodeAll(rs[..k]) + w;
    hide EncodeAll;
    assert ws[p..p + |w|] == w by {
      assert ws[..p + |w|] == EncodeAll(rs[..k + 1]);
      assert ws[..p + |w|][p..] == w;
    }
    RecordWords(ws, p, rs[k]);
  }

  lemma RecordWords(ws: seq<u32>, p: nat, r: Record)
    requires p + |EncodeRecord(r)| <= |ws| && ws[p..p + |EncodeRecord(r)|] == EncodeRecord(r)
    ensures DoneAt(ws, p, EffectOf(r), p + |EncodeRecord(r)|)
  {
    var w := EncodeRecord(r);
    assert ws[p] == w[0] && ws[p + 1] == w[1];
    if !r.Delay? { assert ws[p + 3] == w[3]; }
  }

  /** Carries a sequence out, record by record. True for success, false for -EINVAL. */
  method ExecuteRegSequence(opcode: seq<u32>) returns (ok: bool, effects: seq<Effect>)
    ensures effects == Effects(Records(opcode))
    ensures ok <==> IsSequence(opcode)
  {
    hide EncodeAll, EncodeRecord, IsSequence;
    var cur := 0;
    effects := [];
    ghost var done: seq<Record> := [];
    EncodeNothing();
    RecordsArePrefix(opcode);
    SequenceIff(opcode);
    NoEffects();
    while cur < |opcode|
      invariant cur <= |opcode|
      invariant effects == Effects(done) && done + Records(opcode[cur..]) == Records(opcode)
      invariant cur == |EncodeAll(done)|
    {
      ghost var r := First(opcode[cur..]);
      RecordsStep(opcode, cur);
      if opcode[cur] == 1 && |opcode| - cur >= 4 {
        effects := effects + [Wrote(opcode[cur + 1], opcode[cur + 3])];
        SplitOfJoin(opcode[cur + 1], opcode[cur + 2]);
        Advance(done, r.value, Records(opcode[cur + 4..]));
        cur := cur + 4;
      } else if opcode[cur] == 2 && |opcode| - cur >= 5 {
        effects := effects + [Wrote(opcode[cur + 1], opcode[cur + 3])];
        SplitOfJoin(opcode[cur + 1], opcode[cur + 2]);
        SplitOfJoin(opcode[cur + 3], opcode[cur + 4]);
        Advance(done, r.value, Records(opcode[cur + 5..]));
        cur := cur + 5;
      } else if opcode[cur] == 3 && |opcode| - cur >= 2 {
        effects := effects + [Waited(opcode[cur + 1])];
        Advance(done, r.value, Records(opcode[cur + 2..]));
        cur := cur + 2;
      } else {
        assert done == Records(opcode);
        return false, effects;
      }
      done := done + [r.value];
    }
    assert opcode[cur..] == [];
    assert done == Records(opcode);
    ok := true;
  }

  lemma NoEffects()
    ensures Effects([]) == []
  {
  }

  lemma RecordsStep(ws: seq<u32>, at: nat)
    requires at <= |ws|
    ensures match First(ws[at..])
            case None => Records(ws[at..]) == []
            case Some(r) => at + |EncodeRecord(r)| <= |ws| &&
                            Records(ws[at..]) == [r] + Records(ws[at + |EncodeRecord(r)|..])
  {
    hide First, EncodeRecord;
    if First(ws[at..]).Some? { DropDrop(ws, at, |EncodeRecord(First(ws[at..]).value)|); }
  }

  lemma Advance(done: seq<Record>, r: Record, rest: seq<Record>)
    ensures Effects(done + [r]) == Effects(done) + [EffectOf(r)]
    ensures done + ([r] + rest) == done + [r] + rest
    ensures |EncodeAll(done + [r])| == |EncodeAll(done)| + |EncodeRecord(r)|
    ensures |EncodeRecord(r)| == match r case Write32(_, _) => 4 case Write64(_, _) => 5 case Delay(_) => 2
  {
    assert (done + [r])[..|done|] == done;
  }
}
