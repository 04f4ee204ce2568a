/** The flag handshake of all_reduce_low_latency, as a transition system.

    Every rank owns one workspace slot: an int flag and a 32768-byte data
    area. One call of the collective is, on each rank, a short straight-line
    program whose waits (wait_buffer_state_until) spin on another slot's
    flag. Here each such program is a sequence of atomic steps, a wait is a
    step that is enabled only when the awaited flag has the awaited value,
    and the ranks interleave arbitrarily. */
module Handshake {
  import opened Bf16
  import opened Kernels

  /** Where a rank is in its program. Rank 0 runs CopyIn, Publish,
      AwaitCopied(1 .. W-1), Reduce, Finalize, CopyOut, AwaitAcks(1 .. W-1),
      ResetOwn; every other rank runs CopyIn, Publish, AwaitFinal, CopyOut,
      Acknowledge, AwaitIdle, ResetOwn. */
  datatype Pc =
    | CopyIn            // memcpy(buffer[rank].buffer, data, numel * 2)
    | Publish           // buffer[rank].state = 1
    | AwaitCopied(i: nat) // rank 0: wait_buffer_state_until(i, 1)
    | Reduce            // rank 0: reduce_all_bf16_buffers(buffer, numel, world_size)
    | Finalize          // rank 0: buffer[0].state = 2
    | CopyOut           // memcpy(data, buffer[0].buffer, numel * 2)
    | AwaitAcks(i: nat) // rank 0: wait_buffer_state_until(i, 2)
    | AwaitFinal        // peer: wait_buffer_state_until(0, 2)
    | Acknowledge       // peer: buffer[rank].state = 2
    | AwaitIdle         // peer: wait_buffer_state_until(0, 0)
    | ResetOwn          // buffer[rank].state = 0
    | Done

  /** The flags and data areas of the slots, each rank's tensor and each
      rank's position, all indexed by rank. */
  datatype System = System(state: seq<int>, slot: seq<seq<bv16>>, data: seq<seq<bv16>>, pc: seq<Pc>)

  /** One call: the world size, numel and the binary32 addition. */
  datatype Config = Config(ranks: nat, n: nat, add: Add32)

  /** The arguments of a call: one tensor of n elements per rank, and
      whatever the data areas held beforehand. */
  predicate ValidInputs(cfg: Config, input: seq<seq<bv16>>, initial: seq<seq<bv16>>) {
    1 <= cfg.ranks && cfg.n <= SlotElems
    && |input| == cfg.ranks && |initial| == cfg.ranks
    && (forall r :: 0 <= r < cfg.ranks ==> |input[r]| == cfg.n)
    && Shaped(initial, SlotElems)
  }

  /** A data area after a rank's copy-in: its tensor, then the stale rest. */
  function CopiedIn(n: nat, data: seq<bv16>, area: seq<bv16>): (a: seq<bv16>)
    requires |data| == n <= |area|
    ensures |a| == |area| && a[..n] == data && a[n..] == area[n..]
  {
    data + area[n..]
  }

  /** The data areas once every rank has copied in. */
  function Loaded(cfg: Config, input: seq<seq<bv16>>, initial: seq<seq<bv16>>): (rows: seq<seq<bv16>>)
    requires ValidInputs(cfg, input, initial)
    ensures |rows| == cfg.ranks && Shaped(rows, SlotElems)
    ensures forall r :: 0 <= r < cfg.ranks ==> rows[r] == CopiedIn(cfg.n, input[r], initial[r])
  {
    seq(cfg.ranks, r requires 0 <= r < cfg.ranks => CopiedIn(cfg.n, input[r], initial[r]))
  }

  /** Slot 0's data area after the reduction. */
  function Expected(cfg: Config, input: seq<seq<bv16>>, initial: seq<seq<bv16>>): (out: seq<bv16>)
    requires ValidInputs(cfg, input, initial)
    ensures |out| == SlotElems
  {
    BlockedIsLeast(cfg.n, SlotElems);
    ReduceAllResult(cfg.add, Loaded(cfg, input, initial), cfg.n, cfg.ranks)
  }

  /** The state before the call: every flag 0 (as initialize leaves them,
      and as every call leaves them), every rank at its first step. */
  function Init(cfg: Config, input: seq<seq<bv16>>, initial: seq<seq<bv16>>): (s: System)
    requires ValidInputs(cfg, input, initial)
    ensures |s.state| == |s.pc| == cfg.ranks && s.slot == initial && s.data == input
    ensures forall r :: 0 <= r < cfg.ranks ==> s.state[r] == 0 && s.pc[r] == CopyIn
  {
    System(seq(cfg.ranks, r => 0), initial, input, seq(cfg.ranks, r => CopyIn))
  }

  /** The sizes of every component agree with the configuration. */
  predicate Shape(cfg: Config, s: System) {
    1 <= cfg.ranks && cfg.n <= SlotElems
    && |s.state| == cfg.ranks && |s.slot| == cfg.ranks && |s.data| == cfg.ranks && |s.pc| == cfg.ranks
    && Shaped(s.slot, SlotElems)
    && (forall r :: 0 <= r < cfg.ranks ==> |s.data[r]| == cfg.n)
  }

  /** Rank 0's next wait for a copied peer, or the reduction once none is left. */
  function NextCopied(ranks: nat, i: nat): Pc {
    if i < ranks then AwaitCopied(i) else Reduce
  }

  /** Rank 0's next wait for an acknowledging peer, or its reset once none is left. */
  function NextAck(ranks: nat, i: nat): Pc {
    if i < ranks then AwaitAcks(i) else ResetOwn
  }

  /** The flags let a rank at pc move on: a wait needs the awaited flag to
      hold the awaited value, Done never moves, every other step can. */
  predicate WaitHolds(ranks: nat, state: seq<int>, pc: Pc)
    requires 1 <= ranks && |state| == ranks
  {
    match pc
    case AwaitCopied(i) => i < ranks && state[i] == 1
    case AwaitAcks(i) => i < ranks && state[i] == 2
    case AwaitFinal => state[0] == 2
    case AwaitIdle => state[0] == 0
    case Done => false
    case _ => true
  }

  /** Rank r can take its next step. */
  predicate Enabled(cfg: Config, s: System, r: nat)
    requires Shape(cfg, s) && r < cfg.ranks
  {
    WaitHolds(cfg.ranks, s.state, s.pc[r])
  }

  /** Rank r's position after its next step. */
  function NextPc(ranks: nat, r: nat, pc: Pc): Pc {
    match pc
    case CopyIn => Publish
    case Publish => if r == 0 then NextCopied(ranks, 1) else AwaitFinal
    case AwaitCopied(i) => NextCopied(ranks, i + 1)
    case Reduce => Finalize
    case Finalize => CopyOut
    case CopyOut => if r == 0 then NextAck(ranks, 1) else Acknowledge
    case AwaitAcks(i) => NextAck(ranks, i + 1)
    case AwaitFinal => CopyOut
    case Acknowledge => AwaitIdle
    case AwaitIdle => ResetOwn
    case ResetOwn => Done
    case Done => Done
  }

  /** The effect of rank r's next step on the flags, the data areas and the
      tensors; the position moves on by NextPc. */
  function Advance(cfg: Config, s: System, r: nat): (s': System)
    requires Shape(cfg, s) && r < cfg.ranks
    ensures Shape(cfg, s')
    ensures s'.pc == s.pc[r := NextPc(cfg.ranks, r, s.pc[r])]
  {
    BlockedIsLeast(cfg.n, SlotElems);
    var pc := s.pc[r := NextPc(cfg.ranks, r, s.pc[r])];
    match s.pc[r]
    case CopyIn =>
      s.(slot := s.slot[r := CopiedIn(cfg.n, s.data[r], s.slot[r])], pc := pc)
    case Publish =>
      s.(state := s.state[r := 1], pc := pc)
    case Reduce =>
      s.(slot := s.slot[0 := ReduceAllResult(cfg.add, s.slot, cfg.n, cfg.ranks)], pc := pc)
    case Finalize =>
      s.(state := s.state[r := 2], pc := pc)
    case CopyOut =>
      s.(data := s.data[r := s.slot[0][..cfg.n]], pc := pc)
    case Acknowledge =>
      s.(state := s.state[r := 2], pc := pc)
    case ResetOwn =>
      s.(state := s.state[r := 0], pc := pc)
    case _ =>
      s.(pc := pc)
  }

  /** Every rank has returned from the call. */
  predicate AllDone(s: System) {
    forall r :: 0 <= r < |s.pc| ==> s.pc[r] == Done
  }

  // ---------------------------------------------------------------------
  // The invariant.
  // ---------------------------------------------------------------------

  /** Positions rank 0 and the peers can be at. */
  predicate WellFormedPc(ranks: nat, r: nat, pc: Pc) {
    if r == 0 then
      match pc
      case AwaitCopied(i) => 1 <= i < ranks
      case AwaitAcks(i) => 1 <= i < ranks
      case AwaitFinal => false
      case Acknowledge => false
      case AwaitIdle => false
      case _ => true
    else
      !pc.AwaitCopied? && !pc.AwaitAcks? && pc != Reduce && pc != Finalize
  }

  /** How far a rank is through its program, counting its actions. */
  function Phase(r: nat, pc: Pc): nat {
    if r == 0 then
      match pc
      case CopyIn => 0
      case Publish => 1
      case AwaitCopied(_) => 2
      case Reduce => 3
      case Finalize => 4
      case CopyOut => 5
      case AwaitAcks(_) => 6
      case ResetOwn => 7
      case Done => 8
      case _ => 0
    else
      match pc
      case CopyIn => 0
      case Publish => 1
      case AwaitFinal => 2
      case CopyOut => 3
      case Acknowledge => 4
      case AwaitIdle => 5
      case ResetOwn => 6
      case Done => 7
      case _ => 0
  }

  /** The flag a rank's own slot holds at each position. */
  function FlagAt(r: nat, pc: Pc): int {
    var p := Phase(r, pc);
    if r == 0 then
      if p <= 1 then 0 else if p <= 4 then 1 else if p <= 7 then 2 else 0
    else
      if p <= 1 then 0 else if p <= 4 then 1 else if p <= 6 then 2 else 0
  }

  /** Peers 1 .. CopiedBelow(pc0)-1 have certainly copied in, as seen by rank 0. */
  function CopiedBelow(ranks: nat, pc0: Pc): nat {
    match pc0
    case AwaitCopied(i) => i
    case _ => if Phase(0, pc0) >= 3 then ranks else 1
  }

  /** Peers 1 .. AckedBelow(pc0)-1 have certainly copied out, as seen by rank 0. */
  function AckedBelow(ranks: nat, pc0: Pc): nat {
    match pc0
    case AwaitAcks(i) => i
    case _ => if Phase(0, pc0) >= 7 then ranks else 1
  }

  /** What each rank's own slot, flag and tensor hold at its position. */
  predicate LocalInv(cfg: Config, input: seq<seq<bv16>>, initial: seq<seq<bv16>>, s: System, r: nat)
    requires ValidInputs(cfg, input, initial) && Shape(cfg, s) && r < cfg.ranks
  {
    var pc := s.pc[r];
    var p := Phase(r, pc);
    var result := Expected(cfg, input, initial);
    WellFormedPc(cfg.ranks, r, pc)
    && s.state[r] == FlagAt(r, pc)
    && s.slot[r] == (if p == 0 then initial[r]
                     else if r == 0 && p >= 4 then result
                     else CopiedIn(cfg.n, input[r], initial[r]))
    && s.data[r] == (if (r == 0 && p >= 6) || (r != 0 && p >= 4) then result[..cfg.n] else input[r])
  }

  /** How far the peers are, given what rank 0 has seen, and the reverse. */
  predicate OrderInv(ranks: nat, pc: seq<Pc>)
    requires |pc| == ranks >= 1
  {
    var p0 := Phase(0, pc[0]);
    (forall j :: 1 <= j < CopiedBelow(ranks, pc[0]) && j < ranks ==> Phase(j, pc[j]) >= 2)
    && (forall j :: 1 <= j < AckedBelow(ranks, pc[0]) && j < ranks ==> Phase(j, pc[j]) >= 5)
    && (forall j :: 1 <= j < ranks && Phase(j, pc[j]) >= 3 ==> p0 >= 5)
    && (forall j :: 1 <= j < ranks && Phase(j, pc[j]) >= 6 ==> p0 == 8)
  }

  /** The inductive invariant of the handshake. */
  predicate Inv(cfg: Config, input: seq<seq<bv16>>, initial: seq<seq<bv16>>, s: System) {
    ValidInputs(cfg, input, initial) && Shape(cfg, s)
    && (forall r :: 0 <= r < cfg.ranks ==> LocalInv(cfg, input, initial, s, r))
    && OrderInv(cfg.ranks, s.pc)
  }

  // ---------------------------------------------------------------------
  // Safety.
  // ---------------------------------------------------------------------

  /** Each rank writes only its own flag, its own slot's data area and its
      own tensor: nothing another rank owns changes. */
  lemma StepFrame(cfg: Config, s: System, r: nat, j: nat)
    requires Shape(cfg, s) && r < cfg.ranks && j < cfg.ranks && j != r
    requires WellFormedPc(cfg.ranks, r, s.pc[r])
    ensures var s' := Advance(cfg, s, r);
            s'.state[j] == s.state[j] && s'.slot[j] == s.slot[j]
            && s'.data[j] == s.data[j] && s'.pc[j] == s.pc[j]
  {
  }

  /** The flags a peer's slot shows, by phase. */
  lemma PeerFlag(cfg: Config, input: seq<seq<bv16>>, initial: seq<seq<bv16>>, s: System, j: nat)
    requires Inv(cfg, input, initial, s) && 1 <= j < cfg.ranks
    ensures s.state[j] == 1 <==> 2 <= Phase(j, s.pc[j]) <= 4
    ensures s.state[j] == 2 <==> 5 <= Phase(j, s.pc[j]) <= 6
  {
    assert LocalInv(cfg, input, initial, s, j);
  }

  /** Rank 0's flag, by phase. */
  lemma RootFlag(cfg: Config, input: seq<seq<bv16>>, initial: seq<seq<bv16>>, s: System)
    requires Inv(cfg, input, initial, s)
    ensures s.state[0] == 2 <==> 5 <= Phase(0, s.pc[0]) <= 7
    ensures s.state[0] == 0 <==> Phase(0, s.pc[0]) <= 1 || Phase(0, s.pc[0]) == 8
  {
    assert LocalInv(cfg, input, initial, s, 0);
  }

  /** When rank 0 reduces, every data area holds its rank's tensor. */
  lemma ReduceSeesAllCopies(cfg: Config, input: seq<seq<bv16>>, initial: seq<seq<bv16>>, s: System)
    requires Inv(cfg, input, initial, s) && s.pc[0] == Reduce
    ensures s.slot == Loaded(cfg, input, initial)
  {
    var rows := Loaded(cfg, input, initial);
    forall j | 0 <= j < cfg.ranks
      ensures s.slot[j] == rows[j]
    {
      assert LocalInv(cfg, input, initial, s, j);
      if j != 0 {
        assert j < CopiedBelow(cfg.ranks, s.pc[0]);
      }
    }
  }

  /** A peer copies out only the final result: by then rank 0 has finished
      the reduction and set its flag to 2. */
  lemma PeerCopiesResult(cfg: Config, input: seq<seq<bv16>>, initial: seq<seq<bv16>>, s: System, j: nat)
    requires Inv(cfg, input, initial, s) && 1 <= j < cfg.ranks && s.pc[j] == CopyOut
    ensures s.slot[0] == Expected(cfg, input, initial)
  {
    assert Phase(j, s.pc[j]) == 3;
    assert LocalInv(cfg, input, initial, s, 0);
  }

  /** Rank 0 resets its flag only after every peer has copied the result out. */
  lemma ResetAfterAllCopied(cfg: Config, input: seq<seq<bv16>>, initial: seq<seq<bv16>>, s: System)
    requires Inv(cfg, input, initial, s) && s.pc[0] == ResetOwn
    ensures forall j :: 0 <= j < cfg.ranks ==> s.data[j] == Expected(cfg, input, initial)[..cfg.n]
  {
    forall j | 0 <= j < cfg.ranks
      ensures s.data[j] == Expected(cfg, input, initial)[..cfg.n]
    {
      assert LocalInv(cfg, input, initial, s, j);
      if j != 0 {
        assert j < AckedBelow(cfg.ranks, s.pc[0]);
      }
    }
  }

  /** The stepping rank's own slot, flag and tensor stay as LocalInv says. */
  lemma StepLocal(cfg: Config, input: seq<seq<bv16>>, initial: seq<seq<bv16>>, s: System, r: nat)
    requires Inv(cfg, input, initial, s) && r < cfg.ranks && Enabled(cfg, s, r)
    ensures LocalInv(cfg, input, initial, Advance(cfg, s, r), r)
  {
    assert LocalInv(cfg, input, initial, s, r);
    match s.pc[r]
    case Reduce =>
      ReduceSeesAllCopies(cfg, input, initial, s);
    case CopyOut =>
      if r != 0 {
        PeerCopiesResult(cfg, input, initial, s, r);
      }
    case _ =>
  }

  /** Rank 0 moving forward keeps the order, provided the peers it now
      counts as copied in or copied out really are. */
  lemma RootOrderUpdate(ranks: nat, pc: seq<Pc>, p0: Pc)
    requires |pc| == ranks >= 1 && OrderInv(ranks, pc)
    requires Phase(0, p0) >= Phase(0, pc[0])
    requires forall j :: 1 <= j < CopiedBelow(ranks, p0) && j < ranks ==> Phase(j, pc[j]) >= 2
    requires forall j :: 1 <= j < AckedBelow(ranks, p0) && j < ranks ==> Phase(j, pc[j]) >= 5
    ensures OrderInv(ranks, pc[0 := p0])
  {
    var pc' := pc[0 := p0];
    assert forall j :: 1 <= j < ranks ==> pc'[j] == pc[j];
  }

  /** A peer moving forward keeps the order, provided rank 0 is as far as
      the peer's new position demands. */
  lemma PeerOrderUpdate(ranks: nat, pc: seq<Pc>, r: nat, p: Pc)
    requires |pc| == ranks >= 1 && 1 <= r < ranks && OrderInv(ranks, pc)
    requires Phase(r, p) >= Phase(r, pc[r])
    requires Phase(r, p) >= 3 ==> Phase(0, pc[0]) >= 5
    requires Phase(r, p) >= 6 ==> Phase(0, pc[0]) == 8
    ensures OrderInv(ranks, pc[r := p])
  {
    var pc' := pc[r := p];
    assert pc'[0] == pc[0];
    assert forall j :: 1 <= j < ranks && j != r ==> pc'[j] == pc[j];
  }

  /** Rank 0 passes a wait only once the peer's flag shows the peer is far
      enough, so its steps keep the order. */
  lemma RootOrderStep(ranks: nat, pc: seq<Pc>)
    requires |pc| == ranks >= 1 && OrderInv(ranks, pc) && WellFormedPc(ranks, 0, pc[0])
    requires pc[0].AwaitCopied? ==> 2 <= Phase(pc[0].i, pc[pc[0].i]) <= 4
    requires pc[0].AwaitAcks? ==> 5 <= Phase(pc[0].i, pc[pc[0].i]) <= 6
    ensures OrderInv(ranks, pc[0 := NextPc(ranks, 0, pc[0])])
  {
    RootOrderUpdate(ranks, pc, NextPc(ranks, 0, pc[0]));
  }

  lemma RootStepOrder(cfg: Config, input: seq<seq<bv16>>, initial: seq<seq<bv16>>, s: System)
    requires Inv(cfg, input, initial, s) && Enabled(cfg, s, 0)
    ensures OrderInv(cfg.ranks, Advance(cfg, s, 0).pc)
  {
    assert LocalInv(cfg, input, initial, s, 0);
    if s.pc[0].AwaitCopied? || s.pc[0].AwaitAcks? {
      PeerFlag(cfg, input, initial, s, s.pc[0].i);
    }
    RootOrderStep(cfg.ranks, s.pc);
  }

  /** A peer passes a wait only once rank 0's flag shows rank 0 is far
      enough, so its steps keep the order. */
  lemma PeerOrderStep(ranks: nat, pc: seq<Pc>, r: nat)
    requires |pc| == ranks >= 1 && 1 <= r < ranks && OrderInv(ranks, pc) && WellFormedPc(ranks, r, pc[r])
    requires pc[r] != Done
    requires pc[r] == AwaitFinal ==> 5 <= Phase(0, pc[0]) <= 7
    requires pc[r] == AwaitIdle ==> Phase(0, pc[0]) <= 1 || Phase(0, pc[0]) == 8
    ensures OrderInv(ranks, pc[r := NextPc(ranks, r, pc[r])])
  {
    PeerOrderUpdate(ranks, pc, r, NextPc(ranks, r, pc[r]));
  }

  lemma PeerStepOrder(cfg: Config, input: seq<seq<bv16>>, initial: seq<seq<bv16>>, s: System, r: nat)
    requires Inv(cfg, input, initial, s) && 1 <= r < cfg.ranks && Enabled(cfg, s, r)
    ensures OrderInv(cfg.ranks, Advance(cfg, s, r).pc)
  {
    assert LocalInv(cfg, input, initial, s, r);
    RootFlag(cfg, input, initial, s);
    PeerOrderStep(cfg.ranks, s.pc, r);
  }

  /** Every step keeps the invariant. */
  lemma StepPreservesInv(cfg: Config, input: seq<seq<bv16>>, initial: seq<seq<bv16>>, s: System, r: nat)
    requires Inv(cfg, input, initial, s) && r < cfg.ranks && Enabled(cfg, s, r)
    ensures Inv(cfg, input, initial, Advance(cfg, s, r))
  {
    var s' := Advance(cfg, s, r);
    StepLocal(cfg, input, initial, s, r);
    assert LocalInv(cfg, input, initial, s, r);
    forall j | 0 <= j < cfg.ranks && j != r
      ensures LocalInv(cfg, input, initial, s', j)
    {
      StepFrame(cfg, s, r, j);
      assert LocalInv(cfg, input, initial, s, j);
    }
    if r == 0 {
      RootStepOrder(cfg, input, initial, s);
    } else {
      PeerStepOrder(cfg, input, initial, s, r);
    }
  }

  /** The invariant holds before the call. */
  lemma InitInv(cfg: Config, input: seq<seq<bv16>>, initial: seq<seq<bv16>>)
    requires ValidInputs(cfg, input, initial)
    ensures Inv(cfg, input, initial, Init(cfg, input, initial))
  {
  }

  /** The output depends on the tensors only: element e of the result (e <
      numel) combines element e of every rank's tensor, rank 0 first, in one
      rounding for 3 .. 8 ranks and with a rounding per peer otherwise. The
      stale tails of the data areas never reach it. */
  lemma ExpectedFromInputs(cfg: Config, input: seq<seq<bv16>>, initial: seq<seq<bv16>>, e: nat)
    requires ValidInputs(cfg, input, initial) && e < cfg.n
    ensures var peers := PeerColumn(input, e);
            Expected(cfg, input, initial)[e] ==
            if 3 <= cfg.ranks <= 8 then Combine(cfg.add, input[0][e], peers)
            else RoundEach(cfg.add, input[0][e], peers)
  {
    var rows := Loaded(cfg, input, initial);
    BlockedIsLeast(cfg.n, SlotElems);
    ReduceAllAt(cfg.add, rows, cfg.n, cfg.ranks, e);
    assert rows[0][e] == input[0][e];
    assert Column(rows, Peers(cfg.ranks), e) == PeerColumn(input, e);
  }

  /** Element e of every peer's tensor, in rank order. */
  function PeerColumn(input: seq<seq<bv16>>, e: nat): (c: seq<bv16>)
    requires 1 <= |input| && forall r :: 0 <= r < |input| ==> e < |input[r]|
    ensures |c| == |input| - 1 && forall j :: 0 <= j < |c| ==> c[j] == input[j + 1][e]
  {
    seq(|input| - 1, j requires 0 <= j < |input| - 1 => input[j + 1][e])
  }

  /** When every rank has returned, every tensor holds the reduced result
      and every flag is back at 0, ready for the next call. */
  lemma DoneMeansReduced(cfg: Config, input: seq<seq<bv16>>, initial: seq<seq<bv16>>, s: System)
    requires Inv(cfg, input, initial, s) && AllDone(s)
    ensures forall r :: 0 <= r < cfg.ranks ==> s.data[r] == Expected(cfg, input, initial)[..cfg.n]
    ensures forall r :: 0 <= r < cfg.ranks ==> s.state[r] == 0
  {
    forall r | 0 <= r < cfg.ranks
      ensures s.data[r] == Expected(cfg, input, initial)[..cfg.n] && s.state[r] == 0
    {
      assert LocalInv(cfg, input, initial, s, r);
    }
  }

  /** No deadlock: until every rank has returned, some rank can take a step. */
  lemma NoDeadlock(cfg: Config, input: seq<seq<bv16>>, initial: seq<seq<bv16>>, s: System)
    requires Inv(cfg, input, initial, s) && !AllDone(s)
    ensures exists r :: 0 <= r < cfg.ranks && Enabled(cfg, s, r)
  {
    assert LocalInv(cfg, input, initial, s, 0);
    if s.pc[0] != Done {
      if s.pc[0].AwaitCopied? || s.pc[0].AwaitAcks? {
        var i := s.pc[0].i;
        assert LocalInv(cfg, input, initial, s, i);
        if !Enabled(cfg, s, i) {
          assert Enabled(cfg, s, 0);
        }
      } else {
        assert Enabled(cfg, s, 0);
      }
    } else {
      var r :| 0 <= r < |s.pc| && s.pc[r] != Done;
      assert LocalInv(cfg, input, initial, s, r);
      assert AckedBelow(cfg.ranks, s.pc[0]) == cfg.ranks;
      assert Enabled(cfg, s, r);
    }
  }

  // ---------------------------------------------------------------------
  // Interleavings.
  // ---------------------------------------------------------------------

  /** A schedule names, step by step, the rank that moves. */
  predicate InRange(cfg: Config, sched: seq<nat>) {
    forall k :: 0 <= k < |sched| ==> sched[k] < cfg.ranks
  }

  /** The state after the ranks move in the order of the schedule. */
  function Run(cfg: Config, s: System, sched: seq<nat>): (t: System)
    requires Shape(cfg, s) && InRange(cfg, sched)
    ensures Shape(cfg, t)
    decreases |sched|
  {
    if sched == [] then s else Run(cfg, Advance(cfg, s, sched[0]), sched[1..])
  }

  /** Every step of the schedule is enabled when it is taken. */
  predicate Schedulable(cfg: Config, s: System, sched: seq<nat>)
    requires Shape(cfg, s) && InRange(cfg, sched)
    decreases |sched|
  {
    sched == [] || (Enabled(cfg, s, sched[0]) && Schedulable(cfg, Advance(cfg, s, sched[0]), sched[1..]))
  }

  /** The invariant holds after every interleaving of enabled steps. */
  lemma {:induction false} RunPreservesInv(cfg: Config, input: seq<seq<bv16>>, initial: seq<seq<bv16>>, s: System, sched: seq<nat>)
    requires Inv(cfg, input, initial, s) && InRange(cfg, sched) && Schedulable(cfg, s, sched)
    ensures Inv(cfg, input, initial, Run(cfg, s, sched))
    decreases |sched|
  {
    if sched != [] {
      StepPreservesInv(cfg, input, initial, s, sched[0]);
      RunPreservesInv(cfg, input, initial, Advance(cfg, s, sched[0]), sched[1..]);
    }
  }

  /** Steps a rank has taken at each position; each step adds exactly one. */
  function Taken(ranks: nat, r: nat, pc: Pc): nat {
    if r == 0 then
      match pc
      case CopyIn => 0
      case Publish => 1
      case AwaitCopied(i) => i + 1
      case Reduce => ranks + 1
      case Finalize => ranks + 2
      case CopyOut => ranks + 3
      case AwaitAcks(i) => ranks + 3 + i
      case ResetOwn => 2 * ranks + 3
      case Done => 2 * ranks + 4
      case _ => 0
    else Phase(r, pc)
  }

  /** Each rank's program is one chain of positions from CopyIn to Done:
      every step from a reachable position other than Done reaches another
      reachable position, one step further on, and never overshoots the
      program's length (2W + 4 steps for rank 0, 7 for a peer). */
  lemma NextPcFollowsProgram(ranks: nat, r: nat, pc: Pc)
    requires 1 <= ranks && r < ranks && WellFormedPc(ranks, r, pc) && pc != Done
    ensures WellFormedPc(ranks, r, NextPc(ranks, r, pc))
    ensures Taken(ranks, r, NextPc(ranks, r, pc)) == Taken(ranks, r, pc) + 1
    ensures Taken(ranks, r, NextPc(ranks, r, pc)) <= if r == 0 then 2 * ranks + 4 else 7
    ensures NextPc(ranks, r, pc) == Done <==> Taken(ranks, r, pc) + 1 == if r == 0 then 2 * ranks + 4 else 7
  {
  }

  /** Steps all ranks together have taken. */
  function TotalTaken(ranks: nat, pc: seq<Pc>): nat
    decreases |pc|
  {
    if pc == [] then 0 else TotalTaken(ranks, pc[..|pc| - 1]) + Taken(ranks, |pc| - 1, pc[|pc| - 1])
  }

  /** Changing one rank's position changes the total by that rank's difference. */
  lemma {:induction false} TotalTakenUpdate(ranks: nat, pc: seq<Pc>, r: nat, p: Pc)
    requires r < |pc|
    ensures TotalTaken(ranks, pc[r := p]) + Taken(ranks, r, pc[r]) == TotalTaken(ranks, pc) + Taken(ranks, r, p)
    decreases |pc|
  {
    var last := |pc| - 1;
    if r < last {
      assert pc[r := p][..last] == pc[..last][r := p];
      TotalTakenUpdate(ranks, pc[..last], r, p);
    } else {
      assert pc[r := p][..last] == pc[..last];
    }
  }

  /** Every enabled step adds exactly one to the total. */
  lemma StepTakesOne(cfg: Config, input: seq<seq<bv16>>, initial: seq<seq<bv16>>, s: System, r: nat)
    requires Inv(cfg, input, initial, s) && r < cfg.ranks && Enabled(cfg, s, r)
    ensures TotalTaken(cfg.ranks, Advance(cfg, s, r).pc) == TotalTaken(cfg.ranks, s.pc) + 1
  {
    assert LocalInv(cfg, input, initial, s, r);
    assert WellFormedPc(cfg.ranks, r, s.pc[r]) && s.pc[r] != Done;
    NextPcFollowsProgram(cfg.ranks, r, s.pc[r]);
    TotalTakenUpdate(cfg.ranks, s.pc, r, NextPc(cfg.ranks, r, s.pc[r]));
  }

  /** Nobody has moved before the call. */
  lemma {:induction false} InitTakenNone(ranks: nat, pc: seq<Pc>)
    requires forall r :: 0 <= r < |pc| ==> pc[r] == CopyIn
    ensures TotalTaken(ranks, pc) == 0
    decreases |pc|
  {
    if pc != [] {
      InitTakenNone(ranks, pc[..|pc| - 1]);
    }
  }

  /** Under the invariant no rank has taken more steps than its program has. */
  lemma {:induction false} TakenBounded(cfg: Config, input: seq<seq<bv16>>, initial: seq<seq<bv16>>, s: System, k: nat)
    requires Inv(cfg, input, initial, s) && k <= cfg.ranks
    ensures TotalTaken(cfg.ranks, s.pc[..k]) <= if k == 0 then 0 else 2 * cfg.ranks + 4 + 7 * (k - 1)
    decreases k
  {
    if k > 0 {
      TakenBounded(cfg, input, initial, s, k - 1);
      assert s.pc[..k][..k - 1] == s.pc[..k - 1];
      assert LocalInv(cfg, input, initial, s, k - 1);
    }
  }

  /** Every interleaving from the start of the call is exactly as long as
      the steps taken, so none is longer than 9W - 3 steps: together with
      NoDeadlock, every interleaving ends with every rank returned. */
  lemma {:induction false} RunIsBounded(cfg: Config, input: seq<seq<bv16>>, initial: seq<seq<bv16>>, s: System, sched: seq<nat>)
    requires Inv(cfg, input, initial, s) && InRange(cfg, sched) && Schedulable(cfg, s, sched)
    ensures TotalTaken(cfg.ranks, Run(cfg, s, sched).pc) == TotalTaken(cfg.ranks, s.pc) + |sched|
    ensures TotalTaken(cfg.ranks, s.pc) + |sched| <= 9 * cfg.ranks - 3
    decreases |sched|
  {
    if sched == [] {
      TakenBounded(cfg, input, initial, s, cfg.ranks);
      assert s.pc[..cfg.ranks] == s.pc;
    } else {
      StepTakesOne(cfg, input, initial, s, sched[0]);
      StepPreservesInv(cfg, input, initial, s, sched[0]);
      RunIsBounded(cfg, input, initial, Advance(cfg, s, sched[0]), sched[1..]);
    }
  }

  /** Running two schedules one after the other is running their concatenation. */
  lemma {:induction false} RunAppend(cfg: Config, s: System, a: seq<nat>, b: seq<nat>)
    requires Shape(cfg, s) && InRange(cfg, a) && InRange(cfg, b)
    ensures InRange(cfg, a + b)
    ensures Run(cfg, s, a + b) == Run(cfg, Run(cfg, s, a), b)
    ensures Schedulable(cfg, s, a + b) <==> Schedulable(cfg, s, a) && Schedulable(cfg, Run(cfg, s, a), b)
    decreases |a|
  {
    if a == [] {
      assert a + b == b;
    } else {
      assert (a + b)[0] == a[0] && (a + b)[1..] == a[1..] + b;
      RunAppend(cfg, Advance(cfg, s, a[0]), a[1..], b);
    }
  }

  /** The schedule of RootMayReturnFirst. */
  const RootFirst: seq<nat> := [0, 0, 1, 1, 0, 0, 0, 0, 1, 1, 1, 0, 0]

  /** With two ranks, rank 0 can return while its peer is still waiting to
      see slot 0 back at 0: rank 0 never waits for the peers to reset. */
  lemma RootMayReturnFirst(cfg: Config, input: seq<seq<bv16>>, initial: seq<seq<bv16>>)
    requires ValidInputs(cfg, input, initial) && cfg.ranks == 2
    ensures var s0 := Init(cfg, input, initial);
            InRange(cfg, RootFirst) && Schedulable(cfg, s0, RootFirst)
            && Run(cfg, s0, RootFirst).pc == [Done, AwaitIdle]
  {
    var s0 := Init(cfg, input, initial);
    assert s0.pc == ControlPc(0) && s0.state == ControlFlags(0);
    RootFirstFrom(cfg, s0, 0);
    assert RootFirst[0..] == RootFirst;
  }

  /** The rest of that schedule, from step k on. */
  lemma {:induction false} RootFirstFrom(cfg: Config, s: System, k: nat)
    requires Shape(cfg, s) && cfg.ranks == 2 && k <= 13
    requires s.pc == ControlPc(k) && s.state == ControlFlags(k)
    ensures InRange(cfg, RootFirst[k..]) && Schedulable(cfg, s, RootFirst[k..])
    ensures Run(cfg, s, RootFirst[k..]).pc == [Done, AwaitIdle]
    decreases 13 - k
  {
    if k < 13 {
      var r := RootFirst[k];
      if k < 7 {
        ControlStepEarly(cfg, s, k, r);
      } else {
        ControlStepLate(cfg, s, k, r);
      }
      RootFirstFrom(cfg, Advance(cfg, s, r), k + 1);
      assert RootFirst[k..][0] == r && RootFirst[k..][1..] == RootFirst[k + 1..];
    }
  }

  /** Positions along the schedule of RootMayReturnFirst. */
  function ControlPc(k: nat): seq<Pc> {
    [[CopyIn, CopyIn], [Publish, CopyIn], [AwaitCopied(1), CopyIn], [AwaitCopied(1), Publish],
     [AwaitCopied(1), AwaitFinal], [Reduce, AwaitFinal], [Finalize, AwaitFinal], [CopyOut, AwaitFinal],
     [AwaitAcks(1), AwaitFinal], [AwaitAcks(1), CopyOut], [AwaitAcks(1), Acknowledge],
     [AwaitAcks(1), AwaitIdle], [ResetOwn, AwaitIdle], [Done, AwaitIdle]][if k <= 13 then k else 13]
  }

  /** Flags along the schedule of RootMayReturnFirst. */
  function ControlFlags(k: nat): seq<int> {
    [[0, 0], [0, 0], [1, 0], [1, 0], [1, 1], [1, 1], [1, 1], [2, 1], [2, 1], [2, 1], [2, 1],
     [2, 2], [2, 2], [0, 2]][if k <= 13 then k else 13]
  }

  /** Steps 0 .. 6 of that schedule are enabled and move as listed. */
  lemma ControlStepEarly(cfg: Config, s: System, k: nat, r: nat)
    requires Shape(cfg, s) && cfg.ranks == 2 && k < 7
    requires r == RootFirst[k]
    requires s.pc == ControlPc(k) && s.state == ControlFlags(k)
    ensures r < cfg.ranks && Enabled(cfg, s, r)
    ensures Advance(cfg, s, r).pc == ControlPc(k + 1) && Advance(cfg, s, r).state == ControlFlags(k + 1)
  {
  }

  /** Steps 7 .. 12 of that schedule are enabled and move as listed. */
  lemma ControlStepLate(cfg: Config, s: System, k: nat, r: nat)
    requires Shape(cfg, s) && cfg.ranks == 2 && 7 <= k < 13
    requires r == RootFirst[k]
    requires s.pc == ControlPc(k) && s.state == ControlFlags(k)
    ensures r < cfg.ranks && Enabled(cfg, s, r)
    ensures Advance(cfg, s, r).pc == ControlPc(k + 1) && Advance(cfg, s, r).state == ControlFlags(k + 1)
  {
  }

  // ---------------------------------------------------------------------
  // The workspace in memory.
  // ---------------------------------------------------------------------

  /** wait_buffer_state_until: spin until the flag reads `target`. The
      successive reads of the flag are `observed`; the source spins forever
      unless one of them matches, so a match is required. The spin stops at
      the first matching read. */
  method WaitBufferStateUntil(observed: seq<int>, target: int) returns (polls: nat)
    requires exists k :: 0 <= k < |observed| && observed[k] == target
    ensures polls < |observed| && observed[polls] == target
    ensures forall k :: 0 <= k < polls ==> observed[k] != target
  {
    polls := 0;
    while observed[polls] != target
      invariant polls < |observed|
      invariant forall k :: 0 <= k < polls ==> observed[k] != target
      invariant exists k :: polls <= k < |observed| && observed[k] == target
      decreases |observed| - polls
    {
      polls := polls + 1;
    }
  }

  /** The first n elements of one row of the workspace. */
  function RowPrefix(area: array2<bv16>, row: nat, n: nat): (v: seq<bv16>)
    reads area
    requires row < area.Length0 && n <= area.Length1
    ensures v == Snapshot(area)[row][..n]
  {
    seq(n, e reads area requires 0 <= e < n => area[row, e])
  }

  /** The slots of the shared workspace (a flag array and the data areas,
      one row per rank) together with every rank's tensor and position. */
  class Workspace {
    const cfg: Config
    const state: array<int>
    const area: array2<bv16>
    var data: seq<seq<bv16>>
    var pc: seq<Pc>

    ghost predicate Valid()
      reads this, state, area
    {
      1 <= cfg.ranks && cfg.n <= SlotElems
      && state.Length == cfg.ranks && area.Length0 == cfg.ranks && area.Length1 == SlotElems
      && |data| == cfg.ranks && |pc| == cfg.ranks
      && (forall r :: 0 <= r < cfg.ranks ==> |data[r]| == cfg.n)
    }

    /** The workspace as a value of the transition system. */
    function Abstract(): (s: System)
      reads this, state, area
      requires Valid()
      ensures Shape(cfg, s)
    {
      System(state[..], Snapshot(area), data, pc)
    }

    /** initialize's part in the handshake: the workspace is allocated with
        whatever its data areas hold and every flag is set to 0. */
    constructor (cfg: Config, input: seq<seq<bv16>>)
      requires 1 <= cfg.ranks && cfg.n <= SlotElems && |input| == cfg.ranks
      requires forall r :: 0 <= r < cfg.ranks ==> |input[r]| == cfg.n
      ensures Valid() && this.cfg == cfg && fresh(state) && fresh(area)
      ensures Abstract() == Init(cfg, input, Snapshot(area))
    {
      this.cfg := cfg;
      var flags := new int[cfg.ranks];
      var i := 0;
      while i < cfg.ranks
        invariant 0 <= i <= cfg.ranks
        invariant forall j :: 0 <= j < i ==> flags[j] == 0
      {
        flags[i] := 0;
        i := i + 1;
      }
      state := flags;
      area := new bv16[cfg.ranks, SlotElems];
      data := input;
      pc := seq(cfg.ranks, r => CopyIn);
      new;
      assert state[..] == seq(cfg.ranks, r => 0);
    }

    /** memcpy(buffer[r].buffer, data, numel * 2). */
    method CopyIntoSlot(r: nat)
      requires Valid() && r < cfg.ranks
      modifies area
      ensures Valid()
      ensures Snapshot(area) == old(Snapshot(area))[r := CopiedIn(cfg.n, data[r], old(Snapshot(area))[r])]
    {
      ghost var S := Snapshot(area);
      forall e | 0 <= e < cfg.n {
        area[r, e] := data[r][e];
      }
      RowsEqual(Snapshot(area), S[r := CopiedIn(cfg.n, data[r], S[r])], SlotElems);
    }

    /** reduce_all_bf16_buffers(buffer, numel, world_size), into slot 0. */
    method ReduceIntoSlot0()
      requires Valid()
      modifies area
      ensures Valid()
      ensures Snapshot(area) == old(Snapshot(area))[0 := ReduceAllResult(cfg.add, old(Snapshot(area)), cfg.n, cfg.ranks)]
    {
      ghost var S := Snapshot(area);
      BlockedIsLeast(cfg.n, SlotElems);
      ReduceAllBf16Buffers(area, cfg.n, cfg.ranks, cfg.add);
      RowsEqual(Snapshot(area), S[0 := ReduceAllResult(cfg.add, S, cfg.n, cfg.ranks)], SlotElems);
    }

    /** One poll or one action of rank r: a wait whose flag does not hold
        the awaited value leaves everything as it was, any other step is
        the step of the transition system. */
    method Step(r: nat)
      requires Valid() && r < cfg.ranks
      modifies this, state, area
      ensures Valid()
      ensures Abstract() == var s := old(Abstract()); if Enabled(cfg, s, r) then Advance(cfg, s, r) else s
    {
      var next := NextPc(cfg.ranks, r, pc[r]);
      match pc[r]
      case CopyIn =>
        CopyIntoSlot(r);
        pc := pc[r := next];
      case Publish =>
        state[r] := 1;
        pc := pc[r := next];
      case AwaitCopied(i) =>
        if i < cfg.ranks && state[i] == 1 {
          pc := pc[r := next];
        }
      case Reduce =>
        ReduceIntoSlot0();
        pc := pc[r := next];
      case Finalize =>
        state[r] := 2;
        pc := pc[r := next];
      case CopyOut =>
        data := data[r := RowPrefix(area, 0, cfg.n)];
        pc := pc[r := next];
      case AwaitAcks(i) =>
        if i < cfg.ranks && state[i] == 2 {
          pc := pc[r := next];
        }
      case AwaitFinal =>
        if state[0] == 2 {
          pc := pc[r := next];
        }
      case Acknowledge =>
        state[r] := 2;
        pc := pc[r := next];
      case AwaitIdle =>
        if state[0] == 0 {
          pc := pc[r := next];
        }
      case ResetOwn =>
        state[r] := 0;
        pc := pc[r := next];
      case Done =>
    }
  }
}
