/** Consecutive calls of all_reduce_low_latency, flags and positions only.

    The workspace flags outlive a call: every rank returns as soon as its
    own program ends and may start the next call at once. Here each rank
    runs `calls` calls back to back and the ranks interleave arbitrarily.
    The data areas and tensors play no part in whether a rank can move, so
    this model keeps only the flags and the positions. Two versions of rank
    0's program are compared: the one in the source, and one that, after
    resetting its own flag, waits until no peer still shows 2. */
module Rounds {
  import opened Handshake

  /** Rank 0's program as written, or with the wait for the peers' resets. */
  datatype Variant = AsWritten | WaitForResets

  /** A position within one call: a step of the handshake, or rank 0
      waiting for peer i's flag to leave 2. */
  datatype Spot = At(pc: Pc) | AwaitReset(i: nat)

  /** A rank's position: which call it is in and where in that call. */
  datatype Pos = Pos(call: nat, spot: Spot)

  /** The flags and every rank's position, indexed by rank. */
  datatype Ctl = Ctl(state: seq<int>, pos: seq<Pos>)

  /** The world size and the number of calls every rank makes. */
  datatype Job = Job(ranks: nat, calls: nat)

  predicate Sized(job: Job, c: Ctl) {
    1 <= job.ranks && 1 <= job.calls && |c.state| == job.ranks && |c.pos| == job.ranks
  }

  /** A rank's own flag after its step at pc: the writes 1, 2, 2 and 0 of
      the handshake, and no change at every other step. */
  function OwnFlag(pc: Pc, f: int): int {
    match pc
    case Publish => 1
    case Finalize => 2
    case Acknowledge => 2
    case ResetOwn => 0
    case _ => f
  }

  /** Rank 0's next wait for a reset peer, or the return once none is left. */
  function NextReset(ranks: nat, i: nat): Spot {
    if i < ranks then AwaitReset(i) else At(Done)
  }

  /** Rank r's position after its next step. A returned rank starts its
      next call from the copy-in. */
  function NextPos(v: Variant, ranks: nat, r: nat, p: Pos): Pos {
    match p.spot
    case At(Done) => Pos(p.call + 1, At(CopyIn))
    case At(ResetOwn) =>
      Pos(p.call, if v == WaitForResets && r == 0 then NextReset(ranks, 1) else At(Done))
    case At(pc) => Pos(p.call, At(NextPc(ranks, r, pc)))
    case AwaitReset(i) => Pos(p.call, NextReset(ranks, i + 1))
  }

  /** Rank r can move: a returned rank can start another call while calls
      remain, a wait needs its flag, every other step can always go. */
  predicate Ready(job: Job, c: Ctl, r: nat)
    requires Sized(job, c) && r < job.ranks
  {
    var p := c.pos[r];
    match p.spot
    case At(Done) => p.call + 1 < job.calls
    case At(pc) => WaitHolds(job.ranks, c.state, pc)
    case AwaitReset(i) => i < job.ranks && c.state[i] != 2
  }

  /** Rank r's next step: its own flag and its own position change. */
  function Move(v: Variant, job: Job, c: Ctl, r: nat): (c': Ctl)
    requires Sized(job, c) && r < job.ranks
    ensures Sized(job, c')
    ensures forall j :: 0 <= j < job.ranks && j != r ==> c'.state[j] == c.state[j] && c'.pos[j] == c.pos[j]
    ensures c'.pos[r] == NextPos(v, job.ranks, r, c.pos[r])
  {
    var f := match c.pos[r].spot
      case At(pc) => OwnFlag(pc, c.state[r])
      case AwaitReset(_) => c.state[r];
    Ctl(c.state[r := f], c.pos[r := NextPos(v, job.ranks, r, c.pos[r])])
  }

  /** Before the first call: every flag 0, every rank at its first copy-in. */
  function Start(job: Job): (c: Ctl)
    requires 1 <= job.ranks && 1 <= job.calls
    ensures Sized(job, c)
  {
    Ctl(seq(job.ranks, r => 0), seq(job.ranks, r => Pos(0, At(CopyIn))))
  }

  /** Every rank has returned from its last call. */
  predicate Finished(job: Job, c: Ctl) {
    forall r :: 0 <= r < |c.pos| ==> c.pos[r].spot == At(Done) && c.pos[r].call + 1 == job.calls
  }

  /** No rank can move although some rank has not returned from its last call. */
  predicate Deadlocked(job: Job, c: Ctl)
    requires Sized(job, c)
  {
    !Finished(job, c) && forall r :: 0 <= r < job.ranks ==> !Ready(job, c, r)
  }

  /** A schedule names, step by step, the rank that moves. */
  predicate Ranks(job: Job, sched: seq<nat>) {
    forall k :: 0 <= k < |sched| ==> sched[k] < job.ranks
  }

  /** The state after the ranks move in the order of the schedule. */
  function Play(v: Variant, job: Job, c: Ctl, sched: seq<nat>): (t: Ctl)
    requires Sized(job, c) && Ranks(job, sched)
    ensures Sized(job, t)
    decreases |sched|
  {
    if sched == [] then c else Play(v, job, Move(v, job, c, sched[0]), sched[1..])
  }

  /** Every step of the schedule can be taken when it is taken. */
  predicate Playable(v: Variant, job: Job, c: Ctl, sched: seq<nat>)
    requires Sized(job, c) && Ranks(job, sched)
    decreases |sched|
  {
    sched == [] || (Ready(job, c, sched[0]) && Playable(v, job, Move(v, job, c, sched[0]), sched[1..]))
  }

  // ---------------------------------------------------------------------
  // The link to the single-call handshake.
  // ---------------------------------------------------------------------

  /** The flags and positions of a handshake state, in its only call. */
  function Lift(s: System): (c: Ctl)
    ensures c.state == s.state && |c.pos| == |s.pc|
    ensures forall r :: 0 <= r < |s.pc| ==> c.pos[r] == Pos(0, At(s.pc[r]))
  {
    Ctl(s.state, seq(|s.pc|, r requires 0 <= r < |s.pc| => Pos(0, At(s.pc[r]))))
  }

  /** With one call, the source's program here is the handshake's: a rank
      can move exactly when the handshake lets it, and its move has the
      same effect on the flags and positions. */
  lemma OneCallIsHandshake(cfg: Config, s: System, r: nat)
    requires Shape(cfg, s) && r < cfg.ranks
    ensures Sized(Job(cfg.ranks, 1), Lift(s))
    ensures Ready(Job(cfg.ranks, 1), Lift(s), r) <==> Enabled(cfg, s, r)
    ensures Enabled(cfg, s, r) ==> Move(AsWritten, Job(cfg.ranks, 1), Lift(s), r) == Lift(Advance(cfg, s, r))
  {
    var job := Job(cfg.ranks, 1);
    if Enabled(cfg, s, r) {
      var a := Move(AsWritten, job, Lift(s), r);
      var b := Lift(Advance(cfg, s, r));
      assert a.state == b.state;
      assert a.pos == b.pos;
    }
  }

  // ---------------------------------------------------------------------
  // As written: a lost wake-up across two calls.
  // ---------------------------------------------------------------------

  /** Two ranks, two calls. Rank 0 finishes its first call while its peer
      still waits for flag 0, starts the second call and publishes 1 before
      the peer reads the 0. */
  const Lost: seq<nat> := [0, 0, 1, 1, 0, 0, 0, 0, 1, 1, 1, 0, 0, 0, 0, 0]

  /** After that schedule neither rank can ever move again: rank 0 waits
      for the peer's flag to be 1 while it shows the 2 of its
      acknowledgement, and the peer waits for rank 0's flag to be 0 while
      it shows 1. */
  lemma LostWakeup(job: Job)
    requires job == Job(2, 2)
    ensures Ranks(job, Lost) && Playable(AsWritten, job, Start(job), Lost)
    ensures Deadlocked(job, Play(AsWritten, job, Start(job), Lost))
  {
    assert Start(job) == LostTrace(0);
    LostFrom(job, 0);
    assert Lost[0..] == Lost;
    LostStuck(job);
  }

  /** The last state of that schedule is a deadlock. */
  lemma LostStuck(job: Job)
    requires job == Job(2, 2)
    ensures Sized(job, LostTrace(16)) && Deadlocked(job, LostTrace(16))
  {
    var t := LostTrace(16);
    assert t.pos[1].spot != At(Done);
    assert !Ready(job, t, 0) && !Ready(job, t, 1);
  }

  /** The rest of that schedule, from step k on. */
  lemma {:induction false} LostFrom(job: Job, k: nat)
    requires job == Job(2, 2) && k <= 16
    ensures Ranks(job, Lost[k..]) && Playable(AsWritten, job, LostTrace(k), Lost[k..])
            && Play(AsWritten, job, LostTrace(k), Lost[k..]) == LostTrace(16)
    decreases 16 - k
  {
    LostInRange(job);
    if k < 16 {
      var r := Lost[k];
      if k < 4 {
        LostSteps0To3(k, r);
      } else if k < 8 {
        LostSteps4To7(k, r);
      } else if k < 12 {
        LostSteps8To11(k, r);
      } else {
        LostSteps12To15(k, r);
      }
      LostFrom(job, k + 1);
      assert Lost[k..][0] == r && Lost[k..][1..] == Lost[k + 1..];
    }
  }

  /** Every rank that schedule names is rank 0 or rank 1. */
  lemma LostInRange(job: Job)
    requires job == Job(2, 2)
    ensures |Lost| == 16 && Ranks(job, Lost)
    ensures forall k :: 0 <= k <= 16 ==> Ranks(job, Lost[k..])
  {
  }

  /** The states along that schedule. */
  function LostTrace(k: nat): Ctl {
    [Ctl([0, 0], [Pos(0, At(CopyIn)), Pos(0, At(CopyIn))]),
     Ctl([0, 0], [Pos(0, At(Publish)), Pos(0, At(CopyIn))]),
     Ctl([1, 0], [Pos(0, At(AwaitCopied(1))), Pos(0, At(CopyIn))]),
     Ctl([1, 0], [Pos(0, At(AwaitCopied(1))), Pos(0, At(Publish))]),
     Ctl([1, 1], [Pos(0, At(AwaitCopied(1))), Pos(0, At(AwaitFinal))]),
     Ctl([1, 1], [Pos(0, At(Reduce)), Pos(0, At(AwaitFinal))]),
     Ctl([1, 1], [Pos(0, At(Finalize)), Pos(0, At(AwaitFinal))]),
     Ctl([2, 1], [Pos(0, At(CopyOut)), Pos(0, At(AwaitFinal))]),
     Ctl([2, 1], [Pos(0, At(AwaitAcks(1))), Pos(0, At(AwaitFinal))]),
     Ctl([2, 1], [Pos(0, At(AwaitAcks(1))), Pos(0, At(CopyOut))]),
     Ctl([2, 1], [Pos(0, At(AwaitAcks(1))), Pos(0, At(Acknowledge))]),
     Ctl([2, 2], [Pos(0, At(AwaitAcks(1))), Pos(0, At(AwaitIdle))]),
     Ctl([2, 2], [Pos(0, At(ResetOwn)), Pos(0, At(AwaitIdle))]),
     Ctl([0, 2], [Pos(0, At(Done)), Pos(0, At(AwaitIdle))]),
     Ctl([0, 2], [Pos(1, At(CopyIn)), Pos(0, At(AwaitIdle))]),
     Ctl([0, 2], [Pos(1, At(Publish)), Pos(0, At(AwaitIdle))]),
     Ctl([1, 2], [Pos(1, At(AwaitCopied(1))), Pos(0, At(AwaitIdle))])][if k <= 16 then k else 16]
  }

  /** Steps 0 .. 3 of that schedule can be taken and move as listed. */
  lemma LostSteps0To3(k: nat, r: nat)
    requires k < 4 && r == Lost[k]
    ensures var job := Job(2, 2);
            Sized(job, LostTrace(k)) && r < 2 && Ready(job, LostTrace(k), r)
            && Move(AsWritten, job, LostTrace(k), r) == LostTrace(k + 1)
  {
  }

  /** Steps 4 .. 7 of that schedule can be taken and move as listed. */
  lemma LostSteps4To7(k: nat, r: nat)
    requires 4 <= k < 8 && r == Lost[k]
    ensures var job := Job(2, 2);
            Sized(job, LostTrace(k)) && r < 2 && Ready(job, LostTrace(k), r)
            && Move(AsWritten, job, LostTrace(k), r) == LostTrace(k + 1)
  {
  }

  /** Steps 8 .. 11 of that schedule can be taken and move as listed. */
  lemma LostSteps8To11(k: nat, r: nat)
    requires 8 <= k < 12 && r == Lost[k]
    ensures var job := Job(2, 2);
            Sized(job, LostTrace(k)) && r < 2 && Ready(job, LostTrace(k), r)
            && Move(AsWritten, job, LostTrace(k), r) == LostTrace(k + 1)
  {
  }

  /** Steps 12 .. 15 of that schedule can be taken and move as listed. */
  lemma LostSteps12To15(k: nat, r: nat)
    requires 12 <= k < 16 && r == Lost[k]
    ensures var job := Job(2, 2);
            Sized(job, LostTrace(k)) && r < 2 && Ready(job, LostTrace(k), r)
            && Move(AsWritten, job, LostTrace(k), r) == LostTrace(k + 1)
  {
  }

  // ---------------------------------------------------------------------
  // Corrected: rank 0 returns only once no peer shows 2.
  // ---------------------------------------------------------------------

  /** How far a rank is through one call, counting its actions. Rank 0
      goes up to 9: 8 while it waits for the resets, 9 once returned. */
  function Stage(r: nat, s: Spot): nat {
    if r == 0 then
      match s
      case AwaitReset(_) => 8
      case At(Done) => 9
      case At(pc) => Phase(0, pc)
    else
      match s
      case At(pc) => Phase(r, pc)
      case AwaitReset(_) => 0
  }

  /** The positions the corrected programs reach. */
  predicate SpotOk(ranks: nat, r: nat, s: Spot) {
    match s
    case At(pc) => WellFormedPc(ranks, r, pc)
    case AwaitReset(i) => r == 0 && 1 <= i < ranks
  }

  /** The flag a rank's own slot holds at each position. */
  function SpotFlag(r: nat, s: Spot): int {
    match s
    case At(pc) => FlagAt(r, pc)
    case AwaitReset(_) => 0
  }

  /** Peers below this bound have certainly copied in, as rank 0 has seen. */
  function CopiedFrom(ranks: nat, s: Spot): nat {
    match s
    case At(pc) => CopiedBelow(ranks, pc)
    case AwaitReset(_) => ranks
  }

  /** Peers below this bound have certainly acknowledged, as rank 0 has seen. */
  function AckedFrom(ranks: nat, s: Spot): nat {
    match s
    case At(pc) => AckedBelow(ranks, pc)
    case AwaitReset(_) => ranks
  }

  /** Peers below this bound have certainly reset, as rank 0 has seen. */
  function ResetFrom(ranks: nat, s: Spot): nat {
    match s
    case AwaitReset(i) => i
    case At(Done) => ranks
    case _ => 1
  }

  /** Where peer j can be, given rank 0's position: in the same call and
      ordered as in a single call, one call ahead but stopped before the
      copy-out while rank 0 waits for the resets or has returned, or one
      call behind, returned, and not yet waited for by rank 0. */
  predicate PeerOrder(ranks: nat, p0: Pos, j: nat, pj: Pos) {
    var a := Stage(0, p0.spot);
    var b := Stage(j, pj.spot);
    if pj.call == p0.call then
      (j < CopiedFrom(ranks, p0.spot) ==> b >= 2)
      && (j < AckedFrom(ranks, p0.spot) ==> b >= 5)
      && (b >= 3 ==> a >= 5)
      && (b >= 6 ==> a >= 8)
      && (j < ResetFrom(ranks, p0.spot) ==> b == 7)
    else if pj.call == p0.call + 1 then
      a >= 8 && b <= 2
    else
      pj.call + 1 == p0.call && b == 7 && CopiedFrom(ranks, p0.spot) <= j
  }

  /** The inductive invariant of the corrected programs over all calls. */
  predicate CallsInv(job: Job, c: Ctl) {
    Sized(job, c)
    && (forall r :: 0 <= r < job.ranks ==>
          c.pos[r].call < job.calls && SpotOk(job.ranks, r, c.pos[r].spot)
          && c.state[r] == SpotFlag(r, c.pos[r].spot))
    && (forall j :: 1 <= j < job.ranks ==> PeerOrder(job.ranks, c.pos[0], j, c.pos[j]))
  }

  /** The invariant holds before the first call. */
  lemma StartInv(job: Job)
    requires 1 <= job.ranks && 1 <= job.calls
    ensures CallsInv(job, Start(job))
  {
  }

  /** A moving rank's own flag, call and position stay as the invariant says. */
  lemma OwnMove(ranks: nat, calls: nat, r: nat, p: Pos, f: int)
    requires r < ranks && p.call < calls && SpotOk(ranks, r, p.spot) && f == SpotFlag(r, p.spot)
    requires p.spot == At(Done) ==> p.call + 1 < calls
    ensures var p' := NextPos(WaitForResets, ranks, r, p);
            var f' := match p.spot case At(pc) => OwnFlag(pc, f) case AwaitReset(_) => f;
            p'.call < calls && SpotOk(ranks, r, p'.spot) && f' == SpotFlag(r, p'.spot)
  {
  }

  /** A peer's move keeps its place relative to rank 0. Its waits are
      both on rank 0's flag. */
  lemma PeerMoveOrder(ranks: nat, calls: nat, p0: Pos, j: nat, pj: Pos)
    requires 1 <= j < ranks && p0.call < calls && pj.call < calls
    requires SpotOk(ranks, 0, p0.spot) && SpotOk(ranks, j, pj.spot) && PeerOrder(ranks, p0, j, pj)
    requires pj.spot == At(Done) ==> pj.call + 1 < calls
    requires pj.spot == At(AwaitFinal) ==> SpotFlag(0, p0.spot) == 2
    requires pj.spot == At(AwaitIdle) ==> SpotFlag(0, p0.spot) == 0
    ensures PeerOrder(ranks, p0, j, NextPos(WaitForResets, ranks, j, pj))
  {
  }

  /** Rank 0's move keeps every peer's place relative to it; a wait of
      rank 0 on peer j has seen j's flag. */
  lemma RootMoveOrder(ranks: nat, calls: nat, p0: Pos, j: nat, pj: Pos)
    requires 1 <= j < ranks && p0.call < calls && pj.call < calls
    requires SpotOk(ranks, 0, p0.spot) && SpotOk(ranks, j, pj.spot) && PeerOrder(ranks, p0, j, pj)
    requires p0.spot == At(AwaitCopied(j)) ==> SpotFlag(j, pj.spot) == 1
    requires p0.spot == At(AwaitAcks(j)) ==> SpotFlag(j, pj.spot) == 2
    requires p0.spot == AwaitReset(j) ==> SpotFlag(j, pj.spot) != 2
    ensures PeerOrder(ranks, NextPos(WaitForResets, ranks, 0, p0), j, pj)
  {
  }

  /** Every move the corrected programs can make keeps the invariant. */
  lemma MovePreservesInv(job: Job, c: Ctl, r: nat)
    requires CallsInv(job, c) && r < job.ranks && Ready(job, c, r)
    ensures CallsInv(job, Move(WaitForResets, job, c, r))
  {
    var c' := Move(WaitForResets, job, c, r);
    OwnMove(job.ranks, job.calls, r, c.pos[r], c.state[r]);
    if r == 0 {
      forall j | 1 <= j < job.ranks
        ensures PeerOrder(job.ranks, c'.pos[0], j, c'.pos[j])
      {
        RootMoveOrder(job.ranks, job.calls, c.pos[0], j, c.pos[j]);
      }
    } else {
      PeerMoveOrder(job.ranks, job.calls, c.pos[0], r, c.pos[r]);
    }
  }

  /** The invariant holds after every schedule of possible moves. */
  lemma {:induction false} PlayPreservesInv(job: Job, c: Ctl, sched: seq<nat>)
    requires CallsInv(job, c) && Ranks(job, sched) && Playable(WaitForResets, job, c, sched)
    ensures CallsInv(job, Play(WaitForResets, job, c, sched))
    decreases |sched|
  {
    if sched != [] {
      MovePreservesInv(job, c, sched[0]);
      PlayPreservesInv(job, Move(WaitForResets, job, c, sched[0]), sched[1..]);
    }
  }

  /** Rank 0 returned from the last call means every peer has too. */
  lemma RootLastMeansFinished(job: Job, c: Ctl)
    requires CallsInv(job, c) && c.pos[0] == Pos(job.calls - 1, At(Done))
    ensures Finished(job, c)
  {
    forall r | 0 <= r < |c.pos|
      ensures c.pos[r].spot == At(Done) && c.pos[r].call + 1 == job.calls
    {
      if r != 0 {
        assert PeerOrder(job.ranks, c.pos[0], r, c.pos[r]);
      }
    }
  }

  /** Under the invariant every rank has returned from its last call, or
      some rank can move. */
  lemma CanMove(job: Job, c: Ctl)
    requires CallsInv(job, c)
    ensures Finished(job, c) || exists r :: 0 <= r < job.ranks && Ready(job, c, r)
  {
    var p0 := c.pos[0];
    if p0.spot.AwaitReset? || (p0.spot.At? && (p0.spot.pc.AwaitCopied? || p0.spot.pc.AwaitAcks?)) {
      var i := if p0.spot.AwaitReset? then p0.spot.i else p0.spot.pc.i;
      assert PeerOrder(job.ranks, p0, i, c.pos[i]);
      if !Ready(job, c, 0) {
        assert Ready(job, c, i);
      }
    } else if p0.spot == At(Done) {
      if p0.call + 1 < job.calls {
        assert Ready(job, c, 0);
      } else {
        RootLastMeansFinished(job, c);
      }
    } else {
      assert Ready(job, c, 0);
    }
  }

  /** The corrected programs never deadlock, whatever the number of calls
      and however the ranks interleave: unlike LostWakeup for the source. */
  lemma NeverDeadlocked(job: Job, sched: seq<nat>)
    requires 1 <= job.ranks && 1 <= job.calls
    requires Ranks(job, sched) && Playable(WaitForResets, job, Start(job), sched)
    ensures !Deadlocked(job, Play(WaitForResets, job, Start(job), sched))
  {
    StartInv(job);
    PlayPreservesInv(job, Start(job), sched);
    CanMove(job, Play(WaitForResets, job, Start(job), sched));
  }

  /** The moves of one call of a rank, including the start of the next
      call: 3W + 4 for rank 0's corrected program, 8 for a peer. */
  function Per(ranks: nat, r: nat): nat {
    if r == 0 then 3 * ranks + 4 else 8
  }

  /** Moves a rank has made within its current call. */
  function Within(ranks: nat, r: nat, s: Spot): nat {
    if r == 0 then
      match s
      case At(CopyIn) => 0
      case At(Publish) => 1
      case At(AwaitCopied(i)) => i + 1
      case At(Reduce) => ranks + 1
      case At(Finalize) => ranks + 2
      case At(CopyOut) => ranks + 3
      case At(AwaitAcks(i)) => ranks + 3 + i
      case At(ResetOwn) => 2 * ranks + 3
      case AwaitReset(i) => 2 * ranks + 3 + i
      case At(Done) => 3 * ranks + 3
      case _ => 0
    else
      Stage(r, s)
  }

  /** Moves a rank has made since the start of its first call. */
  function Work(ranks: nat, r: nat, p: Pos): nat {
    p.call * Per(ranks, r) + Within(ranks, r, p.spot)
  }

  /** Within a call a rank's count stays below the call's moves, and a
      returned rank has made all but the start of its next call. */
  lemma WithinBelowPer(ranks: nat, r: nat, s: Spot)
    requires r < ranks && SpotOk(ranks, r, s)
    ensures Within(ranks, r, s) < Per(ranks, r)
    ensures s == At(Done) ==> Within(ranks, r, s) + 1 == Per(ranks, r)
  {
  }

  /** Every move other than the start of a call adds one within the call. */
  lemma WithinStep(ranks: nat, r: nat, s: Spot)
    requires r < ranks && SpotOk(ranks, r, s) && s != At(Done)
    ensures NextPos(WaitForResets, ranks, r, Pos(0, s)).call == 0
    ensures Within(ranks, r, NextPos(WaitForResets, ranks, r, Pos(0, s)).spot) == Within(ranks, r, s) + 1
  {
  }

  lemma MulSucc(a: nat, m: int)
    ensures (a + 1) * m == a * m + m
  {
  }

  lemma MulMono(a: nat, b: nat, m: nat)
    requires a <= b
    ensures a * m <= b * m
  {
  }

  /** A possible move adds exactly one to that rank's count. */
  lemma MoveWorkOne(ranks: nat, calls: nat, r: nat, p: Pos)
    requires r < ranks && SpotOk(ranks, r, p.spot)
    ensures Work(ranks, r, NextPos(WaitForResets, ranks, r, p)) == Work(ranks, r, p) + 1
  {
    var p' := NextPos(WaitForResets, ranks, r, p);
    if p.spot == At(Done) {
      WithinBelowPer(ranks, r, p.spot);
      MulSucc(p.call, Per(ranks, r));
    } else {
      WithinStep(ranks, r, p.spot);
      assert p' == Pos(p.call, NextPos(WaitForResets, ranks, r, Pos(0, p.spot)).spot);
    }
  }

  /** Before the end of the last call, a rank has made at most
      calls * Per - 1 moves. */
  lemma WorkAtMost(ranks: nat, calls: nat, r: nat, p: Pos)
    requires r < ranks && p.call < calls && SpotOk(ranks, r, p.spot)
    ensures Work(ranks, r, p) <= calls * Per(ranks, r) - 1
  {
    WithinBelowPer(ranks, r, p.spot);
    MulMono(p.call, calls - 1, Per(ranks, r));
    MulSucc(calls - 1, Per(ranks, r));
  }

  /** Moves all ranks together have made. */
  function TotalWork(ranks: nat, pos: seq<Pos>): nat
    decreases |pos|
  {
    if pos == [] then 0 else TotalWork(ranks, pos[..|pos| - 1]) + Work(ranks, |pos| - 1, pos[|pos| - 1])
  }

  /** The most moves ranks 0 .. k-1 can make over `calls` calls. */
  function Cap(ranks: nat, calls: nat, k: nat): int {
    if k == 0 then 0 else Cap(ranks, calls, k - 1) + calls * Per(ranks, k - 1) - 1
  }

  /** That most, in closed form. */
  lemma {:induction false} CapIs(ranks: nat, calls: nat, k: nat)
    requires 1 <= k
    ensures Cap(ranks, calls, k) == calls * (3 * ranks + 4) - 1 + (k - 1) * (calls * 8 - 1)
  {
    if k > 1 {
      CapIs(ranks, calls, k - 1);
      MulSucc(k - 2, calls * 8 - 1);
    }
  }

  /** For all W ranks: calls * (11W - 4) - W. */
  lemma CapAll(ranks: nat, calls: nat)
    requires 1 <= ranks
    ensures Cap(ranks, calls, ranks) == calls * (11 * ranks - 4) - ranks
  {
    CapIs(ranks, calls, ranks);
    var w := ranks - 1;
    assert (w + 1) * 3 * calls + 4 * calls - 1 + w * (calls * 8 - 1) == calls * (11 * (w + 1) - 4) - (w + 1);
  }

  /** Changing one rank's position changes the total by that rank's difference. */
  lemma {:induction false} TotalWorkUpdate(ranks: nat, pos: seq<Pos>, r: nat, p: Pos)
    requires r < |pos|
    ensures TotalWork(ranks, pos[r := p]) + Work(ranks, r, pos[r]) == TotalWork(ranks, pos) + Work(ranks, r, p)
    decreases |pos|
  {
    var last := |pos| - 1;
    if r < last {
      assert pos[r := p][..last] == pos[..last][r := p];
      TotalWorkUpdate(ranks, pos[..last], r, p);
    } else {
      assert pos[r := p][..last] == pos[..last];
    }
  }

  /** A possible move adds exactly one to the total. */
  lemma MoveWorksOne(job: Job, c: Ctl, r: nat)
    requires CallsInv(job, c) && r < job.ranks
    ensures TotalWork(job.ranks, Move(WaitForResets, job, c, r).pos) == TotalWork(job.ranks, c.pos) + 1
  {
    MoveWorkOne(job.ranks, job.calls, r, c.pos[r]);
    TotalWorkUpdate(job.ranks, c.pos, r, NextPos(WaitForResets, job.ranks, r, c.pos[r]));
  }

  /** While no rank is past its last call, the first k ranks have made at
      most Cap moves. */
  lemma {:induction false} WorkBounded(ranks: nat, calls: nat, pos: seq<Pos>, k: nat)
    requires k <= |pos| <= ranks
    requires forall r :: 0 <= r < |pos| ==> pos[r].call < calls && SpotOk(ranks, r, pos[r].spot)
    ensures TotalWork(ranks, pos[..k]) <= Cap(ranks, calls, k)
    decreases k
  {
    if k > 0 {
      WorkBounded(ranks, calls, pos, k - 1);
      var pre := pos[..k];
      assert pre[..k - 1] == pos[..k - 1] && pre[k - 1] == pos[k - 1];
      WorkAtMost(ranks, calls, k - 1, pos[k - 1]);
    }
  }

  /** Under the invariant all ranks together have made at most
      calls * (11W - 4) - W moves. */
  lemma InvBounded(job: Job, c: Ctl)
    requires CallsInv(job, c)
    ensures TotalWork(job.ranks, c.pos) <= job.calls * (11 * job.ranks - 4) - job.ranks
  {
    WorkBounded(job.ranks, job.calls, c.pos, job.ranks);
    assert c.pos[..job.ranks] == c.pos;
    CapAll(job.ranks, job.calls);
  }

  /** Every schedule of the corrected programs from the start has at most
      calls * (11W - 4) - W moves: with NeverDeadlocked, every schedule that
      cannot be extended ends with every rank returned from its last call. */
  lemma {:induction false} PlayIsBounded(job: Job, c: Ctl, sched: seq<nat>)
    requires CallsInv(job, c) && Ranks(job, sched) && Playable(WaitForResets, job, c, sched)
    ensures TotalWork(job.ranks, Play(WaitForResets, job, c, sched).pos) == TotalWork(job.ranks, c.pos) + |sched|
    ensures TotalWork(job.ranks, c.pos) + |sched| <= job.calls * (11 * job.ranks - 4) - job.ranks
    decreases |sched|
  {
    if sched == [] {
      InvBounded(job, c);
    } else {
      MoveWorksOne(job, c, sched[0]);
      MovePreservesInv(job, c, sched[0]);
      PlayIsBounded(job, Move(WaitForResets, job, c, sched[0]), sched[1..]);
    }
  }
}
