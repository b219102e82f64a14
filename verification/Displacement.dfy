/** What survives when more transfers arrive than there are transfer slots. */
module Displacement {
  import opened Priorities
  import opened PriorityQueues
  import opened RxModel
  import opened RxRuns

  /** One arrival after the other, with no pop in between. */
  function OfferAll<T>(queues: seq<seq<T>>, arrivals: seq<(Priority, T)>, slots: nat): (r: seq<seq<T>>)
    requires |queues| == LEVELS
    ensures |r| == LEVELS
  {
    if arrivals == [] then queues
    else
      var n := |arrivals| - 1;
      Offer(OfferAll(queues, arrivals[..n], slots), arrivals[n].0, arrivals[n].1, slots)
  }

  /** Everything that was waiting or arrived, by priority and in order of arrival. */
  function Candidates<T>(queues: seq<seq<T>>, arrivals: seq<(Priority, T)>): (r: seq<seq<T>>)
    requires |queues| == LEVELS
    ensures |r| == LEVELS
  {
    if arrivals == [] then queues
    else
      var n := |arrivals| - 1;
      var rest := Candidates(queues, arrivals[..n]);
      rest[arrivals[n].0 := rest[arrivals[n].0] + [arrivals[n].1]]
  }

  function Minus(a: nat, b: nat): nat {
    if a <= b then 0 else a - b
  }

  function Newest<T>(s: seq<T>, n: nat): seq<T> {
    if |s| <= n then s else s[|s| - n..]
  }

  /** Slots that more urgent candidates leave for priority `p`. */
  function Left<T>(candidates: seq<seq<T>>, p: nat, slots: nat): nat
    requires p <= |candidates|
  {
    Minus(slots, CountUpTo(candidates, p))
  }

  /** The best: more urgent first, among equally urgent the newest first, each class in order of arrival. */
  ghost predicate IsBest<T>(queues: seq<seq<T>>, candidates: seq<seq<T>>, slots: nat) {
    && |queues| == LEVELS && |candidates| == LEVELS
    && forall p: Priority :: BestAt(queues, candidates, slots, p)
  }

  ghost predicate BestAt<T>(queues: seq<seq<T>>, candidates: seq<seq<T>>, slots: nat, p: Priority)
    requires |queues| == LEVELS && |candidates| == LEVELS
  {
    queues[p] == Newest(candidates[p], Left(candidates, p, slots))
  }

  lemma {:induction false} BestCount<T>(queues: seq<seq<T>>, candidates: seq<seq<T>>, slots: nat, n: nat)
    requires IsBest(queues, candidates, slots) && n <= LEVELS
    ensures CountUpTo(queues, n) == slots - Minus(slots, CountUpTo(candidates, n))
  {
    if n > 0 {
      BestCount(queues, candidates, slots, n - 1);
      var p: Priority := n - 1;
      assert BestAt(queues, candidates, slots, p);
    }
  }

  lemma {:induction false} CountMonotone<T>(queues: seq<seq<T>>, a: nat, b: nat)
    requires a <= b <= |queues|
    ensures CountUpTo(queues, a) <= CountUpTo(queues, b)
  {
    if a < b {
      CountMonotone(queues, a, b - 1);
    }
  }

  lemma {:induction false} CountAllEmpty<T>(queues: seq<seq<T>>, a: nat, b: nat)
    requires a <= b <= |queues| && forall c :: a <= c < b ==> queues[c] == []
    ensures CountUpTo(queues, a) == CountUpTo(queues, b)
  {
    if a < b {
      CountAllEmpty(queues, a, b - 1);
    }
  }

  /** What the full queue looks like around its least urgent class. */
  lemma FullQueue<T>(queues: seq<seq<T>>, candidates: seq<seq<T>>, slots: nat)
    requires IsBest(queues, candidates, slots) && Count(queues) >= slots > 0
    ensures Worst(queues).Some?
    ensures var w := Worst(queues).value;
      && CountUpTo(candidates, w) < slots <= CountUpTo(candidates, w + 1)
      && |queues[w]| == slots - CountUpTo(candidates, w)
  {
    CountZero(queues, LEVELS);
    var w: nat := Worst(queues).value;
    BestCount(queues, candidates, slots, LEVELS);
    BestCount(queues, candidates, slots, w + 1);
    CountAllEmpty(queues, w + 1, LEVELS);
    assert BestAt(queues, candidates, slots, w);
  }

  /** One more arrival at priority `p`, seen from class `c`. */
  lemma OfferKeepsBest<T>(queues: seq<seq<T>>, candidates: seq<seq<T>>, slots: nat, p: Priority, x: T, c: Priority)
    requires IsBest(queues, candidates, slots) && slots > 0
    ensures BestAt(Offer(queues, p, x, slots), candidates[p := candidates[p] + [x]], slots, c)
  {
    var more := candidates[p := candidates[p] + [x]];
    CountUpdate(candidates, p, candidates[p] + [x], c);
    assert BestAt(queues, candidates, slots, c);
    CountMonotone(candidates, c, LEVELS);
    if Count(queues) < slots {
      BestCount(queues, candidates, slots, LEVELS);
      NotFull(candidates, c);
    } else {
      FullQueue(queues, candidates, slots);
      var w := Worst(queues).value;
      if c < w {
        NotFullBelow(candidates, c, w);
      } else if c > w {
        CountMonotone(candidates, w + 1, c);
      }
    }
  }

  lemma NotFull<T>(candidates: seq<seq<T>>, c: Priority)
    requires |candidates| == LEVELS
    ensures CountUpTo(candidates, c) + |candidates[c]| <= Count(candidates)
  {
    CountMonotone(candidates, c + 1, LEVELS);
  }

  lemma NotFullBelow<T>(candidates: seq<seq<T>>, c: Priority, w: Priority)
    requires |candidates| == LEVELS && c < w
    ensures CountUpTo(candidates, c) + |candidates[c]| <= CountUpTo(candidates, w)
  {
    CountMonotone(candidates, c + 1, w);
  }

  lemma StartIsBest<T>(queues: seq<seq<T>>, slots: nat)
    requires |queues| == LEVELS && Count(queues) <= slots
    ensures IsBest(queues, queues, slots)
  {
    forall p: Priority ensures BestAt(queues, queues, slots, p) {
      NotFull(queues, p);
    }
  }

  /** Displacement is optimal: from any queue that fits, after any arrivals, each class holds exactly its
      newest candidates, as many as the more urgent candidates leave slots for, in order of arrival. */
  lemma {:induction false} DisplacementIsOptimal<T>(queues: seq<seq<T>>, arrivals: seq<(Priority, T)>, slots: nat)
    requires |queues| == LEVELS && Count(queues) <= slots && slots > 0
    ensures IsBest(OfferAll(queues, arrivals, slots), Candidates(queues, arrivals), slots)
  {
    if arrivals == [] {
      StartIsBest(queues, slots);
    } else {
      var n := |arrivals| - 1;
      DisplacementIsOptimal(queues, arrivals[..n], slots);
      var (q, b) := (OfferAll(queues, arrivals[..n], slots), Candidates(queues, arrivals[..n]));
      forall c: Priority
        ensures BestAt(OfferAll(queues, arrivals, slots), Candidates(queues, arrivals), slots, c)
      {
        OfferKeepsBest(q, b, slots, arrivals[n].0, arrivals[n].1, c);
      }
    }
  }

  /** So no transfer is lost while slots are free, and never more are held than there are slots. */
  lemma HeldCount<T>(queues: seq<seq<T>>, arrivals: seq<(Priority, T)>, slots: nat)
    requires |queues| == LEVELS && Count(queues) <= slots && slots > 0
    ensures Count(OfferAll(queues, arrivals, slots)) == MinOf(slots, Count(queues) + |arrivals|)
  {
    DisplacementIsOptimal(queues, arrivals, slots);
    BestCount(OfferAll(queues, arrivals, slots), Candidates(queues, arrivals), slots, LEVELS);
    CandidateCount(queues, arrivals);
  }

  function MinOf(a: nat, b: nat): nat {
    if a <= b then a else b
  }

  lemma {:induction false} CandidateCount<T>(queues: seq<seq<T>>, arrivals: seq<(Priority, T)>)
    requires |queues| == LEVELS
    ensures Count(Candidates(queues, arrivals)) == Count(queues) + |arrivals|
  {
    if arrivals != [] {
      var n := |arrivals| - 1;
      CandidateCount(queues, arrivals[..n]);
      var rest := Candidates(queues, arrivals[..n]);
      CountUpdate(rest, arrivals[n].0, rest[arrivals[n].0] + [arrivals[n].1], LEVELS);
    }
  }

  // ---------------------------------------------------------------- runs of frames

  lemma {:induction false} FramesAreOffers(m: Rx, cfg: Config, frames: seq<RxFrame>)
    requires |m.queues| == LEVELS
    ensures PushAll(m, cfg, frames).queues == OfferAll(m.queues, Arrivals(m, cfg, frames), cfg.transferSlots)
  {
    if frames != [] {
      var n := |frames| - 1;
      var before, earlier := PushAll(m, cfg, frames[..n]), Arrivals(m, cfg, frames[..n]);
      FramesAreOffers(m, cfg, frames[..n]);
      PushFrameOffers(before, cfg, frames[n]);
      var done := Completed(before, cfg, frames[n]);
      if done.Some? {
        assert (earlier + [done.value])[..|earlier|] == earlier;
      } else {
        assert earlier + [] == earlier;
      }
    }
  }

  /** Over any run of frames with no pop the queues hold exactly the best of what was waiting and what the frames
      completed. */
  lemma FramesKeepBest(m: Rx, cfg: Config, frames: seq<RxFrame>)
    requires |m.queues| == LEVELS && Count(m.queues) <= cfg.transferSlots && cfg.transferSlots > 0
    ensures IsBest(PushAll(m, cfg, frames).queues, Candidates(m.queues, Arrivals(m, cfg, frames)), cfg.transferSlots)
  {
    FramesAreOffers(m, cfg, frames);
    DisplacementIsOptimal(m.queues, Arrivals(m, cfg, frames), cfg.transferSlots);
  }
}
