/** The audio mixer's bookkeeping: a list of playing instances whose cursors
    advance on every poll. Finished one-shot instances are dropped and looping
    ones wrap around their buffer. */
module Mixer {
  import opened Ints
  import opened Vecs

  /** An `f32` volume; it only reaches the mix through the `scale` parameter. */
  type Volume = real

  /** A decoded sound: interleaved `i16` samples. */
  datatype Audio = Audio(buffer: seq<i16>)

  datatype AudioInstance = AudioInstance(audio: Audio, index: nat, volume: Volume, doLoop: bool)

  /** A one-shot instance's cursor never passes the end of its buffer. */
  predicate IndexInRange(p: AudioInstance) {
    p.doLoop || p.index <= |p.audio.buffer|
  }

  /** `remaining_samples` */
  function Remaining(p: AudioInstance, n: nat): nat
    requires IndexInRange(p)
  {
    if p.doLoop then n else |p.audio.buffer| - p.index
  }

  /** How many leading slots of an `out` of length `n` the instance adds into. */
  function Written(p: AudioInstance, n: nat): (r: nat)
    requires IndexInRange(p)
    ensures r <= n
    ensures p.doLoop ==> r == n
    ensures !p.doLoop ==> r == n || r == |p.audio.buffer| - p.index
    ensures !p.doLoop ==> p.index + r <= |p.audio.buffer|
  {
    if n <= Remaining(p, n) then n else Remaining(p, n)
  }

  /** `requested_samples >= remaining_samples && !instance.do_loop` */
  predicate Finished(p: AudioInstance, n: nat)
    requires IndexInRange(p)
  {
    n >= Remaining(p, n) && !p.doLoop
  }

  /** A looping instance with no samples and a non-empty `out`: `% 0` panics. */
  predicate DividesByZero(p: AudioInstance, n: nat) {
    p.doLoop && |p.audio.buffer| == 0 && n > 0
  }

  /** The instance after the poll: its cursor moves on by `n` unless it finished. */
  function Advanced(p: AudioInstance, n: nat): (r: AudioInstance)
    requires IndexInRange(p)
    ensures r.audio == p.audio && r.volume == p.volume && r.doLoop == p.doLoop
    ensures !Finished(p, n) ==> IndexInRange(r) && r.index == p.index + n
  {
    if Finished(p, n) then p else p.(index := p.index + n)
  }

  /** The sample an instance contributes to slot `k`. */
  function SampleAt(p: AudioInstance, k: nat): i16
    requires |p.audio.buffer| > 0
  {
    p.audio.buffer[(p.index + k) % |p.audio.buffer|]
  }

  /** One instance added into `out`: slot `k` gets the scaled sample for `k`
      while `k` is below `Written`, and keeps its value after that. */
  function MixOne(out: seq<i16>, p: AudioInstance, scale: (i16, Volume) -> i16): (r: seq<i16>)
    requires IndexInRange(p) && !DividesByZero(p, |out|)
    ensures |r| == |out|
  {
    seq(|out|, k requires 0 <= k < |out| =>
      if k < Written(p, |out|) then WrapAddI16(out[k], scale(SampleAt(p, k), p.volume)) else out[k])
  }

  predicate AllInRange(ps: seq<AudioInstance>) {
    forall i :: 0 <= i < |ps| ==> IndexInRange(ps[i])
  }

  predicate NoneDividesByZero(ps: seq<AudioInstance>, n: nat) {
    forall i :: 0 <= i < |ps| ==> !DividesByZero(ps[i], n)
  }

  /** Every instance added into `out`, in list order. */
  function MixAll(out: seq<i16>, ps: seq<AudioInstance>, scale: (i16, Volume) -> i16): (r: seq<i16>)
    requires AllInRange(ps) && NoneDividesByZero(ps, |out|)
    ensures |r| == |out|
    decreases |ps|
  {
    if ps == [] then out
    else MixOne(MixAll(out, ps[..|ps| - 1], scale), ps[|ps| - 1], scale)
  }

  function AdvanceAll(ps: seq<AudioInstance>, n: nat): (r: seq<AudioInstance>)
    requires AllInRange(ps)
    ensures |r| == |ps|
  {
    seq(|ps|, i requires 0 <= i < |ps| => Advanced(ps[i], n))
  }

  /** The `finished` list: positions of the instances that finished, ascending. */
  function FinishedIndices(ps: seq<AudioInstance>, n: nat): (r: seq<nat>)
    requires AllInRange(ps)
    ensures Ascending(r, |ps|)
    ensures forall k :: 0 <= k < |r| ==> Finished(ps[r[k]], n)
    ensures forall i :: 0 <= i < |ps| && Finished(ps[i], n) ==> i in r
    decreases |ps|
  {
    if ps == [] then []
    else
      var rest := FinishedIndices(ps[..|ps| - 1], n);
      if Finished(ps[|ps| - 1], n) then rest + [|ps| - 1] else rest
  }

  /** The instances that go on playing, advanced, in list order. */
  function Kept(ps: seq<AudioInstance>, n: nat): (r: seq<AudioInstance>)
    requires AllInRange(ps)
    decreases |ps|
  {
    if ps == [] then []
    else
      var last := ps[|ps| - 1];
      Kept(ps[..|ps| - 1], n) + if Finished(last, n) then [] else [Advanced(last, n)]
  }

  /** The instances that finished, in list order. */
  function Removed(ps: seq<AudioInstance>, n: nat): (r: seq<AudioInstance>)
    requires AllInRange(ps)
    decreases |ps|
  {
    if ps == [] then []
    else
      var last := ps[|ps| - 1];
      Removed(ps[..|ps| - 1], n) + if Finished(last, n) then [last] else []
  }

  /** The `playing` list after a poll: the advanced list with the finished
      positions swap-removed from the highest down. */
  function Survivors(ps: seq<AudioInstance>, n: nat): (r: seq<AudioInstance>)
    requires AllInRange(ps)
  {
    SwapRemoveAll(AdvanceAll(ps, n), FinishedIndices(ps, n))
  }

  lemma AdvanceAllSnoc(ps: seq<AudioInstance>, n: nat)
    requires ps != [] && AllInRange(ps)
    ensures AdvanceAll(ps, n) == AdvanceAll(ps[..|ps| - 1], n) + [Advanced(ps[|ps| - 1], n)]
  {
  }

  lemma {:induction false} AdvanceAllSplits(ps: seq<AudioInstance>, n: nat)
    requires AllInRange(ps)
    ensures multiset(AdvanceAll(ps, n)) == multiset(Kept(ps, n)) + multiset(Removed(ps, n))
    decreases |ps|
  {
    if ps != [] {
      var init := ps[..|ps| - 1];
      AdvanceAllSplits(init, n);
      AdvanceAllSnoc(ps, n);
    }
  }

  /** The finished positions pick out of the advanced list exactly the
      instances that finished, in order. */
  lemma {:induction false} FinishedPicksRemoved(ps: seq<AudioInstance>, n: nat)
    requires AllInRange(ps)
    ensures At(AdvanceAll(ps, n), FinishedIndices(ps, n)) == Removed(ps, n)
    decreases |ps|
  {
    if ps != [] {
      var init := ps[..|ps| - 1];
      var last := ps[|ps| - 1];
      FinishedPicksRemoved(init, n);
      AdvanceAllSnoc(ps, n);
      var adv := AdvanceAll(ps, n);
      var idx := FinishedIndices(init, n);
      PickBelow(AdvanceAll(init, n), adv, idx, |init|);
      if Finished(last, n) {
        assert At(adv, idx + [|ps| - 1]) == At(adv, idx) + [adv[|ps| - 1]];
      }
    }
  }

  /** Swap-removing the finished positions from the highest down drops exactly
      the finished instances: what remains is, as a multiset, the advanced
      instances that did not finish. */
  lemma SurvivorsAreKept(ps: seq<AudioInstance>, n: nat)
    requires AllInRange(ps)
    ensures multiset(Survivors(ps, n)) == multiset(Kept(ps, n))
    ensures |Survivors(ps, n)| == |ps| - |Removed(ps, n)|
  {
    var adv := AdvanceAll(ps, n);
    var idx := FinishedIndices(ps, n);
    var sur := SwapRemoveAll(adv, idx);
    var rem := Removed(ps, n);
    AdvanceAllSplits(ps, n);
    FinishedPicksRemoved(ps, n);
    SwapRemoveAllRemovesPicked(adv, idx);
    MultisetCancel(multiset(sur), multiset(Kept(ps, n)), multiset(rem));
  }

  /** The instances kept by a poll are exactly the advanced unfinished ones. */
  lemma {:induction false} KeptMembers(ps: seq<AudioInstance>, n: nat, q: AudioInstance)
    requires AllInRange(ps)
    ensures q in Kept(ps, n) <==> exists i :: 0 <= i < |ps| && !Finished(ps[i], n) && q == Advanced(ps[i], n)
    decreases |ps|
  {
    if ps != [] {
      var init := ps[..|ps| - 1];
      var last := ps[|ps| - 1];
      var tail := if Finished(last, n) then [] else [Advanced(last, n)];
      assert Kept(ps, n) == Kept(init, n) + tail;
      assert q in Kept(ps, n) <==> q in Kept(init, n) || q in tail;
      KeptMembers(init, n, q);
      if q in Kept(init, n) {
        var i :| 0 <= i < |init| && !Finished(init[i], n) && q == Advanced(init[i], n);
        assert ps[i] == init[i];
      }
      if exists i :: 0 <= i < |ps| && !Finished(ps[i], n) && q == Advanced(ps[i], n) {
        var i :| 0 <= i < |ps| && !Finished(ps[i], n) && q == Advanced(ps[i], n);
        if i < |init| {
          assert init[i] == ps[i];
        }
      }
    }
  }

  /** A looping instance is never dropped: it stays, with its cursor `n` further on. */
  lemma LoopingSurvives(ps: seq<AudioInstance>, n: nat, i: nat)
    requires AllInRange(ps) && i < |ps| && ps[i].doLoop
    ensures ps[i].(index := ps[i].index + n) in multiset(Survivors(ps, n))
  {
    SurvivorsAreKept(ps, n);
    KeptMembers(ps, n, Advanced(ps[i], n));
  }

  /** A one-shot instance is dropped iff `out` reaches the end of its buffer. */
  lemma OneShotDroppedIff(ps: seq<AudioInstance>, n: nat, i: nat)
    requires AllInRange(ps) && i < |ps| && !ps[i].doLoop
    ensures ps[i] in Removed(ps, n) <==> n >= |ps[i].audio.buffer| - ps[i].index
  {
    var p := ps[i];
    RemovedMembers(ps, n, p);
    if p in Removed(ps, n) {
      var j :| 0 <= j < |ps| && Finished(ps[j], n) && p == ps[j];
      assert Finished(p, n);
    }
  }

  /** A one-shot instance that does not reach its end goes on playing with its
      cursor `n` further on. */
  lemma OneShotSurvives(ps: seq<AudioInstance>, n: nat, i: nat)
    requires AllInRange(ps) && i < |ps| && !ps[i].doLoop
    requires n < |ps[i].audio.buffer| - ps[i].index
    ensures ps[i].(index := ps[i].index + n) in multiset(Survivors(ps, n))
  {
    SurvivorsAreKept(ps, n);
    KeptMembers(ps, n, Advanced(ps[i], n));
  }

  lemma {:induction false} RemovedMembers(ps: seq<AudioInstance>, n: nat, q: AudioInstance)
    requires AllInRange(ps)
    ensures q in Removed(ps, n) <==> exists i :: 0 <= i < |ps| && Finished(ps[i], n) && q == ps[i]
    decreases |ps|
  {
    if ps != [] {
      var init := ps[..|ps| - 1];
      var last := ps[|ps| - 1];
      var tail := if Finished(last, n) then [last] else [];
      assert Removed(ps, n) == Removed(init, n) + tail;
      assert q in Removed(ps, n) <==> q in Removed(init, n) || q in tail;
      RemovedMembers(init, n, q);
      if q in Removed(init, n) {
        var i :| 0 <= i < |init| && Finished(init[i], n) && q == init[i];
        assert ps[i] == init[i];
      }
      if exists i :: 0 <= i < |ps| && Finished(ps[i], n) && q == ps[i] {
        var i :| 0 <= i < |ps| && Finished(ps[i], n) && q == ps[i];
        if i < |init| {
          assert init[i] == ps[i];
        }
      }
    }
  }

  /** `poll` only adds into the written prefixes: a slot beyond every
      instance's prefix keeps its earlier value. */
  lemma {:induction false} MixAllKeepsTail(out: seq<i16>, ps: seq<AudioInstance>, scale: (i16, Volume) -> i16, k: nat)
    requires AllInRange(ps) && NoneDividesByZero(ps, |out|) && k < |out|
    requires forall i :: 0 <= i < |ps| ==> Written(ps[i], |out|) <= k
    ensures MixAll(out, ps, scale)[k] == out[k]
    decreases |ps|
  {
    if ps != [] {
      MixAllKeepsTail(out, ps[..|ps| - 1], scale, k);
    }
  }

  /** A one-shot instance reads its buffer straight from the cursor on, without
      wrapping, for exactly `min(n, len - index)` slots. */
  lemma OneShotReadsFromCursor(out: seq<i16>, p: AudioInstance, scale: (i16, Volume) -> i16, k: nat)
    requires IndexInRange(p) && !p.doLoop && k < |out|
    ensures Written(p, |out|) == if |out| <= |p.audio.buffer| - p.index then |out| else |p.audio.buffer| - p.index
    ensures k < Written(p, |out|) ==>
              MixOne(out, p, scale)[k] == WrapAddI16(out[k], scale(p.audio.buffer[p.index + k], p.volume))
    ensures k >= Written(p, |out|) ==> MixOne(out, p, scale)[k] == out[k]
  {
    if k < Written(p, |out|) {
      var len := |p.audio.buffer|;
      assert 0 <= p.index + k < len;
      assert (p.index + k) % len == p.index + k;
      assert SampleAt(p, k) == p.audio.buffer[p.index + k];
    }
  }

  /** The inner loop of `poll` for one instance: add its scaled samples into
      the first `Written` slots of `out`. `divides` is the `% 0` panic of a
      looping instance with an empty buffer, raised before any slot is written. */
  method MixInstance(out: array<i16>, instance: AudioInstance, scale: (i16, Volume) -> i16)
    returns (divides: bool)
    requires IndexInRange(instance)
    modifies out
    ensures divides <==> DividesByZero(instance, out.Length)
    ensures divides ==> out[..] == old(out[..])
    ensures !divides ==> out[..] == MixOne(old(out[..]), instance, scale)
  {
    var requested := out.Length;
    var remaining := if instance.doLoop then requested else |instance.audio.buffer| - instance.index;
    var count := if requested <= remaining then requested else remaining;
    ghost var before := out[..];
    var k := 0;
    while k < count
      invariant 0 <= k <= count
      invariant count == Written(instance, requested)
      invariant k > 0 ==> |instance.audio.buffer| > 0
      invariant forall m :: 0 <= m < k ==>
                  out[m] == WrapAddI16(before[m], scale(SampleAt(instance, m), instance.volume))
      invariant forall m :: k <= m < requested ==> out[m] == before[m]
    {
      if |instance.audio.buffer| == 0 {
        // `(instance.index + i) % instance.audio.buffer.len()` with a zero length
        assert out[..] == before;
        return true;
      }
      var sampleIndex := (instance.index + k) % |instance.audio.buffer|;
      out[k] := WrapAddI16(out[k], scale(instance.audio.buffer[sampleIndex], instance.volume));
      k := k + 1;
    }
    assert out[..] == MixOne(before, instance, scale);
    return false;
  }

  /** One more instance of the list mixed, judged and advanced: the three
      steps of the first loop of `poll`. */
  lemma StepNoneDivides(ps: seq<AudioInstance>, i: nat, n: nat)
    requires i < |ps| && NoneDividesByZero(ps[..i], n) && !DividesByZero(ps[i], n)
    ensures NoneDividesByZero(ps[..i + 1], n)
  {
    var pre := ps[..i + 1];
    forall k | 0 <= k < |pre| ensures !DividesByZero(pre[k], n) {
      if k < i {
        assert pre[k] == ps[..i][k];
      }
    }
  }

  lemma StepMix(out: seq<i16>, ps: seq<AudioInstance>, i: nat, scale: (i16, Volume) -> i16)
    requires AllInRange(ps) && i < |ps| && NoneDividesByZero(ps[..i + 1], |out|)
    ensures MixAll(out, ps[..i + 1], scale) == MixOne(MixAll(out, ps[..i], scale), ps[i], scale)
  {
    var pre := ps[..i + 1];
    assert pre[..i] == ps[..i];
    MixAllSnoc(out, pre, scale);
  }

  lemma StepFinished(ps: seq<AudioInstance>, i: nat, n: nat)
    requires AllInRange(ps) && i < |ps|
    ensures FinishedIndices(ps[..i + 1], n)
              == FinishedIndices(ps[..i], n) + if Finished(ps[i], n) then [i] else []
  {
    var pre := ps[..i + 1];
    assert pre[..i] == ps[..i];
    FinishedSnoc(pre, n);
  }

  lemma MixAllSnoc(out: seq<i16>, ps: seq<AudioInstance>, scale: (i16, Volume) -> i16)
    requires ps != [] && AllInRange(ps) && NoneDividesByZero(ps, |out|)
    ensures MixAll(out, ps, scale) == MixOne(MixAll(out, ps[..|ps| - 1], scale), ps[|ps| - 1], scale)
  {
  }

  lemma FinishedSnoc(ps: seq<AudioInstance>, n: nat)
    requires ps != [] && AllInRange(ps)
    ensures FinishedIndices(ps, n)
              == FinishedIndices(ps[..|ps| - 1], n) + if Finished(ps[|ps| - 1], n) then [|ps| - 1] else []
  {
  }

  lemma SwapRemoveInRange(ps: seq<AudioInstance>, i: nat)
    requires AllInRange(ps) && i < |ps|
    ensures AllInRange(SwapRemove(ps, i))
  {
    var r := SwapRemove(ps, i);
    forall k | 0 <= k < |r| ensures IndexInRange(r[k]) {
      if k < i {
        assert r[k] == r[..i][k] == ps[..i][k];
      } else if k > i {
        assert r[k] == r[i + 1..][k - i - 1] == ps[i + 1..|ps| - 1][k - i - 1];
      }
    }
  }

  class Mixer {
    var playing: seq<AudioInstance>

    ghost predicate Valid()
      reads this
    {
      AllInRange(playing)
    }

    /** `Mixer::default()` */
    constructor ()
      ensures Valid() && playing == []
    {
      playing := [];
    }

    /** `Mixer::play`: start one more instance at the beginning of the buffer. */
    method Play(audio: Audio, volume: Volume, doLoop: bool)
      requires Valid()
      modifies this
      ensures Valid()
      ensures playing == old(playing) + [AudioInstance(audio, 0, volume, doLoop)]
    {
      var instance := AudioInstance(audio, 0, volume, doLoop);
      playing := playing + [instance];
    }

    /** `Mixer::poll`: add every instance into `out`, advance the cursors and
        drop the finished one-shot instances. `panicked` is the division by
        zero of a looping instance with an empty buffer; what the source has
        done to `out` and the list up to that point is left unsaid. */
    method Poll(out: array<i16>, scale: (i16, Volume) -> i16) returns (panicked: bool)
      requires Valid()
      modifies this, out
      ensures Valid()
      ensures panicked <==> !NoneDividesByZero(old(playing), out.Length)
      ensures !panicked ==> out[..] == MixAll(old(out[..]), old(playing), scale)
      ensures !panicked ==> playing == Survivors(old(playing), out.Length)
    {
      var n := out.Length;
      ghost var ps := playing;
      ghost var out0 := out[..];
      var finished: seq<nat> := [];
      var i := 0;
      while i < |playing|
        invariant 0 <= i <= |playing| == |ps|
        invariant AllInRange(playing)
        invariant forall k :: 0 <= k < i ==> playing[k] == Advanced(ps[k], n)
        invariant forall k :: i <= k < |ps| ==> playing[k] == ps[k]
        invariant NoneDividesByZero(ps[..i], n)
        invariant out[..] == MixAll(out0, ps[..i], scale)
        invariant finished == FinishedIndices(ps[..i], n)
      {
        var instance := playing[i];
        var requested := n;
        var remaining := if instance.doLoop then requested else |instance.audio.buffer| - instance.index;
        var divides := MixInstance(out, instance, scale);
        if divides {
          assert !NoneDividesByZero(ps, n) by {
            assert DividesByZero(ps[i], n);
          }
          return true;
        }
        StepNoneDivides(ps, i, n);
        StepMix(out0, ps, i, scale);
        StepFinished(ps, i, n);
        if requested >= remaining && !instance.doLoop {
          finished := finished + [i];
        } else {
          playing := playing[i := instance.(index := instance.index + requested)];
        }
        i := i + 1;
      }
      assert ps[..i] == ps;
      assert playing == AdvanceAll(ps, n);
      RemoveFinished(finished);
      return false;
    }

    /** The second loop of `poll`: `swap_remove` each finished position,
        highest first. */
    method RemoveFinished(finished: seq<nat>)
      requires Valid() && Ascending(finished, |playing|)
      modifies this
      ensures Valid()
      ensures playing == SwapRemoveAll(old(playing), finished)
    {
      ghost var advanced := playing;
      var j := |finished|;
      assert finished[..j] == finished;
      while j > 0
        invariant 0 <= j <= |finished|
        invariant |playing| == |advanced| - (|finished| - j)
        invariant Ascending(finished[..j], |playing|)
        invariant SwapRemoveAll(playing, finished[..j]) == SwapRemoveAll(advanced, finished)
        invariant AllInRange(playing)
      {
        var m := finished[j - 1];
        ghost var pre := finished[..j];
        assert pre[..j - 1] == finished[..j - 1] && pre[j - 1] == m;
        AscendingDropLast(pre, |playing|);
        ghost var before := playing;
        playing := SwapRemove(playing, m);
        assert SwapRemoveAll(before, pre) == SwapRemoveAll(playing, finished[..j - 1]);
        SwapRemoveInRange(before, m);
        j := j - 1;
      }
      assert finished[..0] == [];
    }
  }
}
