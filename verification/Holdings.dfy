/**
 What the archive holds after any run of commits and deletions, cut short or not: which moments are verified, which candles
 are stored, and what a deletion leaves.
 */
module Holdings {
  import opened Wrappers
  import opened Rollups
  import opened Archive
  import Coverage

  ghost predicate IsVerified(st: State, pair: Pair, t: Coverage.Moment) { Coverage.Covers(RowsOf(st.coverage, pair), t) }

  // ---- one step --------------------------------------------------------------------------------------------------

  /** A commit that takes what it was offered: it lives to record the stretch, and the coverage table has room for it. */
  ghost predicate Verifies(st: State, step: Step, pair: Pair) {
    && step.Commit? && step.pair == pair && !AnyForming(step.batch) && step.stop >= 2
    && Coverage.Accepts(RowsOf(st.coverage, pair), step.offered)
  }

  ghost predicate AllSound(st: State) { forall pair :: Coverage.Sound(RowsOf(st.coverage, pair)) }

  lemma StepKeepsSound(st: State, step: Step)
    requires AllSound(st)
    ensures AllSound(After(st, step))
  {
    hide Coverage.Sound, Written, DerivedAfter, Coverage.Record;
    forall pair ensures Coverage.Sound(RowsOf(After(st, step).coverage, pair)) {
      assert Coverage.Sound(RowsOf(st.coverage, pair));
      NoRowsAreSound();
      if step.Commit? && Covers(st, step) {
        Coverage.RecordKeepsSound(RowsOf(st.coverage, step.pair), step.offered);
      }
    }
  }

  lemma NoRowsAreSound()
    ensures Coverage.Sound({})
  {
  }

  /** A commit verifies exactly the stretch it was offered, of its own pair, or nothing; a deletion leaves no verified moment
      of its pair; and no other pair's are touched by either. */
  lemma StepVerifiesExactly(st: State, step: Step, pair: Pair, t: Coverage.Moment)
    requires AllSound(st)
    ensures IsVerified(After(st, step), pair, t) <==>
      (Verifies(st, step, pair) && step.offered.Contains(t)) || (IsVerified(st, pair, t) && step != Delete(pair))
  {
    assert Coverage.Sound(RowsOf(st.coverage, pair));
    Coverage.TakenExactly(RowsOf(st.coverage, pair), if step.Commit? then step.offered else Coverage.Range(t, t, false, None));
    if Verifies(st, step, pair) {
      Coverage.RecordAddsExactly(RowsOf(st.coverage, pair), step.offered, t);
    }
    hide Coverage.Record, Coverage.Accepts, Written, DerivedAfter;
  }

  /** A commit that stores anything: all of its batch is closed, and it lives to write it. */
  ghost predicate Stores(step: Step, k: Key) {
    step.Commit? && !AnyForming(step.batch) && step.stop >= 1 && exists i :: 0 <= i < |step.batch| && KeyOf(step.batch[i]) == k
  }

  ghost predicate Offers(step: Step, k: Key, c: Candle) {
    step.Commit? && exists i :: 0 <= i < |step.batch| && KeyOf(step.batch[i]) == k && step.batch[i] == c
  }

  function PairOf(k: Key): Pair { Pair(k.symbol, k.resolution) }

  /** A commit leaves the rows it has no offer for, and of those it has, none empty; a deletion leaves no candle of its pair
      and every other pair's as it was. */
  lemma StepStoresExactly(st: State, step: Step, k: Key)
    ensures k in After(st, step).candles <==> Stores(step, k) || (k in st.candles && step != Delete(PairOf(k)))
    ensures k in After(st, step).candles && !Stores(step, k) ==> After(st, step).candles[k] == st.candles[k]
    ensures k in After(st, step).candles && Stores(step, k) ==>
      || (k in st.candles && After(st, step).candles[k] == st.candles[k])
      || Offers(step, k, After(st, step).candles[k])
  {
    if step.Commit? {
      KeptIsLast(step.batch, k);
    }
    hide DerivedAfter, CoverageAfter;
  }

  /** After a deletion the pair has no candle and no verified moment, a minute pair's symbol has no derived candle, and
      everything else is as it was. */
  lemma DeletionLeaves(st: State, pair: Pair)
    ensures forall k :: k in AfterDelete(st, pair).candles <==>
      k in st.candles && !(k.symbol == pair.symbol && k.resolution == pair.resolution)
    ensures forall k :: k in AfterDelete(st, pair).candles ==> AfterDelete(st, pair).candles[k] == st.candles[k]
    ensures forall t :: !IsVerified(AfterDelete(st, pair), pair, t)
    ensures forall other, t :: other != pair ==> (IsVerified(AfterDelete(st, pair), other, t) <==> IsVerified(st, other, t))
    ensures forall k :: k in AfterDelete(st, pair).derived <==>
      k in st.derived && !(pair.resolution == Minute && k.symbol == pair.symbol)
    ensures forall k :: k in AfterDelete(st, pair).derived ==> AfterDelete(st, pair).derived[k] == st.derived[k]
  {
    hide Coverage.Covers;
    assert RowsOf(AfterDelete(st, pair).coverage, pair) == {};
    forall t ensures !IsVerified(AfterDelete(st, pair), pair, t) {
      NoRowsCoverNothing(t);
    }
    forall other, t | other != pair ensures IsVerified(AfterDelete(st, pair), other, t) <==> IsVerified(st, other, t) {
      assert RowsOf(AfterDelete(st, pair).coverage, other) == RowsOf(st.coverage, other);
    }
  }

  lemma NoRowsCoverNothing(t: Coverage.Moment)
    ensures !Coverage.Covers({}, t)
  {
  }

  // ---- whole runs ------------------------------------------------------------------------------------------------

  /** Nothing after the `i`-th step deleted the pair. */
  ghost predicate NotDeletedSince(steps: seq<Step>, i: nat, pair: Pair) {
    forall j :: i < j < |steps| ==> steps[j] != Delete(pair)
  }

  /** The `i`-th step verified the moment, and the pair was not deleted since. */
  ghost predicate VerifiedBy(steps: seq<Step>, i: nat, pair: Pair, t: Coverage.Moment)
    requires i < |steps|
  {
    && Verifies(Run(steps[..i]).0, steps[i], pair) && steps[i].offered.Contains(t) && NotDeletedSince(steps, i, pair)
  }

  /** The `i`-th step stored a candle there, and the pair was not deleted since. */
  ghost predicate StoredBy(steps: seq<Step>, i: nat, k: Key)
    requires i < |steps|
  {
    Stores(steps[i], k) && NotDeletedSince(steps, i, PairOf(k))
  }

  lemma {:induction false} RunIsSound(steps: seq<Step>)
    ensures AllSound(Run(steps).0)
  {
    hide AllSound, After, DoubtAfter;
    if steps == [] {
      assert AllSound(EMPTY) by { EmptyIsSound(); }
    } else {
      RunIsSound(steps[..|steps| - 1]);
      StepKeepsSound(Run(steps[..|steps| - 1]).0, steps[|steps| - 1]);
    }
  }

  lemma EmptyIsSound()
    ensures AllSound(EMPTY)
  {
    NoRowsAreSound();
  }

  lemma OneStepMore(steps: seq<Step>, i: nat, pair: Pair, t: Coverage.Moment, k: Key)
    requires i < |steps| - 1
    ensures var before, last := steps[..|steps| - 1], steps[|steps| - 1];
      && (VerifiedBy(steps, i, pair, t) <==> VerifiedBy(before, i, pair, t) && last != Delete(pair))
      && (StoredBy(steps, i, k) <==> StoredBy(before, i, k) && last != Delete(PairOf(k)))
  {
    var before := steps[..|steps| - 1];
    assert before[..i] == steps[..i];
    hide Verifies, Run, Stores;
    assert forall j :: i < j < |before| ==> steps[j] == before[j];
    assert forall p :: NotDeletedSince(steps, i, p) ==> steps[|steps| - 1] != Delete(p);
    assert forall p :: NotDeletedSince(before, i, p) && steps[|steps| - 1] != Delete(p) ==> NotDeletedSince(steps, i, p);
  }

  ghost predicate VerifiedBySome(steps: seq<Step>, pair: Pair, t: Coverage.Moment) {
    exists i :: 0 <= i < |steps| && VerifiedBy(steps, i, pair, t)
  }

  lemma VerifiedOneStepMore(steps: seq<Step>, pair: Pair, t: Coverage.Moment)
    requires steps != []
    ensures var before, n := steps[..|steps| - 1], |steps| - 1;
      VerifiedBySome(steps, pair, t) <==>
        || (Verifies(Run(before).0, steps[n], pair) && steps[n].offered.Contains(t))
        || (VerifiedBySome(before, pair, t) && steps[n] != Delete(pair))
  {
    var before, n := steps[..|steps| - 1], |steps| - 1;
    assert VerifiedBy(steps, n, pair, t) <==> Verifies(Run(before).0, steps[n], pair) && steps[n].offered.Contains(t);
    hide VerifiedBy, Verifies, Run;
    forall i | 0 <= i < n ensures VerifiedBy(steps, i, pair, t) <==> VerifiedBy(before, i, pair, t) && steps[n] != Delete(pair) {
      OneStepMore(steps, i, pair, t, Key(pair.symbol, pair.resolution, 0));
    }
  }

  /** Over any run: a moment of a pair is verified exactly when some commit was offered it and took it, and the pair was not
      deleted since. */
  lemma {:induction false} VerifiedExactly(steps: seq<Step>, pair: Pair, t: Coverage.Moment)
    ensures IsVerified(Run(steps).0, pair, t) <==> exists i :: 0 <= i < |steps| && VerifiedBy(steps, i, pair, t)
  {
    if steps == [] {
      NoRowsCoverNothing(t);
    } else {
      var n := |steps| - 1;
      var before := steps[..n];
      VerifiedExactly(before, pair, t);
      assert IsVerified(Run(before).0, pair, t) <==> VerifiedBySome(before, pair, t);
      hide After, DoubtAfter, AllSound, IsVerified, Verifies, VerifiedBySome, VerifiedBy;
      RunIsSound(before);
      StepVerifiesExactly(Run(before).0, steps[n], pair, t);
      VerifiedOneStepMore(steps, pair, t);
      assert IsVerified(Run(steps).0, pair, t) <==> VerifiedBySome(steps, pair, t);
    }
    VerifiedMeans(steps, pair, t);
  }

  lemma VerifiedMeans(steps: seq<Step>, pair: Pair, t: Coverage.Moment)
    ensures VerifiedBySome(steps, pair, t) <==> exists i :: 0 <= i < |steps| && VerifiedBy(steps, i, pair, t)
  {
  }

  ghost predicate StoredBySome(steps: seq<Step>, k: Key) { exists i :: 0 <= i < |steps| && StoredBy(steps, i, k) }

  ghost predicate OfferedBySome(steps: seq<Step>, k: Key, c: Candle) {
    exists i :: 0 <= i < |steps| && StoredBy(steps, i, k) && Offers(steps[i], k, c)
  }

  lemma StoredOneStepMore(steps: seq<Step>, k: Key)
    requires steps != []
    ensures var before, last := steps[..|steps| - 1], steps[|steps| - 1];
      && (StoredBySome(steps, k) <==> Stores(last, k) || (StoredBySome(before, k) && last != Delete(PairOf(k))))
      && (forall c :: Stores(last, k) && Offers(last, k, c) ==> OfferedBySome(steps, k, c))
      && (forall c :: OfferedBySome(before, k, c) && last != Delete(PairOf(k)) ==> OfferedBySome(steps, k, c))
  {
    var before, n := steps[..|steps| - 1], |steps| - 1;
    assert StoredBy(steps, n, k) <==> Stores(steps[n], k);
    hide StoredBy, Stores, Offers;
    forall i | 0 <= i < n
      ensures (StoredBy(steps, i, k) <==> StoredBy(before, i, k) && steps[n] != Delete(PairOf(k))) && steps[i] == before[i]
    {
      OneStepMore(steps, i, PairOf(k), 0.0, k);
    }
    forall c | OfferedBySome(before, k, c) && steps[n] != Delete(PairOf(k)) ensures OfferedBySome(steps, k, c) {
      var i :| 0 <= i < n && StoredBy(before, i, k) && Offers(before[i], k, c);
      assert StoredBy(steps, i, k) && Offers(steps[i], k, c);
    }
  }

  /** Over any run: a candle is stored exactly where some commit offered one and lived to write it, and the pair was not
      deleted since; and it is one that was offered for that row. */
  lemma {:induction false} StoredExactly(steps: seq<Step>, k: Key)
    ensures k in Run(steps).0.candles <==> exists i :: 0 <= i < |steps| && StoredBy(steps, i, k)
    ensures k in Run(steps).0.candles ==>
      exists i :: 0 <= i < |steps| && StoredBy(steps, i, k) && Offers(steps[i], k, Run(steps).0.candles[k])
  {
    if steps != [] {
      var before, last := steps[..|steps| - 1], steps[|steps| - 1];
      StoredExactly(before, k);
      assert StoredBySome(before, k) <==> k in Run(before).0.candles;
      assert k in Run(before).0.candles ==> OfferedBySome(before, k, Run(before).0.candles[k]);
      hide After, DoubtAfter, Stores, Offers, StoredBySome, OfferedBySome, StoredBy;
      StepStoresExactly(Run(before).0, last, k);
      StoredOneStepMore(steps, k);
    }
    StoredMeans(steps, k);
  }

  lemma StoredMeans(steps: seq<Step>, k: Key)
    ensures StoredBySome(steps, k) <==> exists i :: 0 <= i < |steps| && StoredBy(steps, i, k)
    ensures forall c :: OfferedBySome(steps, k, c) <==>
      exists i :: 0 <= i < |steps| && StoredBy(steps, i, k) && Offers(steps[i], k, c)
  {
  }
}
