/** What a cancel leaves behind: whether the run is over for good, and how many "cancelled" events
    its log gets. */
module Cancellation {
  import opened RunLife
  import opened RunStore
  import opened Writers

  ghost predicate StaysOver(s: Store, i: nat)
    requires WellFormed(s) && i < |s.runs|
  {
    forall ops | Untouched(ops, s.runs[i].id) :: Over(DoAll(s, ops).runs[i])
  }

  /** A run that is over stays so, unless it is continued or re-armed, exactly when no stray
      loop drives it and no watcher of it can still get a go-ahead. */
  lemma OverIsOver(s: Store, i: nat)
    requires WellFormed(s) && Tabled(s, i) && Over(s.runs[i])
    ensures StaysOver(s, i) <==> !Revivable(s.runs[i])
  {
    var r := s.runs[i];
    if Revivable(r) {
      RevivalRevives(r);
      RevivalNeedsNoEndpoints(i, r);
      OpsForDo(s, i, Revival(r));
    } else {
      forall ops | Untouched(ops, r.id) ensures Over(DoAll(s, ops).runs[i]) {
        RunLives(s, ops, i);
        UntouchedIsLeftAlone(s, ops, i);
        OverStaysOver(r, Changes(s, ops, i));
      }
    }
  }

  /** After `cancel_run` the run is over for good exactly when none of its loops is out of the
      cancel's reach: neither a stray one, nor an older one that was cancelled and may go on, nor
      one that a watcher has started or, with an approval in hand, is about to start. */
  lemma CancelIsFinal(s: Store, id: string)
    requires WellFormed(s) && id in s.table
    ensures var i, r := s.table[id], s.runs[s.table[id]];
            && Over(Cancel(s, id).runs[i])
            && (StaysOver(Cancel(s, id), i) <==> r.strays == 0 && r.unwinding == 0 && !r.watcher.Looping? && r.watcher != Answered(Approved))
  {
    OverIsOver(Cancel(s, id), s.table[id]);
  }

  // ---- How many "cancelled" events a log gets ----

  ghost predicate StaysSettled(s: Store, i: nat)
    requires WellFormed(s) && i < |s.runs|
  {
    forall ops | Untouched(ops, s.runs[i].id) :: Settled(s.runs[i], DoAll(s, ops).runs[i])
  }

  lemma OneMoreCancelIsDoable(r: Run)
    ensures Doable(OneMoreCancel(r))
  {
  }

  /** A run that is over keeps its status and gets no further "cancelled" event exactly when
      nothing drives it any more: no task, cancelled or not, no watcher and no stray loop. */
  lemma OverIsSettled(s: Store, i: nat)
    requires WellFormed(s) && Tabled(s, i) && Over(s.runs[i])
    ensures StaysSettled(s, i) <==> Undriven(s.runs[i])
  {
    var r := s.runs[i];
    if Undriven(r) {
      forall ops | Untouched(ops, r.id) ensures Settled(r, DoAll(s, ops).runs[i]) {
        RunLives(s, ops, i);
        UntouchedIsLeftAlone(s, ops, i);
        SettledStays(r, Changes(s, ops, i));
      }
    } else {
      OneMoreCancelCounts(r);
      OneMoreCancelIsDoable(r);
      OpsForDo(s, i, OneMoreCancel(r));
    }
  }

  ghost predicate CancelledOnce(s: Store, id: string)
    requires WellFormed(s) && id in s.table
  {
    var i := s.table[id];
    forall ops | Untouched(ops, id) :: Cancels(DoAll(Cancel(s, id), ops).runs[i]) == Cancels(s.runs[i]) + 1
  }

  /** A cancel of a run that is not over leaves one more "cancelled" event, then and ever
      after, exactly when no task of the run was live or unwinding and it had no watcher: the
      loop that is cut off appends one of its own. */
  lemma CancelLeavesOneEvent(s: Store, id: string)
    requires WellFormed(s) && id in s.table && !Over(s.runs[s.table[id]])
    ensures CancelledOnce(s, id) <==> Undriven(s.runs[s.table[id]])
  {
    var i := s.table[id];
    var r, done := s.runs[i], Cancel(s, id);
    var t := done.runs[i];
    CountAppended(r.events, CANCELLED, "user_stop", CANCELLED);
    if Undriven(r) {
      OverIsSettled(done, i);
    } else {
      OneMoreCancelCounts(t);
      OneMoreCancelIsDoable(t);
      OpsForDo(done, i, OneMoreCancel(t));
    }
  }

  /** Over any run of the store, supersession and `cancel_run` append at most one "cancelled"
      event for each life of a run, and a run that is not continued or re-armed and has no
      loop out of reach has only one. */
  lemma NeverCancelledTwice(s: Store, ops: seq<Op>, i: nat)
    requires WellFormed(s) && i < |s.runs|
    ensures var r, cs := s.runs[i], Changes(s, ops, i);
            && StoreCancels(r, cs) <= Revivals(r, cs) + (if Over(r) then 0 else 1)
            && Cancels(r) + StoreCancels(r, cs) <= Cancels(DoAll(s, ops).runs[i])
            && (Untouched(ops, r.id) && !Revivable(r) ==> Revivals(r, cs) == 0)
  {
    OneStoreCancelPerLife(s.runs[i], Changes(s, ops, i));
    StoreCancelsAreLogged(s.runs[i], Changes(s, ops, i));
    RunLives(s, ops, i);
    if Untouched(ops, s.runs[i].id) && !Revivable(s.runs[i]) {
      UntouchedIsLeftAlone(s, ops, i);
      NoRevivals(s.runs[i], Changes(s, ops, i));
    }
  }
}
