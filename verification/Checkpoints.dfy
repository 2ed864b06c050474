/**
 * The versioned ledger: how mutations append blocks of revisions, how reviews
 * capture checkpoints, and the history invariant both keep.
 */
module Checkpoints {
  import opened Outcomes
  import opened Store
  import opened Revisions
  import opened PeriodReviews

  // ---- appending revisions ----

  datatype Change = Change(id: Id, before: Option<Revision>, after: Option<Revision>)

  /** The revision events of a block of changes, versioned consecutively from `first`. */
  function Numbered(changes: seq<Change>, first: int): (events: seq<Event>)
    ensures |events| == |changes|
  {
    seq(|changes|, i requires 0 <= i < |changes| => Event(changes[i].id, first + i, changes[i].before,
      changes[i].after))
  }

  /** `$inc` of the ledger version by the number of changes, then one event per change. */
  function Advance(ledger: Ledger, txs: map<Id, Transaction>, changes: seq<Change>): Ledger {
    ledger.(version := ledger.version + |changes|,
            txs := txs,
            events := ledger.events + Numbered(changes, ledger.version + 1))
  }

  // ---- capturing a review ----

  datatype ReviewRequest = ReviewRequest(
    view: View,
    actor: Id,
    fromDay: int,
    toDay: int,
    vaultIds: set<Id>,
    accountIds: set<Id>,
    status: ReviewStatus)

  const MAX_SCOPE_IDS := 10_000
  const MAX_PERIOD_DAYS := 366

  function LensOf(workspaceId: Id, currency: Id, q: ReviewRequest): Lens {
    Lens(workspaceId, currency, q.view, if q.view.WorkspaceView? then NO_ID else q.actor,
         q.fromDay, q.toDay, q.vaultIds, q.accountIds)
  }

  /** Reviews of one scope, actor and period form a series. */
  predicate SameSeries(a: Lens, b: Lens) {
    a.workspaceId == b.workspaceId && a.view == b.view && a.actor == b.actor && a.fromDay == b.fromDay
      && a.toDay == b.toDay
  }

  /** The review of the series with the greatest cutoff. */
  function Latest(reviews: seq<Review>, lens: Lens): Option<Review> {
    if reviews == [] then None
    else
      var last, earlier := reviews[|reviews| - 1], Latest(reviews[..|reviews| - 1], lens);
      if SameSeries(last.lens, lens) && (earlier.None? || earlier.value.cutoff <= last.cutoff) then Some(last)
      else earlier
  }

  function AsSeen(prior: Lens, lens: Lens): Lens {
    prior.(vaultIds := lens.vaultIds, accountIds := lens.accountIds)
  }

  function ReviewAllowed(ledger: Ledger, personal: bool, lens: Lens, status: ReviewStatus): Result<()> {
    var _ :- Need(lens.fromDay <= lens.toDay < lens.fromDay + MAX_PERIOD_DAYS, InvalidField("period"));
    var _ :- Need(lens.view.WorkspaceView? ==> !personal, InvalidField("scope"));
    var _ :- Need(lens.view.WorkspaceView? ==> status == Closed, InvalidField("status"));
    var _ :- Need(|lens.vaultIds| <= MAX_SCOPE_IDS && |lens.accountIds| <= MAX_SCOPE_IDS, InvalidField("scope"));
    var prior := Latest(ledger.reviews, lens);
    if prior.None? then Ok(())
    else if prior.value.status == Closed && status == Reviewed then Err(Conflict)
    else if prior.value.status != status then Ok(())
    else
      var summary :- Summary(AsSeen(prior.value.lens, lens), ledger.events, prior.value.cutoff);
      Need(summary.1 != 0, Conflict)
  }

  /** `CreatePeriodReview`: checks, totals, then the version increment that becomes the cutoff. */
  ghost function CaptureReview(ledger: Ledger, personal: bool, lens: Lens, status: ReviewStatus): Result<Ledger> {
    var _ :- ReviewAllowed(ledger, personal, lens, status);
    var snapshot :- SnapshotTotals(Images(ledger.txs), lens);
    var cutoff := ledger.version + 1;
    Ok(ledger.(version := cutoff, reviews := ledger.reviews + [Review(lens, status, snapshot, cutoff)]))
  }

  // ---- the history invariant ----

  /** The totals a review captured are those of the ledger after exactly the revisions up to its cutoff. */
  ghost predicate Faithful(base: map<Id, Revision>, ledger: Ledger, r: Review) {
    && r.cutoff <= ledger.version
    && (forall e | e in ledger.events :: e.version != r.cutoff)
    && r.snapshot == Tally(Replay(base, UpTo(ledger.events, r.cutoff)), Queried(r.lens))
  }

  predicate CutoffsIncrease(reviews: seq<Review>) {
    forall i, j | 0 <= i < j < |reviews| :: reviews[i].cutoff < reviews[j].cutoff
  }

  /** What separates a checkpoint from its predecessor in the series. */
  ghost predicate Succeeds(events: seq<Event>, prior: Review, next: Review) {
    && !(prior.status == Closed && next.status == Reviewed)
    && (prior.status == next.status ==>
          exists e | e in events :: prior.cutoff < e.version < next.cutoff
            && RelevantEvent(AsSeen(prior.lens, next.lens), e))
  }

  ghost predicate Succession(events: seq<Event>, reviews: seq<Review>) {
    forall j | 0 <= j < |reviews| ::
      var prior := Latest(reviews[..j], reviews[j].lens);
      prior.Some? ==> Succeeds(events, prior.value, reviews[j])
  }

  ghost predicate LedgerInv(base: map<Id, Revision>, ledger: Ledger) {
    && Increasing(ledger.events)
    && Chained(base, ledger.events)
    && (forall e | e in ledger.events :: e.version <= ledger.version)
    && Images(ledger.txs) == Replay(base, ledger.events)
    && (forall r | r in ledger.reviews :: Faithful(base, ledger, r))
    && CutoffsIncrease(ledger.reviews)
    && Succession(ledger.events, ledger.reviews)
  }

  /** A ledger without recorded history starts the invariant from its own contents. */
  lemma InvStarts(ledger: Ledger)
    requires ledger.events == [] && ledger.reviews == []
    ensures LedgerInv(Images(ledger.txs), ledger)
  {
  }

  // ---- mutations keep it ----

  lemma {:induction false} ReplayJoin(base: map<Id, Revision>, xs: seq<Event>, ys: seq<Event>)
    ensures Replay(base, xs + ys) == Replay(Replay(base, xs), ys)
  {
    if ys == [] {
      assert xs + ys == xs;
    } else {
      ReplayJoin(base, xs, ys[..|ys| - 1]);
      assert (xs + ys)[..|xs + ys| - 1] == xs + ys[..|ys| - 1];
    }
  }

  lemma ChainedJoin(base: map<Id, Revision>, xs: seq<Event>, ys: seq<Event>)
    requires Chained(base, xs) && Chained(Replay(base, xs), ys)
    ensures Chained(base, xs + ys)
  {
    hide Replay;
    forall i | 0 <= i < |xs + ys|
      ensures (xs + ys)[i].before == Get(Replay(base, (xs + ys)[..i]), (xs + ys)[i].transactionId)
    {
      if i < |xs| {
        assert (xs + ys)[..i] == xs[..i];
      } else {
        assert (xs + ys)[..i] == xs + ys[..i - |xs|];
        ReplayJoin(base, xs, ys[..i - |xs|]);
      }
    }
  }

  lemma {:induction false} UpToIgnoresLater(xs: seq<Event>, ys: seq<Event>, version: int)
    requires forall e | e in ys :: e.version > version
    ensures UpTo(xs + ys, version) == UpTo(xs, version)
    decreases |ys|
  {
    if ys == [] {
      assert xs + ys == xs;
    } else {
      UpToIgnoresLater(xs, ys[..|ys| - 1], version);
      assert (xs + ys)[..|xs + ys| - 1] == xs + ys[..|ys| - 1];
    }
  }

  /** Appending later events leaves every captured review faithful. */
  lemma StaysFaithful(base: map<Id, Revision>, ledger: Ledger, later: Ledger, added: seq<Event>, r: Review)
    requires Faithful(base, ledger, r)
    requires later.events == ledger.events + added && later.version >= ledger.version
    requires forall e | e in added :: e.version > ledger.version
    ensures Faithful(base, later, r)
  {
    hide Tally, Replay, UpTo;
    UpToIgnoresLater(ledger.events, added, r.cutoff);
  }

  lemma StaysSuccession(events: seq<Event>, added: seq<Event>, reviews: seq<Review>)
    requires Succession(events, reviews)
    ensures Succession(events + added, reviews)
  {
    hide Latest, RelevantEvent;
    forall j | 0 <= j < |reviews| && Latest(reviews[..j], reviews[j].lens).Some?
      ensures Succeeds(events + added, Latest(reviews[..j], reviews[j].lens).value, reviews[j])
    {
      var prior := Latest(reviews[..j], reviews[j].lens).value;
      if prior.status == reviews[j].status {
        var e :| e in events && prior.cutoff < e.version < reviews[j].cutoff
                 && RelevantEvent(AsSeen(prior.lens, reviews[j].lens), e);
        assert e in events + added;
      }
    }
  }

  /** A block of changes, each starting from the image the previous one left, turns one image set into another. */
  predicate Describes(from: map<Id, Revision>, changes: seq<Change>, to: map<Id, Revision>, first: int) {
    Chained(from, Numbered(changes, first)) && Replay(from, Numbered(changes, first)) == to
  }

  lemma AdvanceKeeps(base: map<Id, Revision>, ledger: Ledger, txs: map<Id, Transaction>, changes: seq<Change>)
    requires LedgerInv(base, ledger)
    requires Describes(Images(ledger.txs), changes, Images(txs), ledger.version + 1)
    ensures LedgerInv(base, Advance(ledger, txs, changes))
  {
    hide Tally, Replay, UpTo, Latest, Images, Succeeds;
    var added := Numbered(changes, ledger.version + 1);
    var later := Advance(ledger, txs, changes);
    ReplayJoin(base, ledger.events, added);
    ChainedJoin(base, ledger.events, added);
    forall r | r in later.reviews ensures Faithful(base, later, r) {
      StaysFaithful(base, ledger, later, added, r);
    }
    StaysSuccession(ledger.events, added, ledger.reviews);
  }

  // ---- capturing keeps it ----

  lemma {:induction false} LatestInSeries(reviews: seq<Review>, lens: Lens)
    ensures var p := Latest(reviews, lens); p.Some? ==> p.value in reviews && SameSeries(p.value.lens, lens)
    ensures forall r | r in reviews && SameSeries(r.lens, lens) ::
        Latest(reviews, lens).Some? && r.cutoff <= Latest(reviews, lens).value.cutoff
  {
    if reviews != [] {
      LatestInSeries(reviews[..|reviews| - 1], lens);
      assert forall r :: r in reviews <==> r in reviews[..|reviews| - 1] || r == reviews[|reviews| - 1];
    }
  }

  lemma CaptureKeeps(base: map<Id, Revision>, ledger: Ledger, personal: bool, lens: Lens, status: ReviewStatus)
    requires LedgerInv(base, ledger) && CaptureReview(ledger, personal, lens, status).Ok?
    ensures LedgerInv(base, CaptureReview(ledger, personal, lens, status).value)
  {
    hide Tally, Replay, UpTo, Latest, Images, RelevantEvent, SnapshotTotals, Summary;
    var later := CaptureReview(ledger, personal, lens, status).value;
    var r := later.reviews[|ledger.reviews|];
    UpToAll(ledger.events, r.cutoff);
    SnapshotIsTally(Images(ledger.txs), lens);
    assert Faithful(base, later, r);
    forall old_ | old_ in ledger.reviews ensures Faithful(base, later, old_) {
      assert later.events == ledger.events + [];
      StaysFaithful(base, ledger, later, [], old_);
    }
    assert forall x | x in later.reviews :: x in ledger.reviews || x == r;
    assert forall x | x in ledger.reviews :: Faithful(base, ledger, x) && x.cutoff < r.cutoff;
    CaptureSucceeds(ledger, personal, lens, status);
    hide Faithful, CaptureReview;
    ChainExtends(ledger.events, ledger.reviews, r);
  }

  lemma ChainExtends(events: seq<Event>, reviews: seq<Review>, r: Review)
    requires CutoffsIncrease(reviews) && Succession(events, reviews)
    requires forall x | x in reviews :: x.cutoff < r.cutoff
    requires var prior := Latest(reviews, r.lens); prior.Some? ==> Succeeds(events, prior.value, r)
    ensures CutoffsIncrease(reviews + [r]) && Succession(events, reviews + [r])
  {
    hide Latest, Succeeds;
    var all := reviews + [r];
    assert forall i | 0 <= i < |reviews| :: reviews[i] in reviews;
    forall j | 0 <= j < |all| && Latest(all[..j], all[j].lens).Some?
      ensures Succeeds(events, Latest(all[..j], all[j].lens).value, all[j])
    {
      assert all[..j] == reviews[..j];
      if j == |reviews| { assert reviews[..j] == reviews; }
    }
  }

  lemma UpToAll(events: seq<Event>, version: int)
    requires forall e | e in events :: e.version <= version
    ensures UpTo(events, version) == events
  {
  }

  /** The checks before a capture make it a proper successor of the latest checkpoint. */
  lemma CaptureSucceeds(ledger: Ledger, personal: bool, lens: Lens, status: ReviewStatus)
    requires CaptureReview(ledger, personal, lens, status).Ok?
    requires forall e | e in ledger.events :: e.version <= ledger.version
    ensures var prior, r := Latest(ledger.reviews, lens),
        CaptureReview(ledger, personal, lens, status).value.reviews[|ledger.reviews|];
            prior.Some? ==> Succeeds(ledger.events, prior.value, r)
  {
    hide Tally, Latest, RelevantEvent, SnapshotTotals, DeltaSum;
    var prior := Latest(ledger.reviews, lens);
    if prior.Some? && prior.value.status == status {
      ChangesAreWitnessed(AsSeen(prior.value.lens, lens), ledger.events, prior.value.cutoff);
    }
  }

  // ---- what the chain means ----

  /** In a series, checkpoints strictly advance, and once one is closed every later one is. */
  lemma {:induction false} ClosedStaysClosed(events: seq<Event>, reviews: seq<Review>, i: nat, j: nat)
    requires CutoffsIncrease(reviews) && Succession(events, reviews)
    requires i < j < |reviews| && SameSeries(reviews[i].lens, reviews[j].lens)
    ensures reviews[i].cutoff < reviews[j].cutoff
    ensures reviews[i].status == Closed ==> reviews[j].status == Closed
    decreases j
  {
    hide Latest, RelevantEvent;
    LatestInSeries(reviews[..j], reviews[j].lens);
    assert reviews[..j][i] == reviews[i];
    var prior := Latest(reviews[..j], reviews[j].lens).value;
    var k :| 0 <= k < j && reviews[..j][k] == prior;
    assert Succeeds(events, prior, reviews[j]);
    assert k >= i;
    if k > i {
      ClosedStaysClosed(events, reviews, i, k);
    }
  }

  /**
   * With a fixed scope and nothing newly hidden, consecutive snapshots differ by exactly the
   * deltas between their cutoffs.
   */
  lemma SnapshotsDifferByDeltas(base: map<Id, Revision>, ledger: Ledger, i: nat, j: nat)
    requires LedgerInv(base, ledger) && i < j < |ledger.reviews|
    requires ledger.reviews[i].lens == ledger.reviews[j].lens
    ensures var a, b := ledger.reviews[i], ledger.reviews[j];
            var until := UpTo(ledger.events, b.cutoff);
            b.snapshot == Plus(a.snapshot, DeltaSum(a.lens, until, a.cutoff))
            <==>
            Tally(Replay(base, until), Hidden(a.lens))
            == Tally(Replay(base, UpTo(ledger.events, a.cutoff)), Hidden(a.lens))
  {
    hide Tally, Replay, DeltaSum;
    var a, b := ledger.reviews[i], ledger.reviews[j];
    var until := UpTo(ledger.events, b.cutoff);
    UpToNested(ledger.events, a.cutoff, b.cutoff);
    assert Chained(base, until) by {
      assert forall k | 0 <= k < |until| :: until[..k] == ledger.events[..k];
    }
    hide UpTo;
    assert Faithful(base, ledger, a) && Faithful(base, ledger, b);
    SnapshotPlusDeltasIsLive(base, until, a.lens, a.cutoff);
  }

  lemma {:induction false} UpToNested(events: seq<Event>, low: int, high: int)
    requires low <= high
    ensures UpTo(UpTo(events, high), low) == UpTo(events, low)
  {
    if events != [] && events[|events| - 1].version > high {
      UpToNested(events[..|events| - 1], low, high);
    }
  }
}
