// Pre-signed CRL batches: what the Lambda releases, and the cover that gives over any
// schedule of runs. Times are seconds; what the clock says is a parameter.
module CrlBatch {
  import opened Wrappers

  const DAY := 86_400
  const PERIOD := 7 * DAY
  const WINDOW := 10 * DAY
  const SIZE := 5
  const LOW_COVER := 2

  // A CRL's window outlasts its period by this much: three days.
  const GAP := WINDOW - PERIOD

  // From a batch's start to the end of its last CRL: 38 days.
  const COVER := (SIZE - 1) * PERIOD + WINDOW

  datatype Crl = Crl(number: Option<int>, signed: bool, lastUpdate: int, nextUpdate: int)

  function Number(crl: Crl): int {
    if crl.number.Some? then crl.number.value else -1
  }

  predicate Within(crl: Crl, t: int) {
    crl.lastUpdate <= t <= crl.nextUpdate
  }

  // --- `release_due_crl` ---

  predicate Acceptable(batch: seq<Crl>) {
    batch != [] && forall i :: 0 <= i < |batch| ==> batch[i].number.Some? && batch[i].signed
  }

  function Due(batch: seq<Crl>, now: int): seq<Crl> {
    if batch == [] then []
    else
      var rest := Due(batch[1..], now);
      if batch[0].lastUpdate <= now then [batch[0]] + rest else rest
  }

  // Python's `max` by `last_update_utc`: the first of the latest.
  function Latest(crls: seq<Crl>): Crl
    requires crls != []
  {
    var last := crls[|crls| - 1];
    if |crls| == 1 then last
    else
      var best := Latest(crls[..|crls| - 1]);
      if last.lastUpdate > best.lastUpdate then last else best
  }

  datatype Outcome = Outcome(release: Option<Crl>, warning: bool)

  // `batch` is None when it cannot be parsed.
  function Release(batch: Option<seq<Crl>>, published: Crl, now: int): Outcome {
    if batch == None || !Acceptable(batch.value) then Outcome(None, true)
    else
      var due := Due(batch.value, now);
      var release :=
        if due == [] then None
        else
          var latest := Latest(due);
          if Number(latest) > Number(published) then Some(latest) else None;
      Outcome(release, |batch.value| - |due| < LOW_COVER)
  }

  lemma {:induction false} DueIsDue(batch: seq<Crl>, now: int, c: Crl)
    ensures c in Due(batch, now) <==> c in batch && c.lastUpdate <= now
    decreases |batch|
  {
    if batch != [] {
      DueIsDue(batch[1..], now, c);
      assert batch == [batch[0]] + batch[1..];
    }
  }

  lemma {:induction false} LatestIsLatest(crls: seq<Crl>)
    requires crls != []
    ensures Latest(crls) in crls
    ensures forall c :: c in crls ==> c.lastUpdate <= Latest(crls).lastUpdate
    decreases |crls|
  {
    if |crls| > 1 {
      LatestIsLatest(crls[..|crls| - 1]);
      assert crls == crls[..|crls| - 1] + [crls[|crls| - 1]];
    }
  }

  // Whatever is released is signed, due, newer than what was published, and nothing due
  // is later; and something is released whenever every due CRL outnumbers the published.
  lemma ReleaseIsLatestDue(batch: seq<Crl>, published: Crl, now: int)
    ensures var r := Release(Some(batch), published, now).release;
      && (r.Some? ==>
            && Acceptable(batch) && r.value in batch && r.value.lastUpdate <= now && r.value.signed
            && Number(r.value) > Number(published)
            && forall c :: c in batch && c.lastUpdate <= now ==> c.lastUpdate <= r.value.lastUpdate)
      && (r.None? && Acceptable(batch) && (exists c :: c in batch && c.lastUpdate <= now) ==>
            exists c :: c in batch && c.lastUpdate <= now && Number(c) <= Number(published))
  {
    var due := Due(batch, now);
    forall c ensures c in due <==> c in batch && c.lastUpdate <= now {
      DueIsDue(batch, now, c);
    }
    if due != [] {
      LatestIsLatest(due);
    }
  }

  // Of the due CRLs, number `i` is the first of those that begin last.
  predicate FirstLatestDue(batch: seq<Crl>, now: int, i: nat)
    requires i < |batch|
  {
    && batch[i].lastUpdate <= now
    && (forall j :: 0 <= j < i && batch[j].lastUpdate <= now ==> batch[j].lastUpdate < batch[i].lastUpdate)
    && (forall j :: i < j < |batch| && batch[j].lastUpdate <= now ==> batch[j].lastUpdate <= batch[i].lastUpdate)
  }

  lemma {:induction false} LatestOfDue(batch: seq<Crl>, now: int) returns (i: nat)
    requires Due(batch, now) != []
    ensures i < |batch| && FirstLatestDue(batch, now, i) && Latest(Due(batch, now)) == batch[i]
    decreases |batch|
  {
    var rest := batch[1..];
    var due := Due(rest, now);
    if due == [] {
      i := 0;
      forall j | 1 <= j < |batch| ensures batch[j].lastUpdate > now {
        DueIsDue(rest, now, rest[j - 1]);
      }
    } else {
      var k := LatestOfDue(rest, now);
      if batch[0].lastUpdate <= now {
        LatestOfMore(batch[0], due);
      }
      i := if batch[0].lastUpdate <= now && batch[0].lastUpdate >= rest[k].lastUpdate then 0 else k + 1;
      assert forall j :: 1 <= j < |batch| ==> batch[j] == rest[j - 1];
    }
  }

  lemma {:induction false} LatestOfMore(c: Crl, crls: seq<Crl>)
    requires crls != []
    ensures Latest([c] + crls) == if c.lastUpdate >= Latest(crls).lastUpdate then c else Latest(crls)
    decreases |crls|
  {
    var all, front := [c] + crls, crls[..|crls| - 1];
    assert all[..|all| - 1] == [c] + front;
    if front != [] {
      LatestOfMore(c, front);
    }
  }

  lemma OnlyOneFirstLatest(batch: seq<Crl>, now: int, i: nat, j: nat)
    requires i < |batch| && j < |batch| && FirstLatestDue(batch, now, i) && FirstLatestDue(batch, now, j)
    ensures i == j
  {
  }

  // A run releases exactly the first of the latest due CRLs, of a batch all signed and
  // numbered, and exactly when its number is above that of the published one, if that
  // has one.
  lemma ReleaseExactlyWhen(batch: seq<Crl>, published: Crl, now: int, c: Crl)
    ensures Release(Some(batch), published, now).release == Some(c) <==>
              && (forall i :: 0 <= i < |batch| ==> batch[i].signed && batch[i].number.Some?)
              && (exists i :: 0 <= i < |batch| && FirstLatestDue(batch, now, i) && batch[i] == c)
              && c.number.Some? && c.number.value > (if published.number.Some? then published.number.value else -1)
  {
    var due := Due(batch, now);
    if due != [] {
      var k := LatestOfDue(batch, now);
      forall i | 0 <= i < |batch| && FirstLatestDue(batch, now, i) ensures i == k {
        OnlyOneFirstLatest(batch, now, i, k);
      }
    } else {
      forall i | 0 <= i < |batch| ensures batch[i].lastUpdate > now {
        DueIsDue(batch, now, batch[i]);
      }
    }
  }

  lemma {:induction false} DueOrYet(batch: seq<Crl>, now: int)
    ensures |Due(batch, now)| <= |batch|
    ensures |batch| - |Due(batch, now)| >= 1 <==> exists i :: 0 <= i < |batch| && batch[i].lastUpdate > now
    ensures |batch| - |Due(batch, now)| >= 2 <==> TwoYet(batch, now)
    decreases |batch|
  {
    if batch != [] {
      var rest := batch[1..];
      DueOrYet(rest, now);
      assert forall i :: 1 <= i < |batch| ==> batch[i] == rest[i - 1];
      if i :| 0 <= i < |rest| && rest[i].lastUpdate > now {
        assert batch[i + 1].lastUpdate > now;
      }
      if i, j :| 0 <= i < j < |rest| && rest[i].lastUpdate > now && rest[j].lastUpdate > now {
        assert batch[i + 1].lastUpdate > now && batch[j + 1].lastUpdate > now;
      }
    }
  }

  predicate TwoYet(batch: seq<Crl>, now: int) {
    exists i, j :: 0 <= i < j < |batch| && batch[i].lastUpdate > now && batch[j].lastUpdate > now
  }

  // It warns unless the batch can be read, is all signed and numbered, and has two CRLs
  // still to come.
  lemma WarnsExactlyWhen(batch: Option<seq<Crl>>, published: Crl, now: int)
    ensures !Release(batch, published, now).warning <==>
              && batch.Some?
              && (forall i :: 0 <= i < |batch.value| ==> batch.value[i].signed && batch.value[i].number.Some?)
              && TwoYet(batch.value, now)
  {
    if batch.Some? {
      DueOrYet(batch.value, now);
    }
  }

  // --- Runs over any batches ---

  // One run of the Lambda: the batch it read, its clock, and whether a put succeeds.
  datatype Invocation = Invocation(batch: Option<seq<Crl>>, now: int, stored: bool)

  function Publish(published: Crl, run: Invocation): Crl {
    var release := Release(run.batch, published, run.now).release;
    if release.Some? && run.stored then release.value else published
  }

  function PublishAll(published: Crl, runs: seq<Invocation>): Crl
    decreases |runs|
  {
    if runs == [] then published else PublishAll(Publish(published, runs[0]), runs[1..])
  }

  // Whatever the batches, the clocks and the failures, the published number never falls.
  lemma {:induction false} NumberNeverFalls(published: Crl, runs: seq<Invocation>)
    ensures Number(PublishAll(published, runs)) >= Number(published)
    ensures PublishAll(published, runs) == published || Number(PublishAll(published, runs)) > Number(published)
    decreases |runs|
  {
    if runs != [] {
      NumberNeverFalls(Publish(published, runs[0]), runs[1..]);
    }
  }

  // A published CRL numbered at or above everything in the batches is never replaced,
  // however long ago it expired.
  lemma {:induction false} HighNumberIsNeverReplaced(published: Crl, runs: seq<Invocation>)
    requires forall i, c :: 0 <= i < |runs| && runs[i].batch.Some? && c in runs[i].batch.value ==>
      Number(c) <= Number(published)
    ensures PublishAll(published, runs) == published
    decreases |runs|
  {
    if runs != [] {
      if runs[0].batch.Some? {
        ReleaseIsLatestDue(runs[0].batch.value, published, runs[0].now);
      }
      HighNumberIsNeverReplaced(published, runs[1..]);
    }
  }

  // --- The batches opCA signs ---

  datatype Batch = Batch(t0: int, first: int)

  function Crls(b: Batch): (r: seq<Crl>)
    ensures |r| == SIZE && Acceptable(r)
    ensures forall i :: 0 <= i < SIZE ==> r[i] == Signed(b, i)
  {
    seq(SIZE, i => Signed(b, i))
  }

  function Signed(b: Batch, i: int): Crl {
    Crl(Some(b.first + i), true, b.t0 + i * PERIOD, b.t0 + i * PERIOD + WINDOW)
  }

  // How many of the batch's CRLs are due.
  function DueCount(b: Batch, now: int): (k: nat)
    ensures k <= SIZE
    ensures forall i :: 0 <= i < SIZE ==> (i < k <==> Signed(b, i).lastUpdate <= now)
  {
    if now < b.t0 then 0
    else if now < b.t0 + PERIOD then 1
    else if now < b.t0 + 2 * PERIOD then 2
    else if now < b.t0 + 3 * PERIOD then 3
    else if now < b.t0 + 4 * PERIOD then 4
    else 5
  }

  lemma {:induction false} DueIsPrefix(crls: seq<Crl>, now: int, k: nat)
    requires k <= |crls|
    requires forall i :: 0 <= i < |crls| ==> (i < k <==> crls[i].lastUpdate <= now)
    ensures Due(crls, now) == crls[..k]
    decreases |crls|
  {
    if crls != [] {
      DueIsPrefix(crls[1..], now, if k == 0 then 0 else k - 1);
      assert k > 0 ==> crls[..k] == [crls[0]] + crls[1..][..k - 1];
    }
  }

  lemma {:induction false} LatestIsLast(crls: seq<Crl>)
    requires crls != [] && forall i, j :: 0 <= i < j < |crls| ==> crls[i].lastUpdate < crls[j].lastUpdate
    ensures Latest(crls) == crls[|crls| - 1]
    decreases |crls|
  {
    if |crls| > 1 {
      LatestIsLast(crls[..|crls| - 1]);
    }
  }

  // A run releases the last CRL due, when its number is higher than the published one's.
  lemma RunReleases(b: Batch, published: Crl, now: int)
    ensures var o := Release(Some(Crls(b)), published, now);
      && (o.warning <==> now >= b.t0 + (SIZE - LOW_COVER) * PERIOD)
      && (o.release.Some? <==> now >= b.t0 && b.first + DueCount(b, now) - 1 > Number(published))
      && (o.release.Some? ==> o.release.value == Signed(b, DueCount(b, now) - 1))
  {
    var k := DueCount(b, now);
    DueIsPrefix(Crls(b), now, k);
    if k > 0 {
      LatestIsLast(Crls(b)[..k]);
    }
  }

  // --- Cover over every schedule of runs and re-signings ---

  // The current batch, the number the next will start from, the published CRL, the clock,
  // the last working run with the batch it read, and when this batch first drew a warning.
  datatype World = World(
    batch: Batch, next: int, published: Crl, now: int, ran: Option<(Batch, int)>, warned: Option<int>)

  datatype Event = Resign(at: int) | Run(at: int, stored: bool)

  function Apply(w: World, e: Event): World {
    match e
    case Resign(at) => w.(batch := Batch(at, w.next), next := w.next + SIZE, now := at, warned := None)
    case Run(at, stored) =>
      var crls := Some(Crls(w.batch));
      w.(published := Publish(w.published, Invocation(crls, at, stored)),
         now := at,
         ran := if stored then Some((w.batch, at)) else w.ran,
         warned := if w.warned == None && Release(crls, w.published, at).warning then Some(at) else w.warned)
  }

  function Exec(w: World, events: seq<Event>): World
    decreases |events|
  {
    if events == [] then w else Exec(Apply(w, events[0]), events[1..])
  }

  // Time moves on, working runs are at most `gap` apart, and a batch is re-signed no later
  // than `gap` before its cover ends.
  predicate OnTime(w: World, e: Event, gap: int) {
    && w.now <= e.at
    && (w.ran.Some? ==> e.at <= w.ran.value.1 + gap)
    && (e.Resign? ==> e.at <= w.batch.t0 + COVER - gap)
  }

  predicate AllOnTime(w: World, events: seq<Event>, gap: int)
    decreases |events|
  {
    events == [] || (OnTime(w, events[0], gap) && AllOnTime(Apply(w, events[0]), events[1..], gap))
  }

  // A batch just signed over whatever lower-numbered CRL is published.
  predicate Start(w: World) {
    && w.batch.t0 <= w.now && w.next == w.batch.first + SIZE && w.ran == None && w.warned == None
    && Number(w.published) < w.batch.first
  }

  // After a working run the published CRL is the last one its batch had due then.
  predicate Released(published: Crl, b: Batch, at: int) {
    && b.t0 <= at
    && published == Signed(b, DueCount(b, at) - 1)
  }

  predicate Inv(w: World, gap: int) {
    && w.batch.t0 <= w.now && w.next == w.batch.first + SIZE
    && (w.ran == None ==> Number(w.published) < w.batch.first)
    && (w.ran.Some? ==>
          var (b, at) := w.ran.value;
          && at <= w.now && Released(w.published, b, at)
          && (b != w.batch ==> b.first + SIZE <= w.batch.first && at <= b.t0 + COVER - gap && at <= w.batch.t0))
  }

  lemma StepKeeps(w: World, e: Event, gap: int)
    requires Inv(w, gap) && OnTime(w, e, gap)
    ensures Inv(Apply(w, e), gap)
  {
    if e.Run? {
      RunReleases(w.batch, w.published, e.at);
      if w.ran.Some? && w.ran.value.0 == w.batch {
        assert DueCount(w.batch, w.ran.value.1) <= DueCount(w.batch, e.at);
      }
    }
  }

  lemma {:induction false} RunKeeps(w: World, events: seq<Event>, gap: int)
    requires Inv(w, gap) && AllOnTime(w, events, gap)
    ensures Inv(Exec(w, events), gap)
    decreases |events|
  {
    if events != [] {
      StepKeeps(w, events[0], gap);
      RunKeeps(Apply(w, events[0]), events[1..], gap);
    }
  }

  // A CRL covers until a period after the last instant at which it is the latest due.
  lemma ReleasedCovers(published: Crl, b: Batch, at: int, t: int)
    requires Released(published, b, at) && at <= t <= at + GAP + 1 && t <= b.t0 + COVER
    ensures Within(published, t)
  {
  }

  // An instant of the schedule `events`: after its first working run, no further on than
  // the next may be, and within the cover of the batch in force.
  predicate InSchedule(w: World, events: seq<Event>, gap: int, t: int) {
    var end := Exec(w, events);
    && Start(w) && AllOnTime(w, events, gap)
    && end.ran.Some? && end.now <= t <= end.ran.value.1 + gap && t <= end.batch.t0 + COVER
  }

  // From the first working run on, the published CRL is in its window at every instant
  // until the current batch's cover ends, with working runs up to GAP and a second apart.
  lemma PublishedStaysInWindow(w: World, events: seq<Event>, gap: int, t: int)
    requires gap <= GAP + 1 && InSchedule(w, events, gap, t)
    ensures Within(Exec(w, events).published, t)
  {
    RunKeeps(w, events, gap);
    var end := Exec(w, events);
    ReleasedCovers(end.published, end.ran.value.0, end.ran.value.1, t);
  }

  ghost predicate AlwaysCovered(gap: int) {
    forall w, events, t :: InSchedule(w, events, gap, t) ==> Within(Exec(w, events).published, t)
  }

  // And that is the most: a run just before a CRL is due, and none for a second longer,
  // leaves an expired CRL. Clocks are in whole seconds.
  lemma AlwaysCoveredExactlyUpToGap(gap: int)
    ensures AlwaysCovered(gap) <==> gap <= GAP + 1
  {
    if gap <= GAP + 1 {
      forall w, events, t | InSchedule(w, events, gap, t) ensures Within(Exec(w, events).published, t) {
        PublishedStaysInWindow(w, events, gap, t);
      }
    } else {
      var w, events, t := LongGap(gap);
    }
  }

  lemma LongGap(gap: int) returns (w: World, events: seq<Event>, t: int)
    requires gap > GAP + 1
    ensures InSchedule(w, events, gap, t) && !Within(Exec(w, events).published, t)
  {
    var b := Batch(0, 0);
    var at := PERIOD - 1;
    w := World(b, SIZE, Crl(None, true, 0, 0), 0, None, None);
    events := [Run(at, true)];
    t := at + GAP + 2;
    RunReleases(b, w.published, at);
    assert events[1..] == [];
    assert Exec(w, events) == Exec(Apply(w, events[0]), []) == Apply(w, events[0]);
  }

  // --- The warning comes early ---

  predicate WarnedEarly(w: World, gap: int) {
    && (w.warned == None && w.ran.Some? && w.ran.value.0 == w.batch ==>
          w.ran.value.1 < w.batch.t0 + (SIZE - LOW_COVER) * PERIOD)
    && (w.warned.Some? ==> w.batch.t0 + COVER - w.warned.value > WARNED_COVER - gap)
  }

  // From when a run warns to the end of the batch's cover: 17 days.
  const WARNED_COVER := (LOW_COVER - 1) * PERIOD + WINDOW

  lemma StepWarnsEarly(w: World, e: Event, gap: int)
    requires Inv(w, gap) && w.ran.Some? && OnTime(w, e, gap) && WarnedEarly(w, gap)
    ensures WarnedEarly(Apply(w, e), gap) && Apply(w, e).ran.Some?
  {
    if e.Run? {
      RunReleases(w.batch, w.published, e.at);
    } else {
      assert Batch(e.at, w.next) != w.ran.value.0;
    }
  }

  lemma {:induction false} FirstWarningIsEarly(w: World, events: seq<Event>, gap: int)
    requires Inv(w, gap) && w.ran.Some? && WarnedEarly(w, gap) && AllOnTime(w, events, gap)
    ensures var end := Exec(w, events);
      end.warned.Some? ==> end.batch.t0 + COVER - end.warned.value > WARNED_COVER - gap
    decreases |events|
  {
    if events != [] {
      StepKeeps(w, events[0], gap);
      StepWarnsEarly(w, events[0], gap);
      FirstWarningIsEarly(Apply(w, events[0]), events[1..], gap);
    }
  }

  // With runs at most GAP apart, once one has been made without a warning, each batch's
  // first warning leaves more than fourteen days of cover, which is eleven days in which
  // to re-sign on time.
  lemma FirstWarningLeavesTwoWeeks(w: World, events: seq<Event>)
    requires Inv(w, GAP) && w.ran.Some? && WarnedEarly(w, GAP) && AllOnTime(w, events, GAP)
    ensures var end := Exec(w, events);
      && (end.warned.Some? ==> end.batch.t0 + COVER - end.warned.value > 14 * DAY)
      && (end.warned.Some? ==> end.batch.t0 + COVER - GAP - end.warned.value > 11 * DAY)
  {
    FirstWarningIsEarly(w, events, GAP);
  }

  // --- What the conditions are for ---

  // What the first run leaves published, whatever it found there.
  lemma RunPublishesExactlyWhen(b: Batch, published: Crl, now: int)
    requires b.t0 <= now
    ensures var latest := Signed(b, DueCount(b, now) - 1);
      Publish(published, Invocation(Some(Crls(b)), now, true)) == latest <==>
      published == latest || Number(published) < Number(latest)
  {
    RunReleases(b, published, now);
  }

  lemma NumbersOf(b: Batch, c: Crl)
    requires c in Crls(b)
    ensures b.first <= Number(c) < b.first + SIZE
  {
    var j :| 0 <= j < SIZE && c == Crls(b)[j];
  }

  // An expired CRL numbered at or above the whole batch stays published: nothing in the
  // batch is ever released.
  lemma HigherNumberLeavesExpiredCrl(b: Batch, stale: Crl, runs: seq<Invocation>)
    requires Number(stale) >= b.first + SIZE - 1 && stale.nextUpdate < b.t0
    requires forall i :: 0 <= i < |runs| ==> runs[i].batch == Some(Crls(b))
    ensures PublishAll(stale, runs) == stale
    ensures forall t :: b.t0 <= t ==> !Within(PublishAll(stale, runs), t)
  {
    forall i, c | 0 <= i < |runs| && runs[i].batch.Some? && c in runs[i].batch.value
      ensures Number(c) <= Number(stale)
    {
      NumbersOf(b, c);
    }
    HighNumberIsNeverReplaced(stale, runs);
  }
}
