// How fresh the CRL stays and how soon a revocation is published, when the loop
// gets from its wake-up to the end of its check within `latency`.
module CrlTiming {
  import opened Wrappers
  import opened CrlKeeper

  ghost predicate Failing(t: Step) {
    t == InJob(Fail) || t == InJob(TimeOut)
  }

  // Time passes no further than the loop's next check may take, and a streak of
  // failed checks is at most `outage` long.
  ghost predicate OnTime(s: State, t: Step, latency: nat, outage: nat) {
    && (t.InWorld? && t.world.Tick? ==> s.now + t.world.nanos <= s.base + latency)
    && (Failing(t) && s.loop.Checking? && s.failingSince.Some? ==> s.now - s.failingSince.value <= outage)
  }

  ghost predicate Timely(s: State, t: Step, latency: nat, outage: nat) {
    Orderly(s, t) && OnTime(s, t, latency, outage)
  }

  ghost predicate TimelyRun(s: State, run: seq<Step>, latency: nat, outage: nat)
    requires Valid(s, run)
    decreases |run|
  {
    run == [] || (Timely(s, run[0], latency, outage) && TimelyRun(Apply(s, run[0]), run[1..], latency, outage))
  }

  ghost predicate Clocks(s: State, latency: nat) {
    && s.now <= s.base + latency
    && (!s.loop.Waiting? ==> s.base <= s.now)
    && (s.loop.Waiting? ==> s.base <= s.loop.until <= s.now + s.loop.wait && (s.permit ==> s.base <= s.now))
    && (s.loop.Checking? && s.job.Some? && HasAt(s.job.value.stage) ==> s.base <= s.job.value.stage.at)
    && (s.loop.Failed? ==> s.failingSince.Some?)
    && (s.mode.Enrolling? ==> !s.checked && (s.job.Some? ==> s.job.value.stage.Entered?))
  }

  ghost predicate Fresh(s: State, latency: nat, outage: nat) {
    s.checked && s.mode.Enrolled? ==>
      && s.crl.Some?
      && if s.failingSince.None? then s.crl.value.nextUpdate - s.base >= RESIGN_WITHIN - latency
         else
           var since := s.failingSince.value;
           && s.crl.value.nextUpdate >= since + RESIGN_WITHIN - 2 * latency
           && s.base <= since + outage + RETRY_AFTER + latency
           && (s.loop.Failed? ==> s.base <= since + outage)
  }

  // What the clocks need of the rest of the state.
  ghost predicate Sane(s: State) {
    && (s.loop.Checking? <==> s.job.Some? && s.job.value.who.TheLoop?)
    && (forall late :: late in s.late && s.crl.Some? && late.crl.number > s.crl.value.number ==>
          late.crl.nextUpdate >= s.crl.value.nextUpdate)
    && (s.job.Some? && s.crl.Some? && HasAt(s.job.value.stage) ==>
          s.crl.value.nextUpdate <= s.job.value.stage.at - BACKDATE + CRL_LIFE)
  }

  // --- The clocks ---

  lemma WorldClocks(s: State, world: World, latency: nat, outage: nat)
    requires Sane(s) && Clocks(s, latency) && CanWorld(s, world) && OnTime(s, InWorld(world), latency, outage)
    ensures Clocks(DoWorld(s, world), latency)
  {
    if world.Poke? {
      PokeClocks(s, latency);
    } else if world.Restart? {
      RestartClocks(s, latency);
    }
  }

  lemma PokeClocks(s: State, latency: nat)
    requires Clocks(s, latency)
    ensures Clocks(Notified(s), latency)
  {
  }

  lemma RestartClocks(s: State, latency: nat)
    requires Clocks(s, latency)
    ensures Clocks(DoWorld(s, Restart), latency)
  {
  }

  lemma WorldFresh(s: State, world: World, latency: nat, outage: nat)
    requires Sane(s) && Clocks(s, latency) && CanWorld(s, world) && Orderly(s, InWorld(world))
    requires Fresh(s, latency, outage)
    ensures Fresh(DoWorld(s, world), latency, outage)
  {
  }

  lemma HandlerClocks(s: State, h: nat, act: Act, latency: nat)
    requires Sane(s) && Clocks(s, latency) && CanHandler(s, h, act)
    ensures Clocks(DoHandler(s, h, act), latency)
  {
    if act.Notify? {
      PokeClocks(s, latency);
    } else if act.Lock? {
      LockClocks(s, h, latency);
    }
  }

  lemma LockClocks(s: State, h: nat, latency: nat)
    requires Sane(s) && Clocks(s, latency) && CanHandler(s, h, Lock)
    ensures Clocks(DoHandler(s, h, Lock), latency)
  {
  }

  lemma HandlerFresh(s: State, h: nat, act: Act, latency: nat, outage: nat)
    requires CanHandler(s, h, act) && Fresh(s, latency, outage)
    ensures Fresh(DoHandler(s, h, act), latency, outage)
  {
  }

  lemma LoopClocks(s: State, turn: Turn, latency: nat, outage: nat)
    requires Sane(s) && Clocks(s, latency) && CanLoop(s, turn)
    ensures Clocks(DoLoop(s, turn), latency)
    ensures Fresh(s, latency, outage) ==> Fresh(DoLoop(s, turn), latency, outage)
  {
  }

  lemma SucceedClocks(s: State, wait: int, looked: bool, latency: nat)
    requires Sane(s) && Clocks(s, latency) && JobAt(s) && wait >= 0
    requires s.mode.Enrolling? ==> !looked
    ensures Clocks(Succeed(s, wait, looked), latency)
  {
  }

  lemma ModeClocks(s: State, latency: nat, outage: nat)
    requires Sane(s) && Clocks(s, latency) && CanJob(s, LookMode)
    ensures Clocks(DoJob(s, LookMode), latency)
    ensures Fresh(s, latency, outage) ==> Fresh(DoJob(s, LookMode), latency, outage)
  {
    if !s.mode.Enrolled? {
      SucceedClocks(s, CHECK_EVERY, false, latency);
    }
  }

  lemma LookClocks(s: State, latency: nat, outage: nat)
    requires Sane(s) && Clocks(s, latency) && CanJob(s, LookClock)
    ensures Clocks(DoJob(s, LookClock), latency)
    ensures Fresh(s, latency, outage) ==> Fresh(DoJob(s, LookClock), latency, outage)
  {
  }

  // A check that finds the files fresh comes back before they need signing.
  lemma NoNeedFresh(s: State, wait: int, latency: nat, outage: nat)
    requires Sane(s) && Clocks(s, latency) && CanJob(s, Decide)
    requires var stage := s.job.value.stage; NoNeed(s, s.job.value.force, stage.subordinate, stage.at) == Some(wait)
    ensures wait >= 0
    ensures Fresh(s, latency, outage) ==> Fresh(Succeed(s, wait, true), latency, outage)
  {
  }

  lemma DecideClocks(s: State, latency: nat, outage: nat)
    requires Sane(s) && Clocks(s, latency) && CanJob(s, Decide)
    ensures Clocks(DoJob(s, Decide), latency)
    ensures Fresh(s, latency, outage) ==> Fresh(DoJob(s, Decide), latency, outage)
  {
    var stage := s.job.value.stage;
    var wait := NoNeed(s, s.job.value.force, stage.subordinate, stage.at);
    if wait.Some? {
      NoNeedFresh(s, wait.value, latency, outage);
      SucceedClocks(s, wait.value, true, latency);
    }
  }

  lemma SignClocks(s: State, work: Work, latency: nat, outage: nat)
    requires Sane(s) && Clocks(s, latency) && CanJob(s, work)
    requires work.ReadRevoked? || work.TakeNumber? || work.WriteCa?
    ensures Clocks(DoJob(s, work), latency)
    ensures Fresh(s, latency, outage) ==> Fresh(DoJob(s, work), latency, outage)
  {
  }

  lemma EndClocks(s: State, work: Work, latency: nat, outage: nat)
    requires Sane(s) && Clocks(s, latency) && CanJob(s, work) && OnTime(s, InJob(work), latency, outage)
    requires work.WriteCrl? || work.Fail? || work.TimeOut?
    ensures Clocks(DoJob(s, work), latency)
    ensures Fresh(s, latency, outage) ==> Fresh(DoJob(s, work), latency, outage)
  {
  }

  lemma ClocksStep(s: State, t: Step, latency: nat, outage: nat)
    requires Sane(s) && Clocks(s, latency) && Enabled(s, t) && Timely(s, t, latency, outage)
    ensures Clocks(Apply(s, t), latency)
    ensures Fresh(s, latency, outage) ==> Fresh(Apply(s, t), latency, outage)
  {
    match t
    case InWorld(world) =>
      WorldClocks(s, world, latency, outage);
      if Fresh(s, latency, outage) {
        WorldFresh(s, world, latency, outage);
      }
    case InHandler(h, act) =>
      HandlerClocks(s, h, act, latency);
      if Fresh(s, latency, outage) {
        HandlerFresh(s, h, act, latency, outage);
      }
    case InLoop(turn) => LoopClocks(s, turn, latency, outage);
    case InJob(work) =>
      match work {
        case LookMode => ModeClocks(s, latency, outage);
        case LookClock => LookClocks(s, latency, outage);
        case Decide => DecideClocks(s, latency, outage);
        case WriteCrl => EndClocks(s, work, latency, outage);
        case Fail => EndClocks(s, work, latency, outage);
        case TimeOut => EndClocks(s, work, latency, outage);
        case _ => SignClocks(s, work, latency, outage);
      }
  }

  // --- Freshness ---

  ghost predicate Timed(s: State, latency: nat, outage: nat) {
    Inv(s) && Clocks(s, latency) && Fresh(s, latency, outage)
  }

  lemma {:induction false} RunKeepsTime(s: State, run: seq<Step>, latency: nat, outage: nat)
    requires Timed(s, latency, outage) && Valid(s, run) && TimelyRun(s, run, latency, outage)
    ensures Timed(Exec(s, run), latency, outage)
    decreases |run|
  {
    if run != [] {
      StepKeeps(s, run[0]);
      ClocksStep(s, run[0], latency, outage);
      RunKeepsTime(Apply(s, run[0]), run[1..], latency, outage);
    }
  }

  // After the first check that found the broker enrolled, a CRL is on disk with at
  // least three days left whenever the last check succeeded, early wake-ups and
  // other signers included; and it never expires in a streak of failures shorter
  // than three days less one retry, each less the latency.
  lemma CrlStaysFresh(s: State, run: seq<Step>, latency: nat, outage: nat)
    requires Init(s) && Valid(s, run) && TimelyRun(s, run, latency, outage)
    requires Exec(s, run).checked && Exec(s, run).mode.Enrolled?
    ensures Exec(s, run).crl.Some?
    ensures
      var e := Exec(s, run);
      e.failingSince.None? ==> e.crl.value.nextUpdate - e.now >= RESIGN_WITHIN - 2 * latency
    ensures
      var e := Exec(s, run);
      e.crl.value.nextUpdate - e.now >= RESIGN_WITHIN - RETRY_AFTER - outage - 4 * latency
    ensures outage + RETRY_AFTER + 4 * latency < RESIGN_WITHIN ==> Exec(s, run).now < Exec(s, run).crl.value.nextUpdate
  {
    RunKeepsTime(s, run, latency, outage);
  }

  // --- How soon a revocation is published ---

  ghost predicate WakesSoon(s: State) {
    s.loop.Swapping? || s.permit || (s.loop.Waiting? && s.loop.wait <= RETRY_AFTER)
  }

  ghost predicate Unwritten(s: State, serial: nat) {
    !OnDisk(s, serial) && !Carried(s, serial) && !Expired(s, serial)
  }

  // A returned revocation that is neither on disk nor carried will be picked up.
  ghost predicate Prompt(s: State) {
    s.mode.Enrolled? ==> forall serial :: serial in s.returned && Unwritten(s, serial) ==> WakesSoon(s)
  }

  lemma FlagWakes(s: State, t: Step, serial: nat)
    requires Sane(s) && Enabled(s, t) && s.stale && WakesSoon(s)
    ensures WakesSoon(Apply(s, t)) || Carried(Apply(s, t), serial)
  {
    match t
    case InWorld(world) => assert WakesSoon(DoWorld(s, world));
    case InHandler(h, act) => assert WakesSoon(DoHandler(s, h, act));
    case InLoop(turn) =>
    case InJob(work) => JobLeavesWaker(s, work);
  }

  lemma JobLeavesWaker(s: State, work: Work)
    requires Sane(s) && CanJob(s, work) && WakesSoon(s)
    ensures WakesSoon(DoJob(s, work))
  {
  }

  lemma NewlyReturned(s: State, t: Step, serial: nat)
    requires Formed(s) && Enabled(s, t) && Orderly(s, t) && Apply(s, t).mode.Enrolled?
    ensures serial in Apply(s, t).returned ==>
      serial in s.returned || Apply(s, t).permit || OnDisk(Apply(s, t), serial) || Expired(Apply(s, t), serial)
  {
    match t
    case InWorld(world) => WorldReturnsNothing(s, world);
    case InHandler(h, act) => HandlerReturns(s, h, act);
    case InLoop(turn) => LoopReturnsNothing(s, turn);
    case InJob(work) =>
      JobSparesTheDatabase(s, work);
      JobReturns(s, work, serial);
  }

  lemma WorldReturnsNothing(s: State, world: World)
    requires CanWorld(s, world)
    ensures DoWorld(s, world).returned == s.returned
  {
  }

  lemma LoopReturnsNothing(s: State, turn: Turn)
    requires CanLoop(s, turn)
    ensures DoLoop(s, turn).returned == s.returned
  {
  }

  lemma HandlerReturns(s: State, h: nat, act: Act)
    requires CanHandler(s, h, act)
    ensures DoHandler(s, h, act).returned == s.returned || DoHandler(s, h, act).permit
  {
  }

  lemma PromptStep(s: State, t: Step)
    requires Inv(s) && Prompt(s) && Enabled(s, t) && Orderly(s, t)
    ensures Prompt(Apply(s, t))
  {
    var s' := Apply(s, t);
    if s'.mode.Enrolled? && t != InWorld(Restart) {
      forall serial | serial in s'.returned && Unwritten(s', serial)
        ensures WakesSoon(s')
      {
        if serial in s.returned {
          WasEnrolled(s, t);
          assert Flagged(s, serial) && Covered(s, serial);
          WrittenOrWaking(s, t, serial);
        } else {
          NewlyReturned(s, t, serial);
        }
      }
    }
  }

  lemma WrittenOrWaking(s: State, t: Step, serial: nat)
    requires Formed(s) && Enabled(s, t) && Orderly(s, t) && t != InWorld(Restart)
    requires s.mode.Enrolled? && serial in s.db.revoked
    requires Covered(s, serial) && (Unwritten(s, serial) ==> WakesSoon(s))
    ensures Unwritten(Apply(s, t), serial) ==> WakesSoon(Apply(s, t))
  {
    if Expired(s, serial) {
      StepOnlyAges(s, t);
    } else if OnDisk(s, serial) {
      DiskStays(s, t, serial);
    } else if Carried(s, serial) {
      CarriedStays(s, t, serial);
    } else {
      FlagWakes(s, t, serial);
    }
  }

  // Where a revocation stands that had been returned by `past`.
  ghost predicate OnItsWay(s: State, serial: nat, past: int, latency: nat) {
    || OnDisk(s, serial)
    || Expired(s, serial)
    || (Carried(s, serial) && s.base <= past + latency + RETRY_AFTER)
    || PickedUpNext(s, past, latency)
    || PickedUpAfterThis(s, past)
  }

  ghost predicate PickedUpNext(s: State, past: int, latency: nat) {
    s.stale && (s.loop.Swapping? || s.loop.Waiting?) && s.base <= past + latency + RETRY_AFTER
  }

  ghost predicate PickedUpAfterThis(s: State, past: int) {
    s.stale && s.permit && (s.loop.Wanting? || s.loop.Checking?) && s.base <= past
  }

  // The loop fails no check, and the daemon is not restarted.
  ghost predicate Unhindered(s: State, t: Step) {
    !(Failing(t) && s.loop.Checking?) && t != InWorld(Restart)
  }

  lemma ReturnedIsOnItsWay(s: State, serial: nat, latency: nat)
    requires Inv(s) && Prompt(s) && Clocks(s, latency) && s.mode.Enrolled? && serial in s.returned && !s.loop.Failed?
    ensures OnItsWay(s, serial, s.now, latency)
  {
    assert Flagged(s, serial);
  }

  // A check under way keeps its start; one that ends with a permit is followed by another at once.
  lemma CheckGoesOn(s: State, t: Step)
    requires Sane(s) && Enabled(s, t) && Unhindered(s, t)
    requires s.loop.Wanting? || s.loop.Checking?
    ensures
      var s' := Apply(s, t);
      || ((s'.loop.Wanting? || s'.loop.Checking?) && s'.base == s.base)
      || (t.InJob? && s'.loop.Waiting? && (s.permit ==> s'.base == s.now))
    ensures s.stale ==> Apply(s, t).stale
    ensures s.permit ==> Apply(s, t).permit
  {
    match t
    case InWorld(world) => assert DoWorld(s, world).loop == s.loop;
    case InHandler(h, act) => assert DoHandler(s, h, act).loop == s.loop;
    case InLoop(turn) =>
    case InJob(work) => JobGoesOn(s, work);
  }

  lemma JobGoesOn(s: State, work: Work)
    requires Sane(s) && CanJob(s, work) && Unhindered(s, InJob(work))
    requires s.loop.Wanting? || s.loop.Checking?
    ensures
      var s' := DoJob(s, work);
      || (s'.loop == s.loop && s'.base == s.base)
      || (s'.loop.Waiting? && (s.permit ==> s'.base == s.now))
  {
    if work.Fail? || work.TimeOut? {
      assert DoJob(s, work).loop == s.loop && DoJob(s, work).base == s.base;
    }
  }

  lemma NextOnItsWay(s: State, t: Step, serial: nat, past: int, latency: nat)
    requires Sane(s) && Clocks(s, latency) && Enabled(s, t) && OnTime(s, t, latency, 0) && Unhindered(s, t)
    requires PickedUpNext(s, past, latency)
    ensures
      var s' := Apply(s, t);
      PickedUpNext(s', past, latency) || (Carried(s', serial) && s'.base <= past + latency + RETRY_AFTER)
  {
    match t
    case InWorld(world) => assert PickedUpNext(DoWorld(s, world), past, latency);
    case InHandler(h, act) => assert PickedUpNext(DoHandler(s, h, act), past, latency);
    case InLoop(turn) =>
    case InJob(work) => JobByAnother(s, work);
  }

  lemma JobByAnother(s: State, work: Work)
    requires Sane(s) && CanJob(s, work) && !s.loop.Checking?
    ensures DoJob(s, work).loop == s.loop && DoJob(s, work).base == s.base && DoJob(s, work).stale == s.stale
  {
  }

  lemma OnItsWayStep(s: State, t: Step, serial: nat, past: int, latency: nat)
    requires Inv(s) && Clocks(s, latency) && s.mode.Enrolled? && serial in s.db.revoked && !s.loop.Failed?
    requires Enabled(s, t) && Timely(s, t, latency, 0) && Unhindered(s, t)
    requires OnItsWay(s, serial, past, latency)
    ensures OnItsWay(Apply(s, t), serial, past, latency)
  {
    if Expired(s, serial) {
      StepOnlyAges(s, t);
    } else if OnDisk(s, serial) {
      DiskStays(s, t, serial);
    } else if PickedUpNext(s, past, latency) {
      NextOnItsWay(s, t, serial, past, latency);
    } else if Carried(s, serial) && s.base <= past + latency + RETRY_AFTER {
      CarriedStays(s, t, serial);
      CheckGoesOn(s, t);
    } else {
      CheckGoesOn(s, t);
    }
  }

  lemma StaysUnfailed(s: State, t: Step)
    requires Sane(s) && Enabled(s, t) && Unhindered(s, t) && !s.loop.Failed?
    ensures !Apply(s, t).loop.Failed?
  {
    match t
    case InWorld(world) => assert DoWorld(s, world).loop == s.loop;
    case InHandler(h, act) => assert DoHandler(s, h, act).loop == s.loop;
    case InLoop(turn) =>
    case InJob(work) =>
      if s.loop.Checking? {
        JobGoesOn(s, work);
      } else {
        JobByAnother(s, work);
      }
  }

  ghost predicate UnhinderedRun(s: State, run: seq<Step>)
    requires Valid(s, run)
    decreases |run|
  {
    run == [] || (Unhindered(s, run[0]) && UnhinderedRun(Apply(s, run[0]), run[1..]))
  }

  lemma {:induction false} RunOnItsWay(s: State, run: seq<Step>, serial: nat, past: int, latency: nat)
    requires Inv(s) && Clocks(s, latency) && serial in s.db.revoked && !s.loop.Failed?
    requires Valid(s, run) && TimelyRun(s, run, latency, 0) && UnhinderedRun(s, run)
    requires s.mode.Enrolled? && OnItsWay(s, serial, past, latency)
    ensures Exec(s, run).mode.Enrolled? ==>
              OnItsWay(Exec(s, run), serial, past, latency) && Clocks(Exec(s, run), latency)
    decreases |run|
  {
    if run != [] {
      var s' := Apply(s, run[0]);
      StepKeeps(s, run[0]);
      ClocksStep(s, run[0], latency, 0);
      OnItsWayStep(s, run[0], serial, past, latency);
      StaysUnfailed(s, run[0]);
      RevokedStays(s, run[0]);
      if s'.mode.Enrolled? {
        RunOnItsWay(s', run[1..], serial, past, latency);
      } else {
        OutForGood(s', run[1..]);
      }
    }
  }

  lemma RevokedStays(s: State, t: Step)
    requires Enabled(s, t)
    ensures s.db.revoked <= Apply(s, t).db.revoked
    ensures s.mode.Enrolled? ==> !Apply(s, t).mode.Enrolling?
    ensures s.mode.Revoked? ==> Apply(s, t).mode.Revoked?
  {
    match t
    case InWorld(world) => assert DoWorld(s, world).db.revoked == s.db.revoked;
    case InHandler(h, act) => assert DoHandler(s, h, act).mode == s.mode;
    case InLoop(turn) => assert DoLoop(s, turn).db.revoked == s.db.revoked;
    case InJob(work) => JobSparesTheDatabase(s, work);
  }

  lemma {:induction false} OutForGood(s: State, run: seq<Step>)
    requires Valid(s, run) && s.mode.Revoked?
    ensures Exec(s, run).mode.Revoked?
    decreases |run|
  {
    if run != [] {
      RevokedStays(s, run[0]);
      OutForGood(Apply(s, run[0]), run[1..]);
    }
  }

  lemma {:induction false} RunKeepsPrompt(s: State, run: seq<Step>, latency: nat, outage: nat)
    requires Inv(s) && Clocks(s, latency) && Prompt(s) && Valid(s, run) && TimelyRun(s, run, latency, outage)
    ensures Inv(Exec(s, run)) && Clocks(Exec(s, run), latency) && Prompt(Exec(s, run))
    decreases |run|
  {
    if run != [] {
      StepKeeps(s, run[0]);
      ClocksStep(s, run[0], latency, outage);
      PromptStep(s, run[0]);
      RunKeepsPrompt(Apply(s, run[0]), run[1..], latency, outage);
    }
  }

  // However the run went before, once a revocation's handler has returned and the
  // loop's checks succeed from then on, the leaf is on the CRL on disk two
  // latencies and one retry later, unless it has expired by then.
  lemma RevocationIsPublished(s: State, before: seq<Step>, after: seq<Step>, serial: nat, latency: nat, outage: nat)
    requires Init(s) && Valid(s, before) && TimelyRun(s, before, latency, outage)
    requires Valid(Exec(s, before), after) && TimelyRun(Exec(s, before), after, latency, 0)
    requires UnhinderedRun(Exec(s, before), after)
    requires serial in Exec(s, before).returned && !Exec(s, before).loop.Failed?
    requires Exec(s, before).mode.Enrolled? && Exec(Exec(s, before), after).mode.Enrolled?
    requires Exec(Exec(s, before), after).now > Exec(s, before).now + 2 * latency + RETRY_AFTER
    ensures OnDisk(Exec(Exec(s, before), after), serial) || Expired(Exec(Exec(s, before), after), serial)
  {
    var m := Exec(s, before);
    RunKeepsPrompt(s, before, latency, outage);
    ReturnedIsOnItsWay(m, serial, latency);
    RunOnItsWay(m, after, serial, m.now, latency);
  }
}
