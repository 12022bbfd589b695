// Two runs of the keeper in which a revocation is lost, each outside the
// conditions of `NoRevocationIsLost` in one way only.
module CrlKeeperLimits {
  import opened Wrappers
  import opened CrlKeeper

  lemma {:induction false} Extend(s: State, run: seq<Step>, t: Step)
    requires Valid(s, run) && Enabled(Exec(s, run), t)
    ensures Valid(s, run + [t]) && Exec(s, run + [t]) == Apply(Exec(s, run), t)
    decreases |run|
  {
    if run == [] {
      assert run + [t] == [t];
      assert Exec(Apply(s, t), []) == Apply(s, t);
    } else {
      assert (run + [t])[1..] == run[1..] + [t];
      Extend(Apply(s, run[0]), run[1..], t);
    }
  }

  lemma Next(s: State, run: seq<Step>, t: Step) returns (longer: seq<Step>)
    requires Valid(s, run) && Enabled(Exec(s, run), t)
    ensures Valid(s, longer) && Exec(s, longer) == Apply(Exec(s, run), t)
    ensures longer == run + [t]
  {
    Extend(s, run, t);
    longer := run + [t];
  }

  const NOW: int := 0
  const LEAF := Leaf(1, 1_000_000_000_000_000)

  // A daemon just started over an enrolment with one leaf, not revoked.
  const STARTED := State(
    NOW, Enrolled(1, None), Db(map[7 := LEAF], {}, map[], 1), Some(1), Some(Crl(1, {}, NOW - BACKDATE + CRL_LIFE)),
    false, false, Swapping, NOW, None, map[], {}, {}, false, None)

  ghost predicate Lost(s: State, serial: nat) {
    && s.mode.Enrolled? && serial in s.returned && !Expired(s, serial)
    && !OnDisk(s, serial) && !s.stale && s.loop.Waiting?
  }

  // The flag lives in memory: a restart between a revocation and its signing drops
  // it, and the CRL on disk, still fresh, is left alone.
  lemma RestartLosesRevocation()
    ensures Init(STARTED) && exists run :: Valid(STARTED, run) && InJob(TimeOut) !in run && Lost(Exec(STARTED, run), 7)
  {
    var run := FlagThenRestart();
    run := Next(STARTED, run, InLoop(Swap));
    run := Next(STARTED, run, InLoop(Want));
    run := Next(STARTED, run, InJob(LookMode));
    run := Next(STARTED, run, InJob(LookClock));
    var s := STARTED.(db := STARTED.db.(revoked := {7}), returned := {7}, loop := Checking(false));
    assert Exec(STARTED, run) == s.(job := Some(Job(TheLoop, false, Clocked(1, None, NOW))));
    run := Next(STARTED, run, InJob(Decide));
    assert NoNeed(s, false, 1, NOW) == Some(CHECK_EVERY);
    assert Lost(Exec(STARTED, run), 7);
  }

  // What a restart does to a revocation that was answered for and is not yet on disk:
  // the first check after it loses the leaf exactly when the CRL on disk is this
  // subordinate's and has more than three days left. Else it signs, and lists the leaf.
  lemma RestartLosesExactlyWhen(s: State, serial: nat) returns (run: seq<Step>)
    requires Formed(s) && s.mode.Enrolled? && serial in s.returned && !Expired(s, serial) && !OnDisk(s, serial)
    ensures run == [InWorld(Restart), InLoop(Swap), InLoop(Want), InJob(LookMode), InJob(LookClock), InJob(Decide)]
    ensures Valid(s, run)
    ensures Lost(Exec(s, run), serial) <==> NoNeed(s, false, s.mode.subordinate, s.now).Some?
    ensures NoNeed(s, false, s.mode.subordinate, s.now).None? ==>
              var e := Exec(s, run);
              Enabled(e, InJob(ReadRevoked)) && serial in Apply(e, InJob(ReadRevoked)).job.value.stage.list
  {
    run := Restarted(s);
    var e := Exec(s, run);
    run := Next(s, run, InJob(Decide));
    assert NoNeed(e, false, s.mode.subordinate, s.now) == NoNeed(s, false, s.mode.subordinate, s.now);
  }

  lemma Restarted(s: State) returns (run: seq<Step>)
    requires s.mode.Enrolled?
    ensures run == [InWorld(Restart), InLoop(Swap), InLoop(Want), InJob(LookMode), InJob(LookClock)]
    ensures Valid(s, run)
    ensures Exec(s, run) ==
            s.(stale := false, permit := false, loop := Checking(false), base := s.now, handlers := map[], late := {},
               checked := false, failingSince := None,
               job := Some(Job(TheLoop, false, Clocked(s.mode.subordinate, s.mode.issuers, s.now))))
  {
    run := Next(s, [], InWorld(Restart));
    run := Next(s, run, InLoop(Swap));
    run := Next(s, run, InLoop(Want));
    run := Next(s, run, InJob(LookMode));
    run := Next(s, run, InJob(LookClock));
  }

  lemma FlagThenRestart() returns (run: seq<Step>)
    ensures Valid(STARTED, run) && InJob(TimeOut) !in run
    ensures Exec(STARTED, run) == STARTED.(db := STARTED.db.(revoked := {7}), returned := {7})
  {
    run := Next(STARTED, [], InHandler(0, Record(7, false)));
    run := Next(STARTED, run, InHandler(0, Flag));
    run := Next(STARTED, run, InHandler(0, Notify));
    run := Next(STARTED, run, InWorld(Restart));
  }

  const FIRST := Crl(2, {}, NOW - BACKDATE + CRL_LIFE)
  const SECOND := Crl(3, {7}, NOW - BACKDATE + CRL_LIFE)

  const ABSENT := STARTED.(crl := None)

  // A write that outlives its timeout lands after a newer CRL and takes its place,
  // with a lower number and without the leaf.
  lemma LateWriteLosesRevocation()
    ensures Init(ABSENT) && exists run :: Valid(ABSENT, run) && InWorld(Restart) !in run && Lost(Exec(ABSENT, run), 7)
  {
    var run := RevokeMeanwhile();
    run := Next(ABSENT, run, InWorld(LateWrite(Late(1, FIRST))));
    assert Exec(ABSENT, run).crl == Some(FIRST);
    assert Lost(Exec(ABSENT, run), 7);
  }

  lemma SignLate() returns (run: seq<Step>)
    ensures Valid(ABSENT, run) && InWorld(Restart) !in run
    ensures Exec(ABSENT, run) ==
            ABSENT.(loop := Checking(false), db := ABSENT.db.(numbers := 2),
                     job := Some(Job(TheLoop, false, Numbered(1, NOW, {}, 2))))
  {
    run := Next(ABSENT, [], InLoop(Swap));
    run := Next(ABSENT, run, InLoop(Want));
    run := Next(ABSENT, run, InJob(LookMode));
    run := Next(ABSENT, run, InJob(LookClock));
    run := Next(ABSENT, run, InJob(Decide));
    run := Next(ABSENT, run, InJob(ReadRevoked));
    assert RevokedUnexpired(ABSENT, None, NOW) == {};
    run := Next(ABSENT, run, InJob(TakeNumber));
  }

  lemma GiveUpAndRecord() returns (run: seq<Step>)
    ensures Valid(ABSENT, run) && InWorld(Restart) !in run
    ensures Exec(ABSENT, run) ==
            Recorded().(handlers := map[0 := Signing(7)], job := Some(Job(TheHandler(0), true, Entered)))
  {
    run := SignLate();
    run := Next(ABSENT, run, InJob(TimeOut));
    run := Next(ABSENT, run, InLoop(Restore));
    run := Next(ABSENT, run, InHandler(0, Record(7, true)));
    run := Next(ABSENT, run, InHandler(0, Lock));
  }

  ghost function Recorded(): State {
    ABSENT.(db := ABSENT.db.(numbers := 2, revoked := {7}), late := {Late(1, FIRST)}, failingSince := Some(NOW),
             loop := Waiting(RETRY_AFTER, NOW + RETRY_AFTER), base := NOW + RETRY_AFTER)
  }

  lemma RevokeMeanwhile() returns (run: seq<Step>)
    ensures Valid(ABSENT, run) && InWorld(Restart) !in run
    ensures Exec(ABSENT, run) ==
            Recorded().(handlers := map[0 := Returned], returned := {7}, db := Recorded().db.(numbers := 3),
                        crl := Some(SECOND))
  {
    run := NumberMeanwhile();
    run := Next(ABSENT, run, InJob(WriteCrl));
  }

  lemma NumberMeanwhile() returns (run: seq<Step>)
    ensures Valid(ABSENT, run) && InWorld(Restart) !in run
    ensures Exec(ABSENT, run) ==
            Recorded().(handlers := map[0 := Signing(7)], db := Recorded().db.(numbers := 3),
                        job := Some(Job(TheHandler(0), true, Halfway(1, NOW, {7}, 3))))
  {
    run := ListMeanwhile();
    run := Next(ABSENT, run, InJob(TakeNumber));
    run := Next(ABSENT, run, InJob(WriteCa));
  }

  lemma ListMeanwhile() returns (run: seq<Step>)
    ensures Valid(ABSENT, run) && InWorld(Restart) !in run
    ensures Exec(ABSENT, run) ==
            Recorded().(handlers := map[0 := Signing(7)],
                        job := Some(Job(TheHandler(0), true, Listed(1, NOW, {7}))))
  {
    run := GiveUpAndRecord();
    run := Next(ABSENT, run, InJob(LookMode));
    run := Next(ABSENT, run, InJob(LookClock));
    run := Next(ABSENT, run, InJob(Decide));
    run := Next(ABSENT, run, InJob(ReadRevoked));
    assert RevokedUnexpired(Recorded(), None, NOW) == {7};
  }
}
