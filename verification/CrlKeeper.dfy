// The CRL keeper of `pki.rs` with every revoker racing it: the loop, the stale
// flag, the one-permit notifier, the signing mutex, and the files it replaces.
// One step is one atomic operation of one task; any interleaving is a run.
module CrlKeeper {
  import opened Wrappers
  import Issuance

  // In nanoseconds: four days, three days, an hour, a minute, and the leaves' backdating.
  const CRL_LIFE := 345_600_000_000_000
  const RESIGN_WITHIN := 259_200_000_000_000
  const CHECK_EVERY := 3_600_000_000_000
  const RETRY_AFTER := 60_000_000_000
  const BACKDATE := Issuance.BACKDATE * 1_000_000_000

  // `issuers` are the serials of every subordinate the enrolment has held,
  // `None` for an enrolment from before they were kept.
  datatype Mode = Enrolling | Enrolled(subordinate: nat, issuers: Option<set<nat>>) | Revoked

  datatype Leaf = Leaf(issuer: nat, notAfter: int)

  datatype Other = Other(leaf: Leaf, revoked: bool)

  datatype Crl = Crl(number: nat, listed: set<nat>, nextUpdate: int)

  // Both files as a signing that was given up on will still write them.
  datatype Late = Late(subordinate: nat, crl: Crl)

  // A handler that recorded a revocation, or (`None`) one that only asks for a resign.
  datatype Handler =
    | Asking(serial: nat)
    | Signing(serial: nat)
    | Flagging(about: Option<nat>)
    | Notifying(about: Option<nat>)
    | Returned

  datatype Loop =
    | Swapping
    | Wanting(force: bool)
    | Checking(force: bool)
    | Failed(force: bool)
    | Waiting(wait: int, until: int)

  // How far `refresh_crl` is, under the signing mutex.
  datatype Stage =
    | Entered
    | Moded(subordinate: nat, issuers: Option<set<nat>>)
    | Clocked(subordinate: nat, issuers: Option<set<nat>>, at: int)
    | ToSign(subordinate: nat, issuers: Option<set<nat>>, at: int)
    | Listed(subordinate: nat, at: int, list: set<nat>)
    | Numbered(subordinate: nat, at: int, list: set<nat>, number: nat)
    | Halfway(subordinate: nat, at: int, list: set<nat>, number: nat) // CA_FILE written

  datatype Who = TheLoop | TheHandler(h: nat)

  datatype Job = Job(who: Who, force: bool, stage: Stage)

  // Every leaf of this enrolment and which are revoked, every leaf of earlier
  // enrolments, and the last CRL number taken.
  datatype Db = Db(leaves: map<nat, Leaf>, revoked: set<nat>, others: map<nat, Other>, numbers: nat)

  datatype State = State(
    now: int,
    mode: Mode,
    db: Db,                    // acme.db
    caFile: Option<nat>,
    crl: Option<Crl>,
    stale: bool,
    permit: bool,
    loop: Loop,
    base: int,                 // since when the loop has had a check to do, or will
    job: Option<Job>,          // who holds the signing mutex
    handlers: map<nat, Handler>,
    returned: set<nat>,        // leaves whose recording handler has returned
    late: set<Late>,           // writes that outlived the state lock's timeout
    checked: bool,             // the loop has once found or made a CRL of the enrolment
    failingSince: Option<int>) // when the loop's current streak of failures began

  datatype World =
    | Tick(nanos: nat)
    | Issue(serial: nat, leaf: Leaf)
    | Enrol(subordinate: nat)
    | Renew(subordinate: nat)
    | RevokeBroker
    | RevokeOther(serial: nat)
    | Poke // `set_live`
    | LateWrite(late: Late)
    | Restart

  datatype Act = Record(serial: nat, operator: bool) | Resign | Flag | Notify | Lock

  datatype Turn = Swap | Want | Restore | Wake(byPermit: bool)

  datatype Work = LookMode | LookClock | Decide | ReadRevoked | TakeNumber | WriteCa | WriteCrl | Fail | TimeOut

  // A step of the world, of a handler, of the loop, or of whoever holds the mutex.
  datatype Step = InWorld(world: World) | InHandler(h: nat, act: Act) | InLoop(turn: Turn) | InJob(work: Work)

  predicate OursBy(issuers: Option<set<nat>>, issuer: nat) {
    issuers.None? || issuer in issuers.value
  }

  // How long the CRL on disk has left at `at`, if the files are this subordinate's.
  function FreshFor(s: State, subordinate: nat, at: int): Option<int> {
    if s.caFile == Some(subordinate) && s.crl.Some? && s.crl.value.nextUpdate >= at
    then Some(s.crl.value.nextUpdate - at) else None
  }

  // `revoked_unexpired`, filtered by the enrolment's issuers.
  function RevokedUnexpired(s: State, issuers: Option<set<nat>>, at: int): set<nat> {
    (set serial | serial in s.db.revoked && serial in s.db.leaves
                  && s.db.leaves[serial].notAfter > at && OursBy(issuers, s.db.leaves[serial].issuer))
    + (set serial | serial in s.db.others && s.db.others[serial].revoked
                    && s.db.others[serial].leaf.notAfter > at && OursBy(issuers, s.db.others[serial].leaf.issuer))
  }

  // `notify_one`: a waiting loop now has something to do.
  function Notified(s: State): State {
    s.(permit := true, base := if s.loop.Waiting? then Min(s.base, s.now) else s.base)
  }

  function Handled(s: State, h: nat, handler: Handler): State {
    s.(handlers := s.handlers[h := handler])
  }

  function Return(s: State, h: nat, about: Option<nat>): State {
    Handled(s, h, Returned).(returned := if about.Some? then s.returned + {about.value} else s.returned)
  }

  function StartWaiting(s: State, wait: int): State {
    s.(loop := Waiting(wait, s.now + wait), base := if s.permit then s.now else s.now + wait)
  }

  // `refresh_crl` answers `Ok(wait)`; `looked` unless the broker was not enrolled.
  function Succeed(s: State, wait: int, looked: bool): (r: State)
    requires s.job.Some?
    requires s.job.value.who.TheHandler? ==>
               s.job.value.who.h in s.handlers && s.handlers[s.job.value.who.h].Signing?
    ensures r.now == s.now && r.mode == s.mode && r.db.leaves == s.db.leaves && r.db.revoked == s.db.revoked
    ensures r.crl == s.crl && r.stale == s.stale && r.permit == s.permit
    ensures r.returned == s.returned + if s.job.value.who.TheLoop? then {} else {s.handlers[s.job.value.who.h].serial}
    ensures s.job.value.who.TheHandler? ==> r.loop == s.loop && r.base == s.base
    ensures forall h :: h in s.handlers && !s.handlers[h].Signing? ==> h in r.handlers && r.handlers[h] == s.handlers[h]
  {
    var done := s.(job := None);
    match s.job.value.who
    case TheLoop => StartWaiting(done.(checked := s.checked || looked, failingSince := None), wait)
    case TheHandler(h) => Return(done, h, Some(s.handlers[h].serial))
  }

  function GiveUp(s: State): (r: State)
    requires s.job.Some?
    requires s.job.value.who.TheHandler? ==>
               s.job.value.who.h in s.handlers && s.handlers[s.job.value.who.h].Signing?
    ensures r.now == s.now && r.mode == s.mode && r.db.leaves == s.db.leaves && r.db.revoked == s.db.revoked
    ensures r.crl == s.crl && r.stale == s.stale && r.permit == s.permit
    ensures s.job.value.who.TheHandler? ==> r.loop == s.loop && r.base == s.base
    ensures forall h :: h in s.handlers && !s.handlers[h].Signing? ==> h in r.handlers && r.handlers[h] == s.handlers[h]
  {
    var done := s.(job := None);
    match s.job.value.who
    case TheLoop =>
      done.(loop := Failed(s.job.value.force),
            failingSince := if s.failingSince.Some? then s.failingSince else Some(s.now))
    case TheHandler(h) => Handled(done, h, Flagging(Some(s.handlers[h].serial)))
  }

  function AtStage(s: State, stage: Stage): State
    requires s.job.Some?
  {
    s.(job := Some(s.job.value.(stage := stage)))
  }

  function Signed(stage: Stage): Crl
    requires stage.Numbered? || stage.Halfway?
  {
    Crl(stage.number, stage.list, stage.at - BACKDATE + CRL_LIFE)
  }

  predicate JobAt(s: State) {
    s.job.Some? && (s.job.value.who.TheHandler? ==>
                      s.job.value.who.h in s.handlers && s.handlers[s.job.value.who.h].Signing?)
  }

  // A subordinate's serial is none that an earlier enrolment's leaves were issued under.
  predicate IsNew(s: State, subordinate: nat) {
    forall serial :: serial in s.db.others ==> s.db.others[serial].leaf.issuer != subordinate
  }

  predicate CanWorld(s: State, world: World) {
    match world
    case Tick(_) => true
    case Issue(serial, leaf) =>
      serial !in s.db.leaves && serial !in s.db.others && s.mode.Enrolled? && OursBy(s.mode.issuers, leaf.issuer)
    case Enrol(subordinate) => s.mode.Enrolling? && IsNew(s, subordinate)
    case Renew(subordinate) => s.mode.Enrolled? && IsNew(s, subordinate)
    case RevokeBroker => s.mode.Enrolled?
    case RevokeOther(serial) => serial in s.db.others
    case Poke => true
    case LateWrite(late) => late in s.late
    case Restart => true
  }

  function DoWorld(s: State, world: World): State
    requires CanWorld(s, world)
  {
    match world
    case Tick(nanos) => s.(now := s.now + nanos)
    case Issue(serial, leaf) => s.(db := s.db.(leaves := s.db.leaves[serial := leaf]))
    case Enrol(subordinate) => s.(mode := Enrolled(subordinate, Some({subordinate})))
    case Renew(subordinate) =>
      var issuers := if s.mode.issuers.Some? then Some(s.mode.issuers.value + {subordinate}) else None;
      s.(mode := Enrolled(subordinate, issuers))
    case RevokeBroker => s.(mode := Revoked)
    case RevokeOther(serial) => s.(db := s.db.(others := s.db.others[serial := s.db.others[serial].(revoked := true)]))
    case Poke => Notified(s)
    case LateWrite(late) => s.(caFile := Some(late.subordinate), crl := Some(late.crl), late := s.late - {late})
    case Restart =>
      s.(stale := false, permit := false, loop := Swapping, base := s.now, job := None, handlers := map[],
         late := {}, checked := false, failingSince := None)
  }

  predicate CanHandler(s: State, h: nat, act: Act) {
    match act
    case Record(serial, _) => h !in s.handlers && serial in s.db.leaves && serial !in s.db.revoked
    case Resign => h !in s.handlers
    case Flag => h in s.handlers && s.handlers[h].Flagging?
    case Notify => h in s.handlers && s.handlers[h].Notifying?
    case Lock => h in s.handlers && s.handlers[h].Asking? && s.job.None?
  }

  function DoHandler(s: State, h: nat, act: Act): State
    requires CanHandler(s, h, act)
  {
    match act
    case Record(serial, operator) =>
      Handled(s, h, if operator then Asking(serial) else Flagging(Some(serial)))
        .(db := s.db.(revoked := s.db.revoked + {serial}))
    case Resign => Handled(s, h, Flagging(None))
    case Flag => Handled(s, h, Notifying(s.handlers[h].about)).(stale := true)
    case Notify => Return(Notified(s), h, s.handlers[h].about)
    case Lock => Handled(s, h, Signing(s.handlers[h].serial)).(job := Some(Job(TheHandler(h), true, Entered)))
  }

  predicate CanLoop(s: State, turn: Turn) {
    match turn
    case Swap => s.loop.Swapping?
    case Want => s.loop.Wanting? && s.job.None?
    case Restore => s.loop.Failed?
    case Wake(byPermit) => s.loop.Waiting? && (if byPermit then s.permit else s.now >= s.loop.until)
  }

  function DoLoop(s: State, turn: Turn): State
    requires CanLoop(s, turn)
  {
    match turn
    case Swap => s.(stale := false, loop := Wanting(s.stale))
    case Want => s.(loop := Checking(s.loop.force), job := Some(Job(TheLoop, s.loop.force, Entered)))
    case Restore => StartWaiting(s.(stale := s.stale || s.loop.force), RETRY_AFTER)
    case Wake(byPermit) => s.(loop := Swapping, permit := s.permit && !byPermit, base := Min(s.base, s.now))
  }

  predicate CanJob(s: State, work: Work) {
    JobAt(s) &&
    var stage := s.job.value.stage;
    match work
    case LookMode => stage.Entered?
    case LookClock => stage.Moded?
    case Decide => stage.Clocked?
    case ReadRevoked => stage.ToSign?
    case TakeNumber => stage.Listed?
    case WriteCa => stage.Numbered?
    case WriteCrl => stage.Halfway?
    case Fail => !stage.Entered?
    case TimeOut => stage.Numbered? || stage.Halfway?
  }

  // How long until the files want another look, if they need no signing now.
  function NoNeed(s: State, force: bool, subordinate: nat, at: int): Option<int> {
    var left := FreshFor(s, subordinate, at);
    if left.Some? && !force && left.value > RESIGN_WITHIN
    then Some(Min(left.value - RESIGN_WITHIN, CHECK_EVERY)) else None
  }

  function DoJob(s: State, work: Work): State
    requires CanJob(s, work)
  {
    var stage := s.job.value.stage;
    match work
    case LookMode =>
      if s.mode.Enrolled? then AtStage(s, Moded(s.mode.subordinate, s.mode.issuers))
      else Succeed(s, CHECK_EVERY, false)
    case LookClock => AtStage(s, Clocked(stage.subordinate, stage.issuers, s.now))
    case Decide =>
      var wait := NoNeed(s, s.job.value.force, stage.subordinate, stage.at);
      if wait.Some? then Succeed(s, wait.value, true)
      else AtStage(s, ToSign(stage.subordinate, stage.issuers, stage.at))
    case ReadRevoked =>
      AtStage(s, Listed(stage.subordinate, stage.at, RevokedUnexpired(s, stage.issuers, stage.at)))
    case TakeNumber =>
      AtStage(s.(db := s.db.(numbers := s.db.numbers + 1)),
              Numbered(stage.subordinate, stage.at, stage.list, s.db.numbers + 1))
    case WriteCa =>
      AtStage(s, Halfway(stage.subordinate, stage.at, stage.list, stage.number)).(caFile := Some(stage.subordinate))
    case WriteCrl => Succeed(s.(crl := Some(Signed(stage))), CHECK_EVERY, true)
    case Fail => GiveUp(s)
    case TimeOut => GiveUp(s.(late := s.late + {Late(stage.subordinate, Signed(stage))}))
  }

  predicate Enabled(s: State, t: Step) {
    match t
    case InWorld(world) => CanWorld(s, world)
    case InHandler(h, act) => CanHandler(s, h, act)
    case InLoop(turn) => CanLoop(s, turn)
    case InJob(work) => CanJob(s, work)
  }

  function Apply(s: State, t: Step): State
    requires Enabled(s, t)
  {
    match t
    case InWorld(world) => DoWorld(s, world)
    case InHandler(h, act) => DoHandler(s, h, act)
    case InLoop(turn) => DoLoop(s, turn)
    case InJob(work) => DoJob(s, work)
  }

  // What is on disk and in the database belongs together.
  predicate DiskFormed(s: State) {
    && s.db.revoked <= s.db.leaves.Keys
    && (s.mode.Enrolling? ==> s.db.leaves == map[])
    && (s.mode.Enrolled? ==>
          forall serial :: serial in s.db.leaves ==> OursBy(s.mode.issuers, s.db.leaves[serial].issuer))
    && s.db.others.Keys !! s.db.leaves.Keys
    && (s.mode.Enrolled? ==> NoOthers(s, s.mode.issuers))
    && (s.crl.Some? ==> CrlFormed(s, s.crl.value))
  }

  // None of the earlier enrolments' leaves is of `issuers`.
  predicate NoOthers(s: State, issuers: Option<set<nat>>) {
    forall serial :: serial in s.db.others ==> !OursBy(issuers, s.db.others[serial].leaf.issuer)
  }

  // The clock a CRL was signed by.
  function SignedAt(crl: Crl): int {
    crl.nextUpdate - CRL_LIFE + BACKDATE
  }

  // Every leaf listed is revoked, this enrolment's, and had not expired at `at`.
  predicate ListsRightly(s: State, list: set<nat>, at: int) {
    && list <= s.db.revoked
    && forall serial :: serial in list ==> serial in s.db.leaves && s.db.leaves[serial].notAfter > at
  }

  predicate CrlFormed(s: State, crl: Crl) {
    ListsRightly(s, crl.listed, SignedAt(crl)) && crl.number <= s.db.numbers && SignedAt(crl) <= s.now
  }

  // A daemon that has just started, over whatever an earlier one left.
  predicate Init(s: State) {
    && DiskFormed(s)
    && !s.stale && !s.permit && s.loop.Swapping? && s.base == s.now && s.job.None?
    && s.handlers == map[] && s.returned == {} && s.late == {} && !s.checked && s.failingSince.None?
  }

  predicate Valid(s: State, run: seq<Step>)
    decreases |run|
  {
    run == [] || (Enabled(s, run[0]) && Valid(Apply(s, run[0]), run[1..]))
  }

  function Exec(s: State, run: seq<Step>): State
    requires Valid(s, run)
    decreases |run|
  {
    if run == [] then s else Exec(Apply(s, run[0]), run[1..])
  }

  // --- What every step keeps ---

  ghost predicate Expired(s: State, serial: nat) {
    serial in s.db.leaves && s.db.leaves[serial].notAfter <= s.now
  }

  ghost predicate OnDisk(s: State, serial: nat) {
    s.crl.Some? && serial in s.crl.value.listed
  }

  ghost predicate HasIssuers(stage: Stage) {
    stage.Moded? || stage.Clocked? || stage.ToSign?
  }

  ghost predicate HasAt(stage: Stage) {
    !stage.Entered? && !stage.Moded?
  }

  ghost predicate HasList(stage: Stage) {
    stage.Listed? || stage.Numbered? || stage.Halfway?
  }

  ghost predicate HasNumber(stage: Stage) {
    stage.Numbered? || stage.Halfway?
  }

  ghost function About(handler: Handler): Option<nat> {
    match handler
    case Asking(serial) => Some(serial)
    case Signing(serial) => Some(serial)
    case Flagging(about) => about
    case Notifying(about) => about
    case Returned => None
  }

  // A job in progress will list `serial` unless it has expired by then.
  ghost predicate WillList(s: State, stage: Stage, serial: nat) {
    && (HasIssuers(stage) ==> serial in s.db.leaves && OursBy(stage.issuers, s.db.leaves[serial].issuer))
    && (HasList(stage) ==> serial in stage.list || Expired(s, serial))
  }

  // Whoever signs holds the mutex.
  ghost predicate Holders(s: State) {
    && (s.loop.Checking? <==> s.job.Some? && s.job.value.who.TheLoop?)
    && (s.loop.Checking? ==> s.job.value.force == s.loop.force)
    && (forall h :: h in s.handlers && s.handlers[h].Signing? <==> s.job.Some? && s.job.value.who == TheHandler(h))
  }

  ghost predicate StageFormed(s: State, job: Job, stage: Stage) {
    && (job.who.TheHandler? ==> job.force && job.who.h in s.handlers && s.handlers[job.who.h].Signing?
                                && WillList(s, stage, s.handlers[job.who.h].serial))
    && (HasAt(stage) ==> stage.at <= s.now)
    && (HasIssuers(stage) ==> NoOthers(s, stage.issuers))
    && (HasList(stage) ==> ListsRightly(s, stage.list, stage.at))
    && (HasNumber(stage) ==> stage.number <= s.db.numbers)
    && (s.crl.Some? ==> Precedes(s, s.crl.value, stage))
    && (forall late :: late in s.late ==> Precedes(s, late.crl, stage))
  }

  // What the job signs may replace `crl`.
  ghost predicate Precedes(s: State, crl: Crl, stage: Stage) {
    && (HasNumber(stage) ==> stage.number > crl.number)
    && (HasAt(stage) ==> crl.nextUpdate <= stage.at - BACKDATE + CRL_LIFE)
    && forall serial :: serial in crl.listed ==> WillList(s, stage, serial)
  }

  // Of two CRLs the one with the higher number may replace the other.
  ghost predicate Ranked(s: State, a: Crl, b: Crl) {
    && a.number != b.number
    && (a.number < b.number ==> Supersedes(s, a, b))
    && (b.number < a.number ==> Supersedes(s, b, a))
  }

  ghost predicate Supersedes(s: State, earlier: Crl, later: Crl) {
    && earlier.nextUpdate <= later.nextUpdate
    && forall serial :: serial in earlier.listed ==> serial in later.listed || Expired(s, serial)
  }

  ghost predicate LateFormed(s: State) {
    && (forall late :: late in s.late ==>
          CrlFormed(s, late.crl) && (s.crl.Some? ==> Ranked(s, late.crl, s.crl.value)))
    && (forall a, b :: a in s.late && b in s.late && a != b ==> Ranked(s, a.crl, b.crl))
  }

  ghost predicate JobFormed(s: State) {
    Holders(s) && (s.job.Some? ==> StageFormed(s, s.job.value, s.job.value.stage))
  }

  // All but the job.
  ghost predicate RestFormed(s: State) {
    && DiskFormed(s)
    && s.returned <= s.db.revoked
    && LateFormed(s)
    && (forall h :: h in s.handlers && About(s.handlers[h]).Some? ==> About(s.handlers[h]).value in s.db.revoked)
  }

  ghost predicate Formed(s: State) {
    RestFormed(s) && JobFormed(s)
  }

  // The loop carries `force`, and what it is doing with it will list `serial`.
  ghost predicate Carried(s: State, serial: nat) {
    match s.loop
    case Wanting(force) => force
    case Failed(force) => force
    case Checking(force) => force && s.job.Some? && WillList(s, s.job.value.stage, serial)
    case _ => false
  }

  ghost predicate Covered(s: State, serial: nat) {
    OnDisk(s, serial) || s.stale || Carried(s, serial) || Expired(s, serial)
  }

  // A leaf whose revocation has been flagged: its handler has returned or is about to notify.
  ghost predicate Flagged(s: State, serial: nat) {
    serial in s.returned || exists h :: h in s.handlers && s.handlers[h] == Notifying(Some(serial))
  }

  ghost predicate NothingLost(s: State) {
    s.mode.Enrolled? ==> forall serial :: Flagged(s, serial) ==> Covered(s, serial)
  }

  // A loop that has not yet seen the flag will be woken for it, or wakes soon.
  ghost predicate NoMissedWake(s: State) {
    s.stale && !s.loop.Swapping? ==>
      || s.permit
      || (s.loop.Waiting? && s.loop.wait <= RETRY_AFTER)
      || exists h :: h in s.handlers && s.handlers[h].Notifying?
  }

  ghost predicate Inv(s: State) {
    Formed(s) && NothingLost(s) && NoMissedWake(s)
  }

  // No write comes after that of a later number, and a restart finds every revocation
  // that was answered for on disk.
  ghost predicate Orderly(s: State, t: Step) {
    && (t.InWorld? && t.world.LateWrite? ==> s.crl.None? || t.world.late.crl.number > s.crl.value.number)
    && (t == InWorld(Restart) && s.mode.Enrolled? ==>
          forall serial :: serial in s.returned ==> OnDisk(s, serial) || Expired(s, serial))
  }

  lemma TickForms(s: State, nanos: nat)
    requires Formed(s)
    ensures Formed(DoWorld(s, Tick(nanos)))
  {
  }

  lemma IssueForms(s: State, serial: nat, leaf: Leaf)
    requires Formed(s) && CanWorld(s, Issue(serial, leaf))
    ensures Formed(DoWorld(s, Issue(serial, leaf)))
  {
    IssueRests(s, serial, leaf);
    assert Holders(DoWorld(s, Issue(serial, leaf)));
  }

  lemma IssueRests(s: State, serial: nat, leaf: Leaf)
    requires Formed(s) && CanWorld(s, Issue(serial, leaf))
    ensures RestFormed(DoWorld(s, Issue(serial, leaf)))
  {
  }

  lemma EnrolForms(s: State, subordinate: nat)
    requires Formed(s) && CanWorld(s, Enrol(subordinate))
    ensures Formed(DoWorld(s, Enrol(subordinate)))
  {
  }

  lemma RenewForms(s: State, subordinate: nat)
    requires Formed(s) && CanWorld(s, Renew(subordinate))
    ensures Formed(DoWorld(s, Renew(subordinate)))
  {
  }

  lemma RevokeForms(s: State)
    requires Formed(s) && CanWorld(s, RevokeBroker)
    ensures Formed(DoWorld(s, RevokeBroker))
  {
  }

  lemma RevokeOtherForms(s: State, serial: nat)
    requires Formed(s) && CanWorld(s, RevokeOther(serial))
    ensures Formed(DoWorld(s, RevokeOther(serial)))
  {
    RevokeOtherRests(s, serial);
    assert Holders(DoWorld(s, RevokeOther(serial)));
  }

  lemma RevokeOtherRests(s: State, serial: nat)
    requires Formed(s) && CanWorld(s, RevokeOther(serial))
    ensures RestFormed(DoWorld(s, RevokeOther(serial)))
  {
  }

  lemma PokeForms(s: State)
    requires Formed(s)
    ensures Formed(DoWorld(s, Poke))
  {
  }

  // Even a write that goes back leaves what is on disk and what is under way in form.
  lemma LateWriteForms(s: State, late: Late)
    requires Formed(s) && late in s.late
    ensures Formed(DoWorld(s, LateWrite(late)))
  {
  }

  lemma RestartForms(s: State)
    requires Formed(s)
    ensures Formed(DoWorld(s, Restart))
  {
  }

  lemma RecordForms(s: State, h: nat, serial: nat, operator: bool)
    requires Formed(s) && CanHandler(s, h, Record(serial, operator))
    ensures Formed(DoHandler(s, h, Record(serial, operator)))
  {
    var s' := DoHandler(s, h, Record(serial, operator));
    RecordRests(s, h, serial, operator);
    assert forall k :: k in s.handlers ==> k in s'.handlers && s'.handlers[k] == s.handlers[k];
  }

  lemma RecordRests(s: State, h: nat, serial: nat, operator: bool)
    requires Formed(s) && CanHandler(s, h, Record(serial, operator))
    ensures RestFormed(DoHandler(s, h, Record(serial, operator)))
  {
  }

  lemma ResignForms(s: State, h: nat)
    requires Formed(s) && CanHandler(s, h, Resign)
    ensures Formed(DoHandler(s, h, Resign))
  {
    HandledForms(s, h, Flagging(None));
  }

  lemma HandlerForms(s: State, h: nat, act: Act)
    requires Formed(s) && CanHandler(s, h, act) && (act.Flag? || act.Notify?)
    ensures Formed(DoHandler(s, h, act))
  {
    if act.Flag? {
      FlagForms(s, h);
    } else {
      NotifyForms(s, h);
    }
  }

  lemma FlagForms(s: State, h: nat)
    requires Formed(s) && CanHandler(s, h, Flag)
    ensures Formed(DoHandler(s, h, Flag))
  {
    var handled := Handled(s, h, Notifying(s.handlers[h].about));
    assert About(s.handlers[h]) == s.handlers[h].about;
    HandledForms(s, h, Notifying(s.handlers[h].about));
    WakersForm(handled, handled.(stale := true));
    assert DoHandler(s, h, Flag) == handled.(stale := true);
  }

  // The flag, the permit and the loop's base are no part of the form.
  lemma WakersForm(s: State, s': State)
    requires Formed(s) && s' == s.(stale := s'.stale, permit := s'.permit, base := s'.base)
    ensures Formed(s')
  {
    RestFrame(s, s');
  }

  // A handler that is not signing may be set to any other, about a revoked leaf.
  lemma HandledForms(s: State, h: nat, handler: Handler)
    requires Formed(s) && (h in s.handlers ==> !s.handlers[h].Signing?) && !handler.Signing?
    requires About(handler).Some? ==> About(handler).value in s.db.revoked
    ensures Formed(Handled(s, h, handler))
  {
    var s' := Handled(s, h, handler);
    assert forall k :: k in s.handlers && k != h ==> s'.handlers[k] == s.handlers[k];
    RestFrame(s, s');
    assert Holders(s');
  }

  lemma NotifyForms(s: State, h: nat)
    requires Formed(s) && CanHandler(s, h, Notify)
    ensures Formed(DoHandler(s, h, Notify))
  {
    var about := s.handlers[h].about;
    assert About(s.handlers[h]) == about;
    WakersForm(s, Notified(s));
    HandledForms(Notified(s), h, Returned);
    ReturnedForms(Handled(Notified(s), h, Returned), about);
  }

  lemma ReturnedForms(s: State, about: Option<nat>)
    requires Formed(s) && (about.Some? ==> about.value in s.db.revoked)
    ensures Formed(s.(returned := if about.Some? then s.returned + {about.value} else s.returned))
  {
    RestFrame(s, s.(returned := if about.Some? then s.returned + {about.value} else s.returned));
  }

  lemma LockForms(s: State, h: nat)
    requires Formed(s) && CanHandler(s, h, Lock)
    ensures Formed(DoHandler(s, h, Lock))
  {
  }

  lemma SwapForms(s: State)
    requires Formed(s) && CanLoop(s, Swap)
    ensures Formed(DoLoop(s, Swap))
  {
  }

  lemma WantForms(s: State)
    requires Formed(s) && CanLoop(s, Want)
    ensures Formed(DoLoop(s, Want))
  {
  }

  lemma RestoreForms(s: State)
    requires Formed(s) && CanLoop(s, Restore)
    ensures Formed(DoLoop(s, Restore))
  {
  }

  lemma WakeForms(s: State, byPermit: bool)
    requires Formed(s) && CanLoop(s, Wake(byPermit))
    ensures Formed(DoLoop(s, Wake(byPermit)))
  {
  }

  lemma LoopForms(s: State, turn: Turn)
    requires Formed(s) && CanLoop(s, turn)
    ensures Formed(DoLoop(s, turn))
  {
    match turn
    case Swap => SwapForms(s);
    case Want => WantForms(s);
    case Restore => RestoreForms(s);
    case Wake(byPermit) => WakeForms(s, byPermit);
  }

  lemma SucceedForms(s: State, wait: int, looked: bool)
    requires RestFormed(s) && Holders(s) && JobAt(s)
    ensures Formed(Succeed(s, wait, looked))
  {
    SucceedRests(s, wait, looked);
    SucceedFrees(s, wait, looked);
  }

  // What lies outside the job and the loop changes only in its handlers and returned leaves.
  lemma RestFrame(s: State, s': State)
    requires RestFormed(s)
    requires s'.now == s.now && s'.mode == s.mode && s'.db.leaves == s.db.leaves && s'.db.revoked == s.db.revoked
    requires s'.db.numbers == s.db.numbers && s'.crl == s.crl && s'.late == s.late && s'.returned <= s'.db.revoked
    requires s'.db.others == s.db.others
    requires forall h :: h in s'.handlers && About(s'.handlers[h]).Some? ==>
                           About(s'.handlers[h]).value in s'.db.revoked
    ensures RestFormed(s')
  {
  }

  lemma SucceedRests(s: State, wait: int, looked: bool)
    requires RestFormed(s) && Holders(s) && JobAt(s)
    ensures RestFormed(Succeed(s, wait, looked))
  {
    if s.job.value.who.TheHandler? {
      assert About(s.handlers[s.job.value.who.h]) == Some(s.handlers[s.job.value.who.h].serial);
    }
    RestFrame(s, Succeed(s, wait, looked));
  }

  lemma SucceedFrees(s: State, wait: int, looked: bool)
    requires Holders(s) && JobAt(s)
    ensures Holders(Succeed(s, wait, looked)) && Succeed(s, wait, looked).job.None?
  {
  }

  lemma GiveUpForms(s: State)
    requires RestFormed(s) && Holders(s) && JobAt(s)
    ensures Formed(GiveUp(s))
  {
    GiveUpRests(s);
    GiveUpFrees(s);
  }

  lemma GiveUpRests(s: State)
    requires RestFormed(s) && Holders(s) && JobAt(s)
    ensures RestFormed(GiveUp(s))
  {
    if s.job.value.who.TheHandler? {
      assert About(s.handlers[s.job.value.who.h]) == Some(s.handlers[s.job.value.who.h].serial);
    }
    RestFrame(s, GiveUp(s));
  }

  lemma GiveUpFrees(s: State)
    requires Holders(s) && JobAt(s)
    ensures Holders(GiveUp(s)) && GiveUp(s).job.None?
  {
  }

  lemma StageForms(s: State, stage: Stage)
    requires RestFormed(s) && Holders(s) && s.job.Some? && StageFormed(s, s.job.value, stage)
    ensures Formed(AtStage(s, stage))
  {
  }

  lemma ModeForms(s: State)
    requires Formed(s) && CanJob(s, LookMode)
    ensures Formed(DoJob(s, LookMode))
  {
    if s.mode.Enrolled? {
      if s.job.value.who.TheHandler? {
        assert About(s.handlers[s.job.value.who.h]) == Some(s.handlers[s.job.value.who.h].serial);
      }
      StageForms(s, Moded(s.mode.subordinate, s.mode.issuers));
    } else {
      SucceedForms(s, CHECK_EVERY, false);
    }
  }

  lemma ClockForms(s: State)
    requires Formed(s) && CanJob(s, LookClock)
    ensures Formed(DoJob(s, LookClock))
  {
    var stage := s.job.value.stage;
    StageForms(s, Clocked(stage.subordinate, stage.issuers, s.now));
  }

  lemma DecideForms(s: State)
    requires Formed(s) && CanJob(s, Decide)
    ensures Formed(DoJob(s, Decide))
  {
    var stage := s.job.value.stage;
    var wait := NoNeed(s, s.job.value.force, stage.subordinate, stage.at);
    if wait.Some? {
      SucceedForms(s, wait.value, true);
    } else {
      StageForms(s, ToSign(stage.subordinate, stage.issuers, stage.at));
    }
  }

  lemma ListForms(s: State)
    requires Formed(s) && CanJob(s, ReadRevoked)
    ensures Formed(DoJob(s, ReadRevoked))
  {
    var stage := s.job.value.stage;
    if s.job.value.who.TheHandler? {
      assert About(s.handlers[s.job.value.who.h]) == Some(s.handlers[s.job.value.who.h].serial);
    }
    ReadListsExactly(s, stage.issuers, stage.at);
    StageForms(s, Listed(stage.subordinate, stage.at, RevokedUnexpired(s, stage.issuers, stage.at)));
  }

  // Of the leaves of an enrolment's issuers the database answers exactly the revoked ones
  // unexpired at `at`, and none of another enrolment's.
  lemma ReadListsExactly(s: State, issuers: Option<set<nat>>, at: int)
    requires RestFormed(s) && NoOthers(s, issuers)
    ensures ListsRightly(s, RevokedUnexpired(s, issuers, at), at)
    ensures forall serial :: serial in s.db.revoked && OursBy(issuers, s.db.leaves[serial].issuer) ==>
              (serial in RevokedUnexpired(s, issuers, at) <==> s.db.leaves[serial].notAfter > at)
  {
    forall serial | serial in RevokedUnexpired(s, issuers, at)
      ensures serial in s.db.revoked && serial in s.db.leaves && s.db.leaves[serial].notAfter > at
    {
      assert serial in s.db.others ==> !OursBy(issuers, s.db.others[serial].leaf.issuer);
    }
  }

  lemma NumberForms(s: State)
    requires Formed(s) && CanJob(s, TakeNumber)
    ensures Formed(DoJob(s, TakeNumber))
  {
  }

  lemma WriteCaForms(s: State)
    requires Formed(s) && CanJob(s, WriteCa)
    ensures Formed(DoJob(s, WriteCa))
  {
  }

  lemma WriteForms(s: State)
    requires Formed(s) && CanJob(s, WriteCrl)
    ensures Formed(DoJob(s, WriteCrl))
  {
    SignedRanks(s, s.job.value);
    SucceedForms(s.(crl := Some(Signed(s.job.value.stage))), CHECK_EVERY, true);
  }

  lemma FailForms(s: State)
    requires Formed(s) && CanJob(s, Fail)
    ensures Formed(DoJob(s, Fail))
  {
    GiveUpForms(s);
  }

  lemma TimeOutForms(s: State)
    requires Formed(s) && CanJob(s, TimeOut)
    ensures Formed(DoJob(s, TimeOut))
  {
    var stage := s.job.value.stage;
    SignedRanks(s, s.job.value);
    GiveUpForms(s.(late := s.late + {Late(stage.subordinate, Signed(stage))}));
  }

  // What a job is about to write ranks above everything written or yet to be written.
  lemma SignedRanks(s: State, job: Job)
    requires StageFormed(s, job, job.stage) && HasNumber(job.stage)
    ensures CrlFormed(s, Signed(job.stage))
    ensures s.crl.Some? ==> Ranked(s, Signed(job.stage), s.crl.value)
    ensures forall late :: late in s.late ==> Ranked(s, late.crl, Signed(job.stage))
  {
  }

  lemma StepForms(s: State, t: Step)
    requires Formed(s) && Enabled(s, t)
    ensures Formed(Apply(s, t))
  {
    match t
    case InWorld(world) =>
      match world {
        case LateWrite(late) => LateWriteForms(s, late);
        case Restart => RestartForms(s);
        case Tick(nanos) => TickForms(s, nanos);
        case Issue(serial, leaf) => IssueForms(s, serial, leaf);
        case Poke => PokeForms(s);
        case Enrol(subordinate) => EnrolForms(s, subordinate);
        case Renew(subordinate) => RenewForms(s, subordinate);
        case RevokeBroker => RevokeForms(s);
        case RevokeOther(serial) => RevokeOtherForms(s, serial);
      }
    case InHandler(h, act) =>
      if act.Record? {
        RecordForms(s, h, act.serial, act.operator);
      } else if act.Resign? {
        ResignForms(s, h);
      } else if act.Lock? {
        LockForms(s, h);
      } else {
        HandlerForms(s, h, act);
      }
    case InLoop(turn) => LoopForms(s, turn);
    case InJob(work) =>
      match work {
        case LookMode => ModeForms(s);
        case LookClock => ClockForms(s);
        case Decide => DecideForms(s);
        case WriteCrl => WriteForms(s);
        case Fail => FailForms(s);
        case TimeOut => TimeOutForms(s);
        case ReadRevoked => ListForms(s);
        case TakeNumber => NumberForms(s);
        case WriteCa => WriteCaForms(s);
      }
  }

  // --- A leaf on disk stays there until it expires ---

  lemma DiskStays(s: State, t: Step, serial: nat)
    requires Formed(s) && Enabled(s, t) && Orderly(s, t)
    requires OnDisk(s, serial)
    ensures OnDisk(Apply(s, t), serial) || Expired(Apply(s, t), serial)
  {
    match t
    case InWorld(world) => assert !world.LateWrite? ==> DoWorld(s, world).crl == s.crl;
    case InHandler(h, act) => assert DoHandler(s, h, act).crl == s.crl;
    case InLoop(turn) => assert DoLoop(s, turn).crl == s.crl;
    case InJob(work) => assert !work.WriteCrl? ==> DoJob(s, work).crl == s.crl;
  }

  // --- The flag becomes the loop's `force` ---

  lemma FlagStays(s: State, t: Step, serial: nat)
    requires Enabled(s, t) && t != InWorld(Restart)
    requires s.stale
    ensures Apply(s, t).stale || (t == InLoop(Swap) && Carried(Apply(s, t), serial))
  {
    match t
    case InWorld(world) => assert DoWorld(s, world).stale;
    case InHandler(h, act) => assert DoHandler(s, h, act).stale;
    case InLoop(turn) =>
    case InJob(work) => assert DoJob(s, work).stale;
  }

  // --- `force` ends as a list on disk, or as the flag again ---

  lemma JobCarries(s: State, work: Work, serial: nat)
    requires Formed(s) && CanJob(s, work)
    requires s.mode.Enrolled? && Carried(s, serial) && serial in s.db.revoked && s.loop.Checking?
    ensures
      var s' := DoJob(s, work);
      Carried(s', serial) || OnDisk(s', serial) || Expired(s', serial)
  {
    if work.Fail? || work.TimeOut? {
      assert DoJob(s, work).loop == Failed(true);
    } else if work.WriteCrl? {
      assert DoJob(s, work).crl == Some(Signed(s.job.value.stage));
    } else {
      StageCarries(s, work, serial);
    }
  }

  lemma StageCarries(s: State, work: Work, serial: nat)
    requires Formed(s) && CanJob(s, work) && !work.Fail? && !work.TimeOut? && !work.WriteCrl?
    requires s.mode.Enrolled? && Carried(s, serial) && serial in s.db.revoked && s.loop.Checking?
    ensures Carried(DoJob(s, work), serial) || Expired(DoJob(s, work), serial)
  {
    assert work.Decide? ==> NoNeed(s, true, s.job.value.stage.subordinate, s.job.value.stage.at).None?;
  }

  lemma CarriedStays(s: State, t: Step, serial: nat)
    requires Formed(s) && Enabled(s, t) && t != InWorld(Restart)
    requires s.mode.Enrolled? && Carried(s, serial) && serial in s.db.revoked
    ensures
      var s' := Apply(s, t);
      || Carried(s', serial) || OnDisk(s', serial) || Expired(s', serial)
      || (t == InLoop(Restore) && s'.stale && s'.loop.Waiting? && s'.loop.wait == RETRY_AFTER)
  {
    match t
    case InWorld(world) => WorldCarries(s, world, serial);
    case InHandler(h, act) => HandlerCarries(s, h, act, serial);
    case InLoop(turn) =>
    case InJob(work) =>
      if s.loop.Checking? {
        JobCarries(s, work, serial);
      } else {
        assert DoJob(s, work).loop == s.loop;
      }
  }

  lemma WorldCarries(s: State, world: World, serial: nat)
    requires Formed(s) && CanWorld(s, world) && !world.Restart? && Carried(s, serial) && serial in s.db.revoked
    ensures Carried(DoWorld(s, world), serial)
  {
    var s' := DoWorld(s, world);
    assert s'.loop == s.loop && s'.job == s.job;
  }

  lemma HandlerCarries(s: State, h: nat, act: Act, serial: nat)
    requires Formed(s) && CanHandler(s, h, act) && Carried(s, serial)
    ensures Carried(DoHandler(s, h, act), serial)
  {
    var s' := DoHandler(s, h, act);
    assert s'.loop == s.loop && s'.db.leaves == s.db.leaves;
  }

  // --- A leaf newly flagged has the flag set for it, or is on disk ---

  lemma WorldFlags(s: State, world: World, serial: nat)
    requires CanWorld(s, world)
    ensures Flagged(DoWorld(s, world), serial) ==> Flagged(s, serial)
  {
    var s' := DoWorld(s, world);
    assert s'.returned == s.returned && (s'.handlers == s.handlers || s'.handlers == map[]);
  }

  lemma HandlerFlags(s: State, h: nat, act: Act, serial: nat)
    requires Formed(s) && CanHandler(s, h, act)
    ensures Flagged(DoHandler(s, h, act), serial) ==> Flagged(s, serial) || DoHandler(s, h, act).stale
  {
    var s' := DoHandler(s, h, act);
    if act.Notify? {
      assert s.handlers[h] == Notifying(s.handlers[h].about);
    }
    if k :| k in s'.handlers && s'.handlers[k] == Notifying(Some(serial)) {
      assert (k == h && act.Flag?) || (k in s.handlers && s.handlers[k] == Notifying(Some(serial)));
    }
  }

  lemma LoopFlags(s: State, turn: Turn, serial: nat)
    requires CanLoop(s, turn)
    ensures Flagged(DoLoop(s, turn), serial) ==> Flagged(s, serial)
  {
    assert DoLoop(s, turn).returned == s.returned && DoLoop(s, turn).handlers == s.handlers;
  }

  // A job returns no handler but its own.
  lemma ReturnedByJob(s: State, work: Work, serial: nat)
    requires CanJob(s, work) && serial in DoJob(s, work).returned
    ensures serial in s.returned
         || (s.job.value.who.TheHandler? && s.handlers[s.job.value.who.h].serial == serial)
  {
  }

  lemma OwnSigningLists(s: State, work: Work, serial: nat)
    requires Formed(s) && CanJob(s, work) && s.mode.Enrolled?
    requires s.job.value.who.TheHandler? && s.handlers[s.job.value.who.h].serial == serial
    ensures serial in DoJob(s, work).returned ==>
      serial in s.returned || OnDisk(DoJob(s, work), serial) || Expired(DoJob(s, work), serial)
  {
    if work.Decide? {
      assert NoNeed(s, true, s.job.value.stage.subordinate, s.job.value.stage.at).None?;
    } else if work.WriteCrl? {
      assert DoJob(s, work).crl == Some(Signed(s.job.value.stage));
    }
  }

  // A leaf whose revocation a job returns is on disk.
  lemma JobReturns(s: State, work: Work, serial: nat)
    requires Formed(s) && CanJob(s, work) && s.mode.Enrolled?
    ensures serial in DoJob(s, work).returned ==>
      serial in s.returned || OnDisk(DoJob(s, work), serial) || Expired(DoJob(s, work), serial)
  {
    if serial in DoJob(s, work).returned {
      ReturnedByJob(s, work, serial);
      if serial !in s.returned {
        OwnSigningLists(s, work, serial);
      }
    }
  }

  lemma JobFlags(s: State, work: Work, serial: nat)
    requires Formed(s) && CanJob(s, work) && s.mode.Enrolled?
    ensures Flagged(DoJob(s, work), serial) ==>
      Flagged(s, serial) || OnDisk(DoJob(s, work), serial) || Expired(DoJob(s, work), serial)
  {
    JobReturns(s, work, serial);
    JobNotifiesNobody(s, work, serial);
  }

  lemma JobNotifiesNobody(s: State, work: Work, serial: nat)
    requires CanJob(s, work)
    ensures
      var s' := DoJob(s, work);
      forall k :: k in s'.handlers && s'.handlers[k] == Notifying(Some(serial)) ==>
        k in s.handlers && s.handlers[k] == Notifying(Some(serial))
  {
    if work.Fail? || work.TimeOut? {
      GivingUpNotifiesNobody(s, work, serial);
    } else if !work.LookMode? && !work.Decide? && !work.WriteCrl? {
      assert DoJob(s, work).handlers == s.handlers;
    }
  }

  lemma GivingUpNotifiesNobody(s: State, work: Work, serial: nat)
    requires CanJob(s, work) && (work.Fail? || work.TimeOut?)
    ensures
      var s' := DoJob(s, work);
      forall k :: k in s'.handlers && s'.handlers[k] == Notifying(Some(serial)) ==>
        k in s.handlers && s.handlers[k] == Notifying(Some(serial))
  {
  }

  lemma NewFlagIsCovered(s: State, t: Step, serial: nat)
    requires Formed(s) && Enabled(s, t) && Orderly(s, t) && Apply(s, t).mode.Enrolled?
    ensures Flagged(Apply(s, t), serial) ==> Flagged(s, serial) || Covered(Apply(s, t), serial)
  {
    match t
    case InWorld(world) => WorldFlags(s, world, serial);
    case InHandler(h, act) => HandlerFlags(s, h, act, serial);
    case InLoop(turn) => LoopFlags(s, turn, serial);
    case InJob(work) =>
      JobSparesTheDatabase(s, work);
      JobFlags(s, work, serial);
  }

  lemma FlaggedIsRevoked(s: State, serial: nat)
    requires Formed(s) && Flagged(s, serial)
    ensures serial in s.db.revoked
  {
    if serial !in s.returned {
      var h :| h in s.handlers && s.handlers[h] == Notifying(Some(serial));
      assert About(s.handlers[h]) == Some(serial);
    }
  }

  lemma CoveredStays(s: State, t: Step, serial: nat)
    requires Formed(s) && Enabled(s, t) && Orderly(s, t) && t != InWorld(Restart)
    requires s.mode.Enrolled? && serial in s.db.revoked && Covered(s, serial)
    ensures Covered(Apply(s, t), serial)
  {
    if Expired(s, serial) {
      StepOnlyAges(s, t);
    } else if OnDisk(s, serial) {
      DiskStays(s, t, serial);
    } else if s.stale {
      FlagStays(s, t, serial);
    } else {
      CarriedStays(s, t, serial);
    }
  }

  lemma JobSparesTheDatabase(s: State, work: Work)
    requires CanJob(s, work)
    ensures DoJob(s, work).now == s.now && DoJob(s, work).mode == s.mode
    ensures DoJob(s, work).db.leaves == s.db.leaves && DoJob(s, work).db.revoked == s.db.revoked
  {
  }

  lemma WorldOnlyAges(s: State, world: World)
    requires CanWorld(s, world)
    ensures DoWorld(s, world).now >= s.now
    ensures forall serial :: serial in s.db.leaves ==>
              serial in DoWorld(s, world).db.leaves && DoWorld(s, world).db.leaves[serial] == s.db.leaves[serial]
  {
  }

  lemma StepOnlyAges(s: State, t: Step)
    requires Enabled(s, t)
    ensures Apply(s, t).now >= s.now
    ensures forall serial :: serial in s.db.leaves ==>
              serial in Apply(s, t).db.leaves && Apply(s, t).db.leaves[serial] == s.db.leaves[serial]
  {
    match t
    case InWorld(world) => WorldOnlyAges(s, world);
    case InHandler(h, act) => assert DoHandler(s, h, act).db.leaves == s.db.leaves;
    case InLoop(turn) => assert DoLoop(s, turn).db.leaves == s.db.leaves;
    case InJob(work) => JobSparesTheDatabase(s, work);
  }

  lemma StepLosesNothing(s: State, t: Step)
    requires Formed(s) && NothingLost(s) && Enabled(s, t) && Orderly(s, t)
    ensures NothingLost(Apply(s, t))
  {
    var s' := Apply(s, t);
    if t == InWorld(Restart) {
      RestartCoversExactlyWhen(s);
    } else if s'.mode.Enrolled? {
      forall serial | Flagged(s', serial)
        ensures Covered(s', serial)
      {
        if Flagged(s, serial) {
          FlaggedIsRevoked(s, serial);
          WasEnrolled(s, t);
          CoveredStays(s, t, serial);
        } else {
          NewFlagIsCovered(s, t, serial);
        }
      }
    }
  }

  lemma WorldWasEnrolled(s: State, world: World)
    requires DiskFormed(s) && CanWorld(s, world) && s.db.revoked != {} && DoWorld(s, world).mode.Enrolled?
    ensures s.mode.Enrolled?
  {
  }

  // A restart drops the flag and whatever was under way, so it uncovers nothing exactly
  // when every revocation that was answered for is on disk.
  lemma RestartCoversExactlyWhen(s: State)
    ensures NothingLost(DoWorld(s, Restart)) <==> Orderly(s, InWorld(Restart))
  {
    var s' := DoWorld(s, Restart);
    forall serial ensures Flagged(s', serial) <==> serial in s.returned {
    }
    forall serial ensures Covered(s', serial) <==> OnDisk(s, serial) || Expired(s, serial) {
      assert OnDisk(s', serial) == OnDisk(s, serial) && Expired(s', serial) == Expired(s, serial);
    }
    if NothingLost(s') && s.mode.Enrolled? {
      forall serial | serial in s.returned ensures OnDisk(s, serial) || Expired(s, serial) {
        assert Flagged(s', serial);
      }
    }
  }

  // A broker with a revoked leaf that is enrolled now was enrolled before.
  lemma WasEnrolled(s: State, t: Step)
    requires Formed(s) && Enabled(s, t) && s.db.revoked != {} && Apply(s, t).mode.Enrolled?
    ensures s.mode.Enrolled?
  {
    match t
    case InWorld(world) => WorldWasEnrolled(s, world);
    case InHandler(h, act) => assert DoHandler(s, h, act).mode == s.mode;
    case InLoop(turn) => assert DoLoop(s, turn).mode == s.mode;
    case InJob(work) => JobSparesTheDatabase(s, work);
  }

  // --- The loop is woken ---

  ghost predicate SomeoneNotifying(s: State) {
    exists h :: h in s.handlers && s.handlers[h].Notifying?
  }

  lemma WorldWakes(s: State, world: World)
    requires NoMissedWake(s) && CanWorld(s, world)
    ensures NoMissedWake(DoWorld(s, world))
  {
    var s' := DoWorld(s, world);
    assert !world.Restart? ==> s'.handlers == s.handlers;
  }

  lemma HandlerWakes(s: State, h: nat, act: Act)
    requires NoMissedWake(s) && CanHandler(s, h, act)
    ensures NoMissedWake(DoHandler(s, h, act))
  {
    var s' := DoHandler(s, h, act);
    if act.Flag? {
      assert s'.handlers[h].Notifying?;
    } else if !act.Notify? && SomeoneNotifying(s) {
      var k :| k in s.handlers && s.handlers[k].Notifying?;
      assert k in s'.handlers && s'.handlers[k].Notifying?;
    }
  }

  lemma JobWakes(s: State, work: Work)
    requires JobFormed(s) && NoMissedWake(s) && CanJob(s, work)
    ensures NoMissedWake(DoJob(s, work))
  {
    var s' := DoJob(s, work);
    if SomeoneNotifying(s) {
      var k :| k in s.handlers && s.handlers[k].Notifying?;
      assert k in s'.handlers && s'.handlers[k].Notifying?;
    }
  }

  lemma StepMissesNoWake(s: State, t: Step)
    requires Formed(s) && NoMissedWake(s) && Enabled(s, t) && Orderly(s, t)
    ensures NoMissedWake(Apply(s, t))
  {
    match t
    case InWorld(world) => WorldWakes(s, world);
    case InHandler(h, act) => HandlerWakes(s, h, act);
    case InLoop(turn) => assert DoLoop(s, turn).handlers == s.handlers;
    case InJob(work) => JobWakes(s, work);
  }

  ghost predicate OrderlyRun(s: State, run: seq<Step>)
    requires Valid(s, run)
    decreases |run|
  {
    run == [] || (Orderly(s, run[0]) && OrderlyRun(Apply(s, run[0]), run[1..]))
  }

  lemma StepKeeps(s: State, t: Step)
    requires Inv(s) && Enabled(s, t) && Orderly(s, t)
    ensures Inv(Apply(s, t))
  {
    StepForms(s, t);
    StepLosesNothing(s, t);
    StepMissesNoWake(s, t);
  }

  lemma {:induction false} RunKeeps(s: State, run: seq<Step>)
    requires Inv(s) && Valid(s, run) && OrderlyRun(s, run)
    ensures Inv(Exec(s, run))
    decreases |run|
  {
    if run != [] {
      StepKeeps(s, run[0]);
      RunKeeps(Apply(s, run[0]), run[1..]);
    }
  }

  // --- The theorems ---

  ghost predicate CarriesForce(loop: Loop) {
    (loop.Wanting? || loop.Checking? || loop.Failed?) && loop.force
  }

  // Once the handler that recorded a revocation has returned, the leaf is on the
  // CRL on disk, or the flag is set, or the loop carries `force`, until it expires.
  // And a loop asleep on the flag has a permit, a short wait or a handler about to
  // notify.
  lemma NoRevocationIsLost(s: State, run: seq<Step>, serial: nat)
    requires Init(s) && Valid(s, run) && OrderlyRun(s, run)
    requires Exec(s, run).mode.Enrolled? && serial in Exec(s, run).returned
    ensures
      var e := Exec(s, run);
      OnDisk(e, serial) || e.stale || CarriesForce(e.loop) || Expired(e, serial)
    ensures
      var e := Exec(s, run);
      e.loop.Waiting? && e.stale ==> e.permit || e.loop.wait <= RETRY_AFTER || SomeoneNotifying(e)
  {
    RunKeeps(s, run);
    assert Flagged(Exec(s, run), serial);
  }

  // Over every run, orderly or not: each serial a CRL lists, on disk or yet to be written,
  // is of a revoked leaf of this enrolment that was unexpired at the clock it was signed by.
  lemma {:induction false} CrlsListRightly(s: State, run: seq<Step>)
    requires Formed(s) && Valid(s, run)
    ensures
      var e := Exec(s, run);
      && (e.crl.Some? ==> ListsRightly(e, e.crl.value.listed, SignedAt(e.crl.value)))
      && (forall late :: late in e.late ==> ListsRightly(e, late.crl.listed, SignedAt(late.crl)))
      && (e.job.Some? && HasList(e.job.value.stage) ==>
            ListsRightly(e, e.job.value.stage.list, e.job.value.stage.at))
      && (e.mode.Enrolled? ==>
            forall serial :: serial in e.db.leaves ==> OursBy(e.mode.issuers, e.db.leaves[serial].issuer))
    decreases |run|
  {
    if run != [] {
      StepForms(s, run[0]);
      CrlsListRightly(Apply(s, run[0]), run[1..]);
    }
  }

  // After a signing, or when there is nothing to sign for, the loop looks again in an hour;
  // a failure it tries again in a minute.
  lemma LooksAgain(s: State, t: Step)
    requires Formed(s) && Enabled(s, t) && !s.loop.Waiting?
    ensures
      var loop := Apply(s, t).loop;
      loop.Waiting? ==>
        && loop.until == s.now + loop.wait
        && if s.loop.Failed? then t == InLoop(Restore) && loop.wait == 60_000_000_000
           else if t == InJob(Decide) then 0 < loop.wait <= 3_600_000_000_000
           else (t == InJob(LookMode) || t == InJob(WriteCrl)) && loop.wait == 3_600_000_000_000
  {
    match t
    case InWorld(world) => assert DoWorld(s, world).loop.Waiting? ==> s.loop.Waiting?;
    case InHandler(h, act) => assert DoHandler(s, h, act).loop == s.loop;
    case InLoop(turn) =>
    case InJob(work) => JobLooksAgain(s, work);
  }

  lemma JobLooksAgain(s: State, work: Work)
    requires Holders(s) && CanJob(s, work) && !s.loop.Waiting?
    ensures
      var loop := DoJob(s, work).loop;
      loop.Waiting? ==>
        && s.loop.Checking? && loop.until == s.now + loop.wait
        && if work.Decide? then 0 < loop.wait <= 3_600_000_000_000
           else (work.LookMode? || work.WriteCrl?) && loop.wait == 3_600_000_000_000
  {
    if s.job.value.who.TheHandler? {
      JobByHandler(s, work);
    }
  }

  lemma JobByHandler(s: State, work: Work)
    requires CanJob(s, work) && s.job.value.who.TheHandler?
    ensures DoJob(s, work).loop == s.loop
  {
  }

  // A request to resign, like a revocation, ends with the flag up and the loop notified.
  lemma HandlersFlag(s: State, h: nat, serial: nat)
    requires h !in s.handlers
    ensures
      var resigned := DoHandler(s, h, Resign);
      CanHandler(resigned, h, Flag) && FlagsAndNotifies(resigned, h, None)
    ensures CanHandler(s, h, Record(serial, false)) ==>
              var recorded := DoHandler(s, h, Record(serial, false));
              && recorded.db.revoked == s.db.revoked + {serial}
              && CanHandler(recorded, h, Flag) && FlagsAndNotifies(recorded, h, Some(serial))
  {
  }

  ghost predicate FlagsAndNotifies(s: State, h: nat, about: Option<nat>)
    requires CanHandler(s, h, Flag)
  {
    var flagged := DoHandler(s, h, Flag);
    && flagged.stale && CanHandler(flagged, h, Notify)
    && var notified := DoHandler(flagged, h, Notify);
    && notified.stale && notified.permit && notified.handlers[h] == Returned
    && notified.returned == s.returned + (if about.Some? then {about.value} else {})
  }

  // And it lists every one of them: what a signing reads is every revoked leaf of its
  // issuers then unexpired, and what it writes is that list, under its own number, with
  // four days from a minute before its clock.
  lemma SigningListsAll(s: State, work: Work)
    requires Formed(s) && CanJob(s, work)
    ensures
      var s' := DoJob(s, work);
      var stage := s.job.value.stage;
      && (work.ReadRevoked? ==>
            && s'.job.value.stage.at == stage.at
            && forall serial :: serial in s.db.revoked && OursBy(stage.issuers, s.db.leaves[serial].issuer) ==>
                 (serial in s'.job.value.stage.list <==> s.db.leaves[serial].notAfter > stage.at))
      && (work.TakeNumber? || work.WriteCa? ==>
            s'.job.value.stage.list == stage.list && s'.job.value.stage.at == stage.at)
      && (work.TakeNumber? ==> s'.job.value.stage.number == s'.db.numbers > s.db.numbers)
      && (work.WriteCa? ==> s'.job.value.stage.number == stage.number && s'.caFile == Some(stage.subordinate))
      && (work.WriteCrl? ==>
            && s'.crl == Some(Crl(stage.number, stage.list, stage.at - 60_000_000_000 + 345_600_000_000_000))
            && SignedAt(s'.crl.value) == stage.at)
  {
    if work.ReadRevoked? {
      ReadListsExactly(s, s.job.value.stage.issuers, s.job.value.stage.at);
    }
  }

  // A check signs exactly when it is forced, or the files are not this subordinate's, or
  // the CRL on disk has three days or less left; else the loop looks again by then, and
  // within the hour.
  lemma SignsExactlyWhenDue(s: State)
    requires CanJob(s, Decide)
    ensures
      var (stage, force, s') := (s.job.value.stage, s.job.value.force, DoJob(s, Decide));
      var standing := s.caFile == Some(stage.subordinate) && s.crl.Some?
                      && s.crl.value.nextUpdate - stage.at > 259_200_000_000_000;
      && (force || !standing ==>
            s'.job == Some(s.job.value.(stage := ToSign(stage.subordinate, stage.issuers, stage.at))))
      && (!force && standing ==> s'.job.None?)
      && (!force && standing && s.job.value.who.TheLoop? ==>
            && s'.loop.Waiting? && 0 < s'.loop.wait <= 3_600_000_000_000 && s'.loop.until == s.now + s'.loop.wait
            && stage.at + s'.loop.wait <= s.crl.value.nextUpdate - 259_200_000_000_000)
  {
  }

  // `later` may replace `earlier` on disk.
  ghost predicate Follows(s: State, earlier: Crl, later: Crl) {
    && (later == earlier || later.number > earlier.number)
    && later.nextUpdate >= earlier.nextUpdate
    && forall serial :: serial in earlier.listed ==> serial in later.listed || Expired(s, serial)
  }

  // A renewal adds its subordinate to the issuers and nothing ever takes one away, so the
  // subordinate is always one of them.
  lemma IssuersGrow(s: State, t: Step)
    requires Enabled(s, t) && Apply(s, t).mode.Enrolled?
    ensures
      var (mode, mode') := (s.mode, Apply(s, t).mode);
      if mode.Enrolled? then
        && (mode'.issuers.None? <==> mode.issuers.None?)
        && (mode.issuers.Some? ==>
              && mode.issuers.value <= mode'.issuers.value
              && mode'.issuers.value <= mode.issuers.value + {mode'.subordinate}
              && (mode.subordinate in mode.issuers.value ==> mode'.subordinate in mode'.issuers.value))
      else mode'.issuers == Some({mode'.subordinate})
  {
    match t
    case InWorld(world) =>
    case InHandler(h, act) => assert DoHandler(s, h, act).mode == s.mode;
    case InLoop(turn) => assert DoLoop(s, turn).mode == s.mode;
    case InJob(work) => JobSparesTheDatabase(s, work);
  }

  lemma StepMovesCrlForward(s: State, t: Step)
    requires Formed(s) && Enabled(s, t) && Orderly(s, t) && s.crl.Some?
    ensures Apply(s, t).crl.Some? && Follows(Apply(s, t), s.crl.value, Apply(s, t).crl.value)
  {
    var s' := Apply(s, t);
    match t
    case InWorld(world) =>
      if world.LateWrite? {
        LateWriteFollowsExactlyWhen(s, world.late);
      } else {
        assert DoWorld(s, world).crl == s.crl;
      }
    case InHandler(h, act) => assert DoHandler(s, h, act).crl == s.crl;
    case InLoop(turn) => assert DoLoop(s, turn).crl == s.crl;
    case InJob(work) => JobMovesCrlForward(s, work);
  }

  lemma JobMovesCrlForward(s: State, work: Work)
    requires Formed(s) && CanJob(s, work) && s.crl.Some?
    ensures DoJob(s, work).crl.Some? && Follows(DoJob(s, work), s.crl.value, DoJob(s, work).crl.value)
  {
    JobSparesTheDatabase(s, work);
    if work.WriteCrl? {
      SignedRanks(s, s.job.value);
    }
  }

  // A late write uncovers nothing exactly when it lists every flagged leaf on disk that
  // nothing else covers.
  lemma LateWriteCoversExactlyWhen(s: State, late: Late)
    requires Formed(s) && NothingLost(s) && late in s.late
    ensures NothingLost(DoWorld(s, LateWrite(late))) <==>
              (s.mode.Enrolled? ==>
                 forall serial :: Flagged(s, serial) && OnDisk(s, serial) ==>
                   serial in late.crl.listed || s.stale || Carried(s, serial) || Expired(s, serial))
  {
    var s' := DoWorld(s, LateWrite(late));
    forall serial
      ensures Flagged(s', serial) == Flagged(s, serial) && Expired(s', serial) == Expired(s, serial)
      ensures Carried(s', serial) == Carried(s, serial) && OnDisk(s', serial) == (serial in late.crl.listed)
    {
    }
  }

  // A write that outlived its timeout moves the CRL on exactly when no CRL of a later
  // number has been written in the meantime.
  lemma LateWriteFollowsExactlyWhen(s: State, late: Late)
    requires Formed(s) && late in s.late && s.crl.Some?
    ensures var s' := DoWorld(s, LateWrite(late));
      Follows(s', s.crl.value, s'.crl.value) <==> late.crl.number > s.crl.value.number
  {
    assert Ranked(s, late.crl, s.crl.value);
  }

  // The CRLs on disk have strictly rising numbers, and each lists every leaf an
  // earlier one listed that has not expired, whoever signed them.
  lemma {:induction false} CrlsMoveForward(s: State, run: seq<Step>)
    requires Formed(s) && Valid(s, run) && OrderlyRun(s, run) && s.crl.Some?
    ensures Exec(s, run).crl.Some? && Follows(Exec(s, run), s.crl.value, Exec(s, run).crl.value)
    decreases |run|
  {
    if run != [] {
      var s' := Apply(s, run[0]);
      StepForms(s, run[0]);
      StepMovesCrlForward(s, run[0]);
      CrlsMoveForward(s', run[1..]);
      ExpiredForEver(s', run[1..]);
    }
  }

  lemma {:induction false} ExpiredForEver(s: State, run: seq<Step>)
    requires Valid(s, run)
    ensures forall serial :: Expired(s, serial) ==> Expired(Exec(s, run), serial)
    decreases |run|
  {
    if run != [] {
      StepOnlyAges(s, run[0]);
      ExpiredForEver(Apply(s, run[0]), run[1..]);
    }
  }
}
