// The broker's enrolment: what is on disk, what the daemon holds in memory, the
// one-time code, and every operation on them. `enrol` is two steps, a check
// without the state lock and a commit under it; each other operation is one step
// under the lock and reads the disk afresh.
module Enrolment {
  import opened Wrappers

  // What `check_chain` reads of a chain: the key it certifies, its serial, the root
  // it ends in, whether it is a subordinate CA under that root, and its end.
  datatype Chain = Chain(key: nat, serial: nat, root: nat, linked: bool, notAfter: int)

  datatype Enrolled = Enrolled(chain: Chain, revoked: bool, paused: bool, issuers: Option<seq<nat>>)

  datatype CodeState = Pending(left: nat) | Accepted | LockedOut

  datatype Code = Code(number: nat, state: CodeState)

  datatype Disk = Disk(key: Option<nat>, enrolment: Option<Enrolled>, code: Option<Code>)

  // The subordinate serial a leaf is signed under, and the enrolment it belongs to.
  datatype Issuer = Issuer(serial: nat, epoch: nat)

  // `mode` is `None` while enrolling.
  datatype Memory = Memory(key: nat, mode: Option<Enrolled>, epoch: nat, issuer: Option<Issuer>)

  // An enrolment that passed its check and waits for the lock. `code` is the number
  // of the code it names, `None` for one that was never issued.
  datatype Request = Request(code: Option<nat>, enrolled: Enrolled)

  // `keys` and `codes` count those made; `epoch` counts enrolments made, archived or
  // restored; `held` are the serials of every chain the present one has had;
  // `enrolledBy` are the codes that were accepted; `leaves` is what was signed.
  datatype State = State(
    now: int, disk: Disk, memory: Memory, requests: map<nat, Request>,
    keys: nat, codes: nat, epoch: nat, held: set<nat>, enrolledBy: seq<nat>, leaves: set<Issuer>)

  const ATTEMPTS: nat := 5

  datatype Step =
    | Tick(seconds: nat)
    | Check(r: nat, code: Option<nat>, chain: Chain, configOk: bool)
    | Drop(r: nat)
    | Commit(r: nat, promoted: bool, serving: bool)
    | Pair
    | Reopen(done: nat) // how far it got: 0 archived, 1 key deleted, 2 key made, 3 code issued
    | Reload(serving: bool)
    | Restart
    | Renew(chain: Chain, configOk: bool, stored: bool, serving: bool)
    | Pause(paused: bool, stored: bool, serving: bool)
    | Revoke(stored: bool)
    | Refresh(serving: bool)
    | Restore(enrolment: Option<Enrolled>, chosen: bool, applied: bool, serving: bool)
    | Sign

  function Issued(s: State): State {
    s.(disk := s.disk.(code := Some(Code(s.codes, Pending(ATTEMPTS)))), codes := s.codes + 1)
  }

  predicate CheckChain(s: State, chain: Chain) {
    chain.key == s.memory.key && chain.linked && chain.notAfter > s.now
  }

  // `refresh_acme`: the issuer in force becomes the one in memory, if it can be served.
  function RefreshAcme(s: State, serving: bool): State {
    var mode := s.memory.mode;
    if mode.Some? && !mode.value.revoked && serving && mode.value.chain.key == s.memory.key
    then s.(memory := s.memory.(issuer := Some(Issuer(mode.value.chain.serial, s.memory.epoch))))
    else s
  }

  // `store`: the disk first, then memory.
  function Store(s: State, enrolled: Enrolled): State {
    s.(disk := s.disk.(enrolment := Some(enrolled)),
       memory := s.memory.(mode := Some(enrolled), epoch := s.epoch))
  }

  predicate MayCheck(s: State, code: Option<nat>, chain: Chain, configOk: bool) {
    s.memory.mode.None? && CheckChain(s, chain) && configOk && (code.Some? ==> code.value < s.codes)
  }

  // Whether redeeming `code` is accepted, and the code afterwards.
  predicate Redeems(s: State, code: Option<nat>) {
    s.disk.code.Some? && s.disk.code.value.state.Pending? && code == Some(s.disk.code.value.number)
  }

  function Attempted(code: Code): Code {
    match code.state
    case Pending(left) => code.(state := if left <= 1 then LockedOut else Pending(left - 1))
    case _ => code
  }

  function RedeemAndStore(s: State, r: nat, promoted: bool, serving: bool): State
    requires r in s.requests
  {
    var Request(code, enrolled) := s.requests[r];
    var rest := s.(requests := s.requests - {r});
    if s.disk.code.None? then rest
    else if !Redeems(s, code) then
      rest.(disk := s.disk.(code := Some(Attempted(s.disk.code.value))))
    else
      var spent := rest.(disk := s.disk.(code := Some(s.disk.code.value.(state := Accepted))));
      if !promoted then spent
      else
        var next := spent.(epoch := s.epoch + 1, held := {enrolled.chain.serial},
                           enrolledBy := s.enrolledBy + [s.disk.code.value.number]);
        RefreshAcme(Store(next, enrolled), serving)
  }

  function DoReopen(s: State, done: nat): State {
    var archived := s.(disk := s.disk.(enrolment := None), epoch := s.epoch + 1, held := {});
    if done == 0 then archived
    else if done == 1 then archived.(disk := archived.disk.(key := None))
    else
      var keyed := archived.(disk := archived.disk.(key := Some(s.keys)), keys := s.keys + 1);
      if done == 2 then keyed else Issued(keyed)
  }

  // `load_or_generate`: a key is made only when there is none.
  function Keyed(s: State): State {
    if s.disk.key.Some? then s else s.(disk := s.disk.(key := Some(s.keys)), keys := s.keys + 1)
  }

  function Loaded(s: State): State {
    var k := Keyed(s);
    k.(memory := k.memory.(key := k.disk.key.value, mode := k.disk.enrolment, epoch := k.epoch))
  }

  function ReloadLocked(s: State, serving: bool): State {
    RefreshAcme(Loaded(s), serving)
  }

  // A new daemon: no requests in flight, no issuer yet, and a code if there is none.
  function DoRestart(s: State): State {
    var loaded := Loaded(s.(requests := map[], memory := s.memory.(issuer := None)));
    if loaded.disk.code.Some? then loaded else Issued(loaded)
  }

  function Renewed(current: Enrolled, chain: Chain): Enrolled {
    var issuers := if current.issuers.Some? then Some(current.issuers.value + [chain.serial]) else None;
    current.(chain := chain, issuers := issuers)
  }

  function StoreChain(s: State, chain: Chain, configOk: bool, stored: bool, serving: bool): State {
    if s.disk.enrolment.None? then s
    else
      var current := s.disk.enrolment.value;
      if current.revoked || !CheckChain(s, chain) || chain.root != current.chain.root || !configOk || !stored then s
      else RefreshAcme(Store(s, Renewed(current, chain)).(held := s.held + {chain.serial}), serving)
  }

  function StorePause(s: State, paused: bool, stored: bool, serving: bool): State {
    if s.disk.enrolment.None? then s
    else
      var current := s.disk.enrolment.value;
      if current.revoked || current.paused == paused || !stored then s
      else RefreshAcme(Store(s, current.(paused := paused)), serving)
  }

  function StoreRevocation(s: State, stored: bool): State {
    if s.disk.enrolment.None? || s.disk.enrolment.value.revoked || !stored then s
    else RefreshAcme(Store(s, s.disk.enrolment.value.(revoked := true)), false)
  }

  // What a capture's enrolment comes to here.
  datatype Restorable = Blocked | LeftOut | Restorable(enrolled: Enrolled)

  function EnrolmentToRestore(s: State, restored: Enrolled): Restorable {
    if restored.chain.key != s.memory.key then
      if s.disk.enrolment.Some? then Blocked else LeftOut
    else if s.disk.enrolment.Some? && s.disk.enrolment.value.revoked && !restored.revoked then Blocked
    else Restorable(restored)
  }

  function DoRestore(s: State, enrolment: Option<Enrolled>, chosen: bool, applied: bool, serving: bool): State {
    var found := if enrolment.Some? then EnrolmentToRestore(s, enrolment.value) else LeftOut;
    if found.Blocked? || !applied then s
    else if found.Restorable? && chosen then
      ReloadLocked(s.(disk := s.disk.(enrolment := Some(found.enrolled)), epoch := s.epoch + 1,
                      held := {found.enrolled.chain.serial}), serving)
    else ReloadLocked(s, serving)
  }

  predicate Enabled(s: State, t: Step) {
    match t
    case Check(r, code, chain, configOk) => r !in s.requests && MayCheck(s, code, chain, configOk)
    case Drop(r) => r in s.requests
    case Commit(r, _, _) => r in s.requests
    case Reopen(done) => done <= 3
    case Sign => s.memory.issuer.Some?
    case _ => true
  }

  function Apply(s: State, t: Step): State
    requires Enabled(s, t)
  {
    match t
    case Tick(seconds) => s.(now := s.now + seconds)
    case Check(r, code, chain, _) =>
      s.(requests := s.requests[r := Request(code, Enrolled(chain, false, false, Some([chain.serial])))])
    case Drop(r) => s.(requests := s.requests - {r})
    case Commit(r, promoted, serving) => RedeemAndStore(s, r, promoted, serving)
    case Pair => if s.disk.enrolment.Some? then s else Issued(s)
    case Reopen(done) => DoReopen(s, done)
    case Reload(serving) => ReloadLocked(s, serving)
    case Restart => DoRestart(s)
    case Renew(chain, configOk, stored, serving) => StoreChain(s, chain, configOk, stored, serving)
    case Pause(paused, stored, serving) => StorePause(s, paused, stored, serving)
    case Revoke(stored) => StoreRevocation(s, stored)
    case Refresh(serving) => RefreshAcme(s, serving)
    case Restore(enrolment, chosen, applied, serving) => DoRestore(s, enrolment, chosen, applied, serving)
    case Sign => s.(leaves := s.leaves + {s.memory.issuer.value})
  }

  ghost predicate Valid(s: State, run: seq<Step>)
    decreases |run|
  {
    run == [] || (Enabled(s, run[0]) && Valid(Apply(s, run[0]), run[1..]))
  }

  ghost function Exec(s: State, run: seq<Step>): State
    requires Valid(s, run)
    decreases |run|
  {
    if run == [] then s else Exec(Apply(s, run[0]), run[1..])
  }

  ghost predicate RestoreFree(run: seq<Step>) {
    forall t :: t in run ==> !t.Restore?
  }

  // --- What each operation does ---

  // The issuer in force: the subordinate in memory, where it may sign and is served.
  ghost predicate IssuerFollows(before: Option<Issuer>, memory: Memory, serving: bool) {
    memory.issuer ==
      if memory.mode.Some? && memory.mode.value.chain.key == memory.key && serving && !memory.mode.value.revoked
      then Some(Issuer(memory.mode.value.chain.serial, memory.epoch)) else before
  }

  // Beside the serials held, disk and memory now say `enrolled`, and nothing else changes.
  ghost predicate Puts(s: State, s': State, enrolled: Enrolled, serving: bool) {
    && s'.disk == s.disk.(enrolment := Some(enrolled))
    && s'.memory.mode == Some(enrolled) && s'.memory.key == s.memory.key && s'.memory.epoch == s.epoch
    && IssuerFollows(s.memory.issuer, s'.memory, serving)
    && s' == s.(disk := s'.disk, memory := s'.memory, held := s'.held)
  }

  // A revocation is stored whenever there is an unrevoked enrolment to revoke, and
  // leaves its chain, its issuers and whether it is paused as they were.
  lemma RevokeRevokes(s: State, stored: bool)
    ensures
      var (current, s') := (s.disk.enrolment, Apply(s, Revoke(stored)));
      if current.Some? && !current.value.revoked && stored then
        && Puts(s, s', Enrolled(current.value.chain, true, current.value.paused, current.value.issuers), false)
        && s'.held == s.held && RevokedOnDisk(s') && s'.memory.issuer == s.memory.issuer
      else s' == s
  {
  }

  lemma PausePauses(s: State, paused: bool, stored: bool, serving: bool)
    ensures
      var (current, s') := (s.disk.enrolment, Apply(s, Pause(paused, stored, serving)));
      if current.Some? && !current.value.revoked && current.value.paused != paused && stored then
        && Puts(s, s', Enrolled(current.value.chain, false, paused, current.value.issuers), serving)
        && s'.held == s.held
      else s' == s
  {
  }

  // A renewal puts a chain over the daemon's own key, under the root enrolled with, in
  // place of an unrevoked one, and keeps every issuer known so far.
  lemma RenewRenews(s: State, chain: Chain, configOk: bool, stored: bool, serving: bool)
    ensures
      var (current, s') := (s.disk.enrolment, Apply(s, Renew(chain, configOk, stored, serving)));
      if current.Some? && !current.value.revoked && configOk && stored
         && chain.key == s.memory.key && chain.linked && chain.notAfter > s.now
         && chain.root == current.value.chain.root
      then
        && s'.disk.enrolment.Some? && s'.disk.enrolment.value.issuers.Some? == current.value.issuers.Some?
        && (current.value.issuers.Some? ==>
              s'.disk.enrolment.value.issuers.value == current.value.issuers.value + [chain.serial])
        && Puts(s, s', Enrolled(chain, false, current.value.paused, s'.disk.enrolment.value.issuers), serving)
        && s'.held == s.held + {chain.serial}
      else s' == s
  {
  }

  // A request waits for the lock exactly when the daemon has no enrolment in memory and
  // its chain is a current subordinate's over the daemon's own key; it would be enrolled
  // unrevoked, unpaused, with its own serial for issuer.
  lemma CheckStages(s: State, r: nat, code: Option<nat>, chain: Chain, configOk: bool)
    requires r !in s.requests
    ensures Enabled(s, Check(r, code, chain, configOk)) <==>
              && s.memory.mode.None? && configOk && (code.None? || code.value < s.codes)
              && chain.key == s.memory.key && chain.linked && s.now < chain.notAfter
    ensures Enabled(s, Check(r, code, chain, configOk)) ==>
              var s' := Apply(s, Check(r, code, chain, configOk));
              && s' == s.(requests := s'.requests) && s'.requests.Keys == s.requests.Keys + {r}
              && (forall k :: k in s.requests ==> s'.requests[k] == s.requests[k])
              && s'.requests[r] == Request(code, Enrolled(chain, false, false, Some([chain.serial])))
  {
  }

  // A request that names the pending code spends it, and enrols if it can be promoted;
  // any other costs a pending code one of its attempts, the last of which locks it.
  lemma CommitEnrols(s: State, r: nat, promoted: bool, serving: bool)
    requires r in s.requests
    ensures
      var (request, code, s') := (s.requests[r], s.disk.code, Apply(s, Commit(r, promoted, serving)));
      && s'.requests.Keys == s.requests.Keys - {r}
      && (forall k :: k in s'.requests ==> s'.requests[k] == s.requests[k])
      && if code.None? then s' == s.(requests := s'.requests)
         else if code.value.state.Pending? && request.code == Some(code.value.number) then
           var after := s.(disk := s.disk.(code := Some(Code(code.value.number, Accepted))), requests := s'.requests);
           if !promoted then s' == after
           else
             && Puts(after.(epoch := s.epoch + 1, enrolledBy := s.enrolledBy + [code.value.number]), s',
                     request.enrolled, serving)
             && s'.held == {request.enrolled.chain.serial}
         else
           && s' == s.(disk := s.disk.(code := s'.disk.code), requests := s'.requests)
           && s'.disk.code.Some? && s'.disk.code.value.number == code.value.number
           && (code.value.state.Pending? && code.value.state.left > 1 ==>
                 s'.disk.code.value.state == Pending(code.value.state.left - 1))
           && (code.value.state.Pending? && code.value.state.left <= 1 ==> s'.disk.code.value.state.LockedOut?)
           && (!code.value.state.Pending? ==> s'.disk.code == code)
  {
  }

  // A new code is one never made before, with five attempts, and only for a broker not enrolled.
  lemma PairIssues(s: State)
    ensures
      var s' := Apply(s, Pair);
      if s.disk.enrolment.Some? then s' == s
      else
        && s' == s.(disk := s.disk.(code := s'.disk.code), codes := s'.codes)
        && s'.disk.code == Some(Code(s.codes, Pending(5))) && s'.codes == s.codes + 1
  {
  }

  // A reopen touches the disk alone: the enrolment goes first, then the key, for which
  // a new one is made, and the code last.
  lemma ReopenArchives(s: State, done: nat)
    requires Enabled(s, Reopen(done))
    ensures
      var s' := Apply(s, Reopen(done));
      && s'.disk.enrolment.None? && s'.held == {} && s'.epoch == s.epoch + 1
      && s' == s.(disk := s'.disk, held := s'.held, epoch := s'.epoch, keys := s'.keys, codes := s'.codes)
      && s'.disk.key == (if done == 0 then s.disk.key else if done == 1 then None else Some(s.keys))
      && s'.keys == s.keys + (if done >= 2 then 1 else 0)
      && s'.disk.code == (if done == 3 then Some(Code(s.codes, Pending(5))) else s.disk.code)
      && s'.codes == s.codes + (if done == 3 then 1 else 0)
  {
  }

  // Memory is the disk: its key, one made now if there was none, and its enrolment.
  ghost predicate Reads(s: State, s': State) {
    && s'.disk.key.Some? && s'.memory.key == s'.disk.key.value
    && s'.memory.mode == s.disk.enrolment && s'.memory.epoch == s.epoch
    && s'.disk.enrolment == s.disk.enrolment
    && (if s.disk.key.Some? then s'.disk.key == s.disk.key && s'.keys == s.keys
        else s'.disk.key == Some(s.keys) && s'.keys == s.keys + 1)
  }

  lemma ReloadReads(s: State, serving: bool)
    ensures
      var s' := Apply(s, Reload(serving));
      && Reads(s, s') && s'.disk.code == s.disk.code
      && IssuerFollows(s.memory.issuer, s'.memory, serving)
      && s' == s.(disk := s'.disk, memory := s'.memory, keys := s'.keys)
  {
  }

  // So is a new daemon's, which drops every request, serves nothing yet, and makes sure
  // of a code.
  lemma RestartReads(s: State)
    ensures
      var s' := Apply(s, Restart);
      && Reads(s, s') && s'.memory.issuer.None? && s'.requests == map[]
      && (if s.disk.code.Some? then s'.disk.code == s.disk.code && s'.codes == s.codes
          else s'.disk.code == Some(Code(s.codes, Pending(5))) && s'.codes == s.codes + 1)
      && s' == s.(disk := s'.disk, memory := s'.memory, keys := s'.keys, codes := s'.codes, requests := map[])
  {
  }

  lemma RefreshServes(s: State, serving: bool)
    ensures
      var s' := Apply(s, Refresh(serving));
      && IssuerFollows(s.memory.issuer, s'.memory, serving)
      && s' == s.(memory := s.memory.(issuer := s'.memory.issuer))
  {
  }

  // A restore refuses an enrolment over another key than the daemon's where there is one
  // already, and one that would take a revocation back. One it takes goes on disk as
  // captured, if it is chosen, and is reloaded.
  lemma RestorePutsBack(s: State, enrolment: Option<Enrolled>, chosen: bool, applied: bool, serving: bool)
    ensures
      var (current, s') := (s.disk.enrolment, Apply(s, Restore(enrolment, chosen, applied, serving)));
      var same := enrolment.Some? && enrolment.value.chain.key == s.memory.key;
      var refused := enrolment.Some? && current.Some?
                     && (!same || (current.value.revoked && !enrolment.value.revoked));
      if refused || !applied then s' == s
      else
        var put := if same && chosen
                   then s.(disk := s.disk.(enrolment := enrolment), epoch := s.epoch + 1,
                           held := {enrolment.value.chain.serial})
                   else s;
        && Reads(put, s') && s'.disk.code == s.disk.code
        && IssuerFollows(s.memory.issuer, s'.memory, serving)
        && s' == put.(disk := s'.disk, memory := s'.memory, keys := s'.keys)
  {
  }

  // --- A code is spent by the enrolment it yields ---

  ghost predicate Distinct(xs: seq<nat>) {
    forall i, j :: 0 <= i < j < |xs| ==> xs[i] != xs[j]
  }

  // Holds in every run, restores included.
  ghost predicate CodesOnce(s: State) {
    && Distinct(s.enrolledBy)
    && (forall n :: n in s.enrolledBy ==> n < s.codes)
    && (s.disk.code.Some? ==>
          && s.disk.code.value.number < s.codes
          && (s.disk.code.value.state.Pending? ==> s.disk.code.value.number !in s.enrolledBy))
  }

  ghost predicate CodeSpent(s: State) {
    s.disk.enrolment.Some? ==> s.disk.code.Some? && s.disk.code.value.state.Accepted?
  }

  lemma CommitKeepsCodesOnce(s: State, r: nat, promoted: bool, serving: bool)
    requires CodesOnce(s) && r in s.requests
    ensures CodesOnce(RedeemAndStore(s, r, promoted, serving))
  {
  }

  lemma StepKeepsCodesOnce(s: State, t: Step)
    requires CodesOnce(s) && Enabled(s, t)
    ensures CodesOnce(Apply(s, t))
  {
    if t.Commit? {
      CommitKeepsCodesOnce(s, t.r, t.promoted, t.serving);
    } else {
      assert Apply(s, t).enrolledBy == s.enrolledBy;
    }
  }

  lemma StepKeepsCodeSpent(s: State, t: Step)
    requires CodeSpent(s) && Enabled(s, t) && !t.Restore?
    ensures CodeSpent(Apply(s, t))
  {
  }

  // A step leaves an enrolment whose code is not spent exactly when it is a restore that
  // puts one back over a code still to be redeemed or locked out.
  lemma CodeUnspentExactlyWhen(s: State, t: Step)
    requires CodeSpent(s) && Enabled(s, t)
    ensures !CodeSpent(Apply(s, t)) <==>
              && t.Restore? && t.applied && t.chosen && t.enrolment.Some?
              && EnrolmentToRestore(s, t.enrolment.value).Restorable?
              && !(s.disk.code.Some? && s.disk.code.value.state.Accepted?)
  {
  }

  lemma {:induction false} RunKeepsCodeSpent(s: State, run: seq<Step>)
    requires CodeSpent(s) && Valid(s, run) && RestoreFree(run)
    ensures CodeSpent(Exec(s, run))
    decreases |run|
  {
    if run != [] {
      StepKeepsCodeSpent(s, run[0]);
      RunKeepsCodeSpent(Apply(s, run[0]), run[1..]);
    }
  }

  lemma {:induction false} RunKeepsCodesOnce(s: State, run: seq<Step>)
    requires CodesOnce(s) && Valid(s, run)
    ensures CodesOnce(Exec(s, run))
    decreases |run|
  {
    if run != [] {
      StepKeepsCodesOnce(s, run[0]);
      RunKeepsCodesOnce(Apply(s, run[0]), run[1..]);
    }
  }

  // A daemon just started, over a fresh state directory or an enrolled one.
  ghost predicate Init(s: State) {
    && s.requests == map[] && s.leaves == {} && s.enrolledBy == []
    && s.disk.key == Some(s.memory.key) && s.memory.key < s.keys
    && s.memory.mode == s.disk.enrolment && s.memory.epoch == s.epoch && s.memory.issuer.None?
    && s.disk.code.Some? && s.disk.code.value.number < s.codes && CodeSpent(s)
    && (s.disk.enrolment.None? ==> s.held == {})
    && (s.disk.enrolment.Some? ==>
          var enrolled := s.disk.enrolment.value;
          && s.held == {enrolled.chain.serial} && OursBy(enrolled, enrolled.chain.serial)
          && enrolled.chain.key == s.memory.key)
  }

  // However requests, pairings, reopens, renewals and the rest interleave, an
  // enrolment on disk has spent the code on disk, and no code yields two.
  lemma EnrolmentSpendsItsCode(s: State, run: seq<Step>)
    requires Init(s) && Valid(s, run) && RestoreFree(run)
    ensures CodeSpent(Exec(s, run)) && Distinct(Exec(s, run).enrolledBy)
  {
    RunKeepsCodeSpent(s, run);
    RunKeepsCodesOnce(s, run);
  }

  // --- Revocation is final ---

  ghost predicate RevokedOnDisk(s: State) {
    s.disk.enrolment.Some? && s.disk.enrolment.value.revoked
  }

  // The only steps that take a revocation off the disk: a reopen, which archives it,
  // and a commit whose code is still good.
  lemma OnlyReopenOrRedeemClears(s: State, t: Step)
    requires Enabled(s, t) && RevokedOnDisk(s)
    ensures !RevokedOnDisk(Apply(s, t)) <==>
              t.Reopen? || (t.Commit? && t.promoted && Redeems(s, s.requests[t.r].code)
                            && !s.requests[t.r].enrolled.revoked)
  {
  }

  // And what puts one there: a revocation that is stored, a capture of a revoked
  // enrolment, or a commit of a revoked one, which no check stages.
  lemma RevokeOrRestoreRevokes(s: State, t: Step)
    requires Enabled(s, t) && !RevokedOnDisk(s)
    ensures RevokedOnDisk(Apply(s, t)) <==>
              || (t.Revoke? && t.stored && s.disk.enrolment.Some?)
              || (t.Restore? && t.applied && t.chosen && t.enrolment.Some? && t.enrolment.value.revoked
                  && t.enrolment.value.chain.key == s.memory.key)
              || (t.Commit? && t.promoted && Redeems(s, s.requests[t.r].code) && s.requests[t.r].enrolled.revoked)
  {
  }

  // Restores apart, nothing but a revocation that was stored revokes.
  lemma {:induction false} RevokedOnlyByRevoke(s: State, run: seq<Step>)
    requires Valid(s, run) && RestoreFree(run) && !RevokedOnDisk(s)
    requires forall r :: r in s.requests ==> !s.requests[r].enrolled.revoked
    ensures RevokedOnDisk(Exec(s, run)) ==> Revoke(true) in run
    decreases |run|
  {
    if run != [] && run[0] != Revoke(true) {
      assert run[0] in run;
      var s' := Apply(s, run[0]);
      RevokeOrRestoreRevokes(s, run[0]);
      assert forall r :: r in s'.requests ==> !s'.requests[r].enrolled.revoked;
      RevokedOnlyByRevoke(s', run[1..]);
    }
  }

  lemma {:induction false} RevocationIsFinal(s: State, run: seq<Step>)
    requires Valid(s, run) && RevokedOnDisk(s)
    requires forall t :: t in run ==> !t.Reopen? && !t.Commit?
    ensures RevokedOnDisk(Exec(s, run))
    decreases |run|
  {
    if run != [] {
      OnlyReopenOrRedeemClears(s, run[0]);
      RevocationIsFinal(Apply(s, run[0]), run[1..]);
    }
  }

  // Without restores a commit cannot clear it either.
  lemma {:induction false} RevocationIsFinalUntilReopened(s: State, run: seq<Step>)
    requires CodeSpent(s) && Valid(s, run) && RevokedOnDisk(s) && RestoreFree(run)
    requires forall t :: t in run ==> !t.Reopen?
    ensures RevokedOnDisk(Exec(s, run))
    decreases |run|
  {
    if run != [] {
      OnlyReopenOrRedeemClears(s, run[0]);
      StepKeepsCodeSpent(s, run[0]);
      RevocationIsFinalUntilReopened(Apply(s, run[0]), run[1..]);
    }
  }

  ghost predicate ByOperator(t: Step) {
    t.Renew? || t.Pause? || t.Revoke? || t.Refresh? || t.Sign? || t.Tick?
  }

  // A reopen the daemon has not reloaded is not undone: the operator's changes,
  // checked against the enrolment in memory, find none on disk and change nothing there.
  lemma {:induction false} ReopenIsNotUndone(s: State, run: seq<Step>)
    requires Valid(s, run) && s.disk.enrolment.None?
    requires forall t :: t in run ==> ByOperator(t)
    ensures Exec(s, run).disk == s.disk && Exec(s, run).memory.mode == s.memory.mode
    decreases |run|
  {
    if run != [] {
      assert run[0] in run;
      assert Apply(s, run[0]).disk == s.disk && Apply(s, run[0]).memory.mode == s.memory.mode;
      ReopenIsNotUndone(Apply(s, run[0]), run[1..]);
    }
  }

  // --- Every leaf's issuer is known to its enrolment ---

  // The `issuers` filter of the issued list, leaf revocation and the CRL.
  ghost predicate OursBy(enrolled: Enrolled, serial: nat) {
    enrolled.issuers.None? || serial in enrolled.issuers.value
  }

  ghost predicate Known(s: State) {
    && (s.disk.enrolment.Some? ==>
          && s.disk.enrolment.value.chain.serial in s.held
          && forall serial :: serial in s.held ==> OursBy(s.disk.enrolment.value, serial))
    && s.memory.epoch <= s.epoch
    && (s.memory.epoch == s.epoch ==> s.memory.mode == s.disk.enrolment)
    && (s.memory.issuer.Some? ==> Placed(s, s.memory.issuer.value))
    && (forall leaf :: leaf in s.leaves ==> Placed(s, leaf))
    && (forall r :: r in s.requests ==> OursBy(s.requests[r].enrolled, s.requests[r].enrolled.chain.serial))
  }

  ghost predicate Placed(s: State, issuer: Issuer) {
    issuer.epoch <= s.epoch && (issuer.epoch == s.epoch ==> issuer.serial in s.held)
  }

  lemma CommitKeepsKnown(s: State, r: nat, promoted: bool, serving: bool)
    requires Known(s) && r in s.requests
    ensures Known(RedeemAndStore(s, r, promoted, serving))
  {
  }

  lemma RenewKeepsKnown(s: State, chain: Chain, configOk: bool, stored: bool, serving: bool)
    requires Known(s)
    ensures Known(StoreChain(s, chain, configOk, stored, serving))
  {
  }

  lemma LoadKeepsKnown(s: State, t: Step)
    requires Known(s) && (t.Reload? || t.Restart?) && Enabled(s, t)
    ensures Known(Apply(s, t))
  {
  }

  lemma ReopenKeepsKnown(s: State, done: nat)
    requires Known(s)
    ensures Known(DoReopen(s, done))
  {
  }

  lemma StepKeepsKnown(s: State, t: Step)
    requires Known(s) && Enabled(s, t) && !t.Restore?
    ensures Known(Apply(s, t))
  {
    match t
    case Commit(r, promoted, serving) => CommitKeepsKnown(s, r, promoted, serving);
    case Renew(chain, configOk, stored, serving) => RenewKeepsKnown(s, chain, configOk, stored, serving);
    case Reload(_) => LoadKeepsKnown(s, t);
    case Restart => LoadKeepsKnown(s, t);
    case Reopen(done) => ReopenKeepsKnown(s, done);
    case _ =>
  }

  lemma {:induction false} RunKeepsKnown(s: State, run: seq<Step>)
    requires Known(s) && Valid(s, run) && RestoreFree(run)
    ensures Known(Exec(s, run))
    decreases |run|
  {
    if run != [] {
      StepKeepsKnown(s, run[0]);
      RunKeepsKnown(Apply(s, run[0]), run[1..]);
    }
  }

  // Every leaf signed under any chain this enrolment has held passes its `issuers`
  // filter, whatever renewals, pauses, reloads and restarts came between.
  lemma LeavesStayOurs(s: State, run: seq<Step>, leaf: Issuer)
    requires Init(s) && Valid(s, run) && RestoreFree(run)
    requires leaf in Exec(s, run).leaves && leaf.epoch == Exec(s, run).epoch
    requires Exec(s, run).disk.enrolment.Some?
    ensures OursBy(Exec(s, run).disk.enrolment.value, leaf.serial)
  {
    RunKeepsKnown(s, run);
    assert Placed(Exec(s, run), leaf);
  }

  // --- What a restore does to them ---

  // Whether the enrolment on disk lists the leaves of `serial`.
  ghost predicate Lists(s: State, serial: nat) {
    s.disk.enrolment.Some? && OursBy(s.disk.enrolment.value, serial)
  }

  // A restore that takes effect, and what it puts in place.
  ghost predicate Restores(s: State, t: Step) {
    t.Restore? && t.applied && t.chosen && t.enrolment.Some? && EnrolmentToRestore(s, t.enrolment.value).Restorable?
  }

  // A step takes a serial's leaves out of the list exactly when it archives the enrolment,
  // or puts another, new or restored, in place that does not list them. So a capture from
  // before a renewal orphans the leaves signed since.
  lemma OrphansExactlyWhen(s: State, t: Step, serial: nat)
    requires Enabled(s, t) && Lists(s, serial)
    ensures !Lists(Apply(s, t), serial) <==>
              || t.Reopen?
              || (t.Commit? && t.promoted && Redeems(s, s.requests[t.r].code)
                  && !OursBy(s.requests[t.r].enrolled, serial))
              || (Restores(s, t) && !OursBy(t.enrolment.value, serial))
  {
  }

  ghost predicate Orphaning(s: State, t: Step, serial: nat)
    requires Enabled(s, t)
  {
    Lists(s, serial) && !Lists(Apply(s, t), serial)
  }

  // Over any run, restores included, a serial once listed stays listed until one of those.
  lemma {:induction false} ListedUntilOrphaned(s: State, run: seq<Step>, serial: nat) returns (i: nat)
    requires Valid(s, run) && Lists(s, serial)
    ensures i <= |run| && Valid(s, run[..i]) && Lists(Exec(s, run[..i]), serial)
    ensures i < |run| ==> Enabled(Exec(s, run[..i]), run[i]) && Orphaning(Exec(s, run[..i]), run[i], serial)
    decreases |run|
  {
    if run == [] || Orphaning(s, run[0], serial) {
      i := 0;
      assert run[..0] == [];
    } else {
      var j := ListedUntilOrphaned(Apply(s, run[0]), run[1..], serial);
      i := j + 1;
      assert run[..i][1..] == run[1..][..j];
    }
  }

  // --- The root and the key stay as enrolled ---

  lemma StepKeepsRoot(s: State, t: Step)
    requires Enabled(s, t)
    ensures Apply(s, t).epoch >= s.epoch
    ensures s.disk.enrolment.Some? && Apply(s, t).epoch == s.epoch ==>
              Apply(s, t).disk.enrolment.Some?
              && Apply(s, t).disk.enrolment.value.chain.root == s.disk.enrolment.value.chain.root
  {
    if !t.Renew? && s.disk.enrolment.Some? && Apply(s, t).epoch == s.epoch {
      OthersKeepChain(s, t);
    }
  }

  lemma {:induction false} EpochsRise(s: State, run: seq<Step>)
    requires Valid(s, run)
    ensures Exec(s, run).epoch >= s.epoch
    decreases |run|
  {
    if run != [] {
      StepKeepsRoot(s, run[0]);
      EpochsRise(Apply(s, run[0]), run[1..]);
    }
  }

  // As long as it is the same enrolment, its chain ends in the root it was enrolled with.
  lemma {:induction false} RootStaysEnrolled(s: State, run: seq<Step>)
    requires Valid(s, run) && s.disk.enrolment.Some? && Exec(s, run).epoch == s.epoch
    ensures Exec(s, run).disk.enrolment.Some?
    ensures Exec(s, run).disk.enrolment.value.chain.root == s.disk.enrolment.value.chain.root
    decreases |run|
  {
    if run != [] {
      StepKeepsRoot(s, run[0]);
      EpochsRise(Apply(s, run[0]), run[1..]);
      RootStaysEnrolled(Apply(s, run[0]), run[1..]);
    }
  }

  // The key moves, within one enrolment, exactly by a renewal that passes every check
  // while the daemon holds another key than the stored chain certifies.
  lemma KeyMovesExactlyWhen(s: State, t: Step)
    requires Enabled(s, t) && s.disk.enrolment.Some? && Apply(s, t).epoch == s.epoch
    ensures Apply(s, t).disk.enrolment.Some?
    ensures Apply(s, t).disk.enrolment.value.chain.key != s.disk.enrolment.value.chain.key <==>
              Renews(s, t) && s.memory.key != s.disk.enrolment.value.chain.key
  {
    if !t.Renew? {
      OthersKeepChain(s, t);
    }
  }

  lemma OthersKeepChain(s: State, t: Step)
    requires Enabled(s, t) && s.disk.enrolment.Some? && Apply(s, t).epoch == s.epoch && !t.Renew?
    ensures Apply(s, t).disk.enrolment.Some?
    ensures Apply(s, t).disk.enrolment.value.chain == s.disk.enrolment.value.chain
  {
  }

  // Whether `t` is a renewal that is stored.
  ghost predicate Renews(s: State, t: Step) {
    && t.Renew? && t.configOk && t.stored && s.disk.enrolment.Some? && !s.disk.enrolment.value.revoked
    && CheckChain(s, t.chain) && t.chain.root == s.disk.enrolment.value.chain.root
  }

  // The daemon has taken up the key on disk before it checks an enrolment against
  // it, and no reopen stops half-way.
  ghost predicate Synced(s: State, t: Step) {
    (t.Check? ==> s.disk.key == Some(s.memory.key)) && (t.Reopen? ==> t.done == 3)
  }

  ghost predicate SyncedRun(s: State, run: seq<Step>)
    requires Valid(s, run)
    decreases |run|
  {
    run == [] || (Synced(s, run[0]) && SyncedRun(Apply(s, run[0]), run[1..]))
  }

  ghost predicate Redeemable(s: State, r: nat)
    requires r in s.requests
  {
    Redeems(s, s.requests[r].code)
  }

  ghost predicate KeysAgree(s: State) {
    && (s.disk.enrolment.Some? ==>
          s.disk.key == Some(s.memory.key) && s.disk.enrolment.value.chain.key == s.memory.key)
    && (forall r :: r in s.requests && Redeemable(s, r) ==>
          s.disk.key == Some(s.memory.key) && s.requests[r].enrolled.chain.key == s.memory.key)
    && (forall r :: r in s.requests && s.requests[r].code.Some? ==> s.requests[r].code.value < s.codes)
  }

  lemma CommitKeepsKeysAgree(s: State, r: nat, promoted: bool, serving: bool)
    requires KeysAgree(s) && r in s.requests
    ensures KeysAgree(RedeemAndStore(s, r, promoted, serving))
  {
    var s' := RedeemAndStore(s, r, promoted, serving);
    assert Redeems(s, s.requests[r].code) == Redeemable(s, r);
    forall q | q in s'.requests && Redeemable(s', q)
      ensures Redeemable(s, q)
    {
    }
  }

  lemma LoadKeepsKeysAgree(s: State, t: Step)
    requires KeysAgree(s) && (t.Reload? || t.Restart? || t.Reopen? || t.Pair?) && Enabled(s, t) && Synced(s, t)
    ensures KeysAgree(Apply(s, t))
  {
    var s' := Apply(s, t);
    forall r | r in s'.requests && Redeemable(s', r)
      ensures (t.Reload? || s' == s) && Redeemable(s, r)
    {
    }
  }

  lemma StepKeepsKeysAgree(s: State, t: Step)
    requires KeysAgree(s) && Enabled(s, t) && Synced(s, t) && !t.Restore?
    ensures KeysAgree(Apply(s, t))
  {
    if t.Commit? {
      CommitKeepsKeysAgree(s, t.r, t.promoted, t.serving);
    } else if t.Reload? || t.Restart? || t.Reopen? || t.Pair? {
      LoadKeepsKeysAgree(s, t);
    } else {
      var s' := Apply(s, t);
      forall r | r in s'.requests && r in s.requests
        ensures Redeemable(s', r) == Redeemable(s, r) && s'.requests[r] == s.requests[r]
      {
      }
    }
  }

  lemma {:induction false} RunKeepsKeysAgree(s: State, run: seq<Step>)
    requires KeysAgree(s) && Valid(s, run) && SyncedRun(s, run) && RestoreFree(run)
    ensures KeysAgree(Exec(s, run))
    decreases |run|
  {
    if run != [] {
      StepKeepsKeysAgree(s, run[0]);
      RunKeepsKeysAgree(Apply(s, run[0]), run[1..]);
    }
  }

  // Then the enrolment on disk always certifies the subordinate key on disk.
  lemma EnrolmentCertifiesTheKey(s: State, run: seq<Step>)
    requires Init(s) && Valid(s, run) && SyncedRun(s, run) && RestoreFree(run)
    requires Exec(s, run).disk.enrolment.Some?
    ensures Exec(s, run).disk.key == Some(Exec(s, run).disk.enrolment.value.chain.key)
  {
    RunKeepsKeysAgree(s, run);
  }

  lemma {:induction false} KeyKept(s: State, run: seq<Step>)
    requires KeysAgree(s) && Valid(s, run) && SyncedRun(s, run) && RestoreFree(run)
    requires s.disk.enrolment.Some? && Exec(s, run).epoch == s.epoch
    ensures Exec(s, run).disk.enrolment.Some?
    ensures Exec(s, run).disk.enrolment.value.chain.key == s.disk.enrolment.value.chain.key
    decreases |run|
  {
    if run != [] {
      StepKeepsRoot(s, run[0]);
      EpochsRise(Apply(s, run[0]), run[1..]);
      KeyMovesExactlyWhen(s, run[0]);
      StepKeepsKeysAgree(s, run[0]);
      KeyKept(Apply(s, run[0]), run[1..]);
    }
  }

  // And as long as it is the same enrolment the key is the one it was enrolled with, so
  // every leaf and CRL of it is under one key.
  lemma KeyStaysEnrolled(s: State, before: seq<Step>, after: seq<Step>)
    requires Init(s) && Valid(s, before) && SyncedRun(s, before) && RestoreFree(before)
    requires Valid(Exec(s, before), after) && SyncedRun(Exec(s, before), after) && RestoreFree(after)
    requires Exec(s, before).disk.enrolment.Some?
    requires Exec(Exec(s, before), after).epoch == Exec(s, before).epoch
    ensures Exec(Exec(s, before), after).disk.enrolment.Some?
    ensures Exec(Exec(s, before), after).disk.enrolment.value.chain.key
         == Exec(s, before).disk.enrolment.value.chain.key
  {
    RunKeepsKeysAgree(s, before);
    KeyKept(Exec(s, before), after);
  }

  // --- What the conditions leave out happens ---

  // The enrolment on disk comes to certify another key than the one on disk exactly by a
  // commit of a chain for another key, or a renewal while the daemon holds another key:
  // the comparison with the key on disk that neither makes under the lock.
  lemma WrongKeyExactlyWhen(s: State, t: Step)
    requires Enabled(s, t) && !t.Restore? && !WrongKey(s)
    ensures WrongKey(Apply(s, t)) <==>
              || (t.Commit? && t.promoted && Redeems(s, s.requests[t.r].code)
                  && s.disk.key != Some(s.requests[t.r].enrolled.chain.key))
              || (Renews(s, t) && s.disk.key != Some(s.memory.key))
  {
  }

  const FRESH := State(0, Disk(Some(0), None, Some(Code(0, Pending(ATTEMPTS)))), Memory(0, None, 0, None),
                       map[], 1, 1, 0, {}, [], {})
  const CHAIN := Chain(0, 100, 7, true, 1000)

  ghost predicate WrongKey(s: State) {
    s.disk.enrolment.Some? && s.disk.key != Some(s.disk.enrolment.value.chain.key)
  }

  lemma Run1(s: State, a: Step)
    requires Enabled(s, a)
    ensures Valid(s, [a]) && Exec(s, [a]) == Apply(s, a)
  {
    var run := [a];
    assert run[1..] == [];
    assert Valid(Apply(s, a), run[1..]) && Exec(Apply(s, a), run[1..]) == Apply(s, a);
  }

  lemma Run2(s: State, a: Step, b: Step)
    requires Enabled(s, a) && Enabled(Apply(s, a), b)
    ensures Valid(s, [a, b]) && Exec(s, [a, b]) == Apply(Apply(s, a), b)
  {
    assert [a, b][1..] == [b];
    Run1(Apply(s, a), b);
  }

  lemma Run3(s: State, a: Step, b: Step, c: Step)
    requires Enabled(s, a) && Enabled(Apply(s, a), b) && Enabled(Apply(Apply(s, a), b), c)
    ensures Valid(s, [a, b, c]) && Exec(s, [a, b, c]) == Apply(Apply(Apply(s, a), b), c)
  {
    assert [a, b, c][1..] == [b, c];
    Run2(Apply(s, a), b, c);
  }

  // A broker reopened before it was ever enrolled still offers its old CSR until it
  // reloads, and commits a chain for the key that was deleted.
  lemma ReopenBeforeReloadEnrolsDeletedKey()
    ensures Init(FRESH)
    ensures exists run :: Valid(FRESH, run) && RestoreFree(run) && WrongKey(Exec(FRESH, run))
  {
    var a, b, c := Reopen(3), Check(0, Some(1), CHAIN, true), Commit(0, true, true);
    Run3(FRESH, a, b, c);
    assert WrongKey(Exec(FRESH, [a, b, c]));
  }

  // So does one whose reopen failed after making the key and before issuing a code.
  lemma HalfReopenEnrolsDeletedKey()
    ensures exists run: seq<Step> :: Valid(FRESH, run) && RestoreFree(run) && WrongKey(Exec(FRESH, run))
                                     && |run| > 0 && run[0].Check? && Synced(FRESH, run[0])
  {
    var a, b, c := Check(0, Some(0), CHAIN, true), Reopen(2), Commit(0, true, true);
    Run3(FRESH, a, b, c);
    assert WrongKey(Exec(FRESH, [a, b, c]));
  }

  // A request checked before a reopen that stopped at deleting the key still commits; the
  // reload then makes a key, and a renewal moves the enrolment to it.
  lemma RenewalMovesKey() returns (enrolled: State, run: seq<Step>)
    ensures Init(FRESH) && Valid(FRESH, run) && RestoreFree(run)
    ensures |run| > 3 && Valid(FRESH, run[..3]) && enrolled == Exec(FRESH, run[..3])
    ensures enrolled.disk.enrolment.Some? && Exec(FRESH, run).disk.enrolment.Some?
    ensures Exec(FRESH, run).epoch == enrolled.epoch
    ensures Exec(FRESH, run).disk.enrolment.value.chain.key != enrolled.disk.enrolment.value.chain.key
  {
    var a, b, c := Check(0, Some(0), CHAIN, true), Reopen(1), Commit(0, true, true);
    var d, e := Reload(true), Renew(Chain(1, 101, 7, true, 1000), true, true, true);
    Run3(FRESH, a, b, c);
    enrolled := Exec(FRESH, [a, b, c]);
    Run2(enrolled, d, e);
    run := [a, b, c] + [d, e];
    assert run[..3] == [a, b, c];
    RunConcat(FRESH, [a, b, c], [d, e]);
  }

  // A capture taken before a renewal and restored after it orphans the leaf signed between.
  lemma RestoreOrphansLeaf()
    ensures Init(RENEWABLE)
    ensures exists run :: Valid(RENEWABLE, run) && Issuer(101, 0) in Exec(RENEWABLE, run).leaves
                          && Exec(RENEWABLE, run).disk.enrolment.Some? && !Lists(Exec(RENEWABLE, run), 101)
  {
    var a, b, c := Renew(CHAIN.(serial := 101), true, true, true), Sign, Restore(Some(FIRST), true, true, true);
    SignedAfterRenewal();
    SignedThenRestored();
    Run3(RENEWABLE, a, b, c);
    assert !Lists(Exec(RENEWABLE, [a, b, c]), 101);
  }

  lemma SignedAfterRenewal()
    ensures Apply(RENEWABLE, Renew(CHAIN.(serial := 101), true, true, true)) == SIGNED.(leaves := {})
    ensures Enabled(SIGNED.(leaves := {}), Sign) && Apply(SIGNED.(leaves := {}), Sign) == SIGNED
  {
    assert [100] + [101] == [100, 101] && {100} + {101} == {100, 101};
    assert Renewed(FIRST, CHAIN.(serial := 101)) == SECOND;
  }

  lemma SignedThenRestored()
    ensures var e := Apply(SIGNED, Restore(Some(FIRST), true, true, true));
      e.disk.enrolment == Some(FIRST) && e.leaves == SIGNED.leaves
  {
    assert EnrolmentToRestore(SIGNED, FIRST) == Restorable(FIRST);
  }

  const FIRST := Enrolled(CHAIN, false, false, Some([100]))
  const SECOND := Enrolled(CHAIN.(serial := 101), false, false, Some([100, 101]))
  const SIGNED := State(0, Disk(Some(0), Some(SECOND), Some(Code(0, Accepted))),
                        Memory(0, Some(SECOND), 0, Some(Issuer(101, 0))),
                        map[], 1, 1, 0, {100, 101}, [], {Issuer(101, 0)})
  const RENEWABLE := State(0, Disk(Some(0), Some(FIRST), Some(Code(0, Accepted))), Memory(0, Some(FIRST), 0, None),
                           map[], 1, 1, 0, {100}, [], {})

  lemma {:induction false} RunConcat(s: State, a: seq<Step>, b: seq<Step>)
    requires Valid(s, a) && Valid(Exec(s, a), b)
    ensures Valid(s, a + b) && Exec(s, a + b) == Exec(Exec(s, a), b)
    decreases |a|
  {
    if a == [] {
      assert a + b == b;
    } else {
      assert (a + b)[1..] == a[1..] + b;
      RunConcat(Apply(s, a[0]), a[1..], b);
    }
  }

  // A restore leaves the pairing code pending, so a request checked before it can
  // still commit and clear a revocation the restore brought.
  lemma RestoreLeavesCodePending()
    ensures exists a: Step, b: Step, c: Step ::
              && Valid(FRESH, [a, b]) && RevokedOnDisk(Exec(FRESH, [a, b])) && !CodeSpent(Exec(FRESH, [a, b]))
              && Valid(FRESH, [a, b, c]) && !RevokedOnDisk(Exec(FRESH, [a, b, c]))
  {
    var revoked := Enrolled(CHAIN, true, false, Some([100]));
    var a, b, c := Check(0, Some(0), CHAIN, true), Restore(Some(revoked), true, true, true), Commit(0, true, true);
    Run3(FRESH, a, b, c);
    var s := Apply(Apply(FRESH, a), b);
    assert EnrolmentToRestore(Apply(FRESH, a), revoked) == Restorable(revoked);
    assert s.disk == FRESH.disk.(enrolment := Some(revoked));
    Run2(FRESH, a, b);
    assert RevokedOnDisk(s) && !CodeSpent(s);
  }
}
