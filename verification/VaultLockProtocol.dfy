// Any number of `VaultLock` instances contending for one vault, every call to
// the server a step of its own and every interleaving of them allowed. The
// server stamps each note later than all before it and shows a created note to
// every later list; the clock is shared and never runs backwards.
module VaultLockProtocol {
  import opened Wrappers
  import opened VaultNotes
  import VaultLock

  // `ended` from the moment a release starts: its delete comes before `held = None`.
  datatype Held = Held(id: nat, since: int, ttl: nat, ended: bool)

  // Where an instance is in a call to `acquire` or `release`.
  datatype Call =
    | Idle
    | Creating(acquiredAt: int, ttl: nat)
    | Listing(mine: nat)
    | Reading(mine: nat, pending: seq<nat>, rivals: seq<Note>)
    | Judging(mine: nat, ahead: seq<Note>)
    | Breaking(mine: nat, ahead: seq<Note>) // the first of `ahead` was found stale
    | Withdrawing(mine: nat)
    | Releasing

  datatype Instance = Instance(held: Option<Held>, call: Call)

  // `made` is every note there has ever been, `vault` those not yet deleted.
  datatype State = State(clock: int, stamp: int, made: map<nat, Note>, vault: set<nat>, instances: map<nat, Instance>)

  datatype Action =
    | Crash
    | Begin(ttl: nat)
    | Create(id: nat, stamp: int, reported: bool)
    | List(order: seq<nat>)
    | Read
    | Order
    | Judge
    | Break
    | Fail(gone: bool) // a call to the vault failed, its delete perhaps done
    | Hold
    | Withdraw(gone: bool)
    | Release
    | Released(gone: bool, ok: bool)

  datatype Step = Tick(nanos: nat) | Join(i: nat) | Act(i: nat, action: Action)

  ghost predicate Enabled(s: State, t: Step) {
    match t
    case Tick(_) => true
    case Join(i) => i !in s.instances
    case Act(i, action) => i in s.instances && Can(s, s.instances[i].held, s.instances[i].call, action)
  }

  ghost predicate Can(s: State, held: Option<Held>, call: Call, action: Action) {
    match action
    case Crash => true
    case Begin(ttl) => call.Idle? && ttl < TWO_64
    case Create(id, stamp, _) => call.Creating? && id !in s.made && stamp > s.stamp
    case List(order) => call.Listing? && forall id :: id in order <==> id in s.vault && id != call.mine
    case Read => call.Reading? && call.pending != [] && call.pending[0] in s.made
    case Order => call.Reading? && call.pending == [] && call.mine in s.made
    case Judge => call.Judging? && call.ahead != []
    case Break => call.Breaking? && call.ahead != []
    case Fail(_) => call.Creating? || call.Listing? || call.Reading? || (call.Breaking? && call.ahead != [])
    case Hold => call.Judging? && call.ahead == [] && call.mine in s.made && s.made[call.mine].ttl.Seconds?
    case Withdraw(_) => call.Withdrawing?
    case Release => call.Idle? && held.Some?
    case Released(gone, ok) => call.Releasing? && held.Some? && (ok ==> gone)
  }

  function Now(s: State, i: nat, held: Option<Held>, call: Call): State {
    s.(instances := s.instances[i := Instance(held, call)])
  }

  function Without(s: State, id: nat, gone: bool): State {
    if gone then s.(vault := s.vault - {id}) else s
  }

  function Apply(s: State, t: Step): State
    requires Enabled(s, t)
  {
    match t
    case Tick(nanos) => s.(clock := s.clock + nanos)
    case Join(i) => Now(s, i, None, Idle)
    case Act(i, action) => Do(s, i, s.instances[i].held, s.instances[i].call, action)
  }

  function Do(s: State, i: nat, held: Option<Held>, call: Call, action: Action): State
    requires Can(s, held, call, action)
  {
    match action
    case Crash => s.(instances := s.instances - {i})
    case Begin(ttl) => Now(s, i, held, Creating(s.clock / SECOND, ttl))
    case Create(id, stamp, reported) =>
      var note := Note(id, Some(stamp), Some(call.acquiredAt), Seconds(call.ttl));
      Now(s, i, held, if reported then Listing(id) else Idle)
        .(stamp := stamp, made := s.made[id := note], vault := s.vault + {id})
    case List(order) => Now(s, i, held, Reading(call.mine, order, []))
    case Read =>
      var id := call.pending[0];
      var rivals := if id in s.vault then call.rivals + [s.made[id]] else call.rivals;
      Now(s, i, held, Reading(call.mine, call.pending[1..], rivals))
    case Order => Now(s, i, held, Judging(call.mine, Ahead(s.made[call.mine], call.rivals)))
    case Judge =>
      Now(s, i, held, if Stale(call.ahead[0], s.clock) then Breaking(call.mine, call.ahead) else Withdrawing(call.mine))
    case Break => Without(Now(s, i, held, Judging(call.mine, call.ahead[1..])), call.ahead[0].id, true)
    case Fail(gone) =>
      if call.Creating? then Now(s, i, held, Idle)
      else if call.Breaking? then Without(Now(s, i, held, Withdrawing(call.mine)), call.ahead[0].id, gone)
      else Now(s, i, held, Withdrawing(call.mine))
    case Hold => Now(s, i, Some(Held(call.mine, s.clock, s.made[call.mine].ttl.n, false)), Idle)
    case Withdraw(gone) => Without(Now(s, i, held, Idle), call.mine, gone)
    case Release => Now(s, i, Some(held.value.(ended := true)), Releasing)
    case Released(gone, ok) => Without(Now(s, i, if ok then None else held, Idle), held.value.id, gone)
  }

  // Any notes may be there at the start, none of them an instance's.
  ghost predicate Init(s: State) {
    && s.instances == map[]
    && s.vault <= s.made.Keys
    && NotesStamped(s)
  }

  ghost predicate Valid(s: State, run: seq<Step>)
    decreases |run|
  {
    run == [] || (Enabled(s, run[0]) && Valid(Apply(s, run[0]), run[1..]))
  }

  function Exec(s: State, run: seq<Step>): State
    requires Valid(s, run)
    decreases |run|
  {
    if run == [] then s else Exec(Apply(s, run[0]), run[1..])
  }

  // --- What every step keeps ---

  ghost predicate NotesStamped(s: State) {
    && (forall id :: id in s.made ==>
          s.made[id].id == id && s.made[id].created.Some? && s.made[id].created.value <= s.stamp)
    && (forall a, b :: a in s.made && b in s.made && a != b ==> s.made[a].created != s.made[b].created)
  }

  // An instance owns the note it holds and the one it is contesting with.
  datatype Slot = OfHeld | OfCall

  ghost predicate HasMine(call: Call) {
    !call.Idle? && !call.Creating? && !call.Releasing?
  }

  ghost function Own(s: State, i: nat, slot: Slot): Option<nat> {
    if i !in s.instances then None
    else if slot.OfHeld? then
      if s.instances[i].held.Some? then Some(s.instances[i].held.value.id) else None
    else if HasMine(s.instances[i].call) then Some(s.instances[i].call.mine) else None
  }

  // It claims them until it withdraws or starts to release.
  ghost function Claim(s: State, i: nat, slot: Slot): Option<nat> {
    if i !in s.instances then None
    else if slot.OfHeld? then
      if s.instances[i].held.Some? && !s.instances[i].held.value.ended then Own(s, i, slot) else None
    else if s.instances[i].call.Withdrawing? then None
    else Own(s, i, slot)
  }

  ghost predicate Real(s: State, notes: seq<Note>) {
    forall n :: n in notes ==> n.id in s.made && s.made[n.id] == n
  }

  ghost predicate CallFormed(s: State, i: nat)
    requires i in s.instances
  {
    match s.instances[i].call
    case Reading(_, pending, rivals) => (forall id :: id in pending ==> id in s.made) && Real(s, rivals)
    case Judging(_, ahead) => Real(s, ahead)
    case Breaking(_, ahead) => Real(s, ahead) && ahead != []
    case Releasing => s.instances[i].held.Some? && s.instances[i].held.value.ended
    case _ => true
  }

  ghost predicate Formed(s: State) {
    && s.vault <= s.made.Keys
    && NotesStamped(s)
    && (forall i :: i in s.instances ==> CallFormed(s, i))
    && (forall i, slot :: Own(s, i, slot).Some? ==>
          Own(s, i, slot).value in s.made && s.made[Own(s, i, slot).value].ttl.Seconds?
          && s.made[Own(s, i, slot).value].ttl.n < TWO_64
          && s.made[Own(s, i, slot).value].acquiredAt.Some?)
    && (forall i, a, j, b :: Own(s, i, a).Some? && Own(s, i, a) == Own(s, j, b) ==> i == j && a == b)
    && (forall i :: i in s.instances && s.instances[i].call.Creating? ==> s.instances[i].call.ttl < TWO_64)
  }

  ghost predicate Older(s: State, a: nat, b: nat) {
    a in s.made && b in s.made && s.made[a].created.Some? && s.made[b].created.Some?
    && s.made[a].created.value < s.made[b].created.value
  }

  ghost predicate Expired(s: State, id: nat) {
    id in s.made && Stale(s.made[id], s.clock)
  }

  // Nobody deletes a claimed note before it is stale.
  ghost predicate Kept(s: State) {
    forall j, slot :: Claim(s, j, slot).Some? ==>
      Claim(s, j, slot).value in s.vault || Expired(s, Claim(s, j, slot).value)
  }

  // The notes an instance that has listed still has to deal with.
  ghost predicate Faces(s: State, i: nat, id: nat)
    requires i in s.instances && id in s.made
  {
    match s.instances[i].call
    case Reading(_, pending, rivals) => id in pending || s.made[id] in rivals
    case Judging(_, ahead) => s.made[id] in ahead
    case Breaking(_, ahead) => s.made[id] in ahead
    case _ => true
  }

  // They include every older claim that is not stale.
  ghost predicate Watches(s: State, i: nat)
    requires i in s.instances
  {
    var call := s.instances[i].call;
    && (call.Breaking? ==> call.ahead != [] && Stale(call.ahead[0], s.clock))
    && (HasMine(call) ==>
          forall j, slot :: Claim(s, j, slot).Some? && Older(s, Claim(s, j, slot).value, call.mine) ==>
            Faces(s, i, Claim(s, j, slot).value) || Expired(s, Claim(s, j, slot).value))
  }

  // A holder has outlived every older claim.
  ghost predicate Outlived(s: State, i: nat) {
    Claim(s, i, OfHeld).Some? ==>
      forall j, slot :: Claim(s, j, slot).Some? && Older(s, Claim(s, j, slot).value, Claim(s, i, OfHeld).value) ==>
        Expired(s, Claim(s, j, slot).value)
  }

  ghost predicate Inv(s: State) {
    && Formed(s)
    && Kept(s)
    && (forall i :: i in s.instances ==> Watches(s, i))
    && (forall i :: Outlived(s, i))
  }

  // --- Proofs ---

  lemma TickKeeps(s: State, nanos: nat)
    requires Inv(s)
    ensures Inv(Apply(s, Tick(nanos)))
  {
    var s' := Apply(s, Tick(nanos));
    forall note: Note | Stale(note, s.clock)
      ensures Stale(note, s'.clock)
    {
      StaleForEver(note, s.clock, s'.clock);
    }
    assert forall id :: Expired(s, id) ==> Expired(s', id);
    assert forall i, slot :: Own(s', i, slot) == Own(s, i, slot) && Claim(s', i, slot) == Claim(s, i, slot);
    forall i | i in s'.instances
      ensures CallFormed(s', i) && Watches(s', i)
    {
      assert CallFormed(s, i) && Watches(s, i);
    }
    forall i
      ensures Outlived(s', i)
    {
      assert Outlived(s, i);
    }
  }

  // A step that only gives claims up, and deletes only what is stale or no longer
  // claimed, keeps everything but what it must show of the instance that took it.
  lemma LessKeeps(s: State, s': State, i: nat)
    requires Inv(s)
    requires s'.clock == s.clock && s'.stamp == s.stamp && s'.made == s.made && s'.vault <= s.vault
    requires s'.instances - {i} == s.instances - {i}
    requires forall slot :: Own(s', i, slot).Some? ==> Own(s', i, slot) == Own(s, i, slot)
    requires forall slot :: Claim(s', i, slot).Some? ==> Claim(s', i, slot) == Claim(s, i, slot)
    requires forall id :: id in s.vault - s'.vault ==>
      Expired(s, id) || forall j, slot :: Claim(s', j, slot) != Some(id)
    requires i in s'.instances ==> CallFormed(s', i) && Watches(s', i)
    requires i in s'.instances && s'.instances[i].call.Creating? ==> s'.instances[i].call.ttl < TWO_64
    ensures Inv(s')
  {
    Elsewhere(s, s', i);
    assert forall id :: Expired(s', id) == Expired(s, id);
    forall j | j in s'.instances && j != i
      ensures CallFormed(s', j) && Watches(s', j)
    {
      assert CallFormed(s, j) && Watches(s, j);
    }
    forall j
      ensures Outlived(s', j)
    {
      assert Outlived(s, j);
    }
  }

  lemma Elsewhere(s: State, s': State, i: nat)
    requires s'.instances - {i} == s.instances - {i}
    ensures forall j :: j != i ==> (j in s'.instances <==> j in s.instances)
    ensures forall j :: j != i && j in s.instances ==> s'.instances[j] == s.instances[j]
    ensures forall j, slot :: j != i ==> Own(s', j, slot) == Own(s, j, slot)
    ensures forall j, slot :: j != i ==> Claim(s', j, slot) == Claim(s, j, slot)
  {
    forall j | j != i
      ensures j in s'.instances <==> j in s.instances
      ensures j in s.instances ==> s'.instances[j] == s.instances[j]
    {
      assert j in s'.instances - {i} <==> j in s.instances - {i};
    }
  }

  lemma JoinKeeps(s: State, i: nat)
    requires Inv(s) && Enabled(s, Join(i))
    ensures Inv(Apply(s, Join(i)))
  {
    LessKeeps(s, Apply(s, Join(i)), i);
  }

  lemma CreateForms(s: State, i: nat, action: Action)
    requires Formed(s) && Enabled(s, Act(i, action)) && action.Create?
    ensures Formed(Apply(s, Act(i, action)))
  {
    var s' := Apply(s, Act(i, action));
    Elsewhere(s, s', i);
    CreateFormsCalls(s, i, action);
    assert forall slot :: Own(s', i, slot) == Own(s, i, slot) || Own(s', i, slot) == Some(action.id);
  }

  lemma CreateFormsCalls(s: State, i: nat, action: Action)
    requires Formed(s) && Enabled(s, Act(i, action)) && action.Create?
    ensures
      var s' := Apply(s, Act(i, action));
      && NotesStamped(s') && s'.vault <= s'.made.Keys
      && forall j :: j in s'.instances ==> CallFormed(s', j)
  {
    var s' := Apply(s, Act(i, action));
    forall j | j in s'.instances
      ensures CallFormed(s', j)
    {
      assert CallFormed(s, j);
    }
  }

  lemma CreateKeeps(s: State, i: nat, action: Action)
    requires Inv(s) && Enabled(s, Act(i, action)) && action.Create?
    ensures Inv(Apply(s, Act(i, action)))
  {
    var s' := Apply(s, Act(i, action));
    CreateForms(s, i, action);
    CreateClaims(s, i, action);
    CreateWatches(s, i, action);
    forall j
      ensures Outlived(s', j)
    {
      assert Outlived(s, j);
    }
  }

  // The only claim it adds is of the note it makes.
  lemma CreateClaims(s: State, i: nat, action: Action)
    requires Inv(s) && Enabled(s, Act(i, action)) && action.Create?
    ensures
      var s' := Apply(s, Act(i, action));
      && (forall id :: Expired(s, id) ==> Expired(s', id))
      && (forall j, slot :: Claim(s', j, slot) == Claim(s, j, slot) || Claim(s', j, slot) == Some(action.id))
      && (forall j :: Claim(s', j, OfHeld) == Claim(s, j, OfHeld))
  {
    var s' := Apply(s, Act(i, action));
    Elsewhere(s, s', i);
  }

  lemma CreateWatches(s: State, i: nat, action: Action)
    requires Inv(s) && Enabled(s, Act(i, action)) && action.Create?
    ensures
      var s' := Apply(s, Act(i, action));
      forall j :: j in s'.instances ==> Watches(s', j)
  {
    var s' := Apply(s, Act(i, action));
    Elsewhere(s, s', i);
    CreateClaims(s, i, action);
    forall j | j in s'.instances
      ensures Watches(s', j)
    {
      assert Watches(s, j);
      assert j != i && HasMine(s.instances[j].call) ==> Own(s, j, OfCall) == Some(s.instances[j].call.mine);
    }
  }

  lemma HoldKeeps(s: State, i: nat)
    requires Inv(s) && Enabled(s, Act(i, Hold))
    ensures Inv(Apply(s, Act(i, Hold)))
  {
    var s' := Apply(s, Act(i, Hold));
    HoldForms(s, i);
    HoldClaims(s, i);
    HoldOutlives(s, i);
    forall j | j in s'.instances
      ensures Watches(s', j)
    {
      Elsewhere(s, s', i);
      assert Watches(s, j);
    }
  }

  // The claim of the call becomes that of the holder.
  lemma HoldClaims(s: State, i: nat)
    requires Inv(s) && Enabled(s, Act(i, Hold))
    ensures
      var s' := Apply(s, Act(i, Hold));
      && Claim(s', i, OfHeld) == Claim(s, i, OfCall) && Claim(s', i, OfCall) == None
      && (forall j, slot :: j != i ==> Claim(s', j, slot) == Claim(s, j, slot))
      && (forall id :: Expired(s', id) == Expired(s, id))
  {
    Elsewhere(s, Apply(s, Act(i, Hold)), i);
  }

  lemma HoldOutlives(s: State, i: nat)
    requires Inv(s) && Enabled(s, Act(i, Hold))
    ensures
      var s' := Apply(s, Act(i, Hold));
      forall j :: Outlived(s', j)
  {
    var s' := Apply(s, Act(i, Hold));
    HoldClaims(s, i);
    assert Watches(s, i);
    forall j
      ensures Outlived(s', j)
    {
      assert Outlived(s, j);
    }
  }

  lemma HoldForms(s: State, i: nat)
    requires Inv(s) && Enabled(s, Act(i, Hold))
    ensures Formed(Apply(s, Act(i, Hold)))
  {
    var s' := Apply(s, Act(i, Hold));
    Elsewhere(s, s', i);
    assert Own(s', i, OfHeld) == Own(s, i, OfCall);
    forall j | j in s'.instances
      ensures CallFormed(s', j)
    {
      assert CallFormed(s, j);
    }
  }

  lemma OrderKeeps(s: State, i: nat)
    requires Inv(s) && Enabled(s, Act(i, Order))
    ensures Inv(Apply(s, Act(i, Order)))
  {
    var s' := Apply(s, Act(i, Order));
    var call := s.instances[i].call;
    AheadIsEveryoneAhead(s.made[call.mine], call.rivals);
    assert CallFormed(s, i) && Watches(s, i);
    Elsewhere(s, s', i);
    LessKeeps(s, s', i);
  }

  lemma ActKeeps(s: State, i: nat, action: Action)
    requires Inv(s) && Enabled(s, Act(i, action))
    requires !action.Create? && !action.Hold? && !action.Order?
    ensures Inv(Apply(s, Act(i, action)))
  {
    ActsWell(s, i, action);
    ActWatches(s, i, action);
    DeletesWell(s, i, action);
    LessKeeps(s, Apply(s, Act(i, action)), i);
  }

  // Such an action takes no new claim and leaves its own call in form.
  lemma ActsWell(s: State, i: nat, action: Action)
    requires Inv(s) && Enabled(s, Act(i, action))
    requires !action.Create? && !action.Hold? && !action.Order?
    ensures
      var s' := Apply(s, Act(i, action));
      && s'.clock == s.clock && s'.stamp == s.stamp && s'.made == s.made && s'.vault <= s.vault
      && s'.instances - {i} == s.instances - {i}
      && (forall slot :: Own(s', i, slot).Some? ==> Own(s', i, slot) == Own(s, i, slot))
      && (forall slot :: Claim(s', i, slot).Some? ==> Claim(s', i, slot) == Claim(s, i, slot))
      && (i in s'.instances ==> CallFormed(s', i))
      && (i in s'.instances && s'.instances[i].call.Creating? ==> s'.instances[i].call.ttl < TWO_64)
  {
    assert CallFormed(s, i);
  }

  lemma ActWatches(s: State, i: nat, action: Action)
    requires Inv(s) && Enabled(s, Act(i, action))
    requires !action.Create? && !action.Hold? && !action.Order?
    ensures
      var s' := Apply(s, Act(i, action));
      i in s'.instances ==> Watches(s', i)
  {
    assert CallFormed(s, i) && Watches(s, i);
    ActClaims(s, i, action);
    DeletesWell(s, i, action);
    if action.Break? {
      var ahead := s.instances[i].call.ahead;
      assert ahead == [ahead[0]] + ahead[1..];
    }
  }

  // No claim changes hands, and nothing turns stale.
  lemma ActClaims(s: State, i: nat, action: Action)
    requires Inv(s) && Enabled(s, Act(i, action))
    requires !action.Create? && !action.Hold? && !action.Order?
    ensures
      var s' := Apply(s, Act(i, action));
      && s'.made == s.made && s'.clock == s.clock
      && (forall j, slot :: Claim(s', j, slot).Some? ==> Claim(s', j, slot) == Claim(s, j, slot))
      && (forall id :: Expired(s', id) == Expired(s, id))
  {
    ActsWell(s, i, action);
    Elsewhere(s, Apply(s, Act(i, action)), i);
  }

  // A breaker deletes a stale note, a loser or releaser one it no longer claims.
  lemma DeletesWell(s: State, i: nat, action: Action)
    requires Inv(s) && Enabled(s, Act(i, action))
    requires !action.Create? && !action.Hold?
    ensures
      var s' := Apply(s, Act(i, action));
      forall id :: id in s.vault - s'.vault ==> Expired(s, id) || forall j, slot :: Claim(s', j, slot) != Some(id)
  {
    var s' := Apply(s, Act(i, action));
    if action.Break? || action.Fail? {
      BreaksStale(s, i, action);
    } else if action.Withdraw? || action.Released? {
      DeletesOwn(s, i, action);
    } else {
      assert s'.vault == s.vault;
    }
  }

  lemma BreaksStale(s: State, i: nat, action: Action)
    requires Inv(s) && Enabled(s, Act(i, action)) && (action.Break? || action.Fail?)
    ensures forall id :: id in s.vault - Apply(s, Act(i, action)).vault ==> Expired(s, id)
  {
    var call := s.instances[i].call;
    assert CallFormed(s, i) && Watches(s, i);
    if call.Breaking? {
      assert call.ahead[0] in call.ahead;
    }
  }

  lemma DeletesOwn(s: State, i: nat, action: Action)
    requires Inv(s) && Enabled(s, Act(i, action)) && (action.Withdraw? || action.Released?)
    ensures
      var s' := Apply(s, Act(i, action));
      forall id, j, slot :: id in s.vault - s'.vault ==> Claim(s', j, slot) != Some(id)
  {
    var s' := Apply(s, Act(i, action));
    var Instance(held, call) := s.instances[i];
    assert CallFormed(s, i);
    Elsewhere(s, s', i);
    assert forall j, slot :: Claim(s', j, slot).Some? ==> Own(s, j, slot) == Claim(s', j, slot);
    if action.Withdraw? {
      assert Own(s, i, OfCall) == Some(call.mine);
    } else {
      assert Own(s, i, OfHeld) == Some(held.value.id);
    }
  }

  lemma StepKeeps(s: State, t: Step)
    requires Inv(s) && Enabled(s, t)
    ensures Inv(Apply(s, t))
  {
    match t
    case Tick(nanos) => TickKeeps(s, nanos);
    case Join(i) => JoinKeeps(s, i);
    case Act(i, action) =>
      if action.Create? {
        CreateKeeps(s, i, action);
      } else if action.Hold? {
        HoldKeeps(s, i);
      } else if action.Order? {
        OrderKeeps(s, i);
      } else {
        ActKeeps(s, i, action);
      }
  }

  lemma {:induction false} RunKeeps(s: State, run: seq<Step>)
    requires Inv(s) && Valid(s, run)
    ensures Inv(Exec(s, run))
    decreases |run|
  {
    if run != [] {
      StepKeeps(s, run[0]);
      RunKeeps(Apply(s, run[0]), run[1..]);
    }
  }

  // --- The theorems ---

  // `i` holds the lock, has not begun to release it, and its note is within its TTL.
  ghost predicate HoldsWithinTtl(s: State, i: nat) {
    && i in s.instances && s.instances[i].held.Some? && !s.instances[i].held.value.ended
    && var held := s.instances[i].held.value;
       held.id in s.made && s.made[held.id].acquiredAt.Some?
       && WithinTtl(s.made[held.id].acquiredAt.value, held.ttl, s.clock)
  }

  ghost predicate HeldTtlMatches(s: State) {
    forall i :: i in s.instances && s.instances[i].held.Some? ==>
      var held := s.instances[i].held.value;
      held.id in s.made && s.made[held.id].ttl == Seconds(held.ttl)
  }

  lemma StepMatches(s: State, t: Step)
    requires Inv(s) && HeldTtlMatches(s) && Enabled(s, t)
    ensures HeldTtlMatches(Apply(s, t))
  {
    if t.Act? && t.action.Hold? {
      assert CallFormed(s, t.i);
    } else if t.Act? {
      OtherKeepsHeld(s, t.i, t.action);
    }
  }

  lemma OtherKeepsHeld(s: State, i: nat, action: Action)
    requires Inv(s) && Enabled(s, Act(i, action)) && !action.Hold?
    ensures
      var s' := Apply(s, Act(i, action));
      && (forall id :: id in s.made ==> id in s'.made && s'.made[id] == s.made[id])
      && (forall j :: j in s'.instances && s'.instances[j].held.Some? ==> SameHeld(s, s', j))
  {
    var s' := Apply(s, Act(i, action));
    ActorKeepsHeld(s, i, action);
    assert forall j :: j != i && j in s'.instances ==> j in s.instances && s'.instances[j] == s.instances[j];
  }

  ghost predicate SameHeld(s: State, s': State, j: nat) {
    && j in s.instances && j in s'.instances && s.instances[j].held.Some? && s'.instances[j].held.Some?
    && s'.instances[j].held.value.id == s.instances[j].held.value.id
    && s'.instances[j].held.value.ttl == s.instances[j].held.value.ttl
  }

  lemma ActorKeepsHeld(s: State, i: nat, action: Action)
    requires Enabled(s, Act(i, action)) && !action.Hold?
    ensures
      var s' := Apply(s, Act(i, action));
      i in s'.instances && s'.instances[i].held.Some? ==> SameHeld(s, s', i)
  {
  }

  lemma {:induction false} RunMatches(s: State, run: seq<Step>)
    requires Inv(s) && HeldTtlMatches(s) && Valid(s, run)
    ensures HeldTtlMatches(Exec(s, run))
    decreases |run|
  {
    if run != [] {
      StepKeeps(s, run[0]);
      StepMatches(s, run[0]);
      RunMatches(Apply(s, run[0]), run[1..]);
    }
  }

  // The note a contender makes here is the one that `Acquire` makes: of the server's id and
  // stamp, of the whole second in which the call began, and of the TTL it was asked for.
  lemma CreateMakesTheNoteOfAcquire(s: State, i: nat, ttl: nat, nanos: nat, id: nat, stamp: int)
    requires i in s.instances && s.instances[i].call.Idle? && ttl < TWO_64 && id !in s.made && stamp > s.stamp
    ensures
      var begun := Apply(s, Act(i, Begin(ttl)));
      var late := Apply(begun, Tick(nanos));
      var made := Apply(late, Act(i, Create(id, stamp, true)));
      && made.made[id] == VaultLock.NoteFor(id, Some(stamp), ttl, s.clock)
      && made.made[id] == Note(id, Some(stamp), Some(s.clock / SECOND), Seconds(ttl))
      && made.vault == s.vault + {id} && made.instances[i].call == Listing(id)
  {
  }

  // Of two holders the one with the older note has a note every contender calls stale.
  lemma OlderHolderIsStale(s: State, run: seq<Step>, i: nat, j: nat)
    requires Init(s) && Valid(s, run) && i != j
    requires Claim(Exec(s, run), i, OfHeld).Some? && Claim(Exec(s, run), j, OfHeld).Some?
    ensures
      var e := Exec(s, run);
      var a, b := Claim(e, i, OfHeld).value, Claim(e, j, OfHeld).value;
      && a != b && (Older(e, a, b) || Older(e, b, a))
      && (Older(e, a, b) ==> Expired(e, a)) && (Older(e, b, a) ==> Expired(e, b))
  {
    RunKeeps(s, run);
    var e := Exec(s, run);
    assert Outlived(e, i) && Outlived(e, j);
    assert Own(e, i, OfHeld) == Claim(e, i, OfHeld) && Own(e, j, OfHeld) == Claim(e, j, OfHeld);
  }

  // In no run, however its steps interleave, do two instances hold the lock with
  // both notes within TTLs below 2^63.
  lemma MutualExclusion(s: State, run: seq<Step>, i: nat, j: nat)
    requires Init(s) && Valid(s, run)
    requires HoldsWithinTtl(Exec(s, run), i) && Exec(s, run).instances[i].held.value.ttl < TWO_63
    requires HoldsWithinTtl(Exec(s, run), j) && Exec(s, run).instances[j].held.value.ttl < TWO_63
    ensures i == j
  {
    if i != j {
      OlderHolderIsStale(s, run, i, j);
      OlderTtlWraps(s, run, i, j);
      OlderTtlWraps(s, run, j, i);
    }
  }

  // Of two holders within their TTLs the older note's TTL is 2^63 or more.
  lemma OlderTtlWraps(s: State, run: seq<Step>, i: nat, j: nat)
    requires Init(s) && Valid(s, run)
    requires HoldsWithinTtl(Exec(s, run), i) && HoldsWithinTtl(Exec(s, run), j)
    ensures
      var held, other := Exec(s, run).instances[i].held.value, Exec(s, run).instances[j].held.value;
      Older(Exec(s, run), held.id, other.id) ==> held.ttl >= TWO_63
  {
    RunKeeps(s, run);
    RunMatches(s, run);
    var e := Exec(s, run);
    var held := e.instances[i].held.value;
    if Older(e, held.id, e.instances[j].held.value.id) {
      OlderHolderIsStale(s, run, i, j);
      if held.ttl < TWO_63 {
        StaleExactlyFrom(e.made[held.id], held.ttl, e.clock);
      }
    }
  }

  // What `held_within_ttl` answers: it counts from the end of the contest.
  ghost predicate ReportsHeld(s: State, i: nat) {
    i in s.instances && s.instances[i].held.Some?
    && s.clock - s.instances[i].held.value.since < s.instances[i].held.value.ttl * SECOND
  }

  ghost predicate Reporting(since: int, ttl: nat, clock: int) {
    since <= clock && clock - since < ttl * SECOND
  }

  ghost predicate WithinTtl(acquiredAt: int, ttl: nat, clock: int) {
    clock < (acquiredAt + ttl + 1) * SECOND
  }

  // While that answer is yes the note is within its TTL at every later reading of
  // the clock exactly when the contest ended within a second of `acquired_at`.
  lemma ReportIsSafeExactlyWhen(acquiredAt: int, since: int, ttl: nat)
    requires 0 < ttl
    ensures (forall clock :: Reporting(since, ttl, clock) ==> WithinTtl(acquiredAt, ttl, clock))
            <==> since <= (acquiredAt + 1) * SECOND
  {
    if since > (acquiredAt + 1) * SECOND {
      var clock := since + ttl * SECOND - 1;
      assert Reporting(since, ttl, clock) && !WithinTtl(acquiredAt, ttl, clock);
    }
  }

  // `i`'s contest was over within a second of what its note records.
  ghost predicate HeldInTime(s: State, i: nat) {
    && i in s.instances && s.instances[i].held.Some? && !s.instances[i].held.value.ended
    && var held := s.instances[i].held.value;
       held.id in s.made && s.made[held.id].acquiredAt.Some? && held.ttl < TWO_63
       && held.since <= (s.made[held.id].acquiredAt.value + 1) * SECOND
  }

  // So in every run two instances that answer yes, neither releasing and both held in
  // time, are one.
  lemma ReportsExclude(s: State, run: seq<Step>, i: nat, j: nat)
    requires Init(s) && Valid(s, run)
    requires ReportsHeld(Exec(s, run), i) && HeldInTime(Exec(s, run), i)
    requires ReportsHeld(Exec(s, run), j) && HeldInTime(Exec(s, run), j)
    ensures i == j
  {
    MutualExclusion(s, run, i, j);
  }

  // --- Nobody is refused for nothing ---

  ghost predicate InJudgement(call: Call) {
    call.Judging? || call.Breaking?
  }

  // What a contest has yet to judge is older than its own note.
  ghost predicate FacesOlder(s: State) {
    forall i :: i in s.instances && InJudgement(s.instances[i].call) ==>
      forall n :: n in s.instances[i].call.ahead ==> Older(s, n.id, s.instances[i].call.mine)
  }

  lemma OrderFacesOlder(s: State, i: nat)
    requires Inv(s) && Enabled(s, Act(i, Order))
    ensures forall n :: n in Apply(s, Act(i, Order)).instances[i].call.ahead ==>
      Older(s, n.id, s.instances[i].call.mine)
  {
    var Reading(mine, _, rivals) := s.instances[i].call;
    AheadIsEveryoneAhead(s.made[mine], rivals);
    assert CallFormed(s, i);
  }

  lemma ActFacesOlder(s: State, i: nat, action: Action)
    requires Inv(s) && Enabled(s, Act(i, action)) && !action.Order? && !action.Create?
    ensures
      var s' := Apply(s, Act(i, action));
      && s'.made == s.made && s'.instances - {i} == s.instances - {i}
      && (i in s'.instances && InJudgement(s'.instances[i].call) ==>
            var call, call' := s.instances[i].call, s'.instances[i].call;
            InJudgement(call) && call'.mine == call.mine && forall n :: n in call'.ahead ==> n in call.ahead)
  {
  }

  lemma StepFacesOlder(s: State, t: Step)
    requires Inv(s) && FacesOlder(s) && Enabled(s, t)
    ensures FacesOlder(Apply(s, t))
  {
    if t.Act? {
      var s' := Apply(s, t);
      if t.action.Order? {
        OrderFacesOlder(s, t.i);
      } else if !t.action.Create? {
        ActFacesOlder(s, t.i, t.action);
      }
      Elsewhere(s, s', t.i);
    }
  }

  lemma {:induction false} RunFacesOlder(s: State, run: seq<Step>)
    requires Inv(s) && FacesOlder(s) && Valid(s, run)
    ensures Inv(Exec(s, run)) && FacesOlder(Exec(s, run))
    decreases |run|
  {
    if run != [] {
      StepKeeps(s, run[0]);
      StepFacesOlder(s, run[0]);
      RunFacesOlder(Apply(s, run[0]), run[1..]);
    }
  }

  // In every run a contest is refused exactly by a note older than its own that is not
  // stale at that moment; so the first-ranked contender that has not expired never is.
  lemma RefusedExactlyByOlderFreshNote(s: State, run: seq<Step>, i: nat)
    requires Init(s) && Valid(s, run) && Enabled(Exec(s, run), Act(i, Judge))
    ensures
      var e := Exec(s, run);
      var Judging(mine, ahead) := e.instances[i].call;
      && ahead[0].id in e.made && e.made[ahead[0].id] == ahead[0] && Older(e, ahead[0].id, mine)
      && (Apply(e, Act(i, Judge)).instances[i].call.Withdrawing? <==> !Expired(e, ahead[0].id))
  {
    RunFacesOlder(s, run);
    var e := Exec(s, run);
    assert CallFormed(e, i);
    assert e.instances[i].call.ahead[0] in e.instances[i].call.ahead;
  }

  const EMPTY := State(0, 0, map[], {}, map[])

  lemma {:induction false} Extend(s: State, run: seq<Step>, t: Step)
    requires Valid(s, run) && Enabled(Exec(s, run), t)
    ensures Valid(s, run + [t]) && Exec(s, run + [t]) == Apply(Exec(s, run), t)
    decreases |run|
  {
    if run == [] {
      assert run + [t] == [t];
      assert Exec(Apply(s, t), []) == Apply(s, t);
    } else {
      assert (run + [t])[1..] == run[1..] + [t];
      Extend(Apply(s, run[0]), run[1..], t);
    }
  }

  // Instance 0 finishes its contest `delay` after it began; at `wait` instance 1 finds its
  // note stale, breaks it and holds as well, for `other` seconds.
  lemma BreakIn(ttl: nat, other: nat, delay: nat, wait: nat) returns (run: seq<Step>)
    requires ttl < TWO_64 && other < TWO_64 && delay <= wait && Stale(Late(ttl), wait)
    ensures Valid(EMPTY, run)
    ensures Exec(EMPTY, run).clock == wait
    ensures 0 in Exec(EMPTY, run).instances && 1 in Exec(EMPTY, run).instances
    ensures Exec(EMPTY, run).instances[0].held == Some(Held(0, delay, ttl, false))
    ensures Exec(EMPTY, run).instances[1].held == Some(Held(1, wait, other, false))
    ensures 0 in Exec(EMPTY, run).made && Exec(EMPTY, run).made[0] == Late(ttl)
    ensures 1 in Exec(EMPTY, run).made && Exec(EMPTY, run).made[1] == Later(other, wait)
  {
    run := ReadLate(ttl, other, delay, wait);
    var first, second := Late(ttl), Later(other, wait);
    assert Ahead(second, [first]) == [first] by {
      assert Sort([first], true) == [first];
    }
    run := Next(EMPTY, run, Act(1, Order));
    run := Next(EMPTY, run, Act(1, Judge));
    run := Next(EMPTY, run, Act(1, Break));
    run := Next(EMPTY, run, Act(1, Hold));
  }

  function Late(ttl: nat): Note {
    Note(0, Some(1), Some(0), Seconds(ttl))
  }

  function Later(ttl: nat, wait: nat): Note {
    Note(1, Some(2), Some(wait / SECOND), Seconds(ttl))
  }

  lemma ReadLate(ttl: nat, other: nat, delay: nat, wait: nat) returns (run: seq<Step>)
    requires ttl < TWO_64 && other < TWO_64 && delay <= wait
    ensures Valid(EMPTY, run)
    ensures Exec(EMPTY, run) ==
            State(wait, 2, map[0 := Late(ttl), 1 := Later(other, wait)], {0, 1},
                  map[0 := Instance(Some(Held(0, delay, ttl, false)), Idle),
                      1 := Instance(None, Reading(1, [], [Late(ttl)]))])
  {
    run := HoldLate(ttl, delay);
    run := Next(EMPTY, run, Tick(wait - delay));
    run := Next(EMPTY, run, Join(1));
    run := Next(EMPTY, run, Act(1, Begin(other)));
    run := Next(EMPTY, run, Act(1, Create(1, 2, true)));
    run := Next(EMPTY, run, Act(1, List([0])));
    var listed := Exec(EMPTY, run);
    assert listed.made == map[0 := Late(ttl), 1 := Later(other, wait)] && listed.vault == {0, 1};
    assert listed.instances[1].call == Reading(1, [0], []);
    var call := listed.instances[1].call;
    assert call.pending[1..] == [] && call.rivals + [Late(ttl)] == [Late(ttl)];
    run := Next(EMPTY, run, Act(1, Read));
    assert Exec(EMPTY, run).instances[1] == Instance(None, Reading(1, [], [Late(ttl)]));
  }

  lemma Next(s: State, run: seq<Step>, t: Step) returns (longer: seq<Step>)
    requires Valid(s, run) && Enabled(Exec(s, run), t)
    ensures Valid(s, longer) && Exec(s, longer) == Apply(Exec(s, run), t)
  {
    Extend(s, run, t);
    longer := run + [t];
  }

  lemma ListAlone(ttl: nat) returns (run: seq<Step>)
    requires ttl < TWO_64
    ensures Valid(EMPTY, run)
    ensures Exec(EMPTY, run) ==
            State(0, 1, map[0 := Late(ttl)], {0}, map[0 := Instance(None, Reading(0, [], []))])
  {
    run := Next(EMPTY, [], Join(0));
    run := Next(EMPTY, run, Act(0, Begin(ttl)));
    run := Next(EMPTY, run, Act(0, Create(0, 1, true)));
    run := Next(EMPTY, run, Act(0, List([])));
  }

  lemma HoldLate(ttl: nat, delay: nat) returns (run: seq<Step>)
    requires ttl < TWO_64
    ensures Valid(EMPTY, run)
    ensures Exec(EMPTY, run) ==
            State(delay, 1, map[0 := Late(ttl)], {0},
                  map[0 := Instance(Some(Held(0, delay, ttl, false)), Idle)])
  {
    run := ListAlone(ttl);
    run := Next(EMPTY, run, Act(0, Order));
    run := Next(EMPTY, run, Tick(delay));
    run := Next(EMPTY, run, Act(0, Hold));
  }

  // --- Exactly when two instances can both say yes ---

  // `i` answers yes, is not releasing, and was done with its contest within `delay` of
  // what its note of TTL `ttl` records.
  ghost predicate SaysHeld(s: State, i: nat, ttl: nat, delay: int) {
    && ReportsHeld(s, i) && !s.instances[i].held.value.ended && s.instances[i].held.value.ttl == ttl
    && var held := s.instances[i].held.value;
       held.id in s.made && s.made[held.id].acquiredAt.Some?
       && held.since <= s.made[held.id].acquiredAt.value * SECOND + delay
  }

  // For every TTL, and every delay of more than a second, a contest that took just that
  // long lets two instances answer yes.
  lemma TwoReportHeld(ttl: nat, delay: nat) returns (run: seq<Step>)
    requires 0 < ttl < TWO_63 && delay > SECOND
    ensures Init(EMPTY) && Valid(EMPTY, run)
    ensures SaysHeld(Exec(EMPTY, run), 0, ttl, delay) && SaysHeld(Exec(EMPTY, run), 1, ttl, delay)
    ensures Exec(EMPTY, run).instances[0].held.value.since == delay
    ensures 0 in Exec(EMPTY, run).made && Exec(EMPTY, run).made[0].acquiredAt == Some(0)
  {
    var wait := if delay >= (ttl + 1) * SECOND then delay else (ttl + 1) * SECOND;
    StaleExactlyFrom(Late(ttl), ttl, wait);
    run := BreakIn(ttl, ttl, delay, wait);
  }

  ghost predicate SaysOnce(ttl: nat, delay: int) {
    forall s, run, i, j ::
      Init(s) && Valid(s, run) && SaysHeld(Exec(s, run), i, ttl, delay) && SaysHeld(Exec(s, run), j, ttl, delay) ==>
        i == j
  }

  // No run has two instances say yes if and only if contests are over within a second.
  lemma SaysOnceExactlyWithinASecond(ttl: nat, delay: nat)
    requires 0 < ttl < TWO_63
    ensures SaysOnce(ttl, delay) <==> delay <= SECOND
  {
    if delay <= SECOND {
      forall s, run, i, j |
        Init(s) && Valid(s, run) && SaysHeld(Exec(s, run), i, ttl, delay) && SaysHeld(Exec(s, run), j, ttl, delay)
        ensures i == j
      {
        ReportsExclude(s, run, i, j);
      }
    } else {
      var run := TwoReportHeld(ttl, delay);
    }
  }

  // --- Exactly which TTLs exclude ---

  ghost predicate HoldsWithin(s: State, i: nat, ttl: nat) {
    HoldsWithinTtl(s, i) && s.instances[i].held.value.ttl == ttl
  }

  // A TTL of 2^63 s or more reads as negative, so the note is broken at once.
  lemma TwoHoldWithinWrappedTtl(ttl: nat, other: nat) returns (run: seq<Step>)
    requires TWO_63 <= ttl < TWO_64 && other < TWO_64
    ensures Init(EMPTY) && Valid(EMPTY, run)
    ensures HoldsWithin(Exec(EMPTY, run), 0, ttl) && HoldsWithin(Exec(EMPTY, run), 1, other)
    ensures OlderHolder(Exec(EMPTY, run), 0, 1)
  {
    run := BreakIn(ttl, other, 0, 0);
  }

  ghost predicate OlderHolder(s: State, i: nat, j: nat)
    requires HoldsWithinTtl(s, i) && HoldsWithinTtl(s, j)
  {
    Older(s, s.instances[i].held.value.id, s.instances[j].held.value.id)
  }

  // No run has one instance hold an older note within the TTL `ttl`, and another a newer
  // within `other`.
  ghost predicate Excludes(ttl: nat, other: nat) {
    forall s, run, i, j ::
      Init(s) && Valid(s, run) && HoldsWithin(Exec(s, run), i, ttl) && HoldsWithin(Exec(s, run), j, other) ==>
        !OlderHolder(Exec(s, run), i, j)
  }

  // Of the TTLs a `u64` can say, exclusion holds for exactly those of the older note
  // below 2^63, whatever the newer one's.
  lemma ExcludesExactlyBelowTwo63(ttl: nat, other: nat)
    requires ttl < TWO_64 && other < TWO_64
    ensures Excludes(ttl, other) <==> ttl < TWO_63
  {
    if ttl < TWO_63 {
      forall s, run, i, j |
        Init(s) && Valid(s, run) && HoldsWithin(Exec(s, run), i, ttl) && HoldsWithin(Exec(s, run), j, other)
        ensures !OlderHolder(Exec(s, run), i, j)
      {
        OlderTtlWraps(s, run, i, j);
      }
    } else {
      var run := TwoHoldWithinWrappedTtl(ttl, other);
    }
  }
}
