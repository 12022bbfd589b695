// `VaultLock` itself: acquire, contest and release against a vault, one call at
// a time. What may go wrong at the vault is a parameter.
module VaultLock {
  import opened Wrappers
  import opened VaultNotes

  // Which calls to the vault fail with an error other than "not found".
  datatype Faults = Faults(create: bool, list: bool, unreadable: set<nat>, undeletable: set<nat>)

  const NO_FAULTS := Faults(false, false, {}, {})

  datatype Refusal = Locked(rival: Note) | VaultError

  datatype Held = Held(id: nat, acquired: int, ttl: nat)

  ghost predicate HeldInTime(note: Note, held: Held) {
    note.acquiredAt.Some? && held.acquired <= (note.acquiredAt.value + 1) * SECOND
  }

  ghost predicate Keyed(notes: map<nat, Note>) {
    forall id :: id in notes ==> notes[id].id == id
  }

  // Whether a contest over `notes` ranks by the server's stamps.
  ghost predicate ServerRanked(notes: map<nat, Note>, mine: Note) {
    mine.created.Some? && forall id :: id in notes && id != mine.id ==> notes[id].created.Some?
  }

  // The ids of the rivals ranked ahead of `mine`.
  ghost function AheadIds(notes: map<nat, Note>, mine: Note): set<nat> {
    set id | id in notes && id != mine.id && Before(notes[id], mine, ServerRanked(notes, mine))
  }

  // Those of them ranked ahead of `rival` too.
  ghost function AheadOf(notes: map<nat, Note>, mine: Note, rival: Note): set<nat> {
    set id | id in AheadIds(notes, mine) && Before(notes[id], rival, ServerRanked(notes, mine))
  }

  ghost predicate AllStale(notes: map<nat, Note>, ids: set<nat>, now: int) {
    forall id :: id in ids ==> id in notes && Stale(notes[id], now)
  }

  // The simple rule: grant when every rival ahead is stale, having deleted those;
  // else refuse for the first fresh one, having deleted the stale ones before it.
  ghost predicate Contested(before: map<nat, Note>, mine: Note, now: int, faults: Faults,
                            r: Result<(), Refusal>, after: map<nat, Note>)
  {
    match r
    case Ok(_) =>
      && AllStale(before, AheadIds(before, mine), now)
      && after == before - AheadIds(before, mine)
    case Err(Locked(rival)) =>
      && rival.id in AheadIds(before, mine) && before[rival.id] == rival && !Stale(rival, now)
      && AllStale(before, AheadOf(before, mine, rival), now)
      && after == before - AheadOf(before, mine, rival)
    case Err(VaultError) =>
      && faults != NO_FAULTS
      && after.Keys <= before.Keys && after == before - (before.Keys - after.Keys)
      && before.Keys - after.Keys <= AheadIds(before, mine)
      && AllStale(before, before.Keys - after.Keys, now)
  }

  // With a vault that answers, a contest is granted exactly when no fresh note is ahead.
  lemma GrantedExactlyWhenAllAheadAreStale(before: map<nat, Note>, mine: Note, now: int,
                                           r: Result<(), Refusal>, after: map<nat, Note>)
    requires Contested(before, mine, now, NO_FAULTS, r, after)
    ensures r.Ok? <==> AllStale(before, AheadIds(before, mine), now)
    ensures forall id :: id in before && id !in after ==> id in AheadIds(before, mine) && Stale(before[id], now)
    ensures forall id :: id in after ==> id in before && after[id] == before[id]
  {
  }

  class Vault {
    var notes: map<nat, Note>

    ghost predicate Valid()
      reads this
    {
      Keyed(notes)
    }

    constructor ()
      ensures notes == map[] && Valid()
    {
      notes := map[];
    }

    method Items(faults: Faults) returns (r: Result<seq<nat>, Refusal>)
      ensures r.Err? <==> faults.list
      ensures r.Ok? ==> forall id :: id in r.value <==> id in notes
    {
      if faults.list {
        return Err(VaultError);
      }
      var rest, ids := notes.Keys, [];
      while rest != {}
        invariant rest <= notes.Keys
        invariant forall id :: id in notes <==> id in rest || id in ids
        decreases |rest|
      {
        var id :| id in rest;
        rest, ids := rest - {id}, ids + [id];
      }
      return Ok(ids);
    }

    // `None` once another holder has deleted it.
    method Item(id: nat, faults: Faults) returns (r: Result<Option<Note>, Refusal>)
      ensures r.Err? <==> id in faults.unreadable
      ensures r.Ok? ==> r.value == if id in notes then Some(notes[id]) else None
    {
      if id in faults.unreadable {
        return Err(VaultError);
      }
      return Ok(if id in notes then Some(notes[id]) else None);
    }

    // A note already gone is no error.
    method Delete(id: nat, faults: Faults) returns (r: Result<(), Refusal>)
      modifies this
      ensures r == if id in faults.undeletable then Err(VaultError) else Ok(())
      ensures notes == if r.Ok? then old(notes) - {id} else old(notes)
    {
      if id in faults.undeletable {
        return Err(VaultError);
      }
      notes := notes - {id};
      return Ok(());
    }
  }

  method ReadRivals(vault: Vault, mine: Note, faults: Faults) returns (r: Result<seq<Note>, Refusal>)
    requires vault.Valid()
    ensures r.Err? ==> r.error == VaultError && faults != NO_FAULTS
    ensures r.Ok? ==> forall n :: n in r.value <==> n.id in vault.notes && n.id != mine.id && vault.notes[n.id] == n
  {
    var listed := vault.Items(faults);
    if listed.Err? {
      return Err(VaultError);
    }
    var ids := listed.value;
    var rivals: seq<Note> := [];
    for k := 0 to |ids|
      invariant forall n :: n in rivals <==>
                            n.id in ids[..k] && n.id in vault.notes && n.id != mine.id && vault.notes[n.id] == n
    {
      assert ids[..k + 1] == ids[..k] + [ids[k]];
      if ids[k] != mine.id {
        var item := vault.Item(ids[k], faults);
        if item.Err? {
          return Err(VaultError);
        }
        if item.value.Some? {
          rivals := rivals + [item.value.value];
        }
      }
    }
    assert ids[..|ids|] == ids;
    return Ok(rivals);
  }

  // Whether `mine` ranks first among the vault's notes, breaking any stale one ahead of it.
  method Contest(vault: Vault, mine: Note, now: int, faults: Faults) returns (r: Result<(), Refusal>)
    requires vault.Valid()
    modifies vault
    ensures vault.Valid()
    ensures Contested(old(vault.notes), mine, now, faults, r, vault.notes)
  {
    var read := ReadRivals(vault, mine, faults);
    if read.Err? {
      return Err(VaultError);
    }
    ghost var before := vault.notes;
    var rivals := read.value;
    var ahead := Ahead(mine, rivals);
    for k := 0 to |ahead|
      invariant vault.notes == before - Ids(ahead[..k])
      invariant forall j :: 0 <= j < k ==> Stale(ahead[j], now)
    {
      if !Stale(ahead[k], now) {
        RefusedFor(before, mine, rivals, ahead, k, now, faults);
        return Err(Locked(ahead[k]));
      }
      var deleted := vault.Delete(ahead[k].id, faults);
      if deleted.Err? {
        BrokenOff(before, mine, rivals, ahead, k, now, faults);
        return Err(VaultError);
      }
      IdsStep(ahead, k);
    }
    assert ahead[..|ahead|] == ahead;
    GrantedTo(before, mine, rivals, ahead, now, faults);
    return Ok(());
  }

  lemma IdsStep(ahead: seq<Note>, k: nat)
    requires k < |ahead|
    ensures Ids(ahead[..k + 1]) == Ids(ahead[..k]) + {ahead[k].id}
  {
    assert ahead[..k + 1] == ahead[..k] + [ahead[k]];
  }

  lemma GrantedTo(notes: map<nat, Note>, mine: Note, rivals: seq<Note>, ahead: seq<Note>, now: int, faults: Faults)
    requires Keyed(notes) && ReadFrom(notes, mine, rivals) && ahead == Ahead(mine, rivals)
    requires forall j :: 0 <= j < |ahead| ==> Stale(ahead[j], now)
    ensures Contested(notes, mine, now, faults, Ok(()), notes - Ids(ahead))
  {
    AheadWhole(notes, mine, rivals, ahead);
    AheadIsEveryoneAhead(mine, rivals);
  }

  lemma RefusedFor(notes: map<nat, Note>, mine: Note, rivals: seq<Note>, ahead: seq<Note>, k: nat, now: int,
                   faults: Faults)
    requires Keyed(notes) && ReadFrom(notes, mine, rivals) && ahead == Ahead(mine, rivals)
    requires k < |ahead| && !Stale(ahead[k], now) && forall j :: 0 <= j < k ==> Stale(ahead[j], now)
    ensures Contested(notes, mine, now, faults, Err(Locked(ahead[k])), notes - Ids(ahead[..k]))
  {
    AheadPrefix(notes, mine, rivals, ahead, k, now);
  }

  lemma BrokenOff(notes: map<nat, Note>, mine: Note, rivals: seq<Note>, ahead: seq<Note>, k: nat, now: int,
                  faults: Faults)
    requires Keyed(notes) && ReadFrom(notes, mine, rivals) && ahead == Ahead(mine, rivals)
    requires k < |ahead| && forall j :: 0 <= j < k ==> Stale(ahead[j], now)
    requires faults != NO_FAULTS
    ensures Contested(notes, mine, now, faults, Err(VaultError), notes - Ids(ahead[..k]))
  {
    AheadPrefix(notes, mine, rivals, ahead, k, now);
    var after := notes - Ids(ahead[..k]);
    assert notes.Keys - after.Keys == Ids(ahead[..k]);
  }

  ghost function Ids(notes: seq<Note>): set<nat> {
    set n | n in notes :: n.id
  }

  ghost predicate ReadFrom(notes: map<nat, Note>, mine: Note, rivals: seq<Note>) {
    forall n :: n in rivals <==> n.id in notes && n.id != mine.id && notes[n.id] == n
  }

  lemma RankedAlike(notes: map<nat, Note>, mine: Note, rivals: seq<Note>)
    requires Keyed(notes) && ReadFrom(notes, mine, rivals)
    ensures ByServer(mine, rivals) == ServerRanked(notes, mine)
  {
    forall id | id in notes && id != mine.id
      ensures notes[id] in rivals
    {
      assert notes[id].id == id;
    }
  }

  lemma AheadWhole(notes: map<nat, Note>, mine: Note, rivals: seq<Note>, ahead: seq<Note>)
    requires Keyed(notes) && ReadFrom(notes, mine, rivals) && ahead == Ahead(mine, rivals)
    ensures Ids(ahead) == AheadIds(notes, mine)
  {
    AheadIsEveryoneAhead(mine, rivals);
    RankedAlike(notes, mine, rivals);
    forall id | id in AheadIds(notes, mine)
      ensures id in Ids(ahead)
    {
      assert notes[id].id == id && notes[id] in rivals && notes[id] in ahead;
    }
  }

  // What has been worked through before the first fresh rival is exactly what ranks ahead of it.
  lemma AheadPrefix(notes: map<nat, Note>, mine: Note, rivals: seq<Note>, ahead: seq<Note>, k: nat, now: int)
    requires Keyed(notes) && ReadFrom(notes, mine, rivals) && ahead == Ahead(mine, rivals)
    requires k < |ahead| && forall j :: 0 <= j < k ==> Stale(ahead[j], now)
    ensures ahead[k].id in AheadIds(notes, mine) && notes[ahead[k].id] == ahead[k]
    ensures Ids(ahead[..k]) <= AheadIds(notes, mine) && AllStale(notes, Ids(ahead[..k]), now)
    ensures !Stale(ahead[k], now) ==> Ids(ahead[..k]) == AheadOf(notes, mine, ahead[k])
  {
    forall j | 0 <= j < |ahead|
      ensures ahead[j].id in AheadIds(notes, mine) && notes[ahead[j].id] == ahead[j]
    {
      AheadAt(notes, mine, rivals, ahead, j);
    }
    if !Stale(ahead[k], now) {
      forall id | id in AheadOf(notes, mine, ahead[k])
        ensures id in Ids(ahead[..k])
      {
        AheadBefore(notes, mine, rivals, ahead, k, id);
      }
      forall j | 0 <= j < k
        ensures ahead[j].id in AheadOf(notes, mine, ahead[k])
      {
        AheadInOrder(notes, mine, rivals, ahead, j, k);
      }
    }
  }

  lemma AheadAt(notes: map<nat, Note>, mine: Note, rivals: seq<Note>, ahead: seq<Note>, j: nat)
    requires Keyed(notes) && ReadFrom(notes, mine, rivals) && ahead == Ahead(mine, rivals) && j < |ahead|
    ensures ahead[j].id in AheadIds(notes, mine) && notes[ahead[j].id] == ahead[j]
  {
    AheadIsEveryoneAhead(mine, rivals);
    RankedAlike(notes, mine, rivals);
    assert ahead[j] in ahead;
  }

  // What ranks ahead of `ahead[k]` comes before it.
  lemma AheadBefore(notes: map<nat, Note>, mine: Note, rivals: seq<Note>, ahead: seq<Note>, k: nat, id: nat)
    requires Keyed(notes) && ReadFrom(notes, mine, rivals) && ahead == Ahead(mine, rivals)
    requires k < |ahead| && id in AheadOf(notes, mine, ahead[k])
    ensures id in Ids(ahead[..k])
  {
    AheadIsEveryoneAhead(mine, rivals);
    RankedAlike(notes, mine, rivals);
    AheadWhole(notes, mine, rivals, ahead);
    var n :| n in ahead && n.id == id;
    var j :| 0 <= j < |ahead| && ahead[j] == n;
    AheadAt(notes, mine, rivals, ahead, j);
    assert j < k;
    assert ahead[..k][j] == n;
  }

  lemma AheadInOrder(notes: map<nat, Note>, mine: Note, rivals: seq<Note>, ahead: seq<Note>, j: nat, k: nat)
    requires Keyed(notes) && ReadFrom(notes, mine, rivals) && ahead == Ahead(mine, rivals) && j < k < |ahead|
    ensures ahead[j].id != ahead[k].id ==> ahead[j].id in AheadOf(notes, mine, ahead[k])
  {
    AheadIsEveryoneAhead(mine, rivals);
    RankedAlike(notes, mine, rivals);
    AheadAt(notes, mine, rivals, ahead, j);
    AheadAt(notes, mine, rivals, ahead, k);
    assert !Before(ahead[k], ahead[j], ServerRanked(notes, mine));
  }

  ghost predicate AllStamped(notes: map<nat, Note>) {
    forall id :: id in notes ==> notes[id].created.Some?
  }

  ghost predicate FreshBefore(note: Note, stamp: int, now: int) {
    note.created.Some? && note.created.value < stamp && !Stale(note, now)
  }

  lemma EarlierStandsInTheWay(notes: map<nat, Note>, mine: Note, now: int,
                              r: Result<(), Refusal>, after: map<nat, Note>)
    requires mine.created.Some? && AllStamped(notes) && mine.id !in notes
    requires Contested(notes[mine.id := mine], mine, now, NO_FAULTS, r, after)
    ensures forall id :: id in notes && FreshBefore(notes[id], mine.created.value, now) ==>
      r.Err? && r.error.Locked? && id in after && after[id] == notes[id]
  {
    var entered := notes[mine.id := mine];
    forall id | id in notes && FreshBefore(notes[id], mine.created.value, now)
      ensures id in AheadIds(entered, mine) && r.Err?
    {
      assert entered[id] == notes[id] && Before(entered[id], mine, ServerRanked(entered, mine));
    }
  }

  function NoteFor(id: nat, stamp: Option<int>, ttl: nat, now: int): Note {
    Note(id, stamp, Some(now / SECOND), Seconds(ttl))
  }

  class VaultLock {
    var held: Option<Held>

    constructor ()
      ensures held == None
    {
      held := None;
    }

    // The server gives the new note `id`, which no note has, and `stamp`. The call began at
    // `began`, which the note records, and its contest is over at `now`.
    method Acquire(vault: Vault, ttl: nat, began: int, now: int, id: nat, stamp: Option<int>, faults: Faults)
      returns (r: Result<(), Refusal>)
      requires vault.Valid() && id !in vault.notes
      modifies this, vault
      ensures vault.Valid()
      ensures faults.create ==> r == Err(VaultError) && vault.notes == old(vault.notes)
      ensures r.Ok? ==> held == Some(Held(id, now, ttl))
      // Holding, it leaves a note of when it began, which goes stale a second past its TTL.
      ensures r.Ok? ==>
        && id in vault.notes && vault.notes[id].id == id && vault.notes[id].created == stamp
        && vault.notes[id].acquiredAt == Some(began / SECOND) && vault.notes[id].ttl == Seconds(ttl)
      ensures r.Ok? && ttl < TWO_63 ==>
        forall t :: Stale(vault.notes[id], t) <==> t >= (began / SECOND + ttl + 1) * SECOND
      // While a note stamped earlier is fresh, it is refused, and that note stays.
      ensures faults == NO_FAULTS && stamp.Some? && AllStamped(old(vault.notes)) ==>
        forall other :: other in old(vault.notes) && FreshBefore(old(vault.notes)[other], stamp.value, now) ==>
          r.Err? && r.error.Locked? && other in vault.notes && vault.notes[other] == old(vault.notes)[other]
      ensures r.Err? ==> held == old(held)
      ensures
        var mine := NoteFor(id, stamp, ttl, began);
        var entered := old(vault.notes)[id := mine];
        !faults.create ==>
          exists contested ::
            && Contested(entered, mine, now, faults, r, contested)
            && vault.notes == if r.Ok? || id in faults.undeletable then contested else contested - {id}
      ensures
        // The instance's own unexpired note stands in its way, and stays held.
        var mine := NoteFor(id, stamp, ttl, began);
        && old(held).Some?
        && old(held).value.id in old(vault.notes)
        && !Stale(old(vault.notes)[old(held).value.id], now)
        && old(held).value.id in AheadIds(old(vault.notes)[id := mine], mine)
        ==> r.Err? && held == old(held) && held.value.id in vault.notes
    {
      if faults.create {
        return Err(VaultError);
      }
      var mine := NoteFor(id, stamp, ttl, began);
      vault.notes := vault.notes[id := mine];
      ghost var entered := vault.notes;
      r := Contest(vault, mine, now, faults);
      ghost var contested := vault.notes;
      if r.Ok? {
        held := Some(Held(id, now, ttl));
      } else {
        var _ := vault.Delete(id, faults);
      }
      assert Contested(entered, mine, now, faults, r, contested);
      if r.Ok? && ttl < TWO_63 {
        forall t ensures Stale(vault.notes[id], t) <==> t >= (began / SECOND + ttl + 1) * SECOND {
          StaleExactlyFrom(vault.notes[id], ttl, t);
        }
      }
      if faults == NO_FAULTS && stamp.Some? && AllStamped(old(vault.notes)) {
        EarlierStandsInTheWay(old(vault.notes), mine, now, r, contested);
      }
    }

    method Release(vault: Vault, faults: Faults) returns (r: Result<(), Refusal>)
      requires vault.Valid()
      modifies this, vault
      ensures vault.Valid()
      ensures r.Ok? ==> held == None
      ensures r.Err? ==> held == old(held) && vault.notes == old(vault.notes)
      ensures r.Ok? && old(held).Some? ==> vault.notes == old(vault.notes) - {old(held).value.id}
      ensures old(held).None? ==> r.Ok? && vault.notes == old(vault.notes)
      ensures faults == NO_FAULTS ==> r.Ok?
    {
      if held.Some? {
        var deleted := vault.Delete(held.value.id, faults);
        if deleted.Err? {
          return Err(VaultError);
        }
        held := None;
      }
      return Ok(());
    }

    // A yes means that the note is not stale, if the contest was over within a second of
    // what the note records.
    method HeldWithinTtl(now: int) returns (within: bool)
      ensures within <==> held.Some? && now - held.value.acquired < held.value.ttl * SECOND
      ensures within && held.value.ttl < TWO_63 ==>
        forall note: Note :: note.ttl == Seconds(held.value.ttl) && HeldInTime(note, held.value) ==> !Stale(note, now)
    {
      within := held.Some? && now - held.value.acquired < held.value.ttl * SECOND;
      if within && held.value.ttl < TWO_63 {
        forall note: Note | note.ttl == Seconds(held.value.ttl) && HeldInTime(note, held.value)
          ensures !Stale(note, now)
        {
          StaleExactlyFrom(note, held.value.ttl, now);
        }
      }
    }
  }
}
