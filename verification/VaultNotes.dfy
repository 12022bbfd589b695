// The lock notes of `vault_lock.rs`: how they rank, when they are stale, and
// what one contest does to a vault that nobody else is changing.
module VaultNotes {
  import opened Wrappers

  // Clock readings are in nanoseconds, `acquired_at` is in whole seconds.
  const SECOND := 1_000_000_000
  const DEFAULT_TTL: nat := 300
  const TWO_63: nat := 0x8000_0000_0000_0000
  const TWO_64: nat := 0x1_0000_0000_0000_0000

  // The `ttl_seconds` field: absent, not a u64, or read.
  datatype Ttl = Missing | Unreadable | Seconds(n: nat)

  // `created` is the server's stamp; `acquiredAt` is `None` when the field is
  // absent, empty or unparseable. Only equality and order of ids matter.
  datatype Note = Note(id: nat, created: Option<int>, acquiredAt: Option<int>, ttl: Ttl)

  function TruncatedSeconds(nanos: int): int {
    if nanos >= 0 then nanos / SECOND else -(-nanos / SECOND)
  }

  // `ttl as i64`: a u64 of 2^63 or more turns negative.
  function AsI64(n: nat): int {
    if n % TWO_64 < TWO_63 then n % TWO_64 else n % TWO_64 - TWO_64
  }

  predicate Stale(note: Note, now: int) {
    if note.acquiredAt.None? then true
    else if note.ttl.Unreadable? then true
    else
      var ttl := if note.ttl.Missing? then DEFAULT_TTL else note.ttl.n;
      TruncatedSeconds(now - note.acquiredAt.value * SECOND) > AsI64(ttl)
  }

  // Time only ever makes a note stale.
  lemma StaleForEver(note: Note, now: int, later: int)
    requires Stale(note, now) && now <= later
    ensures Stale(note, later)
  {
    if note.acquiredAt.Some? {
      var from := note.acquiredAt.value * SECOND;
      assert TruncatedSeconds(now - from) <= TruncatedSeconds(later - from);
    }
  }

  // The clock reading at which a note with a usable TTL turns stale.
  lemma StaleExactlyFrom(note: Note, ttl: nat, now: int)
    requires note.acquiredAt.Some? && note.ttl == Seconds(ttl) && ttl < TWO_63
    ensures Stale(note, now) <==> now >= (note.acquiredAt.value + ttl + 1) * SECOND
  {
  }

  datatype Rank = Rank(at: Option<int>, id: nat)

  function RankOf(note: Note, byServer: bool): Rank {
    Rank(if byServer then note.created else note.acquiredAt, note.id)
  }

  predicate AtLess(a: Option<int>, b: Option<int>) {
    b.Some? && (a.None? || a.value < b.value)
  }

  predicate RankLess(a: Rank, b: Rank) {
    AtLess(a.at, b.at) || (a.at == b.at && a.id < b.id)
  }

  predicate Before(a: Note, b: Note, byServer: bool) {
    RankLess(RankOf(a, byServer), RankOf(b, byServer))
  }

  predicate Sorted(notes: seq<Note>, byServer: bool) {
    forall i, j :: 0 <= i < j < |notes| ==> !Before(notes[j], notes[i], byServer)
  }

  function Insert(note: Note, notes: seq<Note>, byServer: bool): (r: seq<Note>) {
    if notes == [] || Before(note, notes[0], byServer) then [note] + notes
    else [notes[0]] + Insert(note, notes[1..], byServer)
  }

  function Sort(notes: seq<Note>, byServer: bool): (r: seq<Note>) {
    if notes == [] then [] else Insert(notes[0], Sort(notes[1..], byServer), byServer)
  }

  lemma {:induction false} InsertSorts(note: Note, notes: seq<Note>, byServer: bool)
    requires Sorted(notes, byServer)
    ensures Sorted(Insert(note, notes, byServer), byServer)
    ensures forall n :: n in Insert(note, notes, byServer) <==> n == note || n in notes
    ensures |Insert(note, notes, byServer)| == |notes| + 1
  {
    if notes == [] || Before(note, notes[0], byServer) {
      FirstBeforeAll(note, notes, byServer);
    } else {
      var rest := Insert(note, notes[1..], byServer);
      InsertSorts(note, notes[1..], byServer);
      assert notes == [notes[0]] + notes[1..];
      assert forall n :: n in rest ==> !Before(n, notes[0], byServer);
      assert forall j :: 0 <= j < |rest| ==> rest[j] in rest;
    }
  }

  lemma FirstBeforeAll(note: Note, notes: seq<Note>, byServer: bool)
    requires Sorted(notes, byServer)
    requires notes == [] || Before(note, notes[0], byServer)
    ensures forall i :: 0 <= i < |notes| ==> !Before(notes[i], note, byServer)
  {
    forall i | 0 <= i < |notes|
      ensures !Before(notes[i], note, byServer)
    {
      assert i > 0 ==> !Before(notes[i], notes[0], byServer);
    }
  }

  // Sorting orders the notes and neither loses nor invents one.
  lemma {:induction false} SortSorts(notes: seq<Note>, byServer: bool)
    ensures Sorted(Sort(notes, byServer), byServer)
    ensures forall n :: n in Sort(notes, byServer) <==> n in notes
    ensures |Sort(notes, byServer)| == |notes|
  {
    if notes != [] {
      assert notes == [notes[0]] + notes[1..];
      SortSorts(notes[1..], byServer);
      InsertSorts(notes[0], Sort(notes[1..], byServer), byServer);
    }
  }

  // An unreadable note is stale at once, and one without a TTL has five minutes.
  lemma StaleUnlessReadable(note: Note, now: int)
    ensures note.acquiredAt.None? || note.ttl.Unreadable? ==> Stale(note, now)
    ensures note.acquiredAt.Some? && note.ttl.Missing? ==>
      (Stale(note, now) <==> now >= (note.acquiredAt.value + 301) * SECOND)
  {
  }

  // Ranking goes by the server's stamp, or else by `acquired_at`, an unreadable one before
  // any; the lower id first among equals.
  lemma RanksEarlierFirst(a: Note, b: Note, byServer: bool)
    ensures
      var x, y := if byServer then a.created else a.acquiredAt, if byServer then b.created else b.acquiredAt;
      Before(a, b, byServer) <==>
        || (x.None? && y.Some?)
        || (x.Some? && y.Some? && x.value < y.value)
        || (x == y && a.id < b.id)
    ensures !(Before(a, b, byServer) && Before(b, a, byServer))
    ensures a.id != b.id ==> Before(a, b, byServer) || Before(b, a, byServer)
  {
  }

  function TakeAhead(sorted: seq<Note>, mine: Note, byServer: bool): (r: seq<Note>)
    ensures |r| <= |sorted| && r == sorted[..|r|]
    ensures forall n :: n in r ==> Before(n, mine, byServer)
    ensures |r| < |sorted| ==> !Before(sorted[|r|], mine, byServer)
  {
    if sorted == [] || !Before(sorted[0], mine, byServer) then []
    else [sorted[0]] + TakeAhead(sorted[1..], mine, byServer)
  }

  predicate ByServer(mine: Note, rivals: seq<Note>) {
    mine.created.Some? && forall r :: r in rivals ==> r.created.Some?
  }

  // The rivals a contest works through, in order.
  function Ahead(mine: Note, rivals: seq<Note>): (r: seq<Note>) {
    var byServer := ByServer(mine, rivals);
    TakeAhead(Sort(rivals, byServer), mine, byServer)
  }

  lemma {:induction false} TakenWhenAhead(sorted: seq<Note>, mine: Note, byServer: bool, k: nat)
    requires k < |sorted| && Sorted(sorted, byServer) && Before(sorted[k], mine, byServer)
    ensures sorted[k] in TakeAhead(sorted, mine, byServer)
  {
    assert Before(sorted[0], mine, byServer) by {
      assert k > 0 ==> !Before(sorted[k], sorted[0], byServer);
    }
    if k > 0 {
      TakenWhenAhead(sorted[1..], mine, byServer, k - 1);
    }
  }

  // Stopping at the first rival not ahead of `mine` misses none that is.
  lemma AheadIsEveryoneAhead(mine: Note, rivals: seq<Note>)
    ensures Sorted(Ahead(mine, rivals), ByServer(mine, rivals))
    ensures forall n :: n in Ahead(mine, rivals) <==>
                        n in rivals && Before(n, mine, ByServer(mine, rivals))
  {
    var byServer := ByServer(mine, rivals);
    var sorted := Sort(rivals, byServer);
    SortSorts(rivals, byServer);
    forall n | n in rivals && Before(n, mine, byServer)
      ensures n in TakeAhead(sorted, mine, byServer)
    {
      var k :| 0 <= k < |sorted| && sorted[k] == n;
      TakenWhenAhead(sorted, mine, byServer, k);
    }
  }
}
