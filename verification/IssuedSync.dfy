// opCA's copy of what a broker has issued. The broker stamps each certificate it records
// or revokes with a change number above every other; opCA pages through the changes past
// the highest it holds, and writes the rows down when the call is over. Calls overlap
// with the broker's work and, as opCA gives up its connection while it asks, with each
// other.
module IssuedSync {
  import opened Wrappers

  // `issuer` is the subordinate's serial; `body` stands for the other columns that never
  // change.
  datatype Cert = Cert(changed: int, issuer: nat, body: string, revoked: bool)

  // By serial: the broker's table, or opCA's copy of it.
  type Table = map<string, Cert>

  ghost function Highest(t: Table, keys: set<string>): (r: int)
    requires keys <= t.Keys
    ensures keys == {} ==> r == 0
    ensures keys != {} ==> exists s :: s in keys && t[s].changed == r
    ensures forall s :: s in keys ==> t[s].changed <= r
  {
    if keys == {} then 0
    else
      var s :| s in keys;
      var rest := keys - {s};
      var high := Highest(t, rest);
      assert keys == rest + {s};
      if rest == {} || t[s].changed > high then t[s].changed else high
  }

  // `COALESCE(MAX(changed), 0)`: what the next change is counted from, and opCA's cursor.
  ghost function Top(t: Table): int {
    Highest(t, t.Keys)
  }

  lemma TopBounds(t: Table)
    ensures t == map[] ==> Top(t) == 0
    ensures forall s :: s in t ==> t[s].changed <= Top(t)
    ensures t != map[] ==> exists s :: s in t && t[s].changed == Top(t)
  {
  }

  // The unique index on `changed`, and numbers from 1.
  predicate Proper(db: Table) {
    && (forall s :: s in db ==> db[s].changed > 0)
    && (forall s, t :: s in db && t in db && db[s].changed == db[t].changed ==> s == t)
  }

  // The serials of the enrolment's subordinates, or None for every issuer.
  type Issuers = Option<set<nat>>

  predicate Ours(issuers: Issuers, cert: Cert) {
    issuers.None? || cert.issuer in issuers.value
  }

  // What the issued list shows.
  function Listed(db: Table, issuers: Issuers): Table {
    map s | s in db && Ours(issuers, db[s]) :: db[s]
  }

  // --- The broker ---

  ghost function Issued(db: Table, serial: string, issuer: nat, body: string): Table {
    db[serial := Cert(Top(db) + 1, issuer, body, false)]
  }

  ghost function Revoked(db: Table, serial: string): Table
    requires serial in db
  {
    if db[serial].revoked then db else db[serial := db[serial].(changed := Top(db) + 1, revoked := true)]
  }

  // `replaced`: every row from the copy, its change past every change of either.
  ghost function Restored(db: Table, copy: Table): Table {
    var past := if Top(db) > Top(copy) then Top(db) else Top(copy);
    map s | s in copy :: copy[s].(changed := copy[s].changed + past)
  }

  // What a broker's step must do for a cursor to stay good: whatever it writes is past
  // everything there was, and the highest change never falls.
  ghost predicate MovesOn(db: Table, db': Table) {
    && Proper(db') && Top(db') >= Top(db)
    && forall s :: s in db' ==> (s in db && db'[s] == db[s]) || db'[s].changed > Top(db)
  }

  lemma IssueMovesOn(db: Table, serial: string, issuer: nat, body: string)
    requires Proper(db)
    ensures MovesOn(db, Issued(db, serial, issuer, body))
  {
    TopBounds(db);
    TopBounds(Issued(db, serial, issuer, body));
    assert serial in Issued(db, serial, issuer, body);
  }

  lemma RevokeMovesOn(db: Table, serial: string)
    requires Proper(db) && serial in db
    ensures MovesOn(db, Revoked(db, serial))
  {
    TopBounds(db);
    TopBounds(Revoked(db, serial));
    assert serial in Revoked(db, serial);
  }

  // A restore puts back exactly the capture's rows, each whole but for its change, and the
  // changes in the capture's order.
  lemma RestorePutsBackTheCapture(db: Table, copy: Table)
    ensures Restored(db, copy).Keys == copy.Keys
    ensures forall s :: s in copy ==>
      var row := Restored(db, copy)[s];
      row.issuer == copy[s].issuer && row.body == copy[s].body && row.revoked == copy[s].revoked
    ensures forall s, t :: s in copy && t in copy ==>
      (Restored(db, copy)[s].changed < Restored(db, copy)[t].changed <==> copy[s].changed < copy[t].changed)
  {
  }

  // A revocation changes one row, in its change and its revocation alone.
  lemma RevokeTouchesOneRow(db: Table, serial: string)
    requires serial in db
    ensures Revoked(db, serial).Keys == db.Keys && Revoked(db, serial)[serial].revoked
    ensures forall s :: s in db && s != serial ==> Revoked(db, serial)[s] == db[s]
    ensures
      var row := Revoked(db, serial)[serial];
      && row.issuer == db[serial].issuer && row.body == db[serial].body
      && (db[serial].revoked ==> row.changed == db[serial].changed)
      && (!db[serial].revoked ==> row.changed > Top(db))
  {
  }

  // A certificate is recorded unrevoked, as issued, beside the others as they were.
  lemma IssueAddsOneRow(db: Table, serial: string, issuer: nat, body: string)
    requires serial !in db
    ensures
      var after := Issued(db, serial, issuer, body);
      && after.Keys == db.Keys + {serial} && (forall s :: s in db ==> after[s] == db[s])
      && after[serial].issuer == issuer && after[serial].body == body && !after[serial].revoked
  {
  }

  // A restore moves on unless it empties a table that held certificates: then the next
  // change is numbered from 1 again.
  lemma RestoreMovesOnExactlyWhen(db: Table, copy: Table)
    requires Proper(db) && Proper(copy)
    ensures Proper(Restored(db, copy))
    ensures MovesOn(db, Restored(db, copy)) <==> copy != map[] || db == map[]
  {
    var db' := Restored(db, copy);
    RestoredIsPast(db, copy);
    TopBounds(db);
    TopBounds(db');
    if copy != map[] {
      var s :| s in copy;
      assert s in db';
    } else {
      assert db' == map[];
    }
  }

  lemma RestoredIsPast(db: Table, copy: Table)
    requires Proper(db) && Proper(copy)
    ensures Proper(Restored(db, copy))
    ensures forall s :: s in Restored(db, copy) ==> Restored(db, copy)[s].changed > Top(db)
  {
    TopBounds(db);
    TopBounds(copy);
  }

  // --- opCA's copy ---

  // Everything listed up to the cursor is held as the broker has it.
  ghost predicate Synced(view: Table, m: Table) {
    forall s :: s in view && view[s].changed <= Top(m) ==> s in m && m[s] == view[s]
  }

  // The cursor is not past `top`, the broker's highest change, and no row is ahead.
  ghost predicate Behind(view: Table, top: int, m: Table) {
    && Top(m) <= top
    && forall s :: s in m && s in view ==> m[s].changed <= view[s].changed
  }

  ghost predicate Good(view: Table, top: int, m: Table) {
    Synced(view, m) && Behind(view, top, m)
  }

  // `INSERT OR REPLACE`, in order.
  function Recorded(m: Table, rows: seq<(string, Cert)>): Table {
    if rows == [] then m
    else
      var (serial, cert) := rows[|rows| - 1];
      Recorded(m, rows[..|rows| - 1])[serial := cert]
  }

  // The row that is left of those for `s`.
  function LastRow(rows: seq<(string, Cert)>, s: string): Option<Cert> {
    if rows == [] then None
    else if rows[|rows| - 1].0 == s then Some(rows[|rows| - 1].1)
    else LastRow(rows[..|rows| - 1], s)
  }

  lemma {:induction false} RecordedAt(m: Table, rows: seq<(string, Cert)>, s: string)
    ensures s in Recorded(m, rows) <==> s in m || LastRow(rows, s).Some?
    ensures LastRow(rows, s).Some? ==> Recorded(m, rows)[s] == LastRow(rows, s).value
    ensures LastRow(rows, s).None? && s in m ==> Recorded(m, rows)[s] == m[s]
    decreases |rows|
  {
    if rows != [] {
      RecordedAt(m, rows[..|rows| - 1], s);
    }
  }

  lemma {:induction false} LastRowIn(rows: seq<(string, Cert)>, s: string)
    ensures LastRow(rows, s).Some? ==> exists i :: 0 <= i < |rows| && rows[i] == (s, LastRow(rows, s).value)
    ensures LastRow(rows, s).None? ==> forall i :: 0 <= i < |rows| ==> rows[i].0 != s
    decreases |rows|
  {
    if rows != [] {
      var front := rows[..|rows| - 1];
      LastRowIn(front, s);
      if LastRow(rows, s).Some? {
        if rows[|rows| - 1].0 != s {
          var i :| 0 <= i < |front| && front[i] == (s, LastRow(front, s).value);
          assert rows[i] == front[i];
        }
      }
    }
  }

  lemma {:induction false} LastRowConcat(a: seq<(string, Cert)>, b: seq<(string, Cert)>, s: string)
    ensures LastRow(a + b, s) == if LastRow(b, s).Some? then LastRow(b, s) else LastRow(a, s)
    decreases |b|
  {
    if b == [] {
      assert a + b == a;
    } else {
      assert (a + b)[..|a + b| - 1] == a + b[..|b| - 1];
      LastRowConcat(a, b[..|b| - 1], s);
    }
  }

  // --- Pages ---

  // What `changed_after` and `page` answer: up to `limit` certificates past `after`,
  // oldest change first, and whether any are left.
  ghost predicate IsPage(view: Table, after: int, limit: nat, page: seq<(string, Cert)>, more: bool) {
    && |page| <= limit && (more ==> |page| == limit)
    && (forall i :: 0 <= i < |page| ==> page[i].0 in view && view[page[i].0] == page[i].1 && page[i].1.changed > after)
    && Rising(page)
    && (forall s :: s in view && view[s].changed > after ==>
          (exists i :: 0 <= i < |page| && page[i].0 == s)
          || (more && forall i :: 0 <= i < |page| ==> page[i].1.changed < view[s].changed))
  }

  ghost predicate Rising(rows: seq<(string, Cert)>) {
    forall i, j :: 0 <= i < j < |rows| ==> rows[i].1.changed < rows[j].1.changed
  }

  // The cursor for the next call: the last change here, or the one asked for.
  function Next(after: int, rows: seq<(string, Cert)>): int {
    if rows == [] then after else rows[|rows| - 1].1.changed
  }

  // --- Calls ---

  // A call begun with the cursor at `from`. A sync has `got` rows and fetches on from
  // `after`; the operator's revocation of a leaf has one row, whose change is `capped`
  // at the cursor when it is written.
  datatype Call = Call(from: int, after: int, got: seq<(string, Cert)>, done: bool, capped: bool)

  ghost function Capped(m: Table, c: Cert): Cert {
    if c.changed <= Top(m) then c else c.(changed := Top(m))
  }

  // The rows a call writes over `m`.
  ghost function Rows(m: Table, call: Call): seq<(string, Cert)> {
    if call.capped && |call.got| == 1 then [(call.got[0].0, Capped(m, call.got[0].1))] else call.got
  }

  ghost function Written(m: Table, call: Call): Table {
    Recorded(m, Rows(m, call))
  }

  // A row is of a certificate the broker had; it is the broker's still unless that moved on.
  ghost predicate WasListed(view: Table, row: (string, Cert)) {
    row.0 in view ==>
      && row.1.changed <= view[row.0].changed
      && (row.1.changed == view[row.0].changed ==> row.1 == view[row.0])
  }

  // What a sync has got holds everything listed that changed past `from`, up to its last row.
  ghost predicate SyncGood(view: Table, top: int, call: Call) {
    && Rising(call.got) && call.from <= top && Next(call.from, call.got) <= top
    && (!call.done ==> call.after == Next(call.from, call.got))
    && (forall i :: 0 <= i < |call.got| ==> call.got[i].1.changed > call.from && WasListed(view, call.got[i]))
    && (forall s :: s in view && call.from < view[s].changed <= Next(call.from, call.got) ==>
          LastRow(call.got, s) == Some(view[s]))
  }

  ghost predicate CallGood(view: Table, top: int, call: Call) {
    if call.capped then call.done && |call.got| == 1 && WasListed(view, call.got[0]) && call.got[0].1.changed <= top
    else SyncGood(view, top, call)
  }

  // --- When a call may be written ---

  // A row of the answer is older than the copy's, of a change the cursor has passed.
  ghost predicate Contradicts(view: Table, m: Table, call: Call, s: string) {
    var row := LastRow(Rows(m, call), s);
    && row.Some? && s in m && row.value.changed < m[s].changed
    && s in view && view[s].changed <= Top(Written(m, call))
  }

  // The cursor fell back since the call began, and the answer moves it past a certificate
  // that neither holds.
  ghost predicate Skips(view: Table, m: Table, call: Call, s: string) {
    && !call.capped && s in view
    && Top(m) < view[s].changed <= call.from && view[s].changed <= Top(Written(m, call))
  }

  ghost predicate Writable(view: Table, m: Table, call: Call) {
    forall s :: !Contradicts(view, m, call, s) && !Skips(view, m, call, s)
  }

  // Where the cursor is after a sync: at its last row, or where some row not replaced was.
  lemma TopWritten(m: Table, call: Call)
    requires !call.capped && Rising(call.got)
    ensures var top := Top(Written(m, call));
      && (call.got == [] ==> top == Top(m))
      && (call.got != [] ==> top >= Next(call.from, call.got))
      && (top <= Top(m) || (call.got != [] && top <= Next(call.from, call.got)))
  {
    var w := Written(m, call);
    TopBounds(m);
    TopBounds(w);
    if call.got != [] {
      var last := call.got[|call.got| - 1];
      RecordedAt(m, call.got, last.0);
      assert w[last.0] == last.1;
      var s :| s in w && w[s].changed == Top(w);
      RecordedAt(m, call.got, s);
      LastRowIn(call.got, s);
    }
  }

  // What a sync leaves of one certificate.
  lemma SyncWritesExactlyWhen(view: Table, top: int, m: Table, call: Call, s: string)
    requires Good(view, top, m) && SyncGood(view, top, call) && !call.capped
    requires s in view && view[s].changed <= Top(Written(m, call))
    ensures s in Written(m, call) && Written(m, call)[s] == view[s] <==>
      !Contradicts(view, m, call, s) && !Skips(view, m, call, s)
  {
    TopWritten(m, call);
    TopBounds(m);
    RecordedAt(m, call.got, s);
    LastRowIn(call.got, s);
    var row := LastRow(call.got, s);
    if row.Some? {
      var i :| 0 <= i < |call.got| && call.got[i] == (s, row.value);
      assert WasListed(view, call.got[i]);
    }
  }

  lemma SyncStaysBehind(view: Table, top: int, m: Table, call: Call)
    requires Good(view, top, m) && SyncGood(view, top, call) && !call.capped
    ensures Behind(view, top, Written(m, call))
  {
    TopWritten(m, call);
    var w := Written(m, call);
    forall s | s in w && s in view ensures w[s].changed <= view[s].changed {
      RecordedAt(m, call.got, s);
      LastRowIn(call.got, s);
    }
  }

  // The answer to a revocation, its change capped at the cursor, never moves it on.
  lemma TopCapped(m: Table, s: string, cert: Cert)
    ensures Top(m[s := Capped(m, cert)]) <= Top(m)
  {
    var w := m[s := Capped(m, cert)];
    TopBounds(m);
    TopBounds(w);
    assert s in w;
  }

  // It is written whole but for its change, which is the lesser of its own and the cursor.
  lemma CappedRow(m: Table, call: Call)
    requires call.capped && |call.got| == 1
    ensures
      var (s, cert) := call.got[0];
      Written(m, call) ==
        m[s := Cert(if cert.changed <= Top(m) then cert.changed else Top(m), cert.issuer, cert.body, cert.revoked)]
  {
    OneRow(m, call.got[0].0, Capped(m, call.got[0].1));
  }

  lemma CappedWrites(view: Table, top: int, m: Table, call: Call)
    requires Good(view, top, m) && CallGood(view, top, call) && call.capped
    ensures Good(view, top, Written(m, call)) <==> Writable(view, m, call)
  {
    var (s, cert) := call.got[0];
    var row := Capped(m, cert);
    var w := m[s := row];
    OneRow(m, s, row);
    TopCapped(m, s, cert);
    TopBounds(m);
    assert Behind(view, top, w);
    CappedContradicts(view, m, call);
    assert Synced(view, w) <==> (s in view && view[s].changed <= Top(w) ==> row == view[s]) by {
      assert forall t :: t in view && view[t].changed <= Top(w) && t != s ==> t in w && w[t] == view[t];
    }
  }

  lemma CappedContradicts(view: Table, m: Table, call: Call)
    requires call.capped && |call.got| == 1
    ensures var (s, cert) := call.got[0];
      var row := Capped(m, cert);
      Writable(view, m, call) <==>
        !(s in m && row.changed < m[s].changed && s in view && view[s].changed <= Top(m[s := row]))
  {
    var (s, cert) := call.got[0];
    var row := Capped(m, cert);
    OneRow(m, s, row);
    forall t | t != s ensures !Contradicts(view, m, call, t) {
      OneRowOnly(s, row, t);
    }
    assert Contradicts(view, m, call, s) <==>
      s in m && row.changed < m[s].changed && s in view && view[s].changed <= Top(m[s := row]);
  }

  lemma OneRow(m: Table, s: string, cert: Cert)
    ensures Recorded(m, [(s, cert)]) == m[s := cert] && LastRow([(s, cert)], s) == Some(cert)
  {
    assert [(s, cert)][..0] == [];
  }

  lemma OneRowOnly(s: string, cert: Cert, t: string)
    ensures t != s ==> LastRow([(s, cert)], t) == None
  {
    assert [(s, cert)][..0] == [];
  }

  // A call written over a good copy, whatever became of it since the call began, leaves a
  // good copy exactly when no row of the answer contradicts what the copy holds of a
  // change its cursor has passed, and the answer skips nothing.
  lemma WriteKeepsGoodExactlyWhen(view: Table, top: int, m: Table, call: Call)
    requires Good(view, top, m) && CallGood(view, top, call)
    ensures Good(view, top, Written(m, call)) <==> Writable(view, m, call)
  {
    if call.capped {
      CappedWrites(view, top, m, call);
    } else {
      SyncStaysBehind(view, top, m, call);
      forall s | s in view && view[s].changed <= Top(Written(m, call))
        ensures s in Written(m, call) && Written(m, call)[s] == view[s] <==>
          !Contradicts(view, m, call, s) && !Skips(view, m, call, s)
      {
        SyncWritesExactlyWhen(view, top, m, call, s);
      }
    }
  }

  // What opCA could check: it never puts an older row over a newer, so its cursor never
  // falls back either.
  lemma NewerRowsAreWritable(view: Table, top: int, m: Table, call: Call)
    requires Good(view, top, m) && CallGood(view, top, call) && (call.capped || call.from <= Top(m))
    requires forall i :: 0 <= i < |call.got| ==> call.got[i].1.changed > 0
    requires forall s :: s in m && LastRow(Rows(m, call), s).Some? ==>
      m[s].changed <= LastRow(Rows(m, call), s).value.changed
    ensures Writable(view, m, call) && Top(Written(m, call)) >= Top(m)
  {
    var w := Written(m, call);
    TopBounds(m);
    TopBounds(w);
    if m != map[] {
      var s :| s in m && m[s].changed == Top(m);
      RecordedAt(m, Rows(m, call), s);
      assert s in w;
    } else if w != map[] {
      var s :| s in w && w[s].changed == Top(w);
      RecordedAt(m, Rows(m, call), s);
      LastRowIn(Rows(m, call), s);
    }
  }

  // --- The system ---

  datatype State = State(db: Table, issuers: Issuers, mirror: Table, calls: map<nat, Call>)

  datatype Step =
    | Issue(serial: string, issuer: nat, body: string)
    | Revoke(serial: string)
    | Restore(copy: Table)
    | Renew(issuer: nat) // a new chain
    | Begin(id: nat)
    | Fetch(id: nat, limit: nat, page: seq<(string, Cert)>, more: bool)
    | Ask(id: nat, serial: string) // the operator revokes a leaf
    | Record(id: nat)
    | Fail(id: nat)

  ghost function View(st: State): Table {
    Listed(st.db, st.issuers)
  }

  ghost predicate Enabled(st: State, step: Step) {
    match step
    case Issue(serial, issuer, body) => serial !in st.db
    case Revoke(serial) => serial in st.db
    case Restore(copy) => Proper(copy)
    case Renew(issuer) => true
    case Begin(id) => id !in st.calls
    case Fetch(id, limit, page, more) =>
      id in st.calls && !st.calls[id].done && IsPage(View(st), st.calls[id].after, limit, page, more)
    case Ask(id, serial) => id !in st.calls && serial in View(st)
    case Record(id) => id in st.calls && st.calls[id].done
    case Fail(id) => id in st.calls
  }

  // One turn of the paging loop.
  function Fetched(call: Call, page: seq<(string, Cert)>, more: bool): Call {
    var next := Next(call.after, page);
    if !more || next <= call.after then call.(got := call.got + page, done := true)
    else call.(got := call.got + page, after := next)
  }

  function Renewed(issuers: Issuers, issuer: nat): Issuers {
    if issuers.Some? then Some(issuers.value + {issuer}) else None
  }

  ghost function Asked(db: Table, serial: string): Call
    requires serial in db
  {
    Call(0, 0, [(serial, Revoked(db, serial)[serial])], true, true)
  }

  ghost function Apply(st: State, step: Step): State
    requires Enabled(st, step)
  {
    match step
    case Issue(serial, issuer, body) => st.(db := Issued(st.db, serial, issuer, body))
    case Revoke(serial) => st.(db := Revoked(st.db, serial))
    case Restore(copy) => st.(db := Restored(st.db, copy))
    case Renew(issuer) => st.(issuers := Renewed(st.issuers, issuer))
    case Begin(id) => st.(calls := st.calls[id := Call(Top(st.mirror), Top(st.mirror), [], false, false)])
    case Fetch(id, limit, page, more) => st.(calls := st.calls[id := Fetched(st.calls[id], page, more)])
    case Ask(id, serial) => st.(db := Revoked(st.db, serial), calls := st.calls[id := Asked(st.db, serial)])
    case Record(id) => st.(mirror := Written(st.mirror, st.calls[id]), calls := st.calls - {id})
    case Fail(id) => st.(calls := st.calls - {id})
  }

  // No call is written that would spoil the copy, no restore empties a table that held
  // certificates, and a chain's serial is new to the list before it has issued anything.
  ghost predicate Orderly(st: State, step: Step) {
    match step
    case Record(id) => id in st.calls ==> Writable(View(st), st.mirror, st.calls[id])
    case Restore(copy) => copy != map[] || st.db == map[]
    case Renew(issuer) => Listed(st.db, Renewed(st.issuers, issuer)) == View(st)
    case _ => true
  }

  ghost predicate Inv(st: State) {
    && Proper(st.db) && Good(View(st), Top(st.db), st.mirror)
    && forall id :: id in st.calls ==> CallGood(View(st), Top(st.db), st.calls[id])
  }

  // What the list shows moves on as the table does.
  ghost predicate ViewMoves(view: Table, top: int, view': Table, top': int) {
    top' >= top && forall s :: s in view' ==> (s in view && view'[s] == view[s]) || view'[s].changed > top
  }

  lemma MovingOnKeepsCall(view: Table, top: int, view': Table, top': int, call: Call)
    requires CallGood(view, top, call) && ViewMoves(view, top, view', top')
    ensures CallGood(view', top', call)
  {
    assert Rising(call.got) ==> forall i :: 0 <= i < |call.got| ==> call.got[i].1.changed <= Next(call.from, call.got);
  }

  lemma MovingOnKeepsGood(view: Table, top: int, view': Table, top': int, m: Table)
    requires Good(view, top, m) && ViewMoves(view, top, view', top')
    ensures Good(view', top', m)
  {
    TopBounds(m);
  }

  lemma BrokerKeeps(st: State, db: Table)
    requires Inv(st) && MovesOn(st.db, db)
    ensures Inv(st.(db := db))
  {
    var view := Listed(db, st.issuers);
    assert ViewMoves(View(st), Top(st.db), view, Top(db));
    MovingOnKeepsGood(View(st), Top(st.db), view, Top(db), st.mirror);
    forall id | id in st.calls ensures CallGood(view, Top(db), st.calls[id]) {
      MovingOnKeepsCall(View(st), Top(st.db), view, Top(db), st.calls[id]);
    }
  }

  lemma CallKeeps(st: State, id: nat, call: Call)
    requires Inv(st) && CallGood(View(st), Top(st.db), call)
    ensures Inv(st.(calls := st.calls[id := call]))
  {
  }

  lemma PageRowOf(view: Table, after: int, limit: nat, page: seq<(string, Cert)>, more: bool, s: string)
    requires IsPage(view, after, limit, page, more)
    ensures LastRow(page, s).Some? ==> s in view && LastRow(page, s).value == view[s] && view[s].changed > after
    ensures s in view && after < view[s].changed && (!more || view[s].changed <= Next(after, page)) ==>
      LastRow(page, s) == Some(view[s])
  {
    LastRowIn(page, s);
  }

  lemma FetchedCovers(view: Table, top: int, call: Call, limit: nat, page: seq<(string, Cert)>, more: bool, s: string)
    requires SyncGood(view, top, call) && !call.done && IsPage(view, call.after, limit, page, more)
    requires s in view && call.from < view[s].changed
    requires !more || view[s].changed <= Next(call.after, page)
    ensures LastRow(call.got + page, s) == Some(view[s])
  {
    LastRowConcat(call.got, page, s);
    PageRowOf(view, call.after, limit, page, more, s);
  }

  lemma FetchKeeps(view: Table, top: int, call: Call, limit: nat, page: seq<(string, Cert)>, more: bool)
    requires SyncGood(view, top, call) && !call.done && IsPage(view, call.after, limit, page, more)
    requires forall s :: s in view ==> view[s].changed <= top
    ensures SyncGood(view, top, Fetched(call, page, more))
  {
    var got := call.got + page;
    assert Next(call.from, got) == Next(call.after, page);
    forall i | 0 <= i < |got| ensures got[i].1.changed > call.from && WasListed(view, got[i]) {
      FetchedWasListed(view, top, call, limit, page, more, i);
    }
    RisingConcat(call, page);
    forall s | s in view && call.from < view[s].changed <= Next(call.from, got)
      ensures LastRow(got, s) == Some(view[s])
    {
      FetchedCovers(view, top, call, limit, page, more, s);
    }
  }

  lemma FetchedWasListed(
    view: Table, top: int, call: Call, limit: nat, page: seq<(string, Cert)>, more: bool, i: nat)
    requires SyncGood(view, top, call) && !call.done && IsPage(view, call.after, limit, page, more)
    requires i < |call.got + page|
    ensures var row := (call.got + page)[i]; row.1.changed > call.from && WasListed(view, row)
  {
    if i < |call.got| {
      assert (call.got + page)[i] == call.got[i];
    } else {
      assert (call.got + page)[i] == page[i - |call.got|];
      ReachIsLast(call, 0);
    }
  }

  lemma ReachIsLast(call: Call, i: nat)
    requires Rising(call.got) && forall j :: 0 <= j < |call.got| ==> call.got[j].1.changed > call.from
    ensures call.from <= Next(call.from, call.got)
    ensures i < |call.got| ==> call.got[i].1.changed <= Next(call.from, call.got)
  {
  }

  lemma RisingConcat(call: Call, page: seq<(string, Cert)>)
    requires Rising(call.got) && Rising(page)
    requires forall i :: 0 <= i < |page| ==> page[i].1.changed > Next(call.from, call.got)
    ensures Rising(call.got + page)
  {
    var got := call.got + page;
    forall i, j | 0 <= i < j < |got| ensures got[i].1.changed < got[j].1.changed {
      if j >= |call.got| {
        assert got[j] == page[j - |call.got|];
        if i < |call.got| {
          assert call.got[i].1.changed <= Next(call.from, call.got);
        }
      }
    }
  }

  lemma StepKeeps(st: State, step: Step)
    requires Inv(st) && Enabled(st, step) && Orderly(st, step)
    ensures Inv(Apply(st, step))
  {
    match step
    case Issue(serial, issuer, body) =>
      IssueMovesOn(st.db, serial, issuer, body);
      BrokerKeeps(st, Issued(st.db, serial, issuer, body));
    case Revoke(serial) =>
      RevokeMovesOn(st.db, serial);
      BrokerKeeps(st, Revoked(st.db, serial));
    case Restore(copy) =>
      RestoreMovesOnExactlyWhen(st.db, copy);
      BrokerKeeps(st, Restored(st.db, copy));
    case Renew(issuer) =>
    case Begin(id) => CallKeeps(st, id, Call(Top(st.mirror), Top(st.mirror), [], false, false));
    case Fetch(id, limit, page, more) =>
      TopBounds(st.db);
      FetchKeeps(View(st), Top(st.db), st.calls[id], limit, page, more);
      CallKeeps(st, id, Fetched(st.calls[id], page, more));
    case Ask(id, serial) => AskKeeps(st, id, serial);
    case Record(id) =>
      WriteKeepsGoodExactlyWhen(View(st), Top(st.db), st.mirror, st.calls[id]);
    case Fail(id) =>
  }

  lemma AskKeeps(st: State, id: nat, serial: string)
    requires Inv(st) && Enabled(st, Ask(id, serial))
    ensures Inv(Apply(st, Ask(id, serial)))
  {
    RevokeMovesOn(st.db, serial);
    var db := Revoked(st.db, serial);
    BrokerKeeps(st, db);
    TopBounds(db);
    CallKeeps(st.(db := db), id, Asked(st.db, serial));
  }

  // --- Runs ---

  ghost predicate Runs(st: State, steps: seq<Step>)
    decreases |steps|
  {
    steps == [] || (Enabled(st, steps[0]) && Runs(Apply(st, steps[0]), steps[1..]))
  }

  ghost function Exec(st: State, steps: seq<Step>): State
    requires Runs(st, steps)
    decreases |steps|
  {
    if steps == [] then st else Exec(Apply(st, steps[0]), steps[1..])
  }

  ghost predicate RunsOrderly(st: State, steps: seq<Step>)
    requires Runs(st, steps)
    decreases |steps|
  {
    steps == [] || (Orderly(st, steps[0]) && RunsOrderly(Apply(st, steps[0]), steps[1..]))
  }

  // Over every run, restores apart, a row keeps its issuer and body, and once revoked it
  // stays revoked; and it is revoked only by a request of that run.
  lemma {:induction false} RevokedStaysRevoked(st: State, steps: seq<Step>, serial: string)
    requires Runs(st, steps) && serial in st.db && RestoreFree(steps)
    ensures serial in Exec(st, steps).db
    ensures
      var row := Exec(st, steps).db[serial];
      && row.issuer == st.db[serial].issuer && row.body == st.db[serial].body
      && (row.revoked <==> st.db[serial].revoked || RevokedBy(steps, serial))
    decreases |steps|
  {
    if steps != [] {
      var next := Apply(st, steps[0]);
      if steps[0].Revoke? || steps[0].Ask? {
        RevokeTouchesOneRow(st.db, steps[0].serial);
      } else if steps[0].Issue? {
        IssueAddsOneRow(st.db, steps[0].serial, steps[0].issuer, steps[0].body);
      }
      RevokedStaysRevoked(next, steps[1..], serial);
      RevokedByOneMore(steps, serial);
    }
  }

  ghost predicate RestoreFree(steps: seq<Step>) {
    forall t :: t in steps ==> !t.Restore?
  }

  // By a client or by the operator.
  ghost predicate RevokedBy(steps: seq<Step>, serial: string) {
    exists t :: t in steps && (t.Revoke? || t.Ask?) && t.serial == serial
  }

  lemma RevokedByOneMore(steps: seq<Step>, serial: string)
    requires steps != []
    ensures RevokedBy(steps, serial) <==>
      ((steps[0].Revoke? || steps[0].Ask?) && steps[0].serial == serial) || RevokedBy(steps[1..], serial)
  {
    assert steps == [steps[0]] + steps[1..];
  }

  // So a run from a restore on holds the capture's revocations and those made since.
  lemma RestoreLeavesTheCapturesRevocations(st: State, copy: Table, steps: seq<Step>, serial: string)
    requires Proper(copy) && Runs(Apply(st, Restore(copy)), steps) && RestoreFree(steps) && serial in copy
    ensures serial in Exec(Apply(st, Restore(copy)), steps).db
    ensures
      var row := Exec(Apply(st, Restore(copy)), steps).db[serial];
      && row.issuer == copy[serial].issuer && row.body == copy[serial].body
      && (row.revoked <==> copy[serial].revoked || RevokedBy(steps, serial))
  {
    RestorePutsBackTheCapture(st.db, copy);
    RevokedStaysRevoked(Apply(st, Restore(copy)), steps, serial);
  }

  function Start(issuers: Issuers): State {
    State(map[], issuers, map[], map[])
  }

  lemma StartIsGood(issuers: Issuers)
    ensures Inv(Start(issuers))
  {
    TopBounds(Start(issuers).db);
  }

  lemma {:induction false} RunKeeps(st: State, steps: seq<Step>)
    requires Inv(st) && Runs(st, steps) && RunsOrderly(st, steps)
    ensures Inv(Exec(st, steps))
    decreases |steps|
  {
    if steps != [] {
      StepKeeps(st, steps[0]);
      RunKeeps(Apply(st, steps[0]), steps[1..]);
    }
  }

  // In every orderly run, overlapping calls included, opCA's cursor misses nothing: each
  // listed certificate the broker changed up to it is held as the broker has it.
  lemma CursorMissesNothing(issuers: Issuers, steps: seq<Step>, serial: string)
    requires Runs(Start(issuers), steps) && RunsOrderly(Start(issuers), steps)
    ensures var st := Exec(Start(issuers), steps);
      serial in st.db && Ours(st.issuers, st.db[serial]) && st.db[serial].changed <= Top(st.mirror) ==>
        serial in st.mirror && st.mirror[serial] == st.db[serial]
  {
    StartIsGood(issuers);
    RunKeeps(Start(issuers), steps);
    var st := Exec(Start(issuers), steps);
    assert serial in st.db && Ours(st.issuers, st.db[serial]) ==> serial in View(st);
  }

  // And a sync whose last page may be written, before the broker changes anything more and
  // with the cursor not fallen back, holds every certificate listed, however the pages
  // before it fell.
  lemma LastPageCompletes(issuers: Issuers, steps: seq<Step>, id: nat, limit: nat, page: seq<(string, Cert)>)
    requires Runs(Start(issuers), steps) && RunsOrderly(Start(issuers), steps)
    requires var st := Exec(Start(issuers), steps);
      && Enabled(st, Fetch(id, limit, page, false)) && st.calls[id].from <= Top(st.mirror)
      && Orderly(Apply(st, Fetch(id, limit, page, false)), Record(id))
    ensures var st := Apply(Exec(Start(issuers), steps), Fetch(id, limit, page, false));
      Enabled(st, Record(id)) && forall s :: s in View(st) ==>
        s in Apply(st, Record(id)).mirror && Apply(st, Record(id)).mirror[s] == st.db[s]
  {
    StartIsGood(issuers);
    RunKeeps(Start(issuers), steps);
    var st := Exec(Start(issuers), steps);
    StepKeeps(st, Fetch(id, limit, page, false));
    TopBounds(st.db);
    var next := Apply(st, Fetch(id, limit, page, false));
    var call := next.calls[id];
    WriteKeepsGoodExactlyWhen(View(next), Top(next.db), next.mirror, call);
    forall s | s in View(st) ensures View(st)[s].changed <= Top(Written(next.mirror, call)) {
      LastPageReaches(View(st), Top(st.db), st.mirror, st.calls[id], limit, page, s);
    }
  }

  lemma LastPageReaches(view: Table, top: int, m: Table, call: Call, limit: nat, page: seq<(string, Cert)>, s: string)
    requires SyncGood(view, top, call) && !call.done && !call.capped && call.from <= Top(m)
    requires IsPage(view, call.after, limit, page, false)
    requires s in view && forall s :: s in view ==> view[s].changed <= top
    ensures view[s].changed <= Top(Written(m, Fetched(call, page, false)))
  {
    var next := Fetched(call, page, false);
    FetchKeeps(view, top, call, limit, page, false);
    TopWritten(m, next);
    if view[s].changed > call.from {
      FetchedCovers(view, top, call, limit, page, false, s);
      LastRowIn(next.got, s);
      var i :| 0 <= i < |next.got| && next.got[i] == (s, view[s]);
      ReachIsLast(next, i);
    } else {
      ReachIsLast(next, 0);
    }
  }

  // --- What happens otherwise ---

  lemma TopIs(t: Table, s: string)
    requires s in t && forall u :: u in t ==> t[u].changed <= t[s].changed
    ensures Top(t) == t[s].changed
  {
    TopBounds(t);
  }

  lemma PageIsPast(view: Table, after: int, limit: nat, page: seq<(string, Cert)>, more: bool)
    requires IsPage(view, after, limit, page, more)
    ensures page == [] || exists s :: s in view && view[s].changed > after
    ensures more && limit > 0 ==> page != []
  {
    if page != [] {
      assert page[0].0 in view;
    }
  }

  // Whatever the broker held, restoring a capture without certificates makes the next one
  // it issues change 1: at or below every cursor that had seen any, so no sync lists it.
  lemma EmptyRestoreHidesNextCertificate(db: Table, cursor: int, serial: string, issuer: nat, body: string)
    requires cursor > 0
    ensures var after := Issued(Restored(db, map[]), serial, issuer, body);
      && after == map[serial := Cert(1, issuer, body, false)]
      && forall limit, page, more :: limit > 0 && IsPage(after, cursor, limit, page, more) ==> page == [] && !more
  {
    var empty := Restored(db, map[]);
    assert empty == map[];
    TopBounds(empty);
    var after := Issued(empty, serial, issuer, body);
    forall limit, page, more | limit > 0 && IsPage(after, cursor, limit, page, more) ensures page == [] && !more {
      PageIsPast(after, cursor, limit, page, more);
    }
  }

  // Two calls that overlap: both begin over an empty copy, and between their pages leaf
  // "1" is revoked and leaf "2" issued.
  const ONE := Cert(1, 0, "", false)
  const GONE := Cert(2, 0, "", true)
  const TWO := Cert(3, 0, "", false)
  const BEGUN := Call(0, 0, [], false, false)
  const EARLY := Call(0, 0, [("1", ONE)], true, false)
  const LATE := Call(0, 0, [("1", GONE), ("2", TWO)], true, false)

  const AFTER_ISSUE: Table := map["1" := ONE]
  const AFTER_REVOKE: Table := map["1" := GONE]
  const AFTER_BOTH: Table := map["1" := GONE, "2" := TWO]

  lemma EarlyCall()
    ensures var begun := State(AFTER_ISSUE, None, map[], map[0 := BEGUN]);
      && Enabled(Start(None), Issue("1", 0, ""))
      && Apply(Start(None), Issue("1", 0, "")) == State(AFTER_ISSUE, None, map[], map[])
      && Apply(State(AFTER_ISSUE, None, map[], map[]), Begin(0)) == begun
      && Enabled(begun, Fetch(0, 9, EARLY.got, false))
      && Apply(begun, Fetch(0, 9, EARLY.got, false)) == State(AFTER_ISSUE, None, map[], map[0 := EARLY])
  {
    TopBounds(map[]);
    assert EARLY.got[0].0 == "1";
    assert [] + EARLY.got == EARLY.got;
  }

  lemma Meanwhile(calls: map<nat, Call>)
    ensures Apply(State(AFTER_ISSUE, None, map[], calls), Revoke("1")) == State(AFTER_REVOKE, None, map[], calls)
    ensures Apply(State(AFTER_REVOKE, None, map[], calls), Issue("2", 0, "")) == State(AFTER_BOTH, None, map[], calls)
  {
    TopIs(AFTER_ISSUE, "1");
    TopIs(AFTER_REVOKE, "1");
  }

  lemma LatePage()
    ensures IsPage(AFTER_BOTH, 0, 9, LATE.got, false)
  {
    var page := LATE.got;
    assert page[0] == ("1", GONE) && page[1] == ("2", TWO);
    forall s | s in AFTER_BOTH ensures exists i :: 0 <= i < |page| && page[i].0 == s {
      assert s == page[0].0 || s == page[1].0;
    }
  }

  lemma LateBegins()
    ensures Apply(State(AFTER_BOTH, None, map[], map[0 := EARLY]), Begin(1))
         == State(AFTER_BOTH, None, map[], map[0 := EARLY, 1 := BEGUN])
  {
    TopBounds(map[]);
    assert map[0 := EARLY][1 := BEGUN] == map[0 := EARLY, 1 := BEGUN];
  }

  lemma LateFetched()
    ensures Fetched(BEGUN, LATE.got, false) == LATE
  {
    assert [] + LATE.got == LATE.got;
  }

  lemma LateCall()
    ensures var two := State(AFTER_BOTH, None, map[], map[0 := EARLY, 1 := BEGUN]);
      && Enabled(two, Fetch(1, 9, LATE.got, false))
      && Apply(two, Fetch(1, 9, LATE.got, false)) == State(AFTER_BOTH, None, map[], map[0 := EARLY, 1 := LATE])
  {
    var two := State(AFTER_BOTH, None, map[], map[0 := EARLY, 1 := BEGUN]);
    assert View(two) == AFTER_BOTH;
    LatePage();
    LateFetched();
    assert two.calls[1] == BEGUN;
    assert two.calls[1 := LATE] == map[0 := EARLY, 1 := LATE];
  }

  lemma BothRecorded()
    ensures Apply(State(AFTER_BOTH, None, map[], map[0 := EARLY, 1 := LATE]), Record(1))
         == State(AFTER_BOTH, None, AFTER_BOTH, map[0 := EARLY])
    ensures Apply(State(AFTER_BOTH, None, AFTER_BOTH, map[0 := EARLY]), Record(0))
         == State(AFTER_BOTH, None, map["1" := ONE, "2" := TWO], map[])
  {
    assert EARLY.got[..0] == [] && LATE.got[..1] == [("1", GONE)] && LATE.got[..1][..0] == [];
    assert map[0 := EARLY, 1 := LATE] - {1} == map[0 := EARLY] && map[0 := EARLY] - {0} == map[];
    assert Recorded(map[], LATE.got[..1]) == map["1" := GONE];
    assert Recorded(map[], LATE.got) == AFTER_BOTH;
    assert Recorded(AFTER_BOTH, EARLY.got) == AFTER_BOTH["1" := ONE];
    assert AFTER_BOTH["1" := ONE] == map["1" := ONE, "2" := TWO];
  }

  // `rest` runs from `st` to `end`, restoring nothing.
  ghost predicate Reaches(st: State, rest: seq<Step>, end: State) {
    Runs(st, rest) && Exec(st, rest) == end && RestoreFree(rest)
  }

  lemma StepsTo(st: State, step: Step, next: State, rest: seq<Step>, end: State)
    requires Enabled(st, step) && Apply(st, step) == next && !step.Restore? && Reaches(next, rest, end)
    ensures Reaches(st, [step] + rest, end)
  {
    assert ([step] + rest)[1..] == rest;
  }

  // From the two calls' answers to the lost revocation.
  lemma AnswersReach() returns (rest: seq<Step>)
    ensures Reaches(State(AFTER_BOTH, None, map[], map[0 := EARLY]), rest,
                    State(AFTER_BOTH, None, map["1" := ONE, "2" := TWO], map[]))
  {
    var end := State(AFTER_BOTH, None, map["1" := ONE, "2" := TWO], map[]);
    LateBegins();
    LateCall();
    BothRecorded();
    rest := [];
    StepsTo(State(AFTER_BOTH, None, AFTER_BOTH, map[0 := EARLY]), Record(0), end, rest, end);
    rest := [Record(0)] + rest;
    StepsTo(State(AFTER_BOTH, None, map[], map[0 := EARLY, 1 := LATE]), Record(1),
            State(AFTER_BOTH, None, AFTER_BOTH, map[0 := EARLY]), rest, end);
    rest := [Record(1)] + rest;
    StepsTo(State(AFTER_BOTH, None, map[], map[0 := EARLY, 1 := BEGUN]), Fetch(1, 9, LATE.got, false),
            State(AFTER_BOTH, None, map[], map[0 := EARLY, 1 := LATE]), rest, end);
    rest := [Fetch(1, 9, LATE.got, false)] + rest;
    StepsTo(State(AFTER_BOTH, None, map[], map[0 := EARLY]), Begin(1),
            State(AFTER_BOTH, None, map[], map[0 := EARLY, 1 := BEGUN]), rest, end);
    rest := [Begin(1)] + rest;
  }

  // The earlier answer, written after the later one, takes the revocation back; and as
  // the cursor has passed it, no page from there on brings it again.
  lemma LateAnswerLosesRevocation() returns (steps: seq<Step>)
    ensures Runs(Start(None), steps) && RestoreFree(steps)
    ensures var st := Exec(Start(None), steps);
      && "1" in st.db && st.db["1"].revoked && st.db["1"].changed <= Top(st.mirror)
      && "1" in st.mirror && !st.mirror["1"].revoked
  {
    var end := State(AFTER_BOTH, None, map["1" := ONE, "2" := TWO], map[]);
    var early: map<nat, Call> := map[0 := EARLY];
    EarlyCall();
    Meanwhile(early);
    TopIs(end.mirror, "2");
    steps := AnswersReach();
    StepsTo(State(AFTER_REVOKE, None, map[], early), Issue("2", 0, ""),
            State(AFTER_BOTH, None, map[], early), steps, end);
    steps := [Issue("2", 0, "")] + steps;
    StepsTo(State(AFTER_ISSUE, None, map[], early), Revoke("1"), State(AFTER_REVOKE, None, map[], early), steps, end);
    steps := [Revoke("1")] + steps;
    StepsTo(State(AFTER_ISSUE, None, map[], map[0 := BEGUN]), Fetch(0, 9, EARLY.got, false),
            State(AFTER_ISSUE, None, map[], early), steps, end);
    steps := [Fetch(0, 9, EARLY.got, false)] + steps;
    StepsTo(State(AFTER_ISSUE, None, map[], map[]), Begin(0),
            State(AFTER_ISSUE, None, map[], map[0 := BEGUN]), steps, end);
    steps := [Begin(0)] + steps;
    StepsTo(Start(None), Issue("1", 0, ""), State(AFTER_ISSUE, None, map[], map[]), steps, end);
    steps := [Issue("1", 0, "")] + steps;
  }
}
