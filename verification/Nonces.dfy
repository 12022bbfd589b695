// The pool of anti-replay nonces (section 6.5 of RFC 8555): a live set and the queue of
// those issued, the oldest forgotten once `capacity` are held. The random nonce that
// `issue` draws is a parameter, so nothing here assumes that nonces never repeat.
module Nonces {
  import opened Wrappers

  datatype Op = Issue(nonce: string) | Redeem(nonce: string)

  datatype Pool = Pool(live: set<string>, issued: seq<string>)

  // With room for none, the newest nonce is still held.
  function Room(capacity: nat): (r: nat)
    ensures r >= 1
  {
    if capacity == 0 then 1 else capacity
  }

  function Elements(q: seq<string>): set<string> {
    set x | x in q
  }

  // How many of the queue go before one more is pushed.
  function Excess(q: seq<string>, capacity: nat): (r: nat)
    ensures r <= |q| && |q| - r < Room(capacity)
  {
    if |q| < Room(capacity) then 0 else |q| + 1 - Room(capacity)
  }

  function Apply(p: Pool, capacity: nat, op: Op): Pool {
    match op
    case Redeem(n) => Pool(p.live - {n}, p.issued)
    case Issue(n) =>
      var gone := Excess(p.issued, capacity);
      Pool(p.live - Elements(p.issued[..gone]) + {n}, p.issued[gone..] + [n])
  }

  // The pool after the first `k` of `ops`.
  function After(capacity: nat, ops: seq<Op>, k: nat): Pool
    requires k <= |ops|
  {
    if k == 0 then Pool({}, []) else Apply(After(capacity, ops, k - 1), capacity, ops[k - 1])
  }

  lemma {:induction false} AfterExtends(capacity: nat, ops: seq<Op>, more: seq<Op>, k: nat)
    requires k <= |ops|
    ensures After(capacity, ops + more, k) == After(capacity, ops, k)
  {
    if k > 0 {
      AfterExtends(capacity, ops, more, k - 1);
    }
  }

  // --- The queue ---

  // How many of the first `k` of `ops` issue: the serial number of an issue at `k`.
  function Issues(ops: seq<Op>, k: nat): (r: nat)
    requires k <= |ops|
    ensures r <= k
  {
    if k == 0 then 0 else Issues(ops, k - 1) + if ops[k - 1].Issue? then 1 else 0
  }

  lemma {:induction false} IssuesGrow(ops: seq<Op>, j: nat, k: nat)
    requires j <= k <= |ops|
    ensures Issues(ops, j) <= Issues(ops, k)
    ensures j < k && ops[j].Issue? ==> Issues(ops, j) < Issues(ops, k)
    decreases k
  {
    if j < k {
      IssuesGrow(ops, j, k - 1);
    }
  }

  // The serial number of the oldest nonce in the queue.
  function Oldest(capacity: nat, ops: seq<Op>, k: nat): int
    requires k <= |ops|
  {
    Issues(ops, k) - |After(capacity, ops, k).issued|
  }

  // The queue is the last issues, as many as there is room for, in their order.
  lemma {:induction false} QueueIsTheLastIssues(capacity: nat, ops: seq<Op>, k: nat)
    requires k <= |ops|
    ensures var q := After(capacity, ops, k).issued;
      && |q| == (if Issues(ops, k) < Room(capacity) then Issues(ops, k) else Room(capacity))
      && forall i :: 0 <= i < k && ops[i].Issue? && Oldest(capacity, ops, k) <= Issues(ops, i) ==>
           Issues(ops, i) < Issues(ops, k) && q[Issues(ops, i) - Oldest(capacity, ops, k)] == ops[i].nonce
  {
    if k > 0 {
      QueueIsTheLastIssues(capacity, ops, k - 1);
      forall i | 0 <= i < k && ops[i].Issue? ensures Issues(ops, i) < Issues(ops, k) {
        IssuesGrow(ops, i, k);
      }
      forall i | 0 <= i < k - 1 && ops[i].Issue? ensures Issues(ops, i) < Issues(ops, k - 1) {
        IssuesGrow(ops, i, k - 1);
      }
    }
  }

  // Every serial number below the count was some issue's.
  lemma {:induction false} IssueWithSerial(ops: seq<Op>, k: nat, serial: nat) returns (i: nat)
    requires k <= |ops| && serial < Issues(ops, k)
    ensures i < k && ops[i].Issue? && Issues(ops, i) == serial
  {
    if ops[k - 1].Issue? && Issues(ops, k - 1) == serial {
      i := k - 1;
    } else {
      i := IssueWithSerial(ops, k - 1, serial);
    }
  }

  // The pool never grows past its room, and only the queue's nonces are live.
  lemma {:induction false} LiveIsQueued(capacity: nat, ops: seq<Op>, k: nat)
    requires k <= |ops|
    ensures var p := After(capacity, ops, k);
      p.live <= Elements(p.issued) && |p.issued| <= Room(capacity)
  {
    QueueIsTheLastIssues(capacity, ops, k);
    if k > 0 {
      LiveIsQueued(capacity, ops, k - 1);
      var p, p' := After(capacity, ops, k - 1), After(capacity, ops, k);
      forall x | x in p'.live ensures x in p'.issued {
        if ops[k - 1].Issue? && x != ops[k - 1].nonce {
          var gone := Excess(p.issued, capacity);
          assert p.issued == p.issued[..gone] + p.issued[gone..];
        }
      }
    }
  }

  // --- No nonce buys two requests ---

  predicate Succeeds(capacity: nat, ops: seq<Op>, i: nat)
    requires i < |ops|
  {
    ops[i].Redeem? && ops[i].nonce in After(capacity, ops, i).live
  }

  function Redemptions(capacity: nat, ops: seq<Op>, k: nat, n: string): nat
    requires k <= |ops|
  {
    if k == 0 then 0
    else Redemptions(capacity, ops, k - 1, n) + if ops[k - 1].nonce == n && Succeeds(capacity, ops, k - 1) then 1 else 0
  }

  function IssuesOf(ops: seq<Op>, k: nat, n: string): nat
    requires k <= |ops|
  {
    if k == 0 then 0 else IssuesOf(ops, k - 1, n) + if ops[k - 1] == Issue(n) then 1 else 0
  }

  lemma {:induction false} RedemptionsNeverExceedIssues(capacity: nat, ops: seq<Op>, k: nat, n: string)
    requires k <= |ops|
    ensures Redemptions(capacity, ops, k, n) + (if n in After(capacity, ops, k).live then 1 else 0)
         <= IssuesOf(ops, k, n)
  {
    if k > 0 {
      RedemptionsNeverExceedIssues(capacity, ops, k - 1, n);
    }
  }

  // --- Exactly which nonces redeem ---

  // The issue at `l` still stands after `k` operations: it is the nonce's last, it was
  // not redeemed since, and no copy of the nonce, itself or an older one still queued
  // when it was pushed, has been pushed out since.
  predicate Standing(capacity: nat, ops: seq<Op>, k: nat, n: string, l: nat)
    requires k <= |ops|
  {
    && l < k && ops[l] == Issue(n)
    && (forall i :: l < i < k ==> ops[i].nonce != n)
    && (forall i :: 0 <= i <= l && ops[i] == Issue(n) && Issues(ops, l + 1) - Issues(ops, i + 1) < Room(capacity) ==>
          Issues(ops, k) - Issues(ops, i + 1) < Room(capacity))
  }

  // What one more issue, of another nonce, pushes out.
  lemma PushedOut(capacity: nat, ops: seq<Op>, k: nat, n: string)
    requires k < |ops| && ops[k].Issue?
    ensures var q := After(capacity, ops, k).issued;
      n in q[..Excess(q, capacity)] <==>
      exists i :: Brimming(capacity, ops, k, n, i)
  {
    QueueIsTheLastIssues(capacity, ops, k);
    var q := After(capacity, ops, k).issued;
    if Excess(q, capacity) > 0 {
      var i := IssueWithSerial(ops, k, Issues(ops, k) - Room(capacity));
      assert q[..1][0] == ops[i].nonce;
      assert ops[i].nonce == n ==> Brimming(capacity, ops, k, n, i);
      forall j | 0 <= j < k && ops[j].Issue? && Issues(ops, j) == Issues(ops, i) ensures j == i {
        if j < i {
          IssuesGrow(ops, j, i);
        } else if i < j {
          IssuesGrow(ops, i, j);
        }
      }
    }
  }

  lemma {:induction false} LiveExactlyWhileStanding(capacity: nat, ops: seq<Op>, k: nat, n: string)
    requires k <= |ops|
    ensures n in After(capacity, ops, k).live <==> exists l :: Standing(capacity, ops, k, n, l)
  {
    if k > 0 {
      LiveExactlyWhileStanding(capacity, ops, k - 1, n);
      if ops[k - 1] == Issue(n) {
        assert Standing(capacity, ops, k, n, k - 1);
      } else if ops[k - 1] == Redeem(n) {
        forall l: nat | Standing(capacity, ops, k, n, l) ensures l == k - 1 {
        }
      } else {
        OtherOpKeepsStanding(capacity, ops, k - 1, k, n);
      }
    }
  }

  // Step `j`, of another nonce.
  lemma OtherOpKeepsStanding(capacity: nat, ops: seq<Op>, j: nat, k: nat, n: string)
    requires k == j + 1 <= |ops| && ops[j].nonce != n
    requires n in After(capacity, ops, j).live <==> exists l :: Standing(capacity, ops, j, n, l)
    ensures n in After(capacity, ops, k).live <==> exists l :: Standing(capacity, ops, k, n, l)
  {
    forall l: nat | Standing(capacity, ops, k, n, l) ensures Standing(capacity, ops, j, n, l) {
      assert l != j;
    }
    if l: nat :| Standing(capacity, ops, j, n, l) {
      if ops[j].Issue? {
        IssueKeepsOneStanding(capacity, ops, j, k, n, l);
      } else {
        assert Standing(capacity, ops, k, n, l);
      }
    }
  }

  lemma IssueKeepsOneStanding(capacity: nat, ops: seq<Op>, j: nat, k: nat, n: string, l: nat)
    requires k == j + 1 <= |ops| && ops[j].Issue? && ops[j].nonce != n && Standing(capacity, ops, j, n, l)
    requires n in After(capacity, ops, j).live
    ensures n in After(capacity, ops, k).live <==> exists m :: Standing(capacity, ops, k, n, m)
  {
    PushedOut(capacity, ops, j, n);
    IssuePushesOut(capacity, ops, j, k, n, l);
    forall m: nat | Standing(capacity, ops, k, n, m) ensures m == l {
      assert m < j && ops[m].nonce == n;
    }
  }

  // Does the issue at `i` of `n` have `k`'s room of issues from it on?
  predicate Brimming(capacity: nat, ops: seq<Op>, k: nat, n: string, i: nat)
    requires k <= |ops|
  {
    i < k && ops[i] == Issue(n) && Issues(ops, k) - Issues(ops, i) == Room(capacity)
  }

  lemma IssuePushesOut(capacity: nat, ops: seq<Op>, j: nat, k: nat, n: string, l: nat)
    requires k == j + 1 <= |ops| && ops[j].Issue? && ops[j].nonce != n
    requires Standing(capacity, ops, j, n, l)
    ensures !Standing(capacity, ops, k, n, l) <==> exists i :: Brimming(capacity, ops, j, n, i)
  {
    if i: nat :| Brimming(capacity, ops, j, n, i) {
      assert i <= l;
      IssuesGrow(ops, l + 1, j);
      assert Issues(ops, l + 1) - Issues(ops, i + 1) < Room(capacity);
    } else if !Standing(capacity, ops, k, n, l) {
      var i :| 0 <= i <= l && ops[i] == Issue(n) && Issues(ops, l + 1) - Issues(ops, i + 1) < Room(capacity)
        && Issues(ops, k) - Issues(ops, i + 1) >= Room(capacity);
      assert Brimming(capacity, ops, j, n, i);
    }
  }

  // A nonce issued once is accepted exactly while it is unredeemed and fewer than
  // the pool's room of nonces have been issued since.
  lemma UniqueNonceRedeemsExactlyWhen(capacity: nat, ops: seq<Op>, k: nat, l: nat)
    requires l < k <= |ops| && ops[l].Issue?
    requires forall i :: 0 <= i < k && ops[i] == ops[l] ==> i == l
    ensures ops[l].nonce in After(capacity, ops, k).live <==>
      && (forall i :: l < i < k ==> ops[i] != Redeem(ops[l].nonce))
      && Issues(ops, k) - Issues(ops, l + 1) < Room(capacity)
  {
    var n := ops[l].nonce;
    LiveExactlyWhileStanding(capacity, ops, k, n);
    forall m: nat | Standing(capacity, ops, k, n, m) ensures m == l {
      assert ops[m] == ops[l];
    }
    assert forall i :: l < i < k && ops[i].nonce == n ==> ops[i] == Redeem(n) || ops[i] == ops[l];
    if n !in After(capacity, ops, k).live {
      assert !Standing(capacity, ops, k, n, l);
    }
  }

  // --- The pool itself ---

  datatype KeyRef = Jwk | Kid(known: bool)

  datatype KeyRule = MustBeJwk | MustBeKid | Either

  datatype Request = Request(url: string, nonce: Option<string>, key: KeyRef, verifies: bool)

  datatype Refusal = WrongUrl | NoNonce | UnknownAccount | WrongKeyKind | BadSignature | BadNonce

  class Nonces {
    const capacity: nat
    var live: set<string>
    var issued: seq<string>
    ghost var log: seq<Op> // every operation so far

    ghost predicate Valid()
      reads this
    {
      Pool(live, issued) == After(capacity, log, |log|)
    }

    constructor (capacity: nat)
      ensures Valid() && log == [] && this.capacity == capacity
    {
      this.capacity := capacity;
      live, issued, log := {}, [], [];
    }

    method Issue(nonce: string)
      requires Valid()
      modifies this
      ensures Valid() && log == old(log) + [Op.Issue(nonce)]
      ensures Standing(capacity, log, |log|, nonce, |old(log)|)
    {
      ghost var gone := 0;
      assert issued[..0] == [] && live - Elements([]) == live;
      while |issued| >= capacity
        invariant gone <= |old(issued)| && issued == old(issued)[gone..]
        invariant live == old(live) - Elements(old(issued)[..gone])
        invariant log == old(log)
        invariant gone <= Excess(old(issued), capacity)
      {
        if |issued| == 0 {
          break;
        }
        var oldest := issued[0];
        assert old(issued)[..gone + 1] == old(issued)[..gone] + [oldest];
        issued := issued[1..];
        live := live - {oldest};
        gone := gone + 1;
      }
      assert gone == Excess(old(issued), capacity);
      issued := issued + [nonce];
      live := live + {nonce};
      AfterExtends(capacity, log, [Op.Issue(nonce)], |log|);
      log := log + [Op.Issue(nonce)];
    }

    // A success is one the history allows, and spends the nonce.
    method Redeem(nonce: string) returns (ok: bool)
      requires Valid()
      modifies this
      ensures Valid() && log == old(log) + [Op.Redeem(nonce)]
      ensures ok <==> exists l :: Standing(capacity, old(log), |old(log)|, nonce, l)
      ensures nonce !in live && issued == old(issued)
    {
      LiveExactlyWhileStanding(capacity, log, |log|, nonce);
      ok := nonce in live;
      live := live - {nonce};
      AfterExtends(capacity, log, [Op.Redeem(nonce)], |log|);
      log := log + [Op.Redeem(nonce)];
    }

    // `verified`: the nonce is spent last, so a request refused for anything else spends
    // nothing, and one let through has spent a standing nonce.
    method Verified(request: Request, url: string, rule: KeyRule) returns (r: Result<(), Refusal>)
      requires Valid()
      modifies this
      ensures Valid()
      ensures r.Ok? ==>
           && request.url == url && request.verifies && request.nonce.Some?
           && (if request.key.Jwk? then rule != MustBeKid else rule != MustBeJwk && request.key.known)
           && exists l :: Standing(capacity, old(log), |old(log)|, request.nonce.value, l)
      ensures
        && request.url == url && request.verifies && request.nonce.Some?
        && (if request.key.Jwk? then rule != MustBeKid else rule != MustBeJwk && request.key.known) ==>
          && (r.Ok? <==> exists l :: Standing(capacity, old(log), |old(log)|, request.nonce.value, l))
          && (r.Ok? || r == Err(BadNonce))
      ensures r.Ok? || r == Err(BadNonce) ==> request.nonce.Some? && log == old(log) + [Op.Redeem(request.nonce.value)]
      ensures r == Err(WrongUrl) <==> request.url != url
      ensures r == Err(NoNonce) <==> request.url == url && request.nonce.None?
      ensures r == Err(BadSignature) <==>
        && request.url == url && request.nonce.Some? && !request.verifies
        && (if request.key.Jwk? then rule != MustBeKid else rule != MustBeJwk && request.key.known)
      ensures !(r.Ok? || r == Err(BadNonce)) ==> log == old(log) && live == old(live) && issued == old(issued)
    {
      if request.url != url {
        return Err(WrongUrl);
      }
      if request.nonce == None {
        return Err(NoNonce);
      }
      if (request.key.Jwk? && rule == MustBeKid) || (request.key.Kid? && rule == MustBeJwk) {
        return Err(WrongKeyKind);
      }
      if request.key.Kid? && !request.key.known {
        return Err(UnknownAccount);
      }
      if !request.verifies {
        return Err(BadSignature);
      }
      var ok := Redeem(request.nonce.value);
      r := if ok then Ok(()) else Err(BadNonce);
    }
  }
}
