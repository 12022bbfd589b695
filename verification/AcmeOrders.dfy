// Orders, their authorisations and challenges as the store keeps them, moved by client
// requests, the validator's verdicts, the expiry sweep and finalising. An authorisation
// belongs to one order and a challenge to one authorisation for good, so each is kept
// inside the other. Every step is one transaction of the store.
module AcmeOrders {
  import opened Wrappers
  import opened Text
  import Issuance

  datatype OrderStatus = Pending | Ready | Processing | Valid | Invalid

  datatype AuthorisationStatus = AuthPending | AuthValid | AuthInvalid | Deactivated | Expired | Revoked

  datatype ChallengeStatus = ToDo | Trying | Proven | Refused // pending, processing, valid, invalid

  datatype Challenge = Challenge(kind: Issuance.ChallengeType, status: ChallengeStatus)

  datatype Authorisation = Authorisation(
    identifier: string, wildcard: bool, status: AuthorisationStatus, expires: int, challenges: seq<Challenge>)

  datatype Order = Order(
    status: OrderStatus, terms: Issuance.Order, expires: int, authorisations: seq<Authorisation>,
    certificate: Option<Issuance.Certificate>)

  // --- The lifecycles of section 7.1.6 of RFC 8555 ---

  predicate OrderMay(from: OrderStatus, to: OrderStatus) {
    || (from == Pending && (to == Ready || to == Invalid))
    || (from == Ready && (to == Processing || to == Invalid))
    || (from == Processing && (to == Valid || to == Invalid))
  }

  predicate AuthorisationMay(from: AuthorisationStatus, to: AuthorisationStatus) {
    || (from == AuthPending && to in {AuthValid, AuthInvalid, Deactivated, Expired})
    || (from == AuthValid && to in {Deactivated, Expired, Revoked})
  }

  predicate ChallengeMay(from: ChallengeStatus, to: ChallengeStatus) {
    (from == ToDo && to == Trying) || (from == Trying && to != Trying)
  }

  // --- Settling an order ---

  predicate Failed(a: Authorisation) {
    a.status != AuthPending && a.status != AuthValid
  }

  predicate AnyFailed(auths: seq<Authorisation>) {
    exists i :: 0 <= i < |auths| && Failed(auths[i])
  }

  predicate AllValid(auths: seq<Authorisation>) {
    forall i :: 0 <= i < |auths| ==> auths[i].status == AuthValid
  }

  // `FAIL_ORDERS`.
  function FailedIfAny(o: Order): Order {
    if (o.status == Pending || o.status == Ready) && AnyFailed(o.authorisations) then o.(status := Invalid) else o
  }

  // `settle_order_of`.
  function Settled(o: Order): Order {
    var failed := FailedIfAny(o);
    if failed.status == Pending && AllValid(failed.authorisations) then failed.(status := Ready) else failed
  }

  // --- The store's operations on one order ---

  function Pended(a: Issuance.NewAuthorisation, expires: int): Authorisation {
    Authorisation(a.identifier, a.wildcard, AuthPending, expires,
                  seq(|a.challenges|, i requires 0 <= i < |a.challenges| => Challenge(a.challenges[i], ToDo)))
  }

  // Names as `names` leaves them, lower-case, each with a challenge on offer.
  predicate Orderable(terms: Issuance.Order, offered: seq<Issuance.ChallengeType>) {
    && terms.identifiers != []
    && forall i :: 0 <= i < |terms.identifiers| ==>
         && Lower(terms.identifiers[i]) == terms.identifiers[i]
         && Issuance.AuthorisationFor(terms.identifiers[i], offered).Ok?
  }

  function Created(terms: Issuance.Order, offered: seq<Issuance.ChallengeType>, expires: int): Order
    requires Orderable(terms, offered)
  {
    Order(Pending, terms, expires,
          seq(|terms.identifiers|, i requires 0 <= i < |terms.identifiers| =>
            Pended(Issuance.AuthorisationFor(terms.identifiers[i], offered).value, expires)),
          None)
  }

  function Decided(a: Authorisation, c: nat, to: ChallengeStatus): Authorisation
    requires c < |a.challenges|
  {
    var marked := a.(challenges := a.challenges[c := a.challenges[c].(status := to)]);
    if a.status == AuthPending && to == Proven then marked.(status := AuthValid)
    else if a.status == AuthPending && to == Refused then marked.(status := AuthInvalid)
    else marked
  }

  // `set_challenge_status`.
  function ChallengeSet(o: Order, a: nat, c: nat, to: ChallengeStatus): Order
    requires a < |o.authorisations| && c < |o.authorisations[a].challenges|
  {
    var o' := o.(authorisations := o.authorisations[a := Decided(o.authorisations[a], c, to)]);
    if to == Proven || to == Refused then Settled(o') else o'
  }

  // `set_authorisation_status` with 'deactivated', the only status a client may set.
  function AuthorisationDeactivated(o: Order, a: nat): Order
    requires a < |o.authorisations|
  {
    Settled(o.(authorisations := o.authorisations[a := o.authorisations[a].(status := Deactivated)]))
  }

  function SweptAuthorisation(a: Authorisation, now: int): Authorisation {
    if !Failed(a) && a.expires <= now then a.(status := Expired) else a
  }

  // `expire_stale`.
  function Swept(o: Order, now: int): Order {
    var auths := seq(|o.authorisations|, i requires 0 <= i < |o.authorisations| =>
                       SweptAuthorisation(o.authorisations[i], now));
    var o' := o.(authorisations := auths);
    FailedIfAny(if (o.status == Pending || o.status == Ready) && o.expires <= now then o'.(status := Invalid) else o')
  }

  // `record_certificate`: through processing, as the lifecycle has it.
  function Finalised(o: Order, cert: Issuance.Certificate): Order {
    o.(status := Valid, certificate := Some(cert))
  }

  // --- The system ---

  datatype Step =
    | NewOrder(terms: Issuance.Order, offered: seq<Issuance.ChallengeType>, expires: int)
    | Attempt(o: nat, a: nat, c: nat)                    // the client asks for validation
    | Verdict(o: nat, a: nat, c: nat, proven: bool)      // the validator answers
    | Deactivate(o: nat, a: nat)
    | Sweep(now: int)
    | Finalise(o: nat, dns: Issuance.Dns, issuer: Issuance.Issuer, csr: Issuance.Csr, accountKey: seq<int>, now: int)

  predicate HasChallenge(orders: seq<Order>, o: nat, a: nat, c: nat) {
    o < |orders| && a < |orders[o].authorisations| && c < |orders[o].authorisations[a].challenges|
  }

  predicate Enabled(orders: seq<Order>, step: Step) {
    match step
    case NewOrder(terms, offered, _) => Orderable(terms, offered)
    case Attempt(o, a, c) =>
      HasChallenge(orders, o, a, c) && ChallengeMay(orders[o].authorisations[a].challenges[c].status, Trying)
    case Verdict(o, a, c, proven) =>
      && HasChallenge(orders, o, a, c)
      && ChallengeMay(orders[o].authorisations[a].challenges[c].status, if proven then Proven else Refused)
    case Deactivate(o, a) =>
      && o < |orders| && a < |orders[o].authorisations|
      && AuthorisationMay(orders[o].authorisations[a].status, Deactivated)
    case Sweep(_) => true
    case Finalise(o, dns, issuer, csr, accountKey, now) =>
      && o < |orders| && orders[o].status == Ready
      && Issuance.Issue(dns, issuer, orders[o].terms, csr, accountKey, now).Ok?
  }

  // What the step makes of order `i`.
  function Moved(orders: seq<Order>, step: Step, i: nat): Order
    requires Enabled(orders, step) && i < |orders|
  {
    match step
    case NewOrder(_, _, _) => orders[i]
    case Attempt(o, a, c) => if i == o then ChallengeSet(orders[i], a, c, Trying) else orders[i]
    case Verdict(o, a, c, proven) =>
      if i == o then ChallengeSet(orders[i], a, c, if proven then Proven else Refused) else orders[i]
    case Deactivate(o, a) => if i == o then AuthorisationDeactivated(orders[i], a) else orders[i]
    case Sweep(now) => Swept(orders[i], now)
    case Finalise(o, dns, issuer, csr, accountKey, now) =>
      if i == o then Finalised(orders[i], Issuance.Issue(dns, issuer, orders[i].terms, csr, accountKey, now).value)
      else orders[i]
  }

  function Apply(orders: seq<Order>, step: Step): (r: seq<Order>)
    requires Enabled(orders, step)
  {
    seq(|orders|, i requires 0 <= i < |orders| => Moved(orders, step, i))
    + if step.NewOrder? then [Created(step.terms, step.offered, step.expires)] else []
  }

  // --- What holds of every order ---

  predicate Stands(a: Authorisation, name: string) {
    && Issuance.IsWildcard(name) == a.wildcard && Issuance.Base(name) == a.identifier
    && (a.wildcard ==> forall c :: 0 <= c < |a.challenges| ==> a.challenges[c].kind == Issuance.Dns01)
  }

  predicate HasProof(a: Authorisation) {
    exists c :: 0 <= c < |a.challenges| && a.challenges[c].status == Proven
  }

  // An authorisation's status is what its challenges decided, until it is given up or
  // expires: valid by a proof, invalid by a refusal, pending while none is decided.
  predicate Follows(a: Authorisation) {
    && (a.status == AuthValid ==> HasProof(a))
    && (a.status == AuthInvalid ==> exists c :: 0 <= c < |a.challenges| && a.challenges[c].status == Refused)
    && (a.status == AuthPending ==>
          forall c :: 0 <= c < |a.challenges| ==> a.challenges[c].status == ToDo || a.challenges[c].status == Trying)
  }

  // The authorisations stand for the names ordered, and follow their challenges.
  predicate Backed(names: seq<string>, auths: seq<Authorisation>) {
    && |auths| == |names|
    && forall i :: 0 <= i < |auths| ==>
         && Lower(names[i]) == names[i] && Stands(auths[i], names[i]) && Follows(auths[i])
  }

  predicate AllProven(auths: seq<Authorisation>) {
    forall i :: 0 <= i < |auths| ==> HasProof(auths[i])
  }

  predicate Sound(o: Order) {
    && Backed(o.terms.identifiers, o.authorisations)
    && o.status != Processing
    && (o.status == Pending ==> !AllValid(o.authorisations) && !AnyFailed(o.authorisations))
    && (o.status == Ready ==> AllValid(o.authorisations))
    && (o.certificate.Some? <==> o.status == Valid)
    && (o.status == Valid ==> o.certificate.value.sans == Issuance.Ordered(o.terms) && AllProven(o.authorisations))
  }

  predicate Over(o: Order) {
    o.status == Valid || o.status == Invalid
  }

  predicate AllSound(orders: seq<Order>) {
    forall i :: 0 <= i < |orders| ==> Sound(orders[i])
  }

  lemma CreatedIsSound(terms: Issuance.Order, offered: seq<Issuance.ChallengeType>, expires: int)
    requires Orderable(terms, offered)
    ensures Sound(Created(terms, offered, expires))
  {
    var auths := Created(terms, offered, expires).authorisations;
    forall i | 0 <= i < |terms.identifiers| ensures Stands(auths[i], terms.identifiers[i]) {
      var name := terms.identifiers[i];
      Issuance.AuthorisationsAreOneToOne(name, name, offered);
      var asked := Issuance.AuthorisationFor(name, offered).value;
      assert forall c :: 0 <= c < |asked.challenges| ==> asked.challenges[c] in asked.challenges;
    }
    assert auths[0].status == AuthPending;
  }

  // What may become of a sound order's authorisations in one step: none loses a proof,
  // and one that was valid stays so or fails.
  predicate Succeeds(auths: seq<Authorisation>, auths': seq<Authorisation>) {
    && |auths'| == |auths|
    && (forall i :: 0 <= i < |auths| && HasProof(auths[i]) ==> HasProof(auths'[i]))
    && (forall i :: 0 <= i < |auths| && auths[i].status == AuthValid ==>
          auths'[i].status == AuthValid || Failed(auths'[i]))
  }

  lemma ReadySucceeds(auths: seq<Authorisation>, auths': seq<Authorisation>)
    requires Succeeds(auths, auths') && AllValid(auths)
    ensures AllValid(auths') || AnyFailed(auths')
  {
    if !AllValid(auths') {
      var i :| 0 <= i < |auths'| && auths'[i].status != AuthValid;
      assert Failed(auths'[i]);
    }
  }

  // Whatever became of them, failing and settling the order makes it sound again.
  lemma SettledIsSound(o: Order, auths': seq<Authorisation>)
    requires Sound(o) && Succeeds(o.authorisations, auths') && Backed(o.terms.identifiers, auths')
    ensures Sound(Settled(o.(authorisations := auths')))
    ensures (o.status == Pending ==> !AllValid(auths')) ==> Sound(FailedIfAny(o.(authorisations := auths')))
  {
    if o.status == Ready {
      ReadySucceeds(o.authorisations, auths');
    }
  }

  lemma DecidedKeeps(a: Authorisation, c: nat, to: ChallengeStatus, name: string)
    requires c < |a.challenges| && Stands(a, name)
    requires Follows(a) && ChallengeMay(a.challenges[c].status, to)
    ensures var a' := Decided(a, c, to);
      && Stands(a', name) && (HasProof(a) ==> HasProof(a')) && Follows(a')
      && (a.status != AuthPending ==> a'.status == a.status)
  {
    var a' := Decided(a, c, to);
    if i :| 0 <= i < |a.challenges| && a.challenges[i].status == Proven {
      assert a'.challenges[i].status == Proven;
    }
    if i :| 0 <= i < |a.challenges| && a.challenges[i].status == Refused {
      assert a'.challenges[i].status == Refused;
    }
    assert a'.challenges[c].status == to;
  }

  lemma ChallengeSetIsSound(o: Order, a: nat, c: nat, to: ChallengeStatus)
    requires Sound(o) && a < |o.authorisations| && c < |o.authorisations[a].challenges|
    requires ChallengeMay(o.authorisations[a].challenges[c].status, to)
    ensures Sound(ChallengeSet(o, a, c, to))
  {
    DecidedKeeps(o.authorisations[a], c, to, o.terms.identifiers[a]);
    var auths := o.authorisations[a := Decided(o.authorisations[a], c, to)];
    SettledIsSound(o, auths);
    if to != Proven && to != Refused {
      assert forall i :: 0 <= i < |auths| ==> auths[i].status == o.authorisations[i].status;
    }
  }

  lemma DeactivatedIsSound(o: Order, a: nat)
    requires Sound(o) && a < |o.authorisations|
    ensures Sound(AuthorisationDeactivated(o, a))
  {
    var auths := o.authorisations[a := o.authorisations[a].(status := Deactivated)];
    assert forall i :: 0 <= i < |auths| ==> auths[i].challenges == o.authorisations[i].challenges;
    SettledIsSound(o, auths);
  }

  lemma SweptAuthorisations(o: Order, auths: seq<Authorisation>, now: int)
    requires Sound(o) && |auths| == |o.authorisations|
    requires forall i :: 0 <= i < |auths| ==> auths[i] == SweptAuthorisation(o.authorisations[i], now)
    ensures Succeeds(o.authorisations, auths) && Backed(o.terms.identifiers, auths)
    ensures o.status == Pending ==> !AllValid(auths)
  {
    assert forall i :: 0 <= i < |auths| ==> auths[i].challenges == o.authorisations[i].challenges;
    if o.status == Pending {
      var i :| 0 <= i < |auths| && o.authorisations[i].status != AuthValid;
      assert auths[i].status != AuthValid;
    }
  }

  lemma SweptIsSound(o: Order, now: int)
    requires Sound(o)
    ensures Sound(Swept(o, now))
  {
    var auths := seq(|o.authorisations|, i requires 0 <= i < |o.authorisations| =>
                       SweptAuthorisation(o.authorisations[i], now));
    SweptAuthorisations(o, auths, now);
    SettledIsSound(o, auths);
  }

  lemma FinalisedIsSound(o: Order, dns: Issuance.Dns, issuer: Issuance.Issuer, csr: Issuance.Csr,
                         accountKey: seq<int>, now: int)
    requires Sound(o) && o.status == Ready
    requires Issuance.Issue(dns, issuer, o.terms, csr, accountKey, now).Ok?
    ensures Sound(Finalised(o, Issuance.Issue(dns, issuer, o.terms, csr, accountKey, now).value))
  {
    Issuance.IssuedAsOrdered(dns, issuer, o.terms, csr, accountKey, now);
  }

  lemma StepKeeps(orders: seq<Order>, step: Step)
    requires AllSound(orders) && Enabled(orders, step)
    ensures AllSound(Apply(orders, step))
  {
    if step.NewOrder? {
      CreatedIsSound(step.terms, step.offered, step.expires);
    }
    forall i | 0 <= i < |orders| ensures Sound(Moved(orders, step, i)) {
      MovedIsSound(orders, step, i);
    }
  }

  lemma MovedIsSound(orders: seq<Order>, step: Step, i: nat)
    requires AllSound(orders) && Enabled(orders, step) && i < |orders|
    ensures Sound(Moved(orders, step, i))
  {
    match step
    case NewOrder(_, _, _) =>
    case Attempt(o, a, c) =>
      if i == o {
        ChallengeSetIsSound(orders[i], a, c, Trying);
      }
    case Verdict(o, a, c, proven) =>
      if i == o {
        ChallengeSetIsSound(orders[i], a, c, if proven then Proven else Refused);
      }
    case Deactivate(o, a) =>
      if i == o {
        DeactivatedIsSound(orders[i], a);
      }
    case Sweep(now) => SweptIsSound(orders[i], now);
    case Finalise(o, dns, issuer, csr, accountKey, now) =>
      if i == o {
        FinalisedIsSound(orders[i], dns, issuer, csr, accountKey, now);
      }
  }

  // --- Runs ---

  predicate Runs(orders: seq<Order>, steps: seq<Step>)
    decreases |steps|
  {
    steps == [] || (Enabled(orders, steps[0]) && Runs(Apply(orders, steps[0]), steps[1..]))
  }

  function Exec(orders: seq<Order>, steps: seq<Step>): seq<Order>
    requires Runs(orders, steps)
    decreases |steps|
  {
    if steps == [] then orders else Exec(Apply(orders, steps[0]), steps[1..])
  }

  lemma {:induction false} RunKeeps(orders: seq<Order>, steps: seq<Step>)
    requires AllSound(orders) && Runs(orders, steps)
    ensures AllSound(Exec(orders, steps))
    decreases |steps|
  {
    if steps != [] {
      StepKeeps(orders, steps[0]);
      RunKeeps(Apply(orders, steps[0]), steps[1..]);
    }
  }

  // A challenge is proven only by the validator's verdict on it.
  lemma StepProves(orders: seq<Order>, step: Step, o: nat, a: nat, c: nat)
    requires Enabled(orders, step) && HasChallenge(Apply(orders, step), o, a, c)
    requires Apply(orders, step)[o].authorisations[a].challenges[c].status == Proven
    ensures step == Verdict(o, a, c, true)
      || (HasChallenge(orders, o, a, c) && orders[o].authorisations[a].challenges[c].status == Proven)
  {
    if o < |orders| {
      assert Apply(orders, step)[o] == Moved(orders, step, o);
    }
  }

  lemma {:induction false} ProvenByVerdict(orders: seq<Order>, steps: seq<Step>, o: nat, a: nat, c: nat)
    requires Runs(orders, steps) && HasChallenge(Exec(orders, steps), o, a, c)
    requires Exec(orders, steps)[o].authorisations[a].challenges[c].status == Proven
    ensures Verdict(o, a, c, true) in steps
      || (HasChallenge(orders, o, a, c) && orders[o].authorisations[a].challenges[c].status == Proven)
    decreases |steps|
  {
    if steps != [] {
      var next := Apply(orders, steps[0]);
      ProvenByVerdict(next, steps[1..], o, a, c);
      if Verdict(o, a, c, true) !in steps[1..] {
        StepProves(orders, steps[0], o, a, c);
      }
    }
  }

  // In every run from an empty store: whatever name a certificate carries, the validator
  // said that a challenge for it was met, by dns-01 if it is a wildcard, in that
  // certificate's own order.
  lemma EveryCertifiedNameWasProven(steps: seq<Step>, o: nat, name: string) returns (a: nat, c: nat)
    requires Runs([], steps) && o < |Exec([], steps)|
    requires var order := Exec([], steps)[o]; order.certificate.Some? && name in order.certificate.value.sans
    ensures HasChallenge(Exec([], steps), o, a, c) && Verdict(o, a, c, true) in steps
    ensures var authorisation := Exec([], steps)[o].authorisations[a];
      && Issuance.Base(name) == authorisation.identifier
      && (Issuance.IsWildcard(name) ==> authorisation.challenges[c].kind == Issuance.Dns01)
  {
    RunKeeps([], steps);
    var order := Exec([], steps)[o];
    a, c := ProofOf(order, name);
    assert HasChallenge(Exec([], steps), o, a, c);
    ProvenByVerdict([], steps, o, a, c);
  }

  lemma ProofOf(order: Order, name: string) returns (a: nat, c: nat)
    requires Sound(order) && order.certificate.Some? && name in order.certificate.value.sans
    ensures a < |order.authorisations| && c < |order.authorisations[a].challenges|
    ensures order.authorisations[a].challenges[c].status == Proven && Stands(order.authorisations[a], name)
  {
    var i :| 0 <= i < |order.terms.identifiers| && name == Lower(order.terms.identifiers[i]);
    assert HasProof(order.authorisations[i]);
    var j :| 0 <= j < |order.authorisations[i].challenges| && order.authorisations[i].challenges[j].status == Proven;
    a, c := i, j;
  }

  // Nor does an authorisation against its challenges: one valid has a proof, one invalid
  // a refusal, one pending neither.
  lemma AuthorisationsFollowChallenges(steps: seq<Step>, o: nat, a: nat)
    requires Runs([], steps) && o < |Exec([], steps)| && a < |Exec([], steps)[o].authorisations|
    ensures Follows(Exec([], steps)[o].authorisations[a])
  {
    RunKeeps([], steps);
    assert Sound(Exec([], steps)[o]);
  }

  // Something still open in `o` has had its time.
  predicate Overdue(o: Order, now: int) {
    || ((o.status == Pending || o.status == Ready) && o.expires <= now)
    || exists a :: 0 <= a < |o.authorisations| && !Failed(o.authorisations[a]) && o.authorisations[a].expires <= now
  }

  // A sweep leaves nothing overdue, and changes exactly what is.
  lemma SweepLeavesNothingOverdue(o: Order, now: int)
    requires Sound(o)
    ensures !Overdue(Swept(o, now), now)
    ensures Swept(o, now) == o <==> !Overdue(o, now)
  {
    var o' := Swept(o, now);
    if Overdue(o, now) && !((o.status == Pending || o.status == Ready) && o.expires <= now) {
      var a :| 0 <= a < |o.authorisations| && !Failed(o.authorisations[a]) && o.authorisations[a].expires <= now;
      assert o'.authorisations[a].status == Expired;
    }
    if !Overdue(o, now) {
      assert o'.authorisations == o.authorisations;
    }
  }

  // A sweep makes an earlier one needless: it does not matter how often, or when before,
  // the handlers swept.
  lemma SweepsAbsorb(o: Order, earlier: int, now: int)
    requires earlier <= now
    ensures Swept(Swept(o, earlier), now) == Swept(o, now)
  {
    var once, twice := Swept(o, now), Swept(Swept(o, earlier), now);
    assert twice.authorisations == once.authorisations;
    if AnyFailed(Swept(o, earlier).authorisations) {
      var a :| 0 <= a < |o.authorisations| && Failed(Swept(o, earlier).authorisations[a]);
      assert Failed(once.authorisations[a]);
    }
  }

  lemma {:induction false} SweepingOftenIsSweepingLast(orders: seq<Order>, times: seq<int>, now: int)
    requires forall i :: 0 <= i < |times| ==> times[i] <= now
    ensures Apply(SweptAll(orders, times), Sweep(now)) == Apply(orders, Sweep(now))
    decreases |times|
  {
    if times != [] {
      var next := Apply(orders, Sweep(times[0]));
      SweepingOftenIsSweepingLast(next, times[1..], now);
      forall i | 0 <= i < |orders| ensures Swept(next[i], now) == Swept(orders[i], now) {
        SweepsAbsorb(orders[i], times[0], now);
      }
      assert Apply(next, Sweep(now)) == Apply(orders, Sweep(now));
    }
  }

  function SweptAll(orders: seq<Order>, times: seq<int>): seq<Order>
    decreases |times|
  {
    if times == [] then orders else SweptAll(Apply(orders, Sweep(times[0])), times[1..])
  }

  // No order sits ready or pending against its authorisations: in every run one that is
  // ready has them all valid, and one that is pending has some still to be decided and
  // none failed.
  lemma StatusFollowsAuthorisations(steps: seq<Step>, o: nat)
    requires Runs([], steps) && o < |Exec([], steps)|
    ensures var order := Exec([], steps)[o];
      && (order.status == Ready ==> AllValid(order.authorisations))
      && (order.status == Pending ==> !AllValid(order.authorisations) && !AnyFailed(order.authorisations))
  {
    RunKeeps([], steps);
    assert Sound(Exec([], steps)[o]);
  }

  // --- Nothing is undone ---

  // An order moves as the lifecycle draws it, taking a certificate passing through
  // processing, and keeps what it was ordered for.
  lemma StepMovesAsDrawn(orders: seq<Order>, step: Step, i: nat)
    requires AllSound(orders) && Enabled(orders, step) && i < |orders|
    ensures var o, o' := orders[i], Apply(orders, step)[i];
      && (o'.status == o.status || OrderMay(o.status, o'.status)
          || (OrderMay(o.status, Processing) && OrderMay(Processing, o'.status)))
      && o'.terms == o.terms
      && (Over(o) ==> o'.status == o.status && o'.certificate == o.certificate)
  {
    assert Apply(orders, step)[i] == Moved(orders, step, i);
    assert Sound(orders[i]);
  }

  // An order once valid or invalid stays so, with the certificate it had: none is
  // replaced, and a failed order never has one.
  lemma {:induction false} OverIsOver(orders: seq<Order>, steps: seq<Step>, i: nat)
    requires AllSound(orders) && Runs(orders, steps) && i < |orders| && Over(orders[i])
    ensures i < |Exec(orders, steps)|
    ensures var o := Exec(orders, steps)[i];
      o.status == orders[i].status && o.certificate == orders[i].certificate && o.terms == orders[i].terms
    decreases |steps|
  {
    if steps != [] {
      StepMovesAsDrawn(orders, steps[0], i);
      StepKeeps(orders, steps[0]);
      OverIsOver(Apply(orders, steps[0]), steps[1..], i);
    }
  }
}
