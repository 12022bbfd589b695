// What each store operation does to an order, and what a whole run makes of one: when
// it is ready, when it fails, and what closed each of its authorisations.
module AcmeOutcomes {
  import opened Wrappers
  import Issuance
  import opened AcmeOrders

  // --- One step ---

  // The other orders, and whatever of this one no step changes.
  ghost predicate OnlyIn(orders: seq<Order>, orders': seq<Order>, o: nat)
    requires o < |orders|
  {
    && |orders'| == |orders|
    && (forall i :: 0 <= i < |orders| && i != o ==> orders'[i] == orders[i])
    && orders'[o].terms == orders[o].terms && orders'[o].expires == orders[o].expires
    && |orders'[o].authorisations| == |orders[o].authorisations|
  }

  // The other authorisations of the order.
  ghost predicate OnlyAt(was: Order, order: Order, a: nat)
    requires a < |was.authorisations| == |order.authorisations|
  {
    && (forall i :: 0 <= i < |was.authorisations| && i != a ==> order.authorisations[i] == was.authorisations[i])
    && order.authorisations[a] ==
         was.authorisations[a].(status := order.authorisations[a].status,
                                challenges := order.authorisations[a].challenges)
  }

  ghost predicate Open(o: Order) {
    o.status == Pending || o.status == Ready
  }

  // A challenge is tried once it is pending and judged while it is being tried, and only
  // an authorisation pending or valid can be given up.
  lemma WhatMayHappen(orders: seq<Order>, o: nat, a: nat, c: nat, proven: bool)
    requires HasChallenge(orders, o, a, c)
    ensures var auth := orders[o].authorisations[a];
      && (Enabled(orders, Attempt(o, a, c)) <==> auth.challenges[c].status == ToDo)
      && (Enabled(orders, Verdict(o, a, c, proven)) <==> auth.challenges[c].status == Trying)
      && (Enabled(orders, Deactivate(o, a)) <==> auth.status == AuthPending || auth.status == AuthValid)
  {
  }

  // A verdict marks its challenge, and decides the authorisation if that is pending.
  lemma VerdictMarks(orders: seq<Order>, o: nat, a: nat, c: nat, proven: bool)
    requires Enabled(orders, Verdict(o, a, c, proven))
    ensures var orders' := Apply(orders, Verdict(o, a, c, proven));
      && OnlyIn(orders, orders', o) && OnlyAt(orders[o], orders'[o], a)
      && orders'[o].certificate == orders[o].certificate
      && var (auth, auth') := (orders[o].authorisations[a], orders'[o].authorisations[a]);
      && auth'.challenges
           == auth.challenges[c := Challenge(auth.challenges[c].kind, if proven then Proven else Refused)]
      && auth'.status ==
           if auth.status != AuthPending then auth.status else if proven then AuthValid else AuthInvalid
  {
  }

  // Meeting the challenge of an authorisation still pending makes the order ready when
  // every other is valid, and refusing it makes the order invalid; no other verdict moves
  // the order.
  lemma VerdictSettles(orders: seq<Order>, o: nat, a: nat, c: nat, proven: bool)
    requires AllSound(orders) && Enabled(orders, Verdict(o, a, c, proven))
    ensures
      var (was, status) := (orders[o], Apply(orders, Verdict(o, a, c, proven))[o].status);
      if !Open(was) || was.authorisations[a].status != AuthPending then status == was.status
      else
        && was.status == Pending
        && status ==
             if !proven then Invalid
             else if forall i :: 0 <= i < |was.authorisations| && i != a ==> was.authorisations[i].status == AuthValid
             then Ready else Pending
  {
    var was, order := orders[o], Apply(orders, Verdict(o, a, c, proven))[o];
    VerdictMarks(orders, o, a, c, proven);
    var auths, auths' := was.authorisations, order.authorisations;
    assert Sound(was) && order.status == Settled(was.(authorisations := auths')).status;
    if !Open(was) {
    } else if auths[a].status != AuthPending {
      assert forall i :: 0 <= i < |auths| ==> auths'[i].status == auths[i].status;
      SameStatuses(was, auths');
    } else if proven {
      assert forall i :: 0 <= i < |auths| ==> !Failed(auths[i]);
      assert forall i :: 0 <= i < |auths| ==> !Failed(auths'[i]);
      assert AllValid(auths') <==> forall i :: 0 <= i < |auths| && i != a ==> auths[i].status == AuthValid;
    } else {
      assert Failed(auths'[a]);
    }
  }

  // Settling looks at statuses alone, and a sound order is settled.
  lemma SameStatuses(o: Order, auths: seq<Authorisation>)
    requires Sound(o) && |auths| == |o.authorisations|
    requires forall i :: 0 <= i < |auths| ==> auths[i].status == o.authorisations[i].status
    ensures Settled(o.(authorisations := auths)).status == o.status
  {
    if AnyFailed(auths) {
      var i :| 0 <= i < |auths| && Failed(auths[i]);
      assert Failed(o.authorisations[i]);
    }
    if AllValid(auths) {
      assert AllValid(o.authorisations);
    }
  }

  lemma AttemptOnlyTries(orders: seq<Order>, o: nat, a: nat, c: nat)
    requires Enabled(orders, Attempt(o, a, c))
    ensures var orders' := Apply(orders, Attempt(o, a, c));
      && OnlyIn(orders, orders', o) && OnlyAt(orders[o], orders'[o], a)
      && orders'[o].status == orders[o].status && orders'[o].certificate == orders[o].certificate
      && var auth := orders[o].authorisations[a];
      && orders'[o].authorisations[a].status == auth.status
      && orders'[o].authorisations[a].challenges == auth.challenges[c := Challenge(auth.challenges[c].kind, Trying)]
  {
  }

  // Giving up an authorisation fails an open order.
  lemma DeactivateFails(orders: seq<Order>, o: nat, a: nat)
    requires AllSound(orders) && Enabled(orders, Deactivate(o, a))
    ensures var orders' := Apply(orders, Deactivate(o, a));
      && OnlyIn(orders, orders', o) && OnlyAt(orders[o], orders'[o], a)
      && orders'[o].certificate == orders[o].certificate
      && orders'[o].authorisations[a] == orders[o].authorisations[a].(status := Deactivated)
      && orders'[o].status == if Open(orders[o]) then Invalid else orders[o].status
  {
    assert Failed(Apply(orders, Deactivate(o, a))[o].authorisations[a]);
    assert Sound(orders[o]);
  }

  // A sweep expires exactly the authorisations pending or valid past their time, and fails
  // exactly the open orders past theirs or with one that did not hold.
  lemma SweepExpires(orders: seq<Order>, now: int, o: nat)
    requires AllSound(orders) && o < |orders|
    ensures var orders' := Apply(orders, Sweep(now));
      && |orders'| == |orders|
      && var (was, order) := (orders[o], orders'[o]);
      && order == was.(status := order.status, authorisations := order.authorisations)
      && |order.authorisations| == |was.authorisations|
      && (forall i :: 0 <= i < |was.authorisations| ==>
            var auth := was.authorisations[i];
            order.authorisations[i] ==
              if (auth.status == AuthPending || auth.status == AuthValid) && auth.expires <= now
              then auth.(status := Expired) else auth)
      && order.status ==
           if Open(was) && (was.expires <= now
                            || exists i :: 0 <= i < |was.authorisations| && was.authorisations[i].expires <= now)
           then Invalid else was.status
  {
    var was, order := orders[o], Apply(orders, Sweep(now))[o];
    assert order == Swept(was, now) && Sound(was);
    if Open(was) {
      assert forall i :: 0 <= i < |was.authorisations| ==> !Failed(was.authorisations[i]);
      assert forall i :: 0 <= i < |was.authorisations| ==>
          (Failed(order.authorisations[i]) <==> was.authorisations[i].expires <= now);
    }
  }

  lemma FinaliseIssues(orders: seq<Order>, step: Step)
    requires step.Finalise? && Enabled(orders, step)
    ensures var orders' := Apply(orders, step);
      && OnlyIn(orders, orders', step.o)
      && var issued := Issuance.Issue(step.dns, step.issuer, orders[step.o].terms, step.csr, step.accountKey, step.now);
      && issued.Ok?
      && orders'[step.o] == orders[step.o].(status := Valid, certificate := Some(issued.value))
  {
  }

  // A new order has one pending authorisation for each of its names, in their order,
  // none of whose challenges has been tried.
  lemma NewOrderAsks(orders: seq<Order>, terms: Issuance.Order, offered: seq<Issuance.ChallengeType>, expires: int)
    requires Enabled(orders, NewOrder(terms, offered, expires))
    ensures var orders' := Apply(orders, NewOrder(terms, offered, expires));
      && |orders'| == |orders| + 1 && orders'[..|orders|] == orders
      && var order := orders'[|orders|];
      && order == Order(Pending, terms, expires, order.authorisations, None)
      && |order.authorisations| == |terms.identifiers|
      && forall i :: 0 <= i < |terms.identifiers| ==>
           var (name, auth) := (terms.identifiers[i], order.authorisations[i]);
           && Stands(auth, name) && auth.status == AuthPending && auth.expires == expires && auth.challenges != []
           && forall c :: 0 <= c < |auth.challenges| ==>
                auth.challenges[c].status == ToDo && auth.challenges[c].kind in offered
  {
    CreatedIsSound(terms, offered, expires);
    var order := Created(terms, offered, expires);
    forall i | 0 <= i < |terms.identifiers|
      ensures order.authorisations[i].challenges != []
      ensures forall c :: 0 <= c < |order.authorisations[i].challenges| ==>
                order.authorisations[i].challenges[c].kind in offered
    {
      var name := terms.identifiers[i];
      Issuance.AuthorisationsAreOneToOne(name, name, offered);
      var asked := Issuance.AuthorisationFor(name, offered).value;
      assert forall c :: 0 <= c < |asked.challenges| ==> asked.challenges[c] in asked.challenges;
    }
  }

  // --- What closes an authorisation ---

  // A sweep at or after `at`.
  ghost predicate SweptBy(steps: seq<Step>, at: int) {
    exists i :: 0 <= i < |steps| && steps[i].Sweep? && at <= steps[i].now
  }

  lemma SweptByFirst(steps: seq<Step>, at: int)
    requires steps != []
    ensures SweptBy(steps, at) <==> (steps[0].Sweep? && at <= steps[0].now) || SweptBy(steps[1..], at)
  {
    if i :| 0 <= i < |steps[1..]| && steps[1..][i].Sweep? && at <= steps[1..][i].now {
      assert steps[i + 1].Sweep?;
    }
    if i :| 1 <= i < |steps| && steps[i].Sweep? && at <= steps[i].now {
      assert steps[1..][i - 1].Sweep?;
    }
  }

  ghost function StatusOf(orders: seq<Order>, o: nat, a: nat): Option<AuthorisationStatus> {
    if o < |orders| && a < |orders[o].authorisations| then Some(orders[o].authorisations[a].status) else None
  }

  lemma StepKeepsTimes(orders: seq<Order>, step: Step, o: nat)
    requires Enabled(orders, step) && o < |orders|
    ensures o < |Apply(orders, step)|
    ensures var (was, order) := (orders[o], Apply(orders, step)[o]);
      && order.expires == was.expires && |order.authorisations| == |was.authorisations|
      && forall a :: 0 <= a < |was.authorisations| ==> order.authorisations[a].expires == was.authorisations[a].expires
  {
    assert Apply(orders, step)[o] == Moved(orders, step, o);
  }

  // An authorisation leaves `pending` by a verdict on one of its challenges and is closed
  // by a client or a sweep, and nothing else moves it.
  lemma StepClosesAuthorisation(orders: seq<Order>, step: Step, o: nat, a: nat)
    requires Enabled(orders, step) && o < |orders| && a < |orders[o].authorisations|
    ensures o < |Apply(orders, step)| && a < |Apply(orders, step)[o].authorisations|
    ensures var (was, after) := (orders[o].authorisations[a], Apply(orders, step)[o].authorisations[a].status);
      after ==
        if step == Deactivate(o, a) then Deactivated
        else if step.Sweep? && !Failed(was) && was.expires <= step.now then Expired
        else if step.Verdict? && step.o == o && step.a == a && was.status == AuthPending
        then (if step.proven then AuthValid else AuthInvalid)
        else was.status
  {
    assert Apply(orders, step)[o] == Moved(orders, step, o);
  }

  // Over every run: an authorisation is deactivated exactly by the client, expired only by
  // a sweep after its time, revoked never; and one still open has seen no such sweep.
  lemma {:induction false} WhatClosesAuthorisations(orders: seq<Order>, steps: seq<Step>, o: nat, a: nat)
    requires Runs(orders, steps) && StatusOf(Exec(orders, steps), o, a).Some?
    ensures var (before, after) := (StatusOf(orders, o, a), StatusOf(Exec(orders, steps), o, a).value);
      var expires := Exec(orders, steps)[o].authorisations[a].expires;
      && (after == Deactivated <==> before == Some(Deactivated) || Deactivate(o, a) in steps)
      && (after == Expired ==> before == Some(Expired) || SweptBy(steps, expires))
      && (after == Revoked <==> before == Some(Revoked))
      && (before.Some? && before != Some(AuthPending) && before != Some(AuthValid) ==> after == before.value)
      && (before.Some? && (after == AuthPending || after == AuthValid) ==> !SweptBy(steps, expires))
    decreases |steps|
  {
    if steps != [] {
      var next := Apply(orders, steps[0]);
      WhatClosesAuthorisations(next, steps[1..], o, a);
      SweptByFirst(steps, Exec(orders, steps)[o].authorisations[a].expires);
      assert Deactivate(o, a) in steps <==> steps[0] == Deactivate(o, a) || Deactivate(o, a) in steps[1..];
      if o < |orders| {
        StepKeepsTimes(orders, steps[0], o);
        RunKeepsTimes(next, steps[1..], o);
        StepClosesAuthorisation(orders, steps[0], o, a);
      } else if o < |next| {
        RunKeepsTimes(next, steps[1..], o);
        assert next[o] == Created(steps[0].terms, steps[0].offered, steps[0].expires);
      }
    }
  }

  lemma {:induction false} RunKeepsTimes(orders: seq<Order>, steps: seq<Step>, o: nat)
    requires Runs(orders, steps) && o < |orders|
    ensures o < |Exec(orders, steps)|
    ensures var (was, order) := (orders[o], Exec(orders, steps)[o]);
      && order.expires == was.expires && |order.authorisations| == |was.authorisations|
      && forall a :: 0 <= a < |was.authorisations| ==> order.authorisations[a].expires == was.authorisations[a].expires
    decreases |steps|
  {
    if steps != [] {
      StepKeepsTimes(orders, steps[0], o);
      RunKeepsTimes(Apply(orders, steps[0]), steps[1..], o);
    }
  }

  // --- What fails an order ---

  lemma StepFailsOrder(orders: seq<Order>, step: Step, o: nat)
    requires AllSound(orders) && Enabled(orders, step) && o < |orders|
    ensures var (was, order) := (orders[o], Apply(orders, step)[o]);
      order.status == Invalid <==>
        || was.status == Invalid
        || (Open(was) && (AnyFailed(order.authorisations) || (step.Sweep? && was.expires <= step.now)))
  {
    assert Apply(orders, step)[o] == Moved(orders, step, o) && Sound(orders[o]);
  }

  lemma StepKeepsFailed(orders: seq<Order>, step: Step, o: nat)
    requires Enabled(orders, step) && o < |orders| && AnyFailed(orders[o].authorisations)
    ensures o < |Apply(orders, step)| && AnyFailed(Apply(orders, step)[o].authorisations)
  {
    var i :| 0 <= i < |orders[o].authorisations| && Failed(orders[o].authorisations[i]);
    StepClosesAuthorisation(orders, step, o, i);
    assert Failed(Apply(orders, step)[o].authorisations[i]);
  }

  // Over every run, an order without a certificate is invalid exactly when an
  // authorisation of it has failed or a sweep found its time over.
  lemma {:induction false} InvalidExactlyWhen(orders: seq<Order>, steps: seq<Step>, o: nat)
    requires AllSound(orders) && Runs(orders, steps) && o < |orders| && Open(orders[o])
    ensures o < |Exec(orders, steps)|
    ensures var order := Exec(orders, steps)[o];
      order.status == Invalid <==>
        order.certificate.None? && (AnyFailed(order.authorisations) || SweptBy(steps, orders[o].expires))
    decreases |steps|
  {
    assert Sound(orders[o]);
    if steps != [] {
      var next := Apply(orders, steps[0]);
      StepKeeps(orders, steps[0]);
      StepFailsOrder(orders, steps[0], o);
      StepKeepsTimes(orders, steps[0], o);
      SweptByFirst(steps, orders[o].expires);
      assert Sound(next[o]);
      if Open(next[o]) {
        InvalidExactlyWhen(next, steps[1..], o);
      } else {
        OverIsOver(next, steps[1..], o);
        FailedStaysFailed(next, steps[1..], o);
        RunKeeps(next, steps[1..]);
      }
    }
  }

  lemma {:induction false} FailedStaysFailed(orders: seq<Order>, steps: seq<Step>, o: nat)
    requires Runs(orders, steps) && o < |orders|
    ensures o < |Exec(orders, steps)|
    ensures AnyFailed(orders[o].authorisations) ==> AnyFailed(Exec(orders, steps)[o].authorisations)
    decreases |steps|
  {
    if steps != [] {
      if AnyFailed(orders[o].authorisations) {
        StepKeepsFailed(orders, steps[0], o);
      }
      FailedStaysFailed(Apply(orders, steps[0]), steps[1..], o);
    }
  }

  // So an order made in the course of a run, whatever the store was, has its reason.
  lemma {:induction false} InvalidHasReason(orders: seq<Order>, steps: seq<Step>, o: nat)
    requires AllSound(orders) && Runs(orders, steps) && |orders| <= o < |Exec(orders, steps)|
    requires Exec(orders, steps)[o].status == Invalid
    ensures AnyFailed(Exec(orders, steps)[o].authorisations) || SweptBy(steps, Exec(orders, steps)[o].expires)
    decreases |steps|
  {
    var next := Apply(orders, steps[0]);
    StepKeeps(orders, steps[0]);
    SweptByFirst(steps, Exec(orders, steps)[o].expires);
    if o < |next| {
      InvalidExactlyWhen(next, steps[1..], o);
      RunKeepsTimes(next, steps[1..], o);
    } else {
      InvalidHasReason(next, steps[1..], o);
    }
  }

  // --- What makes an order ready ---

  // Nothing goes wrong with order `o` in the step: its client gives nothing up, the
  // validator refuses nothing of it, and no sweep comes after its time.
  ghost predicate Smooth(order: Order, step: Step, o: nat) {
    && !(step.Deactivate? && step.o == o)
    && !(step.Verdict? && step.o == o && !step.proven)
    && (step.Sweep? ==>
          && step.now < order.expires
          && forall a :: 0 <= a < |order.authorisations| ==> step.now < order.authorisations[a].expires)
  }

  ghost predicate Met(order: Order, steps: seq<Step>, o: nat, a: nat)
    requires a < |order.authorisations|
  {
    order.authorisations[a].status == AuthValid || exists c :: Verdict(o, a, c, true) in steps
  }

  ghost predicate AllMet(order: Order, steps: seq<Step>, o: nat) {
    forall a :: 0 <= a < |order.authorisations| ==> Met(order, steps, o, a)
  }

  lemma SmoothStep(orders: seq<Order>, step: Step, o: nat)
    requires AllSound(orders) && Enabled(orders, step) && o < |orders|
    requires orders[o].status != Invalid && !AnyFailed(orders[o].authorisations) && Smooth(orders[o], step, o)
    ensures o < |Apply(orders, step)|
    ensures var order := Apply(orders, step)[o];
      order.status != Invalid && !AnyFailed(order.authorisations)
  {
    StepFailsOrder(orders, step, o);
    var was, order := orders[o], Apply(orders, step)[o];
    forall a | 0 <= a < |order.authorisations| ensures !Failed(order.authorisations[a]) {
      StepKeepsTimes(orders, step, o);
      StepClosesAuthorisation(orders, step, o, a);
      assert !Failed(was.authorisations[a]);
    }
    assert Sound(was);
  }

  // However the rest interleaves: if every authorisation of an order has a challenge
  // met, in time and with none refused or given up, the order is ready, or already valid.
  lemma {:induction false} MetInTimeIsReady(orders: seq<Order>, steps: seq<Step>, o: nat)
    requires AllSound(orders) && Runs(orders, steps) && o < |orders|
    requires orders[o].status != Invalid && !AnyFailed(orders[o].authorisations)
    requires forall i :: 0 <= i < |steps| ==> Smooth(orders[o], steps[i], o)
    requires AllMet(orders[o], steps, o)
    ensures o < |Exec(orders, steps)|
    ensures Exec(orders, steps)[o].status == Ready || Exec(orders, steps)[o].status == Valid
    decreases |steps|
  {
    if steps == [] {
      var auths := orders[o].authorisations;
      forall a | 0 <= a < |auths| ensures auths[a].status == AuthValid {
        assert Met(orders[o], steps, o, a);
      }
      assert AllValid(auths);
      assert Sound(orders[o]);
    } else {
      var next := Apply(orders, steps[0]);
      StepKeeps(orders, steps[0]);
      SmoothStep(orders, steps[0], o);
      StepKeepsTimes(orders, steps[0], o);
      forall i | 0 <= i < |steps[1..]| ensures Smooth(next[o], steps[1..][i], o) {
        assert Smooth(orders[o], steps[i + 1], o);
      }
      forall a | 0 <= a < |next[o].authorisations| ensures Met(next[o], steps[1..], o, a) {
        MetStays(orders, steps, o, a);
      }
      MetInTimeIsReady(next, steps[1..], o);
    }
  }

  lemma MetStays(orders: seq<Order>, steps: seq<Step>, o: nat, a: nat)
    requires steps != [] && Enabled(orders, steps[0]) && o < |orders| && a < |orders[o].authorisations|
    requires !AnyFailed(orders[o].authorisations) && Smooth(orders[o], steps[0], o) && Met(orders[o], steps, o, a)
    ensures o < |Apply(orders, steps[0])| && a < |Apply(orders, steps[0])[o].authorisations|
    ensures Met(Apply(orders, steps[0])[o], steps[1..], o, a)
  {
    StepClosesAuthorisation(orders, steps[0], o, a);
    assert !Failed(orders[o].authorisations[a]);
    if orders[o].authorisations[a].status != AuthValid {
      var c :| Verdict(o, a, c, true) in steps;
      assert steps[0] == Verdict(o, a, c, true) || Verdict(o, a, c, true) in steps[1..];
    }
  }

  // --- Such runs there are ---

  // The authorisations from `from` on are as a new order has them, the others valid.
  ghost predicate MetUpTo(order: Order, from: nat) {
    && MetBut(order, from)
    && (from < |order.authorisations| ==>
          && order.authorisations[from].challenges != []
          && order.authorisations[from].challenges[0].status == ToDo)
  }

  ghost predicate MetBut(order: Order, from: nat) {
    && Open(order)
    && forall a :: 0 <= a < |order.authorisations| ==>
         var auth := order.authorisations[a];
         && auth.status == (if a < from then AuthValid else AuthPending)
         && (a > from ==> auth.challenges != [] && auth.challenges[0].status == ToDo)
  }

  lemma MeetNext(orders: seq<Order>, o: nat, from: nat) returns (steps: seq<Step>, next: seq<Order>)
    requires AllSound(orders) && o < |orders| && from < |orders[o].authorisations| && MetUpTo(orders[o], from)
    ensures Leads(orders, steps, next) && AllSound(next) && o < |next| && MetUpTo(next[o], from + 1)
    ensures |next[o].authorisations| == |orders[o].authorisations| && next[o].terms == orders[o].terms
  {
    var attempt, verdict := Attempt(o, from, 0), Verdict(o, from, 0, true);
    var tried := Apply(orders, attempt);
    StepKeeps(orders, attempt);
    AttemptOnlyTries(orders, o, from, 0);
    MeetTried(tried, o, from);
    StepKeeps(tried, verdict);
    OneStep(tried, verdict);
    steps, next := [attempt, verdict], Apply(tried, verdict);
    assert steps[1..] == [verdict];
  }

  lemma MeetTried(orders: seq<Order>, o: nat, from: nat)
    requires AllSound(orders) && o < |orders| && from < |orders[o].authorisations| && MetBut(orders[o], from)
    requires orders[o].authorisations[from].challenges != []
             && orders[o].authorisations[from].challenges[0].status == Trying
    ensures Enabled(orders, Verdict(o, from, 0, true))
    ensures var next := Apply(orders, Verdict(o, from, 0, true));
      OnlyIn(orders, next, o) && MetUpTo(next[o], from + 1)
  {
    VerdictMarks(orders, o, from, 0, true);
    VerdictSettles(orders, o, from, 0, true);
  }

  lemma OneStep(orders: seq<Order>, step: Step)
    requires Enabled(orders, step)
    ensures Runs(orders, [step]) && Exec(orders, [step]) == Apply(orders, step)
  {
    assert [step][1..] == [];
    assert Exec(Apply(orders, step), []) == Apply(orders, step);
  }

  lemma {:induction false} RunsThen(orders: seq<Order>, first: seq<Step>, second: seq<Step>)
    requires Runs(orders, first) && Runs(Exec(orders, first), second)
    ensures Runs(orders, first + second) && Exec(orders, first + second) == Exec(Exec(orders, first), second)
    decreases |first|
  {
    if first == [] {
      assert first + second == second;
    } else {
      assert (first + second)[1..] == first[1..] + second;
      RunsThen(Apply(orders, first[0]), first[1..], second);
    }
  }

  lemma NoneLeft(orders: seq<Order>, o: nat)
    requires AllSound(orders) && o < |orders| && MetUpTo(orders[o], |orders[o].authorisations|)
    ensures Leads(orders, [], orders) && orders[o].status == Ready
  {
    assert AllValid(orders[o].authorisations) && Sound(orders[o]);
  }

  // From `orders` a run comes to `end`.
  ghost predicate Leads(orders: seq<Order>, steps: seq<Step>, end: seq<Order>) {
    Runs(orders, steps) && Exec(orders, steps) == end
  }

  lemma {:induction false} MeetAll(orders: seq<Order>, o: nat, from: nat)
    returns (steps: seq<Step>, end: seq<Order>)
    requires AllSound(orders) && o < |orders| && from <= |orders[o].authorisations| && MetUpTo(orders[o], from)
    ensures Leads(orders, steps, end)
    ensures o < |end| && end[o].status == Ready && end[o].terms == orders[o].terms
    decreases |orders[o].authorisations| - from
  {
    if from == |orders[o].authorisations| {
      steps, end := [], orders;
      NoneLeft(orders, o);
    } else {
      var first, next := MeetNext(orders, o, from);
      var rest;
      rest, end := MeetAll(next, o, from + 1);
      LeadsThen(orders, first, next, rest, end);
      steps := first + rest;
    }
  }

  lemma LeadsThen(orders: seq<Order>, first: seq<Step>, next: seq<Order>, rest: seq<Step>, end: seq<Order>)
    requires Leads(orders, first, next) && Leads(next, rest, end)
    ensures Leads(orders, first + rest, end)
  {
    RunsThen(orders, first, rest);
  }

  // Whatever may be ordered, over whatever store: there is a run in which the order is
  // made, each authorisation's challenge is tried and met, and the order is ready; and
  // whatever is then issued on it, it is valid with that certificate.
  lemma EveryOrderCanBeFinalised(
    orders: seq<Order>, terms: Issuance.Order, offered: seq<Issuance.ChallengeType>, expires: int)
    returns (steps: seq<Step>)
    requires AllSound(orders) && Orderable(terms, offered)
    ensures Runs(orders, steps) && |orders| < |Exec(orders, steps)|
    ensures Exec(orders, steps)[|orders|].status == Ready && Exec(orders, steps)[|orders|].terms == terms
    ensures forall dns, issuer, csr, accountKey, now ::
      Issuance.Issue(dns, issuer, terms, csr, accountKey, now).Ok? ==>
        Finalises(orders, steps, |orders|, Finalise(|orders|, dns, issuer, csr, accountKey, now),
                  Issuance.Issue(dns, issuer, terms, csr, accountKey, now).value)
  {
    var asked := NewOrder(terms, offered, expires);
    var o, made := |orders|, Apply(orders, asked);
    NewOrderAsks(orders, terms, offered, expires);
    StepKeeps(orders, asked);
    var rest, end := MeetAll(made, o, 0);
    OneStep(orders, asked);
    RunsThen(orders, [asked], rest);
    steps := [asked] + rest;
    forall dns, issuer, csr, accountKey, now | Issuance.Issue(dns, issuer, terms, csr, accountKey, now).Ok?
      ensures Finalises(orders, steps, o, Finalise(o, dns, issuer, csr, accountKey, now),
                        Issuance.Issue(dns, issuer, terms, csr, accountKey, now).value)
    {
      FinalisesReady(orders, steps, o, Finalise(o, dns, issuer, csr, accountKey, now));
    }
  }

  // The run goes on with `step`, which leaves order `o` valid with `cert`.
  ghost predicate Finalises(
    orders: seq<Order>, steps: seq<Step>, o: nat, step: Step, cert: Issuance.Certificate)
  {
    && Runs(orders, steps + [step]) && o < |Exec(orders, steps + [step])|
    && Exec(orders, steps + [step])[o].status == Valid
    && Exec(orders, steps + [step])[o].certificate == Some(cert)
  }

  lemma FinalisesReady(orders: seq<Order>, steps: seq<Step>, o: nat, step: Step)
    requires Runs(orders, steps) && o < |Exec(orders, steps)| && Exec(orders, steps)[o].status == Ready
    requires step.Finalise? && step.o == o
    requires Enabled(Exec(orders, steps), step)
    ensures Finalises(
      orders, steps, o, step,
      Issuance.Issue(step.dns, step.issuer, Exec(orders, steps)[o].terms, step.csr, step.accountKey, step.now).value)
  {
    OneStep(Exec(orders, steps), step);
    RunsThen(orders, steps, [step]);
  }
}
