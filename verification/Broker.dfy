// The broker as it is written: fields changed in place under the state lock. Each
// method is the step of `Enrolment` of the same name.
module Broker {
  import opened Wrappers
  import opened Enrolment

  datatype Refusal = NotEnrolled | IsRevoked | BadChain | BadConfig | WrongCode | Internal

  // Why a renewal is refused, in the order it is checked.
  function ChainRefusal(s: State, chain: Chain, configOk: bool, stored: bool): Option<Refusal> {
    if s.disk.enrolment.None? then Some(NotEnrolled)
    else if s.disk.enrolment.value.revoked then Some(IsRevoked)
    else if !CheckChain(s, chain) || chain.root != s.disk.enrolment.value.chain.root then Some(BadChain)
    else if !configOk then Some(BadConfig)
    else if !stored then Some(Internal)
    else None
  }

  class Broker {
    // The files of the state directory.
    var keyFile: Option<nat>
    var enrolmentFile: Option<Enrolled>
    var codeFile: Option<Code>
    // The daemon's own fields.
    var subordinate: nat
    var mode: Option<Enrolled>
    var issuer: Option<Issuer>
    var requests: map<nat, Request>
    // The clock, how many keys and codes have been made, and what has happened so far.
    var now: int
    var keys: nat
    var codes: nat
    var epoch: nat
    var loaded: nat
    ghost var held: set<nat>
    ghost var enrolledBy: seq<nat>
    ghost var leaves: set<Issuer>

    ghost function View(): State
      reads this
    {
      State(now, Disk(keyFile, enrolmentFile, codeFile), Memory(subordinate, mode, loaded, issuer), requests,
            keys, codes, epoch, held, enrolledBy, leaves)
    }

    constructor (s: State)
      ensures View() == s
    {
      keyFile, enrolmentFile, codeFile := s.disk.key, s.disk.enrolment, s.disk.code;
      subordinate, mode, issuer, loaded := s.memory.key, s.memory.mode, s.memory.issuer, s.memory.epoch;
      now, requests, keys, codes, epoch := s.now, s.requests, s.keys, s.codes, s.epoch;
      held, enrolledBy, leaves := s.held, s.enrolledBy, s.leaves;
    }

    method RefreshAcme(serving: bool)
      modifies this`issuer
      ensures View() == Enrolment.RefreshAcme(old(View()), serving)
    {
      if mode.Some? && !mode.value.revoked && serving && mode.value.chain.key == subordinate {
        issuer := Some(Issuer(mode.value.chain.serial, loaded));
      }
    }

    method Store(enrolled: Enrolled)
      modifies this`enrolmentFile, this`mode, this`loaded
      ensures View() == Enrolment.Store(old(View()), enrolled)
    {
      enrolmentFile := Some(enrolled);
      mode, loaded := Some(enrolled), epoch;
    }

    method StoreChain(chain: Chain, configOk: bool, stored: bool, serving: bool) returns (r: Result<(), Refusal>)
      modifies this
      ensures View() == Enrolment.StoreChain(old(View()), chain, configOk, stored, serving)
      ensures r.Err? <==> ChainRefusal(old(View()), chain, configOk, stored).Some?
      ensures r.Err? ==> Some(r.error) == ChainRefusal(old(View()), chain, configOk, stored) && View() == old(View())
      ensures r == Err(NotEnrolled) <==> old(enrolmentFile).None?
      ensures r == Err(IsRevoked) <==> old(enrolmentFile).Some? && old(enrolmentFile).value.revoked
      ensures r.Ok? <==>
        && stored && configOk && chain.key == old(subordinate) && chain.linked && chain.notAfter > old(now)
        && old(enrolmentFile).Some? && !old(enrolmentFile).value.revoked
        && chain.root == old(enrolmentFile).value.chain.root
      ensures r.Ok? ==>
        var was := old(enrolmentFile).value;
        && enrolmentFile == mode && enrolmentFile.Some?
        && enrolmentFile.value == Enrolled(chain, false, was.paused, enrolmentFile.value.issuers)
        && enrolmentFile.value.issuers.Some? == was.issuers.Some?
        && (was.issuers.Some? ==> enrolmentFile.value.issuers.value == was.issuers.value + [chain.serial])
        && (serving ==> issuer == Some(Issuer(chain.serial, epoch)))
      ensures keyFile == old(keyFile) && codeFile == old(codeFile) && subordinate == old(subordinate)
      ensures requests == old(requests) && epoch == old(epoch)
    {
      if enrolmentFile.None? {
        return Err(NotEnrolled);
      }
      var current := enrolmentFile.value;
      if current.revoked {
        return Err(IsRevoked);
      }
      if chain.key != subordinate || !chain.linked || chain.notAfter <= now || chain.root != current.chain.root {
        return Err(BadChain);
      }
      if !configOk {
        return Err(BadConfig);
      }
      if !stored {
        return Err(Internal);
      }
      Store(Renewed(current, chain));
      held := held + {chain.serial};
      RefreshAcme(serving);
      return Ok(());
    }

    method StorePause(paused: bool, stored: bool, serving: bool) returns (r: Result<(), Refusal>)
      modifies this
      ensures View() == Enrolment.StorePause(old(View()), paused, stored, serving)
      ensures old(enrolmentFile).None? ==> r == Err(NotEnrolled)
      ensures old(enrolmentFile).Some? && old(enrolmentFile).value.revoked ==> r == Err(IsRevoked)
      ensures r.Ok? <==>
        && old(enrolmentFile).Some? && !old(enrolmentFile).value.revoked
        && (old(enrolmentFile).value.paused == paused || stored)
      ensures r.Ok? && old(enrolmentFile).value.paused != paused ==>
        && enrolmentFile == mode == Some(old(enrolmentFile).value.(paused := paused))
        && keyFile == old(keyFile) && codeFile == old(codeFile) && subordinate == old(subordinate)
        && requests == old(requests) && epoch == loaded == old(epoch) && keys == old(keys) && codes == old(codes)
        && (issuer == old(issuer) || (serving && issuer == Some(Issuer(enrolmentFile.value.chain.serial, epoch))))
      ensures r.Err? || old(enrolmentFile).value.paused == paused ==> View() == old(View())
    {
      if enrolmentFile.None? {
        return Err(NotEnrolled);
      }
      var current := enrolmentFile.value;
      if current.revoked {
        return Err(IsRevoked);
      }
      if current.paused == paused {
        return Ok(());
      }
      if !stored {
        return Err(Internal);
      }
      Store(current.(paused := paused));
      RefreshAcme(serving);
      return Ok(());
    }

    method StoreRevocation(stored: bool) returns (r: Result<(), Refusal>)
      modifies this
      ensures View() == Enrolment.StoreRevocation(old(View()), stored)
      ensures old(enrolmentFile).None? ==> r == Err(NotEnrolled)
      ensures r.Ok? <==> old(enrolmentFile).Some? && (old(enrolmentFile).value.revoked || stored)
      ensures r.Ok? && !old(enrolmentFile).value.revoked ==>
        && enrolmentFile == mode == Some(old(enrolmentFile).value.(revoked := true))
        && keyFile == old(keyFile) && codeFile == old(codeFile) && subordinate == old(subordinate)
        && issuer == old(issuer) && requests == old(requests) && epoch == loaded == old(epoch)
        && keys == old(keys) && codes == old(codes)
      ensures r.Err? || old(enrolmentFile).value.revoked ==> View() == old(View())
    {
      if enrolmentFile.None? {
        return Err(NotEnrolled);
      }
      var current := enrolmentFile.value;
      if current.revoked {
        return Ok(());
      }
      if !stored {
        return Err(Internal);
      }
      Store(current.(revoked := true));
      RefreshAcme(false);
      return Ok(());
    }

    // `OneTimeCode::redeem`: right and pending spends the code, wrong costs an attempt.
    method Redeem(code: Option<nat>) returns (accepted: bool)
      modifies this`codeFile
      ensures accepted <==> Redeems(old(View()), code)
      ensures codeFile ==
              if old(codeFile).None? then None
              else if accepted then Some(old(codeFile).value.(state := Accepted))
              else Some(Attempted(old(codeFile).value))
    {
      if codeFile.None? {
        return false;
      }
      var current := codeFile.value;
      if current.state.Pending? && code == Some(current.number) {
        codeFile := Some(current.(state := Accepted));
        return true;
      }
      codeFile := Some(Attempted(current));
      return false;
    }

    method RedeemAndStore(r: nat, promoted: bool, serving: bool) returns (answer: Result<(), Refusal>)
      requires r in requests
      modifies this
      ensures View() == Enrolment.RedeemAndStore(old(View()), r, promoted, serving)
      ensures answer.Ok? <==>
        && promoted && old(codeFile).Some? && old(codeFile).value.state.Pending?
        && old(requests)[r].code == Some(old(codeFile).value.number)
      ensures answer.Ok? ==>
        && enrolmentFile == mode == Some(old(requests)[r].enrolled)
        && codeFile == Some(old(codeFile).value.(state := Accepted)) && epoch == old(epoch) + 1
      ensures answer.Err? ==>
        enrolmentFile == old(enrolmentFile) && mode == old(mode) && issuer == old(issuer) && epoch == old(epoch)
      ensures keyFile == old(keyFile) && subordinate == old(subordinate) && requests == old(requests) - {r}
    {
      var Request(code, enrolled) := requests[r];
      requests := requests - {r};
      var accepted := Redeem(code);
      if !accepted {
        return Err(WrongCode);
      }
      if !promoted {
        return Err(Internal);
      }
      Promote(enrolled, serving);
      return Ok(());
    }

    // The staged enrolment put in place, its code spent.
    method Promote(enrolled: Enrolled, serving: bool)
      requires codeFile.Some?
      modifies this
      ensures enrolmentFile == mode == Some(enrolled)
      ensures
        var s := old(View());
        var next := s.(epoch := s.epoch + 1, held := {enrolled.chain.serial},
                       enrolledBy := s.enrolledBy + [s.disk.code.value.number]);
        View() == Enrolment.RefreshAcme(Enrolment.Store(next, enrolled), serving)
    {
      epoch, held := epoch + 1, {enrolled.chain.serial};
      enrolledBy := enrolledBy + [codeFile.value.number];
      Store(enrolled);
      RefreshAcme(serving);
    }

    method ReloadLocked(serving: bool)
      modifies this
      ensures View() == Enrolment.ReloadLocked(old(View()), serving)
      ensures keyFile == Some(subordinate) && mode == enrolmentFile
      ensures enrolmentFile == old(enrolmentFile) && codeFile == old(codeFile) && requests == old(requests)
      ensures old(keyFile).Some? ==> keyFile == old(keyFile) && keys == old(keys)
      ensures old(keyFile).None? ==> subordinate == old(keys) < keys
      ensures issuer != old(issuer) ==>
        && mode.Some? && !mode.value.revoked && mode.value.chain.key == subordinate
        && issuer == Some(Issuer(mode.value.chain.serial, epoch))
    {
      if keyFile.None? {
        keyFile, keys := Some(keys), keys + 1;
      }
      subordinate, mode, loaded := keyFile.value, enrolmentFile, epoch;
      RefreshAcme(serving);
    }
  }
}
