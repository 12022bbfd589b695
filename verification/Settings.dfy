// The operator's local settings: naming an account, and rekeying entries stored under
// an older name for it. The accounts `op` lists and what `op account get` answers are
// parameters; texts are ASCII, so trimming and case folding are ASCII's.
module Settings {
  import opened Wrappers
  import opened Text

  // --- Naming an account ---

  datatype AccountInfo = AccountInfo(userUuid: string, accountUuid: string, url: string)

  predicate EqIgnoreCase(a: string, b: string) {
    Lower(a) == Lower(b)
  }

  predicate Blank(c: char) {
    c == ' ' || '\t' <= c <= '\r'
  }

  function Trim(s: string): string {
    if s == [] then s
    else if Blank(s[0]) then Trim(s[1..])
    else if Blank(s[|s| - 1]) then Trim(s[..|s| - 1])
    else s
  }

  predicate IsAliasOf(identifier: string, account: AccountInfo) {
    exists alias :: alias in [account.userUuid, account.accountUuid, account.url]
                    && alias != [] && EqIgnoreCase(alias, identifier)
  }

  function Matches(identifier: string, accounts: seq<AccountInfo>): seq<AccountInfo> {
    if accounts == [] then []
    else
      var rest := Matches(identifier, accounts[1..]);
      if IsAliasOf(identifier, accounts[0]) then [accounts[0]] + rest else rest
  }

  function MatchAlias(identifier: string, accounts: seq<AccountInfo>): Option<string> {
    var matches := Matches(Trim(identifier), accounts);
    if |matches| == 1 && matches[0].userUuid != [] then Some(matches[0].userUuid) else None
  }

  // `op` is what `op account get` answers for an identifier.
  function CanonicalKey(identifier: string, accounts: seq<AccountInfo>, op: string -> Option<string>): Option<string> {
    var known := MatchAlias(identifier, accounts);
    if known.Some? then known
    else
      var id := op(identifier);
      if id.Some? then MatchAlias(id.value, accounts) else None
  }

  // The count and the place: exactly one listed account answers to the identifier.
  predicate NamesOnly(identifier: string, accounts: seq<AccountInfo>, i: nat)
    requires i < |accounts|
  {
    forall j :: 0 <= j < |accounts| ==> (IsAliasOf(identifier, accounts[j]) <==> j == i)
  }

  lemma {:induction false} NoMatch(identifier: string, accounts: seq<AccountInfo>)
    ensures Matches(identifier, accounts) == [] <==>
      forall j :: 0 <= j < |accounts| ==> !IsAliasOf(identifier, accounts[j])
    decreases |accounts|
  {
    if accounts != [] {
      NoMatch(identifier, accounts[1..]);
      assert forall j :: 1 <= j < |accounts| ==> accounts[j] == accounts[1..][j - 1];
    }
  }

  lemma {:induction false} OneMatchExactlyWhen(identifier: string, accounts: seq<AccountInfo>)
    ensures |Matches(identifier, accounts)| == 1 <==>
      exists i :: 0 <= i < |accounts| && NamesOnly(identifier, accounts, i)
    ensures forall i :: 0 <= i < |accounts| && NamesOnly(identifier, accounts, i) ==>
      Matches(identifier, accounts) == [accounts[i]]
    decreases |accounts|
  {
    if accounts != [] {
      var rest := accounts[1..];
      OneMatchExactlyWhen(identifier, rest);
      NoMatch(identifier, rest);
      assert forall j :: 1 <= j < |accounts| ==> accounts[j] == rest[j - 1];
      if IsAliasOf(identifier, accounts[0]) {
        if Matches(identifier, rest) == [] {
          assert NamesOnly(identifier, accounts, 0);
        }
      } else {
        if i :| 0 <= i < |rest| && NamesOnly(identifier, rest, i) {
          assert NamesOnly(identifier, accounts, i + 1);
        }
        forall i | 0 <= i < |accounts| && NamesOnly(identifier, accounts, i)
          ensures i > 0 && NamesOnly(identifier, rest, i - 1)
        {
        }
      }
    }
  }

  lemma MatchAliasNames(identifier: string, accounts: seq<AccountInfo>, uuid: string)
    ensures MatchAlias(identifier, accounts) == Some(uuid) <==>
      && uuid != []
      && exists i :: 0 <= i < |accounts| && NamesOnly(Trim(identifier), accounts, i) && accounts[i].userUuid == uuid
  {
    OneMatchExactlyWhen(Trim(identifier), accounts);
  }

  // An identifier resolves exactly when it names one listed account, and then to its user.
  lemma MatchAliasExactlyWhen(identifier: string, accounts: seq<AccountInfo>, uuid: string)
    ensures MatchAlias(identifier, accounts) == Some(uuid) <==>
      && uuid != []
      && exists i :: 0 <= i < |accounts| && OnlyAnswer(Lower(Trim(identifier)), accounts, i)
                     && accounts[i].userUuid == uuid
  {
    MatchAliasNames(identifier, accounts, uuid);
    forall i | 0 <= i < |accounts|
      ensures OnlyAnswer(Lower(Trim(identifier)), accounts, i) <==> NamesOnly(Trim(identifier), accounts, i)
    {
      forall j | 0 <= j < |accounts|
        ensures Answers(Lower(Trim(identifier)), accounts[j]) <==> IsAliasOf(Trim(identifier), accounts[j])
      {
        AnswersToAlias(Trim(identifier), accounts[j]);
      }
    }
  }

  // One of the account's three names, if it has it, is `name` but for case.
  predicate Answers(name: string, account: AccountInfo) {
    || (account.userUuid != "" && Lower(account.userUuid) == name)
    || (account.accountUuid != "" && Lower(account.accountUuid) == name)
    || (account.url != "" && Lower(account.url) == name)
  }

  // Account `i` answers to `name`, and no other listed does.
  predicate OnlyAnswer(name: string, accounts: seq<AccountInfo>, i: nat)
    requires i < |accounts|
  {
    forall j :: 0 <= j < |accounts| ==> (Answers(name, accounts[j]) <==> j == i)
  }

  lemma AnswersToAlias(identifier: string, account: AccountInfo)
    ensures Answers(Lower(identifier), account) <==> IsAliasOf(identifier, account)
  {
    var aliases := [account.userUuid, account.accountUuid, account.url];
    assert aliases[0] in aliases && aliases[1] in aliases && aliases[2] in aliases;
  }

  // What is left is the middle of the text, from its first character that is no blank to
  // its last.
  lemma {:induction false} TrimIsTheMiddle(s: string) returns (i: nat, j: nat)
    ensures Middle(s, i, j) && Trim(s) == s[i..j]
    decreases |s|
  {
    if s != [] && Blank(s[0]) {
      i, j := TrimIsTheMiddle(s[1..]);
      MiddleAfterBlank(s, i, j);
      i, j := i + 1, j + 1;
    } else if s != [] && Blank(s[|s| - 1]) {
      i, j := TrimIsTheMiddle(s[..|s| - 1]);
      MiddleBeforeBlank(s, i, j);
    } else {
      i, j := 0, |s|;
    }
  }

  // There are only blanks before `i` and from `j` on, and none at the ends between.
  ghost predicate Middle(s: string, i: nat, j: nat) {
    && i <= j <= |s|
    && (forall k :: 0 <= k < i || j <= k < |s| ==> IsBlank(s[k]))
    && (i < j ==> !IsBlank(s[i]) && !IsBlank(s[j - 1]))
  }

  lemma MiddleAfterBlank(s: string, i: nat, j: nat)
    requires s != [] && IsBlank(s[0]) && Middle(s[1..], i, j)
    ensures Middle(s, i + 1, j + 1) && s[i + 1..j + 1] == s[1..][i..j]
  {
    assert forall k :: 1 <= k < |s| ==> s[k] == s[1..][k - 1];
  }

  lemma MiddleBeforeBlank(s: string, i: nat, j: nat)
    requires s != [] && IsBlank(s[|s| - 1]) && Middle(s[..|s| - 1], i, j)
    ensures Middle(s, i, j) && s[i..j] == s[..|s| - 1][i..j]
  {
    assert forall k :: 0 <= k < |s| - 1 ==> s[k] == s[..|s| - 1][k];
  }

  predicate IsBlank(c: char) {
    c in {' ', '\t', '\n', '\U{000b}', '\U{000c}', '\r'}
  }

  // Every listed user UUID is as `op` writes it, and names its own row alone.
  predicate Tidy(accounts: seq<AccountInfo>) {
    forall i :: 0 <= i < |accounts| && accounts[i].userUuid != [] ==>
      Trim(accounts[i].userUuid) == accounts[i].userUuid && NamesOnly(accounts[i].userUuid, accounts, i)
  }

  // So resolving twice is resolving once, whatever `op` answers.
  lemma CanonicalKeysAreStable(accounts: seq<AccountInfo>, op: string -> Option<string>)
    requires Tidy(accounts)
    ensures Stable(Resolution(accounts, op))
  {
    var c := Resolution(accounts, op);
    forall k ensures StableAt(c, k) {
      if k in c {
        var asked := if MatchAlias(k, accounts).Some? then k else op(k).value;
        MatchAliasNames(asked, accounts, c[k]);
        MatchAliasNames(c[k], accounts, c[k]);
      }
    }
  }

  // `canonical_key` as the resolver that `migrate` is given.
  ghost function Resolution(accounts: seq<AccountInfo>, op: string -> Option<string>): Resolver {
    imap k | CanonicalKey(k, accounts, op).Some? :: CanonicalKey(k, accounts, op).value
  }

  // --- Rekeying ---

  // What a resolver answers: the keys that resolve, and to what.
  type Resolver = imap<string, string>

  type Items = map<string, string>

  // What a key resolves to is its own name, or names nothing.
  ghost predicate Stable(canonical: Resolver) {
    forall k :: StableAt(canonical, k)
  }

  ghost predicate StableAt(canonical: Resolver, k: string) {
    k in canonical && canonical[k] in canonical ==> canonical[canonical[k]] == canonical[k]
  }

  predicate ResolvesTo(canonical: Resolver, alias: string, key: string) {
    alias in canonical && canonical[alias] == key
  }

  predicate IsAlias(canonical: Resolver, key: string) {
    key in canonical && canonical[key] != key
  }

  // `alias` is the least alias in `items` of `key`.
  ghost predicate LeastAlias(items: Items, canonical: Resolver, key: string, alias: string) {
    && alias in items && IsAlias(canonical, alias) && ResolvesTo(canonical, alias, key)
    && forall k :: k in items && IsAlias(canonical, k) && ResolvesTo(canonical, k, key) ==>
         k == alias || Less(alias, k)
  }

  // Exactly the entries of `after`, and where each item came from.
  ghost predicate Migrated(before: Items, canonical: Resolver, after: Items) {
    && (forall k :: k in before && !IsAlias(canonical, k) ==> k in after && after[k] == before[k])
    && (forall k :: k in before && IsAlias(canonical, k) ==> canonical[k] in after)
    && (forall k :: k in after ==> !IsAlias(canonical, k))
    && (forall k :: k in after && k !in before ==>
          exists alias :: LeastAlias(before, canonical, k, alias) && after[k] == before[alias])
  }

  lemma LeastAliasUnique(items: Items, canonical: Resolver, key: string, a: string, b: string)
    requires LeastAlias(items, canonical, key, a) && LeastAlias(items, canonical, key, b)
    ensures a == b
  {
    LessTotal(a, b);
  }

  // That says it all: there is one such map.
  lemma MigratedIsDetermined(before: Items, canonical: Resolver,
                             a: Items, b: Items)
    requires Migrated(before, canonical, a) && Migrated(before, canonical, b)
    ensures a == b
  {
    forall k | k in a ensures k in b && a[k] == b[k] {
      MigratedEntry(before, canonical, a, b, k);
    }
    forall k | k in b ensures k in a {
      MigratedEntry(before, canonical, b, a, k);
    }
  }

  lemma MigratedEntry(before: Items, canonical: Resolver,
                      a: Items, b: Items, k: string)
    requires Migrated(before, canonical, a) && Migrated(before, canonical, b) && k in a
    ensures k in b && a[k] == b[k]
  {
    if k !in before {
      var alias :| LeastAlias(before, canonical, k, alias) && a[k] == before[alias];
      var other :| LeastAlias(before, canonical, k, other) && b[k] == before[other];
      LeastAliasUnique(before, canonical, k, alias, other);
    }
  }

  // Migrating what has been migrated changes nothing.
  lemma MigrateIsIdempotent(before: Items, canonical: Resolver,
                            once: Items, twice: Items)
    requires Migrated(before, canonical, once) && Migrated(once, canonical, twice)
    ensures twice == once
  {
    assert Migrated(once, canonical, once);
    MigratedIsDetermined(once, canonical, once, twice);
  }

  // --- The loop ---

  // One turn: `alias`'s item moves to its canonical key, unless that has one.
  function Rekeyed(items: Items, alias: string, target: string): Items {
    if alias !in items then items
    else
      var without := items - {alias};
      if target in without then without else without[target := items[alias]]
  }

  predicate Ascending(keys: seq<string>) {
    forall i, j :: 0 <= i < j < |keys| ==> Less(keys[i], keys[j])
  }

  // What holds when the aliases `olds[..n]` have been rekeyed.
  ghost predicate Underway(before: Items, canonical: Resolver, olds: seq<string>, n: nat, items: Items)
    requires n <= |olds|
  {
    && ItemsKept(before, olds, n, items)
    && AliasesGone(canonical, olds, n, items)
    && (forall k :: k in items && k !in before ==> CameFrom(before, canonical, olds, n, items, k))
  }

  ghost predicate ItemsKept(before: Items, olds: seq<string>, n: nat, items: Items)
    requires n <= |olds|
  {
    forall k :: k in before && k !in olds[..n] ==> k in items && items[k] == before[k]
  }

  ghost predicate AliasesGone(canonical: Resolver, olds: seq<string>, n: nat, items: Items)
    requires n <= |olds|
  {
    forall i :: 0 <= i < n ==> olds[i] !in items && olds[i] in canonical && canonical[olds[i]] in items
  }

  // The item of `k` is that of the first alias of it.
  ghost predicate CameFrom(before: Items, canonical: Resolver, olds: seq<string>, n: nat, items: Items, k: string)
    requires n <= |olds| && k in items
  {
    exists i :: 0 <= i < n && First(canonical, olds, i, k) && olds[i] in before && items[k] == before[olds[i]]
  }

  // `olds[i]` is the first in `olds` that resolves to `key`.
  ghost predicate First(canonical: Resolver, olds: seq<string>, i: nat, key: string)
    requires i < |olds|
  {
    ResolvesTo(canonical, olds[i], key) && forall j :: 0 <= j < i ==> !ResolvesTo(canonical, olds[j], key)
  }

  // The aliases among the keys of `before`, in order.
  ghost predicate Rekeys(before: Items, canonical: Resolver, olds: seq<string>) {
    && Ascending(olds)
    && forall k :: k in olds <==> k in before && IsAlias(canonical, k)
  }

  // The n-th alias was not rekeyed before its turn, and no target is an alias.
  lemma TurnIsFresh(before: Items, canonical: Resolver, olds: seq<string>, n: nat)
    requires n < |olds| && Rekeys(before, canonical, olds) && Stable(canonical)
    ensures olds[n] in before && IsAlias(canonical, olds[n]) && olds[n] !in olds[..n]
    ensures canonical[olds[n]] !in olds
  {
    assert olds[n] in olds && StableAt(canonical, olds[n]);
    if i :| 0 <= i < n && olds[i] == olds[n] {
      LessTotal(olds[n], olds[n]);
    }
  }

  // A key that is no alias yet rekeyed keeps its item.
  lemma TurnKeepsItems(before: Items, canonical: Resolver, olds: seq<string>, n: nat, items: Items)
    requires n < |olds| && ItemsKept(before, olds, n, items) && olds[n] in canonical
    ensures ItemsKept(before, olds, n + 1, Rekeyed(items, olds[n], Target(canonical, olds[n])))
  {
    assert olds[..n + 1] == olds[..n] + [olds[n]];
  }

  // An alias once rekeyed stays gone, and its target stays.
  lemma TurnKeepsAliasesGone(before: Items, canonical: Resolver, olds: seq<string>, n: nat, items: Items)
    requires n < |olds| && Rekeys(before, canonical, olds) && Stable(canonical)
    requires ItemsKept(before, olds, n, items) && AliasesGone(canonical, olds, n, items)
    requires olds[n] in canonical
    ensures AliasesGone(canonical, olds, n + 1, Rekeyed(items, olds[n], Target(canonical, olds[n])))
  {
    TurnIsFresh(before, canonical, olds, n);
    assert olds[n] in items;
    forall i | 0 <= i <= n
      ensures olds[i] in canonical && canonical[olds[i]] != olds[n] && olds[i] != canonical[olds[n]]
    {
      TurnIsFresh(before, canonical, olds, i);
      assert olds[n] in olds && olds[i] in olds;
    }
  }

  lemma TurnKeeps(before: Items, canonical: Resolver, olds: seq<string>, n: nat, items: Items)
    requires n < |olds| && Rekeys(before, canonical, olds) && Stable(canonical)
    requires Underway(before, canonical, olds, n, items)
    ensures olds[n] in canonical
    ensures Underway(before, canonical, olds, n + 1, Rekeyed(items, olds[n], Target(canonical, olds[n])))
  {
    TurnIsFresh(before, canonical, olds, n);
    TurnKeepsItems(before, canonical, olds, n, items);
    TurnKeepsAliasesGone(before, canonical, olds, n, items);
    var after := Rekeyed(items, olds[n], Target(canonical, olds[n]));
    forall k | k in after && k !in before
      ensures CameFrom(before, canonical, olds, n + 1, after, k)
    {
      TurnAdds(before, canonical, olds, n, items, k);
    }
  }

  // An entry that was not there before has the item of the first alias of its key.
  lemma TurnAdds(before: Items, canonical: Resolver, olds: seq<string>, n: nat, items: Items, k: string)
    requires n < |olds| && Rekeys(before, canonical, olds) && Stable(canonical)
    requires Underway(before, canonical, olds, n, items) && olds[n] in canonical
    requires k in Rekeyed(items, olds[n], Target(canonical, olds[n])) && k !in before
    ensures CameFrom(before, canonical, olds, n + 1, Rekeyed(items, olds[n], Target(canonical, olds[n])), k)
  {
    TurnIsFresh(before, canonical, olds, n);
    if k in items {
      var i :| 0 <= i < n && First(canonical, olds, i, k) && olds[i] in before && items[k] == before[olds[i]];
    } else {
      FirstTurn(canonical, olds, n, items, k);
    }
  }

  // A key not there yet has had no alias rekeyed.
  lemma FirstTurn(canonical: Resolver, olds: seq<string>, n: nat, items: Items, k: string)
    requires n < |olds| && AliasesGone(canonical, olds, n, items) && k !in items && ResolvesTo(canonical, olds[n], k)
    ensures First(canonical, olds, n, k)
  {
  }

  lemma DoneIsMigrated(before: Items, canonical: Resolver,
                       olds: seq<string>, items: Items)
    requires Rekeys(before, canonical, olds) && Stable(canonical)
    requires Underway(before, canonical, olds, |olds|, items)
    ensures Migrated(before, canonical, items)
  {
    assert olds[..|olds|] == olds;
    forall k | k in before && IsAlias(canonical, k) ensures canonical[k] in items && k !in items {
      var i :| 0 <= i < |olds| && olds[i] == k;
    }
    forall k | k in items && k !in before
      ensures !IsAlias(canonical, k)
      ensures exists alias :: LeastAlias(before, canonical, k, alias) && items[k] == before[alias]
    {
      var i :| 0 <= i < |olds| && First(canonical, olds, i, k) && olds[i] in before && items[k] == before[olds[i]];
      assert StableAt(canonical, olds[i]);
      FirstIsLeast(before, canonical, olds, i, k);
    }
  }

  lemma FirstIsLeast(before: Items, canonical: Resolver, olds: seq<string>, i: nat, key: string)
    requires Rekeys(before, canonical, olds) && i < |olds| && First(canonical, olds, i, key)
    ensures LeastAlias(before, canonical, key, olds[i])
  {
    assert olds[i] in olds;
    forall k | k in before && IsAlias(canonical, k) && ResolvesTo(canonical, k, key)
      ensures k == olds[i] || Less(olds[i], k)
    {
      var j :| 0 <= j < |olds| && olds[j] == k;
      assert i <= j;
    }
  }

  // Where a key belongs: an alias under what it resolves to.
  function Target(canonical: Resolver, key: string): string {
    if key in canonical then canonical[key] else key
  }

  // The loop, for any resolver: `states` are the maps from turn to turn.
  ghost predicate Turns(before: Items, canonical: Resolver, olds: seq<string>, states: seq<Items>) {
    && |states| == |olds| + 1 && states[0] == before
    && forall i :: 0 <= i < |olds| ==> Turn(canonical, olds, states, i)
  }

  ghost predicate Turn(canonical: Resolver, olds: seq<string>, states: seq<Items>, i: nat)
    requires i < |olds| && |states| == |olds| + 1
  {
    IsAlias(canonical, olds[i]) && states[i + 1] == Rekeyed(states[i], olds[i], Target(canonical, olds[i]))
  }

  // What `migrate` makes of `before`.
  ghost predicate MigratesTo(before: Items, canonical: Resolver, after: Items) {
    exists olds, states :: MigratesBy(before, canonical, olds, states, after)
  }

  ghost predicate MigratesBy(before: Items, canonical: Resolver, olds: seq<string>, states: seq<Items>, after: Items) {
    Rekeys(before, canonical, olds) && Turns(before, canonical, olds, states) && after == states[|olds|]
  }

  lemma {:induction false} TurnsLead(before: Items, canonical: Resolver, olds: seq<string>, states: seq<Items>, n: nat)
    requires n <= |olds| && Rekeys(before, canonical, olds) && Stable(canonical)
    requires Turns(before, canonical, olds, states)
    ensures Underway(before, canonical, olds, n, states[n])
  {
    if n == 0 {
      NoneUnderway(before, canonical, olds);
    } else {
      TurnsLead(before, canonical, olds, states, n - 1);
      NextTurnLeads(before, canonical, olds, states, n - 1, n);
    }
  }

  lemma NoneUnderway(before: Items, canonical: Resolver, olds: seq<string>)
    ensures Underway(before, canonical, olds, 0, before)
  {
  }

  lemma NextTurnLeads(before: Items, canonical: Resolver, olds: seq<string>, states: seq<Items>, n: nat, next: nat)
    requires n < |olds| && next == n + 1 && Rekeys(before, canonical, olds) && Stable(canonical)
    requires Turns(before, canonical, olds, states) && Underway(before, canonical, olds, n, states[n])
    ensures Underway(before, canonical, olds, next, states[next])
  {
    assert Turn(canonical, olds, states, n);
    TurnLeads(before, canonical, olds, n, next, states[n], states[next]);
  }

  lemma TurnLeads(before: Items, canonical: Resolver, olds: seq<string>, n: nat, next: nat, items: Items, after: Items)
    requires n < |olds| && next == n + 1 && Rekeys(before, canonical, olds) && Stable(canonical)
    requires Underway(before, canonical, olds, n, items)
    requires after == Rekeyed(items, olds[n], Target(canonical, olds[n]))
    ensures Underway(before, canonical, olds, next, after)
  {
    TurnKeeps(before, canonical, olds, n, items);
  }

  lemma {:induction false} TurnsKeep(before: Items, canonical: Resolver, olds: seq<string>, states: seq<Items>, n: nat)
    requires n <= |olds| && Turns(before, canonical, olds, states)
    ensures forall k :: k in before && !IsAlias(canonical, k) ==> k in states[n] && states[n][k] == before[k]
  {
    if n > 0 {
      TurnsKeep(before, canonical, olds, states, n - 1);
      assert Turn(canonical, olds, states, n - 1);
    }
  }

  // With a stable resolver, exactly the canonical entries; with any, the keys that are no
  // alias keep their items.
  lemma MigratesToMigrated(before: Items, canonical: Resolver, after: Items)
    requires MigratesTo(before, canonical, after)
    ensures Stable(canonical) ==> Migrated(before, canonical, after)
    ensures forall k :: k in before && !IsAlias(canonical, k) ==> k in after && after[k] == before[k]
  {
    var olds, states :| MigratesBy(before, canonical, olds, states, after);
    TurnsKeep(before, canonical, olds, states, |olds|);
    if Stable(canonical) {
      TurnsLead(before, canonical, olds, states, |olds|);
      DoneIsMigrated(before, canonical, olds, after);
    }
  }

  ghost predicate NoAliasLeft(canonical: Resolver, after: Items) {
    forall k :: k in after ==> !IsAlias(canonical, k)
  }

  // `migrate` leaves no alias behind, whatever the map, exactly when the resolver is stable.
  lemma NoAliasLeftExactlyWhenStable(canonical: Resolver)
    ensures Stable(canonical) <==>
      forall before, after :: MigratesTo(before, canonical, after) ==> NoAliasLeft(canonical, after)
  {
    if Stable(canonical) {
      forall before, after | MigratesTo(before, canonical, after) ensures NoAliasLeft(canonical, after) {
        MigratesToMigrated(before, canonical, after);
      }
    } else {
      var key :| !StableAt(canonical, key);
      var before, after := UnstableLeavesAlias(canonical, key);
    }
  }

  // Any key whose target is itself an alias, alone in the map, is rekeyed to an alias.
  lemma UnstableLeavesAlias(canonical: Resolver, key: string)
    returns (before: Items, after: Items)
    requires key in canonical && IsAlias(canonical, canonical[key])
    ensures MigratesTo(before, canonical, after) && !NoAliasLeft(canonical, after)
  {
    var target := canonical[key];
    before, after := map[key := ""], map[target := ""];
    assert before - {key} == map[];
    assert Turn(canonical, [key], [before, after], 0);
    assert MigratesBy(before, canonical, [key], [before, after], after);
    assert target in after;
  }

  // The keys of a `BTreeMap`, as it iterates them.
  method SortedKeys(items: Items) returns (keys: seq<string>)
    ensures Ascending(keys) && forall k :: k in keys <==> k in items
  {
    keys := [];
    var rest := items.Keys;
    while rest != {}
      invariant Ascending(keys) && rest <= items.Keys
      invariant forall k :: k in keys <==> k in items && k !in rest
      decreases |rest|
    {
      var k :| k in rest;
      keys := Inserted(keys, k);
      rest := rest - {k};
    }
  }

  function Inserted(keys: seq<string>, k: string): (r: seq<string>)
    requires Ascending(keys) && k !in keys
    ensures Ascending(r) && forall x :: x in r <==> x in keys || x == k
    ensures forall x, i :: 0 <= i < |r| && (forall y :: y in keys || y == k ==> Less(x, y)) ==> Less(x, r[i])
  {
    if keys == [] then [k]
    else
      LessTotal(k, keys[0]);
      if Less(k, keys[0]) then
        assert forall i :: 0 <= i < |keys| ==> Less(k, keys[i]) by {
          forall i | 0 < i < |keys| ensures Less(k, keys[i]) {
            LessTransitive(k, keys[0], keys[i]);
          }
        }
        [k] + keys
      else
        var rest := Inserted(keys[1..], k);
        [keys[0]] + rest
  }

  // The `filter_map` over the keys, each alias with its target.
  method CollectRekeys(keys: seq<string>, canonical: Resolver)
    returns (rekeys: seq<(string, string)>, ghost olds: seq<string>)
    requires Ascending(keys)
    ensures Ascending(olds) && forall k :: k in olds <==> k in keys && IsAlias(canonical, k)
    ensures |rekeys| == |olds|
    ensures forall j :: 0 <= j < |olds| ==>
      IsAlias(canonical, olds[j]) && rekeys[j] == (olds[j], canonical[olds[j]])
  {
    rekeys, olds := [], [];
    for i := 0 to |keys|
      invariant Ascending(olds) && forall k :: k in olds <==> k in keys[..i] && IsAlias(canonical, k)
      invariant |rekeys| == |olds|
      invariant forall j :: 0 <= j < |olds| ==>
        IsAlias(canonical, olds[j]) && rekeys[j] == (olds[j], canonical[olds[j]])
    {
      if IsAlias(canonical, keys[i]) {
        rekeys := rekeys + [(keys[i], canonical[keys[i]])];
        assert forall j :: 0 <= j < |olds| ==> olds[j] in olds;
        olds := olds + [keys[i]];
      }
    }
    assert keys[..|keys|] == keys;
  }

  class Settings {
    var awsCredentialItems: Items

    // Whatever the resolver, the aliases are rekeyed in key order; what that comes to for
    // a stable one, and what it keeps for any, follows.
    method Migrate(canonical: Resolver)
      modifies this
      ensures MigratesTo(old(awsCredentialItems), canonical, awsCredentialItems)
      ensures forall k :: k in old(awsCredentialItems) && !IsAlias(canonical, k) ==>
        k in awsCredentialItems && awsCredentialItems[k] == old(awsCredentialItems)[k]
      ensures Stable(canonical) ==> Migrated(old(awsCredentialItems), canonical, awsCredentialItems)
    {
      ghost var before := awsCredentialItems;
      var keys := SortedKeys(awsCredentialItems);
      var rekeys, olds := CollectRekeys(keys, canonical);
      ghost var states := [before];
      for i := 0 to |rekeys|
        invariant |states| == i + 1 && states[0] == before && states[i] == awsCredentialItems
        invariant forall j :: 0 <= j < i ==> states[j + 1] == Rekeyed(states[j], olds[j], Target(canonical, olds[j]))
      {
        assert rekeys[i] == (olds[i], canonical[olds[i]]);
        Rekey(rekeys[i].0, rekeys[i].1);
        states := states + [awsCredentialItems];
      }
      forall i | 0 <= i < |olds| ensures Turn(canonical, olds, states, i) {
      }
      assert MigratesBy(before, canonical, olds, states, awsCredentialItems);
      MigratesToMigrated(before, canonical, awsCredentialItems);
    }

    // One turn of the loop.
    method Rekey(alias: string, target: string)
      modifies this
      ensures awsCredentialItems == Rekeyed(old(awsCredentialItems), alias, target)
    {
      if alias in awsCredentialItems {
        var item := awsCredentialItems[alias];
        awsCredentialItems := awsCredentialItems - {alias};
        if target !in awsCredentialItems {
          awsCredentialItems := awsCredentialItems[target := item];
        }
      }
    }
  }
}
