/** The account manager: which accounts may be used, in what order, and how calls mark them. */
module Accounts {
  import opened Prelude

  /** Times are milliseconds since the epoch. */
  datatype Rotation = Rotation(
    state: string,
    consecutiveFailures: nat,
    lastErrorCode: Option<string>,
    lastErrorAt: Option<int>,
    lastOkAt: Option<int>,
    cooldownUntil: Option<int>)

  type Auth = string

  datatype Account = Account(
    id: string, provider: string, enabled: bool, priority: int, weight: nat, auth: Auth, rotation: Rotation)

  datatype Bundle = Bundle(enabled: bool, accounts: seq<Account>)

  // ---------------------------------------------------------------- cooldown clocks

  const TWO_63 := 0x8000_0000_0000_0000
  const TWO_64 := 0x1_0000_0000_0000_0000
  /** The range of `DateTime<Utc>`, in milliseconds. */
  const DATE_MIN := -8_334_601_228_800_000
  const DATE_MAX := 8_210_266_876_799_999

  /** `as u64` of a signed timestamp. */
  function AsU64(t: int): nat {
    t % TWO_64
  }

  /** `as i64` of a millisecond count. */
  function AsI64(n: nat): int {
    var w := n % TWO_64;
    if w >= TWO_63 then w - TWO_64 else w
  }

  predicate InCooldown(a: Account, now: nat) {
    a.rotation.cooldownUntil.Some? && AsU64(a.rotation.cooldownUntil.value) > now
  }

  /** When a cooldown that starts now ends; None when no date can express it. */
  function CooldownEnd(now: nat, nanos: nat): Option<int> {
    var until := now + AsI64(nanos / 1_000_000);
    if DATE_MIN <= until <= DATE_MAX then Some(until) else None
  }

  // ---------------------------------------------------------------- marks

  function Healthy(r: Rotation, now: nat): Rotation {
    Rotation("healthy", 0, None, r.lastErrorAt, Some(now), None)
  }

  function Failed(r: Rotation, code: string, nanos: nat, now: nat): Rotation {
    Rotation(
      if nanos == 0 then "degraded" else "cooldown",
      r.consecutiveFailures + 1,
      Some(code),
      Some(now),
      r.lastOkAt,
      CooldownEnd(now, nanos))
  }

  /** A change to one account that leaves its identity and its place in the order alone. */
  datatype Change =
    | Succeed(now: nat)
    | Fail(code: string, nanos: nat, at: nat)
    | Renew(auth: Auth)
    | Enable(enabled: bool)

  function Apply(a: Account, c: Change): Account {
    match c
    case Succeed(now) => a.(rotation := Healthy(a.rotation, now))
    case Fail(code, nanos, at) => a.(rotation := Failed(a.rotation, code, nanos, at))
    case Renew(auth) => a.(auth := auth)
    case Enable(enabled) => a.(enabled := enabled)
  }

  const NEW := Rotation("healthy", 0, None, None, None, None)

  function ApplyAll(a: Account, cs: seq<Change>): Account {
    if cs == [] then a else Apply(ApplyAll(a, cs[..|cs| - 1]), cs[|cs| - 1])
  }

  function FailuresSinceSuccess(cs: seq<Change>): nat {
    if cs == [] || cs[|cs| - 1].Succeed? then 0
    else FailuresSinceSuccess(cs[..|cs| - 1]) + if cs[|cs| - 1].Fail? then 1 else 0
  }

  function LastSuccess(cs: seq<Change>): Option<int> {
    if cs == [] then None
    else if cs[|cs| - 1].Succeed? then Some(cs[|cs| - 1].now)
    else LastSuccess(cs[..|cs| - 1])
  }

  function LastFailure(cs: seq<Change>): (r: Option<Change>)
    ensures r.Some? ==> r.value.Fail?
  {
    if cs == [] then None
    else if cs[|cs| - 1].Fail? then Some(cs[|cs| - 1])
    else LastFailure(cs[..|cs| - 1])
  }

  /**
   After any changes to a new account, its rotation state tells what they were: how often it has
   failed since it last succeeded, when it last did either, and, while it is failing, the code and
   the cooldown of the last failure. Its identity and its place in the order stay.
   */
  lemma {:induction false} RotationTellsHistory(a: Account, cs: seq<Change>)
    requires a.rotation == NEW
    ensures var b, last := ApplyAll(a, cs), LastFailure(cs);
            var r := b.rotation;
            && b.id == a.id && b.provider == a.provider && b.priority == a.priority && b.weight == a.weight
            && r.consecutiveFailures == FailuresSinceSuccess(cs)
            && r.lastOkAt == LastSuccess(cs)
            && r.lastErrorAt == (if last.Some? then Some(last.value.at) else None)
            && if r.consecutiveFailures == 0 then
                 r.state == "healthy" && r.lastErrorCode == None && r.cooldownUntil == None
               else
                 && last.Some? && r.lastErrorCode == Some(last.value.code)
                 && r.cooldownUntil == CooldownEnd(last.value.at, last.value.nanos)
                 && (r.state == "degraded" <==> last.value.nanos == 0)
                 && (r.state == "cooldown" <==> last.value.nanos != 0)
  {
    hide CooldownEnd;
    if cs != [] { RotationTellsHistory(a, cs[..|cs| - 1]); }
  }

  // ---------------------------------------------------------------- lookup

  function All(emails: seq<Bundle>): seq<Account> {
    if emails == [] then [] else emails[0].accounts + All(emails[1..])
  }

  function FindIn(v: seq<Account>, id: string): (r: Option<nat>)
    ensures r.Some? ==> r.value < |v| && v[r.value].id == id && forall j | 0 <= j < r.value :: v[j].id != id
    ensures r.None? ==> forall j | 0 <= j < |v| :: v[j].id != id
  {
    if v == [] then None
    else if v[0].id == id then Some(0)
    else match FindIn(v[1..], id) case None => None case Some(k) => Some(k + 1)
  }

  function AccountOf(emails: seq<Bundle>, id: string): Option<Account> {
    match FindIn(All(emails), id) case None => None case Some(k) => Some(All(emails)[k])
  }

  predicate Distinct(v: seq<Account>) {
    forall i, j | 0 <= i < j < |v| :: v[i].id != v[j].id
  }

  predicate DistinctIds(emails: seq<Bundle>) {
    Distinct(All(emails))
  }

  /** The first account with the given id, changed in place. */
  function ChangeFirst(emails: seq<Bundle>, id: string, c: Change): seq<Bundle> {
    if emails == [] then []
    else
      match FindIn(emails[0].accounts, id)
      case None => [emails[0]] + ChangeFirst(emails[1..], id, c)
      case Some(k) =>
        var v := emails[0].accounts;
        [emails[0].(accounts := v[k := Apply(v[k], c)])] + emails[1..]
  }

  /** In the flat list of all accounts, a change rewrites one position and nothing else. */
  lemma {:induction false} ChangeRewritesOne(emails: seq<Bundle>, id: string, c: Change)
    ensures var v := All(emails);
            All(ChangeFirst(emails, id, c)) ==
            match FindIn(v, id) case None => v case Some(k) => v[k := Apply(v[k], c)]
    ensures |ChangeFirst(emails, id, c)| == |emails|
  {
    hide FindIn, Apply, All;
    if emails == [] {
      assert All([]) == [] by { AllNothing(); }
      NotFound([], id);
    } else {
      var v, rest := emails[0].accounts, All(emails[1..]);
      ChangeRewritesOne(emails[1..], id, c);
      FindInAppend(v, rest, id);
      AllFirst(emails[0], emails[1..]);
      assert [emails[0]] + emails[1..] == emails;
      match FindIn(v, id) {
        case Some(k) =>
          AllFirst(emails[0].(accounts := v[k := Apply(v[k], c)]), emails[1..]);
          UpdateLeft(v, rest, k, Apply(v[k], c));
        case None =>
          AllFirst(emails[0], ChangeFirst(emails[1..], id, c));
          match FindIn(rest, id) {
            case Some(k) => UpdateRight(v, rest, k, Apply(rest[k], c));
            case None =>
          }
      }
    }
  }

  lemma {:induction false} AllNothing()
    ensures All([]) == []
  {}

  lemma {:induction false} AllFirst(b: Bundle, rest: seq<Bundle>)
    ensures All([b] + rest) == b.accounts + All(rest)
  {
    assert ([b] + rest)[1..] == rest;
  }

  lemma {:induction false} UpdateLeft<T>(a: seq<T>, b: seq<T>, k: nat, x: T)
    requires k < |a|
    ensures (a + b)[k := x] == a[k := x] + b && (a + b)[k] == a[k]
  {}

  lemma {:induction false} UpdateRight<T>(a: seq<T>, b: seq<T>, k: nat, x: T)
    requires k < |b|
    ensures (a + b)[|a| + k := x] == a + b[k := x] && (a + b)[|a| + k] == b[k]
  {}

  lemma {:induction false} FindInAppend(a: seq<Account>, b: seq<Account>, id: string)
    ensures FindIn(a + b, id) ==
            match FindIn(a, id)
            case Some(k) => Some(k)
            case None => match FindIn(b, id) case None => None case Some(k) => Some(|a| + k)
  {
    hide FindIn;
    var v := a + b;
    match FindIn(a, id) {
      case Some(k) => FindInIs(v, id, k);
      case None =>
        match FindIn(b, id) {
          case Some(k) => FindInIs(v, id, |a| + k);
          case None => NotFound(v, id);
        }
    }
  }

  lemma {:induction false} FindInIs(v: seq<Account>, id: string, k: nat)
    requires k < |v| && v[k].id == id && forall j | 0 <= j < k :: v[j].id != id
    ensures FindIn(v, id) == Some(k)
  {}

  lemma {:induction false} NotFound(v: seq<Account>, id: string)
    requires forall j | 0 <= j < |v| :: v[j].id != id
    ensures FindIn(v, id).None?
  {}

  /** A change is seen at its own id, and only there. */
  lemma {:induction false} ChangeIsLocal(emails: seq<Bundle>, id: string, c: Change, other: string)
    ensures AccountOf(ChangeFirst(emails, id, c), other) ==
            if other == id && AccountOf(emails, id).Some? then Some(Apply(AccountOf(emails, id).value, c))
            else AccountOf(emails, other)
    ensures DistinctIds(emails) ==> DistinctIds(ChangeFirst(emails, id, c))
  {
    hide All, FindIn;
    ChangeRewritesOne(emails, id, c);
    var v, v' := All(emails), All(ChangeFirst(emails, id, c));
    assert |v'| == |v| && forall j | 0 <= j < |v| :: v'[j].id == v[j].id;
    match FindIn(v, other) {
      case None =>
        NotFound(v', other);
      case Some(k) => FindInIs(v', other, k);
    }
  }

  lemma {:induction false} ChangeStep(emails: seq<Bundle>, b: nat, id: string, c: Change)
    requires b < |emails|
    ensures var v := emails[b].accounts;
            && (FindIn(All(emails[b..]), id).Some? <==>
                FindIn(v, id).Some? || FindIn(All(emails[b + 1..]), id).Some?)
            && match FindIn(v, id)
               case None => ChangeFirst(emails[b..], id, c) == [emails[b]] + ChangeFirst(emails[b + 1..], id, c)
               case Some(k) =>
                 emails[..b] + ChangeFirst(emails[b..], id, c) ==
                 emails[b := emails[b].(accounts := v[k := Apply(v[k], c)])]
  {
    hide FindIn, Apply;
    assert emails[b..][1..] == emails[b + 1..];
    FindInAppend(emails[b].accounts, All(emails[b + 1..]), id);
  }

  lemma {:induction false} ChangeNothing(emails: seq<Bundle>, id: string, c: Change)
    ensures emails[..|emails|] + ChangeFirst(emails[|emails|..], id, c) == emails
    ensures FindIn(All(emails[|emails|..]), id).None?
  {}

  // ---------------------------------------------------------------- the manager

  class AccountManager {
    var emails: seq<Bundle>

    constructor (emails: seq<Bundle>)
      ensures this.emails == emails
    {
      this.emails := emails;
    }

    /** Applies a change to the first account with the given id, scanning bundles in order. */
    method Update(id: string, c: Change) returns (found: bool)
      modifies this
      ensures emails == ChangeFirst(old(emails), id, c)
      ensures found == AccountOf(old(emails), id).Some?
    {
      hide FindIn, ChangeFirst, All, Apply;
      ghost var before := emails;
      assert before[0..] == before && before[..0] + ChangeFirst(before, id, c) == ChangeFirst(before, id, c);
      for b := 0 to |emails|
        invariant emails == before
        invariant ChangeFirst(before, id, c) == before[..b] + ChangeFirst(before[b..], id, c)
        invariant FindIn(All(before), id).Some? == FindIn(All(before[b..]), id).Some?
      {
        ChangeStep(before, b, id, c);
        var v := emails[b].accounts;
        var k := FindIn(v, id);
        if k.Some? {
          emails := emails[b := emails[b].(accounts := v[k.value := Apply(v[k.value], c)])];
          return true;
        }
        Associative(before[..b], [before[b]], ChangeFirst(before[b + 1..], id, c));
        assert before[..b] + [before[b]] == before[..b + 1];
      }
      ChangeNothing(before, id, c);
      return false;
    }

    method MarkSuccess(id: string, now: nat)
      modifies this
      ensures emails == ChangeFirst(old(emails), id, Succeed(now))
    {
      var _ := Update(id, Succeed(now));
    }

    method MarkFailure(id: string, code: string, nanos: nat, now: nat)
      modifies this
      ensures emails == ChangeFirst(old(emails), id, Fail(code, nanos, now))
    {
      var _ := Update(id, Fail(code, nanos, now));
    }

    method UpdateAuth(id: string, auth: Auth) returns (found: bool)
      modifies this
      ensures emails == ChangeFirst(old(emails), id, Renew(auth))
      ensures found == AccountOf(old(emails), id).Some?
    {
      found := Update(id, Renew(auth));
    }

    method SetEnabled(id: string, enabled: bool) returns (found: bool)
      modifies this
      ensures emails == ChangeFirst(old(emails), id, Enable(enabled))
      ensures found == AccountOf(old(emails), id).Some?
    {
      found := Update(id, Enable(enabled));
    }

    method AccountsFor(provider: string, now: nat) returns (v: seq<Account>)
      ensures v == Selected(emails, provider, now)
    {
      v := [];
      for b := 0 to |emails|
        invariant v + Usable(emails[b..], provider, now) == Usable(emails, provider, now)
      {
        assert emails[b..][1..] == emails[b + 1..];
        if emails[b].enabled {
          Associative(v, UsableIn(emails[b].accounts, provider, now), Usable(emails[b + 1..], provider, now));
          v := v + UsableIn(emails[b].accounts, provider, now);
        } else {
          assert [] + Usable(emails[b + 1..], provider, now) == Usable(emails[b + 1..], provider, now);
        }
      }
      assert v + [] == v;
      v := Sort(v);
    }
  }

  // ---------------------------------------------------------------- selection order

  predicate IsUsable(a: Account, provider: string, now: nat) {
    a.provider == provider && a.enabled && !InCooldown(a, now)
  }

  function UsableIn(v: seq<Account>, provider: string, now: nat): (r: seq<Account>)
    ensures forall a <- r :: a in v && IsUsable(a, provider, now)
  {
    if v == [] then []
    else (if IsUsable(v[0], provider, now) then [v[0]] else []) + UsableIn(v[1..], provider, now)
  }

  function Usable(emails: seq<Bundle>, provider: string, now: nat): (r: seq<Account>)
    ensures forall a <- r :: a in All(emails) && IsUsable(a, provider, now)
  {
    if emails == [] then []
    else
      (if emails[0].enabled then UsableIn(emails[0].accounts, provider, now) else []) +
      Usable(emails[1..], provider, now)
  }

  /** Lower priority first; within a priority, higher weight first. */
  predicate Before(a: Account, b: Account) {
    a.priority < b.priority || (a.priority == b.priority && a.weight > b.weight)
  }

  function Insert(a: Account, v: seq<Account>): seq<Account> {
    if v == [] || !Before(v[0], a) then [a] + v else [v[0]] + Insert(a, v[1..])
  }

  /** The library's stable sort. */
  function Sort(v: seq<Account>): seq<Account> {
    if v == [] then [] else Insert(v[0], Sort(v[1..]))
  }

  function Selected(emails: seq<Bundle>, provider: string, now: nat): seq<Account> {
    Sort(Usable(emails, provider, now))
  }

  predicate Ordered(v: seq<Account>) {
    forall i, j | 0 <= i < j < |v| :: !Before(v[j], v[i])
  }

  /** The accounts of one priority and weight, in order. */
  function Tier(v: seq<Account>, priority: int, weight: nat): seq<Account> {
    if v == [] then []
    else (if v[0].priority == priority && v[0].weight == weight then [v[0]] else []) + Tier(v[1..], priority, weight)
  }

  lemma {:induction false} InsertCounts(a: Account, v: seq<Account>)
    ensures multiset(Insert(a, v)) == multiset{a} + multiset(v)
  {
    hide Before;
    if v != [] && Before(v[0], a) {
      InsertCounts(a, v[1..]);
      assert v == [v[0]] + v[1..];
    }
  }

  predicate NoneBefore(v: seq<Account>, x: Account) {
    forall j | 0 <= j < |v| :: !Before(v[j], x)
  }

  lemma {:induction false} InsertNoneBefore(a: Account, v: seq<Account>, x: Account)
    requires NoneBefore(v, x) && !Before(a, x)
    ensures NoneBefore(Insert(a, v), x)
  {
    hide Before;
    if v != [] && Before(v[0], a) {
      assert NoneBefore(v[1..], x);
      InsertNoneBefore(a, v[1..], x);
    }
  }

  lemma {:induction false} OrderedFrom(x: Account, rest: seq<Account>)
    requires Ordered(rest) && NoneBefore(rest, x)
    ensures Ordered([x] + rest)
  {
    hide Before;
  }

  lemma {:induction false} OrderedParts(v: seq<Account>)
    requires Ordered(v) && v != []
    ensures Ordered(v[1..]) && NoneBefore(v[1..], v[0])
  {
    hide Before;
  }

  /** The order is total: what comes before nothing at the head comes before nothing at all. */
  lemma {:induction false} HeadIsLeast(a: Account, v: seq<Account>)
    requires Ordered(v) && v != [] && !Before(v[0], a)
    ensures NoneBefore(v, a)
  {}

  lemma {:induction false} InsertOrders(a: Account, v: seq<Account>)
    requires Ordered(v)
    ensures Ordered(Insert(a, v))
  {
    hide Ordered, NoneBefore;
    if v == [] {
      assert Ordered([a]) by { OrderedOne(a); }
      assert [a] + v == [a];
    } else {
      OrderedParts(v);
      if Before(v[0], a) {
        InsertOrders(a, v[1..]);
        InsertNoneBefore(a, v[1..], v[0]);
        OrderedFrom(v[0], Insert(a, v[1..]));
      } else {
        HeadIsLeast(a, v);
        OrderedFrom(a, v);
      }
    }
  }

  lemma {:induction false} OrderedOne(a: Account)
    ensures Ordered([a])
  {}

  lemma {:induction false} TierFirst(x: Account, rest: seq<Account>, priority: int, weight: nat)
    ensures Tier([x] + rest, priority, weight) ==
            (if x.priority == priority && x.weight == weight then [x] else []) + Tier(rest, priority, weight)
  {
    assert ([x] + rest)[1..] == rest;
  }

  lemma {:induction false} InsertKeepsTiers(a: Account, v: seq<Account>, priority: int, weight: nat)
    ensures Tier(Insert(a, v), priority, weight) ==
            (if a.priority == priority && a.weight == weight then [a] else []) + Tier(v, priority, weight)
  {
    hide Tier;
    if v != [] && Before(v[0], a) {
      InsertKeepsTiers(a, v[1..], priority, weight);
      TierFirst(v[0], Insert(a, v[1..]), priority, weight);
      TierFirst(v[0], v[1..], priority, weight);
      assert [v[0]] + v[1..] == v;
      assert [] + Tier(v[1..], priority, weight) == Tier(v[1..], priority, weight);
    } else {
      TierFirst(a, v, priority, weight);
    }
  }

  /** Selection sorts by the order, keeps exactly the usable accounts, and keeps ties as configured. */
  lemma {:induction false} SortIsStable(v: seq<Account>)
    ensures Ordered(Sort(v)) && multiset(Sort(v)) == multiset(v)
    ensures forall priority: int, weight: nat :: Tier(Sort(v), priority, weight) == Tier(v, priority, weight)
  {
    hide Insert, Tier, Ordered;
    if v == [] {
      assert Ordered([]) by { NothingOrdered(); }
    } else {
      SortIsStable(v[1..]);
      InsertOrders(v[0], Sort(v[1..]));
      InsertCounts(v[0], Sort(v[1..]));
      assert v == [v[0]] + v[1..];
      forall priority: int, weight: nat
        ensures Tier(Sort(v), priority, weight) == Tier(v, priority, weight)
      {
        InsertKeepsTiers(v[0], Sort(v[1..]), priority, weight);
        TierFirst(v[0], v[1..], priority, weight);
      }
    }
  }

  lemma {:induction false} NothingOrdered()
    ensures Ordered([])
  {}

  lemma {:induction false} InsertDistinct(a: Account, v: seq<Account>)
    requires Distinct(v) && forall x <- v :: x.id != a.id
    ensures Distinct(Insert(a, v))
    ensures forall x <- Insert(a, v) :: x == a || x in v
  {
    if v != [] && Before(v[0], a) {
      InsertDistinct(a, v[1..]);
      var r, rest := Insert(a, v), Insert(a, v[1..]);
      assert r[1..] == rest;
      forall j | 0 < j < |r| ensures r[0].id != r[j].id { assert r[j] in rest; }
      assert forall i, j | 0 < i < j < |r| :: r[i] == rest[i - 1] && r[j] == rest[j - 1];
    }
  }

  lemma {:induction false} SortDistinct(v: seq<Account>)
    requires Distinct(v)
    ensures Distinct(Sort(v)) && forall x <- Sort(v) :: x in v
  {
    if v != [] {
      SortDistinct(v[1..]);
      forall x <- Sort(v[1..]) ensures x.id != v[0].id { assert x in v[1..]; }
      InsertDistinct(v[0], Sort(v[1..]));
    }
  }

  lemma {:induction false} UsableInDistinct(v: seq<Account>, provider: string, now: nat)
    requires Distinct(v)
    ensures Distinct(UsableIn(v, provider, now))
  {
    if v != [] {
      UsableInDistinct(v[1..], provider, now);
      forall x <- UsableIn(v[1..], provider, now) ensures x.id != v[0].id { assert x in v[1..]; }
    }
  }

  lemma {:induction false} UsableDistinct(emails: seq<Bundle>, provider: string, now: nat)
    requires DistinctIds(emails)
    ensures Distinct(Usable(emails, provider, now))
  {
    if emails != [] {
      var v, rest := emails[0].accounts, All(emails[1..]);
      assert All(emails) == v + rest;
      SplitDistinct(v, rest);
      UsableDistinct(emails[1..], provider, now);
      UsableInDistinct(v, provider, now);
      JoinDistinct(UsableIn(v, provider, now), Usable(emails[1..], provider, now), v, rest);
    }
  }

  lemma {:induction false} SplitDistinct(a: seq<Account>, b: seq<Account>)
    requires Distinct(a + b)
    ensures Distinct(a) && Distinct(b)
    ensures forall x <- a, y <- b :: x.id != y.id
  {
    var v := a + b;
    assert forall i | 0 <= i < |a| :: v[i] == a[i];
    assert forall i | 0 <= i < |b| :: v[|a| + i] == b[i];
  }

  lemma {:induction false} JoinDistinct(a: seq<Account>, b: seq<Account>, from: seq<Account>, others: seq<Account>)
    requires Distinct(a) && Distinct(b)
    requires forall x <- a :: x in from
    requires forall y <- b :: y in others
    requires forall x <- from, y <- others :: x.id != y.id
    ensures Distinct(a + b)
  {}

  lemma {:induction false} SelectedDistinct(emails: seq<Bundle>, provider: string, now: nat)
    requires DistinctIds(emails)
    ensures Distinct(Selected(emails, provider, now))
  {
    UsableDistinct(emails, provider, now);
    SortDistinct(Usable(emails, provider, now));
  }

  /** Listed in a bundle that is switched on. */
  predicate Offered(emails: seq<Bundle>, a: Account) {
    exists i :: 0 <= i < |emails| && emails[i].enabled && a in emails[i].accounts
  }

  lemma {:induction false} UsableInExactly(v: seq<Account>, provider: string, now: nat, a: Account)
    ensures a in UsableIn(v, provider, now) <==> a in v && IsUsable(a, provider, now)
  {
    hide IsUsable;
    if v != [] {
      UsableInExactly(v[1..], provider, now, a);
      assert v == [v[0]] + v[1..];
    }
  }

  lemma {:induction false} UsableExactly(emails: seq<Bundle>, provider: string, now: nat, a: Account)
    ensures a in Usable(emails, provider, now) <==> Offered(emails, a) && IsUsable(a, provider, now)
  {
    hide IsUsable, UsableIn;
    if emails != [] {
      var rest := emails[1..];
      UsableExactly(rest, provider, now, a);
      UsableInExactly(emails[0].accounts, provider, now, a);
      assert Offered(emails, a) <==> (emails[0].enabled && a in emails[0].accounts) || Offered(rest, a) by {
        OfferedFirst(emails, a);
      }
    }
  }

  lemma {:induction false} OfferedFirst(emails: seq<Bundle>, a: Account)
    requires emails != []
    ensures Offered(emails, a) <==> (emails[0].enabled && a in emails[0].accounts) || Offered(emails[1..], a)
  {
    var rest := emails[1..];
    if Offered(emails, a) {
      var i :| 0 <= i < |emails| && emails[i].enabled && a in emails[i].accounts;
      if i > 0 { assert rest[i - 1] == emails[i]; }
    }
    if Offered(rest, a) {
      var i :| 0 <= i < |rest| && rest[i].enabled && a in rest[i].accounts;
      assert emails[i + 1] == rest[i];
    }
  }

  /** Selected are exactly the accounts of enabled bundles that are of the provider, enabled and not cooling down. */
  lemma {:induction false} SelectedAreUsable(emails: seq<Bundle>, provider: string, now: nat, a: Account)
    ensures a in Selected(emails, provider, now) <==> Offered(emails, a) && IsUsable(a, provider, now)
    ensures a in Selected(emails, provider, now) ==> a in All(emails)
  {
    hide IsUsable, Offered, All;
    var v := Usable(emails, provider, now);
    SortIsStable(v);
    assert a in v <==> a in multiset(Sort(v));
    UsableExactly(emails, provider, now, a);
  }

  /**
   A failed account is passed over exactly until its cooldown ends. A cooldown shorter than a
   millisecond, or one whose end no date can express, parks nothing.
   */
  lemma {:induction false} CooldownParks(a: Account, code: string, nanos: nat, now: nat, later: nat)
    requires now <= DATE_MAX && later <= DATE_MAX && a.enabled
    ensures var end := CooldownEnd(now, nanos);
            !IsUsable(Apply(a, Fail(code, nanos, now)), a.provider, later) <==>
            end.Some? && (end.value < 0 || later < end.value)
    ensures nanos / 1_000_000 <= DATE_MAX - now ==> CooldownEnd(now, nanos) == Some(now + nanos / 1_000_000)
  {
    var e := CooldownEnd(now, nanos);
    if e.Some? && e.value < 0 {
      assert AsU64(e.value) == e.value + TWO_64;
    }
  }
}
