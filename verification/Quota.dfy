/**
 Per-key, per-provider usage quotas over hourly windows, and the background sweep that
 shares their cells. Times are exact reals; stored window ends are whole seconds.
 */
module Quota {
  import opened Prelude

  const WINDOW: real := 3600.0

  datatype CellId = CellId(key: string, provider: string)

  /** The three cells of each quota that exist; a missing cell reads as 0. */
  datatype Db = Db(usage: map<CellId, int>, limit: map<CellId, int>, resetAt: map<CellId, int>)

  function GetInt(m: map<CellId, int>, id: CellId): int {
    if id in m then m[id] else 0
  }

  /** `int()` of a time; callers only look at those that are not negative. */
  function Whole(t: real): int {
    t.Floor
  }

  // ---------------------------------------------------------------- specification

  datatype Rolled = Rolled(db: Db, usage: int, limit: int, resetAt: real)

  predicate Expired(db: Db, id: CellId, now: real) {
    GetInt(db.resetAt, id) as real <= now
  }

  /** Opens a window: usage 0, ending an hour from now. */
  function Open(db: Db, id: CellId, now: real): Db {
    db.(usage := db.usage[id := 0], resetAt := db.resetAt[id := Whole(now + WINDOW)])
  }

  function Roll(db: Db, id: CellId, now: real): Rolled {
    var limit := GetInt(db.limit, id);
    if Expired(db, id, now) then Rolled(Open(db, id, now), 0, limit, now + WINDOW)
    else Rolled(db, GetInt(db.usage, id), limit, GetInt(db.resetAt, id) as real)
  }

  function Effective(limit: int, defaultLimit: int): int {
    if limit != 0 then limit else defaultLimit
  }

  function Refuses(usage: int, effective: int, cost: int): bool {
    effective != 0 && usage + cost > effective
  }

  /** What a caller is told; `remaining` is None when there is no limit. */
  datatype Report = Report(provider: string, usage: int, limit: int, remaining: Option<int>, resetInS: int)

  function AtLeastZero(n: int): nat {
    if n < 0 then 0 else n
  }

  function ResetIn(r: Rolled, now: real): nat {
    AtLeastZero(Whole(r.resetAt - now))
  }

  datatype Consumed = Consumed(db: Db, allowed: bool, report: Report)

  function TryConsume(db: Db, id: CellId, defaultLimit: int, cost: int, now: real): Consumed {
    var r := Roll(db, id, now);
    var limit := Effective(r.limit, defaultLimit);
    if Refuses(r.usage, limit, cost) then
      Consumed(r.db, false, Report(id.provider, r.usage, limit, Some(AtLeastZero(limit - r.usage)), ResetIn(r, now)))
    else
      var usage := r.usage + cost;
      Consumed(
        r.db.(usage := r.db.usage[id := usage]),
        true,
        Report(id.provider, usage, limit, if limit != 0 then Some(limit - usage) else None, ResetIn(r, now)))
  }

  function SweepIds(db: Db, ids: seq<CellId>, now: real): Db
    decreases |ids|
  {
    if ids == [] then db
    else SweepIds(if Expired(db, ids[0], now) then Open(db, ids[0], now) else db, ids[1..], now)
  }

  // ---------------------------------------------------------------- the store

  class QuotaStore {
    var db: Db

    constructor ()
      ensures db == Db(map[], map[], map[])
    {
      db := Db(map[], map[], map[]);
    }

    method RollWindow(id: CellId, now: real) returns (usage: int, limit: int, resetAt: real)
      modifies this
      ensures Rolled(db, usage, limit, resetAt) == Roll(old(db), id, now)
    {
      resetAt := GetInt(db.resetAt, id) as real;
      limit := GetInt(db.limit, id);
      if resetAt <= now {
        resetAt := now + WINDOW;
        db := db.(usage := db.usage[id := 0]);
        db := db.(resetAt := db.resetAt[id := Whole(resetAt)]);
        usage := 0;
      } else {
        usage := GetInt(db.usage, id);
      }
    }

    method SetLimit(id: CellId, limit: int)
      modifies this
      ensures db == old(db).(limit := old(db).limit[id := limit])
    {
      db := db.(limit := db.limit[id := limit]);
    }

    method Status(id: CellId, now: real) returns (report: Report, unlimited: bool)
      modifies this
      ensures var r := Roll(old(db), id, now);
              && db == r.db
              && unlimited == (r.limit == 0)
              && report == Report(
                   id.provider, r.usage, r.limit, if unlimited then None else Some(r.limit - r.usage), ResetIn(r, now))
    {
      var usage, limit, resetAt := RollWindow(id, now);
      report := Report(
        id.provider, usage, limit,
        if limit != 0 then Some(limit - usage) else None,
        AtLeastZero(Whole(resetAt - now)));
      unlimited := limit == 0;
    }

    method Consume(id: CellId, defaultLimit: int, cost: int, now: real) returns (allowed: bool, report: Report)
      modifies this
      ensures Consumed(db, allowed, report) == TryConsume(old(db), id, defaultLimit, cost, now)
    {
      var usage, limit, resetAt := RollWindow(id, now);
      var effective := if limit != 0 then limit else defaultLimit;
      if effective != 0 && usage + cost > effective {
        return false, Report(
          id.provider, usage, effective, Some(AtLeastZero(effective - usage)), AtLeastZero(Whole(resetAt - now)));
      }
      var newUsage := usage + cost;
      db := db.(usage := db.usage[id := newUsage]);
      return true, Report(
        id.provider, newUsage, effective,
        if effective != 0 then Some(effective - newUsage) else None,
        AtLeastZero(Whole(resetAt - now)));
    }

    /** `ids`: the quota cells found by the scan, in the order it meets them. */
    method QuotaSweep(ids: seq<CellId>, now: real) returns (rolled: nat)
      requires forall id <- ids :: id in db.resetAt
      modifies this
      ensures db == SweepIds(old(db), ids, now)
    {
      rolled := 0;
      for i := 0 to |ids|
        invariant SweepIds(old(db), ids, now) == SweepIds(db, ids[i..], now)
        invariant forall id <- ids :: id in db.resetAt
      {
        var id := ids[i];
        assert ids[i..][1..] == ids[i + 1..];
        if db.resetAt[id] as real <= now {
          db := db.(usage := db.usage[id := 0], resetAt := db.resetAt[id := Whole(now + 3600.0)]);
          rolled := rolled + 1;
        }
      }
    }
  }

  // ---------------------------------------------------------------- histories

  /** Everything that touches the cells, other than an administrator setting a limit. */
  datatype Op =
    | Consume(id: CellId, defaultLimit: int, cost: int, now: real)
    | Status(id: CellId, now: real)
    | Sweep(ids: seq<CellId>, now: real)

  function Apply(db: Db, op: Op): Db {
    match op
    case Consume(id, defaultLimit, cost, now) => TryConsume(db, id, defaultLimit, cost, now).db
    case Status(id, now) => Roll(db, id, now).db
    case Sweep(ids, now) => SweepIds(db, ids, now)
  }

  function StateAt(db: Db, ops: seq<Op>, n: nat): Db
    requires n <= |ops|
  {
    if n == 0 then db else Apply(StateAt(db, ops, n - 1), ops[n - 1])
  }

  /** What operation `n` grants to `id`. */
  function Granted(db: Db, ops: seq<Op>, n: nat, id: CellId): int
    requires n < |ops|
  {
    match ops[n]
    case Consume(x, defaultLimit, cost, now) =>
      if x == id && TryConsume(StateAt(db, ops, n), x, defaultLimit, cost, now).allowed then cost else 0
    case _ => 0
  }

  predicate Touches(op: Op, id: CellId) {
    match op case Consume(x, _, _, _) => x == id case Status(x, _) => x == id case Sweep(ids, _) => id in ids
  }

  /** Operation `n` opens a new window for `id`. */
  predicate Opens(db: Db, ops: seq<Op>, n: nat, id: CellId)
    requires n < |ops|
  {
    Touches(ops[n], id) && Expired(StateAt(db, ops, n), id, ops[n].now)
  }

  /** What was granted to `id` by the operations from `i` up to `j`. */
  function Total(db: Db, ops: seq<Op>, i: nat, j: nat, id: CellId): int
    requires i <= j <= |ops|
  {
    if i == j then 0 else Total(db, ops, i, j - 1, id) + Granted(db, ops, j - 1, id)
  }

  /** What was granted to `id` since its current window opened. */
  function SinceOpen(db: Db, ops: seq<Op>, n: nat, id: CellId): int
    requires n <= |ops|
  {
    if n == 0 then 0
    else (if Opens(db, ops, n - 1, id) then 0 else SinceOpen(db, ops, n - 1, id)) + Granted(db, ops, n - 1, id)
  }

  /**
   A history over a store that has no cells for `id` but perhaps its limit, with a clock that
   never goes back, costs that are not negative, and the same effective limit throughout.
   */
  ghost predicate Steady(db: Db, ops: seq<Op>, id: CellId, limit: int) {
    && limit > 0
    && id !in db.usage && id !in db.resetAt
    && (forall n | 0 <= n < |ops| :: ops[n].now >= 0.0)
    && (forall m, n | 0 <= m < n < |ops| :: ops[m].now <= ops[n].now)
    && (forall n | 0 <= n < |ops| :: ops[n].Consume? && ops[n].id == id ==>
          ops[n].cost >= 0 && Effective(GetInt(db.limit, id), ops[n].defaultLimit) == limit)
  }

  lemma {:induction false} SweepEffect(db: Db, ids: seq<CellId>, now: real, id: CellId)
    requires now >= 0.0
    ensures var r := SweepIds(db, ids, now);
            && r.limit == db.limit
            && (id in ids && Expired(db, id, now) ==>
                  GetInt(r.usage, id) == 0 && GetInt(r.resetAt, id) == Whole(now + WINDOW))
            && (!(id in ids && Expired(db, id, now)) ==>
                  GetInt(r.usage, id) == GetInt(db.usage, id) && GetInt(r.resetAt, id) == GetInt(db.resetAt, id))
    decreases |ids|
  {
    if ids != [] {
      var next := if Expired(db, ids[0], now) then Open(db, ids[0], now) else db;
      SweepEffect(next, ids[1..], now, id);
      assert id in ids <==> id == ids[0] || id in ids[1..];
    }
  }

  /** The operation leaves the limits, opens the quota's window if it has expired, and adds what it grants. */
  predicate Applies(db: Db, op: Op, id: CellId, granted: int) {
    var after := Apply(db, op);
    var opens := Touches(op, id) && Expired(db, id, op.now);
    && after.limit == db.limit
    && GetInt(after.resetAt, id) == (if opens then Whole(op.now + WINDOW) else GetInt(db.resetAt, id))
    && GetInt(after.usage, id) == (if opens then 0 else GetInt(db.usage, id)) + granted
  }

  /** One operation, seen from one quota: its limit, its window's end, and its usage. */
  lemma {:induction false} ApplyEffect(db: Db, ops: seq<Op>, n: nat, id: CellId)
    requires n < |ops| && ops[n].now >= 0.0
    ensures var before, after := StateAt(db, ops, n), StateAt(db, ops, n + 1);
            var base := if Opens(db, ops, n, id) then 0 else GetInt(before.usage, id);
            && after.limit == before.limit
            && GetInt(after.resetAt, id) ==
               (if Opens(db, ops, n, id) then Whole(ops[n].now + WINDOW) else GetInt(before.resetAt, id))
            && GetInt(after.usage, id) == base + Granted(db, ops, n, id)
  {
    hide Apply, TryConsume;
    var before := StateAt(db, ops, n);
    match ops[n] {
      case Sweep(ids, now) => SweepApplies(before, ids, now, id);
      case Status(x, now) => StatusApplies(before, x, now, id);
      case Consume(x, defaultLimit, cost, now) => ConsumeApplies(before, x, defaultLimit, cost, now, id);
    }
  }

  lemma {:induction false} SweepApplies(db: Db, ids: seq<CellId>, now: real, id: CellId)
    requires now >= 0.0
    ensures Applies(db, Sweep(ids, now), id, 0)
  {
    SweepEffect(db, ids, now, id);
  }

  lemma {:induction false} StatusApplies(db: Db, x: CellId, now: real, id: CellId)
    ensures Applies(db, Status(x, now), id, 0)
  {}

  lemma {:induction false} ConsumeApplies(db: Db, x: CellId, defaultLimit: int, cost: int, now: real, id: CellId)
    ensures var granted := if x == id && TryConsume(db, x, defaultLimit, cost, now).allowed then cost else 0;
            Applies(db, Consume(x, defaultLimit, cost, now), id, granted)
  {
    hide ResetIn, Whole;
  }

  lemma {:induction false} LimitIsFixed(db: Db, ops: seq<Op>, n: nat, id: CellId)
    requires n <= |ops| && forall k | 0 <= k < |ops| :: ops[k].now >= 0.0
    ensures StateAt(db, ops, n).limit == db.limit
  {
    if n > 0 {
      LimitIsFixed(db, ops, n - 1, id);
      ApplyEffect(db, ops, n - 1, id);
    }
  }

  lemma {:induction false} GrantFits(db: Db, ops: seq<Op>, n: nat, id: CellId, limit: int)
    requires n < |ops| && Steady(db, ops, id, limit)
    ensures var base := if Opens(db, ops, n, id) then 0 else GetInt(StateAt(db, ops, n).usage, id);
            0 <= Granted(db, ops, n, id) && (Granted(db, ops, n, id) > 0 ==> base + Granted(db, ops, n, id) <= limit)
  {
    LimitIsFixed(db, ops, n, id);
  }

  /** The stored usage is what the current window granted, and never exceeds the limit. */
  lemma {:induction false} UsageIsWindowTotal(db: Db, ops: seq<Op>, n: nat, id: CellId, limit: int)
    requires n <= |ops| && Steady(db, ops, id, limit)
    ensures GetInt(StateAt(db, ops, n).usage, id) == SinceOpen(db, ops, n, id)
    ensures 0 <= SinceOpen(db, ops, n, id) <= limit
  {
    hide Granted, Opens, StateAt, GetInt, Steady;
    if n > 0 {
      UsageIsWindowTotal(db, ops, n - 1, id, limit);
      SteadyTime(db, ops, n - 1, id, limit);
      ApplyEffect(db, ops, n - 1, id);
      GrantFits(db, ops, n - 1, id, limit);
    } else {
      StartsUnused(db, ops, id, limit);
    }
  }

  lemma {:induction false} SteadyTime(db: Db, ops: seq<Op>, n: nat, id: CellId, limit: int)
    requires n < |ops| && Steady(db, ops, id, limit)
    ensures ops[n].now >= 0.0
  {}

  lemma {:induction false} StartsUnused(db: Db, ops: seq<Op>, id: CellId, limit: int)
    requires Steady(db, ops, id, limit)
    ensures GetInt(StateAt(db, ops, 0).usage, id) == 0 && limit > 0
  {}

  /**
   In every history, what a caller is told of a limited quota adds up: usage and remainder make the
   limit, neither is negative, and the window ends within the hour.
   */
  lemma {:induction false} ReportAddsUp(
    db: Db, ops: seq<Op>, id: CellId, defaultLimit: int, cost: int, now: real, limit: int)
    requires Steady(db, ops + [Consume(id, defaultLimit, cost, now)], id, limit)
    ensures var report := TryConsume(StateAt(db, ops, |ops|), id, defaultLimit, cost, now).report;
            && report.limit == limit && 0 <= report.usage <= limit
            && report.remaining == Some(limit - report.usage)
            && 0 <= report.resetInS <= 3600
  {
    hide StateAt, Opens, Granted, SinceOpen;
    var all, n := ops + [Consume(id, defaultLimit, cost, now)], |ops|;
    assert all[n] == Consume(id, defaultLimit, cost, now) && all[..n] == ops;
    StateOfPrefix(db, ops, all, n);
    UsageIsWindowTotal(db, all, n, id, limit);
    LimitIsFixed(db, all, n, id);
    EndIsNear(db, all, n, id, now);
  }

  lemma {:induction false} StateOfPrefix(db: Db, ops: seq<Op>, all: seq<Op>, n: nat)
    requires n <= |ops| <= |all| && ops == all[..|ops|]
    ensures StateAt(db, ops, n) == StateAt(db, all, n)
  {
    hide Apply;
    if n > 0 { StateOfPrefix(db, ops, all, n - 1); }
  }

  /** No stored window end lies more than an hour ahead. */
  lemma {:induction false} EndIsNear(db: Db, ops: seq<Op>, n: nat, id: CellId, now: real)
    requires n <= |ops| && id !in db.resetAt && now >= 0.0
    requires forall k | 0 <= k < n :: 0.0 <= ops[k].now <= now
    ensures GetInt(StateAt(db, ops, n).resetAt, id) as real <= now + WINDOW
  {
    hide StateAt, Opens, Granted;
    if n > 0 {
      EndIsNear(db, ops, n - 1, id, now);
      ApplyEffect(db, ops, n - 1, id);
    } else {
      assert StateAt(db, ops, 0) == db by { NoStep(db, ops); }
    }
  }

  lemma {:induction false} NoStep(db: Db, ops: seq<Op>)
    ensures StateAt(db, ops, 0) == db
  {}

  // ---------------------------------------------------------------- bounds over time

  /** While no window opens, the end of the last one stands. */
  lemma {:induction false} WindowStands(db: Db, ops: seq<Op>, k: nat, n: nat, id: CellId)
    requires k < n <= |ops| && forall m | 0 <= m < |ops| :: ops[m].now >= 0.0
    requires Opens(db, ops, k, id) && forall m | k < m < n :: !Opens(db, ops, m, id)
    ensures GetInt(StateAt(db, ops, n).resetAt, id) == Whole(ops[k].now + WINDOW)
    decreases n
  {
    hide Opens, StateAt, Granted;
    ApplyEffect(db, ops, n - 1, id);
    if n - 1 > k { WindowStands(db, ops, k, n - 1, id); }
  }

  lemma {:induction false} WholeIsMonotone(a: real, b: real)
    requires a <= b
    ensures Whole(a) <= Whole(b)
  {}

  /** A window opens no earlier than the one before it ends, more than 3599 seconds after that one opened. */
  lemma {:induction false} WindowsAreFarApart(db: Db, ops: seq<Op>, k: nat, n: nat, id: CellId, limit: int)
    requires k < n < |ops| && Steady(db, ops, id, limit)
    requires Opens(db, ops, k, id) && Opens(db, ops, n, id)
    ensures Whole(ops[k].now + WINDOW) as real <= ops[n].now
    ensures ops[n].now - ops[k].now > 3599.0
    decreases n - k
  {
    if m :| k < m < n && Opens(db, ops, m, id) {
      WindowsAreFarApart(db, ops, k, m, id, limit);
      WindowsAreFarApart(db, ops, m, n, id, limit);
      WholeIsMonotone(ops[k].now + WINDOW, ops[m].now + WINDOW);
    } else {
      WindowStands(db, ops, k, n, id);
    }
  }

  lemma {:induction false} TotalSplits(db: Db, ops: seq<Op>, i: nat, k: nat, j: nat, id: CellId)
    requires i <= k <= j <= |ops|
    ensures Total(db, ops, i, j, id) == Total(db, ops, i, k, id) + Total(db, ops, k, j, id)
  {
    if k < j { TotalSplits(db, ops, i, k, j - 1, id); }
  }

  lemma {:induction false} TotalWithinWindow(db: Db, ops: seq<Op>, i: nat, j: nat, id: CellId)
    requires i <= j <= |ops| && forall m | i <= m < j :: !Opens(db, ops, m, id)
    ensures Total(db, ops, i, j, id) == SinceOpen(db, ops, j, id) - SinceOpen(db, ops, i, id)
  {
    if i < j { TotalWithinWindow(db, ops, i, j - 1, id); }
  }

  /** A stretch in which only its first operation opens a window grants what its last state counts. */
  lemma {:induction false} FromOpening(db: Db, ops: seq<Op>, k: nat, j: nat, id: CellId)
    requires k < j <= |ops| && Opens(db, ops, k, id) && forall m | k < m < j :: !Opens(db, ops, m, id)
    ensures Total(db, ops, k, j, id) == SinceOpen(db, ops, j, id)
  {
    hide Opens, Granted, StateAt;
    TotalSplits(db, ops, k, k + 1, j, id);
    TotalWithinWindow(db, ops, k + 1, j, id);
    assert Total(db, ops, k, k + 1, id) == Granted(db, ops, k, id) == SinceOpen(db, ops, k + 1, id);
  }

  /** Any stretch of at most 3599 seconds grants a quota at most twice its limit. */
  lemma {:induction false} TwiceTheLimitAtMost(db: Db, ops: seq<Op>, i: nat, j: nat, id: CellId, limit: int)
    requires i < j <= |ops| && Steady(db, ops, id, limit)
    requires ops[j - 1].now - ops[i].now <= 3599.0
    ensures Total(db, ops, i, j, id) <= 2 * limit
  {
    hide Opens, Granted, StateAt;
    UsageIsWindowTotal(db, ops, i, id, limit);
    UsageIsWindowTotal(db, ops, j, id, limit);
    if k :| i <= k < j && Opens(db, ops, k, id) {
      forall m | i <= m < j && m != k
        ensures !Opens(db, ops, m, id)
      {
        if Opens(db, ops, m, id) {
          if m < k {
            WindowsAreFarApart(db, ops, m, k, id, limit);
          } else {
            WindowsAreFarApart(db, ops, k, m, id, limit);
          }
        }
      }
      UsageIsWindowTotal(db, ops, k, id, limit);
      TotalSplits(db, ops, i, k, j, id);
      TotalWithinWindow(db, ops, i, k, id);
      FromOpening(db, ops, k, j, id);
    } else {
      TotalWithinWindow(db, ops, i, j, id);
    }
  }

  /** Twice the limit is reached within half a second, around the end of a window. */
  lemma {:induction false} TwiceTheLimitIsReached(id: CellId, limit: int) returns (ops: seq<Op>)
    requires limit > 0
    ensures |ops| == 3 && Steady(Db(map[], map[], map[]), ops, id, limit)
    ensures ops[2].now - ops[1].now == 0.5
    ensures Total(Db(map[], map[], map[]), ops, 1, 3, id) == 2 * limit
  {
    var db := Db(map[], map[], map[]);
    ops := [Status(id, 0.0), Consume(id, limit, limit, 3599.5), Consume(id, limit, limit, 3600.0)];
    assert Whole(0.0 + WINDOW) == 3600;
    var s1 := StateAt(db, ops, 1);
    assert StateAt(db, ops, 0) == db && s1 == Roll(db, id, 0.0).db == Open(db, id, 0.0);
    assert GetInt(s1.resetAt, id) == 3600 && GetInt(s1.usage, id) == 0 && GetInt(s1.limit, id) == 0;
    var s2 := StateAt(db, ops, 2);
    assert GetInt(s2.resetAt, id) == 3600;
    assert Granted(db, ops, 1, id) == limit && Granted(db, ops, 2, id) == limit;
    assert Total(db, ops, 1, 2, id) == limit;
  }

  // ---------------------------------------------------------------- when the limit holds

  /** `more` continues a history between two times, under the same conditions. */
  ghost predicate Continues(
    db: Db, ops: seq<Op>, more: seq<Op>, id: CellId, limit: int, from: real, until: real) {
    && Steady(db, ops + more, id, limit)
    && forall n | 0 <= n < |more| :: from <= more[n].now <= until
  }

  /** What a continuation grants. */
  function GrantedBy(db: Db, ops: seq<Op>, more: seq<Op>, id: CellId): int {
    Total(db, ops + more, |ops|, |ops + more|, id)
  }

  /**
   The window that stands outlasts the stretch; or it has ended, and the one that may be opened at
   the start of the stretch outlasts it; or it ends within the stretch, but is used up, and the
   next one outlasts the stretch.
   */
  predicate OneLimit(s: Db, id: CellId, limit: int, from: real, until: real) {
    var end := GetInt(s.resetAt, id) as real;
    if end > until then true
    else if end <= from then Whole(from + WINDOW) as real > until
    else GetInt(s.usage, id) == limit && end + WINDOW > until
  }

  /** The earliest time at which a window can open, from `from` on. */
  function NextOpening(s: Db, id: CellId, from: real): real {
    var end := GetInt(s.resetAt, id) as real;
    if end <= from then from else end
  }

  lemma {:induction false} EndsNeverFall(db: Db, ops: seq<Op>, i: nat, n: nat, id: CellId)
    requires i <= n <= |ops| && forall m | 0 <= m < |ops| :: ops[m].now >= 0.0
    ensures GetInt(StateAt(db, ops, i).resetAt, id) <= GetInt(StateAt(db, ops, n).resetAt, id)
    decreases n
  {
    hide StateAt, Granted;
    if i < n {
      EndsNeverFall(db, ops, i, n - 1, id);
      ApplyEffect(db, ops, n - 1, id);
    }
  }

  lemma {:induction false} OpensAfterEnd(db: Db, ops: seq<Op>, i: nat, k: nat, id: CellId, from: real)
    requires i <= k < |ops| && (forall m | 0 <= m < |ops| :: ops[m].now >= 0.0) && from <= ops[k].now
    requires Opens(db, ops, k, id)
    ensures NextOpening(StateAt(db, ops, i), id, from) <= ops[k].now
  {
    hide StateAt, Granted;
    EndsNeverFall(db, ops, i, k, id);
  }

  /** Once its window has ended, a quota is granted nothing before the next one opens. */
  lemma {:induction false} NothingBeforeOpening(db: Db, ops: seq<Op>, i: nat, k: nat, id: CellId)
    requires i <= k <= |ops| && forall m | 0 <= m < |ops| :: ops[m].now >= 0.0
    requires forall m | i <= m < k ::
               GetInt(StateAt(db, ops, i).resetAt, id) as real <= ops[m].now && !Opens(db, ops, m, id)
    ensures GetInt(StateAt(db, ops, k).resetAt, id) == GetInt(StateAt(db, ops, i).resetAt, id)
    ensures Total(db, ops, i, k, id) == 0
    decreases k
  {
    hide StateAt, TryConsume;
    if i < k {
      NothingBeforeOpening(db, ops, i, k - 1, id);
      ApplyEffect(db, ops, k - 1, id);
    }
  }

  /** No window opens in the stretch, or the first that can outlasts it. */
  lemma {:induction false} OneLimitMeans(s: Db, id: CellId, limit: int, from: real, until: real)
    requires OneLimit(s, id, limit, from, until)
    ensures var opening := NextOpening(s, id, from);
            opening > until || Whole(opening + WINDOW) as real > until
  {
    var end := GetInt(s.resetAt, id);
    assert Whole(end as real + WINDOW) == end + 3600;
  }

  lemma {:induction false} OpensOnce(
    db: Db, ops: seq<Op>, i: nat, k: nat, m: nat, id: CellId, limit: int, from: real, until: real)
    requires i <= k < m < |ops| && Steady(db, ops, id, limit)
    requires from <= ops[k].now && ops[m].now <= until && OneLimit(StateAt(db, ops, i), id, limit, from, until)
    requires Opens(db, ops, k, id)
    ensures !Opens(db, ops, m, id)
  {
    hide StateAt, Opens, OneLimit, NextOpening, Whole;
    if Opens(db, ops, m, id) {
      var opening := NextOpening(StateAt(db, ops, i), id, from);
      OneLimitMeans(StateAt(db, ops, i), id, limit, from, until);
      OpensAfterEnd(db, ops, i, k, id, from);
      WindowsAreFarApart(db, ops, k, m, id, limit);
      WholeIsMonotone(opening + WINDOW, ops[k].now + WINDOW);
    }
  }

  lemma {:induction false} OneLimitIsEnough(
    db: Db, ops: seq<Op>, i: nat, id: CellId, limit: int, from: real, until: real)
    requires i <= |ops| && Steady(db, ops, id, limit)
    requires forall m | i <= m < |ops| :: from <= ops[m].now <= until
    requires OneLimit(StateAt(db, ops, i), id, limit, from, until)
    ensures Total(db, ops, i, |ops|, id) <= limit
  {
    hide StateAt, Opens, Granted;
    var j := |ops|;
    UsageIsWindowTotal(db, ops, i, id, limit);
    UsageIsWindowTotal(db, ops, j, id, limit);
    if k :| i <= k < j && Opens(db, ops, k, id) {
      forall m | i <= m < j && m != k
        ensures !Opens(db, ops, m, id)
      {
        if m < k {
          if Opens(db, ops, m, id) { OpensOnce(db, ops, i, m, k, id, limit, from, until); }
        } else {
          OpensOnce(db, ops, i, k, m, id, limit, from, until);
        }
      }
      OpensAfterEnd(db, ops, i, k, id, from);
      TotalSplits(db, ops, i, k, j, id);
      FromOpening(db, ops, k, j, id);
      if GetInt(StateAt(db, ops, i).resetAt, id) as real <= from {
        NothingBeforeOpening(db, ops, i, k, id);
      } else {
        UsageIsWindowTotal(db, ops, k, id, limit);
        TotalWithinWindow(db, ops, i, k, id);
      }
    } else {
      TotalWithinWindow(db, ops, i, j, id);
    }
  }

  /** Two requests, the second of which finds its window ended, are both granted. */
  lemma {:induction false} BothGranted(
    db: Db, ops: seq<Op>, id: CellId, limit: int, cost: int, first: real, second: real)
    requires Steady(db, ops, id, limit) && Effective(GetInt(db.limit, id), limit) == limit
    requires (forall n | 0 <= n < |ops| :: ops[n].now <= first) && 0.0 <= first <= second
    requires var s := StateAt(db, ops, |ops|);
             && 0 <= cost && (if Expired(s, id, first) then 0 else GetInt(s.usage, id)) + cost <= limit
             && (if Expired(s, id, first) then Whole(first + WINDOW) else GetInt(s.resetAt, id)) as real <= second
    ensures var more := [Consume(id, limit, cost, first), Consume(id, limit, limit, second)];
            Steady(db, ops + more, id, limit) && GrantedBy(db, ops, more, id) == cost + limit
  {
    hide StateAt, TryConsume, Steady;
    var more := [Consume(id, limit, cost, first), Consume(id, limit, limit, second)];
    var all, n := ops + more, |ops|;
    SteadyThen(db, ops, id, limit, cost, first, second);
    StateOfPrefix(db, ops, all, n);
    SteadyLimits(db, all, n, id, limit);
    SteadyLimits(db, all, n + 1, id, limit);
    ApplyEffect(db, all, n, id);
    GrantsWhatFits(StateAt(db, all, n), id, limit, cost, first);
    GrantsWhatFits(StateAt(db, all, n + 1), id, limit, limit, second);
    assert Total(db, all, n, n + 1, id) == Granted(db, all, n, id) == cost;
    assert Total(db, all, n, n + 2, id) == Total(db, all, n, n + 1, id) + Granted(db, all, n + 1, id);
  }

  lemma {:induction false} SteadyThen(
    db: Db, ops: seq<Op>, id: CellId, limit: int, cost: int, first: real, second: real)
    requires Steady(db, ops, id, limit) && Effective(GetInt(db.limit, id), limit) == limit && cost >= 0
    requires (forall n | 0 <= n < |ops| :: ops[n].now <= first) && 0.0 <= first <= second
    ensures Steady(db, ops + [Consume(id, limit, cost, first), Consume(id, limit, limit, second)], id, limit)
  {}

  lemma {:induction false} SteadyLimits(db: Db, ops: seq<Op>, n: nat, id: CellId, limit: int)
    requires n <= |ops| && Steady(db, ops, id, limit)
    ensures StateAt(db, ops, n).limit == db.limit && limit > 0
    ensures forall k | 0 <= k < |ops| :: ops[k].now >= 0.0
  {
    LimitIsFixed(db, ops, n, id);
  }

  lemma {:induction false} GrantsWhatFits(s: Db, id: CellId, limit: int, cost: int, now: real)
    requires Effective(GetInt(s.limit, id), limit) == limit
    requires (if Expired(s, id, now) then 0 else GetInt(s.usage, id)) + cost <= limit
    ensures TryConsume(s, id, limit, cost, now).allowed
  {}

  /** Otherwise there are two requests which the stretch grants more than the limit. */
  lemma {:induction false} OneLimitIsNeeded(
    db: Db, ops: seq<Op>, id: CellId, limit: int, from: real, until: real)
    returns (more: seq<Op>)
    requires Steady(db, ops, id, limit) && Effective(GetInt(db.limit, id), limit) == limit
    requires (forall n | 0 <= n < |ops| :: ops[n].now <= from) && 0.0 <= from <= until
    requires !OneLimit(StateAt(db, ops, |ops|), id, limit, from, until)
    ensures Continues(db, ops, more, id, limit, from, until) && GrantedBy(db, ops, more, id) > limit
  {
    hide StateAt, Total, Steady;
    var s := StateAt(db, ops, |ops|);
    var end, usage := GetInt(s.resetAt, id) as real, GetInt(s.usage, id);
    UsageIsWindowTotal(db, ops, |ops|, id, limit);
    SteadyLimits(db, ops, |ops|, id, limit);
    var (first, cost, second) :=
      if end <= from then (from, limit, Whole(from + WINDOW) as real)
      else if usage < limit then (from, limit - usage, end)
      else (end, limit, end + WINDOW);
    BothGranted(db, ops, id, limit, cost, first, second);
    more := [Consume(id, limit, cost, first), Consume(id, limit, limit, second)];
  }

  /**
   Whatever is asked for between two times, a quota grants no more than its limit, exactly when
   its window and usage at the start say so.
   */
  lemma {:induction false} LimitHoldsIff(
    db: Db, ops: seq<Op>, id: CellId, limit: int, from: real, until: real)
    requires Steady(db, ops, id, limit) && Effective(GetInt(db.limit, id), limit) == limit
    requires (forall n | 0 <= n < |ops| :: ops[n].now <= from) && 0.0 <= from <= until
    ensures (forall more | Continues(db, ops, more, id, limit, from, until) ::
               GrantedBy(db, ops, more, id) <= limit)
            <==> OneLimit(StateAt(db, ops, |ops|), id, limit, from, until)
  {
    hide StateAt, Total, Steady, OneLimit;
    if OneLimit(StateAt(db, ops, |ops|), id, limit, from, until) {
      forall more | Continues(db, ops, more, id, limit, from, until)
        ensures GrantedBy(db, ops, more, id) <= limit
      {
        StateOfPrefix(db, ops, ops + more, |ops|);
        OneLimitIsEnough(db, ops + more, |ops|, id, limit, from, until);
      }
    } else {
      var more := OneLimitIsNeeded(db, ops, id, limit, from, until);
    }
  }

  /** For up to 3599 seconds: the window has ended, outlasts the stretch, or is used up. */
  lemma {:induction false} OneLimitWithinTheHour(s: Db, id: CellId, limit: int, from: real, until: real)
    requires from <= until <= from + 3599.0
    ensures OneLimit(s, id, limit, from, until) <==>
            var end := GetInt(s.resetAt, id) as real; end <= from || end > until || GetInt(s.usage, id) == limit
  {}
}
