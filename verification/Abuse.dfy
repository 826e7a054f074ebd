/**
 Abuse scoring per identity: sliding windows, a decaying score, temporary and hard bans.
 Times and scores are exact reals.
 */
module Abuse {
  import opened Prelude

  const BURST_WINDOW: real := 10.0
  const BURST_LIMIT := 40
  const DUP_WINDOW: real := 60.0
  const DUP_LIMIT := 15
  const ERROR_WINDOW: real := 60.0
  const ERROR_MIN_SAMPLES := 10
  const CONCURRENCY_LIMIT := 24
  const SCORE_DECAY: real := 0.05
  const THROTTLE_AT: real := 5.0
  const TEMP_BAN_AT: real := 12.0
  const TEMP_BAN: real := 300.0
  const ERROR_KEEP := 200

  datatype Repeat = Repeat(count: int, last: real)

  datatype Record = Record(
    score: real,
    updated: real,
    requests: seq<real>,
    repeats: map<string, Repeat>,
    errors: seq<real>,
    hardBan: bool,
    tempBanUntil: real)

  datatype Action = Allow | Throttle | TempBan | HardBan
  /** `retryAfter` is in whole seconds. */
  datatype Decision = Decision(allowed: bool, action: Action, score: real, retryAfter: int, reason: string)

  // ---------------------------------------------------------------- specification of one check

  function Fresh(now: real): Record {
    Record(0.0, now, [], map[], [], false, 0.0)
  }

  function Max(a: real, b: real): real {
    if a >= b then a else b
  }

  function Decay(r: Record, now: real): Record {
    r.(score := Max(0.0, r.score - Max(0.0, now - r.updated) * SCORE_DECAY), updated := now)
  }

  /** The times less than `window` seconds old. */
  function Recent(times: seq<real>, now: real, window: real): (r: seq<real>)
    ensures |r| <= |times|
  {
    if times == [] then []
    else (if now - times[0] < window then [times[0]] else []) + Recent(times[1..], now, window)
  }

  /** `times[-n:]` */
  function Last(times: seq<real>, n: nat): (r: seq<real>)
    ensures |r| == if |times| <= n then |times| else n
  {
    if |times| <= n then times else times[|times| - n..]
  }

  function Window(r: Record, now: real): seq<real> {
    Recent(r.requests, now, BURST_WINDOW) + [now]
  }

  /** The counts whose prompt came less than a minute ago, with this prompt counted once more. */
  function Repeats(repeats: map<string, Repeat>, now: real, prompt: string): (r: map<string, Repeat>)
    ensures prompt in r && r[prompt].last == now
  {
    var kept := map h | h in repeats && now - repeats[h].last < DUP_WINDOW :: repeats[h];
    kept[prompt := Repeat((if prompt in kept then kept[prompt].count else 0) + 1, now)]
  }

  predicate Burst(r: Record, now: real) {
    |Window(r, now)| > BURST_LIMIT
  }

  predicate Spam(r: Record, now: real, prompt: string) {
    prompt != "" && Repeats(r.repeats, now, prompt)[prompt].count > DUP_LIMIT
  }

  /**
   More errors in the last minute than 60% of the calls counted, of which there are at least ten.
   The calls counted are those of the last ten seconds: the burst window has dropped the others.
   */
  predicate Storm(r: Record, now: real) {
    var calls := |Recent(Window(r, now), now, ERROR_WINDOW)|;
    calls >= ERROR_MIN_SAMPLES && 10 * |Recent(r.errors, now, ERROR_WINDOW)| > 6 * calls
  }

  function Signals(r: Record, now: real, prompt: string, live: int): (s: real)
    ensures 0.0 <= s <= 9.5
  {
    (if Burst(r, now) then 3.0 else 0.0) +
    (if Spam(r, now, prompt) then 2.5 else 0.0) +
    (if live > CONCURRENCY_LIMIT then 2.0 else 0.0) +
    (if Storm(r, now) then 2.0 else 0.0)
  }

  predicate Banned(r: Record, now: real) {
    r.hardBan || r.tempBanUntil > now
  }

  /** The record after its windows are updated and its score decayed and raised. */
  function Scored(r: Record, now: real, prompt: string, live: int): Record {
    Record(
      Decay(r, now).score + Signals(r, now, prompt, live),
      now,
      Last(Window(r, now), BURST_LIMIT * 2),
      if prompt != "" then Repeats(r.repeats, now, prompt) else r.repeats,
      Recent(r.errors, now, ERROR_WINDOW),
      r.hardBan,
      r.tempBanUntil)
  }

  /** The record a check that is not refused outright leaves behind. */
  function Evaluate(r: Record, now: real, prompt: string, live: int): Record {
    var s := Scored(r, now, prompt, live);
    if s.score >= TEMP_BAN_AT then s.(tempBanUntil := now + TEMP_BAN) else s
  }

  function Decide(r: Record, now: real, prompt: string, live: int): Decision {
    if r.hardBan then Decision(false, HardBan, r.score, 0, "hard-banned")
    else if r.tempBanUntil > now then StillBanned(r, now)
    else
      var score := Evaluate(r, now, prompt, live).score;
      if score >= TEMP_BAN_AT then Decision(false, TempBan, score, 300, "abuse score exceeded ban threshold")
      else if score >= THROTTLE_AT then Decision(true, Throttle, score, 2, THROTTLED)
      else Decision(true, Allow, score, 0, "")
  }

  const THROTTLED := "elevated abuse score \U{2014} throttled"

  function StillBanned(r: Record, now: real): Decision {
    Decision(false, TempBan, r.score, (r.tempBanUntil - now).Floor, "temporarily banned")
  }

  predicate Collectable(r: Record, now: real) {
    !r.hardBan && r.tempBanUntil < now && r.score < 0.1 && now - r.updated > 1800.0
  }

  // ---------------------------------------------------------------- the store

  type Records = map<string, Record>

  function Load(records: Records, ident: string, now: real): Record {
    if ident in records then records[ident] else Fresh(now)
  }

  function Collect(records: Records, idents: seq<string>, now: real): Records {
    if idents == [] then records
    else
      var first := idents[0];
      var rest := if first in records && Collectable(records[first], now) then records - {first} else records;
      Collect(rest, idents[1..], now)
  }

  class AbuseStore {
    var records: Records
    var conc: map<string, int>

    constructor ()
      ensures records == map[] && conc == map[]
    {
      records, conc := map[], map[];
    }

    method ConcInc(ident: string)
      modifies this`conc
      ensures conc == old(conc)[ident := (if ident in old(conc) then old(conc)[ident] else 0) + 1]
    {
      conc := conc[ident := (if ident in conc then conc[ident] else 0) + 1];
    }

    method ConcDec(ident: string)
      modifies this`conc
      ensures var n := if ident in old(conc) then old(conc)[ident] else 0;
              conc == old(conc)[ident := if n >= 1 then n - 1 else 0]
    {
      var n := (if ident in conc then conc[ident] else 0) - 1;
      conc := conc[ident := if n >= 0 then n else 0];
    }

    method Check(ident: string, prompt: string, now: real) returns (d: Decision)
      modifies this`records
      ensures var r := Load(old(records), ident, now);
              var live := if ident in conc then conc[ident] else 0;
              && d == Decide(r, now, prompt, live)
              && records == if Banned(r, now) then old(records)
                            else old(records)[ident := Evaluate(r, now, prompt, live)]
    {
      hide Scored;
      var st := Load(records, ident, now);
      if st.hardBan { return Decision(false, HardBan, st.score, 0, "hard-banned"); }
      if st.tempBanUntil > now {
        return Decision(false, TempBan, st.score, (st.tempBanUntil - now).Floor, "temporarily banned");
      }
      st := Score(st, now, prompt, if ident in conc then conc[ident] else 0);
      var score := st.score;
      if score >= TEMP_BAN_AT {
        st := st.(tempBanUntil := now + TEMP_BAN);
        records := records[ident := st];
        return Decision(false, TempBan, score, 300, "abuse score exceeded ban threshold");
      }
      records := records[ident := st];
      if score >= THROTTLE_AT { return Decision(true, Throttle, score, 2, THROTTLED); }
      return Decision(true, Allow, score, 0, "");
    }

    /** The scoring steps of a check. */
    static method Score(r: Record, now: real, prompt: string, live: int) returns (st: Record)
      ensures st == Scored(r, now, prompt, live)
    {
      hide Recent, Last, Repeats;
      st := Decay(r, now);

      var requests := Recent(st.requests, now, BURST_WINDOW) + [now];
      st := st.(requests := Last(requests, BURST_LIMIT * 2));
      if |requests| > BURST_LIMIT { st := st.(score := st.score + 3.0); }

      if prompt != "" {
        st := st.(repeats := Repeats(st.repeats, now, prompt));
        if st.repeats[prompt].count > DUP_LIMIT { st := st.(score := st.score + 2.5); }
      }

      if live > CONCURRENCY_LIMIT { st := st.(score := st.score + 2.0); }

      var errors := Recent(st.errors, now, ERROR_WINDOW);
      st := st.(errors := errors);
      var calls := |Recent(requests, now, ERROR_WINDOW)|;
      if calls >= ERROR_MIN_SAMPLES && 10 * |errors| > 6 * calls { st := st.(score := st.score + 2.0); }
    }

    method RecordError(ident: string, now: real)
      modifies this`records
      ensures records == old(records)[ident := WithError(Load(old(records), ident, now), now)]
    {
      var st := Load(records, ident, now);
      var errors := st.errors + [now];
      st := st.(errors := Last(errors, ERROR_KEEP));
      records := records[ident := st];
    }

    method SetHardBan(ident: string, banned: bool, now: real)
      modifies this`records
      ensures records == old(records)[ident := WithHardBan(Load(old(records), ident, now), banned)]
    {
      var st := Load(records, ident, now);
      st := st.(hardBan := banned);
      if !banned {
        st := st.(score := 0.0);
        st := st.(tempBanUntil := 0.0);
      }
      records := records[ident := st];
    }

    /** `idents`: the identities found by the scan. */
    method AbuseGc(idents: seq<string>, now: real) returns (removed: nat)
      modifies this`records
      ensures records == Collect(old(records), idents, now)
    {
      removed := 0;
      for i := 0 to |idents|
        invariant Collect(old(records), idents, now) == Collect(records, idents[i..], now)
      {
        assert idents[i..][1..] == idents[i + 1..];
        if idents[i] in records && Collectable(records[idents[i]], now) {
          records := records - {idents[i]};
          removed := removed + 1;
        }
      }
    }
  }

  function WithError(r: Record, now: real): Record {
    r.(errors := Last(r.errors + [now], ERROR_KEEP))
  }

  function WithHardBan(r: Record, banned: bool): Record {
    if banned then r.(hardBan := true) else r.(hardBan := false, score := 0.0, tempBanUntil := 0.0)
  }

  /** The identity of a caller: API key and address. */
  function Ident(key: string, ip: string): string {
    key + "@" + ip
  }

  /** A hard ban of a key with address `*` refuses the address `*` and no other address of the key. */
  lemma {:induction false} WildcardBansOneAddress(
    records: Records, key: string, ip: string, bannedAt: real, now: real, prompt: string, live: int)
    ensures var ident, wild := Ident(key, ip), Ident(key, "*");
            var after := records[wild := WithHardBan(Load(records, wild, bannedAt), true)];
            Decide(Load(after, ident, now), now, prompt, live) ==
            if ip == "*" then Decision(false, HardBan, Load(records, wild, bannedAt).score, 0, "hard-banned")
            else Decide(Load(records, ident, now), now, prompt, live)
  {
    hide Evaluate;
    var n := |key + "@"|;
    assert Ident(key, ip)[n..] == ip && Ident(key, "*")[n..] == "*";
  }

  // ---------------------------------------------------------------- histories of one identity

  /** Everything that can happen to one identity's record; `live` is the concurrency gauge at the time. */
  datatype Op =
    | CheckOp(prompt: string, live: int, now: real)
    | ErrorOp(now: real)
    | BanOp(banned: bool, now: real)
    | GcOp(now: real)

  /**
   The stored record and the time of the last operation, with what has happened so far: the times
   of all evaluated checks, in all and by prompt, and of all errors recorded since the record was
   created.
   */
  datatype Run = Run(
    record: Option<Record>, evaluated: seq<real>, asked: Asked, failed: seq<real>, last: real)

  const START := Run(None, [], map[], [], 0.0)

  type Asked = map<string, seq<real>>

  function TimesOf(asked: Asked, prompt: string): seq<real> {
    if prompt in asked then asked[prompt] else []
  }

  function AskedAgain(asked: Asked, prompt: string, now: real): Asked {
    asked[prompt := TimesOf(asked, prompt) + [now]]
  }

  function RecordOf(run: Run, now: real): Record {
    match run.record case None => Fresh(now) case Some(r) => r
  }

  function Step(run: Run, op: Op): Run {
    var r := RecordOf(run, op.now);
    match op
    case CheckOp(prompt, live, now) =>
      if Banned(r, now) then run.(last := now)
      else
        run.(
          record := Some(Evaluate(r, now, prompt, live)),
          evaluated := run.evaluated + [now],
          asked := AskedAgain(run.asked, prompt, now),
          last := now)
    case ErrorOp(now) => run.(record := Some(WithError(r, now)), failed := run.failed + [now], last := now)
    case BanOp(banned, now) => run.(record := Some(WithHardBan(r, banned)), last := now)
    case GcOp(now) =>
      if run.record.Some? && Collectable(r, now) then run.(record := None, failed := [], last := now)
      else run.(last := now)
  }

  function Perform(run: Run, ops: seq<Op>): Run
    decreases |ops|
  {
    if ops == [] then run else Perform(Step(run, ops[0]), ops[1..])
  }

  predicate Timely(from: real, ops: seq<Op>)
    decreases |ops|
  {
    ops == [] || (from <= ops[0].now && Timely(ops[0].now, ops[1..]))
  }

  predicate Sorted(times: seq<real>) {
    forall i, j | 0 <= i < j < |times| :: times[i] <= times[j]
  }

  predicate ScoreBounded(r: Record) {
    && 0.0 <= r.score < 21.5
    && (r.score >= TEMP_BAN_AT ==> r.tempBanUntil >= r.updated + TEMP_BAN)
  }

  /** Every time before `n` is out of the window at `now`. */
  predicate OldBefore(times: seq<real>, n: nat, now: real, window: real) {
    forall i | 0 <= i < n && i < |times| :: now - times[i] >= window
  }

  /** The kept times are the latest of all; those left out are old, or `cap` newer ones are kept. */
  predicate WindowKept(all: seq<real>, kept: seq<real>, last: real, window: real, cap: nat) {
    && |kept| <= |all|
    && all[|all| - |kept|..] == kept
    && |kept| <= cap
    && (|kept| == cap || OldBefore(all, |all| - |kept|, last, window))
  }

  predicate Past(times: seq<real>, last: real) {
    Sorted(times) && AllPast(times, last)
  }

  /** How many of the latest times follow one another at less than a minute. */
  function Streak(times: seq<real>): (n: nat)
    ensures n <= |times|
  {
    if |times| <= 1 then |times|
    else
      var n := |times| - 1;
      if times[n] - times[n - 1] < DUP_WINDOW then Streak(times[..n]) + 1 else 1
  }

  /** The record's count of a prompt is its streak; a prompt with no count was last asked a minute ago or more. */
  predicate RepeatKept(times: seq<real>, repeats: map<string, Repeat>, prompt: string, last: real) {
    if prompt in repeats then times != [] && repeats[prompt] == Repeat(Streak(times), times[|times| - 1])
    else times == [] || last - times[|times| - 1] >= DUP_WINDOW
  }

  ghost predicate RepeatsKept(asked: Asked, repeats: map<string, Repeat>, last: real) {
    forall prompt: string :: prompt != "" ==> RepeatKept(TimesOf(asked, prompt), repeats, prompt, last)
  }

  predicate AllPast(times: seq<real>, last: real) {
    forall i | 0 <= i < |times| :: times[i] <= last
  }

  ghost predicate AskedIsPast(asked: Asked, last: real) {
    forall prompt: string :: AllPast(TimesOf(asked, prompt), last)
  }

  ghost predicate Reachable(run: Run) {
    var r := RecordOf(run, run.last);
    && Past(run.evaluated, r.updated) && AskedIsPast(run.asked, r.updated) && r.updated <= run.last
    && Past(run.failed, run.last)
    && (run.record.None? ==> run.failed == [])
    && ScoreBounded(r)
    && WindowKept(run.evaluated, r.requests, run.last, BURST_WINDOW, 2 * BURST_LIMIT)
    && WindowKept(run.failed, r.errors, run.last, ERROR_WINDOW, ERROR_KEEP)
    && RepeatsKept(run.asked, r.repeats, run.last)
  }

  // ---------------------------------------------------------------- windows

  lemma {:induction false} RecentAppend(a: seq<real>, b: seq<real>, now: real, window: real)
    ensures Recent(a + b, now, window) == Recent(a, now, window) + Recent(b, now, window)
  {
    if a == [] {
      assert a + b == b;
    } else {
      RecentAppend(a[1..], b, now, window);
      assert (a + b)[0] == a[0] && (a + b)[1..] == a[1..] + b;
      Associative(if now - a[0] < window then [a[0]] else [], Recent(a[1..], now, window), Recent(b, now, window));
    }
  }

  lemma {:induction false} AllRecent(times: seq<real>, now: real, window: real)
    requires forall i | 0 <= i < |times| :: now - times[i] < window
    ensures Recent(times, now, window) == times
  {
    if times != [] {
      assert forall i | 0 <= i < |times| - 1 :: times[1..][i] == times[i + 1];
      AllRecent(times[1..], now, window);
    }
  }

  /** In a sorted list the recent times are a suffix, and everything before it is old. */
  lemma {:induction false} RecentIsSuffix(times: seq<real>, now: real, window: real)
    requires Sorted(times)
    ensures var k := |times| - |Recent(times, now, window)|;
            Recent(times, now, window) == times[k..] && OldBefore(times, k, now, window)
  {
    if times == [] || now - times[0] < window {
      AllRecent(times, now, window);
    } else {
      RecentIsSuffix(times[1..], now, window);
      OldPrefix(times, |times| - |Recent(times, now, window)|, now, window);
    }
  }

  lemma {:induction false} OldPrefix(times: seq<real>, k: nat, now: real, window: real)
    requires 0 < k <= |times| && now - times[0] >= window && OldBefore(times[1..], k - 1, now, window)
    ensures OldBefore(times, k, now, window) && times[1..][k - 1..] == times[k..]
  {
    forall i | 0 <= i < k ensures now - times[i] >= window {
      if i > 0 { assert times[i] == times[1..][i - 1]; }
    }
  }

  lemma {:induction false} OldIsNotRecent(times: seq<real>, now: real, window: real)
    requires OldBefore(times, |times|, now, window)
    ensures Recent(times, now, window) == []
  {
    if times != [] {
      assert forall i | 0 <= i < |times| - 1 :: times[1..][i] == times[i + 1];
      OldIsNotRecent(times[1..], now, window);
    }
  }

  lemma {:induction false} SortedTail(times: seq<real>, d: nat)
    requires Sorted(times) && d <= |times|
    ensures Sorted(times[d..])
  {}

  /** Everything before the first recent kept time is old, unless the window is full and all of it is recent. */
  lemma {:induction false} BeforeRecentIsOld(
    all: seq<real>, kept: seq<real>, last: real, now: real, k: nat, window: real, cap: nat)
    requires Sorted(all) && WindowKept(all, kept, last, window, cap) && last <= now
    requires k <= |kept| && OldBefore(kept, k, now, window) && (k > 0 || |kept| < cap)
    ensures OldBefore(all, |all| - |kept| + k, now, window)
  {
    var d := |all| - |kept|;
    forall i | 0 <= i < d + k ensures now - all[i] >= window {
      if i >= d {
        assert all[i] == kept[i - d];
      } else if k > 0 {
        assert all[d] == kept[0] && all[i] <= all[d];
      }
    }
  }

  function AtMost(n: nat, cap: nat): nat {
    if n <= cap then n else cap
  }

  /** A capped window counts, up to its cap, what happened. */
  lemma {:induction false} RecentOfKept(
    all: seq<real>, kept: seq<real>, last: real, now: real, window: real, cap: nat)
    requires Sorted(all) && WindowKept(all, kept, last, window, cap) && last <= now
    ensures |Recent(kept, now, window)| == AtMost(|Recent(all, now, window)|, cap)
  {
    hide Recent, Sorted, OldBefore, WindowKept;
    var dropped := KeptSplits(all, kept, last, window, cap);
    RecentAppend(dropped, kept, now, window);
    SortedTail(all, |dropped|);
    RecentIsSuffix(kept, now, window);
    var k := |kept| - |Recent(kept, now, window)|;
    if k > 0 || |kept| < cap {
      BeforeRecentIsOld(all, kept, last, now, k, window, cap);
      OldTake(all, |dropped| + k, |dropped|, now, window);
      OldIsNotRecent(dropped, now, window);
    }
  }

  lemma {:induction false} KeptSplits(all: seq<real>, kept: seq<real>, last: real, window: real, cap: nat)
    returns (dropped: seq<real>)
    requires WindowKept(all, kept, last, window, cap)
    ensures all == dropped + kept && |kept| <= cap && |dropped| == |all| - |kept|
    ensures all[..|dropped|] == dropped && all[|dropped|..] == kept
  {
    dropped := all[..|all| - |kept|];
  }

  lemma {:induction false} OldTake(times: seq<real>, n: nat, d: nat, now: real, window: real)
    requires OldBefore(times, n, now, window) && d <= n && d <= |times|
    ensures OldBefore(times[..d], d, now, window)
  {}

  /** Dropping the old times of a window leaves it right. */
  lemma {:induction false} KeptAfterRecent(
    all: seq<real>, kept: seq<real>, last: real, now: real, window: real, cap: nat)
    requires Sorted(all) && WindowKept(all, kept, last, window, cap) && last <= now
    ensures WindowKept(all, Recent(kept, now, window), now, window, cap)
  {
    hide Recent, Sorted;
    var d := |all| - |kept|;
    SortedTail(all, d);
    RecentIsSuffix(kept, now, window);
    var k := |kept| - |Recent(kept, now, window)|;
    TailOfTail(all, d, k);
    if k > 0 || |kept| < cap { BeforeRecentIsOld(all, kept, last, now, k, window, cap); }
  }

  /** So does adding a new time and dropping the oldest beyond the cap. */
  lemma {:induction false} KeptAfterAppend(
    all: seq<real>, kept: seq<real>, last: real, now: real, window: real, cap: nat)
    requires WindowKept(all, kept, last, window, cap) && last <= now && cap > 0
    ensures WindowKept(all + [now], Last(kept + [now], cap), now, window, cap)
  {
    var longer := all + [now];
    var d := |all| - |kept|;
    assert longer[d..] == kept + [now];
    if |kept| == cap { TailOfTail(longer, d, 1); }
  }

  /** And so does time passing. */
  lemma {:induction false} KeptLater(all: seq<real>, kept: seq<real>, last: real, now: real, window: real, cap: nat)
    requires WindowKept(all, kept, last, window, cap) && last <= now
    ensures WindowKept(all, kept, now, window, cap)
  {}

  lemma {:induction false} PastAppend(times: seq<real>, last: real, now: real)
    requires Past(times, last) && last <= now
    ensures Past(times + [now], now)
  {}

  // ---------------------------------------------------------------- repeats

  lemma {:induction false} StreakGrows(times: seq<real>, now: real)
    ensures Streak(times + [now]) ==
            if times != [] && now - times[|times| - 1] < DUP_WINDOW then Streak(times) + 1 else 1
  {
    assert (times + [now])[..|times|] == times;
  }

  /** The count a check sees is the streak that ends with it. */
  lemma {:induction false} CountIsStreak(
    times: seq<real>, repeats: map<string, Repeat>, prompt: string, last: real, now: real)
    requires RepeatKept(times, repeats, prompt, last) && last <= now
    ensures Repeats(repeats, now, prompt)[prompt] == Repeat(Streak(times + [now]), now)
  {
    StreakGrows(times, now);
  }

  lemma {:induction false} RepeatsAfterCheck(
    asked: Asked, repeats: map<string, Repeat>, prompt: string, last: real, now: real)
    requires RepeatsKept(asked, repeats, last) && last <= now && AskedIsPast(asked, now)
    ensures var after := if prompt != "" then Repeats(repeats, now, prompt) else repeats;
            RepeatsKept(AskedAgain(asked, prompt, now), after, now)
    ensures AskedIsPast(AskedAgain(asked, prompt, now), now)
  {
    hide Streak;
    var next := AskedAgain(asked, prompt, now);
    var after := if prompt != "" then Repeats(repeats, now, prompt) else repeats;
    forall h: string | h != ""
      ensures RepeatKept(TimesOf(next, h), after, h, now)
    {
      assert RepeatKept(TimesOf(asked, h), repeats, h, last);
      if h == prompt { CountIsStreak(TimesOf(asked, h), repeats, h, last, now); }
    }
    forall h: string
      ensures AllPast(TimesOf(next, h), now)
    {
      assert AllPast(TimesOf(asked, h), now);
    }
  }

  lemma {:induction false} RepeatsLater(asked: Asked, repeats: map<string, Repeat>, last: real, now: real)
    requires RepeatsKept(asked, repeats, last) && last <= now
    ensures RepeatsKept(asked, repeats, now)
  {
    hide Streak;
    forall h: string | h != ""
      ensures RepeatKept(TimesOf(asked, h), repeats, h, now)
    {
      assert RepeatKept(TimesOf(asked, h), repeats, h, last);
    }
  }

  lemma {:induction false} AskedLater(asked: Asked, last: real, now: real)
    requires AskedIsPast(asked, last) && last <= now
    ensures AskedIsPast(asked, now)
  {
    forall h: string
      ensures AllPast(TimesOf(asked, h), now)
    {
      assert AllPast(TimesOf(asked, h), last);
    }
  }

  // ---------------------------------------------------------------- reachable states

  lemma {:induction false} EvaluateKeepsScoreBounded(r: Record, now: real, prompt: string, live: int)
    requires ScoreBounded(r) && r.updated <= now && !Banned(r, now)
    ensures ScoreBounded(Evaluate(r, now, prompt, live))
    ensures Decay(r, now).score < TEMP_BAN_AT
    ensures r.score >= TEMP_BAN_AT ==> Decay(r, now).score < 6.5
  {
    hide Recent, Last, Repeats, Signals;
  }

  lemma {:induction false} EvaluatedFields(r: Record, now: real, prompt: string, live: int)
    ensures var e := Evaluate(r, now, prompt, live);
            && e.updated == now
            && e.requests == Last(Recent(r.requests, now, BURST_WINDOW) + [now], 2 * BURST_LIMIT)
            && e.errors == Recent(r.errors, now, ERROR_WINDOW)
            && e.repeats == (if prompt != "" then Repeats(r.repeats, now, prompt) else r.repeats)
            && e.hardBan == r.hardBan
  {
    hide Recent, Last, Repeats, Signals;
  }

  /** A fresh record is as good at a later time as at an earlier one. */
  lemma {:induction false} ReachableLater(run: Run, now: real)
    requires Reachable(run) && run.last <= now
    ensures Reachable(run.(last := now))
  {
    hide ScoreBounded, RepeatsKept, WindowKept, AskedIsPast;
    var r := RecordOf(run, run.last);
    RepeatsLater(run.asked, r.repeats, run.last, now);
    if run.record.None? { AskedLater(run.asked, run.last, now); }
    KeptLater(run.evaluated, r.requests, run.last, now, BURST_WINDOW, 2 * BURST_LIMIT);
    KeptLater(run.failed, r.errors, run.last, now, ERROR_WINDOW, ERROR_KEEP);
    assert ScoreBounded(RecordOf(run, now)) by { if run.record.None? { FreshIsBounded(now); } }
  }

  lemma {:induction false} FreshIsBounded(now: real)
    ensures ScoreBounded(Fresh(now))
  {}

  lemma {:induction false} CheckKeepsReachable(run: Run, prompt: string, live: int, now: real)
    requires Reachable(run) && run.last == now && !Banned(RecordOf(run, now), now)
    ensures Reachable(Step(run, CheckOp(prompt, live, now)))
  {
    hide Evaluate, WindowKept, ScoreBounded, Repeats, Recent, Last, RepeatsKept, AskedIsPast, AskedAgain;
    var r := RecordOf(run, now);
    EvaluateKeepsScoreBounded(r, now, prompt, live);
    KeptAfterRecent(run.evaluated, r.requests, now, now, BURST_WINDOW, 2 * BURST_LIMIT);
    KeptAfterAppend(
      run.evaluated, Recent(r.requests, now, BURST_WINDOW), now, now, BURST_WINDOW, 2 * BURST_LIMIT);
    KeptAfterRecent(run.failed, r.errors, now, now, ERROR_WINDOW, ERROR_KEEP);
    AskedLater(run.asked, r.updated, now);
    RepeatsAfterCheck(run.asked, r.repeats, prompt, now, now);
    PastAppend(run.evaluated, r.updated, now);
    EvaluatedFields(r, now, prompt, live);
  }

  lemma {:induction false} ErrorKeepsReachable(run: Run, now: real)
    requires Reachable(run) && run.last == now
    ensures Reachable(Step(run, ErrorOp(now)))
  {
    hide WindowKept, ScoreBounded, Last, RepeatsKept, AskedIsPast;
    var r := RecordOf(run, now);
    KeptAfterAppend(run.failed, r.errors, now, now, ERROR_WINDOW, ERROR_KEEP);
    PastAppend(run.failed, now, now);
    ErrorKeepsScore(r, now);
  }

  lemma {:induction false} ErrorKeepsScore(r: Record, now: real)
    requires ScoreBounded(r)
    ensures ScoreBounded(WithError(r, now))
  {}

  lemma {:induction false} BanKeepsReachable(run: Run, banned: bool, now: real)
    requires Reachable(run) && run.last == now
    ensures Reachable(Step(run, BanOp(banned, now)))
  {
    hide WindowKept, RepeatsKept, AskedIsPast;
  }

  /** A record is collected only when everything it keeps, but for its errors, is old. */
  lemma {:induction false} GcKeepsReachable(run: Run, now: real)
    requires Reachable(run) && run.last == now
    ensures Reachable(Step(run, GcOp(now)))
  {
    hide ScoreBounded, Streak, RepeatsKept, AskedIsPast;
    var r := RecordOf(run, now);
    if run.record.Some? && Collectable(r, now) {
      FreshIsBounded(now);
      NothingAskedLately(run.asked, r.updated, now);
      AskedLater(run.asked, r.updated, now);
    }
  }

  lemma {:induction false} NothingAskedLately(asked: Asked, last: real, now: real)
    requires AskedIsPast(asked, last) && now - last >= DUP_WINDOW
    ensures RepeatsKept(asked, map[], now)
  {
    forall h: string | h != ""
      ensures RepeatKept(TimesOf(asked, h), map[], h, now)
    {
      assert AllPast(TimesOf(asked, h), last);
    }
  }

  lemma {:induction false} StepKeepsReachable(run: Run, op: Op)
    requires Reachable(run) && run.last <= op.now
    ensures Reachable(Step(run, op))
  {
    hide Reachable, Evaluate, WithError, WithHardBan, Banned, Collectable;
    ReachableLater(run, op.now);
    var later := run.(last := op.now);
    assert Step(run, op) == Step(later, op) by { LaterStep(run, op); }
    match op {
      case CheckOp(prompt, live, now) =>
        if !Banned(RecordOf(later, now), now) { CheckKeepsReachable(later, prompt, live, now); }
      case ErrorOp(now) => ErrorKeepsReachable(later, now);
      case BanOp(banned, now) => BanKeepsReachable(later, banned, now);
      case GcOp(now) => GcKeepsReachable(later, now);
    }
  }

  lemma {:induction false} LaterStep(run: Run, op: Op)
    ensures Step(run, op) == Step(run.(last := op.now), op)
  {
    hide Evaluate, WithError, WithHardBan;
  }

  /** Every state a history reaches counts what happened, and keeps a high score under its ban. */
  lemma {:induction false} HistoriesStayReachable(run: Run, ops: seq<Op>)
    requires Reachable(run) && Timely(run.last, ops)
    ensures Reachable(Perform(run, ops))
    decreases |ops|
  {
    hide Reachable;
    if ops != [] {
      StepKeepsReachable(run, ops[0]);
      HistoriesStayReachable(Step(run, ops[0]), ops[1..]);
    }
  }

  lemma {:induction false} ReachableScore(run: Run, now: real)
    requires Reachable(run) && run.last <= now
    ensures ScoreBounded(RecordOf(run, now)) && RecordOf(run, now).updated <= now
  {
    if run.record.None? { FreshIsBounded(now); }
  }

  lemma {:induction false} StartIsReachable()
    ensures Reachable(START)
  {}

  /** After any history, 0 <= score < 21.5, and a score of 12 or more is banned for 300 s after its check. */
  lemma {:induction false} ScoreIsBounded(ops: seq<Op>)
    requires Timely(0.0, ops)
    ensures var record := Perform(START, ops).record; record.Some? ==> ScoreBounded(record.value)
  {
    hide Reachable, Perform;
    StartIsReachable();
    HistoriesStayReachable(START, ops);
    ReachableScore(Perform(START, ops), Perform(START, ops).last);
  }

  // ---------------------------------------------------------------- what the signals count

  /** A check sees a burst exactly when, with it, more than 40 checks were evaluated in the last 10 s. */
  lemma {:induction false} BurstCountsEvaluatedChecks(ops: seq<Op>, now: real)
    requires Timely(0.0, ops) && Perform(START, ops).last <= now
    ensures var run := Perform(START, ops);
            Burst(RecordOf(run, now), now) <==> |Recent(run.evaluated, now, BURST_WINDOW)| + 1 > BURST_LIMIT
  {
    hide Recent, Perform, Reachable;
    StartIsReachable();
    HistoriesStayReachable(START, ops);
    CallsCounted(Perform(START, ops), now);
  }

  lemma {:induction false} CallsCounted(run: Run, now: real)
    requires Reachable(run) && run.last <= now
    ensures |Window(RecordOf(run, now), now)| == AtMost(|Recent(run.evaluated, now, BURST_WINDOW)|, 2 * BURST_LIMIT) + 1
  {
    hide Recent, WindowKept, RepeatsKept, AskedIsPast;
    RecentOfKept(run.evaluated, RecordOf(run, run.last).requests, run.last, now, BURST_WINDOW, 2 * BURST_LIMIT);
  }

  /**
   A check sees spam exactly when it is the 16th or later of a streak of its prompt: evaluated
   checks each less than a minute after the one before, over however long a time.
   */
  lemma {:induction false} SpamCountsStreaks(ops: seq<Op>, prompt: string, now: real)
    requires Timely(0.0, ops) && Perform(START, ops).last <= now
    ensures var run := Perform(START, ops);
            Spam(RecordOf(run, now), now, prompt) <==>
            prompt != "" && Streak(TimesOf(run.asked, prompt) + [now]) > DUP_LIMIT
  {
    hide Perform, Streak, WindowKept, Repeats;
    StartIsReachable();
    HistoriesStayReachable(START, ops);
    var run := Perform(START, ops);
    var r := RecordOf(run, run.last);
    if prompt != "" {
      assert RepeatKept(TimesOf(run.asked, prompt), r.repeats, prompt, run.last);
      CountIsStreak(TimesOf(run.asked, prompt), r.repeats, prompt, run.last, now);
    }
  }

  // How streaks relate to prompts per minute.

  ghost predicate AskedInOrder(asked: Asked, last: real) {
    forall prompt: string :: Past(TimesOf(asked, prompt), last)
  }

  /** The times of every prompt are in order. */
  lemma {:induction false} PromptsAreInOrder(run: Run, ops: seq<Op>)
    requires AskedInOrder(run.asked, run.last) && Timely(run.last, ops)
    ensures AskedInOrder(Perform(run, ops).asked, Perform(run, ops).last)
    decreases |ops|
  {
    hide Evaluate, Collectable, Last, Sorted;
    if ops != [] {
      var next := Step(run, ops[0]);
      forall prompt: string ensures Past(TimesOf(next.asked, prompt), next.last) {
        assert Past(TimesOf(run.asked, prompt), run.last);
        PastAppend(TimesOf(run.asked, prompt), run.last, next.last);
      }
      PromptsAreInOrder(next, ops[1..]);
    }
  }

  /** Within a minute of the last of them, all times belong to its streak. */
  lemma {:induction false} MinuteIsInStreak(times: seq<real>, k: nat)
    requires Sorted(times) && k < |times| && times[|times| - 1] - times[k] < DUP_WINDOW
    ensures |times| - k <= Streak(times)
    decreases |times|
  {
    var n := |times| - 1;
    if k < n { MinuteIsInStreak(times[..n], k); }
  }

  /** The prompts of the last minute are more than `n` exactly when the `n`-th before the last is one of them. */
  lemma {:induction false} MinuteCounts(times: seq<real>, now: real, n: nat)
    requires Past(times, now)
    ensures |Recent(times, now, DUP_WINDOW)| > n <==> |times| > n && now - times[|times| - 1 - n] < DUP_WINDOW
  {
    hide Recent;
    RecentIsSuffix(times, now, DUP_WINDOW);
    RecentAreRecent(times, now, DUP_WINDOW);
    var recent := Recent(times, now, DUP_WINDOW);
    var k := |times| - |recent|;
    if |recent| > n { assert recent[|recent| - 1 - n] == times[|times| - 1 - n]; }
  }

  /**
   A check sees spam exactly when more than 15 checks of its prompt were evaluated in the last
   minute, itself included, unless the fifteenth before it belongs to its streak but is a minute
   old. Every prompt that is more than 15 in a minute is spam.
   */
  lemma {:induction false} SpamIsPerMinuteUnless(ops: seq<Op>, prompt: string, now: real)
    requires Timely(0.0, ops) && Perform(START, ops).last <= now && prompt != ""
    ensures var run := Perform(START, ops);
            var times := TimesOf(run.asked, prompt) + [now];
            var spam, many := Spam(RecordOf(run, now), now, prompt), |Recent(times, now, DUP_WINDOW)| > DUP_LIMIT;
            && (many ==> spam)
            && ((spam <==> many) <==>
                !(Streak(times) > DUP_LIMIT && now - times[|times| - 1 - DUP_LIMIT] >= DUP_WINDOW))
  {
    hide Perform, Streak, Spam, Recent;
    var run := Perform(START, ops);
    var times := TimesOf(run.asked, prompt) + [now];
    PromptsAreInOrder(START, ops);
    assert Past(TimesOf(run.asked, prompt), run.last);
    PastAppend(TimesOf(run.asked, prompt), run.last, now);
    SpamCountsStreaks(ops, prompt, now);
    MinuteCounts(times, now, DUP_LIMIT);
    if |times| > DUP_LIMIT && now - times[|times| - 1 - DUP_LIMIT] < DUP_WINDOW {
      MinuteIsInStreak(times, |times| - 1 - DUP_LIMIT);
    }
  }

  lemma {:induction false} WindowIsRecent(r: Record, now: real)
    ensures Recent(Window(r, now), now, ERROR_WINDOW) == Window(r, now)
  {
    RecentAreRecent(r.requests, now, BURST_WINDOW);
    AllRecent(Window(r, now), now, ERROR_WINDOW);
  }

  lemma {:induction false} RecentAreRecent(times: seq<real>, now: real, window: real)
    ensures forall i | 0 <= i < |Recent(times, now, window)| :: now - Recent(times, now, window)[i] < window
  {
    if times != [] { RecentAreRecent(times[1..], now, window); }
  }

  /**
   A check sees an error storm exactly when the errors of the last minute (since the record was
   created, at most 200) are more than 60% of the checks evaluated in the last ten seconds (with
   this one, at most 81), and those are at least ten.
   */
  lemma {:induction false} StormComparesWindows(ops: seq<Op>, now: real)
    requires Timely(0.0, ops) && Perform(START, ops).last <= now
    ensures var run := Perform(START, ops);
            var calls := AtMost(|Recent(run.evaluated, now, BURST_WINDOW)|, 2 * BURST_LIMIT) + 1;
            var errors := AtMost(|Recent(run.failed, now, ERROR_WINDOW)|, ERROR_KEEP);
            Storm(RecordOf(run, now), now) <==> calls >= ERROR_MIN_SAMPLES && 10 * errors > 6 * calls
  {
    hide Recent, Perform, WindowKept, RepeatsKept, AskedIsPast;
    StartIsReachable();
    HistoriesStayReachable(START, ops);
    var run := Perform(START, ops);
    CallsCounted(run, now);
    WindowIsRecent(RecordOf(run, now), now);
    RecentOfKept(run.failed, RecordOf(run, run.last).errors, run.last, now, ERROR_WINDOW, ERROR_KEEP);
  }

  lemma {:induction false} RecentWidens(times: seq<real>, now: real, narrow: real, wide: real)
    requires narrow <= wide
    ensures |Recent(times, now, narrow)| <= |Recent(times, now, wide)|
  {
    if times != [] { RecentWidens(times[1..], now, narrow, wide); }
  }

  /**
   More errors than 60% of the checks of a minute, of which there are at least ten, are a storm
   exactly when ten of the checks fall in the last ten seconds. A storm with a smaller share needs
   checks of that minute that are older, or more than are kept.
   */
  lemma {:induction false} StormAgainstShare(ops: seq<Op>, now: real)
    requires Timely(0.0, ops) && Perform(START, ops).last <= now
    ensures var run := Perform(START, ops);
            var errors := |Recent(run.failed, now, ERROR_WINDOW)|;
            var checks := |Recent(run.evaluated, now, ERROR_WINDOW)| + 1;
            var latest := |Recent(run.evaluated, now, BURST_WINDOW)| + 1;
            var share, storm := checks >= ERROR_MIN_SAMPLES && 10 * errors > 6 * checks, Storm(RecordOf(run, now), now);
            && (share ==> (storm <==> latest >= ERROR_MIN_SAMPLES))
            && (storm && !share ==> latest < checks || latest > 2 * BURST_LIMIT + 1)
  {
    hide Recent, Perform, Storm;
    StormComparesWindows(ops, now);
    RecentWidens(Perform(START, ops).evaluated, now, BURST_WINDOW, ERROR_WINDOW);
  }

  // A storm with fewer errors than 60% of the calls of its minute.

  function Copies<T>(x: T, n: nat): (r: seq<T>)
    ensures |r| == n
  {
    seq(n, _ => x)
  }

  lemma {:induction false} PerformAppend(run: Run, a: seq<Op>, b: seq<Op>)
    ensures Perform(run, a + b) == Perform(Perform(run, a), b)
    decreases |a|
  {
    hide Step;
    if a == [] {
      assert a + b == b;
    } else {
      PerformAppend(Step(run, a[0]), a[1..], b);
      assert (a + b)[1..] == a[1..] + b;
    }
  }

  /** A record that has seen no errors and at most `n` requests. */
  predicate Clean(run: Run, n: nat) {
    var r := RecordOf(run, run.last);
    r.score == 0.0 && r.errors == [] && !r.hardBan && r.tempBanUntil == 0.0 && |r.requests| <= n && run.last >= 0.0
  }

  lemma {:induction false} CleanCheck(run: Run, t: real, k: nat)
    requires Clean(run, k) && run.last <= t && k < BURST_LIMIT
    ensures var next := Step(run, CheckOp("", 0, t));
            && Clean(next, k + 1) && next.last == t
            && next.evaluated == run.evaluated + [t] && next.failed == run.failed
  {
    hide Repeats;
    assert Recent([], t, ERROR_WINDOW) == [];
  }

  lemma {:induction false} CleanChecks(run: Run, t: real, n: nat, k: nat)
    requires Clean(run, k) && run.last <= t && k + n <= BURST_LIMIT
    ensures var end := Perform(run, Copies(CheckOp("", 0, t), n));
            && Clean(end, k + n) && run.last <= end.last <= t
            && end.evaluated == run.evaluated + Copies(t, n) && end.failed == run.failed
    decreases n
  {
    hide Clean, Step;
    var ops := Copies(CheckOp("", 0, t), n);
    if n == 0 {
      assert run.evaluated + Copies(t, 0) == run.evaluated;
    } else {
      CleanCheck(run, t, k);
      CleanChecks(Step(run, CheckOp("", 0, t)), t, n - 1, k + 1);
      assert ops[1..] == Copies(CheckOp("", 0, t), n - 1);
      assert run.evaluated + Copies(t, n) == run.evaluated + [t] + Copies(t, n - 1);
    }
  }

  lemma {:induction false} ErrorsAdd(run: Run, t: real, n: nat)
    requires run.last <= t
    ensures var end := Perform(run, Copies(ErrorOp(t), n));
            end.last <= t && end.evaluated == run.evaluated && end.failed == run.failed + Copies(t, n)
    decreases n
  {
    var ops := Copies(ErrorOp(t), n);
    if n == 0 {
      assert run.failed + Copies(t, 0) == run.failed;
    } else {
      ErrorsAdd(Step(run, ErrorOp(t)), t, n - 1);
      assert ops[1..] == Copies(ErrorOp(t), n - 1);
      assert run.failed + Copies(t, n) == run.failed + [t] + Copies(t, n - 1);
    }
  }

  lemma {:induction false} TimelyCopies(from: real, op: Op, n: nat, rest: seq<Op>)
    requires from <= op.now && Timely(op.now, rest)
    ensures Timely(from, Copies(op, n) + rest)
    decreases n
  {
    var ops := Copies(op, n) + rest;
    if n == 0 {
      assert ops == rest;
    } else {
      TimelyCopies(op.now, op, n - 1, rest);
      assert ops[1..] == Copies(op, n - 1) + rest;
    }
  }

  /** Seven errors in a minute of twelve checks, ten of them in the last ten seconds, are a storm. */
  lemma {:induction false} StormBelowSixtyPercent() returns (ops: seq<Op>, now: real)
    ensures Timely(0.0, ops) && Perform(START, ops).last <= now
    ensures var run := Perform(START, ops);
            var errors, checks := |Recent(run.failed, now, 60.0)|, |Recent(run.evaluated, now, 60.0)| + 1;
            10 * errors <= 6 * checks && Storm(RecordOf(run, now), now)
  {
    hide Perform, Step, Storm, Clean, Recent;
    var early, late := Copies(CheckOp("", 0, 0.0), 2), Copies(CheckOp("", 0, 50.0), 9);
    var errors := Copies(ErrorOp(50.0), 7);
    now := 51.0;
    ops := early + (late + errors);
    assert errors + [] == errors;
    TimelyCopies(50.0, ErrorOp(50.0), 7, []);
    TimelyCopies(0.0, CheckOp("", 0, 50.0), 9, errors);
    TimelyCopies(0.0, CheckOp("", 0, 0.0), 2, late + errors);
    assert Clean(START, 0) by { StartIsClean(); }
    PerformAppend(START, early, late + errors);
    CleanChecks(START, 0.0, 2, 0);
    var first := Perform(START, early);
    PerformAppend(first, late, errors);
    CleanChecks(first, 50.0, 9, 2);
    var second := Perform(first, late);
    ErrorsAdd(second, 50.0, 7);
    StormComparesWindows(ops, now);
    var run := Perform(START, ops);
    assert run.evaluated == Copies(0.0, 2) + Copies(50.0, 9) && run.failed == Copies(50.0, 7);
    RecentAppend(Copies(0.0, 2), Copies(50.0, 9), now, BURST_WINDOW);
    OldIsNotRecent(Copies(0.0, 2), now, BURST_WINDOW);
    AllRecent(Copies(50.0, 9), now, BURST_WINDOW);
    AllRecent(run.evaluated, now, ERROR_WINDOW);
    AllRecent(run.failed, now, ERROR_WINDOW);
  }

  lemma {:induction false} StartIsClean()
    ensures Clean(START, 0)
  {}

  // Spam without fifteen prompts in any minute.

  /** The same prompt, asked `n` times from `first` on, every 50 seconds. */
  function SlowAsks(first: real, n: nat): seq<Op>
    decreases n
  {
    if n == 0 then [] else [CheckOp("p", 0, first)] + SlowAsks(first + 50.0, n - 1)
  }

  /** A record that has seen nothing but `n` checks, which have not counted as spam. */
  predicate Calm(run: Run, n: nat) {
    && Clean(run, n)
    && var r := RecordOf(run, run.last); "p" in r.repeats ==> r.repeats["p"].count <= n
  }

  lemma {:induction false} CalmCheck(run: Run, t: real, n: nat)
    requires Calm(run, n) && run.last <= t && n < DUP_LIMIT
    ensures Calm(Step(run, CheckOp("p", 0, t)), n + 1)
    ensures var next := Step(run, CheckOp("p", 0, t));
            next.last == t && next.asked == AskedAgain(run.asked, "p", t)
  {
    assert Recent([], t, ERROR_WINDOW) == [];
  }

  /** What `n` such checks lead to, the next one being due at `next`. */
  predicate AskedSlowly(run: Run, n: nat, next: real) {
    var times := TimesOf(run.asked, "p");
    && Calm(run, n) && run.last <= next
    && |times| == n && Streak(times) == n && (n > 0 ==> times[n - 1] == next - 50.0)
  }

  lemma {:induction false} SlowAsksAreTimely(from: real, first: real, n: nat)
    requires from <= first
    ensures Timely(from, SlowAsks(first, n))
    decreases n
  {
    if n > 0 { SlowAsksAreTimely(first, first + 50.0, n - 1); }
  }

  lemma {:induction false} SlowAsk(run: Run, n: nat, now: real)
    requires AskedSlowly(run, n, now) && n < DUP_LIMIT
    ensures AskedSlowly(Step(run, CheckOp("p", 0, now)), n + 1, now + 50.0)
  {
    hide Step, Calm, Streak;
    CalmCheck(run, now, n);
    StreakGrows(TimesOf(run.asked, "p"), now);
  }

  lemma {:induction false} SlowAsksStayCalm(run: Run, asked: nat, next: real, n: nat)
    requires AskedSlowly(run, asked, next) && asked + n <= DUP_LIMIT
    ensures AskedSlowly(Perform(run, SlowAsks(next, n)), asked + n, next + 50.0 * n as real)
    decreases n
  {
    hide Step, AskedSlowly;
    if n > 0 {
      SlowAsk(run, asked, next);
      SlowAsksStayCalm(Step(run, CheckOp("p", 0, next)), asked + 1, next + 50.0, n - 1);
      assert next + 50.0 + 50.0 * (n - 1) as real == next + 50.0 * n as real;
    }
  }

  lemma {:induction false} StartIsCalm(next: real)
    requires 0.0 <= next
    ensures AskedSlowly(START, 0, next)
  {}

  /** The sixteenth of prompts fifty seconds apart is spam. */
  lemma {:induction false} SlowRepeatsAreSpam(first: real)
    requires 0.0 <= first
    ensures var ops, now := SlowAsks(first, DUP_LIMIT), first + 750.0;
            Timely(0.0, ops) && Spam(RecordOf(Perform(START, ops), now), now, "p")
  {
    hide Perform, Streak, Spam, Calm;
    var ops, now := SlowAsks(first, DUP_LIMIT), first + 750.0;
    SlowAsksAreTimely(0.0, first, DUP_LIMIT);
    StartIsCalm(first);
    SlowAsksStayCalm(START, 0, first, DUP_LIMIT);
    SpamCountsStreaks(ops, "p", now);
    StreakGrows(TimesOf(Perform(START, ops).asked, "p"), now);
  }

  /**
   A sweep forgets errors of the last minute exactly when it collects the record and some were
   recorded; every check evaluated so far is then more than half an hour old.
   */
  lemma {:induction false} SweepForgetsErrorsIff(ops: seq<Op>, now: real)
    requires Timely(0.0, ops) && Perform(START, ops).last <= now
    ensures var run := Perform(START, ops);
            var before, after := RecordOf(run, now), RecordOf(Step(run, GcOp(now)), now);
            var collected := run.record.Some? && Collectable(before, now);
            && (|Recent(after.errors, now, ERROR_WINDOW)| < |Recent(before.errors, now, ERROR_WINDOW)| <==>
                collected && Recent(run.failed, now, ERROR_WINDOW) != [])
            && (collected ==> forall i | 0 <= i < |run.evaluated| :: now - run.evaluated[i] > 1800.0)
  {
    hide Recent, Perform, WindowKept, RepeatsKept, AskedIsPast;
    StartIsReachable();
    HistoriesStayReachable(START, ops);
    var run := Perform(START, ops);
    assert Recent([], now, ERROR_WINDOW) == [] by { OldIsNotRecent([], now, ERROR_WINDOW); }
    RecentOfKept(run.failed, RecordOf(run, run.last).errors, run.last, now, ERROR_WINDOW, ERROR_KEEP);
  }

  /** Collecting a stale record forgets errors it has recorded a moment ago. */
  lemma {:induction false} CollectionForgetsErrors()
    ensures var ops := [ErrorOp(0.0), ErrorOp(1801.0), GcOp(1802.0)];
            Timely(0.0, ops) && Perform(START, ops).record == None
  {
    var ops := [ErrorOp(0.0), ErrorOp(1801.0), GcOp(1802.0)];
    assert ops[1..] == [ErrorOp(1801.0), GcOp(1802.0)] && ops[1..][1..] == [GcOp(1802.0)];
    var first := Step(START, ErrorOp(0.0));
    var second := Step(first, ErrorOp(1801.0));
    assert second.record.value.updated == 0.0 && second.record.value.score == 0.0;
    assert Perform(Step(second, GcOp(1802.0)), []) == Step(second, GcOp(1802.0));
  }

  // ---------------------------------------------------------------- temporary bans

  predicate NoAdmin(ops: seq<Op>) {
    forall i | 0 <= i < |ops| :: !ops[i].BanOp?
  }

  /** What the check at position `i` of a history decides. */
  function DecisionAt(run: Run, ops: seq<Op>, i: nat): Decision
    requires i < |ops| && ops[i].CheckOp?
  {
    Decide(RecordOf(Perform(run, ops[..i]), ops[i].now), ops[i].now, ops[i].prompt, ops[i].live)
  }

  /** Until a ban ends, every check is refused; only new errors are recorded. */
  lemma {:induction false} BanHolds(run: Run, ops: seq<Op>)
    requires run.record.Some? && !run.record.value.hardBan && NoAdmin(ops)
    requires forall i | 0 <= i < |ops| :: ops[i].now < run.record.value.tempBanUntil
    ensures var r := run.record.value;
            var after := Perform(run, ops).record;
            after.Some? && after.value == r.(errors := after.value.errors)
    ensures Perform(run, ops).evaluated == run.evaluated
    ensures forall i | 0 <= i < |ops| && ops[i].CheckOp? ::
              DecisionAt(run, ops, i) == StillBanned(run.record.value, ops[i].now)
    decreases |ops|
  {
    hide Evaluate;
    if ops != [] {
      var next := Step(run, ops[0]);
      BanHolds(next, ops[1..]);
      forall i | 0 <= i < |ops| && ops[i].CheckOp?
        ensures DecisionAt(run, ops, i) == StillBanned(run.record.value, ops[i].now)
      {
        if i > 0 {
          assert ops[..i][1..] == ops[1..][..i - 1] && ops[i] == ops[1..][i - 1];
          assert Perform(run, ops[..i]) == Perform(next, ops[1..][..i - 1]);
        }
      }
    }
  }

  /** Neither checks nor an administrator. */
  predicate Unchecked(ops: seq<Op>) {
    forall i | 0 <= i < |ops| :: !ops[i].CheckOp? && !ops[i].BanOp?
  }

  /** The record as a check has left it, but for errors, or one created since. */
  predicate AsLeft(r: Record, checked: Record) {
    && !r.hardBan
    && ((r.score == checked.score && r.updated == checked.updated && r.tempBanUntil == checked.tempBanUntil)
        || (r.score == 0.0 && r.tempBanUntil == 0.0))
  }

  /** Errors and sweeps leave a score as it is, or start it anew. */
  lemma {:induction false} UncheckedKeeps(run: Run, ops: seq<Op>, checked: Record)
    requires Unchecked(ops) && forall now :: AsLeft(RecordOf(run, now), checked)
    ensures forall now :: AsLeft(RecordOf(Perform(run, ops), now), checked)
    decreases |ops|
  {
    hide Collectable, Last;
    if ops != [] {
      assert AsLeft(RecordOf(run, ops[0].now), checked);
      var next := Step(run, ops[0]);
      forall now ensures AsLeft(RecordOf(next, now), checked) {
        assert AsLeft(RecordOf(run, now), checked);
      }
      UncheckedKeeps(next, ops[1..], checked);
    }
  }

  lemma {:induction false} TimeMovesOn(run: Run, ops: seq<Op>)
    requires Timely(run.last, ops)
    ensures run.last <= Perform(run, ops).last
    decreases |ops|
  {
    hide Evaluate, Collectable, Last;
    if ops != [] { TimeMovesOn(Step(run, ops[0]), ops[1..]); }
  }

  lemma {:induction false} BanWearsOff(r: Record, checked: Record, now: real)
    requires AsLeft(r, checked) && ScoreBounded(checked)
    requires checked.tempBanUntil == checked.updated + TEMP_BAN <= now && 0.0 <= now
    ensures !Banned(r, now) && Decay(r, now).score < 6.5
  {}

  /**
   A check that bans, after any history: every later check within its 300 s is refused and leaves
   the record as it is; whatever errors and sweeps come between their end and the next check, that
   one starts from a score below 6.5.
   */
  lemma {:induction false} TempBanLasts(before: seq<Op>, check: Op, during: seq<Op>, quiet: seq<Op>, now: real)
    requires Timely(0.0, before) && check.CheckOp? && Perform(START, before).last <= check.now
    requires !Banned(RecordOf(Perform(START, before), check.now), check.now)
    requires !Decide(RecordOf(Perform(START, before), check.now), check.now, check.prompt, check.live).allowed
    requires NoAdmin(during) && Timely(check.now, during)
    requires forall i | 0 <= i < |during| :: during[i].now < check.now + TEMP_BAN
    requires Unchecked(quiet) && Timely(check.now + TEMP_BAN, quiet)
    requires now >= check.now + TEMP_BAN && forall i | 0 <= i < |quiet| :: quiet[i].now <= now
    ensures var banned := Step(Perform(START, before), check);
            && banned.record.Some? && banned.record.value.tempBanUntil == check.now + TEMP_BAN
            && (forall i | 0 <= i < |during| && during[i].CheckOp? ::
                  DecisionAt(banned, during, i) == StillBanned(banned.record.value, during[i].now))
    ensures var after := RecordOf(Perform(Step(Perform(START, before), check), during + quiet), now);
            !Banned(after, now) && Decay(after, now).score < 6.5
  {
    hide Recent, Last, Repeats, Signals, Perform, Reachable, Scored;
    StartIsReachable();
    HistoriesStayReachable(START, before);
    var run := Perform(START, before);
    ReachableScore(run, check.now);
    var r := RecordOf(run, check.now);
    EvaluateKeepsScoreBounded(r, check.now, check.prompt, check.live);
    EvaluatedFields(r, check.now, check.prompt, check.live);
    var banned := Step(run, check);
    BanHolds(banned, during);
    PerformAppend(banned, during, quiet);
    UncheckedKeeps(Perform(banned, during), quiet, banned.record.value);
    TimeMovesOn(START, before);
    BanWearsOff(RecordOf(Perform(banned, during + quiet), now), banned.record.value, now);
  }
}
