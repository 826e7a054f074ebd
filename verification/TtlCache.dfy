/**
 The in-process memo cache: entries expire, and the least recently used one is evicted first.
 Times are exact reals; every operation is one atomic step, as under the cache's lock.
 */
module TtlCache {
  import opened Prelude

  /** A stored value may be `None`: reading it looks like a miss. */
  datatype Entry<+V> = Entry(key: string, exp: real, val: Option<V>)

  // ---------------------------------------------------------------- the ordered dictionary

  /** The position of `key` in a dictionary listed from its oldest entry to its newest; its size if absent. */
  function IndexOf<V>(d: seq<Entry<V>>, key: string): (i: nat)
    ensures i <= |d| && (i < |d| ==> d[i].key == key)
    ensures forall j | 0 <= j < i :: d[j].key != key
  {
    if d == [] || d[0].key == key then 0
    else
      assert forall j | 1 <= j < |d| :: d[j] == d[1..][j - 1];
      1 + IndexOf(d[1..], key)
  }

  predicate Has<V>(d: seq<Entry<V>>, key: string) {
    IndexOf(d, key) < |d|
  }

  /** `pop(key, None)` */
  function Without<V>(d: seq<Entry<V>>, key: string): seq<Entry<V>> {
    var i := IndexOf(d, key);
    if i < |d| then d[..i] + d[i + 1..] else d
  }

  /** Insertion or replacement followed by `move_to_end`. */
  function AtEnd<V>(d: seq<Entry<V>>, e: Entry<V>): seq<Entry<V>> {
    Without(d, e.key) + [e]
  }

  function Newest<V>(d: seq<Entry<V>>, n: nat): seq<Entry<V>> {
    if |d| <= n then d else d[|d| - n..]
  }

  class TTLCache<V> {
    const maxsize: nat
    const ttl: real
    var d: seq<Entry<V>>

    constructor (maxsize: nat, ttl: real)
      ensures this.maxsize == maxsize && this.ttl == ttl && d == []
    {
      this.maxsize, this.ttl, d := maxsize, ttl, [];
    }

    method Get(key: string, now: real) returns (val: Option<V>)
      modifies this`d
      ensures val == Answer(old(d), key, now)
      ensures d == AfterGet(old(d), key, now)
    {
      var i := IndexOf(d, key);
      if i == |d| { return None; }
      var item := d[i];
      if item.exp < now {
        d := Without(d, key);
        return None;
      }
      d := AtEnd(d, item);
      return item.val;
    }

    method Put(key: string, val: Option<V>, ttl: Option<real>, now: real)
      modifies this`d
      ensures d == Newest(AtEnd(old(d), Entry(key, now + Effective(ttl), val)), maxsize)
    {
      hide AtEnd;
      var exp := now + Effective(ttl);
      d := AtEnd(d, Entry(key, exp, val));
      ghost var placed, k := d, 0;
      while |d| > maxsize
        invariant k <= |placed| && d == placed[k..]
        invariant k == 0 || |d| >= maxsize
        decreases |d|
      {
        TailOfTail(placed, k, 1);
        d, k := d[1..], k + 1;
      }
    }

    function Effective(ttl: Option<real>): real {
      if ttl.Some? then ttl.value else this.ttl
    }

    method Invalidate(key: string)
      modifies this`d
      ensures d == Without(old(d), key)
    {
      d := Without(d, key);
    }

    method Clear()
      modifies this`d
      ensures d == []
    {
      d := [];
    }

    /** `made`: what the factory returns; `later`: the time of the second clock read. */
    method GetOrSet(key: string, made: Option<V>, ttl: Option<real>, now: real, later: real)
      returns (v: Option<V>)
      modifies this`d
      ensures var found, kept := Answer(old(d), key, now), AfterGet(old(d), key, now);
              && v == (if found.Some? then found else made)
              && d == (if found.Some? then kept
                       else Newest(AtEnd(kept, Entry(key, later + Effective(ttl), made)), maxsize))
    {
      var found := Get(key, now);
      if found.Some? { return found; }
      v := made;
      Put(key, v, ttl, later);
    }
  }

  function Answer<V>(d: seq<Entry<V>>, key: string, now: real): Option<V> {
    var i := IndexOf(d, key);
    if i == |d| || d[i].exp < now then None else d[i].val
  }

  function AfterGet<V>(d: seq<Entry<V>>, key: string, now: real): seq<Entry<V>> {
    var i := IndexOf(d, key);
    if i == |d| then d
    else if d[i].exp < now then Without(d, key)
    else AtEnd(d, d[i])
  }

  // ---------------------------------------------------------------- histories

  datatype Op<+V> =
    | GetOp(key: string, now: real)
    | PutOp(entry: Entry<V>, now: real)
    | InvalidateOp(key: string, now: real)
    | ClearOp(now: real)

  datatype Event<+V> =
    | Put(entry: Entry<V>)
    | Hit(key: string)
    | Miss(key: string)
    | Expired(key: string)
    | Invalidated(key: string)
    | Cleared

  /** What has happened to a cache so far, newest last. */
  datatype Log<+V> = Start | Then(before: Log<V>, event: Event<V>)

  datatype Run<+V> = Run(d: seq<Entry<V>>, log: Log<V>, last: real)

  function EventOf<V>(d: seq<Entry<V>>, op: Op<V>): Event<V> {
    match op
    case GetOp(key, now) =>
      var i := IndexOf(d, key);
      if i == |d| then Miss(key) else if d[i].exp < now then Expired(key) else Hit(key)
    case PutOp(entry, _) => Put(entry)
    case InvalidateOp(key, _) => Invalidated(key)
    case ClearOp(_) => Cleared
  }

  function Step<V>(maxsize: nat, run: Run<V>, op: Op<V>): Run<V> {
    var d := match op
      case GetOp(key, now) => AfterGet(run.d, key, now)
      case PutOp(entry, _) => Newest(AtEnd(run.d, entry), maxsize)
      case InvalidateOp(key, _) => Without(run.d, key)
      case ClearOp(_) => [];
    Run(d, Then(run.log, EventOf(run.d, op)), op.now)
  }

  function Perform<V>(maxsize: nat, run: Run<V>, ops: seq<Op<V>>): Run<V>
    decreases |ops|
  {
    if ops == [] then run else Perform(maxsize, Step(maxsize, run, ops[0]), ops[1..])
  }

  predicate Timely<V>(from: real, ops: seq<Op<V>>)
    decreases |ops|
  {
    ops == [] || (from <= ops[0].now && Timely(ops[0].now, ops[1..]))
  }

  /** The latest put of `key` that has not been invalidated or cleared since. */
  function Latest<V>(log: Log<V>, key: string): Option<Entry<V>> {
    match log
    case Start => None
    case Then(before, event) =>
      match event
      case Put(entry) => if entry.key == key then Some(entry) else Latest(before, key)
      case Invalidated(k) => if k == key then None else Latest(before, key)
      case Cleared => None
      case _ => Latest(before, key)
  }

  function Touches<V>(event: Event<V>): set<string> {
    match event
    case Put(entry) => {entry.key}
    case Hit(key) => {key}
    case _ => {}
  }

  /** The other keys put or hit since the last put or hit of `key`. */
  function TouchedSince<V>(log: Log<V>, key: string): set<string> {
    match log
    case Start => {}
    case Then(before, event) =>
      if key in Touches(event) then {} else TouchedSince(before, key) + Touches(event)
  }

  /** Nothing was ever invalidated, cleared or found expired. */
  predicate NeverRemoved<V>(log: Log<V>) {
    match log
    case Start => true
    case Then(before, event) => NeverRemoved(before) && (event.Put? || event.Hit? || event.Miss?)
  }

  // ---------------------------------------------------------------- what every history keeps

  predicate Distinct<V>(d: seq<Entry<V>>) {
    forall i, j | 0 <= i < j < |d| :: d[i].key != d[j].key
  }

  ghost predicate HoldsLatest<V>(d: seq<Entry<V>>, log: Log<V>) {
    forall i | 0 <= i < |d| :: Latest(log, d[i].key) == Some(d[i])
  }

  /** Every entry was touched after all the entries before it. */
  predicate InOrder<V>(d: seq<Entry<V>>, log: Log<V>) {
    forall i, j | 0 <= i < j < |d| :: d[j].key in TouchedSince(log, d[i].key)
  }

  predicate Evicted<V>(run: Run<V>, key: string) {
    && !Has(run.d, key)
    && Latest(run.log, key).Some? && Latest(run.log, key).value.exp >= run.last
  }

  ghost predicate EvictedByOthers<V>(maxsize: nat, run: Run<V>) {
    forall key | Evicted(run, key) :: |TouchedSince(run.log, key)| >= maxsize
  }

  ghost predicate Reachable<V>(maxsize: nat, run: Run<V>) {
    && |run.d| <= maxsize
    && Distinct(run.d)
    && HoldsLatest(run.d, run.log)
    && InOrder(run.d, run.log)
    && EvictedByOthers(maxsize, run)
  }

  lemma {:induction false} IndexIsUnique<V>(d: seq<Entry<V>>, i: nat)
    requires Distinct(d) && i < |d|
    ensures IndexOf(d, d[i].key) == i
  {}

  lemma {:induction false} WithoutAt<V>(d: seq<Entry<V>>, key: string)
    ensures var i, r := IndexOf(d, key), Without(d, key);
            && |r| == (if i < |d| then |d| - 1 else |d|)
            && (forall j | 0 <= j < |r| :: r[j] == d[if j < i then j else j + 1])
  {}

  lemma {:induction false} WithoutHas<V>(d: seq<Entry<V>>, key: string, k: string)
    requires Distinct(d)
    ensures Has(Without(d, key), k) <==> k != key && Has(d, k)
  {
    hide Without;
    WithoutAt(d, key);
    var i, r := IndexOf(d, key), Without(d, key);
    if k != key && Has(d, k) {
      var j := IndexOf(d, k);
      assert r[if j < i then j else j - 1].key == k;
    }
  }

  lemma {:induction false} WithoutKeepsOrder<V>(d: seq<Entry<V>>, key: string, log: Log<V>)
    requires Distinct(d) && InOrder(d, log) && HoldsLatest(d, log)
    ensures var r := Without(d, key); Distinct(r) && InOrder(r, log) && HoldsLatest(r, log) && |r| <= |d|
  {
    hide Without, IndexOf;
    WithoutAt(d, key);
  }

  lemma {:induction false} MovedToEnd<V>(d: seq<Entry<V>>, e: Entry<V>, log: Log<V>, event: Event<V>)
    requires Distinct(d) && InOrder(d, log) && HoldsLatest(d, log)
    requires event == Put(e) || (event == Hit(e.key) && Latest(log, e.key) == Some(e))
    ensures var r, next := AtEnd(d, e), Then(log, event);
            Distinct(r) && InOrder(r, next) && HoldsLatest(r, next) && |r| <= |d| + 1
  {
    hide Without, IndexOf;
    var rest := Without(d, e.key);
    WithoutKeepsOrder(d, e.key, log);
    WithoutAt(d, e.key);
    forall i | 0 <= i < |rest| ensures rest[i].key != e.key {
      if IndexOf(d, e.key) < |d| {
        var j := if i < IndexOf(d, e.key) then i else i + 1;
        assert rest[i] == d[j] && d[IndexOf(d, e.key)].key == e.key;
      } else {
        assert rest[i] == d[i];
      }
    }
  }

  lemma {:induction false} SubsetSize<T>(a: set<T>, b: set<T>)
    requires a <= b
    ensures |a| <= |b|
  {
    assert b == a + (b - a);
  }

  lemma {:induction false} DistinctSize<V>(d: seq<Entry<V>>, keys: set<string>)
    requires Distinct(d) && forall i | 0 <= i < |d| :: d[i].key in keys
    ensures |d| <= |keys|
  {
    if d != [] {
      forall i | 0 <= i < |d[1..]| ensures d[1..][i].key in keys - {d[0].key} {
        assert d[1..][i] == d[i + 1];
      }
      DistinctSize(d[1..], keys - {d[0].key});
    }
  }

  /** What was evicted before stays evicted by at least as many others. */
  lemma {:induction false} EvictedBefore<V>(maxsize: nat, run: Run<V>, next: Run<V>, event: Event<V>, key: string)
    requires EvictedByOthers(maxsize, run) && run.last <= next.last && next.log == Then(run.log, event)
    requires Evicted(next, key) && !Has(run.d, key)
    requires Latest(next.log, key) == Latest(run.log, key) && key !in Touches(event)
    ensures |TouchedSince(next.log, key)| >= maxsize
  {
    hide Has;
    assert Evicted(run, key);
    SubsetSize(TouchedSince(run.log, key), TouchedSince(next.log, key));
  }

  lemma {:induction false} GetKeepsReachable<V>(maxsize: nat, run: Run<V>, key: string, now: real)
    requires Reachable(maxsize, run) && run.last <= now
    ensures Reachable(maxsize, Step(maxsize, run, GetOp(key, now)))
  {
    hide AtEnd, Without;
    var next, event := Step(maxsize, run, GetOp(key, now)), EventOf(run.d, GetOp(key, now));
    var i := IndexOf(run.d, key);
    if event.Expired? {
      WithoutKeepsOrder(run.d, key, run.log);
    } else if event.Hit? {
      MovedToEnd(run.d, run.d[i], run.log, event);
      AtEndHas(run.d, run.d[i], key);
    }
    forall k | Evicted(next, k) ensures |TouchedSince(next.log, k)| >= maxsize {
      if event.Expired? { WithoutHas(run.d, key, k); }
      if event.Hit? { AtEndHas(run.d, run.d[i], k); }
      EvictedBefore(maxsize, run, next, event, k);
    }
  }

  lemma {:induction false} AtEndHas<V>(d: seq<Entry<V>>, e: Entry<V>, k: string)
    requires Distinct(d)
    ensures Has(AtEnd(d, e), k) <==> k == e.key || Has(d, k)
    ensures |AtEnd(d, e)| <= |d| + 1 && (Has(d, e.key) ==> |AtEnd(d, e)| == |d|)
  {
    hide Without;
    WithoutAt(d, e.key);
    WithoutHas(d, e.key, k);
    var rest, r := Without(d, e.key), AtEnd(d, e);
    assert r[|rest|].key == e.key;
    if Has(rest, k) { assert r[IndexOf(rest, k)].key == k; }
    if Has(r, k) && k != e.key { assert r[IndexOf(r, k)] == rest[IndexOf(r, k)]; }
  }

  lemma {:induction false} PutKeepsReachable<V>(maxsize: nat, run: Run<V>, entry: Entry<V>, now: real)
    requires Reachable(maxsize, run) && run.last <= now
    ensures Reachable(maxsize, Step(maxsize, run, PutOp(entry, now)))
  {
    hide AtEnd, IndexOf;
    var next := Step(maxsize, run, PutOp(entry, now));
    var placed := AtEnd(run.d, entry);
    MovedToEnd(run.d, entry, run.log, Put(entry));
    forall k | Evicted(next, k) ensures |TouchedSince(next.log, k)| >= maxsize {
      AtEndHas(run.d, entry, k);
      if Has(placed, k) {
        PushedOut(maxsize, placed, next.log, k);
      } else {
        EvictedBefore(maxsize, run, next, Put(entry), k);
      }
    }
  }

  /** The one entry that a put pushes out is the oldest: everything kept was touched after it. */
  lemma {:induction false} PushedOut<V>(maxsize: nat, placed: seq<Entry<V>>, log: Log<V>, key: string)
    requires Distinct(placed) && InOrder(placed, log) && |placed| <= maxsize + 1
    requires Has(placed, key) && !Has(Newest(placed, maxsize), key)
    ensures |TouchedSince(log, key)| >= maxsize
  {
    hide TouchedSince;
    var i := IndexOf(placed, key);
    var kept := Newest(placed, maxsize);
    assert forall j | 0 <= j < |kept| :: kept[j] == placed[j + 1];
    assert forall j | 0 < j < |placed| :: placed[j] == kept[j - 1];
    assert i == 0;
    DistinctSize(kept, TouchedSince(log, key));
  }

  lemma {:induction false} StepKeepsReachable<V>(maxsize: nat, run: Run<V>, op: Op<V>)
    requires Reachable(maxsize, run) && run.last <= op.now
    ensures Reachable(maxsize, Step(maxsize, run, op))
  {
    hide Without;
    match op {
      case GetOp(key, now) => GetKeepsReachable(maxsize, run, key, now);
      case PutOp(entry, now) => PutKeepsReachable(maxsize, run, entry, now);
      case InvalidateOp(key, now) =>
        var next := Step(maxsize, run, op);
        WithoutKeepsOrder(run.d, key, run.log);
        assert HoldsLatest(next.d, next.log) by {
          WithoutHas(run.d, key, key);
        }
        forall k | Evicted(next, k) ensures |TouchedSince(next.log, k)| >= maxsize {
          WithoutHas(run.d, key, k);
          EvictedBefore(maxsize, run, next, Invalidated(key), k);
        }
      case ClearOp(_) =>
    }
  }

  /** Every history from an empty cache keeps its entries distinct, latest and in order of use. */
  lemma {:induction false} HistoriesStayReachable<V>(maxsize: nat, run: Run<V>, ops: seq<Op<V>>)
    requires Reachable(maxsize, run) && Timely(run.last, ops)
    ensures Reachable(maxsize, Perform(maxsize, run, ops))
    decreases |ops|
  {
    hide Reachable;
    if ops != [] {
      StepKeepsReachable(maxsize, run, ops[0]);
      HistoriesStayReachable(maxsize, Step(maxsize, run, ops[0]), ops[1..]);
    }
  }

  function From<V>(start: real): Run<V> {
    Run([], Start, start)
  }

  /**
   After any history, the cache holds at most `maxsize` entries; a hit is the latest put that is
   unexpired and not removed since; and such a put is missed only if at least `maxsize` other keys
   were put or hit since its key last was.
   */
  lemma {:induction false} LookupsAreSound<V>(maxsize: nat, start: real, ops: seq<Op<V>>, key: string, now: real)
    requires Timely(start, ops) && Perform(maxsize, From(start), ops).last <= now
    ensures var run := Perform(maxsize, From(start), ops);
            var found, latest := Answer(run.d, key, now), Latest(run.log, key);
            && |run.d| <= maxsize
            && (found.Some? ==> latest.Some? && latest.value.exp >= now && found == latest.value.val)
            && (found.None? && latest.Some? && latest.value.exp >= now && latest.value.val.Some? ==>
                  |TouchedSince(run.log, key)| >= maxsize)
  {
    HistoriesStayReachable(maxsize, From(start), ops);
    var run := Perform(maxsize, From(start), ops);
    var latest := Latest(run.log, key);
    if Answer(run.d, key, now).None? && latest.Some? && latest.value.exp >= now && latest.value.val.Some? {
      assert Evicted(run, key);
    }
  }

  // ---------------------------------------------------------------- exactly least recently used

  /** Whatever was touched since an entry was is still there, after it. */
  ghost predicate NewerStay<V>(d: seq<Entry<V>>, log: Log<V>) {
    forall i, k | 0 <= i < |d| && k in TouchedSince(log, d[i].key) :: i < IndexOf(d, k) < |d|
  }

  lemma {:induction false} AtEndPosition<V>(d: seq<Entry<V>>, e: Entry<V>, k: string)
    requires Distinct(d) && Distinct(AtEnd(d, e)) && k != e.key && Has(d, k)
    ensures IndexOf(AtEnd(d, e), k) == if IndexOf(d, k) < IndexOf(d, e.key) then IndexOf(d, k) else IndexOf(d, k) - 1
    ensures IndexOf(d, k) != IndexOf(d, e.key)
  {
    hide Without;
    WithoutAt(d, e.key);
    var r, j := AtEnd(d, e), IndexOf(d, k);
    var p := if j < IndexOf(d, e.key) then j else j - 1;
    assert r[p] == Without(d, e.key)[p] == d[j];
    IndexIsUnique(r, p);
  }

  /** Of two entries that are not moved, the one in front stays in front; the moved one is behind all. */
  lemma {:induction false} AtEndKeepsBehind<V>(d: seq<Entry<V>>, e: Entry<V>, x: string, k: string)
    requires Distinct(d) && Distinct(AtEnd(d, e)) && x != e.key && Has(d, x)
    requires k == e.key || IndexOf(d, x) < IndexOf(d, k) < |d|
    ensures IndexOf(AtEnd(d, e), x) < IndexOf(AtEnd(d, e), k) < |AtEnd(d, e)|
  {
    hide AtEnd;
    AtEndHas(d, e, x);
    AtEndPosition(d, e, x);
    if k == e.key {
      LastIsEnd(d, e);
    } else {
      AtEndHas(d, e, k);
      AtEndPosition(d, e, k);
    }
  }

  lemma {:induction false} AtEndNewerStay<V>(d: seq<Entry<V>>, e: Entry<V>, log: Log<V>, event: Event<V>)
    requires Distinct(d) && Distinct(AtEnd(d, e)) && NewerStay(d, log) && Touches(event) == {e.key}
    ensures NewerStay(AtEnd(d, e), Then(log, event))
  {
    hide AtEnd, Distinct;
    var r, next := AtEnd(d, e), Then(log, event);
    forall i, k | 0 <= i < |r| && k in TouchedSince(next, r[i].key) ensures i < IndexOf(r, k) < |r| {
      var x := r[i].key;
      assert x != e.key;
      IndexIsUnique(r, i);
      AtEndHas(d, e, x);
      if k != e.key { assert k in TouchedSince(log, d[IndexOf(d, x)].key); }
      AtEndKeepsBehind(d, e, x, k);
    }
  }

  lemma {:induction false} LastIsEnd<V>(d: seq<Entry<V>>, e: Entry<V>)
    requires Distinct(AtEnd(d, e))
    ensures |AtEnd(d, e)| > 0 && IndexOf(AtEnd(d, e), e.key) == |AtEnd(d, e)| - 1
    ensures AtEnd(d, e)[|AtEnd(d, e)| - 1] == e
  {
    IndexIsUnique(AtEnd(d, e), |AtEnd(d, e)| - 1);
  }

  lemma {:induction false} SuffixNewerStay<V>(d: seq<Entry<V>>, n: nat, log: Log<V>)
    requires Distinct(d) && NewerStay(d, log)
    ensures NewerStay(Newest(d, n), log)
  {
    var r := Newest(d, n);
    var o := |d| - |r|;
    forall i, k | 0 <= i < |r| && k in TouchedSince(log, r[i].key) ensures i < IndexOf(r, k) < |r| {
      assert r[i] == d[o + i];
      SuffixIndex(d, o, k);
    }
  }

  lemma {:induction false} SuffixIndex<V>(d: seq<Entry<V>>, o: nat, k: string)
    requires Distinct(d) && o <= IndexOf(d, k) < |d|
    ensures IndexOf(d[o..], k) == IndexOf(d, k) - o
  {
    hide IndexOf;
    var r, j := d[o..], IndexOf(d, k);
    assert r[j - o] == d[j];
    IndexIsUnique(r, j - o);
  }

  lemma {:induction false} StepKeepsNewer<V>(maxsize: nat, run: Run<V>, op: Op<V>)
    requires Reachable(maxsize, run) && run.last <= op.now
    requires NeverRemoved(run.log) ==> NewerStay(run.d, run.log)
    ensures var next := Step(maxsize, run, op); NeverRemoved(next.log) ==> NewerStay(next.d, next.log)
  {
    hide AtEnd, Without, NewerStay;
    var next := Step(maxsize, run, op);
    if NeverRemoved(next.log) {
      if next.log.event.Miss? {
        SameSince(run.d, run.log, next.log.event);
      } else {
        var e := if op.PutOp? then op.entry else run.d[IndexOf(run.d, op.key)];
        MovedToEnd(run.d, e, run.log, next.log.event);
        AtEndNewerStay(run.d, e, run.log, next.log.event);
        if op.PutOp? { SuffixNewerStay(AtEnd(run.d, e), maxsize, next.log); }
      }
    }
  }

  lemma {:induction false} SameSince<V>(d: seq<Entry<V>>, log: Log<V>, event: Event<V>)
    requires NewerStay(d, log) && event.Miss?
    ensures NewerStay(d, Then(log, event))
  {}

  lemma {:induction false} HistoriesKeepNewer<V>(maxsize: nat, run: Run<V>, ops: seq<Op<V>>)
    requires Reachable(maxsize, run) && Timely(run.last, ops)
    requires NeverRemoved(run.log) ==> NewerStay(run.d, run.log)
    ensures var end := Perform(maxsize, run, ops); NeverRemoved(end.log) ==> NewerStay(end.d, end.log)
    decreases |ops|
  {
    hide Reachable, NewerStay, NeverRemoved;
    if ops != [] {
      StepKeepsReachable(maxsize, run, ops[0]);
      StepKeepsNewer(maxsize, run, ops[0]);
      HistoriesKeepNewer(maxsize, Step(maxsize, run, ops[0]), ops[1..]);
    }
  }

  lemma {:induction false} AfterSize<V>(d: seq<Entry<V>>, i: nat, keys: set<string>)
    requires i < |d| && forall k | k in keys :: i < IndexOf(d, k) < |d|
    ensures |keys| <= |d| - 1 - i
    decreases |d| - i
  {
    if i + 1 < |d| {
      AfterSize(d, i + 1, keys - {d[i + 1].key});
      SubsetSize(keys, keys - {d[i + 1].key} + {d[i + 1].key});
    } else {
      assert keys == {};
    }
  }

  /**
   With nothing invalidated or found expired, an unexpired put is found if and only if fewer than
   `maxsize` other keys were used since.
   */
  lemma {:induction false} EvictsExactlyLeastRecent<V>(
    maxsize: nat, start: real, ops: seq<Op<V>>, key: string, now: real)
    requires Timely(start, ops) && Perform(maxsize, From(start), ops).last <= now
    requires NeverRemoved(Perform(maxsize, From(start), ops).log)
    requires Latest(Perform(maxsize, From(start), ops).log, key).Some?
    requires Latest(Perform(maxsize, From(start), ops).log, key).value.exp >= now
    ensures var run := Perform(maxsize, From(start), ops);
            Answer(run.d, key, now).Some? <==>
            Latest(run.log, key).value.val.Some? && |TouchedSince(run.log, key)| < maxsize
  {
    hide Perform;
    LookupsAreSound(maxsize, start, ops, key, now);
    HistoriesStayReachable(maxsize, From(start), ops);
    HistoriesKeepNewer(maxsize, From(start), ops);
    var run := Perform(maxsize, From(start), ops);
    if Has(run.d, key) {
      AfterSize(run.d, IndexOf(run.d, key), TouchedSince(run.log, key));
    }
  }
}
