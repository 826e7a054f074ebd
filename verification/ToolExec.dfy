/**
 Parallel tool execution: one task per call under a semaphore of eight, joined in the order
 they finish, each result stored in its call's slot.
 */
module ToolExec {
  import opened JsonValue
  import opened Messages
  import opened Prelude

  const MAX_TOOL_WORKERS := 8

  /** A handler: what it returns to the call at a position of its batch, given the arguments. */
  type Handler = (nat, string) -> ToolOutput
  type Handlers = map<string, Handler>

  class ToolRegistry {
    var handlers: Handlers

    constructor ()
      ensures handlers == map[]
    {
      handlers := map[];
    }

    method Register(name: string, handler: Handler)
      modifies this
      ensures handlers == old(handlers)[name := handler]
    {
      handlers := handlers[name := handler];
    }
  }

  function ErrorValue(message: string): Value {
    Obj([Member("error", Str(message))])
  }

  function ErrorOutput(message: string): ToolOutput {
    ToolOutput(ErrorValue(message), true, Some(ErrorValue(message)))
  }

  function FromOutput(call: ToolCall, output: ToolOutput): ToolResult {
    ToolResult(call.id, call.name, output.content, output.isError, output.structured)
  }

  /** The result that call `k` of a batch is owed: its handler's output, or an error when it has none. */
  function Expected(call: ToolCall, k: nat, reg: Handlers): ToolResult {
    FromOutput(
      call,
      if call.name in reg then reg[call.name](k, call.arguments)
      else ErrorOutput("no handler registered for tool '" + call.name + "'"))
  }

  function ExpectedAll(calls: seq<ToolCall>, reg: Handlers): (r: seq<ToolResult>)
    ensures |r| == |calls|
  {
    seq(|calls|, i requires 0 <= i < |calls| => Expected(calls[i], i, reg))
  }

  // ---------------------------------------------------------------- filling the slots

  type Slots = seq<Option<ToolResult>>

  /** A batch: its calls, the handlers, and which handlers panic. */
  datatype Batch = Batch(calls: seq<ToolCall>, reg: Handlers, panics: seq<bool>)

  predicate ValidBatch(b: Batch) {
    |b.panics| == |b.calls|
  }

  function PanicResult(): ToolResult {
    ToolResult("", "", ErrorValue("task panicked"), true, None)
  }

  /** The result that call `k` of a batch is promised: an error when its handler panics, else its own. */
  function Owed(b: Batch, k: nat): ToolResult
    requires ValidBatch(b) && k < |b.calls|
  {
    if b.panics[k] then PanicResult() else Expected(b.calls[k], k, b.reg)
  }

  /** Every slot holds what its call is promised. */
  predicate Contained(b: Batch, slots: Slots) {
    ValidBatch(b) && |slots| == |b.calls| && forall k | 0 <= k < |slots| :: slots[k] == Some(Owed(b, k))
  }

  function FirstEmpty(slots: Slots): (r: Option<nat>)
    ensures r.Some? ==> r.value < |slots|
  {
    if slots == [] then None
    else if slots[0].None? then Some(0)
    else match FirstEmpty(slots[1..]) case None => None case Some(k) => Some(k + 1)
  }

  /** Joining task `i`: its own slot, or, when it panicked, the first empty one. */
  function Join(b: Batch, slots: Slots, i: nat): (r: Slots)
    requires ValidBatch(b) && |slots| == |b.calls| && i < |b.calls|
    ensures |r| == |slots|
  {
    if !b.panics[i] then slots[i := Some(Expected(b.calls[i], i, b.reg))]
    else match FirstEmpty(slots) case None => slots case Some(k) => slots[k := Some(PanicResult())]
  }

  predicate Within(order: seq<nat>, n: nat) {
    forall t | 0 <= t < |order| :: order[t] < n
  }

  function JoinAll(b: Batch, slots: Slots, order: seq<nat>): (r: Slots)
    requires ValidBatch(b) && |slots| == |b.calls| && Within(order, |b.calls|)
    ensures |r| == |slots|
    decreases |order|
  {
    if order == [] then slots else JoinAll(b, Join(b, slots, order[0]), order[1..])
  }

  function EmptySlots(n: nat): Slots {
    seq(n, _ => None)
  }

  predicate NoRepeats(order: seq<nat>) {
    forall i, j | 0 <= i < j < |order| :: order[i] != order[j]
  }

  predicate IsPermutation(order: seq<nat>, n: nat) {
    && |order| == n
    && Within(order, n)
    && NoRepeats(order)
    && (forall k: nat | k < n :: k in order)
  }

  predicate AllFilled(slots: Slots) {
    forall k | 0 <= k < |slots| :: slots[k].Some?
  }

  /** The whole batch; `order` is the order in which the tasks finish. Aborts when a slot stays empty. */
  method ExecuteToolsParallel(b: Batch, order: seq<nat>) returns (aborted: bool, results: seq<ToolResult>)
    requires ValidBatch(b) && IsPermutation(order, |b.calls|)
    ensures aborted <==> !AllFilled(JoinAll(b, EmptySlots(|b.calls|), order))
    ensures |results| == if aborted then 0 else |b.calls|
    ensures forall k | 0 <= k < |results| :: Some(results[k]) == JoinAll(b, EmptySlots(|b.calls|), order)[k]
  {
    hide JoinAll, FirstEmpty;
    var n := |b.calls|;
    var slots := new Option<ToolResult>[n](_ => None);
    assert slots[..] == EmptySlots(n);
    for t := 0 to n
      invariant JoinAll(b, slots[..], order[t..]) == JoinAll(b, EmptySlots(n), order)
    {
      var i := order[t];
      ghost var before := slots[..];
      assert order[t..][1..] == order[t + 1..];
      JoinAllStep(b, before, order[t..]);
      if !b.panics[i] {
        slots[i] := Some(Expected(b.calls[i], i, b.reg));
      } else {
        var k := 0;
        while k < n && slots[k].Some?
          invariant k <= n
          invariant forall j | 0 <= j < k :: slots[j].Some?
        {
          k := k + 1;
        }
        FirstEmptyIs(slots[..], k);
        if k < n { slots[k] := Some(PanicResult()); }
      }
      assert slots[..] == Join(b, before, i);
    }
    assert order[n..] == [];
    JoinAllDone(b, slots[..]);
    results := [];
    for k := 0 to n
      invariant |results| == k
      invariant forall j | 0 <= j < k :: slots[j] == Some(results[j])
    {
      if slots[k].None? { return true, []; }
      results := results + [slots[k].value];
    }
    return false, results;
  }

  lemma {:induction false} JoinAllStep(b: Batch, slots: Slots, order: seq<nat>)
    requires ValidBatch(b) && |slots| == |b.calls| && Within(order, |b.calls|) && order != []
    ensures JoinAll(b, slots, order) == JoinAll(b, Join(b, slots, order[0]), order[1..])
  {}

  lemma {:induction false} JoinAllDone(b: Batch, slots: Slots)
    requires ValidBatch(b) && |slots| == |b.calls|
    ensures JoinAll(b, slots, []) == slots
  {}

  lemma {:induction false} FirstEmptyIs(slots: Slots, k: nat)
    requires k <= |slots| && forall j | 0 <= j < k :: slots[j].Some?
    requires k < |slots| ==> slots[k].None?
    ensures FirstEmpty(slots) == if k < |slots| then Some(k) else None
  {
    if k > 0 { FirstEmptyIs(slots[1..], k - 1); }
  }

  // ---------------------------------------------------------------- without panics

  lemma {:induction false} JoinsFillOwnSlots(b: Batch, slots: Slots, order: seq<nat>, k: nat)
    requires ValidBatch(b) && |slots| == |b.calls| && Within(order, |b.calls|)
    requires forall t | 0 <= t < |order| :: !b.panics[order[t]]
    requires k < |b.calls|
    ensures JoinAll(b, slots, order)[k] == if k in order then Some(Expected(b.calls[k], k, b.reg)) else slots[k]
    decreases |order|
  {
    if order != [] {
      JoinsFillOwnSlots(b, Join(b, slots, order[0]), order[1..], k);
      assert order == [order[0]] + order[1..];
    }
  }

  /** When no handler panics, every order of finishing gives each call its own result, in call order. */
  lemma {:induction false} ResultsAreInCallOrder(b: Batch, order: seq<nat>)
    requires ValidBatch(b) && IsPermutation(order, |b.calls|)
    requires forall i | 0 <= i < |b.calls| :: !b.panics[i]
    ensures var slots := JoinAll(b, EmptySlots(|b.calls|), order);
            AllFilled(slots) && forall k | 0 <= k < |b.calls| :: slots[k] == Some(ExpectedAll(b.calls, b.reg)[k])
  {
    forall k | 0 <= k < |b.calls|
      ensures JoinAll(b, EmptySlots(|b.calls|), order)[k] == Some(Expected(b.calls[k], k, b.reg))
    {
      JoinsFillOwnSlots(b, EmptySlots(|b.calls|), order, k);
    }
  }

  // ---------------------------------------------------------------- with panics

  /** The panicking calls come before all others. */
  predicate PanicsFirst(panics: seq<bool>) {
    forall i, j | 0 <= i < j < |panics| :: panics[j] ==> panics[i]
  }

  function Leading(order: seq<nat>, m: nat): set<nat> {
    set i | i in order && i < m
  }

  lemma {:induction false} LeadingRest(order: seq<nat>, m: nat)
    requires order != [] && order[0] !in order[1..]
    ensures |Leading(order, m)| == |Leading(order[1..], m)| + if order[0] < m then 1 else 0
  {
    assert order == [order[0]] + order[1..];
    var rest := Leading(order[1..], m);
    if order[0] < m {
      assert Leading(order, m) == rest + {order[0]};
    } else {
      assert Leading(order, m) == rest;
    }
  }

  lemma {:induction false} LeadingOfPermutation(order: seq<nat>, n: nat, m: nat)
    requires IsPermutation(order, n) && m <= n
    ensures |Leading(order, m)| == m
  {
    assert Leading(order, m) == Below(m);
  }

  /** The first `m` slots are filled up to `q`; each of the others unless its task is still to be joined. */
  predicate Filled(slots: Slots, m: nat, q: nat, order: seq<nat>) {
    && (forall k | 0 <= k < m && k < |slots| :: slots[k].Some? <==> k < q)
    && (forall k | m <= k < |slots| :: slots[k].Some? <==> k !in order)
  }

  /** Slots while a batch whose first `m` calls panic is being joined, `q` panics so far. */
  predicate Filling(b: Batch, m: nat, q: nat, slots: Slots, order: seq<nat>) {
    && ValidBatch(b) && |slots| == |b.calls| && m <= |b.calls| && Within(order, |b.calls|)
    && (forall k | 0 <= k < |b.calls| :: b.panics[k] <==> k < m)
    && NoRepeats(order)
    && q + |Leading(order, m)| == m
    && Filled(slots, m, q, order)
  }

  lemma {:induction false} NoRepeatsTail(order: seq<nat>)
    requires order != [] && NoRepeats(order)
    ensures NoRepeats(order[1..]) && order[0] !in order[1..]
  {}

  lemma {:induction false} PanicFills(slots: Slots, m: nat, q: nat, order: seq<nat>, x: ToolResult)
    requires order != [] && order[0] < m && q < m <= |slots| && Filled(slots, m, q, order)
    ensures Filled(slots[q := Some(x)], m, q + 1, order[1..])
    ensures FirstEmpty(slots) == Some(q)
  {
    assert order == [order[0]] + order[1..];
    FirstEmptyIs(slots, q);
  }

  lemma {:induction false} ResultFills(slots: Slots, m: nat, q: nat, order: seq<nat>, x: ToolResult)
    requires order != [] && m <= order[0] < |slots| && order[0] !in order[1..] && Filled(slots, m, q, order)
    ensures Filled(slots[order[0] := Some(x)], m, q, order[1..])
  {
    assert order == [order[0]] + order[1..];
  }

  /** Every filled slot holds what its call is promised. */
  predicate Own(b: Batch, slots: Slots) {
    && ValidBatch(b) && |slots| == |b.calls|
    && forall k | 0 <= k < |slots| && slots[k].Some? :: slots[k].value == Owed(b, k)
  }

  lemma {:induction false} OwnGrows(b: Batch, slots: Slots, k: nat)
    requires Own(b, slots) && k < |slots|
    ensures Own(b, slots[k := Some(Owed(b, k))])
  {}

  /** Joining one task of such a batch. */
  lemma {:induction false} FillingGoesOn(b: Batch, m: nat, q: nat, slots: Slots, order: seq<nat>)
    requires Filling(b, m, q, slots, order) && Own(b, slots) && order != []
    ensures var next := Join(b, slots, order[0]);
            Filling(b, m, if b.panics[order[0]] then q + 1 else q, next, order[1..]) && Own(b, next)
  {
    hide FirstEmpty, Leading, NoRepeats, Filled, Own, Expected;
    var i := order[0];
    NoRepeatsTail(order);
    LeadingRest(order, m);
    if b.panics[i] {
      PanicFills(slots, m, q, order, PanicResult());
      OwnGrows(b, slots, q);
    } else {
      ResultFills(slots, m, q, order, Expected(b.calls[i], i, b.reg));
      OwnGrows(b, slots, i);
    }
  }

  lemma {:induction false} AllFilling(b: Batch, m: nat, q: nat, slots: Slots)
    requires Filling(b, m, q, slots, []) && Own(b, slots)
    ensures Contained(b, slots)
  {
    assert Leading([], m) == {};
  }

  /** When the panicking calls lead, joining in any order fills every slot with what its call is promised. */
  lemma {:induction false} LeadingPanicsFill(b: Batch, m: nat, q: nat, slots: Slots, order: seq<nat>)
    requires Filling(b, m, q, slots, order) && Own(b, slots)
    ensures Contained(b, JoinAll(b, slots, order))
    decreases |order|
  {
    hide Filled, NoRepeats, Own, Contained, Join, JoinAll;
    if order == [] {
      AllFilling(b, m, q, slots);
      JoinAllDone(b, slots);
    } else {
      FillingGoesOn(b, m, q, slots, order);
      JoinAllStep(b, slots, order);
      LeadingPanicsFill(b, m, if b.panics[order[0]] then q + 1 else q, Join(b, slots, order[0]), order[1..]);
    }
  }

  /** The indices of the calls that panic, or of those that do not, in order. */
  function Indices(panics: seq<bool>, n: nat, which: bool): (r: seq<nat>)
    requires n <= |panics|
    ensures Within(r, n) && forall t | 0 <= t < |r| :: panics[r[t]] == which
    ensures Increasing(r)
  {
    if n == 0 then []
    else if panics[n - 1] == which then Indices(panics, n - 1, which) + [n - 1]
    else Indices(panics, n - 1, which)
  }

  lemma {:induction false} IndicesHave(panics: seq<bool>, n: nat, i: nat)
    requires i < n <= |panics|
    ensures i in Indices(panics, n, panics[i])
  {
    hide Within, Increasing;
    if i < n - 1 { IndicesHave(panics, n - 1, i); }
  }

  predicate Increasing(r: seq<nat>) {
    forall i, j | 0 <= i < j < |r| :: r[i] < r[j]
  }

  lemma {:induction false} IndicesCount(panics: seq<bool>, n: nat)
    requires n <= |panics|
    ensures |Indices(panics, n, true)| + |Indices(panics, n, false)| == n
  {
    if n > 0 {
      hide Within, Increasing;
      IndicesCount(panics, n - 1);
    }
  }

  /** Joining panicked tasks only fills the next slots from the left. */
  lemma {:induction false} PanicsFillFromLeft(b: Batch, slots: Slots, order: seq<nat>, q: nat)
    requires ValidBatch(b) && |slots| == |b.calls| && Within(order, |b.calls|)
    requires forall t | 0 <= t < |order| :: b.panics[order[t]]
    requires q + |order| <= |slots|
    requires forall k | 0 <= k < |slots| :: slots[k].Some? <==> k < q
    ensures forall k | 0 <= k < |slots| :: JoinAll(b, slots, order)[k].Some? <==> k < q + |order|
    decreases |order|
  {
    if order != [] {
      FirstEmptyIs(slots, q);
      PanicsFillFromLeft(b, Join(b, slots, order[0]), order[1..], q + 1);
    }
  }

  lemma {:induction false} JoinAllAppend(b: Batch, slots: Slots, first: seq<nat>, second: seq<nat>)
    requires ValidBatch(b) && |slots| == |b.calls| && Within(first, |b.calls|) && Within(second, |b.calls|)
    ensures Within(first + second, |b.calls|)
    ensures JoinAll(b, slots, first + second) == JoinAll(b, JoinAll(b, slots, first), second)
    decreases |first|
  {
    if first == [] {
      assert first + second == second;
    } else {
      assert (first + second)[1..] == first[1..] + second;
      JoinAllAppend(b, Join(b, slots, first[0]), first[1..], second);
    }
  }

  lemma {:induction false} GrowsWithPosition(r: seq<nat>, t: nat)
    requires t < |r| && Increasing(r)
    ensures r[t] >= t
  {
    if t > 0 { GrowsWithPosition(r, t - 1); }
  }

  /** Past a missing number, an increasing sequence runs ahead of its positions. */
  lemma {:induction false} GapPushesOn(r: seq<nat>, missing: nat, t: nat)
    requires t < |r| && Increasing(r) && missing !in r && r[t] > missing
    ensures r[t] > t
  {
    if t > 0 {
      if r[t - 1] > missing {
        GapPushesOn(r, missing, t - 1);
      } else {
        GrowsWithPosition(r, t - 1);
        assert r[t - 1] in r;
      }
    }
  }

  /** If the panicking calls do not lead, one of them lies beyond the number of panics. */
  lemma {:induction false} LatePanic(panics: seq<bool>) returns (p: nat)
    requires !PanicsFirst(panics)
    ensures p < |panics| && panics[p] && p >= |Indices(panics, |panics|, true)|
  {
    var i, j :| 0 <= i < j < |panics| && panics[j] && !panics[i];
    var r := Indices(panics, |panics|, true);
    IndicesHave(panics, |panics|, j);
    var k :| 0 <= k < |r| && r[k] == j;
    p := r[|r| - 1];
    GapPushesOn(r, i, |r| - 1);
  }

  /** The order in which all panicking tasks finish before all others. */
  function PanicsThenRest(panics: seq<bool>): seq<nat> {
    Indices(panics, |panics|, true) + Indices(panics, |panics|, false)
  }

  lemma {:induction false} PanicsThenRestIsPermutation(panics: seq<bool>)
    ensures IsPermutation(PanicsThenRest(panics), |panics|)
  {
    var a, c := Indices(panics, |panics|, true), Indices(panics, |panics|, false);
    IndicesCount(panics, |panics|);
    var order := a + c;
    forall k: nat | k < |panics|
      ensures k in order
    {
      IndicesHave(panics, |panics|, k);
    }
    forall i, j | 0 <= i < j < |order|
      ensures order[i] != order[j]
    {
      if i < |a| <= j { assert panics[a[i]] && !panics[c[j - |a|]]; }
    }
  }

  /** Unless the panicking calls lead the batch, finishing them first leaves a slot empty. */
  lemma {:induction false} TrailingPanicAborts(b: Batch)
    requires ValidBatch(b) && !PanicsFirst(b.panics)
    ensures IsPermutation(PanicsThenRest(b.panics), |b.calls|)
    ensures !AllFilled(JoinAll(b, EmptySlots(|b.calls|), PanicsThenRest(b.panics)))
  {
    hide JoinAll;
    var n := |b.calls|;
    var a, c := Indices(b.panics, n, true), Indices(b.panics, n, false);
    PanicsThenRestIsPermutation(b.panics);
    var p := LatePanic(b.panics);
    JoinAllAppend(b, EmptySlots(n), a, c);
    PanicsFillFromLeft(b, EmptySlots(n), a, 0);
    JoinsFillOwnSlots(b, JoinAll(b, EmptySlots(n), a), c, p);
  }

  function Below(m: nat): (r: set<nat>)
    ensures |r| == m && forall i: nat :: i in r <==> i < m
  {
    if m == 0 then {} else Below(m - 1) + {m - 1}
  }

  lemma {:induction false} LeadLength(panics: seq<bool>) returns (m: nat)
    requires PanicsFirst(panics)
    ensures m <= |panics| && forall k | 0 <= k < |panics| :: panics[k] <==> k < m
  {
    m := 0;
    while m < |panics| && panics[m]
      invariant m <= |panics| && forall k | 0 <= k < m :: panics[k]
    {
      m := m + 1;
    }
  }

  /** When the panicking calls lead the batch, every order of finishing keeps the promise to every call. */
  lemma {:induction false} LeadingPanicsAreContained(b: Batch, order: seq<nat>)
    requires ValidBatch(b) && PanicsFirst(b.panics) && IsPermutation(order, |b.calls|)
    ensures Contained(b, JoinAll(b, EmptySlots(|b.calls|), order))
  {
    hide JoinAll, Leading;
    var m := LeadLength(b.panics);
    LeadingOfPermutation(order, |b.calls|, m);
    LeadingPanicsFill(b, m, 0, EmptySlots(|b.calls|), order);
  }

  /**
   Whatever order the tasks finish in, a panic becomes the error result of its own call and every
   other call keeps its own result, exactly when the panicking calls come before all others;
   otherwise some order aborts the batch.
   */
  lemma {:induction false} PanicsAreContainedIffTheyLead(b: Batch)
    requires ValidBatch(b)
    ensures (forall order | IsPermutation(order, |b.calls|) :: Contained(b, JoinAll(b, EmptySlots(|b.calls|), order)))
            <==> PanicsFirst(b.panics)
  {
    hide JoinAll, Owed;
    if PanicsFirst(b.panics) {
      forall order | IsPermutation(order, |b.calls|)
        ensures Contained(b, JoinAll(b, EmptySlots(|b.calls|), order))
      {
        LeadingPanicsAreContained(b, order);
      }
    } else {
      TrailingPanicAborts(b);
      assert !Contained(b, JoinAll(b, EmptySlots(|b.calls|), PanicsThenRest(b.panics)));
    }
  }
}
