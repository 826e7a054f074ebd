/**
 `chat_with_manager`: one pass over the selectable accounts, with a credential refresh on
 authentication failures and a health mark written back for every account tried.
 */
module ManagerChat {
  import opened Prelude
  import opened Errors
  import opened Accounts

  type Checkpoint = nat
  type Response = string

  datatype Event =
    | Opened(cand: nat, reply: Result<Option<Checkpoint>, Error>)
    | Ran(cand: nat, auth: Auth, checkpoint: Option<Checkpoint>, result: Result<Response, Error>)
    | Refreshed(cand: nat, renewed: Option<Auth>)
    | Marked(cand: nat, success: bool, at: nat)

  /** Provider, authenticator and clock: any replies, which may depend on everything that happened before. */
  datatype World = World(
    open: (seq<Event>, nat) -> Result<Option<Checkpoint>, Error>,
    run: (seq<Event>, nat, Auth, Option<Checkpoint>) -> Result<Response, Error>,
    refresh: (seq<Event>, nat) -> Option<Auth>,
    clock: seq<Event> -> nat)

  /** The id that is marked, and the credentials that are used. */
  datatype Candidate = Candidate(id: string, auth: Auth)

  const DEFAULT_COOLDOWN := 300_000_000_000
  const ANONYMOUS := "auto-anon"

  datatype Failure = Failure(code: string, nanos: nat, failover: bool)

  function ClassifyFailure(e: Error): Failure {
    match e
    case Provider(pe) =>
      var nanos :=
        if pe.kind in {RateLimit, QuotaExceeded} then
          (match pe.retryAfter case Some(d) => d case None => DEFAULT_COOLDOWN)
        else 0;
      Failure(pe.code, nanos, ProviderShouldFailover(pe))
    case Network => Failure("network", 0, true)
    case _ => Failure("error", 0, false)
  }

  // ---------------------------------------------------------------- specification

  datatype Tried = Tried(emails: seq<Bundle>, h: seq<Event>, result: Result<Response, Error>)

  function MarkOf(r: Result<Response, Error>, now: nat): Change {
    match r
    case Ok(_) => Succeed(now)
    case Err(e) => Fail(ClassifyFailure(e).code, ClassifyFailure(e).nanos, now)
  }

  /** Writes the outcome of an account's last run back to the manager. */
  function Settle(w: World, emails: seq<Bundle>, h: seq<Event>, c: nat, id: string, r: Result<Response, Error>): Tried {
    var now := w.clock(h);
    Tried(ChangeFirst(emails, id, MarkOf(r, now)), h + [Marked(c, r.Ok?, now)], r)
  }

  predicate NeedsRefresh(r: Result<Response, Error>) {
    r.Err? && r.error.Provider? && r.error.pe.kind == Authentication
  }

  function TryAccount(
      needsCheckpoint: bool, w: World, emails: seq<Bundle>, h: seq<Event>, c: nat, cand: Candidate): Tried {
    if needsCheckpoint then
      var reply := w.open(h, c);
      TryWith(w, emails, h + [Opened(c, reply)], c, cand, if reply.Ok? then reply.value else None)
    else TryWith(w, emails, h, c, cand, None)
  }

  function TryWith(
      w: World, emails: seq<Bundle>, h: seq<Event>, c: nat, cand: Candidate, cp: Option<Checkpoint>): Tried {
    var r := w.run(h, c, cand.auth, cp);
    var h1 := h + [Ran(c, cand.auth, cp, r)];
    if !NeedsRefresh(r) then Settle(w, emails, h1, c, cand.id, r)
    else
      var renewed := w.refresh(h1, c);
      var h2 := h1 + [Refreshed(c, renewed)];
      match renewed
      case None => Settle(w, emails, h2, c, cand.id, r)
      case Some(auth) =>
        var r2 := w.run(h2, c, auth, cp);
        Settle(w, ChangeFirst(emails, cand.id, Renew(auth)), h2 + [Ran(c, auth, cp, r2)], c, cand.id, r2)
  }

  predicate MovesOn(r: Result<Response, Error>) {
    r.Err? && ClassifyFailure(r.error).failover
  }

  function TryFrom(
      needsCheckpoint: bool, w: World, emails: seq<Bundle>, h: seq<Event>, cands: seq<Candidate>, c: nat): Tried
    requires c < |cands|
    decreases |cands| - c
  {
    var t := TryAccount(needsCheckpoint, w, emails, h, c, cands[c]);
    if MovesOn(t.result) && c + 1 < |cands| then TryFrom(needsCheckpoint, w, t.emails, t.h, cands, c + 1) else t
  }

  /** A call: the provider asked for, the time of selection, and the anonymous fallback, if it has one. */
  datatype Call = Call(provider: string, selectedAt: nat, needsCheckpoint: bool, anonymous: Option<Auth>, w: World)

  function CandidatesOf(v: seq<Account>): (r: seq<Candidate>)
    ensures |r| == |v|
  {
    seq(|v|, i requires 0 <= i < |v| => Candidate(v[i].id, v[i].auth))
  }

  function CandidatesFor(emails: seq<Bundle>, call: Call): seq<Candidate> {
    var v := Selected(emails, call.provider, call.selectedAt);
    if v != [] then CandidatesOf(v)
    else match call.anonymous case None => [] case Some(auth) => [Candidate(ANONYMOUS, auth)]
  }

  function Chat(emails: seq<Bundle>, call: Call): Tried {
    var cands := CandidatesFor(emails, call);
    if cands == [] then Tried(emails, [], Err(AccountSelection))
    else TryFrom(call.needsCheckpoint, call.w, emails, [], cands, 0)
  }

  // ---------------------------------------------------------------- implementation

  /** One round of the account loop: run, refresh once if need be, and mark. */
  method TryOne(manager: AccountManager, needsCheckpoint: bool, w: World, h: seq<Event>, c: nat, cand: Candidate)
    returns (result: Result<Response, Error>, trace: seq<Event>)
    modifies manager
    ensures Tried(manager.emails, trace, result) == TryAccount(needsCheckpoint, w, old(manager.emails), h, c, cand)
  {
    hide ChangeFirst;
    trace := h;
    var checkpoint: Option<Checkpoint> := None;
    if needsCheckpoint {
      var reply := w.open(trace, c);
      trace := trace + [Opened(c, reply)];
      checkpoint := if reply.Ok? then reply.value else None;
    }
    result := w.run(trace, c, cand.auth, checkpoint);
    trace := trace + [Ran(c, cand.auth, checkpoint, result)];
    if result.Err? && result.error.Provider? && result.error.pe.kind == Authentication {
      var renewed := w.refresh(trace, c);
      trace := trace + [Refreshed(c, renewed)];
      if renewed.Some? {
        var _ := manager.UpdateAuth(cand.id, renewed.value);
        result := w.run(trace, c, renewed.value, checkpoint);
        trace := trace + [Ran(c, renewed.value, checkpoint, result)];
      }
    }
    var now := w.clock(trace);
    match result {
      case Ok(_) =>
        manager.MarkSuccess(cand.id, now);
        trace := trace + [Marked(c, true, now)];
      case Err(err) =>
        var failure := ClassifyFailure(err);
        manager.MarkFailure(cand.id, failure.code, failure.nanos, now);
        trace := trace + [Marked(c, false, now)];
    }
  }

  method ChatWithManager(manager: AccountManager, requestValid: bool, registered: bool, call: Call)
    returns (r: Result<Response, Error>, trace: seq<Event>)
    modifies manager
    ensures !requestValid ==> r == Err(Validation) && trace == [] && manager.emails == old(manager.emails)
    ensures requestValid && !registered ==>
              r == Err(ProviderNotRegistered) && trace == [] && manager.emails == old(manager.emails)
    ensures requestValid && registered ==> Tried(manager.emails, trace, r) == Chat(old(manager.emails), call)
  {
    hide Selected, TryAccount, ClassifyFailure;
    trace := [];
    if !requestValid { return Err(Validation), trace; }
    if !registered { return Err(ProviderNotRegistered), trace; }

    var v := manager.AccountsFor(call.provider, call.selectedAt);
    var cands := CandidatesOf(v);
    if |cands| == 0 {
      if call.anonymous.None? { return Err(AccountSelection), trace; }
      cands := [Candidate(ANONYMOUS, call.anonymous.value)];
    }
    ghost var start := manager.emails;
    r := Err(AccountSelection);
    for c := 0 to |cands|
      invariant c < |cands| ==>
                  TryFrom(call.needsCheckpoint, call.w, start, [], cands, 0) ==
                  TryFrom(call.needsCheckpoint, call.w, manager.emails, trace, cands, c)
      invariant c == |cands| > 0 ==>
                  Tried(manager.emails, trace, r) == TryFrom(call.needsCheckpoint, call.w, start, [], cands, 0)
    {
      r, trace := TryOne(manager, call.needsCheckpoint, call.w, trace, c, cands[c]);
      var isLast := c + 1 == |cands|;
      if r.Ok? || isLast || !ClassifyFailure(r.error).failover { return; }
    }
  }

  // ---------------------------------------------------------------- one account

  function RunsIn(h: seq<Event>): nat {
    if h == [] then 0 else (if h[0].Ran? then 1 else 0) + RunsIn(h[1..])
  }

  function MarksIn(h: seq<Event>): nat {
    if h == [] then 0 else (if h[0].Marked? then 1 else 0) + MarksIn(h[1..])
  }

  /** The credentials that a refresh among these events delivered. */
  function RenewedIn(h: seq<Event>): Option<Auth> {
    if h == [] then None
    else
      match RenewedIn(h[1..])
      case Some(auth) => Some(auth)
      case None => if h[0].Refreshed? then h[0].renewed else None
  }

  function LastRun(h: seq<Event>): Option<Result<Response, Error>> {
    if h == [] then None
    else match LastRun(h[1..]) case Some(r) => Some(r) case None => if h[0].Ran? then Some(h[0].result) else None
  }

  lemma {:induction false} FirstEvent(ev: Event, rest: seq<Event>)
    ensures RunsIn([ev] + rest) == (if ev.Ran? then 1 else 0) + RunsIn(rest)
    ensures MarksIn([ev] + rest) == (if ev.Marked? then 1 else 0) + MarksIn(rest)
    ensures RenewedIn([ev] + rest) ==
            if RenewedIn(rest).Some? then RenewedIn(rest) else if ev.Refreshed? then ev.renewed else None
    ensures LastRun([ev] + rest) ==
            if LastRun(rest).Some? then LastRun(rest) else if ev.Ran? then Some(ev.result) else None
  {
    assert ([ev] + rest)[1..] == rest;
  }

  lemma {:induction false} OnlyMark(mark: Event)
    requires mark.Marked?
    ensures RunsIn([mark]) == 0 && MarksIn([mark]) == 1 && RenewedIn([mark]) == None && LastRun([mark]) == None
  {}

  /** The rotation state after a run that ended in `r` and was marked at `now`. */
  function Rotated(rot: Rotation, r: Result<Response, Error>, now: nat): Rotation {
    match r
    case Ok(_) => Healthy(rot, now)
    case Err(e) => Failed(rot, ClassifyFailure(e).code, ClassifyFailure(e).nanos, now)
  }

  /** One or two runs, the last one giving the result, then the only mark, a success exactly when it won. */
  ghost predicate IsRound(seg: seq<Event>, c: nat, r: Result<Response, Error>, at: nat) {
    && seg != []
    && (forall ev <- seg :: ev.cand == c)
    && 1 <= RunsIn(seg) <= 2
    && LastRun(seg) == Some(r)
    && (RunsIn(seg) == 2 <==> RenewedIn(seg).Some?)
    && MarksIn(seg) == 1
    && seg[|seg| - 1] == Marked(c, r.Ok?, at)
  }

  /** The checkpoint that the turn opened at its start, if it did. */
  function OpenedIn(seg: seq<Event>): Option<Checkpoint> {
    if seg != [] && seg[0].Opened? && seg[0].reply.Ok? then seg[0].reply.value else None
  }

  /** From position `from` on nothing is opened, and every run is given the checkpoint. */
  predicate RunsGet(seg: seq<Event>, from: nat, cp: Option<Checkpoint>) {
    forall i | from <= i < |seg| :: !seg[i].Opened? && (seg[i].Ran? ==> seg[i].checkpoint == cp)
  }

  /** One account's turn: a round whose runs get the checkpoint opened in this very turn, or none. */
  ghost predicate IsTurn(seg: seq<Event>, c: nat, r: Result<Response, Error>, at: nat) {
    && IsRound(seg, c, r, at)
    && RunsGet(seg, if seg[0].Opened? then 1 else 0, OpenedIn(seg))
  }

  /** An account as a turn leaves it: rotated as the result demands, with the credentials it got, if any. */
  function AfterTurn(a: Account, renewed: Option<Auth>, r: Result<Response, Error>, at: nat): Account {
    a.(rotation := Rotated(a.rotation, r, at), auth := if renewed.Some? then renewed.value else a.auth)
  }

  predicate AccountTurned(
      before: seq<Bundle>, after: seq<Bundle>, id: string, renewed: Option<Auth>, r: Result<Response, Error>, at: nat) {
    AccountOf(after, id) ==
    match AccountOf(before, id) case None => None case Some(a) => Some(AfterTurn(a, renewed, r, at))
  }

  /** What a turn did to the accounts: its own went through the turn, no other was touched. */
  ghost predicate Rotates(
      before: seq<Bundle>, after: seq<Bundle>, id: string, renewed: Option<Auth>, r: Result<Response, Error>, at: nat) {
    && (forall other: string :: other != id ==> AccountOf(after, other) == AccountOf(before, other))
    && AccountTurned(before, after, id, renewed, r, at)
  }

  lemma {:induction false} SettleMarks(
      w: World, emails: seq<Bundle>, h: seq<Event>, c: nat, id: string, r: Result<Response, Error>)
    ensures var t := Settle(w, emails, h, c, id, r);
            && t.h == h + [Marked(c, r.Ok?, w.clock(h))] && t.result == r
            && Rotates(emails, t.emails, id, None, r, w.clock(h))
            && (DistinctIds(emails) ==> DistinctIds(t.emails))
  {
    hide AccountOf, ChangeFirst, DistinctIds, ClassifyFailure;
    var change := MarkOf(r, w.clock(h));
    forall other: string
      ensures AccountOf(ChangeFirst(emails, id, change), other) ==
              if other == id && AccountOf(emails, id).Some? then Some(Apply(AccountOf(emails, id).value, change))
              else AccountOf(emails, other)
    {
      ChangeIsLocal(emails, id, change, other);
    }
    ChangeIsLocal(emails, id, change, id);
  }

  lemma {:induction false} RenewThenRotate(
      emails: seq<Bundle>, id: string, auth: Auth, after: seq<Bundle>, r: Result<Response, Error>, at: nat)
    requires Rotates(ChangeFirst(emails, id, Renew(auth)), after, id, None, r, at)
    ensures Rotates(emails, after, id, Some(auth), r, at)
    ensures DistinctIds(emails) ==> DistinctIds(ChangeFirst(emails, id, Renew(auth)))
  {
    hide AccountOf, ChangeFirst, DistinctIds, Rotated;
    var mid := ChangeFirst(emails, id, Renew(auth));
    ChangeIsLocal(emails, id, Renew(auth), id);
    forall other: string | other != id
      ensures AccountOf(after, other) == AccountOf(emails, other)
    {
      ChangeIsLocal(emails, id, Renew(auth), other);
    }
  }

  lemma {:induction false} TurnWith(
      w: World, emails: seq<Bundle>, h: seq<Event>, c: nat, cand: Candidate, cp: Option<Checkpoint>)
    returns (seg: seq<Event>, at: nat)
    ensures var t := TryWith(w, emails, h, c, cand, cp);
            && t.h == h + seg && IsRound(seg, c, t.result, at) && RunsGet(seg, 0, cp)
            && Rotates(emails, t.emails, cand.id, RenewedIn(seg), t.result, at)
            && (DistinctIds(emails) ==> DistinctIds(t.emails))
  {
    hide Rotates, ChangeFirst, DistinctIds, RunsIn, MarksIn, RenewedIn, LastRun;
    var r := w.run(h, c, cand.auth, cp);
    var first := Ran(c, cand.auth, cp, r);
    var h1 := h + [first];
    if !NeedsRefresh(r) {
      SettleMarks(w, emails, h1, c, cand.id, r);
      at := w.clock(h1);
      var mark := Marked(c, r.Ok?, at);
      seg := [first] + [mark];
      OnlyMark(mark);
      FirstEvent(first, [mark]);
      assert h1 + [mark] == h + seg;
    } else {
      var renewed := w.refresh(h1, c);
      var second := Refreshed(c, renewed);
      var h2 := h1 + [second];
      match renewed {
        case None =>
          SettleMarks(w, emails, h2, c, cand.id, r);
          at := w.clock(h2);
          var mark := Marked(c, r.Ok?, at);
          seg := [first] + ([second] + [mark]);
          OnlyMark(mark);
          FirstEvent(second, [mark]);
          FirstEvent(first, [second] + [mark]);
          assert h2 + [mark] == h + seg;
        case Some(auth) =>
          var r2 := w.run(h2, c, auth, cp);
          var third := Ran(c, auth, cp, r2);
          var h3 := h2 + [third];
          SettleMarks(w, ChangeFirst(emails, cand.id, Renew(auth)), h3, c, cand.id, r2);
          at := w.clock(h3);
          var mark := Marked(c, r2.Ok?, at);
          seg := [first] + ([second] + ([third] + [mark]));
          OnlyMark(mark);
          FirstEvent(third, [mark]);
          FirstEvent(second, [third] + [mark]);
          FirstEvent(first, [second] + ([third] + [mark]));
          assert h3 + [mark] == h + seg;
          RenewThenRotate(emails, cand.id, auth, TryWith(w, emails, h, c, cand, cp).emails, r2, at);
      }
    }
  }

  lemma {:induction false} Turn(
      needsCheckpoint: bool, w: World, emails: seq<Bundle>, h: seq<Event>, c: nat, cand: Candidate)
    returns (seg: seq<Event>, at: nat)
    ensures var t := TryAccount(needsCheckpoint, w, emails, h, c, cand);
            && t.h == h + seg && IsTurn(seg, c, t.result, at)
            && Rotates(emails, t.emails, cand.id, RenewedIn(seg), t.result, at)
            && (DistinctIds(emails) ==> DistinctIds(t.emails))
  {
    hide Rotates, DistinctIds, RunsIn, MarksIn, RenewedIn, LastRun;
    if needsCheckpoint {
      var reply := w.open(h, c);
      var opening := Opened(c, reply);
      var cp := if reply.Ok? then reply.value else None;
      var rest;
      rest, at := TurnWith(w, emails, h + [opening], c, cand, cp);
      seg := [opening] + rest;
      FirstEvent(opening, rest);
      Associative(h, [opening], rest);
      assert forall i | 1 <= i < |seg| :: seg[i] == rest[i - 1];
    } else {
      seg, at := TurnWith(w, emails, h, c, cand, None);
    }
  }

  // ---------------------------------------------------------------- a whole call

  predicate DistinctCandidates(cands: seq<Candidate>) {
    forall i, j | 0 <= i < j < |cands| :: cands[i].id != cands[j].id
  }

  /** A turn: its events, its result, and when it was marked. */
  datatype TurnRecord = TurnRecord(events: seq<Event>, result: Result<Response, Error>, at: nat)

  function EventsOf(turns: seq<TurnRecord>): seq<Event> {
    if turns == [] then [] else turns[0].events + EventsOf(turns[1..])
  }

  /**
   `turns` are the turns of the candidates `c`, `c + 1`, ... of one call: each a single turn,
   each but the last moving on, the last one ending the call.
   */
  ghost predicate AreTurns(turns: seq<TurnRecord>, cands: seq<Candidate>, c: nat, r: Result<Response, Error>) {
    && 1 <= |turns| <= |cands| - c
    && (forall i | 0 <= i < |turns| :: IsTurn(turns[i].events, c + i, turns[i].result, turns[i].at))
    && (forall i | 0 <= i < |turns| - 1 :: MovesOn(turns[i].result))
    && turns[|turns| - 1].result == r
    && (MovesOn(r) ==> c + |turns| == |cands|)
  }

  predicate Named(cands: seq<Candidate>, id: string) {
    exists cand <- cands :: cand.id == id
  }

  /** The accounts after the turns: every candidate tried is rotated once, everything else is as before. */
  ghost predicate AllRotated(turns: seq<TurnRecord>, tried: seq<Candidate>, before: seq<Bundle>, after: seq<Bundle>) {
    && |turns| == |tried|
    && (forall id: string :: !Named(tried, id) ==> AccountOf(after, id) == AccountOf(before, id))
    && (forall i | 0 <= i < |turns| :: RotatedOnce(turns[i], tried[i].id, before, after))
  }

  predicate RotatedOnce(turn: TurnRecord, id: string, before: seq<Bundle>, after: seq<Bundle>) {
    AccountTurned(before, after, id, RenewedIn(turn.events), turn.result, turn.at)
  }

  lemma {:induction false} TurnsFrom(
      needsCheckpoint: bool, w: World, emails: seq<Bundle>, h: seq<Event>, cands: seq<Candidate>, c: nat)
    returns (turns: seq<TurnRecord>)
    requires c < |cands| && DistinctCandidates(cands)
    ensures var t := TryFrom(needsCheckpoint, w, emails, h, cands, c);
            && AreTurns(turns, cands, c, t.result) && c + |turns| <= |cands|
            && t.h == h + EventsOf(turns)
            && AllRotated(turns, cands[c..c + |turns|], emails, t.emails)
            && (DistinctIds(emails) ==> DistinctIds(t.emails))
    decreases |cands| - c
  {
    hide IsTurn, DistinctIds, Rotates, TryAccount, AreTurns, AllRotated;
    var t := TryAccount(needsCheckpoint, w, emails, h, c, cands[c]);
    var seg, at := Turn(needsCheckpoint, w, emails, h, c, cands[c]);
    var first := TurnRecord(seg, t.result, at);
    if MovesOn(t.result) && c + 1 < |cands| {
      var rest := TurnsFrom(needsCheckpoint, w, t.emails, t.h, cands, c + 1);
      var end := TryFrom(needsCheckpoint, w, t.emails, t.h, cands, c + 1);
      turns := MoreTurns(first, rest, cands, c, end.result);
      Associative(h, seg, EventsOf(rest));
      CombineRotations(first, rest, cands[c], cands[c + 1..c + 1 + |rest|], emails, t.emails, end.emails);
      SliceFrom(cands, c, |rest|);
    } else {
      turns := LastTurn(first, cands, c);
      SliceFrom(cands, c, 0);
      OneRotation(first, cands[c], emails, t.emails);
    }
  }

  lemma {:induction false} SliceFrom<T>(v: seq<T>, c: nat, n: nat)
    requires c + 1 + n <= |v|
    ensures v[c..c + (n + 1)] == [v[c]] + v[c + 1..c + 1 + n]
    ensures n == 0 ==> v[c..c + 1] == [v[c]]
  {}

  lemma {:induction false} LastTurn(turn: TurnRecord, cands: seq<Candidate>, c: nat) returns (turns: seq<TurnRecord>)
    requires c < |cands| && IsTurn(turn.events, c, turn.result, turn.at)
    requires MovesOn(turn.result) ==> c + 1 == |cands|
    ensures turns == [turn] && AreTurns(turns, cands, c, turn.result) && EventsOf(turns) == turn.events
  {
    hide IsTurn;
    turns := [turn];
    assert turns[1..] == [] && turn.events + [] == turn.events;
  }

  lemma {:induction false} MoreTurns(
      first: TurnRecord, rest: seq<TurnRecord>, cands: seq<Candidate>, c: nat, r: Result<Response, Error>)
    returns (turns: seq<TurnRecord>)
    requires IsTurn(first.events, c, first.result, first.at) && MovesOn(first.result)
    requires AreTurns(rest, cands, c + 1, r)
    ensures turns == [first] + rest && AreTurns(turns, cands, c, r) && |turns| <= |cands| - c
    ensures EventsOf(turns) == first.events + EventsOf(rest)
  {
    hide IsTurn, MovesOn;
    turns := [first] + rest;
    assert turns[1..] == rest;
    forall i | 0 <= i < |turns|
      ensures IsTurn(turns[i].events, c + i, turns[i].result, turns[i].at)
    {
      if i > 0 { assert IsTurn(rest[i - 1].events, c + 1 + (i - 1), rest[i - 1].result, rest[i - 1].at); }
    }
  }

  lemma {:induction false} OneRotation(turn: TurnRecord, cand: Candidate, before: seq<Bundle>, after: seq<Bundle>)
    requires Rotates(before, after, cand.id, RenewedIn(turn.events), turn.result, turn.at)
    ensures AllRotated([turn], [cand], before, after)
  {
    hide AccountOf, Rotated;
    forall id: string | !Named([cand], id)
      ensures AccountOf(after, id) == AccountOf(before, id)
    {
      assert cand in [cand];
    }
  }

  lemma {:induction false} CombineRotations(
      first: TurnRecord, rest: seq<TurnRecord>, cand: Candidate, others: seq<Candidate>,
    before: seq<Bundle>, mid: seq<Bundle>, after: seq<Bundle>)
    requires forall i | 0 <= i < |others| :: others[i].id != cand.id
    requires Rotates(before, mid, cand.id, RenewedIn(first.events), first.result, first.at)
    requires AllRotated(rest, others, mid, after)
    ensures AllRotated([first] + rest, [cand] + others, before, after)
  {
    hide AccountOf, Rotated;
    var turns, tried := [first] + rest, [cand] + others;
    assert !Named(others, cand.id);
    forall i | 0 <= i < |turns|
      ensures RotatedOnce(turns[i], tried[i].id, before, after)
    {
      if i > 0 { assert RotatedOnce(rest[i - 1], others[i - 1].id, mid, after); }
    }
    forall id: string | !Named(tried, id)
      ensures AccountOf(after, id) == AccountOf(before, id)
    {
      assert tried[0].id != id;
      assert forall x <- others :: x in tried;
      assert !Named(others, id);
    }
  }

  lemma {:induction false} CandidatesDistinct(emails: seq<Bundle>, call: Call)
    requires DistinctIds(emails)
    ensures DistinctCandidates(CandidatesFor(emails, call))
  {
    SelectedDistinct(emails, call.provider, call.selectedAt);
  }

  /**
   In a call, the accounts tried are a prefix of the selection order; each has one turn (at most
   two runs, exactly one mark, success only for the winner); every account tried is rotated
   once and every other account is unchanged.
   */
  lemma {:induction false} EachAccountHasOneTurn(emails: seq<Bundle>, call: Call) returns (turns: seq<TurnRecord>)
    requires DistinctIds(emails) && CandidatesFor(emails, call) != []
    ensures var t := Chat(emails, call);
            var cands := CandidatesFor(emails, call);
            && AreTurns(turns, cands, 0, t.result)
            && t.h == EventsOf(turns)
            && AllRotated(turns, cands[..|turns|], emails, t.emails)
            && DistinctIds(t.emails)
  {
    hide AllRotated, DistinctIds, TryFrom, CandidatesFor, IsTurn;
    CandidatesDistinct(emails, call);
    turns := TurnsFrom(call.needsCheckpoint, call.w, emails, [], CandidatesFor(emails, call), 0);
    assert [] + EventsOf(turns) == EventsOf(turns);
  }

  // ---------------------------------------------------------------- successive calls

  function After(emails: seq<Bundle>, calls: seq<Call>): seq<Bundle>
    decreases |calls|
  {
    if calls == [] then emails else After(Chat(emails, calls[0]).emails, calls[1..])
  }

  /** An account is parked until a date: its cooldown ends then. */
  predicate Parked(emails: seq<Bundle>, id: string, until: nat) {
    && AccountOf(emails, id).Some?
    && AccountOf(emails, id).value.rotation.cooldownUntil == Some(until)
  }

  predicate Tries(emails: seq<Bundle>, call: Call, id: string) {
    Named(CandidatesFor(emails, call), id)
  }

  lemma {:induction false} ParkedIsNotTried(emails: seq<Bundle>, call: Call, id: string, until: nat)
    requires DistinctIds(emails) && Parked(emails, id, until)
    requires id != ANONYMOUS && call.selectedAt < until < TWO_64
    ensures !Tries(emails, call, id)
  {
    hide Selected, DistinctIds, AccountOf;
    var v := Selected(emails, call.provider, call.selectedAt);
    forall i | 0 <= i < |v|
      ensures v[i].id != id
    {
      SelectedAreUsable(emails, call.provider, call.selectedAt, v[i]);
      UniqueById(emails, v[i]);
    }
  }

  lemma {:induction false} UniqueById(emails: seq<Bundle>, a: Account)
    requires DistinctIds(emails) && a in All(emails)
    ensures AccountOf(emails, a.id) == Some(a)
  {
    var v := All(emails);
    var k :| 0 <= k < |v| && v[k] == a;
    FindInIs(v, a.id, k);
  }

  /** A failed account is left alone, untried and unmarked, by every later call made before its cooldown ends. */
  lemma {:induction false} ParkedStaysParked(emails: seq<Bundle>, calls: seq<Call>, id: string, until: nat)
    requires DistinctIds(emails) && Parked(emails, id, until)
    requires id != ANONYMOUS && until < TWO_64
    requires forall k | 0 <= k < |calls| :: calls[k].selectedAt < until
    ensures AccountOf(After(emails, calls), id) == AccountOf(emails, id)
    ensures forall k | 0 <= k < |calls| :: !Tries(After(emails, calls[..k]), calls[k], id)
    decreases |calls|
  {
    hide DistinctIds, Chat, AccountOf, Tries, CandidatesFor;
    if calls != [] {
      var next := Chat(emails, calls[0]).emails;
      ParkedIsNotTried(emails, calls[0], id, until);
      UntriedIsUntouched(emails, calls[0], id);
      ParkedStaysParked(next, calls[1..], id, until);
      forall k | 0 <= k < |calls|
        ensures !Tries(After(emails, calls[..k]), calls[k], id)
      {
        if k > 0 {
          assert calls[..k][1..] == calls[1..][..k - 1] && calls[k] == calls[1..][k - 1];
          assert After(emails, calls[..k]) == After(next, calls[1..][..k - 1]);
        }
      }
    }
  }

  lemma {:induction false} UntriedIsUntouched(emails: seq<Bundle>, call: Call, id: string)
    requires DistinctIds(emails) && !Tries(emails, call, id)
    ensures var t := Chat(emails, call); AccountOf(t.emails, id) == AccountOf(emails, id) && DistinctIds(t.emails)
  {
    hide DistinctIds, CandidatesFor, AccountOf, AreTurns;
    var cands := CandidatesFor(emails, call);
    if cands != [] {
      var turns := EachAccountHasOneTurn(emails, call);
      AreTurnsFit(turns, cands, Chat(emails, call).result);
      assert forall x <- cands[..|turns|] :: x in cands;
      assert !Named(cands[..|turns|], id);
    }
  }

  lemma {:induction false} AreTurnsFit(turns: seq<TurnRecord>, cands: seq<Candidate>, r: Result<Response, Error>)
    requires AreTurns(turns, cands, 0, r)
    ensures |turns| <= |cands|
  {}

  /** A failed turn whose error carries a cooldown of at least a millisecond parks its account. */
  lemma {:induction false} FailureParks(turn: TurnRecord, id: string, before: seq<Bundle>, after: seq<Bundle>)
    requires RotatedOnce(turn, id, before, after) && AccountOf(before, id).Some?
    requires turn.result.Err?
    requires ClassifyFailure(turn.result.error).nanos / 1_000_000 <= DATE_MAX - turn.at
    ensures Parked(after, id, turn.at + ClassifyFailure(turn.result.error).nanos / 1_000_000)
  {
    var a := AccountOf(before, id).value;
    var failure := ClassifyFailure(turn.result.error);
    CooldownParks(a.(enabled := true), failure.code, failure.nanos, turn.at, 0);
  }

  predicate AllBefore(calls: seq<Call>, until: nat) {
    forall k | 0 <= k < |calls| :: calls[k].selectedAt < until
  }

  /** None of the calls tries the account. */
  predicate LeftAlone(emails: seq<Bundle>, calls: seq<Call>, id: string) {
    forall k | 0 <= k < |calls| :: !Tries(After(emails, calls[..k]), calls[k], id)
  }

  /** When the cooldown of a failed turn ends. */
  function RestEnds(turn: TurnRecord): nat
    requires turn.result.Err?
  {
    turn.at + ClassifyFailure(turn.result.error).nanos / 1_000_000
  }

  /** Whether the turn of a configured account failed with a cooldown that a date can express. */
  predicate MustRest(emails: seq<Bundle>, turn: TurnRecord, id: string) {
    turn.result.Err? && RestEnds(turn) <= DATE_MAX && id != ANONYMOUS && AccountOf(emails, id).Some?
  }

  /**
   Every account that fails in a call with a cooldown rests: of any later calls, none made before
   the cooldown ends tries it.
   */
  lemma {:induction false} FailedAccountsRest(emails: seq<Bundle>, call: Call, later: seq<Call>)
    returns (turns: seq<TurnRecord>)
    requires DistinctIds(emails) && CandidatesFor(emails, call) != []
    ensures AreTurns(turns, CandidatesFor(emails, call), 0, Chat(emails, call).result)
    ensures Chat(emails, call).h == EventsOf(turns)
    ensures forall i | 0 <= i < |turns| && i < |CandidatesFor(emails, call)| ::
              var id := CandidatesFor(emails, call)[i].id;
              MustRest(emails, turns[i], id) && AllBefore(later, RestEnds(turns[i])) ==>
              LeftAlone(Chat(emails, call).emails, later, id)
  {
    hide DistinctIds, Chat, CandidatesFor, Tries, AreTurns, ClassifyFailure, AccountOf;
    turns := EachAccountHasOneTurn(emails, call);
    var cands, after := CandidatesFor(emails, call), Chat(emails, call).emails;
    AreTurnsFit(turns, cands, Chat(emails, call).result);
    forall i | 0 <= i < |turns| && MustRest(emails, turns[i], cands[i].id) && AllBefore(later, RestEnds(turns[i]))
      ensures LeftAlone(after, later, cands[i].id)
    {
      assert RotatedOnce(turns[i], cands[..|turns|][i].id, emails, after);
      FailureParks(turns[i], cands[i].id, emails, after);
      ParkedStaysParked(after, later, cands[i].id, RestEnds(turns[i]));
    }
  }
}
