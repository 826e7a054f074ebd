/**
 `chat_over`: same-account retries of transient rate limits, failover across candidate
 accounts, and the remote checkpoint, against an arbitrary provider.
 */
module ChatOver {
  import opened Prelude
  import opened Errors

  type Checkpoint = nat
  type Response = string

  /** One provider interaction, with the index of the candidate account it was made for. */
  datatype Event =
    | Opened(cand: nat, reply: Result<Option<Checkpoint>, Error>)
    | Ran(cand: nat, checkpoint: Option<Checkpoint>, result: Result<Response, Error>)

  /** The provider: any results at all, which may depend on everything that happened before. */
  datatype World = World(
    open: (seq<Event>, nat) -> Result<Option<Checkpoint>, Error>,
    run: (seq<Event>, nat, Option<Checkpoint>) -> Result<Response, Error>)

  datatype Config = Config(candidates: nat, needsCheckpoint: bool, maxRetries: nat)

  // ---------------------------------------------------------------- the protocol, by history

  predicate Retryable(e: Error) {
    e.Provider? && IsTransientRateLimit(e.pe)
  }

  predicate Invalidates(ev: Event) {
    ev.Ran? && ev.result.Err? && ev.result.error.Provider? && InvalidatesCheckpoint(ev.result.error.pe)
  }

  /** The checkpoint in force after a history. */
  function Live(h: seq<Event>): Option<Checkpoint> {
    if h == [] then None
    else
      match h[|h| - 1]
      case Opened(_, Ok(cp)) => cp
      case Opened(_, Err(_)) => None
      case Ran(_, cp, _) => if Invalidates(h[|h| - 1]) then None else cp
  }

  function Runs(h: seq<Event>, cand: nat): (n: nat)
    ensures n <= |h|
  {
    if h == [] then 0
    else Runs(h[..|h| - 1], cand) + if h[|h| - 1].Ran? && h[|h| - 1].cand == cand then 1 else 0
  }

  datatype Action =
    | Open(cand: nat)
    | Run(cand: nat, checkpoint: Option<Checkpoint>)
    | Return(result: Result<Response, Error>)

  function Begin(cfg: Config, h: seq<Event>, cand: nat): Action {
    if cfg.needsCheckpoint && Live(h).None? then Open(cand) else Run(cand, Live(h))
  }

  /** What the protocol demands after a history. */
  function Next(cfg: Config, h: seq<Event>): Action {
    if h == [] then Begin(cfg, h, 0)
    else
      match h[|h| - 1]
      case Opened(c, Ok(cp)) => Run(c, cp)
      case Opened(c, Err(e)) => if c + 1 < cfg.candidates then Begin(cfg, h, c + 1) else Return(Err(e))
      case Ran(_, _, Ok(resp)) => Return(Ok(resp))
      case Ran(c, _, Err(e)) =>
        if Retryable(e) && Runs(h, c) <= cfg.maxRetries then Begin(cfg, h, c)
        else if ShouldFailover(e) && c + 1 < cfg.candidates then Begin(cfg, h, c + 1)
        else Return(Err(e))
  }

  /** The next event, when the protocol asks the world for one. */
  function Answer(w: World, h: seq<Event>, a: Action): Event
    requires !a.Return?
  {
    match a
    case Open(c) => Opened(c, w.open(h, c))
    case Run(c, cp) => Ran(c, cp, w.run(h, c, cp))
  }

  ghost predicate IsHistory(cfg: Config, w: World, h: seq<Event>) {
    forall i | 0 <= i < |h| :: Follows(cfg, w, h, i)
  }

  ghost predicate Follows(cfg: Config, w: World, h: seq<Event>, i: nat)
    requires i < |h|
  {
    !Next(cfg, h[..i]).Return? && h[i] == Answer(w, h[..i], Next(cfg, h[..i]))
  }

  /** A complete run: every event the protocol demanded, until it demanded to return `r`. */
  ghost predicate IsRun(cfg: Config, w: World, h: seq<Event>, r: Result<Response, Error>) {
    IsHistory(cfg, w, h) && Next(cfg, h) == Return(r)
  }

  lemma {:induction false} Extend(cfg: Config, w: World, h: seq<Event>, ev: Event)
    requires IsHistory(cfg, w, h)
    requires !Next(cfg, h).Return? && ev == Answer(w, h, Next(cfg, h))
    ensures IsHistory(cfg, w, h + [ev])
  {
    var h' := h + [ev];
    forall i | 0 <= i < |h'|
      ensures Follows(cfg, w, h', i)
    {
      if i < |h| {
        assert h'[..i] == h[..i] && Follows(cfg, w, h, i);
      } else {
        assert h'[..i] == h;
      }
    }
  }

  predicate AllBelow(h: seq<Event>, n: nat) {
    forall i | 0 <= i < |h| :: h[i].cand < n
  }

  /** What one more event changes. */
  lemma {:induction false} After(cfg: Config, w: World, h: seq<Event>, ev: Event, n: nat)
    requires IsHistory(cfg, w, h) && !Next(cfg, h).Return? && ev == Answer(w, h, Next(cfg, h))
    requires AllBelow(h, n) && ev.cand < n
    ensures var h' := h + [ev];
            && IsHistory(cfg, w, h')
            && AllBelow(h', n)
            && Runs(h', ev.cand) == Runs(h, ev.cand) + (if ev.Ran? then 1 else 0)
            && Live(h') == (match ev
                            case Opened(_, reply) => if reply.Ok? then reply.value else None
                            case Ran(_, cp, _) => if Invalidates(ev) then None else cp)
  {
    hide IsHistory, Next;
    Extend(cfg, w, h, ev);
    assert (h + [ev])[..|h|] == h;
  }

  lemma {:induction false} AfterOpened(cfg: Config, h: seq<Event>, c: nat, reply: Result<Option<Checkpoint>, Error>)
    ensures var h' := h + [Opened(c, reply)];
            Next(cfg, h') == match reply
                             case Ok(cp) => Run(c, cp)
                             case Err(e) => if c + 1 < cfg.candidates then Begin(cfg, h', c + 1) else Return(Err(e))
  {}

  lemma {:induction false} AfterRan(
      cfg: Config, h: seq<Event>, c: nat, cp: Option<Checkpoint>, result: Result<Response, Error>)
    ensures var h' := h + [Ran(c, cp, result)];
            Next(cfg, h') == match result
                             case Ok(resp) => Return(Ok(resp))
                             case Err(e) =>
                               if Retryable(e) && Runs(h', c) <= cfg.maxRetries then Begin(cfg, h', c)
                               else if ShouldFailover(e) && c + 1 < cfg.candidates then Begin(cfg, h', c + 1)
                               else Return(Err(e))
  {}

  /**
   What a failure known by its HTTP status alone leads to. 401 and 403 drop the checkpoint and
   move on; 404 and 409 drop it and end the call; other statuses keep it.
   */
  lemma {:induction false} StatusDecides(
    cfg: Config, h: seq<Event>, c: nat, cp: Option<Checkpoint>, pe: ProviderError, status: nat)
    requires pe.kind == Other
    ensures var e := Provider(WithStatus(pe, status));
            var h' := h + [Ran(c, cp, Err(e))];
            && Live(h') == (if status in {401, 403, 404, 409} then None else cp)
            && (status in {401, 403} || 500 <= status <= 599 ==>
                  Next(cfg, h') == if c + 1 < cfg.candidates then Begin(cfg, h', c + 1) else Return(Err(e)))
            && (status == 429 && !(Retryable(e) && Runs(h', c) <= cfg.maxRetries) ==>
                  Next(cfg, h') == if c + 1 < cfg.candidates then Begin(cfg, h', c + 1) else Return(Err(e)))
            && (!(status in {401, 403, 429} || 500 <= status <= 599) ==> Next(cfg, h') == Return(Err(e)))
  {
    hide Next, WithStatus, IsTransientRateLimit, ProviderShouldFailover, InvalidatesCheckpoint, Runs;
    StatusPolicy(pe, status);
    AfterRan(cfg, h, c, cp, Err(Provider(WithStatus(pe, status))));
    assert (h + [Ran(c, cp, Err(Provider(WithStatus(pe, status))))])[..|h|] == h;
  }

  method ChatOver(requestValid: bool, registered: bool, cfg: Config, w: World)
    returns (r: Result<Response, Error>, trace: seq<Event>)
    ensures !requestValid ==> r == Err(Validation) && trace == []
    ensures requestValid && !registered ==> r == Err(ProviderNotRegistered) && trace == []
    ensures requestValid && registered && cfg.candidates == 0 ==> r == Err(AccountSelection) && trace == []
    ensures requestValid && registered && cfg.candidates > 0 ==> IsRun(cfg, w, trace, r)
  {
    hide IsHistory, Live, Runs, Next, IsTransientRateLimit, InvalidatesCheckpoint, ProviderShouldFailover;
    trace := [];
    if !requestValid { return Err(Validation), trace; }
    if !registered { return Err(ProviderNotRegistered), trace; }
    if cfg.candidates == 0 { return Err(AccountSelection), trace; }

    var lastErr: Option<Error> := None;
    var checkpoint: Option<Checkpoint> := None;
    NoHistory(cfg, w);
    for idx := 0 to cfg.candidates
      invariant IsHistory(cfg, w, trace)
      invariant checkpoint == Live(trace)
      invariant AllBelow(trace, idx)
      invariant idx < cfg.candidates ==> Next(cfg, trace) == Begin(cfg, trace, idx)
      invariant idx == cfg.candidates ==> lastErr.Some? && Next(cfg, trace) == Return(Err(lastErr.value))
    {
      var isLast := idx + 1 == cfg.candidates;
      var attempt := 0;
      NoRunsYet(trace, idx);
      while true
        invariant IsHistory(cfg, w, trace)
        invariant checkpoint == Live(trace)
        invariant AllBelow(trace, idx + 1)
        invariant attempt == Runs(trace, idx) <= cfg.maxRetries
        invariant Next(cfg, trace) == Begin(cfg, trace, idx)
        decreases cfg.maxRetries - attempt
      {
        if cfg.needsCheckpoint && checkpoint.None? {
          var reply := w.open(trace, idx);
          After(cfg, w, trace, Opened(idx, reply), idx + 1);
          AfterOpened(cfg, trace, idx, reply);
          trace := trace + [Opened(idx, reply)];
          match reply {
            case Ok(cp) => checkpoint := cp;
            case Err(e) =>
              lastErr := Some(e);
              break;
          }
        }
        assert Next(cfg, trace) == Run(idx, checkpoint);
        var result := w.run(trace, idx, checkpoint);
        After(cfg, w, trace, Ran(idx, checkpoint, result), idx + 1);
        AfterRan(cfg, trace, idx, checkpoint, result);
        trace := trace + [Ran(idx, checkpoint, result)];
        match result {
          case Ok(resp) => return Ok(resp), trace;
          case Err(err) =>
            if err.Provider? {
              if InvalidatesCheckpoint(err.pe) {
                checkpoint := None;
              }
              if IsTransientRateLimit(err.pe) && attempt < cfg.maxRetries {
                attempt := attempt + 1;
                continue;
              }
              if ProviderShouldFailover(err.pe) && !isLast {
                lastErr := Some(err);
                break;
              }
            } else if ShouldFailover(err) && !isLast {
              lastErr := Some(err);
              break;
            }
            return Err(err), trace;
        }
      }
    }
    return Err(if lastErr.Some? then lastErr.value else AccountSelection), trace;
  }

  lemma {:induction false} NoHistory(cfg: Config, w: World)
    ensures IsHistory(cfg, w, []) && Live([]) == None && Next(cfg, []) == Begin(cfg, [], 0)
  {}

  lemma {:induction false} NoRunsYet(h: seq<Event>, cand: nat)
    requires AllBelow(h, cand)
    ensures Runs(h, cand) == 0
  {
    if h != [] { NoRunsYet(h[..|h| - 1], cand); }
  }

  // ---------------------------------------------------------------- what every run keeps

  lemma {:induction false} Prefix(cfg: Config, w: World, h: seq<Event>, n: nat)
    requires IsHistory(cfg, w, h) && n <= |h|
    ensures IsHistory(cfg, w, h[..n])
  {
    forall i | 0 <= i < n
      ensures Follows(cfg, w, h[..n], i)
    {
      assert h[..n][..i] == h[..i] && Follows(cfg, w, h, i);
    }
  }

  /** An event after which the account is given up: a failed open, or a failover error. */
  predicate GivesUp(ev: Event) {
    match ev
    case Opened(_, reply) => reply.Err?
    case Ran(_, _, result) => result.Err? && ShouldFailover(result.error)
  }

  /** An event after which the same account is asked again: an open, or a transient rate limit. */
  predicate StaysOn(ev: Event) {
    match ev
    case Opened(_, reply) => reply.Ok?
    case Ran(_, _, result) => result.Err? && Retryable(result.error)
  }

  /** Accounts are visited in order from the first, and left only for the next after giving up. */
  lemma {:induction false} CandidatesInOrder(cfg: Config, w: World, h: seq<Event>, i: nat)
    requires IsHistory(cfg, w, h) && i < |h|
    ensures i == 0 ==> h[i].cand == 0
    ensures i > 0 ==> || (h[i].cand == h[i - 1].cand && StaysOn(h[i - 1]))
                      || (h[i].cand == h[i - 1].cand + 1 < cfg.candidates && GivesUp(h[i - 1]))
  {
    assert Follows(cfg, w, h, i);
    if i > 0 { assert h[..i][|h[..i]| - 1] == h[i - 1]; }
  }

  lemma {:induction false} VisitedSoFar(cfg: Config, w: World, h: seq<Event>)
    requires IsHistory(cfg, w, h) && h != []
    ensures forall ev <- h :: ev.cand <= h[|h| - 1].cand
    ensures cfg.candidates > 0 ==> h[|h| - 1].cand < cfg.candidates
  {
    var n := |h| - 1;
    CandidatesInOrder(cfg, w, h, n);
    assert h == h[..n] + [h[n]];
    if n > 0 {
      Prefix(cfg, w, h, n);
      VisitedSoFar(cfg, w, h[..n]);
    }
  }

  /** An account that is about to be asked has retries left. */
  lemma {:induction false} RetriesLeft(cfg: Config, w: World, h: seq<Event>, c: nat)
    requires IsHistory(cfg, w, h)
    ensures Runs(h, c) <= cfg.maxRetries + 1
    ensures Next(cfg, h) == Open(c) || (Next(cfg, h).Run? && Next(cfg, h).cand == c) ==> Runs(h, c) <= cfg.maxRetries
    decreases |h|
  {
    if h != [] {
      var n := |h| - 1;
      Prefix(cfg, w, h, n);
      RetriesLeft(cfg, w, h[..n], c);
      assert Follows(cfg, w, h, n);
      if c > h[n].cand {
        VisitedSoFar(cfg, w, h);
        NoRunsYet(h, c);
      }
    }
  }

  function TotalRuns(h: seq<Event>): nat {
    if h == [] then 0 else TotalRuns(h[..|h| - 1]) + if h[|h| - 1].Ran? then 1 else 0
  }

  function RunsBelow(h: seq<Event>, n: nat): nat {
    if n == 0 then 0 else RunsBelow(h, n - 1) + Runs(h, n - 1)
  }

  lemma {:induction false} RunsBelowStep(h: seq<Event>, n: nat)
    requires h != []
    ensures RunsBelow(h, n) == RunsBelow(h[..|h| - 1], n) + if h[|h| - 1].Ran? && h[|h| - 1].cand < n then 1 else 0
  {
    if n > 0 { RunsBelowStep(h, n - 1); }
  }

  lemma {:induction false} RunsBelowNothing(n: nat)
    ensures RunsBelow([], n) == 0
  {
    if n > 0 { RunsBelowNothing(n - 1); }
  }

  lemma {:induction false} TotalIsSum(h: seq<Event>, n: nat)
    requires forall ev <- h :: ev.cand < n
    ensures TotalRuns(h) == RunsBelow(h, n)
  {
    if h == [] {
      RunsBelowNothing(n);
    } else {
      assert h[|h| - 1] in h;
      TotalIsSum(h[..|h| - 1], n);
      RunsBelowStep(h, n);
    }
  }

  lemma {:induction false} SumIsBounded(cfg: Config, w: World, h: seq<Event>, n: nat)
    requires IsHistory(cfg, w, h)
    ensures RunsBelow(h, n) <= n * (cfg.maxRetries + 1)
  {
    if n > 0 {
      SumIsBounded(cfg, w, h, n - 1);
      RetriesLeft(cfg, w, h, n - 1);
      assert n * (cfg.maxRetries + 1) == (n - 1) * (cfg.maxRetries + 1) + (cfg.maxRetries + 1);
    }
  }

  /** No account is run more than once plus its retries, so a call makes at most n * (R + 1) runs. */
  lemma {:induction false} RunsAreBounded(cfg: Config, w: World, h: seq<Event>)
    requires IsHistory(cfg, w, h) && cfg.candidates > 0
    ensures forall c: nat :: Runs(h, c) <= cfg.maxRetries + 1
    ensures TotalRuns(h) <= cfg.candidates * (cfg.maxRetries + 1)
  {
    forall c: nat
      ensures Runs(h, c) <= cfg.maxRetries + 1
    {
      RetriesLeft(cfg, w, h, c);
    }
    if h != [] { VisitedSoFar(cfg, w, h); }
    TotalIsSum(h, cfg.candidates);
    SumIsBounded(cfg, w, h, cfg.candidates);
  }

  /** The result is the first success, or else the most recent error. */
  lemma {:induction false} ResultIsFirstSuccessOrLastError(
      cfg: Config, w: World, h: seq<Event>, r: Result<Response, Error>)
    requires IsRun(cfg, w, h, r) && cfg.candidates > 0
    ensures h != []
    ensures forall i | 0 <= i < |h| - 1 :: h[i].Ran? ==> h[i].result.Err?
    ensures match h[|h| - 1]
            case Opened(_, reply) => reply.Err? && r == Err(reply.error)
            case Ran(_, _, result) => r == result
  {
    forall i | 0 <= i < |h| - 1
      ensures h[i].Ran? ==> h[i].result.Err?
    {
      assert Follows(cfg, w, h, i + 1);
      assert h[..i + 1][|h[..i + 1]| - 1] == h[i];
    }
  }

  /** `k` opened the checkpoint `cp`, and nothing has invalidated it since. */
  predicate OpenedAt(h: seq<Event>, k: nat, cp: Checkpoint) {
    && k < |h|
    && h[k].Opened? && h[k].reply == Ok(Some(cp))
    && forall m | k < m < |h| :: !Invalidates(h[m])
  }

  lemma {:induction false} LiveWasOpened(cfg: Config, w: World, h: seq<Event>)
    requires IsHistory(cfg, w, h) && Live(h).Some?
    ensures exists k: nat :: OpenedAt(h, k, Live(h).value)
  {
    var n := |h| - 1;
    assert Follows(cfg, w, h, n);
    if h[n].Opened? {
      assert OpenedAt(h, n, Live(h).value);
    } else {
      Prefix(cfg, w, h, n);
      var cp := h[n].checkpoint.value;
      RunUsesLive(cfg, h[..n]);
      LiveWasOpened(cfg, w, h[..n]);
      var k: nat :| OpenedAt(h[..n], k, cp);
      forall m | k < m < |h|
        ensures !Invalidates(h[m])
      {
        if m < n { assert h[m] == h[..n][m]; }
      }
      assert OpenedAt(h, k, cp);
    }
  }

  lemma {:induction false} RunUsesLive(cfg: Config, h: seq<Event>)
    requires Next(cfg, h).Run?
    ensures Next(cfg, h).checkpoint == Live(h)
  {}

  /** A run is given a checkpoint only if it was opened earlier and no error has invalidated it since. */
  lemma {:induction false} CheckpointIsNeverStale(cfg: Config, w: World, h: seq<Event>, j: nat)
    requires IsHistory(cfg, w, h) && j < |h|
    requires h[j].Ran? && h[j].checkpoint.Some?
    ensures exists k: nat :: OpenedAt(h[..j], k, h[j].checkpoint.value)
  {
    assert Follows(cfg, w, h, j);
    Prefix(cfg, w, h, j);
    RunUsesLive(cfg, h[..j]);
    LiveWasOpened(cfg, w, h[..j]);
  }

  /** A stateful provider runs without a checkpoint only right after it opened none. */
  lemma {:induction false} RunsWithoutCheckpoint(cfg: Config, w: World, h: seq<Event>, j: nat)
    requires IsHistory(cfg, w, h) && j < |h|
    requires h[j].Ran? && h[j].checkpoint.None? && cfg.needsCheckpoint
    ensures j > 0 && h[j - 1] == Opened(h[j].cand, Ok(None))
  {
    assert Follows(cfg, w, h, j);
    if j > 0 { assert h[..j][|h[..j]| - 1] == h[j - 1]; }
  }
}
