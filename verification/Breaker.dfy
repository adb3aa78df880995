/**
 The per-server circuit breaker: in process memory
 (src/research_platform/mcp/breaker.py) and as atomic scripts over a shared hash
 (src/research_platform/persistence/redis_state.py). Times are microseconds.
 */
module Breaker {
  import opened Basics

  datatype CircuitState = Closed | Open | HalfOpen

  /** One circuit; `openedAt` has a meaning only once it has opened. */
  datatype Circuit = Circuit(failures: nat, state: CircuitState, openedAt: int)

  const FRESH_CIRCUIT := Circuit(0, Closed, 0)

  datatype RawConfig = Config(threshold: nat, cooldown: int)

  type Config = c: RawConfig | c.threshold >= 1 witness Config(3, 30_000_000)

  type Circuits = map<string, Circuit>

  /** A server nothing was recorded for has a fresh circuit, which looking does not store. */
  function Of(circuits: Circuits, server: string): Circuit {
    if server in circuits then circuits[server] else FRESH_CIRCUIT
  }

  /** `_refresh`: an open circuit whose cooldown has passed becomes half open. */
  function Refreshed(cfg: Config, c: Circuit, now: int): Circuit {
    if c.state == Open && now - c.openedAt >= cfg.cooldown then c.(state := HalfOpen) else c
  }

  function Look(cfg: Config, circuits: Circuits, server: string, now: int): Circuits {
    if server in circuits then circuits[server := Refreshed(cfg, circuits[server], now)] else circuits
  }

  /** `record_failure` reads the clock once to refresh and once to stamp. */
  function Failure(cfg: Config, circuits: Circuits, server: string, read: int, stamped: int): Circuits {
    var c := Refreshed(cfg, Of(circuits, server), read);
    circuits[server :=
      if c.state == HalfOpen then Circuit(cfg.threshold, Open, stamped)
      else if c.failures + 1 >= cfg.threshold then Circuit(c.failures + 1, Open, stamped)
      else c.(failures := c.failures + 1)]
  }

  class CircuitBreaker {
    const cfg: Config
    var circuits: Circuits

    constructor (cfg: Config)
      ensures this.cfg == cfg && circuits == map[]
    {
      this.cfg := cfg;
      circuits := map[];
    }

    method StateOf(server: string, now: int) returns (state: CircuitState)
      modifies this
      ensures circuits == Look(cfg, old(circuits), server, now)
      ensures state == Of(Look(cfg, old(circuits), server, now), server).state
    {
      var circuit := Refreshed(cfg, Of(circuits, server), now);
      if server in circuits {
        circuits := circuits[server := circuit];
      }
      state := circuit.state;
    }

    /** `ensure_closed` refuses an open circuit and nothing else: half open lets every caller through. */
    method EnsureClosed(server: string, now: int) returns (refusedUntil: Option<int>)
      modifies this
      ensures circuits == Look(cfg, old(circuits), server, now)
      ensures var c := Of(circuits, server);
              refusedUntil == if c.state == Open then Some(c.openedAt + cfg.cooldown) else None
    {
      var state := StateOf(server, now);
      if state == Open {
        refusedUntil := Some(circuits[server].openedAt + cfg.cooldown);
      } else {
        refusedUntil := None;
      }
    }

    method RecordSuccess(server: string)
      modifies this
      ensures circuits == old(circuits)[server := FRESH_CIRCUIT]
    {
      circuits := circuits[server := FRESH_CIRCUIT];
    }

    method RecordFailure(server: string, read: int, stamped: int)
      modifies this
      ensures circuits == Failure(cfg, old(circuits), server, read, stamped)
    {
      var circuit := Refreshed(cfg, Of(circuits, server), read);
      if circuit.state == HalfOpen {
        circuits := circuits[server := Circuit(cfg.threshold, Open, stamped)];
        return;
      }
      circuit := circuit.(failures := circuit.failures + 1);
      if circuit.failures >= cfg.threshold {
        circuit := circuit.(state := Open, openedAt := stamped);
      }
      circuits := circuits[server := circuit];
    }
  }

  // ---------------------------------------------------------------- histories

  datatype Event =
    | Looked(server: string, at: int)
    | Succeeded(server: string)
    | FailedCall(server: string, read: int, stamped: int)

  function Next(cfg: Config, circuits: Circuits, e: Event): Circuits {
    match e
    case Looked(server, at) => Look(cfg, circuits, server, at)
    case Succeeded(server) => circuits[server := FRESH_CIRCUIT]
    case FailedCall(server, read, stamped) => Failure(cfg, circuits, server, read, stamped)
  }

  function After(cfg: Config, history: seq<Event>): Circuits {
    if history == [] then map[]
    else Next(cfg, After(cfg, history[..|history| - 1]), history[|history| - 1])
  }

  /** The clock never goes back: no reading of the history is later than `now`. */
  ghost predicate Monotone(history: seq<Event>, now: int) {
    history == [] ||
    match history[|history| - 1]
    case Looked(_, at) => at <= now && Monotone(history[..|history| - 1], at)
    case Succeeded(_) => Monotone(history[..|history| - 1], now)
    case FailedCall(_, read, stamped) => read <= stamped <= now && Monotone(history[..|history| - 1], read)
  }

  /** Failures of the server since its last success. */
  function Streak(history: seq<Event>, server: string): nat {
    if history == [] then 0
    else
      var rest := history[..|history| - 1];
      match history[|history| - 1]
      case Succeeded(s) => if s == server then 0 else Streak(rest, server)
      case FailedCall(s, _, _) => Streak(rest, server) + (if s == server then 1 else 0)
      case Looked(_, _) => Streak(rest, server)
  }

  /** When the server last failed. */
  function LastFailure(history: seq<Event>, server: string): int
    requires Streak(history, server) > 0
  {
    var rest := history[..|history| - 1];
    match history[|history| - 1]
    case FailedCall(s, _, stamped) => if s == server then stamped else LastFailure(rest, server)
    case _ => LastFailure(rest, server)
  }

  /** What the breaker should say, with no circuit stored anywhere. */
  function StateByHistory(cfg: Config, history: seq<Event>, server: string, now: int): CircuitState {
    if Streak(history, server) < cfg.threshold then Closed
    else if now - LastFailure(history, server) < cfg.cooldown then Open
    else HalfOpen
  }

  /** How a stored circuit stands to the history it came from. */
  ghost predicate Reflects(cfg: Config, c: Circuit, history: seq<Event>, server: string, now: int) {
    var n := Streak(history, server);
    if n < cfg.threshold then c.state == Closed && c.failures == n
    else
      && c.failures >= cfg.threshold && c.openedAt == LastFailure(history, server)
      && (c.state == Open || (c.state == HalfOpen && now - c.openedAt >= cfg.cooldown))
  }

  lemma {:induction false} CircuitReflectsHistory(cfg: Config, history: seq<Event>, server: string, now: int)
    requires Monotone(history, now)
    ensures Reflects(cfg, Of(After(cfg, history), server), history, server, now)
  {
    if history != [] {
      var rest := history[..|history| - 1];
      match history[|history| - 1]
      case Looked(_, at) =>
        CircuitReflectsHistory(cfg, rest, server, at);
      case Succeeded(_) =>
        CircuitReflectsHistory(cfg, rest, server, now);
      case FailedCall(_, read, stamped) =>
        CircuitReflectsHistory(cfg, rest, server, read);
    }
  }

  /**
   For every history under a monotone clock, what the breaker says of a server depends only
   on its failures since its last success and the time of the last one.
   */
  lemma BreakerClosedForm(cfg: Config, history: seq<Event>, server: string, now: int)
    requires Monotone(history, now)
    ensures Refreshed(cfg, Of(After(cfg, history), server), now).state == StateByHistory(cfg, history, server, now)
  {
    CircuitReflectsHistory(cfg, history, server, now);
  }

  // ---------------------------------------------------------------- looking changes nothing

  function WithoutLooks(history: seq<Event>): seq<Event> {
    Filter((e: Event) => !e.Looked?, history)
  }

  lemma WithoutLooksLast(history: seq<Event>)
    requires history != []
    ensures var n := |history| - 1;
            var kept := WithoutLooks(history[..n]);
            WithoutLooks(history) == if history[n].Looked? then kept else kept + [history[n]]
  {
    var n := |history| - 1;
    assert history == history[..n] + [history[n]];
    FilterConcat((e: Event) => !e.Looked?, history[..n], [history[n]]);
  }

  lemma {:induction false} LooksAreNotFailures(history: seq<Event>, server: string)
    ensures Streak(WithoutLooks(history), server) == Streak(history, server)
    ensures Streak(history, server) > 0 ==> LastFailure(WithoutLooks(history), server) == LastFailure(history, server)
  {
    assert history == [] ==> WithoutLooks(history) == [];
    hide WithoutLooks;
    if history != [] {
      var n := |history| - 1;
      var rest, kept := history[..n], WithoutLooks(history);
      WithoutLooksLast(history);
      LooksAreNotFailures(rest, server);
      if history[n].Looked? {
        assert kept == WithoutLooks(rest);
      } else {
        assert kept[..|kept| - 1] == WithoutLooks(rest) && kept[|kept| - 1] == history[n];
      }
    }
  }

  lemma {:induction false} MonotoneWithoutLooks(history: seq<Event>, now: int)
    requires Monotone(history, now)
    ensures forall later :: later >= now ==> Monotone(WithoutLooks(history), later)
  {
    if history != [] {
      var n := |history| - 1;
      WithoutLooksLast(history);
      match history[n]
      case Looked(_, at) => MonotoneWithoutLooks(history[..n], at);
      case Succeeded(_) =>
        MonotoneWithoutLooks(history[..n], now);
        var kept := WithoutLooks(history);
        assert kept[..|kept| - 1] == WithoutLooks(history[..n]);
      case FailedCall(_, read, _) =>
        MonotoneWithoutLooks(history[..n], read);
        var kept := WithoutLooks(history);
        assert kept[..|kept| - 1] == WithoutLooks(history[..n]);
    }
  }

  /** Deleting every look from a history changes no later answer: lazy refreshes are unobservable. */
  lemma LooksAreUnobservable(cfg: Config, history: seq<Event>, server: string, now: int)
    requires Monotone(history, now)
    ensures Refreshed(cfg, Of(After(cfg, history), server), now).state
            == Refreshed(cfg, Of(After(cfg, WithoutLooks(history)), server), now).state
  {
    MonotoneWithoutLooks(history, now);
    LooksAreNotFailures(history, server);
    BreakerClosedForm(cfg, history, server, now);
    BreakerClosedForm(cfg, WithoutLooks(history), server, now);
  }

  // ---------------------------------------------------------------- the shared form

  const CIRCUIT_TTL := 86_400_000_000

  /** A circuit's hash in the shared store. A field never written reads as its default. */
  datatype Hash = Hash(state: Option<CircuitState>, openedAt: int, failures: nat, expiresAt: Option<int>)

  const NO_HASH := Hash(None, 0, 0, None)

  type Hashes = map<string, Hash>

  /** The hash as a script running at `now` finds it: gone once its lifetime is over. */
  function Read(hashes: Hashes, server: string, now: int): Hash {
    if server in hashes && (hashes[server].expiresAt.Some? ==> now < hashes[server].expiresAt.value)
    then hashes[server] else NO_HASH
  }

  function StateField(h: Hash): CircuitState {
    if h.state.Some? then h.state.value else Closed
  }

  /** The refresh part of every script. */
  function ScriptRefresh(cfg: Config, h: Hash, now: int): Hash {
    if StateField(h) == Open && now - h.openedAt >= cfg.cooldown then h.(state := Some(HalfOpen)) else h
  }

  function ScriptState(cfg: Config, hashes: Hashes, server: string, now: int): Hashes {
    var h := Read(hashes, server, now);
    if h == NO_HASH then hashes - {server} else hashes[server := ScriptRefresh(cfg, h, now)]
  }

  function ScriptFailure(cfg: Config, hashes: Hashes, server: string, now: int): Hashes {
    var h := ScriptRefresh(cfg, Read(hashes, server, now), now);
    hashes[server :=
      if StateField(h) == HalfOpen then Hash(Some(Open), now, cfg.threshold, Some(now + CIRCUIT_TTL))
      else if h.failures + 1 >= cfg.threshold then Hash(Some(Open), now, h.failures + 1, Some(now + CIRCUIT_TTL))
      else h.(failures := h.failures + 1, expiresAt := Some(now + CIRCUIT_TTL))]
  }

  /** The same history, run as scripts: each reads the clock once. */
  function SharedAfter(cfg: Config, history: seq<Event>): Hashes {
    if history == [] then map[]
    else
      var before := SharedAfter(cfg, history[..|history| - 1]);
      match history[|history| - 1]
      case Looked(server, at) => ScriptState(cfg, before, server, at)
      case Succeeded(server) => before - {server}
      case FailedCall(server, _, stamped) => ScriptFailure(cfg, before, server, stamped)
  }

  /** What `state_of` returns from the shared store. */
  function SharedState(cfg: Config, hashes: Hashes, server: string, now: int): CircuitState {
    StateField(ScriptRefresh(cfg, Read(hashes, server, now), now))
  }

  /** Every failure of the server's current streak came within a key lifetime of the one before. */
  ghost predicate WithinLifetime(history: seq<Event>, server: string) {
    if history == [] then true
    else
      var rest := history[..|history| - 1];
      match history[|history| - 1]
      case FailedCall(s, _, stamped) =>
        if s == server
        then
          && WithinLifetime(rest, server)
          && (Streak(rest, server) > 0 ==> stamped < LastFailure(rest, server) + CIRCUIT_TTL)
        else WithinLifetime(rest, server)
      case Succeeded(s) => s == server || WithinLifetime(rest, server)
      case Looked(_, _) => WithinLifetime(rest, server)
  }

  /** The shared hash of a server, as its history leaves it. */
  ghost predicate SharedReflects(cfg: Config, hashes: Hashes, history: seq<Event>, server: string, now: int) {
    var n := Streak(history, server);
    if n == 0 then server !in hashes
    else if server !in hashes then now >= LastFailure(history, server) + CIRCUIT_TTL
    else
      var h := hashes[server];
      && h.expiresAt == Some(LastFailure(history, server) + CIRCUIT_TTL) && h != NO_HASH
      && if n < cfg.threshold then StateField(h) == Closed && h.failures == n
         else
           && h.failures >= cfg.threshold && h.openedAt == LastFailure(history, server)
           && (StateField(h) == Open || (StateField(h) == HalfOpen && now - h.openedAt >= cfg.cooldown))
  }

  lemma {:induction false} HashReflectsHistory(cfg: Config, history: seq<Event>, server: string, now: int)
    requires Monotone(history, now) && WithinLifetime(history, server)
    ensures SharedReflects(cfg, SharedAfter(cfg, history), history, server, now)
  {
    if history != [] {
      var rest := history[..|history| - 1];
      match history[|history| - 1]
      case Looked(_, at) =>
        HashReflectsHistory(cfg, rest, server, at);
      case Succeeded(s) =>
        if s != server {
          HashReflectsHistory(cfg, rest, server, now);
        }
      case FailedCall(s, read, stamped) =>
        HashReflectsHistory(cfg, rest, server, read);
    }
  }

  /**
   Within a key lifetime of the last failure the shared breaker answers as the in-process
   one does on the same history; from then on it has forgotten the streak and says CLOSED.
   */
  lemma SharedBreakerAgrees(cfg: Config, history: seq<Event>, server: string, now: int)
    requires Monotone(history, now) && WithinLifetime(history, server)
    ensures SharedState(cfg, SharedAfter(cfg, history), server, now)
            == if Streak(history, server) > 0 && now >= LastFailure(history, server) + CIRCUIT_TTL then Closed
               else Refreshed(cfg, Of(After(cfg, history), server), now).state
  {
    BreakerClosedForm(cfg, history, server, now);
    HashReflectsHistory(cfg, history, server, now);
  }
}
