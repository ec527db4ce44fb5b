// The reconnecting WebSocket client: an event-driven machine over the browser's
// sockets and timers.
module WsClient {
  import opened Common

  datatype Status = Idle | Connecting | Open | Reconnecting | Closed | Failed

  datatype Config = Config(heartbeatMs: int, maxReconnects: int)

  // The client's variables; the browser's sockets that have not closed, and
  // those that have opened; and what happened since the start or the last open:
  // connections started and backoffs scheduled.
  datatype Client = Client(status: Status, socket: Option<nat>, attempt: nat, timer: Option<nat>,
                           heartbeat: bool, closedByUser: bool,
                           alive: set<nat>, wasOpen: set<nat>, next: nat,
                           started: nat, delays: seq<nat>)

  const INITIAL_BACKOFF_MS := 1000
  const MAX_BACKOFF_MS := 30000

  function Pow2(n: nat): nat { if n == 0 then 1 else 2 * Pow2(n - 1) }

  function Backoff(attempt: nat): nat
    requires attempt > 0
  {
    Min(INITIAL_BACKOFF_MS * Pow2(attempt - 1), MAX_BACKOFF_MS)
  }

  // ---- Transitions -------------------------------------------------------------

  function ScheduleReconnect(cfg: Config, c: Client): Client {
    if c.closedByUser then c
    else if c.attempt >= cfg.maxReconnects then c.(status := Failed)
    else
      var delay := Backoff(c.attempt + 1);
      c.(attempt := c.attempt + 1, status := Reconnecting, timer := Some(delay), delays := c.delays + [delay])
  }

  function UserClose(c: Client): Client {
    c.(closedByUser := true, heartbeat := false, timer := None, socket := None, status := Closed)
  }

  // The constructor may throw; an error listener may close the client.
  function Connect(cfg: Config, c: Client, throws: bool, listenerCloses: bool): Client {
    if c.closedByUser then c
    else
      var trying := c.(status := Connecting, started := c.started + 1);
      if throws then ScheduleReconnect(cfg, if listenerCloses then UserClose(trying) else trying)
      else trying.(socket := Some(c.next), alive := c.alive + {c.next}, next := c.next + 1)
  }

  function OnOpen(cfg: Config, c: Client, s: nat): Client {
    var seen := c.(wasOpen := c.wasOpen + {s});
    if c.closedByUser then seen
    else seen.(attempt := 0, status := Open, heartbeat := cfg.heartbeatMs > 0, started := 0, delays := [])
  }

  function OnClose(cfg: Config, c: Client, s: nat, listenerCloses: bool): Client {
    var gone := c.(alive := c.alive - {s}, heartbeat := false, socket := None);
    var told := if listenerCloses then UserClose(gone) else gone;
    if !told.closedByUser then ScheduleReconnect(cfg, told) else told.(status := Closed)
  }

  function Reconnect(cfg: Config, c: Client, throws: bool, listenerCloses: bool): Client {
    Connect(cfg, c.(closedByUser := false, attempt := 0, timer := None, socket := None, started := 0, delays := []),
            throws, listenerCloses)
  }

  // A message or an error of a socket changes nothing but what listeners see.
  datatype Event =
    | Opened(s: nat)
    | Dropped(s: nat, listenerCloses: bool)
    | TimerFires(throws: bool, listenerCloses: bool)
    | Noise
    | CloseCalled
    | ReconnectCalled(throws: bool, listenerCloses: bool)

  // The browser opens a socket at most once, before it closes it, and closes it
  // once; a timer fires only while pending.
  function Step(cfg: Config, c: Client, e: Event): Client {
    match e
    case Opened(s) => if s in c.alive && s !in c.wasOpen then OnOpen(cfg, c, s) else c
    case Dropped(s, closes) => if s in c.alive then OnClose(cfg, c, s, closes) else c
    case TimerFires(throws, closes) =>
      if c.timer.Some? then Connect(cfg, c.(timer := None), throws, closes) else c
    case Noise => c
    case CloseCalled => UserClose(c)
    case ReconnectCalled(throws, closes) => Reconnect(cfg, c, throws, closes)
  }

  const IDLE := Client(Idle, None, 0, None, false, false, {}, {}, 0, 0, [])

  // Creating a client connects; it has no listeners yet.
  function Start(cfg: Config, throws: bool): Client { Connect(cfg, IDLE, throws, false) }

  function After(cfg: Config, c: Client, es: seq<Event>): Client {
    if es == [] then c else Step(cfg, After(cfg, c, es[..|es| - 1]), es[|es| - 1])
  }

  // ---- Invariant ---------------------------------------------------------------

  function Backoffs(n: nat): seq<nat> {
    if n == 0 then [] else Backoffs(n - 1) + [Backoff(n)]
  }

  // Until the user closes it, the client is in exactly one of three situations:
  // one socket and no timer; one timer, for the backoff of this attempt, and no
  // socket; or given up, with its attempts used up. Closed, it has nothing.
  ghost predicate Inv(cfg: Config, c: Client) {
    && (forall s <- c.alive :: s < c.next)
    && (forall s <- c.wasOpen :: s < c.next)
    && c.attempt <= Max(0, cfg.maxReconnects)
    && c.delays == Backoffs(c.attempt)
    && c.started <= c.attempt + 1
    && (c.heartbeat <==> c.status == Open && cfg.heartbeatMs > 0)
    && if c.closedByUser then
         c.status == Closed && c.socket.None? && c.timer.None?
       else
         && c.alive == (if c.socket.Some? then {c.socket.value} else {})
         && (c.socket.Some? ==> c.timer.None? && c.status == if c.socket.value in c.wasOpen then Open else Connecting)
         && (c.timer.Some? ==> c.status == Reconnecting && c.attempt > 0 && c.timer.value == Backoff(c.attempt)
                               && c.started <= c.attempt)
         && (c.socket.None? && c.timer.None? ==> c.status == Failed && c.attempt == Max(0, cfg.maxReconnects))
  }

  lemma StepKeepsInv(cfg: Config, c: Client, e: Event)
    requires Inv(cfg, c) && (e.ReconnectCalled? ==> c.alive == {})
    ensures Inv(cfg, Step(cfg, c, e))
  {
    match e
    case Opened(_) =>
    case Dropped(s, _) =>
      if s in c.alive && !c.closedByUser { assert c.alive - {s} == {}; }
    case TimerFires(_, _) =>
    case Noise =>
    case CloseCalled =>
    case ReconnectCalled(_, _) =>
      assert c.alive + {c.next} == {c.next};
  }

  // reconnect() is called, if at all, only while no socket is left open.
  ghost predicate QuietReconnects(cfg: Config, c: Client, es: seq<Event>) {
    forall i | 0 <= i < |es| && es[i].ReconnectCalled? :: After(cfg, c, es[..i]).alive == {}
  }

  lemma {:induction false} RunKeepsInv(cfg: Config, throws: bool, es: seq<Event>)
    requires QuietReconnects(cfg, Start(cfg, throws), es)
    ensures Inv(cfg, After(cfg, Start(cfg, throws), es))
  {
    if es != [] {
      var init := es[..|es| - 1];
      forall i | 0 <= i < |init| && init[i].ReconnectCalled?
        ensures After(cfg, Start(cfg, throws), init[..i]).alive == {}
      {
        assert init[..i] == es[..i];
      }
      RunKeepsInv(cfg, throws, init);
      StepKeepsInv(cfg, After(cfg, Start(cfg, throws), init), es[|es| - 1]);
    }
  }

  // What that means for every run: never an open socket beside a pending timer,
  // never two open sockets unless the user closed the client, a heartbeat only
  // while open, and at most maxReconnects + 1 connections since the last open.
  lemma {:induction false} ReconnectMachine(cfg: Config, throws: bool, es: seq<Event>)
    requires QuietReconnects(cfg, Start(cfg, throws), es)
    ensures var c := After(cfg, Start(cfg, throws), es);
      && !(c.alive != {} && c.timer.Some?)
      && (!c.closedByUser ==> |c.alive| <= 1)
      && (c.heartbeat ==> c.status == Open && c.socket.Some? && c.socket.value in c.alive && c.socket.value in c.wasOpen)
      && c.started <= Max(0, cfg.maxReconnects) + 1
      && (c.status == Failed ==> Total(c.delays) == Total(Backoffs(Max(0, cfg.maxReconnects))))
  {
    RunKeepsInv(cfg, throws, es);
  }

  // After close(), and until reconnect(), the client stays closed and opens
  // nothing, whatever events its old socket still delivers.
  lemma {:induction false} ClosedIsAbsorbing(cfg: Config, c: Client, es: seq<Event>)
    requires Inv(cfg, c) && c.closedByUser && forall e <- es :: !e.ReconnectCalled?
    ensures var c' := After(cfg, c, es);
      Inv(cfg, c') && c'.closedByUser && c'.status == Closed && c'.next == c.next && c'.alive <= c.alive
  {
    if es != [] {
      ClosedIsAbsorbing(cfg, c, es[..|es| - 1]);
      StepKeepsInv(cfg, After(cfg, c, es[..|es| - 1]), es[|es| - 1]);
    }
  }

  // ---- Counting from the events ------------------------------------------------

  predicate Opens(c: Client, e: Event) {
    e.Opened? && e.s in c.alive && e.s !in c.wasOpen && !c.closedByUser
  }

  predicate Fails(c: Client, e: Event) {
    (e.Dropped? && e.s in c.alive) || (e.TimerFires? && c.timer.Some? && e.throws)
  }

  // The connections that failed or were lost since the client started, was told to
  // reconnect, or was last open.
  function Failures(cfg: Config, throws: bool, es: seq<Event>): nat {
    if es == [] then if throws then 1 else 0
    else NextFailures(After(cfg, Start(cfg, throws), es[..|es| - 1]), es[|es| - 1],
                      Failures(cfg, throws, es[..|es| - 1]))
  }

  function NextFailures(c: Client, e: Event, n: nat): nat {
    if e.ReconnectCalled? then if e.throws then 1 else 0
    else if Opens(c, e) then 0
    else if Fails(c, e) then n + 1
    else n
  }

  // The connections started since then.
  function Starts(cfg: Config, throws: bool, es: seq<Event>): nat {
    if es == [] then 1
    else NextStarts(After(cfg, Start(cfg, throws), es[..|es| - 1]), es[|es| - 1], Starts(cfg, throws, es[..|es| - 1]))
  }

  function NextStarts(c: Client, e: Event, n: nat): nat {
    if e.ReconnectCalled? then 1
    else if Opens(c, e) then 0
    else if e.TimerFires? && c.timer.Some? then n + 1
    else n
  }

  // What the client does follows from the number of failures.
  ghost predicate Follows(cfg: Config, c: Client, failures: nat) {
    && c.attempt == Min(failures, Max(0, cfg.maxReconnects))
    && (c.status == Failed <==> failures > Max(0, cfg.maxReconnects))
    && (c.timer.Some? ==> failures > 0 && c.timer.value == Backoff(failures))
  }

  lemma StepFollows(cfg: Config, c: Client, e: Event, failures: nat, starts: nat)
    requires Inv(cfg, c) && (e.ReconnectCalled? ==> c.alive == {})
    requires (!c.closedByUser ==> Follows(cfg, c, failures)) && c.started == starts
    ensures var c' := Step(cfg, c, e);
      && (!c'.closedByUser ==> Follows(cfg, c', NextFailures(c, e, failures)))
      && c'.started == NextStarts(c, e, starts)
  {
    match e
    case Opened(_) =>
    case Dropped(_, _) =>
    case TimerFires(_, _) =>
    case Noise =>
    case CloseCalled =>
    case ReconnectCalled(_, _) =>
  }

  // Over every run: each failure since the last open backs off twice as long, up to
  // the cap, and the client gives up exactly when there are more than it may retry.
  lemma {:induction false} CountsFollowEvents(cfg: Config, throws: bool, es: seq<Event>)
    requires QuietReconnects(cfg, Start(cfg, throws), es)
    ensures var c := After(cfg, Start(cfg, throws), es);
      && (!c.closedByUser ==> Follows(cfg, c, Failures(cfg, throws, es)))
      && c.started == Starts(cfg, throws, es)
  {
    if es != [] {
      var init := es[..|es| - 1];
      assert QuietReconnects(cfg, Start(cfg, throws), init) by {
        assert forall i | 0 <= i <= |init| :: init[..i] == es[..i];
      }
      var before := After(cfg, Start(cfg, throws), init);
      CountsFollowEvents(cfg, throws, init);
      RunKeepsInv(cfg, throws, init);
      hide Step, Inv, Follows, NextFailures, NextStarts;
      StepFollows(cfg, before, es[|es| - 1], Failures(cfg, throws, init), Starts(cfg, throws, init));
    }
  }

  // In particular the first drop after an open retries after a second, however
  // often the client had to retry before it.
  lemma DropAfterOpen(cfg: Config, c: Client, s: nat)
    requires Inv(cfg, c) && Opens(c, Opened(s)) && cfg.maxReconnects >= 1
    ensures var c' := Step(cfg, Step(cfg, c, Opened(s)), Dropped(s, false));
      c'.timer == Some(1000) && c'.attempt == 1 && c'.status == Reconnecting
  {
  }

  // Exactly what closes the client: close(), or a listener that closes it when a
  // socket is lost or a constructor throws; and exactly what opens it again.
  predicate Closes(c: Client, e: Event) {
    match e
    case CloseCalled => true
    case Dropped(s, listenerCloses) => s in c.alive && listenerCloses
    case TimerFires(throws, listenerCloses) => c.timer.Some? && throws && listenerCloses
    case ReconnectCalled(throws, listenerCloses) => throws && listenerCloses
    case _ => false
  }

  lemma ClosedIff(cfg: Config, c: Client, e: Event)
    requires Inv(cfg, c)
    ensures var c' := Step(cfg, c, e);
      && (c'.closedByUser <==> Closes(c, e) || (c.closedByUser && !e.ReconnectCalled?))
      && (Closes(c, e) ==> c'.status == Closed && c'.socket == None && c'.timer == None && !c'.heartbeat)
  {
  }

  // ---- reconnect() ---------------------------------------------------------------

  // reconnect() is safe exactly when no socket is left open, or when it ends up
  // closing the client: it drops its handle on the old socket, whose late close
  // event then acts on the new one.
  lemma ReconnectSafeIff(cfg: Config, c: Client, throws: bool, listenerCloses: bool)
    requires Inv(cfg, c)
    ensures Inv(cfg, Step(cfg, c, ReconnectCalled(throws, listenerCloses)))
       <==> c.alive == {} || (throws && listenerCloses)
  {
    if c.alive == {} {
      StepKeepsInv(cfg, c, ReconnectCalled(throws, listenerCloses));
    } else {
      var s :| s in c.alive;
      var c' := Step(cfg, c, ReconnectCalled(throws, listenerCloses));
      assert s < c.next;
      assert s in c'.alive && c'.socket != Some(s);
    }
  }

  // Called while open, it ends with two connections where the client knows one.
  lemma ReconnectLeaksSocket()
    ensures var es := [Opened(0), ReconnectCalled(false, false), Dropped(0, false), TimerFires(false, false)];
      var c := After(Config(0, 8), Start(Config(0, 8), false), es);
      c.alive == {1, 2} && c.socket == Some(2) && c.timer == None
  {
    var cfg := Config(0, 8);
    var es := [Opened(0), ReconnectCalled(false, false), Dropped(0, false), TimerFires(false, false)];
    var c := Start(cfg, false);
    assert es[..4] == es && es[..3][..2] == es[..2] && es[..2][..1] == es[..1] && es[..1][..0] == [];
    assert After(cfg, c, es[..1]) == OnOpen(cfg, c, 0);
    assert After(cfg, c, es[..2]).alive == {0, 1};
    assert After(cfg, c, es[..3]).alive == {1} && After(cfg, c, es[..3]).timer == Some(1000);
  }

  // ---- Backoff -------------------------------------------------------------------

  function Total(delays: seq<nat>): nat {
    if delays == [] then 0 else Total(delays[..|delays| - 1]) + delays[|delays| - 1]
  }

  lemma {:induction false} Pow2Grows(n: nat)
    requires n >= 5
    ensures Pow2(n) >= 32
  {
    if n > 5 { Pow2Grows(n - 1); } else { assert Pow2(3) == 8; }
  }

  // n backoffs in a row: doubling up to the fifth, then the cap.
  lemma {:induction false} BackoffTotal(n: nat)
    ensures Total(Backoffs(n)) == 1000 * (Pow2(Min(n, 5)) - 1) + 30000 * Max(0, n - 5)
  {
    if n > 0 {
      BackoffTotal(n - 1);
      assert Backoffs(n)[..|Backoffs(n)| - 1] == Backoffs(n - 1);
      if n > 5 { Pow2Grows(n - 1); } else { Pow2Small(n - 1); }
    }
  }

  lemma Pow2Small(n: nat)
    requires n < 5
    ensures Pow2(n) <= 16
  {
    assert Pow2(2) == 4;
  }

  // So a client with the default limit gives up 121 seconds of backoff after the
  // last time it was open.
  lemma {:induction false} GivesUpAfter(throws: bool, es: seq<Event>)
    requires QuietReconnects(Config(25000, 8), Start(Config(25000, 8), throws), es)
    requires After(Config(25000, 8), Start(Config(25000, 8), throws), es).status == Failed
    ensures Total(After(Config(25000, 8), Start(Config(25000, 8), throws), es).delays) == 121000
  {
    RunKeepsInv(Config(25000, 8), throws, es);
    BackoffTotal(8);
    assert Pow2(3) == 8;
    hide After;
  }

  // ---- The client object ---------------------------------------------------------

  class WsClientObject {
    const cfg: Config
    var status: Status
    var socket: Option<nat>
    var reconnectAttempt: nat
    var reconnectTimer: Option<nat>
    var heartbeatTimer: bool
    var closedByUser: bool
    // The browser's side, and the bookkeeping of the claims above.
    var alive: set<nat>
    var wasOpen: set<nat>
    var next: nat
    ghost var started: nat
    ghost var delays: seq<nat>

    ghost function State(): Client
      reads this
    {
      Client(status, socket, reconnectAttempt, reconnectTimer, heartbeatTimer, closedByUser, alive, wasOpen, next,
             started, delays)
    }

    constructor (cfg: Config, throws: bool)
      ensures this.cfg == cfg && State() == Start(cfg, throws)
    {
      this.cfg, status, socket, reconnectAttempt, reconnectTimer := cfg, Idle, None, 0, None;
      heartbeatTimer, closedByUser, alive, wasOpen, next, started, delays := false, false, {}, {}, 0, 0, [];
      new;
      DoConnect(throws, false);
    }

    method DoSchedule()
      modifies this
      ensures State() == ScheduleReconnect(cfg, old(State()))
    {
      if closedByUser { return; }
      if reconnectAttempt >= cfg.maxReconnects {
        status := Failed;
        return;
      }
      reconnectAttempt := reconnectAttempt + 1;
      var backoff := BackoffMs(reconnectAttempt);
      status := Reconnecting;
      reconnectTimer := Some(backoff);
      delays := delays + [backoff];
    }

    method BackoffMs(attempt: nat) returns (ms: nat)
      requires attempt > 0
      ensures ms == Backoff(attempt)
    {
      ms := INITIAL_BACKOFF_MS;
      var i := 1;
      while i < attempt
        invariant 1 <= i <= attempt && ms == INITIAL_BACKOFF_MS * Pow2(i - 1)
      {
        ms := 2 * ms;
        i := i + 1;
      }
      if ms > MAX_BACKOFF_MS { ms := MAX_BACKOFF_MS; }
    }

    method DoConnect(throws: bool, listenerCloses: bool)
      modifies this
      ensures State() == Connect(cfg, old(State()), throws, listenerCloses)
    {
      if closedByUser { return; }
      status := Connecting;
      started := started + 1;
      if throws {
        if listenerCloses { Close(); }
        DoSchedule();
        return;
      }
      socket := Some(next);
      alive := alive + {next};
      next := next + 1;
    }

    method HandleOpen(s: nat)
      requires s in alive && s !in wasOpen
      modifies this
      ensures State() == Step(cfg, old(State()), Opened(s))
    {
      wasOpen := wasOpen + {s};
      if closedByUser { return; }
      reconnectAttempt := 0;
      started, delays := 0, [];
      status := Open;
      heartbeatTimer := false;
      if cfg.heartbeatMs > 0 { heartbeatTimer := true; }
    }

    method HandleClose(s: nat, listenerCloses: bool)
      requires s in alive
      modifies this
      ensures State() == Step(cfg, old(State()), Dropped(s, listenerCloses))
    {
      alive := alive - {s};
      heartbeatTimer := false;
      socket := None;
      if listenerCloses { Close(); }
      if !closedByUser { DoSchedule(); } else { status := Closed; }
    }

    method HandleTimer(throws: bool, listenerCloses: bool)
      requires reconnectTimer.Some?
      modifies this
      ensures State() == Step(cfg, old(State()), TimerFires(throws, listenerCloses))
    {
      reconnectTimer := None;
      DoConnect(throws, listenerCloses);
    }

    // A frame goes out only on a socket that is open, and only if it can be sent.
    method Send(throws: bool) returns (sent: bool)
      ensures sent <==> socket.Some? && socket.value in wasOpen && socket.value in alive && !throws
    {
      if socket.None? || socket.value !in wasOpen || socket.value !in alive { return false; }
      return !throws;
    }

    method Close()
      modifies this
      ensures State() == Step(cfg, old(State()), CloseCalled)
    {
      closedByUser := true;
      heartbeatTimer := false;
      if reconnectTimer.Some? { reconnectTimer := None; }
      if socket.Some? { socket := None; }
      status := Closed;
    }

    method Forget()
      modifies this
      ensures State() == old(State()).(closedByUser := false, attempt := 0, timer := None, socket := None,
                                       started := 0, delays := [])
    {
      closedByUser := false;
      reconnectAttempt := 0;
      started, delays := 0, [];
      if reconnectTimer.Some? { reconnectTimer := None; }
      if socket.Some? { socket := None; }
    }

    method ForceReconnect(throws: bool, listenerCloses: bool)
      modifies this
      ensures State() == Step(cfg, old(State()), ReconnectCalled(throws, listenerCloses))
    {
      Forget();
      DoConnect(throws, listenerCloses);
    }
  }
}
