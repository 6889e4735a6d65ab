/** The live socket of a mounted page: connecting, backing off, and following tab visibility.
    A visibility change and its handler are one step; so are unmounting and its cleanup. */
module Reconnect {
  import opened Wrappers

  const MIN_BACKOFF: nat := 1000
  const MAX_BACKOFF: nat := 15_000

  /** `live` are the sockets that are open or connecting with handlers attached, `armed` the
      timers that will still fire. The refs may name a socket that has closed or a timer that
      has fired. */
  datatype State = State(
    cancelled: bool, hidden: bool, wsRef: Option<nat>, timerRef: Option<nat>,
    live: set<nat>, armed: set<nat>, backoff: nat, next: nat)

  datatype Event =
    | SocketOpens(socket: nat)
    | SocketCloses(socket: nat)
    | TimerFires(timer: nat)
    | VisibilityChanges
    | Unmount
    /** The effect runs again for a new scope or revision, after its cleanup. */
    | Remount

  function Connect(s: State): State
  {
    if s.cancelled || s.hidden then s
    else s.(wsRef := Some(s.next), live := s.live + {s.next}, next := s.next + 1)
  }

  /** Clears the timer and detaches and closes the socket that the refs name. */
  function TornDown(s: State): State
  {
    s.(timerRef := None, armed := if s.timerRef.Some? then s.armed - {s.timerRef.value} else s.armed,
       wsRef := None, live := if s.wsRef.Some? then s.live - {s.wsRef.value} else s.live)
  }

  function Closed(s: State): State
  {
    if s.cancelled || s.hidden then s
    else
      s.(backoff := if s.backoff * 2 < MAX_BACKOFF then s.backoff * 2 else MAX_BACKOFF,
         timerRef := Some(s.next), armed := s.armed + {s.next}, next := s.next + 1)
  }

  function VisibilityHandled(s: State): State
  {
    if s.cancelled then s
    else if s.hidden then TornDown(s)
    else if s.wsRef.Some? || s.timerRef.Some? then s
    else Connect(s.(backoff := MIN_BACKOFF))
  }

  /** Only attached sockets and armed timers can call back. */
  function Step(s: State, e: Event): State
  {
    match e
    case SocketOpens(w) => if w in s.live && !s.cancelled then s.(backoff := MIN_BACKOFF) else s
    case SocketCloses(w) => if w in s.live then Closed(s.(live := s.live - {w})) else s
    case TimerFires(t) => if t in s.armed then Connect(s.(armed := s.armed - {t})) else s
    case VisibilityChanges => VisibilityHandled(s.(hidden := !s.hidden))
    case Unmount => TornDown(s.(cancelled := true))
    case Remount => Connect(TornDown(s).(cancelled := false, backoff := MIN_BACKOFF))
  }

  function Mounted(hidden: bool): State
  {
    Connect(State(false, hidden, None, None, {}, {}, MIN_BACKOFF, 0))
  }

  function Run(hidden: bool, events: seq<Event>): State
  {
    if events == [] then Mounted(hidden) else Step(Run(hidden, events[..|events| - 1]), events[|events| - 1])
  }

  /** A visible page has exactly one socket or one timer, and the refs know it. */
  ghost predicate Covered(s: State)
  {
    || (exists w :: s.live == {w} && s.armed == {} && s.wsRef == Some(w))
    || (exists t :: s.live == {} && s.armed == {t} && s.timerRef == Some(t))
  }

  ghost predicate Inv(s: State)
  {
    && MIN_BACKOFF <= s.backoff <= MAX_BACKOFF
    && (!s.cancelled && !s.hidden ==> Covered(s))
    && (s.cancelled || s.hidden ==> s.live == {} && s.armed == {} && s.wsRef == None && s.timerRef == None)
  }

  lemma ConnectCovers(s: State)
    requires s.live == {} && s.armed == {} && !s.cancelled && !s.hidden
    ensures Covered(Connect(s))
  {
    assert Connect(s).live == {s.next};
  }

  lemma {:induction false} StepKeeps(s: State, e: Event)
    requires Inv(s)
    ensures Inv(Step(s, e))
  {
    if !s.cancelled && !s.hidden {
      match e
      case SocketOpens(_) =>
      case SocketCloses(w) =>
        if w in s.live {
          var t := Step(s, e);
          assert t.live == {} && t.armed == {s.next};
        }
      case TimerFires(t) =>
        if t in s.armed {
          assert s.armed - {t} == {};
          ConnectCovers(s.(armed := s.armed - {t}));
        }
      case VisibilityChanges => TornDownEmpty(s.(hidden := true));
      case Unmount => TornDownEmpty(s.(cancelled := true));
      case Remount =>
        TornDownEmpty(s);
        ConnectCovers(TornDown(s).(cancelled := false, backoff := MIN_BACKOFF));
    } else {
      match e
      case VisibilityChanges =>
        if !s.cancelled {
          ConnectCovers(s.(hidden := false, backoff := MIN_BACKOFF));
        }
      case Remount =>
        if !s.hidden {
          ConnectCovers(TornDown(s).(cancelled := false, backoff := MIN_BACKOFF));
        }
      case _ =>
    }
  }

  lemma TornDownEmpty(s: State)
    requires Covered(s)
    ensures TornDown(s).live == {} && TornDown(s).armed == {}
  {
  }

  /** In every reachable state a visible mounted page has exactly one of a live socket and an
      armed timer, a hidden or unmounted one has neither, and the backoff stays in range. */
  lemma {:induction false} AlwaysCovered(hidden: bool, events: seq<Event>)
    ensures Inv(Run(hidden, events))
    ensures var s := Run(hidden, events);
            |s.live| + |s.armed| == if s.cancelled || s.hidden then 0 else 1
    decreases |events|
  {
    if events == [] {
      if !hidden {
        ConnectCovers(State(false, hidden, None, None, {}, {}, MIN_BACKOFF, 0));
      }
    } else {
      AlwaysCovered(hidden, events[..|events| - 1]);
      StepKeeps(Run(hidden, events[..|events| - 1]), events[|events| - 1]);
    }
  }

  // ---- The hook's variables ----

  class LiveSocketHook {
    var cancelled: bool
    var hidden: bool
    var wsRef: Option<nat>
    var reconnectTimerRef: Option<nat>
    var live: set<nat>
    var armed: set<nat>
    var backoff: nat
    var next: nat

    ghost function Model(): State
      reads this
    {
      State(cancelled, hidden, wsRef, reconnectTimerRef, live, armed, backoff, next)
    }

    constructor (hidden: bool)
      ensures Model() == Mounted(hidden)
    {
      cancelled, this.hidden := false, hidden;
      wsRef, reconnectTimerRef, live, armed := None, None, {}, {};
      backoff, next := MIN_BACKOFF, 0;
      new;
      Open();
    }

    /** `connect`. */
    method Open()
      modifies this
      ensures Model() == Connect(old(Model()))
    {
      if cancelled || hidden {
        return;
      }
      wsRef := Some(next);
      live := live + {next};
      next := next + 1;
    }

    method Teardown()
      modifies this
      ensures Model() == TornDown(old(Model()))
    {
      if reconnectTimerRef.Some? {
        armed := armed - {reconnectTimerRef.value};
        reconnectTimerRef := None;
      }
      var socket := wsRef;
      wsRef := None;
      if socket.None? {
        return;
      }
      live := live - {socket.value};
    }

    method OnOpen(socket: nat)
      requires socket in live
      modifies this
      ensures Model() == Step(old(Model()), SocketOpens(socket))
    {
      if cancelled {
        return;
      }
      backoff := MIN_BACKOFF;
    }

    method OnClose(socket: nat)
      requires socket in live
      modifies this
      ensures Model() == Step(old(Model()), SocketCloses(socket))
    {
      live := live - {socket};
      if cancelled || hidden {
        return;
      }
      backoff := if backoff * 2 < MAX_BACKOFF then backoff * 2 else MAX_BACKOFF;
      reconnectTimerRef := Some(next);
      armed := armed + {next};
      next := next + 1;
    }

    method OnTimer(timer: nat)
      requires timer in armed
      modifies this
      ensures Model() == Step(old(Model()), TimerFires(timer))
    {
      armed := armed - {timer};
      Open();
    }

    method HandleVisibility()
      modifies this
      ensures Model() == Step(old(Model()), VisibilityChanges)
    {
      hidden := !hidden;
      if cancelled {
        return;
      }
      if hidden {
        Teardown();
        return;
      }
      if wsRef.Some? || reconnectTimerRef.Some? {
        return;
      }
      backoff := MIN_BACKOFF;
      Open();
    }

    method OnUnmount()
      modifies this
      ensures Model() == Step(old(Model()), Unmount)
    {
      cancelled := true;
      Teardown();
    }
  }
}
