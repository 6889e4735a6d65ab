/** The agent's IO stream: frames for terminal and NAT sessions, interleaved with remote
    configuration updates and with NAT readers that finish on their own. */
module AgentIo {
  import opened Sets
  import opened PosixPath
  import AgentConfig
  import opened Wrappers

  type StreamId = string

  datatype TerminalMessage = OpenTerminal | Input | Resize | CloseTerminal | Output | TerminalError
  datatype NatMessage = OpenNat | Ready

  /** Data carries what each of the two decoders makes of its bytes. */
  datatype Payload = Data(terminal: Option<TerminalMessage>, nat: Option<NatMessage>) | Close | ErrorOrNone
  datatype Frame = Frame(stream: StreamId, payload: Payload)

  /** What the outside world does while one frame is handled: `gone(k)` are the NAT readers
      that have finished by the k-th await. */
  datatype Surroundings = Surroundings(
    gone: nat -> set<StreamId>, terminalStarts: bool, natConnects: bool, writerAlive: bool)

  /** What a frame causes beyond the session maps. */
  datatype Effect =
    | TerminalOpened(stream: StreamId)
    | TerminalReceived(stream: StreamId)
    | TerminalResized(stream: StreamId)
    | TerminalClosed(stream: StreamId)
    | NatOpened(stream: StreamId)
    | NatForwarded(stream: StreamId)
    | NatClosed(stream: StreamId)
    | Refused(stream: StreamId)

  datatype State = State(config: AgentConfig.Config, terminals: set<StreamId>, nats: set<StreamId>)

  predicate UsesNat(e: Effect) { e.NatOpened? || e.NatForwarded? }
  predicate UsesTerminal(e: Effect) { e.TerminalOpened? || e.TerminalReceived? || e.TerminalResized? }

  function HandleTerminalMessage(s: State, id: StreamId, m: Option<TerminalMessage>): (State, seq<Effect>)
  {
    if s.config.disableCommandExecute then
      (s.(terminals := s.terminals - {id}), [TerminalClosed(id), Refused(id)])
    else
      match m
      case None => (s, [Refused(id)])
      case Some(Input) => (s, [TerminalReceived(id)])
      case Some(Resize) => (s, [TerminalResized(id)])
      case Some(CloseTerminal) => (s.(terminals := s.terminals - {id}), [TerminalClosed(id)])
      case Some(_) => (s, [])
  }

  function HandleNewTerminal(s: State, id: StreamId, m: TerminalMessage, w: Surroundings): (State, seq<Effect>)
  {
    match m
    case OpenTerminal =>
      if s.config.disableCommandExecute || !w.terminalStarts then (s, [Refused(id)])
      else (s.(terminals := s.terminals + {id}), [TerminalOpened(id)])
    case Input | Resize | CloseTerminal => (s, [Refused(id)])
    case Output | TerminalError => (s, [])
  }

  /** The reader of a new NAT session starts before the session is in the map, so its exit
      may remove nothing and leave the entry behind. */
  function HandleNatControl(s: State, id: StreamId, m: NatMessage, w: Surroundings): (State, seq<Effect>)
  {
    if s.config.disableNat then (s, [Refused(id)])
    else
      match m
      case OpenNat =>
        if !w.natConnects then (s, [Refused(id)])
        else (s.(nats := (s.nats - w.gone(1)) + {id}), [NatOpened(id)])
      case Ready => (s, [])
  }

  function HandleNatData(s: State, id: StreamId, w: Surroundings): (State, seq<Effect>)
  {
    if s.config.disableNat then (s.(nats := s.nats - w.gone(1) - {id}), [NatClosed(id), Refused(id)])
    else if w.writerAlive then (s, [NatForwarded(id)])
    else (s.(nats := s.nats - w.gone(1) - {id}), [NatClosed(id)])
  }

  function HandleFrame(s0: State, f: Frame, w: Surroundings): (State, seq<Effect>)
  {
    var s := s0.(nats := s0.nats - w.gone(0));
    match f.payload
    case Data(terminal, nat') =>
      if f.stream in s.terminals then HandleTerminalMessage(s, f.stream, terminal)
      else if f.stream in s.nats then HandleNatData(s, f.stream, w)
      else if terminal.Some? then HandleNewTerminal(s, f.stream, terminal.value, w)
      else if nat'.Some? then HandleNatControl(s, f.stream, nat'.value, w)
      else (s, [Refused(f.stream)])
    case Close =>
      if f.stream in s.terminals then (s.(terminals := s.terminals - {f.stream}), [TerminalClosed(f.stream)])
      else if f.stream in s.nats then
        (s.(nats := s.nats - w.gone(1) - {f.stream}), [NatClosed(f.stream)])
      else (s, [])
    case ErrorOrNone => (s, [])
  }

  // ---- Runs ----

  datatype Event =
    | FrameIn(frame: Frame, world: Surroundings)
    | ConfigUpdate(update: AgentConfig.Update)
    | NatReaderExit(stream: StreamId)
    | Disconnect

  function Step(s: State, e: Event, parse: AgentConfig.UrlParser): (State, seq<Effect>)
  {
    match e
    case FrameIn(frame, world) => HandleFrame(s, frame, world)
    case ConfigUpdate(u) => (s.(config := AgentConfig.Step(s.config, u, parse)), [])
    case NatReaderExit(id) => (s.(nats := s.nats - {id}), [])
    case Disconnect => (s.(terminals := {}, nats := {}), [])
  }

  function Run(config: AgentConfig.Config, events: seq<Event>, parse: AgentConfig.UrlParser): State
  {
    if events == [] then State(config, {}, {})
    else Step(Run(config, events[..|events| - 1], parse), events[|events| - 1], parse).0
  }

  function EffectsAt(config: AgentConfig.Config, events: seq<Event>, parse: AgentConfig.UrlParser, i: nat): seq<Effect>
    requires i < |events|
  {
    Step(Run(config, events[..i], parse), events[i], parse).1
  }

  /** Session kinds never overlap. */
  lemma {:induction false} StepKeepsKindsApart(s: State, e: Event, parse: AgentConfig.UrlParser)
    requires s.terminals !! s.nats
    ensures var t := Step(s, e, parse).0; t.terminals !! t.nats
  {
    hide AgentConfig.Step;
  }

  /** In every reachable state no stream is both a terminal and a NAT session. */
  lemma {:induction false} KindsNeverOverlap(config: AgentConfig.Config, events: seq<Event>,
                                             parse: AgentConfig.UrlParser)
    ensures Run(config, events, parse).terminals !! Run(config, events, parse).nats
    decreases |events|
  {
    hide Step;
    if events != [] {
      KindsNeverOverlap(config, events[..|events| - 1], parse);
      StepKeepsKindsApart(Run(config, events[..|events| - 1], parse), events[|events| - 1], parse);
    }
  }

  lemma {:induction false} StepGated(s: State, e: Event, parse: AgentConfig.UrlParser)
    ensures s.config.disableNat ==> forall x | x in Step(s, e, parse).1 :: !UsesNat(x)
    ensures s.config.disableCommandExecute ==> forall x | x in Step(s, e, parse).1 :: !UsesTerminal(x)
  {
    hide AgentConfig.Step;
  }

  lemma StepConfig(s: State, e: Event, parse: AgentConfig.UrlParser)
    ensures AgentConfig.LocksKept(s.config, Step(s, e, parse).0.config)
  {
    hide AgentConfig.Step, AgentConfig.Allowed, AgentConfig.Protected, AgentConfig.NormalPath;
    if e.ConfigUpdate? {
      AgentConfig.StepNarrows(s.config, e.update, parse);
    }
  }

  lemma {:induction false} LocksLast(config: AgentConfig.Config, events: seq<Event>, parse: AgentConfig.UrlParser,
                                     i: nat, j: nat)
    requires i <= j <= |events|
    ensures AgentConfig.LocksKept(Run(config, events[..i], parse).config, Run(config, events[..j], parse).config)
    decreases j
  {
    hide Step;
    if i < j {
      LocksLast(config, events, parse, i, j - 1);
      assert events[..j][..j - 1] == events[..j - 1];
      StepConfig(Run(config, events[..j - 1], parse), events[j - 1], parse);
    }
  }

  /** Once a lock is set, no later frame opens a session of that kind or reaches one, whatever
      sessions were open and whatever updates and reader exits come in between. */
  lemma {:induction false} DisabledKindsStayUnused(config: AgentConfig.Config, events: seq<Event>,
                                                   parse: AgentConfig.UrlParser, i: nat, j: nat)
    requires i <= j < |events|
    ensures Run(config, events[..i], parse).config.disableNat ==>
              forall x | x in EffectsAt(config, events, parse, j) :: !UsesNat(x)
    ensures Run(config, events[..i], parse).config.disableCommandExecute ==>
              forall x | x in EffectsAt(config, events, parse, j) :: !UsesTerminal(x)
  {
    hide Step, Run;
    LocksLast(config, events, parse, i, j);
    StepGated(Run(config, events[..j], parse), events[j], parse);
  }

  /** A live session of a disabled kind is torn down by its next data frame. */
  lemma DisabledSessionTornDown(s: State, f: Frame, w: Surroundings)
    requires f.payload.Data?
    ensures s.config.disableCommandExecute && f.stream in s.terminals ==>
              f.stream !in HandleFrame(s, f, w).0.terminals
    ensures s.config.disableNat && f.stream !in s.terminals ==> f.stream !in HandleFrame(s, f, w).0.nats
  {
  }

  /** While a kind is enabled its frames do act: sessions open, and input and data get through. */
  lemma EnabledKindsWork(s: State, id: StreamId, terminal: Option<TerminalMessage>, control: Option<NatMessage>,
                         w: Surroundings)
    ensures var (t, effects) := HandleFrame(s, Frame(id, Data(terminal, control)), w);
            var running := id in s.terminals || (id in s.nats && id !in w.gone(0));
            && (!s.config.disableCommandExecute && id in s.terminals && terminal == Some(Input) ==>
                  TerminalReceived(id) in effects)
            && (!s.config.disableCommandExecute && !running && terminal == Some(OpenTerminal) && w.terminalStarts ==>
                  id in t.terminals && TerminalOpened(id) in effects)
            && (!s.config.disableNat && running && id !in s.terminals && w.writerAlive ==> NatForwarded(id) in effects)
            && (!s.config.disableNat && !running && terminal == None && control == Some(OpenNat) && w.natConnects ==>
                  id in t.nats && NatOpened(id) in effects)
  {
  }

  /** Every live session goes back to a frame that opened it while its kind was enabled, with
      nothing closing it since. */
  ghost predicate OpenedBy(config: AgentConfig.Config, events: seq<Event>, parse: AgentConfig.UrlParser,
                           id: StreamId, i: nat, terminal: bool)
  {
    && i < |events|
    && (if terminal then TerminalOpened(id) else NatOpened(id)) in EffectsAt(config, events, parse, i)
    && (var at := Run(config, events[..i], parse).config;
        if terminal then !at.disableCommandExecute else !at.disableNat)
    && (forall j | i < j <= |events| ::
          id in (if terminal then Run(config, events[..j], parse).terminals else Run(config, events[..j], parse).nats))
  }

  lemma {:induction false} StepSessions(s: State, e: Event, parse: AgentConfig.UrlParser, id: StreamId)
    ensures id in Step(s, e, parse).0.terminals ==> id in s.terminals || TerminalOpened(id) in Step(s, e, parse).1
    ensures id in Step(s, e, parse).0.nats ==> id in s.nats || NatOpened(id) in Step(s, e, parse).1
  {
    hide AgentConfig.Step;
  }

  lemma {:induction false} SessionsWereOpened(config: AgentConfig.Config, events: seq<Event>,
                                              parse: AgentConfig.UrlParser, id: StreamId, terminal: bool)
    returns (i: nat)
    requires var s := Run(config, events, parse); id in (if terminal then s.terminals else s.nats)
    ensures OpenedBy(config, events, parse, id, i, terminal)
    decreases |events|
  {
    hide Step;
    if events == [] {
      assert false;
    } else {
      var n := |events| - 1;
      var init := events[..n];
      var s := Run(config, init, parse);
      assert events[..n + 1] == events;
      StepSessions(s, events[n], parse, id);
      if id in (if terminal then s.terminals else s.nats) {
        i := SessionsWereOpened(config, init, parse, id, terminal);
        assert events[..i] == init[..i];
        forall j | i < j <= |events|
          ensures var t := Run(config, events[..j], parse); id in (if terminal then t.terminals else t.nats)
        {
          if j <= n {
            assert events[..j] == init[..j];
          }
        }
      } else {
        i := n;
        StepGated(s, events[n], parse);
      }
    }
  }

  // ---- The session loop's state ----

  class AgentSession {
    var config: AgentConfig.Config
    var terminals: set<StreamId>
    var nats: set<StreamId>

    ghost function Model(): State
      reads this
    {
      State(config, terminals, nats)
    }

    constructor (config: AgentConfig.Config)
      ensures Model() == State(config, {}, {})
    {
      this.config := config;
      terminals, nats := {}, {};
    }

    method ApplyRemoteConfig(u: AgentConfig.Update, parse: AgentConfig.UrlParser) returns (ok: bool)
      modifies this
      ensures Model() == Step(old(Model()), ConfigUpdate(u), parse).0
      ensures ok <==> AgentConfig.Apply(old(config), u, parse).Ok?
    {
      var applied := AgentConfig.Apply(config, u, parse);
      if applied.Err? {
        return false;
      }
      config := applied.value;
      return true;
    }

    method HandleIoFrame(frame: Frame, w: Surroundings) returns (effects: seq<Effect>)
      modifies this
      ensures (Model(), effects) == HandleFrame(old(Model()), frame, w)
    {
      var id := frame.stream;
      nats := nats - w.gone(0);
      match frame.payload
      case Data(terminal, nat') =>
        if id in terminals {
          effects := TerminalData(id, terminal);
          return;
        }
        if id in nats {
          effects := NatData(id, w);
          return;
        }
        if terminal.Some? {
          effects := NewTerminal(id, terminal.value, w);
          return;
        }
        if nat'.Some? {
          effects := NatControl(id, nat'.value, w);
          return;
        }
        effects := [Refused(id)];
      case Close =>
        if id in terminals {
          terminals := terminals - {id};
          return [TerminalClosed(id)];
        }
        if id in nats {
          CloseNatSession(id, w);
          return [NatClosed(id)];
        }
        effects := [];
      case ErrorOrNone => effects := [];
    }

    method CloseNatSession(id: StreamId, w: Surroundings)
      modifies this
      ensures Model() == old(Model()).(nats := old(nats) - w.gone(1) - {id})
    {
      nats := nats - w.gone(1);
      nats := nats - {id};
    }

    method TerminalData(id: StreamId, m: Option<TerminalMessage>) returns (effects: seq<Effect>)
      requires id in terminals
      modifies this
      ensures (Model(), effects) == HandleTerminalMessage(old(Model()), id, m)
    {
      if config.disableCommandExecute {
        terminals := terminals - {id};
        return [TerminalClosed(id), Refused(id)];
      }
      if m.None? {
        return [Refused(id)];
      }
      match m.value
      case Input => effects := [TerminalReceived(id)];
      case Resize => effects := [TerminalResized(id)];
      case CloseTerminal =>
        terminals := terminals - {id};
        effects := [TerminalClosed(id)];
      case _ => effects := [];
    }

    method NatData(id: StreamId, w: Surroundings) returns (effects: seq<Effect>)
      modifies this
      ensures (Model(), effects) == HandleNatData(old(Model()), id, w)
    {
      if config.disableNat {
        CloseNatSession(id, w);
        return [NatClosed(id), Refused(id)];
      }
      if !w.writerAlive {
        CloseNatSession(id, w);
        return [NatClosed(id)];
      }
      return [NatForwarded(id)];
    }

    method NewTerminal(id: StreamId, m: TerminalMessage, w: Surroundings) returns (effects: seq<Effect>)
      modifies this
      ensures (Model(), effects) == HandleNewTerminal(old(Model()), id, m, w)
    {
      match m
      case OpenTerminal =>
        if config.disableCommandExecute {
          return [Refused(id)];
        }
        if !w.terminalStarts {
          return [Refused(id)];
        }
        terminals := terminals + {id};
        effects := [TerminalOpened(id)];
      case Input | Resize | CloseTerminal => effects := [Refused(id)];
      case Output | TerminalError => effects := [];
    }

    method NatControl(id: StreamId, m: NatMessage, w: Surroundings) returns (effects: seq<Effect>)
      modifies this
      ensures (Model(), effects) == HandleNatControl(old(Model()), id, m, w)
    {
      if config.disableNat {
        return [Refused(id)];
      }
      match m
      case OpenNat =>
        if !w.natConnects {
          return [Refused(id)];
        }
        nats := nats - w.gone(1);
        nats := nats + {id};
        effects := [NatOpened(id)];
      case Ready => effects := [];
    }

    /** Takes every session out of both maps and ends it. */
    method CleanupSessions() returns (ended: set<StreamId>)
      modifies this
      ensures Model() == State(old(config), {}, {})
      ensures ended == old(terminals) + old(nats)
    {
      ended := {};
      var todo := terminals;
      terminals := {};
      while todo != {}
        invariant terminals == {} && nats == old(nats) && config == old(config)
        invariant ended + todo == old(terminals)
        decreases todo
      {
        ghost var some := Member(todo);
        var id :| id in todo;
        ended, todo := ended + {id}, todo - {id};
      }
      todo := nats;
      nats := {};
      while todo != {}
        invariant terminals == {} && nats == {} && config == old(config)
        invariant ended + todo == old(terminals) + old(nats)
        decreases todo
      {
        ghost var some := Member(todo);
        var id :| id in todo;
        ended, todo := ended + {id}, todo - {id};
      }
    }
  }
}
