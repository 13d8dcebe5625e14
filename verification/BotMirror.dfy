/** How the hub's set of bot virtual users follows the bot registry.

    Five parties interleave: the register and unregister handlers (each split into
    its accesses to shared state), the loop that re-adds bots after a reconnect
    (which holds the registry's read lock while it queues), the hub socket loop that
    drains the FIFO command queue, the connection itself, and everything else that
    publishes events or queues unrelated commands.

    Every registration has a fresh token, returned to the bot only after its add was
    queued; an unregister handler needs the token the registry holds.

    The hub is modelled as keeping the latest profile it was sent for a nick and as
    starting every session with no virtual users. */
module BotMirror {
  import opened Common

  type Nick = string
  type Token = nat
  datatype Profile = Profile(description: string, email: string, tag: string)
  datatype Bot = Bot(profile: Profile, token: Token)
  datatype Command = Add(nick: Nick, profile: Profile) | Remove(nick: Nick) | Unrelated
  datatype Event = Connected | Disconnected | OtherEvent

  const BUS_CAPACITY: nat := 1024

  /** Where a handler stands: `Inserted` has put its bot in the registry and not queued
      the add; `Validated` has checked the token it was given; `Removed` has updated the
      registry and not queued its remove. `turn` counts the registry updates. */
  datatype Phase = Inserted(bot: Bot, turn: nat) | Validated | Removed(turn: nat)
  datatype Handler = Handler(nick: Nick, phase: Phase)

  /** `issued`: tokens of all registrations so far; `known`: those returned to a bot. */
  datatype State = State(
    registry: map<Nick, Bot>,
    issued: set<Token>,
    known: set<Token>,
    turns: nat,
    handlers: map<nat, Handler>,
    queue: seq<Command>,
    connected: bool,
    hub: map<Nick, Profile>,
    bus: seq<Event>,
    cursor: nat,
    readding: Option<set<Nick>>)

  datatype Step =
    | BeginRegister(id: nat, nick: Nick, profile: Profile, token: Token)
    | FinishRegister(id: nat)
    | BeginUnregister(id: nat, nick: Nick, token: Token)
    | RemoveBot(id: nat)
    | FinishUnregister(id: nat)
    | Abandon(id: nat)
    | Receive
    | ReaddOne(nick: Nick)
    | ReaddDone
    | Lag
    | Send
    | SendFails
    | Close
    | ConnectFails
    | Connect
    | Publish
    | QueueUnrelated

  const INIT: State := State(map[], {}, {}, 0, map[], [], false, map[], [], 0, None)

  /** A sender waits while the queue is full; a handler whose client goes away is dropped
      where it waits, for room or for the registry; a receiver further behind than the bus
      keeps events learns that it lagged and continues at the oldest one kept. */
  predicate Enabled(s: State, step: Step) {
    match step
    case BeginRegister(id, n, p, k) => id !in s.handlers && s.readding.None? && k !in s.issued
    case FinishRegister(id) => id in s.handlers && s.handlers[id].phase.Inserted? && HasRoom(s)
    case BeginUnregister(id, n, k) =>
      id !in s.handlers && n in s.registry && s.registry[n].token == k && k in s.known
    case RemoveBot(id) => id in s.handlers && s.handlers[id].phase.Validated? && s.readding.None?
    case FinishUnregister(id) => id in s.handlers && s.handlers[id].phase.Removed? && HasRoom(s)
    case Abandon(id) => id in s.handlers && (s.handlers[id].phase.Validated? || !HasRoom(s))
    case Receive => s.readding.None? && s.cursor < |s.bus| <= s.cursor + BUS_CAPACITY
    case ReaddOne(n) => s.readding.Some? && n in s.readding.value && n in s.registry && HasRoom(s)
    case ReaddDone => s.readding == Some({})
    case Lag => s.readding.None? && s.cursor + BUS_CAPACITY < |s.bus|
    case Send => s.connected && s.queue != []
    case SendFails => s.connected && s.queue != []
    case Close => s.connected
    case ConnectFails => !s.connected
    case Connect => !s.connected
    case Publish => true
    case QueueUnrelated => HasRoom(s)
  }

  predicate HasRoom(s: State) {
    |s.queue| < QUEUE_CAPACITY
  }

  function Apply(hub: map<Nick, Profile>, c: Command): map<Nick, Profile> {
    match c
    case Add(n, p) => hub[n := p]
    case Remove(n) => hub - {n}
    case Unrelated => hub
  }

  function Disconnect(s: State): State {
    s.(connected := false, hub := map[], bus := s.bus + [Disconnected])
  }

  function Next(s: State, step: Step): State
    requires Enabled(s, step)
  {
    match step
    case BeginRegister(id, n, p, k) =>
      s.(registry := s.registry[n := Bot(p, k)], issued := s.issued + {k}, turns := s.turns + 1,
         handlers := s.handlers[id := Handler(n, Inserted(Bot(p, k), s.turns))])
    case FinishRegister(id) =>
      var h := s.handlers[id];
      s.(queue := s.queue + [Add(h.nick, h.phase.bot.profile)], handlers := s.handlers - {id},
         known := s.known + {h.phase.bot.token})
    case BeginUnregister(id, n, k) =>
      s.(handlers := s.handlers[id := Handler(n, Validated)])
    case RemoveBot(id) =>
      var n := s.handlers[id].nick;
      s.(registry := s.registry - {n}, turns := s.turns + 1,
         handlers := s.handlers[id := Handler(n, Removed(s.turns))])
    case FinishUnregister(id) =>
      s.(queue := s.queue + [Remove(s.handlers[id].nick)], handlers := s.handlers - {id})
    case Abandon(id) => s.(handlers := s.handlers - {id})
    case Receive =>
      s.(cursor := s.cursor + 1,
         readding := if s.bus[s.cursor] == Connected then Some(s.registry.Keys) else None)
    case ReaddOne(n) =>
      s.(queue := s.queue + [Add(n, s.registry[n].profile)], readding := Some(s.readding.value - {n}))
    case ReaddDone => s.(readding := None)
    case Lag => s.(cursor := |s.bus| - BUS_CAPACITY)
    case Send => s.(queue := s.queue[1..], hub := Apply(s.hub, s.queue[0]))
    case SendFails => Disconnect(s.(queue := s.queue[1..]))
    case Close => Disconnect(s)
    case ConnectFails => s.(bus := s.bus + [Disconnected])
    case Connect => s.(connected := true, hub := map[], bus := s.bus + [Connected])
    case Publish => s.(bus := s.bus + [OtherEvent])
    case QueueUnrelated => s.(queue := s.queue + [Unrelated])
  }

  // ----- The two conditions under which the mirror is kept -----

  /** A handler has changed the registry and has its command still to queue. */
  predicate Pending(s: State, id: nat) {
    id in s.handlers && !s.handlers[id].phase.Validated?
  }

  /** No other handler for the same nick updated the registry earlier and is still to
      queue its command. */
  ghost predicate FirstInTurn(s: State, id: nat)
    requires Pending(s, id)
  {
    forall j | j != id && Pending(s, j) && s.handlers[j].nick == s.handlers[id].nick ::
      s.handlers[id].phase.turn < s.handlers[j].phase.turn
  }

  /** Whether handlers for one nick may queue their commands in another order than they
      updated the registry, whether lag may skip a reconnect event, and whether a handler
      may be dropped between its registry update and its send. */
  datatype Rules = Rules(reorder: bool, skip: bool, abandon: bool)

  const STRICT: Rules := Rules(false, false, false)

  ghost predicate Allowed(s: State, step: Step, rules: Rules)
    requires Enabled(s, step)
  {
    match step
    case FinishRegister(id) => rules.reorder || FirstInTurn(s, id)
    case FinishUnregister(id) => rules.reorder || FirstInTurn(s, id)
    case Abandon(id) => rules.abandon || s.handlers[id].phase.Validated?
    case Lag => rules.skip || forall i | s.cursor <= i < |s.bus| - BUS_CAPACITY :: s.bus[i] != Connected
    case _ => true
  }

  ghost predicate Reaches(s: State, run: seq<Step>, t: State, rules: Rules)
    decreases run
  {
    if run == [] then s == t else
      Enabled(s, run[0]) && Allowed(s, run[0], rules) && Reaches(Next(s, run[0]), run[1..], t, rules)
  }

  // ----- The invariant -----

  predicate Concerns(c: Command, n: Nick) {
    !c.Unrelated? && c.nick == n
  }

  /** The last queued command about n. */
  function LastFor(q: seq<Command>, n: Nick): Option<Command> {
    if q == [] then None
    else if Concerns(q[|q| - 1], n) then Some(q[|q| - 1])
    else LastFor(q[..|q| - 1], n)
  }

  /** The command that brings the hub in line with the registry about n. */
  function Wanted(registry: map<Nick, Bot>, n: Nick): Command {
    if n in registry then Add(n, registry[n].profile) else Remove(n)
  }

  ghost predicate Busy(s: State, n: Nick) {
    exists id :: Pending(s, id) && s.handlers[id].nick == n
  }

  /** A re-add of n is still to come. */
  ghost predicate ReaddPending(s: State, n: Nick) {
    (s.readding.Some? && n in s.readding.value) ||
    exists i :: s.cursor <= i < |s.bus| && s.bus[i] == Connected
  }

  ghost predicate Mirrored(s: State, n: Nick) {
    match LastFor(s.queue, n)
    case Some(c) => c == Wanted(s.registry, n)
    case None =>
      (n in s.hub ==> n in s.registry && s.hub[n] == s.registry[n].profile) &&
      (n in s.registry && s.connected && !ReaddPending(s, n) ==> n in s.hub)
  }

  /** The last handler to update the registry about a nick knows what it holds. */
  ghost predicate HandlerOk(s: State, id: nat)
    requires Pending(s, id)
  {
    var h := s.handlers[id];
    h.phase.turn < s.turns &&
    (LastInTurn(s, id) ==>
       if h.phase.Inserted? then h.nick in s.registry && s.registry[h.nick] == h.phase.bot
       else h.nick !in s.registry)
  }

  ghost predicate LastInTurn(s: State, id: nat)
    requires Pending(s, id)
  {
    forall j | Pending(s, j) && s.handlers[j].nick == s.handlers[id].nick ::
      s.handlers[j].phase.turn <= s.handlers[id].phase.turn
  }

  ghost predicate HandlersOk(s: State) {
    forall id | Pending(s, id) :: HandlerOk(s, id)
  }

  ghost predicate Inv(s: State) {
    s.cursor <= |s.bus| && (!s.connected ==> s.hub == map[]) &&
    (s.readding.Some? ==> s.readding.value <= s.registry.Keys) &&
    HandlersOk(s) &&
    forall n: Nick :: Busy(s, n) || Mirrored(s, n)
  }

  // ----- Preservation, one group of steps at a time -----

  lemma LastAfterAppend(q: seq<Command>, c: Command, n: Nick)
    ensures LastFor(q + [c], n) == if Concerns(c, n) then Some(c) else LastFor(q, n)
  {
    assert (q + [c])[..|q|] == q;
  }

  lemma {:induction false} LastAfterPop(q: seq<Command>, n: Nick)
    requires q != []
    ensures LastFor(q, n) == if LastFor(q[1..], n).Some? then LastFor(q[1..], n)
                             else if Concerns(q[0], n) then Some(q[0]) else None
  {
    if |q| > 1 {
      var k := |q| - 1;
      LastAfterPop(q[..k], n);
      assert q[..k][1..] == q[1..][..k - 1];
    }
  }

  lemma QueuedForOther(s: State, t: State, c: Command, n: Nick)
    requires Mirrored(s, n) && !Concerns(c, n)
    requires t == s.(queue := s.queue + [c], handlers := t.handlers, known := t.known)
    ensures Mirrored(t, n)
  {
    LastAfterAppend(s.queue, c, n);
    assert ReaddPending(t, n) <==> ReaddPending(s, n);
  }

  lemma UnrelatedKeeps(s: State)
    requires Inv(s) && HasRoom(s)
    ensures Inv(Next(s, QueueUnrelated))
  {
    var t := Next(s, QueueUnrelated);
    SameHandlers(s, t);
    forall n: Nick
      ensures Busy(t, n) || Mirrored(t, n)
    {
      if !Busy(s, n) {
        QueuedForOther(s, t, Unrelated, n);
      }
    }
  }

  lemma ReaddKeeps(s: State, m: Nick)
    requires Inv(s) && Enabled(s, ReaddOne(m))
    ensures Inv(Next(s, ReaddOne(m)))
  {
    var t, c := Next(s, ReaddOne(m)), Add(m, s.registry[m].profile);
    SameHandlers(s, t);
    forall n: Nick
      ensures Busy(t, n) || Mirrored(t, n)
    {
      if !Busy(s, n) {
        LastAfterAppend(s.queue, c, n);
        if n != m {
          assert ReaddPending(s, n) <==> ReaddPending(t, n);
        }
      }
    }
  }

  /** Whoever queues in turn leaves the last one to update the registry the last one. */
  lemma FinishHandlers(s: State, step: Step)
    requires HandlersOk(s) && Enabled(s, step) && Allowed(s, step, Rules(false, true, false))
    requires step.FinishRegister? || step.FinishUnregister?
    ensures HandlersOk(Next(s, step))
  {
    var t := Next(s, step);
    forall id | Pending(t, id)
      ensures HandlerOk(t, id)
    {
      assert Pending(s, id) && HandlerOk(s, id);
      if LastInTurn(t, id) {
        forall j | Pending(s, j) && s.handlers[j].nick == s.handlers[id].nick
          ensures s.handlers[j].phase.turn <= s.handlers[id].phase.turn
        {
          assert j != step.id ==> Pending(t, j);
        }
        assert LastInTurn(s, id);
      }
    }
  }

  lemma OnlyOnePending(s: State, id: nat)
    requires HandlersOk(s) && Pending(s, id)
    requires forall j | Pending(s, j) && s.handlers[j].nick == s.handlers[id].nick :: j == id
    ensures var h := s.handlers[id];
            Wanted(s.registry, h.nick)
            == if h.phase.Inserted? then Add(h.nick, h.phase.bot.profile) else Remove(h.nick)
  {
    assert HandlerOk(s, id);
  }

  lemma FinishKeeps(s: State, step: Step)
    requires Inv(s) && Enabled(s, step) && Allowed(s, step, Rules(false, true, false))
    requires step.FinishRegister? || step.FinishUnregister?
    ensures Inv(Next(s, step))
  {
    var t, m := Next(s, step), s.handlers[step.id].nick;
    var c := t.queue[|s.queue|];
    FinishHandlers(s, step);
    forall n: Nick
      ensures Busy(t, n) || Mirrored(t, n)
    {
      if j :| j != step.id && Pending(s, j) && s.handlers[j].nick == n {
        assert Pending(t, j);
      } else if n == m {
        OnlyOnePending(s, step.id);
        LastAfterAppend(s.queue, c, n);
      } else {
        assert Busy(s, n) || Mirrored(s, n);
        QueuedForOther(s, t, c, n);
      }
    }
  }

  lemma UpdateHandlers(s: State, step: Step)
    requires HandlersOk(s) && Enabled(s, step)
    requires step.BeginRegister? || step.BeginUnregister? || step.RemoveBot?
    ensures HandlersOk(Next(s, step))
  {
    var t := Next(s, step);
    forall id | Pending(t, id)
      ensures HandlerOk(t, id)
    {
      if id != step.id {
        assert Pending(s, id) && HandlerOk(s, id);
        if LastInTurn(t, id) {
          assert Pending(t, step.id) ==> t.handlers[step.id].nick != t.handlers[id].nick;
          forall j | Pending(s, j) && s.handlers[j].nick == s.handlers[id].nick
            ensures s.handlers[j].phase.turn <= s.handlers[id].phase.turn
          {
            assert Pending(t, j);
          }
          assert LastInTurn(s, id);
        }
      }
    }
  }

  lemma HandlerKeeps(s: State, step: Step)
    requires Inv(s) && Enabled(s, step)
    requires step.BeginRegister? || step.BeginUnregister? || step.RemoveBot?
    ensures Inv(Next(s, step))
  {
    var t := Next(s, step);
    UpdateHandlers(s, step);
    var m := t.handlers[step.id].nick;
    forall n: Nick
      ensures Busy(t, n) || Mirrored(t, n)
    {
      assert Busy(s, n) || Mirrored(s, n);
      if Busy(s, n) {
        var id :| Pending(s, id) && s.handlers[id].nick == n;
        assert Pending(t, id) && t.handlers[id].nick == n;
      } else if n == m && !step.BeginUnregister? {
        assert Pending(t, step.id);
      }
    }
  }

  lemma AbandonKeeps(s: State, step: Step)
    requires Inv(s) && Enabled(s, step) && Allowed(s, step, STRICT) && step.Abandon?
    ensures Inv(Next(s, step))
  {
    var t := Next(s, step);
    forall id
      ensures Pending(t, id) <==> Pending(s, id)
    {
    }
    forall id | Pending(t, id)
      ensures HandlerOk(t, id)
    {
      assert HandlerOk(s, id);
      assert LastInTurn(t, id) ==> LastInTurn(s, id);
    }
    forall n: Nick
      ensures Busy(t, n) || Mirrored(t, n)
    {
      assert Busy(s, n) || Mirrored(s, n);
      assert ReaddPending(t, n) <==> ReaddPending(s, n);
      if Busy(s, n) {
        var id :| Pending(s, id) && s.handlers[id].nick == n;
        assert Pending(t, id) && t.handlers[id].nick == n;
      }
    }
  }

  /** Steps that leave handlers and registry alone. */
  lemma SameHandlers(s: State, t: State)
    requires HandlersOk(s) && t.handlers == s.handlers && t.registry == s.registry && t.turns == s.turns
    ensures HandlersOk(t) && forall n: Nick :: Busy(s, n) <==> Busy(t, n)
  {
    forall id
      ensures Pending(s, id) <==> Pending(t, id)
      ensures Pending(t, id) ==> HandlerOk(t, id)
    {
      if Pending(t, id) {
        assert Pending(s, id) && HandlerOk(s, id);
        if LastInTurn(t, id) {
          forall j | Pending(s, j) && s.handlers[j].nick == s.handlers[id].nick
            ensures s.handlers[j].phase.turn <= s.handlers[id].phase.turn
          {
            assert Pending(t, j);
          }
        }
      }
    }
    forall n: Nick
      ensures Busy(s, n) <==> Busy(t, n)
    {
    }
  }

  predicate BusStep(step: Step) {
    step.Receive? || step.ReaddDone? || step.Lag? || step.Publish? || step.ConnectFails?
  }

  /** A re-add still to come stays so until it is done, as nothing skips it. */
  lemma PendingKept(s: State, step: Step, n: Nick)
    requires Enabled(s, step) && Allowed(s, step, STRICT) && BusStep(step)
    requires n in s.registry && ReaddPending(s, n)
    ensures ReaddPending(Next(s, step), n)
  {
    var t := Next(s, step);
    if s.readding.None? || n !in s.readding.value {
      var i :| s.cursor <= i < |s.bus| && s.bus[i] == Connected;
      assert t.bus[i] == Connected;
    }
  }

  lemma BusKeeps(s: State, step: Step)
    requires Inv(s) && Enabled(s, step) && Allowed(s, step, STRICT) && BusStep(step)
    ensures Inv(Next(s, step))
  {
    var t := Next(s, step);
    SameHandlers(s, t);
    forall n: Nick
      ensures Busy(t, n) || Mirrored(t, n)
    {
      assert Busy(s, n) || Mirrored(s, n);
      if n in s.registry && ReaddPending(s, n) {
        PendingKept(s, step, n);
      }
    }
  }

  lemma ConnectionKeeps(s: State, step: Step)
    requires Inv(s) && Enabled(s, step) && (step.Close? || step.Connect?)
    ensures Inv(Next(s, step))
  {
    var t := Next(s, step);
    SameHandlers(s, t);
    forall n: Nick
      ensures Busy(t, n) || Mirrored(t, n)
    {
      assert Busy(s, n) || Mirrored(s, n);
      if step.Connect? {
        assert t.bus[|s.bus|] == Connected;
        assert ReaddPending(t, n);
      }
    }
  }

  lemma SendKeeps(s: State, step: Step)
    requires Inv(s) && Enabled(s, step) && (step.Send? || step.SendFails?)
    ensures Inv(Next(s, step))
  {
    var t := Next(s, step);
    SameHandlers(s, t);
    forall n: Nick
      ensures Busy(t, n) || Mirrored(t, n)
    {
      assert Busy(s, n) || Mirrored(s, n);
      LastAfterPop(s.queue, n);
      if step.Send? {
        assert ReaddPending(s, n) <==> ReaddPending(t, n);
      }
    }
  }

  lemma StepKeepsInv(s: State, step: Step)
    requires Inv(s) && Enabled(s, step) && Allowed(s, step, STRICT)
    ensures Inv(Next(s, step))
  {
    match step
    case ReaddOne(m) => ReaddKeeps(s, m);
    case QueueUnrelated => UnrelatedKeeps(s);
    case FinishRegister(_) => FinishKeeps(s, step);
    case FinishUnregister(_) => FinishKeeps(s, step);
    case BeginRegister(_, _, _, _) => HandlerKeeps(s, step);
    case BeginUnregister(_, _, _) => HandlerKeeps(s, step);
    case RemoveBot(_) => HandlerKeeps(s, step);
    case Abandon(_) => AbandonKeeps(s, step);
    case Send => SendKeeps(s, step);
    case SendFails => SendKeeps(s, step);
    case Close => ConnectionKeeps(s, step);
    case Connect => ConnectionKeeps(s, step);
    case _ => BusKeeps(s, step);
  }

  lemma {:induction false} RunKeepsInv(s: State, run: seq<Step>, t: State)
    requires Inv(s) && Reaches(s, run, t, STRICT)
    ensures Inv(t)
    decreases run
  {
    if run != [] {
      StepKeepsInv(s, run[0]);
      RunKeepsInv(Next(s, run[0]), run[1..], t);
    }
  }

  lemma InitOk()
    ensures Inv(INIT)
  {
    forall n: Nick
      ensures Mirrored(INIT, n)
    {
    }
  }

  /** In every run the last queued add or remove for a nick, profile included, is the
      one the registry asks for, except while a handler for that nick has changed the
      registry and is about to queue its command. */
  lemma LastQueuedAgrees(run: seq<Step>, t: State, n: Nick)
    requires Reaches(INIT, run, t, STRICT) && !Busy(t, n) && LastFor(t.queue, n).Some?
    ensures LastFor(t.queue, n).value == Wanted(t.registry, n)
  {
    InitOk();
    RunKeepsInv(INIT, run, t);
  }

  function Profiles(registry: map<Nick, Bot>): map<Nick, Profile> {
    map n | n in registry :: registry[n].profile
  }

  ghost predicate Quiescent(s: State) {
    s.connected && s.readding.None? &&
    (forall id | id in s.handlers :: s.handlers[id].phase.Validated?) &&
    (forall c | c in s.queue :: c.Unrelated?) &&
    forall i | s.cursor <= i < |s.bus| :: s.bus[i] != Connected
  }

  lemma {:induction false} NothingQueued(q: seq<Command>, n: Nick)
    requires forall c | c in q :: c.Unrelated?
    ensures LastFor(q, n) == None
  {
    if q != [] {
      assert q[|q| - 1] in q;
      NothingQueued(q[..|q| - 1], n);
    }
  }

  /** Convergence: over every run of registrations, unregistrations, lost sends and
      reconnects, once the reconnect event is handled and the queue is drained the
      hub's bot users are exactly the registered bots. */
  lemma MirrorConverges(run: seq<Step>, t: State)
    requires Reaches(INIT, run, t, STRICT) && Quiescent(t)
    ensures t.hub == Profiles(t.registry)
  {
    InitOk();
    RunKeepsInv(INIT, run, t);
    forall n: Nick
      ensures n in t.hub <==> n in t.registry
      ensures n in t.hub ==> t.hub[n] == t.registry[n].profile
    {
      assert Busy(t, n) || Mirrored(t, n);
      NothingQueued(t.queue, n);
    }
    assert t.hub.Keys == Profiles(t.registry).Keys;
  }

  // ----- Tokens -----

  predicate Inserting(s: State, id: nat) {
    id in s.handlers && s.handlers[id].phase.Inserted?
  }

  /** A token is returned to its bot only after the add was queued. */
  ghost predicate TokensOk(s: State) {
    s.known <= s.issued &&
    (forall id | Inserting(s, id) :: s.handlers[id].phase.bot.token in s.issued - s.known) &&
    (forall i, j | Inserting(s, i) && Inserting(s, j) && i != j ::
       s.handlers[i].phase.bot.token != s.handlers[j].phase.bot.token) &&
    forall n | n in s.registry :: s.registry[n].token in s.issued
  }

  lemma StepKeepsTokens(s: State, step: Step)
    requires TokensOk(s) && Enabled(s, step)
    ensures TokensOk(Next(s, step))
  {
    var t := Next(s, step);
    forall id | Inserting(t, id)
      ensures Inserting(s, id) || step.BeginRegister?
    {
    }
  }

  lemma {:induction false} RunKeepsTokens(s: State, run: seq<Step>, t: State, rules: Rules)
    requires TokensOk(s) && Reaches(s, run, t, rules)
    ensures TokensOk(t)
    decreases run
  {
    if run != [] {
      StepKeepsTokens(s, run[0]);
      RunKeepsTokens(Next(s, run[0]), run[1..], t, rules);
    }
  }

  /** So in every run, whatever is permitted, an unregistration can begin only for a bot
      whose own registration has queued its add or was dropped. */
  lemma NoUnregisterBeforeAdd(run: seq<Step>, s: State, rules: Rules, i: nat, n: Nick, k: Token, id: nat)
    requires Reaches(INIT, run, s, rules) && Inserting(s, id)
    requires Enabled(s, BeginUnregister(i, n, k))
    ensures s.handlers[id].phase.bot.token != s.registry[n].token
  {
    RunKeepsTokens(INIT, run, s, rules);
  }

  /** The registry entry of a nick changes only through handlers for that nick. */
  lemma OnlyOwnHandlers(s: State, step: Step, n: Nick)
    requires Enabled(s, step)
    requires !(step.BeginRegister? && step.nick == n)
    requires !(step.RemoveBot? && s.handlers[step.id].nick == n)
    ensures n in Next(s, step).registry <==> n in s.registry
    ensures n in s.registry ==> Next(s, step).registry[n] == s.registry[n]
  {
  }

  // ----- A condition on the bus alone -----

  /** The re-adding loop is never further behind than the bus keeps events. */
  predicate KeepsUp(s: State, run: seq<Step>)
    decreases run
  {
    |s.bus| <= s.cursor + 1024 &&
    (run != [] && Enabled(s, run[0]) ==> KeepsUp(Next(s, run[0]), run[1..]))
  }

  lemma {:induction false} KeepingUpSkipsNothing(s: State, run: seq<Step>, t: State)
    requires Reaches(s, run, t, Rules(false, true, false)) && KeepsUp(s, run)
    ensures Reaches(s, run, t, STRICT)
    decreases run
  {
    if run != [] {
      KeepingUpSkipsNothing(Next(s, run[0]), run[1..], t);
    }
  }

  /** So it is enough that the loop never falls more than 1024 events behind. */
  lemma KeepingUpConverges(run: seq<Step>, t: State)
    requires Reaches(INIT, run, t, Rules(false, true, false)) && KeepsUp(INIT, run) && Quiescent(t)
    ensures t.hub == Profiles(t.registry)
  {
    KeepingUpSkipsNothing(INIT, run, t);
    MirrorConverges(run, t);
  }

  // ----- Each condition is needed -----

  ghost predicate Reachable(t: State, rules: Rules) {
    exists run :: Reaches(INIT, run, t, rules)
  }

  lemma {:induction false} ReachesExtend(s: State, run: seq<Step>, t: State, step: Step, rules: Rules)
    requires Reaches(s, run, t, rules) && Enabled(t, step) && Allowed(t, step, rules)
    ensures Reaches(s, run + [step], Next(t, step), rules)
    decreases run
  {
    if run == [] {
      assert (run + [step])[1..] == [];
    } else {
      ReachesExtend(Next(s, run[0]), run[1..], t, step, rules);
      assert (run + [step])[1..] == run[1..] + [step];
    }
  }

  lemma Go(t: State, step: Step, u: State, rules: Rules)
    requires Reachable(t, rules) && Enabled(t, step) && Allowed(t, step, rules) && u == Next(t, step)
    ensures Reachable(u, rules)
  {
    var run :| Reaches(INIT, run, t, rules);
    ReachesExtend(INIT, run, t, step, rules);
  }

  const IDLE: State := State(map[], {}, {}, 0, map[], [], true, map[], [Connected], 1, None)

  lemma ReachIdle(rules: Rules)
    ensures Reachable(IDLE, rules)
  {
    var s1 := INIT.(connected := true, bus := [Connected]);
    var s2 := s1.(cursor := 1, readding := Some({}));
    assert Reaches(INIT, [], INIT, rules);
    assert INIT.registry.Keys == {};
    Go(INIT, Connect, s1, rules);
    Go(s1, Receive, s2, rules);
    Go(s2, ReaddDone, IDLE, rules);
  }

  /** The state after one undisturbed registration. */
  function Registered(s: State, n: Nick, p: Profile, k: Token): State {
    s.(registry := s.registry[n := Bot(p, k)], issued := s.issued + {k}, known := s.known + {k},
       turns := s.turns + 1, queue := s.queue + [Add(n, p)])
  }

  lemma ReachRegistered(s: State, n: Nick, p: Profile, k: Token, rules: Rules)
    requires Reachable(s, rules) && s.handlers == map[] && s.readding.None? && k !in s.issued && HasRoom(s)
    ensures Reachable(Registered(s, n, p, k), rules)
  {
    var h := Handler(n, Inserted(Bot(p, k), s.turns));
    var s1 := s.(registry := s.registry[n := Bot(p, k)], issued := s.issued + {k}, turns := s.turns + 1,
                 handlers := map[0 := h]);
    assert s1.handlers - {0} == map[];
    Go(s, BeginRegister(0, n, p, k), s1, rules);
    Go(s1, FinishRegister(0), Registered(s, n, p, k), rules);
  }

  /** One bot, registered and on the hub. */
  function Settled(n: Nick, p: Profile): State {
    IDLE.(registry := map[n := Bot(p, 1)], issued := {1}, known := {1}, turns := 1, hub := map[n := p])
  }

  lemma ReachSettled(n: Nick, p: Profile, rules: Rules)
    ensures Reachable(Settled(n, p), rules)
  {
    ReachIdle(rules);
    ReachRegistered(IDLE, n, p, 1, rules);
    assert Registered(IDLE, n, p, 1) == Settled(n, p).(queue := [Add(n, p)], hub := map[]);
    Go(Registered(IDLE, n, p, 1), Send, Settled(n, p), rules);
  }

  /** Its unregistration has checked the token when the nick is registered anew. */
  function Replaced(n: Nick, p: Profile): State {
    Settled(n, p).(registry := map[n := Bot(p, 2)], issued := {1, 2}, turns := 2,
                   handlers := map[1 := Handler(n, Validated), 2 := Handler(n, Inserted(Bot(p, 2), 1))])
  }

  lemma ReachReplaced(n: Nick, p: Profile, rules: Rules)
    ensures Reachable(Replaced(n, p), rules)
  {
    var s := Settled(n, p);
    var s1 := s.(handlers := map[1 := Handler(n, Validated)]);
    ReachSettled(n, p, rules);
    Go(s, BeginUnregister(1, n, 1), s1, rules);
    ReplacedNext(n, p);
    Go(s1, BeginRegister(2, n, p, 2), Replaced(n, p), rules);
  }

  lemma ReplacedNext(n: Nick, p: Profile)
    ensures var s1 := Settled(n, p).(handlers := map[1 := Handler(n, Validated)]);
            Enabled(s1, BeginRegister(2, n, p, 2)) && Next(s1, BeginRegister(2, n, p, 2)) == Replaced(n, p)
  {
    assert {1} + {2} == {1, 2};
  }

  /** The unregistration goes on and removes the new bot. */
  function Crossed(n: Nick, p: Profile): State {
    Replaced(n, p).(registry := map[], turns := 3,
                    handlers := map[1 := Handler(n, Removed(2)), 2 := Handler(n, Inserted(Bot(p, 2), 1))])
  }

  lemma ReachCrossed(n: Nick, p: Profile, rules: Rules)
    ensures Reachable(Crossed(n, p), rules)
  {
    ReachReplaced(n, p, rules);
    Go(Replaced(n, p), RemoveBot(1), Crossed(n, p), rules);
  }

  /** Then the remove is queued before the add: the virtual user stays, owned by nobody. */
  lemma ReorderBreaksMirror(n: Nick, p: Profile, rules: Rules) returns (t: State)
    requires rules.reorder
    ensures Reachable(t, rules) && Quiescent(t)
    ensures n in t.hub && t.registry == map[] && t.handlers == map[]
  {
    var s := Crossed(n, p);
    var s2 := s.(handlers := map[], queue := [Remove(n), Add(n, p)], known := {1, 2});
    ReachCrossed(n, p, rules);
    FinishReversed(s, n, p, rules);
    assert s.known + {2} == {1, 2};
    DrainBoth(s2, n, p, rules);
    t := s2.(queue := [], hub := s2.hub[n := p]);
  }

  lemma FinishReversed(s: State, n: Nick, p: Profile, rules: Rules)
    requires Reachable(s, rules) && rules.reorder && s.queue == []
    requires s.handlers == map[1 := Handler(n, Removed(2)), 2 := Handler(n, Inserted(Bot(p, 2), 1))]
    ensures Reachable(s.(handlers := map[], queue := [Remove(n), Add(n, p)], known := s.known + {2}), rules)
  {
    var s1 := s.(handlers := map[2 := Handler(n, Inserted(Bot(p, 2), 1))], queue := [Remove(n)]);
    Go(s, FinishUnregister(1), s1, rules);
    FinishLast(s1, 2, n, Bot(p, 2), 1, rules);
    assert s1.queue + [Add(n, p)] == [Remove(n), Add(n, p)];
  }

  lemma FinishLast(s: State, id: nat, n: Nick, bot: Bot, turn: nat, rules: Rules)
    requires Reachable(s, rules) && rules.reorder && HasRoom(s) && s.handlers == map[id := Handler(n, Inserted(bot, turn))]
    ensures Reachable(s.(handlers := map[], queue := s.queue + [Add(n, bot.profile)], known := s.known + {bot.token}), rules)
  {
    assert s.handlers - {id} == map[];
    Go(s, FinishRegister(id), s.(handlers := map[], queue := s.queue + [Add(n, bot.profile)], known := s.known + {bot.token}), rules);
  }

  lemma DrainBoth(s: State, n: Nick, p: Profile, rules: Rules)
    requires Reachable(s, rules) && s.connected && s.queue == [Remove(n), Add(n, p)]
    ensures Reachable(s.(queue := [], hub := s.hub[n := p]), rules)
  {
    var s1 := s.(hub := s.hub - {n}, queue := [Add(n, p)]);
    Go(s, Send, s1, rules);
    Go(s1, Send, s.(queue := [], hub := s.hub[n := p]), rules);
  }

  function Others(k: nat): seq<Event> {
    seq(k, i => OtherEvent)
  }

  lemma {:induction false} PublishMany(s: State, k: nat, rules: Rules)
    requires Reachable(s, rules)
    ensures Reachable(s.(bus := s.bus + Others(k)), rules)
  {
    if k == 0 {
      assert s.bus + Others(0) == s.bus;
    } else {
      PublishMany(s, k - 1, rules);
      assert s.bus + Others(k - 1) + [OtherEvent] == s.bus + Others(k);
      Go(s.(bus := s.bus + Others(k - 1)), Publish, s.(bus := s.bus + Others(k)), rules);
    }
  }

  /** A bot whose add was lost with the connection, just after the reconnect. */
  function AddLost(n: Nick, p: Profile): State {
    Registered(IDLE, n, p, 1).(queue := [], bus := [Connected, Disconnected, Connected])
  }

  lemma ReachAddLost(n: Nick, p: Profile, rules: Rules)
    ensures Reachable(AddLost(n, p), rules)
  {
    var s := Registered(IDLE, n, p, 1);
    ReachIdle(rules);
    ReachRegistered(IDLE, n, p, 1, rules);
    LoseConnection(s, Add(n, p), rules);
  }

  lemma LoseConnection(s: State, c: Command, rules: Rules)
    requires Reachable(s, rules) && s.connected && s.queue == [c] && s.bus == [Connected] && s.hub == map[]
    ensures Reachable(s.(queue := [], bus := [Connected, Disconnected, Connected]), rules)
  {
    var s1 := s.(queue := [], connected := false, bus := [Connected, Disconnected]);
    Go(s, SendFails, s1, rules);
    Go(s1, Connect, s.(queue := [], bus := [Connected, Disconnected, Connected]), rules);
  }

  /** Lag over the reconnect event, once more events than the bus keeps have been
      published after it, leaves a registered bot without its virtual user. */
  lemma LagBreaksMirror(n: Nick, p: Profile, rules: Rules) returns (t: State)
    requires rules.skip
    ensures Reachable(t, rules) && Quiescent(t)
    ensures t.hub == map[] && n in t.registry && t.handlers == map[]
  {
    var s := AddLost(n, p);
    ReachAddLost(n, p, rules);
    PublishMany(s, BUS_CAPACITY, rules);
    t := s.(bus := s.bus + Others(BUS_CAPACITY), cursor := 3);
    Go(s.(bus := s.bus + Others(BUS_CAPACITY)), Lag, t, rules);
  }

  lemma {:induction false} QueueMany(s: State, k: nat, rules: Rules)
    requires Reachable(s, rules) && s.queue == [] && k <= QUEUE_CAPACITY
    ensures Reachable(s.(queue := seq(k, i => Unrelated)), rules)
  {
    if k == 0 {
      assert s.queue == seq(0, i => Unrelated);
    } else {
      QueueMany(s, k - 1, rules);
      assert seq(k - 1, i => Unrelated) + [Unrelated] == seq(k, i => Unrelated);
      Go(s.(queue := seq(k - 1, i => Unrelated)), QueueUnrelated, s.(queue := seq(k, i => Unrelated)), rules);
    }
  }

  /** A register handler that waits for room in a full queue when its client goes away
      leaves a registered bot for which nothing was ever queued. */
  lemma AbandonBreaksMirror(n: Nick, p: Profile, rules: Rules) returns (t: State)
    requires rules.abandon
    ensures Reachable(t, rules) && Quiescent(t)
    ensures t.hub == map[] && n in t.registry && t.handlers == map[]
  {
    var s := IDLE.(queue := seq(QUEUE_CAPACITY, i => Unrelated));
    var s1 := s.(registry := map[n := Bot(p, 1)], issued := {1}, turns := 1,
                 handlers := map[0 := Handler(n, Inserted(Bot(p, 1), 0))]);
    t := s1.(handlers := map[]);
    ReachIdle(rules);
    QueueMany(IDLE, QUEUE_CAPACITY, rules);
    Go(s, BeginRegister(0, n, p, 1), s1, rules);
    Go(s1, Abandon(0), t, rules);
  }

  /** Under given rules every quiescent state mirrors the registry exactly when handlers
      for one nick queue in the order in which they updated the registry, none is dropped
      in between, and lag skips no reconnect event. */
  lemma MirrorConvergesIff(rules: Rules)
    ensures (forall t :: Reachable(t, rules) && Quiescent(t) ==> t.hub == Profiles(t.registry)) <==> rules == STRICT
  {
    var p := Profile("", "", "");
    if rules.reorder {
      var t := ReorderBreaksMirror("", p, rules);
      assert "" !in Profiles(t.registry);
    } else if rules.skip {
      var t := LagBreaksMirror("", p, rules);
      assert "" in Profiles(t.registry);
    } else if rules.abandon {
      var t := AbandonBreaksMirror("", p, rules);
      assert "" in Profiles(t.registry);
    } else {
      forall t | Reachable(t, rules) && Quiescent(t)
        ensures t.hub == Profiles(t.registry)
      {
        var run :| Reaches(INIT, run, t, rules);
        MirrorConverges(run, t);
      }
    }
  }
}
