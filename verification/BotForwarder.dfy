/** The per-bot event forwarder: a loop, spawned at registration, that copies
    matching events from the shared bus into the registration's own channel.

    Registrations, unregistrations, publications and every forwarder's receive and
    deliver steps interleave. The bus is a log; a forwarder has a position in it and
    may be moved forward by lag. Registration tokens are assumed fresh. */
module BotForwarder {
  type Nick = string
  type Token = string
  type Tag = string
  datatype Event = Event(tag: Tag, data: string)

  datatype Bot = Bot(token: Token, subscribed: set<Tag>)

  /** `done` bus positions from `start` on are dealt with; with `holding` the event
      at `done` has been received and the registry not consulted yet. */
  datatype Forwarder =
    | Spawned
    | Attached(start: nat, done: nat, holding: bool, lagged: bool, exited: bool)

  /** `issued` remembers every registration ever made, by token; `channel` holds, per
      token, the bus positions its forwarder has sent. */
  datatype State = State(
    registry: map<Nick, Bot>,
    bus: seq<Event>,
    issued: map<Token, (Nick, set<Tag>)>,
    forwarders: map<Token, Forwarder>,
    channel: map<Token, seq<nat>>)

  datatype Step =
    | Register(nick: Nick, token: Token, events: set<Tag>)
    | Unregister(nick: Nick)
    | Publish(event: Event)
    | Subscribe(token: Token)
    | Receive(token: Token)
    | Deliver(token: Token)
    | Lag(token: Token, to: nat)

  const INIT: State := State(map[], [], map[], map[], map[])

  predicate Idle(s: State, k: Token) {
    k in s.forwarders && s.forwarders[k].Attached? && !s.forwarders[k].holding && !s.forwarders[k].exited
  }

  predicate Enabled(s: State, step: Step) {
    match step
    case Register(n, k, e) => k !in s.issued
    case Unregister(n) => n in s.registry
    case Publish(e) => true
    case Subscribe(k) => k in s.forwarders && s.forwarders[k].Spawned?
    case Receive(k) => Idle(s, k) && s.forwarders[k].done < |s.bus|
    case Deliver(k) => k in s.forwarders && k in s.issued && s.forwarders[k].Attached? &&
                       s.forwarders[k].holding && s.forwarders[k].done < |s.bus|
    case Lag(k, to) => Idle(s, k) && s.forwarders[k].done < to <= |s.bus|
  }

  function Get<V>(m: map<Token, seq<V>>, k: Token): seq<V> {
    if k in m then m[k] else []
  }

  /** The token's bot is the one registered under its nick now. */
  predicate Current(s: State, k: Token) {
    k in s.issued && s.issued[k].0 in s.registry && s.registry[s.issued[k].0].token == k
  }

  function Next(s: State, step: Step): State
    requires Enabled(s, step)
  {
    match step
    case Register(n, k, e) =>
      s.(registry := s.registry[n := Bot(k, e)], issued := s.issued[k := (n, e)],
         forwarders := if e == {} then s.forwarders else s.forwarders[k := Spawned])
    case Unregister(n) => s.(registry := s.registry - {n})
    case Publish(e) => s.(bus := s.bus + [e])
    case Subscribe(k) =>
      s.(forwarders := s.forwarders[k := Attached(|s.bus|, |s.bus|, false, false, false)])
    case Receive(k) =>
      s.(forwarders := s.forwarders[k := s.forwarders[k].(holding := true)])
    case Deliver(k) =>
      var f := s.forwarders[k];
      if !Current(s, k) then
        s.(forwarders := s.forwarders[k := f.(holding := false, exited := true)])
      else
        var bot := s.registry[s.issued[k].0];
        s.(forwarders := s.forwarders[k := f.(holding := false, done := f.done + 1)],
           channel := if s.bus[f.done].tag in bot.subscribed
                      then s.channel[k := Get(s.channel, k) + [f.done]] else s.channel)
    case Lag(k, to) =>
      s.(forwarders := s.forwarders[k := s.forwarders[k].(done := to, lagged := true)])
  }

  ghost predicate Reaches(s: State, run: seq<Step>, t: State)
    decreases run
  {
    if run == [] then s == t else Enabled(s, run[0]) && Reaches(Next(s, run[0]), run[1..], t)
  }

  /** The bus positions in [from, to) that carry a subscribed tag, in order. */
  function Matching(bus: seq<Event>, tags: set<Tag>, from: nat, to: nat): seq<nat>
    requires from <= to <= |bus|
  {
    if from == to then []
    else Matching(bus, tags, from, to - 1) + if bus[to - 1].tag in tags then [to - 1] else []
  }

  ghost predicate Ordered(c: seq<nat>, from: nat, to: nat) {
    (forall i | 0 <= i < |c| :: from <= c[i] < to) && forall i, j | 0 <= i < j < |c| :: c[i] < c[j]
  }

  ghost predicate ForwarderOk(s: State, k: Token)
    requires k in s.issued
  {
    var (n, tags) := s.issued[k];
    var c := Get(s.channel, k);
    (forall i | 0 <= i < |c| :: c[i] < |s.bus| && s.bus[c[i]].tag in tags) &&
    if k !in s.forwarders || s.forwarders[k].Spawned? then c == [] else
      var f := s.forwarders[k];
      f.start <= f.done <= |s.bus| && Ordered(c, f.start, f.done) &&
      (f.holding ==> !f.exited && f.done < |s.bus|) &&
      (!f.lagged ==> c == Matching(s.bus, tags, f.start, f.done))
  }

  ghost predicate Inv(s: State) {
    (forall k | k in s.issued :: ForwarderOk(s, k)) &&
    s.forwarders.Keys <= s.issued.Keys && s.channel.Keys <= s.issued.Keys &&
    forall n | n in s.registry ::
      s.registry[n].token in s.issued && s.issued[s.registry[n].token] == (n, s.registry[n].subscribed)
  }

  lemma {:induction false} MatchingOnLongerBus(bus: seq<Event>, more: seq<Event>, tags: set<Tag>, from: nat, to: nat)
    requires from <= to <= |bus|
    ensures Matching(bus + more, tags, from, to) == Matching(bus, tags, from, to)
  {
    if from < to {
      MatchingOnLongerBus(bus, more, tags, from, to - 1);
    }
  }

  lemma PublishKeeps(s: State, e: Event, k: Token)
    requires k in s.issued && ForwarderOk(s, k)
    ensures ForwarderOk(Next(s, Publish(e)), k)
  {
    if k in s.forwarders && s.forwarders[k].Attached? {
      MatchingOnLongerBus(s.bus, [e], s.issued[k].1, s.forwarders[k].start, s.forwarders[k].done);
    }
  }

  lemma OrderedExtend(c: seq<nat>, from: nat, p: nat)
    requires Ordered(c, from, p) && from <= p
    ensures Ordered(c, from, p + 1) && Ordered(c + [p], from, p + 1)
  {
  }

  /** What a delivery to the current registration does to its forwarder and channel. */
  lemma DeliverAdvances(s: State, k: Token)
    requires Enabled(s, Deliver(k)) && ForwarderOk(s, k) && Current(s, k)
    requires s.registry[s.issued[k].0].subscribed == s.issued[k].1
    ensures var t, f := Next(s, Deliver(k)), s.forwarders[k];
            t.bus == s.bus && t.issued == s.issued && k in t.forwarders &&
            t.forwarders[k] == f.(holding := false, done := f.done + 1) &&
            Get(t.channel, k) == Get(s.channel, k) + if s.bus[f.done].tag in s.issued[k].1 then [f.done] else []
  {
  }

  lemma DeliverExits(s: State, k: Token)
    requires Enabled(s, Deliver(k)) && ForwarderOk(s, k) && !Current(s, k)
    ensures ForwarderOk(Next(s, Deliver(k)), k)
  {
  }

  /** Skipping one event, or passing it on when its tag is subscribed, is what a
      forwarder ought to do. */
  lemma AdvancedOk(s: State, t: State, k: Token, f: Forwarder)
    requires k in s.issued && ForwarderOk(s, k) && k in s.forwarders && s.forwarders[k] == f
    requires f.Attached? && f.holding && !f.exited
    requires t.bus == s.bus && t.issued == s.issued && k in t.forwarders
    requires t.forwarders[k] == f.(holding := false, done := f.done + 1)
    requires Get(t.channel, k) == Get(s.channel, k) + if s.bus[f.done].tag in s.issued[k].1 then [f.done] else []
    ensures ForwarderOk(t, k)
  {
    var c, c', tags := Get(s.channel, k), Get(t.channel, k), s.issued[k].1;
    var sent := s.bus[f.done].tag in tags;
    assert c' == if sent then c + [f.done] else c;
    OrderedExtend(c, f.start, f.done);
    assert Ordered(c', f.start, f.done + 1);
    forall i | 0 <= i < |c'|
      ensures c'[i] < |t.bus| && t.bus[c'[i]].tag in tags
    {
      if i < |c| {
        assert c'[i] == c[i];
      }
    }
    MatchingNext(s.bus, tags, f.start, f.done);
    var g := t.forwarders[k];
    assert g.Attached? && g.start == f.start && g.done == f.done + 1 && !g.holding && g.lagged == f.lagged && !g.exited;
  }

  lemma MatchingNext(bus: seq<Event>, tags: set<Tag>, from: nat, to: nat)
    requires from <= to < |bus|
    ensures Matching(bus, tags, from, to + 1) == Matching(bus, tags, from, to) + if bus[to].tag in tags then [to] else []
  {
  }

  lemma DeliverKeeps(s: State, k: Token)
    requires Enabled(s, Deliver(k)) && ForwarderOk(s, k)
    requires Current(s, k) ==> s.registry[s.issued[k].0].subscribed == s.issued[k].1
    ensures ForwarderOk(Next(s, Deliver(k)), k)
  {
    if Current(s, k) {
      DeliverAdvances(s, k);
      AdvancedOk(s, Next(s, Deliver(k)), k, s.forwarders[k]);
    } else {
      DeliverExits(s, k);
    }
  }

  lemma OthersKept(s: State, step: Step, k: Token)
    requires Enabled(s, step) && k in s.issued && ForwarderOk(s, k)
    requires match step
             case Publish(_) => false
             case Unregister(_) => true
             case _ => step.token != k
    ensures ForwarderOk(Next(s, step), k)
  {
    var t := Next(s, step);
    assert t.bus == s.bus && Get(t.channel, k) == Get(s.channel, k) && t.issued[k] == s.issued[k];
    assert k in t.forwarders <==> k in s.forwarders;
  }

  lemma OwnKept(s: State, step: Step)
    requires Inv(s) && Enabled(s, step)
    requires step.Register? || step.Subscribe? || step.Receive? || step.Lag?
    ensures step.token in Next(s, step).issued && ForwarderOk(Next(s, step), step.token)
  {
    var k := step.token;
    if !step.Register? {
      assert ForwarderOk(s, k);
    }
  }

  lemma StepKeepsInv(s: State, step: Step)
    requires Inv(s) && Enabled(s, step)
    ensures Inv(Next(s, step))
  {
    var t := Next(s, step);
    forall k | k in t.issued
      ensures ForwarderOk(t, k)
    {
      if step.Publish? {
        PublishKeeps(s, step.event, k);
      } else if step.Deliver? && k == step.token {
        DeliverKeeps(s, k);
      } else if step.Unregister? || k != step.token {
        OthersKept(s, step, k);
      } else {
        OwnKept(s, step);
      }
    }
  }

  lemma {:induction false} RunKeepsInv(s: State, run: seq<Step>, t: State)
    requires Inv(s) && Reaches(s, run, t)
    ensures Inv(t)
    decreases run
  {
    if run != [] {
      StepKeepsInv(s, run[0]);
      RunKeepsInv(Next(s, run[0]), run[1..], t);
    }
  }

  /** Over all interleavings, what a registration's channel gets from its forwarder is
      an in-order, duplicate-free selection of bus events with subscribed tags, none
      published before the forwarder subscribed. */
  lemma InOrderSubscribedOnly(run: seq<Step>, t: State, k: Token)
    requires Reaches(INIT, run, t) && k in t.issued
    ensures var c := Get(t.channel, k);
            (forall i | 0 <= i < |c| :: c[i] < |t.bus| && t.bus[c[i]].tag in t.issued[k].1) &&
            (forall i, j | 0 <= i < j < |c| :: c[i] < c[j]) &&
            (k in t.forwarders && t.forwarders[k].Attached? ==>
               forall i | 0 <= i < |c| :: t.forwarders[k].start <= c[i])
  {
    RunKeepsInv(INIT, run, t);
    assert ForwarderOk(t, k);
  }

  /** Without lag it is exactly the filtered bus from the subscription point to the
      forwarder's position (or to where it exited). */
  lemma ExactWithoutLag(run: seq<Step>, t: State, k: Token)
    requires Reaches(INIT, run, t) && k in t.forwarders
    requires t.forwarders[k].Attached? && !t.forwarders[k].lagged
    ensures k in t.issued && t.forwarders[k].start <= t.forwarders[k].done <= |t.bus|
    ensures Get(t.channel, k) == Matching(t.bus, t.issued[k].1, t.forwarders[k].start, t.forwarders[k].done)
  {
    RunKeepsInv(INIT, run, t);
    assert ForwarderOk(t, k);
  }

  lemma {:induction false} MatchingMembers(bus: seq<Event>, tags: set<Tag>, from: nat, to: nat, p: nat)
    requires from <= to <= |bus|
    ensures p in Matching(bus, tags, from, to) <==> from <= p < to && bus[p].tag in tags
  {
    if from < to {
      MatchingMembers(bus, tags, from, to - 1, p);
    }
  }

  // ----- Nothing from before the subscription -----

  /** What stays of a registration and its attached forwarder. */
  lemma StepKeepsStart(s: State, step: Step, k: Token)
    requires Inv(s) && Enabled(s, step) && k in s.forwarders && s.forwarders[k].Attached?
    ensures var t := Next(s, step);
            k in t.forwarders && t.forwarders[k].Attached? && t.forwarders[k].start == s.forwarders[k].start &&
            k in s.issued && k in t.issued && t.issued[k] == s.issued[k]
  {
    assert k in s.issued;
    match step
    case Register(_, _, _) =>
    case Subscribe(j) => assert j != k;
    case Receive(_) =>
    case Deliver(_) =>
    case Lag(_, _) =>
    case _ =>
  }

  lemma {:induction false} RunKeepsStart(s: State, run: seq<Step>, t: State, k: Token)
    requires Inv(s) && Reaches(s, run, t) && k in s.forwarders && s.forwarders[k].Attached?
    ensures k in t.forwarders && t.forwarders[k].Attached? && t.forwarders[k].start == s.forwarders[k].start
    ensures k in s.issued && k in t.issued && t.issued[k] == s.issued[k]
    decreases run
  {
    if run != [] {
      StepKeepsInv(s, run[0]);
      StepKeepsStart(s, run[0], k);
      RunKeepsStart(Next(s, run[0]), run[1..], t, k);
    }
  }

  lemma ChannelSinceStart(t: State, k: Token)
    requires Inv(t) && k in t.issued && k in t.forwarders && t.forwarders[k].Attached?
    ensures var f, c, tags := t.forwarders[k], Get(t.channel, k), t.issued[k].1;
            (forall p | p in c :: f.start <= p < |t.bus| && t.bus[p].tag in tags) &&
            (!f.lagged ==>
               f.start <= f.done <= |t.bus| && c == Matching(t.bus, tags, f.start, f.done) &&
               forall p :: p in c <==> f.start <= p < f.done && t.bus[p].tag in tags)
  {
    assert ForwarderOk(t, k);
    var f, tags := t.forwarders[k], t.issued[k].1;
    if !f.lagged {
      forall p: nat
        ensures p in Matching(t.bus, tags, f.start, f.done) <==> f.start <= p < f.done && t.bus[p].tag in tags
      {
        MatchingMembers(t.bus, tags, f.start, f.done, p);
      }
    }
  }

  /** A forwarder that subscribes when the bus has n events sends only later ones; without
      lag it has sent, in order, exactly those of them that carry a subscribed tag, up to
      its position. */
  lemma OnlySinceSubscription(before: seq<Step>, s: State, k: Token, run: seq<Step>, t: State)
    requires Reaches(INIT, before, s) && Enabled(s, Subscribe(k)) && Reaches(Next(s, Subscribe(k)), run, t)
    ensures k in s.issued && k in t.forwarders && t.forwarders[k].Attached?
    ensures forall p | p in Get(t.channel, k) :: |s.bus| <= p < |t.bus| && t.bus[p].tag in s.issued[k].1
    ensures var f := t.forwarders[k];
            !f.lagged ==>
              |s.bus| <= f.done <= |t.bus| &&
              Get(t.channel, k) == Matching(t.bus, s.issued[k].1, |s.bus|, f.done) &&
              forall p :: p in Get(t.channel, k) <==> |s.bus| <= p < f.done && t.bus[p].tag in s.issued[k].1
  {
    RunKeepsInv(INIT, before, s);
    StepKeepsInv(s, Subscribe(k));
    RunKeepsInv(Next(s, Subscribe(k)), run, t);
    RunKeepsStart(Next(s, Subscribe(k)), run, t, k);
    ChannelSinceStart(t, k);
  }

  // ----- A forwarder gets through -----

  /** The current registration's forwarder runs, if it subscribed to anything. */
  ghost predicate Alive(s: State) {
    forall k | Current(s, k) && s.issued[k].1 != {} :: Running(s, k)
  }

  predicate Running(s: State, k: Token) {
    k in s.forwarders && (s.forwarders[k].Attached? ==> !s.forwarders[k].exited)
  }

  lemma StepKeepsAlive(s: State, step: Step)
    requires Inv(s) && Alive(s) && Enabled(s, step)
    ensures Alive(Next(s, step))
  {
    var t := Next(s, step);
    forall k | Current(t, k) && t.issued[k].1 != {}
      ensures Running(t, k)
    {
      if k in s.issued {
        if !Current(s, k) {
          ReplacedStaysReplaced(s, step, k);
          assert false;
        }
        assert Running(s, k);
      }
    }
  }

  lemma {:induction false} RunKeepsAlive(s: State, run: seq<Step>, t: State)
    requires Inv(s) && Alive(s) && Reaches(s, run, t)
    ensures Alive(t)
    decreases run
  {
    if run != [] {
      StepKeepsInv(s, run[0]);
      StepKeepsAlive(s, run[0]);
      RunKeepsAlive(Next(s, run[0]), run[1..], t);
    }
  }

  predicate OwnStep(step: Step, k: Token) {
    (step.Subscribe? || step.Receive? || step.Deliver?) && step.token == k
  }

  function NextOwn(s: State, k: Token): Step
    requires k in s.forwarders
  {
    match s.forwarders[k]
    case Spawned => Subscribe(k)
    case Attached(_, _, holding, _, _) => if holding then Deliver(k) else Receive(k)
  }

  function Remaining(s: State, k: Token): nat
    requires Inv(s) && k in s.forwarders
  {
    match s.forwarders[k]
    case Spawned => 2 * |s.bus| + 1
    case Attached(_, done, holding, _, _) =>
      assert ForwarderOk(s, k);
      2 * (|s.bus| - done) - if holding then 1 else 0
  }

  ghost predicate CaughtUp(t: State, k: Token) {
    k in t.forwarders && t.forwarders[k].Attached? && t.forwarders[k].done == |t.bus| && !t.forwarders[k].holding
  }

  lemma {:induction false} CatchUpFrom(s: State, k: Token) returns (run: seq<Step>, t: State)
    requires Inv(s) && Alive(s) && Current(s, k) && s.issued[k].1 != {}
    ensures Reaches(s, run, t) && (forall step | step in run :: OwnStep(step, k))
    ensures t.bus == s.bus && t.registry == s.registry && CaughtUp(t, k)
    ensures s.forwarders[k].Attached? ==> t.forwarders[k].lagged == s.forwarders[k].lagged
    ensures s.forwarders[k].Spawned? ==> !t.forwarders[k].lagged
    decreases Remaining(s, k)
  {
    assert Running(s, k) && ForwarderOk(s, k);
    if CaughtUp(s, k) {
      run, t := [], s;
    } else {
      var step := NextOwn(s, k);
      var u := Next(s, step);
      StepKeepsInv(s, step);
      StepKeepsAlive(s, step);
      var rest;
      rest, t := CatchUpFrom(u, k);
      run := [step] + rest;
      assert run[1..] == rest;
    }
  }

  /** From every reachable state the forwarder of a current registration that subscribed
      to something can, by its own steps alone, get to the end of the bus; it has then
      sent every event with a subscribed tag since its start, unless it ever lagged. */
  lemma ForwarderCatchesUp(before: seq<Step>, s: State, k: Token) returns (run: seq<Step>, t: State)
    requires Reaches(INIT, before, s) && Current(s, k) && s.issued[k].1 != {}
    ensures Reaches(s, run, t) && (forall step | step in run :: OwnStep(step, k)) && t.bus == s.bus
    ensures k in s.forwarders && CaughtUp(t, k)
    ensures !(s.forwarders[k].Attached? && s.forwarders[k].lagged) ==>
              forall p | t.forwarders[k].start <= p < |s.bus| && s.bus[p].tag in s.issued[k].1 :: p in Get(t.channel, k)
  {
    RunKeepsInv(INIT, before, s);
    RunKeepsAlive(INIT, before, s);
    assert Running(s, k);
    run, t := CatchUpFrom(s, k);
    RunKeepsInv(s, run, t);
    IssuedStays(s, run, t, k);
    assert ForwarderOk(t, k);
    forall p | t.forwarders[k].start <= p < |s.bus| && s.bus[p].tag in s.issued[k].1 && !t.forwarders[k].lagged
      ensures p in Get(t.channel, k)
    {
      MatchingMembers(t.bus, t.issued[k].1, t.forwarders[k].start, |t.bus|, p);
    }
  }

  lemma {:induction false} IssuedStays(s: State, run: seq<Step>, t: State, k: Token)
    requires Reaches(s, run, t) && k in s.issued
    ensures k in t.issued && t.issued[k] == s.issued[k]
    decreases run
  {
    if run != [] {
      IssuedStays(Next(s, run[0]), run[1..], t, k);
    }
  }

  /** A registration is remembered with what was asked for, and is the current one. */
  lemma RegisteredIsCurrent(s: State, n: Nick, k: Token, events: set<Tag>)
    requires Enabled(s, Register(n, k, events))
    ensures var t := Next(s, Register(n, k, events)); Current(t, k) && t.issued[k] == (n, events)
  {
  }

  // ----- A replaced registration -----

  /** Tokens are fresh, so once a registration is gone or replaced it never is the
      current one again. */
  lemma ReplacedStaysReplaced(s: State, step: Step, k: Token)
    requires Inv(s) && Enabled(s, step) && k in s.issued && !Current(s, k)
    ensures k in Next(s, step).issued && !Current(Next(s, step), k)
    ensures Get(Next(s, step).channel, k) == Get(s.channel, k)
  {
  }

  /** From then on its forwarder sends nothing, whatever else happens. */
  lemma {:induction false} ReplacedForwarderIsSilent(before: seq<Step>, s: State, run: seq<Step>, t: State, k: Token)
    requires Reaches(INIT, before, s) && Reaches(s, run, t)
    requires k in s.issued && !Current(s, k)
    ensures !Current(t, k) && Get(t.channel, k) == Get(s.channel, k)
  {
    RunKeepsInv(INIT, before, s);
    SilentFrom(s, run, t, k);
  }

  lemma {:induction false} SilentFrom(s: State, run: seq<Step>, t: State, k: Token)
    requires Inv(s) && Reaches(s, run, t) && k in s.issued && !Current(s, k)
    ensures !Current(t, k) && Get(t.channel, k) == Get(s.channel, k)
    decreases run
  {
    if run != [] {
      StepKeepsInv(s, run[0]);
      ReplacedStaysReplaced(s, run[0], k);
      SilentFrom(Next(s, run[0]), run[1..], t, k);
    }
  }

  /** A registration ends when its nick is unregistered or registered again, and in no
      other way. */
  lemma CurrentUntilEnded(s: State, step: Step, k: Token)
    requires Enabled(s, step) && Current(s, k)
    ensures Current(Next(s, step), k) <==>
            !((step.Unregister? || step.Register?) && step.nick == s.issued[k].0)
  {
  }

  /** So a forwarder sends nothing any more from the unregistration or replacement of its
      bot on. */
  lemma EndedForwarderIsSilent(before: seq<Step>, s: State, step: Step, run: seq<Step>, t: State, k: Token)
    requires Reaches(INIT, before, s) && Current(s, k) && Enabled(s, step)
    requires (step.Unregister? || step.Register?) && step.nick == s.issued[k].0
    requires Reaches(Next(s, step), run, t)
    ensures Get(t.channel, k) == Get(s.channel, k)
  {
    RunKeepsInv(INIT, before, s);
    StepKeepsInv(s, step);
    CurrentUntilEnded(s, step, k);
    SilentFrom(Next(s, step), run, t, k);
  }

  predicate Exited(s: State, k: Token) {
    k in s.forwarders && s.forwarders[k].Attached? && s.forwarders[k].exited && !s.forwarders[k].holding
  }

  lemma ExitedStep(s: State, step: Step, k: Token)
    requires k in s.issued && Enabled(s, step) && Exited(s, k)
    ensures k in Next(s, step).issued && Exited(Next(s, step), k)
  {
    match step
    case Register(_, j, _) => assert j != k;
    case Subscribe(j) => assert j != k;
    case Receive(j) => assert j != k;
    case Deliver(j) => assert j != k;
    case Lag(j, _) => assert j != k;
    case _ =>
  }

  lemma {:induction false} ExitedStays(s: State, run: seq<Step>, t: State, k: Token)
    requires k in s.issued && Reaches(s, run, t) && Exited(s, k)
    ensures Exited(t, k)
    decreases run
  {
    if run != [] {
      ExitedStep(s, run[0], k);
      ExitedStays(Next(s, run[0]), run[1..], t, k);
    }
  }

  /** The first event it looks at after that ends its loop: no step of its own is possible
      ever again. */
  lemma EndedForwarderExits(before: seq<Step>, s: State, k: Token, run: seq<Step>, t: State, step: Step)
    requires Reaches(INIT, before, s) && !Current(s, k) && Enabled(s, Deliver(k))
    requires Reaches(Next(s, Deliver(k)), run, t)
    requires (step.Subscribe? || step.Receive? || step.Deliver? || step.Lag?) && step.token == k
    ensures !Enabled(t, step)
  {
    RunKeepsInv(INIT, before, s);
    StepKeepsInv(s, Deliver(k));
    ExitedStays(Next(s, Deliver(k)), run, t, k);
  }
}
