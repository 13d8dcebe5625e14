/** Enforcement on top of the moderation tables: the rank checks of the chat
    commands, the gag gate on chat from the hub, the ban check on join, the periodic
    purge, and the HTTP endpoints that write the same tables. Database calls succeed
    and handlers run one at a time; the time of each is an input. */
module Moderation {
  import opened Common
  import opened ModTable

  const MIN_MOD_PERMISSION: int := 2

  datatype HubCommand =
    | KickUser(nick: Nick)
    | KickReason(nick: Nick, text: string)
    | GagNotice(nick: Nick)
    | GaggedNotice(nick: Nick)
    | Broadcast(nick: Nick, text: string)
    | PurgeStale

  datatype BusEvent =
    | Chat(nick: Nick, text: string)
    | BanEvent(nick: Nick, author: Nick)
    | UnbanEvent(nick: Nick, author: Nick)
    | GagEvent(nick: Nick, author: Nick)
    | UngagEvent(nick: Nick, author: Nick)

  /** `users` maps a stored nick to its permission. */
  datatype Store = Store(users: map<Nick, int>, bans: Table, gags: Table, queue: seq<HubCommand>, bus: seq<BusEvent>)

  datatype Command =
    | Ban(target: Nick, expires: Option<Time>)
    | Unban(target: Nick)
    | Kick(target: Nick, reason: string)
    | Gag(target: Nick, expires: Option<Time>)
    | Ungag(target: Nick)

  datatype Event =
    | HubChat(nick: Nick, text: string)
    | Moderate(caller: Nick, command: Command)
    | Seen(nick: Nick)
    | Join(nick: Nick)
    | Maintenance
    | ApiBan(nick: Nick, byAddress: bool, expires: Option<Time>, online: bool)
    | ApiUnban(nick: Nick)
    | ApiGag(nick: Nick, expires: Option<Time>)
    | ApiUngag(nick: Nick)
    | BotCreateBan(target: Option<Nick>, author: Nick, expires: Option<Time>)
    | BotDeleteBan(id: nat)
    | BotCreateGag(nick: Nick, author: Nick, expires: Option<Time>)
    | BotDeleteGag(id: nat)
    | ApiRegister(nick: Nick, level: int)
    | ApiUnregister(nick: Nick)
    | ApiSetPassword(nick: Nick, permission: Option<int>)

  datatype Stamped = Stamped(event: Event, at: Time)

  // ----- Permissions -----

  /** A missing user counts as 0. */
  function Permission(users: map<Nick, int>, n: Nick): int {
    if n in users then users[n] else 0
  }

  /** A row is created with permission 0 and otherwise keeps the one it has. */
  function Upsert(users: map<Nick, int>, n: Nick): map<Nick, int> {
    users[n := Permission(users, n)]
  }

  predicate Outranks(users: map<Nick, int>, caller: Nick, target: Nick) {
    Permission(users, caller) >= MIN_MOD_PERMISSION && Permission(users, target) < Permission(users, caller)
  }

  predicate BadNick(n: Nick) {
    '|' in n || '$' in n
  }

  // ----- One step -----

  function CreateBan(s: Store, target: Option<Nick>, author: Nick, e: Option<Time>, now: Time): Store {
    s.(bans := ModTable.Create(s.bans, target, author, e, now))
  }

  function CreateGag(s: Store, target: Nick, author: Nick, e: Option<Time>, now: Time): Store {
    s.(gags := ModTable.Create(s.gags, Some(target), author, e, now))
  }

  function Emit(s: Store, commands: seq<HubCommand>, events: seq<BusEvent>): Store {
    s.(queue := s.queue + commands, bus := s.bus + events)
  }

  /** A chat moderation command as handled by the engine, replies left out. */
  function RunCommand(s: Store, caller: Nick, c: Command, now: Time): Store {
    var t := c.target;
    if t == "" || !Outranks(s.users, caller, t) then s else
      match c
      case Ban(_, e) => Emit(CreateBan(s, Some(t), caller, e, now), [KickUser(t)], [BanEvent(t, caller)])
      case Unban(_) =>
        if Check(s.bans, t, now).None? then s else
          Emit(s.(bans := Lift(s.bans, t, now)), [], [UnbanEvent(t, caller)])
      case Kick(_, why) => Emit(s, (if why == "" then [] else [KickReason(t, why)]) + [KickUser(t)], [])
      case Gag(_, e) => Emit(CreateGag(s, t, caller, e, now), [GagNotice(t)], [GagEvent(t, caller)])
      case Ungag(_) =>
        if Check(s.gags, t, now).None? then s else
          Emit(s.(gags := Lift(s.gags, t, now)), [], [UngagEvent(t, caller)])
  }

  function RunApi(s: Store, o: Stamped): Store {
    match o.event
    case ApiBan(n, byAddress, e, online) =>
      if BadNick(n) then s else
        Emit(CreateBan(s, if byAddress then None else Some(n), "api", e, o.at),
             if online then [KickUser(n)] else [], [BanEvent(n, "api")])
    case ApiUnban(n) =>
      if BadNick(n) || Check(s.bans, n, o.at).None? then s else
        Emit(s.(bans := Lift(s.bans, n, o.at)), [], [UnbanEvent(n, "api")])
    case ApiGag(n, e) =>
      if BadNick(n) then s else Emit(CreateGag(s, n, "api", e, o.at), [], [GagEvent(n, "api")])
    case ApiUngag(n) =>
      if BadNick(n) || Check(s.gags, n, o.at).None? then s else
        Emit(s.(gags := Lift(s.gags, n, o.at)), [], [UngagEvent(n, "api")])
    case BotCreateBan(n, author, e) => CreateBan(s, n, author, e, o.at)
    case BotDeleteBan(id) => s.(bans := Delete(s.bans, id))
    case BotCreateGag(n, author, e) => CreateGag(s, n, author, e, o.at)
    case BotDeleteGag(id) => s.(gags := Delete(s.gags, id))
    case ApiRegister(n, level) =>
      if BadNick(n) || !(0 <= level <= 3) then s else s.(users := s.users[n := level])
    case ApiUnregister(n) =>
      if BadNick(n) || n !in s.users then s else s.(users := s.users[n := 0])
    case ApiSetPassword(n, level) =>
      var p := if level.Some? then level.value else 1;
      if BadNick(n) || (n in s.users && p <= 0) then s else s.(users := s.users[n := p])
    case _ => s
  }

  function Handle(s: Store, o: Stamped): Store {
    match o.event
    case HubChat(n, text) =>
      if Check(s.gags, n, o.at).Some? then Emit(s, [GaggedNotice(n)], [])
      else Emit(s, [Broadcast(n, text)], [Chat(n, text)])
    case Moderate(caller, c) => RunCommand(s, caller, c, o.at)
    case Seen(n) => s.(users := Upsert(s.users, n))
    case Join(n) =>
      if Check(s.bans, n, o.at).Some? then Emit(s, [KickUser(n)], []) else s.(users := Upsert(s.users, n))
    case Maintenance =>
      Emit(s.(bans := Purge(s.bans, o.at), gags := Purge(s.gags, o.at)), [PurgeStale], [])
    case _ => RunApi(s, o)
  }

  function Exec(s: Store, run: seq<Stamped>): Store {
    if run == [] then s else Handle(Exec(s, run[..|run| - 1]), run[|run| - 1])
  }

  // ----- Rank safety -----

  predicate ChangesPermissions(e: Event) {
    e.ApiRegister? || e.ApiUnregister? || e.ApiSetPassword?
  }

  /** No hub event and no chat command changes anyone's permission. */
  lemma {:induction false} PermissionsUnchanged(s: Store, run: seq<Stamped>, n: Nick)
    requires forall o | o in run :: !ChangesPermissions(o.event)
    ensures Permission(Exec(s, run).users, n) == Permission(s.users, n)
  {
    if run != [] {
      assert run[|run| - 1] in run;
      PermissionsUnchanged(s, run[..|run| - 1], n);
    }
  }

  /** A chat command has an effect exactly when it names a target, its caller is at
      least an operator and outranks the target, and there is something to lift. */
  lemma EffectIffOutranks(s: Store, caller: Nick, c: Command, now: Time)
    ensures RunCommand(s, caller, c, now) != s <==>
            c.target != "" && Outranks(s.users, caller, c.target) &&
            (c.Unban? ==> Check(s.bans, c.target, now).Some?) &&
            (c.Ungag? ==> Check(s.gags, c.target, now).Some?)
  {
    var t := RunCommand(s, caller, c, now);
    if c.Ban? || c.Gag? || c.Kick? {
      assert t == s || |t.queue| > |s.queue|;
    } else {
      assert t == s || |t.bus| > |s.bus|;
    }
  }

  /** Rank safety: in a run in which nobody is given a new permission through the API,
      every chat command that did anything had a caller of initial rank at least 2,
      strictly above its target's; so it was not its own target. */
  lemma RankSafety(s: Store, run: seq<Stamped>, caller: Nick, c: Command, now: Time)
    requires forall o | o in run :: !ChangesPermissions(o.event)
    requires RunCommand(Exec(s, run), caller, c, now) != Exec(s, run)
    ensures Permission(s.users, caller) >= 2
    ensures Permission(s.users, c.target) < Permission(s.users, caller)
    ensures caller != c.target
  {
    EffectIffOutranks(Exec(s, run), caller, c, now);
    PermissionsUnchanged(s, run, caller);
    PermissionsUnchanged(s, run, c.target);
  }

  /** Nobody of maximal permission is ever affected by a chat command, whoever gives it. */
  lemma TopRankUntouched(s: Store, run: seq<Stamped>, caller: Nick, c: Command, now: Time)
    requires forall o | o in run :: !ChangesPermissions(o.event)
    requires forall n :: Permission(s.users, n) <= Permission(s.users, c.target)
    ensures RunCommand(Exec(s, run), caller, c, now) == Exec(s, run)
  {
    if RunCommand(Exec(s, run), caller, c, now) != Exec(s, run) {
      RankSafety(s, run, caller, c, now);
      assert false;
    }
  }

  /** Permissions are written by three API calls alone, each for one user whose nick is
      acceptable: a registration at a level from 0 to 3, an unregistration, and a password,
      whose level counts if it is positive or the user is new. */
  lemma PermissionAfter(s: Store, o: Stamped, n: Nick)
    ensures var now := Permission(Handle(s, o).users, n);
            match o.event
            case ApiRegister(m, level) =>
              now == if m == n && Plain(n) && 0 <= level <= 3 then level else Permission(s.users, n)
            case ApiUnregister(m) => now == if m == n && Plain(n) then 0 else Permission(s.users, n)
            case ApiSetPassword(m, None) => now == if m == n && Plain(n) then 1 else Permission(s.users, n)
            case ApiSetPassword(m, Some(level)) =>
              now == if m == n && Plain(n) && (level > 0 || n !in s.users) then level else Permission(s.users, n)
            case _ => now == Permission(s.users, n)
  {
  }

  /** Users are never removed. A nick is added when it is seen chatting or sharing, when it
      joins without a ban in force, and by an accepted registration or password. */
  lemma StoredAfter(s: Store, o: Stamped, n: Nick)
    ensures var added := match o.event
                         case Seen(m) => m == n
                         case Join(m) => m == n && !InForce(s.bans.rows, n, o.at)
                         case ApiRegister(m, level) => m == n && Plain(n) && 0 <= level <= 3
                         case ApiSetPassword(m, _) => m == n && Plain(n)
                         case _ => false;
            n in Handle(s, o).users <==> n in s.users || added
  {
    if o.event.Join? {
      CheckIsInForce(s.bans, o.event.nick, o.at);
    }
  }

  // ----- What a run puts out, told from rows and ranks -----

  ghost predicate InForce(rows: seq<Row>, n: Nick, now: Time) {
    exists r | r in rows :: Binds(r, n, now)
  }

  /** The caller is an operator or higher and strictly above the target; a target without
      a row ranks below every operator. */
  predicate MayModerate(users: map<Nick, int>, caller: Nick, target: Nick) {
    target != "" && caller in users && users[caller] >= 2 && (target in users ==> users[target] < users[caller])
  }

  predicate Plain(n: Nick) {
    '|' !in n && '$' !in n
  }

  ghost function CommandsDue(s: Store, o: Stamped): seq<HubCommand> {
    match o.event
    case HubChat(n, text) => if InForce(s.gags.rows, n, o.at) then [GaggedNotice(n)] else [Broadcast(n, text)]
    case Moderate(caller, Ban(t, _)) => if MayModerate(s.users, caller, t) then [KickUser(t)] else []
    case Moderate(caller, Kick(t, why)) =>
      if !MayModerate(s.users, caller, t) then []
      else if why == "" then [KickUser(t)] else [KickReason(t, why), KickUser(t)]
    case Moderate(caller, Gag(t, _)) => if MayModerate(s.users, caller, t) then [GagNotice(t)] else []
    case Join(n) => if InForce(s.bans.rows, n, o.at) then [KickUser(n)] else []
    case Maintenance => [PurgeStale]
    case ApiBan(n, _, _, online) => if Plain(n) && online then [KickUser(n)] else []
    case _ => []
  }

  ghost function EventsDue(s: Store, o: Stamped): seq<BusEvent> {
    match o.event
    case HubChat(n, text) => if InForce(s.gags.rows, n, o.at) then [] else [Chat(n, text)]
    case Moderate(caller, Ban(t, _)) => if MayModerate(s.users, caller, t) then [BanEvent(t, caller)] else []
    case Moderate(caller, Gag(t, _)) => if MayModerate(s.users, caller, t) then [GagEvent(t, caller)] else []
    case Moderate(caller, Unban(t)) =>
      if MayModerate(s.users, caller, t) && InForce(s.bans.rows, t, o.at) then [UnbanEvent(t, caller)] else []
    case Moderate(caller, Ungag(t)) =>
      if MayModerate(s.users, caller, t) && InForce(s.gags.rows, t, o.at) then [UngagEvent(t, caller)] else []
    case ApiBan(n, _, _, _) => if Plain(n) then [BanEvent(n, "api")] else []
    case ApiGag(n, _) => if Plain(n) then [GagEvent(n, "api")] else []
    case ApiUnban(n) => if Plain(n) && InForce(s.bans.rows, n, o.at) then [UnbanEvent(n, "api")] else []
    case ApiUngag(n) => if Plain(n) && InForce(s.gags.rows, n, o.at) then [UngagEvent(n, "api")] else []
    case _ => []
  }

  lemma CheckIsInForce(t: Table, n: Nick, now: Time)
    ensures Check(t, n, now).Some? <==> InForce(t.rows, n, now)
  {
    CheckFindsNewest(t.rows, n, now);
  }

  lemma MayModerateIff(users: map<Nick, int>, caller: Nick, t: Nick)
    ensures MayModerate(users, caller, t) <==> t != "" && Outranks(users, caller, t)
  {
  }

  predicate Appends(s: Store, t: Store, commands: seq<HubCommand>, events: seq<BusEvent>) {
    t.queue == s.queue + commands && t.bus == s.bus + events
  }

  lemma AppendsNothing(s: Store)
    ensures Appends(s, s, [], [])
  {
  }

  lemma CommandOutputs(s: Store, o: Stamped)
    requires o.event.Moderate?
    ensures Appends(s, Handle(s, o), CommandsDue(s, o), EventsDue(s, o))
  {
    var t := o.event.command.target;
    MayModerateIff(s.users, o.event.caller, t);
    CheckIsInForce(s.bans, t, o.at);
    CheckIsInForce(s.gags, t, o.at);
    AppendsNothing(s);
  }

  lemma ApiOutputs(s: Store, o: Stamped)
    requires !o.event.Moderate?
    ensures Appends(s, RunApi(s, o), if o.event.ApiBan? then CommandsDue(s, o) else [],
                    if o.event.HubChat? then [] else EventsDue(s, o))
  {
    AppendsNothing(s);
    match o.event
    case ApiUnban(n) => CheckIsInForce(s.bans, n, o.at);
    case ApiUngag(n) => CheckIsInForce(s.gags, n, o.at);
    case _ =>
  }

  lemma StepOutputs(s: Store, o: Stamped)
    ensures Appends(s, Handle(s, o), CommandsDue(s, o), EventsDue(s, o))
  {
    AppendsNothing(s);
    match o.event
    case HubChat(n, _) => CheckIsInForce(s.gags, n, o.at);
    case Moderate(_, _) => CommandOutputs(s, o);
    case Join(n) => CheckIsInForce(s.bans, n, o.at);
    case _ => ApiOutputs(s, o);
  }

  ghost function AllCommandsDue(s: Store, run: seq<Stamped>): seq<HubCommand> {
    if run == [] then [] else
      var k := |run| - 1;
      AllCommandsDue(s, run[..k]) + CommandsDue(Exec(s, run[..k]), run[k])
  }

  ghost function AllEventsDue(s: Store, run: seq<Stamped>): seq<BusEvent> {
    if run == [] then [] else
      var k := |run| - 1;
      AllEventsDue(s, run[..k]) + EventsDue(Exec(s, run[..k]), run[k])
  }

  lemma Associate<T>(a: seq<T>, b: seq<T>, c: seq<T>)
    ensures (a + b) + c == a + (b + c) && a + [] == a
  {
  }

  /** Over every run, the commands queued to the hub and the events published are, each
      once and in order, exactly those that the ranks and the rows in force call for. */
  lemma {:induction false} OutputsExact(s: Store, run: seq<Stamped>)
    ensures Appends(s, Exec(s, run), AllCommandsDue(s, run), AllEventsDue(s, run))
  {
    AppendsNothing(s);
    if run != [] {
      var k := |run| - 1;
      var mid, o := Exec(s, run[..k]), run[k];
      OutputsExact(s, run[..k]);
      StepOutputs(mid, o);
      Associate(s.queue, AllCommandsDue(s, run[..k]), CommandsDue(mid, o));
      Associate(s.bus, AllEventsDue(s, run[..k]), EventsDue(mid, o));
    }
  }

  // ----- The ban check on joins -----

  function Kicked(queue: seq<HubCommand>): seq<Nick> {
    if queue == [] then [] else
      var c := queue[|queue| - 1];
      Kicked(queue[..|queue| - 1]) + if c.KickUser? then [c.nick] else []
  }

  /** What the joins of a run, and only they, kick. */
  function KickedByJoins(s: Store, run: seq<Stamped>): seq<Nick> {
    if run == [] then [] else
      var k := |run| - 1;
      var before, after := Exec(s, run[..k]).queue, Exec(s, run).queue;
      KickedByJoins(s, run[..k]) +
      if run[k].event.Join? && |before| <= |after| then Kicked(after[|before|..]) else []
  }

  /** The joins of a run made while some ban on the nick was in force. */
  ghost function BannedJoins(s: Store, run: seq<Stamped>): seq<Nick> {
    if run == [] then [] else
      var k := |run| - 1;
      var o := run[k];
      BannedJoins(s, run[..k]) +
      if o.event.Join? && InForce(Exec(s, run[..k]).bans.rows, o.event.nick, o.at) then [o.event.nick] else []
  }

  /** A ban by address keeps no nick out: every check answers as before. */
  lemma AddressBanBindsNobody(s: Store, n: Nick, e: Option<Time>, online: bool, now: Time, m: Nick, later: Time)
    ensures InForce(Handle(s, Stamped(ApiBan(n, true, e, online), now)).bans.rows, m, later) <==>
            InForce(s.bans.rows, m, later)
  {
    var rows := Handle(s, Stamped(ApiBan(n, true, e, online), now)).bans.rows;
    assert forall r | r in s.bans.rows :: r in rows;
  }

  /** A join under a ban is kicked and stores nothing; any other queues nothing and leaves
      its nick stored with the permission it had, or 0; nothing else changes. */
  lemma JoinStep(s: Store, n: Nick, now: Time)
    ensures var t := Handle(s, Stamped(Join(n), now));
            t.bans == s.bans && t.gags == s.gags && t.bus == s.bus &&
            if InForce(s.bans.rows, n, now) then t.queue == s.queue + [KickUser(n)] && t.users == s.users
            else t.queue == s.queue && t.users == s.users[n := if n in s.users then s.users[n] else 0]
  {
    CheckIsInForce(s.bans, n, now);
    AppendsNothing(s);
  }

  lemma JoinKick(queue: seq<HubCommand>, n: Nick)
    ensures Kicked((queue + [KickUser(n)])[|queue|..]) == [n] && Kicked(queue[|queue|..]) == []
  {
    assert (queue + [KickUser(n)])[|queue|..] == [KickUser(n)] && [KickUser(n)][..0] == [];
    assert Kicked([KickUser(n)]) == Kicked([KickUser(n)][..0]) + [n];
  }

  /** The ban gate: over every run, joins kick exactly those nicks that join while banned,
      each once and in order. */
  lemma {:induction false} BanGate(s: Store, run: seq<Stamped>)
    ensures KickedByJoins(s, run) == BannedJoins(s, run)
  {
    if run != [] {
      var k := |run| - 1;
      var mid, o := Exec(s, run[..k]), run[k];
      BanGate(s, run[..k]);
      if o.event.Join? {
        JoinStep(mid, o.event.nick, o.at);
        JoinKick(mid.queue, o.event.nick);
      }
    }
  }

  // ----- The gag gate -----

  ghost predicate Gagged(s: Store, n: Nick, now: Time) {
    InForce(s.gags.rows, n, now)
  }

  function Published(bus: seq<BusEvent>): seq<(Nick, string)> {
    if bus == [] then [] else
      var e := bus[|bus| - 1];
      Published(bus[..|bus| - 1]) + if e.Chat? then [(e.nick, e.text)] else []
  }

  function Echoed(queue: seq<HubCommand>): seq<(Nick, string)> {
    if queue == [] then [] else
      var c := queue[|queue| - 1];
      Echoed(queue[..|queue| - 1]) + if c.Broadcast? then [(c.nick, c.text)] else []
  }

  function Refused(queue: seq<HubCommand>): seq<Nick> {
    if queue == [] then [] else
      var c := queue[|queue| - 1];
      Refused(queue[..|queue| - 1]) + if c.GaggedNotice? then [c.nick] else []
  }

  ghost function Passed(s: Store, o: Stamped): seq<(Nick, string)> {
    if o.event.HubChat? && !Gagged(s, o.event.nick, o.at) then [(o.event.nick, o.event.text)] else []
  }

  ghost function Stopped(s: Store, o: Stamped): seq<Nick> {
    if o.event.HubChat? && Gagged(s, o.event.nick, o.at) then [o.event.nick] else []
  }

  /** The messages of a run sent while no gag on the sender was in force. */
  ghost function Ungagged(s: Store, run: seq<Stamped>): seq<(Nick, string)> {
    if run == [] then [] else
      var k := |run| - 1;
      Ungagged(s, run[..k]) + Passed(Exec(s, run[..k]), run[k])
  }

  ghost function Silenced(s: Store, run: seq<Stamped>): seq<Nick> {
    if run == [] then [] else
      var k := |run| - 1;
      Silenced(s, run[..k]) + Stopped(Exec(s, run[..k]), run[k])
  }

  lemma {:induction false} EchoedAppend(a: seq<HubCommand>, b: seq<HubCommand>)
    ensures Echoed(a + b) == Echoed(a) + Echoed(b)
  {
    if b == [] {
      assert a + b == a;
    } else {
      EchoedAppend(a, b[..|b| - 1]);
      assert (a + b)[..|a + b| - 1] == a + b[..|b| - 1];
    }
  }

  lemma {:induction false} RefusedAppend(a: seq<HubCommand>, b: seq<HubCommand>)
    ensures Refused(a + b) == Refused(a) + Refused(b)
  {
    if b == [] {
      assert a + b == a;
    } else {
      RefusedAppend(a, b[..|b| - 1]);
      assert (a + b)[..|a + b| - 1] == a + b[..|b| - 1];
    }
  }

  lemma {:induction false} BusProjection(a: seq<BusEvent>, b: seq<BusEvent>)
    ensures Published(a + b) == Published(a) + Published(b)
  {
    if b == [] {
      assert a + b == a;
    } else {
      BusProjection(a, b[..|b| - 1]);
      assert (a + b)[..|a + b| - 1] == a + b[..|b| - 1];
    }
  }

  predicate Silent(commands: seq<HubCommand>, events: seq<BusEvent>) {
    (forall c | c in commands :: !c.Broadcast? && !c.GaggedNotice?) && forall e | e in events :: !e.Chat?
  }

  lemma {:induction false} SilentProjections(commands: seq<HubCommand>, events: seq<BusEvent>)
    requires Silent(commands, events)
    ensures Echoed(commands) == [] && Refused(commands) == [] && Published(events) == []
    decreases |commands| + |events|
  {
    if commands != [] {
      assert commands[|commands| - 1] in commands;
      SilentProjections(commands[..|commands| - 1], events);
    } else if events != [] {
      assert events[|events| - 1] in events;
      SilentProjections(commands, events[..|events| - 1]);
    }
  }

  /** The stores answer every permission, ban and gag check alike. */
  ghost predicate Alike(a: Store, b: Store, now: Time) {
    a.users == b.users && forall n :: Check(a.bans, n, now) == Check(b.bans, n, now) &&
                                      Check(a.gags, n, now) == Check(b.gags, n, now)
  }

  lemma DueAlike(a: Store, b: Store, o: Stamped)
    requires Alike(a, b, o.at)
    ensures CommandsDue(a, o) == CommandsDue(b, o) && EventsDue(a, o) == EventsDue(b, o)
  {
    forall n
      ensures InForce(a.bans.rows, n, o.at) <==> InForce(b.bans.rows, n, o.at)
      ensures InForce(a.gags.rows, n, o.at) <==> InForce(b.gags.rows, n, o.at)
    {
      CheckIsInForce(a.bans, n, o.at);
      CheckIsInForce(b.bans, n, o.at);
      CheckIsInForce(a.gags, n, o.at);
      CheckIsInForce(b.gags, n, o.at);
    }
  }

  lemma StepEmits(s: Store, o: Stamped) returns (commands: seq<HubCommand>, events: seq<BusEvent>)
    ensures Appends(s, Handle(s, o), commands, events)
    ensures o.event.HubChat? ==>
              var e := o.event;
              if Gagged(s, e.nick, o.at)
              then commands == [GaggedNotice(e.nick)] && events == []
              else commands == [Broadcast(e.nick, e.text)] && events == [Chat(e.nick, e.text)]
    ensures !o.event.HubChat? ==> Silent(commands, events)
  {
    commands, events := CommandsDue(s, o), EventsDue(s, o);
    StepOutputs(s, o);
  }

  lemma GateStep(s: Store, o: Stamped)
    ensures Published(Handle(s, o).bus) == Published(s.bus) + Passed(s, o)
    ensures Echoed(Handle(s, o).queue) == Echoed(s.queue) + Passed(s, o)
    ensures Refused(Handle(s, o).queue) == Refused(s.queue) + Stopped(s, o)
  {
    var commands, events := StepEmits(s, o);
    EchoedAppend(s.queue, commands);
    RefusedAppend(s.queue, commands);
    BusProjection(s.bus, events);
    if !o.event.HubChat? {
      SilentProjections(commands, events);
    } else {
      assert commands[..0] == [] && events[..0] == [];
    }
  }

  /** The gag gate: over every run, the chat published on the bus and the chat echoed
      to the hub are the same messages in the same order, namely those sent while no
      gag was in force, each once; every other message got its sender one notice. */
  lemma {:induction false} GagGate(s: Store, run: seq<Stamped>)
    ensures Published(Exec(s, run).bus) == Published(s.bus) + Ungagged(s, run)
    ensures Echoed(Exec(s, run).queue) == Echoed(s.queue) + Ungagged(s, run)
    ensures Refused(Exec(s, run).queue) == Refused(s.queue) + Silenced(s, run)
  {
    if run == [] {
      Associate(Published(s.bus), [], []);
    } else {
      var before, o := Exec(s, run[..|run| - 1]), run[|run| - 1];
      GagGate(s, run[..|run| - 1]);
      GateStep(before, o);
      Associate(Published(s.bus), Ungagged(s, run[..|run| - 1]), Passed(before, o));
      Associate(Echoed(s.queue), Ungagged(s, run[..|run| - 1]), Passed(before, o));
      Associate(Refused(s.queue), Silenced(s, run[..|run| - 1]), Stopped(before, o));
    }
  }

  // ----- The two tables over a run -----

  /** The statement, if any, that a step runs on the gags table. */
  function GagOp(users: map<Nick, int>, e: Event): Option<Op> {
    match e
    case Moderate(caller, c) =>
      if !MayModerate(users, caller, c.target) then None
      else if c.Gag? then Some(OpCreate(Some(c.target), caller, c.expires))
      else if c.Ungag? then Some(OpLift(c.target))
      else None
    case Maintenance => Some(OpPurge)
    case ApiGag(n, e) => if !Plain(n) then None else Some(OpCreate(Some(n), "api", e))
    case ApiUngag(n) => if !Plain(n) then None else Some(OpLift(n))
    case BotCreateGag(n, author, e) => Some(OpCreate(Some(n), author, e))
    case BotDeleteGag(id) => Some(OpDelete(id))
    case _ => None
  }

  function BanOp(users: map<Nick, int>, e: Event): Option<Op> {
    match e
    case Moderate(caller, c) =>
      if !MayModerate(users, caller, c.target) then None
      else if c.Ban? then Some(OpCreate(Some(c.target), caller, c.expires))
      else if c.Unban? then Some(OpLift(c.target))
      else None
    case Maintenance => Some(OpPurge)
    case ApiBan(n, byAddress, e, _) =>
      if !Plain(n) then None else Some(OpCreate(if byAddress then None else Some(n), "api", e))
    case ApiUnban(n) => if !Plain(n) then None else Some(OpLift(n))
    case BotCreateBan(n, author, e) => Some(OpCreate(n, author, e))
    case BotDeleteBan(id) => Some(OpDelete(id))
    case _ => None
  }

  datatype Kind = Bans | Gags

  function TableOf(w: Kind, s: Store): Table {
    if w.Bans? then s.bans else s.gags
  }

  function OpOn(w: Kind, users: map<Nick, int>, e: Event): Option<Op> {
    if w.Bans? then BanOp(users, e) else GagOp(users, e)
  }

  function Apply(t: Table, op: Option<Op>, now: Time): Table {
    if op.None? then t else Step(t, Timed(op.value, now), true).0
  }

  /** Every step is at most one statement on each table. */
  lemma TablesStep(s: Store, o: Stamped)
    ensures Handle(s, o).gags == Apply(s.gags, GagOp(s.users, o.event), o.at)
    ensures Handle(s, o).bans == Apply(s.bans, BanOp(s.users, o.event), o.at)
  {
    match o.event
    case Moderate(caller, c) => MayModerateIff(s.users, caller, c.target);
    case _ =>
  }

  /** The clock moves on between handlers. */
  ghost predicate Advancing(from: Time, run: seq<Stamped>) {
    (forall o | o in run :: from < o.at) && forall i, j | 0 <= i < j < |run| :: run[i].at < run[j].at
  }

  lemma StaysWellFormed(w: Kind, s: Store, o: Stamped, from: Time)
    requires WellFormed(TableOf(w, s), from) && from < o.at
    ensures WellFormed(TableOf(w, Handle(s, o)), o.at)
  {
    TablesStep(s, o);
    var op := OpOn(w, s.users, o.event);
    StepKeepsWellFormed(TableOf(w, s), from, Timed(if op.Some? then op.value else OpList, o.at), true);
  }

  /** A tick leaves exactly the rows that never expire or expire later, in both tables. */
  lemma TickPurges(s: Store, now: Time)
    ensures var t := Handle(s, Stamped(Maintenance, now));
            (forall r :: r in t.bans.rows <==> r in s.bans.rows && (r.expiresAt.None? || now < r.expiresAt.value)) &&
            (forall r :: r in t.gags.rows <==> r in s.gags.rows && (r.expiresAt.None? || now < r.expiresAt.value)) &&
            t.users == s.users && t.queue == s.queue + [PurgeStale] && t.bus == s.bus
  {
    PurgeDeletesExactlyExpired(s.bans, now);
    PurgeDeletesExactlyExpired(s.gags, now);
    AppendsNothing(s);
  }

  // ----- Maintenance is invisible -----

  function WithoutMaintenance(run: seq<Stamped>): seq<Stamped> {
    if run == [] then [] else
      var k := |run| - 1;
      if run[k].event.Maintenance? then WithoutMaintenance(run[..k]) else WithoutMaintenance(run[..k]) + [run[k]]
  }

  /** The commands other than the stale-user purge that every tick queues. */
  function Visible(queue: seq<HubCommand>): seq<HubCommand> {
    if queue == [] then [] else
      var k := |queue| - 1;
      if queue[k].PurgeStale? then Visible(queue[..k]) else Visible(queue[..k]) + [queue[k]]
  }

  lemma {:induction false} VisibleAppend(a: seq<HubCommand>, b: seq<HubCommand>)
    ensures Visible(a + b) == Visible(a) + Visible(b)
  {
    if b == [] {
      assert a + b == a;
    } else {
      VisibleAppend(a, b[..|b| - 1]);
      assert (a + b)[..|a + b| - 1] == a + b[..|b| - 1];
    }
  }

  /** The two stores differ only in purged rows and in queued purge commands. */
  ghost predicate Indistinct(a: Store, b: Store, now: Time) {
    a.users == b.users && a.bus == b.bus && Visible(a.queue) == Visible(b.queue) &&
    SameLive(a.bans, b.bans, now) && SameLive(a.gags, b.gags, now)
  }

  lemma ApplyKeepsSameLive(a: Table, b: Table, op: Option<Op>, now: Time)
    requires SameLive(a, b, now) && op != Some(OpPurge)
    ensures SameLive(Apply(a, op, now), Apply(b, op, now), now)
  {
    if op.Some? {
      StepAgrees(a, b, Timed(op.value, now));
    }
  }

  lemma ChecksAgree(a: Table, b: Table, now: Time)
    requires SameLive(a, b, now)
    ensures forall n :: Check(a, n, now) == Check(b, n, now)
  {
    forall n
      ensures Check(a, n, now) == Check(b, n, now)
    {
      NewestOfLive(a.rows, n, now);
      NewestOfLive(b.rows, n, now);
    }
  }

  lemma OutputsIndistinct(a: Store, b: Store, o: Stamped)
    requires Alike(a, b, o.at) && a.bus == b.bus && Visible(a.queue) == Visible(b.queue)
    ensures var a', b' := Handle(a, o), Handle(b, o); a'.bus == b'.bus && Visible(a'.queue) == Visible(b'.queue)
  {
    DueAlike(a, b, o);
    StepOutputs(a, o);
    StepOutputs(b, o);
    VisibleAppend(a.queue, CommandsDue(a, o));
    VisibleAppend(b.queue, CommandsDue(a, o));
  }

  lemma UsersIndistinct(a: Store, b: Store, o: Stamped)
    requires Alike(a, b, o.at)
    ensures Handle(a, o).users == Handle(b, o).users
  {
  }

  lemma StepIndistinct(a: Store, b: Store, o: Stamped)
    requires Indistinct(a, b, o.at) && !o.event.Maintenance?
    ensures Indistinct(Handle(a, o), Handle(b, o), o.at)
  {
    ChecksAgree(a.bans, b.bans, o.at);
    ChecksAgree(a.gags, b.gags, o.at);
    OutputsIndistinct(a, b, o);
    UsersIndistinct(a, b, o);
    TablesIndistinct(a, b, o);
  }

  lemma TablesIndistinct(a: Store, b: Store, o: Stamped)
    requires a.users == b.users && SameLive(a.bans, b.bans, o.at) && SameLive(a.gags, b.gags, o.at)
    requires !o.event.Maintenance?
    ensures SameLive(Handle(a, o).bans, Handle(b, o).bans, o.at) && SameLive(Handle(a, o).gags, Handle(b, o).gags, o.at)
  {
    TablesStep(a, o);
    TablesStep(b, o);
    ApplyKeepsSameLive(a.bans, b.bans, BanOp(a.users, o.event), o.at);
    ApplyKeepsSameLive(a.gags, b.gags, GagOp(a.users, o.event), o.at);
  }

  lemma TickIndistinct(a: Store, b: Store, now: Time)
    requires Indistinct(a, b, now)
    ensures Indistinct(Handle(a, Stamped(Maintenance, now)), b, now)
  {
    StepAgrees(a.bans, b.bans, Timed(OpPurge, now));
    StepAgrees(a.gags, b.gags, Timed(OpPurge, now));
    VisibleAppend(a.queue, [PurgeStale]);
    assert [PurgeStale][..0] == [];
    AppendsNothing(a);
  }

  /** Maintenance is invisible: leaving every tick out of a run of the gateway changes
      no event on the bus, no other command to the hub, no permission, and no answer
      of a later ban or gag check or listing. */
  lemma {:induction false} MaintenanceInvisible(s: Store, run: seq<Stamped>, now: Time)
    requires forall i, j | 0 <= i <= j < |run| :: run[i].at <= run[j].at <= now
    ensures Indistinct(Exec(s, run), Exec(s, WithoutMaintenance(run)), now)
  {
    if run != [] {
      var k := |run| - 1;
      var a, rest, o := Exec(s, run[..k]), WithoutMaintenance(run[..k]), run[k];
      var b := Exec(s, rest);
      MaintenanceInvisible(s, run[..k], o.at);
      if o.event.Maintenance? {
        TickIndistinct(a, b, o.at);
      } else {
        StepIndistinct(a, b, o);
        assert (rest + [o])[..|rest|] == rest;
      }
      SameLiveLater(Exec(s, run).bans, Exec(s, WithoutMaintenance(run)).bans, o.at, now);
      SameLiveLater(Exec(s, run).gags, Exec(s, WithoutMaintenance(run)).gags, o.at, now);
    }
  }

  // ----- When a gagged nick is heard again -----

  /** Over a run, the bans or gags on n lasting to `until` that are created, lifted by an
      unban or ungag, and deleted by id. */
  function Created(w: Kind, s: Store, run: seq<Stamped>, n: Nick, until: Time): nat {
    if run == [] then 0 else
      var k := |run| - 1;
      var op := OpOn(w, Exec(s, run[..k]).users, run[k].event);
      Created(w, s, run[..k], n, until) + if op.Some? then Added(Timed(op.value, run[k].at), n, until) else 0
  }

  function Lifted(w: Kind, s: Store, run: seq<Stamped>, n: Nick, until: Time): nat {
    if run == [] then 0 else
      var k := |run| - 1;
      Lifted(w, s, run[..k], n, until) + LiftedBy(w, Exec(s, run[..k]), run[k], n, until)
  }

  function Deleted(w: Kind, s: Store, run: seq<Stamped>, n: Nick, until: Time): nat {
    if run == [] then 0 else
      var k := |run| - 1;
      Deleted(w, s, run[..k], n, until) + DeletedBy(w, Exec(s, run[..k]), run[k], n, until)
  }

  function LiftedBy(w: Kind, s: Store, o: Stamped, n: Nick, until: Time): nat {
    var op := OpOn(w, s.users, o.event);
    if op.Some? then LiftedRows(TableOf(w, s), Timed(op.value, o.at), n, until) else 0
  }

  function DeletedBy(w: Kind, s: Store, o: Stamped, n: Nick, until: Time): nat {
    var op := OpOn(w, s.users, o.event);
    if op.Some? then DeletedRows(TableOf(w, s), Timed(op.value, o.at), n, until) else 0
  }

  function InForceUntil(w: Kind, s: Store, n: Nick, until: Time): nat {
    CountBinding(TableOf(w, s).rows, n, until)
  }

  /** A run up to `until`, from a table whose ids and creation times increase. */
  ghost predicate Upto(w: Kind, s: Store, from: Time, run: seq<Stamped>, until: Time) {
    WellFormed(TableOf(w, s), from) && Advancing(from, run) && from <= until && forall o | o in run :: o.at <= until
  }

  function LastTime(from: Time, run: seq<Stamped>): Time {
    if run == [] then from else run[|run| - 1].at
  }

  lemma UptoPrefix(w: Kind, s: Store, from: Time, run: seq<Stamped>, until: Time)
    requires Upto(w, s, from, run, until) && run != []
    ensures var k := |run| - 1;
            Upto(w, s, from, run[..k], until) && LastTime(from, run[..k]) < run[k].at <= until
  {
    assert run[|run| - 1] in run;
  }

  lemma {:induction false} StaysWellFormedOverRun(w: Kind, s: Store, from: Time, run: seq<Stamped>, until: Time)
    requires Upto(w, s, from, run, until)
    ensures WellFormed(TableOf(w, Exec(s, run)), LastTime(from, run))
  {
    if run != [] {
      var k := |run| - 1;
      UptoPrefix(w, s, from, run, until);
      StaysWellFormedOverRun(w, s, from, run[..k], until);
      StaysWellFormed(w, Exec(s, run[..k]), run[k], LastTime(from, run[..k]));
    }
  }

  /** The books balance: over every run, bans and gags on n that last to `until` are only
      created, lifted and deleted; no purge, chat, join or anything else takes one away. */
  lemma {:induction false} Ledger(w: Kind, s: Store, from: Time, run: seq<Stamped>, n: Nick, until: Time)
    requires Upto(w, s, from, run, until)
    ensures InForceUntil(w, Exec(s, run), n, until) + Lifted(w, s, run, n, until) + Deleted(w, s, run, n, until)
            == InForceUntil(w, s, n, until) + Created(w, s, run, n, until)
  {
    if run != [] {
      var k := |run| - 1;
      var o, mid := run[k], Exec(s, run[..k]);
      UptoPrefix(w, s, from, run, until);
      Ledger(w, s, from, run[..k], n, until);
      StaysWellFormedOverRun(w, s, from, run[..k], until);
      TablesStep(mid, o);
      var op := OpOn(w, mid.users, o.event);
      if op.Some? {
        LedgerStep(TableOf(w, mid), Timed(op.value, o.at), n, until);
      }
    }
  }

  /** A message from n at `until` is published exactly when as many of its lasting gags
      were lifted or deleted as there were at first or were created since. */
  lemma {:induction false} HeardIff(s: Store, from: Time, run: seq<Stamped>, n: Nick, text: string, until: Time)
    requires Upto(Gags, s, from, run, until)
    ensures Handle(Exec(s, run), Stamped(HubChat(n, text), until)).bus == Exec(s, run).bus + [Chat(n, text)] <==>
            Lifted(Gags, s, run, n, until) + Deleted(Gags, s, run, n, until)
            == InForceUntil(Gags, s, n, until) + Created(Gags, s, run, n, until)
    ensures Handle(Exec(s, run), Stamped(HubChat(n, text), until)).bus in
              {Exec(s, run).bus, Exec(s, run).bus + [Chat(n, text)]}
  {
    Ledger(Gags, s, from, run, n, until);
    CountPositive(Exec(s, run).gags.rows, n, until);
    assert Exec(s, run).bus + [] == Exec(s, run).bus;
    assert |Exec(s, run).bus + [Chat(n, text)]| > |Exec(s, run).bus|;
  }

  /** And n, joining at `until`, is kicked exactly when more bans on it that last till then
      were there at first or created since than were lifted or deleted. */
  lemma {:induction false} KickedOnJoinIff(s: Store, from: Time, run: seq<Stamped>, n: Nick, until: Time)
    requires Upto(Bans, s, from, run, until)
    ensures Handle(Exec(s, run), Stamped(Join(n), until)).queue == Exec(s, run).queue + [KickUser(n)] <==>
            Lifted(Bans, s, run, n, until) + Deleted(Bans, s, run, n, until)
            < InForceUntil(Bans, s, n, until) + Created(Bans, s, run, n, until)
  {
    var t := Exec(s, run);
    Ledger(Bans, s, from, run, n, until);
    CountPositive(t.bans.rows, n, until);
    CheckIsInForce(t.bans, n, until);
    JoinStep(t, n, until);
    assert |t.queue + [KickUser(n)]| > |t.queue|;
  }

  /** For a nick that is heard, ungags account for every lasting gag it had at first exactly
      when no more of its gags were deleted by id than were created since. */
  lemma UngagsCoverIff(s: Store, from: Time, run: seq<Stamped>, n: Nick, until: Time)
    requires Upto(Gags, s, from, run, until) && Heard(s, run, n, until)
    ensures Lifted(Gags, s, run, n, until) >= InForceUntil(Gags, s, n, until) <==>
            Deleted(Gags, s, run, n, until) <= Created(Gags, s, run, n, until)
  {
    HeardIff(s, from, run, n, "", until);
  }

  /** Ungags of n announced on the bus. */
  function Ungags(bus: seq<BusEvent>, n: Nick): nat {
    if bus == [] then 0 else
      var e := bus[|bus| - 1];
      Ungags(bus[..|bus| - 1], n) + if e.UngagEvent? && e.nick == n then 1 else 0
  }

  lemma {:induction false} UngagsOfMore(bus: seq<BusEvent>, more: seq<BusEvent>, n: Nick)
    ensures Ungags(bus + more, n) == Ungags(bus, n) + Ungags(more, n)
  {
    if more == [] {
      assert bus + more == bus;
    } else {
      UngagsOfMore(bus, more[..|more| - 1], n);
      assert (bus + more)[..|bus + more| - 1] == bus + more[..|more| - 1];
    }
  }

  /** Each lifted gag is announced. */
  lemma LiftIsAnnounced(s: Store, o: Stamped, n: Nick, until: Time)
    ensures Ungags(Handle(s, o).bus, n) >= Ungags(s.bus, n) + LiftedBy(Gags, s, o, n, until)
  {
    if LiftedBy(Gags, s, o, n, until) == 1 {
      var author := if o.event.Moderate? then o.event.caller else "api";
      assert Handle(s, o).bus == s.bus + [UngagEvent(n, author)];
      assert [UngagEvent(n, author)][..0] == [];
      UngagsOfMore(s.bus, [UngagEvent(n, author)], n);
    } else {
      var commands, events := StepEmits(s, o);
      UngagsOfMore(s.bus, events, n);
    }
  }

  lemma {:induction false} LiftsAreAnnounced(s: Store, run: seq<Stamped>, n: Nick, until: Time)
    ensures Ungags(Exec(s, run).bus, n) >= Ungags(s.bus, n) + Lifted(Gags, s, run, n, until)
  {
    if run != [] {
      var k := |run| - 1;
      LiftsAreAnnounced(s, run[..k], n, until);
      LiftIsAnnounced(Exec(s, run[..k]), run[k], n, until);
    }
  }

  /** A message from n would be published; its text makes no difference. */
  ghost predicate Heard(s: Store, run: seq<Stamped>, n: Nick, until: Time) {
    Handle(Exec(s, run), Stamped(HubChat(n, ""), until)).bus != Exec(s, run).bus
  }

  function UngagsIn(s: Store, run: seq<Stamped>, n: Nick): int {
    Ungags(Exec(s, run).bus, n) - Ungags(s.bus, n)
  }

  /** A nick with m gags that last until some moment is heard again at that moment only
      after m removals, each an announced ungag or a delete by id of one of its rows. */
  lemma {:induction false} SpeaksOnlyAfterRemovals(s: Store, from: Time, run: seq<Stamped>, n: Nick, until: Time)
    requires Upto(Gags, s, from, run, until) && Heard(s, run, n, until)
    ensures UngagsIn(s, run, n) + Deleted(Gags, s, run, n, until) >= InForceUntil(Gags, s, n, until)
  {
    HeardIff(s, from, run, n, "", until);
    LiftsAreAnnounced(s, run, n, until);
  }

  /** A permanently gagged nick is heard with no ungag at all, once its row was deleted
      through the bot API. */
  lemma DeletedGagSpeaks(n: Nick)
    ensures var s := Store(map[], Table([], 1), Table([Row(1, Some(n), "api", 0, None)], 2), [], []);
            var run := [Stamped(BotDeleteGag(1), 1)];
            Upto(Gags, s, 0, run, 2) && Heard(s, run, n, 2) && UngagsIn(s, run, n) == 0 &&
            InForceUntil(Gags, s, n, 2) == 1 && Deleted(Gags, s, run, n, 2) == 1
  {
    var r := Row(1, Some(n), "api", 0, None);
    var s := Store(map[], Table([], 1), Table([r], 2), [], []);
    var run := [Stamped(BotDeleteGag(1), 1)];
    assert run[..0] == [] && [r][..0] == [];
    assert r in [r] && Binds(r, n, 2);
    assert CountBinding([r], n, 2) == CountBinding([r][..0], n, 2) + 1;
    assert WithoutId([r], 1) == WithoutId([r][..0], 1) == [];
    assert Exec(s, run) == Handle(Exec(s, run[..0]), run[0]);
    assert DeletedBy(Gags, s, run[0], n, 2) == 1;
    assert Deleted(Gags, s, run, n, 2) == Deleted(Gags, s, run[..0], n, 2) + DeletedBy(Gags, Exec(s, run[..0]), run[0], n, 2);
  }

  /** Ungags alone account for every gag in exactly the runs without deletes by id of a
      gag on the nick. */
  lemma UngagsSufficeIff(deletes: bool)
    ensures (forall s, from, run, n, until ::
               Upto(Gags, s, from, run, until) && Heard(s, run, n, until) &&
               (deletes || Deleted(Gags, s, run, n, until) == 0) ==>
                 UngagsIn(s, run, n) >= InForceUntil(Gags, s, n, until))
            <==> !deletes
  {
    DeletedGagSpeaks("");
    forall s, from, run, n, until |
      Upto(Gags, s, from, run, until) && Heard(s, run, n, until) && Deleted(Gags, s, run, n, until) == 0
      ensures UngagsIn(s, run, n) >= InForceUntil(Gags, s, n, until)
    {
      SpeaksOnlyAfterRemovals(s, from, run, n, until);
    }
  }

  // ----- The handlers -----

  class Gateway {
    var users: map<Nick, int>
    var bans: Table
    var gags: Table
    var queue: seq<HubCommand>
    var bus: seq<BusEvent>

    function State(): Store
      reads this
    {
      Store(users, bans, gags, queue, bus)
    }

    constructor ()
      ensures State() == Store(map[], Table([], 1), Table([], 1), [], [])
    {
      users, queue, bus := map[], [], [];
      bans, gags := Table([], 1), Table([], 1);
    }

    method Push(c: HubCommand)
      modifies `queue
      ensures queue == old(queue) + [c]
    {
      queue := queue + [c];
    }

    method Publish(e: BusEvent)
      modifies `bus
      ensures bus == old(bus) + [e]
    {
      bus := bus + [e];
    }

    method OnHubChat(nick: Nick, text: string, now: Time)
      modifies this
      ensures State() == Handle(old(State()), Stamped(HubChat(nick, text), now))
    {
      var gag := Check(gags, nick, now);
      if gag.Some? {
        Push(GaggedNotice(nick));
      } else {
        Push(Broadcast(nick, text));
        Publish(Chat(nick, text));
      }
    }

    method OnJoin(nick: Nick, now: Time)
      modifies this
      ensures State() == Handle(old(State()), Stamped(Join(nick), now))
    {
      var ban := Check(bans, nick, now);
      if ban.Some? {
        Push(KickUser(nick));
        return;
      }
      UpsertUser(nick);
    }

    method UpsertUser(nick: Nick)
      modifies `users
      ensures users == Upsert(old(users), nick)
    {
      if nick !in users {
        users := users[nick := 0];
      }
      assert users == Upsert(old(users), nick);
    }

    method OnMaintenanceTick(now: Time)
      modifies this
      ensures State() == Handle(old(State()), Stamped(Maintenance, now))
    {
      Push(PurgeStale);
      bans := Purge(bans, now);
      gags := Purge(gags, now);
    }

    method RequireOutranks(caller: Nick, target: Nick) returns (denied: bool)
      ensures denied <==> !Outranks(users, caller, target)
    {
      var mine := Permission(users, caller);
      if mine < MIN_MOD_PERMISSION {
        return true;
      }
      var theirs := Permission(users, target);
      return theirs >= mine;
    }

    method BanCommand(caller: Nick, target: Nick, expires: Option<Time>, now: Time)
      modifies this
      ensures State() == Handle(old(State()), Stamped(Moderate(caller, Ban(target, expires)), now))
    {
      if target == "" {
        return;
      }
      var denied := RequireOutranks(caller, target);
      if denied {
        return;
      }
      bans := ModTable.Create(bans, Some(target), caller, expires, now);
      Push(KickUser(target));
      Publish(BanEvent(target, caller));
    }

    method UnbanCommand(caller: Nick, target: Nick, now: Time)
      modifies this
      ensures State() == Handle(old(State()), Stamped(Moderate(caller, Unban(target)), now))
    {
      if target == "" {
        return;
      }
      var denied := RequireOutranks(caller, target);
      if denied {
        return;
      }
      var active := Check(bans, target, now);
      if active.Some? {
        bans := Delete(bans, active.value.id);
        Publish(UnbanEvent(target, caller));
      }
      assert queue == old(queue) + [];
    }

    method KickCommand(caller: Nick, target: Nick, reason: string, now: Time)
      modifies this
      ensures State() == Handle(old(State()), Stamped(Moderate(caller, Kick(target, reason)), now))
    {
      if target == "" {
        return;
      }
      var denied := RequireOutranks(caller, target);
      if denied {
        return;
      }
      if reason != "" {
        Push(KickReason(target, reason));
      }
      Push(KickUser(target));
      assert bus == old(bus) + [];
    }

    method GagCommand(caller: Nick, target: Nick, expires: Option<Time>, now: Time)
      modifies this
      ensures State() == Handle(old(State()), Stamped(Moderate(caller, Gag(target, expires)), now))
    {
      if target == "" {
        return;
      }
      var denied := RequireOutranks(caller, target);
      if denied {
        return;
      }
      gags := ModTable.Create(gags, Some(target), caller, expires, now);
      Push(GagNotice(target));
      Publish(GagEvent(target, caller));
    }

    method UngagCommand(caller: Nick, target: Nick, now: Time)
      modifies this
      ensures State() == Handle(old(State()), Stamped(Moderate(caller, Ungag(target)), now))
    {
      if target == "" {
        return;
      }
      var denied := RequireOutranks(caller, target);
      if denied {
        return;
      }
      var active := Check(gags, target, now);
      if active.Some? {
        gags := Delete(gags, active.value.id);
        Publish(UngagEvent(target, caller));
      }
      assert queue == old(queue) + [];
    }

    method BanUser(nick: Nick, byAddress: bool, expires: Option<Time>, online: bool, now: Time)
      modifies this
      ensures State() == Handle(old(State()), Stamped(ApiBan(nick, byAddress, expires, online), now))
    {
      if BadNick(nick) {
        return;
      }
      bans := ModTable.Create(bans, if byAddress then None else Some(nick), "api", expires, now);
      if online {
        Push(KickUser(nick));
      }
      Publish(BanEvent(nick, "api"));
    }

    method UnbanUser(nick: Nick, now: Time) returns (found: bool)
      modifies this
      ensures State() == Handle(old(State()), Stamped(ApiUnban(nick), now))
      ensures found <==> !BadNick(nick) && Check(old(bans), nick, now).Some?
    {
      if BadNick(nick) {
        return false;
      }
      var ban := Check(bans, nick, now);
      if ban.None? {
        return false;
      }
      bans := Delete(bans, ban.value.id);
      Publish(UnbanEvent(nick, "api"));
      assert queue == old(queue) + [];
      return true;
    }

    method GagUser(nick: Nick, expires: Option<Time>, now: Time)
      modifies this
      ensures State() == Handle(old(State()), Stamped(ApiGag(nick, expires), now))
    {
      if BadNick(nick) {
        return;
      }
      gags := ModTable.Create(gags, Some(nick), "api", expires, now);
      Publish(GagEvent(nick, "api"));
      assert queue == old(queue) + [];
    }

    method UngagUser(nick: Nick, now: Time) returns (found: bool)
      modifies this
      ensures State() == Handle(old(State()), Stamped(ApiUngag(nick), now))
      ensures found <==> !BadNick(nick) && Check(old(gags), nick, now).Some?
    {
      if BadNick(nick) {
        return false;
      }
      var gag := Check(gags, nick, now);
      if gag.None? {
        return false;
      }
      gags := Delete(gags, gag.value.id);
      Publish(UngagEvent(nick, "api"));
      assert queue == old(queue) + [];
      return true;
    }

    method CreateBanRow(nick: Option<Nick>, author: Nick, expires: Option<Time>, now: Time) returns (id: nat)
      modifies this
      ensures State() == Handle(old(State()), Stamped(BotCreateBan(nick, author, expires), now))
      ensures id == old(bans).nextId
    {
      id := bans.nextId;
      bans := ModTable.Create(bans, nick, author, expires, now);
    }

    method DeleteBanRow(id: nat, now: Time) returns (deleted: bool)
      modifies this
      ensures State() == Handle(old(State()), Stamped(BotDeleteBan(id), now))
      ensures deleted <==> HasId(old(bans).rows, id)
    {
      deleted := HasId(bans.rows, id);
      bans := Delete(bans, id);
    }

    method CreateGagRow(nick: Nick, author: Nick, expires: Option<Time>, now: Time) returns (id: nat)
      modifies this
      ensures State() == Handle(old(State()), Stamped(BotCreateGag(nick, author, expires), now))
      ensures id == old(gags).nextId
    {
      id := gags.nextId;
      gags := ModTable.Create(gags, Some(nick), author, expires, now);
    }

    method DeleteGagRow(id: nat, now: Time) returns (deleted: bool)
      modifies this
      ensures State() == Handle(old(State()), Stamped(BotDeleteGag(id), now))
      ensures deleted <==> HasId(old(gags).rows, id)
    {
      deleted := HasId(gags.rows, id);
      gags := Delete(gags, id);
    }
  }
}
