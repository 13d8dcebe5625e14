/** Chat commands: which of the built-in engine and the external bots handles one,
    and how the set of names claimed by bots evolves as bots come and go.

    Lower-casing and the notion of white space are parameters. */
module Dispatch {
  import opened Common

  type Nick = string
  type Token = string
  datatype Text = Text(lower: string -> string, space: Space)

  datatype Bot = Bot(token: Token, commands: set<string>, subscribed: set<string>)
  datatype Command = Command(from: Nick, name: string, args: string)
  datatype HubCommand = AddVirtualUser(nick: Nick) | RemoveVirtualUser(nick: Nick)
  datatype Outcome = Ok | Unauthorized | NotFound

  /** What registrations determine: the registry and the names kept from the built-ins. */
  datatype Platform = Platform(bots: map<Nick, Bot>, disabled: set<string>)

  datatype Op =
    | Register(nick: Nick, token: Token, claims: seq<string>, events: seq<string>)
    | Unregister(nick: Nick, token: Token)

  // ----- Reading a message -----

  function FirstSpace(s: string): (i: nat)
    ensures i <= |s| && (forall j | 0 <= j < i :: s[j] != ' ') && (i < |s| ==> s[i] == ' ')
  {
    if s == "" || s[0] == ' ' then 0 else 1 + FirstSpace(s[1..])
  }

  /** The lower-cased name and the arguments, if the message is a command. */
  function Parse(text: Text, message: string): Option<(string, string)> {
    var msg := Trim(text.space, message);
    if msg == "" || msg[0] != '!' then None else
      var rest := msg[1..];
      var i := FirstSpace(rest);
      Some((text.lower(rest[..i]), if i < |rest| then Trim(text.space, rest[i + 1..]) else ""))
  }

  lemma {:induction false} FirstSpaceAfter(name: string, tail: string)
    requires ' ' !in name
    ensures FirstSpace(name + tail) == |name| + FirstSpace(tail)
  {
    if name == "" {
      assert name + tail == tail;
    } else {
      FirstSpaceAfter(name[1..], tail);
      assert name[0] in name && (name + tail)[1..] == name[1..] + tail;
    }
  }

  /** A command with arguments reads back as its lower-cased name and its arguments,
      whatever white space surrounds the message and the arguments. */
  lemma ParseReadsCommand(text: Text, a: string, name: string, b: string, args: string, c: string)
    requires AllSpace(text.space, a) && AllSpace(text.space, b) && AllSpace(text.space, c)
    requires ' ' !in name && !text.space('!') && Solid(text.space, args)
    ensures Parse(text, a + ("!" + name + " " + b + args) + c) == Some((text.lower(name), args))
  {
    var m := "!" + name + " " + b + args;
    assert m[|m| - 1] == args[|args| - 1];
    TrimStrips(text.space, a, m, c);
    CommandParts(name, b + args);
    assert m == "!" + name + " " + (b + args);
    TrimStrips(text.space, b, args, "");
    assert b + args + "" == b + args;
  }

  /** A command without arguments reads back as its lower-cased name. */
  lemma ParseReadsBare(text: Text, a: string, name: string, c: string)
    requires AllSpace(text.space, a) && AllSpace(text.space, c)
    requires ' ' !in name && !text.space('!') && (name == "" || !text.space(name[|name| - 1]))
    ensures Parse(text, a + ("!" + name) + c) == Some((text.lower(name), ""))
  {
    var m := "!" + name;
    TrimStrips(text.space, a, m, c);
    assert m[1..] == name;
    FirstSpaceAfter(name, "");
    assert name + "" == name && name[..|name|] == name;
  }

  /** Anything else is no command. */
  lemma ParseOther(text: Text, a: string, m: string, c: string)
    requires AllSpace(text.space, a) && AllSpace(text.space, c)
    ensures Solid(text.space, m) && m[0] != '!' ==> Parse(text, a + m + c) == None
    ensures Parse(text, a) == None
  {
    TrimAllSpace(text.space, a);
    if Solid(text.space, m) {
      TrimStrips(text.space, a, m, c);
    }
  }

  lemma CommandParts(name: string, args: string)
    requires ' ' !in name
    ensures var rest := ("!" + name + " " + args)[1..];
            FirstSpace(rest) == |name| < |rest| && rest[..|name|] == name && rest[|name| + 1..] == args
  {
    assert ("!" + name + " " + args)[1..] == name + (" " + args);
    FirstSpaceAfter(name, " " + args);
  }

  // ----- Registrations -----

  function Lowered(text: Text, names: seq<string>): set<string> {
    set n | n in names :: text.lower(n)
  }

  function Validate(bots: map<Nick, Bot>, nick: Nick, token: Token): Outcome {
    if nick !in bots then NotFound else if bots[nick].token == token then Ok else Unauthorized
  }

  function Apply(text: Text, p: Platform, op: Op): Platform {
    match op
    case Register(n, k, claims, events) =>
      Platform(p.bots[n := Bot(k, Lowered(text, claims), Lowered(text, events))],
               p.disabled + Lowered(text, claims))
    case Unregister(n, k) =>
      if Validate(p.bots, n, k) == Ok then Platform(p.bots - {n}, {}) else p
  }

  function Exec(text: Text, run: seq<Op>): Platform {
    if run == [] then Platform(map[], {}) else Apply(text, Exec(text, run[..|run| - 1]), run[|run| - 1])
  }

  // ----- Who is registered -----

  /** The operation replaces a registration of n, or removes one made with token k. */
  predicate Drops(op: Op, n: Nick, k: Token) {
    op.nick == n && (op.Register? || op.token == k)
  }

  /** The j-th operation registered n, and nothing after it replaced or removed that. */
  ghost predicate Holds(run: seq<Op>, j: nat, n: Nick)
    requires j < |run|
  {
    run[j].Register? && run[j].nick == n && forall x | j < x < |run| :: !Drops(run[x], n, run[j].token)
  }

  ghost predicate Registered(run: seq<Op>, n: Nick) {
    exists j | 0 <= j < |run| :: Holds(run, j, n)
  }

  /** The bot as its registration described it. */
  ghost predicate Describes(text: Text, op: Op, bot: Bot)
    requires op.Register?
  {
    bot.token == op.token &&
    (forall c :: c in bot.commands <==> exists x | x in op.claims :: text.lower(x) == c) &&
    forall e :: e in bot.subscribed <==> exists x | x in op.events :: text.lower(x) == e
  }

  lemma HoldsStep(run: seq<Op>, j: nat, n: Nick)
    requires j < |run| - 1
    ensures var k := |run| - 1;
            Holds(run, j, n) <==> Holds(run[..k], j, n) && !Drops(run[k], n, run[j].token)
  {
    var k := |run| - 1;
    assert forall x | 0 <= x < k :: run[..k][x] == run[x];
  }

  lemma LoweredMembers(text: Text, names: seq<string>, c: string)
    ensures c in Lowered(text, names) <==> exists x | x in names :: text.lower(x) == c
  {
  }

  lemma RegisterDescribes(text: Text, p: Platform, op: Op)
    requires op.Register?
    ensures op.nick in Apply(text, p, op).bots && Describes(text, op, Apply(text, p, op).bots[op.nick])
  {
    forall c
      ensures c in Lowered(text, op.claims) <==> exists x | x in op.claims :: text.lower(x) == c
      ensures c in Lowered(text, op.events) <==> exists x | x in op.events :: text.lower(x) == c
    {
      LoweredMembers(text, op.claims, c);
      LoweredMembers(text, op.events, c);
    }
  }

  /** Over every run a nick is registered exactly when some registration of it has not
      been replaced since, nor removed by an unregistration that carried its token; and
      its bot is as that registration described it. */
  lemma {:induction false} RegistryIsLatest(text: Text, run: seq<Op>, n: Nick)
    ensures n in Exec(text, run).bots <==> Registered(run, n)
    ensures forall j | 0 <= j < |run| && Holds(run, j, n) ::
              n in Exec(text, run).bots && Describes(text, run[j], Exec(text, run).bots[n])
  {
    if run != [] {
      var k := |run| - 1;
      var before, op := run[..k], run[k];
      RegistryIsLatest(text, before, n);
      if op.Register? {
        RegisterDescribes(text, Exec(text, before), op);
        assert op.nick == n ==> Holds(run, k, n);
      }
      forall j | 0 <= j < k
        ensures Holds(run, j, n) <==> Holds(before, j, n) && !Drops(op, n, run[j].token)
      {
        HoldsStep(run, j, n);
      }
      if j :| 0 <= j < k && Holds(before, j, n) && !Drops(op, n, run[j].token) {
        assert Holds(run, j, n);
      }
    }
  }

  /** The i-th operation of the run unregisters a bot: it carries the token with which
      its nick is registered. */
  ghost predicate Resets(run: seq<Op>, i: nat)
    requires i < |run|
  {
    run[i].Unregister? && exists j | 0 <= j < i :: Holds(run[..i], j, run[i].nick) && run[j].token == run[i].token
  }

  lemma ResetsIsValid(text: Text, run: seq<Op>, i: nat)
    requires i < |run| && run[i].Unregister?
    ensures Resets(run, i) <==> Validate(Exec(text, run[..i]).bots, run[i].nick, run[i].token) == Ok
  {
    var n := run[i].nick;
    RegistryIsLatest(text, run[..i], n);
    if j :| 0 <= j < i && Holds(run[..i], j, n) {
      assert Describes(text, run[..i][j], Exec(text, run[..i]).bots[n]);
      if Resets(run, i) {
        var x :| 0 <= x < i && Holds(run[..i], x, n) && run[x].token == run[i].token;
        assert Describes(text, run[..i][x], Exec(text, run[..i]).bots[n]);
      }
    }
  }

  /** An unregistration with the token of the registration in force removes that bot and
      nothing else from the registry, and frees every claimed name; with any other token
      it changes nothing. */
  lemma UnregisterNeedsToken(text: Text, run: seq<Op>, n: Nick, k: Token)
    ensures var p, q := Exec(text, run), Exec(text, run + [Unregister(n, k)]);
            if exists j | 0 <= j < |run| :: Holds(run, j, n) && run[j].token == k
            then q.bots == p.bots - {n} && q.disabled == {}
            else q == p
  {
    var all := run + [Unregister(n, k)];
    assert all[..|run|] == run;
    ResetsIsValid(text, all, |run|);
  }

  // ----- Which names are claimed -----

  ghost predicate ClaimedAt(text: Text, run: seq<Op>, i: nat, name: string)
    requires i < |run|
  {
    run[i].Register? && (exists c | c in run[i].claims :: text.lower(c) == name) &&
    forall j | i < j < |run| :: !Resets(run, j)
  }

  ghost predicate ClaimedSinceReset(text: Text, run: seq<Op>, name: string) {
    exists i | 0 <= i < |run| :: ClaimedAt(text, run, i, name)
  }

  lemma ResetsPrefix(run: seq<Op>, n: nat, i: nat)
    requires i < n <= |run|
    ensures Resets(run[..n], i) == Resets(run, i)
  {
    assert run[..n][..i] == run[..i];
  }

  lemma {:induction false} ClaimedStep(text: Text, run: seq<Op>, name: string)
    requires run != []
    ensures var n := |run| - 1;
            ClaimedSinceReset(text, run, name) <==>
              ClaimedAt(text, run, n, name) || (!Resets(run, n) && ClaimedSinceReset(text, run[..n], name))
  {
    var n := |run| - 1;
    forall i | 0 <= i < n
      ensures ClaimedAt(text, run, i, name) <==> !Resets(run, n) && ClaimedAt(text, run[..n], i, name)
    {
      forall j | i < j < n
        ensures Resets(run[..n], j) == Resets(run, j)
      {
        ResetsPrefix(run, n, j);
      }
    }
  }

  /** Over every run of serialised handlers the names kept from the built-ins are the
      lower-cased claims registered since the last unregistration, of any bot. */
  lemma {:induction false} DisabledIsClaimedSinceReset(text: Text, run: seq<Op>, name: string)
    ensures name in Exec(text, run).disabled <==> ClaimedSinceReset(text, run, name)
  {
    if run != [] {
      var n := |run| - 1;
      DisabledIsClaimedSinceReset(text, run[..n], name);
      ClaimedStep(text, run, name);
      if run[n].Register? {
        LoweredMembers(text, run[n].claims, name);
      } else {
        ResetsIsValid(text, run, n);
      }
    }
  }

  // ----- Which built-ins can still run? -----

  /** The handler name a lower-cased command stands for. */
  function Resolve(aliases: map<string, string>, name: string): string {
    if name in aliases then aliases[name] else name
  }

  /** The built-in that a message runs. */
  function BuiltinFor(text: Text, commands: set<string>, aliases: map<string, string>, disabled: set<string>,
                      message: string): Option<string> {
    match Parse(text, message)
    case None => None
    case Some((name, _)) =>
      var b := Resolve(aliases, name);
      if name !in disabled && b in commands then Some(b) else None
  }

  /** A message that is the command `name`. */
  function Typed(name: string): string {
    "!" + name + " " + "!"
  }

  lemma TypedReads(text: Text, name: string)
    requires !text.space('!') && ' ' !in name
    ensures Parse(text, Typed(name)) == Some((text.lower(name), "!"))
  {
    TrimKeeps(text.space, Typed(name));
    TrimKeeps(text.space, "!");
    CommandParts(name, "!");
  }

  lemma TypedRuns(text: Text, commands: set<string>, aliases: map<string, string>, disabled: set<string>, name: string)
    requires !text.space('!') && ' ' !in name && text.lower(name) == name
    ensures BuiltinFor(text, commands, aliases, disabled, Typed(name)) ==
            if name !in disabled && Resolve(aliases, name) in commands then Some(Resolve(aliases, name)) else None
  {
    TypedReads(text, name);
  }

  /** Some message runs b. */
  ghost predicate Runnable(text: Text, commands: set<string>, aliases: map<string, string>, disabled: set<string>, b: string) {
    exists message :: BuiltinFor(text, commands, aliases, disabled, message) == Some(b)
  }

  /** That is so exactly when some name it goes by is not kept from it. */
  lemma BuiltinRunsIff(text: Text, commands: set<string>, aliases: map<string, string>, disabled: set<string>, b: string)
    requires b in commands && !text.space('!')
    requires forall name | Resolve(aliases, name) == b :: ' ' !in name && text.lower(name) == name
    ensures Runnable(text, commands, aliases, disabled, b) <==> exists name :: Resolve(aliases, name) == b && name !in disabled
  {
    if name :| Resolve(aliases, name) == b && name !in disabled {
      TypedRuns(text, commands, aliases, disabled, name);
      assert BuiltinFor(text, commands, aliases, disabled, Typed(name)) == Some(b);
    }
    if message :| BuiltinFor(text, commands, aliases, disabled, message) == Some(b) {
      var name := Parse(text, message).value.0;
      assert Resolve(aliases, name) == b && name !in disabled;
    }
  }

  /** After any run, no message runs a built-in exactly when every name it goes by, its
      own unless that is an alias and every alias for it, was claimed since the last
      unregistration; claims are looked up before aliases. The built-in's names are in
      lower case and have no spaces. */
  lemma BuiltinOffIff(text: Text, run: seq<Op>, commands: set<string>, aliases: map<string, string>, b: string)
    requires b in commands && !text.space('!')
    requires forall name | Resolve(aliases, name) == b :: ' ' !in name && text.lower(name) == name
    ensures !Runnable(text, commands, aliases, Exec(text, run).disabled, b) <==>
            forall name | Resolve(aliases, name) == b :: ClaimedSinceReset(text, run, name)
  {
    var disabled := Exec(text, run).disabled;
    BuiltinRunsIff(text, commands, aliases, disabled, b);
    forall name | Resolve(aliases, name) == b
      ensures name in disabled <==> ClaimedSinceReset(text, run, name)
    {
      DisabledIsClaimedSinceReset(text, run, name);
    }
    if name :| Resolve(aliases, name) == b && name !in disabled {
      assert !ClaimedSinceReset(text, run, name);
    }
  }

  /** So claiming "quote" does not turn it off: "!q" still runs it. */
  lemma AliasStillRuns()
    ensures var text := Text((s: string) => s, (c: char) => c == ' ');
            var disabled := Exec(text, [Register("a", "1", ["quote"], ["command"])]).disabled;
            BuiltinFor(text, {"quote"}, map["q" := "quote"], disabled, Typed("quote")) == None &&
            BuiltinFor(text, {"quote"}, map["q" := "quote"], disabled, Typed("q")) == Some("quote")
  {
    var text := Text((s: string) => s, (c: char) => c == ' ');
    var run := [Register("a", "1", ["quote"], ["command"])];
    assert run[..0] == [] && "quote" in ["quote"];
    assert Exec(text, run).disabled == Lowered(text, ["quote"]);
    TypedRuns(text, {"quote"}, map["q" := "quote"], Lowered(text, ["quote"]), "quote");
    TypedRuns(text, {"quote"}, map["q" := "quote"], Lowered(text, ["quote"]), "q");
  }

  // ----- Are the claims of registered bots honoured? -----

  /** Every command that a registered bot claims is routed to bots. */
  ghost predicate Honoured(p: Platform) {
    forall n | n in p.bots :: p.bots[n].commands <= p.disabled
  }

  /** After any run, exactly when each of those commands was claimed, by any bot, since
      the last unregistration. */
  lemma HonouredExactly(text: Text, run: seq<Op>)
    ensures var p := Exec(text, run);
            Honoured(p) <==> forall n, c | n in p.bots && c in p.bots[n].commands :: ClaimedSinceReset(text, run, c)
  {
    var p := Exec(text, run);
    forall n, c | n in p.bots && c in p.bots[n].commands
      ensures c in p.disabled <==> ClaimedSinceReset(text, run, c)
    {
      DisabledIsClaimedSinceReset(text, run, c);
    }
  }

  /** Registration keeps it; an unregistration keeps it exactly when no bot that stays
      registered claims a command. */
  lemma HonouredAfter(text: Text, p: Platform, op: Op)
    requires Honoured(p)
    ensures op.Register? ==> Honoured(Apply(text, p, op))
    ensures op.Unregister? ==>
              (Honoured(Apply(text, p, op)) <==>
               op.nick !in p.bots || p.bots[op.nick].token != op.token ||
               forall n | n in p.bots && n != op.nick :: p.bots[n].commands == {})
  {
    if op.Unregister? && Validate(p.bots, op.nick, op.token) == Ok && Honoured(Apply(text, p, op)) {
      forall n | n in p.bots && n != op.nick
        ensures p.bots[n].commands == {}
      {
        var q := Apply(text, p, op);
        assert n in q.bots && q.bots[n].commands <= q.disabled;
      }
    }
  }

  /** So it is no invariant: with two bots, one leaving hands the other's command back
      to the built-in engine. */
  lemma UnregisterUnclaimsOthers()
    ensures var text := Text((s: string) => s, (c: char) => c == ' ');
            var run := [Register("a", "1", ["seen"], ["command"]), Register("b", "2", [], []), Unregister("b", "2")];
            !Honoured(Exec(text, run)) && "a" in Exec(text, run).bots
  {
    var text := Text((s: string) => s, (c: char) => c == ' ');
    var r1 := [Register("a", "1", ["seen"], ["command"])];
    var r2 := r1 + [Register("b", "2", [], [])];
    var r3 := r2 + [Unregister("b", "2")];
    assert r1[..0] == [] && r2[..1] == r1 && r3[..2] == r2;
    assert "seen" in ["seen"] && text.lower("seen") == "seen";
    assert "seen" in Exec(text, r1).bots["a"].commands;
    assert Exec(text, r2).bots["a"] == Exec(text, r1).bots["a"];
    assert Exec(text, r3).bots["a"] == Exec(text, r1).bots["a"] && Exec(text, r3).disabled == {};
    assert r3 == [Register("a", "1", ["seen"], ["command"]), Register("b", "2", [], []), Unregister("b", "2")];
  }

  // ----- Whom a claimed command goes to -----

  predicate Serves(bots: map<Nick, Bot>, n: Nick, name: string) {
    n in bots && name in bots[n].commands && "command" in bots[n].subscribed
  }

  /** After any run, a bot may be sent a command exactly when the registration in force
      for its nick claimed the name and asked for "command" events. */
  lemma ServesIff(text: Text, run: seq<Op>, n: Nick, name: string)
    ensures Serves(Exec(text, run).bots, n, name) <==>
            exists j | 0 <= j < |run| :: Holds(run, j, n) &&
              (exists c | c in run[j].claims :: text.lower(c) == name) &&
              (exists e | e in run[j].events :: text.lower(e) == "command")
  {
    RegistryIsLatest(text, run, n);
    forall j | 0 <= j < |run| && Holds(run, j, n)
      ensures Describes(text, run[j], Exec(text, run).bots[n])
    {
    }
  }

  // ----- The engine and the handlers that change it -----

  datatype Builtin = Builtin(name: string, aliases: seq<string>)

  /** Every alias with the handler it was last registered for. */
  function AllAliases(builtins: seq<Builtin>): map<string, string> {
    if builtins == [] then map[] else
      var b := builtins[|builtins| - 1];
      AllAliases(builtins[..|builtins| - 1]) + map a | a in b.aliases :: b.name
  }

  /** An alias stands for the last built-in registered with it. */
  lemma {:induction false} AliasesAreLast(builtins: seq<Builtin>, a: string)
    ensures a in AllAliases(builtins) <==> exists i | 0 <= i < |builtins| :: a in builtins[i].aliases
    ensures forall i | 0 <= i < |builtins| && a in builtins[i].aliases &&
                       (forall j | i < j < |builtins| :: a !in builtins[j].aliases) ::
              AllAliases(builtins)[a] == builtins[i].name
  {
    if builtins != [] {
      var k := |builtins| - 1;
      AliasesAreLast(builtins[..k], a);
      if i :| 0 <= i < k && a in builtins[..k][i].aliases {
        assert a in builtins[i].aliases;
      }
    }
  }

  /** `commands` and `aliases` are the built-ins; `inbox` is, per registration token,
      the Command events its bot has been sent; `queue` is the hub command queue. */
  class CommandEngine {
    const text: Text
    var commands: set<string>
    var aliases: map<string, string>
    var disabled: set<string>
    var bots: map<Nick, Bot>
    var inbox: map<Token, seq<Command>>
    var queue: seq<HubCommand>

    function State(): Platform
      reads this
    {
      Platform(bots, disabled)
    }

    function Inbox(k: Token): seq<Command>
      reads this
    {
      if k in inbox then inbox[k] else []
    }

    /** `builtins`: the handler names with their aliases, in the order registered. */
    constructor (text: Text, builtins: seq<Builtin>)
      ensures this.text == text && State() == Exec(text, [])
      ensures commands == set b | b in builtins :: b.name
      ensures aliases == AllAliases(builtins)
      ensures inbox == map[] && queue == []
    {
      this.text := text;
      commands, aliases, disabled := {}, map[], {};
      bots, inbox, queue := map[], map[], [];
      new;
      for i := 0 to |builtins|
        invariant this.text == text && State() == Platform(map[], {}) && inbox == map[] && queue == []
        invariant commands == set b | b in builtins[..i] :: b.name
        invariant aliases == AllAliases(builtins[..i])
      {
        RegisterBuiltin(builtins[i].name, builtins[i].aliases);
        assert builtins[..i + 1] == builtins[..i] + [builtins[i]];
      }
      assert builtins[..|builtins|] == builtins;
    }

    method RegisterBuiltin(name: string, names: seq<string>)
      modifies `commands, `aliases
      ensures commands == old(commands) + {name}
      ensures aliases == old(aliases) + map a | a in names :: name
    {
      commands := commands + {name};
      for i := 0 to |names|
        invariant commands == old(commands) + {name}
        invariant aliases == old(aliases) + map a | a in names[..i] :: name
      {
        aliases := aliases[names[i] := name];
        assert names[..i + 1] == names[..i] + [names[i]];
      }
      assert names[..|names|] == names;
    }

    method DisableCommands(names: seq<string>)
      modifies `disabled
      ensures disabled == old(disabled) + Lowered(text, names)
    {
      for i := 0 to |names|
        invariant disabled == old(disabled) + Lowered(text, names[..i])
      {
        disabled := disabled + {text.lower(names[i])};
        assert names[..i + 1] == names[..i] + [names[i]];
      }
      assert names[..|names|] == names;
    }

    method EnableAll()
      modifies `disabled
      ensures disabled == {}
    {
      disabled := {};
    }

    method RegisterBot(nick: Nick, token: Token, claims: seq<string>, events: seq<string>)
      modifies `disabled, `bots, `queue
      ensures State() == Apply(text, old(State()), Register(nick, token, claims, events))
      ensures queue == old(queue) + [AddVirtualUser(nick)]
    {
      bots := bots[nick := Bot(token, Lowered(text, claims), Lowered(text, events))];
      queue := queue + [AddVirtualUser(nick)];
      DisableCommands(claims);
    }

    method UnregisterBot(nick: Nick, token: Token) returns (outcome: Outcome)
      modifies `disabled, `bots, `queue
      ensures outcome == Ok <==> nick in old(bots) && old(bots)[nick].token == token
      ensures outcome == NotFound <==> nick !in old(bots)
      ensures outcome == Ok ==> bots == old(bots) - {nick} && disabled == {}
      ensures outcome != Ok ==> bots == old(bots) && disabled == old(disabled)
      ensures State() == Apply(text, old(State()), Unregister(nick, token))
      ensures queue == old(queue) + if outcome == Ok then [RemoveVirtualUser(nick)] else []
    {
      outcome := Validate(bots, nick, token);
      if outcome == Ok {
        bots := bots - {nick};
        queue := queue + [RemoveVirtualUser(nick)];
        EnableAll();
      }
    }

    /** Exclusive dispatch. Exactly one of: not a command and nothing happens; a claimed
        name, no built-in runs, and one Command goes to one bot that claims the name and
        subscribes to "command" if there is one, to nobody otherwise; an unclaimed name,
        no bot gets anything, and the built-in it stands for runs if it exists. */
    method TryHandle(from: Nick, message: string) returns (ran: Option<string>)
      modifies `inbox
      ensures Parse(text, message).None? ==> ran == None && inbox == old(inbox)
      ensures Parse(text, message).Some? ==>
                var (name, args) := Parse(text, message).value;
                if name in disabled then
                  ran == None &&
                  ((forall n :: !Serves(bots, n, name)) ==> inbox == old(inbox)) &&
                  ((exists n :: Serves(bots, n, name)) ==>
                     exists n :: Serves(bots, n, name) &&
                       inbox == old(inbox)[bots[n].token := old(Inbox(bots[n].token)) + [Command(from, name, args)]])
                else
                  inbox == old(inbox) &&
                  ran == if Resolve(aliases, name) in commands then Some(Resolve(aliases, name)) else None
      ensures ran == BuiltinFor(text, commands, aliases, disabled, message)
    {
      var command := Parse(text, message);
      if command.None? {
        return None;
      }
      var (name, args) := command.value;
      if name in disabled {
        var left := bots.Keys;
        while left != {}
          invariant left <= bots.Keys && inbox == old(inbox)
          invariant forall n | n in bots && n !in left :: !Serves(bots, n, name)
          decreases left
        {
          var n :| n in left;
          var bot := bots[n];
          if name in bot.commands && "command" in bot.subscribed {
            inbox := inbox[bot.token := Inbox(bot.token) + [Command(from, name, args)]];
            assert Serves(bots, n, name);
            break;
          }
          left := left - {n};
        }
        return None;
      }
      var resolved := if name in aliases then aliases[name] else name;
      return if resolved in commands then Some(resolved) else None;
    }
  }
}
