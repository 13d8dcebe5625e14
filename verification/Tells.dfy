/** Tells: messages stored for a nick and delivered by private message when that nick
    joins or chats. One event processor runs delivery passes; tells may be created at
    any moment, also between the reads and writes of a pass. Database writes succeed,
    and nothing but a pass marks a tell delivered. */
module Tells {
  import opened Common

  type Nick = string
  datatype Tell = Tell(id: nat, author: Nick, to: Nick, text: string)

  /** `left` are the tells of `snapshot` the pass has yet to send. */
  datatype Pass = Pass(nick: Nick, snapshot: seq<Tell>, left: seq<Tell>)

  /** `tells` in creation order; `delivered` the ids with a delivery time; `sent` the
      tells for which a private message has been queued, in queue order. */
  datatype State = State(tells: seq<Tell>, delivered: set<nat>, sent: seq<Tell>, pass: Option<Pass>)

  datatype Event =
    | Chat(nick: Nick, text: string)
    | Join(nick: Nick, banned: bool)

  datatype Step =
    | Create(author: Nick, to: Nick, text: string)
    | Process(event: Event)
    | SendOne
    | EndPass

  const INIT: State := State([], {}, [], None)

  /** Joining triggers a pass unless banned; chat unless it starts with "!tell". */
  predicate Triggers(space: Space, e: Event) {
    match e
    case Chat(_, text) => !("!tell" <= TrimStart(space, text))
    case Join(_, banned) => !banned
  }

  function To(tells: seq<Tell>, n: Nick): seq<Tell> {
    if tells == [] then [] else
      var k := |tells| - 1;
      if tells[k].to == n then To(tells[..k], n) + [tells[k]] else To(tells[..k], n)
  }

  /** WHERE to_nick = n AND delivered_at IS NULL, oldest first. */
  function Pending(tells: seq<Tell>, delivered: set<nat>, n: Nick): seq<Tell> {
    if tells == [] then [] else
      var k := |tells| - 1;
      if tells[k].to == n && tells[k].id !in delivered
      then Pending(tells[..k], delivered, n) + [tells[k]] else Pending(tells[..k], delivered, n)
  }

  predicate Enabled(s: State, step: Step) {
    match step
    case Create(_, _, _) => true
    case Process(_) => s.pass.None?
    case SendOne => s.pass.Some? && s.pass.value.left != []
    case EndPass => s.pass.Some? && s.pass.value.left == []
  }

  function Next(space: Space, s: State, step: Step): State
    requires Enabled(s, step)
  {
    match step
    case Create(a, n, text) => s.(tells := s.tells + [Tell(|s.tells|, a, n, text)])
    case Process(e) =>
      if !Triggers(space, e) then s else
        var p := Pending(s.tells, s.delivered, e.nick);
        s.(pass := Some(Pass(e.nick, p, p)))
    case SendOne =>
      var p := s.pass.value;
      s.(sent := s.sent + [p.left[0]], delivered := s.delivered + {p.left[0].id},
         pass := Some(p.(left := p.left[1..])))
    case EndPass => s.(pass := None)
  }

  ghost predicate Reaches(space: Space, s: State, run: seq<Step>, t: State)
    decreases run
  {
    if run == [] then s == t else
      Enabled(s, run[0]) && Reaches(space, Next(space, s, run[0]), run[1..], t)
  }

  // ----- The invariant -----

  ghost predicate Numbered(tells: seq<Tell>) {
    forall i | 0 <= i < |tells| :: tells[i].id == i
  }

  /** For one recipient: what was sent, then what is pending, is all there is, in
      creation order. */
  ghost predicate Conserved(tells: seq<Tell>, delivered: set<nat>, sent: seq<Tell>, n: Nick) {
    To(sent, n) + Pending(tells, delivered, n) == To(tells, n)
  }

  ghost predicate SentOnce(tells: seq<Tell>, delivered: set<nat>, sent: seq<Tell>) {
    (forall i, j | 0 <= i < j < |sent| :: sent[i].id != sent[j].id) &&
    (forall x | x in sent :: x in tells && x.id in delivered) &&
    (forall x | x in tells && x.id in delivered :: x in sent) &&
    forall id | id in delivered :: id < |tells|
  }

  ghost predicate Sound(tells: seq<Tell>, delivered: set<nat>, sent: seq<Tell>) {
    Numbered(tells) && SentOnce(tells, delivered, sent) && forall n: Nick :: Conserved(tells, delivered, sent, n)
  }

  ghost predicate PassOk(s: State) {
    s.pass.Some? ==>
      var p := s.pass.value;
      p.left <= Pending(s.tells, s.delivered, p.nick) &&
      forall x | x in p.snapshot :: x in p.left || x.id in s.delivered
  }

  ghost predicate Inv(s: State) {
    Sound(s.tells, s.delivered, s.sent) && PassOk(s)
  }

  lemma {:induction false} PendingMembers(tells: seq<Tell>, delivered: set<nat>, n: Nick)
    ensures forall x :: x in Pending(tells, delivered, n) <==> x in tells && x.to == n && x.id !in delivered
  {
    if tells != [] {
      PendingMembers(tells[..|tells| - 1], delivered, n);
      assert forall x :: x in tells <==> x in tells[..|tells| - 1] || x == tells[|tells| - 1];
    }
  }

  lemma {:induction false} MarkOther(tells: seq<Tell>, delivered: set<nat>, id: nat, n: Nick)
    requires forall x | x in tells :: x.to == n ==> x.id != id
    ensures Pending(tells, delivered + {id}, n) == Pending(tells, delivered, n)
  {
    if tells != [] {
      assert tells[|tells| - 1] in tells;
      MarkOther(tells[..|tells| - 1], delivered, id, n);
    }
  }

  /** Marking the oldest pending tell takes it off the front. */
  lemma {:induction false} MarkFirst(tells: seq<Tell>, delivered: set<nat>, n: Nick)
    requires Numbered(tells) && Pending(tells, delivered, n) != []
    ensures var p := Pending(tells, delivered, n);
            Pending(tells, delivered + {p[0].id}, n) == p[1..]
  {
    var k := |tells| - 1;
    var p, q := Pending(tells, delivered, n), Pending(tells[..k], delivered, n);
    if q == [] {
      forall x | x in tells[..k]
        ensures x.id != tells[k].id
      {
        var i :| 0 <= i < k && tells[i] == x;
      }
      MarkOther(tells[..k], delivered, tells[k].id, n);
    } else {
      PendingMembers(tells[..k], delivered, n);
      assert q[0] in q;
      var i :| 0 <= i < k && tells[..k][i] == q[0];
      MarkFirst(tells[..k], delivered, n);
      assert p[1..] == if tells[k].to == n && tells[k].id !in delivered then q[1..] + [tells[k]] else q[1..];
    }
  }

  lemma CreateIsSound(tells: seq<Tell>, delivered: set<nat>, sent: seq<Tell>, x: Tell)
    requires Sound(tells, delivered, sent) && x.id == |tells|
    ensures Sound(tells + [x], delivered, sent)
    ensures forall n :: Pending(tells, delivered, n) <= Pending(tells + [x], delivered, n)
  {
    assert (tells + [x])[..|tells|] == tells && x.id !in delivered;
    forall n: Nick
      ensures Conserved(tells + [x], delivered, sent, n)
    {
      assert Conserved(tells, delivered, sent, n);
      if n == x.to {
        assert To(sent, n) + (Pending(tells, delivered, n) + [x]) == To(sent, n) + Pending(tells, delivered, n) + [x];
      }
    }
  }

  lemma PendingAfterSend(tells: seq<Tell>, delivered: set<nat>, nick: Nick)
    requires Numbered(tells) && Pending(tells, delivered, nick) != []
    ensures var p := Pending(tells, delivered, nick);
            var after := delivered + {p[0].id};
            p[0] in tells && p[0].to == nick && p[0].id !in delivered &&
            Pending(tells, after, nick) == p[1..] &&
            forall n | n != nick :: Pending(tells, after, n) == Pending(tells, delivered, n)
  {
    var x := Pending(tells, delivered, nick)[0];
    PendingMembers(tells, delivered, nick);
    assert x in Pending(tells, delivered, nick);
    var i :| 0 <= i < |tells| && tells[i] == x;
    MarkFirst(tells, delivered, nick);
    forall n | n != nick
      ensures Pending(tells, delivered + {x.id}, n) == Pending(tells, delivered, n)
    {
      forall y | y in tells && y.to == n
        ensures y.id != x.id
      {
        var j :| 0 <= j < |tells| && tells[j] == y;
      }
      MarkOther(tells, delivered, x.id, n);
    }
  }

  lemma SentOnceAfterSend(tells: seq<Tell>, delivered: set<nat>, sent: seq<Tell>, x: Tell)
    requires Numbered(tells) && SentOnce(tells, delivered, sent) && x in tells && x.id !in delivered
    ensures SentOnce(tells, delivered + {x.id}, sent + [x])
  {
    var i :| 0 <= i < |tells| && tells[i] == x;
    assert forall j | 0 <= j < |sent| :: sent[j] in sent;
    forall y | y in tells && y.id in delivered + {x.id}
      ensures y in sent + [x]
    {
      var j :| 0 <= j < |tells| && tells[j] == y;
    }
  }

  lemma SendConserves(tells: seq<Tell>, delivered: set<nat>, after: set<nat>, sent: seq<Tell>, x: Tell, n: Nick)
    requires Conserved(tells, delivered, sent, n)
    requires x.to == n ==> Pending(tells, delivered, n) == [x] + Pending(tells, after, n)
    requires x.to != n ==> Pending(tells, delivered, n) == Pending(tells, after, n)
    ensures Conserved(tells, after, sent + [x], n)
  {
    assert (sent + [x])[..|sent|] == sent;
    if x.to == n {
      assert (To(sent, n) + [x]) + Pending(tells, after, n) == To(sent, n) + ([x] + Pending(tells, after, n));
    }
  }

  /** Sending and marking the oldest pending tell of a nick. */
  lemma SendIsSound(tells: seq<Tell>, delivered: set<nat>, sent: seq<Tell>, nick: Nick)
    requires Sound(tells, delivered, sent) && Pending(tells, delivered, nick) != []
    ensures var x := Pending(tells, delivered, nick)[0];
            Sound(tells, delivered + {x.id}, sent + [x])
  {
    var p := Pending(tells, delivered, nick);
    PendingAfterSend(tells, delivered, nick);
    SentOnceAfterSend(tells, delivered, sent, p[0]);
    forall n: Nick
      ensures Conserved(tells, delivered + {p[0].id}, sent + [p[0]], n)
    {
      assert p == [p[0]] + p[1..];
      SendConserves(tells, delivered, delivered + {p[0].id}, sent, p[0], n);
    }
  }

  lemma StepKeepsInv(space: Space, s: State, step: Step)
    requires Inv(s) && Enabled(s, step)
    ensures Inv(Next(space, s, step))
  {
    match step
    case Create(a, n, text) =>
      CreateIsSound(s.tells, s.delivered, s.sent, Tell(|s.tells|, a, n, text));
    case SendOne =>
      var nick := s.pass.value.nick;
      assert s.pass.value.left[0] == Pending(s.tells, s.delivered, nick)[0];
      SendIsSound(s.tells, s.delivered, s.sent, nick);
      PendingAfterSend(s.tells, s.delivered, nick);
    case _ =>
  }

  lemma {:induction false} RunKeepsInv(space: Space, s: State, run: seq<Step>, t: State)
    requires Inv(s) && Reaches(space, s, run, t)
    ensures Inv(t)
    decreases run
  {
    if run != [] {
      StepKeepsInv(space, s, run[0]);
      RunKeepsInv(space, Next(space, s, run[0]), run[1..], t);
    }
  }

  lemma InitOk()
    ensures Inv(INIT)
  {
    forall n: Nick
      ensures Conserved([], {}, [], n)
    {
    }
  }

  /** Over every run, the messages a nick has been sent followed by those pending for
      it are exactly the tells created for it, in creation order; so none is lost,
      none overtakes another, and no tell is ever sent twice. */
  lemma ConservedInOrder(space: Space, run: seq<Step>, t: State, n: Nick)
    requires Reaches(space, INIT, run, t)
    ensures To(t.sent, n) + Pending(t.tells, t.delivered, n) == To(t.tells, n)
    ensures forall i, j | 0 <= i < j < |t.sent| :: t.sent[i].id != t.sent[j].id
    ensures forall x | x in t.tells :: x.id in t.delivered <==> x in t.sent
  {
    InitOk();
    RunKeepsInv(space, INIT, run, t);
    assert Conserved(t.tells, t.delivered, t.sent, n);
    forall x | x in t.tells
      ensures x.id in t.delivered <==> x in t.sent
    {
      var i :| 0 <= i < |t.tells| && t.tells[i] == x;
    }
  }

  /** When a pass has nothing left, every tell it read as pending has been sent. */
  lemma PassDeliversItsSnapshot(space: Space, run: seq<Step>, t: State)
    requires Reaches(space, INIT, run, t) && t.pass.Some? && t.pass.value.left == []
    ensures forall x | x in t.pass.value.snapshot :: x.id in t.delivered
  {
    InitOk();
    RunKeepsInv(space, INIT, run, t);
  }

  // ----- What a pass is for -----

  /** Chat starts a pass unless it is "!tell" after any white space; a join does unless the
      nick is banned. */
  lemma TriggersIff(space: Space, e: Event)
    requires !space('!')
    ensures e.Join? ==> (Triggers(space, e) <==> !e.banned)
    ensures e.Chat? ==> (Triggers(space, e) <==> !exists a, b :: AllSpace(space, a) && e.text == a + "!tell" + b)
  {
    if e.Chat? {
      var t := TrimStart(space, e.text);
      var a := e.text[..|e.text| - |t|];
      assert e.text == a + t && AllSpace(space, a);
      if "!tell" <= t {
        assert e.text == a + "!tell" + t[5..];
      }
      if a', b :| AllSpace(space, a') && e.text == a' + "!tell" + b {
        TellIsTrimmed(space, a', b);
      }
    }
  }

  lemma TellIsTrimmed(space: Space, a: string, b: string)
    requires AllSpace(space, a) && !space('!')
    ensures "!tell" <= TrimStart(space, a + "!tell" + b)
  {
    var s := a + "!tell" + b;
    assert s[|a|] == '!';
    assert Leading(space, s) == |a|;
    assert s[|a|..] == "!tell" + b;
  }

  predicate NoEnd(run: seq<Step>) {
    forall step | step in run :: !step.EndPass?
  }

  lemma {:induction false} PassKeepsSnapshot(space: Space, s: State, run: seq<Step>, t: State)
    requires Reaches(space, s, run, t) && NoEnd(run) && s.pass.Some?
    ensures t.pass.Some? && t.pass.value.snapshot == s.pass.value.snapshot && t.pass.value.nick == s.pass.value.nick
    decreases run
  {
    if run != [] {
      assert run[0] in run;
      PassKeepsSnapshot(space, Next(space, s, run[0]), run[1..], t);
    }
  }

  /** Once the pass that an event started has nothing left to send, every tell stored for
      that nick when it started has been delivered, and is among those sent. */
  lemma PassDeliversAll(space: Space, before: seq<Step>, s: State, e: Event, run: seq<Step>, t: State)
    requires Reaches(space, INIT, before, s) && Enabled(s, Process(e)) && Triggers(space, e)
    requires Reaches(space, Next(space, s, Process(e)), run, t) && NoEnd(run)
    requires t.pass.Some? && t.pass.value.left == []
    ensures forall x | x in s.tells && x.to == e.nick :: x.id in t.delivered && x in t.sent
  {
    var u := Next(space, s, Process(e));
    InitOk();
    RunKeepsInv(space, INIT, before, s);
    StepKeepsInv(space, s, Process(e));
    RunKeepsInv(space, u, run, t);
    PassKeepsSnapshot(space, u, run, t);
    PendingMembers(s.tells, s.delivered, e.nick);
    DeliveredStays(space, u, run, t);
    forall x | x in s.tells && x.to == e.nick
      ensures x.id in t.delivered && x in t.sent
    {
      if x.id !in s.delivered {
        assert x in t.pass.value.snapshot;
      }
    }
  }

  lemma {:induction false} DeliveredStays(space: Space, s: State, run: seq<Step>, t: State)
    requires Reaches(space, s, run, t)
    ensures s.delivered <= t.delivered && forall x | x in s.tells :: x in t.tells
    decreases run
  {
    if run != [] {
      DeliveredStays(space, Next(space, s, run[0]), run[1..], t);
    }
  }

  // ----- The event processor -----

  class EventProcessor {
    const space: Space
    var tells: seq<Tell>
    var delivered: set<nat>
    var sent: seq<Tell>

    ghost predicate Valid()
      reads this
    {
      Sound(tells, delivered, sent)
    }

    constructor (space: Space)
      ensures Valid() && this.space == space && tells == [] && sent == [] && delivered == {}
    {
      this.space := space;
      tells, delivered, sent := [], {}, [];
      new;
      InitOk();
    }

    method CreateTell(author: Nick, to: Nick, text: string) returns (id: nat)
      requires Valid()
      modifies this
      ensures Valid()
      ensures id == |old(tells)| && tells == old(tells) + [Tell(id, author, to, text)]
      ensures delivered == old(delivered) && sent == old(sent)
    {
      id := |tells|;
      CreateIsSound(tells, delivered, sent, Tell(id, author, to, text));
      tells := tells + [Tell(id, author, to, text)];
    }

    /** Queue the private message for a tell and mark the tell delivered. */
    method SendTell(tell: Tell, ghost nick: Nick)
      requires Valid()
      requires Pending(tells, delivered, nick) != [] && tell == Pending(tells, delivered, nick)[0]
      modifies `sent, `delivered
      ensures Valid()
      ensures sent == old(sent) + [tell] && delivered == old(delivered) + {tell.id}
      ensures Pending(tells, delivered, nick) == Pending(tells, old(delivered), nick)[1..]
      ensures forall n | n != nick :: Pending(tells, delivered, n) == Pending(tells, old(delivered), n)
    {
      SendIsSound(tells, delivered, sent, nick);
      PendingAfterSend(tells, delivered, nick);
      ghost var s0, d0 := sent, delivered;
      sent := sent + [tell];
      delivered := delivered + {tell.id};
      assert sent == s0 + [tell] && delivered == d0 + {tell.id};
      assert Sound(tells, delivered, sent);
    }

    /** A pass that nothing interrupts sends all that is pending, oldest first. */
    method DeliverTells(nick: Nick)
      requires Valid()
      modifies `sent, `delivered
      ensures Valid()
      ensures sent == old(sent) + Pending(tells, old(delivered), nick)
      ensures Pending(tells, delivered, nick) == []
      ensures forall n | n != nick :: Pending(tells, delivered, n) == Pending(tells, old(delivered), n)
    {
      var pending := Pending(tells, delivered, nick);
      var i := 0;
      while i < |pending|
        invariant i <= |pending| && Valid()
        invariant sent == old(sent) + pending[..i]
        invariant Pending(tells, delivered, nick) == pending[i..]
        invariant forall n | n != nick :: Pending(tells, delivered, n) == Pending(tells, old(delivered), n)
      {
        assert pending[i..][0] == pending[i] && pending[i..][1..] == pending[i + 1..];
        assert pending[..i] + [pending[i]] == pending[..i + 1];
        SendTell(pending[i], nick);
        i := i + 1;
      }
    }

    method ProcessEvent(e: Event)
      requires Valid()
      modifies `sent, `delivered
      ensures Valid()
      ensures Triggers(space, e) ==> Pending(tells, delivered, e.nick) == [] &&
                                     sent == old(sent) + Pending(tells, old(delivered), e.nick)
      ensures !Triggers(space, e) ==> sent == old(sent) && delivered == old(delivered)
    {
      match e
      case Chat(nick, text) =>
        if !("!tell" <= TrimStart(space, text)) {
          DeliverTells(nick);
        }
      case Join(nick, banned) =>
        if banned {
          return;
        }
        DeliverTells(nick);
    }
  }
}
