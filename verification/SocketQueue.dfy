/** The hub socket loop, the bounded command queue and the two locks that tasks hold
    while they queue.

    The loop is the queue's only consumer, but while it handles the frames of one read it
    takes nothing from it: a chat or password frame queues a command and waits for room; a
    frame about users waits for the write lock on the user map; a nick frame waits for the
    read lock on the bot registry and then queues a command. The operator relay and the
    mass message hold the user map's read lock, and the re-adding of bots the registry's,
    across all their sends. A handler that waits for the registry's write lock makes later
    readers wait.

    A frame that waits for a lock may ask for it late, so tasks may take a read lock up to
    the step at which the loop gets through. Database calls return. */
module SocketQueue {
  import opened Common

  datatype Frame = Queues | WritesUsers | LooksUpBot | Neither

  /** The command loop serves a mass message or a re-adding of all bots, one at a time. */
  datatype Task = Idle | Mass(sends: nat) | Readd(sends: nat)

  /** `left`: the frames of the current read still to handle; none while the loop waits for
      its next event. `relay`: the sends left of an operator relay that holds the user map.
      `writer`: a handler waits for the registry's write lock. */
  datatype State = State(queued: nat, left: Option<seq<Frame>>, relay: Option<nat>, command: Task, writer: bool)

  datatype Step =
    | OtherSend
    | Take
    | Read(frames: seq<Frame>)
    | Handle
    | Finish
    | RelayAcquire(sends: nat)
    | RelaySend
    | RelayRelease
    | MassAcquire(sends: nat)
    | ReaddAcquire(sends: nat)
    | CommandSend
    | CommandRelease
    | WriterAsks

  const INIT: State := State(0, None, None, Idle, false)

  predicate HasRoom(s: State) {
    s.queued < QUEUE_CAPACITY
  }

  predicate UsersHeld(s: State) {
    s.relay.Some? || s.command.Mass?
  }

  /** The loop can get on with its next frame. */
  predicate HandleEnabled(s: State) {
    s.left.Some? && s.left.value != [] &&
    match s.left.value[0]
    case Queues => HasRoom(s)
    case WritesUsers => !UsersHeld(s)
    case LooksUpBot => !s.writer
    case Neither => true
  }

  predicate Enabled(s: State, step: Step) {
    match step
    case OtherSend => HasRoom(s)
    case Take => s.left.None? && s.queued > 0
    case Read(_) => s.left.None?
    case Handle => HandleEnabled(s)
    case Finish => s.left == Some([])
    case RelayAcquire(_) => s.relay.None?
    case RelaySend => s.relay.Some? && s.relay.value > 0 && HasRoom(s)
    case RelayRelease => s.relay == Some(0)
    case MassAcquire(_) => s.command.Idle?
    case ReaddAcquire(_) => s.command.Idle?
    case CommandSend => !s.command.Idle? && s.command.sends > 0 && HasRoom(s)
    case CommandRelease => !s.command.Idle? && s.command.sends == 0
    case WriterAsks => s.command.Readd?
  }

  function Next(s: State, step: Step): State
    requires Enabled(s, step)
  {
    match step
    case OtherSend => s.(queued := s.queued + 1)
    case Take => s.(queued := s.queued - 1)
    case Read(frames) => s.(left := Some(frames))
    case Handle => AfterFrame(s)
    case Finish => s.(left := None)
    case RelayAcquire(h) => s.(relay := Some(h))
    case RelaySend => s.(queued := s.queued + 1, relay := Some(s.relay.value - 1))
    case RelayRelease => s.(relay := None)
    case MassAcquire(h) => s.(command := Mass(h))
    case ReaddAcquire(h) => s.(command := Readd(h))
    case CommandSend => s.(queued := s.queued + 1, command := s.command.(sends := s.command.sends - 1))
    case CommandRelease => s.(command := Idle, writer := false)
    case WriterAsks => s.(writer := true)
  }

  function AfterFrame(s: State): State
    requires HandleEnabled(s)
  {
    var frame, rest := s.left.value[0], s.left.value[1..];
    match frame
    case Queues => s.(queued := s.queued + 1, left := Some(rest))
    case LooksUpBot => s.(left := Some([Queues] + rest))
    case _ => s.(left := Some(rest))
  }

  predicate Inv(s: State) {
    s.queued <= QUEUE_CAPACITY && (s.writer ==> s.command.Readd?)
  }

  // ----- The states in which the loop has stopped for good -----

  function CommandSends(s: State): nat {
    if s.command.Idle? then 0 else s.command.sends
  }

  function RelaySends(s: State): nat {
    if s.relay.Some? then s.relay.value else 0
  }

  /** Sends left of the tasks that hold the user map. */
  function UsersSends(s: State): nat {
    RelaySends(s) + if s.command.Mass? then s.command.sends else 0
  }

  /** A queueing frame with a full queue; or a frame waiting for a lock whose holders have
      more left to send than there is room. */
  predicate Doomed(s: State) {
    s.left.Some? && s.left.value != [] &&
    match s.left.value[0]
    case Queues => !HasRoom(s)
    case WritesUsers => s.queued + UsersSends(s) > QUEUE_CAPACITY
    case LooksUpBot => s.writer && s.queued + CommandSends(s) > QUEUE_CAPACITY
    case Neither => false
  }

  ghost predicate Leads(s: State, run: seq<Step>, t: State)
    decreases run
  {
    if run == [] then s == t else Enabled(s, run[0]) && Leads(Next(s, run[0]), run[1..], t)
  }

  /** Whatever happens next, the loop never gets past its current frame. */
  ghost predicate Stuck(s: State) {
    forall run, t :: Leads(s, run, t) ==> t.left == s.left
  }

  lemma {:induction false} DoomedStays(s: State, run: seq<Step>, t: State)
    requires Inv(s) && Doomed(s) && Leads(s, run, t)
    ensures t.left == s.left && Doomed(t)
    decreases run
  {
    if run != [] {
      DoomedStays(Next(s, run[0]), run[1..], t);
    }
  }

  ghost predicate CanMoveOn(s: State, from: Option<seq<Frame>>) {
    exists run, t :: Leads(s, run, t) && t.left != from
  }

  lemma MoveOnLater(s: State, step: Step, from: Option<seq<Frame>>)
    requires Enabled(s, step) && CanMoveOn(Next(s, step), from)
    ensures CanMoveOn(s, from)
  {
    var run, t :| Leads(Next(s, step), run, t) && t.left != from;
    assert ([step] + run)[1..] == run;
    assert Leads(s, [step] + run, t);
  }

  function Holders(s: State): nat {
    (if s.relay.Some? then 1 else 0) + if s.command.Idle? then 0 else 1
  }

  /** A step that brings the loop closer to its next frame. */
  function Unblock(s: State): Step {
    if s.left.None? then Read([])
    else if s.left.value == [] then Finish
    else if HandleEnabled(s) then Handle
    else if s.left.value[0].WritesUsers? && s.relay.Some? then
      if s.relay.value > 0 then RelaySend else RelayRelease
    else if CommandSends(s) > 0 then CommandSend
    else CommandRelease
  }

  lemma {:induction false} NotDoomedMovesOn(s: State)
    requires Inv(s) && !Doomed(s)
    ensures CanMoveOn(s, s.left)
    decreases RelaySends(s) + CommandSends(s) + Holders(s)
  {
    var step := Unblock(s);
    var t := Next(s, step);
    if step.Read? || step.Finish? || step.Handle? {
      assert t.left != s.left;
      assert Leads(t, [], t);
    } else {
      NotDoomedMovesOn(t);
    }
    MoveOnLater(s, step, s.left);
  }

  /** The loop has stopped for good exactly in the doomed states: there are three kinds of
      them, and no other way to wait forever. */
  lemma StuckIffDoomed(s: State)
    requires Inv(s)
    ensures Stuck(s) <==> Doomed(s)
  {
    if Doomed(s) {
      forall run, t | Leads(s, run, t)
        ensures t.left == s.left
      {
        DoomedStays(s, run, t);
      }
    } else {
      NotDoomedMovesOn(s);
    }
  }

  /** While it waits for its next event the loop can empty the queue, whatever locks are
      held. */
  lemma {:induction false} IdleLoopDrains(s: State) returns (run: seq<Step>)
    requires s.left.None?
    ensures Leads(s, run, s.(queued := 0)) && forall step | step in run :: step.Take?
    decreases s.queued
  {
    if s.queued == 0 {
      run := [];
    } else {
      var rest := IdleLoopDrains(Next(s, Take));
      run := [Take] + rest;
      assert run[1..] == rest;
    }
  }

  // ----- One read -----

  /** What a step lets others send: once, or under a lock just taken. */
  function Cost(step: Step): nat {
    match step
    case OtherSend => 1
    case RelayAcquire(h) => h
    case MassAcquire(h) => h
    case ReaddAcquire(h) => h
    case _ => 0
  }

  /** A run within one read in which the others, apart from the tasks already holding a
      lock, send at most `others` commands. */
  ghost predicate Within(s: State, run: seq<Step>, t: State, others: nat)
    decreases run
  {
    if run == [] then s == t else
      Enabled(s, run[0]) && !run[0].Read? && Cost(run[0]) <= others &&
      Within(Next(s, run[0]), run[1..], t, others - Cost(run[0]))
  }

  ghost predicate CanDoom(s: State, others: nat) {
    exists run, t :: Within(s, run, t, others) && Doomed(t)
  }

  lemma DoomLater(s: State, step: Step, others: nat)
    requires Enabled(s, step) && !step.Read? && Cost(step) <= others
    requires CanDoom(Next(s, step), others - Cost(step))
    ensures CanDoom(s, others)
  {
    var run, t :| Within(Next(s, step), run, t, others - Cost(step)) && Doomed(t);
    assert ([step] + run)[1..] == run;
    assert Within(s, [step] + run, t, others);
  }

  /** `demand`: everything queued or to be queued; `held`: a holder of the user map has
      sends left; `more`: others will still send. */
  predicate MayBlock(demand: nat, held: bool, more: bool, frames: seq<Frame>)
    decreases frames
  {
    frames != [] &&
    match frames[0]
    case Queues => demand >= QUEUE_CAPACITY || MayBlock(demand + 1, held, more, frames[1..])
    case LooksUpBot => demand >= QUEUE_CAPACITY || MayBlock(demand + 1, held, more, frames[1..])
    case WritesUsers => (demand > QUEUE_CAPACITY && (held || more)) || MayBlock(demand, false, more, frames[1..])
    case Neither => MayBlock(demand, held, more, frames[1..])
  }

  function Demand(s: State, others: nat): nat {
    s.queued + RelaySends(s) + CommandSends(s) + others
  }

  predicate Risky(s: State, others: nat) {
    s.left.Some? && MayBlock(Demand(s, others), UsersSends(s) > 0, others > 0, s.left.value)
  }

  lemma {:induction false} MayBlockMonotone(d: nat, held: bool, more: bool, d': nat, held': bool, more': bool, frames: seq<Frame>)
    requires MayBlock(d, held, more, frames)
    requires d <= d' && (more ==> more') && (held ==> held' || more')
    ensures MayBlock(d', held', more', frames)
    decreases frames
  {
    match frames[0]
    case Queues =>
      if d < QUEUE_CAPACITY {
        MayBlockMonotone(d + 1, held, more, d' + 1, held', more', frames[1..]);
      }
    case LooksUpBot =>
      if d < QUEUE_CAPACITY {
        MayBlockMonotone(d + 1, held, more, d' + 1, held', more', frames[1..]);
      }
    case WritesUsers =>
      if !(d > QUEUE_CAPACITY && (held || more)) {
        MayBlockMonotone(d, false, more, d', false, more', frames[1..]);
      }
    case Neither =>
      MayBlockMonotone(d, held, more, d', held', more', frames[1..]);
  }

  lemma HandleBack(s: State, others: nat)
    requires HandleEnabled(s) && Risky(AfterFrame(s), others)
    ensures Risky(s, others)
  {
    var rest := s.left.value[1..];
    if s.left.value[0].LooksUpBot? {
      assert ([Queues] + rest)[1..] == rest;
    }
  }

  lemma StepBack(s: State, step: Step, others: nat)
    requires Enabled(s, step) && !step.Read? && Cost(step) <= others
    requires Risky(Next(s, step), others - Cost(step))
    ensures Risky(s, others)
  {
    if step.Handle? {
      HandleBack(s, others);
    } else {
      var t, o := Next(s, step), others - Cost(step);
      MayBlockMonotone(Demand(t, o), UsersSends(t) > 0, o > 0, Demand(s, others), UsersSends(s) > 0, others > 0, s.left.value);
    }
  }

  lemma {:induction false} DoomNeedsRisk(s: State, run: seq<Step>, t: State, others: nat)
    requires Inv(s) && Within(s, run, t, others) && Doomed(t)
    ensures Risky(s, others)
    decreases run
  {
    if run != [] {
      DoomNeedsRisk(Next(s, run[0]), run[1..], t, others - Cost(run[0]));
      StepBack(s, run[0], others);
    }
  }

  function Work(frames: seq<Frame>): nat {
    if frames == [] then 0 else (if frames[0].LooksUpBot? then 2 else 1) + Work(frames[1..])
  }

  function Pending(s: State, others: nat): nat {
    4 * others + 2 * (RelaySends(s) + CommandSends(s)) + Holders(s)
  }

  function FramesLeft(s: State): nat {
    if s.left.Some? then Work(s.left.value) else 0
  }

  /** The next step towards a doomed state. */
  function Worse(s: State, others: nat): Step {
    if s.left.None? || s.left.value == [] then Finish
    else match s.left.value[0]
      case Queues => if Demand(s, others) >= QUEUE_CAPACITY then FillUp(s) else Handle
      case LooksUpBot => if !s.writer then Handle else if CommandSends(s) > 0 then CommandSend else CommandRelease
      case WritesUsers =>
        if Demand(s, others) > QUEUE_CAPACITY && (UsersSends(s) > 0 || others > 0) then
          if UsersSends(s) == 0 then
            if s.relay.Some? then RelayRelease else RelayAcquire(others)
          else if s.command.Readd? && s.command.sends > 0 then CommandSend
          else OtherSend
        else if !UsersHeld(s) then Handle
        else if s.relay.Some? then
          if s.relay.value > 0 then RelaySend else RelayRelease
        else if s.command.sends > 0 then CommandSend else CommandRelease
      case Neither => Handle
  }

  function FillUp(s: State): Step {
    if RelaySends(s) > 0 then RelaySend else if CommandSends(s) > 0 then CommandSend else OtherSend
  }

  ghost predicate Worsens(s: State, step: Step, others: nat) {
    Enabled(s, step) && !step.Read? && Cost(step) <= others &&
    Inv(Next(s, step)) && Risky(Next(s, step), others - Cost(step)) &&
    (FramesLeft(Next(s, step)) < FramesLeft(s) ||
     (FramesLeft(Next(s, step)) == FramesLeft(s) && Pending(Next(s, step), others - Cost(step)) < Pending(s, others)))
  }

  /** A send by anybody moves a command from one part of the demand to another. */
  lemma SendWorsens(s: State, step: Step, others: nat)
    requires Inv(s) && Enabled(s, step) && (step.OtherSend? || step.RelaySend? || step.CommandSend?) && Cost(step) <= others
    requires s.left.Some? && s.left.value != [] && s.left.value[0].Queues? && Demand(s, others) >= QUEUE_CAPACITY
    ensures Worsens(s, step, others)
  {
  }

  lemma HandleWorsens(s: State, others: nat)
    requires Inv(s) && HandleEnabled(s) && s.left.value[0].Queues? && Risky(s, others) && Demand(s, others) < QUEUE_CAPACITY
    ensures Worsens(s, Handle, others)
  {
  }

  lemma WorseAtQueues(s: State, others: nat)
    requires Inv(s) && Risky(s, others) && !Doomed(s) && s.left.value[0].Queues?
    ensures Worsens(s, Worse(s, others), others)
  {
    if Demand(s, others) >= QUEUE_CAPACITY {
      SendWorsens(s, FillUp(s), others);
    } else {
      HandleWorsens(s, others);
    }
  }

  lemma WorseAtLookup(s: State, others: nat)
    requires Inv(s) && Risky(s, others) && !Doomed(s) && s.left.value[0].LooksUpBot?
    ensures Worsens(s, Worse(s, others), others)
  {
    var step, rest := Worse(s, others), s.left.value[1..];
    assert Enabled(s, step);
    assert ([Queues] + rest)[1..] == rest;
  }

  /** Enough is to be sent, some of it under the lock: send the rest first. */
  lemma WorseWithEnough(s: State, others: nat)
    requires Inv(s) && !Doomed(s) && s.left.Some? && s.left.value != [] && s.left.value[0].WritesUsers?
    requires Demand(s, others) > QUEUE_CAPACITY && (UsersSends(s) > 0 || others > 0)
    ensures Worsens(s, Worse(s, others), others)
  {
  }

  /** Otherwise let the holders finish and the frame get through. */
  lemma WorseWithoutEnough(s: State, others: nat)
    requires Inv(s) && !Doomed(s) && s.left.Some? && s.left.value != [] && s.left.value[0].WritesUsers?
    requires Risky(s, others) && !(Demand(s, others) > QUEUE_CAPACITY && (UsersSends(s) > 0 || others > 0))
    ensures Worsens(s, Worse(s, others), others)
  {
  }

  lemma WorseAtWrite(s: State, others: nat)
    requires Inv(s) && Risky(s, others) && !Doomed(s) && s.left.value[0].WritesUsers?
    ensures Worsens(s, Worse(s, others), others)
  {
    if Demand(s, others) > QUEUE_CAPACITY && (UsersSends(s) > 0 || others > 0) {
      WorseWithEnough(s, others);
    } else {
      WorseWithoutEnough(s, others);
    }
  }

  lemma {:induction false} RiskCanDoom(s: State, others: nat)
    requires Inv(s) && Risky(s, others)
    ensures CanDoom(s, others)
    decreases FramesLeft(s), Pending(s, others)
  {
    if Doomed(s) {
      assert Within(s, [], s, others);
    } else {
      var step := Worse(s, others);
      match s.left.value[0] {
        case Queues => WorseAtQueues(s, others);
        case LooksUpBot => WorseAtLookup(s, others);
        case WritesUsers => WorseAtWrite(s, others);
        case Neither =>
      }
      RiskCanDoom(Next(s, step), others - Cost(step));
      DoomLater(s, step, others);
    }
  }

  /** How many commands the frames queue. */
  function Commands(frames: seq<Frame>): nat {
    if frames == [] then 0 else
      var f := frames[|frames| - 1];
      Commands(frames[..|frames| - 1]) + if f.Queues? || f.LooksUpBot? then 1 else 0
  }

  /** Frame i may never get through: everything sent before it leaves no room for its
      command; or there is more to send than fits, and some of it under the lock that it
      waits for, taken during the read or still held since before. */
  predicate BlocksAt(frames: seq<Frame>, i: nat, demand: nat, held: bool, more: bool)
    requires i < |frames|
  {
    var d := demand + Commands(frames[..i]);
    match frames[i]
    case Queues => d >= QUEUE_CAPACITY
    case LooksUpBot => d >= QUEUE_CAPACITY
    case WritesUsers => d > QUEUE_CAPACITY && (more || (held && WritesUsers !in frames[..i]))
    case Neither => false
  }

  lemma {:induction false} CommandsCons(f: Frame, frames: seq<Frame>)
    ensures Commands([f] + frames) == Commands([f]) + Commands(frames)
  {
    if frames == [] {
      assert [f] + frames == [f];
    } else {
      var k := |frames| - 1;
      CommandsCons(f, frames[..k]);
      assert ([f] + frames)[..k + 1] == [f] + frames[..k];
    }
  }

  lemma BlocksAtTail(frames: seq<Frame>, i: nat, demand: nat, held: bool, more: bool)
    requires 0 < i < |frames|
    ensures BlocksAt(frames, i, demand, held, more) <==>
            BlocksAt(frames[1..], i - 1, demand + Commands([frames[0]]), held && !frames[0].WritesUsers?, more)
  {
    CommandsCons(frames[0], frames[1..][..i - 1]);
    assert frames[..i] == [frames[0]] + frames[1..][..i - 1];
  }

  lemma {:induction false} MayBlockIff(demand: nat, held: bool, more: bool, frames: seq<Frame>)
    ensures MayBlock(demand, held, more, frames) <==>
            exists i :: 0 <= i < |frames| && BlocksAt(frames, i, demand, held, more)
    decreases frames
  {
    if frames != [] {
      var f := frames[0];
      var d, h := demand + Commands([f]), held && !f.WritesUsers?;
      assert [f][..0] == [] && frames[..0] == [];
      MayBlockIff(d, h, more, frames[1..]);
      assert MayBlock(demand, held, more, frames) <==>
             BlocksAt(frames, 0, demand, held, more) || MayBlock(d, h, more, frames[1..]);
      forall i | 0 < i < |frames|
        ensures BlocksAt(frames, i, demand, held, more) <==> BlocksAt(frames[1..], i - 1, d, h, more)
      {
        BlocksAtTail(frames, i, demand, held, more);
      }
      if j :| 0 <= j < |frames[1..]| && BlocksAt(frames[1..], j, d, h, more) {
        assert BlocksAt(frames, j + 1, demand, held, more);
      }
    }
  }

  predicate FrameBlocks(s: State, i: nat, others: nat)
    requires s.left.Some? && i < |s.left.value|
  {
    BlocksAt(s.left.value, i, Demand(s, others), UsersSends(s) > 0, others > 0)
  }

  /** Handling one read can stop the loop for good exactly when some frame of it may never
      get through. */
  lemma ReadBlocksIff(s: State, others: nat)
    requires Inv(s) && s.left.Some?
    ensures CanDoom(s, others) <==> exists i :: 0 <= i < |s.left.value| && FrameBlocks(s, i, others)
  {
    var frames, demand := s.left.value, Demand(s, others);
    MayBlockIff(demand, UsersSends(s) > 0, others > 0, frames);
    if CanDoom(s, others) {
      var run, t :| Within(s, run, t, others) && Doomed(t);
      DoomNeedsRisk(s, run, t, others);
      var i :| 0 <= i < |frames| && BlocksAt(frames, i, demand, UsersSends(s) > 0, others > 0);
      assert FrameBlocks(s, i, others);
    }
    if i :| 0 <= i < |frames| && FrameBlocks(s, i, others) {
      assert BlocksAt(frames, i, demand, UsersSends(s) > 0, others > 0);
      RiskCanDoom(s, others);
    }
  }

  // ----- Whole runs -----

  /** Which frames reads may bring, how many recipients a mass message or a relay may
      have, and whether anybody else sends. */
  datatype Limits = Limits(queueing: bool, writing: bool, recipients: nat, others: bool)

  predicate FrameAllowed(f: Frame, limits: Limits) {
    match f
    case Queues => limits.queueing
    case LooksUpBot => limits.queueing
    case WritesUsers => limits.writing
    case Neither => true
  }

  ghost predicate Allowed(step: Step, limits: Limits) {
    match step
    case Read(frames) => forall f | f in frames :: FrameAllowed(f, limits)
    case RelayAcquire(h) => h <= limits.recipients
    case MassAcquire(h) => h <= limits.recipients
    case ReaddAcquire(_) => limits.others
    case OtherSend => limits.others
    case _ => true
  }

  ghost predicate Reaches(s: State, run: seq<Step>, t: State, limits: Limits)
    decreases run
  {
    if run == [] then s == t else
      Enabled(s, run[0]) && Allowed(run[0], limits) && Reaches(Next(s, run[0]), run[1..], t, limits)
  }

  ghost predicate Reachable(t: State, limits: Limits) {
    exists run :: Reaches(INIT, run, t, limits)
  }

  lemma {:induction false} ReachesExtend(s: State, run: seq<Step>, t: State, step: Step, limits: Limits)
    requires Reaches(s, run, t, limits) && Enabled(t, step) && Allowed(step, limits)
    ensures Reaches(s, run + [step], Next(t, step), limits)
    decreases run
  {
    if run == [] {
      assert (run + [step])[1..] == [];
    } else {
      ReachesExtend(Next(s, run[0]), run[1..], t, step, limits);
      assert (run + [step])[1..] == run[1..] + [step];
    }
  }

  lemma Go(t: State, step: Step, u: State, limits: Limits)
    requires Reachable(t, limits) && Enabled(t, step) && Allowed(step, limits) && u == Next(t, step)
    ensures Reachable(u, limits)
  {
    var run :| Reaches(INIT, run, t, limits);
    ReachesExtend(INIT, run, t, step, limits);
  }

  lemma InitReachable(limits: Limits)
    ensures Reachable(INIT, limits)
  {
    assert Reaches(INIT, [], INIT, limits);
  }

  /** A task that has taken a lock sends until the queue is full. */
  lemma {:induction false} SendAll(s: State, k: nat, limits: Limits)
    requires Reachable(s, limits) && !s.command.Idle? && k <= s.command.sends && s.queued + k <= QUEUE_CAPACITY
    ensures Reachable(s.(queued := s.queued + k, command := s.command.(sends := s.command.sends - k)), limits)
  {
    if k > 0 {
      SendAll(s, k - 1, limits);
      Go(s.(queued := s.queued + k - 1, command := s.command.(sends := s.command.sends - (k - 1))), CommandSend,
         s.(queued := s.queued + k, command := s.command.(sends := s.command.sends - k)), limits);
    }
  }

  /** A mass message to one user more than the queue holds, and one frame about users: the
      message waits for room, the loop for the message. Nobody else sends, and no frame
      queues a command. */
  lemma MassMessageStopsLoop(limits: Limits)
    requires limits.writing && limits.recipients >= 257
    ensures var t := State(256, Some([WritesUsers]), None, Mass(1), false);
            Reachable(t, limits) && Stuck(t)
  {
    var s1, s2 := INIT.(command := Mass(QUEUE_CAPACITY + 1)), INIT.(queued := QUEUE_CAPACITY, command := Mass(1));
    var t := s2.(left := Some([WritesUsers]));
    InitReachable(limits);
    Go(INIT, MassAcquire(QUEUE_CAPACITY + 1), s1, limits);
    SendAll(s1, QUEUE_CAPACITY, limits);
    Go(s2, Read([WritesUsers]), t, limits);
    StuckIffDoomed(t);
  }

  /** The same with the registry: bots are added again, an unregistration waits for the
      registry, and a nick frame waits behind it. */
  lemma ReaddStopsLoop(limits: Limits)
    requires limits.queueing && limits.others
    ensures var t := State(QUEUE_CAPACITY, Some([LooksUpBot]), None, Readd(1), true);
            Reachable(t, limits) && Stuck(t)
  {
    var s1, s2 := INIT.(command := Readd(QUEUE_CAPACITY + 1)), INIT.(queued := QUEUE_CAPACITY, command := Readd(1));
    var s3 := s2.(writer := true);
    var t := s3.(left := Some([LooksUpBot]));
    InitReachable(limits);
    Go(INIT, ReaddAcquire(QUEUE_CAPACITY + 1), s1, limits);
    SendAll(s1, QUEUE_CAPACITY, limits);
    Go(s2, WriterAsks, s3, limits);
    Go(s3, Read([LooksUpBot]), t, limits);
    StuckIffDoomed(t);
  }

  /** Reads that win over queued commands again and again, one command each. */
  lemma {:induction false} PileOwn(q: nat, limits: Limits)
    requires q <= QUEUE_CAPACITY && limits.queueing
    ensures Reachable(State(q, Some([Queues]), None, Idle, false), limits)
  {
    if q == 0 {
      InitReachable(limits);
      Go(INIT, Read([Queues]), INIT.(left := Some([Queues])), limits);
    } else {
      var s := State(q, None, None, Idle, false);
      PileOwn(q - 1, limits);
      assert [Queues][1..] == [];
      Go(State(q - 1, Some([Queues]), None, Idle, false), Handle, s.(left := Some([])), limits);
      Go(s.(left := Some([])), Finish, s, limits);
      Go(s, Read([Queues]), s.(left := Some([Queues])), limits);
    }
  }

  /** Messages to one user each, one after the other. */
  lemma {:induction false} PileMass(q: nat, limits: Limits)
    requires q <= QUEUE_CAPACITY && limits.recipients > 0
    ensures Reachable(State(q, None, None, Mass(1), false), limits)
  {
    if q == 0 {
      InitReachable(limits);
      Go(INIT, MassAcquire(1), INIT.(command := Mass(1)), limits);
    } else {
      var s := State(q, None, None, Idle, false);
      PileMass(q - 1, limits);
      Go(State(q - 1, None, None, Mass(1), false), CommandSend, s.(command := Mass(0)), limits);
      Go(s.(command := Mass(0)), CommandRelease, s, limits);
      Go(s, MassAcquire(1), s.(command := Mass(1)), limits);
    }
  }

  /** What every run keeps when no frame queues a command and users are not written or
      never told anything. */
  ghost predicate Harmless(s: State, limits: Limits) {
    Inv(s) && RelaySends(s) <= limits.recipients && (s.command.Mass? ==> s.command.sends <= limits.recipients) &&
    (s.left.Some? ==> forall f | f in s.left.value :: FrameAllowed(f, limits))
  }

  lemma HarmlessStep(s: State, step: Step, limits: Limits)
    requires !limits.queueing && Harmless(s, limits) && Enabled(s, step) && Allowed(step, limits)
    ensures Harmless(Next(s, step), limits)
  {
    if step.Handle? {
      assert s.left.value[0] in s.left.value;
    }
  }

  lemma {:induction false} HarmlessRun(s: State, run: seq<Step>, t: State, limits: Limits)
    requires !limits.queueing && Harmless(s, limits) && Reaches(s, run, t, limits)
    ensures Harmless(t, limits)
    decreases run
  {
    if run != [] {
      HarmlessStep(s, run[0], limits);
      HarmlessRun(Next(s, run[0]), run[1..], t, limits);
    }
  }

  lemma HarmlessIsNotDoomed(s: State, limits: Limits)
    requires Harmless(s, limits) && !limits.queueing && !(limits.writing && limits.recipients > 0)
    ensures !Doomed(s)
  {
    if s.left.Some? && s.left.value != [] {
      assert s.left.value[0] in s.left.value;
    }
  }

  /** Over whole runs no bound on what a read brings, on the recipients or on what others
      send is small enough: the loop may prefer reading to draining, so it can stop for
      good unless no frame queues a command, and no frame about users comes while anybody
      is ever sent a mass or operator message. */
  lemma LoopBlocksIff(limits: Limits)
    ensures (exists t :: Reachable(t, limits) && Stuck(t))
            <==> limits.queueing || (limits.writing && limits.recipients > 0)
  {
    if limits.queueing {
      var t := State(QUEUE_CAPACITY, Some([Queues]), None, Idle, false);
      PileOwn(QUEUE_CAPACITY, limits);
      StuckIffDoomed(t);
    } else if limits.writing && limits.recipients > 0 {
      var s := State(QUEUE_CAPACITY, None, None, Mass(1), false);
      var t := s.(left := Some([WritesUsers]));
      PileMass(QUEUE_CAPACITY, limits);
      Go(s, Read([WritesUsers]), t, limits);
      StuckIffDoomed(t);
    } else {
      forall t | Reachable(t, limits)
        ensures !Stuck(t)
      {
        var run :| Reaches(INIT, run, t, limits);
        HarmlessRun(INIT, run, t, limits);
        HarmlessIsNotDoomed(t, limits);
        StuckIffDoomed(t);
      }
    }
  }
}
