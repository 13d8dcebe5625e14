/** The WebSocket connection limit: a handler loads the shared counter, compares it
    with the limit, and only later increments it; the upgrade callback decrements it
    when the connection ends. When the upgrade of an accepted connection fails, the
    callback never runs and nothing is decremented. Each access is one atomic step and
    handlers interleave freely. */
module WsLimit {
  const MAX_WS_CONNECTIONS: nat := 100

  /** `window`: handlers that passed the check and have not incremented yet;
      `active`: accepted connections that have not finished; `failed`: how many
      accepted connections were lost in the upgrade. */
  datatype State = State(counter: int, window: set<nat>, active: set<nat>, failed: nat)

  datatype Step =
    | Load(handler: nat)
    | Increment(handler: nat)
    | Finish(handler: nat)
    | UpgradeFails(handler: nat)

  const INIT: State := State(0, {}, {}, 0)

  predicate Enabled(s: State, step: Step) {
    match step
    case Load(h) => h !in s.window && h !in s.active
    case Increment(h) => h in s.window
    case Finish(h) => h in s.active
    case UpgradeFails(h) => h in s.active
  }

  function Next(s: State, step: Step): State
    requires Enabled(s, step)
  {
    match step
    case Load(h) =>
      if s.counter >= MAX_WS_CONNECTIONS then s else s.(window := s.window + {h})
    case Increment(h) =>
      State(s.counter + 1, s.window - {h}, s.active + {h}, s.failed)
    case Finish(h) =>
      s.(counter := s.counter - 1, active := s.active - {h})
    case UpgradeFails(h) =>
      s.(active := s.active - {h}, failed := s.failed + 1)
  }

  /** `run` leads from `s` to `t` with never more than `cap` handlers in the window. */
  ghost predicate Reaches(s: State, run: seq<Step>, t: State, cap: nat)
    decreases run
  {
    if run == [] then s == t else
      Enabled(s, run[0]) && |Next(s, run[0]).window| <= cap && Reaches(Next(s, run[0]), run[1..], t, cap)
  }

  ghost predicate Inv(s: State, cap: nat) {
    s.counter == |s.active| + s.failed && s.window !! s.active &&
    s.counter + |s.window| < MAX_WS_CONNECTIONS + cap
  }

  lemma StepKeepsInv(s: State, step: Step, cap: nat)
    requires Inv(s, cap) && Enabled(s, step) && |Next(s, step).window| <= cap
    ensures Inv(Next(s, step), cap)
  {
    var h := step.handler;
    match step
    case Load(_) =>
      if s.counter < MAX_WS_CONNECTIONS {
        assert Next(s, step).window == s.window + {h};
      }
    case Increment(_) =>
      assert |s.window - {h}| == |s.window| - 1 && |s.active + {h}| == |s.active| + 1;
    case _ =>
      assert |s.active - {h}| == |s.active| - 1;
  }

  lemma {:induction false} RunKeepsInv(s: State, run: seq<Step>, t: State, cap: nat)
    requires Inv(s, cap) && Reaches(s, run, t, cap)
    ensures Inv(t, cap)
    decreases run
  {
    if run != [] {
      StepKeepsInv(s, run[0], cap);
      RunKeepsInv(Next(s, run[0]), run[1..], t, cap);
    }
  }

  /** In every run with at most `cap` handlers between check and increment, the
      counter is the number of live connections and of those lost in the upgrade, so it
      counts the live ones exactly if none was lost; and counter plus handlers in the
      window is at most 99 + cap. */
  lemma BoundedOvershoot(run: seq<Step>, t: State, cap: nat)
    requires 1 <= cap && Reaches(INIT, run, t, cap)
    ensures t.counter == |t.active| + t.failed
    ensures t.counter == |t.active| <==> t.failed == 0
    ensures t.counter + |t.window| <= MAX_WS_CONNECTIONS - 1 + cap
  {
    RunKeepsInv(INIT, run, t, cap);
  }

  // ----- The bound is attained -----

  ghost predicate Reachable(t: State, cap: nat) {
    exists run :: Reaches(INIT, run, t, cap)
  }

  lemma {:induction false} ReachesExtend(s: State, run: seq<Step>, t: State, step: Step, cap: nat)
    requires Reaches(s, run, t, cap) && Enabled(t, step) && |Next(t, step).window| <= cap
    ensures Reaches(s, run + [step], Next(t, step), cap)
    decreases run
  {
    if run == [] {
      assert (run + [step])[1..] == [];
    } else {
      ReachesExtend(Next(s, run[0]), run[1..], t, step, cap);
      assert (run + [step])[1..] == run[1..] + [step];
    }
  }

  lemma ReachableStep(t: State, step: Step, cap: nat)
    requires Reachable(t, cap) && Enabled(t, step) && |Next(t, step).window| <= cap
    ensures Reachable(Next(t, step), cap)
  {
    var run :| Reaches(INIT, run, t, cap);
    ReachesExtend(INIT, run, t, step, cap);
  }

  function Ids(lo: nat, hi: nat): set<nat> {
    if lo >= hi then {} else Ids(lo, hi - 1) + {hi - 1}
  }

  lemma {:induction false} IdsMembers(lo: nat, hi: nat)
    ensures forall h: nat :: h in Ids(lo, hi) <==> lo <= h < hi
    ensures lo <= hi ==> |Ids(lo, hi)| == hi - lo
    decreases hi
  {
    if lo < hi {
      IdsMembers(lo, hi - 1);
    }
  }

  lemma IdsWithoutFirst(lo: nat, hi: nat)
    requires lo < hi
    ensures Ids(lo, hi) - {lo} == Ids(lo + 1, hi) && |Ids(lo + 1, hi)| == hi - lo - 1 && lo in Ids(lo, hi)
  {
    IdsMembers(lo, hi);
    IdsMembers(lo + 1, hi);
  }

  /** n connections accepted one after the other. */
  lemma {:induction false} OneByOne(n: nat, cap: nat)
    requires n < MAX_WS_CONNECTIONS && 1 <= cap
    ensures Reachable(State(n, {}, Ids(0, n), 0), cap)
  {
    if n == 0 {
      assert Reaches(INIT, [], INIT, cap);
      assert Ids(0, 0) == {};
    } else {
      var h := n - 1;
      OneByOne(h, cap);
      IdsMembers(0, h);
      var s := State(h, {}, Ids(0, h), 0);
      assert {} + {h} == {h} && {h} - {h} == {} && Ids(0, h) + {h} == Ids(0, n);
      assert Next(s, Load(h)) == State(h, {h}, Ids(0, h), 0);
      ReachableStep(s, Load(h), cap);
      ReachableStep(State(h, {h}, Ids(0, h), 0), Increment(h), cap);
    }
  }

  /** Then w handlers check before any of them increments. */
  lemma {:induction false} AllCheckFirst(w: nat, cap: nat)
    requires w <= cap && 1 <= cap
    ensures Reachable(State(99, Ids(99, 99 + w), Ids(0, 99), 0), cap)
  {
    if w == 0 {
      OneByOne(99, cap);
      assert Ids(99, 99) == {};
    } else {
      var h := 99 + w - 1;
      AllCheckFirst(w - 1, cap);
      IdsMembers(99, h);
      IdsMembers(99, h + 1);
      IdsMembers(0, 99);
      ReachableStep(State(99, Ids(99, h), Ids(0, 99), 0), Load(h), cap);
    }
  }

  /** And then they all increment. */
  lemma {:induction false} AllIncrement(done: nat, cap: nat)
    requires done <= cap && 1 <= cap
    ensures Reachable(State(99 + done, Ids(99 + done, 99 + cap), Ids(0, 99 + done), 0), cap)
  {
    if done == 0 {
      AllCheckFirst(cap, cap);
    } else {
      AllIncrement(done - 1, cap);
      var h := 99 + done - 1;
      IdsWithoutFirst(h, 99 + cap);
      ReachableStep(State(h, Ids(h, 99 + cap), Ids(0, h), 0), Increment(h), cap);
    }
  }

  /** The limit itself is kept by every run exactly when check and increment are
      never overlapped by another handler's check. */
  lemma LimitKeptIffNoOverlap(cap: nat)
    requires 1 <= cap
    ensures (forall t :: Reachable(t, cap) ==> t.counter <= MAX_WS_CONNECTIONS) <==> cap == 1
    ensures exists t :: Reachable(t, cap) && t.counter == MAX_WS_CONNECTIONS - 1 + cap
  {
    AllIncrement(cap, cap);
    var worst := State(99 + cap, Ids(99 + cap, 99 + cap), Ids(0, 99 + cap), 0);
    assert Reachable(worst, cap);
    if cap == 1 {
      forall t | Reachable(t, cap)
        ensures t.counter <= MAX_WS_CONNECTIONS
      {
        var run :| Reaches(INIT, run, t, cap);
        BoundedOvershoot(run, t, cap);
      }
    }
  }

  // ----- Failed upgrades are never given back -----

  /** k connections accepted and lost, one after the other. */
  lemma {:induction false} LoseOneByOne(k: nat, cap: nat)
    requires k <= MAX_WS_CONNECTIONS && 1 <= cap
    ensures Reachable(State(k, {}, {}, k), cap)
  {
    if k == 0 {
      assert Reaches(INIT, [], INIT, cap);
    } else {
      LoseOneByOne(k - 1, cap);
      LoseOne(k - 1, cap);
    }
  }

  lemma LoseOne(k: nat, cap: nat)
    requires k < MAX_WS_CONNECTIONS && 1 <= cap && Reachable(State(k, {}, {}, k), cap)
    ensures Reachable(State(k + 1, {}, {}, k + 1), cap)
  {
    var s, s1 := State(k, {}, {}, k), State(k, {0}, {}, k);
    var s2, s3 := State(k + 1, {}, {0}, k), State(k + 1, {}, {}, k + 1);
    assert Next(s, Load(0)) == s1;
    ReachableStep(s, Load(0), cap);
    assert Next(s1, Increment(0)) == s2;
    ReachableStep(s1, Increment(0), cap);
    assert Next(s2, UpgradeFails(0)) == s3;
    ReachableStep(s2, UpgradeFails(0), cap);
  }

  lemma {:induction false} FailuresStay(s: State, run: seq<Step>, t: State, cap: nat)
    requires Inv(s, cap) && Reaches(s, run, t, cap)
    ensures t.failed >= s.failed
    ensures s.failed >= MAX_WS_CONNECTIONS && s.window == {} ==> t.window == {} && t.active <= s.active
    decreases run
  {
    if run != [] {
      StepKeepsInv(s, run[0], cap);
      FailuresStay(Next(s, run[0]), run[1..], t, cap);
    }
  }

  /** The limit counts lost connections for good. Once a hundred were lost and nobody is
      past the check, no run ever accepts another connection; and such a state is
      reachable with no connection open at all. */
  lemma FailedUpgradesLockOut(cap: nat)
    requires 1 <= cap
    ensures Reachable(State(100, {}, {}, 100), cap)
    ensures forall s, run, t :: Reachable(s, cap) && s.failed >= 100 && s.window == {} && Reaches(s, run, t, cap)
              ==> t.active <= s.active
  {
    LoseOneByOne(100, cap);
    forall s, run, t | Reachable(s, cap) && s.failed >= 100 && s.window == {} && Reaches(s, run, t, cap)
      ensures t.active <= s.active
    {
      var before :| Reaches(INIT, before, s, cap);
      RunKeepsInv(INIT, before, s, cap);
      FailuresStay(s, run, t, cap);
    }
  }
}
