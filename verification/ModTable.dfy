/** The bans and gags tables: rows with an optional expiry, checked, listed, lifted
    one at a time, and purged of expired rows now and then. Each SQL statement is a
    table transition or a selection. Rows are kept in insertion order; ids come from
    a sequence and creation times from a clock that advances between insertions. */
module ModTable {
  import opened Common

  type Nick = string
  type Time = int

  /** A ban by address has no nick. */
  datatype Row = Row(id: nat, nick: Option<Nick>, author: Nick, createdAt: Time, expiresAt: Option<Time>)
  datatype Table = Table(rows: seq<Row>, nextId: nat)

  predicate Active(r: Row, now: Time) {
    r.expiresAt.None? || r.expiresAt.value > now
  }

  predicate Binds(r: Row, n: Nick, now: Time) {
    r.nick == Some(n) && Active(r, now)
  }

  /** The rows WHERE expires_at IS NULL OR expires_at > NOW(). */
  function Live(rows: seq<Row>, now: Time): seq<Row> {
    if rows == [] then [] else
      var k := |rows| - 1;
      if Active(rows[k], now) then Live(rows[..k], now) + [rows[k]] else Live(rows[..k], now)
  }

  function WithoutId(rows: seq<Row>, id: nat): seq<Row> {
    if rows == [] then [] else
      var k := |rows| - 1;
      if rows[k].id != id then WithoutId(rows[..k], id) + [rows[k]] else WithoutId(rows[..k], id)
  }

  function Reverse(rows: seq<Row>): seq<Row> {
    if rows == [] then [] else [rows[|rows| - 1]] + Reverse(rows[..|rows| - 1])
  }

  // ----- Queries -----

  function Create(t: Table, n: Option<Nick>, author: Nick, expires: Option<Time>, now: Time): Table {
    Table(t.rows + [Row(t.nextId, n, author, now, expires)], t.nextId + 1)
  }

  /** ORDER BY created_at DESC LIMIT 1 among the rows that bind n. */
  function Newest(rows: seq<Row>, n: Nick, now: Time): Option<Row> {
    if rows == [] then None else
      var k := |rows| - 1;
      var best := Newest(rows[..k], n, now);
      if Binds(rows[k], n, now) && (best.None? || best.value.createdAt <= rows[k].createdAt)
      then Some(rows[k]) else best
  }

  function Check(t: Table, n: Nick, now: Time): Option<Row> {
    Newest(t.rows, n, now)
  }

  function List(t: Table, now: Time): seq<Row> {
    Reverse(Live(t.rows, now))
  }

  predicate HasId(rows: seq<Row>, id: nat) {
    exists r | r in rows :: r.id == id
  }

  function Delete(t: Table, id: nat): Table {
    t.(rows := WithoutId(t.rows, id))
  }

  /** DELETE WHERE expires_at IS NOT NULL AND expires_at <= NOW(). */
  function Purge(t: Table, now: Time): Table {
    t.(rows := Live(t.rows, now))
  }

  /** Unban and ungag: look up the newest binding row and delete it by id. */
  function Lift(t: Table, n: Nick, now: Time): Table {
    var r := Check(t, n, now);
    if r.Some? then Delete(t, r.value.id) else t
  }

  // ----- What the queries mean -----

  ghost predicate Ordered(rows: seq<Row>) {
    forall i, j | 0 <= i < j < |rows| :: rows[i].id < rows[j].id && rows[i].createdAt < rows[j].createdAt
  }

  ghost predicate WellFormed(t: Table, now: Time) {
    Ordered(t.rows) && forall r | r in t.rows :: r.id < t.nextId && r.createdAt <= now
  }

  lemma {:induction false} LiveMembers(rows: seq<Row>, now: Time)
    ensures forall r :: r in Live(rows, now) <==> r in rows && Active(r, now)
  {
    if rows != [] {
      LiveMembers(rows[..|rows| - 1], now);
      assert forall r :: r in rows <==> r in rows[..|rows| - 1] || r == rows[|rows| - 1];
    }
  }

  lemma {:induction false} WithoutIdMembers(rows: seq<Row>, id: nat)
    ensures forall r :: r in WithoutId(rows, id) <==> r in rows && r.id != id
  {
    if rows != [] {
      WithoutIdMembers(rows[..|rows| - 1], id);
      assert forall r :: r in rows <==> r in rows[..|rows| - 1] || r == rows[|rows| - 1];
    }
  }

  /** The check finds a binding row if there is one, and no binding row is newer. */
  lemma {:induction false} CheckFindsNewest(rows: seq<Row>, n: Nick, now: Time)
    ensures Newest(rows, n, now).None? <==> forall r | r in rows :: !Binds(r, n, now)
    ensures Newest(rows, n, now).Some? ==>
              var best := Newest(rows, n, now).value;
              best in rows && Binds(best, n, now) &&
              forall r | r in rows && Binds(r, n, now) :: r.createdAt <= best.createdAt
  {
    if rows != [] {
      CheckFindsNewest(rows[..|rows| - 1], n, now);
      assert forall r :: r in rows <==> r in rows[..|rows| - 1] || r == rows[|rows| - 1];
    }
  }

  lemma OrderedExtend(rows: seq<Row>, last: Row)
    requires Ordered(rows) && forall r | r in rows :: r.id < last.id && r.createdAt < last.createdAt
    ensures Ordered(rows + [last])
  {
    assert forall i | 0 <= i < |rows| :: rows[i] in rows;
  }

  lemma OrderedLast(rows: seq<Row>)
    requires Ordered(rows) && rows != []
    ensures var k := |rows| - 1;
            Ordered(rows[..k]) && forall r | r in rows[..k] :: r.id < rows[k].id && r.createdAt < rows[k].createdAt
  {
  }

  lemma {:induction false} SelectionsStayOrdered(rows: seq<Row>, id: nat, now: Time)
    requires Ordered(rows)
    ensures Ordered(Live(rows, now)) && Ordered(WithoutId(rows, id))
  {
    if rows != [] {
      var k := |rows| - 1;
      OrderedLast(rows);
      SelectionsStayOrdered(rows[..k], id, now);
      LiveMembers(rows[..k], now);
      WithoutIdMembers(rows[..k], id);
      OrderedExtend(Live(rows[..k], now), rows[k]);
      OrderedExtend(WithoutId(rows[..k], id), rows[k]);
    }
  }

  lemma {:induction false} ReverseAt(rows: seq<Row>)
    ensures |Reverse(rows)| == |rows|
    ensures forall i | 0 <= i < |rows| :: Reverse(rows)[i] == rows[|rows| - 1 - i]
  {
    if rows != [] {
      ReverseAt(rows[..|rows| - 1]);
    }
  }

  /** The listing is exactly the active rows, newest first. */
  lemma ListIsActiveNewestFirst(t: Table, now: Time)
    requires WellFormed(t, now)
    ensures forall r :: r in List(t, now) <==> r in t.rows && Active(r, now)
    ensures forall i, j | 0 <= i < j < |List(t, now)| :: List(t, now)[i].createdAt > List(t, now)[j].createdAt
  {
    var l := Live(t.rows, now);
    LiveMembers(t.rows, now);
    SelectionsStayOrdered(t.rows, 0, now);
    ReverseAt(l);
    var down := List(t, now);
    forall i, j | 0 <= i < j < |down|
      ensures down[i].createdAt > down[j].createdAt
    {
      assert down[i] == l[|l| - 1 - i] && down[j] == l[|l| - 1 - j];
    }
    forall r
      ensures r in Reverse(l) <==> r in l
    {
      if r in l {
        var i :| 0 <= i < |l| && l[i] == r;
        assert Reverse(l)[|l| - 1 - i] == r;
      }
    }
  }

  /** A purge deletes exactly the rows no longer in force. */
  lemma PurgeDeletesExactlyExpired(t: Table, now: Time)
    ensures forall r :: r in Purge(t, now).rows <==> r in t.rows && Active(r, now)
    ensures Purge(t, now).nextId == t.nextId
  {
    LiveMembers(t.rows, now);
  }

  /** A new row is the one the check finds, from its creation exactly until it expires;
      after that the check finds what it would have found without it. */
  lemma CheckAfterCreate(t: Table, n: Nick, author: Nick, e: Option<Time>, s: Time, now: Time, later: Time)
    requires WellFormed(t, s) && s < now <= later
    ensures Check(Create(t, Some(n), author, e, now), n, later) ==
            if e.None? || e.value > later then Some(Row(t.nextId, Some(n), author, now, e)) else Check(t, n, later)
  {
    CheckFindsNewest(t.rows, n, later);
    var rows := Create(t, Some(n), author, e, now).rows;
    assert rows[..|t.rows|] == t.rows;
  }

  // ----- Runs, with or without purging -----

  datatype Op =
    | OpCreate(target: Option<Nick>, author: Nick, expires: Option<Time>)
    | OpCheck(nick: Nick)
    | OpList
    | OpLift(nick: Nick)
    | OpDelete(id: nat)
    | OpPurge

  datatype Answer =
    | Created(id: nat)
    | Found(row: Option<Row>)
    | Rows(rows: seq<Row>)
    | Lifted(row: Option<Row>)
    | Deleted(existed: bool)
    | Purged

  datatype Timed = Timed(op: Op, at: Time)

  /** With `purge` false a purge does nothing. */
  function Step(t: Table, o: Timed, purge: bool): (Table, Answer) {
    match o.op
    case OpCreate(n, author, e) => (Create(t, n, author, e, o.at), Created(t.nextId))
    case OpCheck(n) => (t, Found(Check(t, n, o.at)))
    case OpList => (t, Rows(List(t, o.at)))
    case OpLift(n) => (Lift(t, n, o.at), Lifted(Check(t, n, o.at)))
    case OpDelete(id) => (Delete(t, id), Deleted(HasId(t.rows, id)))
    case OpPurge => (if purge then Purge(t, o.at) else t, Purged)
  }

  function Run(t: Table, ops: seq<Timed>, purge: bool): (res: (Table, seq<Answer>))
    ensures |res.1| == |ops|
  {
    if ops == [] then (t, []) else
      var k := |ops| - 1;
      var (t', answers) := Run(t, ops[..k], purge);
      var (t'', a) := Step(t', ops[k], purge);
      (t'', answers + [a])
  }

  /** Every statement keeps ids and creation times increasing, as long as the clock
      has advanced since the last insertion. */
  lemma StepKeepsWellFormed(t: Table, s: Time, o: Timed, purge: bool)
    requires WellFormed(t, s) && s <= o.at && (o.op.OpCreate? ==> s < o.at)
    ensures WellFormed(Step(t, o, purge).0, o.at)
  {
    match o.op
    case OpCreate(n, author, e) => OrderedExtend(t.rows, Row(t.nextId, n, author, o.at, e));
    case OpLift(n) =>
      var r := Check(t, n, o.at);
      if r.Some? {
        SelectionsStayOrdered(t.rows, r.value.id, o.at);
        WithoutIdMembers(t.rows, r.value.id);
      }
    case OpDelete(id) =>
      SelectionsStayOrdered(t.rows, id, o.at);
      WithoutIdMembers(t.rows, id);
    case OpPurge =>
      SelectionsStayOrdered(t.rows, 0, o.at);
      LiveMembers(t.rows, o.at);
    case _ =>
  }

  ghost predicate Monotone(ops: seq<Timed>) {
    forall i, j | 0 <= i <= j < |ops| :: ops[i].at <= ops[j].at
  }

  // ----- Everything but a delete by id sees only the live rows -----

  lemma {:induction false} NewestOfLive(rows: seq<Row>, n: Nick, now: Time)
    ensures Newest(Live(rows, now), n, now) == Newest(rows, n, now)
  {
    if rows != [] {
      var k := |rows| - 1;
      NewestOfLive(rows[..k], n, now);
      if Active(rows[k], now) {
        assert Live(rows, now)[..|Live(rows[..k], now)|] == Live(rows[..k], now);
      }
    }
  }

  lemma {:induction false} LiveLater(rows: seq<Row>, s: Time, now: Time)
    requires s <= now
    ensures Live(Live(rows, s), now) == Live(rows, now)
  {
    if rows != [] {
      var k := |rows| - 1;
      LiveLater(rows[..k], s, now);
      if Active(rows[k], s) {
        assert Live(rows, s)[..|Live(rows[..k], s)|] == Live(rows[..k], s);
      }
    }
  }

  lemma {:induction false} LiveWithoutId(rows: seq<Row>, id: nat, now: Time)
    ensures Live(WithoutId(rows, id), now) == WithoutId(Live(rows, now), id)
  {
    if rows != [] {
      var k := |rows| - 1;
      LiveWithoutId(rows[..k], id, now);
      if rows[k].id != id {
        assert WithoutId(rows, id)[..|WithoutId(rows[..k], id)|] == WithoutId(rows[..k], id);
      }
      if Active(rows[k], now) {
        assert Live(rows, now)[..|Live(rows[..k], now)|] == Live(rows[..k], now);
      }
    }
  }

  /** The purged table holds some of the other's rows, and all that are live. */
  ghost predicate SameLive(purged: Table, full: Table, now: Time) {
    purged.nextId == full.nextId && Live(purged.rows, now) == Live(full.rows, now) &&
    forall r | r in purged.rows :: r in full.rows
  }

  lemma SameLiveLater(a: Table, b: Table, s: Time, now: Time)
    requires SameLive(a, b, s) && s <= now
    ensures SameLive(a, b, now)
  {
    LiveLater(a.rows, s, now);
    LiveLater(b.rows, s, now);
  }

  /** The id names a row that is still stored without purging, and has expired. */
  predicate ExpiredId(t: Table, id: nat, now: Time) {
    exists r | r in t.rows :: r.id == id && !Active(r, now)
  }

  lemma StepAgrees(a: Table, b: Table, o: Timed)
    requires SameLive(a, b, o.at)
    ensures SameLive(Step(a, o, true).0, Step(b, o, false).0, o.at)
    ensures !o.op.OpDelete? ==> Step(a, o, true).1 == Step(b, o, false).1
    ensures o.op.OpDelete? && !ExpiredId(b, o.op.id, o.at) ==> Step(a, o, true).1 == Step(b, o, false).1
  {
    match o.op
    case OpCreate(n, author, e) =>
      var r := Row(a.nextId, n, author, o.at, e);
      assert (a.rows + [r])[..|a.rows|] == a.rows && (b.rows + [r])[..|b.rows|] == b.rows;
    case OpCheck(n) =>
      NewestOfLive(a.rows, n, o.at);
      NewestOfLive(b.rows, n, o.at);
    case OpList =>
    case OpLift(n) =>
      NewestOfLive(a.rows, n, o.at);
      NewestOfLive(b.rows, n, o.at);
      if Check(a, n, o.at).Some? {
        DeleteAgrees(a, b, Check(a, n, o.at).value.id, o.at);
      }
    case OpDelete(id) =>
      DeleteAgrees(a, b, id, o.at);
    case OpPurge =>
      LiveLater(a.rows, o.at, o.at);
      LiveMembers(a.rows, o.at);
  }

  lemma DeleteAgrees(a: Table, b: Table, id: nat, now: Time)
    requires SameLive(a, b, now)
    ensures SameLive(Delete(a, id), Delete(b, id), now)
    ensures !ExpiredId(b, id, now) ==> HasId(a.rows, id) == HasId(b.rows, id)
  {
    LiveWithoutId(a.rows, id, now);
    LiveWithoutId(b.rows, id, now);
    WithoutIdMembers(a.rows, id);
    WithoutIdMembers(b.rows, id);
    LiveMembers(a.rows, now);
    LiveMembers(b.rows, now);
    if !ExpiredId(b, id, now) && HasId(b.rows, id) {
      var r :| r in b.rows && r.id == id;
      assert r in Live(b.rows, now);
    }
  }

  lemma {:induction false} RunsStaySameLive(t: Table, ops: seq<Timed>, now: Time)
    requires Monotone(ops) && (ops != [] ==> ops[|ops| - 1].at <= now)
    ensures SameLive(Run(t, ops, true).0, Run(t, ops, false).0, now)
  {
    if ops != [] {
      var k := |ops| - 1;
      RunsStaySameLive(t, ops[..k], ops[k].at);
      StepAgrees(Run(t, ops[..k], true).0, Run(t, ops[..k], false).0, ops[k]);
      SameLiveLater(Run(t, ops, true).0, Run(t, ops, false).0, ops[k].at, now);
    }
  }

  lemma {:induction false} AnswerAt(t: Table, ops: seq<Timed>, i: nat, purge: bool)
    requires i < |ops|
    ensures Run(t, ops, purge).1[i] == Step(Run(t, ops[..i], purge).0, ops[i], purge).1
  {
    var k := |ops| - 1;
    if i < k {
      assert ops[..k][..i] == ops[..i];
      AnswerAt(t, ops[..k], i, purge);
    }
  }

  /** Purging is invisible: wherever purges are inserted in a run, every insertion,
      check, listing, unban and ungag answers as if they had not been there, down to
      the row that is lifted; so does a delete by id of a row that has not expired. */
  lemma PurgeInvisible(t: Table, ops: seq<Timed>, i: nat)
    requires Monotone(ops) && i < |ops|
    requires ops[i].op.OpDelete? ==> !ExpiredId(Run(t, ops[..i], false).0, ops[i].op.id, ops[i].at)
    ensures Run(t, ops, true).1[i] == Run(t, ops, false).1[i]
  {
    AnswerAt(t, ops, i, true);
    AnswerAt(t, ops, i, false);
    RunsStaySameLive(t, ops[..i], ops[i].at);
    StepAgrees(Run(t, ops[..i], true).0, Run(t, ops[..i], false).0, ops[i]);
  }

  // ----- Where a purge shows -----

  /** Ids come from a sequence, so no two rows share one and none is used again. */
  ghost predicate IdsFromSequence(t: Table) {
    (forall r | r in t.rows :: r.id < t.nextId) &&
    forall q, r | q in t.rows && r in t.rows && q.id == r.id :: q == r
  }

  lemma StepKeepsIds(t: Table, o: Timed, purge: bool)
    requires IdsFromSequence(t)
    ensures IdsFromSequence(Step(t, o, purge).0)
  {
    match o.op
    case OpLift(n) =>
      if Check(t, n, o.at).Some? {
        WithoutIdMembers(t.rows, Check(t, n, o.at).value.id);
      }
    case OpDelete(id) => WithoutIdMembers(t.rows, id);
    case OpPurge => LiveMembers(t.rows, o.at);
    case _ =>
  }

  lemma {:induction false} RunKeepsIds(t: Table, ops: seq<Timed>, purge: bool)
    requires IdsFromSequence(t)
    ensures IdsFromSequence(Run(t, ops, purge).0)
  {
    if ops != [] {
      RunKeepsIds(t, ops[..|ops| - 1], purge);
      StepKeepsIds(Run(t, ops[..|ops| - 1], purge).0, ops[|ops| - 1], purge);
    }
  }

  /** Some purge among the first i operations ran while the row with this id was
      stored and expired. */
  ghost predicate PurgedBefore(t: Table, ops: seq<Timed>, i: nat, id: nat)
    requires i <= |ops|
  {
    exists j :: 0 <= j < i && PurgesAt(t, ops, j, id)
  }

  predicate PurgesAt(t: Table, ops: seq<Timed>, j: nat, id: nat)
    requires j < |ops|
  {
    ops[j].op.OpPurge? && ExpiredId(Run(t, ops[..j], false).0, id, ops[j].at)
  }

  lemma PurgedBeforeStep(t: Table, ops: seq<Timed>, id: nat)
    requires ops != []
    ensures var k := |ops| - 1;
            PurgedBefore(t, ops, k + 1, id) <==> PurgedBefore(t, ops[..k], k, id) || PurgesAt(t, ops, k, id)
  {
    var k := |ops| - 1;
    PurgedBeforeIn(t, ops, k, id);
  }

  /** What a statement other than a purge does to the stored ids, in both tables. */
  lemma IdsAfterStep(a: Table, b: Table, o: Timed, id: nat)
    requires SameLive(a, b, o.at) && !o.op.OpPurge? && id < a.nextId
    ensures var a', b' := Step(a, o, true).0, Step(b, o, false).0;
            HasId(b'.rows, id) ==> HasId(b.rows, id) && (HasId(a'.rows, id) <==> HasId(a.rows, id))
  {
    match o.op
    case OpCreate(_, _, _) =>
    case OpLift(n) =>
      NewestOfLive(a.rows, n, o.at);
      NewestOfLive(b.rows, n, o.at);
      if Check(a, n, o.at).Some? {
        WithoutIdMembers(a.rows, Check(a, n, o.at).value.id);
        WithoutIdMembers(b.rows, Check(a, n, o.at).value.id);
      }
    case OpDelete(d) =>
      WithoutIdMembers(a.rows, d);
      WithoutIdMembers(b.rows, d);
    case _ =>
  }

  lemma NewIdInBoth(a: Table, b: Table, o: Timed, id: nat)
    requires IdsFromSequence(b) && a.nextId == b.nextId <= id
    ensures HasId(Step(b, o, false).0.rows, id) ==> HasId(Step(a, o, true).0.rows, id)
  {
    match o.op
    case OpCreate(n, author, e) =>
      assert Row(a.nextId, n, author, o.at, e) in Step(a, o, true).0.rows;
    case OpLift(n) =>
      if Check(b, n, o.at).Some? {
        WithoutIdMembers(b.rows, Check(b, n, o.at).value.id);
      }
    case OpDelete(d) => WithoutIdMembers(b.rows, d);
    case _ =>
  }

  lemma IdsAfterPurge(a: Table, b: Table, id: nat, now: Time)
    requires SameLive(a, b, now) && IdsFromSequence(b) && HasId(b.rows, id)
    ensures HasId(Purge(a, now).rows, id) <==> HasId(a.rows, id) && !ExpiredId(b, id, now)
  {
    LiveMembers(a.rows, now);
    LiveMembers(b.rows, now);
    var r :| r in b.rows && r.id == id;
    if Active(r, now) {
      assert r in Live(b.rows, now);
    }
  }

  /** `purged`: some purge so far met the row with this id expired. */
  ghost predicate StoredOrPurged(a: Table, b: Table, id: nat, purged: bool) {
    (HasId(b.rows, id) ==> (HasId(a.rows, id) <==> !purged)) && (id >= b.nextId ==> !purged)
  }

  lemma StoredOrPurgedStep(a: Table, b: Table, o: Timed, id: nat, purged: bool)
    requires SameLive(a, b, o.at) && IdsFromSequence(b) && StoredOrPurged(a, b, id, purged)
    ensures StoredOrPurged(Step(a, o, true).0, Step(b, o, false).0, id,
                           purged || (o.op.OpPurge? && ExpiredId(b, id, o.at)))
  {
    if o.op.OpPurge? {
      if HasId(b.rows, id) {
        IdsAfterPurge(a, b, id, o.at);
      }
    } else if id < a.nextId {
      IdsAfterStep(a, b, o, id);
    } else {
      NewIdInBoth(a, b, o, id);
    }
  }

  /** A row still stored without purging is stored with purging unless a purge met it
      expired. */
  lemma {:induction false} StoredUnlessPurged(t: Table, ops: seq<Timed>, id: nat)
    requires Monotone(ops) && IdsFromSequence(t)
    ensures StoredOrPurged(Run(t, ops, true).0, Run(t, ops, false).0, id, PurgedBefore(t, ops, |ops|, id))
  {
    if ops != [] {
      var k := |ops| - 1;
      StoredUnlessPurged(t, ops[..k], id);
      RunsStaySameLive(t, ops[..k], ops[k].at);
      RunKeepsIds(t, ops[..k], false);
      PurgedBeforeStep(t, ops, id);
      StoredOrPurgedStep(Run(t, ops[..k], true).0, Run(t, ops[..k], false).0, ops[k], id,
                         PurgedBefore(t, ops[..k], k, id));
    }
  }

  lemma PurgedBeforeIn(t: Table, ops: seq<Timed>, i: nat, id: nat)
    requires i <= |ops|
    ensures PurgedBefore(t, ops, i, id) <==> PurgedBefore(t, ops[..i], i, id)
  {
    forall j: nat | j < i
      ensures PurgesAt(t, ops, j, id) <==> PurgesAt(t, ops[..i], j, id)
    {
      assert ops[..i][..j] == ops[..j];
    }
  }

  /** A delete by id is where a purge can show, and it does exactly when the row would
      still be stored, expired, and an earlier purge ran after it had expired. */
  lemma {:induction false} PurgeShowsInDelete(t: Table, ops: seq<Timed>, i: nat)
    requires Monotone(ops) && i < |ops| && ops[i].op.OpDelete? && IdsFromSequence(t)
    ensures Run(t, ops, true).1[i] != Run(t, ops, false).1[i] <==>
            ExpiredId(Run(t, ops[..i], false).0, ops[i].op.id, ops[i].at) && PurgedBefore(t, ops, i, ops[i].op.id)
  {
    var id := ops[i].op.id;
    AnswerAt(t, ops, i, true);
    AnswerAt(t, ops, i, false);
    if ExpiredId(Run(t, ops[..i], false).0, id, ops[i].at) {
      StoredUnlessPurged(t, ops[..i], id);
      PurgedBeforeIn(t, ops, i, id);
    } else {
      PurgeInvisible(t, ops, i);
    }
  }

  /** Such a run: a row expires, is purged, and is then deleted by id. */
  lemma PurgedRowIsNotFound(n: Nick, author: Nick, e: Time)
    ensures var t := Table([], 1);
            var ops := [Timed(OpCreate(Some(n), author, Some(e)), e - 1), Timed(OpPurge, e), Timed(OpDelete(1), e)];
            Run(t, ops, true).1[2] == Deleted(false) && Run(t, ops, false).1[2] == Deleted(true)
  {
    var t, r := Table([], 1), Row(1, Some(n), author, e - 1, Some(e));
    var create, delete := Timed(OpCreate(Some(n), author, Some(e)), e - 1), Timed(OpDelete(1), e);
    ThirdAnswer(t, create, Timed(OpPurge, e), delete, true);
    ThirdAnswer(t, create, Timed(OpPurge, e), delete, false);
    assert Step(t, create, true).0 == Table([r], 2);
    LiveMembers([r], e);
    assert r in [r];
  }

  lemma ThirdAnswer(t: Table, x: Timed, y: Timed, z: Timed, purge: bool)
    ensures Run(t, [x, y, z], purge).1[2] == Step(Step(Step(t, x, purge).0, y, purge).0, z, purge).1
  {
    assert [] + [x] == [x] && [x] + [y] == [x, y] && [x, y, z][..2] == [x, y];
    RunAppend(t, [], x, purge);
    RunAppend(t, [x], y, purge);
    AnswerAt(t, [x, y, z], 2, purge);
  }

  lemma RunAppend(t: Table, ops: seq<Timed>, o: Timed, purge: bool)
    ensures Run(t, ops + [o], purge).0 == Step(Run(t, ops, purge).0, o, purge).0
  {
    assert (ops + [o])[..|ops|] == ops;
  }

  // ----- Counting the rows that bind a nick -----

  function CountBinding(rows: seq<Row>, n: Nick, now: Time): nat {
    if rows == [] then 0 else
      var k := |rows| - 1;
      CountBinding(rows[..k], n, now) + if Binds(rows[k], n, now) then 1 else 0
  }

  lemma {:induction false} CountPositive(rows: seq<Row>, n: Nick, now: Time)
    ensures CountBinding(rows, n, now) > 0 <==> Newest(rows, n, now).Some?
  {
    if rows != [] {
      CountPositive(rows[..|rows| - 1], n, now);
    }
  }

  lemma {:induction false} CountOfLive(rows: seq<Row>, n: Nick, s: Time, now: Time)
    requires s <= now
    ensures CountBinding(Live(rows, s), n, now) == CountBinding(rows, n, now)
  {
    if rows != [] {
      var k := |rows| - 1;
      CountOfLive(rows[..k], n, s, now);
      if Active(rows[k], s) {
        assert Live(rows, s)[..|Live(rows[..k], s)|] == Live(rows[..k], s);
      }
    }
  }

  /** Deleting by id takes away at most the one row with that id. */
  lemma {:induction false} CountWithoutId(rows: seq<Row>, id: nat, n: Nick, now: Time)
    requires Ordered(rows)
    ensures CountBinding(WithoutId(rows, id), n, now) ==
            CountBinding(rows, n, now) - if exists r | r in rows :: r.id == id && Binds(r, n, now) then 1 else 0
  {
    if rows != [] {
      var k := |rows| - 1;
      var last := rows[k];
      OrderedLast(rows);
      CountWithoutId(rows[..k], id, n, now);
      assert forall r :: r in rows <==> r in rows[..k] || r == last;
    }
  }

  /** Lifting a ban or gag that is in force removes exactly one row in force. */
  lemma LiftRemovesOne(t: Table, n: Nick, now: Time)
    requires Ordered(t.rows) && Check(t, n, now).Some?
    ensures CountBinding(Lift(t, n, now).rows, n, now) == CountBinding(t.rows, n, now) - 1
  {
    CheckFindsNewest(t.rows, n, now);
    CountWithoutId(t.rows, Check(t, n, now).value.id, n, now);
  }

  /** And it is the newest one; all others stay. */
  lemma LiftRemovesNewest(t: Table, n: Nick, now: Time)
    requires Ordered(t.rows)
    ensures Lift(t, n, now).nextId == t.nextId
    ensures forall r :: r in Lift(t, n, now).rows <==>
              r in t.rows && !(Binds(r, n, now) && forall q | q in t.rows && Binds(q, n, now) :: q.createdAt <= r.createdAt)
  {
    CheckFindsNewest(t.rows, n, now);
    var best := Check(t, n, now);
    if best.Some? {
      WithoutIdMembers(t.rows, best.value.id);
      OneRowPerId(t.rows, best.value);
      forall r | r in t.rows && r.createdAt == best.value.createdAt
        ensures r == best.value
      {
        var i :| 0 <= i < |t.rows| && t.rows[i] == r;
        var j :| 0 <= j < |t.rows| && t.rows[j] == best.value;
      }
    }
  }

  // ----- The ledger of rows in force -----

  function Tally(b: bool): nat {
    if b then 1 else 0
  }

  /** Rows on n lasting to `until` that an operation adds, lifts, or deletes by id. */
  function Added(o: Timed, n: Nick, until: Time): nat {
    Tally(o.op.OpCreate? && o.op.target == Some(n) && (o.op.expires.None? || o.op.expires.value > until))
  }

  function LiftedRows(t: Table, o: Timed, n: Nick, until: Time): nat {
    Tally(o.op.OpLift? && o.op.nick == n && Check(t, n, o.at).Some? && Active(Check(t, n, o.at).value, until))
  }

  function DeletedRows(t: Table, o: Timed, n: Nick, until: Time): nat {
    Tally(o.op.OpDelete? && exists r | r in t.rows :: r.id == o.op.id && Binds(r, n, until))
  }

  /** Every operation balances: a row on n that lasts to `until` is in the table until
      it is lifted or deleted by id, whatever is purged. */
  lemma LedgerStep(t: Table, o: Timed, n: Nick, until: Time)
    requires Ordered(t.rows) && o.at <= until
    ensures CountBinding(Step(t, o, true).0.rows, n, until) + LiftedRows(t, o, n, until) + DeletedRows(t, o, n, until)
            == CountBinding(t.rows, n, until) + Added(o, n, until)
  {
    match o.op
    case OpCreate(m, author, e) =>
      assert Create(t, m, author, e, o.at).rows[..|t.rows|] == t.rows;
    case OpLift(m) => LiftLedger(t, o, n, until);
    case OpDelete(id) => CountWithoutId(t.rows, id, n, until);
    case OpPurge => CountOfLive(t.rows, n, o.at, until);
    case _ =>
  }

  lemma LiftLedger(t: Table, o: Timed, n: Nick, until: Time)
    requires Ordered(t.rows) && o.op.OpLift?
    ensures CountBinding(Step(t, o, true).0.rows, n, until) + LiftedRows(t, o, n, until) == CountBinding(t.rows, n, until)
  {
    var best := Check(t, o.op.nick, o.at);
    if best.Some? {
      CheckFindsNewest(t.rows, o.op.nick, o.at);
      CountWithoutId(t.rows, best.value.id, n, until);
      OneRowPerId(t.rows, best.value);
    }
  }

  lemma OneRowPerId(rows: seq<Row>, q: Row)
    requires Ordered(rows) && q in rows
    ensures forall r | r in rows && r.id == q.id :: r == q
  {
    forall r | r in rows && r.id == q.id
      ensures r == q
    {
      var i :| 0 <= i < |rows| && rows[i] == q;
      var j :| 0 <= j < |rows| && rows[j] == r;
    }
  }
}
