/** The live picture of who is on the hub: the user map and the operator list that
    the hub's messages update, and two readers of it, the operator chat relay and the
    paged user listing. */
module HubLive {
  import opened Common

  type Nick = string
  datatype Details = Details(description: string, speed: string, email: string, share: nat)
  datatype User = User(nick: Nick, details: Details, isOp: bool)
  datatype Entry = Entry(nick: Nick, kind: string, details: Details)

  datatype Message =
    | MyInfo(nick: Nick, details: Details)
    | UserQuit(nick: Nick)
    | UserList(entries: seq<Entry>)

  datatype Live = Live(users: map<Nick, User>, ops: seq<Nick>)
  datatype Pm = Pm(from: Nick, to: Nick, text: string)

  // ----- The message handlers -----

  predicate IsOpKind(kind: string) {
    kind == "OP" || kind == "OP_ADMIN"
  }

  function FromEntry(e: Entry): User {
    User(e.nick, e.details, IsOpKind(e.kind))
  }

  function AddEntry(h: Live, e: Entry): Live {
    if e.nick == "" then h else
      Live(h.users[e.nick := FromEntry(e)], if IsOpKind(e.kind) then h.ops + [e.nick] else h.ops)
  }

  function FromList(es: seq<Entry>): Live {
    if es == [] then Live(map[], []) else AddEntry(FromList(es[..|es| - 1]), es[|es| - 1])
  }

  function Next(h: Live, m: Message): Live {
    match m
    case MyInfo(n, d) => h.(users := h.users[n := User(n, d, false)])
    case UserQuit(n) => h.(users := h.users - {n})
    case UserList(es) => FromList(es)
  }

  function Exec(run: seq<Message>): Live {
    if run == [] then Live(map[], []) else Next(Exec(run[..|run| - 1]), run[|run| - 1])
  }

  // ----- What the messages say, read backwards from the latest -----

  function LastEntry(es: seq<Entry>, n: Nick): Option<User> {
    if es == [] then None
    else if es[|es| - 1].nick == n != "" then
      var e := es[|es| - 1];
      Some(User(n, e.details, e.kind == "OP" || e.kind == "OP_ADMIN"))
    else LastEntry(es[..|es| - 1], n)
  }

  /** The last word on n: its own info, its departure, or the latest full list. */
  function Latest(run: seq<Message>, n: Nick): Option<User> {
    if run == [] then None else
      match run[|run| - 1]
      case MyInfo(m, d) => if m == n then Some(User(n, d, false)) else Latest(run[..|run| - 1], n)
      case UserQuit(m) => if m == n then None else Latest(run[..|run| - 1], n)
      case UserList(es) => LastEntry(es, n)
  }

  /** The entries of the latest full list, none before the first. */
  function LatestList(run: seq<Message>): seq<Entry> {
    if run == [] then []
    else if run[|run| - 1].UserList? then run[|run| - 1].entries
    else LatestList(run[..|run| - 1])
  }

  ghost predicate NamedOp(es: seq<Entry>, n: Nick) {
    n != "" && exists i | 0 <= i < |es| :: es[i].nick == n && (es[i].kind == "OP" || es[i].kind == "OP_ADMIN")
  }

  lemma {:induction false} ListSays(es: seq<Entry>, n: Nick)
    ensures n in FromList(es).users <==> LastEntry(es, n).Some?
    ensures n in FromList(es).users ==> FromList(es).users[n] == LastEntry(es, n).value && FromList(es).users[n].nick == n
    ensures n in FromList(es).ops <==> NamedOp(es, n)
    ensures LastEntry(es, n).Some? && LastEntry(es, n).value.isOp ==> NamedOp(es, n)
  {
    if es != [] {
      var k := |es| - 1;
      ListSays(es[..k], n);
      if NamedOp(es[..k], n) {
        var i :| 0 <= i < k && es[..k][i].nick == n && IsOpKind(es[..k][i].kind);
        assert es[i].nick == n;
      }
      if NamedOp(es, n) && !(es[k].nick == n && IsOpKind(es[k].kind)) {
        var i :| 0 <= i < |es| && es[i].nick == n && IsOpKind(es[i].kind);
        assert es[..k][i] == es[i];
      }
    }
  }

  /** After every sequence of messages the map holds, under each nick, exactly the last
      word on it, and the operator list is that of the latest full list. */
  lemma {:induction false} LiveIsLatest(run: seq<Message>, n: Nick)
    ensures n in Exec(run).users <==> Latest(run, n).Some?
    ensures n in Exec(run).users ==> Exec(run).users[n] == Latest(run, n).value && Exec(run).users[n].nick == n
    ensures n in Exec(run).ops <==> NamedOp(LatestList(run), n)
    ensures n in Exec(run).users && Exec(run).users[n].isOp ==> NamedOp(LatestList(run), n)
  {
    if run != [] {
      LiveIsLatest(run[..|run| - 1], n);
      if run[|run| - 1].UserList? {
        ListSays(run[|run| - 1].entries, n);
      }
    }
  }

  // ----- Agreement of the map and the list -----

  ghost predicate KeysAreNicks(h: Live) {
    forall n | n in h.users :: h.users[n].nick == n
  }

  ghost predicate FlaggedAreOps(h: Live) {
    forall n | n in h.users && h.users[n].isOp :: n in h.ops
  }

  predicate Flagged(h: Live, n: Nick) {
    n in h.users && h.users[n].isOp
  }

  ghost predicate Agree(h: Live) {
    forall n :: n in h.ops <==> Flagged(h, n)
  }

  ghost predicate Coherent(h: Live) {
    KeysAreNicks(h) && FlaggedAreOps(h)
  }

  /** Every reachable state: each key is the stored nick and every user flagged as an
      operator is in the operator list. */
  lemma AlwaysCoherent(run: seq<Message>)
    ensures Coherent(Exec(run))
  {
    forall n | n in Exec(run).users
      ensures Exec(run).users[n].nick == n && (Exec(run).users[n].isOp ==> n in Exec(run).ops)
    {
      LiveIsLatest(run, n);
    }
  }

  /** The converse, that listed operators are flagged, holds after a full list exactly
      when no operator entry is overridden by a later entry for the same nick. */
  lemma AgreementAfterList(run: seq<Message>, es: seq<Entry>)
    ensures Agree(Exec(run + [UserList(es)])) <==>
            forall i | 0 <= i < |es| && es[i].nick != "" && IsOpKind(es[i].kind) ::
              LastEntry(es, es[i].nick).Some? && LastEntry(es, es[i].nick).value.isOp
  {
    var h := Exec(run + [UserList(es)]);
    assert h == FromList(es);
    forall n
      ensures n in h.ops <==> NamedOp(es, n)
      ensures Flagged(h, n) <==> LastEntry(es, n).Some? && LastEntry(es, n).value.isOp
      ensures Flagged(h, n) ==> n in h.ops
    {
      ListSays(es, n);
    }
    if Agree(h) {
      forall i | 0 <= i < |es| && es[i].nick != "" && IsOpKind(es[i].kind)
        ensures LastEntry(es, es[i].nick).Some? && LastEntry(es, es[i].nick).value.isOp
      {
        assert NamedOp(es, es[i].nick);
        assert es[i].nick in h.ops && Flagged(h, es[i].nick);
      }
    }
  }

  lemma {:induction false} LastEntryOfUnique(es: seq<Entry>, i: nat)
    requires i < |es| && es[i].nick != ""
    requires forall j | i < j < |es| :: es[j].nick != es[i].nick
    ensures LastEntry(es, es[i].nick) == Some(FromEntry(es[i]))
  {
    if i < |es| - 1 {
      LastEntryOfUnique(es[..|es| - 1], i);
    }
  }

  /** In particular after any duplicate-free list. */
  lemma AgreementWithoutDuplicates(run: seq<Message>, es: seq<Entry>)
    requires forall i, j | 0 <= i < j < |es| :: es[i].nick != es[j].nick
    ensures Agree(Exec(run + [UserList(es)]))
  {
    AgreementAfterList(run, es);
    forall i | 0 <= i < |es| && es[i].nick != "" && IsOpKind(es[i].kind)
      ensures LastEntry(es, es[i].nick).Some? && LastEntry(es, es[i].nick).value.isOp
    {
      LastEntryOfUnique(es, i);
    }
  }

  /** A list that names an operator and then repeats the nick as an ordinary user: the
      nick stays in the operator list although the user is not flagged. */
  lemma OverriddenOperator(run: seq<Message>, n: Nick, d: Details)
    requires n != ""
    ensures var h := Exec(run + [UserList([Entry(n, "OP", d), Entry(n, "REGULAR", d)])]);
            n in h.ops && n in h.users && !h.users[n].isOp && !Agree(h)
  {
    var es := [Entry(n, "OP", d), Entry(n, "REGULAR", d)];
    ListSays(es, n);
    assert es[0].nick == n && IsOpKind(es[0].kind);
    assert LastEntry(es, n) == Some(User(n, d, false));
    assert Exec(run + [UserList(es)]) == FromList(es);
  }

  /** Between full lists it survives exactly the messages that are not about a listed
      operator: an operator's own info clears its flag until the next list. */
  lemma AgreementStep(h: Live, m: Message)
    requires Agree(h) && !m.UserList?
    ensures Agree(Next(h, m)) <==> m.nick !in h.ops
  {
    var t := Next(h, m);
    assert t.ops == h.ops && !Flagged(t, m.nick);
    forall n | n != m.nick
      ensures Flagged(t, n) <==> Flagged(h, n)
    {
    }
    assert m.nick in h.ops <==> Flagged(h, m.nick);
  }

  /** n's own info or departure came after the latest full list. */
  predicate SpokeSince(run: seq<Message>, n: Nick) {
    run != [] && var m := run[|run| - 1];
    !m.UserList? && (m.nick == n || SpokeSince(run[..|run| - 1], n))
  }

  predicate StillFlagged(run: seq<Message>, n: Nick) {
    var last := LastEntry(LatestList(run), n);
    last.Some? && last.value.isOp && !SpokeSince(run, n)
  }

  lemma {:induction false} FlagIsFromList(run: seq<Message>, n: Nick)
    ensures Latest(run, n).Some? && Latest(run, n).value.isOp <==> StillFlagged(run, n)
  {
    if run != [] && !run[|run| - 1].UserList? {
      FlagIsFromList(run[..|run| - 1], n);
    }
  }

  /** Over whole runs: listed operators are exactly the flagged ones if and only if, for
      every operator the latest full list names, its last entry there says so and it has
      sent no info and not left since. */
  lemma AgreementIff(run: seq<Message>)
    ensures Agree(Exec(run)) <==> forall n | NamedOp(LatestList(run), n) :: StillFlagged(run, n)
  {
    var h, es := Exec(run), LatestList(run);
    forall n
      ensures n in h.ops <==> NamedOp(es, n)
      ensures Flagged(h, n) <==> StillFlagged(run, n)
      ensures StillFlagged(run, n) ==> NamedOp(es, n)
    {
      LiveIsLatest(run, n);
      FlagIsFromList(run, n);
    }
    if Agree(h) {
      forall n | NamedOp(es, n)
        ensures StillFlagged(run, n)
      {
        assert n in h.ops && Flagged(h, n);
      }
    }
  }

  /** An online flagged operator other than the sender and the relay itself. */
  predicate Recipient(h: Live, relay: Nick, from: Nick, n: Nick) {
    Flagged(h, n) && n != relay && n != from
  }

  /** After any run, the operator chat reaches exactly the operators by their last entry in
      the latest list who have sent no info and not left since, except sender and relay. */
  lemma RecipientIff(run: seq<Message>, relay: Nick, from: Nick, n: Nick)
    ensures Recipient(Exec(run), relay, from, n) <==> StillFlagged(run, n) && n != relay && n != from
  {
    LiveIsLatest(run, n);
    FlagIsFromList(run, n);
  }

  // ----- Order on nicks -----

  predicate Less(a: string, b: string) {
    b != "" && (a == "" || a[0] < b[0] || (a[0] == b[0] && Less(a[1..], b[1..])))
  }

  lemma {:induction false} LessTransitive(a: string, b: string, c: string)
    requires Less(a, b) && Less(b, c)
    ensures Less(a, c)
  {
    if a != "" && a[0] == b[0] == c[0] {
      LessTransitive(a[1..], b[1..], c[1..]);
    }
  }

  lemma {:induction false} LessTotal(a: string, b: string)
    ensures Less(a, b) || Less(b, a) || a == b
    ensures !(Less(a, b) && Less(b, a)) && !Less(a, a)
  {
    if a != "" {
      LessTotal(a[1..], a[1..]);
      if b != "" && a[0] == b[0] {
        LessTotal(a[1..], b[1..]);
        assert a == [a[0]] + a[1..] && b == [b[0]] + b[1..];
      }
    }
  }

  /** The order is lexicographic, ascending: a is a proper prefix of b, or smaller where
      they first differ. */
  lemma {:induction false} LessIsLexicographic(a: string, b: string)
    ensures Less(a, b) <==>
            exists k :: 0 <= k <= |a| && k < |b| && a[..k] == b[..k] && (k == |a| || a[k] < b[k])
  {
    if a != "" && b != "" && a[0] == b[0] {
      LessIsLexicographic(a[1..], b[1..]);
      if k :| 0 <= k <= |a[1..]| && k < |b[1..]| && a[1..][..k] == b[1..][..k] && (k == |a[1..]| || a[1..][k] < b[1..][k]) {
        assert a[..k + 1] == [a[0]] + a[1..][..k] && b[..k + 1] == [b[0]] + b[1..][..k];
        assert k + 1 == |a| || a[k + 1] < b[k + 1];
      }
      if k :| 0 <= k <= |a| && k < |b| && a[..k] == b[..k] && (k == |a| || a[k] < b[k]) {
        assert k > 0;
        assert a[1..][..k - 1] == a[..k][1..] && b[1..][..k - 1] == b[..k][1..];
      }
    } else if a == "" && b != "" {
      assert a[..0] == b[..0];
    } else if a != "" && b != "" && a[0] < b[0] {
      assert a[..0] == b[..0];
    } else {
      forall k | 0 < k <= |a| && k < |b|
        ensures a[..k] != b[..k]
      {
        assert a[..k][0] == a[0] && b[..k][0] == b[0];
      }
    }
  }

  ghost predicate Sorted(s: seq<User>) {
    forall i, j | 0 <= i < j < |s| :: !Less(s[j].nick, s[i].nick)
  }

  ghost predicate StrictlySorted(s: seq<User>) {
    forall i, j | 0 <= i < j < |s| :: Less(s[i].nick, s[j].nick)
  }

  // ----- Listings and pages -----

  /** All users, each once, in strict nick order. */
  ghost predicate IsListing(users: map<Nick, User>, s: seq<User>) {
    StrictlySorted(s) && forall u :: u in s <==> u in users.Values
  }

  lemma NoMembers(s: seq<User>)
    requires forall u :: u !in s
    ensures s == []
  {
    if s != [] {
      HeadIsMember(s);
      assert false;
    }
  }

  lemma HeadIsMember(s: seq<User>)
    requires s != []
    ensures s[0] in s
  {
  }

  /** A map has at most one listing. */
  lemma {:induction false} StrictOrderIsUnique(a: seq<User>, b: seq<User>)
    requires StrictlySorted(a) && StrictlySorted(b) && forall u :: u in a <==> u in b
    ensures a == b
  {
    if a == [] {
      NoMembers(b);
    } else {
      assert a[0] in b && b != [];
      assert b[0] in a;
      var i :| 0 <= i < |b| && b[i] == a[0];
      var j :| 0 <= j < |a| && a[j] == b[0];
      LessTotal(a[0].nick, b[0].nick);
      assert i == 0 || j == 0;
      assert a[0] == b[0];
      forall u
        ensures u in a[1..] <==> u in b[1..]
      {
        TailMember(a, u);
        TailMember(b, u);
      }
      StrictOrderIsUnique(a[1..], b[1..]);
      assert a == [a[0]] + a[1..] && b == [b[0]] + b[1..];
    }
  }

  lemma TailMember(s: seq<User>, u: User)
    requires StrictlySorted(s) && s != []
    ensures u in s[1..] <==> u in s && u != s[0]
  {
    LessTotal(s[0].nick, s[0].nick);
    if u in s && u != s[0] {
      var i :| 0 <= i < |s| && s[i] == u;
      assert s[1..][i - 1] == u;
    }
  }

  function Slice(s: seq<User>, offset: nat, limit: nat): seq<User> {
    s[Min(offset, |s|)..Min(offset + limit, |s|)]
  }

  function ClampLimit(limit: int): nat {
    if limit < 1 then 1 else if limit > 1000 then 1000 else limit
  }

  function ClampOffset(offset: int): nat {
    if offset < 0 then 0 else offset
  }

  /** A limit outside 1 to 1000 is taken as the nearer bound, a negative offset as 0, so a
      page has that many users or as many as are left. */
  lemma PageSize(s: seq<User>, limit: int, offset: int)
    ensures |Slice(s, ClampOffset(offset), ClampLimit(limit))| ==
            var wanted, start := if limit <= 1 then 1 else if limit >= 1000 then 1000 else limit,
                                 if offset <= 0 then 0 else offset;
            if start >= |s| then 0 else if |s| - start <= wanted then |s| - start else wanted
  {
  }

  /** What one request for a page promises. */
  ghost predicate IsPage(users: map<Nick, User>, limit: int, offset: int, page: seq<User>) {
    forall s | IsListing(users, s) :: page == Slice(s, ClampOffset(offset), ClampLimit(limit))
  }

  function Flatten(pages: seq<seq<User>>): seq<User> {
    if pages == [] then [] else Flatten(pages[..|pages| - 1]) + pages[|pages| - 1]
  }

  /** Where page k starts. */
  function PageStart(k: nat, L: nat): nat {
    if k == 0 then 0 else PageStart(k - 1, L) + L
  }

  lemma {:induction false} PageStartIsProduct(k: nat, L: nat)
    ensures PageStart(k, L) == k * L
  {
    if k > 0 {
      PageStartIsProduct(k - 1, L);
      assert k * L == (k - 1) * L + L;
    }
  }

  ghost predicate AreSlices(s: seq<User>, L: nat, pages: seq<seq<User>>) {
    forall k | 0 <= k < |pages| :: pages[k] == Slice(s, PageStart(k, L), L)
  }

  lemma {:induction false} SlicesAreAPrefix(s: seq<User>, L: nat, pages: seq<seq<User>>)
    requires AreSlices(s, L, pages)
    ensures Flatten(pages) == s[..Min(PageStart(|pages|, L), |s|)]
  {
    if pages != [] {
      var k := |pages| - 1;
      SlicesAreAPrefix(s, L, pages[..k]);
      SliceExtends(s, PageStart(k, L), L);
    }
  }

  lemma SliceExtends(s: seq<User>, a: nat, L: nat)
    ensures s[..Min(a, |s|)] + Slice(s, a, L) == s[..Min(a + L, |s|)]
  {
  }

  lemma SlicesCover(s: seq<User>, L: nat, pages: seq<seq<User>>)
    requires AreSlices(s, L, pages) && |s| <= PageStart(|pages|, L)
    ensures Flatten(pages) == s
  {
    SlicesAreAPrefix(s, L, pages);
  }

  /** The answers to requests at offsets 0, L, 2L, ... for the clamped limit L. */
  ghost predicate ArePages(users: map<Nick, User>, limit: int, pages: seq<seq<User>>) {
    forall k | 0 <= k < |pages| :: IsPage(users, limit, k * ClampLimit(limit), pages[k])
  }

  lemma AllSlices(users: map<Nick, User>, s: seq<User>, limit: int, pages: seq<seq<User>>)
    requires IsListing(users, s) && ArePages(users, limit, pages)
    ensures AreSlices(s, ClampLimit(limit), pages)
  {
    forall k | 0 <= k < |pages|
      ensures pages[k] == Slice(s, PageStart(k, ClampLimit(limit)), ClampLimit(limit))
    {
      PageStartIsProduct(k, ClampLimit(limit));
      assert IsPage(users, limit, k * ClampLimit(limit), pages[k]);
    }
  }

  /** Paging partitions the users: pages requested one after the other at offsets 0, L,
      2L, ... until past the end, each collecting the map in whatever order, together
      are the listing of all users, each exactly once. */
  lemma {:induction false} PagesPartition(users: map<Nick, User>, s: seq<User>, limit: int, pages: seq<seq<User>>)
    requires IsListing(users, s)
    requires ArePages(users, limit, pages)
    requires |s| <= |pages| * ClampLimit(limit)
    ensures Flatten(pages) == s
  {
    PageStartIsProduct(|pages|, ClampLimit(limit));
    AllSlices(users, s, limit, pages);
    SlicesCover(s, ClampLimit(limit), pages);
  }

  // ----- Multisets of users without repeated nicks -----

  ghost predicate DistinctNicks(s: seq<User>) {
    forall i, j | 0 <= i < j < |s| :: s[i].nick != s[j].nick
  }

  lemma {:induction false} AtMostOnce(s: seq<User>, u: User)
    requires DistinctNicks(s)
    ensures multiset(s)[u] <= 1
  {
    if s != [] {
      var k := |s| - 1;
      AtMostOnce(s[..k], u);
      assert s == s[..k] + [s[k]];
      if s[k] == u {
        forall i | 0 <= i < k
          ensures s[..k][i] != u
        {
        }
      }
    }
  }

  lemma SortedDistinctIsStrict(s: seq<User>, v: seq<User>)
    requires Sorted(s) && multiset(s) == multiset(v) && DistinctNicks(v)
    ensures StrictlySorted(s)
  {
    forall i, j | 0 <= i < j < |s|
      ensures Less(s[i].nick, s[j].nick)
    {
      assert s == s[..j] + s[j..];
      assert s[..j][i] == s[i] && s[j..][0] == s[j];
      AtMostOnce(v, s[j]);
      assert multiset(s)[s[j]] == multiset(s[..j])[s[j]] + multiset(s[j..])[s[j]];
      assert s[i] in multiset(s) && s[j] in multiset(s);
      var a :| 0 <= a < |v| && v[a] == s[i];
      var b :| 0 <= b < |v| && v[b] == s[j];
      LessTotal(s[i].nick, s[j].nick);
    }
  }

  // ----- The state object -----

  class HubState {
    var users: map<Nick, User>
    var ops: seq<Nick>
    var queue: seq<Pm>

    function State(): Live
      reads this
    {
      Live(users, ops)
    }

    constructor ()
      ensures State() == Exec([]) && queue == []
    {
      users, ops, queue := map[], [], [];
    }

    method OnMyInfo(nick: Nick, details: Details)
      modifies `users
      ensures State() == Next(old(State()), MyInfo(nick, details))
    {
      users := users[nick := User(nick, details, false)];
    }

    method OnUserQuit(nick: Nick)
      modifies `users
      ensures State() == Next(old(State()), UserQuit(nick))
    {
      users := users - {nick};
    }

    method OnUserList(entries: seq<Entry>)
      modifies `users, `ops
      ensures State() == Next(old(State()), UserList(entries))
    {
      users, ops := map[], [];
      for i := 0 to |entries|
        invariant State() == FromList(entries[..i])
      {
        var e := entries[i];
        assert entries[..i + 1][..i] == entries[..i];
        if e.nick == "" {
          continue;
        }
        var isOp := e.kind == "OP" || e.kind == "OP_ADMIN";
        if isOp {
          ops := ops + [e.nick];
        }
        users := users[e.nick := User(e.nick, e.details, isOp)];
      }
      assert entries[..|entries|] == entries;
    }

    /** The operator chat: a message to the relay nick goes once to each recipient and
        to nobody else, hence only to members of the operator list. */
    method RelayPm(relay: Nick, from: Nick, to: Nick, message: string)
      requires Coherent(State())
      modifies `queue
      ensures to != relay ==> queue == old(queue)
      ensures to == relay ==>
                var k := |old(queue)|;
                k <= |queue| && queue[..k] == old(queue) &&
                (forall i | k <= i < |queue| ::
                   Recipient(State(), relay, from, queue[i].to) && queue[i].to in ops &&
                   queue[i] == Pm(relay, queue[i].to, "<" + from + "> " + message)) &&
                (forall i, j | k <= i < j < |queue| :: queue[i].to != queue[j].to) &&
                (forall n | Recipient(State(), relay, from, n) :: exists i :: k <= i < |queue| && queue[i].to == n)
    {
      if to != relay {
        return;
      }
      var text := "<" + from + "> " + message;
      ghost var k, told := |queue|, [];
      var left := users.Keys;
      while left != {}
        invariant left <= users.Keys
        invariant |queue| == k + |told| && queue[..k] == old(queue)
        invariant forall i | 0 <= i < |told| :: queue[k + i] == Pm(relay, told[i], text)
        invariant forall i | 0 <= i < |told| :: Recipient(State(), relay, from, told[i]) && told[i] !in left
        invariant forall i, j | 0 <= i < j < |told| :: told[i] != told[j]
        invariant forall n | Recipient(State(), relay, from, n) && n !in left :: n in told
        decreases left
      {
        var key :| key in left;
        left := left - {key};
        var user := users[key];
        if !user.isOp || user.nick == relay || user.nick == from {
          continue;
        }
        queue := queue + [Pm(relay, user.nick, text)];
        told := told + [key];
      }
      assert forall i | k <= i < |queue| :: queue[i] == Pm(relay, told[i - k], text);
    }

    /** GET /api/users: collect the map in any order, sort, take a page. */
    method ListUsers(limit: int, offset: int) returns (page: seq<User>, total: nat)
      requires Coherent(State())
      ensures IsPage(users, limit, offset, page)
      ensures exists s :: IsListing(users, s) && |s| == total
      ensures total == |users|
    {
      var collected := Collect();
      var result := SortByNick(collected);
      SortedDistinctIsStrict(result, collected);
      forall u
        ensures u in result <==> u in users.Values
      {
        assert u in multiset(result) <==> u in multiset(collected);
      }
      assert IsListing(users, result);
      assert |multiset(result)| == |multiset(collected)|;
      total := |result|;
      var from := Min(ClampOffset(offset), |result|);
      var to := Min(ClampOffset(offset) + ClampLimit(limit), |result|);
      page := result[from..to];
      forall s | IsListing(users, s)
        ensures page == Slice(s, ClampOffset(offset), ClampLimit(limit))
      {
        StrictOrderIsUnique(result, s);
      }
    }

    method Collect() returns (v: seq<User>)
      requires Coherent(State())
      ensures |v| == |users| && DistinctNicks(v)
      ensures forall u :: u in v <==> u in users.Values
    {
      v := [];
      var left := users.Keys;
      while left != {}
        invariant left <= users.Keys && |v| + |left| == |users|
        invariant forall i | 0 <= i < |v| :: v[i].nick in users && v[i].nick !in left && users[v[i].nick] == v[i]
        invariant forall n | n in users && n !in left :: users[n] in v
        invariant DistinctNicks(v)
        decreases left
      {
        var key :| key in left;
        left := left - {key};
        v := v + [users[key]];
      }
      forall u
        ensures u in v <==> u in users.Values
      {
        if u in v {
          var i :| 0 <= i < |v| && v[i] == u;
          assert users[v[i].nick] == u;
        }
      }
    }

    static method SortByNick(v: seq<User>) returns (s: seq<User>)
      ensures Sorted(s) && multiset(s) == multiset(v)
    {
      s := [];
      for i := 0 to |v|
        invariant Sorted(s) && multiset(s) == multiset(v[..i])
      {
        s := Insert(s, v[i]);
        assert v[..i + 1] == v[..i] + [v[i]];
      }
      assert v[..|v|] == v;
    }

    static method Insert(s: seq<User>, u: User) returns (r: seq<User>)
      requires Sorted(s)
      ensures Sorted(r) && multiset(r) == multiset(s) + multiset{u}
    {
      var i := |s|;
      while i > 0 && Less(u.nick, s[i - 1].nick)
        invariant 0 <= i <= |s|
        invariant forall j | i <= j < |s| :: Less(u.nick, s[j].nick)
      {
        i := i - 1;
      }
      r := s[..i] + [u] + s[i..];
      InsertKeeps(s, u, i);
    }
  }

  lemma InsertKeeps(s: seq<User>, u: User, i: nat)
    requires Sorted(s) && i <= |s|
    requires i > 0 ==> !Less(u.nick, s[i - 1].nick)
    requires forall j | i <= j < |s| :: Less(u.nick, s[j].nick)
    ensures var r := s[..i] + [u] + s[i..];
            Sorted(r) && multiset(r) == multiset(s) + multiset{u}
  {
    var r := s[..i] + [u] + s[i..];
    InsertMultiset(s, u, i);
    forall a, b | 0 <= a < b < |r|
      ensures !Less(r[b].nick, r[a].nick)
    {
      InsertOrder(s, u, i, a, b);
    }
  }

  lemma InsertMultiset(s: seq<User>, u: User, i: nat)
    requires i <= |s|
    ensures multiset(s[..i] + [u] + s[i..]) == multiset(s) + multiset{u}
  {
    assert s == s[..i] + s[i..];
  }

  lemma InsertOrder(s: seq<User>, u: User, i: nat, a: nat, b: nat)
    requires Sorted(s) && i <= |s| && a < b <= |s|
    requires i > 0 ==> !Less(u.nick, s[i - 1].nick)
    requires forall j | i <= j < |s| :: Less(u.nick, s[j].nick)
    ensures var r := s[..i] + [u] + s[i..]; !Less(r[b].nick, r[a].nick)
  {
    var r := s[..i] + [u] + s[i..];
    assert forall j | 0 <= j <= |s| :: r[j] == if j < i then s[j] else if j == i then u else s[j - 1];
    if b == i {
      LessTotal(s[a].nick, s[i - 1].nick);
      if a < i - 1 && Less(u.nick, s[a].nick) {
        if s[a].nick != s[i - 1].nick {
          assert Less(s[a].nick, s[i - 1].nick);
          LessTransitive(u.nick, s[a].nick, s[i - 1].nick);
        }
      }
    } else if a == i {
      LessTotal(u.nick, s[b - 1].nick);
    }
  }
}
