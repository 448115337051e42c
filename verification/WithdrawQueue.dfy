/** The withdraw queue derived from events (dashboard/src/api/indexer.ts,
    `fetchWithdrawQueue`) against a replay of the event log. */
module WithdrawQueue {

  const EVENT_SCAN_LIMIT: nat := 1000

  /** A withdraw request, known by its global sequence number. */
  datatype Entry = Entry(globalSeq: nat, shares: nat, basis: nat, requestedAtMs: nat)

  datatype Event =
    | Requested(vault: string, entry: Entry)
    | Fulfilled(vault: string, globalSeq: nat)
    | Redeemed(vault: string, fromQueue: bool, globalSeq: nat)

  type Log = seq<Event>

  datatype View = View(pending: seq<Entry>, fulfilledCount: nat, settledCount: nat, truncated: bool)

  // ----- the source's computation -----

  function Without(requested: seq<Entry>, done: set<nat>): seq<Entry> {
    if requested == [] then []
    else (if requested[0].globalSeq in done then [] else [requested[0]]) + Without(requested[1..], done)
  }

  function Insert(e: Entry, s: seq<Entry>): seq<Entry> {
    if s == [] || e.globalSeq <= s[0].globalSeq then [e] + s else [s[0]] + Insert(e, s[1..])
  }

  /** `sort` by sequence number. */
  function Sort(s: seq<Entry>): seq<Entry> { if s == [] then [] else Insert(s[0], Sort(s[1..])) }

  function SetOf(s: seq<nat>): set<nat> { set x | x in s }

  /** The view computed from the three query results. */
  function QueueView(requested: seq<Entry>, fulfilled: seq<nat>, settled: seq<nat>): View {
    View(Sort(Without(requested, SetOf(fulfilled + settled))), |fulfilled|, |settled|,
         |requested| >= EVENT_SCAN_LIMIT || |fulfilled| >= EVENT_SCAN_LIMIT || |settled| >= EVENT_SCAN_LIMIT)
  }

  // ----- the log and its queries -----

  function Requests(log: Log, v: string): seq<Entry> {
    if log == [] then [] else
    var e := log[|log| - 1];
    Requests(log[..|log| - 1], v) + if e.Requested? && e.vault == v then [e.entry] else []
  }
  function Fulfilments(log: Log, v: string): seq<nat> {
    if log == [] then [] else
    var e := log[|log| - 1];
    Fulfilments(log[..|log| - 1], v) + if e.Fulfilled? && e.vault == v then [e.globalSeq] else []
  }
  function Redemptions(log: Log, v: string): seq<nat> {
    if log == [] then [] else
    var e := log[|log| - 1];
    Redemptions(log[..|log| - 1], v) + if e.Redeemed? && e.fromQueue && e.vault == v then [e.globalSeq] else []
  }

  /** What a query may return: at most the limit, in any order, of what the log holds. */
  ghost predicate Returned<T>(r: seq<T>, all: seq<T>) {
    multiset(r) <= multiset(all) && |r| == if |all| <= EVENT_SCAN_LIMIT then |all| else EVENT_SCAN_LIMIT
  }

  /** The queue as the vault keeps it: requests join, completions leave. */
  function Replay(log: Log, v: string): seq<Entry> {
    if log == [] then [] else
    var before := Replay(log[..|log| - 1], v);
    match log[|log| - 1]
    case Requested(u, e) => if u == v then before + [e] else before
    case Fulfilled(u, n) => if u == v then Without(before, {n}) else before
    case Redeemed(u, fromQueue, n) => if u == v && fromQueue then Without(before, {n}) else before
  }

  ghost predicate HasSeq(s: seq<Entry>, n: nat) { exists e :: e in s && e.globalSeq == n }

  /** Each number is requested once, and completed at most once, after its request. */
  ghost predicate ValidLog(log: Log, v: string) {
    log == [] ||
    (var before := log[..|log| - 1];
     && ValidLog(before, v)
     && match log[|log| - 1]
        case Requested(u, e) => u == v ==> !HasSeq(Requests(before, v), e.globalSeq)
        case Fulfilled(u, n) => u == v ==> HasSeq(Replay(before, v), n)
        case Redeemed(u, fromQueue, n) => u == v && fromQueue ==> HasSeq(Replay(before, v), n))
  }

  // ----- sorted lists -----

  predicate Ascending(s: seq<Entry>) {
    s != [] ==> (forall e :: e in s[1..] ==> s[0].globalSeq < e.globalSeq) && Ascending(s[1..])
  }

  /** No entry twice, and no number on two entries. */
  ghost predicate Keyed(s: seq<Entry>) {
    && (forall e :: multiset(s)[e] <= 1)
    && (forall d, e :: d in s && e in s && d.globalSeq == e.globalSeq ==> d == e)
  }

  lemma {:induction false} InsertAscending(e: Entry, s: seq<Entry>)
    requires Ascending(s) && !HasSeq(s, e.globalSeq)
    ensures Ascending(Insert(e, s)) && multiset(Insert(e, s)) == multiset(s) + multiset{e}
    ensures forall x :: x in Insert(e, s) <==> x in s || x == e
  {
    if s != [] {
      assert s == [s[0]] + s[1..] && s[0] in s;
      assert forall x :: x in s <==> x == s[0] || x in s[1..];
    }
    if s == [] || e.globalSeq <= s[0].globalSeq {
      assert ([e] + s)[1..] == s;
    } else {
      InsertAscending(e, s[1..]);
      assert ([s[0]] + Insert(e, s[1..]))[1..] == Insert(e, s[1..]);
    }
  }

  lemma KeyedTail(s: seq<Entry>)
    requires Keyed(s) && s != []
    ensures Keyed(s[1..]) && !HasSeq(s[1..], s[0].globalSeq)
  {
    var t := s[1..];
    assert s == [s[0]] + t;
    assert multiset(s) == multiset{s[0]} + multiset(t);
    forall e ensures multiset(t)[e] <= 1 { assert multiset(s)[e] <= 1; }
    assert multiset(s)[s[0]] == 1 + multiset(t)[s[0]];
    assert s[0] in s && s[0] !in t && forall x :: x in t ==> x in s;
  }

  lemma {:induction false} SortAscending(s: seq<Entry>)
    requires Keyed(s)
    ensures Ascending(Sort(s)) && multiset(Sort(s)) == multiset(s)
    ensures forall x :: x in Sort(s) <==> x in s
  {
    if s != [] {
      KeyedTail(s);
      SortAscending(s[1..]);
      assert s == [s[0]] + s[1..];
      InsertAscending(s[0], Sort(s[1..]));
    }
  }

  /** Ascending lists with the same members are the same list. */
  lemma {:induction false} AscendingUnique(a: seq<Entry>, b: seq<Entry>)
    requires Ascending(a) && Ascending(b) && forall x :: x in a <==> x in b
    ensures a == b
  {
    if a != [] { assert a[0] in b; }
    if b != [] { assert b[0] in a; }
    if a != [] && b != [] {
      HeadsAgree(a, b);
      AscendingUnique(a[1..], b[1..]);
      assert a == [a[0]] + a[1..] && b == [b[0]] + b[1..];
    }
  }

  lemma HeadsAgree(a: seq<Entry>, b: seq<Entry>)
    requires Ascending(a) && Ascending(b) && a != [] && b != [] && forall x :: x in a <==> x in b
    ensures a[0] == b[0] && forall x :: x in a[1..] <==> x in b[1..]
  {
    assert a == [a[0]] + a[1..] && b == [b[0]] + b[1..];
    assert forall x :: x in a <==> x == a[0] || x in a[1..];
    assert forall x :: x in b <==> x == b[0] || x in b[1..];
    assert a[0] in a && b[0] in b;
  }

  // ----- filtering -----

  lemma {:induction false} WithoutMembers(s: seq<Entry>, done: set<nat>)
    ensures forall e :: e in Without(s, done) <==> e in s && e.globalSeq !in done
    ensures multiset(Without(s, done)) <= multiset(s)
  {
    if s != [] {
      WithoutMembers(s[1..], done);
      assert s == [s[0]] + s[1..];
    }
  }

  lemma WithoutKeyed(s: seq<Entry>, done: set<nat>)
    requires Keyed(s)
    ensures Keyed(Without(s, done))
  {
    WithoutMembers(s, done);
  }

  // ----- the log -----

  lemma SnocKeyed(s: seq<Entry>, e: Entry)
    requires Keyed(s) && !HasSeq(s, e.globalSeq)
    ensures Keyed(s + [e])
  {
    assert e !in s;
    assert multiset(s + [e]) == multiset(s) + multiset{e};
  }

  lemma {:induction false} RequestsKeyed(log: Log, v: string)
    requires ValidLog(log, v)
    ensures Keyed(Requests(log, v))
  {
    if log != [] {
      var before, e := log[..|log| - 1], log[|log| - 1];
      RequestsKeyed(before, v);
      if e.Requested? && e.vault == v {
        SnocKeyed(Requests(before, v), e.entry);
      } else {
        assert Requests(log, v) == Requests(before, v);
      }
    }
  }

  ghost predicate Done(log: Log, v: string, n: nat) { n in Fulfilments(log, v) || n in Redemptions(log, v) }

  /** The replayed queue is the requested-but-not-completed entries; only requested numbers are completed. */
  lemma {:induction false} ReplayMembers(log: Log, v: string)
    requires ValidLog(log, v)
    ensures forall e :: e in Replay(log, v) <==> e in Requests(log, v) && !Done(log, v, e.globalSeq)
    ensures forall n :: Done(log, v, n) ==> HasSeq(Requests(log, v), n)
  {
    if log != [] {
      ReplayMembers(log[..|log| - 1], v);
      if log[|log| - 1].vault == v {
        if log[|log| - 1].Requested? {
          RequestJoins(log, v);
        } else if log[|log| - 1].Redeemed? && !log[|log| - 1].fromQueue {
          OtherEvent(log, v);
        } else {
          CompletionLeaves(log, v);
        }
      } else {
        OtherEvent(log, v);
      }
    }
  }

  /** What `ReplayMembers` says of one log. */
  ghost predicate Agrees(log: Log, v: string) {
    && (forall e :: e in Replay(log, v) <==> e in Requests(log, v) && !Done(log, v, e.globalSeq))
    && (forall n :: Done(log, v, n) ==> HasSeq(Requests(log, v), n))
  }

  lemma OtherEvent(log: Log, v: string)
    requires log != [] && Agrees(log[..|log| - 1], v)
    requires var e := log[|log| - 1]; e.vault != v || (e.Redeemed? && !e.fromQueue)
    ensures Agrees(log, v)
  {
    var before := log[..|log| - 1];
    assert Requests(log, v) == Requests(before, v) && Replay(log, v) == Replay(before, v);
    assert Fulfilments(log, v) == Fulfilments(before, v) && Redemptions(log, v) == Redemptions(before, v);
    hide Requests, Replay, Fulfilments, Redemptions;
  }

  lemma RequestParts(log: Log, v: string)
    requires log != [] && ValidLog(log, v) && log[|log| - 1].Requested? && log[|log| - 1].vault == v
    ensures var before, e := log[..|log| - 1], log[|log| - 1].entry;
            && Requests(log, v) == Requests(before, v) + [e] && Replay(log, v) == Replay(before, v) + [e]
            && Fulfilments(log, v) == Fulfilments(before, v) && Redemptions(log, v) == Redemptions(before, v)
            && !HasSeq(Requests(before, v), e.globalSeq)
  {
  }

  lemma RequestJoins(log: Log, v: string)
    requires log != [] && ValidLog(log, v) && Agrees(log[..|log| - 1], v)
    requires log[|log| - 1].Requested? && log[|log| - 1].vault == v
    ensures Agrees(log, v)
  {
    var before, e := log[..|log| - 1], log[|log| - 1].entry;
    hide Requests, Replay, Fulfilments, Redemptions, ValidLog;
    RequestParts(log, v);
    assert !Done(log, v, e.globalSeq);
    assert forall x :: x in Requests(log, v) <==> x in Requests(before, v) || x == e;
    assert forall n :: HasSeq(Requests(before, v), n) ==> HasSeq(Requests(log, v), n);
  }

  lemma CompletionDone(log: Log, v: string)
    requires log != []
    requires var e := log[|log| - 1]; e.vault == v && !e.Requested? && (e.Redeemed? ==> e.fromQueue)
    ensures forall m :: Done(log, v, m) <==> Done(log[..|log| - 1], v, m) || m == log[|log| - 1].globalSeq
  {
    var before, n := log[..|log| - 1], log[|log| - 1].globalSeq;
    if log[|log| - 1].Fulfilled? {
      assert Fulfilments(log, v) == Fulfilments(before, v) + [n] && Redemptions(log, v) == Redemptions(before, v);
    } else {
      assert Fulfilments(log, v) == Fulfilments(before, v) && Redemptions(log, v) == Redemptions(before, v) + [n];
    }
  }

  lemma CompletionLeaves(log: Log, v: string)
    requires log != [] && ValidLog(log, v) && Agrees(log[..|log| - 1], v)
    requires var e := log[|log| - 1]; e.vault == v && !e.Requested? && (e.Redeemed? ==> e.fromQueue)
    ensures Agrees(log, v)
  {
    var before, n := log[..|log| - 1], log[|log| - 1].globalSeq;
    hide Requests, Replay, Fulfilments, Redemptions, ValidLog, Without, Done;
    WithoutMembers(Replay(before, v), {n});
    CompletionParts(log, v);
    CompletionDone(log, v);
    assert HasSeq(Requests(before, v), n);
  }

  lemma CompletionParts(log: Log, v: string)
    requires log != [] && ValidLog(log, v)
    requires var e := log[|log| - 1]; e.vault == v && !e.Requested? && (e.Redeemed? ==> e.fromQueue)
    ensures var before, n := log[..|log| - 1], log[|log| - 1].globalSeq;
            && Requests(log, v) == Requests(before, v) && Replay(log, v) == Without(Replay(before, v), {n})
            && HasSeq(Replay(before, v), n)
  {
  }

  lemma {:induction false} ReplayKeyed(log: Log, v: string)
    requires ValidLog(log, v)
    ensures Keyed(Replay(log, v))
  {
    if log != [] {
      var before, last := log[..|log| - 1], log[|log| - 1];
      ReplayKeyed(before, v);
      ReplayMembers(before, v);
      if last.Requested? {
        if last.vault == v { SnocKeyed(Replay(before, v), last.entry); }
      } else {
        WithoutKeyed(Replay(before, v), {last.globalSeq});
      }
    }
  }

  // ----- complete query results -----

  lemma MultisetFull<T>(a: multiset<T>, b: multiset<T>)
    requires a <= b && |a| == |b|
    ensures a == b
  {
    assert |b - a| == 0;
    assert b == a + (b - a);
  }

  lemma ReturnedAll<T>(r: seq<T>, all: seq<T>)
    requires Returned(r, all) && (|r| < EVENT_SCAN_LIMIT || |all| <= EVENT_SCAN_LIMIT)
    ensures multiset(r) == multiset(all) && forall x :: x in r <==> x in all
  {
    assert |multiset(r)| == |r| && |multiset(all)| == |all|;
    MultisetFull(multiset(r), multiset(all));
    assert forall x :: x in r <==> x in multiset(r);
  }

  lemma SameKeyed(a: seq<Entry>, b: seq<Entry>)
    requires multiset(a) == multiset(b) && Keyed(b)
    ensures Keyed(a)
  {
    assert forall x :: x in a <==> x in multiset(a);
  }

  /** If nothing was cut off, the view's pending list is the replayed queue in ascending order,
      whatever order the queries answered in. */
  lemma ViewIsReplay(log: Log, v: string, requested: seq<Entry>, fulfilled: seq<nat>, settled: seq<nat>)
    requires ValidLog(log, v)
    requires Returned(requested, Requests(log, v)) && Returned(fulfilled, Fulfilments(log, v))
    requires Returned(settled, Redemptions(log, v))
    ensures var view := QueueView(requested, fulfilled, settled);
            !view.truncated ==>
              && view.fulfilledCount == |Fulfilments(log, v)| && view.settledCount == |Redemptions(log, v)|
              && |view.pending| + view.fulfilledCount + view.settledCount == |Requests(log, v)|
              && view.pending == Sort(Replay(log, v)) && Ascending(view.pending)
              && forall e :: e in view.pending <==> e in Requests(log, v) && !Done(log, v, e.globalSeq)
  {
    var view := QueueView(requested, fulfilled, settled);
    if !view.truncated {
      ReturnedAll(requested, Requests(log, v));
      ReturnedAll(fulfilled, Fulfilments(log, v));
      ReturnedAll(settled, Redemptions(log, v));
      RequestsKeyed(log, v);
      SameKeyed(requested, Requests(log, v));
      ReplayMembers(log, v);
      ReplayKeyed(log, v);
      hide Keyed, Returned;
      PendingMembers(log, v, requested, fulfilled, settled);
      SortAscending(Replay(log, v));
      assert |multiset(Sort(Replay(log, v)))| == |Sort(Replay(log, v))|
             && |multiset(Replay(log, v))| == |Replay(log, v)|;
      RequestsAreConserved(log, v);
      AscendingUnique(view.pending, Sort(Replay(log, v)));
    }
  }

  lemma PendingMembers(log: Log, v: string, requested: seq<Entry>, fulfilled: seq<nat>, settled: seq<nat>)
    requires Keyed(requested) && forall x :: x in requested <==> x in Requests(log, v)
    requires (forall x :: x in fulfilled <==> x in Fulfilments(log, v))
             && (forall x :: x in settled <==> x in Redemptions(log, v))
    ensures var p := QueueView(requested, fulfilled, settled).pending;
            Ascending(p) && forall e :: e in p <==> e in Requests(log, v) && !Done(log, v, e.globalSeq)
  {
    hide Keyed, Ascending;
    var done := SetOf(fulfilled + settled);
    assert forall n :: n in done <==> Done(log, v, n);
    WithoutMembers(requested, done);
    WithoutKeyed(requested, done);
    SortAscending(Without(requested, done));
  }

  /** Requests are conserved: each is pending, fulfilled or settled. */
  lemma {:induction false} RequestsAreConserved(log: Log, v: string)
    requires ValidLog(log, v)
    ensures |Requests(log, v)| == |Replay(log, v)| + |Fulfilments(log, v)| + |Redemptions(log, v)|
  {
    if log != [] {
      var before, last := log[..|log| - 1], log[|log| - 1];
      RequestsAreConserved(before, v);
      ReplayKeyed(before, v);
      if !last.Requested? && last.vault == v && (last.Redeemed? ==> last.fromQueue) {
        RemoveOne(Replay(before, v), last.globalSeq);
      }
    }
  }

  lemma {:induction false} RemoveOne(s: seq<Entry>, n: nat)
    requires Keyed(s)
    ensures |Without(s, {n})| == if HasSeq(s, n) then |s| - 1 else |s|
  {
    if s != [] {
      KeyedTail(s);
      RemoveOne(s[1..], n);
      assert s == [s[0]] + s[1..];
      assert forall e :: e in s <==> e == s[0] || e in s[1..];
      assert s[0] in s;
    }
  }

  lemma ReturnedSome<T>(r: seq<T>, all: seq<T>)
    requires Returned(r, all)
    ensures forall x :: x in r ==> x in all
  {
    assert forall x :: x in r ==> x in multiset(r);
    assert forall x :: x in multiset(all) ==> x in all;
  }

  /** Cut-off completions can only add: as long as all requests are returned, every entry of the replayed
      queue is shown, and nothing is shown that was not requested. */
  lemma HiddenCompletionsOnlyAdd(log: Log, v: string, requested: seq<Entry>, fulfilled: seq<nat>, settled: seq<nat>)
    requires ValidLog(log, v) && |Requests(log, v)| <= EVENT_SCAN_LIMIT
    requires Returned(requested, Requests(log, v)) && Returned(fulfilled, Fulfilments(log, v))
    requires Returned(settled, Redemptions(log, v))
    ensures var p := QueueView(requested, fulfilled, settled).pending;
            && Ascending(p) && (forall e :: e in Replay(log, v) ==> e in p)
            && (forall e :: e in p ==> e in Requests(log, v))
  {
    ReturnedAll(requested, Requests(log, v));
    ReturnedSome(fulfilled, Fulfilments(log, v));
    ReturnedSome(settled, Redemptions(log, v));
    RequestsKeyed(log, v);
    SameKeyed(requested, Requests(log, v));
    ReplayMembers(log, v);
    hide Keyed, Returned, Ascending, Requests, Replay, Fulfilments, Redemptions, ValidLog;
    var done := SetOf(fulfilled + settled);
    assert forall n :: n in done ==> Done(log, v, n);
    WithoutMembers(requested, done);
    WithoutKeyed(requested, done);
    SortAscending(Without(requested, done));
  }

  /** The flag is raised exactly when some history reaches the scan limit. */
  lemma TruncationIsReported(log: Log, v: string, requested: seq<Entry>, fulfilled: seq<nat>, settled: seq<nat>)
    requires Returned(requested, Requests(log, v)) && Returned(fulfilled, Fulfilments(log, v))
    requires Returned(settled, Redemptions(log, v))
    ensures QueueView(requested, fulfilled, settled).truncated <==>
            (|| |Requests(log, v)| >= EVENT_SCAN_LIMIT || |Fulfilments(log, v)| >= EVENT_SCAN_LIMIT
             || |Redemptions(log, v)| >= EVENT_SCAN_LIMIT)
  {
  }
}
