/** internal/resourcemanager/resourcemanager.go: one budget of bytes shared by all
    torrents of a session. */
module ResourceManagers {
  import opened Common

  /** A torrent's id, the `key` of its requests. */
  type Key = nat

  /** `data` is the peer a grant is for. */
  datatype Request = Request(key: Key, data: nat, n: nat)

  datatype Manager = Manager(limit: int, available: int, objects: int, requests: map<Key, seq<Request>>) {
    /** No pending list is ever empty, so rand.Intn is never called with 0. */
    ghost predicate Valid() {
      && 0 <= available <= limit
      && (forall k :: k in requests ==> requests[k] != [])
      && (forall k, i :: k in requests && 0 <= i < |requests[k]| ==> requests[k][i].key == k)
    }
  }

  /** What one client sees of the manager, in the order it happens. */
  datatype RamEvent =
    | Asked(data: nat, n: nat, acquired: bool)
    | Granted(data: nat, n: nat)
    | Released(n: nat)

  /** Objects held after an event sequence. */
  ghost function Live(tr: seq<RamEvent>): int {
    if tr == [] then 0 else
      Live(tr[..|tr| - 1]) +
      match tr[|tr| - 1]
      case Asked(_, _, acquired) => if acquired then 1 else 0
      case Granted(_, _) => 1
      case Released(_) => -1
  }

  /** Bytes held after an event sequence. */
  ghost function Held(tr: seq<RamEvent>): int {
    if tr == [] then 0 else
      Held(tr[..|tr| - 1]) + Delta(tr[|tr| - 1])
  }

  ghost function Delta(e: RamEvent): int {
    match e
    case Asked(_, n, acquired) => if acquired then n else 0
    case Granted(_, n) => n
    case Released(n) => 0 - n
  }

  /** The client gives back only what it holds. */
  ghost predicate NeverOverReleases(tr: seq<RamEvent>) {
    forall k :: 0 <= k <= |tr| ==> Held(tr[..k]) >= 0
  }

  // ---- the loop, one case of its select at a time

  datatype Act =
    | Request_(r: Request)
    | Release_(key: Key, n: nat)
    | Notify_(key: Key, i: nat)
    | Cancel_(key: Key, i: nat)
    | Abandon_(r: Request)  // handleRequest finds cancelC ready instead of handing over its answer

  function DeleteRequest(requests: map<Key, seq<Request>>, key: Key, i: nat): map<Key, seq<Request>>
    requires key in requests && i < |requests[key]|
  {
    var rs := requests[key];
    var rs' := rs[i := rs[|rs| - 1]][..|rs| - 1];
    if |rs'| > 0 then requests[key := rs'] else requests - {key}
  }

  function Pending(requests: map<Key, seq<Request>>, key: Key): seq<Request> {
    if key in requests then requests[key] else []
  }

  /** Exactly one request leaves, the i-th of its key; a key with nothing left disappears. */
  ghost predicate Deleted(before: map<Key, seq<Request>>, key: Key, i: nat, after: map<Key, seq<Request>>)
    requires key in before && i < |before[key]|
  {
    && multiset(Pending(after, key)) + multiset{before[key][i]} == multiset(before[key])
    && (forall k :: k != key ==> Pending(after, k) == Pending(before, k) && (k in after <==> k in before))
    && (key in after <==> |before[key]| > 1)
  }

  lemma DeleteCorrect(requests: map<Key, seq<Request>>, key: Key, i: nat)
    requires key in requests && i < |requests[key]|
    ensures Deleted(requests, key, i, DeleteRequest(requests, key, i))
  {
    var rs := requests[key];
    var last := |rs| - 1;
    assert rs == rs[..last] + [rs[last]];
    if i < last {
      assert rs == rs[..i] + [rs[i]] + rs[i + 1..last] + [rs[last]];
      assert rs[i := rs[last]][..last] == rs[..i] + [rs[last]] + rs[i + 1..last];
    } else {
      assert rs[i := rs[last]][..last] == rs[..last];
    }
  }

  /** randomRequest offers a pending request only if it fits. */
  predicate Offered(m: Manager, key: Key, i: nat) {
    key in m.requests && i < |m.requests[key]| && m.requests[key][i].n <= m.available
  }

  ghost predicate Enabled(m: Manager, a: Act) {
    match a
    case Notify_(key, i) => Offered(m, key, i)
    case Cancel_(key, i) => Offered(m, key, i)
    case _ => true
  }

  datatype Entry = Entry(key: Key, e: RamEvent)

  /** A run of the loop: the manager, what its clients saw, and whether one of its
      three panics was reached. */
  datatype Run = Run(m: Manager, log: seq<Entry>, panicked: bool)

  ghost function Step(s: Run, a: Act): Run
    requires Enabled(s.m, a)
  {
    match a
    case Request_(r) =>
      if s.m.available >= r.n then
        Run(s.m.(available := s.m.available - r.n, objects := s.m.objects + 1),
            s.log + [Entry(r.key, Asked(r.data, r.n, true))],
            s.panicked || s.m.available - r.n < 0)
      else
        var rs := if r.key in s.m.requests then s.m.requests[r.key] else [];
        Run(s.m.(requests := s.m.requests[r.key := rs + [r]]),
            s.log + [Entry(r.key, Asked(r.data, r.n, false))], s.panicked)
    case Release_(key, n) =>
      Run(s.m.(available := s.m.available + n, objects := s.m.objects - 1),
          s.log + [Entry(key, Released(n))],
          s.panicked || s.m.available + n > s.m.limit)
    case Notify_(key, i) =>
      var r := s.m.requests[key][i];
      Run(s.m.(available := s.m.available - r.n, objects := s.m.objects + 1,
               requests := DeleteRequest(s.m.requests, key, i)),
          s.log + [Entry(r.key, Granted(r.data, r.n))],
          s.panicked || s.m.available - r.n < 0)
    case Cancel_(key, i) =>
      Run(s.m.(requests := DeleteRequest(s.m.requests, key, i)), s.log, s.panicked)
    case Abandon_(_) => s
  }

  ghost function Start(limit: nat): Run {
    Run(Manager(limit, limit, 0, map[]), [], false)
  }

  /** `s` results from the acts `acts` of any clients, in any interleaving. */
  ghost predicate Reaches(limit: nat, acts: seq<Act>, s: Run) {
    if acts == [] then s == Start(limit)
    else
      exists p: Run ::
        Reaches(limit, acts[..|acts| - 1], p) && Enabled(p.m, acts[|acts| - 1]) && s == Step(p, acts[|acts| - 1])
  }

  /** The events of one client. */
  ghost function Project(log: seq<Entry>, key: Key): seq<RamEvent> {
    if log == [] then []
    else
      var front := Project(log[..|log| - 1], key);
      var last := log[|log| - 1];
      if last.key == key then front + [last.e] else front
  }

  ghost predicate ClientsBehave(log: seq<Entry>) {
    forall key :: NeverOverReleases(Project(log, key))
  }

  ghost function SumHeld(keys: seq<Key>, log: seq<Entry>): int {
    if keys == [] then 0 else SumHeld(keys[..|keys| - 1], log) + Held(Project(log, keys[|keys| - 1]))
  }

  ghost function SumLive(keys: seq<Key>, log: seq<Entry>): int {
    if keys == [] then 0 else SumLive(keys[..|keys| - 1], log) + Live(Project(log, keys[|keys| - 1]))
  }

  ghost predicate Distinct(keys: seq<Key>) {
    forall i, j :: 0 <= i < j < |keys| ==> keys[i] != keys[j]
  }

  ghost predicate Covers(keys: seq<Key>, log: seq<Entry>) {
    Distinct(keys) && forall k :: 0 <= k < |log| ==> log[k].key in keys
  }

  lemma HeldSnoc(tr: seq<RamEvent>, e: RamEvent)
    ensures Held(tr + [e]) == Held(tr) + Delta(e)
    ensures Live(tr + [e]) == Live(tr) + Live([e])
  {
    assert (tr + [e])[..|tr|] == tr;
    assert [e][..0] == [];
  }

  /** One more event moves the sum over all clients by exactly that event. */
  lemma {:induction false} SumSnoc(keys: seq<Key>, log: seq<Entry>, x: Entry)
    requires Distinct(keys)
    ensures SumHeld(keys, log + [x]) == SumHeld(keys, log) + (if x.key in keys then Delta(x.e) else 0)
    ensures SumLive(keys, log + [x]) == SumLive(keys, log) + (if x.key in keys then Live([x.e]) else 0)
  {
    if keys != [] {
      var k := keys[|keys| - 1];
      var front := keys[..|keys| - 1];
      SumSnoc(front, log, x);
      assert (log + [x])[..|log|] == log;
      assert x.key == k ==> x.key !in front;
      HeldSnoc(Project(log, k), x.e);
      HeldSnoc([], x.e);
      assert [] + [x.e] == [x.e];
    }
  }

  lemma {:induction false} SumEmpty(keys: seq<Key>)
    ensures SumHeld(keys, []) == 0 && SumLive(keys, []) == 0
  {
    if keys != [] { SumEmpty(keys[..|keys| - 1]); }
  }

  lemma {:induction false} SumNonNegative(keys: seq<Key>, log: seq<Entry>)
    requires ClientsBehave(log)
    ensures SumHeld(keys, log) >= 0
  {
    if keys != [] {
      SumNonNegative(keys[..|keys| - 1], log);
      var tr := Project(log, keys[|keys| - 1]);
      assert tr[..|tr|] == tr;
    }
  }

  lemma BehavesBefore(log: seq<Entry>, x: Entry)
    requires ClientsBehave(log + [x])
    ensures ClientsBehave(log)
  {
    assert (log + [x])[..|log|] == log;
    forall key ensures NeverOverReleases(Project(log, key)) {
      var long, tr := Project(log + [x], key), Project(log, key);
      forall k | 0 <= k <= |tr| ensures Held(tr[..k]) >= 0 {
        assert long[..k] == tr[..k];
      }
    }
  }

  lemma StepKeepsLists(s: Run, a: Act)
    requires Enabled(s.m, a)
    requires forall k :: k in s.m.requests ==> s.m.requests[k] != []
    requires forall k, i :: k in s.m.requests && 0 <= i < |s.m.requests[k]| ==> s.m.requests[k][i].key == k
    ensures var m := Step(s, a).m;
            && (forall k :: k in m.requests ==> m.requests[k] != [])
            && (forall k, i :: k in m.requests && 0 <= i < |m.requests[k]| ==> m.requests[k][i].key == k)
  {
  }

  ghost predicate Conserved(limit: nat, s: Run, keys: seq<Key>) {
    && !s.panicked && s.m.Valid() && s.m.limit == limit
    && limit - s.m.available == SumHeld(keys, s.log)
    && s.m.objects == SumLive(keys, s.log)
  }

  lemma StepConserves(limit: nat, p: Run, a: Act, keys: seq<Key>)
    requires Conserved(limit, p, keys) && Enabled(p.m, a)
    requires ClientsBehave(Step(p, a).log) && Covers(keys, Step(p, a).log)
    ensures Conserved(limit, Step(p, a), keys)
  {
    var s := Step(p, a);
    StepKeepsLists(p, a);
    if !a.Cancel_? && !a.Abandon_? {
      var x := s.log[|p.log|];
      assert s.log == p.log + [x] && x.key in keys;
      SumSnoc(keys, p.log, x);
      SumNonNegative(keys, s.log);
    }
  }

  /** Safety over every interleaving: as long as no client releases more than it holds,
      none of the three panics is reachable, the budget stays within [0, limit], what is
      missing from it is exactly the sum of what the clients hold, and no pending list
      is empty. */
  lemma {:induction false} Conservation(limit: nat, acts: seq<Act>, s: Run, keys: seq<Key>)
    requires Reaches(limit, acts, s)
    requires ClientsBehave(s.log) && Covers(keys, s.log)
    ensures Conserved(limit, s, keys)
    decreases |acts|
  {
    if acts == [] {
      SumEmpty(keys);
    } else {
      var a := acts[|acts| - 1];
      var p :| Reaches(limit, acts[..|acts| - 1], p) && Enabled(p.m, a) && s == Step(p, a);
      if !a.Cancel_? && !a.Abandon_? {
        var x := s.log[|p.log|];
        assert s.log == p.log + [x];
        BehavesBefore(p.log, x);
        assert forall k :: 0 <= k < |p.log| ==> p.log[k] == s.log[k];
      }
      Conservation(limit, acts[..|acts| - 1], p, keys);
      StepConserves(limit, p, a, keys);
    }
  }

  // ---- no request is granted twice

  /** How often an entry is in the log. */
  ghost function Times(log: seq<Entry>, x: Entry): nat {
    multiset(log)[x]
  }

  /** Refused at first, granted later, still waiting: the counts for one request. */
  ghost predicate Accounted(s: Run, r: Request, exactly: bool) {
    var refused := Times(s.log, Entry(r.key, Asked(r.data, r.n, false)));
    var settled := Times(s.log, Entry(r.key, Granted(r.data, r.n))) + Waiting(s.m.requests, r);
    if exactly then settled == refused else settled <= refused
  }

  ghost predicate KeysRight(requests: map<Key, seq<Request>>) {
    && (forall k :: k in requests ==> requests[k] != [])
    && (forall k, i :: k in requests && 0 <= i < |requests[k]| ==> requests[k][i].key == k)
  }

  ghost function Waiting(requests: map<Key, seq<Request>>, r: Request): nat {
    multiset(Pending(requests, r.key))[r]
  }

  lemma WaitingLess(requests: map<Key, seq<Request>>, key: Key, i: nat, r: Request)
    requires key in requests && i < |requests[key]| && requests[key][i].key == key
    ensures Waiting(DeleteRequest(requests, key, i), r) == Waiting(requests, r) - if requests[key][i] == r then 1 else 0
  {
    DeleteCorrect(requests, key, i);
    hide DeleteRequest;
    var after := DeleteRequest(requests, key, i);
    if r.key == key { assert multiset(Pending(after, key)) == multiset(requests[key]) - multiset{requests[key][i]}; }
  }

  lemma WaitingMore(requests: map<Key, seq<Request>>, q: Request, r: Request)
    ensures var more := requests[q.key := Pending(requests, q.key) + [q]];
            Waiting(more, r) == Waiting(requests, r) + if q == r then 1 else 0
  {
  }

  lemma TimesMore(log: seq<Entry>, e: Entry, x: Entry)
    ensures Times(log + [e], x) == Times(log, x) + if e == x then 1 else 0
  {
  }

  lemma StepAccounts(s: Run, a: Act, r: Request, exactly: bool)
    requires KeysRight(s.m.requests) && Enabled(s.m, a) && Accounted(s, r, exactly) && (exactly ==> !a.Cancel_?)
    ensures Accounted(Step(s, a), r, exactly)
  {
    hide Times, Waiting, DeleteRequest;
    var x, y := Entry(r.key, Asked(r.data, r.n, false)), Entry(r.key, Granted(r.data, r.n));
    var log := Step(s, a).log;
    if log != s.log {
      var e := log[|log| - 1];
      assert log == s.log + [e];
      TimesMore(s.log, e, x);
      TimesMore(s.log, e, y);
    }
    match a
    case Request_(q) => WaitingMore(s.m.requests, q, r);
    case Notify_(key, i) => WaitingLess(s.m.requests, key, i, r);
    case Cancel_(key, i) => WaitingLess(s.m.requests, key, i, r);
    case _ =>
  }

  /** Over every run a request that had to wait is granted at most as often as it was made, and
      without cancellations each one is either granted once or still waiting. */
  lemma {:induction false} GrantedOnce(limit: nat, acts: seq<Act>, s: Run, r: Request)
    requires Reaches(limit, acts, s)
    ensures KeysRight(s.m.requests) && Accounted(s, r, false)
    ensures (forall k :: 0 <= k < |acts| ==> !acts[k].Cancel_?) ==> Accounted(s, r, true)
    decreases |acts|
  {
    if acts != [] {
      var a := acts[|acts| - 1];
      var p :| Reaches(limit, acts[..|acts| - 1], p) && Enabled(p.m, a) && s == Step(p, a);
      GrantedOnce(limit, acts[..|acts| - 1], p, r);
      StepKeepsLists(p, a);
      StepAccounts(p, a, r, false);
      if forall k :: 0 <= k < |acts| ==> !acts[k].Cancel_? { StepAccounts(p, a, r, true); }
    }
  }

  /** The reading for torrents between two handlers: if torrent keys[i] holds
      pieceLength[i] bytes for each of its live[i] downloaders, the manager has lent out
      exactly the sum of pieceLength[i] * live[i]. */
  ghost function Dot(a: seq<nat>, b: seq<nat>): nat
    requires |a| == |b|
  {
    if a == [] then 0 else Dot(a[..|a| - 1], b[..|b| - 1]) + a[|a| - 1] * b[|b| - 1]
  }

  lemma {:induction false} SumHeldIsDot(keys: seq<Key>, log: seq<Entry>, pieceLength: seq<nat>, live: seq<nat>)
    requires |keys| == |pieceLength| == |live|
    requires forall i :: 0 <= i < |keys| ==>
               (var a: int, b: int := pieceLength[i], live[i]; Held(Project(log, keys[i])) == a * b)
    ensures SumHeld(keys, log) == Dot(pieceLength, live)
  {
    var n := |keys| - 1;
    if n >= 0 {
      SumHeldIsDot(keys[..n], log, pieceLength[..n], live[..n]);
    }
  }

  lemma LentOut(limit: nat, acts: seq<Act>, s: Run, keys: seq<Key>, pieceLength: seq<nat>, live: seq<nat>)
    requires Reaches(limit, acts, s) && ClientsBehave(s.log) && Covers(keys, s.log)
    requires |keys| == |pieceLength| == |live|
    requires forall i :: 0 <= i < |keys| ==>
               (var a: int, b: int := pieceLength[i], live[i]; Held(Project(s.log, keys[i])) == a * b)
    ensures Conserved(limit, s, keys)
    ensures limit - s.m.available == Dot(pieceLength, live)
  {
    Conservation(limit, acts, s, keys);
    SumHeldIsDot(keys, s.log, pieceLength, live);
  }

  /** The object; each method is one case of run's select. */
  class ResourceManager {
    const limit: int
    var available: int
    var objects: int
    var requests: map<Key, seq<Request>>

    ghost function View(): Manager
      reads this
    {
      Manager(limit, available, objects, requests)
    }

    constructor (limit: nat)
      ensures View() == Start(limit).m && View().Valid()
    {
      this.limit, available, objects, requests := limit, limit, 0, map[];
    }

    /** `cancelled`: which of the two channels the select finds ready. */
    method HandleRequest(r: Request, cancelled: bool) returns (answer: Option<bool>)
      requires View().Valid()
      modifies this`available, this`objects, this`requests
      ensures View().Valid() && answer == if cancelled then None else Some(old(available) >= r.n)
      ensures cancelled ==> View() == old(View())
      ensures View() == Step(Run(old(View()), [], false), if cancelled then Abandon_(r) else Request_(r)).m
      ensures answer == Some(true) ==> available == old(available) - r.n && requests == old(requests)
      ensures answer == Some(false) ==>
                available == old(available) && Pending(requests, r.key) == old(Pending(requests, r.key)) + [r]
      ensures forall k :: k != r.key ==> Pending(requests, k) == old(Pending(requests, k))
    {
      var acquired := available >= r.n;
      if cancelled { return None; }
      answer := Some(acquired);
      if acquired {
        available := available - r.n;
        objects := objects + 1;
        assert available >= 0;  // "invalid request call 2"
      } else {
        var rs := if r.key in requests then requests[r.key] else [];
        requests := requests[r.key := rs + [r]];
      }
    }

    /** The caller owes what the panic checks: see Conservation for why clients meet it. */
    method HandleRelease(key: Key, n: nat)
      requires View().Valid() && available + n <= limit
      modifies this`available, this`objects
      ensures View() == Step(Run(old(View()), [], false), Release_(key, n)).m && View().Valid()
      ensures available == old(available) + n && objects == old(objects) - 1 && requests == old(requests)
    {
      available := available + n;
      objects := objects - 1;
    }

    /** Go visits the keys in any order and looks at one random entry of the first. */
    method RandomRequest() returns (r: Option<Request>, key: Key, i: nat)
      requires View().Valid()
      ensures r.Some? ==> Offered(View(), key, i) && r.value == requests[key][i]
      ensures r.None? ==>
                requests == map[] || (key in requests && i < |requests[key]| && requests[key][i].n > available)
    {
      r, key, i := None, 0, 0;
      if requests.Keys != {} {
        key :| key in requests.Keys;
        var rs := requests[key];
        i :| 0 <= i < |rs|;
        if rs[i].n <= available { r := Some(rs[i]); }
      }
    }

    method Notified(key: Key, i: nat)
      requires View().Valid() && Offered(View(), key, i)
      modifies this`available, this`objects, this`requests
      ensures View() == Step(Run(old(View()), [], false), Notify_(key, i)).m && View().Valid()
      ensures available == old(available) - old(requests)[key][i].n && objects == old(objects) + 1
      ensures Deleted(old(requests), key, i, requests)
    {
      var n := requests[key][i].n;
      StepKeepsLists(Run(View(), [], false), Notify_(key, i));
      available := available - n;
      objects := objects + 1;
      assert available >= 0;  // "invalid request call 1"
      Delete(key, i);
    }

    method Cancelled(key: Key, i: nat)
      requires View().Valid() && Offered(View(), key, i)
      modifies this`requests
      ensures View() == Step(Run(old(View()), [], false), Cancel_(key, i)).m && View().Valid()
      ensures available == old(available) && objects == old(objects) && Deleted(old(requests), key, i, requests)
    {
      StepKeepsLists(Run(View(), [], false), Cancel_(key, i));
      Delete(key, i);
    }

    method Delete(key: Key, i: nat)
      requires key in requests && i < |requests[key]|
      modifies this`requests
      ensures requests == DeleteRequest(old(requests), key, i)
      ensures Deleted(old(requests), key, i, requests)
    {
      DeleteCorrect(requests, key, i);
      var rs := requests[key];
      rs := rs[i := rs[|rs| - 1]];
      rs := rs[..|rs| - 1];
      if |rs| > 0 {
        requests := requests[key := rs];
      } else {
        requests := requests - {key};
      }
    }
  }
}
