/** DX spots announced by clients: a bounded store keyed by callsign that evicts the spot
    announced longest ago, and the packing of their labels into three rows. */
module Spots {

  const MAX_SPOTS := 192
  const CALL_FIELD := 20
  const MODE_FIELD := 12

  datatype Spot = Spot(call: string, mode: string, hz: int, argb: nat, ts: int)

  /** A copy into a field of `size` bytes: what fits beside the terminator. */
  function Cut(s: string, size: nat): string
    requires size > 0
  {
    if |s| < size then s else s[..size - 1]
  }

  function Entry(a: Spot): Spot {
    a.(call := Cut(a.call, CALL_FIELD), mode := Cut(a.mode, MODE_FIELD))
  }

  /** The first spot with this call from `i` on; |s| if there is none. */
  function Find(s: seq<Spot>, call: string, i: nat): (j: nat)
    requires i <= |s|
    ensures i <= j <= |s|
    ensures forall k :: i <= k < j ==> s[k].call != call
    ensures j < |s| ==> s[j].call == call
    decreases |s| - i
  {
    if i == |s| || s[i].call == call then i else Find(s, call, i + 1)
  }

  /** The first of the oldest among the first `n` spots. */
  function Oldest(s: seq<Spot>, n: nat): (j: nat)
    requires 1 <= n <= |s|
    ensures j < n && forall k :: 0 <= k < n ==> s[j].ts <= s[k].ts
  {
    if n == 1 then 0
    else
      var j := Oldest(s, n - 1);
      if s[n - 1].ts < s[j].ts then n - 1 else j
  }

  predicate Accepted(a: Spot) { |a.call| > 0 && a.hz > 0 }

  /** An announcement refreshes the spot of that call, or takes a free place, or the oldest one's. */
  function Added(s: seq<Spot>, a: Spot): (r: seq<Spot>)
    requires |s| <= MAX_SPOTS
    ensures |r| <= MAX_SPOTS
  {
    if !Accepted(a) then s
    else
      var j := Find(s, a.call, 0);
      if j < |s| then s[j := Entry(a)]
      else if |s| < MAX_SPOTS then s + [Entry(a)]
      else s[Oldest(s, |s|) := Entry(a)]
  }

  /** An announcement without a call or a frequency is ignored; any other is stored as it came, the call cut to
      19 characters and the mode to 11. */
  lemma StoredIs(s: seq<Spot>, a: Spot)
    requires |s| <= MAX_SPOTS
    ensures a.call == "" || a.hz < 1 ==> Added(s, a) == s
    ensures a.call != "" && a.hz >= 1 ==>
      Spot(if |a.call| <= 19 then a.call else a.call[..19], if |a.mode| <= 11 then a.mode else a.mode[..11],
           a.hz, a.argb, a.ts) in Added(s, a)
  {
    var r := Added(s, a);
    if Accepted(a) {
      var j := Find(s, a.call, 0);
      assert r[if j < |s| || |s| < MAX_SPOTS then j else Oldest(s, |s|)] == Entry(a);
    }
  }

  /** The last spot fills the gap. */
  function Deleted(s: seq<Spot>, call: string): (r: seq<Spot>)
    ensures |r| <= |s|
  {
    var j := Find(s, call, 0);
    if j == |s| then s else s[j := s[|s| - 1]][..|s| - 1]
  }

  // ---- calls stay unique ----------------------------------------------------------------

  ghost predicate Unique(s: seq<Spot>) {
    forall i, j :: 0 <= i < j < |s| ==> s[i].call != s[j].call
  }

  ghost predicate Has(s: seq<Spot>, call: string) {
    exists i :: 0 <= i < |s| && s[i].call == call
  }

  /** A call that fits the field never gets a second spot. */
  lemma ShortCallsStayUnique(s: seq<Spot>, a: Spot)
    requires |s| <= MAX_SPOTS && Unique(s) && |a.call| < CALL_FIELD
    ensures Unique(Added(s, a))
  {}

  lemma DeletedIsUnique(s: seq<Spot>, call: string)
    requires Unique(s)
    ensures Unique(Deleted(s, call))
    ensures forall c :: Has(Deleted(s, call), c) <==> c != call && Has(s, c)
  {
    var j, r := Find(s, call, 0), Deleted(s, call);
    if j < |s| {
      forall c | c != call && Has(s, c) ensures Has(r, c) {
        var i :| 0 <= i < |s| && s[i].call == c;
        assert r[if i == |s| - 1 then j else i].call == c;
      }
      forall c | Has(r, c) ensures c != call && Has(s, c) {
        var i :| 0 <= i < |r| && r[i].call == c;
        assert s[if i == j then |s| - 1 else i].call == c;
      }
    }
  }

  /** A longer call is searched for whole but stored cut: it is never found, and the calls stay unique
      exactly when no spot that is kept has the cut call already. */
  lemma LongCallsMayRepeat(s: seq<Spot>, a: Spot)
    requires |s| <= MAX_SPOTS && Unique(s) && Accepted(a) && |a.call| >= CALL_FIELD
    requires forall i :: 0 <= i < |s| ==> |s[i].call| < CALL_FIELD
    ensures var kept := if |s| < MAX_SPOTS then |s| else Oldest(s, |s|);
      Unique(Added(s, a)) <==> forall i :: 0 <= i < |s| && i != kept ==> s[i].call != Cut(a.call, CALL_FIELD)
  {
    var kept := if |s| < MAX_SPOTS then |s| else Oldest(s, |s|);
    var r := Added(s, a);
    assert Find(s, a.call, 0) == |s|;
    assert r[kept].call == Cut(a.call, CALL_FIELD);
    forall i | 0 <= i < |s| && i != kept ensures r[i] == s[i] {}
  }

  // ---- pruning ---------------------------------------------------------------------------------

  function Kept(s: seq<Spot>, n: nat, now: int, ttl: int): (r: seq<Spot>)
    requires n <= |s|
    ensures |r| <= n
  {
    if n == 0 then []
    else if now - s[n - 1].ts <= ttl then Kept(s, n - 1, now, ttl) + [s[n - 1]]
    else Kept(s, n - 1, now, ttl)
  }

  /** What is kept are the spots announced within the time to live, and their calls stay unique. */
  lemma {:induction false} KeptAreTheLive(s: seq<Spot>, n: nat, now: int, ttl: int)
    requires n <= |s|
    ensures forall x :: x in Kept(s, n, now, ttl) <==> x in s[..n] && now - x.ts <= ttl
    ensures Unique(s) ==> Unique(Kept(s, n, now, ttl))
  {
    if n > 0 {
      KeptAreTheLive(s, n - 1, now, ttl);
      assert s[..n] == s[..n - 1] + [s[n - 1]];
      var k := Kept(s, n - 1, now, ttl);
      forall i | 0 <= i < |k| && Unique(s) ensures k[i].call != s[n - 1].call {
        assert k[i] in k && k[i] in s[..n - 1];
        var j :| 0 <= j < n - 1 && s[j] == k[i];
      }
    }
  }

  // ---- the store against the log of what happened to it -----------------------------------

  datatype Event =
    | Announced(a: Spot)
    | Removed(call: string)
    | Cleared
    | Pruned(now: int, ttl: int)

  /** The latest word on a call: its last announcement, as stored, unless it was removed or expired. */
  datatype Latest = Never | At(a: Spot)

  function LatestOf(log: seq<Event>, n: nat, call: string): Latest
    requires n <= |log|
  {
    if n == 0 then Never
    else
      var p := LatestOf(log, n - 1, call);
      match log[n - 1]
      case Announced(a) => if Accepted(a) && a.call == call then At(Entry(a)) else p
      case Removed(c) => if c == call then Never else p
      case Cleared => Never
      case Pruned(now, ttl) => if p.At? && now - p.a.ts <= ttl then p else Never
  }

  function Happened(s: seq<Spot>, e: Event): (r: seq<Spot>)
    requires |s| <= MAX_SPOTS
    ensures |r| <= MAX_SPOTS
  {
    match e
    case Announced(a) => Added(s, a)
    case Removed(c) => Deleted(s, c)
    case Cleared => []
    case Pruned(now, ttl) => Kept(s, |s|, now, ttl)
  }

  function Store(log: seq<Event>, n: nat): (s: seq<Spot>)
    requires n <= |log|
    ensures |s| <= MAX_SPOTS
  {
    if n == 0 then [] else Happened(Store(log, n - 1), log[n - 1])
  }

  predicate Counts(e: Event) { e.Announced? && Accepted(e.a) }

  /** Announcements with calls that fit the field, by a clock that moves on. */
  ghost predicate Announcements(log: seq<Event>) {
    && (forall k :: 0 <= k < |log| && Counts(log[k]) ==> |log[k].a.call| < CALL_FIELD)
    && forall j, k :: 0 <= j < k < |log| && Counts(log[j]) && Counts(log[k]) ==> log[j].a.ts < log[k].a.ts
  }

  ghost predicate Later(s: seq<Spot>, ts: int) { forall i :: 0 <= i < |s| ==> ts < s[i].ts }

  /** At some moment the store was full of spots announced later, and it has held only later ones since. */
  ghost predicate Evicted(log: seq<Event>, n: nat, ts: int)
    requires n <= |log|
  {
    Later(Store(log, n), ts) && exists m :: 0 <= m <= n && |Store(log, m)| == MAX_SPOTS && Later(Store(log, m), ts)
  }

  ghost predicate Exact(s: seq<Spot>, log: seq<Event>, n: nat)
    requires n <= |log|
  {
    Unique(s) && forall i :: 0 <= i < |s| ==> LatestOf(log, n, s[i].call) == At(s[i])
  }

  /** A call the store has not got, though it was announced and neither removed nor expired, was evicted. */
  ghost predicate MissesOnlyEvicted(s: seq<Spot>, log: seq<Event>, n: nat)
    requires n <= |log|
  {
    forall c :: LatestOf(log, n, c).At? && !Has(s, c) ==> Evicted(log, n, LatestOf(log, n, c).a.ts)
  }

  lemma {:induction false} LatestIsEarlier(log: seq<Event>, n: nat, call: string)
    requires Announcements(log) && n <= |log| && LatestOf(log, n, call).At?
    ensures LatestOf(log, n, call).a.call == call
    ensures forall k :: n <= k < |log| && Counts(log[k]) ==> LatestOf(log, n, call).a.ts < log[k].a.ts
  {
    if !(Counts(log[n - 1]) && log[n - 1].a.call == call) {
      LatestIsEarlier(log, n - 1, call);
    }
  }

  /** Where an announcement goes. */
  function Place(s: seq<Spot>, a: Spot): nat
    requires |s| <= MAX_SPOTS
  {
    var j := Find(s, a.call, 0);
    if j < |s| then j else if |s| < MAX_SPOTS then |s| else Oldest(s, |s|)
  }

  lemma AddedAt(s: seq<Spot>, a: Spot)
    requires |s| <= MAX_SPOTS && Accepted(a) && Unique(s)
    ensures var r, p := Added(s, a), Place(s, a);
      && p < |r| && r[p] == Entry(a) && |s| <= |r|
      && forall i :: 0 <= i < |r| && i != p ==> i < |s| && r[i] == s[i] && s[i].call != a.call
  {}

  lemma AddedIsExact(s: seq<Spot>, log: seq<Event>, n: nat)
    requires Announcements(log) && n < |log| && Counts(log[n]) && |s| <= MAX_SPOTS && Exact(s, log, n)
    ensures Exact(Added(s, log[n].a), log, n + 1)
  {
    AddedAt(s, log[n].a);
    ShortCallsStayUnique(s, log[n].a);
  }

  lemma {:induction false} Where(log: seq<Event>, n: nat, call: string) returns (k: nat)
    requires n <= |log| && LatestOf(log, n, call).At?
    ensures k < n && Counts(log[k]) && Entry(log[k].a) == LatestOf(log, n, call).a && log[k].a.call == call
  {
    if Counts(log[n - 1]) && log[n - 1].a.call == call {
      k := n - 1;
    } else {
      k := Where(log, n - 1, call);
    }
  }

  /** Different spots were announced at different times. */
  lemma OneTimeEach(s: seq<Spot>, log: seq<Event>, n: nat, i: nat, j: nat)
    requires Announcements(log) && n <= |log| && Exact(s, log, n)
    requires i < |s| && j < |s| && i != j
    ensures s[i].ts != s[j].ts
  {
    var p := Where(log, n, s[i].call);
    var q := Where(log, n, s[j].call);
    assert s[i].call != s[j].call;
    assert Entry(log[p].a) == s[i] && Entry(log[q].a) == s[j];
  }

  lemma OldestIsAlone(s: seq<Spot>, log: seq<Event>, n: nat)
    requires Announcements(log) && n <= |log| && Exact(s, log, n) && |s| > 0
    ensures forall k :: 0 <= k < |s| && k != Oldest(s, |s|) ==> s[Oldest(s, |s|)].ts < s[k].ts
  {
    forall k | 0 <= k < |s| && k != Oldest(s, |s|) ensures s[Oldest(s, |s|)].ts < s[k].ts {
      OneTimeEach(s, log, n, Oldest(s, |s|), k);
    }
  }

  /** A call missing after an announcement was missing before it, or has just been evicted. */
  lemma MissingAfterAdded(log: seq<Event>, n: nat, c: string)
    requires Announcements(log) && n < |log| && Counts(log[n])
    requires Exact(Store(log, n), log, n) && MissesOnlyEvicted(Store(log, n), log, n)
    requires LatestOf(log, n + 1, c).At? && !Has(Store(log, n + 1), c)
    ensures Evicted(log, n + 1, LatestOf(log, n + 1, c).a.ts)
  {
    var s, r, a := Store(log, n), Store(log, n + 1), log[n].a;
    var p := Place(s, a);
    AddedAt(s, a);
    assert r[p].call == a.call;
    LatestIsEarlier(log, n, c);
    var ts := LatestOf(log, n, c).a.ts;
    if i :| 0 <= i < |s| && s[i].call == c {
      assert r[i].call == c || i == p;
      OldestIsAlone(s, log, n);
      assert Later(r, ts);
    } else {
      assert Later(r, ts);
    }
  }

  lemma FewerMissOnlyEvicted(log: seq<Event>, n: nat, m: nat)
    requires n < m == n + 1 <= |log| && MissesOnlyEvicted(Store(log, n), log, n)
    requires forall x :: x in Store(log, m) ==> x in Store(log, n)
    requires forall c :: LatestOf(log, m, c).At? && !Has(Store(log, m), c) ==>
      LatestOf(log, m, c) == LatestOf(log, n, c) && !Has(Store(log, n), c)
    ensures MissesOnlyEvicted(Store(log, m), log, m)
  {
    forall c | LatestOf(log, m, c).At? && !Has(Store(log, m), c)
      ensures Evicted(log, m, LatestOf(log, m, c).a.ts)
    {
      var r := Store(log, m);
      assert Evicted(log, n, LatestOf(log, n, c).a.ts);
      forall i | 0 <= i < |r| ensures LatestOf(log, n, c).a.ts < r[i].ts {
        assert r[i] in Store(log, n);
      }
    }
  }

  lemma RemovedKeeps(log: seq<Event>, n: nat)
    requires n < |log| && log[n].Removed?
    requires Exact(Store(log, n), log, n) && MissesOnlyEvicted(Store(log, n), log, n)
    ensures Exact(Store(log, n + 1), log, n + 1) && MissesOnlyEvicted(Store(log, n + 1), log, n + 1)
  {
    var s, call := Store(log, n), log[n].call;
    var r, j := Deleted(s, call), Find(s, call, 0);
    DeletedIsUnique(s, call);
    forall i | 0 <= i < |r| ensures r[i] in s && LatestOf(log, n + 1, r[i].call) == At(r[i]) {
      assert r[i] == s[if i == j then |s| - 1 else i];
      assert Has(r, r[i].call);
    }
    FewerMissOnlyEvicted(log, n, n + 1);
  }

  lemma PrunedIsExact(log: seq<Event>, n: nat)
    requires n < |log| && log[n].Pruned? && Exact(Store(log, n), log, n)
    ensures Exact(Store(log, n + 1), log, n + 1)
    ensures forall x :: x in Store(log, n + 1) ==> x in Store(log, n)
    ensures forall x :: x in Store(log, n) && log[n].now - x.ts <= log[n].ttl ==> x in Store(log, n + 1)
  {
    var s, r := Store(log, n), Store(log, n + 1);
    KeptAreTheLive(s, |s|, log[n].now, log[n].ttl);
    assert s[..|s|] == s;
    forall i | 0 <= i < |r| ensures LatestOf(log, n + 1, r[i].call) == At(r[i]) {
      assert r[i] in r;
      var k :| 0 <= k < |s| && s[k] == r[i];
    }
  }

  lemma PrunedKeeps(log: seq<Event>, n: nat)
    requires n < |log| && log[n].Pruned?
    requires Exact(Store(log, n), log, n) && MissesOnlyEvicted(Store(log, n), log, n)
    ensures Exact(Store(log, n + 1), log, n + 1) && MissesOnlyEvicted(Store(log, n + 1), log, n + 1)
  {
    var s, r := Store(log, n), Store(log, n + 1);
    PrunedIsExact(log, n);
    forall c | Has(s, c) && LatestOf(log, n + 1, c).At? ensures Has(r, c) {
      var k :| 0 <= k < |s| && s[k].call == c;
      assert s[k] in r;
    }
    FewerMissOnlyEvicted(log, n, n + 1);
  }

  lemma IgnoredKeeps(log: seq<Event>, n: nat)
    requires n < |log| && log[n].Announced? && !Accepted(log[n].a)
    requires Exact(Store(log, n), log, n) && MissesOnlyEvicted(Store(log, n), log, n)
    ensures Exact(Store(log, n + 1), log, n + 1) && MissesOnlyEvicted(Store(log, n + 1), log, n + 1)
  {
    FewerMissOnlyEvicted(log, n, n + 1);
  }

  /** Whatever is announced, deleted, cleared and pruned: every spot is the latest word on its call, each
      call is there once, and a call is missing only if it was never announced, was removed, has expired,
      or was evicted from a store full of spots announced later. */
  lemma {:induction false} StoreIsTheMostRecent(log: seq<Event>, n: nat)
    requires Announcements(log) && n <= |log|
    ensures Exact(Store(log, n), log, n) && MissesOnlyEvicted(Store(log, n), log, n)
  {
    if n > 0 {
      StoreIsTheMostRecent(log, n - 1);
      match log[n - 1]
      case Announced(a) =>
        if Accepted(a) {
          AddedIsExact(Store(log, n - 1), log, n - 1);
          forall c | LatestOf(log, n, c).At? && !Has(Store(log, n), c)
            ensures Evicted(log, n, LatestOf(log, n, c).a.ts)
          {
            MissingAfterAdded(log, n - 1, c);
          }
        } else {
          IgnoredKeeps(log, n - 1);
        }
      case Removed(_) => RemovedKeeps(log, n - 1);
      case Cleared =>
      case Pruned(_, _) => PrunedKeeps(log, n - 1);
    }
  }

  // ---- the store in place ----------------------------------------------------------------------

  class SpotStore {
    const spots: array<Spot>
    var n: nat

    ghost predicate Valid()
      reads this, spots
    {
      spots.Length == MAX_SPOTS && n <= MAX_SPOTS
    }

    ghost function Contents(): seq<Spot>
      requires Valid()
      reads this, spots
    {
      spots[..n]
    }

    constructor ()
      ensures Valid() && Contents() == [] && fresh(spots)
    {
      spots := new Spot[MAX_SPOTS](_ => Spot("", "", 0, 0, 0));
      n := 0;
    }

    method Search(call: string) returns (j: nat)
      requires Valid()
      ensures j == Find(Contents(), call, 0)
    {
      j := 0;
      while j < n
        invariant j <= n && Find(Contents(), call, 0) == Find(Contents(), call, j)
      {
        if spots[j].call == call {
          return;
        }
        j := j + 1;
      }
    }

    method Add(a: Spot)
      requires Valid()
      modifies this`n, spots
      ensures Valid() && Contents() == Added(old(Contents()), a)
    {
      if |a.call| == 0 || a.hz <= 0 {
        return;
      }
      var j := Search(a.call);
      if j == n {
        if n < MAX_SPOTS {
          n := n + 1;
        } else {
          j := OldestPlace();
        }
      }
      spots[j] := Spot(Cut(a.call, CALL_FIELD), Cut(a.mode, MODE_FIELD), a.hz, a.argb, a.ts);
    }

    method OldestPlace() returns (j: nat)
      requires Valid() && n == MAX_SPOTS
      ensures j == Oldest(Contents(), MAX_SPOTS)
    {
      j := 0;
      for i := 1 to MAX_SPOTS
        invariant j == Oldest(Contents(), i)
      {
        if spots[i].ts < spots[j].ts {
          j := i;
        }
      }
    }

    method Delete(call: string)
      requires Valid()
      modifies this`n, spots
      ensures Valid() && Contents() == Deleted(old(Contents()), call)
    {
      var j := Search(call);
      if j < n {
        n := n - 1;
        spots[j] := spots[n];
      }
    }

    method Clear()
      requires Valid()
      modifies this`n
      ensures Valid() && Contents() == []
    {
      n := 0;
    }

    /** Expired spots drop out, the others close up in order. */
    method Prune(now: int, ttl: int)
      requires Valid()
      modifies this`n, spots
      ensures Valid() && Contents() == Kept(old(Contents()), |old(Contents())|, now, ttl)
    {
      n := CloseUp(spots, n, now, ttl);
    }
  }

  method CloseUp(spots: array<Spot>, n: nat, now: int, ttl: int) returns (m: nat)
    requires n <= spots.Length
    modifies spots
    ensures m <= n && spots[..m] == Kept(old(spots[..n]), n, now, ttl)
  {
    ghost var was := spots[..n];
    m := 0;
    for i := 0 to n
      invariant m <= i && spots[..m] == Kept(was, i, now, ttl)
      invariant forall k :: i <= k < n ==> spots[k] == was[k]
    {
      ghost var kept := spots[..m];
      if now - spots[i].ts <= ttl {
        if m != i {
          spots[m] := spots[i];
        }
        m := m + 1;
        assert spots[..m] == kept + [was[i]];
      }
    }
  }
}
