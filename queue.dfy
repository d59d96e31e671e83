/** Facts about the virtual queue that the repository's queue operations are
    specified with: token lookup, the waiting entries of a provider, and the
    entry `inviteNextPatient` selects. */
module Queue {
  import opened Collections
  import opened Domain
  import opened Sorting

  /** The entry moved to `position`, with its wait recomputed from it. */
  function AtPosition(e: QueueEntry, position: int): (r: QueueEntry)
    ensures r.position == position && r.estimatedWait == position * MinutesPerPatient
    ensures r.token == e.token && r.providerId == e.providerId && r.userId == e.userId && r.status == e.status
  {
    e.(position := position, estimatedWait := position * MinutesPerPatient)
  }

  /** The entry moved one place forward. */
  function MovedUp(e: QueueEntry): (r: QueueEntry)
    ensures r.position == e.position - 1 && r.estimatedWait == r.position * MinutesPerPatient
    ensures r.token == e.token && r.providerId == e.providerId && r.userId == e.userId && r.status == e.status
  {
    AtPosition(e, e.position - 1)
  }

  predicate IsWaitingFor(e: QueueEntry, providerId: string)
  {
    e.providerId == providerId && e.status == Waiting
  }

  function WaitingFor(providerId: string): QueueEntry -> bool
  {
    (e: QueueEntry) => IsWaitingFor(e, providerId)
  }

  function ForProvider(providerId: string): QueueEntry -> bool
  {
    (e: QueueEntry) => e.providerId == providerId
  }

  /** Sort key of `(a, b) => a.position - b.position`. */
  function Position(e: QueueEntry): real
  {
    e.position as real
  }

  /** Map keys are unique: no token labels two entries. */
  ghost predicate DistinctTokens(q: seq<QueueEntry>)
  {
    forall i, j :: 0 <= i < j < |q| ==> q[i].token != q[j].token
  }

  function HasToken(token: string): QueueEntry -> bool
  {
    (e: QueueEntry) => e.token == token
  }

  /** `queueTokens.get(token)`, as the index of the entry in insertion order. */
  function TokenIndex(q: seq<QueueEntry>, token: string): (r: Option<nat>)
    ensures r.Some? ==> r.value < |q| && q[r.value].token == token
    ensures r.Some? ==> forall j :: 0 <= j < r.value ==> q[j].token != token
    ensures r.None? <==> forall j :: 0 <= j < |q| ==> q[j].token != token
  {
    FirstIndex(q, HasToken(token))
  }

  /** With unique tokens, the entry found for a token is the only one carrying it. */
  lemma TokenIndexUnique(q: seq<QueueEntry>, token: string, j: nat)
    requires DistinctTokens(q)
    requires j < |q| && q[j].token == token
    ensures TokenIndex(q, token) == Some(j)
  {
  }

  /** Deleting an entry keeps the tokens distinct and leaves its token unresolved. */
  lemma RemoveForgetsToken(q: seq<QueueEntry>, i: nat)
    requires DistinctTokens(q) && i < |q|
    ensures DistinctTokens(q[..i] + q[i + 1..])
    ensures TokenIndex(q[..i] + q[i + 1..], q[i].token).None?
  {
    var r := q[..i] + q[i + 1..];
    assert forall k :: 0 <= k < |r| ==> r[k] == q[if k < i then k else k + 1];
  }

  /** How many entries wait for the provider (the length of the filtered list). */
  function WaitingCount(q: seq<QueueEntry>, providerId: string): (r: nat)
    ensures r <= |q|
    ensures r == 0 <==> forall i :: 0 <= i < |q| ==> !IsWaitingFor(q[i], providerId)
  {
    var waiting := Filter(q, WaitingFor(providerId));
    assert (exists i :: 0 <= i < |q| && IsWaitingFor(q[i], providerId)) ==> waiting != [] by {
      if i :| 0 <= i < |q| && IsWaitingFor(q[i], providerId) {
        FilterMembership(q, WaitingFor(providerId), q[i]);
      }
    }
    assert waiting != [] ==> exists i :: 0 <= i < |q| && IsWaitingFor(q[i], providerId) by {
      if waiting != [] {
        FilterMembership(q, WaitingFor(providerId), waiting[0]);
      }
    }
    |waiting|
  }

  /** Entry `i` waits for the provider, no waiting entry has a smaller position,
      and every waiting entry before it in insertion order has a larger one:
      the head of the waiting list after a stable sort by position. */
  ghost predicate IsNextWaiting(q: seq<QueueEntry>, providerId: string, i: nat)
  {
    && i < |q|
    && IsWaitingFor(q[i], providerId)
    && (forall j :: 0 <= j < |q| && IsWaitingFor(q[j], providerId) ==> q[i].position <= q[j].position)
    && (forall j :: 0 <= j < i && IsWaitingFor(q[j], providerId) ==> q[i].position < q[j].position)
  }

  /** The entry `inviteNextPatient` invites, or None when nobody waits. */
  function NextWaiting(q: seq<QueueEntry>, providerId: string): (r: Option<nat>)
    ensures r.Some? ==> IsNextWaiting(q, providerId, r.value)
    ensures r.None? <==> forall j :: 0 <= j < |q| ==> !IsWaitingFor(q[j], providerId)
  {
    if q == [] then None
    else
      assert forall j :: 1 <= j < |q| ==> q[j] == q[1..][j - 1];
      match NextWaiting(q[1..], providerId)
      case None =>
        if IsWaitingFor(q[0], providerId) then Some(0) else None
      case Some(i) =>
        if IsWaitingFor(q[0], providerId) && q[0].position <= q[i + 1].position then Some(0)
        else Some(i + 1)
  }

  /** The first waiting entry with position `m` heads the entries of that
      position in the waiting list. */
  lemma {:induction false} FirstWithPosition(q: seq<QueueEntry>, providerId: string, i: nat)
    requires i < |q| && IsWaitingFor(q[i], providerId)
    requires forall j :: 0 <= j < i && IsWaitingFor(q[j], providerId) ==> q[j].position != q[i].position
    ensures var w := WithKey(Filter(q, WaitingFor(providerId)), Position, Position(q[i]));
      w != [] && w[0] == q[i]
  {
    var f := Filter(q, WaitingFor(providerId));
    var ft := Filter(q[1..], WaitingFor(providerId));
    assert f == (if IsWaitingFor(q[0], providerId) then [q[0]] else []) + ft;
    if i == 0 {
      assert f == [q[0]] + ft;
    } else {
      assert forall j :: 0 <= j < i - 1 ==> q[1..][j] == q[j + 1];
      FirstWithPosition(q[1..], providerId, i - 1);
      if IsWaitingFor(q[0], providerId) {
        assert f == [q[0]] + ft;
        assert f[1..] == ft;
      } else {
        assert f == ft;
      }
    }
  }

  /** The head of the provider's stably sorted waiting list is one of its
      waiting entries with the lowest position. */
  lemma SortedWaitingHead(q: seq<QueueEntry>, providerId: string)
    ensures var f := Filter(q, WaitingFor(providerId));
      var sorted := SortBy(f, Position);
      && (sorted == [] <==> f == [])
      && (sorted != [] ==> sorted[0] in q && IsWaitingFor(sorted[0], providerId))
      && (sorted != [] ==> forall e :: e in f ==> Position(sorted[0]) <= Position(e))
  {
    var f := Filter(q, WaitingFor(providerId));
    var sorted := SortBy(f, Position);
    SortByPermutes(f, Position);
    SortBySorted(f, Position);
    if sorted != [] {
      assert sorted[0] in multiset(f);
      FilterMembership(q, WaitingFor(providerId), sorted[0]);
      forall e | e in f ensures Position(sorted[0]) <= Position(e) {
        assert e in multiset(sorted);
        var k :| 0 <= k < |sorted| && sorted[k] == e;
        if k > 0 {
          assert Position(sorted[0]) <= Position(sorted[k]);
        }
      }
    }
  }

  /** NextWaiting is what the source computes: the head of the provider's
      waiting entries after a stable sort by position. */
  lemma NextWaitingIsSortedHead(q: seq<QueueEntry>, providerId: string)
    ensures var sorted := SortBy(Filter(q, WaitingFor(providerId)), Position);
      && (NextWaiting(q, providerId).None? <==> sorted == [])
      && (NextWaiting(q, providerId).Some? ==> sorted[0] == q[NextWaiting(q, providerId).value])
  {
    var f := Filter(q, WaitingFor(providerId));
    var sorted := SortBy(f, Position);
    SortedWaitingHead(q, providerId);
    match NextWaiting(q, providerId)
    case None =>
    case Some(i) =>
      FilterMembership(q, WaitingFor(providerId), q[i]);
      var j :| 0 <= j < |q| && q[j] == sorted[0];
      assert q[i].position <= q[j].position;
      var m := Position(q[i]);
      assert Position(sorted[0]) == m;
      FirstWithPosition(q, providerId, i);
      SortByStable(f, Position, m);
      assert WithKey(sorted, Position, m)[0] == sorted[0];
  }
}
