/** The in-memory repository behind the service: the providers, bookings and
    payments arrays and the `queueTokens` map, and the operations that read and
    update them in place. Ids the source mints with `generateId` arrive as
    parameters, and so does the outcome of the random draw in `getQueueStatus`. */
module Store {
  import opened Collections
  import opened Domain
  import opened Queue
  import opened Records
  import opened Sorting

  datatype JoinResult = JoinResult(token: string, position: int, estimatedWait: int)
  datatype StatusView = StatusView(token: string, position: int, eta: int, status: EntryStatus)
  datatype Invitee = Invitee(token: string, userId: string)
  datatype InviteResult = InviteResult(message: string, invited: Option<Invitee>)
  datatype PostponeResult = PostponeResult(message: string, newPosition: int)
  datatype AvailabilityResult = AvailabilityResult(message: string, slots: seq<Slot>)

  function ForUser(userId: string): Booking -> bool
  {
    (b: Booking) => b.userId == userId
  }

  function HasBookingId(bookingId: string): Booking -> bool
  {
    (b: Booking) => b.bookingId == bookingId
  }

  class Repository {
    var providers: seq<Provider>
    var bookings: seq<Booking>
    var payments: seq<Payment>
    /** `queueTokens`: the map's entries in insertion order. */
    var queue: seq<QueueEntry>

    /** Tokens are distinct, and every entry's wait is 15 minutes per place. */
    ghost predicate Valid()
      reads this
    {
      && DistinctTokens(queue)
      && forall i :: 0 <= i < |queue| ==> queue[i].estimatedWait == queue[i].position * MinutesPerPatient
    }

    /** The repository seeded from fixture data, with an empty queue. */
    constructor (providers: seq<Provider>, bookings: seq<Booking>, payments: seq<Payment>)
      ensures Valid()
      ensures this.providers == providers && this.bookings == bookings && this.payments == payments
      ensures queue == []
    {
      this.providers := providers;
      this.bookings := bookings;
      this.payments := payments;
      queue := [];
    }

    /** `getProviderById`: the first provider with the id, or null. */
    function GetProviderById(id: string): (r: Option<Provider>)
      reads this
      ensures r.Some? <==> exists i :: 0 <= i < |providers| && providers[i].id == id
      ensures r.Some? ==> r.value.id == id && r.value in providers
      ensures r.Some? ==>
        exists i :: 0 <= i < |providers| && providers[i] == r.value && forall j :: 0 <= j < i ==> providers[j].id != id
    {
      match FindProvider(providers, id)
      case None => None
      case Some(i) => Some(providers[i])
    }

    /** `getUserBookings`: the user's bookings, in storage order (the order
        `FilterKeepsOrder` states of `Filter`). */
    function GetUserBookings(userId: string): (r: seq<Booking>)
      reads this
      ensures r == Filter(bookings, ForUser(userId))
      ensures forall b :: b in r ==> b.userId == userId
      ensures forall b :: multiset(r)[b] == if b.userId == userId then multiset(bookings)[b] else 0
    {
      FilterCounts(bookings, ForUser(userId));
      Filter(bookings, ForUser(userId))
    }

    /** `getProviderQueue`: every entry of the provider, waiting or invited,
        stably sorted by position, so entries sharing a position stay in the
        order they joined. */
    function GetProviderQueue(providerId: string): (r: seq<QueueEntry>)
      reads this
      ensures SortedBy(r, Position)
      ensures forall e :: multiset(r)[e] == if e.providerId == providerId then multiset(queue)[e] else 0
      ensures forall k :: WithKey(r, Position, k) == WithKey(Filter(queue, ForProvider(providerId)), Position, k)
    {
      var mine := Filter(queue, ForProvider(providerId));
      FilterCounts(queue, ForProvider(providerId));
      SortBySorted(mine, Position);
      SortByPermutes(mine, Position);
      assert forall k :: WithKey(SortBy(mine, Position), Position, k) == WithKey(mine, Position, k) by {
        forall k ensures WithKey(SortBy(mine, Position), Position, k) == WithKey(mine, Position, k) {
          SortByStable(mine, Position, k);
        }
      }
      SortBy(mine, Position)
    }

    /** `joinQueue`: a new waiting entry behind the provider's cached counter
        (position 1 for an unknown provider), and the counter bumped. */
    method JoinQueue(providerId: string, userId: string, token: string) returns (r: JoinResult)
      requires Valid()
      requires TokenIndex(queue, token).None?
      modifies this
      ensures Valid()
      ensures bookings == old(bookings) && payments == old(payments)
      ensures var pi := FindProvider(old(providers), providerId);
        var position := if pi.Some? then old(providers)[pi.value].queueLength + 1 else 1;
        && r == JoinResult(token, position, position * MinutesPerPatient)
        && queue == old(queue) + [QueueEntry(token, providerId, userId, position, position * MinutesPerPatient, Waiting)]
        && providers == if pi.Some?
             then old(providers)[pi.value := old(providers)[pi.value].(queueLength := old(providers)[pi.value].queueLength + 1)]
             else old(providers)
    {
      var pi := FindProvider(providers, providerId);
      var position := if pi.Some? then providers[pi.value].queueLength + 1 else 1;
      var estimatedWait := position * MinutesPerPatient;
      queue := queue + [QueueEntry(token, providerId, userId, position, estimatedWait, Waiting)];
      if pi.Some? {
        var p := providers[pi.value];
        providers := providers[pi.value := p.(queueLength := p.queueLength + 1)];
      }
      r := JoinResult(token, position, estimatedWait);
    }

    /** `getQueueStatus`: null for an unknown token; otherwise, when `decay`
        (the random draw) holds and the entry is past the front, the entry
        moves up one place. */
    method GetQueueStatus(token: string, decay: bool) returns (r: Option<StatusView>)
      requires Valid()
      modifies this
      ensures Valid()
      ensures providers == old(providers) && bookings == old(bookings) && payments == old(payments)
      ensures TokenIndex(old(queue), token).None? ==> r.None? && queue == old(queue)
      ensures TokenIndex(old(queue), token).Some? ==>
        var i := TokenIndex(old(queue), token).value;
        var e := old(queue)[i];
        && queue == old(queue)[i := if decay && e.position > 1 then MovedUp(e) else e]
        && (queue[i] == e || (e.position > 1 && queue[i].position == e.position - 1))
        && queue[i].position >= (if e.position < 1 then e.position else 1)
        && r == Some(StatusView(token, queue[i].position, queue[i].estimatedWait, e.status))
    {
      var found := TokenIndex(queue, token);
      if found.None? {
        return None;
      }
      var i := found.value;
      var e := queue[i];
      if decay && e.position > 1 {
        e := MovedUp(e);
        queue := queue[i := e];
      }
      r := Some(StatusView(e.token, e.position, e.estimatedWait, e.status));
    }

    /** `inviteNextPatient`: the waiting entry with the lowest position (the
        earliest-joined among equals) becomes invited, every other waiting entry
        of the provider moves up one place, and the counter drops by one. */
    method InviteNextPatient(providerId: string) returns (r: Result<InviteResult>)
      requires Valid()
      modifies this
      ensures Valid()
      ensures bookings == old(bookings) && payments == old(payments)
      ensures FindProvider(old(providers), providerId).None? ==>
        r == Err(ProviderNotFound) && providers == old(providers) && queue == old(queue)
      ensures FindProvider(old(providers), providerId).Some? && NextWaiting(old(queue), providerId).None? ==>
        r == Ok(InviteResult("No patients in queue", None)) && providers == old(providers) && queue == old(queue)
      ensures FindProvider(old(providers), providerId).Some? && NextWaiting(old(queue), providerId).Some? ==>
        var pi := FindProvider(old(providers), providerId).value;
        var i := NextWaiting(old(queue), providerId).value;
        && r == Ok(InviteResult("Patient invited", Some(Invitee(old(queue)[i].token, old(queue)[i].userId))))
        && |queue| == |old(queue)|
        && queue[i] == old(queue)[i].(status := Invited)
        && (forall j :: 0 <= j < |queue| && j != i ==>
              queue[j] == if IsWaitingFor(old(queue)[j], providerId) then MovedUp(old(queue)[j]) else old(queue)[j])
        && providers == old(providers)[pi := old(providers)[pi].(queueLength := DecrementFloored(old(providers)[pi].queueLength))]
    {
      var pi := FindProvider(providers, providerId);
      if pi.None? {
        return Err(ProviderNotFound);
      }
      var next := NextWaiting(queue, providerId);
      if next.None? {
        return Ok(InviteResult("No patients in queue", None));
      }
      var i := next.value;
      var invited := queue[i];
      var q0 := queue;
      var q := q0[i := invited.(status := Invited)];
      var j := 0;
      while j < |q|
        invariant 0 <= j <= |q| == |q0|
        invariant q[i] == q0[i].(status := Invited)
        invariant forall k :: 0 <= k < j && k != i ==>
          q[k] == if IsWaitingFor(q0[k], providerId) then MovedUp(q0[k]) else q0[k]
        invariant forall k :: j <= k < |q| && k != i ==> q[k] == q0[k]
      {
        if j != i && IsWaitingFor(q[j], providerId) {
          q := q[j := MovedUp(q[j])];
        }
        j := j + 1;
      }
      forall k | 0 <= k < |q|
        ensures q[k].token == q0[k].token
        ensures q[k].estimatedWait == q[k].position * MinutesPerPatient
      {
        if k != i && IsWaitingFor(q0[k], providerId) {
          assert q[k] == MovedUp(q0[k]);
        }
      }
      queue := q;
      var p := providers[pi.value];
      providers := providers[pi.value := p.(queueLength := DecrementFloored(p.queueLength))];
      r := Ok(InviteResult("Patient invited", Some(Invitee(invited.token, invited.userId))));
    }

    /** `postponePatient`: the entry's position becomes the number of entries
        waiting for its provider; no other entry and no counter changes. */
    method PostponePatient(token: string) returns (r: Result<PostponeResult>)
      requires Valid()
      modifies this
      ensures Valid()
      ensures providers == old(providers) && bookings == old(bookings) && payments == old(payments)
      ensures TokenIndex(old(queue), token).None? ==> r == Err(QueueEntryNotFound) && queue == old(queue)
      ensures TokenIndex(old(queue), token).Some? ==>
        var i := TokenIndex(old(queue), token).value;
        var e := old(queue)[i];
        var n := WaitingCount(old(queue), e.providerId);
        && queue == old(queue)[i := AtPosition(e, n)]
        && r == Ok(PostponeResult("Patient postponed", n))
    {
      var found := TokenIndex(queue, token);
      if found.None? {
        return Err(QueueEntryNotFound);
      }
      var i := found.value;
      var n := WaitingCount(queue, queue[i].providerId);
      queue := queue[i := AtPosition(queue[i], n)];
      r := Ok(PostponeResult("Patient postponed", n));
    }

    /** `cancelQueueEntry`: the entry is deleted, so the token no longer
        resolves, and its provider's counter drops by one. */
    method CancelQueueEntry(token: string) returns (r: Result<string>)
      requires Valid()
      modifies this
      ensures Valid()
      ensures bookings == old(bookings) && payments == old(payments)
      ensures TokenIndex(old(queue), token).None? ==>
        r == Err(QueueEntryNotFound) && queue == old(queue) && providers == old(providers)
      ensures TokenIndex(old(queue), token).Some? ==>
        var i := TokenIndex(old(queue), token).value;
        var pi := FindProvider(old(providers), old(queue)[i].providerId);
        && queue == old(queue)[..i] + old(queue)[i + 1..]
        && TokenIndex(queue, token).None?
        && r == Ok("Queue entry cancelled")
        && providers == if pi.Some?
             then old(providers)[pi.value := old(providers)[pi.value].(queueLength := DecrementFloored(old(providers)[pi.value].queueLength))]
             else old(providers)
    {
      var found := TokenIndex(queue, token);
      if found.None? {
        return Err(QueueEntryNotFound);
      }
      var i := found.value;
      var pi := FindProvider(providers, queue[i].providerId);
      if pi.Some? {
        var p := providers[pi.value];
        providers := providers[pi.value := p.(queueLength := DecrementFloored(p.queueLength))];
      }
      RemoveForgetsToken(queue, i);
      queue := queue[..i] + queue[i + 1..];
      r := Ok("Queue entry cancelled");
    }

    /** `createBooking`: one booking appended, confirmed and paid exactly when a
        payment token came with it, and the first matching slot of the first
        matching provider reserved; a missing provider or slot changes no slot. */
    method CreateBooking(providerId: string, slotId: string, userId: string, paymentToken: string, bookingId: string)
      returns (b: Booking)
      requires Valid()
      requires forall k :: 0 <= k < |bookings| ==> bookings[k].bookingId != bookingId
      modifies this
      ensures Valid()
      ensures b == NewBooking(bookingId, providerId, slotId, userId, paymentToken)
      ensures bookings == old(bookings) + [b]
      ensures queue == old(queue) && payments == old(payments)
      ensures var pi := FindProvider(old(providers), providerId);
        providers == if pi.Some?
          then old(providers)[pi.value := old(providers)[pi.value].(availabilitySlots := ReserveSlot(old(providers)[pi.value].availabilitySlots, slotId))]
          else old(providers)
      ensures forall u :: GetUserBookings(u) == old(GetUserBookings(u)) + (if u == userId then [b] else [])
    {
      b := NewBooking(bookingId, providerId, slotId, userId, paymentToken);
      bookings := bookings + [b];
      var pi := FindProvider(providers, providerId);
      if pi.Some? {
        var p := providers[pi.value];
        providers := providers[pi.value := p.(availabilitySlots := ReserveSlot(p.availabilitySlots, slotId))];
      }
      forall u ensures Filter(bookings, ForUser(u)) == Filter(old(bookings), ForUser(u)) + (if u == userId then [b] else []) {
        FilterAppend(old(bookings), [b], ForUser(u));
        assert [b][1..] == [];
      }
    }

    /** `processSandboxPayment`: always succeeds, records one completed USD
        payment under a fresh token, and settles the first booking with the id. */
    method ProcessSandboxPayment(bookingId: string, amount: real, paymentToken: string) returns (p: Payment)
      requires Valid()
      requires paymentToken != ""
      requires forall k :: 0 <= k < |payments| ==> payments[k].paymentToken != paymentToken
      modifies this
      ensures Valid()
      ensures p == SandboxPayment(paymentToken, bookingId, amount)
      ensures payments == old(payments) + [p]
      ensures queue == old(queue) && providers == old(providers)
      ensures var k := FirstIndex(old(bookings), HasBookingId(bookingId));
        bookings == if k.Some? then old(bookings)[k.value := Settled(old(bookings)[k.value], paymentToken)] else old(bookings)
    {
      p := SandboxPayment(paymentToken, bookingId, amount);
      payments := payments + [p];
      var k := FirstIndex(bookings, HasBookingId(bookingId));
      if k.Some? {
        bookings := bookings[k.value := Settled(bookings[k.value], paymentToken)];
      }
    }

    /** `updateProviderAvailability`: fails for an unknown provider, otherwise
        replaces the provider's whole slot list. */
    method UpdateProviderAvailability(providerId: string, slots: seq<SlotInput>, freshIds: seq<string>)
      returns (r: Result<AvailabilityResult>)
      requires Valid()
      requires |freshIds| == |slots|
      requires forall i :: 0 <= i < |freshIds| ==> freshIds[i] != ""
      modifies this
      ensures Valid()
      ensures queue == old(queue) && bookings == old(bookings) && payments == old(payments)
      ensures FindProvider(old(providers), providerId).None? ==>
        r == Err(ProviderNotFound) && providers == old(providers)
      ensures FindProvider(old(providers), providerId).Some? ==>
        var pi := FindProvider(old(providers), providerId).value;
        var replaced := ReplaceSlots(slots, freshIds);
        && providers == old(providers)[pi := old(providers)[pi].(availabilitySlots := replaced)]
        && r == Ok(AvailabilityResult("Availability updated", replaced))
        && GetProviderById(providerId).Some?
        && GetProviderById(providerId).value.availabilitySlots == replaced
    {
      var pi := FindProvider(providers, providerId);
      if pi.None? {
        return Err(ProviderNotFound);
      }
      var p := providers[pi.value];
      var replaced := ReplaceSlots(slots, freshIds);
      providers := providers[pi.value := p.(availabilitySlots := replaced)];
      assert FindProvider(providers, providerId) == pi by {
        assert forall j :: 0 <= j < |providers| ==> providers[j].id == old(providers)[j].id;
      }
      r := Ok(AvailabilityResult("Availability updated", replaced));
    }
  }
}
