/** The records the booking, payment and availability operations build, as
    values: a new booking, a sandbox payment receipt, a settled booking, a
    reserved slot list and a replaced slot list. */
module Records {
  import opened Collections
  import opened Domain

  /** The booking `createBooking` records. `paymentToken` is "" when the caller
      supplied none (undefined and the empty string are both falsy). */
  function NewBooking(bookingId: string, providerId: string, slotId: string, userId: string, paymentToken: string): (b: Booking)
    ensures b.bookingId == bookingId && b.providerId == providerId
    ensures b.slotId == slotId && b.userId == userId
    ensures b.status == Confirmed <==> paymentToken != ""
    ensures b.paymentStatus == Paid <==> paymentToken != ""
    ensures b.paymentToken.Some? <==> paymentToken != ""
    ensures b.paymentToken.Some? ==> b.paymentToken.value == paymentToken
  {
    var prepaid := paymentToken != "";
    Booking(bookingId, providerId, slotId, userId,
            if prepaid then Confirmed else Pending,
            if prepaid then Paid else Unpaid,
            if prepaid then Some(paymentToken) else None)
  }

  function HasSlotId(slotId: string): Slot -> bool
  {
    (s: Slot) => s.id == slotId
  }

  /** Slot `j` is the first in the list with that id. */
  ghost predicate IsFirstWithId(slots: seq<Slot>, slotId: string, j: nat)
  {
    j < |slots| && slots[j].id == slotId && forall i :: 0 <= i < j ==> slots[i].id != slotId
  }

  /** `slot.available = false` on the first slot with that id; every other slot
      is left as it is, and so is the whole list when no slot has the id. */
  function ReserveSlot(slots: seq<Slot>, slotId: string): (r: seq<Slot>)
    ensures |r| == |slots|
    ensures forall j :: 0 <= j < |slots| ==>
      r[j] == if IsFirstWithId(slots, slotId, j) then slots[j].(available := false) else slots[j]
    ensures (forall j :: 0 <= j < |slots| ==> slots[j].id != slotId) ==> r == slots
  {
    match FirstIndex(slots, HasSlotId(slotId))
    case None => slots
    case Some(i) => slots[i := slots[i].(available := false)]
  }

  /** The receipt `processSandboxPayment` records for a payment token it minted. */
  function SandboxPayment(paymentToken: string, bookingId: string, amount: real): (p: Payment)
    ensures p.paymentToken == paymentToken && p.bookingId == bookingId && p.amount == amount
    ensures p.currency == "USD" && p.status == Completed
    ensures p.eReceiptUrl == "/receipts/" + paymentToken + ".json"
    ensures p.cardLast4 == "4242" && p.cardBrand == "Visa"
  {
    Payment(paymentToken, bookingId, amount, "USD", Completed,
            "/receipts/" + paymentToken + ".json", "4242", "Visa")
  }

  /** A booking after its payment was settled. */
  function Settled(b: Booking, paymentToken: string): (r: Booking)
    ensures r.status == Confirmed && r.paymentStatus == Paid && r.paymentToken == Some(paymentToken)
    ensures r.bookingId == b.bookingId && r.providerId == b.providerId
    ensures r.slotId == b.slotId && r.userId == b.userId
  {
    b.(paymentStatus := Paid, paymentToken := Some(paymentToken), status := Confirmed)
  }

  /** A slot as the caller sends it: `id` is "" when absent, and `available`
      is None when the field is missing or holds anything but a boolean. */
  datatype SlotInput = SlotInput(id: string, date: string, time: string, available: Option<bool>)

  /** `slots.map(...)` in `updateProviderAvailability`; `freshIds[i]` is the id
      minted for slot `i` should it have none. */
  function ReplaceSlots(inputs: seq<SlotInput>, freshIds: seq<string>): (r: seq<Slot>)
    requires |freshIds| == |inputs|
    ensures |r| == |inputs|
    ensures forall i :: 0 <= i < |r| ==> r[i].date == inputs[i].date && r[i].time == inputs[i].time
    ensures forall i :: 0 <= i < |r| && inputs[i].id != "" ==> r[i].id == inputs[i].id
    ensures forall i :: 0 <= i < |r| && inputs[i].id == "" ==> r[i].id == freshIds[i]
    ensures forall i :: 0 <= i < |r| ==> (!r[i].available <==> inputs[i].available == Some(false))
    ensures (forall i :: 0 <= i < |freshIds| ==> freshIds[i] != "") ==> forall i :: 0 <= i < |r| ==> r[i].id != ""
  {
    seq(|inputs|, i requires 0 <= i < |inputs| =>
      Slot(if inputs[i].id != "" then inputs[i].id else freshIds[i],
           inputs[i].date, inputs[i].time, inputs[i].available != Some(false)))
  }

  /** The slots read back, as a caller sends them again (the provider panel does this). */
  function AsInputs(slots: seq<Slot>): (r: seq<SlotInput>)
    ensures |r| == |slots|
  {
    seq(|slots|, i requires 0 <= i < |slots| =>
      SlotInput(slots[i].id, slots[i].date, slots[i].time, Some(slots[i].available)))
  }

  /** Sending back the slots read, all of which carry an id, changes nothing;
      so replacing the list a second time with what the first produced is the identity. */
  lemma ResendIsIdentity(slots: seq<Slot>, freshIds: seq<string>)
    requires |freshIds| == |slots|
    requires forall i :: 0 <= i < |slots| ==> slots[i].id != ""
    ensures ReplaceSlots(AsInputs(slots), freshIds) == slots
  {
    var r := ReplaceSlots(AsInputs(slots), freshIds);
    assert forall i :: 0 <= i < |slots| ==> r[i] == slots[i];
  }
}
