/** The records the service keeps in memory: providers with their availability
    slots, bookings, payments and virtual-queue entries. Fields that are only
    displayed (address, coordinates, reviews, biography, time stamps) are not
    part of this model. */
module Domain {
  import opened Collections

  /** Minutes of waiting assumed per patient ahead in a queue. */
  const MinutesPerPatient: int := 15

  datatype Slot = Slot(id: string, date: string, time: string, available: bool)

  datatype Provider = Provider(
    id: string,
    name: string,
    specialty: string,
    rating: real,
    estimatedCost: real,
    queueLength: int,            // cached counter, kept by the queue operations
    availabilitySlots: seq<Slot>,
    tags: seq<string>)

  datatype BookingStatus = Pending | Confirmed
  datatype PaymentStatus = Unpaid | Paid

  datatype Booking = Booking(
    bookingId: string,
    providerId: string,
    slotId: string,
    userId: string,
    status: BookingStatus,
    paymentStatus: PaymentStatus,
    paymentToken: Option<string>)

  datatype PaymentState = Completed

  datatype Payment = Payment(
    paymentToken: string,
    bookingId: string,
    amount: real,
    currency: string,
    status: PaymentState,
    eReceiptUrl: string,
    cardLast4: string,
    cardBrand: string)

  datatype EntryStatus = Waiting | Invited

  datatype QueueEntry = QueueEntry(
    token: string,
    providerId: string,
    userId: string,
    position: int,
    estimatedWait: int,
    status: EntryStatus)

  /** The errors the service throws. */
  datatype Error = ProviderNotFound | QueueEntryNotFound

  datatype Result<+T> = Ok(value: T) | Err(error: Error)

  /** The message each error is thrown with; the two are distinct. */
  function ErrorMessage(e: Error): (m: string)
    ensures e.ProviderNotFound? <==> m == "Provider not found"
    ensures e.QueueEntryNotFound? <==> m == "Queue entry not found"
  {
    match e
    case ProviderNotFound => "Provider not found"
    case QueueEntryNotFound => "Queue entry not found"
  }

  function HasId(id: string): Provider -> bool
  {
    (p: Provider) => p.id == id
  }

  /** `providers.find(p => p.id === id)`: the first provider with that id. */
  function FindProvider(providers: seq<Provider>, id: string): (r: Option<nat>)
    ensures r.Some? ==> r.value < |providers| && providers[r.value].id == id
    ensures r.Some? ==> forall j :: 0 <= j < r.value ==> providers[j].id != id
    ensures r.None? <==> forall j :: 0 <= j < |providers| ==> providers[j].id != id
  {
    FirstIndex(providers, HasId(id))
  }

  /** `Math.max(0, n - 1)`: a counter decremented without going below zero. */
  function DecrementFloored(n: int): (r: int)
    ensures r >= 0
    ensures n >= 1 ==> r == n - 1
    ensures n <= 1 ==> r == 0
  {
    if n - 1 > 0 then n - 1 else 0
  }
}
