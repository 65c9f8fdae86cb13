/**
 The per-account FairPlay circuit breaker. The code keeps two fields for an
 account and closes an expired circuit only when somebody asks about it. The
 reference (`Book`) instead remembers every trip since the account was last
 inserted. All the laws are about histories of calls in which the clock never
 runs backwards.
 */
module Breaker {
  import opened Outcomes

  const FAIL_THRESHOLD := 5
  const COOLDOWN := 300 * SECOND

  /** `openUntil` is None for Go's zero time. */
  datatype Circuit = Circuit(fails: int, openUntil: Option<nat>)

  type Table = map<string, Circuit>

  /** One call on the table with the clock readings made under its lock. A
      failure reads the clock to test the circuit and again to stamp a trip. */
  datatype Event =
    | Failure(id: string, checked: nat, stamped: nat)
    | Query(id: string, now: nat)
    | Reset(id: string)

  const CLOSED := Circuit(0, None)

  function Lookup(m: Table, id: string): Circuit {
    if id in m then m[id] else CLOSED
  }

  // ----- histories and their clock

  function Clock(h: Trace<Event>): nat {
    if h.Start? then 0 else
      match h.last
      case Failure(_, _, stamped) => stamped
      case Query(_, now) => now
      case Reset(_) => Clock(h.before)
  }

  predicate Follows(clock: nat, e: Event) {
    match e
    case Failure(_, checked, stamped) => clock <= checked <= stamped
    case Query(_, now) => clock <= now
    case Reset(_) => true
  }

  predicate Timely(h: Trace<Event>) {
    h.Start? || (Timely(h.before) && Follows(Clock(h.before), h.last))
  }

  // ----- what the code does to its table

  predicate Blocks(c: Circuit, checked: nat) {
    c.openUntil.Some? && checked < c.openUntil.value
  }

  predicate Expired(c: Circuit, now: nat) {
    c.openUntil.Some? && now > c.openUntil.value
  }

  predicate Trips(c: Circuit, checked: nat) {
    !Blocks(c, checked) && c.fails + 1 >= FAIL_THRESHOLD
  }

  function Next(m: Table, e: Event): Table {
    match e
    case Reset(id) => m - {id}
    case Query(id, now) => if Expired(Lookup(m, id), now) then m[id := CLOSED] else m
    case Failure(id, checked, stamped) =>
      var c := Lookup(m, id);
      if Blocks(c, checked) then m
      else if Trips(c, checked) then m[id := Circuit(0, Some(stamped + COOLDOWN))]
      else m[id := c.(fails := c.fails + 1)]
  }

  function Run(h: Trace<Event>): Table {
    if h.Start? then map[] else Next(Run(h.before), h.last)
  }

  // ----- the reference: a full account book per id

  /** Everything that happened to one account since its last reset. */
  datatype Ledger = Ledger(
    recorded: nat,     // failures reported
    suppressed: nat,   // of those, reported while a cooldown was running
    trips: seq<nat>,   // when the circuit opened, oldest first
    pending: nat,      // counted towards the next trip
    noticed: bool,     // a query has seen the last trip expire
    dropped: nat,      // counted, then forgotten by such a query
    closes: nat)       // how many queries did that

  const FRESH := Ledger(0, 0, [], 0, false, 0, 0)

  /** A trip is recent for a query up to and including its last instant ... */
  predicate RecentTrip(trips: seq<nat>, now: nat) {
    exists i :: 0 <= i < |trips| && now <= trips[i] + COOLDOWN
  }

  /** ... but no longer holds failures back at that instant. */
  predicate CoolingDown(trips: seq<nat>, at: nat) {
    exists i :: 0 <= i < |trips| && at < trips[i] + COOLDOWN
  }

  function Entered(b: Ledger, e: Event): Ledger {
    match e
    case Reset(_) => FRESH
    case Query(_, now) =>
      if b.trips != [] && !b.noticed && !RecentTrip(b.trips, now)
      then b.(pending := 0, noticed := true, dropped := b.dropped + b.pending, closes := b.closes + 1)
      else b
    case Failure(_, checked, stamped) =>
      var r := b.(recorded := b.recorded + 1);
      if CoolingDown(b.trips, checked) then r.(suppressed := b.suppressed + 1)
      else if b.pending == FAIL_THRESHOLD - 1
      then r.(trips := b.trips + [stamped], pending := 0, noticed := false)
      else r.(pending := b.pending + 1)
  }

  function Book(h: Trace<Event>, id: string): Ledger {
    if h.Start? then FRESH
    else
      var b := Book(h.before, id);
      if h.last.id == id then Entered(b, h.last) else b
  }

  predicate Matches(c: Circuit, b: Ledger) {
    && c.fails == b.pending < FAIL_THRESHOLD
    && c.openUntil == if b.trips == [] || b.noticed then None
                      else Some(b.trips[|b.trips| - 1] + COOLDOWN)
  }

  predicate Spaced(trips: seq<nat>) {
    forall i, j :: 0 <= i < j < |trips| ==> trips[i] + COOLDOWN <= trips[j]
  }

  /** All that the proofs keep about a ledger while the clock shows `clock`. */
  predicate Sound(b: Ledger, clock: nat) {
    && Spaced(b.trips)
    && (b.trips != [] ==> b.trips[|b.trips| - 1] <= clock)
    && (b.noticed ==> b.trips != [] && b.trips[|b.trips| - 1] + COOLDOWN < clock)
    && b.recorded == b.suppressed + FAIL_THRESHOLD * |b.trips| + b.pending + b.dropped
    && b.pending < FAIL_THRESHOLD
    && b.dropped <= (FAIL_THRESHOLD - 1) * b.closes
    && b.closes + (if b.trips != [] && !b.noticed then 1 else 0) <= |b.trips|
  }

  /** The table the code keeps is a faithful summary of the account books. */
  lemma {:induction false} TableMatchesBooks(h: Trace<Event>, id: string)
    requires Timely(h)
    ensures Matches(Lookup(Run(h), id), Book(h, id))
    ensures Sound(Book(h, id), Clock(h))
  {
    if h.Start? {
    } else {
      TableMatchesBooks(h.before, id);
      if h.last.id == id {
        StepMatches(Run(h.before), Book(h.before, id), Clock(h.before), h.last);
      }
    }
  }

  lemma StepMatches(m: Table, b: Ledger, clock: nat, e: Event)
    requires Matches(Lookup(m, e.id), b) && Sound(b, clock) && Follows(clock, e)
    ensures Matches(Lookup(Next(m, e), e.id), Entered(b, e))
    ensures Sound(Entered(b, e), match e case Failure(_, _, s) => s case Query(_, n) => n case Reset(_) => clock)
  {
    match e
    case Reset(_) =>
    case Query(_, now) => LastTripDecides(b.trips, now);
    case Failure(_, checked, _) => LastTripDecides(b.trips, checked);
  }

  lemma LastTripDecides(trips: seq<nat>, t: nat)
    requires Spaced(trips)
    ensures RecentTrip(trips, t) <==> trips != [] && t <= trips[|trips| - 1] + COOLDOWN
    ensures CoolingDown(trips, t) <==> trips != [] && t < trips[|trips| - 1] + COOLDOWN
  {
  }

  // ----- the laws

  /** Asking the code is asking whether some trip since the last reset is recent. */
  lemma OpenIffRecentTrip(h: Trace<Event>, id: string, now: nat)
    requires Timely(h) && Clock(h) <= now
    ensures var c := Lookup(Run(h), id);
            (c.openUntil.Some? && !Expired(c, now)) <==> RecentTrip(Book(h, id).trips, now)
  {
    TableMatchesBooks(h, id);
    LastTripDecides(Book(h, id).trips, now);
  }

  /** The code's test for opening the circuit is the ledger's. */
  lemma TripIffFifthCounted(h: Trace<Event>, id: string, checked: nat)
    requires Timely(h) && Clock(h) <= checked
    ensures Trips(Lookup(Run(h), id), checked) <==>
            !CoolingDown(Book(h, id).trips, checked) && Book(h, id).pending == FAIL_THRESHOLD - 1
    ensures Blocks(Lookup(Run(h), id), checked) <==> CoolingDown(Book(h, id).trips, checked)
  {
    TableMatchesBooks(h, id);
    LastTripDecides(Book(h, id).trips, checked);
  }

  /** Failures of `id` reported after its last reset, read off the raw history. */
  function ReportedSinceReset(h: Trace<Event>, id: string): nat {
    if h.Start? then 0
    else
      var n := ReportedSinceReset(h.before, id);
      match h.last
      case Failure(i, _, _) => if i == id then n + 1 else n
      case Reset(i) => if i == id then 0 else n
      case Query(_, _) => n
  }

  lemma {:induction false} RecordedIsReported(h: Trace<Event>, id: string)
    ensures Book(h, id).recorded == ReportedSinceReset(h, id)
  {
    if h.Start? {
    } else {
      RecordedIsReported(h.before, id);
    }
  }

  /** No failure is lost or counted twice: each one was held back, spent on a
      trip, is in the code's counter, or was forgotten by a lazy close, and
      there are at most four of the last kind for every trip. */
  lemma FailuresConserved(h: Trace<Event>, id: string)
    requires Timely(h)
    ensures var b, fails := Book(h, id), Lookup(Run(h), id).fails;
            && 0 <= fails < FAIL_THRESHOLD
            && ReportedSinceReset(h, id) == b.suppressed + FAIL_THRESHOLD * |b.trips| + fails + b.dropped
            && b.dropped <= (FAIL_THRESHOLD - 1) * b.closes
            && b.closes <= |b.trips|
  {
    TableMatchesBooks(h, id);
    RecordedIsReported(h, id);
  }

  function TripsWithin(trips: seq<nat>, from: int, to: int): nat {
    if trips == [] then 0
    else TripsWithin(trips[..|trips| - 1], from, to)
         + (if from <= trips[|trips| - 1] <= to then 1 else 0)
  }

  lemma {:induction false} LaterBoundIrrelevant(trips: seq<nat>, from: int, to: int, to': int)
    requires to <= to'
    requires forall i :: 0 <= i < |trips| ==> trips[i] <= to
    ensures TripsWithin(trips, from, to) == TripsWithin(trips, from, to')
  {
    if trips == [] {
    } else {
      LaterBoundIrrelevant(trips[..|trips| - 1], from, to, to');
    }
  }

  lemma {:induction false} NoneBefore(trips: seq<nat>, from: int, to: int)
    requires forall i :: 0 <= i < |trips| ==> trips[i] < from
    ensures TripsWithin(trips, from, to) == 0
  {
    if trips == [] {
    } else {
      NoneBefore(trips[..|trips| - 1], from, to);
    }
  }

  lemma {:induction false} SpacedTripsAreFew(trips: seq<nat>, from: int, to: int)
    requires Spaced(trips) && from <= to
    ensures TripsWithin(trips, from, to) <= (to - from) / COOLDOWN + 1
  {
    if trips == [] {
    } else {
      var front, last := trips[..|trips| - 1], trips[|trips| - 1];
      if from <= last <= to {
        if last - COOLDOWN < from {
          NoneBefore(front, from, to);
        } else {
          LaterBoundIrrelevant(front, from, last - COOLDOWN, to);
          SpacedTripsAreFew(front, from, last - COOLDOWN);
        }
      } else {
        SpacedTripsAreFew(front, from, to);
      }
    }
  }

  /** Between two resets an account cannot be shut out more often than once per
      cooldown, however its failures and the queries interleave. */
  lemma TripRateBounded(h: Trace<Event>, id: string, from: nat, width: nat)
    requires Timely(h)
    ensures TripsWithin(Book(h, id).trips, from, from + width) <= width / COOLDOWN + 1
  {
    TableMatchesBooks(h, id);
    SpacedTripsAreFew(Book(h, id).trips, from, from + width);
  }

  function Burst(h: Trace<Event>, id: string, at: nat, n: nat): Trace<Event> {
    if n == 0 then h else Then(Burst(h, id, at, n - 1), Failure(id, at, at))
  }

  lemma {:induction false} CountUp(h: Trace<Event>, id: string, at: nat, n: nat)
    requires n < FAIL_THRESHOLD && Timely(h) && Clock(h) <= at
    requires Lookup(Run(h), id).fails == 0 && !Blocks(Lookup(Run(h), id), at)
    ensures var h', c := Burst(h, id, at, n), Lookup(Run(h), id);
            && Timely(h') && Clock(h') <= at
            && Lookup(Run(h'), id) == c.(fails := n)
  {
    if n == 0 {
    } else {
      CountUp(h, id, at, n - 1);
    }
  }

  // ----- five failures in a row

  /** The history `h` continued by the calls of `more`. */
  function Continued(h: Trace<Event>, more: Trace<Event>): Trace<Event> {
    if more.Start? then h else Then(Continued(h, more.before), more.last)
  }

  function FailuresIn(more: Trace<Event>, id: string): nat {
    if more.Start? then 0
    else FailuresIn(more.before, id) + (if more.last.Failure? && more.last.id == id then 1 else 0)
  }

  /** `more` does not reset the account, and none of its failures falls into a
      cooldown of the trips given. */
  predicate Unhindered(trips: seq<nat>, more: Trace<Event>, id: string) {
    more.Start? ||
    (Unhindered(trips, more.before, id)
     && (more.last.id == id ==> !more.last.Reset? && (more.last.Failure? ==> !CoolingDown(trips, more.last.checked))))
  }

  /** Some query of the account was late enough to see the last trip expired. */
  predicate SawExpiry(trips: seq<nat>, h: Trace<Event>, id: string) {
    h.Then? && (SawExpiry(trips, h.before, id) || SeesExpiry(trips, h.last, id))
  }

  predicate SeesExpiry(trips: seq<nat>, e: Event, id: string) {
    e.Query? && e.id == id && trips != [] && e.now > trips[|trips| - 1] + COOLDOWN
  }

  /** After some failure in `more` comes the first query of all that is late
      enough to see the last trip of `h` expired. */
  predicate FirstLookAfterFailure(trips: seq<nat>, h: Trace<Event>, more: Trace<Event>, id: string) {
    more.Then? &&
    (FirstLookAfterFailure(trips, h, more.before, id)
     || (SeesExpiry(trips, more.last, id) && FailuresIn(more.before, id) > 0
         && !SawExpiry(trips, Continued(h, more.before), id)))
  }

  lemma {:induction false} QueriesAreNotLater(trips: seq<nat>, h: Trace<Event>, id: string)
    requires Timely(h) && trips != [] && Clock(h) <= trips[|trips| - 1] + COOLDOWN
    ensures !SawExpiry(trips, h, id)
  {
    if h.Start? {
    } else {
      QueriesAreNotLater(trips, h.before, id);
    }
  }

  /** The ledger's note that the last trip was seen to expire is a fact about the
      queries that were made. */
  lemma {:induction false} NoticedIffSeen(h: Trace<Event>, id: string)
    requires Timely(h)
    ensures Book(h, id).noticed <==> SawExpiry(Book(h, id).trips, h, id)
  {
    if h.Start? {
    } else {
      NoticedIffSeen(h.before, id);
      TableMatchesBooks(h.before, id);
      var before, after := Book(h.before, id).trips, Book(h, id).trips;
      if after != before && after != [] {
        QueriesAreNotLater(after, h.before, id);
      } else if after == [] {
        NoTripNoExpiry(h, id);
      } else if h.last.Query? {
        LastTripDecides(before, h.last.now);
      }
    }
  }

  lemma {:induction false} NoTripNoExpiry(h: Trace<Event>, id: string)
    ensures !SawExpiry([], h, id)
  {
    if h.Start? {
    } else {
      NoTripNoExpiry(h.before, id);
    }
  }

  lemma {:induction false} CountsOrForgets(h: Trace<Event>, more: Trace<Event>, id: string)
    requires Timely(Continued(h, more)) && Book(h, id).pending == 0
    requires Unhindered(Book(h, id).trips, more, id) && FailuresIn(more, id) < FAIL_THRESHOLD
    ensures Timely(h)
    ensures var b := Book(Continued(h, more), id);
            && b.trips == Book(h, id).trips
            && b.pending <= FailuresIn(more, id)
            && (b.pending == FailuresIn(more, id) <==> !FirstLookAfterFailure(b.trips, h, more, id))
  {
    if more.Start? {
    } else {
      var g := Continued(h, more.before);
      CountsOrForgets(h, more.before, id);
      if more.last.id == id && more.last.Query? {
        NoticedIffSeen(g, id);
        TableMatchesBooks(g, id);
        LastTripDecides(Book(g, id).trips, more.last.now);
      }
    }
  }

  /** When do five failures in a row open the circuit? Let the counter stand at
      zero and let five failures come, none of them during a cooldown, with any
      queries in between. The fifth opens the circuit exactly when none of those
      queries is the first of all to come after the last cooldown ended. */
  lemma FifthInARowTripsIff(h: Trace<Event>, more: Trace<Event>, id: string, checked: nat)
    requires Timely(Continued(h, more)) && Clock(Continued(h, more)) <= checked
    requires Timely(h) && Lookup(Run(h), id).fails == 0
    requires FailuresIn(more, id) == FAIL_THRESHOLD - 1
    requires Unhindered(Book(h, id).trips, more, id) && !CoolingDown(Book(h, id).trips, checked)
    ensures Trips(Lookup(Run(Continued(h, more)), id), checked)
            <==> !FirstLookAfterFailure(Book(h, id).trips, h, more, id)
  {
    TableMatchesBooks(h, id);
    CountsOrForgets(h, more, id);
    TripIffFifthCounted(Continued(h, more), id, checked);
  }

  /** Five failures in a row need not open the circuit: a query between the
      fourth and the fifth that is the first to see an old trip expire makes the
      code forget the four. `FifthInARowTripsIff` is the exact condition. */
  lemma FiveInARowMayNotTrip(id: string)
    ensures var late := COOLDOWN + 1;
            var h := Burst(Burst(Start, id, 0, 5), id, late, 4);
            && Timely(Then(h, Query(id, late)))
            && Trips(Lookup(Run(h), id), late)
            && !Trips(Lookup(Run(Then(h, Query(id, late))), id), late)
  {
    CountUp(Start, id, 0, 4);
    CountUp(Burst(Start, id, 0, 5), id, COOLDOWN + 1, 4);
  }

  // ----- in figures

  lemma {:induction false} FailuresTrip(id: string, at: nat, n: nat)
    requires n <= 5
    ensures var h := Burst(Start, id, at, n);
            && Timely(h) && Clock(h) <= at
            && (n < 5 ==> Book(h, id).trips == [] && Book(h, id).pending == n)
            && (n == 5 ==> Book(h, id).trips == [at])
  {
    if n == 0 {
    } else {
      FailuresTrip(id, at, n - 1);
    }
  }

  predicate OpenAt(h: Trace<Event>, id: string, now: nat) {
    Lookup(Run(h), id).openUntil.Some? && !Expired(Lookup(Run(h), id), now)
  }

  /** Four failures do not shut an account out; five at one time do, for queries up
      to and including 300 s later and not one nanosecond longer, while at that
      very instant failures are counted again. */
  lemma FiveShutOutFor300s(id: string, at: nat, now: nat)
    requires at <= now
    ensures !OpenAt(Burst(Start, id, at, 4), id, now)
    ensures OpenAt(Burst(Start, id, at, 5), id, now) <==> now <= at + 300_000_000_000
    ensures Blocks(Lookup(Run(Burst(Start, id, at, 5)), id), now) <==> now < at + 300_000_000_000
  {
    FailuresTrip(id, at, 4);
    FailuresTrip(id, at, 5);
    LastTripDecides([at], now);
    OpenIffRecentTrip(Burst(Start, id, at, 4), id, now);
    OpenIffRecentTrip(Burst(Start, id, at, 5), id, now);
    TripIffFifthCounted(Burst(Start, id, at, 5), id, now);
  }

  // ----- the breaker the manager holds

  /** `fairplayCircuits`: every method runs under its lock. */
  class CircuitTable {
    var m: Table
    ghost var history: Trace<Event>

    ghost predicate Valid()
      reads this
    {
      Timely(history) && m == Run(history)
    }

    constructor ()
      ensures Valid() && history == Start
    {
      m := map[];
      history := Start;
    }

    /** Calls made by others in the meantime. */
    method Others(events: Trace<Event>)
      requires Valid() && Timely(Continued(history, events))
      modifies this
      ensures Valid() && history == Continued(old(history), events)
      decreases events
    {
      if events.Then? {
        Others(events.before);
        m := Next(m, events.last);
        history := Then(history, events.last);
      }
    }

    /** Reports whether the account is shut out, and closes an expired circuit. */
    method CircuitOpen(id: string, now: nat) returns (open: bool)
      requires Valid() && Clock(history) <= now
      modifies this
      ensures Valid() && history == Then(old(history), Query(id, now))
      ensures open <==> RecentTrip(Book(old(history), id).trips, now)
    {
      OpenIffRecentTrip(history, id, now);
      history := Then(history, Query(id, now));
      if id !in m || m[id].openUntil == None {
        return false;
      }
      var st := m[id];
      if now > st.openUntil.value {
        st := st.(openUntil := None);
        st := st.(fails := 0);
        m := m[id := st];
        return false;
      }
      return true;
    }

    /** Counts a failure; true when this one opened the circuit. */
    method RecordFailure(id: string, checked: nat, stamped: nat) returns (justOpened: bool)
      requires Valid() && Clock(history) <= checked <= stamped
      modifies this
      ensures Valid() && history == Then(old(history), Failure(id, checked, stamped))
      ensures justOpened <==> Book(history, id).trips == Book(old(history), id).trips + [stamped]
      ensures justOpened <==> !CoolingDown(Book(old(history), id).trips, checked)
                              && Book(old(history), id).pending == FAIL_THRESHOLD - 1
    {
      TripIffFifthCounted(history, id, checked);
      var st := if id in m then m[id] else Circuit(0, None);
      history := Then(history, Failure(id, checked, stamped));
      if id !in m {
        m := m[id := st];
      }
      if st.openUntil.Some? && checked < st.openUntil.value {
        return false;
      }
      st := st.(fails := st.fails + 1);
      if st.fails >= FAIL_THRESHOLD {
        st := st.(openUntil := Some(stamped + COOLDOWN));
        st := st.(fails := 0);
        m := m[id := st];
        return true;
      }
      m := m[id := st];
      return false;
    }

    method ResetCircuit(id: string)
      requires Valid()
      modifies this
      ensures Valid() && history == Then(old(history), Reset(id))
      ensures Book(history, id) == FRESH
    {
      history := Then(history, Reset(id));
      m := m - {id};
    }
  }
}
