/** The simulated recognition feed of the live page: every 5 seconds, while
    scanning, a random event is put at the head of the list, which keeps at
    most 20 events. The `Math.random()` calls of one tick are a `Draw` of
    numbers in [0, 1); the clock reading (`Date.now()`) and the formatted
    time are parameters. */
module LiveFeed {
  import opened Common

  /** The most events the feed keeps. */
  const FeedLimit: nat := 20

  datatype Status = Recognized | Unknown

  datatype Event = Event(id: string, name: string, confidence: real, time: string, status: Status)

  /** The names a known draw picks from. */
  const Names: seq<string> := ["Budi Santoso", "Dewi Lestari", "Rizki Pratama", "Maya Putri"]

  const UnknownName := "Unknown Person"

  /** The feed the page starts with. */
  const Seeded: seq<Event> := [
    Event("1", "Ahmad Fauzi", 98.5, "08:02", Recognized),
    Event("2", "Siti Nurhaliza", 97.2, "08:15", Recognized),
    Event("3", "Unknown Person", 32.1, "08:20", Unknown)
  ]

  /** The random numbers of one tick, in the order they are drawn. A known
      event draws three: known-or-not, the name, the confidence. An unknown
      event draws two, so its confidence comes from the second number and
      `confidenceRoll` is unused. */
  datatype Draw = Draw(knownRoll: real, nameRoll: real, confidenceRoll: real)

  predicate ValidDraw(d: Draw)
  {
    0.0 <= d.knownRoll < 1.0 && 0.0 <= d.nameRoll < 1.0 && 0.0 <= d.confidenceRoll < 1.0
  }

  /** `Math.floor(roll * names.length)`. */
  function NameIndex(roll: real): (i: int)
    requires 0.0 <= roll < 1.0
    ensures 0 <= i < |Names|
    ensures i as real <= roll * 4.0 < i as real + 1.0
  {
    (roll * 4.0).Floor
  }

  /** The event one tick makes. */
  function MakeEvent(d: Draw, now: nat, time: string): (e: Event)
    requires ValidDraw(d)
    ensures e.id == NatToString(now) && e.time == time
    ensures d.knownRoll > 0.3 ==> e.status == Recognized && e.name in Names && 85.0 <= e.confidence < 100.0
    ensures d.knownRoll <= 0.3 ==> e.status == Unknown && e.name == UnknownName && 20.0 <= e.confidence < 45.0
  {
    if d.knownRoll > 0.3 then
      Event(NatToString(now), Names[NameIndex(d.nameRoll)], 85.0 + d.confidenceRoll * 15.0, time, Recognized)
    else
      Event(NatToString(now), UnknownName, 20.0 + d.nameRoll * 25.0, time, Unknown)
  }

  /** `[e, ...events].slice(0, 20)`. */
  function Prepend(events: seq<Event>, e: Event): (r: seq<Event>)
    ensures |r| == if |events| + 1 < FeedLimit then |events| + 1 else FeedLimit
    ensures r[0] == e
    ensures r[1..] == events[..|r| - 1]
  {
    var all := [e] + events;
    var r := if |all| <= FeedLimit then all else all[..FeedLimit];
    assert r[1..] == events[..|r| - 1];
    r
  }

  /** The feed after the given events were generated, oldest first. */
  function AfterTicks(events: seq<Event>, generated: seq<Event>): seq<Event>
    decreases |generated|
  {
    if |generated| == 0 then events
    else Prepend(AfterTicks(events, generated[..|generated| - 1]), generated[|generated| - 1])
  }

  /** The feed holds the newer events newest first, and never more than 20. */
  lemma {:induction false} AfterTicksShape(events: seq<Event>, generated: seq<Event>)
    requires |events| <= FeedLimit
    ensures var r := AfterTicks(events, generated);
            && |r| == (if |events| + |generated| < FeedLimit then |events| + |generated| else FeedLimit)
            && forall i :: 0 <= i < |generated| && i < |r| ==> r[i] == generated[|generated| - 1 - i]
    decreases |generated|
  {
    if |generated| > 0 {
      var init := generated[..|generated| - 1];
      AfterTicksShape(events, init);
      var r := AfterTicks(events, generated);
      var prev := AfterTicks(events, init);
      forall i | 0 <= i < |generated| && i < |r| ensures r[i] == generated[|generated| - 1 - i] {
        if i > 0 {
          assert r[i] == r[1..][i - 1] == prev[i - 1];
          assert init[|init| - 1 - (i - 1)] == generated[|generated| - 1 - i];
        }
      }
    }
  }

  /** From the seeded three, the feed holds min(20, 3 + n) events after n ticks. */
  lemma FeedLength(generated: seq<Event>)
    ensures |AfterTicks(Seeded, generated)| == if 3 + |generated| < FeedLimit then 3 + |generated| else FeedLimit
  {
    AfterTicksShape(Seeded, generated);
  }

  class LiveFeedView {
    var events: seq<Event>
    /** Whether the feed is live; the page never clears it. */
    var scanning: bool

    ghost predicate Valid()
      reads this
    {
      |events| <= FeedLimit
    }

    constructor ()
      ensures Valid() && events == Seeded && scanning
    {
      events := Seeded;
      scanning := true;
    }

    /** One firing of the 5-second interval; the interval exists only while
        scanning. */
    method Tick(d: Draw, now: nat, time: string)
      requires Valid() && ValidDraw(d)
      modifies this
      ensures Valid() && scanning == old(scanning)
      ensures old(scanning) ==> events == Prepend(old(events), MakeEvent(d, now, time))
      ensures !old(scanning) ==> events == old(events)
    {
      if scanning {
        events := Prepend(events, MakeEvent(d, now, time));
      }
    }
  }
}
