/**
 * What reading a cumulative counter can and cannot see. A counter of one direction grows with the
 * traffic and falls back to zero when the tunnel restarts; readings happen at any time in between.
 */
module CounterHistory {
  import opened Ids
  import opened TrafficStore
  import opened UsageLedger
  import opened UsageMachine

  datatype Event = Grow(n: nat) | Reset | Read

  /**
   * The counter's value, the last reading, whether a reset came after it, and three tallies: all
   * traffic, the sum of the deltas, and the traffic that no reading can account for any more.
   */
  datatype Counter = Counter(value: nat, last: nat, restarted: bool, traffic: nat, counted: int, lost: int) {
    /** Traffic of the running interval that a reading could still see. */
    function Unread(): int {
      value - (if restarted then 0 else last)
    }
  }

  function Advance(c: Counter, e: Event): Counter {
    match e
    case Grow(n) => c.(value := c.value + n, traffic := c.traffic + n)
    case Reset => c.(value := 0, restarted := true, lost := c.lost + c.Unread())
    case Read =>
      var delta := CumulativeDelta(c.value, c.last);
      c.(last := c.value, restarted := false, counted := c.counted + delta, lost := c.lost + c.Unread() - delta)
  }

  function Play(history: seq<Event>): Counter {
    if history == [] then Counter(0, 0, false, 0, 0, 0)
    else Advance(Play(history[..|history| - 1]), history[|history| - 1])
  }

  /** No traffic is lost at an event: resets come right after a reading, and the reading after a reset is lower. */
  predicate Lossless(c: Counter, e: Event) {
    match e
    case Grow(_) => true
    case Reset => c.Unread() == 0
    case Read => c.restarted ==> c.value < c.last || c.last == 0
  }

  /** The deltas, the traffic that can still be read and the lost traffic are all the traffic there is. */
  lemma {:induction false} CountersBalance(history: seq<Event>)
    ensures var c := Play(history);
            && c.traffic == c.counted + c.Unread() + c.lost
            && 0 <= c.counted && 0 <= c.Unread() && 0 <= c.lost
  {
    if history != [] {
      CountersBalance(history[..|history| - 1]);
    }
  }

  lemma LossOfEvent(c: Counter, e: Event)
    requires 0 <= c.lost && 0 <= c.Unread()
    ensures Advance(c, e).lost == 0 <==> c.lost == 0 && Lossless(c, e)
  {
  }

  ghost predicate AlwaysLossless(history: seq<Event>) {
    forall i :: 0 <= i < |history| ==> Lossless(Play(history[..i]), history[i])
  }

  lemma LosslessPrefix(history: seq<Event>)
    requires history != []
    ensures var n := |history| - 1;
            AlwaysLossless(history) <==> AlwaysLossless(history[..n]) && Lossless(Play(history[..n]), history[n])
  {
    var n := |history| - 1;
    assert forall i :: 0 <= i < n ==> history[..n][..i] == history[..i];
    if AlwaysLossless(history[..n]) && Lossless(Play(history[..n]), history[n]) {
      forall i | 0 <= i < |history| ensures Lossless(Play(history[..i]), history[i]) {
        if i < n { assert Lossless(Play(history[..n][..i]), history[..n][i]); }
      }
    }
  }

  /** Nothing is lost exactly when every reset and every first reading after one is lossless. */
  lemma {:induction false} NothingLostIff(history: seq<Event>)
    ensures Play(history).lost == 0 <==> AlwaysLossless(history)
  {
    if history != [] {
      var n := |history| - 1;
      NothingLostIff(history[..n]);
      CountersBalance(history[..n]);
      LossOfEvent(Play(history[..n]), history[n]);
      LosslessPrefix(history);
    }
  }

  // ---------------------------------------------------------------- readings and the agent's accumulator

  /** The values that the readings of a history return. */
  function Readings(history: seq<Event>): seq<int> {
    if history == [] then []
    else
      var init, last := history[..|history| - 1], history[|history| - 1];
      if last.Read? then Readings(init) + [Play(init).value] else Readings(init)
  }

  function SumOfDeltas(readings: seq<int>): int {
    if readings == [] then 0
    else
      var init, last := readings[..|readings| - 1], readings[|readings| - 1];
      SumOfDeltas(init) + CumulativeDelta(last, LastOf(init))
  }

  function LastOf(readings: seq<int>): int {
    if readings == [] then 0 else readings[|readings| - 1]
  }

  lemma {:induction false} DeltasOfReadings(history: seq<Event>)
    ensures Play(history).counted == SumOfDeltas(Readings(history))
    ensures Play(history).last == LastOf(Readings(history))
  {
    if history != [] {
      var init := history[..|history| - 1];
      DeltasOfReadings(init);
      if history[|history| - 1].Read? {
        assert Readings(history)[..|Readings(history)| - 1] == Readings(init);
      }
    }
  }

  /** The snapshots' readings of one connection, in order. */
  function ReadingsOf(records: seq<Record>, id: Id): seq<Bytes> {
    if records == [] then []
    else
      var init, last := records[..|records| - 1], records[|records| - 1];
      if last.id == id then ReadingsOf(init, id) + [last.bytes] else ReadingsOf(init, id)
  }

  function ObservedIn(steps: seq<Step>, id: Id): seq<Bytes> {
    if steps == [] then []
    else ObservedIn(steps[..|steps| - 1], id) + ObservedBy(steps[|steps| - 1], id)
  }

  function Received(readings: seq<Bytes>): seq<int> {
    seq(|readings|, i requires 0 <= i < |readings| => readings[i].rx)
  }

  function Transmitted(readings: seq<Bytes>): seq<int> {
    seq(|readings|, i requires 0 <= i < |readings| => readings[i].tx)
  }

  /** The meter stands where these readings leave it. */
  ghost predicate Shows(m: Meter, readings: seq<Bytes>) {
    && m.total == Bytes(SumOfDeltas(Received(readings)), SumOfDeltas(Transmitted(readings)))
    && m.last == Bytes(LastOf(Received(readings)), LastOf(Transmitted(readings)))
  }

  lemma OneMore(m: Meter, readings: seq<Bytes>, b: Bytes)
    requires Shows(m, readings)
    ensures Shows(Meter(b, m.total.Plus(Delta(b, m.last))), readings + [b])
  {
    var more := readings + [b];
    assert Received(more)[..|readings|] == Received(readings);
    assert Transmitted(more)[..|readings|] == Transmitted(readings);
  }

  lemma {:induction false} MeasureShows(meters: map<Id, Meter>, records: seq<Record>, id: Id, before: seq<Bytes>)
    requires Shows(MeterOf(meters, id), before)
    ensures Shows(MeterOf(Measure(meters, records), id), before + ReadingsOf(records, id))
  {
    if records == [] {
      assert before + [] == before;
    } else {
      var init, last := records[..|records| - 1], records[|records| - 1];
      MeasureShows(meters, init, id, before);
      if last.id == id {
        OneMore(MeterOf(Measure(meters, init), id), before + ReadingsOf(init, id), last.bytes);
        assert before + ReadingsOf(records, id) == before + ReadingsOf(init, id) + [last.bytes];
      }
    }
  }

  function ObservedBy(step: Step, id: Id): seq<Bytes> {
    if step.Observe? then ReadingsOf(step.records, id) else []
  }

  lemma StepShows(s: State, step: Step, id: Id, before: seq<Bytes>)
    requires Enabled(s, step) && Shows(MeterOf(s.meters, id), before)
    ensures Shows(MeterOf(After(s, step).meters, id), before + ObservedBy(step, id))
  {
    if step.Observe? {
      MeasureShows(s.meters, step.records, id, before);
    } else {
      assert before + [] == before;
    }
  }

  lemma {:induction false} RunShows(states: seq<State>, steps: seq<Step>, n: nat, id: Id)
    requires Run(states, steps) && n <= |steps| && MeterOf(states[0].meters, id) == Meter(NOTHING, NOTHING)
    ensures Shows(MeterOf(states[n].meters, id), ObservedIn(steps[..n], id))
  {
    if n > 0 {
      RunShows(states, steps, n - 1, id);
      assert Happens(states, steps, n - 1);
      StepShows(states[n - 1], steps[n - 1], id, ObservedIn(steps[..n - 1], id));
      assert steps[..n][..n - 1] == steps[..n - 1];
    }
  }

  lemma MeterAtMostTraffic(m: Meter, readings: seq<Bytes>, rx: seq<Event>, tx: seq<Event>)
    requires Shows(m, readings) && Received(readings) == Readings(rx) && Transmitted(readings) == Readings(tx)
    ensures m.total.AtMost(Bytes(Play(rx).traffic, Play(tx).traffic))
  {
    DeltasOfReadings(rx);
    DeltasOfReadings(tx);
    CountersBalance(rx);
    CountersBalance(tx);
  }

  /**
   * End to end: whatever is lost, repeated or delayed, the server never counts more than the traffic
   * that passed through the counters whose readings the agent took over.
   */
  lemma NeverOvercounts(states: seq<State>, steps: seq<Step>, n: nat, id: Id, rx: seq<Event>, tx: seq<Event>)
    requires Run(states, steps) && Init(states[0]) && n <= |steps|
    requires Received(ObservedIn(steps[..n], id)) == Readings(rx) && Transmitted(ObservedIn(steps[..n], id)) == Readings(tx)
    ensures AmountIn(states[n].totals, id).AtMost(Bytes(Play(rx).traffic, Play(tx).traffic))
  {
    RunPrefix(states, steps, n);
    assert Reachable(states[n]);
    UsageIsConserved(states[n], id);
    RunShows(states, steps, n, id);
    MeterAtMostTraffic(MeterOf(states[n].meters, id), ObservedIn(steps[..n], id), rx, tx);
  }

  lemma RunPrefix(states: seq<State>, steps: seq<Step>, n: nat)
    requires Run(states, steps) && n <= |steps|
    ensures Leads(states[0], states[n])
  {
    var states', steps' := states[..n + 1], steps[..n];
    forall i | 0 <= i < n ensures Happens(states', steps', i) {
      assert Happens(states, steps, i);
    }
    assert Run(states', steps');
  }
}
