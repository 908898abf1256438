/** The ticker loop of `main`: each awaited ticker is shown with a colour that
    says whether the price went up (or stayed) or went down since the last
    ticker received; a failed iteration is reported once per run of consecutive
    failures. The loop runs only when the exchange offers `watchTicker`.
    Each iteration's outcome is an `Event`; what the loop writes to the console is
    a sequence of `Output`s. */
module TickerStream {

  /** The colour of a shown price: green (Up) or red (Down). */
  datatype Direction = Up | Down

  /** The part of a received ticker the loop uses: the clock reading taken
      right after it arrived (milliseconds) and its last price. */
  datatype Ticker = Ticker(at: nat, last: real)

  /** One iteration's outcome: a ticker, or the error thrown during the
      iteration (while waiting for the ticker, reading its price or reading
      the clock). */
  datatype Event = Sample(ticker: Ticker) | Failure(error: string)

  /** One console report. */
  datatype Output =
    | Observation(at: nat, price: real, direction: Direction)
    | FailureReport(error: string)
    | Unsupported(exchangeName: string)

  /** The comparison of the last price with the previous one: a change that
      is zero or positive is Up, a negative one is Down. */
  function Classify(lastPrice: real, previousPrice: real): (d: Direction)
    ensures d == Up <==> previousPrice <= lastPrice
    ensures d == Down <==> lastPrice < previousPrice
  {
    if lastPrice - previousPrice >= 0.0 then Up else Down
  }

  /** The loop's two variables. */
  datatype LoopState = LoopState(previousPrice: real, error: bool)

  /** Before the first iteration the previous price is zero and no error is pending. */
  const Initial := LoopState(0.0, false)

  /** The state after one iteration. */
  function Next(s: LoopState, e: Event): LoopState
  {
    match e
    case Sample(t) => LoopState(t.last, false)
    case Failure(_) => s.(error := true)
  }

  /** What one iteration writes. */
  function Emit(s: LoopState, e: Event): seq<Output>
  {
    match e
    case Sample(t) => [Observation(t.at, t.last, Classify(t.last, s.previousPrice))]
    case Failure(err) => if s.error then [] else [FailureReport(err)]
  }

  /** What a finite number of iterations write, in order. */
  function Trace(s: LoopState, events: seq<Event>): seq<Output>
    decreases |events|
  {
    if events == [] then [] else Emit(s, events[0]) + Trace(Next(s, events[0]), events[1..])
  }

  /** The state after a finite number of iterations. */
  function Final(s: LoopState, events: seq<Event>): LoopState
    decreases |events|
  {
    if events == [] then s else Final(Next(s, events[0]), events[1..])
  }

  /** Running `a` and then `b` writes what `a` writes followed by what `b`
      writes from the state `a` leaves. */
  lemma {:induction false} TraceAppend(s: LoopState, a: seq<Event>, b: seq<Event>)
    ensures Trace(s, a + b) == Trace(s, a) + Trace(Final(s, a), b)
    ensures Final(s, a + b) == Final(Final(s, a), b)
    decreases |a|
  {
    if a == [] {
      assert a + b == b;
    } else {
      var s' := Next(s, a[0]);
      assert (a + b)[0] == a[0] && (a + b)[1..] == a[1..] + b;
      TraceAppend(s', a[1..], b);
      calc {
        Trace(s, a + b);
        Emit(s, a[0]) + Trace(s', a[1..] + b);
        Emit(s, a[0]) + (Trace(s', a[1..]) + Trace(Final(s', a[1..]), b));
        (Emit(s, a[0]) + Trace(s', a[1..])) + Trace(Final(s', a[1..]), b);
        Trace(s, a) + Trace(Final(s, a), b);
      }
    }
  }

  // ----- Reference definitions, read from the end of the event sequence -----

  /** The price of the last ticker received, or `previous` if there was none. */
  function LastPrice(previous: real, events: seq<Event>): real
    decreases |events|
  {
    if events == [] then previous
    else if events[|events| - 1].Sample? then events[|events| - 1].ticker.last
    else LastPrice(previous, events[..|events| - 1])
  }

  /** Whether the last iteration failed (or the initial flag, if there was none). */
  function LastWasFailure(error: bool, events: seq<Event>): bool
  {
    if events == [] then error else events[|events| - 1].Failure?
  }

  /** The variables after any iterations: the previous price is the last price
      received (failures leave it alone) and the flag says whether the last
      iteration failed. */
  lemma {:induction false} FinalState(s: LoopState, events: seq<Event>)
    ensures Final(s, events) == LoopState(LastPrice(s.previousPrice, events), LastWasFailure(s.error, events))
    decreases |events|
  {
    if events != [] {
      var n := |events|;
      var init := events[..n - 1];
      assert events == init + [events[n - 1]];
      TraceAppend(s, init, [events[n - 1]]);
      FinalState(s, init);
    }
  }

  /** The tickers among the events, in order. */
  function Tickers(events: seq<Event>): seq<Ticker>
  {
    if events == [] then []
    else (if events[0].Sample? then [events[0].ticker] else []) + Tickers(events[1..])
  }

  /** The observations among the outputs, in order. */
  function Observations(outputs: seq<Output>): seq<Output>
  {
    if outputs == [] then []
    else (if outputs[0].Observation? then [outputs[0]] else []) + Observations(outputs[1..])
  }

  lemma {:induction false} ObservationsAppend(a: seq<Output>, b: seq<Output>)
    ensures Observations(a + b) == Observations(a) + Observations(b)
    decreases |a|
  {
    if a == [] {
      assert a + b == b;
    } else {
      assert (a + b)[0] == a[0] && (a + b)[1..] == a[1..] + b;
      ObservationsAppend(a[1..], b);
    }
  }

  /** The observation the loop shows for the `k`-th ticker: its time and
      price, classified against the ticker before it (or against the
      starting previous price for the first one). */
  function Expected(previous: real, tickers: seq<Ticker>, k: nat): Output
    requires k < |tickers|
  {
    Observation(tickers[k].at, tickers[k].last,
                Classify(tickers[k].last, if k == 0 then previous else tickers[k - 1].last))
  }

  /** Every received ticker is shown exactly once, in order, and its colour
      compares it with the ticker received just before it: failures in
      between neither drop, add nor reorder observations and do not reset
      the previous price. */
  lemma {:induction false} ObservationsFollowTickers(s: LoopState, events: seq<Event>)
    ensures var obs, tickers := Observations(Trace(s, events)), Tickers(events);
      |obs| == |tickers| &&
      forall k :: 0 <= k < |tickers| ==> obs[k] == Expected(s.previousPrice, tickers, k)
    decreases |events|
  {
    if events != [] {
      var e, rest := events[0], events[1..];
      var s' := Next(s, e);
      ObservationsFollowTickers(s', rest);
      ObservationsAppend(Emit(s, e), Trace(s', rest));
      var obs, tickers := Observations(Trace(s, events)), Tickers(events);
      var obs', tickers' := Observations(Trace(s', rest)), Tickers(rest);
      if e.Sample? {
        assert Observations(Emit(s, e)) == [Emit(s, e)[0]];
        assert obs == [Emit(s, e)[0]] + obs';
        assert tickers == [e.ticker] + tickers';
        forall k | 0 <= k < |tickers| ensures obs[k] == Expected(s.previousPrice, tickers, k) {
          if k > 0 {
            assert obs[k] == obs'[k - 1] == Expected(s'.previousPrice, tickers', k - 1);
          }
        }
      } else {
        assert Observations(Emit(s, e)) == [];
        assert obs == obs' && tickers == tickers' && s'.previousPrice == s.previousPrice;
      }
    }
  }

  /** The error messages among the outputs, in order. */
  function FailureReports(outputs: seq<Output>): seq<string>
  {
    if outputs == [] then []
    else (if outputs[0].FailureReport? then [outputs[0].error] else []) + FailureReports(outputs[1..])
  }

  lemma {:induction false} FailureReportsAppend(a: seq<Output>, b: seq<Output>)
    ensures FailureReports(a + b) == FailureReports(a) + FailureReports(b)
    decreases |a|
  {
    if a == [] {
      assert a + b == b;
    } else {
      assert (a + b)[0] == a[0] && (a + b)[1..] == a[1..] + b;
      FailureReportsAppend(a[1..], b);
    }
  }

  /** Event `i` is the first failure of a run of consecutive failures: the
      event before it (or, for the first event, the initial flag) is not a failure. */
  predicate RunStartAt(error: bool, events: seq<Event>, i: nat)
    requires i < |events|
  {
    events[i].Failure? && (if i == 0 then !error else events[i - 1].Sample?)
  }

  /** The errors of the events that start a run of failures, in order. */
  function RunStartErrors(error: bool, events: seq<Event>): seq<string>
    decreases |events|
  {
    if events == [] then []
    else
      var n := |events|;
      RunStartErrors(error, events[..n - 1]) + (if RunStartAt(error, events, n - 1) then [events[n - 1].error] else [])
  }

  /** Exactly one failure per run of consecutive failures is reported, the
      first one of the run, and nothing else is reported as a failure. */
  lemma {:induction false} OneReportPerFailureRun(s: LoopState, events: seq<Event>)
    ensures FailureReports(Trace(s, events)) == RunStartErrors(s.error, events)
    decreases |events|
  {
    if events != [] {
      var n := |events|;
      var init, last := events[..n - 1], events[n - 1];
      assert events == init + [last];
      TraceAppend(s, init, [last]);
      OneReportPerFailureRun(s, init);
      FinalState(s, init);
      FailureReportsAppend(Trace(s, init), Trace(Final(s, init), [last]));
      var before := Final(s, init);
      assert Trace(before, [last]) == Emit(before, last);
      if n > 1 {
        assert init[n - 2] == events[n - 2];
      }
      assert before.error == (if n == 1 then s.error else events[n - 2].Failure?);
      if last.Failure? && !before.error {
        assert FailureReports(Emit(before, last)) == [last.error];
      } else {
        assert FailureReports(Emit(before, last)) == [];
      }
    }
  }

  /** A run of consecutive failures reports only its first error, and only if
      no error was pending; afterwards the flag is set and the previous price
      is what it was. */
  lemma {:induction false} FailureRun(s: LoopState, failures: seq<Event>)
    requires |failures| >= 1
    requires forall i :: 0 <= i < |failures| ==> failures[i].Failure?
    ensures Trace(s, failures) == if s.error then [] else [FailureReport(failures[0].error)]
    ensures Final(s, failures) == LoopState(s.previousPrice, true)
    decreases |failures|
  {
    var s' := Next(s, failures[0]);
    if |failures| > 1 {
      FailureRun(s', failures[1..]);
    }
  }

  /** From the start, the first ticker is compared with zero: it is Up exactly
      when its price is not negative. */
  lemma FirstObservationAgainstZero(events: seq<Event>)
    requires Tickers(events) != []
    ensures var obs := Observations(Trace(Initial, events));
      obs != [] && obs[0].Observation? && (obs[0].direction == Up <==> Tickers(events)[0].last >= 0.0)
  {
    ObservationsFollowTickers(Initial, events);
  }

  /** Three tickers, two failures and one more ticker: four observations
      (Up, Up, Down, Up: the last compares 110 with 103) and one failure report. */
  lemma RecoveryScenario()
    ensures var events := [Sample(Ticker(1, 100.0)), Sample(Ticker(2, 105.0)), Sample(Ticker(3, 103.0)),
                           Failure("timeout"), Failure("timeout"), Sample(Ticker(6, 110.0))];
      Trace(Initial, events) ==
        [Observation(1, 100.0, Up), Observation(2, 105.0, Up), Observation(3, 103.0, Down),
         FailureReport("timeout"), Observation(6, 110.0, Up)]
      && Final(Initial, events) == LoopState(110.0, false)
  {
  }

  /** The loop of `main`, with its two variables as fields and the console as
      the sequence `log`. */
  class TickerWatcher {
    var previousPrice: real
    var error: bool
    var log: seq<Output>

    function Current(): LoopState
      reads this
    {
      LoopState(previousPrice, error)
    }

    constructor ()
      ensures Current() == Initial && log == []
    {
      previousPrice := 0.0;
      error := false;
      log := [];
    }

    /** One iteration of the loop body. */
    method Step(e: Event)
      modifies this
      ensures e.Sample? ==>
                previousPrice == e.ticker.last && !error &&
                log == old(log) + [Observation(e.ticker.at, e.ticker.last, Classify(e.ticker.last, old(previousPrice)))]
      ensures e.Failure? ==>
                previousPrice == old(previousPrice) && error &&
                log == old(log) + (if old(error) then [] else [FailureReport(e.error)])
      ensures Current() == Next(old(Current()), e) && log == old(log) + Emit(old(Current()), e)
    {
      match e
      case Sample(ticker) =>
        var lastPrice := ticker.last;
        if lastPrice - previousPrice >= 0.0 {
          log := log + [Observation(ticker.at, lastPrice, Up)];
        } else {
          log := log + [Observation(ticker.at, lastPrice, Down)];
        }
        previousPrice := lastPrice;
        error := false;
      case Failure(err) =>
        if !error {
          log := log + [FailureReport(err)];
        }
        error := true;
    }

    /** Finitely many iterations, one per event. */
    method Run(events: seq<Event>)
      modifies this
      ensures Current() == Final(old(Current()), events)
      ensures log == old(log) + Trace(old(Current()), events)
    {
      var i := 0;
      while i < |events|
        invariant 0 <= i <= |events|
        invariant Current() == Final(old(Current()), events[..i])
        invariant log == old(log) + Trace(old(Current()), events[..i])
      {
        assert events[..i + 1] == events[..i] + [events[i]];
        TraceAppend(old(Current()), events[..i], [events[i]]);
        Step(events[i]);
        i := i + 1;
      }
      assert events[..i] == events;
    }
  }

  /** The `watchTicker` guard: with it the loop runs over the events from the
      initial state; without it the only output is the unsupported message. */
  method Watch(hasWatchTicker: bool, exchangeName: string, events: seq<Event>) returns (out: seq<Output>)
    ensures hasWatchTicker ==> out == Trace(Initial, events)
    ensures !hasWatchTicker ==> out == [Unsupported(exchangeName)]
    ensures forall k :: 0 <= k < |out| ==> (out[k].Unsupported? <==> !hasWatchTicker)
  {
    if hasWatchTicker {
      var watcher := new TickerWatcher();
      watcher.Run(events);
      out := watcher.log;
      NoUnsupportedInTrace(Initial, events);
    } else {
      out := [Unsupported(exchangeName)];
    }
  }

  /** The loop itself never writes the unsupported message. */
  lemma {:induction false} NoUnsupportedInTrace(s: LoopState, events: seq<Event>)
    ensures forall k :: 0 <= k < |Trace(s, events)| ==> !Trace(s, events)[k].Unsupported?
    decreases |events|
  {
    if events != [] {
      NoUnsupportedInTrace(Next(s, events[0]), events[1..]);
    }
  }
}
