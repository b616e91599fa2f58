/** Counting samples for an account's quality (accountquality/statistics.go). */
module Statistics {
  import opened Common
  import opened Reals
  import opened WilsonBound

  // ---- Counting ----

  datatype Window = Window(samples: int, passed: int, failed: int, inconclusive: int, score: Option<real>)

  const EMPTY := Window(0, 0, 0, 0, None)

  const DAY := 86_400_000_000_000

  /** One observation: when, in nanoseconds, and with what outcome. */
  datatype Sample = Sample(at: int, outcome: string)

  function Counted(w: Window, outcome: string): Window {
    var more := w.(samples := w.samples + 1);
    if outcome == "passed" then more.(passed := more.passed + 1)
    else if outcome == "failed" then more.(failed := more.failed + 1)
    else more.(inconclusive := more.inconclusive + 1)
  }

  predicate Consistent(w: Window) {
    w.passed >= 0 && w.failed >= 0 && w.inconclusive >= 0 && w.samples == w.passed + w.failed + w.inconclusive
  }

  lemma EmptyIsConsistent()
    ensures Consistent(EMPTY)
  {
  }

  /** How many of the samples lie in the last `span` and have an outcome that counts. */
  function Number(samples: seq<Sample>, now: int, span: int, counts: string -> bool): nat {
    if samples == [] then 0
    else
      var last := samples[|samples| - 1];
      Number(samples[..|samples| - 1], now, span, counts) + if now - span <= last.at <= now && counts(last.outcome) then 1 else 0
  }

  const PASSED := (outcome: string) => outcome == "passed"
  const FAILED := (outcome: string) => outcome == "failed"
  const OTHERWISE := (outcome: string) => outcome != "passed" && outcome != "failed"

  /** The window counts exactly the samples of its span. */
  ghost predicate CountsSpan(w: Window, samples: seq<Sample>, now: int, span: int) {
    && w.passed == Number(samples, now, span, PASSED)
    && w.failed == Number(samples, now, span, FAILED)
    && w.inconclusive == Number(samples, now, span, OTHERWISE)
  }

  /** A window without a decided sample keeps the score it had. */
  function Scored(w: Window, confidence: bool, sqrt: real -> real): Window
    requires Consistent(w)
  {
    if w.passed + w.failed == 0 then w else w.(score := Some(ScoreOf(Value(w.passed, w.failed, confidence, Z(), sqrt))))
  }

  class Statistics {
    var short: Window
    var long: Window

    /** Samples are passed, failed or inconclusive, and the short window is part of the long one. */
    predicate Valid()
      reads this
    {
      && Consistent(short) && Consistent(long)
      && short.passed <= long.passed && short.failed <= long.failed && short.inconclusive <= long.inconclusive
    }

    constructor ()
      ensures Valid() && short == long == EMPTY
    {
      short, long := EMPTY, EMPTY;
      new;
      hide Consistent;
      EmptyIsConsistent();
    }

    method Add(now: int, at: int, outcome: string)
      requires Valid()
      modifies this
      ensures Valid()
      ensures long == if now - 30 * DAY <= at <= now then Counted(old(long), outcome) else old(long)
      ensures short == if now - DAY <= at <= now then Counted(old(short), outcome) else old(short)
    {
      if at > now || at < now - 30 * DAY { return; }
      long := Counted(long, outcome);
      if at >= now - DAY { short := Counted(short, outcome); }
    }

    /** Any number of Add calls at one moment count exactly the samples of the last day and of the last thirty. */
    method AddAll(now: int, samples: seq<Sample>)
      requires Valid() && short == long == EMPTY
      modifies this
      ensures Valid()
      ensures CountsSpan(short, samples, now, DAY) && CountsSpan(long, samples, now, 30 * DAY)
    {
      hide Consistent;
      for i := 0 to |samples|
        invariant Valid() && CountsSpan(short, samples[..i], now, DAY) && CountsSpan(long, samples[..i], now, 30 * DAY)
      {
        assert samples[..i + 1][..i] == samples[..i];
        Add(now, samples[i].at, samples[i].outcome);
      }
      assert samples[..|samples|] == samples;
    }

    /** Calculate; `sqrt` stands for math.Sqrt. */
    method Calculate(confidence: bool, sqrt: real -> real)
      requires Valid() && IsRoot(sqrt)
      modifies this
      ensures Valid()
      ensures short == Scored(old(short), confidence, sqrt) && long == Scored(old(long), confidence, sqrt)
    {
      short := CalculateWindow(short, confidence, sqrt);
      long := CalculateWindow(long, confidence, sqrt);
    }

    method CalculateWindow(w: Window, confidence: bool, sqrt: real -> real) returns (scored: Window)
      requires Consistent(w) && IsRoot(sqrt)
      ensures scored == Scored(w, confidence, sqrt)
    {
      var n := (w.passed + w.failed) as real;
      if n == 0.0 { return w; }
      var value := w.passed as real / n;
      if confidence { value := LowerBound(value, n, Z(), sqrt); }
      scored := w.(score := Some(ScoreOf(value)));
    }
  }
}
