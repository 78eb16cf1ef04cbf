/** The edge detector of `button_watcher` (main.py:422-442) as an automaton
    that consumes one pin read per step.  The pin is pulled up: 1 is
    released, 0 is pressed.  The watcher's sleeps only space the reads out
    and are not modelled. */
module Button {

  type Level = x: int | 0 <= x <= 1

  /** Where the watcher is between two pin reads. */
  datatype Phase =
    | Polling(last: Level)   // top of the poll loop, `last` as the source keeps it
    | Debouncing             // saw a 1 -> 0 edge; the next read confirms it
    | Held                   // toggled; waiting for the pin to read 1

  /** The watcher starts polling with `last = 1`. */
  const Start := Polling(1)

  /** One pin read `x` in phase `p`: the next phase and whether the mode
      flips.  Leaving the debounce or the release wait sets `last` to the
      edge's first read, 0. */
  function Step(p: Phase, x: Level): (r: (Phase, bool))
    ensures r.1 <==> p == Debouncing && x == 0
    ensures r.0 == Debouncing <==> p == Polling(1) && x == 0
    ensures r.0 == Held <==> (p == Debouncing || p == Held) && x == 0
  {
    match p
    case Polling(last) => if x == 0 && last == 1 then (Debouncing, false) else (Polling(x), false)
    case Debouncing => if x == 0 then (Held, true) else (Polling(0), false)
    case Held => if x == 0 then (Held, false) else (Polling(0), false)
  }

  /** The `last` a step leaves: the read itself while polling, and 0 on
      leaving the debounce or the release wait. */
  lemma StepLast(p: Phase, x: Level)
    ensures Step(p, x).0.Polling? ==> Step(p, x).0.last == (if p.Polling? then x else 0)
  {
  }

  /** The phase after the reads `xs` from `p`, and how many times the mode
      flipped on the way. */
  function Run(p: Phase, xs: seq<Level>): (Phase, nat)
    decreases |xs|
  {
    if xs == [] then (p, 0)
    else
      var before := Run(p, xs[..|xs| - 1]);
      var after := Step(before.0, xs[|xs| - 1]);
      (after.0, before.1 + (if after.1 then 1 else 0))
  }

  /** The mode after `n` flips from `mode`. */
  function Flipped(mode: bool, n: nat): bool {
    if n == 0 then mode else !Flipped(mode, n - 1)
  }

  /** Every flip takes two reads, the edge and its debounce re-read: at
      most one flip per two reads. */
  lemma {:induction false} TwoReadsPerToggle(p: Phase, xs: seq<Level>)
    ensures 2 * Run(p, xs).1 + (if Run(p, xs).0 == Debouncing then 1 else 0) <=
              |xs| + (if p == Debouncing then 1 else 0)
    decreases |xs|
  {
    if xs != [] {
      TwoReadsPerToggle(p, xs[..|xs| - 1]);
    }
  }

  /** An even number of flips restores the mode, an odd number inverts it. */
  lemma {:induction false} FlippedParity(mode: bool, n: nat)
    ensures Flipped(mode, n) == (mode != (n % 2 == 1))
  {
    if n > 0 {
      FlippedParity(mode, n - 1);
    }
  }

  function Ones(n: nat): (r: seq<Level>)
    ensures |r| == n && forall i :: 0 <= i < n ==> r[i] == 1
  {
    if n == 0 then [] else Ones(n - 1) + [1]
  }

  function Zeros(n: nat): (r: seq<Level>)
    ensures |r| == n && forall i :: 0 <= i < n ==> r[i] == 0
  {
    if n == 0 then [] else Zeros(n - 1) + [0]
  }

  /** The falling edges of `xs`, counting the line as released before it. */
  function Falls(xs: seq<Level>): nat
    decreases |xs|
  {
    if xs == [] then 0
    else
      var prev := if |xs| == 1 then 1 else xs[|xs| - 2];
      Falls(xs[..|xs| - 1]) + (if prev == 1 && xs[|xs| - 1] == 0 then 1 else 0)
  }

  lemma RunSnoc(p: Phase, xs: seq<Level>, x: Level)
    ensures Run(p, xs + [x]).0 == Step(Run(p, xs).0, x).0
    ensures Run(p, xs + [x]).1 == Run(p, xs).1 + (if Step(Run(p, xs).0, x).1 then 1 else 0)
  {
    assert (xs + [x])[..|xs|] == xs;
  }

  /** A read flips the mode exactly when it is the debounce re-read of a
      1 -> 0 edge and it reads 0 as well. */
  lemma ToggleIffConfirmedEdge(xs: seq<Level>, x: Level, y: Level)
    ensures Run(Start, xs + [x, y]).1 == Run(Start, xs + [x]).1 + 1 <==>
              Run(Start, xs).0 == Polling(1) && x == 0 && y == 0
  {
    RunSnoc(Start, xs, x);
    assert xs + [x, y] == (xs + [x]) + [y];
    RunSnoc(Start, xs + [x], y);
  }

  /** Polling with `last = 1` is reached only after a read of 1, or before
      any read. */
  lemma {:induction false} PollingOneAfterRelease(xs: seq<Level>)
    requires Run(Start, xs).0 == Polling(1)
    ensures xs == [] || xs[|xs| - 1] == 1
  {
    if xs != [] {
      var before := Run(Start, xs[..|xs| - 1]);
      assert Step(before.0, xs[|xs| - 1]).0 == Polling(1);
    }
  }

  /** Every flip of the mode consumes its own falling edge: a confirmed or
      pending press is never counted twice, so there are no more flips than
      presses. */
  lemma {:induction false} TogglesAtMostFalls(xs: seq<Level>)
    ensures Run(Start, xs).1 + (if Run(Start, xs).0 == Debouncing then 1 else 0) <= Falls(xs)
    decreases |xs|
  {
    if xs != [] {
      var init := xs[..|xs| - 1];
      TogglesAtMostFalls(init);
      if Run(Start, init).0 == Polling(1) {
        PollingOneAfterRelease(init);
        if |init| > 0 {
          assert init[|init| - 1] == xs[|xs| - 2];
        }
      }
    }
  }

  /** Reads of 1 never flip the mode. */
  lemma {:induction false} OnesNeverToggle(p: Phase, xs: seq<Level>, n: nat)
    ensures Run(p, xs + Ones(n)).1 == Run(p, xs).1
    ensures n > 0 ==> Run(p, xs + Ones(n)).0.Polling?
  {
    if n > 0 {
      OnesNeverToggle(p, xs, n - 1);
      assert xs + Ones(n) == (xs + Ones(n - 1)) + [1];
      RunSnoc(p, xs + Ones(n - 1), 1);
    } else {
      assert xs + Ones(n) == xs;
    }
  }

  /** However long a press is held, it flips the mode once. */
  lemma {:induction false} HeldPressTogglesOnce(n: nat)
    requires n >= 2
    ensures Run(Start, Zeros(n)) == (Held, 1)
  {
    if n == 2 {
      assert Zeros(2)[..1] == Zeros(1);
      assert Zeros(1)[..0] == [];
    } else {
      HeldPressTogglesOnce(n - 1);
      assert Zeros(n)[..n - 1] == Zeros(n - 1);
    }
  }

  /** After two released reads, a press of two reads flips the mode exactly
      once, whatever came before. */
  lemma PressAfterReleaseToggles(xs: seq<Level>)
    ensures Run(Start, xs + [1, 1, 0, 0]) == (Held, Run(Start, xs).1 + 1)
  {
    RunSnoc(Start, xs, 1);
    assert xs + [1, 1] == (xs + [1]) + [1];
    RunSnoc(Start, xs + [1], 1);
    assert xs + [1, 1, 0] == (xs + [1, 1]) + [0];
    RunSnoc(Start, xs + [1, 1], 0);
    assert xs + [1, 1, 0, 0] == (xs + [1, 1, 0]) + [0];
    RunSnoc(Start, xs + [1, 1, 0], 0);
  }

  /** A press that reads 1 on its debounce re-read is ignored, and since the
      watcher then keeps `last = 0`, the pin must read 1 again before a
      later press counts. */
  lemma {:induction false} GlitchIgnored(n: nat)
    ensures Run(Start, [0, 1] + Zeros(n)) == (Polling(0), 0)
  {
    if n > 0 {
      GlitchIgnored(n - 1);
      assert [0, 1] + Zeros(n) == ([0, 1] + Zeros(n - 1)) + [0];
      RunSnoc(Start, [0, 1] + Zeros(n - 1), 0);
    } else {
      assert [0, 1] + Zeros(0) == [0, 1];
      GlitchThenRelease();
    }
  }

  lemma GlitchThenRelease()
    ensures Run(Start, [0, 1]) == (Polling(0), 0)
  {
    RunSnoc(Start, [], 0);
    assert [] + [0] == [0];
    RunSnoc(Start, [0], 1);
    assert [0] + [1] == [0, 1];
  }

  /** The pin read number `k` of the recorded `samples`; reads past the
      recording give 1, released. */
  function Read(samples: seq<Level>, k: nat): Level {
    if k < |samples| then samples[k] else 1
  }

  /** The first `k` reads. */
  function Window(samples: seq<Level>, k: nat): (w: seq<Level>)
    ensures |w| == k
    ensures forall i :: 0 <= i < k ==> w[i] == Read(samples, i)
  {
    if k <= |samples| then samples[..k] else samples + Ones(k - |samples|)
  }

  lemma WindowSnoc(samples: seq<Level>, k: nat)
    ensures Window(samples, k + 1) == Window(samples, k) + [Read(samples, k)]
  {
  }

  lemma WindowPastEnd(samples: seq<Level>, k: nat)
    requires k >= |samples|
    ensures Window(samples, k) == samples + Ones(k - |samples|)
  {
  }
}
