/** The controller's shared state, and the main.py tasks that update it in
    place: the request handler's effect on the store, the autonomous pass,
    the button watcher, entering and leaving configuration mode, and one
    turn of `main`.  Tasks run one at a time here; the pumps' locks are
    the `locked` flags of their actuators. */
module Controller {
  import opened Wrappers
  import opened Floats
  import opened Pump
  import opened Effects
  import opened Autonomous
  import opened Requests
  import opened Button

  /** The plants' defaults: threshold 1000 and three seconds of water. */
  const DefaultThreshold := 1000
  const DefaultWater := Finite(3.0)

  /** `PumpStop` for each plant in order. */
  function Stops(n: nat): (r: seq<Effect>)
    ensures |r| == n && forall i :: 0 <= i < n ==> r[i] == PumpStop(i)
  {
    if n == 0 then [] else Stops(n - 1) + [PumpStop(n - 1)]
  }

  lemma PlanStep(readings: seq<Option<U16>>, thresholds: seq<int>, water: seq<Float>, i: nat)
    requires i < |readings| && |readings| == |thresholds| == |water|
    ensures Plan(readings, thresholds, water, i + 1) ==
              Plan(readings, thresholds, water, i) +
              (if Dry(readings, thresholds, i) then [PumpRun(i, water[i])] else [])
  {
  }

  /** Read `k` extends the run by one step. */
  lemma ReadOnce(samples: seq<Level>, k: nat)
    ensures Run(Start, Window(samples, k + 1)).0 == Step(Run(Start, Window(samples, k)).0, Read(samples, k)).0
    ensures Run(Start, Window(samples, k + 1)).1 ==
              Run(Start, Window(samples, k)).1 + (if Step(Run(Start, Window(samples, k)).0, Read(samples, k)).1 then 1 else 0)
  {
    WindowSnoc(samples, k);
    RunSnoc(Start, Window(samples, k), Read(samples, k));
  }

  /** The reads of one turn of `button_watcher` up to the toggle: the pin,
      and when it shows a 1 -> 0 edge the debounce re-read.  `confirmed`
      says the re-read was 0 as well. */
  method ReadEdge(samples: seq<Level>, k0: nat, last: Level, ghost toggles: nat)
    returns (k: nat, val: Level, confirmed: bool)
    requires Run(Start, Window(samples, k0)) == (Polling(last), toggles)
    ensures k > k0 && val == Read(samples, k0)
    ensures confirmed <==> val == 0 && last == 1 && Read(samples, k0 + 1) == 0
    ensures confirmed ==> Run(Start, Window(samples, k)) == (Held, toggles + 1)
    ensures !confirmed ==> Run(Start, Window(samples, k)) == (Polling(val), toggles)
  {
    val := Read(samples, k0);
    ReadOnce(samples, k0);
    k := k0 + 1;
    confirmed := false;
    if val == 0 && last == 1 {
      var again := Read(samples, k);
      ReadOnce(samples, k);
      k := k + 1;
      confirmed := again == 0;
    }
  }

  /** The release wait of `button_watcher`: after a toggle, read the pin
      until it reads 1.  Returns the number of reads made so far. */
  method AwaitRelease(samples: seq<Level>, k0: nat, ghost toggles: nat) returns (k: nat)
    requires Run(Start, Window(samples, k0)) == (Held, toggles)
    ensures k > k0 && Run(Start, Window(samples, k)) == (Polling(0), toggles)
  {
    var pin := Read(samples, k0);
    ReadOnce(samples, k0);
    k := k0 + 1;
    while pin == 0
      invariant k > k0
      invariant Run(Start, Window(samples, k)) == (if pin == 0 then Held else Polling(0), toggles)
      invariant pin == 0 ==> k <= |samples|
      decreases |samples| + 1 - k
    {
      pin := Read(samples, k);
      ReadOnce(samples, k);
      k := k + 1;
    }
  }

  class Irrigator {
    /** `is_config_mode` */
    var isConfigMode: bool
    /** `moisture_thresholds` */
    var thresholds: seq<int>
    /** `auto_water_seconds` */
    var waterSeconds: seq<Float>
    /** `adc_values` */
    var adcValues: seq<int>
    /** `_server_obj is not None`: the configuration task is in its poll loop. */
    var serverRunning: bool
    /** One actuator per plant; plant `i` drives motor `i + 1`. */
    const pumps: seq<PumpActuator>
    /** What the controller has done to the outside world, in order. */
    var journal: seq<Effect>

    ghost predicate Valid()
      reads this, pumps
    {
      |thresholds| == |pumps| && |waterSeconds| == |pumps| && |adcValues| == |pumps| &&
      (forall i, j :: 0 <= i < j < |pumps| ==> pumps[i] != pumps[j]) &&
      (forall i :: 0 <= i < |pumps| ==> pumps[i].motor == i + 1) &&
      (forall i :: 0 <= i < |pumps| ==> pumps[i].Valid() && pumps[i].IsIdle())
    }

    /** The settings the web interface reads and writes. */
    function Settings(): Config
      reads this
    {
      Config(isConfigMode, thresholds, waterSeconds)
    }

    /** No motor is running. */
    predicate AllStopped()
      reads this, pumps
    {
      forall i :: 0 <= i < |pumps| ==> pumps[i].effort == 0.0 && !pumps[i].locked
    }

    /** The module's start-up state with two plants: autonomous mode, the
        default settings, no server. */
    constructor ()
      ensures Valid() && AllStopped()
      ensures |pumps| == 2 && !isConfigMode && !serverRunning && journal == []
      ensures thresholds == [DefaultThreshold, DefaultThreshold]
      ensures waterSeconds == [DefaultWater, DefaultWater]
      ensures adcValues == [0, 0]
    {
      var p0 := new PumpActuator(1);
      var p1 := new PumpActuator(2);
      isConfigMode := false;
      thresholds := [DefaultThreshold, DefaultThreshold];
      waterSeconds := [DefaultWater, DefaultWater];
      adcValues := [0, 0];
      serverRunning := false;
      pumps := [p0, p1];
      journal := [];
    }

    /** `handle_client` for the request text `req`: the store changes as
        Apply says, a pump request actuates that plant's pump, and the
        response is Reply's.  `soil` is the requested sensor's read and
        `floatOf` is `float()`. */
    method HandleClient(req: string, soil: Option<U16>, floatOf: string -> Option<Float>)
      returns (resp: Option<Response>)
      requires Valid()
      modifies this, pumps
      ensures Valid() && AllStopped()
      ensures serverRunning == old(serverRunning) && adcValues == old(adcValues)
      ensures Settings() == Apply(old(Settings()), Dispatch(req, |pumps|, floatOf))
      ensures resp == Reply(Dispatch(req, |pumps|, floatOf), soil)
      ensures Performed(Dispatch(req, |pumps|, floatOf), old(journal), old(PumpLogs()))
    {
      var a := Dispatch(req, |pumps|, floatOf);
      resp := Perform(a, soil);
    }

    /** The logs of the plants' pumps. */
    function PumpLogs(): (logs: seq<seq<Event>>)
      reads this, pumps
      ensures |logs| == |pumps|
    {
      seq(|pumps|, j requires 0 <= j < |pumps| reads pumps => pumps[j].log)
    }

    /** The outside effect of action `a`, from the journal `journal0` and
        pump logs `logs0`: a pump request adds one actuation of that plant's
        pump, and every other action none. */
    ghost predicate Performed(a: Action, journal0: seq<Effect>, logs0: seq<seq<Event>>)
      reads this, pumps
      requires |logs0| == |pumps|
    {
      match a
      case RunPump(i, secs) =>
        0 <= i < |pumps| &&
        journal == journal0 + [PumpRun(i, secs)] &&
        forall j :: 0 <= j < |pumps| ==>
          pumps[j].log == logs0[j] + (if j == i then Actuation(secs) else [])
      case _ =>
        journal == journal0 &&
        forall j :: 0 <= j < |pumps| ==> pumps[j].log == logs0[j]
    }

    /** What `handle_client` does once the request has been routed to `a`. */
    method Perform(a: Action, soil: Option<U16>) returns (resp: Option<Response>)
      requires Valid()
      requires Indexed(a) ==> 0 <= a.plant < |pumps|
      modifies this, pumps
      ensures Valid()
      ensures serverRunning == old(serverRunning) && adcValues == old(adcValues)
      ensures Settings() == Apply(old(Settings()), a)
      ensures resp == Reply(a, soil)
      ensures Performed(a, old(journal), old(PumpLogs()))
    {
      match a
      case ToggleMode =>
        isConfigMode := !isConfigMode;
        resp := Some(OkText);
      case SetThreshold(i, v) =>
        thresholds := thresholds[i := v];
        resp := Some(OkText);
      case SetWater(i, secs) =>
        waterSeconds := waterSeconds[i := secs];
        resp := Some(OkText);
      case RunPump(i, secs) =>
        var ok := RunPumpFor(i, secs);
        resp := if ok then Some(OkText) else Some(ErrText);
      case ReadSoil(_) =>
        resp := match soil
          case Some(raw) => Some(Response(200, SoilJson(raw)))
          case None => Some(ErrText);
      case ServePage =>
        resp := Some(Response(200, Page));
      case Reject =>
        resp := Some(ErrText);
      case NotFound =>
        resp := Some(NotFoundText);
      case Silent =>
        resp := None;
    }

    /** `autonomous_cycle_once` with `readings[i]` the result of plant `i`'s
        read: records each plant's value and runs each dry plant's pump, in
        plant order, exactly as Plan decides. */
    method AutonomousCycleOnce(readings: seq<Option<U16>>)
      requires Valid() && |readings| == |pumps|
      modifies this, pumps
      ensures Valid() && AllStopped()
      ensures Settings() == old(Settings()) && serverRunning == old(serverRunning)
      ensures adcValues == Samples(readings)
      ensures journal == old(journal) + Plan(readings, thresholds, waterSeconds, |pumps|)
      ensures forall j :: 0 <= j < |pumps| ==>
                pumps[j].log == old(pumps[j].log) +
                  (if Dry(readings, thresholds, j) then Actuation(waterSeconds[j]) else [])
    {
      var i := 0;
      while i < |pumps|
        invariant 0 <= i <= |pumps|
        invariant Valid()
        invariant Settings() == old(Settings()) && serverRunning == old(serverRunning)
        invariant forall j :: 0 <= j < i ==> adcValues[j] == Sample(readings[j])
        invariant journal == old(journal) + Plan(readings, thresholds, waterSeconds, i)
        invariant forall j :: 0 <= j < |pumps| ==>
                    pumps[j].log == old(pumps[j].log) +
                      (if j < i && Dry(readings, thresholds, j) then Actuation(waterSeconds[j]) else [])
      {
        TendPlant(i, readings[i]);
        PlanStep(readings, thresholds, waterSeconds, i);
        i := i + 1;
      }
    }

    /** One iteration of the autonomous pass: record plant `i`'s value, and
        run its pump when the value is below its threshold. */
    method TendPlant(i: nat, reading: Option<U16>)
      requires Valid() && i < |pumps|
      modifies this, pumps[i]
      ensures Valid()
      ensures Settings() == old(Settings()) && serverRunning == old(serverRunning)
      ensures adcValues == old(adcValues)[i := Sample(reading)]
      ensures journal == old(journal) +
                (if Sample(reading) < thresholds[i] then [PumpRun(i, waterSeconds[i])] else [])
      ensures pumps[i].log == old(pumps[i].log) +
                (if Sample(reading) < thresholds[i] then Actuation(waterSeconds[i]) else [])
    {
      adcValues := adcValues[i := Sample(reading)];
      if adcValues[i] < thresholds[i] {
        var secs := waterSeconds[i];
        var _ := RunPumpFor(i, secs);
      }
    }

    /** Plant `i`'s pump runs for `secs` under its lock (main.py:270-274 and
        410-414); the result says whether the wait completed. */
    method RunPumpFor(i: nat, secs: Float) returns (ok: bool)
      requires Valid() && i < |pumps|
      modifies this, pumps[i]
      ensures Valid()
      ensures ok == WaitAccepts(secs)
      ensures Settings() == old(Settings()) && adcValues == old(adcValues)
      ensures serverRunning == old(serverRunning)
      ensures journal == old(journal) + [PumpRun(i, secs)]
      ensures pumps[i].log == old(pumps[i].log) + Actuation(secs)
    {
      ok := pumps[i].Actuate(secs);
      journal := journal + [PumpRun(i, secs)];
    }

    /** `button_watcher` over the pin reads `samples` (reads after the last
        sample give 1): the mode has flipped once for every confirmed press
        Run counts, and nothing else has changed. */
    method WatchButton(samples: seq<Level>)
      requires Valid()
      modifies this`isConfigMode
      ensures Valid()
      ensures isConfigMode == Flipped(old(isConfigMode), Run(Start, samples).1)
    {
      var last: Level := 1;
      var k := 0;
      ghost var toggles := 0;
      while k < |samples|
        invariant Run(Start, Window(samples, k)) == (Polling(last), toggles)
        invariant isConfigMode == Flipped(old(isConfigMode), toggles)
        decreases |samples| - k
      {
        var val, confirmed;
        k, val, confirmed := ReadEdge(samples, k, last, toggles);
        if confirmed {
          isConfigMode := !isConfigMode;
          toggles := toggles + 1;
          k := AwaitRelease(samples, k, toggles);
        }
        last := val;
      }
      WindowPastEnd(samples, k);
      OnesNeverToggle(Start, samples, k - |samples|);
    }

    /** Sets every plant's motor to effort 0 without taking its lock. */
    method StopAllPumps()
      requires Valid()
      modifies this, pumps
      ensures Valid() && AllStopped()
      ensures Settings() == old(Settings()) && adcValues == old(adcValues)
      ensures serverRunning == old(serverRunning)
      ensures journal == old(journal) + Stops(|pumps|)
      ensures forall j :: 0 <= j < |pumps| ==> pumps[j].log == old(pumps[j].log) + [SetEffort(0.0)]
    {
      var i := 0;
      while i < |pumps|
        invariant 0 <= i <= |pumps|
        invariant Valid()
        invariant Settings() == old(Settings()) && adcValues == old(adcValues)
        invariant serverRunning == old(serverRunning)
        invariant journal == old(journal) + Stops(i)
        invariant forall j :: 0 <= j < |pumps| ==>
                    pumps[j].log == old(pumps[j].log) + (if j < i then [SetEffort(0.0)] else [])
      {
        pumps[i].Stop();
        journal := journal + [PumpStop(i)];
        i := i + 1;
      }
    }

    /** `config_mode_task` up to its poll loop, after `main` has switched the
        LED on: every motor is stopped before the access point and the
        server come up. */
    method EnterConfig()
      requires Valid() && !serverRunning
      modifies this, pumps
      ensures Valid() && AllStopped() && serverRunning
      ensures Settings() == old(Settings()) && adcValues == old(adcValues)
      ensures journal == old(journal) + [Led(true)] + Stops(|pumps|) + [AccessPointUp, ServerUp]
      ensures forall j :: 0 <= j < |pumps| ==> pumps[j].log == old(pumps[j].log) + [SetEffort(0.0)]
    {
      journal := journal + [Led(true)];
      StopAllPumps();
      journal := journal + [AccessPointUp];
      journal := journal + [ServerUp];
      serverRunning := true;
    }

    /** The `finally` of `config_mode_task`, once the mode has flipped back:
        stop the server if there is one, then the access point. */
    method ExitConfig()
      requires Valid()
      modifies this
      ensures Valid() && !serverRunning
      ensures Settings() == old(Settings()) && adcValues == old(adcValues)
      ensures journal == old(journal) + (if old(serverRunning) then [ServerDown] else []) + [AccessPointDown]
    {
      if serverRunning {
        journal := journal + [ServerDown];
        serverRunning := false;
      }
      journal := journal + [AccessPointDown];
    }

    /** One turn of `main`'s loop, or of the configuration task's poll loop
        while it runs: leave configuration mode when the flag has dropped,
        enter it when the flag is set, and otherwise make one autonomous pass
        over `readings`. */
    method MainStep(readings: seq<Option<U16>>)
      requires Valid() && |readings| == |pumps|
      modifies this, pumps
      ensures Valid() && AllStopped()
      ensures serverRunning == old(isConfigMode)
      ensures thresholds == old(thresholds) && waterSeconds == old(waterSeconds)
      ensures isConfigMode == old(isConfigMode)
      ensures old(serverRunning) && isConfigMode ==> journal == old(journal)
      ensures old(serverRunning) && !isConfigMode ==> journal == old(journal) + [ServerDown, AccessPointDown]
      ensures old(serverRunning) ==>
                adcValues == old(adcValues) && forall j :: 0 <= j < |pumps| ==> pumps[j].log == old(pumps[j].log)
      ensures !old(serverRunning) && isConfigMode ==>
                journal == old(journal) + [Led(true)] + Stops(|pumps|) + [AccessPointUp, ServerUp] &&
                adcValues == old(adcValues) &&
                forall j :: 0 <= j < |pumps| ==> pumps[j].log == old(pumps[j].log) + [SetEffort(0.0)]
      ensures !old(serverRunning) && !isConfigMode ==>
                journal == old(journal) + [Led(false)] + Plan(readings, thresholds, waterSeconds, |pumps|) &&
                adcValues == Samples(readings) &&
                forall j :: 0 <= j < |pumps| ==>
                  pumps[j].log == old(pumps[j].log) +
                    (if Dry(readings, thresholds, j) then Actuation(waterSeconds[j]) else [])
    {
      if serverRunning {
        if !isConfigMode {
          ExitConfig();
        } else {
          forall i | 0 <= i < |pumps|
            ensures pumps[i].effort == 0.0 && !pumps[i].locked
          {
            assert pumps[i].IsIdle();
          }
        }
      } else if isConfigMode {
        EnterConfig();
      } else {
        journal := journal + [Led(false)];
        AutonomousCycleOnce(readings);
      }
    }
  }
}
