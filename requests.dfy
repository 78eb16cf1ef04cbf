/** The request router of `handle_client` (main.py:200-335) as pure
    functions: Dispatch turns the request text into the Action the handler
    takes, Apply gives that action's effect on the configuration store, and
    Reply the response it writes.  The handler's I/O (reading the socket,
    writing and closing it) is left to the caller. */
module Requests {
  import opened Wrappers
  import opened Floats
  import opened Text
  import opened Autonomous

  /** What the handler does with one request. */
  datatype Action =
    | Silent                                 // fewer than two words: nothing is written
    | ServePage                              // GET /
    | ToggleMode                             // POST /api/toggle_mode
    | ReadSoil(plant: int)                   // GET /api/update_soil/{i}
    | RunPump(plant: int, secs: Float)       // POST /api/pump/{i}/{s}
    | SetThreshold(plant: int, value: int)   // POST /api/set_threshold/{i}/{v}
    | SetWater(plant: int, secs: Float)      // POST /api/set_water/{i}/{v}
    | Reject                                 // 400 ERR
    | NotFound                               // 404 Not Found

  predicate Indexed(a: Action) {
    a.ReadSoil? || a.RunPump? || a.SetThreshold? || a.SetWater?
  }

  datatype Body = Page | PlainText(text: string) | SoilJson(raw: int)

  datatype Response = Response(status: int, body: Body)

  const OkText := Response(200, PlainText("OK"))
  const ErrText := Response(400, PlainText("ERR"))
  const NotFoundText := Response(404, PlainText("Not Found"))

  /** The plant index in a path segment: `int(s)`, then `0 <= i < n`. */
  function PlantIndex(s: string, n: nat): (r: Option<nat>)
    ensures r.Some? <==> ParseInt(s).Some? && 0 <= ParseInt(s).value < n
    ensures r.Some? ==> r.value == ParseInt(s).value
  {
    match ParseInt(s)
    case Some(i) => if 0 <= i < n then Some(i) else None
    case None => None
  }

  /** `GET /api/update_soil/{i}` (main.py:238-257), given the path's
      `/`-separated segments: exactly four, the last a plant's index. */
  function SoilRoute(segs: seq<string>, n: nat): (a: Action)
    ensures a == Reject || (a.ReadSoil? && 0 <= a.plant < n)
    ensures a.ReadSoil? <==> |segs| == 4 && PlantIndex(segs[3], n).Some?
    ensures a.ReadSoil? ==> a.plant == ParseInt(segs[3]).value
  {
    if |segs| != 4 then Reject
    else match PlantIndex(segs[3], n)
      case None => Reject
      case Some(i) => ReadSoil(i)
  }

  /** `POST /api/pump/{i}/{s}` (main.py:260-281): five segments, an integer
      index, a float duration, the index in range, the duration above zero. */
  function PumpRoute(segs: seq<string>, n: nat, floatOf: string -> Option<Float>): (a: Action)
    ensures a == Reject || (a.RunPump? && 0 <= a.plant < n && !AtMostZero(a.secs))
    ensures a.RunPump? <==>
              |segs| == 5 && PlantIndex(segs[3], n).Some? && floatOf(segs[4]).Some? &&
              !AtMostZero(floatOf(segs[4]).value)
    ensures a.RunPump? ==> a.plant == ParseInt(segs[3]).value && a.secs == floatOf(segs[4]).value
  {
    if |segs| != 5 || ParseInt(segs[3]).None? || floatOf(segs[4]).None? then Reject
    else match PlantIndex(segs[3], n)
      case None => Reject
      case Some(i) =>
        var secs := floatOf(segs[4]).value;
        if AtMostZero(secs) then Reject else RunPump(i, secs)
  }

  /** `POST /api/set_threshold/{i}/{v}` (main.py:284-297): five segments, two
      integers, the index in range; the value itself is not checked. */
  function ThresholdRoute(segs: seq<string>, n: nat): (a: Action)
    ensures a == Reject || (a.SetThreshold? && 0 <= a.plant < n)
    ensures a.SetThreshold? <==>
              |segs| == 5 && PlantIndex(segs[3], n).Some? && ParseInt(segs[4]).Some?
    ensures a.SetThreshold? ==> a.plant == ParseInt(segs[3]).value && a.value == ParseInt(segs[4]).value
  {
    if |segs| != 5 || ParseInt(segs[3]).None? || ParseInt(segs[4]).None? then Reject
    else match PlantIndex(segs[3], n)
      case None => Reject
      case Some(i) => SetThreshold(i, ParseInt(segs[4]).value)
  }

  /** `POST /api/set_water/{i}/{s}` (main.py:300-315): five segments, an
      integer index, a float duration, the index in range, the duration not
      below zero. */
  function WaterRoute(segs: seq<string>, n: nat, floatOf: string -> Option<Float>): (a: Action)
    ensures a == Reject || (a.SetWater? && 0 <= a.plant < n && !BelowZero(a.secs))
    ensures a.SetWater? <==>
              |segs| == 5 && PlantIndex(segs[3], n).Some? && floatOf(segs[4]).Some? &&
              !BelowZero(floatOf(segs[4]).value)
    ensures a.SetWater? ==> a.plant == ParseInt(segs[3]).value && a.secs == floatOf(segs[4]).value
  {
    if |segs| != 5 || ParseInt(segs[3]).None? || floatOf(segs[4]).None? then Reject
    else match PlantIndex(segs[3], n)
      case None => Reject
      case Some(i) =>
        var secs := floatOf(segs[4]).value;
        if BelowZero(secs) then Reject else SetWater(i, secs)
  }

  /** The route table, tried in the order of main.py:218-318, for a request
      whose method (`verb`) and path are given; `n` is the number of plants and
      `floatOf` is Python's `float()`.  Routes match on the method and the
      exact path or a path prefix; anything else is not found. */
  function Route(verb: string, path: string, n: nat, floatOf: string -> Option<Float>): (a: Action)
    ensures a != Silent
    ensures Indexed(a) ==> 0 <= a.plant < n
    ensures a.RunPump? ==> !AtMostZero(a.secs)
    ensures a.SetWater? ==> !BelowZero(a.secs)
    ensures a == ServePage <==> verb == "GET" && path == "/"
    ensures a == ToggleMode <==> verb == "POST" && path == "/api/toggle_mode"
    ensures a == NotFound <==>
              !(verb == "GET" && (path == "/" || "/api/update_soil/" <= path)) &&
              !(verb == "POST" && (path == "/api/toggle_mode" || "/api/pump/" <= path ||
                                   "/api/set_threshold/" <= path || "/api/set_water/" <= path))
  {
    if verb == "GET" && path == "/" then ServePage
    else if verb == "POST" && path == "/api/toggle_mode" then ToggleMode
    else if verb == "GET" && "/api/update_soil/" <= path then SoilRoute(Split(path, '/'), n)
    else if verb == "POST" && "/api/pump/" <= path then PumpRoute(Split(path, '/'), n, floatOf)
    else if verb == "POST" && "/api/set_threshold/" <= path then ThresholdRoute(Split(path, '/'), n)
    else if verb == "POST" && "/api/set_water/" <= path then WaterRoute(Split(path, '/'), n, floatOf)
    else NotFound
  }

  /** The route prefixes exclude each other and the exact paths, so the
      order in which the handler tries them does not matter. */
  lemma PrefixesDisjoint(path: string)
    ensures "/api/update_soil/" <= path ==> path != "/"
    ensures "/api/pump/" <= path ==> path != "/api/toggle_mode"
    ensures "/api/set_threshold/" <= path ==> path != "/api/toggle_mode" && !("/api/pump/" <= path)
    ensures "/api/set_water/" <= path ==>
              path != "/api/toggle_mode" && !("/api/pump/" <= path) && !("/api/set_threshold/" <= path)
  {
    if "/api/pump/" <= path {
      assert path[5] == 'p';
      DiffersAt("/api/toggle_mode", path, 5);
    }
    if "/api/set_threshold/" <= path {
      assert path[5] == 's';
      DiffersAt("/api/toggle_mode", path, 5);
      DiffersAt("/api/pump/", path, 5);
    }
    if "/api/set_water/" <= path {
      assert path[5] == 's' && path[9] == 'w';
      DiffersAt("/api/toggle_mode", path, 5);
      DiffersAt("/api/pump/", path, 5);
      DiffersAt("/api/set_threshold/", path, 9);
    }
  }

  /** Each prefix route handles exactly the paths that start with its
      prefix, under its own method. */
  lemma RouteByPrefix(verb: string, path: string, n: nat, floatOf: string -> Option<Float>)
    ensures verb == "GET" && "/api/update_soil/" <= path ==> Route(verb, path, n, floatOf) == SoilRoute(Split(path, '/'), n)
    ensures verb == "POST" && "/api/pump/" <= path ==> Route(verb, path, n, floatOf) == PumpRoute(Split(path, '/'), n, floatOf)
    ensures verb == "POST" && "/api/set_threshold/" <= path ==> Route(verb, path, n, floatOf) == ThresholdRoute(Split(path, '/'), n)
    ensures verb == "POST" && "/api/set_water/" <= path ==> Route(verb, path, n, floatOf) == WaterRoute(Split(path, '/'), n, floatOf)
  {
    PrefixesDisjoint(path);
  }

  /** The words of the request's first line (main.py:211-212). */
  function RequestWords(req: string): (ws: seq<string>)
    ensures ws == Tokens(FirstLine(req))
    ensures forall i :: 0 <= i < |ws| ==> ws[i] != [] && NoSpace(ws[i])
  {
    TokensOfStrip(FirstLine(req));
    Tokens(Strip(FirstLine(req)))
  }

  /** The action for the request text `req` (main.py:203-215 and the routes). */
  function Dispatch(req: string, n: nat, floatOf: string -> Option<Float>): (a: Action)
    ensures Indexed(a) ==> 0 <= a.plant < n
    ensures a.RunPump? ==> !AtMostZero(a.secs)
    ensures a.SetWater? ==> !BelowZero(a.secs)
  {
    var words := RequestWords(req);
    if |words| < 2 then Silent else Route(words[0], words[1], n, floatOf)
  }

  /** The shared configuration: `is_config_mode`, `moisture_thresholds`,
      `auto_water_seconds`. */
  datatype Config = Config(configMode: bool, thresholds: seq<int>, water: seq<Float>)

  /** The action's effect on the configuration: a toggle flips the mode, a
      setter replaces one entry, and nothing else changes anything. */
  function Apply(c: Config, a: Action): (c': Config)
    requires a.SetThreshold? ==> 0 <= a.plant < |c.thresholds|
    requires a.SetWater? ==> 0 <= a.plant < |c.water|
    ensures c'.configMode == (c.configMode != (a == ToggleMode))
    ensures |c'.thresholds| == |c.thresholds| && |c'.water| == |c.water|
    ensures forall j :: 0 <= j < |c.thresholds| ==>
              c'.thresholds[j] == if a.SetThreshold? && a.plant == j then a.value else c.thresholds[j]
    ensures forall j :: 0 <= j < |c.water| ==>
              c'.water[j] == if a.SetWater? && a.plant == j then a.secs else c.water[j]
  {
    match a
    case ToggleMode => c.(configMode := !c.configMode)
    case SetThreshold(i, v) => c.(thresholds := c.thresholds[i := v])
    case SetWater(i, secs) => c.(water := c.water[i := secs])
    case _ => c
  }

  /** The response written for the action; `soil` is what `read_u16()` gives
      for the requested plant (None when it raises).  A pump request answers
      200 only when the actuation's wait completed. */
  function Reply(a: Action, soil: Option<U16>): (r: Option<Response>)
    ensures r.None? <==> a == Silent
    ensures r.Some? && r.value.status == 200 <==>
              a.ServePage? || a.ToggleMode? || a.SetThreshold? || a.SetWater? ||
              (a.ReadSoil? && soil.Some?) || (a.RunPump? && WaitAccepts(a.secs))
    ensures r == Some(NotFoundText) <==> a == NotFound
    ensures r == Some(ErrText) <==>
              a == Reject || (a.ReadSoil? && soil.None?) || (a.RunPump? && !WaitAccepts(a.secs))
    ensures a == ServePage ==> r == Some(Response(200, Page))
    ensures a.ReadSoil? && soil.Some? ==> r == Some(Response(200, SoilJson(soil.value)))
    ensures r.Some? && r.value.status == 200 && !a.ServePage? && !a.ReadSoil? ==> r == Some(OkText)
  {
    match a
    case Silent => None
    case ServePage => Some(Response(200, Page))
    case ToggleMode => Some(OkText)
    case ReadSoil(_) =>
      (match soil
       case Some(raw) => Some(Response(200, SoilJson(raw)))
       case None => Some(ErrText))
    case RunPump(_, secs) => if WaitAccepts(secs) then Some(OkText) else Some(ErrText)
    case SetThreshold(_, _) => Some(OkText)
    case SetWater(_, _) => Some(OkText)
    case Reject => Some(ErrText)
    case NotFound => Some(NotFoundText)
  }

  // -----------------------------------------------------------------------
  // Properties
  // -----------------------------------------------------------------------

  /** A request line with fewer than two words gets no response, and only
      such a request line. */
  lemma SilentIffFewerThanTwoWords(req: string, n: nat, floatOf: string -> Option<Float>)
    ensures Dispatch(req, n, floatOf) == Silent <==> |Tokens(FirstLine(req))| < 2
  {
    TokensOfStrip(FirstLine(req));
  }

  const Version := "HTTP/1.1"

  /** A request line, `method path HTTP/1.1`, ended by CR. */
  function RequestLine(verb: string, path: string): string {
    verb + " " + path + " " + Version + "\r"
  }

  /** The text of a request: its request line, LF, then the header lines. */
  function RequestText(verb: string, path: string, headers: string): string {
    RequestLine(verb, path) + "\n" + headers
  }

  /** The method and path of a request are the first two words of its first
      line, whatever headers follow. */
  lemma {:induction false} WordsOfRequestText(verb: string, path: string, headers: string)
    requires verb != [] && NoSpace(verb) && path != [] && NoSpace(path)
    ensures RequestWords(RequestText(verb, path, headers)) == [verb, path, Version]
  {
    var line := RequestLine(verb, path);
    NoNewlineInLine(verb, path);
    WordsOfFirstLine(line, headers);
    VersionIsWord();
    TokensOfRequestLine(verb, path, Version);
  }

  lemma VersionIsWord()
    ensures Version != [] && NoSpace(Version)
  {
  }

  /** Only the first line's words matter. */
  lemma WordsOfFirstLine(line: string, headers: string)
    requires '\n' !in line
    ensures RequestWords(line + "\n" + headers) == Tokens(line)
  {
    FirstLineOf(line, headers);
    TokensOfStrip(line);
  }

  lemma {:induction false} TokensOfRequestLine(verb: string, path: string, version: string)
    requires verb != [] && NoSpace(verb) && path != [] && NoSpace(path)
    requires version != [] && NoSpace(version)
    ensures Tokens(verb + " " + path + " " + version + "\r") == [verb, path, version]
  {
    assert verb + " " + path + " " + version + "\r" == verb + " " + (path + " " + (version + "\r"));
    TokensOfWordThenSpace(verb, path + " " + (version + "\r"));
    TokensOfWordThenSpace(path, version + "\r");
    TokensIgnoreTrailingSpace(version, '\r');
    TokensOfUnwords([version]);
  }

  lemma NoNewlineInLine(verb: string, path: string)
    requires NoSpace(verb) && NoSpace(path)
    ensures '\n' !in RequestLine(verb, path)
  {
    var line := RequestLine(verb, path);
    forall k | 0 <= k < |line|
      ensures line[k] != '\n'
    {
      if k < |verb| {
        assert line[k] == verb[k];
      } else if |verb| < k <= |verb| + |path| {
        assert line[k] == path[k - |verb| - 1];
      }
    }
  }

  lemma DispatchOfRequestText(verb: string, path: string, headers: string, n: nat, floatOf: string -> Option<Float>)
    requires verb != [] && NoSpace(verb) && path != [] && NoSpace(path)
    ensures Dispatch(RequestText(verb, path, headers), n, floatOf) == Route(verb, path, n, floatOf)
  {
    WordsOfRequestText(verb, path, headers);
  }

  /** The path `/api/{name}/{index}/{value}`. */
  function ApiPath(name: string, index: string, value: string): string {
    "/api/" + name + "/" + index + "/" + value
  }

  lemma {:induction false} SegmentsOfApiPath(name: string, index: string, value: string)
    requires '/' !in name && '/' !in index && '/' !in value
    ensures Split(ApiPath(name, index, value), '/') == ["", "api", name, index, value]
  {
    var parts := ["", "api", name, index, value];
    calc {
      Join(parts, '/');
      "" + "/" + Join(parts[1..], '/');
      { assert parts[1..] == ["api", name, index, value]; }
      "" + "/" + ("api" + "/" + Join(["api", name, index, value][1..], '/'));
      { assert ["api", name, index, value][1..] == [name, index, value]; }
      "" + "/" + ("api" + "/" + Join([name, index, value], '/'));
      { assert [name, index, value][1..] == [index, value]; }
      "" + "/" + ("api" + "/" + (name + "/" + Join([index, value], '/')));
      { assert [index, value][1..] == [value]; }
      "" + "/" + ("api" + "/" + (name + "/" + (index + "/" + value)));
      ApiPath(name, index, value);
    }
    SplitOfJoin(parts, '/');
  }

  lemma RouteNamesHaveNoSlash()
    ensures '/' !in "set_threshold" && '/' !in "set_water" && '/' !in "pump"
  {
    var names := ["set_threshold", "set_water", "pump"];
    forall j, k | 0 <= j < 3 && 0 <= k < |names[j]|
      ensures names[j][k] != '/'
    {
    }
  }

  /** The segments of a well-formed indexed path. */
  lemma IndexedSegments(name: string, i: int, value: string)
    requires '/' !in name && '/' !in value
    ensures var segs := Split(ApiPath(name, IntToString(i), value), '/');
            |segs| == 5 && ParseInt(segs[3]) == Some(i) && segs[4] == value
  {
    SegmentsOfApiPath(name, IntToString(i), value);
    ParseIntOfIntToString(i);
  }

  lemma ApiPathNoSpace(name: string, index: string, value: string)
    requires NoSpace(name) && NoSpace(index) && NoSpace(value)
    ensures ApiPath(name, index, value) != [] && NoSpace(ApiPath(name, index, value))
  {
  }

  /** A prefix that differs from `s` at some position is not a prefix of it. */
  lemma DiffersAt(p: string, s: string, k: nat)
    requires k < |p| && k < |s| && p[k] != s[k]
    ensures !(p <= s) && p != s
  {
  }

  /** `/api/{name}/...` starts with `/api/{name}/`. */
  lemma ApiPathPrefix(name: string, index: string, value: string)
    ensures "/api/" + name + "/" <= ApiPath(name, index, value)
    ensures |ApiPath(name, index, value)| > |name| + 5
  {
    var prefix := "/api/" + name + "/";
    assert ApiPath(name, index, value) == prefix + (index + "/" + value);
  }

  /** A pump path takes the pump route. */
  lemma RouteOfPumpPath(index: string, value: string, n: nat, floatOf: string -> Option<Float>)
    ensures Route("POST", ApiPath("pump", index, value), n, floatOf)
            == PumpRoute(Split(ApiPath("pump", index, value), '/'), n, floatOf)
  {
    var path := ApiPath("pump", index, value);
    ApiPathPrefix("pump", index, value);
    assert "/api/pump/" <= path;
    assert path[5] == 'p';
    DiffersAt("/api/toggle_mode", path, 5);
  }

  /** A threshold path takes the threshold route. */
  lemma RouteOfThresholdPath(index: string, value: string, n: nat, floatOf: string -> Option<Float>)
    ensures Route("POST", ApiPath("set_threshold", index, value), n, floatOf)
            == ThresholdRoute(Split(ApiPath("set_threshold", index, value), '/'), n)
  {
    var path := ApiPath("set_threshold", index, value);
    ApiPathPrefix("set_threshold", index, value);
    assert "/api/set_threshold/" <= path;
    assert path[5] == 's' && path[9] == 't';
    DiffersAt("/api/toggle_mode", path, 5);
    DiffersAt("/api/pump/", path, 5);
  }

  /** A duration path takes the duration route. */
  lemma RouteOfWaterPath(index: string, value: string, n: nat, floatOf: string -> Option<Float>)
    ensures Route("POST", ApiPath("set_water", index, value), n, floatOf)
            == WaterRoute(Split(ApiPath("set_water", index, value), '/'), n, floatOf)
  {
    var path := ApiPath("set_water", index, value);
    ApiPathPrefix("set_water", index, value);
    assert "/api/set_water/" <= path;
    assert path[5] == 's' && path[9] == 'w';
    DiffersAt("/api/toggle_mode", path, 5);
    DiffersAt("/api/pump/", path, 5);
    DiffersAt("/api/set_threshold/", path, 9);
  }

  /** `POST /api/set_threshold/{i}/{v}` sets threshold `i` to `v` when `i` is
      a plant's index and is rejected otherwise; `v` is not range-checked. */
  lemma SetThresholdRequest(i: int, v: int, headers: string, n: nat, floatOf: string -> Option<Float>)
    ensures Dispatch(RequestText("POST", ApiPath("set_threshold", IntToString(i), IntToString(v)), headers), n, floatOf)
            == if 0 <= i < n then SetThreshold(i, v) else Reject
  {
    var value := IntToString(v);
    SetThresholdRoutes(IntToString(i), value, headers, n, floatOf);
    RouteNamesHaveNoSlash();
    IndexedSegments("set_threshold", i, value);
    ParseIntOfIntToString(v);
    ThresholdOfSegments(Split(ApiPath("set_threshold", IntToString(i), value), '/'), i, v, n);
  }

  lemma ThresholdOfSegments(segs: seq<string>, i: int, v: int, n: nat)
    requires |segs| == 5 && ParseInt(segs[3]) == Some(i) && ParseInt(segs[4]) == Some(v)
    ensures ThresholdRoute(segs, n) == if 0 <= i < n then SetThreshold(i, v) else Reject
  {
  }

  lemma SetThresholdRoutes(index: string, s: string, headers: string, n: nat, floatOf: string -> Option<Float>)
    requires index != [] && NoSpace(index) && '/' !in index
    requires s != [] && NoSpace(s) && '/' !in s
    ensures Dispatch(RequestText("POST", ApiPath("set_threshold", index, s), headers), n, floatOf)
            == ThresholdRoute(Split(ApiPath("set_threshold", index, s), '/'), n)
  {
    ApiPathNoSpace("set_threshold", index, s);
    DispatchOfRequestText("POST", ApiPath("set_threshold", index, s), headers, n, floatOf);
    RouteOfThresholdPath(index, s, n, floatOf);
  }

  /** `POST /api/set_water/{i}/{s}` sets duration `i` to `float(s)` when `i`
      is a plant's index and the value is not negative; otherwise rejected. */
  lemma SetWaterRequest(i: int, s: string, secs: Float, headers: string, n: nat, floatOf: string -> Option<Float>)
    requires s != [] && NoSpace(s) && '/' !in s && floatOf(s) == Some(secs)
    ensures Dispatch(RequestText("POST", ApiPath("set_water", IntToString(i), s), headers), n, floatOf)
            == if 0 <= i < n && !BelowZero(secs) then SetWater(i, secs) else Reject
  {
    SetWaterRoutes(IntToString(i), s, headers, n, floatOf);
    RouteNamesHaveNoSlash();
    IndexedSegments("set_water", i, s);
  }

  lemma SetWaterRoutes(index: string, s: string, headers: string, n: nat, floatOf: string -> Option<Float>)
    requires index != [] && NoSpace(index) && '/' !in index
    requires s != [] && NoSpace(s) && '/' !in s
    ensures Dispatch(RequestText("POST", ApiPath("set_water", index, s), headers), n, floatOf)
            == WaterRoute(Split(ApiPath("set_water", index, s), '/'), n, floatOf)
  {
    ApiPathNoSpace("set_water", index, s);
    DispatchOfRequestText("POST", ApiPath("set_water", index, s), headers, n, floatOf);
    RouteOfWaterPath(index, s, n, floatOf);
  }

  /** `POST /api/pump/{i}/{s}` runs pump `i` for `float(s)` seconds when `i`
      is a plant's index and the duration is above zero; otherwise rejected. */
  lemma PumpRequest(i: int, s: string, secs: Float, headers: string, n: nat, floatOf: string -> Option<Float>)
    requires s != [] && NoSpace(s) && '/' !in s && floatOf(s) == Some(secs)
    ensures Dispatch(RequestText("POST", ApiPath("pump", IntToString(i), s), headers), n, floatOf)
            == if 0 <= i < n && !AtMostZero(secs) then RunPump(i, secs) else Reject
  {
    PumpRoutes(IntToString(i), s, headers, n, floatOf);
    RouteNamesHaveNoSlash();
    IndexedSegments("pump", i, s);
  }

  lemma PumpRoutes(index: string, s: string, headers: string, n: nat, floatOf: string -> Option<Float>)
    requires index != [] && NoSpace(index) && '/' !in index
    requires s != [] && NoSpace(s) && '/' !in s
    ensures Dispatch(RequestText("POST", ApiPath("pump", index, s), headers), n, floatOf)
            == PumpRoute(Split(ApiPath("pump", index, s), '/'), n, floatOf)
  {
    ApiPathNoSpace("pump", index, s);
    DispatchOfRequestText("POST", ApiPath("pump", index, s), headers, n, floatOf);
    RouteOfPumpPath(index, s, n, floatOf);
  }

  /** With two plants, `POST /api/pump/0/2` runs pump 0 for 2 seconds and
      answers 200 OK once the wait is over. */
  lemma PumpScenario(headers: string, floatOf: string -> Option<Float>, soil: Option<U16>)
    requires floatOf("2") == Some(Finite(2.0))
    ensures Dispatch(RequestText("POST", ApiPath("pump", "0", "2"), headers), 2, floatOf) == RunPump(0, Finite(2.0))
    ensures Reply(RunPump(0, Finite(2.0)), soil) == Some(OkText)
  {
    assert IntToString(0) == "0";
    PumpRequest(0, "2", Finite(2.0), headers, 2, floatOf);
  }

  /** With two plants, `POST /api/pump/5/2` answers 400 and runs nothing. */
  lemma PumpOutOfRangeScenario(headers: string, floatOf: string -> Option<Float>, soil: Option<U16>)
    requires floatOf("2") == Some(Finite(2.0))
    ensures Dispatch(RequestText("POST", ApiPath("pump", "5", "2"), headers), 2, floatOf) == Reject
    ensures Reply(Reject, soil) == Some(ErrText)
  {
    assert IntToString(5) == "5";
    PumpRequest(5, "2", Finite(2.0), headers, 2, floatOf);
  }

  /** `GET /api/update_soil/{i}` reads plant `i`'s sensor when `i` is a
      plant's index; otherwise rejected. */
  lemma ReadSoilRequest(i: int, headers: string, n: nat, floatOf: string -> Option<Float>)
    ensures Dispatch(RequestText("GET", SoilPath(IntToString(i)), headers), n, floatOf)
            == if 0 <= i < n then ReadSoil(i) else Reject
  {
    var index := IntToString(i);
    SoilRoutes(index, headers, n, floatOf);
    SoilSegments(index);
    ParseIntOfIntToString(i);
    SoilOfSegments(Split(SoilPath(index), '/'), i, n);
  }

  lemma SoilOfSegments(segs: seq<string>, i: int, n: nat)
    requires |segs| == 4 && ParseInt(segs[3]) == Some(i)
    ensures SoilRoute(segs, n) == if 0 <= i < n then ReadSoil(i) else Reject
  {
  }

  /** The path `/api/update_soil/{index}`. */
  function SoilPath(index: string): string {
    "/api/update_soil/" + index
  }

  lemma SoilRoutes(index: string, headers: string, n: nat, floatOf: string -> Option<Float>)
    requires NoSpace(index)
    ensures Dispatch(RequestText("GET", SoilPath(index), headers), n, floatOf)
            == SoilRoute(Split(SoilPath(index), '/'), n)
  {
    var path := SoilPath(index);
    assert NoSpace(path);
    DispatchOfRequestText("GET", path, headers, n, floatOf);
    assert path != "/";
    assert "/api/update_soil/" <= path;
  }

  lemma SoilSegments(index: string)
    requires '/' !in index
    ensures Split(SoilPath(index), '/') == ["", "api", "update_soil", index]
  {
    var parts := ["", "api", "update_soil", index];
    calc {
      Join(parts, '/');
      "" + "/" + Join(parts[1..], '/');
      { assert parts[1..] == ["api", "update_soil", index]; }
      "" + "/" + ("api" + "/" + Join(["api", "update_soil", index][1..], '/'));
      { assert ["api", "update_soil", index][1..] == ["update_soil", index]; }
      "" + "/" + ("api" + "/" + Join(["update_soil", index], '/'));
      { assert ["update_soil", index][1..] == [index]; }
      "" + "/" + ("api" + "/" + ("update_soil" + "/" + index));
      SoilPath(index);
    }
    SplitOfJoin(parts, '/');
  }

  /** Toggling twice restores the mode. */
  lemma ToggleTwiceRestores(c: Config, headers: string, n: nat, floatOf: string -> Option<Float>)
    ensures var a := Dispatch(RequestText("POST", "/api/toggle_mode", headers), n, floatOf);
            a == ToggleMode && Apply(c, a).configMode != c.configMode && Apply(Apply(c, a), a) == c
  {
    ToggleRequest(headers, n, floatOf);
  }

  lemma ToggleRequest(headers: string, n: nat, floatOf: string -> Option<Float>)
    ensures Dispatch(RequestText("POST", "/api/toggle_mode", headers), n, floatOf) == ToggleMode
  {
    assert NoSpace("/api/toggle_mode");
    DispatchOfRequestText("POST", "/api/toggle_mode", headers, n, floatOf);
  }

  /** A request that is rejected, not found or unanswered, or that only
      reads, leaves the configuration unchanged. */
  lemma FailedRequestsChangeNothing(c: Config, req: string, floatOf: string -> Option<Float>)
    requires |c.thresholds| == |c.water|
    requires Dispatch(req, |c.thresholds|, floatOf) !in {ToggleMode}
    requires !Dispatch(req, |c.thresholds|, floatOf).SetThreshold?
    requires !Dispatch(req, |c.thresholds|, floatOf).SetWater?
    ensures Apply(c, Dispatch(req, |c.thresholds|, floatOf)) == c
  {
  }
}
