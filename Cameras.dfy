/** `Camera`: one RTSP camera's capture loop. OpenCV is an oracle: what a
    frame read returns and which key was pressed are inputs, the HOG people
    detector is a function value, and every call into OpenCV that has an
    effect (open, release, draw, show, destroy) is appended to a ghost log. */
module Cameras {
  import opened Wrappers
  import opened Dicts
  import opened RateGate
  import App

  datatype Frame = Frame(width: nat, height: nat, pixels: seq<int>)

  /** One detected region `(x, y, w, h)`. */
  datatype Box = Box(x: int, y: int, w: int, h: int)

  /** What `detect_humans` returns: the `(boxes, weights)` pair. */
  datatype Detection = Detection(boxes: seq<Box>, weights: seq<real>)

  /** A `cv2.VideoCapture` handle: the URL it was opened with and whether it
      has been released. */
  datatype Capture = Capture(url: string, released: bool)

  /** An effectful call into OpenCV. */
  datatype CvCall =
    | Open(url: string)                               // cv2.VideoCapture(url, CAP_FFMPEG)
    | Release                                         // capture.release()
    | Rectangle(x1: int, y1: int, x2: int, y2: int)   // cv2.rectangle, green, thickness 2
    | Show(window: string)                            // cv2.imshow(window, frame)
    | DestroyWindow(window: string)                   // cv2.destroyWindow(window)

  /** The oracle answers seen by one iteration of the worker loop: the clock
      reading, the result of `capture.read()` and the code of `cv2.waitKey(1)`. */
  datatype Tick = Tick(now: real, grabbed: Option<Frame>, key: int)

  const DETECTION_INTERVAL: real := 0.1
  const FRAME_WIDTH: nat := 640
  const FRAME_HEIGHT: nat := 480
  const URL_PATH: string := "/Streaming/Channels/"

  /** `cv2.waitKey(1) & 0xFF == ord('q')`; Python's `&` on a negative code
      (no key is -1) is the non-negative remainder modulo 256. */
  predicate IsQuit(key: int)
  {
    key % 256 == 113
  }

  /** The RTSP URL of a camera. */
  function RtspUrl(username: string, password: string, ip: string, port: string, channel: string): (url: string)
    ensures |url| == 7 + |username| + 1 + |password| + 1 + |ip| + 1 + |port| + |URL_PATH| + |channel|
    ensures url[..7] == "rtsp://"
    ensures url[|url| - |channel|..] == channel
    ensures url[|url| - |channel| - |URL_PATH|..|url| - |channel|] == URL_PATH
  {
    "rtsp://" + username + ":" + password + "@" + ip + ":" + port + URL_PATH + channel
  }

  /** The URL determines the password: two URLs that differ only in the
      password are equal exactly when the passwords are. */
  lemma UrlReflectsPassword(username: string, p1: string, p2: string, ip: string, port: string, channel: string)
    ensures RtspUrl(username, p1, ip, port, channel) == RtspUrl(username, p2, ip, port, channel) <==> p1 == p2
  {
    var head := "rtsp://" + username + ":";
    var tail := "@" + ip + ":" + port + URL_PATH + channel;
    assert RtspUrl(username, p1, ip, port, channel) == head + p1 + tail;
    assert RtspUrl(username, p2, ip, port, channel) == head + p2 + tail;
    if head + p1 + tail == head + p2 + tail {
      assert (head + p1 + tail)[|head|..|head| + |p1|] == p1;
      assert (head + p2 + tail)[|head|..|head| + |p2|] == p2;
    }
  }

  /** The URL determines the username in the same way. */
  lemma UrlReflectsUsername(u1: string, u2: string, password: string, ip: string, port: string, channel: string)
    ensures RtspUrl(u1, password, ip, port, channel) == RtspUrl(u2, password, ip, port, channel) <==> u1 == u2
  {
    var tail := ":" + password + "@" + ip + ":" + port + URL_PATH + channel;
    assert RtspUrl(u1, password, ip, port, channel) == "rtsp://" + u1 + tail;
    assert RtspUrl(u2, password, ip, port, channel) == "rtsp://" + u2 + tail;
    if "rtsp://" + u1 + tail == "rtsp://" + u2 + tail {
      assert ("rtsp://" + u1 + tail)[7..7 + |u1|] == u1;
      assert ("rtsp://" + u2 + tail)[7..7 + |u2|] == u2;
    }
  }

  /** `cv2.resize(frame, (640, 480))`; resampling the pixels is not modelled. */
  function Resize(frame: Frame): (r: Frame)
    ensures r.width == FRAME_WIDTH && r.height == FRAME_HEIGHT
  {
    Frame(FRAME_WIDTH, FRAME_HEIGHT, frame.pixels)
  }

  /** The rectangle drawn for one box: from `(x, y)` to `(x + w, y + h)`. */
  function RectangleFor(b: Box): (r: CvCall)
  {
    Rectangle(b.x, b.y, b.x + b.w, b.y + b.h)
  }

  /** One rectangle per box, in the order of the boxes. */
  function Rectangles(boxes: seq<Box>): (calls: seq<CvCall>)
    ensures |calls| == |boxes|
    ensures forall i :: 0 <= i < |boxes| ==> calls[i] == Rectangle(boxes[i].x, boxes[i].y, boxes[i].x + boxes[i].w, boxes[i].y + boxes[i].h)
  {
    seq(|boxes|, i requires 0 <= i < |boxes| => RectangleFor(boxes[i]))
  }

  /** The `capture.read()` answers, with their clock readings, that `read`
      sees when called once per tick: one entry per tick, in tick order. */
  function Grabs(ticks: seq<Tick>): (r: seq<(real, Option<Frame>)>)
    ensures |r| == |ticks|
    ensures forall j :: 0 <= j < |ticks| ==> r[j] == (ticks[j].now, ticks[j].grabbed)
  {
    if ticks == [] then [] else Grabs(ticks[..|ticks| - 1]) + [(ticks[|ticks| - 1].now, ticks[|ticks| - 1].grabbed)]
  }

  /** What `Camera.worker` reads from its record: the five fields are present
      and not `None`. */
  predicate WorkerReady(item: Dict<string>)
  {
    forall k :: k in App.REQUIRED_FIELDS ==> Get(item, k).Some?
  }

  /** The five fields the worker reads, one by one. */
  lemma WorkerReadyFields(item: Dict<string>)
    requires WorkerReady(item)
    ensures "ip" in item && item["ip"].Some? && "port" in item && item["port"].Some?
    ensures "channel" in item && item["channel"].Some?
    ensures "username" in item && item["username"].Some? && "password" in item && item["password"].Some?
  {
    assert "ip" in App.REQUIRED_FIELDS && "port" in App.REQUIRED_FIELDS && "channel" in App.REQUIRED_FIELDS;
    assert "username" in App.REQUIRED_FIELDS && "password" in App.REQUIRED_FIELDS;
  }

  /** Every record the launch loop of `main` lets through is one the worker
      can build its camera from. */
  lemma LaunchedRecordMeetsWorker(rec: App.Record)
    requires App.CheckRecord(rec) == None
    ensures WorkerReady(rec)
  {
    forall k | k in App.REQUIRED_FIELDS ensures Get(rec, k).Some? {
      assert k in rec && rec[k].Some?;
    }
  }

  class Camera {
    const ip: string
    const port: string
    var username: string
    var password: string
    const channel: string
    var capture: Capture
    /** `detect_humans`: grey conversion and the HOG people detector. */
    const detectHumans: Frame -> Detection
    var hasStopped: bool
    const throttle: Throttle<Detection>
    /** The effectful OpenCV calls made so far, oldest first. */
    ghost var calls: seq<CvCall>
    /** The answers of `capture.read()` seen so far, with the clock reading of
        each `read` call, oldest first. */
    ghost var grabs: seq<(real, Option<Frame>)>

    ghost predicate Valid()
      reads this, throttle
    {
      throttle.Valid() && throttle.intervalSecs == DETECTION_INTERVAL
    }

    /** The `__rtsp_url` property, built from the current fields. */
    function Url(): (url: string)
      reads this
    {
      RtspUrl(username, password, ip, port, channel)
    }

    /** Every capture opened so far used the URL of the current fields. */
    ghost predicate OpensUseCurrentUrl()
      reads this
    {
      forall c :: c in calls && c.Open? ==> c.url == Url()
    }

    /** The last two OpenCV calls are those of `stop`. */
    ghost predicate EndsWithStop()
      reads this
    {
      |calls| >= 2 && calls[|calls| - 2..] == [Release, DestroyWindow(ip)]
    }

    /** A new camera opens its capture at once, has not stopped, and owns a
        fresh detection gate with interval 0.1 that has never fired. */
    constructor (ip: string, port: string, username: string, password: string, channel: string,
                 detectHumans: Frame -> Detection)
      ensures Valid() && fresh(throttle)
      ensures this.ip == ip && this.port == port && this.channel == channel
      ensures this.username == username && this.password == password
      ensures this.detectHumans == detectHumans
      ensures capture == Capture(RtspUrl(username, password, ip, port, channel), false)
      ensures !hasStopped
      ensures throttle.lastResult == None && throttle.lastCallTime == 0.0 && throttle.invocations == []
      ensures calls == [Open(RtspUrl(username, password, ip, port, channel))] && grabs == []
      ensures OpensUseCurrentUrl()
    {
      this.ip := ip;
      this.port := port;
      this.username := username;
      this.password := password;
      this.channel := channel;
      this.detectHumans := detectHumans;
      var url := RtspUrl(username, password, ip, port, channel);
      capture := Capture(url, false);
      hasStopped := false;
      throttle := new Throttle<Detection>(DETECTION_INTERVAL);
      calls := [Open(url)];
      grabs := [];
    }

    /** `set_password`: replaces the password only and returns the camera. */
    method SetPassword(password: string) returns (self: Camera)
      requires Valid()
      modifies this
      ensures Valid() && self == this
      ensures this.password == password && username == old(username)
      ensures capture == old(capture) && hasStopped == old(hasStopped)
      ensures calls == old(calls) && grabs == old(grabs)
    {
      this.password := password;
      self := this;
    }

    /** `set_username` as written: its parameter is named `password` and it
        assigns the password field; the username is left unchanged. */
    method SetUsername(password: string) returns (self: Camera)
      requires Valid()
      modifies this
      ensures Valid() && self == this
      ensures this.password == password && username == old(username)
      ensures capture == old(capture) && hasStopped == old(hasStopped)
      ensures calls == old(calls) && grabs == old(grabs)
    {
      this.password := password;
      self := this;
    }

    /** `set_username` as evidently intended: replaces the username only. */
    method SetUsernameCorrected(username: string) returns (self: Camera)
      requires Valid()
      modifies this
      ensures Valid() && self == this
      ensures this.username == username && password == old(password)
      ensures capture == old(capture) && hasStopped == old(hasStopped)
      ensures calls == old(calls) && grabs == old(grabs)
    {
      this.username := username;
      self := this;
    }

    /** `stop`: marks the camera stopped, releases the capture and closes the
        camera's window. */
    method Stop()
      requires Valid()
      modifies this
      ensures Valid() && hasStopped
      ensures capture == old(capture).(released := true)
      ensures calls == old(calls) + [Release, DestroyWindow(ip)] && grabs == old(grabs)
      ensures EndsWithStop() && (old(OpensUseCurrentUrl()) ==> OpensUseCurrentUrl())
      ensures username == old(username) && password == old(password)
    {
      hasStopped := true;
      capture := capture.(released := true);
      calls := calls + [Release, DestroyWindow(ip)];
    }

    /** `read` at clock reading `now`, where `grabbed` is what
        `capture.read()` returned. A failed read releases the capture and
        reopens it with the current URL, and does nothing else. A successful
        read resizes the frame, runs detection through the gate, draws one
        rectangle per box of the latest detection and shows the frame; if the
        gate has no result yet, unpacking `None` raises `TypeError`. */
    method Read(now: real, grabbed: Option<Frame>) returns (err: Option<Error>)
      requires Valid()
      modifies this, throttle
      ensures Valid()
      ensures username == old(username) && password == old(password) && hasStopped == old(hasStopped)
      ensures grabs == old(grabs) + [(now, grabbed)]
      ensures old(OpensUseCurrentUrl()) ==> OpensUseCurrentUrl()
      ensures grabbed.None? ==>
        && err == None
        && capture == Capture(Url(), false)
        && calls == old(calls) + [Release, Open(Url())]
        && throttle.lastResult == old(throttle.lastResult)
        && throttle.lastCallTime == old(throttle.lastCallTime)
        && throttle.invocations == old(throttle.invocations)
      ensures grabbed.Some? ==> capture == old(capture)
      ensures grabbed.Some? && old(now - throttle.lastCallTime > throttle.intervalSecs) ==>
        && throttle.lastResult == Some(detectHumans(Resize(grabbed.value)))
        && throttle.lastCallTime == now
        && throttle.invocations == old(throttle.invocations) + [now]
      ensures grabbed.Some? && old(now - throttle.lastCallTime <= throttle.intervalSecs) ==>
        && throttle.lastResult == old(throttle.lastResult)
        && throttle.lastCallTime == old(throttle.lastCallTime)
        && throttle.invocations == old(throttle.invocations)
      ensures grabbed.Some? && throttle.lastResult == None ==>
        err == Some(TypeError("cannot unpack non-iterable NoneType object")) && calls == old(calls)
      ensures grabbed.Some? && throttle.lastResult.Some? ==>
        err == None && calls == old(calls) + Rectangles(throttle.lastResult.value.boxes) + [Show(ip)]
    {
      grabs := grabs + [(now, grabbed)];
      if grabbed.None? {
        capture := capture.(released := true);
        calls := calls + [Release];
        var url := Url();
        capture := Capture(url, false);
        calls := calls + [Open(url)];
        return None;
      }
      var frame := Resize(grabbed.value);
      var result := throttle.Call(now, detectHumans, frame);
      if result.None? {
        return Some(TypeError("cannot unpack non-iterable NoneType object"));
      }
      var boxes := result.value.boxes;
      ghost var drawn: seq<CvCall> := [];
      for i := 0 to |boxes|
        invariant drawn == Rectangles(boxes[..i])
      {
        assert Rectangles(boxes[..i + 1]) == Rectangles(boxes[..i]) + [RectangleFor(boxes[i])];
        drawn := drawn + [RectangleFor(boxes[i])];
      }
      assert boxes[..|boxes|] == boxes;
      calls := calls + drawn + [Show(ip)];
      err := None;
    }

    /** `Camera.worker`: builds the camera from a launched record and calls
        `read` until the quit key has been seen (then `stop` has run) or
        `read` raised. `ticks` supplies each iteration's oracle answers; the
        model ends when they run out. */
    static method Worker(item: Dict<string>, detectHumans: Frame -> Detection, ticks: seq<Tick>)
      returns (cam: Camera, iterations: nat, err: Option<Error>)
      requires WorkerReady(item)
      ensures fresh(cam) && cam.Valid()
      ensures Get(item, "ip") == Some(cam.ip) && Get(item, "port") == Some(cam.port)
      ensures Get(item, "channel") == Some(cam.channel)
      ensures Get(item, "username") == Some(cam.username) && Get(item, "password") == Some(cam.password)
      ensures iterations <= |ticks|
      ensures cam.grabs == Grabs(ticks[..iterations])
      ensures forall j :: 0 <= j < iterations - 1 ==> !IsQuit(ticks[j].key)
      ensures cam.hasStopped <==> err == None && iterations > 0 && IsQuit(ticks[iterations - 1].key)
      ensures cam.hasStopped ==> cam.capture.released
      ensures err == None && !cam.hasStopped ==> iterations == |ticks|
      ensures err != None ==> iterations > 0 && err.value.TypeError?
      ensures err != None ==> ticks[iterations - 1].grabbed.Some? && cam.throttle.lastResult == None
      ensures cam.detectHumans == detectHumans
      ensures cam.OpensUseCurrentUrl()
      ensures cam.hasStopped ==> cam.EndsWithStop()
    {
      WorkerReadyFields(item);
      cam := new Camera(item["ip"].value, item["port"].value, item["username"].value,
                        item["password"].value, item["channel"].value, detectHumans);
      iterations := 0;
      err := None;
      while iterations < |ticks| && !cam.hasStopped && err == None
        invariant iterations <= |ticks|
        invariant cam.grabs == Grabs(ticks[..iterations])
        invariant fresh(cam) && fresh(cam.throttle) && cam.Valid()
        invariant Get(item, "username") == Some(cam.username) && Get(item, "password") == Some(cam.password)
        invariant forall j :: 0 <= j < iterations - 1 ==> !IsQuit(ticks[j].key)
        invariant cam.hasStopped <==> err == None && iterations > 0 && IsQuit(ticks[iterations - 1].key)
        invariant cam.hasStopped ==> cam.capture.released
        invariant err != None ==> iterations > 0 && err.value.TypeError?
        invariant err != None ==> ticks[iterations - 1].grabbed.Some? && cam.throttle.lastResult == None
        invariant cam.detectHumans == detectHumans
        invariant cam.OpensUseCurrentUrl()
        invariant cam.hasStopped ==> cam.EndsWithStop()
        decreases |ticks| - iterations
      {
        var tick := ticks[iterations];
        err := cam.Read(tick.now, tick.grabbed);
        assert ticks[..iterations + 1] == ticks[..iterations] + [tick];
        iterations := iterations + 1;
        if err == None && IsQuit(tick.key) {
          cam.Stop();
        }
      }
    }
  }

  /** `set_username` as written does not set the username: on a camera
      created with user `admin` and password `secret`, `set_username("operator")`
      leaves the user `admin`, overwrites the password, and the next reconnect
      uses user `admin` with password `operator`. The corrected setter
      yields user `operator` with password `secret`, a different URL. */
  method SetUsernameCounterexample() returns (asWritten: string, corrected: string)
    ensures asWritten == RtspUrl("admin", "operator", "10.0.0.5", "554", "101")
    ensures corrected == RtspUrl("operator", "secret", "10.0.0.5", "554", "101")
    ensures asWritten != corrected
  {
    var noDetection := (f: Frame) => Detection([], []);
    var cam := new Camera("10.0.0.5", "554", "admin", "secret", "101", noDetection);
    var _ := cam.SetUsername("operator");
    asWritten := cam.Url();
    var fixed := new Camera("10.0.0.5", "554", "admin", "secret", "101", noDetection);
    var _ := fixed.SetUsernameCorrected("operator");
    corrected := fixed.Url();
  }
}
