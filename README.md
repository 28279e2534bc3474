# cctv-human-recognition: a Dafny model of the camera pipeline's core

The system reads live RTSP video from several network cameras. It runs the
HOG people detector on the frames, at most once per 0.1 seconds per camera,
draws a green rectangle around every detected person and shows the frame.
One worker process runs per camera. This project models the sequential logic
of that pipeline and proves properties of it:

- `RateGate` (`classes/throttle.py`): the `Throttle` time gate. It is a class
  holding `last_call_time` and `last_result`. The clock reading is passed in
  as a `real` argument `now`. The wrapped function is a Dafny function value
  and one argument. A ghost log records the times of real invocations.
- `Dedup` (`utils/array_unique_by_key.py`): `array_unique_by_key`. A reference
  function keeps the items whose key value did not occur earlier. The
  method with the `seen` set and the growing output list is proved equal to
  it. The lemmas cover key coverage, distinct keys, first occurrence,
  subsequence order, the length bound and idempotence.
- `App` (`main.py`): the layered defaults and record building of `get_args`,
  the deduplication by `ip`, and the validate-and-launch loop of `main`.
  argparse's output is the `Args` value. Launching a worker appends its
  record to a list.
- `Cameras` (`classes/camera.py`): the `Camera` class. It covers the RTSP URL,
  the two setters, `stop`, the control flow of `read` and the `worker` loop.
  OpenCV is an oracle. What `capture.read()` returns, the clock and the code
  of `cv2.waitKey` are inputs (a `Tick` per loop iteration). The people
  detector is a function value. Every effectful OpenCV call (open, release,
  rectangle, imshow, destroyWindow) is appended to a ghost log `calls`.
- `Dicts` and `Wrappers`: a Python dict whose values may be `None`, as
  `map<string, Option<V>>`, and the exceptions the code raises.

Python's `item.get(key)` gives `None` both for a missing key and for a key
holding `None`. `Dicts.Get` keeps that collapse, so deduplication treats
all such items as sharing one key value.

The constants module of the repository is not part of this model.
`DEFAULT_CAMERA_PORT` and `DEFAULT_CHANNEL` are the string constants `"554"`
and `"101"` here. No property depends on their values.

Behaviour of the code worth noting:
- `main.py:79-84` checks each record only when the launch loop reaches it.
  The records before the first bad one have already been started when
  `ValueError` is raised.
- `camera.py:69-70` draws every box the detector returned, in green, with
  no filtering.
- When the gate has no result yet, `boxes, weights = None` at
  `camera.py:68` raises `TypeError`. With a real wall clock this cannot
  happen, because `time.time()` is far above 0.1. With a model clock it
  can, and `Camera.Read` returns that error.
- `main.py:68-70` test `"password" in item is not None`. This is Python's
  chained comparison `("password" in item) and (item is not None)`. Since an
  item is never `None`, it equals `"password" in item`, as modelled.

## Model

| member | source | states |
|---|---|---|
| `Dicts.Get` | cctv-human-recognition/utils/array_unique_by_key.py:6 | `item.get(key)` is a value exactly when the key is present and not `None`; otherwise it is `None` |
| `Dedup.UniqueByKey` | cctv-human-recognition/utils/array_unique_by_key.py:5-11 | the deduplicated list is no longer than the input, and each of its items is an input item |
| `Dedup.ArrayUniqueByKey` | cctv-human-recognition/utils/array_unique_by_key.py:1-11 | the loop with the `seen` set returns exactly the reference deduplication `UniqueByKey` |
| `Dedup.SeenIffNotFirst` | cctv-human-recognition/utils/array_unique_by_key.py:6-7 | the loop's `value not in seen` test holds exactly when no earlier item carries the same key value |
| `Dedup.UniqueKeepsEveryKey` | cctv-human-recognition/utils/array_unique_by_key.py:5-9 | the set of key values of the output equals that of the input: every input key value survives and none is invented |
| `Dedup.UniqueHasDistinctKeys` | cctv-human-recognition/utils/array_unique_by_key.py:7-9 | no two output items carry the same key value |
| `Dedup.UniqueIsFirstOccurrences` | cctv-human-recognition/utils/array_unique_by_key.py:5-8 | the output is the input at strictly increasing positions (a subsequence in the same order), and a position is kept exactly when it is the first occurrence of its key value |
| `Dedup.FirstOccurrenceWins` | cctv-human-recognition/utils/array_unique_by_key.py:7-8 | for each key value, the output item carrying it is the first input item carrying it |
| `Dedup.MissingKeysCollapse` | cctv-human-recognition/utils/array_unique_by_key.py:6-8 | items lacking the key (or holding `None`) collapse to the first such item: it is kept and every output item lacking the key is that item |
| `Dedup.UniqueLengthIff` | cctv-human-recognition/utils/array_unique_by_key.py:5-11 | the output has the input's length exactly when all input key values are distinct |
| `Dedup.UniqueOfDistinct` | cctv-human-recognition/utils/array_unique_by_key.py:5-9 | a list with distinct key values is returned unchanged |
| `Dedup.UniqueIdempotent` | cctv-human-recognition/utils/array_unique_by_key.py:1-11 | deduplicating the output again returns it unchanged |
| `RateGate.Throttle.constructor` | cctv-human-recognition/classes/throttle.py:4-7 | a new gate keeps its interval, has `last_call_time` 0, `last_result` `None` and no invocations |
| `RateGate.Throttle.Call` | cctv-human-recognition/classes/throttle.py:9-14 | when `now - last_call_time > interval` the function is invoked once (one log entry), its result is stored and `last_call_time` becomes `now`; otherwise (also at exactly `interval`) nothing changes; the return value is the stored result; the spacing invariant is kept |
| `RateGate.SpacedIncreasing` | cctv-human-recognition/classes/throttle.py:11-13 | with a non-negative interval any two real invocations are more than the interval apart, so invocation times strictly increase and are positive |
| `RateGate.ThrottleTrace` | cctv-human-recognition/classes/throttle.py:9-14 | with interval 0.5, calls at 0.3, 1.0, 1.2, 1.5 and 1.6 give `None`, a fresh result, the cached one twice (1.5 is exactly 0.5 later) and a fresh result |
| `App.ResolveItem` | cctv-human-recognition/main.py:66-71 | an item without `ip` raises `KeyError('ip')`; otherwise the record has all five fields and its port, channel and ip are never `None` |
| `App.ResolveAll` | cctv-human-recognition/main.py:66-72 | the comprehension succeeds exactly when every item has an `ip`, else raises `KeyError('ip')`; on success it yields one record per item, in order |
| `App.ResolvedFieldsLayered` | cctv-human-recognition/main.py:61-71 | each record's username, password, port and channel is the item's own value if present, else the CLI global if given, else the default (`None` for user and password); `ip` is the item's; the port is always a string (`str` is applied to it at main.py:69); the channel is never `None`, and is a string only because the default channel is taken to be `"101"` |
| `App.GetArgs` | cctv-human-recognition/main.py:61-74 | `get_args` returns `UniqueByKey` of the resolved records on `ip`, so the ips are distinct and every resolved ip survives; an item without `ip` gives `KeyError('ip')` |
| `App.CheckFields` | cctv-human-recognition/main.py:80-81 | the record passes exactly when port, channel, ip, username and password are all present and not `None`; a failure is `ValueError` or the `KeyError` of a missing field |
| `App.ResolvedCheck` | cctv-human-recognition/main.py:66-81 | a resolved record is rejected exactly when no username or no password was given on the item or globally, and the rejection is always `ValueError` |
| `App.ResolvedRecordIsChecked` | cctv-human-recognition/main.py:74-81 | a deduplicated record that the launch loop rejects is rejected with `ValueError` |
| `App.LaunchAll` | cctv-human-recognition/main.py:78-84 | the launched list is a prefix of the records, all of them valid; no error exactly when every record is launched; on error the next record is the first invalid one and the error is its check's |
| `App.Run` | cctv-human-recognition/main.py:76-84 | a `KeyError` from `get_args` launches nothing; otherwise the deduplicated records are launched in order, all valid; there is no error exactly when all are launched, and on error the next record fails the check and the error is `ValueError` |
| `Cameras.RtspUrl` | cctv-human-recognition/classes/camera.py:19-21 | the URL starts with `rtsp://`, ends with `/Streaming/Channels/` and the channel, and its length is that of the five fields plus the separators |
| `Cameras.UrlReflectsPassword` | cctv-human-recognition/classes/camera.py:19-25 | two URLs differing only in the password are equal exactly when the passwords are, so a changed password changes the reconnect URL |
| `Cameras.UrlReflectsUsername` | cctv-human-recognition/classes/camera.py:19-21 | two URLs differing only in the username are equal exactly when the usernames are |
| `Cameras.Resize` | cctv-human-recognition/classes/camera.py:67 | the resized frame is 640 by 480 |
| `Cameras.Rectangles` | cctv-human-recognition/classes/camera.py:69-70 | exactly one rectangle per box, in box order, from `(x, y)` to `(x + w, y + h)` |
| `Cameras.Grabs` | cctv-human-recognition/classes/camera.py:41-42 | one `capture.read()` answer per tick, with its clock reading, in tick order |
| `Cameras.LaunchedRecordMeetsWorker` | cctv-human-recognition/main.py:80-82 | every record the launch loop of `main` accepts has the five fields `Camera.worker` reads, present and not `None` |
| `Cameras.WorkerReadyFields` | cctv-human-recognition/classes/camera.py:33-39 | a record ready for the worker has `ip`, `port`, `channel`, `username` and `password` present and not `None` |
| `Cameras.Camera.constructor` | cctv-human-recognition/classes/camera.py:7-17 | a new camera stores its fields, opens the capture with its RTSP URL, has not stopped and owns a fresh gate with interval 0.1 that has never fired; no frame has been read |
| `Cameras.Camera.SetPassword` | cctv-human-recognition/classes/camera.py:23-25 | replaces the password only, keeps the class invariant and returns the same camera |
| `Cameras.Camera.SetUsername` | cctv-human-recognition/classes/camera.py:27-29 | as written: writes the password field, leaves the username unchanged, keeps the class invariant, returns the same camera |
| `Cameras.Camera.SetUsernameCorrected` | cctv-human-recognition/classes/camera.py:27-29 | as intended: replaces the username only, keeps the class invariant and returns the same camera |
| `Cameras.SetUsernameCounterexample` | cctv-human-recognition/classes/camera.py:27-29 | on user `admin`/password `secret`, `set_username("operator")` yields the URL for `admin`/`operator`; the corrected setter yields `operator`/`secret`; the two differ |
| `Cameras.Camera.Stop` | cctv-human-recognition/classes/camera.py:47-50 | sets `has_stopped`, releases the capture and destroys the camera's window (these are its last two OpenCV calls), keeping the class invariant and changing nothing else |
| `Cameras.Camera.Read` | cctv-human-recognition/classes/camera.py:58-72 | every call records its clock reading and `capture.read()` answer; a failed read releases the capture and reopens it with the current URL, without detection or drawing; a successful read runs detection on the 640x480 frame through the gate, then draws one rectangle per box of the gate's result and shows the frame, or raises `TypeError` if the gate has no result |
| `Cameras.Camera.Worker` | cctv-human-recognition/classes/camera.py:31-45 | builds the camera from the record and calls `read` once per iteration with that tick's clock and frame answer, in order, while it has not stopped; the camera keeps the detector it was given and every capture it (re)opened used its current RTSP URL built from the record's credentials; it stops exactly after the iteration whose key is `q`, and a stop leaves `Release` then `DestroyWindow(ip)` as its last two OpenCV calls; it ends early only if `read` raised (the last tick then held a frame and the gate had no result), and otherwise reads every tick |

## Left out

- `classes/tensor.py` is not part of this model. It loads a TensorFlow graph and labels from files, with no logic of its own to check.
- argparse and `parse_dict`: each `--data` item is given as a string map, the `--global-*` options as optional strings.
- `App.ResolveItem`: the attribute reads `item.user`, `item.password`, `item.port` and `item.channel` at `main.py:67-70` are modelled as key lookups, like `item['ip']` at `main.py:71` and the `"user" in item` tests. This assumes `parse_dict` returns a mapping that also allows attribute access. With a plain `dict`, `item.user` would raise `AttributeError`, which is not modelled.
- `multiprocessing`: starting a worker is appending its record; `join` and process isolation are not modelled.
- `time.sleep` (1 s after a failed read, 1 ms per loop iteration): pacing only.
- OpenCV pixel work: grey conversion, the HOG detector's internals and the frame shown by `imshow` are not modelled. The detector is a function of the resized frame; drawing and display are entries in the call log.
- The wall clock: `time.time()` floats are replaced by `real` readings given by the caller.
- `Throttle.call`'s `*args, **kwargs`: one argument is passed to the wrapped function.
- `Cameras.Resize`: does not resample pixels; only the 640x480 size is stated.
- `Cameras.Camera.Worker`: the loop is bounded by the finite list of ticks, so a camera that never sees `q` ends when the ticks run out. The real loop runs forever. It requires the five fields to be non-`None`; `Cameras.LaunchedRecordMeetsWorker` proves that every record `main` launches meets this.

## Findings

| source | as written | input that shows it | evidently intended | confidence | as-written member | corrected member |
|---|---|---|---|---|---|---|
| cctv-human-recognition/classes/camera.py:27-29 | `set_username(password)` assigns `self.__password` | camera with user `admin` and password `secret`, then `set_username("operator")`: user stays `admin`, password becomes `operator` | assign the username and leave the password | high; not executed | `Cameras.Camera.SetUsername`, shown by `Cameras.SetUsernameCounterexample` | `Cameras.Camera.SetUsernameCorrected` |
