# Camera stream registry

A Dafny model of the per-camera stream supervisor in `app.py`. The supervisor
consists of:

- two module-level dictionaries: `running_streams` maps a camera id to a
  "should be running" flag, and `threads` maps a camera id to the worker
  thread started for it;
- the three control-plane handlers that update and read those dictionaries:
  `POST /connect`, `POST /disconnect/{camera_id}` and `GET /status`;
- the JSON envelope every handler answers with (`get_response_format`);
- the two effects the worker `stream_to_grpc` has on the flags. It lowers its
  own camera's flag when the capture source does not open. Otherwise it loops
  while that flag is true.

Layout:

- `envelope.dfy`, module `Envelope`: the `ResponseAPI` envelope and its
  constructor. Dafny default parameters stand in for Python's keyword
  defaults.
- `control.dfy`, module `Control`: what other threads can do to the flags,
  stated on plain maps, and what a worker's guard sees when they interleave
  with its loop. Those threads are the `/connect` and `/disconnect` handlers,
  and another worker of the same camera whose source fails to open
  (app.py:44). A `Round` is one pass of the loop. It records whether the read
  delivered a frame and which requests complete before the next guard check.
  `RunFrom` is the number of passes the loop makes under such a schedule.
- `registry.dfy`, module `Registry`: the registry state as a `Snapshot`
  value. It holds both dictionaries, the insertion order of
  `running_streams` (a Python dict iterates in insertion order, so `/status`
  lists ids in that order) and a counter of spawned workers. The module also
  holds the well-formedness invariant `Valid`, the handlers as state
  transitions, their fold over a worker's schedule (`SnapshotAfter`,
  `SnapshotAt`), and the lemmas about them.
- `stream.dfy`, module `Supervisor`: class `StreamRegistry`. It holds the
  dictionaries as fields that its methods update in place. Each handler
  method is proved to move the fields exactly as the matching `Registry`
  transition says. The worker loop is a `while` loop over the flag field,
  proved to make exactly `RunFrom` passes.

Starting a thread becomes an abstract step that records a fresh `Worker`
value: its id is the spawn counter, and it carries the camera id and
`rstp_url`. Handlers run atomically, one at a time. Concurrency with a running
worker is modelled by the requests listed in each `Round`.

The model makes one consequence of the source visible. Suppose a camera is
stopped and started again before its old worker next checks its guard. The old
worker then finds its flag true and keeps looping, beside the worker the new
start spawned. `Control.RestartKeepsWorker` states this. One flag per camera
id cannot tell the two workers apart. The reverse also happens. Suppose an
earlier worker of the camera is still opening a bad source when the camera is
stopped and started again. When that open fails, it lowers the shared flag,
and the new worker stops at its next check even though nobody disconnected
it. `Control.StopEndsWorker` covers this case, because a failed open lowers
the flag just as a disconnect does.

Three facts about the program shape the model:

- The worker never lowers its own flag when its loop ends. Only the
  open-failure path writes it (app.py:44).
- The request field is spelled `rstp_url`.
- `/status` lists ids in the dict's insertion order.

## Model

| member | source | states |
|---|---|---|
| Envelope.GetResponseFormat | app.py:67-73 | the envelope constructor; specified by ResponseDefaults and ResponseCopiesThrough |
| Control.ActiveIn | app.py:110 | the list comprehension of `/status`: no longer than the key list, and every id in it is a listed key whose flag is true. ActiveInExact gives the converse and the absence of duplicates |
| Control.RunFrom | app.py:49 | the number of passes the loop makes, between the starting check and the end of the schedule; RunFromGuard and RunIsFirstFailure characterise it as the first failed guard check |
| Registry.OnConnect | app.py:76-94 | the `/connect` transition: always 200 "success" without data, with a message exactly when the camera is already flagged running. Further specified by ConnectWhenRunning, ConnectWhenStopped and ConnectKeepsValid |
| Registry.OnDisconnect | app.py:97-106 | the `/disconnect` transition: always 200 "success" without data, with a message exactly when the camera is unregistered. Further specified by DisconnectUnknown, DisconnectKnown, DisconnectIdempotentState and DisconnectKeepsValid |
| Registry.StatusReply | app.py:109-113 | the `/status` reply: 200 "success", no message, and a data list no longer than the registered ids. StatusIsActiveSet gives its exact contents |
| Registry.OnOpenFailure | app.py:42-45 | a worker's open failure keeps the registered ids and lowers its camera's flag. Further specified by OpenFailureTouchesOnlyItsCamera and OpenFailureKeepsValid |
| Registry.AfterRequest | app.py:42-106 | the registry after one handler or one failed open; specified on the flags by HandlersFollowRequests, and kept well formed by AfterRequestKeepsValid |
| Registry.SnapshotAfter | app.py:42-106 | the registry after requests completed in order; specified by SnapshotAfterFlags, SnapshotAfterKeepsValid and OnlyConnectsSpawn |
| Registry.SnapshotAt | app.py:49-64 | the registry a worker sees at its `k`-th guard check; specified by SnapshotAtFlags and WorkerWritesNoHandles |
| Envelope.ResponseDefaults | app.py:67-73 | with only the HTTP code supplied, the envelope has status "success", no message and no data |
| Envelope.ResponseCopiesThrough | app.py:67-73 | every supplied argument is copied unchanged into its field; two envelopes are equal exactly when built from equal arguments |
| Control.ApplyRequest | app.py:76-106 | after a request, its camera is active exactly when the request was a connect. A connect adds the camera to the keys; a disconnect or another worker's failed open (app.py:44) never changes the keys. Every other camera's flag is unchanged |
| Control.ActiveInExact | app.py:110 | the filtered list holds exactly the listed keys whose flag is true, each once |
| Control.KeysPersist | app.py:104 | a registered camera, or one that some request connects, stays registered after any sequence of requests: no request deletes an entry |
| Control.OthersUntouched | app.py:76-106 | requests about other cameras leave a camera's entry (presence and flag) exactly as it was |
| Control.LastDisconnectWins | app.py:104 | a disconnect, or a failed open of another worker of the camera, that no later connect of it follows leaves the camera inactive |
| Control.LastConnectWins | app.py:84 | a connect of a camera that nothing lowering its flag follows leaves the camera active |
| Control.StopEndsWorker | app.py:49 | after a round that lowered the camera's flag (disconnect or another worker's failed open) and did not connect it again, the worker's next guard check fails |
| Control.RunFromGuard | app.py:49 | every guard check before the point where the loop stops finds the flag true; the check it stops at finds it false unless the schedule ran out |
| Control.RunIsFirstFailure | app.py:49 | a pass count equals the loop's count exactly when the guard held at every earlier check and failed at that one (or the schedule ran out) |
| Control.NextCheck | app.py:49-64 | after a pass whose guard held, the next check sees the round's requests applied, the camera is still registered, and the stopping point is unchanged |
| Control.RunStopsAfterStop | app.py:49 | a worker makes no pass after a round that lowered its flag without connecting its camera again |
| Control.RestartKeepsWorker | app.py:49 | a worker whose camera is disconnected and connected again within one round, with nothing lowering its flag after that connect, passes its next guard check and keeps running |
| Control.NoStopKeepsFlag | app.py:104 | without a disconnect of the camera or a failed open of another of its workers, its true flag stays true |
| Control.OnlyStopEndsRun | app.py:49 | a worker whose flag no round lowers, by a disconnect or another worker's failed open, runs through the whole schedule |
| Registry.MissingMessage | app.py:79 | the in-band message is non-empty and longer than the camera id |
| Registry.ConnectKeepsValid | app.py:84-94 | `/connect` keeps the registry well formed: same keys in both dictionaries, the order lists each key once, handles distinct |
| Registry.DisconnectKeepsValid | app.py:97-106 | `/disconnect` keeps the registry well formed |
| Registry.OpenFailureKeepsValid | app.py:42-45 | a worker's open failure keeps the registry well formed |
| Registry.ConnectWhenRunning | app.py:78-82 | connecting a camera flagged running returns 200 "success" with a non-empty message and no data, and changes neither dictionary: no second worker is recorded |
| Registry.ConnectWhenStopped | app.py:84-94 | connecting an absent or stopped camera raises its flag. It stores a new handle for that camera with the given URL, distinct from every handle recorded so far, and returns a bare 200 success. Both dictionaries gain exactly that key, the order gains it exactly when it is new, and every other camera's flag and handle are unchanged |
| Registry.DisconnectUnknown | app.py:98-102 | disconnecting an unregistered camera returns 200 "success" with a non-empty message and changes nothing |
| Registry.DisconnectKnown | app.py:104-106 | disconnecting a registered camera lowers its flag, keeps its entry and handle, leaves every other entry unchanged, and returns a bare 200 success |
| Registry.DisconnectIdempotentState | app.py:104-106 | disconnecting twice leaves the registry as disconnecting once does |
| Registry.HandlersFollowRequests | app.py:42-106 | on the flags, the connect and disconnect handlers and a failed open do exactly what `Control.ApplyRequest` says |
| Registry.AfterRequestKeepsValid | app.py:42-106 | every handler and every failed open keeps the registry well formed |
| Registry.SnapshotAfterFlags | app.py:42-106 | on the flags, completing requests in order gives `Control.FlagsAfter` |
| Registry.SnapshotAfterKeepsValid | app.py:42-106 | completing requests in order keeps the registry well formed |
| Registry.OnlyConnectsSpawn | app.py:84-94 | only a connect writes `threads`, the order or the spawn counter; requests without a connect leave them unchanged |
| Registry.SnapshotAtFlags | app.py:49-64 | on the flags, the registry a worker sees at a check is the one `Control.FlagsAt` gives |
| Registry.WorkerWritesNoHandles | app.py:33-65 | the worker never writes `threads` or the order: when no round carries a connect, handles, order and spawn counter are unchanged at every check |
| Registry.StatusIsActiveSet | app.py:110-111 | the status data lists exactly the cameras whose flag is true, each once |
| Registry.StartStartStopStatus | app.py:76-113 | starting a and b on an empty registry and then stopping a gives the status list [b] |
| Registry.OpenFailureTouchesOnlyItsCamera | app.py:42-45 | an open failure lowers only its own camera's flag; keys, handles, order and every other flag are unchanged |
| Supervisor.StreamRegistry.constructor | app.py:20-21 | both dictionaries start empty, and the registry is well formed |
| Supervisor.StreamRegistry.StartCameraConnection | app.py:76-94 | keeps the registry well formed; the fields and the reply after the in-place update are those of `Registry.OnConnect` on the old fields |
| Supervisor.StreamRegistry.StopCameraConnection | app.py:97-106 | keeps the registry well formed; only the flags change, and the fields and reply are those of `Registry.OnDisconnect` on the old fields |
| Supervisor.StreamRegistry.FailOpen | app.py:42-45 | only the flags change; the registry is kept well formed and becomes `Registry.OnOpenFailure` of the old one |
| Supervisor.StreamRegistry.Status | app.py:109-113 | 200 "success", no message, and data listing exactly the active cameras, each once; the registry is only read |
| Supervisor.StreamRegistry.ServeRequests | app.py:42-106 | serving requests one after another keeps the registry well formed, and leaves exactly the registry `Registry.SnapshotAfter` gives (so the flags `Control.FlagsAfter` gives) |
| Supervisor.StreamRegistry.StreamToGrpc | app.py:33-65 | on open failure, the state of `Registry.OnOpenFailure` and no pass. Otherwise exactly `RunFrom` passes, with the guard held at each of them. The whole registry left behind is the one the schedule produced (`Registry.SnapshotAt`), so the worker writes no handle and no order. The frames handed on are those the passes read. No pass happens after a round that lowered the flag for good |
| Supervisor.StreamRegistry.PollWhileRunning | app.py:49-64 | the loop makes exactly `Control.RunFrom` passes, keeps the registry well formed, and leaves exactly the registry `Registry.SnapshotAt` gives for those passes |
| Supervisor.StreamRegistry.Pass | app.py:50-64 | one pass keeps the loop invariant `Polling`: the registry is well formed and equals `Registry.SnapshotAt` for the passes so far, the flags are as scheduled, the stopping point is the same, and frames are counted |
| Supervisor.StatusAfterStartStartStop | app.py:76-113 | on a fresh registry object, start a, start b, stop a, then status returns [b] |

## Left out

- Threads: `threading.Thread` with `daemon=True` becomes a fresh `Worker`
  value. The unsynchronised races between handlers and workers are reduced to
  atomic handlers and to requests that complete between two guard checks of a
  worker. Those requests are the handlers and other workers' failed opens. A
  worker that is never run, or that interleaves at a finer grain, is not
  modelled.
- The worker loop is unbounded in the source. The model runs it over a finite
  schedule of rounds, so a worker that is still running when the schedule
  ends is cut off there.
- OpenCV (`cv2.VideoCapture`, `set`, `isOpened`, `read`, `frame.shape`,
  `tobytes`): the open outcome is the `isOpened` parameter, and each read's
  outcome is `Round.frame`.
- gRPC: the channel, the stub, `SendFrame` and the swallowed send exception.
  A pass that read a frame counts it as handed on.
- The frame message at app.py:56 calls `.Frame` on a `bytes` value, outside the
  `try`, so as written it would raise on the first frame. `cap.release()` at
  app.py:64 runs inside the loop, after the first frame. Both belong to the
  capture/send body and are not modelled. The loop is modelled as guarded
  only by the flag.
- FastAPI routing, pydantic validation, dotenv loading and the `GRPC_ADDRESS`
  setting. The `/status` handler reuses the Python name
  `stop_camera_connection`. The routes are registered by the decorators, so
  the clash does not change behaviour and the model ignores it.
- Response `data`: typed `Any` in the source. The model types it as a list of
  camera ids, the only payload these handlers produce.
- Registry.MissingMessage: the contract promises only a non-empty message. The
  already-running reply reuses the "does not exist" wording (app.py:79). The
  literal text is kept but not relied on.
- Log output (`print`).
- models.py is not part of this model. Its Pony ORM entities and argon2
  hashing wrap libraries whose code is not available.
