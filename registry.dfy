/**
 * The camera stream registry of app.py: the module-level dictionaries
 * `running_streams` (camera id -> "should be running") and `threads`
 * (camera id -> worker handle), the `/connect`, `/disconnect` and `/status`
 * handlers that update and read them, and the flag effects of the worker
 * `stream_to_grpc`.
 *
 * Handlers are atomic and run one at a time. Starting a worker thread is an
 * abstract step that hands out a fresh `Worker` value. The transitions are
 * stated as functions on `Snapshot` values here; the class in stream.dfy
 * holds the dictionaries as fields and is proved to follow them.
 */
module Registry {
  import opened Envelope
  import opened Control

  /** A worker handle: the thread `threading.Thread(target=stream_to_grpc,
      args=(camera_id, rstp_url))`, identified by the order it was spawned in. */
  datatype Worker = Worker(id: nat, cameraId: string, rstpUrl: string)

  /** The registry's state: `running_streams`, `threads`, the keys of
      `running_streams` in insertion order (the order a Python dict is
      iterated in), and how many workers were spawned so far. */
  datatype Snapshot = Snapshot(
    running: map<string, bool>,
    threads: map<string, Worker>,
    order: seq<string>,
    spawned: nat)

  /** `threads = {}` and `running_streams = {}` at import time. */
  const Empty: Snapshot := Snapshot(map[], map[], [], 0)

  /** `order` lists each key of the dictionary once, in some order. */
  ghost predicate Lists(order: seq<string>, keys: set<string>)
  {
    NoDuplicates(order) && forall c :: c in order <==> c in keys
  }

  /** Every handle belongs to its key and was spawned already; no two
      cameras share a handle. */
  ghost predicate HandlesDistinct(threads: map<string, Worker>, spawned: nat)
  {
    && (forall c :: c in threads ==> threads[c].cameraId == c && threads[c].id < spawned)
    && (forall c, d :: c in threads && d in threads && c != d ==> threads[c].id != threads[d].id)
  }

  /** What every reachable registry satisfies: both dictionaries have the same
      keys, the order lists each key once, and the handles are distinct. */
  ghost predicate Valid(s: Snapshot)
  {
    && s.threads.Keys == s.running.Keys
    && Lists(s.order, s.running.Keys)
    && HandlesDistinct(s.threads, s.spawned)
  }

  /** Registering a key appends it to the order unless it is known. */
  lemma ListsInsert(order: seq<string>, keys: set<string>, c: string)
    requires Lists(order, keys)
    ensures Lists(if c in keys then order else order + [c], keys + {c})
  {
  }

  /** A freshly spawned handle keeps the handles distinct. */
  lemma SpawnKeepsDistinct(threads: map<string, Worker>, spawned: nat, c: string, url: string)
    requires HandlesDistinct(threads, spawned)
    ensures HandlesDistinct(threads[c := Worker(spawned, c, url)], spawned + 1)
  {
  }

  /** The in-band message of both "nothing to do" replies. The source uses the
      same "does not exist" wording for a camera that is already running. */
  function MissingMessage(cameraId: string): (m: string)
    ensures |m| > |cameraId|
  {
    "connection with camera id of " + cameraId + " does not exist"
  }

  /** `POST /connect`: the registry afterwards and the reply. */
  function OnConnect(s: Snapshot, cameraId: string, rstpUrl: string): (r: (Snapshot, Response))
    ensures r.1.httpCode == 200 && r.1.status == "success" && r.1.data == None
    ensures r.1.message.Some? <==> Flag(s.running, cameraId)
  {
    if Flag(s.running, cameraId) then
      (s, GetResponseFormat(200, message := Some(MissingMessage(cameraId))))
    else
      var order := if cameraId in s.running then s.order else s.order + [cameraId];
      (Snapshot(s.running[cameraId := true],
                s.threads[cameraId := Worker(s.spawned, cameraId, rstpUrl)],
                order,
                s.spawned + 1),
       GetResponseFormat(200))
  }

  /** `POST /disconnect/{camera_id}`: the registry afterwards and the reply. */
  function OnDisconnect(s: Snapshot, cameraId: string): (r: (Snapshot, Response))
    ensures r.1.httpCode == 200 && r.1.status == "success" && r.1.data == None
    ensures r.1.message.Some? <==> cameraId !in s.running
  {
    if cameraId !in s.running then
      (s, GetResponseFormat(200, message := Some(MissingMessage(cameraId))))
    else
      (s.(running := s.running[cameraId := false]), GetResponseFormat(200))
  }

  /** `GET /status`: the ids whose flag is true, in registration order. */
  function StatusReply(s: Snapshot): (r: Response)
    ensures r.httpCode == 200 && r.status == "success" && r.message == None
    ensures r.data.Some? && |r.data.value| <= |s.order|
  {
    GetResponseFormat(200, data := Some(ActiveIn(s.order, s.running)))
  }

  /** A worker whose capture source does not open lowers its camera's flag. */
  function OnOpenFailure(s: Snapshot, cameraId: string): (r: Snapshot)
    requires cameraId in s.running
    ensures r.running.Keys == s.running.Keys && !Flag(r.running, cameraId)
  {
    s.(running := s.running[cameraId := false])
  }

  /** Every handler keeps the registry well formed. */
  lemma ConnectKeepsValid(s: Snapshot, cameraId: string, rstpUrl: string)
    requires Valid(s)
    ensures Valid(OnConnect(s, cameraId, rstpUrl).0)
  {
    ListsInsert(s.order, s.running.Keys, cameraId);
    SpawnKeepsDistinct(s.threads, s.spawned, cameraId, rstpUrl);
  }

  lemma DisconnectKeepsValid(s: Snapshot, cameraId: string)
    requires Valid(s)
    ensures Valid(OnDisconnect(s, cameraId).0)
  {
  }

  lemma OpenFailureKeepsValid(s: Snapshot, cameraId: string)
    requires Valid(s) && cameraId in s.running
    ensures Valid(OnOpenFailure(s, cameraId))
  {
  }

  /** Connecting a camera whose flag is already true is reported in-band with
      a non-empty message and changes nothing: no second worker is recorded. */
  lemma ConnectWhenRunning(s: Snapshot, cameraId: string, rstpUrl: string)
    requires Flag(s.running, cameraId)
    ensures OnConnect(s, cameraId, rstpUrl).0 == s
    ensures var resp := OnConnect(s, cameraId, rstpUrl).1;
      && resp.httpCode == 200 && resp.status == "success" && resp.data == None
      && resp.message.Some? && |resp.message.value| > 0
  {
  }

  /** Connecting a camera that is absent or stopped raises its flag, records a
      handle no other camera holds (replacing the camera's old one) and answers
      a bare success; every other camera's entries are untouched. */
  lemma ConnectWhenStopped(s: Snapshot, cameraId: string, rstpUrl: string)
    requires Valid(s) && !Flag(s.running, cameraId)
    ensures var t := OnConnect(s, cameraId, rstpUrl).0;
      && Flag(t.running, cameraId)
      && cameraId in t.threads && t.threads[cameraId].cameraId == cameraId
      && t.threads[cameraId].rstpUrl == rstpUrl
      && (forall d :: d in s.threads ==> s.threads[d].id != t.threads[cameraId].id)
      && t.spawned == s.spawned + 1
      && t.running.Keys == s.running.Keys + {cameraId}
      && t.threads.Keys == s.threads.Keys + {cameraId}
      && t.order == (if cameraId in s.running then s.order else s.order + [cameraId])
      && (forall d :: d != cameraId && d in s.running ==> t.running[d] == s.running[d])
      && (forall d :: d != cameraId && d in s.threads ==> t.threads[d] == s.threads[d])
    ensures OnConnect(s, cameraId, rstpUrl).1 == Response("success", 200, None, None)
  {
  }

  /** Disconnecting an unknown camera is reported in-band and changes nothing. */
  lemma DisconnectUnknown(s: Snapshot, cameraId: string)
    requires cameraId !in s.running
    ensures OnDisconnect(s, cameraId).0 == s
    ensures var resp := OnDisconnect(s, cameraId).1;
      && resp.httpCode == 200 && resp.status == "success" && resp.data == None
      && resp.message.Some? && |resp.message.value| > 0
  {
  }

  /** Disconnecting a known camera lowers its flag and keeps its entry and its
      handle; every other entry is untouched; the reply is a bare success. */
  lemma DisconnectKnown(s: Snapshot, cameraId: string)
    requires cameraId in s.running
    ensures var t := OnDisconnect(s, cameraId).0;
      && cameraId in t.running && !t.running[cameraId]
      && t.running.Keys == s.running.Keys
      && t.threads == s.threads && t.order == s.order && t.spawned == s.spawned
      && (forall d :: d != cameraId && d in s.running ==> t.running[d] == s.running[d])
    ensures OnDisconnect(s, cameraId).1 == Response("success", 200, None, None)
  {
  }

  /** Disconnecting twice leaves the registry as disconnecting once does. */
  lemma DisconnectIdempotentState(s: Snapshot, cameraId: string)
    ensures OnDisconnect(OnDisconnect(s, cameraId).0, cameraId).0 == OnDisconnect(s, cameraId).0
  {
  }

  /** The registry after another thread completes `req`: a handler, or the
      failed open of an earlier worker of a registered camera. */
  function AfterRequest(s: Snapshot, req: Request): Snapshot
  {
    match req
    case Connect(c, url) => OnConnect(s, c, url).0
    case Disconnect(c) => OnDisconnect(s, c).0
    case OpenFailed(c) => if c in s.running then OnOpenFailure(s, c) else s
  }

  /** The registry after the requests, completed in order. */
  function SnapshotAfter(s: Snapshot, reqs: seq<Request>): Snapshot
    decreases |reqs|
  {
    if reqs == [] then s
    else AfterRequest(SnapshotAfter(s, reqs[..|reqs| - 1]), reqs[|reqs| - 1])
  }

  /** Completing the first `i + 1` requests is completing the first `i` and
      then the next one. */
  lemma SnapshotAfterStep(s: Snapshot, reqs: seq<Request>, i: nat)
    requires i < |reqs|
    ensures SnapshotAfter(s, reqs[..i + 1]) == AfterRequest(SnapshotAfter(s, reqs[..i]), reqs[i])
  {
    assert reqs[..i + 1][..i] == reqs[..i];
  }

  /** The registry a worker sees at its `k`-th guard check, when it was `s` at
      its first check and `rounds` is its schedule. */
  function SnapshotAt(s: Snapshot, rounds: seq<Round>, k: nat): Snapshot
    requires k <= |rounds|
  {
    if k == 0 then s
    else SnapshotAfter(SnapshotAt(s, rounds, k - 1), rounds[k - 1].requests)
  }

  /** On the flags, the handlers and the failed open do exactly what the
      requests of the control model say. */
  lemma HandlersFollowRequests(s: Snapshot, req: Request)
    ensures AfterRequest(s, req).running == ApplyRequest(s.running, req)
  {
  }

  lemma AfterRequestKeepsValid(s: Snapshot, req: Request)
    requires Valid(s)
    ensures Valid(AfterRequest(s, req))
  {
    match req
    case Connect(c, url) => ConnectKeepsValid(s, c, url);
    case Disconnect(c) => DisconnectKeepsValid(s, c);
    case OpenFailed(c) =>
  }

  /** On the flags, completing requests in order is `FlagsAfter`. */
  lemma {:induction false} SnapshotAfterFlags(s: Snapshot, reqs: seq<Request>)
    ensures SnapshotAfter(s, reqs).running == FlagsAfter(s.running, reqs)
    decreases |reqs|
  {
    if reqs != [] {
      SnapshotAfterFlags(s, reqs[..|reqs| - 1]);
      HandlersFollowRequests(SnapshotAfter(s, reqs[..|reqs| - 1]), reqs[|reqs| - 1]);
    }
  }

  /** Completing requests in order keeps the registry well formed. */
  lemma {:induction false} SnapshotAfterKeepsValid(s: Snapshot, reqs: seq<Request>)
    requires Valid(s)
    ensures Valid(SnapshotAfter(s, reqs))
    decreases |reqs|
  {
    if reqs != [] {
      SnapshotAfterKeepsValid(s, reqs[..|reqs| - 1]);
      AfterRequestKeepsValid(SnapshotAfter(s, reqs[..|reqs| - 1]), reqs[|reqs| - 1]);
    }
  }

  /** Only a connect writes `threads`, the order or the spawn counter: requests
      without one leave them as they were. */
  lemma {:induction false} OnlyConnectsSpawn(s: Snapshot, reqs: seq<Request>)
    requires forall i :: 0 <= i < |reqs| ==> !reqs[i].Connect?
    ensures var t := SnapshotAfter(s, reqs);
      t.threads == s.threads && t.order == s.order && t.spawned == s.spawned
    decreases |reqs|
  {
    if reqs != [] {
      OnlyConnectsSpawn(s, reqs[..|reqs| - 1]);
    }
  }

  /** On the flags, the registry a worker sees is the one `FlagsAt` gives. */
  lemma {:induction false} SnapshotAtFlags(s: Snapshot, rounds: seq<Round>, k: nat)
    requires k <= |rounds|
    ensures SnapshotAt(s, rounds, k).running == FlagsAt(s.running, rounds, k)
  {
    if k > 0 {
      SnapshotAtFlags(s, rounds, k - 1);
      SnapshotAfterFlags(SnapshotAt(s, rounds, k - 1), rounds[k - 1].requests);
    }
  }

  /** A worker itself never writes `threads` or the order: when no round
      carries a connect, the registry it sees keeps its handles, order and
      spawn counter. */
  lemma {:induction false} WorkerWritesNoHandles(s: Snapshot, rounds: seq<Round>, k: nat)
    requires k <= |rounds|
    requires forall j, i :: 0 <= j < |rounds| && 0 <= i < |rounds[j].requests| ==> !rounds[j].requests[i].Connect?
    ensures var t := SnapshotAt(s, rounds, k);
      t.threads == s.threads && t.order == s.order && t.spawned == s.spawned
  {
    if k > 0 {
      WorkerWritesNoHandles(s, rounds, k - 1);
      OnlyConnectsSpawn(SnapshotAt(s, rounds, k - 1), rounds[k - 1].requests);
    }
  }

  /** The status list names exactly the cameras whose flag is true, each once. */
  lemma StatusIsActiveSet(s: Snapshot)
    requires Valid(s)
    ensures StatusReply(s).data.Some?
    ensures forall c :: c in StatusReply(s).data.value <==> Flag(s.running, c)
    ensures NoDuplicates(StatusReply(s).data.value)
  {
    ActiveInExact(s.order, s.running);
  }

  /** Starting `a` and `b` and then stopping `a` leaves `[b]` as the status list. */
  lemma StartStartStopStatus(a: string, b: string, urlA: string, urlB: string)
    requires a != b
    ensures StatusReply(OnDisconnect(OnConnect(OnConnect(Empty, a, urlA).0, b, urlB).0, a).0).data == Some([b])
  {
    var s1 := OnConnect(Empty, a, urlA).0;
    assert s1.order == [a] && s1.running == map[a := true];
    var s2 := OnConnect(s1, b, urlB).0;
    assert s2.order == [a, b] && s2.running == map[a := true, b := true];
    var s3 := OnDisconnect(s2, a).0;
    assert s3.order == [a, b] && s3.running == map[a := false, b := true];
    ActiveInPair(a, b, s3.running);
  }

  /** The status list of two registered cameras, the first stopped. */
  lemma ActiveInPair(a: string, b: string, flags: map<string, bool>)
    requires a in flags && !flags[a] && b in flags && flags[b]
    ensures ActiveIn([a, b], flags) == [b]
  {
  }

  /** A worker that fails to open lowers only its own camera's flag. */
  lemma OpenFailureTouchesOnlyItsCamera(s: Snapshot, cameraId: string)
    requires cameraId in s.running
    ensures var t := OnOpenFailure(s, cameraId);
      && !Flag(t.running, cameraId)
      && t.running.Keys == s.running.Keys
      && t.threads == s.threads && t.order == s.order && t.spawned == s.spawned
      && (forall d :: d != cameraId && d in s.running ==> t.running[d] == s.running[d])
  {
  }
}
