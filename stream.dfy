/**
 * The registry as app.py keeps it: mutable dictionaries updated in place by
 * the handlers and read by the worker loop of `stream_to_grpc`. Each method is
 * proved to move the fields as the functions of registry.dfy say.
 */
module Supervisor {
  import opened Envelope
  import opened Control
  import opened Registry

  class StreamRegistry {
    /** `running_streams`. */
    var running: map<string, bool>
    /** `threads`. */
    var threads: map<string, Worker>
    /** The keys of `running_streams` in insertion order. */
    var order: seq<string>
    /** How many workers were spawned so far; the next one gets this id. */
    var spawned: nat

    function View(): Snapshot
      reads this
    {
      Snapshot(running, threads, order, spawned)
    }

    /** The fields form a well-formed registry. */
    ghost predicate Valid()
      reads this
    {
      Registry.Valid(View())
    }

    /** `threads = {}` and `running_streams = {}`. */
    constructor ()
      ensures View() == Empty && Valid()
    {
      running, threads, order, spawned := map[], map[], [], 0;
    }

    /** `start_camera_connection`, behind `POST /connect`. */
    method StartCameraConnection(cameraId: string, rstpUrl: string) returns (resp: Response)
      requires Valid()
      modifies this
      ensures Valid()
      ensures (View(), resp) == OnConnect(old(View()), cameraId, rstpUrl)
    {
      ConnectKeepsValid(View(), cameraId, rstpUrl);
      if cameraId in running && running[cameraId] {
        resp := GetResponseFormat(200, message := Some(MissingMessage(cameraId)));
        return;
      }
      if cameraId !in running {
        order := order + [cameraId];
      }
      running := running[cameraId := true];
      threads := threads[cameraId := Worker(spawned, cameraId, rstpUrl)];
      spawned := spawned + 1;
      resp := GetResponseFormat(200);
    }

    /** `stop_camera_connection`, behind `POST /disconnect/{camera_id}`. */
    method StopCameraConnection(cameraId: string) returns (resp: Response)
      requires Valid()
      modifies this`running
      ensures Valid()
      ensures (View(), resp) == OnDisconnect(old(View()), cameraId)
    {
      DisconnectKeepsValid(View(), cameraId);
      if cameraId !in running {
        resp := GetResponseFormat(200, message := Some(MissingMessage(cameraId)));
        return;
      }
      running := running[cameraId := false];
      resp := GetResponseFormat(200);
    }

    /** The `GET /status` handler: the ids whose flag is true, each once, in
        the order the cameras were first registered. It only reads. */
    function Status(): (resp: Response)
      requires Valid()
      reads this
      ensures resp.httpCode == 200 && resp.status == "success" && resp.message == None
      ensures resp.data.Some? && forall c :: c in resp.data.value <==> Flag(running, c)
      ensures NoDuplicates(resp.data.value)
    {
      StatusIsActiveSet(View());
      StatusReply(View())
    }

    /** `running_streams[camera_id] = False`, written by a worker whose
        capture source did not open. */
    method FailOpen(cameraId: string)
      requires Valid() && cameraId in running
      modifies this`running
      ensures Valid()
      ensures View() == OnOpenFailure(old(View()), cameraId)
    {
      OpenFailureKeepsValid(View(), cameraId);
      running := running[cameraId := false];
    }

    /** Requests that other threads complete, one after another. */
    method ServeRequests(reqs: seq<Request>)
      requires Valid()
      modifies this
      ensures Valid()
      ensures View() == SnapshotAfter(old(View()), reqs)
      ensures running == FlagsAfter(old(running), reqs)
    {
      var i := 0;
      while i < |reqs|
        invariant 0 <= i <= |reqs|
        invariant Valid()
        invariant View() == SnapshotAfter(old(View()), reqs[..i])
      {
        SnapshotAfterStep(old(View()), reqs, i);
        match reqs[i] {
          case Connect(c, url) =>
            var _ := StartCameraConnection(c, url);
          case Disconnect(c) =>
            var _ := StopCameraConnection(c);
          case OpenFailed(c) =>
            if c in running {
              FailOpen(c);
            }
        }
        i := i + 1;
      }
      assert reqs[..i] == reqs;
      SnapshotAfterFlags(old(View()), reqs);
    }

    /** `stream_to_grpc` for camera `cameraId`, seen from the registry.
        `isOpened` is the outcome of opening the capture source. On failure the
        worker lowers its own camera's flag and returns without looping.
        Otherwise it loops while its flag is true; `rounds` says what each pass
        reads and which requests other threads complete before the next guard
        check. It returns how many passes ran and how many frames were handed
        on. The worker writes nothing else: the registry it leaves is the one
        its schedule produced. The source does not touch the flag when the
        loop ends. */
    method StreamToGrpc(cameraId: string, isOpened: bool, rounds: seq<Round>) returns (passes: nat, frames: nat)
      requires Valid() && cameraId in running
      modifies this
      ensures Valid()
      ensures !isOpened ==> passes == 0 && frames == 0 && View() == OnOpenFailure(old(View()), cameraId)
      ensures isOpened ==>
        && passes == RunFrom(old(running), rounds, cameraId, 0)
        && View() == SnapshotAt(old(View()), rounds, passes)
        && running == FlagsAt(old(running), rounds, passes)
        && frames == FramesIn(rounds, passes)
      ensures isOpened ==>
        forall k :: 0 <= k < passes ==> Flag(FlagsAt(old(running), rounds, k), cameraId)
      ensures isOpened ==>
        forall k, i :: 0 <= k < |rounds| && StopsLast(rounds[k].requests, i, cameraId) ==> passes <= k + 1
    {
      if !isOpened {
        FailOpen(cameraId);
        return 0, 0;
      }
      ghost var start := running;
      passes, frames := PollWhileRunning(cameraId, rounds);
      RunFromGuard(start, rounds, cameraId, 0);
      forall k, i | 0 <= k < |rounds| && StopsLast(rounds[k].requests, i, cameraId)
        ensures passes <= k + 1
      {
        RunStopsAfterStop(start, rounds, cameraId, k, i);
      }
    }

    /** What holds at every guard check of a worker's loop, `passes` passes
        into the schedule `rounds`, when the registry was `start` at the first
        check: the registry is well formed and is the one the schedule
        produced, the loop will stop where `RunFrom` says, and the frames of
        the passes made so far were handed on. */
    ghost predicate Polling(start: Snapshot, rounds: seq<Round>, cameraId: string, passes: nat, frames: nat)
      reads this
    {
      && passes <= |rounds|
      && Valid()
      && View() == SnapshotAt(start, rounds, passes)
      && running == FlagsAt(start.running, rounds, passes)
      && cameraId in running
      && RunFrom(start.running, rounds, cameraId, passes) == RunFrom(start.running, rounds, cameraId, 0)
      && frames == FramesIn(rounds, passes)
    }

    /** One pass of the worker's loop after its guard held: the frame it read
        is counted if there was one, and the round's requests complete in
        order. */
    method Pass(ghost start: Snapshot, rounds: seq<Round>, cameraId: string, passes: nat, frames: nat)
      returns (frames': nat)
      requires Polling(start, rounds, cameraId, passes, frames)
      requires passes < |rounds| && running[cameraId]
      modifies this
      ensures Polling(start, rounds, cameraId, passes + 1, frames')
    {
      NextCheck(start.running, rounds, cameraId, passes);
      // Encoding the frame and sending it are left out; a failed send is
      // swallowed and does not end the loop.
      frames' := if rounds[passes].frame then frames + 1 else frames;
      ServeRequests(rounds[passes].requests);
    }

    /** The loop of `stream_to_grpc` once the capture source is open: one pass
        per round while the camera's flag is true at the guard check. */
    method PollWhileRunning(cameraId: string, rounds: seq<Round>) returns (passes: nat, frames: nat)
      requires Valid() && cameraId in running
      modifies this
      ensures Valid()
      ensures passes == RunFrom(old(running), rounds, cameraId, 0)
      ensures View() == SnapshotAt(old(View()), rounds, passes)
      ensures running == FlagsAt(old(running), rounds, passes)
      ensures frames == FramesIn(rounds, passes)
    {
      ghost var start := View();
      passes, frames := 0, 0;
      while passes < |rounds| && running[cameraId]
        invariant Polling(start, rounds, cameraId, passes, frames)
      {
        frames := Pass(start, rounds, cameraId, passes, frames);
        passes := passes + 1;
      }
    }
  }

  /** Starting `a` and `b` on a fresh registry and then stopping `a` leaves
      `[b]` as the status list. */
  method StatusAfterStartStartStop(a: string, b: string, urlA: string, urlB: string)
    returns (ids: seq<string>)
    requires a != b
    ensures ids == [b]
  {
    var reg := new StreamRegistry();
    var _ := reg.StartCameraConnection(a, urlA);
    var _ := reg.StartCameraConnection(b, urlB);
    var _ := reg.StopCameraConnection(a);
    StartStartStopStatus(a, b, urlA, urlB);
    var resp := reg.Status();
    ids := resp.data.value;
  }
}
