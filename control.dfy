/**
 * What the control plane's requests do to the `running_streams` flags
 * (camera id -> "should be running"), stated on plain map values. The
 * registry class in stream.dfy is proved against these definitions.
 */
module Control {

  /** What other threads can do to the flags between two guard checks of a
      worker: `POST /connect` (body `camera_id`, `rstp_url`),
      `POST /disconnect/{camera_id}`, and another worker of the same camera,
      started earlier, failing to open its source and lowering the flag. */
  datatype Request =
    | Connect(cameraId: string, rstpUrl: string)
    | Disconnect(cameraId: string)
    | OpenFailed(cameraId: string)

  /** `req` may lower the flag of camera `c`. */
  predicate Lowers(req: Request, c: string)
  {
    !req.Connect? && req.cameraId == c
  }

  /** One pass of a worker's loop after its guard held: whether `cap.read()`
      delivered a frame, and the requests that other threads complete before
      the worker checks its guard again. */
  datatype Round = Round(frame: bool, requests: seq<Request>)

  /** The guard `running_streams[camera_id]`, read as false for an absent key. */
  predicate Flag(flags: map<string, bool>, c: string)
  {
    c in flags && flags[c]
  }

  /** The effect of one request on the flags: connect raises its camera's flag
      (creating the entry if needed); disconnect lowers the flag of a known
      camera, keeping its entry, and ignores an unknown one. A failed open
      lowers the flag too; a worker only exists for a registered camera, so
      the entry is always there. */
  function ApplyRequest(flags: map<string, bool>, req: Request): (r: map<string, bool>)
    ensures Flag(r, req.cameraId) <==> req.Connect?
    ensures req.Connect? ==> r.Keys == flags.Keys + {req.cameraId}
    ensures !req.Connect? ==> r.Keys == flags.Keys
    ensures forall d :: d != req.cameraId && d in flags ==> r[d] == flags[d]
  {
    match req
    case Connect(c, _) => flags[c := true]
    case Disconnect(c) => if c in flags then flags[c := false] else flags
    case OpenFailed(c) => if c in flags then flags[c := false] else flags
  }

  /** The flags after a sequence of requests, applied in order. */
  function FlagsAfter(flags: map<string, bool>, reqs: seq<Request>): map<string, bool>
    decreases |reqs|
  {
    if reqs == [] then flags
    else ApplyRequest(FlagsAfter(flags, reqs[..|reqs| - 1]), reqs[|reqs| - 1])
  }

  /** Serving the requests one at a time: after the first `i + 1` of them,
      the flags are those after the first `i`, updated by the next one. */
  lemma FlagsAfterStep(flags: map<string, bool>, reqs: seq<Request>, i: nat)
    requires i < |reqs|
    ensures FlagsAfter(flags, reqs[..i + 1]) == ApplyRequest(FlagsAfter(flags, reqs[..i]), reqs[i])
  {
    assert reqs[..i + 1][..i] == reqs[..i];
  }

  /** The flags a worker sees at its `k`-th guard check, when the flags were
      `flags` at its first check and `rounds` is its schedule. */
  function FlagsAt(flags: map<string, bool>, rounds: seq<Round>, k: nat): map<string, bool>
    requires k <= |rounds|
  {
    if k == 0 then flags
    else FlagsAfter(FlagsAt(flags, rounds, k - 1), rounds[k - 1].requests)
  }

  /** The number of passes a worker makes from its `k`-th guard check on:
      it stops at the first check that finds its flag false, or when the
      schedule runs out. */
  function RunFrom(flags: map<string, bool>, rounds: seq<Round>, c: string, k: nat): (n: nat)
    requires k <= |rounds|
    ensures k <= n <= |rounds|
    decreases |rounds| - k
  {
    if k == |rounds| || !Flag(FlagsAt(flags, rounds, k), c) then k
    else RunFrom(flags, rounds, c, k + 1)
  }

  /** How many of the first `k` rounds delivered a frame to send. */
  function FramesIn(rounds: seq<Round>, k: nat): (n: nat)
    requires k <= |rounds|
    ensures n <= k
  {
    if k == 0 then 0
    else FramesIn(rounds, k - 1) + (if rounds[k - 1].frame then 1 else 0)
  }

  predicate NoDuplicates(s: seq<string>)
  {
    forall i, j :: 0 <= i < j < |s| ==> s[i] != s[j]
  }

  /** The `/status` list: the keys, in the order given, whose flag is true. */
  function ActiveIn(keys: seq<string>, flags: map<string, bool>): (r: seq<string>)
    ensures |r| <= |keys|
    ensures forall c :: c in r ==> c in keys && Flag(flags, c)
  {
    if keys == [] then []
    else ActiveIn(keys[..|keys| - 1], flags)
         + (if Flag(flags, keys[|keys| - 1]) then [keys[|keys| - 1]] else [])
  }

  /** The status list holds exactly the active keys, each of them once. */
  lemma {:induction false} ActiveInExact(keys: seq<string>, flags: map<string, bool>)
    requires NoDuplicates(keys)
    ensures forall c :: c in ActiveIn(keys, flags) <==> c in keys && Flag(flags, c)
    ensures NoDuplicates(ActiveIn(keys, flags))
  {
    if keys != [] {
      var init, last := keys[..|keys| - 1], keys[|keys| - 1];
      assert keys == init + [last];
      ActiveInExact(init, flags);
      forall j | 0 <= j < |init|
        ensures init[j] != last
      {
        assert init[j] == keys[j];
      }
    }
  }

  /** Keys are never removed: every camera ever registered stays registered. */
  lemma {:induction false} KeysPersist(flags: map<string, bool>, reqs: seq<Request>, c: string)
    requires c in flags || exists i :: 0 <= i < |reqs| && reqs[i].Connect? && reqs[i].cameraId == c
    ensures c in FlagsAfter(flags, reqs)
    decreases |reqs|
  {
    if reqs != [] {
      var init, last := reqs[..|reqs| - 1], reqs[|reqs| - 1];
      if last.Connect? && last.cameraId == c {
      } else {
        if c !in flags {
          var i :| 0 <= i < |reqs| && reqs[i].Connect? && reqs[i].cameraId == c;
          assert init[i] == reqs[i];
        }
        KeysPersist(flags, init, c);
      }
    }
  }

  /** Requests about other cameras leave a camera's entry exactly as it was. */
  lemma {:induction false} OthersUntouched(flags: map<string, bool>, reqs: seq<Request>, c: string)
    requires forall i :: 0 <= i < |reqs| ==> reqs[i].cameraId != c
    ensures c in FlagsAfter(flags, reqs) <==> c in flags
    ensures c in flags ==> FlagsAfter(flags, reqs)[c] == flags[c]
    decreases |reqs|
  {
    if reqs != [] {
      OthersUntouched(flags, reqs[..|reqs| - 1], c);
    }
  }

  /** `reqs[i]` lowers the flag of `c` (a disconnect or another worker's
      failed open) and no later request connects `c` again. */
  predicate StopsLast(reqs: seq<Request>, i: nat, c: string)
  {
    && i < |reqs| && Lowers(reqs[i], c)
    && forall j :: i < j < |reqs| ==> !(reqs[j].Connect? && reqs[j].cameraId == c)
  }

  /** A disconnect, or a failed open of another worker of the camera, that no
      later connect of the same camera follows leaves that camera inactive,
      whatever happens to the other cameras. */
  lemma {:induction false} LastDisconnectWins(flags: map<string, bool>, reqs: seq<Request>, i: nat, c: string)
    requires StopsLast(reqs, i, c)
    ensures !Flag(FlagsAfter(flags, reqs), c)
    decreases |reqs|
  {
    var init := reqs[..|reqs| - 1];
    if i < |reqs| - 1 {
      LastDisconnectWins(flags, init, i, c);
    }
  }

  /** A worker's guard fails at the check that follows a round in which its
      flag was lowered and its camera not connected again. */
  lemma StopEndsWorker(flags: map<string, bool>, rounds: seq<Round>, k: nat, i: nat, c: string)
    requires k < |rounds| && StopsLast(rounds[k].requests, i, c)
    ensures !Flag(FlagsAt(flags, rounds, k + 1), c)
  {
    LastDisconnectWins(FlagsAt(flags, rounds, k), rounds[k].requests, i, c);
  }

  /** Every guard check from the `k`-th up to the one `RunFrom` stops at finds
      the flag true, and the check it stops at, if the schedule has not run
      out, finds it false. */
  lemma {:induction false} RunFromGuard(flags: map<string, bool>, rounds: seq<Round>, c: string, k: nat)
    requires k <= |rounds|
    ensures forall j :: k <= j < RunFrom(flags, rounds, c, k) ==> Flag(FlagsAt(flags, rounds, j), c)
    ensures RunFrom(flags, rounds, c, k) < |rounds| ==> !Flag(FlagsAt(flags, rounds, RunFrom(flags, rounds, c, k)), c)
    decreases |rounds| - k
  {
    if k < |rounds| && Flag(FlagsAt(flags, rounds, k), c) {
      RunFromGuard(flags, rounds, c, k + 1);
    }
  }

  /** `RunFrom(flags, rounds, c, 0)` is the one pass count that matches the
      loop: its guard held at every earlier check and failed at the last one,
      unless the schedule ran out. */
  lemma RunIsFirstFailure(flags: map<string, bool>, rounds: seq<Round>, c: string, n: nat)
    ensures n == RunFrom(flags, rounds, c, 0) <==>
      && n <= |rounds|
      && (forall j :: 0 <= j < n ==> Flag(FlagsAt(flags, rounds, j), c))
      && (n < |rounds| ==> !Flag(FlagsAt(flags, rounds, n), c))
  {
    RunFromGuard(flags, rounds, c, 0);
  }

  /** A pass in round `k` whose guard held: the next check sees the flags
      after the round's requests, the worker's camera is still registered,
      and the loop stops where it would have stopped from the `k`-th check. */
  lemma NextCheck(flags: map<string, bool>, rounds: seq<Round>, c: string, k: nat)
    requires k < |rounds| && Flag(FlagsAt(flags, rounds, k), c)
    ensures FlagsAt(flags, rounds, k + 1) == FlagsAfter(FlagsAt(flags, rounds, k), rounds[k].requests)
    ensures c in FlagsAt(flags, rounds, k + 1)
    ensures RunFrom(flags, rounds, c, k + 1) == RunFrom(flags, rounds, c, k)
    ensures FramesIn(rounds, k + 1) == FramesIn(rounds, k) + (if rounds[k].frame then 1 else 0)
  {
    KeysPersist(FlagsAt(flags, rounds, k), rounds[k].requests, c);
  }

  /** A worker makes no pass after a round that lowered its flag without
      connecting its camera again. */
  lemma RunStopsAfterStop(flags: map<string, bool>, rounds: seq<Round>, c: string, k: nat, i: nat)
    requires k < |rounds| && StopsLast(rounds[k].requests, i, c)
    ensures RunFrom(flags, rounds, c, 0) <= k + 1
  {
    RunFromGuard(flags, rounds, c, 0);
    StopEndsWorker(flags, rounds, k, i, c);
  }

  /** A worker that made its pass in round `k`, in which its camera was
      disconnected and then connected again, with nothing lowering its flag
      after that connect, is not stopped by that disconnect: its guard holds
      at the next check, so it keeps looping beside the worker the new connect
      spawned. */
  lemma RestartKeepsWorker(flags: map<string, bool>, rounds: seq<Round>, c: string, k: nat, i: nat)
    requires k < RunFrom(flags, rounds, c, 0)
    requires i < |rounds[k].requests| && rounds[k].requests[i].Connect? && rounds[k].requests[i].cameraId == c
    requires forall j :: i < j < |rounds[k].requests| ==> !Lowers(rounds[k].requests[j], c)
    ensures k + 1 < RunFrom(flags, rounds, c, 0) || RunFrom(flags, rounds, c, 0) == |rounds|
  {
    RunFromGuard(flags, rounds, c, 0);
    LastConnectWins(FlagsAt(flags, rounds, k), rounds[k].requests, i, c);
  }

  /** Without a disconnect of its camera or a failed open of another of its
      workers, a worker's flag stays true. */
  lemma {:induction false} NoStopKeepsFlag(flags: map<string, bool>, reqs: seq<Request>, c: string)
    requires Flag(flags, c)
    requires forall i :: 0 <= i < |reqs| ==> !Lowers(reqs[i], c)
    ensures Flag(FlagsAfter(flags, reqs), c)
    decreases |reqs|
  {
    if reqs != [] {
      NoStopKeepsFlag(flags, reqs[..|reqs| - 1], c);
    }
  }

  /** A worker whose flag is true at its first check, and whose flag no round
      lowers by a disconnect or another worker's failed open, makes a pass in
      every round: only those two writes end it. */
  lemma {:induction false} OnlyStopEndsRun(flags: map<string, bool>, rounds: seq<Round>, c: string, k: nat)
    requires k <= |rounds| && Flag(FlagsAt(flags, rounds, k), c)
    requires forall j, i :: 0 <= j < |rounds| && 0 <= i < |rounds[j].requests| ==> !Lowers(rounds[j].requests[i], c)
    ensures RunFrom(flags, rounds, c, k) == |rounds|
    decreases |rounds| - k
  {
    if k < |rounds| {
      NoStopKeepsFlag(FlagsAt(flags, rounds, k), rounds[k].requests, c);
      OnlyStopEndsRun(flags, rounds, c, k + 1);
    }
  }

  /** A connect that nothing later lowering the same camera's flag follows
      leaves that camera active. */
  lemma {:induction false} LastConnectWins(flags: map<string, bool>, reqs: seq<Request>, i: nat, c: string)
    requires i < |reqs| && reqs[i].Connect? && reqs[i].cameraId == c
    requires forall j :: i < j < |reqs| ==> !Lowers(reqs[j], c)
    ensures Flag(FlagsAfter(flags, reqs), c)
    decreases |reqs|
  {
    var init := reqs[..|reqs| - 1];
    if i < |reqs| - 1 {
      LastConnectWins(flags, init, i, c);
    }
  }
}
