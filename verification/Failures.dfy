/** The errors of sandboxes that fail to start: kept as nodes report them, dropped when
    the sandbox runs, and after enough failures in a row no longer asked for. */
module Failures {
  import opened Wrappers
  import opened Tables
  import opened Protocol
  import opened State
  import opened Reconcile

  predicate IsObserved(observed: seq<Observed>, id: string) {
    exists i :: 0 <= i < |observed| && observed[i].id == id
  }

  predicate Names(failures: seq<CommandFailure>, id: string) {
    exists i :: 0 <= i < |failures| && failures[i].id == id
  }

  /** An error of a sandbox on the reporting node that the report shows up, with no
      failure against it. */
  predicate IsOver(row: SandboxRow, req: PollRequest, id: string) {
    row.nodeId == req.nodeId && row.lastError.Some? && !Names(req.failures, id) && IsObserved(req.observed, id)
  }

  function Cleared(sandboxes: Sandboxes, req: PollRequest): Sandboxes {
    map s | s in sandboxes ::
      if IsOver(sandboxes[s], req, s) then sandboxes[s].(lastError := None, errorAttempts := 0) else sandboxes[s]
  }

  /** A command held back is a reason but no attempt. */
  function Noted(row: SandboxRow, f: CommandFailure): SandboxRow {
    row.(lastError := Some(f.error), errorAttempts := if f.heldBack then 0 else f.attempts)
  }

  function AllNoted(sandboxes: Sandboxes, failures: seq<CommandFailure>): Sandboxes {
    if failures == [] then sandboxes
    else
      var f := failures[|failures| - 1];
      var before := AllNoted(sandboxes, failures[..|failures| - 1]);
      if f.id in before then before[f.id := Noted(before[f.id], f)] else before
  }

  /** Drops the errors that are over. */
  method ClearOver(store: Store, req: PollRequest)
    modifies store`sandboxes
    ensures store.sandboxes == Cleared(old(store.sandboxes), req)
  {
    hide IsObserved, Names;
    ghost var before := store.sandboxes;
    var errored := set s | s in store.sandboxes && store.sandboxes[s].nodeId == req.nodeId
                           && store.sandboxes[s].lastError.Some?;
    while errored != {}
      invariant forall s :: s in errored ==>
                  s in before && before[s].nodeId == req.nodeId && before[s].lastError.Some?
      invariant store.sandboxes == ClearedBut(before, req, errored)
      decreases errored
    {
      var id :| id in errored;
      if !Names(req.failures, id) && IsObserved(req.observed, id) {
        store.sandboxes := store.sandboxes[id := store.sandboxes[id].(lastError := None, errorAttempts := 0)];
      }
      errored := errored - {id};
    }
  }

  method RecordFailures(store: Store, req: PollRequest)
    modifies store`sandboxes
    ensures store.sandboxes == AllNoted(Cleared(old(store.sandboxes), req), req.failures)
  {
    hide Cleared;
    ClearOver(store, req);
    ghost var before := store.sandboxes;
    for i := 0 to |req.failures|
      invariant store.sandboxes == AllNoted(before, req.failures[..i])
    {
      assert req.failures[..i + 1][..i] == req.failures[..i];
      var f := req.failures[i];
      if f.id in store.sandboxes {
        var attempts := if f.heldBack then 0 else f.attempts;
        store.sandboxes :=
          store.sandboxes[f.id := store.sandboxes[f.id].(lastError := Some(f.error), errorAttempts := attempts)];
      }
    }
    assert req.failures[..|req.failures|] == req.failures;
  }

  ghost function ClearedBut(sandboxes: Sandboxes, req: PollRequest, left: set<string>): Sandboxes {
    map s | s in sandboxes ::
      if IsOver(sandboxes[s], req, s) && s !in left then sandboxes[s].(lastError := None, errorAttempts := 0)
      else sandboxes[s]
  }

  /** The last failure reported of a sandbox. */
  function LastFailure(failures: seq<CommandFailure>, id: string): Option<CommandFailure> {
    if failures == [] then None
    else if failures[|failures| - 1].id == id then Some(failures[|failures| - 1])
    else LastFailure(failures[..|failures| - 1], id)
  }

  lemma {:induction false} LastFailureIs(failures: seq<CommandFailure>, id: string)
    ensures LastFailure(failures, id).Some? <==> Names(failures, id)
    decreases |failures|
  {
    if failures != [] && failures[|failures| - 1].id != id {
      LastFailureIs(failures[..|failures| - 1], id);
      if Names(failures, id) {
        var i :| 0 <= i < |failures| && failures[i].id == id;
        assert failures[..|failures| - 1][i].id == id;
      }
    }
  }

  lemma {:induction false} AllNotedAt(sandboxes: Sandboxes, failures: seq<CommandFailure>, id: string)
    requires id in sandboxes
    ensures AllNoted(sandboxes, failures).Keys == sandboxes.Keys
    ensures var row, f := sandboxes[id], LastFailure(failures, id);
            var after := AllNoted(sandboxes, failures)[id];
            && after == row.(lastError := after.lastError, errorAttempts := after.errorAttempts)
            && after.lastError == (if f.Some? then Some(f.value.error) else row.lastError)
            && after.errorAttempts == (if f.None? then row.errorAttempts else if f.value.heldBack then 0
                                       else f.value.attempts)
    decreases |failures|
  {
    if failures != [] {
      AllNotedAt(sandboxes, failures[..|failures| - 1], id);
    }
  }

  lemma {:induction false} NotedKeys(sandboxes: Sandboxes, failures: seq<CommandFailure>)
    ensures AllNoted(sandboxes, failures).Keys == sandboxes.Keys
    decreases |failures|
  {
    if failures != [] {
      NotedKeys(sandboxes, failures[..|failures| - 1]);
    }
  }

  predicate Quarantined(row: SandboxRow) {
    row.errorAttempts >= MAX_FAILURES
  }

  /** After a report a sandbox is quarantined if and only if the report says it failed
      often enough, or says nothing of it and it was: not observed up by its node, and
      no failure against it. */
  lemma QuarantinedIff(sandboxes: Sandboxes, req: PollRequest, id: string)
    requires id in sandboxes
    ensures AllNoted(Cleared(sandboxes, req), req.failures).Keys == sandboxes.Keys
    ensures Quarantined(AllNoted(Cleared(sandboxes, req), req.failures)[id]) <==>
              match LastFailure(req.failures, id)
              case Some(f) => !f.heldBack && f.attempts >= MAX_FAILURES
              case None => Quarantined(sandboxes[id]) && !IsOver(sandboxes[id], req, id)
  {
    hide Names, IsObserved, AllNoted, LastFailure;
    AllNotedAt(Cleared(sandboxes, req), req.failures, id);
    LastFailureIs(req.failures, id);
  }

  /** The last failure the report names this sandbox in. */
  predicate IsLast(failures: seq<CommandFailure>, id: string, i: nat) {
    i < |failures| && failures[i].id == id && forall j :: i < j < |failures| ==> failures[j].id != id
  }

  lemma {:induction false} LastIs(failures: seq<CommandFailure>, id: string, i: nat)
    requires IsLast(failures, id, i)
    ensures LastFailure(failures, id) == Some(failures[i])
    decreases |failures|
  {
    if i < |failures| - 1 {
      LastIs(failures[..|failures| - 1], id, i);
    }
  }

  /** What a report of failures leaves of a row. The last failure of a sandbox is its error,
      and its attempts unless it was only held back; an error of a sandbox the report
      shows up without a failure is over; any other row stays as it was. */
  lemma FailuresLeave(sandboxes: Sandboxes, req: PollRequest, id: string)
    requires id in sandboxes
    ensures id in AllNoted(Cleared(sandboxes, req), req.failures)
    ensures var was, row := sandboxes[id], AllNoted(Cleared(sandboxes, req), req.failures)[id];
            && row == was.(lastError := row.lastError, errorAttempts := row.errorAttempts)
            && (forall i: nat :: IsLast(req.failures, id, i) ==>
                  && row.lastError == Some(req.failures[i].error)
                  && row.errorAttempts == if req.failures[i].heldBack then 0 else req.failures[i].attempts)
            && ((forall i :: 0 <= i < |req.failures| ==> req.failures[i].id != id) ==>
                  if was.nodeId == req.nodeId && was.lastError.Some?
                     && exists i :: 0 <= i < |req.observed| && req.observed[i].id == id
                  then row.lastError == None && row.errorAttempts == 0
                  else row == was)
  {
    hide AllNoted, LastFailure;
    AllNotedAt(Cleared(sandboxes, req), req.failures, id);
    LastFailureIs(req.failures, id);
    forall i: nat | IsLast(req.failures, id, i)
      ensures LastFailure(req.failures, id) == Some(req.failures[i])
    {
      LastIs(req.failures, id, i);
    }
  }

  function Reports(sandboxes: Sandboxes, reqs: seq<PollRequest>): Sandboxes {
    if reqs == [] then sandboxes
    else
      var before := Reports(sandboxes, reqs[..|reqs| - 1]);
      var req := reqs[|reqs| - 1];
      AllNoted(Cleared(before, req), req.failures)
  }

  predicate Unmentioned(reqs: seq<PollRequest>, id: string) {
    forall i :: 0 <= i < |reqs| ==> !Names(reqs[i].failures, id) && !IsObserved(reqs[i].observed, id)
  }

  /** Whatever else is reported, a quarantined sandbox no report mentions stays so, and
      the diff asks for nothing about it. */
  lemma {:induction false} QuarantineSticks(src: Source, sandboxes: Sandboxes, reqs: seq<PollRequest>, id: string,
                                            observed: seq<Observed>, now: int)
    requires id in sandboxes && Quarantined(sandboxes[id]) && Unmentioned(reqs, id)
    requires src.sandboxes == Reports(sandboxes, reqs)
    ensures id in src.sandboxes && src.sandboxes[id].errorAttempts == sandboxes[id].errorAttempts
    ensures Asks(src, observed, id, src.sandboxes[id].nodeId, now) == []
    decreases |reqs|
  {
    hide Names, IsObserved, AllNoted, LastFailure, Seen;
    if reqs != [] {
      var k := |reqs| - 1;
      QuarantineSticks(src.(sandboxes := Reports(sandboxes, reqs[..k])), sandboxes, reqs[..k], id, observed, now);
      AllNotedAt(Cleared(Reports(sandboxes, reqs[..k]), reqs[k]), reqs[k].failures, id);
      LastFailureIs(reqs[k].failures, id);
    }
  }
}
