/** From selection to attachment: a PID found by the selector (internal/selection/selection.go) is opened as a pidfd
    and checked again (internal/watch/run_linux.go), while the PID may be reused at any moment. */
module Attachment {
  import opened Words
  import opened Selection

  /** A process that holds the PID; `id` names it for ever, `process` is what /proc says about it. */
  datatype Occupant = Occupant(id: nat, process: Process)

  /** Who holds the PID at each moment. */
  type Timeline = seq<Option<Occupant>>

  /** A process holds its PID from its start to its end without a gap and keeps its start time; a PID is not reused
      within one unit of start time, so two processes that hold it have different ones. */
  predicate Real(tl: Timeline) {
    && (forall i, j, k :: 0 <= i <= j <= k < |tl| && tl[i].Some? && tl[k].Some? && tl[i].value.id == tl[k].value.id ==>
          tl[j].Some? && tl[j].value.id == tl[i].value.id)
    && (forall i, k :: 0 <= i < |tl| && 0 <= k < |tl| && tl[i].Some? && tl[k].Some? ==>
          (tl[i].value.id == tl[k].value.id <==> tl[i].value.process.start == tl[k].value.process.start))
  }

  /** /proc shows the target: what the selector saw when it found it, and what Selector.Check asks for again. */
  predicate Shows(now: Option<Occupant>, t: Target) {
    now.Some? && now.value.process.start == t.start && now.value.process.uuid == t.uuid
  }

  /** OpenTarget at moment `j` pins whoever holds the PID then. */
  function Opened(tl: Timeline, j: nat): Option<nat>
    requires j < |tl|
  {
    if tl[j].None? then None else Some(tl[j].value.id)
  }

  /** Check at moment `k` decides whether the worker goes on with the process it opened. */
  function Attached(tl: Timeline, j: nat, k: nat, t: Target): Option<nat>
    requires j <= k < |tl|
  {
    if Shows(tl[k], t) then Opened(tl, j) else None
  }

  /** However the PID is reused, a worker that goes on is attached to the very process that was selected, which still
      holds the PID at the check. */
  lemma AttachesTheSelected(tl: Timeline, i: nat, j: nat, k: nat, t: Target)
    requires Real(tl) && i <= j <= k < |tl| && Shows(tl[i], t) && Attached(tl, j, k, t).Some?
    ensures Attached(tl, j, k, t).value == tl[i].value.id == tl[k].value.id
  {
    assert tl[i].value.id == tl[k].value.id;
  }

  /** A worker goes on exactly when the selected process still holds the PID at the check with the same UUID. */
  lemma AttachesExactly(tl: Timeline, i: nat, j: nat, k: nat, t: Target)
    requires Real(tl) && i <= j <= k < |tl| && Shows(tl[i], t)
    ensures Attached(tl, j, k, t).Some? <==>
            tl[k].Some? && tl[k].value.id == tl[i].value.id && tl[k].value.process.uuid == t.uuid
  {
    if tl[k].Some? && tl[k].value.id == tl[i].value.id {
      assert tl[j].Some?;
    }
  }

  /** The check is needed: the opening alone pins another process than the one selected when the PID is reused in
      between, and the check refuses it. */
  lemma ReuseBeforeOpening() returns (tl: Timeline, t: Target)
    ensures Real(tl) && |tl| == 2 && Shows(tl[0], t)
    ensures Opened(tl, 1).Some? && Opened(tl, 1).value != tl[0].value.id && Attached(tl, 1, 1, t).None?
  {
    var a, b := Occupant(0, Process("100", "u")), Occupant(1, Process("200", "u"));
    t := Target(7, "100", "", "u");
    tl := [Some(a), Some(b)];
    assert "100"[0] != "200"[0];
    TwoLives(a, b);
  }

  lemma TwoLives(a: Occupant, b: Occupant)
    requires a.id != b.id && a.process.start != b.process.start
    ensures Real([Some(a), Some(b)])
  {
  }
}
