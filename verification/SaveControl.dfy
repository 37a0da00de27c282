/**
 * The writer task of main/fan_state_store.c and main/scheduler.c in place: one pass of
 * its loop, with requests arriving while it debounces (SaveWriter has all interleavings).
 */
module SaveControl {
  import opened Prelude

  class SaveStore<E> {
    const boundary: bool
    const cells: array<E>
    var nvs: Option<seq<E>>
    var last: seq<E>
    var asyncBit: bool
    var syncBit: bool
    var req: nat
    var done: nat
    var result: bool
    var token: bool

    /** A pending request always has its notification bit set while the writer is not serving. */
    predicate Owed()
      reads this
    {
      done <= req && (req != done ==> syncBit)
    }

    constructor (boundary: bool, cells: array<E>)
      ensures this.boundary == boundary && this.cells == cells && Owed() && last == cells[..]
    {
      this.boundary, this.cells := boundary, cells;
      nvs, last, asyncBit, syncBit := None, cells[..], false, false;
      req, done, result, token := 0, 0, false, false;
    }

    /** The snapshot callback reads one cell at a time. */
    method Snapshot() returns (cellsNow: seq<E>)
      ensures cellsNow == cells[..]
    {
      cellsNow := [];
      var i := 0;
      while i < cells.Length
        invariant 0 <= i <= cells.Length && cellsNow == cells[..i]
      {
        cellsNow := cellsNow + [cells[i]];
        i := i + 1;
      }
    }

    /** save_now: a failed commit keeps the old blob. */
    method SaveNow(commits: bool) returns (ok: bool)
      modifies this`nvs, this`last
      ensures ok == commits && last == cells[..]
      ensures nvs == if ok then Some(cells[..]) else old(nvs)
    {
      last := Snapshot();
      ok := commits;
      if ok { nvs := Some(last); }
    }

    /** process_pending_sync_saves: every pending generation is served, and told the truth. */
    method ServePending(commits: bool)
      requires done <= req
      modifies this`nvs, this`last, this`done, this`result, this`token
      ensures done == req == old(req)
      ensures old(done) != old(req) ==>
                token && last == cells[..] && result == commits && nvs == if commits then Some(cells[..]) else old(nvs)
      ensures old(done) == old(req) ==>
                nvs == old(nvs) && last == old(last) && result == old(result) && token == old(token)
      ensures nvs == old(nvs) || nvs == Some(cells[..])
      ensures last == old(last) || last == cells[..]
    {
      while req != done
        invariant done <= req == old(req)
        invariant done == old(done) ==>
                    nvs == old(nvs) && last == old(last) && result == old(result) && token == old(token)
        invariant done != old(done) ==>
                    && done == req && token && last == cells[..] && result == commits
                    && nvs == if commits then Some(cells[..]) else old(nvs)
        invariant nvs == old(nvs) || nvs == Some(cells[..])
        invariant last == old(last) || last == cells[..]
        decreases req - done
      {
        var generation := req;
        var ok := SaveNow(commits);
        done, result := generation, ok;
        token := true;
      }
    }

    /** While the writer waits, a caller may issue a synchronous request or announce an edit. */
    method Arrive()
      requires Owed()
      modifies this`asyncBit, this`syncBit, this`req
      ensures Owed() && req >= old(req)
      ensures (old(asyncBit) ==> asyncBit) && (old(syncBit) ==> syncBit)
    {
      var request: bool := *;
      var edit: bool := *;
      if request { req, syncBit := req + 1, true; }
      if edit { asyncBit := true; }
    }

    /** What the writer has done since was, if every commit of its partition worked. */
    twostate predicate Kept(works: bool)
      reads this, cells
    {
      && (last == old(last) || last == cells[..]) && (nvs == old(nvs) || nvs == Some(cells[..]))
      && old(done) <= done && old(req) <= req
      && (works && done != old(done) ==> result && nvs == Some(cells[..]))
      && (done == old(done) ==> result == old(result))
    }

    /** Take the notification bits and serve what they announce. */
    method WakeUp(commits: bool)
      requires Owed()
      modifies this`nvs, this`last, this`done, this`result, this`token, this`asyncBit, this`syncBit
      ensures Owed() && !asyncBit && !syncBit && Kept(commits)
      ensures if old(syncBit) && req != old(done)
              then last == cells[..] && (commits ==> nvs == Some(cells[..]))
              else nvs == old(nvs) && last == old(last) && done == old(done)
      ensures old(syncBit) ==> done == req
    {
      var sync := syncBit;
      asyncBit, syncBit := false, false;
      if sync { ServePending(commits); }
    }

    /**
     * The debounce loop: it ends after a quiet period, here after at most `burst` wake-ups.
     * commits says which of its saves the partition takes.
     */
    method Debounce(burst: nat, commits: nat -> bool, ghost works: bool)
      requires Owed() && (works ==> forall n :: commits(n))
      modifies this`nvs, this`last, this`done, this`result, this`token, this`asyncBit, this`syncBit, this`req
      ensures Owed() && !asyncBit && !syncBit && Kept(works)
    {
      var left := burst;
      while left > 0
        invariant Owed() && Kept(works)
      {
        Turn(commits(left), works);
        left := left - 1;
      }
      Turn(commits(0), works);
    }

    /** One wake-up of the debounce loop, and what came in before it. */
    method Turn(commits: bool, ghost works: bool)
      requires Owed() && (works ==> commits)
      modifies this`nvs, this`last, this`done, this`result, this`token, this`asyncBit, this`syncBit, this`req
      ensures Owed() && !asyncBit && !syncBit && Kept(works)
    {
      Arrive();
      WakeUp(commits);
    }

    /**
     * One pass of the writer's loop. It leaves no request without a wake-up, and has served
     * the requests it was woken for. If an edit had been announced its last snapshot is the
     * live data, and while the partition takes every save, that is what is committed and
     * what callers are told.
     */
    method Pass(burst: nat, commits: nat -> bool, ghost works: bool)
      requires Owed() && (works ==> forall n :: commits(n))
      modifies this`nvs, this`last, this`done, this`result, this`token, this`asyncBit, this`syncBit, this`req
      ensures Owed() && Kept(works)
      ensures old(asyncBit) || (old(syncBit) && old(req) != old(done)) ==> last == cells[..]
      ensures (old(asyncBit) || (old(syncBit) && old(req) != old(done))) && works ==> nvs == Some(cells[..])
      ensures old(syncBit) ==> old(req) <= done
      ensures !old(asyncBit) && !(old(syncBit) && old(req) != old(done)) ==>
                nvs == old(nvs) && last == old(last) && done == old(done)
    {
      var edits := asyncBit;
      WakeUp(commits(burst + 1));
      if !edits { return; }
      Debounce(burst, commits, works);
      LastSave(commits(burst + 2));
    }

    /** The save at the end of the quiet period, for whoever asked just then. */
    method LastSave(commits: bool)
      requires Owed()
      modifies this`nvs, this`last, this`done, this`result, this`token, this`asyncBit, this`syncBit, this`req
      ensures Owed() && Kept(commits) && last == cells[..] && (commits ==> nvs == Some(cells[..]))
    {
      Arrive();  // a request may come in just as the quiet period ends
      if boundary && req != done {
        ServePending(commits);
        return;
      }
      var ok := SaveNow(commits);
    }
  }
}
