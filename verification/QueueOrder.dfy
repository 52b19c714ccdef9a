/** What the columns of a row tell in every run of the SQL-backed queue of jobs/distributed.go: when it is
    due, who reserved it, and in which order rows are picked. */
module QueueOrder {
  import opened Strings
  import opened DistributedQueue
  import opened QueueRuns

  // ---------------------------------------------------------------- when a row is due

  // A row is put back: its update takes effect.
  predicate PutsBack(s: State, step: Step, id: JobId) {
    step.Retry? && !step.write.NotApplied? && WorkerOf(s, step.w).Requeueing? && WorkerOf(s, step.w).id == id
  }

  // The reading of the clock with which the row was last put back in the first n steps.
  function LastPutBack(states: seq<State>, steps: seq<Step>, n: nat, id: JobId): Option<int>
    requires n <= |steps| && |states| == |steps| + 1
  {
    if n == 0 then None
    else if PutsBack(states[n - 1], steps[n - 1], id) then Some(WorkerOf(states[n - 1], steps[n - 1].w).at)
    else LastPutBack(states, steps, n - 1, id)
  }

  lemma DueFrom(delay: nat, s: State, step: Step, id: JobId)
    requires HoldersReserved(s) && Enabled(s, step) && id in Apply(delay, s, step).table
    ensures var row := Apply(delay, s, step).table[id];
            if id !in s.table || (step.Enqueue? && step.job == id) then step.Enqueue? && step.job == id && row.available == row.created
            else row.created == s.table[id].created
                 && row.available == if PutsBack(s, step, id) then WorkerOf(s, step.w).at + delay else s.table[id].available
  {
  }

  lemma {:induction false} NotPutBackBefore(delay: nat, states: seq<State>, steps: seq<Step>, n: nat, id: JobId)
    requires IsRun(delay, states, steps) && n <= |steps| && id !in states[n].enqueued
    ensures LastPutBack(states, steps, n, id) == None
  {
    if n > 0 {
      RunStep(delay, states, steps, n - 1);
      RunKeepsInv(delay, states, steps, n - 1);
      OnlySuccessCounts(delay, states[n - 1], steps[n - 1]);
      NotPutBackBefore(delay, states, steps, n - 1, id);
    }
  }

  /** In every state of every run a row is due from its creation on, or, once a worker has put it back,
      from `delay` after the last reading of the clock with which one did. */
  lemma {:induction false} DueExactly(delay: nat, states: seq<State>, steps: seq<Step>, n: nat, id: JobId)
    requires IsRun(delay, states, steps) && n <= |steps| && id in states[n].table
    ensures var row := states[n].table[id];
            row.available == match LastPutBack(states, steps, n, id) case None => row.created case Some(at) => at + delay
  {
    assert n > 0 by {
      assert states[0] == INIT;
    }
    RunStep(delay, states, steps, n - 1);
    RunKeepsInv(delay, states, steps, n - 1);
    DueFrom(delay, states[n - 1], steps[n - 1], id);
    if id in states[n - 1].table {
      DueExactly(delay, states, steps, n - 1, id);
    } else {
      NewNotPutBack(delay, states, steps, n - 1, id);
    }
  }

  lemma NewNotPutBack(delay: nat, states: seq<State>, steps: seq<Step>, n: nat, id: JobId)
    requires IsRun(delay, states, steps) && n < |steps| && steps[n].Enqueue? && steps[n].job == id
    ensures LastPutBack(states, steps, n, id) == LastPutBack(states, steps, n + 1, id) == None
  {
    RunStep(delay, states, steps, n);
    NotPutBackBefore(delay, states, steps, n, id);
  }

  // ---------------------------------------------------------------- what a row says about its past

  // A row that nobody has claimed yet is as it was inserted.
  predicate Untouched(row: Row) {
    row.status == Queued && row.available == row.created && row.reservedBy == None && row.reservedAt == None
  }

  ghost predicate RowsTell(s: State) {
    && (forall id :: id in s.table && s.table[id].attempts == 0 ==> Untouched(s.table[id]))
    && (forall w :: w in s.workers && Holder(s.workers[w]) ==>
          s.workers[w].id in s.table && s.table[s.workers[w].id].reservedBy == Some(w) && s.table[s.workers[w].id].attempts > 0)
  }

  lemma UnclaimedFrom(delay: nat, s: State, step: Step, id: JobId)
    requires Enabled(s, step) && RowsTell(s)
    requires id in Apply(delay, s, step).table && Apply(delay, s, step).table[id].attempts == 0
    ensures Untouched(Apply(delay, s, step).table[id])
  {
    if step.Retry? {
      assert step.w in s.workers && Holder(s.workers[step.w]);
    }
  }

  // A reservation is overwritten only by a claim of a queued row.
  lemma ReservationStays(delay: nat, s: State, step: Step, id: JobId)
    requires Enabled(s, step) && id in s.table && s.table[id].status == Processing && (step.Enqueue? ==> step.job != id)
    requires step.Ack? || step.Retry? ==> WorkerOf(s, step.w).id != id
    ensures id in Apply(delay, s, step).table
    ensures var row := Apply(delay, s, step).table[id]; row.reservedBy == s.table[id].reservedBy && row.attempts == s.table[id].attempts
  {
  }

  lemma ClaimReserves(delay: nat, s: State, step: Step)
    requires Enabled(s, step) && ClaimHits(s, step)
    ensures var id := WorkerOf(s, step.w).id;
            id in Apply(delay, s, step).table && Apply(delay, s, step).table[id].reservedBy == Some(step.w)
            && Apply(delay, s, step).table[id].attempts > 0
            && forall w :: w in Apply(delay, s, step).workers && w == step.w && Holder(Apply(delay, s, step).workers[w]) ==>
                 Apply(delay, s, step).workers[w].id == id
  {
  }

  lemma KeepsTelling(delay: nat, s: State, step: Step)
    requires Inv(s) && RowsTell(s) && Enabled(s, step)
    ensures RowsTell(Apply(delay, s, step))
  {
    var t := Apply(delay, s, step);
    forall id | id in t.table && t.table[id].attempts == 0 ensures Untouched(t.table[id]) {
      UnclaimedFrom(delay, s, step, id);
    }
    forall w | w in t.workers && Holder(t.workers[w])
      ensures t.workers[w].id in t.table && t.table[t.workers[w].id].reservedBy == Some(w) && t.table[t.workers[w].id].attempts > 0
    {
      HolderFrom(delay, s, step, w);
      if ClaimHits(s, step) && step.w == w {
        ClaimReserves(delay, s, step);
      } else {
        if step.Ack? || step.Retry? {
          assert w != step.w;
          assert !Together(s.workers[w], s.workers[step.w]);
        }
        ReservationStays(delay, s, step, t.workers[w].id);
      }
    }
  }

  /** In every state of every run a row without claims is as it was inserted, and whoever holds a job is
      the worker its row names. */
  lemma {:induction false} RowsTellTheTruth(delay: nat, states: seq<State>, steps: seq<Step>, n: nat)
    requires IsRun(delay, states, steps) && n <= |steps|
    ensures RowsTell(states[n])
  {
    if n > 0 {
      RunStep(delay, states, steps, n - 1);
      RowsTellTheTruth(delay, states, steps, n - 1);
      RunKeepsInv(delay, states, steps, n - 1);
      KeepsTelling(delay, states[n - 1], steps[n - 1]);
    }
  }

  // ---------------------------------------------------------------- oldest first

  /** A worker picks a queued row that was due when it read the clock, and the oldest of those; of the
      rows that were never claimed it never passes over an older one. */
  lemma PicksOldest(delay: nat, states: seq<State>, steps: seq<Step>, i: nat, other: JobId)
    requires IsRun(delay, states, steps) && i < |steps| && steps[i].Select?
    ensures var s := states[i];
            var job, now := steps[i].job, WorkerOf(s, steps[i].w).now;
            && job in s.table && s.table[job].status == Queued && s.table[job].available <= now
            && (other in s.table && s.table[other].status == Queued && s.table[other].available <= now ==>
                  s.table[job].created <= s.table[other].created)
            && (other in s.table && s.table[other].attempts == 0 && s.table[job].attempts == 0 ==>
                  s.table[job].created <= s.table[other].created)
  {
    RunStep(delay, states, steps, i);
    RowsTellTheTruth(delay, states, steps, i);
    var s := states[i];
    if other in s.table && Eligible(s.table[other], WorkerOf(s, steps[i].w).now) {
      assert s.table[steps[i].job].created <= s.table[other].created;
    }
  }

  // The oldest of some rows.
  lemma {:induction false} Oldest(table: map<JobId, Row>, ids: set<JobId>) returns (id: JobId)
    requires ids <= table.Keys && ids != {}
    ensures id in ids && forall j :: j in ids ==> table[id].created <= table[j].created
    decreases |ids|
  {
    var one :| one in ids;
    var rest := ids - {one};
    id := one;
    if rest != {} {
      var oldest := Oldest(table, rest);
      id := if table[oldest].created < table[one].created then oldest else one;
      forall j | j in ids ensures table[id].created <= table[j].created {
        assert j == one || j in rest;
      }
    } else {
      assert ids == {one};
    }
  }

  /** A worker that looks finds a row exactly when one is queued and due at its reading of the clock. */
  lemma FindsDueRow(s: State, w: WorkerId)
    requires WorkerOf(s, w).Looking?
    ensures (exists job :: Enabled(s, Select(w, job))) <==>
            exists job :: job in s.table && s.table[job].status == Queued && s.table[job].available <= WorkerOf(s, w).now
  {
    var due := set job | job in s.table && Eligible(s.table[job], WorkerOf(s, w).now);
    if job :| job in s.table && s.table[job].status == Queued && s.table[job].available <= WorkerOf(s, w).now {
      assert job in due;
      var oldest := Oldest(s.table, due);
      OldestPicked(s, w, due, oldest);
    }
    if job :| Enabled(s, Select(w, job)) {
      assert job in s.table && Eligible(s.table[job], WorkerOf(s, w).now);
    }
  }

  lemma OldestPicked(s: State, w: WorkerId, due: set<JobId>, oldest: JobId)
    requires WorkerOf(s, w).Looking? && due == (set job | job in s.table && Eligible(s.table[job], WorkerOf(s, w).now))
    requires oldest in due && forall j :: j in due ==> s.table[oldest].created <= s.table[j].created
    ensures Enabled(s, Select(w, oldest))
  {
    forall j | j in s.table && Eligible(s.table[j], WorkerOf(s, w).now) ensures s.table[oldest].created <= s.table[j].created {
      assert j in due;
    }
  }

  // ---------------------------------------------------------------- the stamp of a claim

  // The clock when the worker last began to look in the first n steps.
  function LastLook(states: seq<State>, steps: seq<Step>, n: nat, w: WorkerId): Option<int>
    requires n <= |steps| && |states| == |steps| + 1
  {
    if n == 0 then None
    else if steps[n - 1] == Look(w) then Some(states[n - 1].clock)
    else LastLook(states, steps, n - 1, w)
  }

  lemma ReadingFrom(delay: nat, s: State, step: Step, w: WorkerId)
    requires Enabled(s, step)
    ensures var k := WorkerOf(Apply(delay, s, step), w);
            && (k.Looking? ==> if step == Look(w) then k.now == s.clock else WorkerOf(s, w) == k)
            && (k.Chosen? ==> step != Look(w) && (WorkerOf(s, w) == k || (WorkerOf(s, w).Looking? && WorkerOf(s, w).now == k.now)))
  {
  }

  lemma {:induction false} ReadingKept(delay: nat, states: seq<State>, steps: seq<Step>, n: nat, w: WorkerId)
    requires IsRun(delay, states, steps) && n <= |steps|
    ensures WorkerOf(states[n], w).Looking? || WorkerOf(states[n], w).Chosen? ==>
              LastLook(states, steps, n, w) == Some(WorkerOf(states[n], w).now)
  {
    if n > 0 {
      RunStep(delay, states, steps, n - 1);
      ReadingKept(delay, states, steps, n - 1, w);
      ReadingFrom(delay, states[n - 1], steps[n - 1], w);
    }
  }

  /** A claim that succeeds stamps the row with the worker, the moment it began to look and one more attempt. */
  lemma ClaimStamps(delay: nat, states: seq<State>, steps: seq<Step>, i: nat)
    requires IsRun(delay, states, steps) && i < |steps| && ClaimHits(states[i], steps[i])
    ensures var id := WorkerOf(states[i], steps[i].w).id;
            && id in states[i].table && id in states[i + 1].table
            && var row := states[i + 1].table[id];
               && row.status == Processing && row.reservedBy == Some(steps[i].w)
               && row.reservedAt == LastLook(states, steps, i, steps[i].w) && row.reservedAt.Some?
               && row.attempts == states[i].table[id].attempts + 1
  {
    RunStep(delay, states, steps, i);
    ReadingKept(delay, states, steps, i, steps[i].w);
  }

  // ---------------------------------------------------------------- what a worker goes on to do

  function ActorOf(step: Step): Option<WorkerId> {
    match step
    case Tick(_) => None
    case Enqueue(_, _, _) => None
    case _ => Some(step.w)
  }

  lemma {:induction false} StoppedStays(delay: nat, states: seq<State>, steps: seq<Step>, i: nat, j: nat, w: WorkerId)
    requires IsRun(delay, states, steps) && i <= j <= |steps| && WorkerOf(states[i], w).Stopped?
    ensures WorkerOf(states[j], w).Stopped?
    decreases j
  {
    if i < j {
      StoppedStays(delay, states, steps, i, j - 1, w);
      RunStep(delay, states, steps, j - 1);
    }
  }

  /** A worker that has crashed takes no further step. */
  lemma CrashedStops(delay: nat, states: seq<State>, steps: seq<Step>, i: nat, j: nat)
    requires IsRun(delay, states, steps) && i < j < |steps| && steps[i].Crash?
    ensures ActorOf(steps[j]) != Some(steps[i].w)
  {
    RunStep(delay, states, steps, i);
    RunStep(delay, states, steps, j);
    StoppedStays(delay, states, steps, i + 1, j, steps[i].w);
  }

  /** A handler starts only on a claim that took effect and was answered. */
  lemma HandlesAnswered(delay: nat, states: seq<State>, steps: seq<Step>, i: nat, w: WorkerId)
    requires IsRun(delay, states, steps) && i < |steps|
    requires WorkerOf(states[i + 1], w).Handling? && WorkerOf(states[i], w) != WorkerOf(states[i + 1], w)
    ensures steps[i] == Claim(w, Answered) && ClaimHits(states[i], steps[i])
    ensures WorkerOf(states[i], w).id == WorkerOf(states[i + 1], w).id
  {
    RunStep(delay, states, steps, i);
  }

  lemma {:induction false} DeletedStays(delay: nat, states: seq<State>, steps: seq<Step>, i: nat, j: nat, id: JobId)
    requires IsRun(delay, states, steps) && i <= j <= |steps| && id in states[i].deleted
    ensures id in states[j].deleted && id !in states[j].table
    decreases j
  {
    RunKeepsInv(delay, states, steps, j);
    if i < j {
      DeletedStays(delay, states, steps, i, j - 1, id);
      RunKeepsInv(delay, states, steps, j - 1);
      RunStep(delay, states, steps, j - 1);
      JobsFrom(delay, states[j - 1], steps[j - 1]);
    }
  }

  /** An acknowledgement that takes effect removes the row for good. */
  lemma AckRemoves(delay: nat, states: seq<State>, steps: seq<Step>, i: nat, j: nat)
    requires IsRun(delay, states, steps) && i < j <= |steps| && steps[i].Ack? && !steps[i].write.NotApplied?
    requires WorkerOf(states[i], steps[i].w).Succeeded?
    ensures WorkerOf(states[i], steps[i].w).id in states[i].table && WorkerOf(states[i], steps[i].w).id !in states[j].table
  {
    RunKeepsInv(delay, states, steps, i);
    RunStep(delay, states, steps, i);
    JobsFrom(delay, states[i], steps[i]);
    DeletedStays(delay, states, steps, i + 1, j, WorkerOf(states[i], steps[i].w).id);
  }

  ghost predicate Unheld(s: State, id: JobId) {
    forall w :: w in s.workers && Holder(s.workers[w]) ==> s.workers[w].id != id
  }

  /** A row that is put back is queued again, keeps its attempts, and nobody holds it. */
  lemma PutBackRequeues(delay: nat, states: seq<State>, steps: seq<Step>, i: nat, id: JobId)
    requires IsRun(delay, states, steps) && i < |steps| && PutsBack(states[i], steps[i], id)
    ensures id in states[i].table && id in states[i + 1].table
    ensures states[i + 1].table[id].status == Queued && states[i + 1].table[id].attempts == states[i].table[id].attempts > 0
    ensures Unheld(states[i + 1], id)
  {
    RunKeepsInv(delay, states, steps, i);
    RunKeepsInv(delay, states, steps, i + 1);
    RowsTellTheTruth(delay, states, steps, i);
    RunStep(delay, states, steps, i);
    assert steps[i].w in states[i].workers && Holder(states[i].workers[steps[i].w]);
  }
}
