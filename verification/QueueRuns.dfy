/** What holds in every run of the SQL-backed queue of jobs/distributed.go, and runs that show what
    does not. */
module QueueRuns {
  import opened Strings
  import opened Base64
  import opened DistributedQueue

  // ---------------------------------------------------------------- runs

  ghost predicate IsRun(delay: nat, states: seq<State>, steps: seq<Step>) {
    && |states| == |steps| + 1 && states[0] == INIT
    && forall i {:trigger steps[i]} :: 0 <= i < |steps| ==>
         Enabled(states[i], steps[i]) && states[i + 1] == Apply(delay, states[i], steps[i])
  }

  lemma RunStep(delay: nat, states: seq<State>, steps: seq<Step>, i: nat)
    requires IsRun(delay, states, steps) && i < |steps|
    ensures Enabled(states[i], steps[i]) && states[i + 1] == Apply(delay, states[i], steps[i])
  {
  }

  lemma {:induction false} RunKeepsInv(delay: nat, states: seq<State>, steps: seq<Step>, i: nat)
    requires IsRun(delay, states, steps) && i < |states|
    ensures Inv(states[i])
  {
    if i > 0 {
      RunKeepsInv(delay, states, steps, i - 1);
      StepKeepsInv(delay, states[i - 1], steps[i - 1]);
    }
  }

  // The job a worker's step is about.
  function JobOf(s: State, w: WorkerId): Option<JobId> {
    match WorkerOf(s, w)
    case Idle => None
    case Looking(_) => None
    case Stopped => None
    case k => Some(k.id)
  }

  function ClaimsOf(states: seq<State>, steps: seq<Step>, id: JobId): nat
    requires |states| == |steps| + 1
  {
    if steps == [] then 0
    else
      var n := |steps| - 1;
      ClaimsOf(states[..n + 1], steps[..n], id) +
      if ClaimHits(states[n], steps[n]) && JobOf(states[n], steps[n].w) == Some(id) then 1 else 0
  }

  lemma {:induction false} ClaimsAreCounted(delay: nat, states: seq<State>, steps: seq<Step>, id: JobId)
    requires IsRun(delay, states, steps)
    ensures states[|steps|].claims[id] == ClaimsOf(states, steps, id)
  {
    if steps != [] {
      var n := |steps| - 1;
      assert states[n + 1] == Apply(delay, states[n], steps[n]);
      ClaimsAreCounted(delay, states[..n + 1], steps[..n], id);
    }
  }

  /** In every state of every run: at most one worker holds a job; every enqueued job is in the
      table or was deleted after exactly one success; `attempts` is the number of successful
      claims so far; and what a handler receives is what was enqueued. */
  lemma QueueIsSafe(delay: nat, states: seq<State>, steps: seq<Step>)
    requires IsRun(delay, states, steps)
    ensures var s := states[|steps|];
            && (forall v, w, id :: HeldBy(s, v, id) && HeldBy(s, w, id) ==> v == w)
            && (forall id :: id in s.enqueued ==> (id in s.table <==> id !in s.deleted))
            && (forall id :: id in s.deleted ==> id in s.enqueued && s.successes[id] == 1)
            && (forall id :: id in s.table ==> s.table[id].attempts == ClaimsOf(states, steps, id))
            && (forall w :: WorkerOf(s, w).Handling? ==>
                  WorkerOf(s, w).id in s.enqueued && WorkerOf(s, w).msg == s.enqueued[WorkerOf(s, w).id])
  {
    var s := states[|steps|];
    RunKeepsInv(delay, states, steps, |steps|);
    forall id | id in s.table ensures s.table[id].attempts == ClaimsOf(states, steps, id) {
      ClaimsAreCounted(delay, states, steps, id);
    }
    forall v, w, id | HeldBy(s, v, id) && HeldBy(s, w, id) ensures v == w {
      assert Together(s.workers[v], s.workers[w]);
    }
  }

  lemma {:induction false} SuccessStep(delay: nat, states: seq<State>, steps: seq<Step>, j: nat, id: JobId)
    requires IsRun(delay, states, steps) && j < |steps|
    ensures states[j].successes[id] <= states[j + 1].successes[id]
  {
    assert Enabled(states[j], steps[j]) && states[j + 1] == Apply(delay, states[j], steps[j]);
    OnlySuccessCounts(delay, states[j], steps[j]);
  }

  lemma {:induction false} SuccessesGrow(delay: nat, states: seq<State>, steps: seq<Step>, i: nat, j: nat, id: JobId)
    requires IsRun(delay, states, steps) && i <= j < |states|
    ensures states[i].successes[id] <= states[j].successes[id]
    decreases j
  {
    if i < j {
      SuccessesGrow(delay, states, steps, i, j - 1, id);
      SuccessStep(delay, states, steps, j - 1, id);
    }
  }

  /** No job's handler returns success twice, in any interleaving, with any crashes and lost writes. */
  lemma SucceedsAtMostOnce(delay: nat, states: seq<State>, steps: seq<Step>, i: nat, j: nat)
    requires IsRun(delay, states, steps) && i < j < |steps|
    requires steps[i].HandlerOk? && steps[j].HandlerOk?
    ensures JobOf(states[i], steps[i].w) != JobOf(states[j], steps[j].w)
  {
    RunKeepsInv(delay, states, steps, j);
    assert Enabled(states[i], steps[i]) && Enabled(states[j], steps[j]);
    var id := WorkerOf(states[i], steps[i].w).id;
    assert states[i + 1] == Apply(delay, states[i], steps[i]);
    SuccessesGrow(delay, states, steps, i + 1, j, id);
    assert states[j].successes[id] >= 1;
    assert states[j].successes[WorkerOf(states[j], steps[j].w).id] == 0;
  }

  /** A row leaves the table only through the acknowledgement of a worker whose handler succeeded on it. */
  lemma LeavesOnlyByAck(delay: nat, states: seq<State>, steps: seq<Step>, i: nat, id: JobId)
    requires IsRun(delay, states, steps) && i < |steps|
    requires id in states[i].table && id !in states[i + 1].table
    ensures steps[i].Ack? && WorkerOf(states[i], steps[i].w) == Succeeded(id) && states[i].successes[id] == 1
  {
    RunKeepsInv(delay, states, steps, i);
    assert Enabled(states[i], steps[i]) && states[i + 1] == Apply(delay, states[i], steps[i]);
  }

  // A processing row that no live worker holds.
  ghost predicate Orphaned(s: State, id: JobId) {
    && id in s.table && s.table[id].status == Processing
    && forall w :: w in s.workers && Holder(s.workers[w]) ==> s.workers[w].id != id
  }

  lemma OrphanStays(delay: nat, s: State, step: Step, id: JobId)
    requires s.table.Keys <= s.enqueued.Keys && Enabled(s, step) && Orphaned(s, id)
    ensures Orphaned(Apply(delay, s, step), id) && Apply(delay, s, step).table[id] == s.table[id]
  {
  }

  /** After a crash or a lost write has left a `processing` row without a holder, that row is
      never claimed, released or deleted again. */
  lemma {:induction false} OrphanedForever(delay: nat, states: seq<State>, steps: seq<Step>, i: nat, j: nat, id: JobId)
    requires IsRun(delay, states, steps) && i <= j < |states|
    requires Orphaned(states[i], id)
    ensures Orphaned(states[j], id) && states[j].table[id] == states[i].table[id]
    decreases j
  {
    if i < j {
      OrphanedForever(delay, states, steps, i, j - 1, id);
      RunKeepsInv(delay, states, steps, j - 1);
      OrphanStays(delay, states[j - 1], steps[j - 1], id);
      assert states[j] == Apply(delay, states[j - 1], steps[j - 1]);
    }
  }

  // ---------------------------------------------------------------- the retry delay

  ghost predicate MonotoneClock(states: seq<State>) {
    forall i, j :: 0 <= i < j < |states| ==> states[i].clock <= states[j].clock
  }

  // A queued job that has failed is due no earlier than its last failure plus the delay.
  ghost predicate DelaysKept(delay: nat, s: State) {
    forall id :: id in s.failedAt && id in s.table && s.table[id].status == Queued ==>
      s.table[id].available >= s.failedAt[id] + delay
  }

  // A worker whose handler failed remembers when, and the readings of its clock follow one another.
  ghost predicate FailuresDated(s: State) {
    forall w :: w in s.workers ==>
      var k := s.workers[w];
      && (k.Failed? ==> k.id in s.failedAt && s.failedAt[k.id] == k.since <= s.clock)
      && (k.Requeueing? ==> k.id in s.failedAt && s.failedAt[k.id] == k.since <= k.at <= s.clock)
      && (k.Chosen? || k.Looking? ==> k.now <= s.clock)
  }

  lemma FailureDatesKept(delay: nat, s: State, step: Step, w: WorkerId)
    requires HoldersDistinct(s) && FailuresDated(s) && Enabled(s, step) && s.clock <= Apply(delay, s, step).clock
    requires w in Apply(delay, s, step).workers && w in s.workers && Apply(delay, s, step).workers[w] == s.workers[w]
    ensures var k, t := s.workers[w], Apply(delay, s, step);
            k.Failed? || k.Requeueing? ==> k.id in t.failedAt && t.failedAt[k.id] == k.since
  {
    if (s.workers[w].Failed? || s.workers[w].Requeueing?) && step.HandlerErr? {
      assert !Together(s.workers[w], s.workers[step.w]);
    }
  }

  // A worker that the step leaves alone or moves keeps or gets proper dates.
  lemma DatesOf(delay: nat, s: State, step: Step, w: WorkerId)
    requires FailuresDated(s) && Enabled(s, step) && s.clock <= Apply(delay, s, step).clock
    requires w in Apply(delay, s, step).workers && (w in s.workers ==> Apply(delay, s, step).workers[w] != s.workers[w])
    ensures var k, t := Apply(delay, s, step).workers[w], Apply(delay, s, step);
            && (k.Failed? ==> k.id in t.failedAt && t.failedAt[k.id] == k.since <= t.clock)
            && (k.Requeueing? ==> k.id in t.failedAt && t.failedAt[k.id] == k.since <= k.at <= t.clock)
            && (k.Chosen? || k.Looking? ==> k.now <= t.clock)
  {
  }

  lemma KeepsDates(delay: nat, s: State, step: Step)
    requires HoldersDistinct(s) && FailuresDated(s) && Enabled(s, step) && s.clock <= Apply(delay, s, step).clock
    ensures FailuresDated(Apply(delay, s, step))
  {
    var t := Apply(delay, s, step);
    forall w | w in t.workers
      ensures var k := t.workers[w];
              && (k.Failed? ==> k.id in t.failedAt && t.failedAt[k.id] == k.since <= t.clock)
              && (k.Requeueing? ==> k.id in t.failedAt && t.failedAt[k.id] == k.since <= k.at <= t.clock)
              && (k.Chosen? || k.Looking? ==> k.now <= t.clock)
    {
      if w in s.workers && t.workers[w] == s.workers[w] {
        FailureDatesKept(delay, s, step, w);
      } else {
        DatesOf(delay, s, step, w);
      }
    }
  }

  // A failure is recorded while its job is reserved, so a queued job keeps its date.
  lemma DateFrom(delay: nat, s: State, step: Step, id: JobId)
    requires Enabled(s, step)
    ensures if step.HandlerErr? && WorkerOf(s, step.w).id == id then id in Apply(delay, s, step).failedAt
            else (id in Apply(delay, s, step).failedAt <==> id in s.failedAt)
                 && (id in s.failedAt ==> Apply(delay, s, step).failedAt[id] == s.failedAt[id])
  {
  }

  lemma QueuedStays(delay: nat, s: State, step: Step, id: JobId)
    requires Enabled(s, step) && id in s.table && s.table[id].status == Queued && !Requeues(s, step, id)
    requires step.Enqueue? ==> step.job != id
    requires id in Apply(delay, s, step).table
    ensures Apply(delay, s, step).table[id].available == s.table[id].available
  {
  }

  lemma QueuedKeepsDate(delay: nat, s: State, step: Step, id: JobId)
    requires RowsFaithful(s) && HoldersReserved(s) && IdsKnown(s) && Enabled(s, step)
    requires id in Apply(delay, s, step).table && Apply(delay, s, step).table[id].status == Queued
    requires !Requeues(s, step, id)
    ensures id in Apply(delay, s, step).failedAt <==> id in s.failedAt
    ensures id in s.failedAt ==>
              && Apply(delay, s, step).failedAt[id] == s.failedAt[id]
              && id in s.table && s.table[id].status == Queued && Apply(delay, s, step).table[id].available == s.table[id].available
  {
    RequeuedOrQueued(delay, s, step, id);
    DateFrom(delay, s, step, id);
    if id in s.table {
      QueuedStays(delay, s, step, id);
    }
  }

  // Unless requeued, a queued row was queued before, or is new.
  lemma RequeuedOrQueued(delay: nat, s: State, step: Step, id: JobId)
    requires HoldersReserved(s) && Enabled(s, step) && !Requeues(s, step, id)
    requires id in Apply(delay, s, step).table && Apply(delay, s, step).table[id].status == Queued
    ensures if step.Enqueue? && step.job == id then id !in s.enqueued else id in s.table && s.table[id].status == Queued
    ensures step.HandlerErr? ==> WorkerOf(s, step.w).id != id
  {
    QueuedFrom(delay, s, step, id);
  }

  lemma KeepsDelays(delay: nat, s: State, step: Step)
    requires RowsFaithful(s) && HoldersReserved(s) && IdsKnown(s) && DelaysKept(delay, s) && FailuresDated(s) && Enabled(s, step)
    ensures DelaysKept(delay, Apply(delay, s, step))
  {
    var t := Apply(delay, s, step);
    forall id | id in t.failedAt && id in t.table && t.table[id].status == Queued
      ensures t.table[id].available >= t.failedAt[id] + delay
    {
      if !Requeues(s, step, id) {
        QueuedKeepsDate(delay, s, step, id);
      }
    }
  }

  lemma {:induction false} RunKeepsDelays(delay: nat, states: seq<State>, steps: seq<Step>, i: nat)
    requires IsRun(delay, states, steps) && MonotoneClock(states) && i < |states|
    ensures DelaysKept(delay, states[i]) && FailuresDated(states[i])
  {
    if i > 0 {
      RunKeepsDelays(delay, states, steps, i - 1);
      RunKeepsInv(delay, states, steps, i - 1);
      RunStep(delay, states, steps, i - 1);
      KeepsDelays(delay, states[i - 1], steps[i - 1]);
      KeepsDates(delay, states[i - 1], steps[i - 1]);
    }
  }

  // The step writes a new `available` time for the job.
  predicate Requeues(s: State, step: Step, id: JobId) {
    step.Retry? && !step.write.NotApplied? && JobOf(s, step.w) == Some(id)
  }

  // The worker takes no other step between its SELECT at step i and its claim at step j.
  ghost predicate Follows(steps: seq<Step>, i: nat, j: nat)
    requires i < j < |steps|
  {
    && steps[i].Select? && steps[j].Claim? && steps[i].w == steps[j].w
    && forall k {:trigger steps[k]} :: i < k < j ==> steps[k].Tick? || steps[k].Enqueue? || steps[k].w != steps[i].w
  }

  // Nobody requeues the job at a step from i + 1 to j - 1.
  ghost predicate Undisturbed(states: seq<State>, steps: seq<Step>, i: int, j: nat, id: JobId)
    requires |states| == |steps| + 1 && -1 <= i && j <= |steps|
  {
    forall k {:trigger steps[k]} :: i < k < j ==> !Requeues(states[k], steps[k], id)
  }

  // The worker has chosen the job at time `at`.
  ghost predicate HasChosen(s: State, w: WorkerId, id: JobId, at: int) {
    WorkerOf(s, w).Chosen? && WorkerOf(s, w).id == id && WorkerOf(s, w).now == at && id in s.enqueued
  }

  // If the row is still there it was due at time `at`.
  ghost predicate Due(s: State, id: JobId, at: int) {
    id in s.enqueued && (id in s.table ==> s.table[id].available <= at)
  }

  lemma ChoiceStays(delay: nat, s: State, step: Step, w: WorkerId, id: JobId, at: int)
    requires Enabled(s, step) && HasChosen(s, w, id, at) && (step.Tick? || step.Enqueue? || step.w != w)
    ensures HasChosen(Apply(delay, s, step), w, id, at)
  {
  }

  lemma DueStays(delay: nat, s: State, step: Step, id: JobId, at: int)
    requires Enabled(s, step) && Due(s, id, at) && !Requeues(s, step, id)
    ensures Due(Apply(delay, s, step), id, at)
  {
  }

  lemma SelectIsDue(delay: nat, s: State, step: Step)
    requires RowsFaithful(s) && Enabled(s, step) && step.Select?
    ensures HasChosen(Apply(delay, s, step), step.w, step.job, WorkerOf(s, step.w).now)
    ensures Due(Apply(delay, s, step), step.job, WorkerOf(s, step.w).now)
  {
  }

  lemma {:induction false} SelectStep(delay: nat, states: seq<State>, steps: seq<Step>, i: nat)
    requires IsRun(delay, states, steps) && i < |steps| && steps[i].Select?
    ensures HasChosen(states[i + 1], steps[i].w, steps[i].job, WorkerOf(states[i], steps[i].w).now)
    ensures Due(states[i + 1], steps[i].job, WorkerOf(states[i], steps[i].w).now)
  {
    RunStep(delay, states, steps, i);
    RunKeepsInv(delay, states, steps, i);
    SelectIsDue(delay, states[i], steps[i]);
  }

  lemma {:induction false} StillChosen(delay: nat, states: seq<State>, steps: seq<Step>, i: nat, j: nat, k: nat)
    requires IsRun(delay, states, steps) && i < k <= j < |steps| && Follows(steps, i, j)
    ensures HasChosen(states[k], steps[i].w, steps[i].job, WorkerOf(states[i], steps[i].w).now)
    decreases k
  {
    if i + 1 < k {
      StillChosen(delay, states, steps, i, j, k - 1);
      RunStep(delay, states, steps, k - 1);
      ChoiceStays(delay, states[k - 1], steps[k - 1], steps[i].w, steps[i].job, WorkerOf(states[i], steps[i].w).now);
    } else {
      SelectStep(delay, states, steps, i);
    }
  }

  lemma {:induction false} StillDue(delay: nat, states: seq<State>, steps: seq<Step>, i: nat, j: nat)
    requires IsRun(delay, states, steps) && i < j <= |steps| && steps[i].Select? && Undisturbed(states, steps, i, j, steps[i].job)
    ensures Due(states[j], steps[i].job, WorkerOf(states[i], steps[i].w).now)
    decreases j
  {
    if i + 1 < j {
      StillDue(delay, states, steps, i, j - 1);
      RunStep(delay, states, steps, j - 1);
      assert !Requeues(states[j - 1], steps[j - 1], steps[i].job);
      DueStays(delay, states[j - 1], steps[j - 1], steps[i].job, WorkerOf(states[i], steps[i].w).now);
    } else {
      SelectStep(delay, states, steps, i);
    }
  }

  // The job's last handler failure is less than the retry delay ago.
  predicate Early(delay: nat, s: State, id: JobId) {
    id in s.failedAt && s.clock < s.failedAt[id] + delay
  }

  /** With a clock that never goes back, a claim whose SELECT was not overtaken by a requeue of the
      same job happens no earlier than the handler's last failure plus the retry delay. */
  lemma {:induction false} ClaimRespectsDelay(delay: nat, states: seq<State>, steps: seq<Step>, i: nat, j: nat)
    requires IsRun(delay, states, steps) && MonotoneClock(states) && i < j < |steps| && Follows(steps, i, j)
    requires ClaimHits(states[j], steps[j]) && Undisturbed(states, steps, i, j, steps[i].job)
    ensures JobOf(states[j], steps[j].w) == Some(steps[i].job) && !Early(delay, states[j], steps[i].job)
  {
    StillChosen(delay, states, steps, i, j, j);
    StillDue(delay, states, steps, i, j);
    RunKeepsDelays(delay, states, steps, j);
  }

  // While a requeued job stays queued, its last failure is the one it was requeued for.
  ghost predicate QueuedSince(s: State, id: JobId, since: int) {
    id in s.enqueued && (id in s.table && s.table[id].status == Queued ==> id in s.failedAt && s.failedAt[id] == since)
  }

  lemma SinceStays(delay: nat, s: State, step: Step, id: JobId, since: int)
    requires RowsFaithful(s) && HoldersReserved(s) && IdsKnown(s) && Enabled(s, step)
    requires QueuedSince(s, id, since) && !Requeues(s, step, id)
    ensures QueuedSince(Apply(delay, s, step), id, since)
  {
    var t := Apply(delay, s, step);
    if id in t.table && t.table[id].status == Queued {
      QueuedFrom(delay, s, step, id);
      QueuedKeepsDate(delay, s, step, id);
    }
  }

  lemma RequeueDates(delay: nat, s: State, step: Step, id: JobId)
    requires RowsFaithful(s) && HoldersReserved(s) && FailuresDated(s) && Enabled(s, step) && Requeues(s, step, id)
    ensures WorkerOf(s, step.w).Requeueing? && QueuedSince(Apply(delay, s, step), id, WorkerOf(s, step.w).since)
  {
  }

  lemma {:induction false} SinceRequeue(delay: nat, states: seq<State>, steps: seq<Step>, k: nat, j: nat, id: JobId)
    requires IsRun(delay, states, steps) && MonotoneClock(states) && k < j <= |steps|
    requires Requeues(states[k], steps[k], id) && Undisturbed(states, steps, k, j, id)
    ensures WorkerOf(states[k], steps[k].w).Requeueing?
    ensures QueuedSince(states[j], id, WorkerOf(states[k], steps[k].w).since)
    decreases j
  {
    RunStep(delay, states, steps, j - 1);
    RunKeepsInv(delay, states, steps, j - 1);
    if k + 1 < j {
      SinceRequeue(delay, states, steps, k, j - 1, id);
      assert !Requeues(states[j - 1], steps[j - 1], id);
      SinceStays(delay, states[j - 1], steps[j - 1], id, WorkerOf(states[k], steps[k].w).since);
    } else {
      RunKeepsDelays(delay, states, steps, k);
      RequeueDates(delay, states[k], steps[k], id);
    }
  }

  // Step k is the last requeue of the job before step j, for a failure less than the delay ago at step j.
  ghost predicate RecentRequeue(delay: nat, states: seq<State>, steps: seq<Step>, k: nat, j: nat, id: JobId)
    requires |states| == |steps| + 1 && j <= |steps|
  {
    && k < j && Requeues(states[k], steps[k], id) && Undisturbed(states, steps, k, j, id)
    && WorkerOf(states[k], steps[k].w).Requeueing?
    && states[j].clock < WorkerOf(states[k], steps[k].w).since + delay
  }

  lemma {:induction false} LastRequeue(states: seq<State>, steps: seq<Step>, i: nat, j: nat, id: JobId) returns (k: nat)
    requires |states| == |steps| + 1 && i <= j <= |steps| && !Undisturbed(states, steps, i, j, id)
    ensures i < k < j && Requeues(states[k], steps[k], id) && Undisturbed(states, steps, k, j, id)
    decreases j
  {
    if Requeues(states[j - 1], steps[j - 1], id) {
      k := j - 1;
    } else {
      k := LastRequeue(states, steps, i, j - 1, id);
    }
  }

  /** With a clock that never goes back, a claim comes too early exactly when, between its SELECT and
      itself, the job was last requeued for a failure less than the retry delay ago. */
  lemma {:induction false} EarlyExactlyAfterRequeue(delay: nat, states: seq<State>, steps: seq<Step>, i: nat, j: nat)
    requires IsRun(delay, states, steps) && MonotoneClock(states) && i < j < |steps| && Follows(steps, i, j)
    requires ClaimHits(states[j], steps[j])
    ensures JobOf(states[j], steps[j].w) == Some(steps[i].job)
    ensures Early(delay, states[j], steps[i].job) <==>
            exists k: nat :: i < k && RecentRequeue(delay, states, steps, k, j, steps[i].job)
  {
    var id := steps[i].job;
    StillChosen(delay, states, steps, i, j, j);
    if Undisturbed(states, steps, i, j, id) {
      ClaimRespectsDelay(delay, states, steps, i, j);
    } else {
      var k := LastRequeue(states, steps, i, j, id);
      SinceRequeue(delay, states, steps, k, j, id);
      assert Early(delay, states[j], id) ==> RecentRequeue(delay, states, steps, k, j, id);
    }
    forall k: nat | i < k && RecentRequeue(delay, states, steps, k, j, id) ensures Early(delay, states[j], id) {
      SinceRequeue(delay, states, steps, k, j, id);
    }
  }

  // ---------------------------------------------------------------- a run that claims early

  ghost predicate AllAtZero(states: seq<State>) {
    forall i :: 0 <= i < |states| ==> states[i].clock == 0
  }

  lemma Extend(delay: nat, states: seq<State>, steps: seq<Step>, step: Step) returns (states': seq<State>, steps': seq<Step>)
    requires IsRun(delay, states, steps) && AllAtZero(states)
    requires Enabled(states[|steps|], step) && Apply(delay, states[|steps|], step).clock == 0
    ensures steps' == steps + [step] && states' == states + [Apply(delay, states[|steps|], step)]
    ensures states'[|steps'|] == Apply(delay, states[|steps|], step)
    ensures IsRun(delay, states', steps') && AllAtZero(states')
  {
    states', steps' := states + [Apply(delay, states[|steps|], step)], steps + [step];
  }

  function Fresh(msg: Message): Row {
    Row(msg.name, Encode(msg.payload), Queued, 0, 0, None, None, 0)
  }

  // The job is queued and workers 0 and 1 have read the clock.
  lemma BothLook(delay: nat, job: JobId, msg: Message) returns (states: seq<State>, steps: seq<Step>)
    ensures IsRun(delay, states, steps) && AllAtZero(states) && |steps| == 3
    ensures states[3].table == map[job := Fresh(msg)]
    ensures WorkerOf(states[3], 0) == WorkerOf(states[3], 1) == Looking(0)
  {
    states, steps := Extend(delay, [INIT], [], Enqueue(job, msg, 0));
    assert states[1].table == map[job := Fresh(msg)];
    states, steps := Extend(delay, states, steps, Look(0));
    states, steps := Extend(delay, states, steps, Look(1));
  }

  // Both have selected it.
  lemma BothChose(delay: nat, job: JobId, msg: Message) returns (states: seq<State>, steps: seq<Step>)
    ensures IsRun(delay, states, steps) && AllAtZero(states) && |steps| == 5
    ensures steps[3..] == [Select(0, job), Select(1, job)]
    ensures job in states[5].table && states[5].table[job].status == Queued
    ensures WorkerOf(states[5], 0) == WorkerOf(states[5], 1) == Chosen(job, msg.name, Encode(msg.payload), 0)
  {
    states, steps := BothLook(delay, job, msg);
    states, steps := Extend(delay, states, steps, Select(0, job));
    states, steps := Extend(delay, states, steps, Select(1, job));
  }

  lemma ClaimedBy(delay: nat, s: State, w: WorkerId, other: WorkerId, job: JobId, msg: Message)
    requires WorkerOf(s, w) == Chosen(job, msg.name, Encode(msg.payload), 0) && w != other
    requires job in s.table && s.table[job].status == Queued
    ensures var t := Apply(delay, s, Claim(w, Answered));
            && job in t.table && WorkerOf(t, w) == Handling(job, msg) && WorkerOf(t, other) == WorkerOf(s, other)
            && t.clock == s.clock
  {
    RoundTrip(msg.payload);
  }

  // Worker 1 has claimed it; worker 0 still believes it is queued.
  lemma OneClaimed(delay: nat, job: JobId, msg: Message) returns (states: seq<State>, steps: seq<Step>)
    ensures IsRun(delay, states, steps) && AllAtZero(states) && |steps| == 6
    ensures steps[3..] == [Select(0, job), Select(1, job), Claim(1, Answered)]
    ensures job in states[6].table && WorkerOf(states[6], 1) == Handling(job, msg)
    ensures WorkerOf(states[6], 0) == Chosen(job, msg.name, Encode(msg.payload), 0)
  {
    states, steps := BothChose(delay, job, msg);
    ClaimedBy(delay, states[5], 1, 0, job, msg);
    states, steps := Extend(delay, states, steps, Claim(1, Answered));
  }

  // Its handler has failed and it is about to put the job back.
  lemma OneFailed(delay: nat, job: JobId, msg: Message) returns (states: seq<State>, steps: seq<Step>)
    ensures IsRun(delay, states, steps) && AllAtZero(states) && |steps| == 8
    ensures steps[3..] == [Select(0, job), Select(1, job), Claim(1, Answered), HandlerErr(1), ReadClock(1)]
    ensures job in states[8].table && job in states[8].failedAt && states[8].failedAt[job] == 0
    ensures WorkerOf(states[8], 1) == Requeueing(job, 0, 0)
    ensures WorkerOf(states[8], 0) == Chosen(job, msg.name, Encode(msg.payload), 0)
  {
    states, steps := OneClaimed(delay, job, msg);
    states, steps := Extend(delay, states, steps, HandlerErr(1));
    assert WorkerOf(states[7], 1) == Failed(job, 0);
    states, steps := Extend(delay, states, steps, ReadClock(1));
  }

  // It has put the job back.
  lemma OneRequeued(delay: nat, job: JobId, msg: Message) returns (states: seq<State>, steps: seq<Step>)
    ensures IsRun(delay, states, steps) && AllAtZero(states) && |steps| == 9
    ensures steps[3..] == [Select(0, job), Select(1, job), Claim(1, Answered), HandlerErr(1), ReadClock(1), Retry(1, Answered)]
    ensures job in states[9].table && states[9].table[job].status == Queued && job in states[9].failedAt && states[9].failedAt[job] == 0
    ensures WorkerOf(states[9], 0) == Chosen(job, msg.name, Encode(msg.payload), 0)
  {
    states, steps := OneFailed(delay, job, msg);
    states, steps := Extend(delay, states, steps, Retry(1, Answered));
  }

  /** A stale SELECT breaks the delay: worker 0 selects the job, worker 1 claims it, fails and
      requeues it, and worker 0's claim then succeeds at once. */
  lemma StaleSelectClaimsEarly(delay: nat, job: JobId, msg: Message) returns (states: seq<State>, steps: seq<Step>)
    requires delay > 0
    ensures IsRun(delay, states, steps) && MonotoneClock(states) && |steps| == 10 && Follows(steps, 3, 9)
    ensures ClaimHits(states[9], steps[9]) && JobOf(states[9], steps[9].w) == Some(job) && Early(delay, states[9], job)
  {
    states, steps := OneRequeued(delay, job, msg);
    assert ClaimHits(states[9], Claim(0, Answered));
    ghost var last := steps[3..];
    states, steps := Extend(delay, states, steps, Claim(0, Answered));
    forall k | 3 < k < 9 ensures steps[k].w == 1 {
      assert steps[k] == last[k - 3];
    }
    assert steps[3] == last[0];
  }
}
