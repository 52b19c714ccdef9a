/** The SQL-backed queue of jobs/distributed.go: any number of workers interleave single SQL
    statements on one shared table, may crash anywhere, and may lose the answer to any write. */
module DistributedQueue {
  import opened Strings
  import opened Base64

  type JobId = string
  type WorkerId = nat

  datatype Message = Message(name: string, payload: seq<Byte>)

  datatype Status = Queued | Processing

  datatype Row = Row(name: string, payload64: string, status: Status, attempts: nat, available: int,
                     reservedBy: Option<WorkerId>, reservedAt: Option<int>, created: int)

  // Where a worker is between two statements of RunWorker.
  // `now`, `since` and `at` are readings of the clock: before the SELECT, when the handler failed,
  // and before the UPDATE that puts the job back.
  datatype Worker =
    | Idle
    | Looking(now: int)
    | Chosen(id: JobId, name: string, payload64: string, now: int)
    | Handling(id: JobId, msg: Message)
    | Succeeded(id: JobId)
    | Failed(id: JobId, since: int)
    | Requeueing(id: JobId, since: int, at: int)
    | Stopped

  // The last five fields record history; no step looks at them except to keep ids fresh.
  datatype State = State(
    table: map<JobId, Row>,
    workers: map<WorkerId, Worker>,
    clock: int,
    enqueued: map<JobId, Message>,
    claims: multiset<JobId>,
    successes: multiset<JobId>,
    deleted: set<JobId>,
    failedAt: map<JobId, int>)

  const INIT := State(map[], map[], 0, map[], multiset{}, multiset{}, {}, map[])

  function WorkerOf(s: State, w: WorkerId): Worker {
    if w in s.workers then s.workers[w] else Idle
  }

  // How a write ends: applied and answered, never applied, or applied with the answer lost.
  datatype Write = Answered | NotApplied | AnswerLost

  datatype Step =
    | Tick(to: int)
    | Enqueue(job: JobId, msg: Message, at: int)
    | Look(w: WorkerId)
    | Select(w: WorkerId, job: JobId)
    | NothingDue(w: WorkerId)
    | Claim(w: WorkerId, write: Write)
    | HandlerOk(w: WorkerId)
    | HandlerErr(w: WorkerId)
    | Ack(w: WorkerId, write: Write)
    | ReadClock(w: WorkerId)
    | Retry(w: WorkerId, write: Write)
    | Crash(w: WorkerId)

  predicate Eligible(row: Row, now: int) {
    row.status == Queued && row.available <= now
  }

  // An enqueuer reads the clock before its INSERT runs, so `at` may be any time.  A SELECT that
  // fails is one that finds nothing.
  predicate Enabled(s: State, step: Step) {
    match step
    case Tick(to) => true
    case Enqueue(job, _, _) => job !in s.enqueued
    case Look(w) => WorkerOf(s, w).Idle?
    case Select(w, job) =>
      && WorkerOf(s, w).Looking?
      && job in s.table && Eligible(s.table[job], WorkerOf(s, w).now)
      && (forall j :: j in s.table && Eligible(s.table[j], WorkerOf(s, w).now) ==> s.table[job].created <= s.table[j].created)
    case NothingDue(w) => WorkerOf(s, w).Looking?
    case Claim(w, _) => WorkerOf(s, w).Chosen?
    case HandlerOk(w) => WorkerOf(s, w).Handling?
    case HandlerErr(w) => WorkerOf(s, w).Handling?
    case Ack(w, _) => WorkerOf(s, w).Succeeded?
    case ReadClock(w) => WorkerOf(s, w).Failed?
    case Retry(w, _) => WorkerOf(s, w).Requeueing?
    case Crash(w) => !WorkerOf(s, w).Stopped?
  }

  function Become(s: State, w: WorkerId, worker: Worker): State {
    s.(workers := s.workers[w := worker])
  }

  // The compare-and-set succeeds: the row is still queued when the UPDATE runs.
  predicate ClaimHits(s: State, step: Step) {
    && step.Claim? && WorkerOf(s, step.w).Chosen? && !step.write.NotApplied?
    && WorkerOf(s, step.w).id in s.table && s.table[WorkerOf(s, step.w).id].status == Queued
  }

  function Apply(delay: nat, s: State, step: Step): State
    requires Enabled(s, step)
  {
    match step
    case Tick(to) => s.(clock := to)
    case Enqueue(job, msg, at) =>
      s.(table := s.table[job := Row(msg.name, Encode(msg.payload), Queued, 0, at, None, None, at)],
         enqueued := s.enqueued[job := msg])
    case Look(w) => Become(s, w, Looking(s.clock))
    case Select(w, job) =>
      Become(s, w, Chosen(job, s.table[job].name, s.table[job].payload64, WorkerOf(s, w).now))
    case NothingDue(w) => Become(s, w, Idle)
    case Claim(w, write) =>
      var c := WorkerOf(s, w);
      if !ClaimHits(s, step) then Become(s, w, Idle)
      else
        var row := s.table[c.id].(status := Processing, reservedBy := Some(w), reservedAt := Some(c.now),
                                  attempts := s.table[c.id].attempts + 1);
        var t := s.(table := s.table[c.id := row], claims := s.claims + multiset{c.id});
        var payload := Decode(c.payload64);
        Become(t, w, if write.AnswerLost? || payload.None? then Idle
                     else Handling(c.id, Message(c.name, payload.value)))
    case HandlerOk(w) =>
      var id := WorkerOf(s, w).id;
      Become(s.(successes := s.successes + multiset{id}), w, Succeeded(id))
    case HandlerErr(w) =>
      var id := WorkerOf(s, w).id;
      Become(s.(failedAt := s.failedAt[id := s.clock]), w, Failed(id, s.clock))
    case Ack(w, write) =>
      var id := WorkerOf(s, w).id;
      Become(if write.NotApplied? then s
             else s.(table := s.table - {id}, deleted := s.deleted + {id}), w, Idle)
    case ReadClock(w) =>
      Become(s, w, Requeueing(WorkerOf(s, w).id, WorkerOf(s, w).since, s.clock))
    case Retry(w, write) =>
      var r := WorkerOf(s, w);
      Become(if write.NotApplied? || r.id !in s.table then s
             else s.(table := s.table[r.id := s.table[r.id].(status := Queued, available := r.at + delay)]), w, Idle)
    case Crash(w) => Become(s, w, Stopped)
  }

  // ---------------------------------------------------------------- invariant

  predicate Holder(worker: Worker) {
    worker.Handling? || worker.Succeeded? || worker.Failed? || worker.Requeueing?
  }

  // Two workers hold the same job.
  predicate Together(a: Worker, b: Worker) {
    Holder(a) && Holder(b) && a.id == b.id
  }

  ghost predicate HeldBy(s: State, w: WorkerId, id: JobId) {
    w in s.workers && Holder(s.workers[w]) && s.workers[w].id == id
  }

  ghost predicate RowsFaithful(s: State) {
    && s.table.Keys <= s.enqueued.Keys
    && forall id :: id in s.table ==>
         && s.table[id].name == s.enqueued[id].name
         && s.table[id].payload64 == Encode(s.enqueued[id].payload)
         && s.table[id].attempts == s.claims[id]
  }

  ghost predicate WorkersFaithful(s: State) {
    forall w :: w in s.workers ==>
      var k := s.workers[w];
      && (k.Chosen? ==> k.id in s.enqueued && k.name == s.enqueued[k.id].name && k.payload64 == Encode(s.enqueued[k.id].payload))
      && (k.Handling? ==> k.id in s.enqueued && k.msg == s.enqueued[k.id])
  }

  ghost predicate HoldersReserved(s: State) {
    forall w :: w in s.workers && Holder(s.workers[w]) ==>
      s.workers[w].id in s.table && s.table[s.workers[w].id].status == Processing
  }

  ghost predicate HoldersDistinct(s: State) {
    (forall v, w :: v in s.workers && w in s.workers && Together(s.workers[v], s.workers[w]) ==> v == w)
  }

  ghost predicate SuccessesCounted(s: State) {
    && (forall id :: id in s.successes ==> id in s.enqueued)
    && (forall id :: s.successes[id] <= 1)
    && (forall id :: id in s.table && s.table[id].status == Queued ==> s.successes[id] == 0)
  }

  ghost predicate HoldersCounted(s: State) {
    forall w :: w in s.workers && Holder(s.workers[w]) ==>
      s.successes[s.workers[w].id] == if s.workers[w].Succeeded? then 1 else 0
  }

  ghost predicate NothingLost(s: State) {
    && s.enqueued.Keys == s.table.Keys + s.deleted && s.table.Keys !! s.deleted
    && (forall id :: id in s.deleted ==> s.successes[id] == 1)
  }

  ghost predicate IdsKnown(s: State) {
    s.failedAt.Keys <= s.enqueued.Keys && (forall id :: id in s.claims ==> id in s.enqueued)
  }

  ghost predicate Inv(s: State) {
    && RowsFaithful(s) && WorkersFaithful(s) && HoldersReserved(s) && HoldersDistinct(s)
    && SuccessesCounted(s) && HoldersCounted(s) && NothingLost(s) && IdsKnown(s)
  }

  lemma EnqueueKeepsRows(delay: nat, s: State, step: Step)
    requires RowsFaithful(s) && IdsKnown(s) && Enabled(s, step) && step.Enqueue?
    ensures RowsFaithful(Apply(delay, s, step))
  {
    assert step.job !in s.claims;
  }

  // Except for a new row, a step keeps the name and payload of a row, and counts a claim in it.
  lemma RowFrom(delay: nat, s: State, step: Step, id: JobId)
    requires Enabled(s, step) && !step.Enqueue? && id in Apply(delay, s, step).table
    ensures var t := Apply(delay, s, step);
            && t.enqueued == s.enqueued && id in s.table
            && t.table[id].name == s.table[id].name && t.table[id].payload64 == s.table[id].payload64
            && t.table[id].attempts - s.table[id].attempts == t.claims[id] - s.claims[id]
  {
  }

  lemma KeepsRows(delay: nat, s: State, step: Step)
    requires RowsFaithful(s) && IdsKnown(s) && Enabled(s, step)
    ensures RowsFaithful(Apply(delay, s, step))
  {
    if step.Enqueue? {
      EnqueueKeepsRows(delay, s, step);
    } else {
      var t := Apply(delay, s, step);
      forall id | id in t.table
        ensures id in t.enqueued && t.table[id].name == t.enqueued[id].name
        ensures t.table[id].payload64 == Encode(t.enqueued[id].payload) && t.table[id].attempts == t.claims[id]
      {
        RowFrom(delay, s, step, id);
      }
    }
  }

  lemma KeepsIds(delay: nat, s: State, step: Step)
    requires s.table.Keys <= s.enqueued.Keys && HoldersReserved(s) && IdsKnown(s) && Enabled(s, step)
    ensures IdsKnown(Apply(delay, s, step))
  {
  }

  lemma ClaimKeepsWorkers(delay: nat, s: State, step: Step, id: JobId)
    requires RowsFaithful(s) && WorkersFaithful(s) && Enabled(s, step) && step.Claim? && WorkerOf(s, step.w).id == id
    requires id in s.enqueued && Decode(WorkerOf(s, step.w).payload64) == Some(s.enqueued[id].payload)
    ensures WorkersFaithful(Apply(delay, s, step))
  {
  }

  lemma KeepsWorkers(delay: nat, s: State, step: Step)
    requires RowsFaithful(s) && WorkersFaithful(s) && Enabled(s, step)
    ensures WorkersFaithful(Apply(delay, s, step))
  {
    if step.Claim? {
      var id := WorkerOf(s, step.w).id;
      RoundTrip(s.enqueued[id].payload);
      ClaimKeepsWorkers(delay, s, step, id);
    }
  }

  // A holder held before the step, or has just claimed a queued row.
  lemma HolderFrom(delay: nat, s: State, step: Step, w: WorkerId)
    requires Enabled(s, step) && w in Apply(delay, s, step).workers && Holder(Apply(delay, s, step).workers[w])
    ensures var worker := Apply(delay, s, step).workers[w];
            if ClaimHits(s, step) && step.w == w then worker.Handling? && worker.id in s.table && s.table[worker.id].status == Queued
            else w in s.workers && Holder(s.workers[w]) && s.workers[w].id == worker.id
                 && (worker.Succeeded? <==> s.workers[w].Succeeded? || step == HandlerOk(w))
  {
  }

  // Only its holder's acknowledgement or retry ends the reservation of a row.
  lemma ReservedStays(delay: nat, s: State, step: Step, id: JobId)
    requires Enabled(s, step) && id in s.table && s.table[id].status == Processing
    requires step.Ack? || step.Retry? ==> WorkerOf(s, step.w).id != id
    requires step.Enqueue? ==> step.job != id
    ensures id in Apply(delay, s, step).table && Apply(delay, s, step).table[id].status == Processing
  {
  }

  lemma KeepsReserved(delay: nat, s: State, step: Step)
    requires RowsFaithful(s) && HoldersReserved(s) && HoldersDistinct(s) && Enabled(s, step)
    ensures HoldersReserved(Apply(delay, s, step))
  {
    var t := Apply(delay, s, step);
    forall w | w in t.workers && Holder(t.workers[w])
      ensures t.workers[w].id in t.table && t.table[t.workers[w].id].status == Processing
    {
      HolderFrom(delay, s, step, w);
      if !(ClaimHits(s, step) && step.w == w) {
        if step.Ack? || step.Retry? {
          assert w != step.w;
          assert !Together(s.workers[w], s.workers[step.w]);
        }
        ReservedStays(delay, s, step, t.workers[w].id);
      }
    }
  }

  lemma KeepsDistinct(delay: nat, s: State, step: Step)
    requires HoldersReserved(s) && HoldersDistinct(s) && Enabled(s, step)
    ensures HoldersDistinct(Apply(delay, s, step))
  {
    var t := Apply(delay, s, step);
    forall v, w | v in t.workers && w in t.workers && Together(t.workers[v], t.workers[w]) ensures v == w {
      HolderFrom(delay, s, step, v);
      HolderFrom(delay, s, step, w);
      if v in s.workers && w in s.workers {
        assert Together(s.workers[v], s.workers[w]) ==> v == w;
      }
    }
  }

  lemma OnlySuccessCounts(delay: nat, s: State, step: Step)
    requires Enabled(s, step)
    ensures s.enqueued.Keys <= Apply(delay, s, step).enqueued.Keys
    ensures Apply(delay, s, step).successes ==
            if step.HandlerOk? then s.successes + multiset{WorkerOf(s, step.w).id} else s.successes
  {
  }

  // A row is queued because it was, because it is new, or because its holder put it back.
  lemma QueuedFrom(delay: nat, s: State, step: Step, id: JobId)
    requires Enabled(s, step)
    requires id in Apply(delay, s, step).table && Apply(delay, s, step).table[id].status == Queued
    ensures || (id in s.table && s.table[id].status == Queued)
            || (step.Enqueue? && step.job == id)
            || (step.Retry? && WorkerOf(s, step.w).id == id)
  {
  }

  lemma KeepsSuccesses(delay: nat, s: State, step: Step)
    requires RowsFaithful(s) && HoldersReserved(s) && SuccessesCounted(s) && HoldersCounted(s) && Enabled(s, step)
    ensures SuccessesCounted(Apply(delay, s, step))
  {
    var t := Apply(delay, s, step);
    OnlySuccessCounts(delay, s, step);
    forall id | id in t.table && t.table[id].status == Queued ensures t.successes[id] == 0 {
      QueuedFrom(delay, s, step, id);
    }
  }

  // A success counts for its own holder only, because no other worker holds the job.
  lemma SuccessKeepsCounted(delay: nat, s: State, step: Step)
    requires HoldersReserved(s) && HoldersDistinct(s) && HoldersCounted(s) && Enabled(s, step) && step.HandlerOk?
    ensures HoldersCounted(Apply(delay, s, step))
  {
    var t := Apply(delay, s, step);
    forall v | v in t.workers && Holder(t.workers[v]) && v != step.w
      ensures t.successes[t.workers[v].id] == if t.workers[v].Succeeded? then 1 else 0
    {
      assert v in s.workers && s.workers[v] == t.workers[v];
      assert !Together(s.workers[v], s.workers[step.w]);
    }
  }

  lemma KeepsCounted(delay: nat, s: State, step: Step)
    requires HoldersReserved(s) && HoldersDistinct(s) && SuccessesCounted(s) && HoldersCounted(s) && Enabled(s, step)
    ensures HoldersCounted(Apply(delay, s, step))
  {
    if step.HandlerOk? {
      SuccessKeepsCounted(delay, s, step);
    } else {
      var t := Apply(delay, s, step);
      OnlySuccessCounts(delay, s, step);
      forall w | w in t.workers && Holder(t.workers[w])
        ensures t.successes[t.workers[w].id] == if t.workers[w].Succeeded? then 1 else 0
      {
        HolderFrom(delay, s, step, w);
      }
    }
  }

  // Only an acknowledgement removes a row, and only a new job adds one.
  lemma JobsFrom(delay: nat, s: State, step: Step)
    requires Enabled(s, step) && (step.Retry? ==> WorkerOf(s, step.w).id in s.table)
    ensures var t := Apply(delay, s, step);
            if step.Enqueue? then t.enqueued.Keys == s.enqueued.Keys + {step.job} && t.table.Keys == s.table.Keys + {step.job} && t.deleted == s.deleted
            else if step.Ack? && !step.write.NotApplied? then
              t.enqueued == s.enqueued && t.table.Keys == s.table.Keys - {WorkerOf(s, step.w).id} && t.deleted == s.deleted + {WorkerOf(s, step.w).id}
            else t.enqueued == s.enqueued && t.table.Keys == s.table.Keys && t.deleted == s.deleted
  {
  }

  lemma KeepsJobs(delay: nat, s: State, step: Step)
    requires HoldersReserved(s) && HoldersCounted(s) && SuccessesCounted(s) && NothingLost(s) && Enabled(s, step)
    ensures NothingLost(Apply(delay, s, step))
  {
    var t := Apply(delay, s, step);
    JobsFrom(delay, s, step);
    OnlySuccessCounts(delay, s, step);
    forall id | id in t.deleted ensures t.successes[id] == 1 {
      if step.HandlerOk? {
        assert WorkerOf(s, step.w).id in s.table;
      }
    }
  }

  lemma StepKeepsInv(delay: nat, s: State, step: Step)
    requires Inv(s) && Enabled(s, step)
    ensures Inv(Apply(delay, s, step))
  {
    KeepsRows(delay, s, step);
    KeepsIds(delay, s, step);
    KeepsWorkers(delay, s, step);
    KeepsReserved(delay, s, step);
    KeepsDistinct(delay, s, step);
    KeepsCounted(delay, s, step);
    KeepsSuccesses(delay, s, step);
    KeepsJobs(delay, s, step);
  }
}
