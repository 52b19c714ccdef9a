/** The bounded channel queue of jobs/queue.go: senders, workers and Close interleave in single
    steps. */
module InMemoryQueue {
  import opened Strings

  datatype Message = Message(name: string, payload: seq<bv8>)

  type CallId = nat
  type WorkerId = nat

  // An Enqueue call: past its check of the closed flag, or ended.
  datatype Sender =
    | Unstarted
    | Waiting(msg: Message)
    | Accepted(msg: Message)
    | Refused
    | Cancelled
    | Panicked

  datatype Worker = Receiving | Handling(msg: Message) | SawClosed | Stopped

  // `accepted` and `delivered` record history; no step looks at them.
  datatype State = State(
    capacity: nat,
    buffer: seq<Message>,
    closed: bool,
    senders: map<CallId, Sender>,
    workers: map<WorkerId, Worker>,
    accepted: seq<Message>,
    delivered: seq<Message>)

  datatype Step =
    | Check(call: CallId, msg: Message)
    | Send(call: CallId)
    | SendOnClosed(call: CallId)
    | GiveUp(call: CallId)
    | Receive(w: WorkerId)
    | ReceiveClosed(w: WorkerId)
    | Handled(w: WorkerId)
    | StopWorker(w: WorkerId)
    | Close

  function Initial(size: int): State {
    State(if size < 1 then 1 else size, [], false, map[], map[], [], [])
  }

  function SenderOf(s: State, call: CallId): Sender {
    if call in s.senders then s.senders[call] else Unstarted
  }

  function WorkerOf(s: State, w: WorkerId): Worker {
    if w in s.workers then s.workers[w] else Receiving
  }

  // A send waits while the channel is open and full, a receive while it is open and empty.
  predicate Enabled(s: State, step: Step) {
    match step
    case Check(call, _) => SenderOf(s, call).Unstarted?
    case Send(call) => SenderOf(s, call).Waiting? && !s.closed && |s.buffer| < s.capacity
    case SendOnClosed(call) => SenderOf(s, call).Waiting? && s.closed
    case GiveUp(call) => SenderOf(s, call).Waiting?
    case Receive(w) => WorkerOf(s, w).Receiving? && s.buffer != []
    case ReceiveClosed(w) => WorkerOf(s, w).Receiving? && s.buffer == [] && s.closed
    case Handled(w) => WorkerOf(s, w).Handling?
    case StopWorker(w) => WorkerOf(s, w).Receiving?
    case Close => true
  }

  function Apply(s: State, step: Step): State
    requires Enabled(s, step)
  {
    match step
    case Check(call, msg) => s.(senders := s.senders[call := if s.closed then Refused else Waiting(msg)])
    case Send(call) =>
      var msg := s.senders[call].msg;
      s.(buffer := s.buffer + [msg], accepted := s.accepted + [msg], senders := s.senders[call := Accepted(msg)])
    case SendOnClosed(call) => s.(senders := s.senders[call := Panicked])
    case GiveUp(call) => s.(senders := s.senders[call := Cancelled])
    case Receive(w) =>
      s.(buffer := s.buffer[1..], delivered := s.delivered + [s.buffer[0]], workers := s.workers[w := Handling(s.buffer[0])])
    case ReceiveClosed(w) => s.(workers := s.workers[w := SawClosed])
    case Handled(w) => s.(workers := s.workers[w := Receiving])
    case StopWorker(w) => s.(workers := s.workers[w := Stopped])
    case Close => s.(closed := true)
  }

  ghost predicate IsRun(size: int, states: seq<State>, steps: seq<Step>) {
    && |states| == |steps| + 1 && states[0] == Initial(size)
    && forall i {:trigger steps[i]} :: 0 <= i < |steps| ==> Enabled(states[i], steps[i]) && states[i + 1] == Apply(states[i], steps[i])
  }

  // ---------------------------------------------------------------- conservation

  ghost predicate Inv(size: int, s: State) {
    && s.accepted == s.delivered + s.buffer
    && |s.buffer| <= s.capacity == (if size < 1 then 1 else size)
    && (forall w :: WorkerOf(s, w).SawClosed? ==> s.closed && s.buffer == [])
  }

  lemma StepKeepsInv(size: int, s: State, step: Step)
    requires Inv(size, s) && Enabled(s, step)
    ensures Inv(size, Apply(s, step))
  {
    var s' := Apply(s, step);
    if step.Receive? {
      assert s.buffer == [s.buffer[0]] + s.buffer[1..];
      assert s'.delivered + s'.buffer == s.delivered + s.buffer;
    }
    forall w | WorkerOf(s', w).SawClosed? ensures s'.closed && s'.buffer == [] {
      assert WorkerOf(s, w).SawClosed? || step == ReceiveClosed(w);
    }
  }

  lemma {:induction false} RunKeepsInv(size: int, states: seq<State>, steps: seq<Step>, i: nat)
    requires IsRun(size, states, steps) && i < |states|
    ensures Inv(size, states[i])
  {
    if i > 0 {
      RunKeepsInv(size, states, steps, i - 1);
      StepKeepsInv(size, states[i - 1], steps[i - 1]);
    }
  }

  /** At every moment of every run the accepted messages are the delivered ones followed by the
      buffered ones, within capacity; a worker that saw the closure left nothing in the buffer. */
  lemma {:induction false} AcceptedIsDeliveredThenBuffered(size: int, states: seq<State>, steps: seq<Step>, i: nat)
    requires IsRun(size, states, steps) && i < |states|
    ensures states[i].accepted == states[i].delivered + states[i].buffer
    ensures |states[i].buffer| <= (if size < 1 then 1 else size)
    ensures forall w :: WorkerOf(states[i], w).SawClosed? ==> states[i].closed && states[i].buffer == []
  {
    RunKeepsInv(size, states, steps, i);
  }

  // ---------------------------------------------------------------- what goes in and what comes out

  // The message with which a call came, while it has done nothing but its check.
  function AskedBy(steps: seq<Step>, call: CallId): Option<Message> {
    if steps == [] then None
    else
      var last := steps[|steps| - 1];
      if last.Check? && last.call == call then Some(last.msg) else AskedBy(steps[..|steps| - 1], call)
  }

  // The messages of the sends in these steps, each the one its call came with.
  function SentBy(steps: seq<Step>): seq<Message> {
    if steps == [] then []
    else
      var init, last := steps[..|steps| - 1], steps[|steps| - 1];
      SentBy(init) + if last.Send? && AskedBy(init, last.call).Some? then [AskedBy(init, last.call).value] else []
  }

  // The messages that workers were handed, as each of them has it right after its receive.
  function HandedOut(states: seq<State>, steps: seq<Step>): seq<Message>
    requires |states| == |steps| + 1
  {
    if steps == [] then []
    else
      var n := |steps| - 1;
      HandedOut(states[..n + 1], steps[..n]) +
      if steps[n].Receive? && WorkerOf(states[n + 1], steps[n].w).Handling? then [WorkerOf(states[n + 1], steps[n].w).msg] else []
  }

  lemma {:induction false} WaitingAsked(size: int, states: seq<State>, steps: seq<Step>, call: CallId)
    requires IsRun(size, states, steps) && SenderOf(states[|steps|], call).Waiting?
    ensures AskedBy(steps, call) == Some(SenderOf(states[|steps|], call).msg)
  {
    if steps != [] {
      var n := |steps| - 1;
      assert states[n + 1] == Apply(states[n], steps[n]) && Enabled(states[n], steps[n]);
      if !(steps[n].Check? && steps[n].call == call) {
        PrefixRun(size, states, steps, n);
        WaitingAsked(size, states[..n + 1], steps[..n], call);
      }
    }
  }

  lemma PrefixRun(size: int, states: seq<State>, steps: seq<Step>, n: nat)
    requires IsRun(size, states, steps) && n <= |steps|
    ensures IsRun(size, states[..n + 1], steps[..n])
  {
    forall i | 0 <= i < n
      ensures Enabled(states[..n + 1][i], steps[..n][i]) && states[..n + 1][i + 1] == Apply(states[..n + 1][i], steps[..n][i])
    {
      assert steps[..n][i] == steps[i];
    }
  }

  /** In every run the accepted messages are those that the sending calls came with, in the order of their
      sends, and the delivered ones are those that the workers have in hand after their receives, in that
      order: nothing is mixed up on the way. */
  lemma {:induction false} MessagesUnchanged(size: int, states: seq<State>, steps: seq<Step>)
    requires IsRun(size, states, steps)
    ensures states[|steps|].accepted == SentBy(steps) && states[|steps|].delivered == HandedOut(states, steps)
  {
    if steps != [] {
      var n := |steps| - 1;
      PrefixRun(size, states, steps, n);
      MessagesUnchanged(size, states[..n + 1], steps[..n]);
      assert states[n + 1] == Apply(states[n], steps[n]) && Enabled(states[n], steps[n]);
      if steps[n].Send? {
        WaitingAsked(size, states[..n + 1], steps[..n], steps[n].call);
      }
    }
  }

  // ---------------------------------------------------------------- closing

  /** Once closed, the queue stays closed, accepts nothing more and only drains. */
  lemma {:induction false} NothingAcceptedAfterClose(size: int, states: seq<State>, steps: seq<Step>, i: nat, j: nat)
    requires IsRun(size, states, steps) && i <= j < |states| && states[i].closed
    ensures states[j].closed && states[j].accepted == states[i].accepted
    ensures |states[j].buffer| <= |states[i].buffer|
    decreases j - i
  {
    if i < j {
      NothingAcceptedAfterClose(size, states, steps, i, j - 1);
      assert states[j] == Apply(states[j - 1], steps[j - 1]);
    }
  }

  /** From the moment a worker sees the closure, every accepted message has been delivered. */
  lemma {:induction false} ClosureMeansAllDelivered(size: int, states: seq<State>, steps: seq<Step>, i: nat, j: nat)
    requires IsRun(size, states, steps) && i < |steps| && steps[i].ReceiveClosed? && i <= j < |states|
    ensures states[j].buffer == [] && states[j].delivered == states[j].accepted == states[i].accepted
  {
    NothingAcceptedAfterClose(size, states, steps, i, j);
    AcceptedIsDeliveredThenBuffered(size, states, steps, j);
    assert states[j].buffer == [];
  }

  // ---------------------------------------------------------------- sending on a closed channel

  predicate ByCall(step: Step, call: CallId) {
    (step.Check? || step.Send? || step.SendOnClosed? || step.GiveUp?) && step.call == call
  }

  // A waiting call did its check earlier, while the queue was open, and nothing since.
  lemma {:induction false} CheckedWhileOpen(size: int, states: seq<State>, steps: seq<Step>, k: nat, call: CallId) returns (j: nat)
    requires IsRun(size, states, steps) && k < |states| && SenderOf(states[k], call).Waiting?
    ensures j < k && steps[j].Check? && steps[j].call == call && !states[j].closed
    ensures forall i :: j < i < k ==> !ByCall(steps[i], call)
  {
    var before, step := states[k - 1], steps[k - 1];
    assert states[k] == Apply(before, step);
    if ByCall(step, call) {
      j := k - 1;
    } else {
      j := CheckedWhileOpen(size, states, steps, k - 1, call);
    }
  }

  lemma {:induction false} ClosedBetween(size: int, states: seq<State>, steps: seq<Step>, j: nat, k: nat) returns (m: nat)
    requires IsRun(size, states, steps) && j <= k < |states| && !states[j].closed && states[k].closed
    ensures j <= m < k && steps[m].Close? && !states[m].closed
    decreases k - j
  {
    assert states[k] == Apply(states[k - 1], steps[k - 1]);
    if states[k - 1].closed {
      m := ClosedBetween(size, states, steps, j, k - 1);
    } else {
      m := k - 1;
    }
  }

  // Step k ends the call that step j started: its check passed, and nothing of it lies in between.
  predicate Ends(states: seq<State>, steps: seq<Step>, j: nat, k: nat)
    requires |states| == |steps| + 1 && j < k < |steps|
  {
    && steps[j].Check? && !states[j].closed
    && ByCall(steps[k], steps[j].call) && !steps[k].Check?
    && forall i :: j < i < k ==> !ByCall(steps[i], steps[j].call)
  }

  /** Every call that sends passed its check first, and it meets a closed channel exactly when Close
      fell between that check and the send. */
  lemma {:induction false} PanicExactlyAcrossClose(size: int, states: seq<State>, steps: seq<Step>, k: nat) returns (j: nat)
    requires IsRun(size, states, steps) && k < |steps| && (steps[k].Send? || steps[k].SendOnClosed?)
    ensures j < k && Ends(states, steps, j, k)
    ensures steps[k].SendOnClosed? <==> exists m :: j < m < k && steps[m].Close?
  {
    j := CheckedWhileOpen(size, states, steps, k, steps[k].call);
    if steps[k].SendOnClosed? {
      var m := ClosedBetween(size, states, steps, j, k);
    }
    if m :| j < m < k && steps[m].Close? {
      assert states[m + 1].closed;
      NothingAcceptedAfterClose(size, states, steps, m + 1, k);
    }
  }

  /** If Close falls between a call's check and its next step, that step is a send on the closed
      channel or giving up, never a send that is accepted. */
  lemma {:induction false} CloseDecidesTheCall(size: int, states: seq<State>, steps: seq<Step>, j: nat, m: nat, k: nat)
    requires IsRun(size, states, steps) && j < m < k < |steps| && Ends(states, steps, j, k) && steps[m].Close?
    ensures steps[k].SendOnClosed? || steps[k].GiveUp?
  {
    assert states[m + 1].closed;
    NothingAcceptedAfterClose(size, states, steps, m + 1, k);
  }

  /** Such a run exists: check, close, send. */
  lemma CloseCanOvertakeSend(size: int, msg: Message) returns (states: seq<State>, steps: seq<Step>)
    ensures IsRun(size, states, steps) && SenderOf(states[|states| - 1], 0).Panicked?
  {
    var s0 := Initial(size);
    var s1 := Apply(s0, Check(0, msg));
    var s2 := Apply(s1, Close);
    var s3 := Apply(s2, SendOnClosed(0));
    states, steps := [s0, s1, s2, s3], [Check(0, msg), Close, SendOnClosed(0)];
  }

  /** A call that starts after Close is refused. */
  lemma {:induction false} RefusedAfterClose(size: int, states: seq<State>, steps: seq<Step>, i: nat, k: nat)
    requires IsRun(size, states, steps) && i <= k < |steps| && states[i].closed && steps[k].Check?
    ensures SenderOf(states[k + 1], steps[k].call).Refused?
  {
    NothingAcceptedAfterClose(size, states, steps, i, k);
  }
}
