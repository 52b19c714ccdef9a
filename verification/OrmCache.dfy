/** The application's cached ORM client (app_db.go): setters and calls of ORM interleave at every
    release of the lock. */
module OrmCache {
  import opened Strings

  type Adapter = nat
  type CallId = nat

  // `serial` is the identity of the object, so that two equal clients can be told apart.
  datatype Client = Client(serial: nat, adapter: Adapter, dialect: string)

  datatype Call = Unstarted | Rebuilding | Returned(result: Option<Client>)

  datatype State = State(
    sql: Option<Adapter>,
    dialect: string,
    client: Option<Client>,
    calls: map<CallId, Call>,
    built: nat)

  // Start reads adapter and client under the read lock; Finish runs under the write lock.
  datatype Step =
    | SetSQL(adapter: Option<Adapter>)
    | SetDialect(dialect: string)
    | Start(call: CallId)
    | Finish(call: CallId)

  const INIT := State(None, "", None, map[], 0)

  function CallOf(s: State, call: CallId): Call {
    if call in s.calls then s.calls[call] else Unstarted
  }

  predicate Enabled(s: State, step: Step) {
    match step
    case SetSQL(_) => true
    case SetDialect(_) => true
    case Start(call) => CallOf(s, call).Unstarted?
    case Finish(call) => CallOf(s, call).Rebuilding?
  }

  function Apply(s: State, step: Step): State {
    match step
    case SetSQL(adapter) => s.(sql := adapter, client := None)
    case SetDialect(dialect) => s.(dialect := dialect, client := None)
    case Start(call) =>
      s.(calls := s.calls[call := if s.sql.None? then Returned(None) else if s.client.Some? then Returned(s.client) else Rebuilding])
    case Finish(call) =>
      if s.sql.None? then s.(calls := s.calls[call := Returned(None)])
      else if s.client.Some? then s.(calls := s.calls[call := Returned(s.client)])
      else
        var client := Client(s.built, s.sql.value, s.dialect);
        s.(client := Some(client), built := s.built + 1, calls := s.calls[call := Returned(Some(client))])
  }

  ghost predicate IsRun(states: seq<State>, steps: seq<Step>) {
    && |states| == |steps| + 1 && states[0] == INIT
    && forall i {:trigger steps[i]} :: 0 <= i < |steps| ==> Enabled(states[i], steps[i]) && states[i + 1] == Apply(states[i], steps[i])
  }

  // What an application without the cache would hand out, up to the identity of the object.
  predicate IsUncached(s: State, r: Option<Client>) {
    match r
    case None => s.sql.None?
    case Some(c) => s.sql == Some(c.adapter) && s.dialect == c.dialect
  }

  ghost predicate Inv(s: State) {
    s.client.Some? ==> IsUncached(s, s.client) && s.client.value.serial < s.built
  }

  /** At every moment the cached client is one for the current adapter and dialect. */
  lemma {:induction false} CacheIsCurrent(states: seq<State>, steps: seq<Step>, i: nat)
    requires IsRun(states, steps) && i < |states|
    ensures Inv(states[i])
  {
    if i > 0 {
      CacheIsCurrent(states, steps, i - 1);
      assert states[i] == Apply(states[i - 1], steps[i - 1]);
    }
  }

  // The adapter and the dialect last set in these steps.
  function LastAdapter(steps: seq<Step>): Option<Adapter> {
    if steps == [] then None
    else match steps[|steps| - 1]
      case SetSQL(adapter) => adapter
      case _ => LastAdapter(steps[..|steps| - 1])
  }

  function LastDialect(steps: seq<Step>): string {
    if steps == [] then ""
    else match steps[|steps| - 1]
      case SetDialect(dialect) => dialect
      case _ => LastDialect(steps[..|steps| - 1])
  }

  /** What is current is what was set last: no setter undoes another, and no call changes anything. */
  lemma {:induction false} SettersLast(states: seq<State>, steps: seq<Step>, n: nat)
    requires IsRun(states, steps) && n <= |steps|
    ensures states[n].sql == LastAdapter(steps[..n]) && states[n].dialect == LastDialect(steps[..n])
  {
    if n > 0 {
      SettersLast(states, steps, n - 1);
      assert steps[..n][..n - 1] == steps[..n - 1];
      assert states[n] == Apply(states[n - 1], steps[n - 1]);
    }
  }

  // ---------------------------------------------------------------- what a call returns

  // A call that has ended did so by one of its two steps, at a state its result belongs to.
  lemma {:induction false} ReturnedAt(states: seq<State>, steps: seq<Step>, k: nat, call: CallId) returns (m: nat)
    requires IsRun(states, steps) && k < |states| && CallOf(states[k], call).Returned?
    ensures m < k && (steps[m] == Start(call) || steps[m] == Finish(call))
    ensures CallOf(states[m + 1], call) == CallOf(states[k], call)
    ensures IsUncached(states[m + 1], CallOf(states[k], call).result)
  {
    var before, step := states[k - 1], steps[k - 1];
    assert states[k] == Apply(before, step);
    if step == Start(call) || step == Finish(call) {
      m := k - 1;
      CacheIsCurrent(states, steps, k - 1);
      CacheIsCurrent(states, steps, k);
    } else {
      m := ReturnedAt(states, steps, k - 1, call);
    }
  }

  // A call in progress was started and is not started again.
  lemma {:induction false} StartedAt(states: seq<State>, steps: seq<Step>, k: nat, call: CallId) returns (j: nat)
    requires IsRun(states, steps) && k < |states| && !CallOf(states[k], call).Unstarted?
    ensures j < k && steps[j] == Start(call)
  {
    assert states[k] == Apply(states[k - 1], steps[k - 1]);
    if steps[k - 1] == Start(call) {
      j := k - 1;
    } else {
      j := StartedAt(states, steps, k - 1, call);
    }
  }

  /** Each ORM call returns what an uncached build gives at some instant between its first step and
      its return. */
  lemma {:induction false} CallSeesOneInstant(states: seq<State>, steps: seq<Step>, k: nat, call: CallId) returns (j: nat, m: nat)
    requires IsRun(states, steps) && k < |states| && CallOf(states[k], call).Returned?
    ensures j <= m < k && steps[j] == Start(call) && (steps[m] == Start(call) || steps[m] == Finish(call))
    ensures IsUncached(states[m + 1], CallOf(states[k], call).result)
    ensures CallOf(states[m + 1], call) == CallOf(states[k], call)
  {
    m := ReturnedAt(states, steps, k, call);
    j := StartedAt(states, steps, m + 1, call);
  }

  // ---------------------------------------------------------------- sharing

  predicate Sets(step: Step) {
    step.SetSQL? || step.SetDialect?
  }

  lemma {:induction false} CacheStays(states: seq<State>, steps: seq<Step>, i: nat, j: nat)
    requires IsRun(states, steps) && i <= j < |states| && states[i].client.Some?
    requires forall k :: i <= k < j ==> !Sets(steps[k])
    ensures states[j].client == states[i].client
    ensures states[j].sql == states[i].sql && states[j].dialect == states[i].dialect
    decreases j - i
  {
    if i < j {
      CacheStays(states, steps, i, j - 1);
      assert states[j] == Apply(states[j - 1], steps[j - 1]);
    }
  }

  predicate Ends(s: State, step: Step) {
    (step.Start? || step.Finish?) && CallOf(Apply(s, step), step.call).Returned?
  }

  function ResultOf(s: State, step: Step): Option<Client>
    requires Ends(s, step)
  {
    CallOf(Apply(s, step), step.call).result
  }

  /** Two calls that return with no setter in between hand out the very same object. */
  lemma {:induction false} CallsShareTheClient(states: seq<State>, steps: seq<Step>, i: nat, j: nat)
    requires IsRun(states, steps) && i < j < |steps| && Ends(states[i], steps[i]) && Ends(states[j], steps[j])
    requires forall k :: i < k < j ==> !Sets(steps[k])
    requires ResultOf(states[i], steps[i]).Some?
    ensures ResultOf(states[j], steps[j]) == ResultOf(states[i], steps[i])
  {
    CacheIsCurrent(states, steps, i);
    CacheIsCurrent(states, steps, i + 1);
    assert states[i + 1] == Apply(states[i], steps[i]);
    CacheStays(states, steps, i + 1, j);
    CacheIsCurrent(states, steps, j);
  }
}
