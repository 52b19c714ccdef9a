/** Up, Down and Status over a version table, one transaction per migration, with a failure
    possible at every call (migrate/migrate.go). */
module MigrationEngine {
  import opened Strings
  import opened Migrations

  datatype Status = Status(version: int, name: string, applied: bool)

  // sort.Slice by version: reorders the caller's slice.
  method SortAscending(ms: array<Migration>)
    modifies ms
    ensures ms[..] == Ascending(old(ms[..]))
  {
    var sorted := Ascending(ms[..]);
    AscendingSorts(ms[..]);
    assert |multiset(sorted)| == |multiset(ms[..])|;
    forall i | 0 <= i < ms.Length {
      ms[i] := sorted[i];
    }
  }

  method SortDescending(ms: array<Migration>)
    modifies ms
    ensures ms[..] == Reversed(Ascending(old(ms[..])))
  {
    var sorted := Reversed(Ascending(ms[..]));
    AscendingSorts(ms[..]);
    assert |multiset(Ascending(ms[..]))| == |multiset(ms[..])|;
    forall i | 0 <= i < ms.Length {
      ms[i] := sorted[i];
    }
  }

  class Engine<S> {
    const eff: Effect<S>
    var table: map<int, string>
    var schema: S

    constructor (eff: Effect<S>, schema: S)
      ensures this.eff == eff && Now() == State(map[], schema)
    {
      this.eff, this.table, this.schema := eff, map[], schema;
    }

    function Now(): State<S>
      reads this
    {
      State(table, schema)
    }

    // Begin, run the script, insert the version, commit: any of them may fail, and the insert does
    // when the version is there already.  A commit may take effect although it reports an error.
    method ApplyOne(m: Migration) returns (ok: bool, ghost lost: bool)
      modifies this
      ensures ok || lost ==> m.version !in old(table) && Now() == Move(eff, Upward, old(Now()), m)
      ensures !ok && !lost ==> Now() == old(Now())
      ensures lost ==> !ok
    {
      if * {
        return false, false;
      }
      var draft := Now();
      if * {
        return false, false;
      }
      draft := draft.(schema := eff(m.up, draft.schema));
      if * {
        return false, false;
      }
      if m.version in draft.table {
        return false, false;
      }
      draft := draft.(table := draft.table[m.version := m.name]);
      if * {
        return false, false;
      }
      table, schema := draft.table, draft.schema;
      if * {
        return false, true;
      }
      return true, false;
    }

    method RollbackOne(m: Migration) returns (ok: bool, ghost lost: bool)
      modifies this
      ensures ok || lost ==> Now() == Move(eff, Downward, old(Now()), m)
      ensures !ok && !lost ==> Now() == old(Now())
      ensures lost ==> !ok
    {
      if * {
        return false, false;
      }
      var draft := Now();
      if * {
        return false, false;
      }
      draft := draft.(schema := eff(m.down, draft.schema));
      if * {
        return false, false;
      }
      draft := draft.(table := draft.table - {m.version});
      if * {
        return false, false;
      }
      table, schema := draft.table, draft.schema;
      if * {
        return false, true;
      }
      return true, false;
    }

    method Up(ms: array<Migration>, steps: int) returns (count: nat, failure: Option<Failure>, ghost lost: bool)
      modifies this, ms
      ensures failure != Some(SetupFailed) ==> ms[..] == Ascending(old(ms[..]))
      ensures failure == Some(SetupFailed) ==> ms[..] == old(ms[..])
      ensures Outcome(eff, Upward, Ascending(old(ms[..])), steps, old(Now()), Now(), count, failure, lost)
    {
      if * {
        return 0, Some(SetupFailed), false;
      }
      var applied := table;
      SortAscending(ms);
      ghost var order, st := ms[..], Now();
      count := 0;
      for i := 0 to ms.Length
        invariant ms[..] == order && Partway(eff, Upward, order, steps, st, Now(), i, count)
      {
        var m := ms[i];
        if m.version in applied {
          PartwaySkips(eff, Upward, order, steps, st, Now(), i, count);
          continue;
        }
        if steps > 0 && count >= steps {
          PartwayStops(eff, Upward, order, steps, st, Now(), i, count, None);
          return count, None, false;
        }
        if Blank(m.up) {
          PartwayStops(eff, Upward, order, steps, st, Now(), i, count, Some(MissingSql(m.version)));
          return count, Some(MissingSql(m.version)), false;
        }
        ghost var now := Now();
        var ok;
        ok, lost := ApplyOne(m);
        if !ok {
          if lost {
            PartwayLoses(eff, Upward, order, steps, st, now, i, count);
          } else {
            PartwayStops(eff, Upward, order, steps, st, now, i, count, Some(StatementFailed(m.version)));
          }
          return count, Some(StatementFailed(m.version)), lost;
        }
        PartwayMoves(eff, Upward, order, steps, st, now, i, count);
        count := count + 1;
      }
      PartwayStops(eff, Upward, order, steps, st, Now(), |order|, count, None);
      return count, None, false;
    }

    method Down(ms: array<Migration>, steps: int) returns (count: nat, failure: Option<Failure>, ghost lost: bool)
      modifies this, ms
      ensures failure != Some(SetupFailed) ==> ms[..] == Reversed(Ascending(old(ms[..])))
      ensures failure == Some(SetupFailed) ==> ms[..] == old(ms[..])
      ensures Outcome(eff, Downward, Reversed(Ascending(old(ms[..]))), steps, old(Now()), Now(), count, failure, lost)
    {
      if * {
        return 0, Some(SetupFailed), false;
      }
      var applied := table;
      SortDescending(ms);
      ghost var order, st := ms[..], Now();
      count := 0;
      for i := 0 to ms.Length
        invariant ms[..] == order && Partway(eff, Downward, order, steps, st, Now(), i, count)
      {
        var m := ms[i];
        if m.version !in applied {
          PartwaySkips(eff, Downward, order, steps, st, Now(), i, count);
          continue;
        }
        if steps > 0 && count >= steps {
          PartwayStops(eff, Downward, order, steps, st, Now(), i, count, None);
          return count, None, false;
        }
        if Blank(m.down) {
          PartwayStops(eff, Downward, order, steps, st, Now(), i, count, Some(MissingSql(m.version)));
          return count, Some(MissingSql(m.version)), false;
        }
        ghost var now := Now();
        var ok;
        ok, lost := RollbackOne(m);
        if !ok {
          if lost {
            PartwayLoses(eff, Downward, order, steps, st, now, i, count);
          } else {
            PartwayStops(eff, Downward, order, steps, st, now, i, count, Some(StatementFailed(m.version)));
          }
          return count, Some(StatementFailed(m.version)), lost;
        }
        PartwayMoves(eff, Downward, order, steps, st, now, i, count);
        count := count + 1;
      }
      PartwayStops(eff, Downward, order, steps, st, Now(), |order|, count, None);
      return count, None, false;
    }

    method ReportStatus(ms: array<Migration>) returns (out: Option<seq<Status>>)
      modifies ms
      ensures out.Some? ==> ms[..] == Ascending(old(ms[..])) && |out.value| == ms.Length
      ensures out.Some? ==> forall i :: 0 <= i < ms.Length ==>
                              out.value[i] == Status(ms[i].version, ms[i].name, ms[i].version in table)
      ensures out.None? ==> ms[..] == old(ms[..])
    {
      if * {
        return None;
      }
      SortAscending(ms);
      var list: seq<Status> := [];
      for i := 0 to ms.Length
        invariant |list| == i && ms[..] == Ascending(old(ms[..]))
        invariant forall j :: 0 <= j < i ==> list[j] == Status(ms[j].version, ms[j].name, ms[j].version in table)
      {
        list := list + [Status(ms[i].version, ms[i].name, ms[i].version in table)];
      }
      return Some(list);
    }
  }
}
