/** What the generated scripts do, line by line: the down script drops what the up script creates, the
    last table first (migrate/generate.go). */
module MigrationScripts {
  import opened Strings
  import opened MigrationFiles

  // The text of one CREATE TABLE statement after the other, each ended by a semicolon and a line break.
  function Statements(es: seq<Entity>): string {
    if es == [] then "" else es[0].create + ";\n" + Statements(es[1..])
  }

  lemma {:induction false} UpText(es: seq<Entity>)
    requires es != []
    ensures JoinLines(UpLines(es)) + "\n" == Statements(es)
  {
    var lines := UpLines(es);
    assert lines[0] == es[0].create + ";" && lines[1..] == UpLines(es[1..]);
    if |es| == 1 {
      assert Statements(es[1..]) == "";
      assert JoinLines(lines) == lines[0];
      assert es[0].create + ";" + "\n" == es[0].create + ";\n" + "";
    } else {
      UpText(es[1..]);
      assert JoinLines(lines) == lines[0] + "\n" + JoinLines(lines[1..]);
      LineFirst(es[0].create, JoinLines(lines[1..]));
    }
  }

  lemma LineFirst(a: string, rest: string)
    ensures a + ";" + "\n" + rest + "\n" == a + ";\n" + (rest + "\n")
  {
  }

  lemma {:induction false} LinesSplit(lines: seq<string>)
    requires lines != [] && forall i :: 0 <= i < |lines| ==> '\n' !in lines[i]
    ensures Split(JoinLines(lines) + "\n", '\n') == lines + [""]
  {
    var rest := lines[1..];
    if rest == [] {
      SplitFirst(lines[0], '\n', "");
      assert lines[0] + "\n" + "" == lines[0] + "\n";
      assert lines + [""] == [lines[0]] + [""];
    } else {
      LinesSplit(rest);
      SplitFirst(lines[0], '\n', JoinLines(rest) + "\n");
      assert JoinLines(lines) + "\n" == lines[0] + "\n" + (JoinLines(rest) + "\n");
      assert lines + [""] == [lines[0]] + (rest + [""]);
    }
  }

  // ---------------------------------------------------------------- running the down script

  const DROP := "DROP TABLE IF EXISTS "

  // The table a line drops.
  function Dropped(line: string): Option<string> {
    if |DROP| < |line| && line[..|DROP|] == DROP && line[|line| - 1] == ';' then Some(line[|DROP|..|line| - 1]) else None
  }

  // The tables left after the first n lines.
  function After(lines: seq<string>, n: nat, tables: set<string>): set<string>
    requires n <= |lines|
  {
    if n == 0 then tables
    else
      var left := After(lines, n - 1, tables);
      match Dropped(lines[n - 1])
      case None => left
      case Some(t) => left - {t}
  }

  function TablesOf(es: seq<Entity>): set<string> {
    set i | 0 <= i < |es| :: es[i].table
  }

  predicate DifferentTables(es: seq<Entity>) {
    forall i, j :: 0 <= i < j < |es| ==> es[i].table != es[j].table
  }

  lemma DropsTable(table: string)
    ensures Dropped("DROP TABLE IF EXISTS " + table + ";") == Some(table)
  {
    var line := DROP + table + ";";
    assert line[..|DROP|] == DROP && line[|DROP|..|line| - 1] == table;
  }

  lemma TablesWithout(es: seq<Entity>, n: nat)
    requires DifferentTables(es) && n < |es|
    ensures TablesOf(es[..n + 1]) - {es[n].table} == TablesOf(es[..n])
  {
    forall t | t in TablesOf(es[..n]) ensures t in TablesOf(es[..n + 1]) - {es[n].table} {
      var i :| 0 <= i < n && es[..n][i].table == t;
      assert es[..n + 1][i] == es[i];
    }
    forall t | t in TablesOf(es[..n + 1]) - {es[n].table} ensures t in TablesOf(es[..n]) {
      var i :| 0 <= i < n + 1 && es[..n + 1][i].table == t;
      assert es[..n][i] == es[i];
    }
  }

  lemma OneLine(es: seq<Entity>, others: set<string>, lines: seq<string>, n: nat)
    requires 0 < n <= |es| && DifferentTables(es) && TablesOf(es) !! others
    requires n <= |lines| && lines[n - 1] == "DROP TABLE IF EXISTS " + es[|es| - n].table + ";"
    requires After(lines, n - 1, others + TablesOf(es)) == others + TablesOf(es[..|es| - n + 1])
    ensures After(lines, n, others + TablesOf(es)) == others + TablesOf(es[..|es| - n])
  {
    var e := es[|es| - n];
    DropsTable(e.table);
    TablesWithout(es, |es| - n);
    assert e.table in TablesOf(es);
  }

  lemma {:induction false} DropsInReverse(es: seq<Entity>, others: set<string>, lines: seq<string>, n: nat)
    requires n <= |es| && DifferentTables(es) && TablesOf(es) !! others && lines == DownLines(es) + [""]
    ensures After(lines, n, others + TablesOf(es)) == others + TablesOf(es[..|es| - n])
  {
    if n == 0 {
      assert es[..|es|] == es;
    } else {
      DropsInReverse(es, others, lines, n - 1);
      OneLine(es, others, lines, n);
    }
  }

  /** Run after the up script, the down script drops the tables one by one, the last one created first: after
      n lines the first |es| - n are left, and at the end none of them, with all other tables untouched. */
  lemma DownDropsAll(es: seq<Entity>, others: set<string>, n: nat)
    requires es != [] && n <= |es| && DifferentTables(es) && TablesOf(es) !! others
    requires forall i :: 0 <= i < |es| ==> '\n' !in es[i].table
    ensures var lines := Split(JoinLines(DownLines(es)) + "\n", '\n');
            && |lines| == |es| + 1 && lines[|es|] == ""
            && After(lines, n, others + TablesOf(es)) == others + TablesOf(es[..|es| - n])
  {
    LinesSplit(DownLines(es));
    DropsInReverse(es, others, DownLines(es) + [""], n);
  }
}
