/** One row of the faucet list and of the timer list, already split into
    typed fields, and the loading rules both computer versions share: the
    first definition of a faucet name wins, and a timer for a faucet that is
    not known is skipped. */
module Config {
  import opened Wrappers
  import opened FaucetTypes

  datatype FaucetRow = FaucetRow(
    name: string, faucetType: string, computerName: Option<string>,
    relay: RelayIdx, counter: string, defaultDuration: int)

  datatype TimerRow = TimerRow(
    faucet: string, timerType: string, duration: int,
    startDay: int, startHour: int, startMinute: int, startAt: int)

  /** Loading faucet rows on top of the names already present: a row whose
      name is taken is skipped (before its type is looked up); otherwise the
      type must resolve, or loading stops there with `ok` false. */
  datatype Loaded = Loaded(added: map<string, FaucetRow>, ok: bool)

  function LoadFaucets(present: set<string>, rows: seq<FaucetRow>, resolves: string -> bool): (r: Loaded)
    ensures r.added.Keys !! present
    ensures forall n :: n in r.added ==> r.added[n].name == n
  {
    if rows == [] then Loaded(map[], true)
    else LoadNext(present, LoadFaucets(present, rows[..|rows| - 1], resolves), rows[|rows| - 1], resolves)
  }

  /** One more row: nothing happens once loading has failed or when the
      row's name is taken; otherwise its type must resolve. */
  function LoadNext(present: set<string>, before: Loaded, row: FaucetRow, resolves: string -> bool): (r: Loaded)
    ensures r.ok ==> before.ok
    ensures r.added == before.added || (r.added == before.added[row.name := row] && row.name !in present && row.name !in before.added)
  {
    if !before.ok || row.name in present || row.name in before.added then before
    else if !resolves(row.faucetType) then Loaded(before.added, false)
    else Loaded(before.added[row.name := row], true)
  }

  /** Loading a list one row longer is one more step: a row whose name is
      taken is skipped, ... */
  lemma LoadSkips(present: set<string>, rows: seq<FaucetRow>, i: nat, resolves: string -> bool, added: map<string, FaucetRow>)
    requires i < |rows| && LoadFaucets(present, rows[..i], resolves) == Loaded(added, true)
    requires rows[i].name in present || rows[i].name in added
    ensures LoadFaucets(present, rows[..i + 1], resolves) == Loaded(added, true)
  {
    assert rows[..i + 1][..i] == rows[..i];
  }

  /** ... a new name whose type resolves is added, ... */
  lemma LoadAdds(present: set<string>, rows: seq<FaucetRow>, i: nat, resolves: string -> bool, added: map<string, FaucetRow>)
    requires i < |rows| && LoadFaucets(present, rows[..i], resolves) == Loaded(added, true)
    requires rows[i].name !in present && rows[i].name !in added && resolves(rows[i].faucetType)
    ensures LoadFaucets(present, rows[..i + 1], resolves) == Loaded(added[rows[i].name := rows[i]], true)
  {
    assert rows[..i + 1][..i] == rows[..i];
  }

  /** ... and a new name whose type does not resolve ends the loading. */
  lemma LoadFails(present: set<string>, rows: seq<FaucetRow>, i: nat, resolves: string -> bool, added: map<string, FaucetRow>)
    requires i < |rows| && LoadFaucets(present, rows[..i], resolves) == Loaded(added, true)
    requires rows[i].name !in present && rows[i].name !in added && !resolves(rows[i].faucetType)
    ensures LoadFaucets(present, rows, resolves) == Loaded(added, false)
  {
    assert rows[..i + 1][..i] == rows[..i];
    FailureStopsLoading(present, rows[..i + 1], rows[i + 1..], resolves);
    assert rows[..i + 1] + rows[i + 1..] == rows;
  }

  /** A loaded faucet comes from a row of the list. */
  lemma {:induction false} LoadedFromRows(present: set<string>, rows: seq<FaucetRow>, resolves: string -> bool, n: string)
    requires n in LoadFaucets(present, rows, resolves).added
    ensures LoadFaucets(present, rows, resolves).added[n] in rows
  {
    var before := LoadFaucets(present, rows[..|rows| - 1], resolves);
    if n in before.added {
      LoadedFromRows(present, rows[..|rows| - 1], resolves, n);
    }
  }

  /** The first row that defines a new name is the one kept, provided loading
      got that far. */
  lemma {:induction false} FirstDefinitionWins(present: set<string>, rows: seq<FaucetRow>, resolves: string -> bool, k: nat)
    requires k < |rows|
    requires rows[k].name !in present
    requires forall j :: 0 <= j < k ==> rows[j].name != rows[k].name
    requires LoadFaucets(present, rows[..k + 1], resolves).ok
    ensures rows[k].name in LoadFaucets(present, rows, resolves).added
    ensures LoadFaucets(present, rows, resolves).added[rows[k].name] == rows[k]
  {
    if |rows| == k + 1 {
      assert rows[..k + 1] == rows;
      var before := LoadFaucets(present, rows[..k], resolves);
      assert rows[..k + 1][..k] == rows[..k];
      NotLoadedBeforeDefined(present, rows[..k], resolves, rows[k].name);
    } else {
      var init := rows[..|rows| - 1];
      assert init[..k + 1] == rows[..k + 1];
      FirstDefinitionWins(present, init, resolves, k);
    }
  }

  lemma {:induction false} NotLoadedBeforeDefined(present: set<string>, rows: seq<FaucetRow>, resolves: string -> bool, n: string)
    requires forall j :: 0 <= j < |rows| ==> rows[j].name != n
    ensures n !in LoadFaucets(present, rows, resolves).added
  {
    if rows != [] {
      NotLoadedBeforeDefined(present, rows[..|rows| - 1], resolves, n);
    }
  }

  /** Once a lookup has failed, later rows are never loaded. */
  lemma {:induction false} FailureStopsLoading(present: set<string>, rows: seq<FaucetRow>, more: seq<FaucetRow>, resolves: string -> bool)
    requires !LoadFaucets(present, rows, resolves).ok
    ensures LoadFaucets(present, rows + more, resolves) == LoadFaucets(present, rows, resolves)
    decreases |more|
  {
    if more != [] {
      var init := more[..|more| - 1];
      assert (rows + more)[..|rows + more| - 1] == rows + init;
      FailureStopsLoading(present, rows, init, resolves);
    } else {
      assert rows + more == rows;
    }
  }

  /** The timer rows whose faucet is known, in file order. */
  function KnownTimerRows(rows: seq<TimerRow>, known: set<string>): (r: seq<TimerRow>)
    ensures |r| <= |rows|
    ensures forall i :: 0 <= i < |r| ==> r[i].faucet in known && r[i] in rows
  {
    if rows == [] then []
    else
      var before := KnownTimerRows(rows[..|rows| - 1], known);
      if rows[|rows| - 1].faucet in known then before + [rows[|rows| - 1]] else before
  }

  /** Every row for a known faucet is kept, and nothing is reordered: the
      kept rows are the known ones of any prefix followed by those after it. */
  lemma {:induction false} KnownTimerRowsAppend(a: seq<TimerRow>, b: seq<TimerRow>, known: set<string>)
    ensures KnownTimerRows(a + b, known) == KnownTimerRows(a, known) + KnownTimerRows(b, known)
    decreases |b|
  {
    if b == [] {
      assert a + b == a;
    } else {
      var init := b[..|b| - 1];
      assert (a + b)[..|a + b| - 1] == a + init;
      KnownTimerRowsAppend(a, init, known);
    }
  }
}
