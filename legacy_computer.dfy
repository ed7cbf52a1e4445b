/** The older irrigation computer (icomputer.py): faucets of faucet.py, timers
    of timers.py, one tick of the control loop that opens and closes the
    faucets of this computer, and the loading of the faucet and timer lists.

    The clock is the `now` parameter (minutes, see the Timers module); the
    action log is returned as the list of messages a tick writes. */
module LegacyComputer {
  import opened Wrappers
  import opened FaucetTypes
  import opened Config
  import opened Timers
  import FaucetLegacy

  // ---------------------------------------------------------------------
  // Which faucets the timers want open

  /** The `should_be_open` set of a tick: the names of this computer's
      faucets that some timer wants open. None when a timer of this computer
      cannot answer (a plain timer has no `should_be_open`, so the loop
      raises there). */
  function LocalTarget(ts: seq<Timer>, local: set<string>, now: int): (r: Option<set<string>>)
    ensures r.Some? <==> forall t :: t in ts && t.faucet in local ==> ShouldBeOpen(t, now).Some?
    ensures r.Some? ==> forall n :: n in r.value <==>
              n in local && exists t :: t in ts && t.faucet == n && ShouldBeOpen(t, now) == Some(true)
  {
    if ts == [] then Some({})
    else
      var init := ts[..|ts| - 1];
      var t := ts[|ts| - 1];
      assert forall x :: x in ts <==> x in init || x == t;
      TargetStep(LocalTarget(init, local, now), t, local, now)
  }

  /** One more timer of the scan: a timer of another computer is skipped, and
      one that cannot answer stops the scan. */
  function TargetStep(before: Option<set<string>>, t: Timer, local: set<string>, now: int): Option<set<string>> {
    if before.None? then None
    else if t.faucet !in local then before
    else match ShouldBeOpen(t, now)
      case None => None
      case Some(b) => Some(before.value + (if b then {t.faucet} else {}))
  }

  lemma LocalTargetStep(ts: seq<Timer>, i: nat, local: set<string>, now: int)
    requires i < |ts|
    ensures LocalTarget(ts[..i + 1], local, now) == TargetStep(LocalTarget(ts[..i], local, now), ts[i], local, now)
  {
    assert ts[..i + 1][..i] == ts[..i];
  }

  /** A timer that raised stops the whole scan. */
  lemma LocalTargetStops(ts: seq<Timer>, k: nat, local: set<string>, now: int)
    requires k <= |ts| && LocalTarget(ts[..k], local, now).None?
    ensures LocalTarget(ts, local, now).None?
  {
    var t :| t in ts[..k] && t.faucet in local && ShouldBeOpen(t, now).None?;
    assert t in ts;
  }

  // ---------------------------------------------------------------------
  // The action log of a tick

  function OpenedMessage(name: string): string {
    "opened faucet " + name
  }

  function ClosedMessage(name: string): string {
    "closed faucet " + name
  }

  /** The message a tick writes for one faucet: only a local faucet whose
      state disagrees with the target is switched, and each switch is
      logged once. */
  function MessagesFor(n: string, wasOpen: bool, local: set<string>, target: set<string>): seq<string> {
    if n !in local then []
    else if wasOpen && n !in target then [ClosedMessage(n)]
    else if !wasOpen && n in target then [OpenedMessage(n)]
    else []
  }

  /** The action log of a tick over the faucets in dictionary order. */
  function TickLog(names: seq<string>, open: set<string>, local: set<string>, target: set<string>): seq<string>
  {
    if names == [] then []
    else
      var n := names[|names| - 1];
      TickLog(names[..|names| - 1], open, local, target) + MessagesFor(n, n in open, local, target)
  }

  lemma TickLogSnoc(names: seq<string>, n: string, open: set<string>, local: set<string>, target: set<string>)
    ensures TickLog(names + [n], open, local, target) == TickLog(names, open, local, target) + MessagesFor(n, n in open, local, target)
  {
    assert (names + [n])[..|names|] == names;
  }

  /** Whether the tick switches faucet n. */
  predicate Switches(n: string, wasOpen: bool, local: set<string>, target: set<string>) {
    n in local && wasOpen != (n in target)
  }

  lemma MessagesDiffer(a: string, b: string)
    ensures OpenedMessage(a) != ClosedMessage(b)
    ensures OpenedMessage(a) == OpenedMessage(b) ==> a == b
    ensures ClosedMessage(a) == ClosedMessage(b) ==> a == b
  {
    assert OpenedMessage(a)[0] == 'o' && ClosedMessage(b)[0] == 'c';
    if OpenedMessage(a) == OpenedMessage(b) {
      assert a == OpenedMessage(a)[14..] && b == OpenedMessage(b)[14..];
    }
    if ClosedMessage(a) == ClosedMessage(b) {
      assert a == ClosedMessage(a)[14..] && b == ClosedMessage(b)[14..];
    }
  }

  /** The log names exactly the switched faucets: "opened faucet n" for one
      that was closed, "closed faucet n" for one that was open. */
  lemma {:induction false} TickLogMessages(names: seq<string>, open: set<string>, local: set<string>, target: set<string>, m: string)
    ensures m in TickLog(names, open, local, target) <==>
              exists n :: n in names && Switches(n, n in open, local, target) &&
                          m == (if n in open then ClosedMessage(n) else OpenedMessage(n))
  {
    if names != [] {
      var init := names[..|names| - 1];
      var last := names[|names| - 1];
      assert forall x :: x in names <==> x in init || x == last;
      TickLogMessages(init, open, local, target, m);
    }
  }

  /** A switch the faucet did not take is logged all the same: a local
      faucet outside `accepted` that should change keeps its state, yet its
      message is in the log. */
  lemma LoggedWithoutSwitch(names: seq<string>, open: set<string>, local: set<string>, target: set<string>,
                            accepted: set<string>, n: string)
    requires n in names && Switches(n, n in open, local, target) && n !in accepted
    ensures (if n in open then ClosedMessage(n) else OpenedMessage(n)) in TickLog(names, open, local, target)
    ensures n in (open - local * accepted) + target * (local * accepted) <==> n in open
  {
    TickLogMessages(names, open, local, target, if n in open then ClosedMessage(n) else OpenedMessage(n));
  }

  predicate Distinct(s: seq<string>) {
    forall i, j :: 0 <= i < j < |s| ==> s[i] != s[j]
  }

  /** A name not yet in a list without repeats can be appended to it. */
  lemma DistinctSnoc(s: seq<string>, n: string)
    requires Distinct(s) && n !in s
    ensures Distinct(s + [n])
  {
  }

  /** In a list without repeats, position i holds the only copy of its name. */
  lemma DistinctAt(s: seq<string>, i: int)
    requires Distinct(s) && 0 <= i < |s|
    ensures forall k :: 0 <= k < |s| && k != i ==> s[k] != s[i]
  {
    forall k | 0 <= k < |s| && k != i
      ensures s[k] != s[i]
    {
      if k < i {
        assert s[k] != s[i];
      } else {
        assert s[i] != s[k];
      }
    }
  }

  /** No message is written twice when the faucet names are distinct, so
      every switch is logged exactly once. */
  lemma {:induction false} TickLogDistinct(names: seq<string>, open: set<string>, local: set<string>, target: set<string>)
    requires Distinct(names)
    ensures Distinct(TickLog(names, open, local, target))
  {
    if names != [] {
      var init := names[..|names| - 1];
      var last := names[|names| - 1];
      TickLogDistinct(init, open, local, target);
      var before := TickLog(init, open, local, target);
      var here := MessagesFor(last, last in open, local, target);
      if here != [] {
        assert |here| == 1;
        forall m | m in before
          ensures m != here[0]
        {
          TickLogMessages(init, open, local, target, m);
          var n :| n in init && Switches(n, n in open, local, target) &&
                   m == (if n in open then ClosedMessage(n) else OpenedMessage(n));
          var k :| 0 <= k < |init| && init[k] == n;
          assert names[k] == n && n != last;
          MessagesDiffer(n, last);
          MessagesDiffer(last, n);
        }
        var log := before + here;
        assert TickLog(names, open, local, target) == log;
        forall i, j | 0 <= i < j < |log|
          ensures log[i] != log[j]
        {
          if j < |before| {
            assert log[i] == before[i] && log[j] == before[j];
            assert before[i] != before[j];
          } else {
            assert log[i] == before[i] && log[j] == here[0];
            assert before[i] in before;
            assert before[i] != here[0];
          }
        }
      }
    }
  }

  // ---------------------------------------------------------------------
  // Loading the timer list

  /** The timer a row describes; None when the start time is not a time of
      day (`datetime.time` raises). Only weekly rows have a start time. */
  function TimerOfRow(row: TimerRow): Option<Timer> {
    if row.timerType == "weekly" then
      if 0 <= row.startHour < 24 && 0 <= row.startMinute < 60 then
        Some(NewWeeklyTimer(row.duration, row.faucet, row.startDay, row.startHour, row.startMinute))
      else None
    else Some(NewTimer(row.duration, row.faucet))
  }

  /** What `read_timers` appends, and whether it got through all rows. */
  datatype TimersRead = TimersRead(timers: seq<Timer>, ok: bool)

  function ReadTimerRows(rows: seq<TimerRow>, known: set<string>): (r: TimersRead)
    ensures forall t :: t in r.timers ==> t.faucet in known
  {
    if rows == [] then TimersRead([], true)
    else
      var before := ReadTimerRows(rows[..|rows| - 1], known);
      var row := rows[|rows| - 1];
      if !before.ok || row.faucet !in known then before
      else match TimerOfRow(row)
        case None => TimersRead(before.timers, false)
        case Some(t) => TimersRead(before.timers + [t], true)
  }

  /** When every row is readable, one timer is appended per row of a known
      faucet, in file order, with that row's faucet and duration. */
  lemma {:induction false} ReadTimerRowsKeepsKnown(rows: seq<TimerRow>, known: set<string>)
    requires ReadTimerRows(rows, known).ok
    ensures var ts := ReadTimerRows(rows, known).timers;
            var kept := KnownTimerRows(rows, known);
            |ts| == |kept| &&
            forall i :: 0 <= i < |ts| ==> ts[i].faucet == kept[i].faucet && ts[i].duration == kept[i].duration
  {
    if rows != [] {
      ReadTimerRowsKeepsKnown(rows[..|rows| - 1], known);
    }
  }

  // ---------------------------------------------------------------------
  // The computer

  class IComputer {
    const computerName: string
    var faucets: map<string, FaucetLegacy.Faucet>
    /** The faucet names in the order they were added (dictionary order). */
    var names: seq<string>
    var timers: seq<Timer>

    ghost predicate Valid()
      reads this
    {
      Consistent(faucets, names, timers)
    }

    /** The computer starts with no faucets and no timers; the lists are
        then loaded with ReadFaucets and ReadTimers. */
    constructor (computerName: string)
      ensures this.computerName == computerName
      ensures faucets == map[] && names == [] && timers == []
      ensures Valid()
    {
      this.computerName := computerName;
      faucets := map[];
      names := [];
      timers := [];
    }

    /** `is_faucet_on_computer`: the faucet's computer is this one. A faucet
        without a computer name is on no computer. */
    function IsFaucetOnComputer(f: FaucetLegacy.Faucet): (r: bool)
      ensures r <==> f.computerName.Some? && f.computerName.value == computerName
    {
      f.computerName == Some(computerName)
    }

    /** The names of the faucets on this computer. */
    function Locals(): (r: set<string>)
      reads this
      ensures forall n :: n in r <==> n in faucets && IsFaucetOnComputer(faucets[n])
    {
      set n | n in faucets && IsFaucetOnComputer(faucets[n])
    }

    /** The faucets that are open. */
    function OpenNames(): (r: set<string>)
      reads this, faucets.Values
      ensures forall n :: n in r <==> n in faucets && faucets[n].isOpen
    {
      set n | n in faucets && faucets[n].isOpen
    }

    /** One tick of `main_loop`: the `should_be_open` set from this
        computer's timers, then every faucet of this computer opened or
        closed to match it, with one log message per switch. Faucets of
        other computers are left alone. `ok` is false when a timer raised;
        then nothing was switched.

        `accepted` names the faucets whose `open()`/`close()` takes effect
        at this tick: every base `Faucet`, and a `NumatoFaucet` whose serial
        write succeeds (NumatoFaucet.Open and Close). The result of the call
        is not looked at, so the log reports a switch either way. */
    method Tick(now: int, accepted: set<string>) returns (ok: bool, log: seq<string>)
      requires Valid()
      modifies faucets.Values
      ensures ok == LocalTarget(timers, Locals(), now).Some?
      ensures !ok ==> log == [] && forall n :: n in faucets ==> faucets[n].isOpen == old(faucets[n].isOpen)
      ensures ok ==>
                var target := LocalTarget(timers, Locals(), now).value;
                && log == TickLog(names, old(OpenNames()), Locals(), target)
                && forall n :: n in faucets ==>
                     faucets[n].isOpen == if n in Locals() && n in accepted then n in target else old(faucets[n].isOpen)
    {
      var target := ShouldBeOpenNow(now);
      if target.None? {
        return false, [];
      }
      ok := true;
      log := Switch(target.value, accepted);
    }

    /** The first half of a tick: the `should_be_open` set, collected over
        the timers of this computer; None when one of them raises. */
    method ShouldBeOpenNow(now: int) returns (target: Option<set<string>>)
      requires Valid()
      ensures target == LocalTarget(timers, Locals(), now)
    {
      var found: set<string> := {};
      ghost var local := Locals();
      var i := 0;
      while i < |timers|
        invariant 0 <= i <= |timers|
        invariant LocalTarget(timers[..i], local, now) == Some(found)
      {
        var t := timers[i];
        LocalTargetStep(timers, i, local, now);
        if IsFaucetOnComputer(faucets[t.faucet]) {
          var answer := ShouldBeOpen(t, now);
          if answer.None? {
            LocalTargetStops(timers, i + 1, local, now);
            return None;
          }
          found := found + (if answer.value then {t.faucet} else {});
        }
        i := i + 1;
      }
      assert timers[..|timers|] == timers;
      target := Some(found);
    }

    /** The second half of a tick: every faucet of this computer switched to
        agree with `target`, in dictionary order. Only the faucets of
        `accepted` take the switch, but every switch is logged. */
    method Switch(target: set<string>, accepted: set<string>) returns (log: seq<string>)
      requires Valid()
      modifies faucets.Values
      ensures log == TickLog(names, old(OpenNames()), Locals(), target)
      ensures OpenNames() == (old(OpenNames()) - Locals() * accepted) + target * (Locals() * accepted)
    {
      ghost var open0 := OpenNames();
      ghost var local := Locals();
      ghost var moved := local * accepted;
      ghost var done: set<string> := {};
      log := [];
      var j := 0;
      while j < |names|
        invariant 0 <= j <= |names|
        invariant log == TickLog(names[..j], open0, local, target)
        invariant forall k :: 0 <= k < |names| ==> (names[k] in done <==> k < j)
        invariant OpenNames() == (open0 - moved * done) + target * moved * done
      {
        var msgs := SwitchNext(j, target, accepted, open0, local, moved, done, log);
        log := log + msgs;
        done := done + {names[j]};
        j := j + 1;
      }
      assert names[..|names|] == names;
      assert forall n :: n in moved ==> n in names;
      AllNamesDone(names, done, moved, open0, OpenNames(), target);
    }

    /** The faucet at position j of the dictionary order, switched after
        those before it. */
    method SwitchNext(j: nat, target: set<string>, accepted: set<string>, ghost open0: set<string>,
                      ghost local: set<string>, ghost moved: set<string>,
                      ghost done: set<string>, ghost log: seq<string>) returns (msgs: seq<string>)
      requires Valid() && j < |names| && local == Locals() && moved == local * accepted
      requires log == TickLog(names[..j], open0, local, target)
      requires forall k :: 0 <= k < |names| ==> (names[k] in done <==> k < j)
      requires OpenNames() == (open0 - moved * done) + target * moved * done
      modifies faucets[names[j]]
      ensures log + msgs == TickLog(names[..j + 1], open0, local, target)
      ensures forall k :: 0 <= k < |names| ==> (names[k] in done + {names[j]} <==> k < j + 1)
      ensures OpenNames() == (open0 - moved * (done + {names[j]})) + target * moved * (done + {names[j]})
    {
      var n := names[j];
      DistinctAt(names, j);
      assert names[..j + 1] == names[..j] + [n];
      TickLogSnoc(names[..j], n, open0, local, target);
      ghost var openNow := OpenNames();
      assert n !in done;
      assert n in open0 <==> n in openNow;
      msgs := SwitchOne(n, target, accepted);
      SwitchStep(open0, openNow, OpenNames(), moved, target, done, n);
    }

    /** One faucet of the second half of a tick. The call to `open()` or
        `close()` takes effect only for a faucet in `accepted`; the message
        is written either way. */
    method SwitchOne(n: string, target: set<string>, accepted: set<string>) returns (msgs: seq<string>)
      requires Valid() && n in faucets
      modifies faucets[n]
      ensures msgs == MessagesFor(n, n in old(OpenNames()), Locals(), target)
      ensures OpenNames() == (old(OpenNames()) - Locals() * accepted * {n}) + target * (Locals() * accepted) * {n}
    {
      var f := faucets[n];
      msgs := [];
      if IsFaucetOnComputer(f) {
        if f.isOpen {
          if n !in target {
            if n in accepted {
              f.Close();
            }
            msgs := [ClosedMessage(n)];
          }
        } else if n in target {
          if n in accepted {
            f.Open();
          }
          msgs := [OpenedMessage(n)];
        }
      }
    }

    /** `read_faucets`: rows are added on top of the faucets already there;
        a name already present, or defined earlier in the list, is skipped,
        so the first definition wins. `ok` is false when a faucet type
        cannot be resolved; the source raises there. */
    method ReadFaucets(rows: seq<FaucetRow>, modules: ModuleTable) returns (ok: bool)
      requires Valid()
      modifies this`faucets, this`names
      ensures Valid()
      ensures var loaded := LoadFaucets(old(faucets).Keys, rows, ResolvableTopLevel(modules));
              && ok == loaded.ok
              && faucets.Keys == old(faucets).Keys + loaded.added.Keys
              && forall n :: n in loaded.added ==> fresh(faucets[n]) && BuiltFrom(faucets[n], loaded.added[n]) && !faucets[n].isOpen
      ensures forall n :: n in old(faucets) ==> faucets[n] == old(faucets)[n]
      ensures |names| >= |old(names)| && names[..|old(names)|] == old(names)
    {
      ghost var present := faucets.Keys;
      ghost var before := faucets;
      ghost var names0 := names;
      assert names[..|names0|] == names0;
      ghost var added, made;
      ok, added, made := LoadRows(rows, modules, present, before, names0);
    }

    /** The loop of ReadFaucets: rows are loaded in order until one names a
        class that cannot be found. */
    method LoadRows(rows: seq<FaucetRow>, modules: ModuleTable, ghost present: set<string>,
                    ghost before: map<string, FaucetLegacy.Faucet>, ghost names0: seq<string>)
      returns (ok: bool, ghost added: map<string, FaucetRow>, ghost made: set<FaucetLegacy.Faucet>)
      requires Loading(faucets, names, timers, present, before, names0, map[], {})
      modifies this`faucets, this`names
      ensures LoadFaucets(present, rows, ResolvableTopLevel(modules)) == Loaded(added, ok)
      ensures Loading(faucets, names, timers, present, before, names0, added, made)
      ensures fresh(made) && AllClosed(made)
    {
      added, made := map[], {};
      ok := true;
      var i := 0;
      while ok && i < |rows|
        modifies this`faucets, this`names
        invariant 0 <= i <= |rows|
        invariant ok ==> LoadFaucets(present, rows[..i], ResolvableTopLevel(modules)) == Loaded(added, true)
        invariant !ok ==> LoadFaucets(present, rows, ResolvableTopLevel(modules)) == Loaded(added, false)
        invariant Loading(faucets, names, timers, present, before, names0, added, made)
        invariant fresh(made) && AllClosed(made)
        decreases |rows| - i, ok
      {
        var stop;
        ghost var more;
        stop, added, more := LoadRow(rows, i, modules, present, before, names0, added, made);
        made := made + more;
        ok, i := !stop, if stop then i else i + 1;
      }
      if ok {
        assert rows[..|rows|] == rows;
      }
    }

    /** One row of ReadFaucets: a name already loaded is skipped, a class that
        cannot be found stops the loading, and otherwise a new faucet is added. */
    method LoadRow(rows: seq<FaucetRow>, i: nat, modules: ModuleTable, ghost present: set<string>,
                   ghost before: map<string, FaucetLegacy.Faucet>, ghost names0: seq<string>,
                   ghost added: map<string, FaucetRow>, ghost made: set<FaucetLegacy.Faucet>)
      returns (stop: bool, ghost added': map<string, FaucetRow>, ghost more: set<FaucetLegacy.Faucet>)
      requires i < |rows|
      requires LoadFaucets(present, rows[..i], ResolvableTopLevel(modules)) == Loaded(added, true)
      requires Loading(faucets, names, timers, present, before, names0, added, made) && AllClosed(made)
      modifies this`faucets, this`names
      ensures stop ==> LoadFaucets(present, rows, ResolvableTopLevel(modules)) == Loaded(added', false)
      ensures !stop ==> LoadFaucets(present, rows[..i + 1], ResolvableTopLevel(modules)) == Loaded(added', true)
      ensures Loading(faucets, names, timers, present, before, names0, added', made + more)
      ensures fresh(more) && AllClosed(made + more)
    {
      var row := rows[i];
      ghost var resolves := ResolvableTopLevel(modules);
      if row.name in faucets {
        LoadSkips(present, rows, i, resolves, added);
        stop, added', more := false, added, {};
      } else if GetFaucetClassTopLevel(row.faucetType, modules).Failure? {
        LoadFails(present, rows, i, resolves, added);
        stop, added', more := true, added, {};
      } else {
        LoadAdds(present, rows, i, resolves, added);
        var f := AddFaucet(row, present, before, names0, added, made);
        stop, added', more := false, added[row.name := row], {f};
      }
    }

    /** A new, closed faucet built from the row, added under its name. */
    method AddFaucet(row: FaucetRow, ghost present: set<string>,
                     ghost before: map<string, FaucetLegacy.Faucet>, ghost names0: seq<string>,
                     ghost added: map<string, FaucetRow>, ghost made: set<FaucetLegacy.Faucet>)
      returns (ghost f: FaucetLegacy.Faucet)
      requires Loading(faucets, names, timers, present, before, names0, added, made) && AllClosed(made)
      requires row.name !in faucets
      modifies this`faucets, this`names
      ensures fresh(f)
      ensures Loading(faucets, names, timers, present, before, names0, added[row.name := row], made + {f})
      ensures AllClosed(made + {f})
    {
      var g := new FaucetLegacy.Faucet(row.name, row.computerName, row.faucetType, row.relay);
      assert AllClosed(made + {g});
      LoadingAdd(faucets, names, timers, present, before, names0, added, made, row, g);
      faucets, names := faucets[row.name := g], names + [row.name];
      f := g;
    }

    /** `read_timers`: the timers of the rows whose faucet is known appended
        to the existing list. `ok` is false when a row's start time is not a
        time of day; the source raises there, keeping what it appended. */
    method ReadTimers(rows: seq<TimerRow>) returns (ok: bool)
      requires Valid()
      modifies this`timers
      ensures Valid()
      ensures var read := ReadTimerRows(rows, faucets.Keys);
              ok == read.ok && timers == old(timers) + read.timers
    {
      ghost var timers0 := timers;
      var i := 0;
      while i < |rows|
        invariant 0 <= i <= |rows|
        invariant Valid()
        invariant ReadTimerRows(rows[..i], faucets.Keys).ok
        invariant timers == timers0 + ReadTimerRows(rows[..i], faucets.Keys).timers
      {
        var row := rows[i];
        assert rows[..i + 1][..i] == rows[..i];
        if row.faucet in faucets {
          var t := TimerOfRow(row);
          if t.None? {
            ReadTimersStop(rows[..i + 1], rows[i + 1..], faucets.Keys);
            assert rows[..i + 1] + rows[i + 1..] == rows;
            return false;
          }
          timers := timers + [t.value];
        }
        i := i + 1;
      }
      assert rows[..|rows|] == rows;
      assert Consistent(faucets, names, timers);
      ok := true;
    }
  }

  /** Faucets are keyed by their own names (so distinct names hold distinct
      objects), listed once each in `names`; every timer belongs to a
      listed faucet. */
  ghost predicate Consistent(faucets: map<string, FaucetLegacy.Faucet>, names: seq<string>, timers: seq<Timer>) {
    && (forall n :: n in faucets ==> faucets[n].name == n)
    && (forall n :: n in faucets <==> n in names)
    && Distinct(names)
    && (forall t :: t in timers ==> t.faucet in faucets)
  }

  /** While `read_faucets` runs: the faucets that were there are kept, every
      faucet loaded so far is one of `made` and built from its row, and the
      names only grow. */
  ghost predicate Loading(faucets: map<string, FaucetLegacy.Faucet>, names: seq<string>, timers: seq<Timer>,
                          present: set<string>, before: map<string, FaucetLegacy.Faucet>, names0: seq<string>,
                          added: map<string, FaucetRow>, made: set<FaucetLegacy.Faucet>)
  {
    && Consistent(faucets, names, timers)
    && faucets.Keys == present + added.Keys
    && (forall n :: n in before ==> n in faucets && faucets[n] == before[n])
    && (forall n :: n in added ==> n in faucets && faucets[n] in made && BuiltFrom(faucets[n], added[n]))
    && |names| >= |names0| && names[..|names0|] == names0
  }

  /** Adding a faucet built from a row with a new name keeps loading on track. */
  lemma LoadingAdd(faucets: map<string, FaucetLegacy.Faucet>, names: seq<string>, timers: seq<Timer>,
                   present: set<string>, before: map<string, FaucetLegacy.Faucet>, names0: seq<string>,
                   added: map<string, FaucetRow>, made: set<FaucetLegacy.Faucet>,
                   row: FaucetRow, f: FaucetLegacy.Faucet)
    requires Loading(faucets, names, timers, present, before, names0, added, made)
    requires row.name !in faucets && BuiltFrom(f, row)
    ensures Loading(faucets[row.name := f], names + [row.name], timers, present, before, names0,
                    added[row.name := row], made + {f})
  {
    DistinctSnoc(names, row.name);
    assert (names + [row.name])[..|names0|] == names[..|names0|];
  }

  /** The faucets in `made` are closed. */
  ghost predicate AllClosed(made: set<FaucetLegacy.Faucet>)
    reads made
  {
    forall f :: f in made ==> !f.isOpen
  }

  /** A faucet built from a row of the faucet list. */
  ghost predicate BuiltFrom(f: FaucetLegacy.Faucet, row: FaucetRow) {
    && f.name == row.name && f.faucetType == row.faucetType
    && f.computerName == row.computerName && f.relayIdx == row.relay
  }

  /** Once a row has raised, later rows are not read. */
  lemma {:induction false} ReadTimersStop(rows: seq<TimerRow>, more: seq<TimerRow>, known: set<string>)
    requires !ReadTimerRows(rows, known).ok
    ensures ReadTimerRows(rows + more, known) == ReadTimerRows(rows, known)
    decreases |more|
  {
    if more == [] {
      assert rows + more == rows;
    } else {
      var init := more[..|more| - 1];
      assert (rows + more)[..|rows + more| - 1] == rows + init;
      ReadTimersStop(rows, init, known);
    }
  }

  /** Set algebra of one step of `Switch`: switching `n` extends the set of
      names already done by one. */
  lemma SwitchStep(open0: set<string>, before: set<string>, after: set<string>,
                   local: set<string>, target: set<string>, done: set<string>, n: string)
    requires before == (open0 - local * done) + target * local * done
    requires after == (before - local * {n}) + target * local * {n}
    requires n !in done
    ensures after == (open0 - local * (done + {n})) + target * local * (done + {n})
  {
  }

  /** After the loop of `Switch` every name, local ones included, is done,
      so every local faucet has been switched. */
  lemma AllNamesDone(names: seq<string>, done: set<string>, local: set<string>,
                     open0: set<string>, after: set<string>, target: set<string>)
    requires forall k :: 0 <= k < |names| ==> names[k] in done
    requires forall n :: n in local ==> n in names
    requires after == (open0 - local * done) + target * local * done
    ensures after == (open0 - local) + target * local
  {
    forall n | n in local
      ensures n in done
    {
      var k :| 0 <= k < |names| && names[k] == n;
    }
    assert local * done == local;
  }
}
