/** The irrigation computer of the icomputer package (icomputer/icomputer.py):
    its faucets and timers, one tick of the control loop, the manual-command
    interpreter and the reload of the faucet and timer lists.

    The timers module of this package, `Faucet.is_local` and
    `Faucet.add_flow_count` are not part of this model's sources; the tick
    receives their answers as parameters. */
module Computer {
  import opened Wrappers
  import opened Text
  import opened FaucetTypes
  import opened Config
  import F = Faucet

  // ---------------------------------------------------------------------
  // Timers as this package uses them

  datatype TimerKind =
    | GenericTimer
    | WeeklyTimer(startDay: int, startHour: int, startMinute: int)
    | SingleTimer(start: Option<int>, isManual: bool)

  /** A timer of the named faucet. */
  datatype Timer = Timer(faucet: string, duration: int, kind: TimerKind)

  predicate IsManualSingle(t: Timer) {
    t.kind.SingleTimer? && t.kind.isManual
  }

  /** The manual single timers of one faucet, or of all with None. */
  function ManualOf(who: Option<string>): Timer -> bool {
    t => IsManualSingle(t) && (who.None? || t.faucet == who.value)
  }

  function Not(p: Timer -> bool): Timer -> bool {
    x => !p(x)
  }

  function NotIn(delete: seq<Timer>): Timer -> bool {
    x => x !in delete
  }

  /** The timer a manual `open` adds: single, manual, no start time. */
  function ManualTimer(faucet: string, duration: int): Timer {
    Timer(faucet, duration, SingleTimer(None, true))
  }

  /** The timer a row of the timer list describes. */
  function TimerOf(row: TimerRow): Timer {
    if row.timerType == "weekly" then Timer(row.faucet, row.duration, WeeklyTimer(row.startDay, row.startHour, row.startMinute))
    else if row.timerType == "single" then Timer(row.faucet, row.duration, SingleTimer(Some(row.startAt), false))
    else Timer(row.faucet, row.duration, GenericTimer)
  }

  function TimersOf(rows: seq<TimerRow>): (r: seq<Timer>)
    ensures |r| == |rows| && forall i :: 0 <= i < |rows| ==> r[i] == TimerOf(rows[i])
  {
    seq(|rows|, i requires 0 <= i < |rows| => TimerOf(rows[i]))
  }

  /** The timers that satisfy p, in list order (FilterAppend and
      FilterSingle give the order, FilterCounts the multiplicities). */
  function Filter(ts: seq<Timer>, p: Timer -> bool): (r: seq<Timer>)
    ensures |r| <= |ts|
    ensures forall x :: x in r <==> x in ts && p(x)
  {
    if ts == [] then []
    else Filter(ts[..|ts| - 1], p) + (if p(ts[|ts| - 1]) then [ts[|ts| - 1]] else [])
  }

  /** Filtering a concatenation filters each part and keeps the parts in
      order. With FilterSingle this pins down the order of the result. */
  lemma {:induction false} FilterAppend(a: seq<Timer>, b: seq<Timer>, p: Timer -> bool)
    ensures Filter(a + b, p) == Filter(a, p) + Filter(b, p)
    decreases |b|
  {
    if b == [] {
      assert a + b == a;
    } else {
      var ab, init, last := a + b, b[..|b| - 1], b[|b| - 1];
      var keep := if p(last) then [last] else [];
      assert ab[..|ab| - 1] == a + init;
      assert ab[|ab| - 1] == last;
      var front := Filter(a + init, p);
      assert Filter(ab, p) == front + keep;
      FilterAppend(a, init, p);
      assert front == Filter(a, p) + Filter(init, p);
      assert Filter(b, p) == Filter(init, p) + keep;
      assert front + keep == Filter(a, p) + (Filter(init, p) + keep);
    }
  }

  /** Filtering keeps every timer that satisfies p as often as it occurs,
      duplicates included, and drops every other. */
  lemma {:induction false} FilterCounts(ts: seq<Timer>, p: Timer -> bool)
    ensures forall x :: multiset(Filter(ts, p))[x] == if p(x) then multiset(ts)[x] else 0
  {
    if ts != [] {
      var init, last := ts[..|ts| - 1], ts[|ts| - 1];
      assert ts == init + [last];
      FilterCounts(init, p);
    }
  }

  /** A single timer is kept iff it satisfies p. */
  lemma FilterSingle(x: Timer, p: Timer -> bool)
    ensures Filter([x], p) == if p(x) then [x] else []
  {
    assert [x][..0] == [];
  }

  /** `delete_timers`: an empty delete list leaves the list as it is;
      otherwise the timers not in the delete list, in order. */
  function Deleted(ts: seq<Timer>, delete: seq<Timer>): seq<Timer> {
    if |delete| == 0 then ts else Filter(ts, NotIn(delete))
  }

  lemma {:induction false} FilterCongruent(ts: seq<Timer>, p: Timer -> bool, q: Timer -> bool)
    requires forall x :: x in ts ==> p(x) == q(x)
    ensures Filter(ts, p) == Filter(ts, q)
  {
    if ts != [] {
      var init := ts[..|ts| - 1];
      assert forall x :: x in init ==> x in ts;
      FilterCongruent(init, p, q);
    }
  }

  lemma {:induction false} FilterAll(ts: seq<Timer>, p: Timer -> bool)
    requires forall x :: x in ts ==> p(x)
    ensures Filter(ts, p) == ts
  {
    if ts != [] {
      var init, last := ts[..|ts| - 1], ts[|ts| - 1];
      assert ts == init + [last];
      forall x | x in init
        ensures p(x)
      {
        assert x in ts;
      }
      FilterAll(init, p);
      assert p(last);
    }
  }

  /** Deleting the timers picked by a predicate keeps exactly the others, in
      order; and the early return for an empty delete list changes nothing. */
  lemma DeletePicked(ts: seq<Timer>, p: Timer -> bool)
    ensures Deleted(ts, Filter(ts, p)) == Filter(ts, Not(p))
  {
    var d := Filter(ts, p);
    if |d| == 0 {
      FilterAll(ts, Not(p));
    } else {
      FilterCongruent(ts, NotIn(d), Not(p));
    }
  }

  /** What `delete_timers` removes: a timer survives iff it is not in the
      delete list (all of them survive when the list is empty). */
  lemma DeletedMembers(ts: seq<Timer>, delete: seq<Timer>, x: Timer)
    ensures x in Deleted(ts, delete) <==> x in ts && x !in delete
  {
  }

  // ---------------------------------------------------------------------
  // One tick of the control loop, as functions of the state before it

  /** The faucets some timer wants open: the OR over all timers. */
  function ActiveNames(ts: seq<Timer>, shouldBeOpen: Timer -> bool): (r: set<string>)
    ensures forall n :: n in r <==> exists t :: t in ts && shouldBeOpen(t) && t.faucet == n
  {
    if ts == [] then {}
    else
      var t := ts[|ts| - 1];
      assert forall x :: x in ts <==> x in ts[..|ts| - 1] || x == t;
      ActiveNames(ts[..|ts| - 1], shouldBeOpen) + (if shouldBeOpen(t) then {t.faucet} else {})
  }

  /** `num_open`: per water counter, one entry per active timer, naming the
      timer's faucet (duplicates kept). */
  function NumOpen(ts: seq<Timer>, shouldBeOpen: Timer -> bool, counterOf: map<string, string>): map<string, seq<string>>
    requires forall t :: t in ts ==> t.faucet in counterOf
  {
    if ts == [] then map[]
    else
      var m := NumOpen(ts[..|ts| - 1], shouldBeOpen, counterOf);
      var t := ts[|ts| - 1];
      if shouldBeOpen(t) then
        var c := counterOf[t.faucet];
        m[c := (if c in m then m[c] else []) + [t.faucet]]
      else m
  }

  /** One more timer in the first pass of a tick. */
  lemma ScanStep(ts: seq<Timer>, i: nat, shouldBeOpen: Timer -> bool, shouldRemove: Timer -> bool,
                 counterOf: map<string, string>)
    requires i < |ts|
    requires forall t :: t in ts ==> t.faucet in counterOf
    ensures ActiveNames(ts[..i + 1], shouldBeOpen)
            == ActiveNames(ts[..i], shouldBeOpen) + (if shouldBeOpen(ts[i]) then {ts[i].faucet} else {})
    ensures forall t :: t in ts[..i + 1] ==> t.faucet in counterOf
    ensures forall t :: t in ts[..i] ==> t.faucet in counterOf
    ensures NumOpen(ts[..i + 1], shouldBeOpen, counterOf)
            == var m := NumOpen(ts[..i], shouldBeOpen, counterOf);
               var c := counterOf[ts[i].faucet];
               if shouldBeOpen(ts[i]) then m[c := (if c in m then m[c] else []) + [ts[i].faucet]] else m
    ensures Filter(ts[..i + 1], shouldRemove)
            == Filter(ts[..i], shouldRemove) + (if shouldRemove(ts[i]) then [ts[i]] else [])
  {
    assert ts[..i + 1][..i] == ts[..i];
    assert forall t :: t in ts[..i + 1] ==> t in ts;
  }

  /** The number of active timers whose faucet is on counter c. */
  function ActiveOn(ts: seq<Timer>, shouldBeOpen: Timer -> bool, counterOf: map<string, string>, c: string): nat
    requires forall t :: t in ts ==> t.faucet in counterOf
  {
    if ts == [] then 0
    else
      var t := ts[|ts| - 1];
      ActiveOn(ts[..|ts| - 1], shouldBeOpen, counterOf, c) + (if shouldBeOpen(t) && counterOf[t.faucet] == c then 1 else 0)
  }

  /** The faucets listed under a counter that has more than one entry. */
  function SharedNames(numOpen: map<string, seq<string>>, counters: set<string>): set<string> {
    set c, n | c in counters && c in numOpen && |numOpen[c]| > 1 && n in numOpen[c] :: n
  }

  /** The `num_open` list of counter c; empty when c has no entry. */
  function Entries(numOpen: map<string, seq<string>>, c: string): seq<string> {
    if c in numOpen then numOpen[c] else []
  }

  /** Each `num_open` list counts the active timers on its counter and names
      exactly the active faucets on that counter; a counter has a list iff
      some active timer is on it. */
  lemma {:induction false} NumOpenEntries(ts: seq<Timer>, shouldBeOpen: Timer -> bool, counterOf: map<string, string>, c: string)
    requires forall t :: t in ts ==> t.faucet in counterOf
    ensures c in NumOpen(ts, shouldBeOpen, counterOf) <==> ActiveOn(ts, shouldBeOpen, counterOf, c) > 0
    ensures |Entries(NumOpen(ts, shouldBeOpen, counterOf), c)| == ActiveOn(ts, shouldBeOpen, counterOf, c)
    ensures forall n :: n in Entries(NumOpen(ts, shouldBeOpen, counterOf), c) <==>
                        n in ActiveNames(ts, shouldBeOpen) && counterOf[n] == c
  {
    if ts != [] {
      var init := ts[..|ts| - 1];
      assert forall x :: x in init ==> x in ts;
      NumOpenEntries(init, shouldBeOpen, counterOf, c);
    }
  }

  /** A faucet is marked "not alone" exactly when a timer wants it open and
      the active timers on its counter number more than one; two active
      timers of the same faucet are enough. */
  lemma NotAloneMeans(ts: seq<Timer>, shouldBeOpen: Timer -> bool, counterOf: map<string, string>, n: string)
    requires forall t :: t in ts ==> t.faucet in counterOf
    requires n in counterOf
    ensures var numOpen := NumOpen(ts, shouldBeOpen, counterOf);
            n in SharedNames(numOpen, numOpen.Keys) <==>
            n in ActiveNames(ts, shouldBeOpen) && ActiveOn(ts, shouldBeOpen, counterOf, counterOf[n]) > 1
  {
    var numOpen := NumOpen(ts, shouldBeOpen, counterOf);
    NumOpenEntries(ts, shouldBeOpen, counterOf, counterOf[n]);
    if n in SharedNames(numOpen, numOpen.Keys) {
      var c :| c in numOpen && |numOpen[c]| > 1 && n in numOpen[c];
      NumOpenEntries(ts, shouldBeOpen, counterOf, c);
    }
  }

  /** The alone flags after the first two passes of the tick: all set, then
      cleared (with the whole-interval flag) for faucets on a shared counter. */
  function Marked(v: F.FaucetState, shared: bool): F.FaucetState {
    if shared then v.(allAlone := false, allAloneAllTime := Some(false)) else v.(allAlone := true)
  }

  /** The open/close pass for one faucet. */
  function Act(v: F.FaucetState, target: bool, blocked: bool, sample: Option<int>): F.FaucetState {
    if v.isOpen then (if !target then F.Closed(v) else F.Recorded(v, sample))
    else if target && !blocked then F.Opened(v)
    else v
  }

  /** A faucet's state after one tick. `target`: some timer wants it open;
      `shared`: it is on a counter with more than one entry; `blocked`: the
      computer is disabled and the faucet is local. */
  function TickView(v: F.FaucetState, target: bool, shared: bool, blocked: bool, sample: Option<int>): F.FaucetState {
    Act(Marked(v, shared), target, blocked, sample)
  }

  /** After a tick a faucet no timer wants is closed, and a wanted one is
      open unless it was closed and opening it is blocked. */
  lemma TickReconciles(v: F.FaucetState, target: bool, shared: bool, blocked: bool, sample: Option<int>)
    ensures !target ==> !TickView(v, target, shared, blocked, sample).isOpen
    ensures target ==> (TickView(v, target, shared, blocked, sample).isOpen <==> v.isOpen || !blocked)
  {
  }

  /** The alone flag after a tick: a faucet opened in this tick is alone (the
      open resets it); every other faucet is alone iff its counter is not
      shared. The whole-interval flag is cleared on a shared counter only. */
  lemma TickAloneFlags(v: F.FaucetState, target: bool, shared: bool, blocked: bool, sample: Option<int>)
    ensures TickView(v, target, shared, blocked, sample).allAlone ==
              if !v.isOpen && target && !blocked then true else !shared
    ensures TickView(v, target, shared, blocked, sample).allAloneAllTime ==
              if shared then Some(false) else v.allAloneAllTime
  {
  }

  /** A faucet that stays open keeps its samples plus the new reading; one
      that is opened starts with none. */
  lemma TickSamples(v: F.FaucetState, target: bool, shared: bool, blocked: bool, sample: Option<int>)
    ensures v.isOpen && target ==> TickView(v, target, shared, blocked, sample).flowCounts == F.Recorded(v, sample).flowCounts
    ensures !v.isOpen && target && !blocked ==> TickView(v, target, shared, blocked, sample).flowCounts == []
    ensures !target ==> TickView(v, target, shared, blocked, sample).flowCounts == v.flowCounts
  {
  }

  // ---------------------------------------------------------------------
  // Manual commands

  datatype ManualLine = Ignored | Command(command: string, param: string)

  /** A line of the commands file: stripped, split at tabs; exactly two fields
      make a command, whose word is lower-cased. */
  function ParseManualLine(line: string): ManualLine {
    var fields := Split(Strip(line), '\t');
    if |fields| != 2 then Ignored else Command(Lower(fields[0]), fields[1])
  }

  /** What the interpreter has done so far: the timer list, the disabled
      flag, the faucets it has closed and whether it met `quit`. */
  datatype Session = Session(timers: seq<Timer>, disabled: bool, closed: set<string>, quit: bool)

  /** One command. `durations` maps each known faucet to its default
      duration; `self` is this computer's name. */
  function Perform(s: Session, command: string, param: string, durations: map<string, int>, self: string): Session {
    if command == "open" then
      if param in durations then s.(timers := s.timers + [ManualTimer(param, durations[param])]) else s
    else if command == "close" then
      if param in durations then
        s.(timers := Deleted(s.timers, Filter(s.timers, ManualOf(Some(param)))),
           closed := s.closed + {param})
      else s
    else if command == "closeall" then
      s.(timers := Deleted(s.timers, Filter(s.timers, ManualOf(None))), closed := s.closed + durations.Keys)
    else if command == "disable" then
      if param == self then
        s.(disabled := true, timers := Deleted(s.timers, Filter(s.timers, ManualOf(None))),
           closed := s.closed + durations.Keys)
      else s
    else if command == "enable" then
      if param == self then s.(disabled := false) else s
    else if command == "quit" then
      s.(closed := s.closed + durations.Keys, quit := true)
    else s
  }

  function PerformLine(s: Session, line: string, durations: map<string, int>, self: string): Session {
    match ParseManualLine(line)
    case Ignored => s
    case Command(c, p) => Perform(s, c, p, durations, self)
  }

  /** The commands file read line by line, stopping after `quit`. */
  function Interpret(s: Session, lines: seq<string>, durations: map<string, int>, self: string): Session {
    if lines == [] then s
    else
      var before := Interpret(s, lines[..|lines| - 1], durations, self);
      if before.quit then before else PerformLine(before, lines[|lines| - 1], durations, self)
  }

  /** A line without exactly two tab-separated fields does nothing. */
  lemma MalformedLineIgnored(s: Session, line: string, durations: map<string, int>, self: string)
    requires |Split(Strip(line), '\t')| != 2
    ensures PerformLine(s, line, durations, self) == s
  {
  }

  /** An unrecognised command word does nothing. */
  lemma UnknownCommandIgnored(s: Session, command: string, param: string, durations: map<string, int>, self: string)
    requires command !in {"open", "close", "closeall", "disable", "enable", "quit"}
    ensures Perform(s, command, param, durations, self) == s
  {
  }

  /** A manual open of a known faucet adds one manual single timer with the
      faucet's default duration and nothing else; an unknown one does nothing. */
  lemma ManualOpenAddsOneTimer(s: Session, f: string, durations: map<string, int>, self: string)
    ensures f in durations ==> Perform(s, "open", f, durations, self) == s.(timers := s.timers + [ManualTimer(f, durations[f])])
    ensures f !in durations ==> Perform(s, "open", f, durations, self) == s
  {
  }

  /** A manual close of a known faucet closes it and removes exactly its
      manual single timers, keeping every other timer in order. */
  lemma ManualCloseRemovesOwnManualTimers(s: Session, f: string, durations: map<string, int>, self: string)
    requires f in durations
    ensures Perform(s, "close", f, durations, self).timers == Filter(s.timers, Not(ManualOf(Some(f))))
    ensures forall t :: t in Perform(s, "close", f, durations, self).timers <==>
                        t in s.timers && !(IsManualSingle(t) && t.faucet == f)
    ensures Perform(s, "close", f, durations, self).closed == s.closed + {f}
    ensures Perform(s, "close", f, durations, self).disabled == s.disabled
  {
    DeletePicked(s.timers, ManualOf(Some(f)));
  }

  /** `closeall` closes every faucet and removes every manual single timer,
      keeping every other timer in order. */
  lemma CloseAllRemovesManualTimers(s: Session, param: string, durations: map<string, int>, self: string)
    ensures Perform(s, "closeall", param, durations, self).timers == Filter(s.timers, Not(ManualOf(None)))
    ensures forall t :: t in Perform(s, "closeall", param, durations, self).timers <==>
                        t in s.timers && !IsManualSingle(t)
    ensures Perform(s, "closeall", param, durations, self).closed == s.closed + durations.Keys
  {
    DeletePicked(s.timers, ManualOf(None));
  }

  /** `disable` and `enable` only act when they name this computer. */
  lemma DisableEnableOnlyForSelf(s: Session, command: string, param: string, durations: map<string, int>, self: string)
    requires command == "disable" || command == "enable"
    ensures param != self ==> Perform(s, command, param, durations, self) == s
    ensures param == self ==> Perform(s, command, param, durations, self).disabled == (command == "disable")
  {
  }

  /** Nothing after `quit` is read. */
  lemma {:induction false} QuitStops(s: Session, lines: seq<string>, more: seq<string>, durations: map<string, int>, self: string)
    requires Interpret(s, lines, durations, self).quit
    ensures Interpret(s, lines + more, durations, self) == Interpret(s, lines, durations, self)
    decreases |more|
  {
    if more == [] {
      assert lines + more == lines;
    } else {
      var init := more[..|more| - 1];
      assert (lines + more)[..|lines + more| - 1] == lines + init;
      QuitStops(s, lines, init, durations, self);
    }
  }

  lemma SplitAt(lines: seq<string>, i: nat)
    requires i <= |lines|
    ensures lines[..i] + lines[i..] == lines
    ensures i == |lines| ==> lines[..i] == lines
  {
  }

  /** Reading stops at the end of the lines or at `quit`; either way the
      lines read so far decide the session. */
  lemma QuitOrEnd(s: Session, lines: seq<string>, i: nat, durations: map<string, int>, self: string)
    requires i <= |lines|
    requires i == |lines| || Interpret(s, lines[..i], durations, self).quit
    ensures Interpret(s, lines, durations, self) == Interpret(s, lines[..i], durations, self)
  {
    SplitAt(lines, i);
    if i < |lines| {
      QuitStops(s, lines[..i], lines[i..], durations, self);
    }
  }

  // ---------------------------------------------------------------------
  // The computer

  class IComputer {
    const computerName: string
    var faucets: map<string, F.Faucet>
    var timers: seq<Timer>
    var disabled: bool

    /** Faucets are keyed by their own names (so distinct names hold
        distinct objects); every timer belongs to a listed faucet. */
    ghost predicate Valid()
      reads this
    {
      && (forall n :: n in faucets ==> faucets[n].name == n)
      && (forall t :: t in timers ==> t.faucet in faucets)
    }

    /** The water counter of every faucet. */
    function Counters(): (r: map<string, string>)
      reads this
      ensures r.Keys == faucets.Keys
    {
      map n | n in faucets :: faucets[n].counter
    }

    /** The default duration of every faucet. */
    function Durations(): (r: map<string, int>)
      reads this`faucets
      ensures r.Keys == faucets.Keys
    {
      map n | n in faucets :: faucets[n].defaultDuration
    }

    constructor (computerName: string)
      ensures this.computerName == computerName
      ensures faucets == map[] && timers == [] && !disabled
      ensures Valid()
    {
      this.computerName := computerName;
      faucets := map[];
      timers := [];
      disabled := false;
    }

    /** `close_all`: every faucet closed, nothing else touched. */
    method CloseAll()
      requires Valid()
      modifies faucets.Values
      ensures forall n :: n in faucets ==> faucets[n].View() == F.Closed(old(faucets[n].View()))
    {
      var todo := faucets.Keys;
      while todo != {}
        invariant todo <= faucets.Keys
        invariant forall n :: n in faucets ==>
                    faucets[n].View() == if n in todo then old(faucets[n].View()) else F.Closed(old(faucets[n].View()))
        decreases todo
      {
        var n :| n in todo;
        var _ := faucets[n].Close();
        todo := todo - {n};
      }
    }

    /** `delete_timers`. */
    method DeleteTimers(delete: seq<Timer>)
      modifies this`timers
      ensures timers == Deleted(old(timers), delete)
    {
      if |delete| == 0 {
        return;
      }
      timers := Filter(timers, NotIn(delete));
    }

    /** The manual single timers, of one faucet or (with None) of all. */
    method ManualTimersOf(faucet: Option<string>) returns (delete: seq<Timer>)
      ensures delete == Filter(timers, ManualOf(faucet))
    {
      delete := [];
      var i := 0;
      while i < |timers|
        invariant 0 <= i <= |timers|
        invariant delete == Filter(timers[..i], ManualOf(faucet))
      {
        var t := timers[i];
        assert timers[..i + 1][..i] == timers[..i];
        if t.kind.SingleTimer? && t.kind.isManual && (faucet.None? || t.faucet == faucet.value) {
          delete := delete + [t];
        }
        i := i + 1;
      }
      assert timers[..|timers|] == timers;
    }

    /** The first pass of a tick over the timers: the faucets some timer
        wants open, the `num_open` lists and the timers to delete. */
    method ScanTimers(shouldBeOpen: Timer -> bool, shouldRemove: Timer -> bool)
      returns (target: set<string>, numOpen: map<string, seq<string>>, delete: seq<Timer>)
      requires Valid()
      ensures target == ActiveNames(timers, shouldBeOpen)
      ensures numOpen == NumOpen(timers, shouldBeOpen, Counters())
      ensures delete == Filter(timers, shouldRemove)
      ensures forall c, n :: c in numOpen && n in numOpen[c] ==> n in faucets
    {
      var counters := Counters();
      target := {};
      numOpen := map[];
      delete := [];
      var i := 0;
      while i < |timers|
        invariant 0 <= i <= |timers|
        invariant target == ActiveNames(timers[..i], shouldBeOpen)
        invariant numOpen == NumOpen(timers[..i], shouldBeOpen, counters)
        invariant delete == Filter(timers[..i], shouldRemove)
      {
        target, numOpen, delete := ScanNext(i, shouldBeOpen, shouldRemove, counters, target, numOpen, delete);
        i := i + 1;
      }
      assert timers[..|timers|] == timers;
      forall c | c in numOpen
        ensures forall n :: n in numOpen[c] ==> n in faucets
      {
        NumOpenEntries(timers, shouldBeOpen, counters, c);
      }
    }

    /** Timer i of the first pass, after those before it. */
    method ScanNext(i: nat, shouldBeOpen: Timer -> bool, shouldRemove: Timer -> bool, counters: map<string, string>,
                    target: set<string>, numOpen: map<string, seq<string>>, delete: seq<Timer>)
      returns (target': set<string>, numOpen': map<string, seq<string>>, delete': seq<Timer>)
      requires Valid() && i < |timers| && counters == Counters()
      requires target == ActiveNames(timers[..i], shouldBeOpen)
      requires numOpen == NumOpen(timers[..i], shouldBeOpen, counters)
      requires delete == Filter(timers[..i], shouldRemove)
      ensures target' == ActiveNames(timers[..i + 1], shouldBeOpen)
      ensures numOpen' == NumOpen(timers[..i + 1], shouldBeOpen, counters)
      ensures delete' == Filter(timers[..i + 1], shouldRemove)
    {
      var t := timers[i];
      ScanStep(timers, i, shouldBeOpen, shouldRemove, counters);
      var c := counters[t.faucet];
      numOpen' := if shouldBeOpen(t) then numOpen[c := (if c in numOpen then numOpen[c] else []) + [t.faucet]] else numOpen;
      target' := if shouldBeOpen(t) then target + {t.faucet} else target;
      delete' := if shouldRemove(t) then delete + [t] else delete;
    }

    /** "First all are alone." */
    method SetAllAlone()
      requires Valid()
      modifies faucets.Values
      ensures forall n :: n in faucets ==> faucets[n].View() == old(faucets[n].View()).(allAlone := true)
    {
      var todo := faucets.Keys;
      while todo != {}
        invariant todo <= faucets.Keys
        invariant forall n :: n in faucets ==>
                    faucets[n].View() == if n in todo then old(faucets[n].View()) else old(faucets[n].View()).(allAlone := true)
        decreases todo
      {
        var n :| n in todo;
        faucets[n].allAlone := true;
        todo := todo - {n};
      }
    }

    /** Marks the named faucets as sharing their counter, for this tick and
        for the whole open interval. */
    method MarkNotAlone(names: seq<string>)
      requires Valid()
      requires forall n :: n in names ==> n in faucets
      modifies faucets.Values
      ensures forall n :: n in faucets ==>
                faucets[n].View() == if n in names then old(faucets[n].View()).(allAlone := false, allAloneAllTime := Some(false))
                                     else old(faucets[n].View())
    {
      var j := 0;
      while j < |names|
        invariant 0 <= j <= |names|
        invariant forall n :: n in faucets ==>
                    faucets[n].View() == if n in names[..j] then old(faucets[n].View()).(allAlone := false, allAloneAllTime := Some(false))
                                         else old(faucets[n].View())
      {
        var f := faucets[names[j]];
        f.allAlone := false;
        f.allAloneAllTime := Some(false);
        assert forall n :: n in names[..j + 1] <==> n in names[..j] || n == names[j];
        j := j + 1;
      }
      assert names[..|names|] == names;
    }

    /** The second pass: every faucet listed under a counter with more than one
        entry is not alone. */
    method MarkSharedCounters(numOpen: map<string, seq<string>>)
      requires Valid()
      requires forall c, n :: c in numOpen && n in numOpen[c] ==> n in faucets
      modifies faucets.Values
      ensures forall n :: n in faucets ==>
                faucets[n].View() == if n in SharedNames(numOpen, numOpen.Keys)
                                     then old(faucets[n].View()).(allAlone := false, allAloneAllTime := Some(false))
                                     else old(faucets[n].View())
    {
      var todo := numOpen.Keys;
      while todo != {}
        invariant todo <= numOpen.Keys
        invariant forall n :: n in faucets ==>
                    faucets[n].View() == if n in SharedNames(numOpen, numOpen.Keys - todo)
                                         then old(faucets[n].View()).(allAlone := false, allAloneAllTime := Some(false))
                                         else old(faucets[n].View())
        decreases todo
      {
        var c :| c in todo;
        if |numOpen[c]| > 1 {
          MarkNotAlone(numOpen[c]);
        }
        SharedNamesStep(numOpen, numOpen.Keys - todo, c);
        assert numOpen.Keys - (todo - {c}) == (numOpen.Keys - todo) + {c};
        todo := todo - {c};
      }
    }

    /** The last pass: close what no timer wants, sample what stays open, open
        what a timer wants unless the computer is disabled and the faucet is
        local. */
    method Reconcile(target: set<string>, isLocal: string -> bool, sample: string -> Option<int>)
      requires Valid()
      modifies faucets.Values
      ensures forall n :: n in faucets ==>
                faucets[n].View() == Act(old(faucets[n].View()), n in target, disabled && isLocal(n), sample(n))
    {
      var todo := faucets.Keys;
      while todo != {}
        invariant todo <= faucets.Keys
        invariant forall n :: n in faucets ==>
                    faucets[n].View() == if n in todo then old(faucets[n].View())
                                         else Act(old(faucets[n].View()), n in target, disabled && isLocal(n), sample(n))
        decreases todo
      {
        var n :| n in todo;
        var f := faucets[n];
        if f.isOpen {
          if n !in target {
            var _ := f.Close();
          } else {
            f.AddFlowCount(sample(n));
          }
        } else if n in target && !(disabled && isLocal(n)) {
          var _ := f.Open();
        }
        todo := todo - {n};
      }
    }

    /** One tick of `main_loop`: which faucets the timers want open, the
        alone flags per water counter, the open/close pass and the removal
        of finished timers. `shouldBeOpen` and `shouldRemove` are the
        timers' answers at this instant, `isLocal` says which faucets are on
        this computer, `sample` is the flow reading `add_flow_count` takes. */
    method Tick(shouldBeOpen: Timer -> bool, shouldRemove: Timer -> bool,
                isLocal: string -> bool, sample: string -> Option<int>)
      requires Valid()
      modifies this`timers, faucets.Values
      ensures Valid()
      ensures timers == Deleted(old(timers), Filter(old(timers), shouldRemove))
      ensures forall n :: n in faucets ==>
                faucets[n].View() == TickView(old(faucets[n].View()),
                                              n in ActiveNames(old(timers), shouldBeOpen),
                                              n in SharedNames(NumOpen(old(timers), shouldBeOpen, Counters()),
                                                               NumOpen(old(timers), shouldBeOpen, Counters()).Keys),
                                              disabled && isLocal(n), sample(n))
    {
      var target, numOpen, delete := ScanTimers(shouldBeOpen, shouldRemove);
      Switch(target, numOpen, isLocal, sample);
      DeleteTimers(delete);
    }

    /** The three passes of a tick over the faucets: all alone, shared
        counters marked, then opened, closed or sampled. */
    method Switch(target: set<string>, numOpen: map<string, seq<string>>,
                  isLocal: string -> bool, sample: string -> Option<int>)
      requires Valid()
      requires forall c, n :: c in numOpen && n in numOpen[c] ==> n in faucets
      modifies faucets.Values
      ensures forall n :: n in faucets ==>
                faucets[n].View() == TickView(old(faucets[n].View()), n in target, n in SharedNames(numOpen, numOpen.Keys),
                                              disabled && isLocal(n), sample(n))
    {
      SetAllAlone();
      MarkSharedCounters(numOpen);
      Reconcile(target, isLocal, sample);
    }

    /** `read_manual_commands` on the lines of the commands file. Returns
        whether it met `quit`, where the source closes all and exits. */
    method ReadManualCommands(lines: seq<string>) returns (quit: bool)
      requires Valid()
      modifies this`timers, this`disabled, faucets.Values
      ensures Valid()
      ensures var s := Interpret(Session(old(timers), old(disabled), {}, false), lines, Durations(), computerName);
              && timers == s.timers && disabled == s.disabled && quit == s.quit
              && forall n :: n in faucets ==>
                   faucets[n].View() == if n in s.closed then F.Closed(old(faucets[n].View())) else old(faucets[n].View())
    {
      var durations := Durations();
      ghost var start := Session(timers, disabled, {}, false);
      ghost var views := map n | n in faucets :: faucets[n].View();
      quit := ReadLines(lines, start, views, durations);
    }

    /** The loop of ReadManualCommands: lines are performed in order until
        the end of the file or a `quit`. */
    method ReadLines(lines: seq<string>, ghost start: Session, ghost views: map<string, F.FaucetState>,
                     durations: map<string, int>) returns (quit: bool)
      requires Valid() && durations == Durations()
      requires !start.quit && Reflects(start, false, views)
      modifies this`timers, this`disabled, faucets.Values
      ensures Valid() && durations == Durations()
      ensures Reflects(Interpret(start, lines, durations, computerName), quit, views)
    {
      quit := false;
      var i := 0;
      while i < |lines| && !quit
        invariant 0 <= i <= |lines|
        invariant Valid() && durations == Durations()
        invariant Reflects(Interpret(start, lines[..i], durations, computerName), quit, views)
      {
        quit := ReadNext(lines, i, start, views, durations);
        i := i + 1;
      }
      QuitOrEnd(start, lines, i, durations, computerName);
    }

    /** Line i of the commands file, read after the lines before it. */
    method ReadNext(lines: seq<string>, i: nat, ghost start: Session, ghost views: map<string, F.FaucetState>,
                    ghost durations: map<string, int>) returns (quit: bool)
      requires i < |lines| && Valid() && durations == Durations()
      requires Reflects(Interpret(start, lines[..i], durations, computerName), false, views)
      modifies this`timers, this`disabled, faucets.Values
      ensures Valid() && durations == Durations()
      ensures Reflects(Interpret(start, lines[..i + 1], durations, computerName), quit, views)
    {
      InterpretStep(start, lines, i, durations, computerName);
      quit := ReadLine(lines[i], Interpret(start, lines[..i], durations, computerName), views, durations);
    }

    /** The computer as the session `s` of commands leaves it, from the
        faucet states `views`. */
    ghost predicate Reflects(s: Session, quit: bool, views: map<string, F.FaucetState>)
      reads this, faucets.Values
    {
      && timers == s.timers && disabled == s.disabled && quit == s.quit
      && forall n :: n in faucets ==>
           n in views && faucets[n].View() == if n in s.closed then F.Closed(views[n]) else views[n]
    }

    /** One more line of the commands file, after the session `before`. */
    method ReadLine(line: string, ghost before: Session, ghost views: map<string, F.FaucetState>,
                    ghost durations: map<string, int>) returns (quit: bool)
      requires Valid() && durations == Durations()
      requires !before.quit && Reflects(before, false, views)
      modifies this`timers, this`disabled, faucets.Values
      ensures Valid() && durations == Durations()
      ensures Reflects(PerformLine(before, line, durations, computerName), quit, views)
    {
      ghost var mid := map n | n in faucets :: faucets[n].View();
      ghost var r := PerformLine(Session(timers, disabled, {}, false), line, Durations(), computerName);
      PerformLineFromFresh(before, line, durations, computerName);
      quit := RunLine(line);
      ghost var after := map n | n in faucets :: faucets[n].View();
      ClosingComposes(views, mid, after, before.closed, r.closed);
    }

    /** One line of the commands file. */
    method RunLine(line: string) returns (quit: bool)
      requires Valid()
      modifies this`timers, this`disabled, faucets.Values
      ensures Valid()
      ensures var r := PerformLine(Session(old(timers), old(disabled), {}, false), line, Durations(), computerName);
              && timers == r.timers && disabled == r.disabled && quit == r.quit
              && forall n :: n in faucets ==>
                   faucets[n].View() == if n in r.closed then F.Closed(old(faucets[n].View())) else old(faucets[n].View())
    {
      quit := false;
      match ParseManualLine(line) {
        case Ignored =>
        case Command(c, p) =>
          quit := RunCommand(c, p);
      }
    }

    /** One manual command. Returns whether it was `quit`. */
    method RunCommand(command: string, param: string) returns (quit: bool)
      requires Valid()
      modifies this`timers, this`disabled, faucets.Values
      ensures Valid()
      ensures var r := Perform(Session(old(timers), old(disabled), {}, false), command, param, Durations(), computerName);
              && timers == r.timers && disabled == r.disabled && quit == r.quit
              && forall n :: n in faucets ==>
                   faucets[n].View() == if n in r.closed then F.Closed(old(faucets[n].View())) else old(faucets[n].View())
    {
      if command == "open" || command == "close" || command == "closeall" {
        quit := RunFaucetCommand(command, param);
      } else {
        quit := RunComputerCommand(command, param);
      }
    }

    /** The commands about faucets: `open`, `close` and `closeall`. */
    method RunFaucetCommand(command: string, param: string) returns (quit: bool)
      requires command == "open" || command == "close" || command == "closeall"
      requires Valid()
      modifies this`timers, this`disabled, faucets.Values
      ensures Valid()
      ensures var r := Perform(Session(old(timers), old(disabled), {}, false), command, param, Durations(), computerName);
              && timers == r.timers && disabled == r.disabled && quit == r.quit
              && forall n :: n in faucets ==>
                   faucets[n].View() == if n in r.closed then F.Closed(old(faucets[n].View())) else old(faucets[n].View())
    {
      quit := false;
      if command == "open" {
        if param in faucets {
          timers := timers + [ManualTimer(param, faucets[param].defaultDuration)];
        }
      } else if command == "close" {
        if param in faucets {
          CloseManual(param);
        }
      } else {
        CloseAllManual();
      }
    }

    /** The commands about the computer: `disable`, `enable` and `quit`;
        any other command does nothing. */
    method RunComputerCommand(command: string, param: string) returns (quit: bool)
      requires command != "open" && command != "close" && command != "closeall"
      requires Valid()
      modifies this`timers, this`disabled, faucets.Values
      ensures Valid()
      ensures var r := Perform(Session(old(timers), old(disabled), {}, false), command, param, Durations(), computerName);
              && timers == r.timers && disabled == r.disabled && quit == r.quit
              && forall n :: n in faucets ==>
                   faucets[n].View() == if n in r.closed then F.Closed(old(faucets[n].View())) else old(faucets[n].View())
    {
      quit := false;
      if command == "disable" {
        if param == computerName {
          disabled := true;
          CloseAllManual();
        }
      } else if command == "enable" {
        if param == computerName {
          disabled := false;
        }
      } else if command == "quit" {
        CloseAll();
        quit := true;
      }
    }

    /** A manual `close`: the faucet closed and its manual single timers
        deleted. */
    method CloseManual(name: string)
      requires Valid() && name in faucets
      modifies this`timers, faucets.Values
      ensures Valid()
      ensures timers == Deleted(old(timers), Filter(old(timers), ManualOf(Some(name))))
      ensures forall n :: n in faucets ==>
                faucets[n].View() == if n == name then F.Closed(old(faucets[n].View())) else old(faucets[n].View())
    {
      var _ := faucets[name].Close();
      var delete := ManualTimersOf(Some(name));
      DeleteTimers(delete);
    }

    /** `closeall`, and the tail of `disable`: every faucet closed and every
        manual single timer deleted. */
    method CloseAllManual()
      requires Valid()
      modifies this`timers, faucets.Values
      ensures Valid()
      ensures timers == Deleted(old(timers), Filter(old(timers), ManualOf(None)))
      ensures forall n :: n in faucets ==> faucets[n].View() == F.Closed(old(faucets[n].View()))
    {
      CloseAll();
      var delete := ManualTimersOf(None);
      DeleteTimers(delete);
    }

    /** `read_faucets`: the faucet list rebuilt from the rows, the first row
        of each name winning. `ok` is false when a faucet type cannot be
        resolved; the source raises there and the computer stops. */
    method LoadFaucetObjects(rows: seq<FaucetRow>, modules: ModuleTable) returns (ok: bool)
      modifies this`faucets
      ensures var loaded := LoadFaucets({}, rows, Resolvable(modules));
              && ok == loaded.ok
              && faucets.Keys == loaded.added.Keys
              && forall n :: n in faucets ==> fresh(faucets[n]) && BuiltFrom(faucets[n], loaded.added[n])
      ensures forall n :: n in faucets ==> faucets[n].View() == F.FaucetState(false, false, None, [])
      ensures forall n :: n in faucets ==> faucets[n].name == n
    {
      ghost var added: map<string, FaucetRow> := map[];
      ghost var made: set<F.Faucet> := {};
      faucets := map[];
      ok := true;
      var i := 0;
      while ok && i < |rows|
        modifies this`faucets
        invariant 0 <= i <= |rows|
        invariant ok ==> LoadFaucets({}, rows[..i], Resolvable(modules)) == Loaded(added, true)
        invariant !ok ==> LoadFaucets({}, rows, Resolvable(modules)) == Loaded(added, false)
        invariant BuiltAll(faucets, added, made)
        invariant fresh(made) && AllNew(made)
        decreases |rows| - i, ok
      {
        var stop;
        ghost var more;
        stop, added, more := LoadRow(rows, i, modules, added, made);
        made := made + more;
        ok, i := !stop, if stop then i else i + 1;
      }
      if ok {
        assert rows[..|rows|] == rows;
      }
    }

    /** One row of `read_faucets`: a name already loaded is skipped, a type
        that cannot be resolved stops the loading, and otherwise a new faucet
        is added. */
    method LoadRow(rows: seq<FaucetRow>, i: nat, modules: ModuleTable,
                   ghost added: map<string, FaucetRow>, ghost made: set<F.Faucet>)
      returns (stop: bool, ghost added': map<string, FaucetRow>, ghost more: set<F.Faucet>)
      requires i < |rows|
      requires LoadFaucets({}, rows[..i], Resolvable(modules)) == Loaded(added, true)
      requires BuiltAll(faucets, added, made) && AllNew(made)
      modifies this`faucets
      ensures stop ==> LoadFaucets({}, rows, Resolvable(modules)) == Loaded(added', false)
      ensures !stop ==> LoadFaucets({}, rows[..i + 1], Resolvable(modules)) == Loaded(added', true)
      ensures BuiltAll(faucets, added', made + more)
      ensures fresh(more) && AllNew(made + more)
    {
      var row := rows[i];
      ghost var resolves := Resolvable(modules);
      if row.name in faucets {
        LoadSkips({}, rows, i, resolves, added);
        stop, added', more := false, added, {};
      } else if GetFaucetClass(row.faucetType, modules).Failure? {
        LoadFails({}, rows, i, resolves, added);
        stop, added', more := true, added, {};
      } else {
        LoadAdds({}, rows, i, resolves, added);
        var f := AddFaucet(row, added, made);
        stop, added', more := false, added[row.name := row], {f};
      }
    }

    /** A new faucet built from the row, added under its name. */
    method AddFaucet(row: FaucetRow, ghost added: map<string, FaucetRow>, ghost made: set<F.Faucet>)
      returns (f: F.Faucet)
      requires BuiltAll(faucets, added, made) && AllNew(made) && row.name !in faucets
      modifies this`faucets
      ensures fresh(f) && faucets == old(faucets)[row.name := f]
      ensures BuiltAll(faucets, added[row.name := row], made + {f}) && AllNew(made + {f})
    {
      f := new F.Faucet(row.name, row.computerName, computerName, row.faucetType, row.relay, row.counter, row.defaultDuration);
      BuiltAllAdd(faucets, added, made, row, f);
      faucets := faucets[row.name := f];
    }

    /** `read_faucets` followed by `read_timers`, as the control loop and the
        constructor run them: the old faucets are all closed first. */
    method Reload(faucetRows: seq<FaucetRow>, timerRows: seq<TimerRow>, modules: ModuleTable) returns (ok: bool)
      requires Valid()
      modifies this`faucets, this`timers, faucets.Values
      ensures forall n :: n in old(faucets) ==> !old(faucets)[n].isOpen
      ensures var loaded := LoadFaucets({}, faucetRows, Resolvable(modules));
              && ok == loaded.ok
              && faucets.Keys == loaded.added.Keys
              && forall n :: n in faucets ==> fresh(faucets[n]) && BuiltFrom(faucets[n], loaded.added[n]) && !faucets[n].isOpen
      ensures ok ==> Valid() && timers == TimersOf(KnownTimerRows(timerRows, faucets.Keys))
    {
      CloseAll();
      ok := LoadFaucetObjects(faucetRows, modules);
      if ok {
        ReadTimers(timerRows);
      }
    }

    /** `read_timers`: all faucets closed, then the timer list rebuilt from the
        rows whose faucet is known. */
    method ReadTimers(rows: seq<TimerRow>)
      requires forall n :: n in faucets ==> faucets[n].name == n
      modifies this`timers, faucets.Values
      ensures Valid()
      ensures timers == TimersOf(KnownTimerRows(rows, faucets.Keys))
      ensures forall n :: n in faucets ==> faucets[n].View() == F.Closed(old(faucets[n].View()))
    {
      timers := [];
      CloseAll();
      ghost var known := faucets.Keys;
      var i := 0;
      while i < |rows|
        modifies this`timers
        invariant 0 <= i <= |rows|
        invariant timers == TimersOf(KnownTimerRows(rows[..i], known))
      {
        ReadTimerRow(rows, i, known);
        i := i + 1;
      }
      assert rows[..|rows|] == rows;
      KnownTimersBelong(KnownTimerRows(rows, known), known);
    }

    /** Row i of the timer list: its timer is appended when its faucet is
        known. */
    method ReadTimerRow(rows: seq<TimerRow>, i: nat, ghost known: set<string>)
      requires i < |rows| && known == faucets.Keys
      requires timers == TimersOf(KnownTimerRows(rows[..i], known))
      modifies this`timers
      ensures timers == TimersOf(KnownTimerRows(rows[..i + 1], known))
    {
      TimersOfStep(rows, i, known);
      if rows[i].faucet in faucets {
        timers := timers + [TimerOf(rows[i])];
      }
    }
  }

  /** One more row of the timer list. */
  lemma TimersOfStep(rows: seq<TimerRow>, i: nat, known: set<string>)
    requires i < |rows|
    ensures TimersOf(KnownTimerRows(rows[..i + 1], known))
            == TimersOf(KnownTimerRows(rows[..i], known)) + (if rows[i].faucet in known then [TimerOf(rows[i])] else [])
  {
    assert rows[..i + 1][..i] == rows[..i];
  }

  /** The timers of known rows belong to known faucets. */
  lemma KnownTimersBelong(rows: seq<TimerRow>, known: set<string>)
    requires forall r :: r in rows ==> r.faucet in known
    ensures forall t :: t in TimersOf(rows) ==> t.faucet in known
  {
    forall t | t in TimersOf(rows)
      ensures t.faucet in known
    {
      var k :| 0 <= k < |rows| && TimersOf(rows)[k] == t;
      assert rows[k] in rows;
    }
  }

  /** Reading one more line, when `quit` has not been met, performs it. */
  lemma InterpretStep(s: Session, lines: seq<string>, i: nat, durations: map<string, int>, self: string)
    requires i < |lines|
    requires !Interpret(s, lines[..i], durations, self).quit
    ensures Interpret(s, lines[..i + 1], durations, self) ==
              PerformLine(Interpret(s, lines[..i], durations, self), lines[i], durations, self)
  {
    assert lines[..i + 1][..i] == lines[..i];
  }

  /** A line read after earlier ones acts as it would on its own; the
      faucets closed accumulate. */
  lemma PerformLineFromFresh(s: Session, line: string, durations: map<string, int>, self: string)
    ensures var r := PerformLine(Session(s.timers, s.disabled, {}, false), line, durations, self);
            PerformLine(s, line, durations, self) == Session(r.timers, r.disabled, s.closed + r.closed, s.quit || r.quit)
  {
    match ParseManualLine(line)
    case Ignored =>
    case Command(c, p) => PerformFromFresh(s, c, p, durations, self);
  }

  /** Closing the faucets of `c1` and then those of `c2` closes those of
      both, since closing a closed faucet changes nothing. */
  lemma ClosingComposes(views: map<string, F.FaucetState>, mid: map<string, F.FaucetState>,
                        after: map<string, F.FaucetState>, c1: set<string>, c2: set<string>)
    requires mid.Keys <= views.Keys && after.Keys == mid.Keys
    requires forall n :: n in mid ==> mid[n] == if n in c1 then F.Closed(views[n]) else views[n]
    requires forall n :: n in after ==> after[n] == if n in c2 then F.Closed(mid[n]) else mid[n]
    ensures forall n :: n in after ==> after[n] == if n in c1 + c2 then F.Closed(views[n]) else views[n]
  {
  }

  /** A command performed after earlier ones acts as it would on its own. */
  lemma PerformFromFresh(s: Session, command: string, param: string, durations: map<string, int>, self: string)
    ensures var r := Perform(Session(s.timers, s.disabled, {}, false), command, param, durations, self);
            Perform(s, command, param, durations, self) == Session(r.timers, r.disabled, s.closed + r.closed, s.quit || r.quit)
  {
    if command == "open" {
    } else if command == "close" {
    } else if command == "closeall" {
    } else if command == "disable" {
    } else if command == "enable" {
    } else if command == "quit" {
    } else {
    }
  }

  /** A faucet built from a row of the faucet list. */
  ghost predicate BuiltFrom(f: F.Faucet, row: FaucetRow) {
    && f.name == row.name && f.faucetType == row.faucetType && f.computerName == row.computerName
    && f.relayIdx == row.relay && f.counter == row.counter && f.defaultDuration == row.defaultDuration
  }

  /** The faucets are those of the loaded rows, each one of `made` and built
      from its row. */
  ghost predicate BuiltAll(faucets: map<string, F.Faucet>, added: map<string, FaucetRow>, made: set<F.Faucet>) {
    && faucets.Keys == added.Keys
    && forall n :: n in faucets ==> faucets[n] in made && BuiltFrom(faucets[n], added[n])
  }

  lemma BuiltAllAdd(faucets: map<string, F.Faucet>, added: map<string, FaucetRow>, made: set<F.Faucet>,
                    row: FaucetRow, f: F.Faucet)
    requires BuiltAll(faucets, added, made) && BuiltFrom(f, row)
    ensures BuiltAll(faucets[row.name := f], added[row.name := row], made + {f})
  {
  }

  /** The faucets in `made` are in the state a new faucet starts in. */
  ghost predicate AllNew(made: set<F.Faucet>)
    reads made
  {
    forall f :: f in made ==> f.View() == F.FaucetState(false, false, None, [])
  }

  lemma SharedNamesStep(numOpen: map<string, seq<string>>, done: set<string>, c: string)
    requires c in numOpen
    ensures SharedNames(numOpen, done + {c}) ==
              SharedNames(numOpen, done) + (if |numOpen[c]| > 1 then set n | n in numOpen[c] else {})
  {
  }
}
