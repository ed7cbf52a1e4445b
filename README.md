# Irrigator controller, modelled in Dafny

The irrigator opens and closes garden faucets on a schedule. An
*irrigation computer* holds a dictionary of faucets (each on a relay of some
controller board, optionally metered by a water counter) and a list of
timers. Once per tick it asks every timer whether its faucet should be open
now, opens and closes the faucets to match, and re-reads its manual-commands
file and its faucet and timer lists. A small web site lets a user leave
manual commands (`open`, `close`, `closeall`) in that commands file, and
lists the faucets.

The repository has two generations of the computer:

- the older top-level one: `icomputer.py`, `faucet.py`, `numatofaucet.py`
  and `timers.py`;
- the newer package: `icomputer/icomputer.py`, `icomputer/faucet.py` and
  `icomputer/counter_numato.py`.

It also has the web site, `iserver/isite.py`. This project models all of
these, one Dafny module per source file:

| module | source | form |
|---|---|---|
| `Faucet` | icomputer/faucet.py | class `Faucet` with `View()`; call-sequence lemmas |
| `FaucetLegacy` | faucet.py | class `Faucet` |
| `FaucetTypes` | `get_faucet_class` in both faucet files | functions over a table of importable modules |
| `NumatoFaucet` | numatofaucet.py | class over the base faucet; serial traffic as values |
| `Timers` | timers.py | datatypes and functions of the time `now` |
| `CounterNumato` | icomputer/counter_numato.py | class; readings are parameters |
| `Config` | the row loops of both `read_faucets` / `read_timers` | functions and lemmas |
| `Computer` | icomputer/icomputer.py | class `IComputer` with the tick, manual commands and loading as methods |
| `LegacyComputer` | icomputer.py | class `IComputer` with the tick and loading as methods |
| `Site` | iserver/isite.py | functions from request and environment to reply and file write |

Three modules are support: `Wrappers` (Option and Result), `Text` (Python's
`strip`, `split`, ASCII `lower` and `str(int)` on strings), and `Stats` (the exact
median that `np.median` computes).

Time is a whole number of minutes, and minute 0 is a Monday, 00:00. "Now",
the serial board, the environment, the files' contents and the timers'
answers at a tick are all parameters. A faucet or timer object is referred
to by its name, which is its key in the computer's dictionary.

## Model

| member | source | states |
|---|---|---|
| FaucetTypes.Resolve | icomputer/faucet.py:10-11 | A class is found iff its module is importable and defines that name. The error tells a missing module (ModuleNotFoundError) from a missing class (AttributeError). |
| FaucetTypes.GetFaucetClass | icomputer/faucet.py:9-12 | A faucet type resolves iff the package module `icomputer.<lower-cased type>` exists and holds a class named exactly as the type; the class found has that name. |
| FaucetTypes.GetFaucetClassTopLevel | faucet.py:7-10 | The same for the top-level module `<lower-cased type>`. |
| FaucetTypes.CaseSelectsModuleOnly | icomputer/faucet.py:10-11 | Types that differ only in letter case pick the same module, but each still needs its own exactly named class; if that class is missing, the lookup fails for that reason. |
| FaucetTypes.UnknownTypeFails | icomputer/faucet.py:10 | Type "Numato" with no `icomputer.numato` module fails as a missing module. |
| FaucetLegacy.Faucet.constructor | faucet.py:13-38 | A new faucet keeps the given name, computer, type (default "generic") and relay (default "0"). It starts closed. |
| FaucetLegacy.Faucet.Open | faucet.py:43-47 | The faucet is open afterwards. |
| FaucetLegacy.Faucet.Close | faucet.py:49-53 | The faucet is closed afterwards. |
| Faucet.Faucet.constructor | icomputer/faucet.py:21-50 | The fields come from the arguments, with the source's defaults (type "generic", relay "0", counter "none", 30 minutes). A new faucet is closed and not alone, has no whole-interval flag and no flow samples. |
| Faucet.Faucet.Open | icomputer/faucet.py:55-61 | Afterwards the faucet is open and alone, and its earlier samples are dropped. The result is False. |
| Faucet.Faucet.Close | icomputer/faucet.py:63-67 | Afterwards the faucet is closed. The alone flags and the samples are kept for the median. The result is False. |
| Faucet.Faucet.AddFlowCount | icomputer/icomputer.py:476-478 | The reading the counter gives, if it gives one, is appended to the samples; nothing else changes. |
| Faucet.Faucet.GetMedianFlow | icomputer/faucet.py:69-81 | "no counter" without a counter, "not alone" without samples, and otherwise a median: at least half the samples lie at or below it and at least half at or above it. |
| Faucet.OpenIffLastSwitchWasOpen | icomputer/faucet.py:55-67 | After any sequence of calls, a faucet is open exactly when the most recent open-or-close call was an open. |
| Faucet.SamplesSinceLastOpen | icomputer/faucet.py:58-60 | Once a faucet has been opened, its samples are exactly those recorded since the most recent open. |
| Faucet.CloseKeepsNotAlone | icomputer/faucet.py:63-67 | A faucet marked not alone while open is still not alone after it closes. |
| Faucet.NoCounterAlways | icomputer/faucet.py:77-78 | A faucet with counter "none" answers "no counter" whatever its samples. |
| Faucet.MeteredMedian | icomputer/faucet.py:69-81 | A metered faucet with no samples answers "not alone". With samples it answers a value that has at least half of them on each side. |
| Faucet.MedianAfterThreeSamples | icomputer/faucet.py:69-81 | Opening and then recording 2, 4 and 6 gives the median 4. |
| Stats.Sort | icomputer/faucet.py:81 | Sorting the samples gives an ordered permutation of them. |
| Stats.MedianSplitsSamples | icomputer/faucet.py:81 | At least half of the samples are at most the median, and at least half are at least the median. |
| NumatoFaucet.RelayChar | numatofaucet.py:27 | `chr(55 + n)` succeeds iff 55 + n is a code point a character can hold, and then it is the one character with code 55 + n. Past the Unicode range it fails with CodePointTooLarge, as `chr` raises ValueError there. |
| NumatoFaucet.RelayIdxIsHexDigit | numatofaucet.py:21-28 | In the corrected conversion, every relay 0..15 gets a one-digit upper-case hexadecimal name that decodes back to the relay number. |
| NumatoFaucet.AsWrittenRejectsLowRelays | numatofaucet.py:24-25 | As written, relay 3 cannot be converted (undefined `relayNum`); the intended result is "3". |
| NumatoFaucet.AsWrittenAgreesFromTen | numatofaucet.py:26-27 | From 10 on, the written and corrected conversions agree. |
| NumatoFaucet.NumatoFaucet.Create | numatofaucet.py:14-19 | A textual relay index is kept. A numeric one is replaced by its board name under the corrected conversion `RelayIdxFromNum`, and construction fails exactly when that conversion fails; from 10 up this is also exactly when the conversion as written fails. The new faucet has the given fields and port (default "/dev/ttyACM0") and is closed. |
| NumatoFaucet.WriteRelay | numatofaucet.py:42-59 | The result is True iff the port opens, the write succeeds and the port closes. The board receives a command iff the port opens and the write succeeds, and that command is "relay <cmd> <idx>" followed by "\n\r". |
| NumatoFaucet.WriteCommandRoundTrip | numatofaucet.py:52-53 | The board recovers the verb and the relay index from every switch command whose verb and index contain no space. |
| NumatoFaucet.ReadIsReadVerb | numatofaucet.py:34 | The read command is the switch command with the verb "read". |
| NumatoFaucet.ReadRelay | numatofaucet.py:30-40 | The command sent is "relay read <idx>\n\r" for the faucet's relay, and it is sent iff the port opens, the index is text and the write succeeds. The answer is the first min(25, length) characters of the reply, and it is None iff any step fails. |
| NumatoFaucet.ReadCommandRoundTrip | numatofaucet.py:30-34 | The board reads back the verb "read" and the relay index from every read command `read_relay` sends. |
| NumatoFaucet.NumatoFaucet.Open | numatofaucet.py:61-66 | The result is that of `write_relay(idx, "on")`. The faucet becomes open only when it is True, and is otherwise unchanged. |
| NumatoFaucet.NumatoFaucet.Close | numatofaucet.py:68-73 | The result is that of `write_relay(idx, "off")`. The faucet becomes closed only when it is True, and is otherwise unchanged. |
| Timers.TimeInRangeWindow | timers.py:32-39 | The window starts exactly at hour:minute today and includes both of its ends; the minute after it is outside. |
| Timers.TimeInRangeStopsAtMidnight | timers.py:34-36 | At a time of day before the start time the answer is False, even if the window would reach into the next day. |
| Timers.TimeInRangeDaily | timers.py:32-39 | The window gives the same answer at the same time on every day. |
| Timers.NewSingleTimer | timers.py:70-75 | A one-off timer ends exactly `duration` minutes after it starts. |
| Timers.WeeklyRepeats | timers.py:59-67 | A weekly timer gives the same answer one week later. |
| Timers.WeeklyDayGate | timers.py:59-67 | A weekly timer is closed on every day except the one where `isoweekday() + 1` equals its start day, so a start day outside 2..8 never opens. On that day the answer is `time_in_range`'s. |
| Timers.SingleWindow | timers.py:78-83 | A one-off timer is open exactly from its start to start + duration, both ends included. |
| Timers.GenericHasNoAnswer | timers.py:41-45 | A plain timer has type "generic" and no `should_be_open`; asking it fails at every time. |
| CounterNumato.CounterNumato.constructor | icomputer/counter_numato.py:10-29 | A new counter starts at 0 and remembers the current pin reading. The voltage pin is kept as text, so None becomes "None". When a voltage pin is given it is set first, and the first reading reads the voltage pin (not `iopin`). |
| CounterNumato.CounterNumato.Update | icomputer/counter_numato.py:31-47 | The counter takes one `Updated` step on the reading (see UpdateStep), after one read command for the voltage pin. |
| CounterNumato.CounterNumato.Reset | icomputer/counter_numato.py:49-51 | The count is 0 again and the current reading is remembered, after one read command for the voltage pin. |
| CounterNumato.UpdateStep | icomputer/counter_numato.py:41-47 | One update adds one exactly on an off-to-on change, never lowers the count, and remembers the reading. |
| CounterNumato.UpdatesCountRisingEdges | icomputer/counter_numato.py:41-47 | Over any run of readings the count grows by exactly the number of off-to-on changes, and the last reading is remembered. |
| CounterNumato.AsWrittenMissesOn | icomputer/counter_numato.py:37-39 | The board reply "on" reads as off with the check as written, and as on with the intended check. |
| CounterNumato.AsWrittenNeverCounts | icomputer/counter_numato.py:37-47 | With the check as written, the count never moves, whatever the pin does. |
| CounterNumato.IntendedCountsOn | icomputer/counter_numato.py:37-47 | With the intended check, replies "off" then "on" read as off then on, and a counter that read off goes up by exactly one. |
| Config.LoadFaucets | icomputer.py:70-79 | Loading never adds a name that was already present, and every loaded faucet sits under its own name. |
| Config.LoadNext | icomputer.py:71-79 | One row adds at most that row, under a name that was free, and loading can only succeed if it had succeeded so far. |
| Config.LoadSkips | icomputer.py:73-75 | A row whose name is already taken is skipped before its type is looked up. |
| Config.LoadAdds | icomputer.py:76-79 | A row with a new name and a resolvable type is added under its name. |
| Config.LoadFails | icomputer.py:76 | A row with a new name whose type cannot be resolved ends the loading as failed, whatever rows follow. |
| Config.LoadedFromRows | icomputer.py:70-79 | Every loaded faucet comes from a row of the list. |
| Config.FirstDefinitionWins | icomputer.py:73-75 | When a name is defined several times, its first row is the one kept, provided loading got that far. |
| Config.FailureStopsLoading | icomputer/icomputer.py:145 | After a failed lookup, no later row is loaded. |
| Config.KnownTimerRows | icomputer/icomputer.py:171-174 | Every kept timer row names a known faucet and comes from the list. |
| Config.KnownTimerRowsAppend | icomputer/icomputer.py:170-185 | Every row for a known faucet is kept and the order is unchanged: a list's kept rows are those of any prefix followed by those after it. |
| Computer.Filter | icomputer/icomputer.py:378 | The members of the result are exactly the timers satisfying the predicate, and it is no longer than the input (see FilterAppend, FilterSingle and FilterCounts for order and multiplicity). |
| Computer.FilterAppend | icomputer/icomputer.py:378 | Filtering a concatenation is the concatenation of the filtered parts, so the kept timers stay in list order. |
| Computer.FilterSingle | icomputer/icomputer.py:378 | A single timer is kept iff it satisfies the predicate. |
| Computer.FilterCounts | icomputer/icomputer.py:378 | Each timer satisfying the predicate is kept as often as it occurs, duplicates included, and every other timer is dropped. |
| Computer.DeletedMembers | icomputer/icomputer.py:369-379 | After `delete_timers`, a timer is kept iff it is not in the delete list; an empty delete list keeps them all. |
| Computer.DeletePicked | icomputer/icomputer.py:293-313 | Deleting the timers picked by a predicate keeps exactly the others, in order, and this holds for an empty pick too. |
| Computer.ActiveNames | icomputer/icomputer.py:441-446 | A faucet should be open iff some timer of it says so (an OR over all timers). |
| Computer.NumOpenEntries | icomputer/icomputer.py:439-444 | A counter's `num_open` list has one entry per active timer on that counter and names exactly the wanted faucets on it. A counter has a list iff some active timer is on it. |
| Computer.NotAloneMeans | icomputer/icomputer.py:461-467 | A faucet is marked not alone iff some timer wants it open and its counter has more than one active timer (two timers of the same faucet count). |
| Computer.TickReconciles | icomputer/icomputer.py:470-487 | After a tick, a faucet no timer wants is closed. A wanted faucet is open unless it was closed and the computer is disabled and the faucet is local. |
| Computer.TickAloneFlags | icomputer/icomputer.py:456-467 | After a tick, a faucet opened in it is alone, and every other faucet is alone iff its counter is not shared. Only a shared counter clears the whole-interval flag. |
| Computer.TickSamples | icomputer/icomputer.py:470-487 | A faucet that stays open gains the new reading, a faucet opened in the tick has no samples, and an unwanted faucet's samples are unchanged. |
| Computer.MalformedLineIgnored | icomputer/icomputer.py:260-263 | A commands line without exactly two tab-separated fields changes nothing. |
| Computer.UnknownCommandIgnored | icomputer/icomputer.py:352-354 | An unrecognised command word changes nothing. |
| Computer.ManualOpenAddsOneTimer | icomputer/icomputer.py:266-277 | `open` of a known faucet appends one manual single timer with the faucet's default duration and changes nothing else. `open` of an unknown faucet changes nothing. |
| Computer.ManualCloseRemovesOwnManualTimers | icomputer/icomputer.py:279-302 | `close` of a known faucet closes it and removes exactly that faucet's manual single timers. Every other timer is kept in order, and the disabled flag is unchanged. |
| Computer.CloseAllRemovesManualTimers | icomputer/icomputer.py:304-314 | `closeall` closes every faucet and removes exactly the manual single timers, keeping the others in order. |
| Computer.DisableEnableOnlyForSelf | icomputer/icomputer.py:316-345 | `disable` and `enable` change nothing unless they name this computer; when they do, `disabled` becomes true or false respectively. |
| Computer.QuitStops | icomputer/icomputer.py:347-350 | Nothing after a `quit` line is read. |
| Computer.QuitOrEnd | icomputer/icomputer.py:258-350 | Reading stops at the end of the file or at `quit`; either way, the lines read so far decide the result. |
| Computer.PerformFromFresh | icomputer/icomputer.py:264-350 | A command behaves the same whatever came before it; the sets of closed faucets simply accumulate. |
| Computer.IComputer.constructor | icomputer/icomputer.py:21-42 | A computer starts enabled, with its name, no faucets and no timers; `Reload` then fills the lists. |
| Computer.IComputer.CloseAll | icomputer/icomputer.py:391-396 | Every faucet is closed, and nothing else about it changes. |
| Computer.IComputer.DeleteTimers | icomputer/icomputer.py:369-379 | The timer list becomes the old list minus the delete list (see DeletedMembers); an empty delete list leaves it as it was. |
| Computer.IComputer.ManualTimersOf | icomputer/icomputer.py:293-312 | The delete list holds the manual single timers of one faucet (for `close`) or of all faucets (for `closeall`), in list order. |
| Computer.IComputer.ScanTimers | icomputer/icomputer.py:437-448 | The loop's results are the wanted faucets, the `num_open` lists and the timers to remove, in order, and every name in `num_open` is a faucet. |
| Computer.IComputer.ScanNext | icomputer/icomputer.py:438-448 | Timer i extends the wanted faucets, the `num_open` lists and the removal list from the first i timers to the first i + 1. |
| Computer.IComputer.SetAllAlone | icomputer/icomputer.py:458-459 | Every faucet is alone afterwards, and nothing else changes. |
| Computer.IComputer.MarkNotAlone | icomputer/icomputer.py:465-467 | The listed faucets lose both alone flags and the others are untouched. |
| Computer.IComputer.MarkSharedCounters | icomputer/icomputer.py:462-467 | Exactly the faucets listed under a counter with more than one entry lose both alone flags. |
| Computer.IComputer.Reconcile | icomputer/icomputer.py:470-487 | Each faucet takes one open/close/sample step: unwanted open faucets close, wanted open ones are sampled, and wanted closed ones open unless blocked by `disabled` on a local faucet. |
| Computer.IComputer.Switch | icomputer/icomputer.py:456-487 | The three passes over the faucets leave each faucet in its `TickView` state (see TickReconciles, TickAloneFlags, TickSamples). |
| Computer.IComputer.Tick | icomputer/icomputer.py:437-490 | One tick leaves every faucet in the state TickReconciles, TickAloneFlags and TickSamples describe. Removable timers are deleted, and every timer still belongs to a faucet. |
| Computer.IComputer.ReadManualCommands | icomputer/icomputer.py:233-356 | After the commands file is read, the timers, the disabled flag and the quit answer are those of the interpreted lines. The faucets closed are exactly those the lines closed; the rest are untouched. |
| Computer.IComputer.ReadLines | icomputer/icomputer.py:258-356 | Reading the lines until the end or a `quit` leaves the computer as the interpretation of all the lines does. |
| Computer.IComputer.ReadNext | icomputer/icomputer.py:259-354 | Line i, read after the lines before it, leaves the computer as the interpretation of the first i + 1 lines. |
| Computer.IComputer.ReadLine | icomputer/icomputer.py:259-354 | One more line extends the interpreted session by that line. |
| Computer.IComputer.RunLine | icomputer/icomputer.py:260-265 | A line is split and dispatched as its command, or ignored. |
| Computer.IComputer.RunCommand | icomputer/icomputer.py:266-354 | Each command changes the timers, the disabled flag and the faucets as `Perform` describes, and returns whether it was `quit`. |
| Computer.IComputer.RunFaucetCommand | icomputer/icomputer.py:266-315 | `open` adds a manual timer for a known faucet, `close` closes a known faucet and deletes its manual single timers, and `closeall` closes every faucet and deletes every manual single timer, as `Perform` describes. |
| Computer.IComputer.RunComputerCommand | icomputer/icomputer.py:316-354 | `disable` and `enable` act only when they name this computer, `disable` also closes all faucets and deletes the manual single timers, `quit` closes all and returns true, and any other command changes nothing, as `Perform` describes. |
| Computer.IComputer.CloseManual | icomputer/icomputer.py:284-302 | That faucet is closed, its manual single timers are deleted, and nothing else changes. |
| Computer.IComputer.CloseAllManual | icomputer/icomputer.py:304-313 | Every faucet is closed and every manual single timer is deleted. |
| Computer.IComputer.LoadFaucetObjects | icomputer/icomputer.py:135-148 | The faucet dictionary is rebuilt from scratch: one new, closed faucet per name loaded by first-definition-wins, each built from its row. The result is False iff a type could not be resolved. |
| Computer.IComputer.LoadRow | icomputer/icomputer.py:140-148 | A row whose name is taken is skipped, an unresolvable type stops the loading, and otherwise the row's faucet is added. |
| Computer.IComputer.AddFaucet | icomputer/icomputer.py:145-148 | A new faucet built from the row is stored under its name, and no other entry changes. |
| Computer.IComputer.Reload | icomputer/icomputer.py:539-542 | The old faucets are closed first and the faucet list is reloaded. If that succeeds, the timers are exactly those of the rows naming a known faucet. |
| Computer.IComputer.ReadTimers | icomputer/icomputer.py:166-185 | All faucets are closed. The timer list is rebuilt from the rows whose faucet is known, in file order, and every timer belongs to a faucet. |
| Computer.IComputer.ReadTimerRow | icomputer/icomputer.py:172-185 | Row i adds its timer exactly when its faucet is known, extending the list built from the first i rows to the first i + 1. |
| LegacyComputer.LocalTarget | icomputer.py:168-174 | The scan succeeds iff every timer of a local faucet can answer. Then a faucet should be open iff it is local and one of its timers says open now. |
| LegacyComputer.LocalTargetStops | icomputer.py:169-174 | A timer that raises stops the whole scan. |
| LegacyComputer.TickLogMessages | icomputer.py:177-192 | The action log names exactly the faucets switched: "opened faucet n" for one that was closed and "closed faucet n" for one that was open. |
| LegacyComputer.TickLogDistinct | icomputer.py:177-192 | With distinct faucet names, no log message is written twice, so each switch is logged once. |
| LegacyComputer.MessagesDiffer | icomputer.py:187-192 | An open message is never a close message, and each message identifies its faucet. |
| LegacyComputer.LoggedWithoutSwitch | icomputer.py:186-192 | A local faucet that should change but does not take the switch keeps its state, yet its "opened"/"closed" message is in the log. |
| LegacyComputer.ReadTimerRows | icomputer.py:99-111 | Every timer read belongs to a known faucet. |
| LegacyComputer.ReadTimerRowsKeepsKnown | icomputer.py:99-111 | When every row reads, there is one timer per row of a known faucet, in file order, with that row's faucet and duration. |
| LegacyComputer.ReadTimersStop | icomputer.py:105-106 | Once a row's start time fails to parse, no later row is read. |
| LegacyComputer.IComputer.constructor | icomputer.py:32-34 | A computer starts with its name and with no faucets or timers. |
| LegacyComputer.IComputer.IsFaucetOnComputer | icomputer.py:150-160 | A faucet is on this computer iff its computer name is this computer's name; a faucet with no computer name is on none. |
| LegacyComputer.IComputer.Locals | icomputer.py:171-179 | A name is local iff its faucet is on this computer. |
| LegacyComputer.IComputer.ShouldBeOpenNow | icomputer.py:168-174 | The loop computes `LocalTarget` of the timers at `now`. |
| LegacyComputer.IComputer.Switch | icomputer.py:177-192 | Afterwards the open local faucets that take the switch are exactly the wanted ones, and every other faucet keeps its state. The log is the tick's action log in dictionary order, whether or not the switch took effect. |
| LegacyComputer.IComputer.SwitchNext | icomputer.py:178-192 | Switching faucet j extends the action log by its entry in the tick log. Among the local faucets that take the switch, those switched so far are then as wanted and the rest as they were. |
| LegacyComputer.IComputer.SwitchOne | icomputer.py:179-192 | Only that faucet may change: if local and it takes the switch, it ends as the target says. At most one message is written, whether or not the switch took effect. |
| LegacyComputer.IComputer.Tick | icomputer.py:165-192 | When the timers can all answer, the local faucets that take the switch end exactly as wanted, others keep their state, and every switch is logged, including one the faucet did not take. If a timer raises, nothing is switched and nothing is logged. |
| LegacyComputer.IComputer.ReadFaucets | icomputer.py:52-81 | Rows are added on top of the existing faucets, which stay as they were, with the first definition of a name winning. Each new faucet is fresh, closed and built from its row. The result is False iff a type could not be resolved. |
| LegacyComputer.IComputer.LoadRows | icomputer.py:70-79 | The loop loads exactly what `LoadFaucets` describes and keeps the computer consistent. |
| LegacyComputer.IComputer.LoadRow | icomputer.py:71-79 | A taken name is skipped, an unresolvable type stops the loading, and otherwise a new faucet is added. |
| LegacyComputer.IComputer.AddFaucet | icomputer.py:76-79 | A new closed faucet built from the row is stored under its name and its name is appended to the dictionary order. |
| LegacyComputer.IComputer.ReadTimers | icomputer.py:83-113 | The timers of the rows naming a known faucet are appended to the existing list. The result is False iff a start time did not parse, in which case what was appended before it is kept. |
| Site.CheckAuth | iserver/isite.py:13-28 | Access is granted iff the user is `irrigator`, `IRRIGATOR_PASSWORD` is set, and the password equals it. |
| Site.Handle | iserver/isite.py:38-45 | Requests without credentials, or with credentials that `check_auth` refuses, get exactly the 401 basic-auth challenge of `authenticate` (lines 31-35) and write nothing. Every other request is served. |
| Site.GetManualFileName | iserver/isite.py:48-67 | The result is `<computer_name>_commands.txt`, or `commands.txt` when the name is missing; a missing `IComputer` section raises KeyError. |
| Site.Serve | iserver/isite.py:84-140 | `manual_open`, `manual_close` and `close_all` replace the commands file with their one command line and reply with their text (status 200). `get_faucets` replies with the list or raises. |
| Site.CommandLineParses | iserver/isite.py:96-123 | The computer parses each line the site writes back into the site's command word and parameter. |
| Site.CommandReachesComputer | iserver/isite.py:95-96 | A commands file holding the one written line acts on the computer as that one command. |
| Site.CommandEffects | iserver/isite.py:84-124 | A manual open adds a manual timer with the faucet's default duration. A manual close closes that faucet and drops exactly its manual timers. Close-all closes every faucet and drops every manual timer. |
| Site.FirstUnlistable | iserver/isite.py:136-139 | Every row before the first unlistable one has both columns and a name. |
| Site.GetFaucetList | iserver/isite.py:127-140 | The loop's answer is every name followed by `;`, in file order, or the error of the first row it cannot list (see ListedNamesSplit). |
| Site.ListedNamesSplit | iserver/isite.py:139-140 | A client splitting the answer at `;` gets the names back, in order, plus the empty field after the last `;`. |

## Left out

- I/O: files, their timestamps, the serial port, `time.sleep`, logging and the action-log file are not modelled. Their contents are parameters, and the messages a tick logs are returned as values.
- The configuration readers are not modelled: `read_config_file`, the `setattr` loop over the config, configparser's DEFAULT section and `write_config_file`. `disabled` and the computer name are plain fields.
- Parsing the TSV files (`csv.DictReader`, `int(...)` on fields) is not modelled. Rows arrive as typed `FaucetRow`/`TimerRow` values, except in `get_faucets`, where a row is a map whose missing fields are None.
- The water counters of the newer computer are not modelled: `read_counters`, the counter files and the per-minute water logs (`write_water_log_counter`, the current-water file, `write_keep_alive_file`). The same goes for `write_status_file` and the `old_should_be_open` bookkeeping. None of these feeds back into faucet states.
- The newer computer's timers are not modelled. `icomputer/timers.py` (`should_be_open`, `should_remove`, `is_manual`, the manual single timer's start) is not part of this model. The tick takes the timers' answers as the predicates `shouldBeOpen`/`shouldRemove`.
- The newer faucet's `is_local()` and `add_flow_count()` are only partly modelled. Their definitions are not part of this model, so the tick takes them as the parameters `isLocal` and `sample`.
- LegacyComputer.IComputer.Tick: the older computer can load numatofaucet.NumatoFaucet through faucet.py's `get_faucet_class`. Its state is the embedded base `Faucet`. Whether a faucet's `open()`/`close()` takes effect is the parameter `accepted`, because the serial write of NumatoFaucet.Open/Close is an outcome the computer does not see. `main_loop` ignores the result and logs the switch anyway, and the model keeps that.
- Computer.IComputer.AddFaucet: the newer computer builds a faucet as `faucet_class(local_computer=self, **dict(row))`. The subclasses that take `local_computer` live in modules that are not part of this model. The base `Faucet` of icomputer/faucet.py takes a positional `local_computer_name` instead, so called this way it raises TypeError unless the row has that column. The model assumes the loaded faucet has the base `Faucet`'s state, with this computer's name as its local computer name.
- Text.Lower: `str.lower` folds all of Unicode, while the model lower-cases ASCII letters only. A faucet type with a non-ASCII capital (say "Ä") would pick a different module name in the source.
- NumatoFaucet.NumatoFaucet.Create: the constructor converts a numeric relay with the corrected `RelayIdxFromNum`. As written (numatofaucet.py:17-18 calling lines 24-25), every int relay below 10 raises NameError, so the source cannot build such a faucet (closeall_numato.py:13 tries relays 0 to 15); the model builds it with the decimal name. See the first row of "## Findings".
- NumatoFaucet.RelayChar: Python's `chr` returns a one-character string for a surrogate code point (0xD800 to 0xDFFF, that is relay numbers 55241 to 55304). A Dafny `char` cannot hold one, so the model fails there with SurrogateCodePoint.
- NumatoFaucet.ReadRelay: the serial traffic is bytes (`encode('utf-8')`, `read(25)`), while the model uses characters. The reply is a string and 25 counts characters, not bytes.
- The older faucet's relay is only partly modelled. `**dict(row)` passes every column to the constructor, but only name, computer, type and relay are kept.
- `get_median_flow` returns a structured value rather than the `'%.2f'` text, and the median is exact rather than floating point.
- The constructors take a computer name rather than reading one. The `__init__` of icomputer.py (line 37) names an undefined `conf_file` when a config file is given; the model's constructor is the path without one.
- Computer.TimerOf: the newer `read_timers` builds `datetime.time`/`datetime.datetime` from the row, which raises on an impossible time. The model stores the row's numbers without that check.
- Computer.IComputer.ReadManualCommands: the `sys.exit()` after `quit` is returned as `quit == true` for the caller to stop on. The `is_local` branch at lines 274-277 only logs, so it is not modelled.
- `main_loop` itself is not modelled as a loop. One iteration is `Tick` (plus `ReadManualCommands` and `Reload` for the file checks); the exception handler around the commands file is not modelled.
- Timer and faucet objects are identified by value and by name. Python compares them by identity; `delete_timers` always deletes the timers that satisfy a predicate, so equal-valued timers are treated alike either way.
- Timers.ShouldBeOpen: `should_be_open` reads `datetime.now()`, while the model takes `now` as a parameter in minutes since a Monday. Daylight saving time and calendar dates are not modelled.
- Flask routing is not modelled: the `Response` object and header defaults, and the streaming of the commands file write, are outside the model.

## Findings

| source | as written | input that shows it | evidently intended | confidence | as-written member | corrected member |
|---|---|---|---|---|---|---|
| numatofaucet.py:24-25 | `relay_idx_from_num` builds the name of a relay below 10 from `relayNum`, a name that does not exist, so it raises NameError | relay number 3 | the decimal digit, "3" | high (not executed) | NumatoFaucet.AsWrittenRejectsLowRelays | NumatoFaucet.RelayIdxIsHexDigit |
| icomputer/counter_numato.py:37-39 | `response[1] == 'n'` compares an element of a `bytes` reply (an int) with the text `'n'`, which is never equal, so every reading is off and the counter never counts | reply `b"on"` | compare with `ord('n')` (or `b'n'[0]`) | high (not executed) | CounterNumato.AsWrittenNeverCounts | CounterNumato.IntendedCountsOn |
