# xoutil core, modelled in Dafny

This project models seven pieces of the Python library xoutil and proves
what they promise.

- **Bounded iteration** (`xoutil.bound`, as its test suite
  tests/test_bound.py exercises it). A data process such as `fibonacci`
  produces values. A predicate coroutine is primed, is sent the call's
  `(args, kwargs)` for the initial stop signal, and is then sent every
  produced value for that cycle's stop signal. The runner returns the last
  value or `None`, raises `RuntimeError` when a predicate ends while a
  signal is expected, and closes every generator on every exit. `times`,
  `timed` and `accumulated` are the configurable leaf predicates. `whenall`
  and `whenany` are the AND and OR combinators, and they nest. Generators
  are state machines with a `phase` field, `Advance` and `Next` step them,
  and the runner `Bound.BoundRun` is a loop proved to compute
  `Bound.Run`.
- **`IntSet`** (xoutil/data.py). A set of non-negative integers kept as a
  list of 4096-bit buckets. It is a class whose `Add` pads with zero
  buckets, whose `Remove` clears a bit and compacts trailing zero buckets,
  and whose `Repr` scans the buckets with nested loops for maximal runs.
- **Work calendar** (xoutil/workcalendar.py). Fiscal periods clamped to
  the contract start, complete worked months, 2.5 holidays per month, the
  recursive carry-over of holidays used in advance, holiday counting with
  penalties and compensatory extra work days, and the 30-day and 6-day
  compensatory windows (Cuban law 'Autrement'). Dates are Gregorian
  `Date` values with a day number (`Dates`).
- **Prototype calendar** (xoutil/calendar.py). The earlier module-level
  version of the same rules: June fiscal start, no compensatory consumption
  while counting used holidays, and `reserve_holidays`. Its module globals
  are a `Globals` parameter. Lemmas relate each of its functions to the
  work calendar's, under the conditions where they agree: used holidays,
  the carry-over and the remnant only when no extra work day is in play,
  since the prototype never consumes one. `reserve_holidays` has no
  counterpart in the class and is specified on its own.
- **Lock registry** (xoutil/decorators.py). `_SynchronizedType` keeps a
  lock list and an ordered name→position index. `build_locks` registers
  the missing names and returns the locks in index order, so any two names
  are always acquired in the same order. `synchronized.__call__` captures
  its target on the first call. The three-way argument dispatch of
  `decorator` is a pure function.
- **Text helpers** (xoutil/textwrap.py). `indent` prefixes the lines a
  predicate selects, and `dedent(skip_firstline=True)` dedents the first
  line apart from the body.
- **Passwords** (xoutil/security.py). `create_password`: mapping,
  mixed-case and year stages, salt padding, scrambling, and the size rules.

Where the code and its own documentation disagree, the model follows the
code:

- `create_password` at strict levels returns `8*level` characters even
  past the 1024 its docstring announces as a maximum.
- `get_lock`'s guard tests a name against the list of lock objects, so it
  never holds. Every call creates a new lock and re-points the name;
  only `build_locks`'s own filter avoids duplicates.
- `IntSet._count` is not the number of members.
- `get_used_holidays` removes from the list it is iterating, which skips
  the next extra work day. The model follows Python's index-based
  iteration (`WorkCalendars.WorkCalendar.Cancel`).

## Model

| member | source | states |
|---|---|---|
| Bound.BoundRun | tests/test_bound.py:36-46 | the runner loop (start, instantiate, handshake, pull, ask, close) computes exactly the run outcome `Run` |
| Bound.InstantiateDef | tests/test_bound.py:259-267 | creating a predicate gives a leaf generator for a leaf and a combinator with one child per argument and the right AND/OR flag |
| Bound.Magic | tests/test_bound.py:306-311 | `magic_number(a)` is `a(a+1)/2` for `a >= 0` and 0 below 1 |
| Bound.AllTrue | tests/test_bound.py:74-75 | `all(signals)` holds iff every signal holds |
| Bound.AnyTrue | tests/test_bound.py:121 | `any(signals)` holds iff some signal holds |
| BoundProperties.CloseSettles | tests/test_bound.py:108-122 | `Close`: afterwards no generator in the predicate tree, however nested, is still waiting |
| BoundProperties.CloseIdempotent | tests/test_bound.py:108-122 | closing twice is closing once |
| BoundProperties.GeneratorProtocol | tests/test_bound.py:156-211 | `Advance`: a finished or closed predicate only ends again, unchanged; one not yet primed refuses any other message with `TypeError`; once primed it never returns to the created phase |
| BoundProperties.RunSettles | tests/test_bound.py:305-326 | every exit of a run, including errors, leaves the predicate and the data process closed or finished |
| BoundProperties.CyclesSettle | tests/test_bound.py:195-211 | `Cycles` leaves the predicate and the data process closed or finished on every exit |
| BoundProperties.RunAfterHandshake | tests/test_bound.py:36-60 | `Run`: when the data process starts and the handshake says go on, the run is the cycles over the started data process with no values yet |
| BoundProperties.CyclesStep | tests/test_bound.py:36-46 | `Cycles`: a cycle pulls the next value and sends it with the elapsed time; a stop ends the run with the values so far, any other signal goes on |
| BoundProperties.BroadcastIsMap | tests/test_bound.py:245-257 | `BroadcastFrom`: a combinator sends the message to every child, and if all answer with signals it keeps each child's new state and signal |
| BoundProperties.GroupSignal | tests/test_bound.py:74-88 | a combinator answers a signal iff all children do; `whenall` stops iff every child stops, `whenany` iff some child stops |
| BoundProperties.GroupAdvance | tests/test_bound.py:74-88 | `Advance` on a combinator: a cycle to which every child answers a signal keeps the children's new states and answers the AND/OR of their stops |
| BoundProperties.GroupFailsAt | tests/test_bound.py:124-145 | the first child that ends or raises gives the combinator its answer |
| BoundProperties.ArgsReachEveryLeaf | tests/test_bound.py:235-257 | after a successful args step every leaf of the tree has received the call arguments |
| BoundProperties.HandshakeDeliversArgs | tests/test_bound.py:215-228 | `Handshake`: one that yields a signal has delivered the call arguments to every leaf |
| BoundProperties.StopsAtFirstStop | tests/test_bound.py:62-83 | the cycles end with exactly the values up to the first one whose cycle signal is a stop |
| BoundProperties.FeedTimes | tests/test_bound.py:36-46 | `times(n)` signals stop after k values iff k >= n |
| BoundProperties.FeedTimed | tests/test_bound.py:48-55 | `timed(s)` signals stop after a cycle iff the elapsed time has reached s |
| BoundProperties.FeedAccumulated | tests/test_bound.py:62-72 | `accumulated(t)` signals stop iff the running sum of the values has reached t |
| BoundProperties.FeedLeaf | tests/test_bound.py:36-72 | `LeafAdvance`: after the handshake, `times`, `timed` and `accumulated` answer exactly their own stop condition on the values so far |
| BoundProperties.FeedGroup | tests/test_bound.py:74-88 | fed a value sequence, a combinator of signalling children answers the AND/OR of the children's own answers on it |
| BoundProperties.LeafHandshake | tests/test_bound.py:57-60 | the handshake of `times(n)`, `timed(s)`, `accumulated(t)` delivers the arguments and gives the initial signal `n<=0`, `s<=0`, `t<=0` |
| BoundProperties.StopsBeforeFirstValue | tests/test_bound.py:57-60 | an initial stop signal gives an empty run |
| BoundProperties.LeafRunStops | tests/test_bound.py:36-83 | a leaf predicate's run produces the values up to its first stop |
| BoundProperties.TimesTakesFirst | tests/test_bound.py:297-301 | `times(n)` produces exactly the first n values of any data process that yields that many |
| BoundProperties.TimedStopsAtDeadline | tests/test_bound.py:48-55 | `timed(s)` with s > 0 allows the first cycle and stops at the first cycle whose elapsed time reaches s |
| BoundProperties.AccumulatedStopsAtThreshold | tests/test_bound.py:62-83 | `accumulated(t)` stops at the first value whose running sum reaches t |
| BoundProperties.FeedLeafGroup | tests/test_bound.py:74-88 | the answer of a combinator of leaves after k values is the AND/OR of the leaves' own stop conditions |
| BoundProperties.InstantiateChildren | tests/test_bound.py:283-295 | a child given as a factory or as a created generator instantiates the same way |
| BoundProperties.InstantiateChildFails | tests/test_bound.py:259-267 | one child that cannot be created makes the combinator a `TypeError` |
| BoundProperties.GroupHandshake | tests/test_bound.py:74-75 | the handshake of a combinator of leaves gives the AND/OR of the leaves' initial signals |
| BoundProperties.CyclesExhausted | tests/test_bound.py:313-324 | a data process that ends ends the run with the values produced so far |
| BoundTests.FibonacciStream | tests/test_bound.py:25-32 | `Next` on `fibonacci` yields the Fibonacci numbers 1, 1, 2, 3, ... forever |
| BoundTests.FibonacciSum | tests/test_bound.py:64-70 | the first k Fibonacci numbers sum to F(k+1) - 1 |
| BoundTests.FibonacciCall | tests/test_bound.py:24-25 | `Call` of `fibonacci` with no arguments or with `wait` starts the generator |
| BoundTests.TimesEight | tests/test_bound.py:36-46 | `Invoke` of `times(8)(fibonacci)` returns 21 and `Generate` gives (1,1,2,3,5,8,13,21) |
| BoundTests.TimesFiveOnInstance | tests/test_bound.py:297-301 | `times(5)` on a created `fibonacci()` generator returns 5 |
| BoundTests.TimedFirstValue | tests/test_bound.py:48-55 | `timed` with a cycle slower than its limit still returns the first value, 1 |
| BoundTests.TimedZero | tests/test_bound.py:57-60 | `timed(0)` allows no cycle and returns `None` |
| BoundTests.AccumulatedFiveHundred | tests/test_bound.py:71-72 | `accumulated(500)(fibonacci)` returns 233 |
| BoundTests.AccumulatedFiveHundredValues | tests/test_bound.py:77-83 | its generated sequence is the first 13 Fibonacci numbers |
| BoundTests.WhenAllAccumulatedTimedZero | tests/test_bound.py:74-75 | `whenall(accumulated(500), timed(0))` still returns 233 |
| BoundTests.WhenAllAccumulatedTimesTwenty | tests/test_bound.py:87-88 | `whenall(accumulated(500), times(20))` returns 6765, which is greater than 233 |
| BoundTests.ArglessBoundary | tests/test_bound.py:92-104 | the predicate `False, False, True` returns the first value, 1 |
| BoundTests.CloseIsAlwaysCalled | tests/test_bound.py:108-122 | `whenall(whenany(bailout))` returns 1 and leaves every nested generator closed |
| BoundTests.WhenAllWithInvalid | tests/test_bound.py:124-133 | a child ending at the args step makes `whenall` a `RuntimeError` |
| BoundTests.WhenAllWithInvalidBeforeTerminated | tests/test_bound.py:135-145 | a child ending at the first cycle makes `whenall` a `RuntimeError` |
| BoundTests.InvalidUnnamed | tests/test_bound.py:156-179 | a non-generator predicate is a `TypeError`, a predicate ending at the args step a `RuntimeError` |
| BoundTests.EarlyAtInit | tests/test_bound.py:183-193 | a predicate ending at the args step is a `RuntimeError` even for a data process that is not a generator |
| BoundTests.EarlyAtCycle | tests/test_bound.py:195-211 | a predicate ending at a cycle is a `RuntimeError`, and the data process is closed |
| BoundTests.ArgsArePassed | tests/test_bound.py:215-228 | the predicate receives exactly the call's `(args, kwargs)` |
| BoundTests.ArgsArePassedToAll | tests/test_bound.py:235-295 | the call's arguments reach every child of `whenall`/`whenany`, given as factory or as generator |
| BoundTests.NeedsArgs | tests/test_bound.py:259-267 | an unconfigured `times` inside `whenall` is a `TypeError` |
| BoundTests.TerminationWhenException | tests/test_bound.py:304-326 | `Call` of `magic_number` with 0 gives a run that ends normally, and with a text a `TypeError` from the data process propagates; either way the predicate is closed |
| IntSets.IntSet.constructor | xoutil/data.py:96-102 | a new set has no buckets, a zero count and no members |
| IntSets.IntSet.Add | xoutil/data.py:118-131 | pads with zero buckets up to the item's bucket, sets only the item's bit, adds one to the count, and `Contains` becomes true for the old members plus the item |
| IntSets.IntSet.Remove | xoutil/data.py:133-148 | past the last bucket nothing changes; otherwise only the item's bit is cleared, trailing zero buckets are popped after a change to the last bucket, the count drops by one, and `Contains` becomes true for the old members minus the item |
| IntSets.IntSet.Repr | xoutil/data.py:150-185 | `'<empty intset>'` for no buckets, else the maximal runs of members in ascending order as `'a'` or `'a-b'` inside angle brackets |
| IntSets.ScanRuns | xoutil/data.py:154-178 | the bucket scan yields the maximal runs of members, ascending, covering every member |
| IntSets.ScanBucket | xoutil/data.py:160-165 | one bucket's scan finds its first set bit and extends the runs up to the bucket's end |
| IntSets.WalkBucket | xoutil/data.py:164-177 | walking a bucket's bits extends the open run by consecutive members and closes it at every gap and at the bucket's end |
| IntSets.SkipZeroBits | xoutil/data.py:168-169 | the inner loop stops at the next set bit, or at the bucket size |
| IntSets.RunStrings | xoutil/data.py:179-184 | one entry per run, `'a'` or `'a-b'` |
| IntSets.Padded | xoutil/data.py:124-127 | padding keeps the buckets and appends zero buckets so that the item's bucket exists |
| IntSets.DropTrailingZeros | xoutil/data.py:145-148 | compaction keeps a prefix, drops only zero buckets, and leaves a non-zero last bucket |
| IntSets.MemberBounds | xoutil/data.py:104-116 | `Member` (`__contains__`): no item is a member of an empty set or past the last bucket |
| IntSets.RunsSplitAtBucketBoundary | xoutil/data.py:166-177 | items 4095 and 4096 are listed as two entries |
| IntSets.CountIsNotCardinality | xoutil/data.py:118-144 | adding 7 twice and removing the absent 8 twice leaves the count 0 with 7 a member |
| Decorators.Registry.constructor | xoutil/decorators.py:292-296 | the registry starts with the global lock alone, at position 0 with `index` -1 |
| Decorators.Registry.GetLock | xoutil/decorators.py:298-306 | appends exactly one lock, whose `index` is one less than its position, points the name at it and changes nothing else |
| Decorators.Registry.Register | xoutil/decorators.py:358-359 | a name already indexed changes nothing; a new one gets a lock at the end |
| Decorators.Registry.RegisterMissing | xoutil/decorators.py:356-359 | exactly the names missing from the index are registered, in the given order, keeping positions increasing along the index |
| Decorators.Registry.BuildLocks | xoutil/decorators.py:354-363 | no names: `[global_lock]` and no change; otherwise the missing names are registered and the locks of the names come back in index order |
| Decorators.Synchronized.constructor | xoutil/decorators.py:350-352 | runs `build_locks`: with no names the locks are `[global_lock]` and the registry is unchanged; otherwise the names missing from the index are appended, in the given order, with new locks at the following positions, and the locks are the names' locks in index order; the registry stays consistent and ordered, and there is no target yet |
| Decorators.Synchronized.Call | xoutil/decorators.py:365-372 | the first call must pass one argument and no keywords and stores it as the target; later calls forward to the target under the locks |
| Decorators.InitialState | xoutil/decorators.py:292-295 | the initial registry is consistent and ordered |
| Decorators.MissingMembers | xoutil/decorators.py:358 | the names registered are exactly those asked for and not yet indexed |
| Decorators.SelectedMembers | xoutil/decorators.py:360 | `Selected`: one lock per asked-for indexed name, named after it, nothing else |
| Decorators.SelectedSorted | xoutil/decorators.py:360 | selected locks come in strictly increasing `index` order |
| Decorators.RegisteredOrdered | xoutil/decorators.py:358-360 | registering keeps positions increasing along the index order |
| Decorators.BuildLocksResult | xoutil/decorators.py:354-361 | `build_locks` returns one lock per distinct name, named after it, in strictly increasing `index` order |
| Decorators.ApplyDeferred | xoutil/decorators.py:196-197 | the deferred decorator calls the caller with the function first, then the decorator's arguments |
| Decorators.DispatchCases | xoutil/decorators.py:179-200 | `OuterDecorator`: applied at once iff one function or type and no keywords; deferred iff other non-empty arguments; the caller itself iff no arguments |
| Decorators.ParenthesesOptional | xoutil/decorators.py:145-160 | `@dec` and `@dec()` decorate a function the same way |
| Decorators.ArgumentsDefer | xoutil/decorators.py:195-198 | a decorator given a non-function argument defers and later calls the caller with the function before it |
| Decorators.FunctionArgumentRunsAtOnce | xoutil/decorators.py:162-173 | a single function argument is taken as the function to decorate and is not deferred |
| DecoratorExamples.SharedLocksSameOrder | xoutil/tests/test_decorators.py:161-179 | two functions naming the same two locks in either order get them in the same order; no names gives the global lock alone |
| DecoratorExamples.Selections | xoutil/tests/test_decorators.py:164-172 | either naming order selects the locks in registration order |
| TextWrap.IndentLines | xoutil/textwrap.py:91-94 | `Indent`: each line of the output is `prefix + line` if selected and `line` otherwise, and the line count is kept |
| TextWrap.IndentRoundTrip | xoutil/textwrap.py:91-94 | taking the prefix off the selected lines gives back the original text |
| TextWrap.DefaultIndent | xoutil/textwrap.py:87-89 | `IndentDefault`: the default predicate leaves empty and whitespace-only lines alone and prefixes every other line |
| TextWrap.IndentKeepsEndings | xoutil/textwrap.py:91-94 | every output line ends as the original line does, line break included |
| TextWrap.ConcatSplitLines | xoutil/textwrap.py:92-94 | `SplitLines`: joining `splitlines(True)` gives back the text |
| TextWrap.SplitConcat | xoutil/textwrap.py:92-94 | splitting joined well-split lines gives them back |
| TextWrap.SplitFirst | xoutil/textwrap.py:64-68 | the subject has no newline; with a newline, subject + `'\n'` + body is the text, and without one the body is empty |
| TextWrap.SplitFirstAt | xoutil/textwrap.py:64-66 | splitting `subject + '\n' + body` gives back subject and body |
| TextWrap.DedentCases | xoutil/textwrap.py:63-73 | `Dedent`: without `skip_firstline` it is the library `dedent`; with it, first line and body are dedented apart and joined by one newline, and a text ending at its first newline loses it |
| TextWrap.DedentIdentity | xoutil/textwrap.py:63-71 | with a `dedent` that changes nothing, skipping the first line changes nothing except a trailing lone newline |
| Security.Replace | xoutil/security.py:139 | `replace` of one character changes exactly its occurrences |
| Security.MapStage | xoutil/security.py:137-139 | the replacement loop computes the mapping stage |
| Security.MixStage | xoutil/security.py:140-143 | the loop over "BCDFGHJKLM" computes the mixed stage |
| Security.Stages | xoutil/security.py:136-147 | `Transformed`: the stages apply by level: mapping from 1, mixing from 2, the year from 3 |
| Security.Chunk | xoutil/security.py:166-168 | every salt phrase adds at least one character |
| Security.GatherSalt | xoutil/security.py:164-168 | the salt loop gathers phrases until the size is reached |
| Security.CreateSalt | xoutil/security.py:156-171 | without a pass phrase the result is a scrambled salt of exactly the size the level asks for |
| Security.AddSalts | xoutil/security.py:151-152 | the strict padding keeps the text as a prefix and reaches the size |
| Security.CreatePassword | xoutil/security.py:134-171 | the method computes `create_password` for every pass phrase and level |
| Security.GatherReaches | xoutil/security.py:165-168 | `Gather`: gathering ends at or past the size and keeps what it started with |
| Security.PadReaches | xoutil/security.py:151-152 | `PadWithSalts`: padding with salts ends at or past the size and keeps what it started with |
| Security.SaltLength | xoutil/security.py:156-171 | `SaltOf`: a salt has exactly its `Size` and its characters come from the gathered phrases |
| Security.ShuffleLength | xoutil/security.py:169-170 | scrambling is a permutation: same length, same characters |
| Security.MappedStage | xoutil/security.py:137-139 | the mapping stage turns e, i, o, s into 3, 1, 0, 5, keeps every other character, and leaves none of e, i, o, s |
| Security.MixedStage | xoutil/security.py:140-143 | the mixed stage uppercases b, c, d, f, g, h, j, k, l, m and keeps every other character |
| Security.BelowStrict | xoutil/security.py:144-155 | `PasswordOf` below level 4: a pass phrase is not scrambled and the result is the transformed text cut to 1024; from level 3 it ends with the four year digits |
| Security.Strict | xoutil/security.py:148-152 | at level 4 and above the result has exactly `8*level` characters, uncapped, drawn from the text and its salts |
| Security.NoPhrase | xoutil/security.py:156-163 | without a pass phrase the length is 1024 for levels up to 0 and `min(8*level, 1024)` otherwise |
| SecurityExamples.PasswordStages | xoutil/security.py:135-147 | "password" becomes "password", "pa55w0rd", "pa55w0rD", "pa55w0rD2024" at levels 0 to 3 |
| WorkCalendars.WorkedMonths | xoutil/workcalendar.py:95-134 | worked months are between 0 and 12 |
| WorkCalendars.WorkedMonthsAreFullMonths | xoutil/workcalendar.py:124-134 | for dates less than a year of months apart, the month arithmetic counts exactly the calendar months lying wholly between them |
| WorkCalendars.RemoveFirst | xoutil/workcalendar.py:341 | `list.remove(x)` takes out the first element equal to `x`, keeps every other element in its order, and leaves one element fewer |
| WorkCalendars.WorkCalendar.PeriodBegin | xoutil/workcalendar.py:55-60 | the period begin is never before the contract begin |
| WorkCalendars.WorkCalendar.FiscalStartIsLatest | xoutil/workcalendar.py:55-59 | the fiscal start is the last 1st of the fiscal month not after the day |
| WorkCalendars.WorkCalendar.PeriodBeginBounds | xoutil/workcalendar.py:55-60 | from the contract begin on, the period begin is the fiscal start or the contract begin, and not after the day |
| WorkCalendars.WorkCalendar.PrevPeriodBeginSpec | xoutil/workcalendar.py:89-93 | `PrevPeriodBegin`: no previous period exactly when the period begins at the contract begin; otherwise it begins earlier but not before the contract |
| WorkCalendars.WorkCalendar.PeriodBeginDescends | xoutil/workcalendar.py:272-279 | each step of the carry-over recursion moves to an earlier period not before the contract, so it ends |
| WorkCalendars.WorkCalendar.AccumHolidays | xoutil/workcalendar.py:188-219 | accumulated holidays are between 0 and 30 |
| WorkCalendars.WorkCalendar.PrevUsedNonNegative | xoutil/workcalendar.py:272-280 | `PrevUsedHolidays`: outside the contract's first period the carry-over is at least 0 |
| WorkCalendars.WorkCalendar.RemnantAtMostThirty | xoutil/workcalendar.py:259-266 | `RemnantHolidays` never exceeds 30 |
| WorkCalendars.WorkCalendar.InScopeWindows | xoutil/workcalendar.py:438-446 | `InScope`: a festivity covers days 1 to 30 after it, a weekend day days 1 to 6, never the day itself, and a working day nothing |
| WorkCalendars.WorkCalendar.FestivityDates | xoutil/workcalendar.py:356-385 | `IsFestivity`: under 'Autrement' the festivities are exactly the nine Cuban dates, and there are none under other laws |
| WorkCalendars.WorkCalendar.CountInScope | xoutil/workcalendar.py:421-427 | at most one per extra work day is counted |
| WorkCalendars.WorkCalendar.Cancel | xoutil/workcalendar.py:338-341 | every cancelled extra day is removed from the local copy |
| WorkCalendars.WorkCalendar.CancelBound | xoutil/workcalendar.py:338-341 | removal during the iteration skips the next extra day, so at most half of them (rounded up) are cancelled for one holiday |
| WorkCalendars.WorkCalendar.Charges | xoutil/workcalendar.py:332-337 | charges are at most two per used holiday |
| WorkCalendars.WorkCalendar.CountFromConsumes | xoutil/workcalendar.py:330-341 | the count is the charges minus the extra days consumed |
| WorkCalendars.WorkCalendar.UsedHolidaysBounds | xoutil/workcalendar.py:288-348 | `UsedHolidays` lies between the charges minus the extra days and the charges, and equals the charges without extra days |
| WorkCalendars.WorkCalendar.GetUsedHolidays | xoutil/workcalendar.py:328-348 | the counting loop computes `UsedHolidays` |
| WorkCalendars.WorkCalendar.ConsumeExtraDays | xoutil/workcalendar.py:338-341 | the inner loop computes the cancellation |
| WorkCalendars.WorkCalendar.CountCompensatory | xoutil/workcalendar.py:343-346 | the `plus_extra_days` loop counts the extra days in scope |
| WorkCalendars.WorkCalendar.GetAccumCompensatoryDays | xoutil/workcalendar.py:421-427 | the loop counts the extra work days whose window covers the day |
| WorkCalendars.WorkCalendar.ExtraWorkDaysFrom | xoutil/workcalendar.py:429-436 | `get_extra_work_days` keeps exactly the extra work days from 31 days before the period begin up to `day`, both ends included |
| WorkCalendars.WorkCalendar.ExtraWorkDaysAppend | xoutil/workcalendar.py:435-436 | filtering a concatenation is concatenating the filtered parts, so the kept days stay in list order |
| WorkCalendars.WorkCalendar.ExtraWorkDaysAfter | xoutil/workcalendar.py:429-436 | `ExtraWorkDays`: no extra work day later than `day` is kept |
| WorkCalendars.WorkCalendar.NothingChargedKeepsExtraDays | xoutil/workcalendar.py:328-341 | `UsedHolidays`: when no used holiday is charged, the count is 0 and the extra work days are all left for the `plus_extra_days` count |
| WorkCalendars.WorkCalendar.FreeDays | xoutil/workcalendar.py:350-354 | `IsFreeDay` holds iff the day is a Saturday or a Sunday or, under 'Autrement', one of the nine festivities |
| WorkCalendars.WorkCalendar.PenaltyDays | xoutil/workcalendar.py:387-393 | `IsPenaltyDay` under 'Autrement' holds iff the day is a Friday or the eve of one of the nine festivities (Dec 31, Jan 31, Apr 30, Jul 24-26, Oct 9, Dec 24, Dec 30) |
| WorkCalendars.WorkCalendar.MonthsInPeriodAreFullMonths | xoutil/workcalendar.py:136-158 | `MonthsInPeriod`: from the contract begin on, the months worked in the period are the calendar months lying wholly between its begin and the day |
| WorkCalendars.WorkCalendar.MonthsInPrevPeriodAreFullMonths | xoutil/workcalendar.py:160-219 | `MonthsInPrevPeriod` is 0 in the contract's first period and otherwise the calendar months lying wholly inside the previous period; `AccumHolidays` is 2.5 per such month |
| WorkCalendarExamples.PeriodBeginExamples | xoutil/workcalendar.py:36-53 | the documented period begins |
| WorkCalendarExamples.PrevPeriodBeginExamples | xoutil/workcalendar.py:69-86 | the documented previous period begins, `None` in the first period |
| WorkCalendarExamples.WorkedMonthsExamples | xoutil/workcalendar.py:102-123 | the documented worked months 0, 1, 1, 2 |
| WorkCalendarExamples.MonthsInPeriodExamples | xoutil/workcalendar.py:142-156 | the documented months in period 0, 8, 8 |
| WorkCalendarExamples.AccumHolidaysExamples | xoutil/workcalendar.py:199-217 | the documented months of the previous period and holidays 30, 22.5, 0 |
| WorkCalendarExamples.CompensatoryJune | xoutil/workcalendar.py:403-410 | one compensatory day on 2012-06-01 |
| WorkCalendarExamples.CompensatoryLateMay | xoutil/workcalendar.py:412-414 | two compensatory days on 2012-05-30 |
| WorkCalendarExamples.CompensatoryMidMay | xoutil/workcalendar.py:416-418 | two compensatory days on 2012-05-24 |
| WorkCalendarExamples.UsedHolidaysOne | xoutil/workcalendar.py:297-303 | one used holiday |
| WorkCalendarExamples.UsedHolidaysTwo | xoutil/workcalendar.py:305-307 | two used holidays |
| WorkCalendarExamples.UsedHolidaysCompensated | xoutil/workcalendar.py:309-311 | May 1st worked cancels one, leaving 1 |
| WorkCalendarExamples.UsedHolidaysFriday | xoutil/workcalendar.py:313-315 | a Friday counts twice, giving 3 |
| WorkCalendarExamples.UsedHolidaysPlusExtra | xoutil/workcalendar.py:319-324 | 0 in June, and -1 with `plus_extra_days` |
| WorkCalendarExamples.ConsumptionSkips | xoutil/workcalendar.py:338-341 | of three extra days all in scope, removing the first skips the second: two are cancelled and 2011-07-26 stays |
| RemnantExamples.RemnantAfterSixDays | xoutil/workcalendar.py:229-238 | with six holidays from 2011-05-29, `get_remnant_holidays` on 2011-11-03 is 4.0 |
| RemnantExamples.RemnantAfterTenDays | xoutil/workcalendar.py:240-242 | with ten more from 2011-11-05, on 2011-12-03 it is -3.0 |
| RemnantExamples.RemnantNextPeriod | xoutil/workcalendar.py:244-246 | on 2012-06-05, in the next period, it is 27.0 |
| RemnantExamples.RemnantWithEve | xoutil/workcalendar.py:248-250 | with one more holiday on 2012-04-30, the eve of May 1st, it is 25.0 |
| RemnantExamples.RemnantWithSunday | xoutil/workcalendar.py:252-254 | with Sunday 2012-06-03 as an extra work day it is 26.0 |
| PrototypeCalendar.SamePeriodBegin | xoutil/calendar.py:4-16 | `PeriodBegin`, `PrevPeriodBegin` and `AccumHolidays` are the work calendar's with a June fiscal start |
| PrototypeCalendar.SameFestivities | xoutil/calendar.py:86-109 | `IsFestivity`: the festivities are exactly the nine Cuban dates, as in the work calendar; the French branch is unreachable |
| PrototypeCalendar.SameMonths | xoutil/calendar.py:29-36 | `MonthsInPeriod` and `MonthsInPrevPeriod` are the work calendar's, and from the contract begin on the months in period are the calendar months lying wholly inside it |
| PrototypeCalendar.SamePenaltyDay | xoutil/calendar.py:111-114 | `IsPenaltyDay` is the work calendar's: a Friday or the eve of a festivity |
| PrototypeCalendar.CountUsedAppend | xoutil/calendar.py:69-78 | the count of a list of holidays is the sum of the counts of its parts |
| PrototypeCalendar.CountUsedOutside | xoutil/calendar.py:72-73 | holidays before the period begin or after the day count nothing |
| PrototypeCalendar.SamePrevUsed | xoutil/calendar.py:52-61 | `PrevUsedHolidays` is the work calendar's when no extra work day comes before the day: the prototype never consumes extra days |
| PrototypeCalendar.SameRemnant | xoutil/calendar.py:41-50 | `RemnantHolidays` is the work calendar's when there are no extra work days |
| PrototypeCalendar.CountUsed | xoutil/calendar.py:69-78 | at most two per used holiday |
| PrototypeCalendar.CountUsedIsCharge | xoutil/calendar.py:69-78 | the prototype count equals the work calendar's charges |
| PrototypeCalendar.CountUsedSplit | xoutil/calendar.py:72-76 | each in-period non-free day counts once, twice if a penalty day |
| PrototypeCalendar.UsedHolidays | xoutil/calendar.py:69-78 | used holidays lie between 0 and twice the number of used holidays |
| PrototypeCalendar.GetUsedHolidays | xoutil/calendar.py:69-78 | the counting loop computes `UsedHolidays` |
| PrototypeCalendar.UsedHolidaysWithoutExtraDays | xoutil/calendar.py:69-78 | without extra work days the prototype agrees with the work calendar |
| PrototypeCalendar.CountCompensatory | xoutil/calendar.py:121-128 | at most one per extra day |
| PrototypeCalendar.SameCompensatory | xoutil/calendar.py:121-128 | the compensatory count is the work calendar's |
| PrototypeCalendar.GetAccumCompensatoryDays | xoutil/calendar.py:121-128 | the loop computes the compensatory count |
| PrototypeCalendar.PrevUsedNonNegative | xoutil/calendar.py:52-61 | outside the first period the carry-over is at least 0 |
| PrototypeCalendar.PrevUsedInFirstPeriod | xoutil/calendar.py:52-56 | in the first period the carry-over is the used holidays, between 0 and twice their number |
| PrototypeCalendar.RemnantAtMostThirty | xoutil/calendar.py:41-50 | remnant holidays never exceed 30 |
| PrototypeCalendar.ReserveHolidays | xoutil/calendar.py:116-118 | the error message exactly when the duration exceeds 30, `None` otherwise |
| PrototypeCalendar.CommonFestivities | xoutil/calendar.py:86-90 | Jan 1, May 1 and Dec 25 are always festivities |
| Dates.DaysInMonth | xoutil/workcalendar.py:132 | a month has 28 to 31 days, 29 exactly for February of a leap year |
| Dates.Weekday | xoutil/workcalendar.py:353-354 | the weekday is 0 (Monday) to 6 |
| Dates.NextDay | xoutil/workcalendar.py:393 | the next day is one day number later |
| Dates.PrevDay | xoutil/workcalendar.py:92 | the previous day is one day number earlier |
| Dates.AddDays | xoutil/workcalendar.py:435 | adding n days moves the day number by n |
| Dates.Later | xoutil/workcalendar.py:60 | `max` of two dates is one of them and not before either |
| Dates.BeforeIsDayNumberOrder | xoutil/workcalendar.py:332 | date comparison is day-number order |
| Dates.DayNumberInjective | xoutil/workcalendar.py:90 | two dates with one day number are equal |
| Numerals.Decimal | xoutil/data.py:182 | `'%d'` gives a non-empty string of digits |
| Numerals.DecimalRoundTrip | xoutil/data.py:182-184 | parsing the digits gives the number back |
| Numerals.FourDigits | xoutil/security.py:147 | a year from 1000 to 9999 is written with four digits |

## Left out

- Generators are values, not objects: a predicate or data process is a state value that `Advance`/`Next` return anew, so a single generator object shared by two bounded functions (aliasing) is not captured.
- Bound.BoundRun: the runner pulls at most `fuel` values and reports `OutOfFuel` after that; the Python loop is unbounded.
- The implementation of `xoutil.bound` is not part of this model; its behaviour is taken from tests/test_bound.py. `timed` reads an abstract elapsed-time function instead of a wall clock, and `time.sleep` is not modelled.
- `receive_args` of `whenall`/`whenany` (tests/test_bound.py:230-233) is an attribute with no behaviour to prove; the model always delivers the arguments.
- Predicates written as generators in the test suite are modelled as scripted leaves (a list of answers and an optional repeated answer), not as arbitrary code.
- IntSet buckets are sets of bit positions, not Python integers; item types other than non-negative integers (the assertion at xoutil/data.py:106) are excluded by a precondition.
- `IntSet(init)` with a non-empty `init` calls a method that does not exist (xoutil/data.py:101-102); only the empty constructor is modelled. `total_sizeof`, `adapt_exception` and the deprecated `SmartDict` wrappers are not part of this model.
- `__repr__` returns bytes in the source; the model returns a string of the same characters.
- Lock objects are values `(name, index)`; `RLock` acquisition through `contextlib.nested` (concurrency) is not modelled, and `Call` reports the locks it would hold.
- `synchronized` given lock objects instead of names (xoutil/decorators.py:313-316): the docstring allows them, but `build_locks` treats any hashable item as a name and registers a new lock under it; the model's names are strings only, so lock objects as keys are not modelled.
- Decorators.Registry.BuildLocks: `tuple(set(flatten(locks)))` is given as a sequence of distinct names in the set's iteration order, which Python does not fix.
- `assignment_operator`, `settle`, `namer`, `aliases`, `AttributeAlias` and `instantiate` of xoutil/decorators.py are not part of this model.
- `create_password`: `random.randint`, `random.sample`, `datetime.today` and `normalize_slug` are parameters; the only property assumed of `normalize_slug` is that each salt phrase (a line of the Zen of Python followed by a five-digit number) gives a non-empty slug; nothing is assumed of the slug of the pass phrase.
- `splitlines` follows the Unicode line boundaries of Python 3 `str`; the library `dedent` of the standard library is a parameter.
- Dates are proleptic Gregorian for every integer year; `datetime`'s range check (`OverflowError` outside 1..9999) is not modelled.
- `strptime`/`create_date` string parsing is replaced by building `Date` values; the 'Francesa' law (Easter from `dateutil`) gives no festivities here.
- Holidays (`2.5 * months`) are exact reals, not floating point.
- The import-time script code of xoutil/calendar.py (`print_values`, sample data) is not part of this model.
- `get_requested_holidays`, `get_confirmed_holidays` and `get_reserved_holidays` always return 0 and are written as 0 where they are used.
