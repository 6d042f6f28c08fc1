# Model of a business platform's core rules

This project models the parts of the platform in which its promises are hardest to keep, and proves those promises for
all inputs and all runs. `dafny verify dfyconfig.toml` checks everything.

| part | files | subject |
|---|---|---|
| Shared | `Basics.dfy`, `Text.dfy` | optional values, and texts with their digits and parts |
| Formulas | `Formula*.dfy` | the tokenizer, the precedence-climbing parser, a printer, the lazy evaluator with the laws of its operators and functions, and the dependency collector |
| Calendar | `Calendar.dfy`, `GregorianCalendar.dfy`, `Buckets.dfy`, `RelativePeriods.dfy`, `BucketExpressions.dfy`, `WorkingTime.dfy`, `WorkingDays.dfy` | Gregorian days, ISO weeks, fiscal quarters and years, the database form of bucket keys, working time |
| Number series | `Numbering.dfy`, `NumberingMeaning.dfy`, `NumberingPatterns.dfy` | patterns, counters and their texts |
| Approvals | `Workflow.dfy`, `WorkflowInvariant.dfy`, `WorkflowRuns.dfy`, `WorkflowDecisions.dfy`, `WorkflowOutcomes.dfy`, `WorkflowTimers.dfy`, `WorkflowEscalation.dfy`, `WorkflowStore.dfy`, `WorkflowExamples.dfy` | requests, approval runs, approval tasks, timers and the copy of the state to the record, under guarded commits |
| Events and audit | `EventBus.dfy`, `EventPipeline.dfy`, `EventTimes.dfy`, `CanonicalJson.dfy`, `CanonicalText.dfy`, `AuditChain.dfy`, `AuditContent.dfy` | outbox, relay, bus, handling once, the hash chain and its verifier |
| Configuration | `KeyedMerge.dfy`, `Config*.dfy` | merging layers and which definition wins, packs, rollback and pack removal |
| Organization | `OrgTree.dfy`, `OrgService.dfy`, `OrgRaces.dfy`, `OrgPaths.dfy`, `OrgExamples.dfy` | the tree with path strings, commands on it and what happens when they cross, permissions by prefix, copies of paths in other services |
| Unbounded input | `Identifiers.dfy`, `KnownIdentifiers.dfy`, `Words.dfy`, `WordTable.dfy`, `Uniques.dfy`, `UniquesMeaning.dfy` | check digits, numbers in words, the collection of unique values |

Code that changes objects or runs loops is a class or a method with loop invariants, proved against a function; the
theorems are about that function. Operations under a guarded commit are split into a plan made from a read and a commit
on the stored data, and runs interleave the two freely.

Some `decreases` clauses list parameters that do not get smaller. Dafny would otherwise unfold these functions without
bound wherever the remaining arguments are literals.

## What does not hold

Some promises turned out not to hold of the code. Each has an example and its exact condition.

- A rollback keeps whatever exists now as archived (packages/metadata/src/diff.ts:90-93), and so does the removal of a
  pack (packages/metadata/src/pack-ops.ts:150-153), but not always: a field that a patch gives by role to an entity
  defined only by the company is lost, because leftovers are computed from the packs without the company's entities.
  `ConfigRollback.RollbackLoses` and `ConfigRemoval.RemovalLoses` say exactly when, `ConfigExamples.RollbackExample` and
  `ConfigExamples.RemovalExample` show it. Entities are never lost: `ConfigEntities.EntitiesAfterRollback`.
- After a rollback, every layer of the company, of a unit and of what packs left behind has the target's fields as they
  were, with archived additions. But the archived leftover of a unit's override hides the company's active field at that
  unit: `ConfigAfterRollback.FieldAfterRollback` says when, `ConfigExamples.HiddenFieldExample` shows it.
- A leftover entity of the company comes back with its roles (packages/metadata/src/diff.ts:104-107), so patches of the
  target's own packs reach it again. They can replace the target's definition of a field, or give an active field to an
  archived entity: `ConfigAfterRollback.FieldAfterRollback` says when, for what a patch gives by the entity's key alone;
  `ConfigExamples.RedefinedExample` and `ConfigExamples.ActiveLeftoverExample` show it.
- Fields of packs that are gone are archived (packages/metadata/src/pack-ops.ts:216), but so are fields that a pack that
  stays gives to an entity of the company: the leftover hides them. `ConfigAfterRemoval.FieldAfterRemoval` says exactly
  when, `ConfigExamples.HiddenByLeftoverExample` shows it.
- Conflicting writers "retry from fresh data" (apps/workflow-service/src/workflow.service.ts:155), but an escalation
  that hands over commits with the approval task and the targets it read first, and one that skips a level with the state
  it read first. `WorkflowEscalation.LateHandOverFits` and `WorkflowEscalation.LateSkipFits` say exactly when that is
  harmless, `WorkflowExamples.LateHandOverExample` shows a hand-over that is not.
- The copy of a state never reaches a record that has no state yet, since the copy then names the initial state as the
  old one (apps/workflow-service/src/workflow.service.ts:480, 524), and an overlapping copy only sometimes:
  `WorkflowRuns.SettledMoveReaches`, `WorkflowRuns.OverlapReaches`, with `WorkflowExamples.NoStateExample` and
  `WorkflowExamples.OverlapExample`.
- An escalation skips a level "without" people to escalate to (apps/workflow-service/src/workflow.service.ts:940-944);
  the code skips it only when none are named. When those named resolve to nobody new, the approver is reminded instead:
  `WorkflowEscalation.EscalationOutcome`, `WorkflowEscalation.SkipsUnlessNamed`,
  `WorkflowExamples.StuckEscalationExample`.
- "Changing any record breaks every later hash" (apps/audit-service/src/chain.ts:38), except for what the canonical text
  leaves out, which `AuditChain.TamperEvident` states exactly. Besides undefined members and the order of keys that is
  a member named `__proto__`: `AuditChain.ProtoUnseen`.
- The relay is "safe to run in several replicas" (packages/events/src/outbox.ts:81), and no event is lost or recorded
  twice. But the half minute for which a row is locked is not always kept: a relay that comes back after its own lock has
  run out, and fails, shortens the lock of the next one. `EventTimes.LockHolds` says that nothing else does,
  `EventTimes.LateFailureUnlocks` by how much, `EventTimes.TwoHolders` shows it.
- A unique index "enforces uniqueness" of values (apps/records-service/src/models.ts:57-58), but which fields are unique
  is read where a record is, and a write looks only at values that change. A record that moves to a unit, or a field
  whose uniqueness changes, can leave two live records with one value, or a value refused that none has:
  `Uniques.ChangeKeepsExact` and `Uniques.ConfigKeepsExact` say exactly when the rows stay exact,
  `Uniques.SharedBadge` and `Uniques.StaleBadge` show both.
- Copies of paths are kept "in step with org moves" (apps/records-service/src/records.service.ts:887,
  apps/access-service/src/access.service.ts:589), but not when a move is handled between the reading of a path and the
  insert: `OrgPaths.DeliveriesCatchUp` and `OrgPaths.RightWhenStored` say exactly when, `OrgExamples.MissedMove` shows it.
- "A unit cannot be moved under itself" (apps/org-service/src/org.service.ts:220), but the commands read before their
  transactions, so two moves can: `OrgRaces.LateMoveFits` and the statements beside it say exactly when a late command is
  harmless, `OrgExamples.CrossedMoves` shows two units that become each other's parent.
- The dependencies listed for `CHANGED(old.x)` miss what it reads, the stored key spelled `old.x`:
  `FormulaEval.ChangedSoundExactly`. It does no harm as long as stored keys hold no point, as field keys do.
- International words exist below two thousand trillion only: `Words.ReadInternational`.
- Removing sample records frees their source keys "so the samples can be added again"
  (apps/records-service/src/records.service.ts:860), but not those of samples a user had deleted:
  `Uniques.RecordStore.RemoveAndAddAgain`, `Uniques.DeletedSample`.

## Model

| member | source | states |
|---|---|---|
| FormulaPrinter.ParsePrint | packages/metadata/src/formula.ts:119-223 | For every well-formed tree: the tokens of its form, with parentheses only where binding strength or an argument that looks like a closing mark asks for them, parse back to exactly that tree when it nests at most 50 levels, and are refused as too deep, for no other reason, when it nests deeper. Covers unary operators, call arity, and arguments spelled like a closing parenthesis; which operators bind tighter is stated by the rows about chains below. |
| FormulaText.SourceRoundTrip | packages/metadata/src/formula.ts:49-223 | The same from source text: spelling a tree and compiling the text gives the tree back, up to the length limit (2000) and the nesting limit, each with its own error. |
| FormulaBinding.ThreeOperands | packages/metadata/src/formula.ts:119-170 | For any three single-token operands and any two binary operators: `a op1 b op2 c` parses as `a op1 (b op2 c)` if op2 stands in a later class than op1 in the list Or; And; Eq, Ne; Lt, Le, Gt, Ge; Amp; Plus, Minus; Star, Slash, Percent, and as `(a op1 b) op2 c` otherwise. |
| FormulaBinding.LongChains | packages/metadata/src/formula.ts:119-170 | A chain of any length of operands that do not nest parses, always within the nesting limit, with the last of its loosest operators as root and both parts grouped likewise. |
| FormulaBinding.ChainIsGrouped | packages/metadata/src/formula.ts:119-170 | The same for a chain of any operands but binary ones, up to the nesting limit. |
| FormulaBinding.SignBindsTightest | packages/metadata/src/formula.ts:172-179 | A sign belongs to the operand after it, whatever binary operator follows. |
| FormulaSpelling.SpaceIsSkipped | packages/metadata/src/formula.ts:58-62 | White space between tokens changes nothing. |
| FormulaSpelling.EqualityIsRead | packages/metadata/src/formula.ts:90-103 | The spreadsheet spellings of equality and inequality read as the others do. |
| FormulaLexer.LexSpellAll | packages/metadata/src/formula.ts:52-107 | The tokenizer reads every list of spelled tokens back: numbers, names, quoted texts with escapes, and operators. |
| FormulaLexer.Tokenize | packages/metadata/src/formula.ts:52-107 | The cursor loop over the source computes the recursive tokenizer the round trip is about, errors included. |
| FormulaCursor.Parser.Parse | packages/metadata/src/formula.ts:151-156 | The parser object, moving its cursor, returns what the recursive grammar says, tree or error. |
| FormulaCursor.Parser.Expr | packages/metadata/src/formula.ts:158-170 | The loop that climbs precedences does what the grammar says and leaves the cursor where the grammar ends; what the grammar groups is stated by `FormulaBinding.LongChains`. |
| FormulaCursor.Parser.ReadUnary | packages/metadata/src/formula.ts:172-179 | Unary operators nest and hand over to primary forms, as in the grammar. |
| FormulaCursor.Parser.Primary | packages/metadata/src/formula.ts:181-223 | Literals, names, parentheses and calls, with each error, as in the grammar. |
| FormulaCursor.Parser.CallRest | packages/metadata/src/formula.ts:190-216 | The argument loop: arguments, then the closing mark, then the checks of name and arity, in this order. |
| FormulaEval.DependenciesSound | packages/metadata/src/formula.ts:361-486 | Two contexts that agree on the time, on the listed fields (columns through their table) and on the listed context parts give the same value or the same error. Requires that names have at most one point, and that `CHANGED` is asked about plain names or stored keys are plain. |
| FormulaEval.PlainFormulaIgnoresContext | packages/metadata/src/formula.ts:488-505 | With an empty context list, the old record, the user, the units and the status have no influence. |
| FormulaEval.ChangedSoundExactly | packages/metadata/src/formula.ts:450-486 | A call of `CHANGED` reads no more than what is listed for it if and only if its name is plain: for a dotted name two contexts agree on everything listed and give different values. |
| FormulaEval.DottedChangedAccepted | packages/metadata/src/formula.ts:190-216 | The grammar does take a dotted name there, as in `CHANGED(old.x)`, for every field. |
| FormulaLaws.DifferenceUndoesSum | packages/metadata/src/formula.ts:388-393 | For all formulas with numeric values: `a + b` is the sum of the numbers, and `(a + b) - b` is `a`. |
| FormulaLaws.SumUndoesDifference | packages/metadata/src/formula.ts:388-393 | `(a - b) + b` is `a`. |
| FormulaLaws.Opposites | packages/metadata/src/formula.ts:378-393 | `a + -b` is `a - b`. |
| FormulaLaws.TwiceOpposite | packages/metadata/src/formula.ts:378-381 | `--a` is `a`. |
| FormulaLaws.QuotientUndoesProduct | packages/metadata/src/formula.ts:394-398 | `a * b` is the product of the numbers; for b not zero `(a / b) * b` and `(a * b) / b` are `a`. |
| FormulaLaws.ByZero | packages/metadata/src/formula.ts:396-401 | Dividing by zero, and the rest of doing so, is null. |
| FormulaLaws.RemainderOf | packages/metadata/src/formula.ts:399-401 | `a % b` differs from `a` by a whole multiple of `b`, is smaller in size than `b` and has the sign of `a`. |
| FormulaLaws.OnlyTheNumberMatters | packages/metadata/src/formula.ts:227-232 | Under an arithmetic operator a value may be replaced by the number it counts as: null, the empty text and false as 0, true as 1, a text as what it spells. |
| FormulaLaws.TextInArithmetic | packages/metadata/src/formula.ts:227-232 | A text that spells no number is an error there. |
| FormulaLaws.LessIsPositiveDifference | packages/metadata/src/formula.ts:408-409 | For numbers `a < b` is true exactly when `b - a` is positive. |
| FormulaLaws.TextsAreOrdered | packages/metadata/src/formula.ts:408-409 | Texts are ordered by the first character in which they differ, a beginning before the whole. |
| FormulaLaws.TurnedRound | packages/metadata/src/formula.ts:408-415 | `>` is `<` turned round and `>=` is `<=` turned round, for two numbers or two texts. |
| FormulaLaws.LessOrEqual | packages/metadata/src/formula.ts:404-413 | `a <= b` is `a < b || a == b`, and `>` is its opposite. |
| FormulaLaws.Equality | packages/metadata/src/formula.ts:404-405 | Values of one kind are equal when they are the same, a text equals a value of another kind when it is its text, and the order of the operands does not matter. |
| FormulaLaws.Unequal | packages/metadata/src/formula.ts:404-407 | `a != b` is `!(a == b)` for all formulas, errors included. |
| FormulaLaws.JoinedTexts | packages/metadata/src/formula.ts:402-403 | `&` puts texts one after the other. |
| FormulaLaws.JoinsAssociate | packages/metadata/src/formula.ts:402-403 | `(a & b) & c` is `a & (b & c)` for all formulas, errors included. |
| FormulaLaws.TextsOfValues | packages/metadata/src/formula.ts:233-233 | Null joins as the empty text, truth values as `true` and `false`. |
| FormulaLaws.FirstError | packages/metadata/src/formula.ts:388-417 | But for the connectives, the first operand with an error gives the error of the whole. |
| FormulaChoices.LeftDecides | packages/metadata/src/formula.ts:382-387 | A left side that decides hides the right side of a connective, an error on the left is the error of the whole, and otherwise the right side is asked. Null, false, zero and the empty text count as false. |
| FormulaChoices.DeMorgan | packages/metadata/src/formula.ts:378-387 | De Morgan's laws hold for all formulas, errors included. |
| FormulaChoices.AndIsConjunction | packages/metadata/src/formula.ts:250-250 | `AND` of any number of arguments is `&&` of the first and the `AND` of the rest. |
| FormulaChoices.OrIsDisjunction | packages/metadata/src/formula.ts:251-251 | `OR` of any number of arguments is `||` of the first and the `OR` of the rest. |
| FormulaChoices.IfChooses | packages/metadata/src/formula.ts:249-249 | `IF` gives its second argument when the first counts as true, else the third, or null without one. |
| FormulaChoices.IfFails | packages/metadata/src/formula.ts:249-249 | An error in the condition is the error of the whole. |
| FormulaChoices.IfNot | packages/metadata/src/formula.ts:249-249 | `IF(!c, a, b)` is `IF(c, b, a)` for all formulas, errors included. |
| FormulaChoices.CoalesceChooses | packages/metadata/src/formula.ts:253-261 | `COALESCE` gives its first argument unless it is null or the empty text, then what the others give; an error stops the search. |
| FormulaChoices.NameReadsItself | packages/metadata/src/formula.ts:351-377 | A plain name reads its own stored number, text, truth value or amount of money, and null if there is none. |
| FormulaChoices.OldNameReadsBefore | packages/metadata/src/formula.ts:370-370 | `old.x` reads what was stored for `x` before the save. |
| FormulaChoices.UserNames | packages/metadata/src/formula.ts:371-373 | Of the user only the id is read. |
| FormulaChoices.ColumnIsRows | packages/metadata/src/formula.ts:426-448 | A table column alone is null; an aggregate over it gets the value of every row, in order. |
| FormulaChoices.UnchangedReadsAlike | packages/metadata/src/formula.ts:420-425 | If `CHANGED(x)` is false on a save of a record that was there, `x` and `old.x` read alike. |
| FormulaChoices.ChangedMeans | packages/metadata/src/formula.ts:420-425 | `CHANGED(x)` is true exactly when what is stored for x is not what was stored before. |
| FormulaChoices.ChangedOnCreate | packages/metadata/src/formula.ts:420-425 | On create it is true exactly when x is filled. |
| FormulaChoices.RoleAsked | packages/metadata/src/formula.ts:319-325 | `HAS_ROLE` is true exactly when a role of the user has the name asked for, without regard to case. |
| FormulaChoices.UnitAsked | packages/metadata/src/formula.ts:326-332 | `IN_UNIT` is true exactly when a unit has the code asked for, without regard to case. |
| FormulaChoices.StateAsked | packages/metadata/src/formula.ts:333-333 | `STATUS` is the state of the record, or null. |
| FormulaEval.Collector.Walk | packages/metadata/src/formula.ts:450-486 | The collector, adding to its two sets while it walks, adds exactly what the dependency theorem lists, or refuses with the first column outside an aggregate. |
| FormulaEval.Collector.WalkArgs | packages/metadata/src/formula.ts:474-484 | The walk over arguments adds exactly their dependencies; only a bare column inside an aggregate stands for its rows. |
| Buckets.KeysAreIntervals | packages/metadata/src/dates.ts:109-172 | For every bucket, date and fiscal start month: the range of a date's key contains the date, and another date has the same key exactly when it lies in that range. |
| Buckets.RangeOfKey | packages/metadata/src/dates.ts:138-172 | Reading a written key back gives exactly the week, month, quarter, year or fiscal year around the date, including weeks across new year and quarters across calendar years. |
| Buckets.Partition | packages/metadata/src/dates.ts:109-172 | Those intervals are disjoint and cover every day. |
| Buckets.WeekRange | packages/metadata/src/dates.ts:109-150 | The key of a week counts from the Monday of the week with 4 January and reads back to the Monday before the date. |
| Buckets.FiscalYearRange | packages/metadata/src/fiscal.ts:28-40 | A fiscal year label determines the twelve months it was written for. |
| RelativePeriods.ThisPeriodIsBucket | packages/metadata/src/dates.ts:40-86 | Today and this week, month, quarter and fiscal year are the ranges of today's keys. |
| RelativePeriods.LastPeriodIsPrevious | packages/metadata/src/dates.ts:40-107 | Yesterday and last week, month, quarter and fiscal year are what `previousRange` makes of the current ones. |
| RelativePeriods.PreviousOfMonths | packages/metadata/src/dates.ts:88-107 | Before a range of whole months lie as many whole months. |
| RelativePeriods.PreviousOfDays | packages/metadata/src/dates.ts:88-107 | Before any other range lie as many days. |
| BucketExpressions.DateStringKey | apps/records-service/src/report-engine.ts:801-852 | Evaluated by the meaning of the database operators, the expression built for a date field gives `bucketKey` for every bucket, date and fiscal start month. |
| BucketExpressions.InstantKey | apps/records-service/src/report-engine.ts:801-852 | For an instant and a fixed offset it gives the key of the local day. |
| BucketExpressions.NotADate | apps/records-service/src/report-engine.ts:801-852 | Anything but a real date groups under null, in every bucket. |
| BucketExpressions.ThursdayRule | packages/metadata/src/dates.ts:109-125 | The week number counted by Thursdays is the week number of ISO 8601:2004, section 4.1.4. |
| GregorianCalendar.YearStarts | packages/metadata/src/dates.ts:17-18 | The first of January of every year lies 365 days for each year, and one for each leap year of the Gregorian rule, after that of 1970. |
| GregorianCalendar.MonthsLast | packages/metadata/src/dates.ts:17-18 | Every month has its length, February one day more in leap years. |
| GregorianCalendar.CountedDays | packages/metadata/src/dates.ts:78-86 | The last n days end with today, the next n start with it, seven if no number is given and at least one. |
| WorkingTime.AddWorkingTime | packages/metadata/src/dates.ts:205-232 | The result is the least instant with exactly the requested working time since the start whenever the 800 days looked at hold enough; otherwise, and for negative amounts, plain clock time is added. |
| WorkingDays.WorkingInstants | packages/metadata/src/dates.ts:205-232 | An instant is working time exactly when its day is neither of the weekend, Sunday unless given, nor a listed holiday, and its time of day lies within working hours, nine to six unless given. |
| WorkingDays.DueWhileWorking | packages/metadata/src/dates.ts:205-232 | The moment before a due instant is working time: work is never due on a day off or out of hours. |
| WorkingDays.DaysLookedAt | packages/metadata/src/dates.ts:218-231 | The days looked at are that of the start and the 799 after it. |
| WorkingTime.AddInTwoSteps | packages/metadata/src/dates.ts:205-232 | Adding a and then b gives the instant that adding a + b gives, across weekends, holidays and day ends. |
| WorkingTime.DueAdds | packages/metadata/src/dates.ts:205-232 | Working time adds up, for any notion of working time. |
| WorkingTime.EnoughForParts | packages/metadata/src/dates.ts:214-231 | If the days looked at suffice for a + b, they suffice for a and, from there, for b. |
| WorkingTime.DueUnique | packages/metadata/src/dates.ts:205-232 | There is only one instant at which a given amount of working time is first reached. |
| Numbering.ValidateNumberingPattern | packages/metadata/src/numbering.ts:17-35 | No error exactly for valid patterns; the error kinds for length, running number and literal text appear exactly when they apply. |
| NumberingPatterns.PiecesRead | packages/metadata/src/numbering.ts:13-35 | A pattern spelled from plain characters and tokens, with or without a width, is read as these pieces. |
| NumberingPatterns.SpelledIsValid | packages/metadata/src/numbering.ts:13-35 | Such a pattern is valid exactly when it has 1 to 60 characters, plain characters are letters, digits, spaces and / - _ . #, tokens are the seven known ones, only the running number has a width, of 1 to 12, and it occurs exactly once. |
| NumberingPatterns.NumberOfPattern | packages/metadata/src/numbering.ts:59-82 | A number shows the pieces of its pattern one after the other, plain characters as they are. |
| NumberingMeaning.DateTokens | packages/metadata/src/numbering.ts:59-82 | Of a day the tokens show its year, the last two digits of it, the month and the day of the month, with four and two digits. |
| NumberingMeaning.FiscalToken | packages/metadata/src/fiscal.ts:28-40 | The fiscal token shows the year in which the fiscal year of the day starts and, unless that is the calendar year, the last two digits of the next. |
| NumberingMeaning.NumberTokens | packages/metadata/src/numbering.ts:74-77 | The branch token shows the branch code, the running number token the number in at least its width. |
| NumberingMeaning.BranchShows | apps/config-service/src/config.service.ts:643-649 | The branch code is the unit's own, else the last four characters of its id in capitals. |
| NumberingMeaning.SamePeriod | packages/metadata/src/numbering.ts:37-50 | Two dates have the same period exactly when the series never restarts, or they lie in the same fiscal year or the same month, as the series restarts. |
| NumberingMeaning.SameCounter | apps/config-service/src/config.service.ts:612-627 | Two requests of a series share a counter exactly when they do so and have the same unit: their own where the series counts by unit, else the one that defines it. |
| NumberingMeaning.LowestDefines | apps/config-service/src/config.service.ts:612-618 | The lowest unit on the path whose own layer defines the series has its counter. |
| NumberingMeaning.NobodyDefines | apps/config-service/src/config.service.ts:612-618 | Without such a unit the company has. |
| Numbering.NumberShows | packages/metadata/src/numbering.ts:59-82 | With one running number in a pattern, two texts under the same branch code and fiscal start are equal only if the running numbers are. |
| Numbering.NumbersNeverRepeat | packages/metadata/src/numbering.ts:17-82 | Two allocations from one counter under an unchanged valid pattern, branch code and fiscal start never give the same text, whatever the dates. |
| Numbering.NumbersIncrease | apps/config-service/src/config.service.ts:625-650 | Running numbers of a counter increase. |
| Numbering.NoGaps | apps/config-service/src/config.service.ts:625-650 | Every number up to the last was handed out, so they are exactly 1 to k. |
| Numbering.CounterStore.NextNumber | apps/config-service/src/config.service.ts:602-651 | Each error (unknown series, missing unit, three lost races) changes nothing; otherwise exactly one allocation is recorded and its text, number, series and period are returned. |
| WorkflowRuns.RunKeeps | apps/workflow-service/src/workflow.service.ts:157-1053 | Over every run of any number of clients with stale reads, of timers and of status copies, the invariant holds: pending approval tasks exist exactly when a run is set, all at its current level, with distinct assignees and none the requester; the state is the pending state; history, version and state agree; a missing copy request means the record has the state. The history only grows. |
| WorkflowRuns.ReachableFits | apps/workflow-service/src/workflow.service.ts:461-1053 | The invariant holds in every state reachable from the instance made on first use. |
| WorkflowRuns.CommitsAreSerial | apps/workflow-service/src/workflow.service.ts:157-176 | Interleaving is invisible: an attempt whose guarded commit goes through does exactly what the operation would do on the stored data. |
| WorkflowRuns.SamePlan | apps/workflow-service/src/workflow.service.ts:157-176 | What an operation plans depends only on what a version stands for. |
| WorkflowDecisions.OnlyTheAskedDecide | apps/workflow-service/src/workflow.service.ts:659-718 | Over every step of every run: an approval task becomes approved or rejected only by a decision on it, while it is pending, of the assignee or of the person who stands in for the assignee, never of the requester. It then names the person, and one entry is added to the history with that person, the level, and the assignee as the one acted for exactly if the person stands in. |
| WorkflowDecisions.EveryDecision | apps/workflow-service/src/workflow.service.ts:659-718 | In every reachable state, each approval task that is approved or rejected was so decided by some step of the run, and the history tells of it. |
| WorkflowDecisions.StepKeepsTasks | apps/workflow-service/src/workflow.service.ts:659-871 | No step changes a decided approval task, and none is made decided. |
| WorkflowOutcomes.DecisionRefused | apps/workflow-service/src/workflow.service.ts:659-687 | When a decision is refused, with which error and in which order: no such approval task, no longer pending, not assigned to the person, the own request, no approval running, no workflow, else at most for want of an approver. |
| WorkflowOutcomes.NobodyNextRefuses | apps/workflow-service/src/workflow.service.ts:781-891 | Of the decisions that pass these tests exactly those approvals are refused that complete their level while nobody can be asked at the next level still configured. |
| WorkflowOutcomes.DecisionDone | apps/workflow-service/src/workflow.service.ts:688-871 | What a decision does to instance and approval tasks: a rejection settles the request, an approval that does not complete its level changes nothing else, one that does withdraws the other open ones and asks the people of the next configured level, or settles the request when there is none; with the state to copy and the entry in the history. |
| WorkflowOutcomes.ActionRefused | apps/workflow-service/src/workflow.service.ts:478-505 | When an action is refused, with which error and in which order: not available in this state or during an approval, not permitted to the user, without its comment, with its condition unmet, or with nobody to ask at the first level that applies; otherwise it is done. |
| WorkflowOutcomes.ActionUnknown | apps/workflow-service/src/workflow.service.ts:466-474 | An action is refused as unknown exactly when no action has the key. |
| WorkflowOutcomes.ActionDone | apps/workflow-service/src/workflow.service.ts:494-583 | What an action does: it leads to its state, or to the approved state if no level of its approval applies; the run has the levels whose condition holds, in order, and starts at the first; open approval tasks are withdrawn, and exactly the people of that level are asked; history and copy request say so. |
| WorkflowOutcomes.StartedForAsked | apps/workflow-service/src/workflow.service.ts:247-335 | A level that starts has one open approval task for each person named who is active and not the requester, with its mode and its times to remind and escalate. |
| WorkflowOutcomes.TimersAfterCommit | apps/workflow-service/src/workflow.service.ts:280-304 | After a commit each new approval task has a timer at the earlier of its times, and those still open keep theirs. |
| WorkflowOutcomes.LevelNow | apps/workflow-service/src/workflow.service.ts:237-244 | The level of a run is the first of its key in the approval of the first action of the key of the run, as configured now. |
| WorkflowOutcomes.LevelOfNoAction | apps/workflow-service/src/workflow.service.ts:237-244 | Without that action there is none. |
| WorkflowTimers.TimerOutcome | apps/workflow-service/src/workflow.service.ts:896-936 | A due timer escalates once the time to do so has come, and before that reminds once; on an approval task that is closed or without a running approval it does nothing. |
| WorkflowTimers.RemindersDone | apps/workflow-service/src/workflow.service.ts:915-936 | A reminder leaves the timer for the escalation, the last one leaves none. |
| WorkflowTimers.HandOverDone | apps/workflow-service/src/workflow.service.ts:945-1002 | A hand-over closes the one approval task and asks exactly the people named for it who are active, not the requester and have nothing open at the level, with a time to remind and none to escalate. |
| WorkflowTimers.SkipDone | apps/workflow-service/src/workflow.service.ts:1003-1053 | A skip closes all open approval tasks as escalated and starts the next configured level. |
| WorkflowInvariant.ActKeeps | apps/workflow-service/src/workflow.service.ts:478-583 | An action, with or without an approval run to start, keeps the invariant. |
| WorkflowInvariant.DecideKeeps | apps/workflow-service/src/workflow.service.ts:659-871 | A decision that is not refused, whether or not it completes its level, keeps the invariant; who may decide is stated by `WorkflowDecisions.OnlyTheAskedDecide`. |
| WorkflowInvariant.EscalateKeeps | apps/workflow-service/src/workflow.service.ts:945-1053 | An escalation planned and committed on the same data keeps the invariant. |
| WorkflowInvariant.RemindKeeps | apps/workflow-service/src/workflow.service.ts:896-936 | A first or repeated reminder keeps the invariant. |
| WorkflowInvariant.PushKeeps | apps/workflow-service/src/workflow.service.ts:196-222 | A status copy, answered or not, keeps the invariant. |
| WorkflowInvariant.PartialApproval | apps/workflow-service/src/workflow.service.ts:781-800 | A decision that does not complete its level changes neither run nor state; the requester never decides. |
| WorkflowInvariant.CompletingApproval | apps/workflow-service/src/workflow.service.ts:781-871 | An approval that completes its level starts the next level still configured, and approves the request exactly when there is none. |
| WorkflowInvariant.Rejection | apps/workflow-service/src/workflow.service.ts:736-779 | A rejection ends the run in the rejected state with nothing pending. |
| WorkflowInvariant.SkippedAreGone | apps/workflow-service/src/workflow.service.ts:875-891 | The levels passed over are no longer in the configuration. |
| WorkflowInvariant.EscalationMovesRun | apps/workflow-service/src/workflow.service.ts:945-1053 | An escalation leaves the level only when it is gone or names nobody to escalate to; it never ends the run. |
| WorkflowEscalation.EscalationOutcome | apps/workflow-service/src/workflow.service.ts:945-1053 | Exactly when an escalation hands the approval task over, skips the level, only reminds, or does nothing: by the people named, those they resolve to, whether a later level is left and whether one can start. |
| WorkflowEscalation.SkipsUnlessNamed | apps/workflow-service/src/workflow.service.ts:940-1053 | When there is nobody to escalate to and a later level can start, the run moves on if and only if the level names nobody; people who are named but resolve to nobody new hold it. |
| WorkflowExamples.StuckEscalationExample | apps/workflow-service/src/workflow.service.ts:940-1053 | A reachable state in which that happens: people are named, nobody new is found, the next level could start, and the approver is only reminded. |
| WorkflowRuns.RunMovesOnlyBy | apps/workflow-service/src/workflow.service.ts:157-1053 | Over every step of a run: the current level changes only by an approval that completes it, or by an escalation of a level that is gone or names nobody, and then no level still configured is passed over. |
| WorkflowEscalation.LateHandOverFits | apps/workflow-service/src/workflow.service.ts:968-1002 | An escalation plans from the approval task and the targets it read first, and commits on the instance as it is then, also on its first try. Committed on later data it keeps the invariant if and only if the run still is at that level in the same state and no target has got an approval task meanwhile. |
| WorkflowEscalation.LateHandOverAfterDecision | apps/workflow-service/src/workflow.service.ts:968-1002 | Any decision that ends the run between the read and the commit breaks the invariant. |
| WorkflowExamples.LateHandOverExample | apps/workflow-service/src/workflow.service.ts:968-1002 | A concrete run in which that happens. |
| WorkflowEscalation.LateSkipFits | apps/workflow-service/src/workflow.service.ts:1003-1040 | Skipping a level reads the run and its level again, but writes the state it read first into the history. Committed on later data it keeps the invariant if and only if it changes nothing or the state is still the same. |
| WorkflowRuns.PushSucceeds | apps/workflow-service/src/workflow.service.ts:196-222 | An answered copy succeeds exactly when the record has the old or already the new state; then record and instance agree and nothing waits. |
| WorkflowRuns.PushAgain | apps/workflow-service/src/workflow.service.ts:196-222 | A lost answer does no harm: the repeated copy has the same outcome. |
| WorkflowRuns.PushStalls | apps/workflow-service/src/workflow.service.ts:196-222 | Otherwise no number of copies changes anything. |
| WorkflowRuns.SettledMoveReaches | apps/records-service/src/records.service.ts:807-844 | A change of a settled instance reaches the record if and only if the instance had a state before; otherwise the copy names the initial state as the old one, and the record refuses it. |
| WorkflowRuns.OverlapReaches | apps/records-service/src/records.service.ts:807-844 | A change made while an earlier copy waits goes through if and only if it starts or ends at the record's state. |
| WorkflowExamples.NoStateExample | apps/records-service/src/records.service.ts:807-844 | A new instance of a record without a state whose first change never reaches the record. |
| WorkflowExamples.OverlapExample | apps/records-service/src/records.service.ts:807-844 | A second change made before the first was copied, which never reaches the record. |
| WorkflowStore.RetriedOnce | apps/workflow-service/src/workflow.service.ts:178-194 | However others interfere between reads and commits, the outcome of the retry loop is the operation done once on the data some try found, or nothing. |
| WorkflowStore.Store.CommitPlan | apps/workflow-service/src/workflow.service.ts:157-176 | The guarded write: with a matching version instance, approval tasks, timers and copy request all change as planned, otherwise nothing does. |
| WorkflowStore.Store.StartLevel | apps/workflow-service/src/workflow.service.ts:261-335 | Adds the level's approval tasks and their timers, and nothing else. |
| WorkflowStore.Store.CloseOpen | apps/workflow-service/src/workflow.service.ts:718-734 | Closes exactly the open approval tasks selected and removes their timers. |
| WorkflowStore.Store.DecideTask | apps/workflow-service/src/workflow.service.ts:681-718 | Marks one approval task and removes its timer. |
| WorkflowStore.Store.TryOnce | apps/workflow-service/src/workflow.service.ts:157-176 | One read and one guarded commit with others at work in between: an error or a lost race changes nothing. |
| WorkflowStore.Store.Retrying | apps/workflow-service/src/workflow.service.ts:178-194 | The loop of five tries does what the recursive retry says. |
| WorkflowStore.Store.Perform | apps/workflow-service/src/workflow.service.ts:461-589 | An action or a decision: retried, then its state is copied; which are refused, and what the others do, is stated by the rows of `WorkflowOutcomes`. |
| WorkflowStore.Store.CopyStatus | apps/workflow-service/src/workflow.service.ts:196-222 | The copy on the stored fields, with the job removed on success. |
| WorkflowStore.Store.RunTaskTimer | apps/workflow-service/src/workflow.service.ts:896-1053 | A timer that fires reminds, escalates or does nothing, and keeps the invariant. |
| WorkflowStore.FindNextLevel | apps/workflow-service/src/workflow.service.ts:875-891 | The loop finds the first later level that is configured and has approvers, or says which is missing. |
| CanonicalJson.SameNormalForm | apps/audit-service/src/chain.ts:13-29 | Two values have the same normal form exactly when they mean the same, whatever the order of keys. |
| CanonicalJson.NormalizeIsNormal | apps/audit-service/src/chain.ts:13-29 | Normal forms have their keys sorted at every depth and hold nothing undefined. |
| CanonicalText.ValuesDiffer | apps/audit-service/src/chain.ts:9-11 | The text of a normalised value determines it, even with more text behind it: numbers, quoted texts with escapes, arrays and objects. |
| CanonicalText.SameCanonical | apps/audit-service/src/chain.ts:9-29 | Two values have the same canonical text exactly when they mean the same. |
| AuditChain.RedactRemoves | apps/audit-service/src/chain.ts:46-56 | After redaction no secret key holds a value; without one nothing changes. |
| AuditChain.RedactIsRedaction | apps/audit-service/src/chain.ts:46-56 | Redaction replaces the values of secret keys and nothing else: the same members and items in the same order at every depth, dates as empty objects. |
| AuditContent.SecretKeys | apps/audit-service/src/chain.ts:43-43 | A key is secret exactly when it mentions password, secret or token, or is otp or code, in whatever case. |
| AuditContent.HashCovers | apps/audit-service/src/chain.ts:9-41 | A hash is that of the one before and of the canonical text of any object with the values of the record under their names, in any order. |
| AuditContent.ArrayIndices | apps/audit-service/src/chain.ts:13-24 | The keys that come first, by value, are the decimal texts of the numbers up to 4294967294. |
| AuditChain.SameHashSameFields | apps/audit-service/src/chain.ts:31-41 | Hashes are equal exactly when they come from equal predecessors and from fields that mean the same, the payload missing or not. |
| AuditChain.TamperEvident | apps/audit-service/src/audit.service.ts:111-141 | Next to a record list that verifies, another verifies against the same head if and only if it has the same records, up to what the canonical text leaves out. So any edit, removed payload, insertion, deletion, reordering or truncation with the head intact shows. |
| AuditChain.TamperEvidentExactly | apps/audit-service/src/audit.service.ts:111-141 | With payloads stored in normal form they are identical. |
| AuditChain.ProtoUnseen | apps/audit-service/src/chain.ts:13-29 | In every chain, a member named `__proto__` can be added to a stored payload unseen, whatever its value. |
| AuditChain.Verify | apps/audit-service/src/audit.service.ts:111-141 | The loop reports valid exactly for lists that verify, and otherwise the first broken place and its kind. |
| AuditChain.AppendKeeps | apps/audit-service/src/audit.service.ts:51-80 | Appending keeps a chain that verifies. |
| AuditChain.AuditStore.AppendEvent | apps/audit-service/src/audit.service.ts:51-80 | Head and records move together; earlier records stay, and the new one has the next position, the time of recording, and of its event the company, id, type, source, actor type and id, time and correlation id each in its place, with the payload redacted and a missing one as null. |
| EventPipeline.StepKeeps | packages/events/src/outbox.ts:58-150 | Each step of writers, relays, crashes, republishing and handlers keeps the invariant of rows, stream, markers and chains. |
| EventPipeline.RunKeeps | packages/events/src/outbox.ts:58-150 | Every run of such steps keeps the invariant. |
| EventPipeline.ChainsAreSound | packages/events/src/consumer.ts:52-78 | Over every run with crashes, republishing and redelivery each company's chain verifies and holds no event twice, and each record tells of a committed event of that company: id, type, source, actor type and id, time of the event and correlation id each in its place, with only secrets of the payload replaced and a missing payload as null. |
| EventPipeline.SettledChainsAreComplete | apps/audit-service/src/audit.service.ts:51-80 | Once every row is published and every delivery acknowledged, a chain holds exactly the committed events other than notifications. |
| EventPipeline.OutboxRelay.Flush | packages/events/src/outbox.ts:110-150 | The relay's loop is a run of such steps that locks rows oldest first; it counts the rows it marked, does nothing while already running, and with all calls answered leaves no row it could still take. Nothing comes after a failure. |
| EventPipeline.OutboxRelay.Hand | packages/events/src/outbox.ts:114-146 | Lock, publish and mark one row, or unlock it later after a failure, with or without the message sent. |
| EventPipeline.OutboxRelay.FindOldest | packages/events/src/outbox.ts:114-122 | The row that was committed first of those pending and not locked, or none when there is none. |
| EventTimes.LockHolds | packages/events/src/outbox.ts:114-123 | Over any further steps a row that a relay has just locked cannot be locked by any relay within the half minute, unless a relay that holds the row fails. |
| EventTimes.LockEnds | packages/events/src/outbox.ts:114-123 | If nothing else happens it can be locked again exactly when the half minute is over. |
| EventTimes.FailedRowWaits | packages/events/src/outbox.ts:136-141 | A row whose relay fails can be locked again exactly after half a second, doubled for each time it had been locked, or a minute if that is less. |
| EventTimes.AttemptsAreLocks | packages/events/src/outbox.ts:114-123 | In every run the attempts of a row are the times it was locked. |
| EventTimes.LateFailureUnlocks | packages/events/src/outbox.ts:136-141 | A relay whose lock has run out and that fails only then takes the lock of another one away: the row can be locked again exactly when the wait for its own attempts is over. |
| EventTimes.TwoHolders | packages/events/src/outbox.ts:114-141 | In that way two relays come to hold a row, a second after one of them locked it. |
| EventTimes.LateExample | packages/events/src/outbox.ts:114-141 | A reachable state in which that can happen. |
| EventTimes.HandedRows | packages/events/src/outbox.ts:125-134 | A notification leaves the outbox when it is handed over, any other row stays as published. |
| EventTimes.SentOnce | packages/events/src/nats-bus.ts:98-107 | The stream takes an event once while it remembers its id. |
| EventTimes.DeliveriesEnd | packages/events/src/nats-bus.ts:98-107 | No message is delivered more than twenty times. |
| EventBus.SubjectMatches | packages/events/src/bus.ts:25-38 | The scan decides the wildcard patterns: one part for a star, one or more for the tail mark. |
| EventBus.AuditHears | packages/contracts/src/events.ts:109-121 | The audit subscription gets exactly the events that are not notifications. |
| EventBus.Deliver | packages/events/src/bus.ts:97-118 | One pass: each subscription that still wants the message gets it once, success and tries are recorded, and the message is kept exactly when some subscription still has tries left, although only the last failure decides. |
| EventBus.InMemoryBus.Publish | packages/events/src/bus.ts:60-66 | A message id is queued once. |
| EventBus.InMemoryBus.Subscribe | packages/events/src/bus.ts:68-70 | A subscription made while messages wait is still owed, with all its tries, exactly those of them that it asks for. |
| EventBus.InMemoryBus.DrainOnce | packages/events/src/bus.ts:97-123 | What stays queued, in order, is exactly what some subscription still has to get. |
| KeyedMerge.MergeGroups | packages/metadata/src/merge.ts:15-17 | Merging two lists by key and then their results is merging all items at once, with the order of first appearance kept, for any associative combination. |
| KeyedMerge.FoldMerged | packages/metadata/src/merge.ts:15-17 | Merging a list that was merged on its own is merging its items. |
| ConfigMerge.MergeInGroups | packages/metadata/src/merge.ts:36-92 | Merging layers is associative: fields of entities, tax and role unions, plain lists, calendars with their holidays, and settings, in order of first appearance. Which definition wins is stated by `ConfigLast.ItemIsLast` and the rows after it. |
| ConfigMerge.MergeEntityAssoc | packages/metadata/src/merge.ts:19-34 | Merging entity patches is associative. |
| ConfigMerge.SortInBetween | packages/metadata/src/identifiers.ts:165-175 | Sorting the merged holidays in between does not change the result. |
| ConfigMerge.MergeLayerList | packages/metadata/src/merge.ts:36-92 | The loop over the layers computes that merge. |
| ConfigLast.ItemIsLast | packages/metadata/src/merge.ts:36-92 | Of every key each of the twelve merged lists has exactly one item: the last definition of the last layer that has one. |
| ConfigLast.NoSuchItem | packages/metadata/src/merge.ts:36-92 | A key that no layer has is in no merged list. |
| ConfigLast.PlacesStay | packages/metadata/src/merge.ts:36-92 | Another layer leaves the keys before it in their places. |
| ConfigLast.SettingIsLast | packages/metadata/src/merge.ts:55-71 | A setting has the value of the last layer that sets it. |
| ConfigLast.NoSuchSetting | packages/metadata/src/merge.ts:55-71 | A setting that no layer sets is not set. |
| ConfigLast.CalendarThere | packages/metadata/src/identifiers.ts:165-175 | There is a merged calendar exactly when a layer has one; its holidays stand in the order of their dates, each date once. |
| ConfigLast.HolidayIsLast | packages/metadata/src/identifiers.ts:165-175 | A date that a layer makes a holiday is one, under the name given last. |
| ConfigLast.NoSuchHoliday | packages/metadata/src/identifiers.ts:165-175 | Other dates are none. |
| ConfigLast.WeekendIsLast | packages/metadata/src/identifiers.ts:165-175 | The weekend is that of the last layer that sets it. |
| ConfigLast.HoursAreLast | packages/metadata/src/identifiers.ts:165-175 | So are the hours. |
| ConfigLast.HoursOnlyIsLast | packages/metadata/src/identifiers.ts:165-175 | So is whether only working hours count. |
| ConfigLast.CalendarUnset | packages/metadata/src/identifiers.ts:165-175 | What no layer sets stays unset. |
| ConfigLastEntities.OneEntity | packages/metadata/src/merge.ts:36-92 | There is one merged entity of each key. |
| ConfigLastEntities.PropIsLast | packages/metadata/src/merge.ts:19-30 | A property of a merged entity is that of the last layer, and the last patch there, that sets it for the entity. |
| ConfigLastEntities.NoSuchProp | packages/metadata/src/merge.ts:19-30 | A property that none sets it has not. |
| ConfigLastEntities.TaxIsLast | packages/metadata/src/merge.ts:19-30 | Each of its tax settings is that of the last patch that has the setting. |
| ConfigLastEntities.NoSuchTax | packages/metadata/src/merge.ts:19-30 | A tax setting that none has it has not. |
| ConfigLastEntities.RolesAreAll | packages/metadata/src/merge.ts:19-30 | It has exactly the roles its patches have. |
| ConfigMerge.MergeCalendarList | packages/metadata/src/identifiers.ts:165-175 | The loop over the calendars present computes the merged calendar. |
| ConfigKeys.MergeKeepsFields | packages/metadata/src/merge.ts:36-92 | Merging loses no entity and no field, and adds none. |
| ConfigKeys.MergeTakesLast | packages/metadata/src/merge.ts:19-92 | The merged definition of a field is that of the last layer that has it. |
| ConfigPacks.PackFields | packages/metadata/src/packs.ts:169-227 | Pack layers have the fields of the packs and those that patches give to entities by role. |
| ConfigPacks.EffectiveFields | packages/metadata/src/merge.ts:95-120 | Where a field at a place can come from: base, packs and patches, leftovers, company, units on the path. |
| ConfigPacks.PatchedMore | packages/metadata/src/packs.ts:169-227 | What patches reach without the company they also reach with it. |
| ConfigRollback.FieldsAfterRollback | packages/metadata/src/diff.ts:94-144 | Exactly which fields exist at a place after a rollback. |
| ConfigRollback.RollbackLoses | packages/metadata/src/diff.ts:94-144 | A field that exists at a place now is gone after a rollback if and only if a patch gives it to an entity of the company and nothing that stays defines it, said of the two configurations; every other field stays. |
| ConfigEntities.EntitiesAfterRollback | packages/metadata/src/diff.ts:94-144 | After a rollback the entities at a place are exactly those it has now and those it has in the target. |
| ConfigRollback.KeepLayer | packages/metadata/src/diff.ts:94-144 | The loops that copy leftovers into a layer compute what the theorems speak of. |
| ConfigRollback.Retired | packages/metadata/src/diff.ts:94-144 | The loops over what the packs leave behind compute the leftovers the theorems speak of. |
| ConfigAfterRollback.LayersExtended | packages/metadata/src/diff.ts:94-144 | Every field and entity of the target keeps its place and definition in the company layer and in the leftovers; what a rollback adds is archived. |
| ConfigAfterRollback.UnitExtends | packages/metadata/src/diff.ts:94-144 | In the layer of each unit of the target, everything keeps its place and definition and additions are archived. |
| ConfigAfterRollback.FieldAfterRollback | packages/metadata/src/diff.ts:94-144 | What a rollback leaves of any field at any place. If a layer above the packs has it in the target or now, the last such layer decides: the target's definition if the target has the field there, otherwise archived. If none has it, the definition is the target's if and only if no patch of the target's packs gives a different one through a role that only a leftover of the company brings. |
| ConfigReach.PackWinner | packages/metadata/src/packs.ts:169-227 | Which definition pack layers give a field: that of the last patch that reaches one of the entity's roles and has the field, else the last of the packs' own. |
| ConfigRemoval.RemoveKeepsFields | packages/metadata/src/pack-ops.ts:217-227 | Removing packs keeps every published pack field among packs and leftovers, archived where the packs no longer define it. |
| ConfigRemoval.InstallKeepsFields | packages/metadata/src/pack-ops.ts:192-214 | Installing or upgrading a pack keeps every published pack field among packs and leftovers, archived where the packs no longer define it. |
| ConfigRemoval.RetireKeepsFields | packages/metadata/src/pack-ops.ts:154-186 | The fields of packs and leftovers are then exactly the old published and the new ones. |
| ConfigRemoval.RetireExtends | packages/metadata/src/pack-ops.ts:154-186 | Leftovers collected earlier stay as they are; what is added is archived. |
| ConfigRemoval.AllRefsKept | packages/metadata/src/pack-ops.ts:154-186 | Each option list, number series and so on that a leftover field refers to is kept when it exists. |
| ConfigRemoval.RemovalLoses | packages/metadata/src/pack-ops.ts:217-227 | At a place, a field is lost by a removal if and only if nothing that stays defines it, whatever was published: not the base, the company, units, other packs and their patches, earlier leftovers or the published packs. With the draft published, a lost field is one that a patch gives to an entity of the company. |
| ConfigRemoval.FieldsAfterRemoval | packages/metadata/src/pack-ops.ts:154-227 | Exactly which fields exist at a place after a removal, for any draft and anything published. |
| ConfigAfterRemoval.FieldAfterRemoval | packages/metadata/src/pack-ops.ts:154-227 | Which definition any field has at any place after a removal: an archived leftover if it was published, the packs that stay do not have it by themselves, and neither company nor unit has it; otherwise the definition it has in the draft without the pack. |
| ConfigAfterRemoval.FieldAfterInstall | packages/metadata/src/pack-ops.ts:192-214 | The same after an installation or upgrade. |
| ConfigLeftovers.LeftAfterRollback | packages/metadata/src/diff.ts:94-144 | After a rollback an entity of the company that the target lacks keeps its properties, tax settings and roles and is archived with all its fields; of users and units only archived fields are left. |
| ConfigLeftovers.LeftInUnit | packages/metadata/src/diff.ts:94-144 | The same in the layer of a unit, where of an entity that the company of the target defines only archived fields are left. |
| ConfigLeftovers.ListsAfterRollback | packages/metadata/src/diff.ts:94-144 | A rollback keeps the picklists and number series of the target as they were, and those it lacks. |
| ConfigLeftovers.PackEntityAfterRollback | packages/metadata/src/diff.ts:94-144 | An entity of the packs that no pack of the target defines is kept, archived with its fields. |
| ConfigLeftovers.RemovedEntityLeft | packages/metadata/src/pack-ops.ts:154-186 | So is a published one that no pack defines after a removal or an installation. |
| ConfigLeftovers.NothingElseLeft | packages/metadata/src/diff.ts:94-144 | Nothing is left of an entity all of whose fields a pack of the target has. |
| ConfigLeftovers.ReferredStays | packages/metadata/src/pack-ops.ts:154-186 | A picklist or number series that an archived field refers to is kept whenever a published pack defines it. |
| ConfigLeftovers.PackUpgraded | packages/metadata/src/pack-ops.ts:192-214 | An upgrade takes the place of the pack and leaves the others in theirs. |
| ConfigLeftovers.PackAdded | packages/metadata/src/pack-ops.ts:192-214 | A new pack comes last. |
| ConfigLeftovers.PackRemoved | packages/metadata/src/pack-ops.ts:217-227 | A removal takes out the packs of the id and keeps the order of the others. |
| ConfigLeftovers.PatchReaches | packages/metadata/src/packs.ts:181-205 | Fields and tax settings of a patch reach every entity of the packs and of the company that has its role. |
| ConfigRemoval.RetireEntities | packages/metadata/src/pack-ops.ts:154-186 | The loop over the published entities computes the leftovers. |
| ConfigExamples.RemovalExample | packages/metadata/src/pack-ops.ts:154-227 | A concrete removal that loses the tax number of the company's customers. |
| ConfigExamples.HiddenByLeftoverExample | packages/metadata/src/pack-ops.ts:154-227 | A concrete removal that archives a field although a pack that stays gives it to an entity of the company. |
| ConfigExamples.RollbackExample | packages/metadata/src/diff.ts:94-144 | A concrete rollback that loses the tax number of the company's customers. |
| ConfigExamples.HiddenFieldExample | packages/metadata/src/diff.ts:94-144 | A concrete rollback after which a field the target has active is archived at a unit. |
| ConfigExamples.RedefinedExample | packages/metadata/src/diff.ts:94-144 | A concrete rollback after which a patch of the target's own pack replaces the target's definition of a field. |
| ConfigExamples.ActiveLeftoverExample | packages/metadata/src/diff.ts:94-144 | A concrete rollback after which a field is active on an archived leftover. |
| OrgTree.PrefixIsAbove | packages/contracts/src/auth.ts:37-59 | In every tree, the path of one unit is a string prefix of another's exactly when it is that unit or above it. |
| OrgTree.PathsDiffer | apps/org-service/src/org.service.ts:98-143 | Different units have different paths. |
| OrgTree.PathNamesAncestors | apps/org-service/src/org.service.ts:308-324 | The ids in a path are the units from the top down, so the depth is the number of ids above. |
| OrgTree.InternalAncestors | apps/org-service/src/org.service.ts:308-324 | The lookup of the ids of a path gives the chain of units above. |
| OrgService.MoveKeepsTree | apps/org-service/src/org.service.ts:212-259 | A move keeps a tree with one root, paths that are the parent's plus the id, depths that count them and stay below 15, and active units only under active parents. |
| OrgService.MoveChangesSubtree | apps/org-service/src/org.service.ts:212-259 | A move changes exactly the moved subtree: new prefix, one shift of depth, one new parent. |
| OrgService.OrgUnits.Bootstrap | apps/org-service/src/org.service.ts:282-300 | Makes the top unit once; the tree stays valid. |
| OrgService.OrgUnits.Create | apps/org-service/src/org.service.ts:98-143 | Each refusal, in order, changes nothing; otherwise one unit is added under its parent and the tree stays valid. |
| OrgService.OrgUnits.MoveUnit | apps/org-service/src/org.service.ts:212-259 | Each refusal, in order, changes nothing; otherwise the subtree moves, one event is recorded and the tree stays valid; a move to the present parent changes nothing. |
| OrgService.OrgUnits.Deactivate | apps/org-service/src/org.service.ts:261-278 | Refused for unknown units, the top unit and above active units, in order; otherwise only the unit's status changes and the tree stays valid. |
| OrgRaces.LateMoveFits | apps/org-service/src/org.service.ts:212-259 | A move decided on an earlier tree and committed on a later one keeps a valid tree if and only if unit and parent are still in place, the parent is active for an active unit and the depth still fits, or the unit has already been moved there. |
| OrgRaces.LateCreateFits | apps/org-service/src/org.service.ts:98-143 | A unit made under a parent that was read earlier keeps the tree valid if and only if the parent is still in place and active. |
| OrgRaces.LateDeactivateFits | apps/org-service/src/org.service.ts:261-278 | A late deactivation keeps the tree valid if and only if no child is active by then. |
| OrgRaces.LateBootstrapFits | apps/org-service/src/org.service.ts:282-300 | A late top unit keeps the tree valid if and only if there still is no unit. |
| OrgExamples.CrossedMoves | apps/org-service/src/org.service.ts:212-259 | Two units moved at the same time, each under the other: both moves are accepted and each becomes the parent of the other. |
| OrgPaths.HasPermission | packages/contracts/src/auth.ts:37-51 | The loop decides whether a grant covers the permission at a path prefix of the target. |
| OrgPaths.ScopeIsAncestry | packages/contracts/src/auth.ts:53-59 | With current paths, a unit is in scope exactly when the permission is granted at it or above it. |
| OrgPaths.RoleHolders | apps/access-service/src/access.service.ts:472-489 | The loop over prefixes finds the unit and the holders at the longest one that has any. |
| OrgPaths.LevelsAreAncestors | apps/access-service/src/access.service.ts:472-489 | Those prefixes are the paths of the units above, so the holders are those of the nearest unit. |
| OrgPaths.PathCopies.HandleMove | apps/access-service/src/access.service.ts:590-605 | An event of the stream handled again changes nothing; the next one rewrites the prefix of every copy below the moved unit. |
| OrgPaths.PathCopies.Add | apps/records-service/src/records.service.ts:530-622 | Stores a path that was read when the tree had made any number of moves, with any number handled by now. |
| OrgPaths.FeedStepKeeps | apps/records-service/src/records.service.ts:888-901 | Each move, other change, copy and delivery keeps every copy equal to the path that was read for it, with the moves handled since it was stored replayed. |
| OrgPaths.DeliveriesCatchUp | apps/records-service/src/records.service.ts:888-901 | Over every run of moves, other changes, copies and deliveries with arbitrary redelivery: a copy is the path its unit has after the moves handled so far, as soon as those before the reading are handled, unless its unit was moved in between and that was handled before the copy was stored. Then it is wrong when it is stored. |
| OrgPaths.RightWhenStored | apps/records-service/src/records.service.ts:530-622 | A copy stored after the moves before its reading are handled is right if and only if it missed none of its unit. |
| OrgPaths.StaysRight | apps/records-service/src/records.service.ts:888-901 | A copy that is right stays right in every run that does not store it anew. |
| OrgExamples.MissedMove | apps/records-service/src/records.service.ts:530-622 | A record whose unit moves between the reading of its path and the insert keeps the old path, however often the event comes again. |
| OrgPaths.OldMovesHarmless | apps/records-service/src/records.service.ts:888-901 | A copy made after some moves is left as it is by replaying those moves. |
| OrgPaths.CopiesCatchUp | apps/records-service/src/records.service.ts:888-901 | Replaying on a copy made at any time the moves from any earlier one on gives the unit's path. |
| Identifiers.LuhnCatchesChange | packages/metadata/src/identifiers.ts:41-54 | For any length: every change of one digit is caught. |
| Identifiers.LuhnCatchesSwap | packages/metadata/src/identifiers.ts:41-54 | An exchange of different neighbours is missed exactly for 0 and 9. |
| Identifiers.Luhn36CatchesChange | packages/metadata/src/identifiers.ts:28-38 | Every change of one character is caught. |
| Identifiers.Luhn36CatchesSwap | packages/metadata/src/identifiers.ts:28-38 | An exchange of different neighbours in the body is missed exactly for 0 and Z. |
| Identifiers.Mod11CatchesChange | packages/metadata/src/identifiers.ts:89-97 | A change of a body digit is missed exactly when its weight is a multiple of eleven. |
| Identifiers.Mod11CatchesSwap | packages/metadata/src/identifiers.ts:89-97 | Every exchange of different neighbours in the body is caught. |
| Identifiers.VerhoeffCatchesChange | packages/metadata/src/identifiers.ts:57-86 | Every change of one digit is caught. |
| Identifiers.VerhoeffCatchesSwap | packages/metadata/src/identifiers.ts:57-86 | Every exchange of different neighbours is caught. |
| Identifiers.TableD | packages/metadata/src/identifiers.ts:57-68 | The first table is the multiplication of the dihedral group of order ten. |
| Identifiers.TableP | packages/metadata/src/identifiers.ts:69-78 | The second is its permutation applied again and again, repeating after eight. |
| Identifiers.Luhn | packages/metadata/src/identifiers.ts:41-54 | The loop decides the check, from the right, doubling every other digit. |
| Identifiers.LuhnMod36 | packages/metadata/src/identifiers.ts:28-38 | The loop decides the check over letters and digits. |
| Identifiers.Mod11 | packages/metadata/src/identifiers.ts:89-97 | The loop decides the weighted check, with X for ten. |
| Identifiers.Verhoeff | packages/metadata/src/identifiers.ts:80-86 | The loop over the reversed digits decides the check. |
| KnownIdentifiers.KnownLuhn | packages/metadata/src/identifiers.ts:41-53 | The standard example is valid: every second digit from the right is doubled. |
| KnownIdentifiers.KnownLuhn36 | packages/metadata/src/identifiers.ts:28-40 | A tax number in use is valid. |
| KnownIdentifiers.KnownMod11 | packages/metadata/src/identifiers.ts:89-98 | Two ISBN with ten digits are valid, one of them ending in X. |
| KnownIdentifiers.KnownVerhoeff | packages/metadata/src/identifiers.ts:80-86 | The standard example is valid. |
| WordTable.WordsReadBack | packages/metadata/src/format.ts:120-193 | A reader of number words undoes the text: for every number in the Indian system, and in the international one if and only if the number is below two thousand trillion. |
| Words.ReadIndian | packages/metadata/src/format.ts:170-193 | The Indian words, with crores of crores, read back as the number. |
| Words.ReadInternational | packages/metadata/src/format.ts:155-193 | The international words read back exactly below two thousand trillion; beyond, the count of trillions has no word. |
| Words.ReadBack | packages/metadata/src/format.ts:144-193 | The same as text, for any reader that knows the words. |
| Words.IntegerInWords | packages/metadata/src/format.ts:170-189 | The recursion over crores computes the words that are read back. |
| Words.Parts | packages/metadata/src/format.ts:178-187 | The loop over the scales computes their parts. |
| WordTable.TableUnderstands | packages/metadata/src/format.ts:120-168 | A table of the words gives such a reader. |
| Uniques.IndexMeansUnique | apps/records-service/src/records.service.ts:393-422 | When the collection of unique values is exact, its index holds if and only if no two live records of an entity share a value in a field that is unique for both where they are. |
| UniquesMeaning.IndexMeansNoClash | apps/records-service/src/records.service.ts:393-422 | In terms of records and configuration alone: exactly when no two live records of an entity have values that are compared as the same text in a field that the configuration at the place of each makes unique. |
| UniquesMeaning.RowsAre | apps/records-service/src/records.service.ts:393-422 | The rows are the values, as compared, of exactly these fields of live records; empty ones have none. |
| Uniques.RefusedExactly | apps/records-service/src/records.service.ts:399-421 | On an exact collection a write is refused if and only if some value it changes is that of another live record for which the field is unique. |
| Uniques.ChangeKeepsExact | apps/records-service/src/records.service.ts:625-718 | A changed record, moved or not, keeps the collection exact if and only if each field that becomes unique for it had no value or gets another one, and each field that no longer is had none. |
| Uniques.NewKeepsExact | apps/records-service/src/records.service.ts:530-622 | A new record keeps it exact. |
| Uniques.ConfigKeepsExact | apps/records-service/src/records.service.ts:124-133 | A new configuration, or a unit that moves, keeps it exact if and only if no live record has a value in a field that becomes unique for it or no longer is. |
| Uniques.DeletedIsExact | apps/records-service/src/records.service.ts:749-755 | Deleting all rows of a deleted record keeps it exact. |
| Uniques.RecordStore.WriteUniques | apps/records-service/src/records.service.ts:393-422 | On any rows: the loop stops at the first field whose new value the index refuses; otherwise exactly the rows of changed values go and come, and the index holds. |
| Uniques.RecordStore.Create | apps/records-service/src/records.service.ts:530-622 | A missing unit is refused; a known source key returns the record that has it; otherwise the first refused value is reported with neither side changed, or record and rows appear together. As long as every change fits, it is refused if and only if a unique value is taken. |
| Uniques.RecordStore.Update | apps/records-service/src/records.service.ts:625-718 | With a document loaded at any earlier time, and a unit to move to: nothing to do, changed since, refused at the first taken value, or done, decided in this order; a failure changes neither side. Done, record and rows change together, and the collection stays exact exactly if the step fits. |
| Uniques.RecordStore.Reconfigure | apps/records-service/src/records.service.ts:124-133 | Under another configuration nothing is written; the collection stays exact exactly if the change fits. |
| Uniques.RecordStore.Remove | apps/records-service/src/records.service.ts:736-770 | The record is dead and exactly its rows are gone, even if it changed since it was loaded. |
| Uniques.RecordStore.RemoveBySource | apps/records-service/src/records.service.ts:850-885 | Exactly the live records of the source are deleted and give up their source keys; the count is theirs. |
| Uniques.RecordStore.RemoveAndAddAgain | apps/records-service/src/records.service.ts:530-622 | After that, adding a source key returns a dead record if and only if a user had deleted its record before, since a user's delete leaves the key in place; it makes a new record if and only if none had and no unique value is refused by the rows left. |
| Uniques.DeletedSample | apps/records-service/src/records.service.ts:530-545 | A concrete sample, deleted by a user, that does not come back. |
| Uniques.SharedBadge | apps/records-service/src/records.service.ts:625-718 | Two live records of one unit that share a value in a field that is unique there, after one of them moved in. |
| Uniques.StaleBadge | apps/records-service/src/records.service.ts:625-718 | A value that no live record has is refused in a unit, after its record moved out. |

## Left out

- FormulaEval.DependenciesSound: requires names with at most one point, as tokens have, and plain names under `CHANGED` or plain stored keys; that the latter is needed is stated for single calls by `FormulaEval.ChangedSoundExactly`, not for whole formulas.
- RelativePeriods.ThisPeriodIsBucket: dates whose year, interval bounds and fiscal year are written with four digits; the same holds for the other statements about written dates.
- WorkingTime.AddWorkingTime: a fixed offset stands for the time zone and whole milliseconds for hours, so changes of the clock within a day are not modelled.
- BucketExpressions.InstantKey: a fixed offset stands for the time zone; comparisons between values of different types are outside the operators modelled.
- WorkflowStore.Store.RunTaskTimer: a timer reads and commits at one moment; what an escalation committed on later data does is stated by `WorkflowEscalation.LateHandOverFits` and `WorkflowEscalation.LateSkipFits`.
- WorkflowInvariant.EscalateKeeps: planned and committed on the same data, for the same reason.
- WorkflowRuns.RunKeeps: an escalation whose instance changed since it was read is not committed; the commit on later data breaks the invariant exactly where `WorkflowEscalation.LateHandOverFits` and `WorkflowEscalation.LateSkipFits` say, so it is not a step of these runs.
- WorkflowRuns.ReachableFits: the states of those runs.
- EventPipeline.OutboxRelay.FindOldest: rows are old by the order of their commits; the code sorts by the time at which they were made.
- EventPipeline.ChainsAreSound: markers that expire and messages the stream drops by age are not modelled; handlers fail with no duplicate-key error of their own.
- AuditChain.TamperEvident: the hash is an injective constructor, so SHA-256 itself is not modelled; numbers in payloads are whole numbers, and keys are ordered by code point.
- EventBus.InMemoryBus.DrainOnce: handlers that publish while a pass is under way, and the timer for the next pass.
- ConfigAfterRollback.FieldAfterRollback: what a patch gives to an entity depends here only on the entity's key. Columns it adds to the entity's table of lines, and formulas that name that table, also read the merged definition of the entity, so a leftover that brings another table of lines could change them without bringing a role. The same holds for `ConfigReach.PackWinner` and `ConfigAfterRemoval.FieldAfterRemoval`.
- ConfigRemoval.InstallKeepsFields: the company's choices between its own items and those of a new pack come in as its resulting layer.
- ConfigMerge.MergeInGroups: tax setups of companies, parameters replaced in packs, columns that patches add to tables, and the test of whether an entity is complete are not part of it.
- OrgService.OrgUnits.Create: codes (and that no two units share one), names, types and custom fields of units. The command is taken to read and write at one moment; a later commit is the subject of `OrgRaces.LateCreateFits`.
- OrgService.OrgUnits.MoveUnit: taken to read and write at one moment; a later commit is the subject of `OrgRaces.LateMoveFits`.
- OrgService.OrgUnits.Deactivate: taken to read and write at one moment; a later commit is the subject of `OrgRaces.LateDeactivateFits`.
- OrgService.OrgUnits.Bootstrap: taken to read and write at one moment; a later commit is the subject of `OrgRaces.LateBootstrapFits`.
- OrgPaths.DeliveriesCatchUp: events are handled in the order the moves were made; for other orders the code gives no such guarantee.
- Uniques.RecordStore.Update: values are texts, `updatedAt` is a version that every write changes, the configuration that a write reads is the current one, and defaults, rules, references, permissions and locked fields are decided before the write.
- Numbering.CounterStore.NextNumber: the cache of the effective configuration.
- NumberingMeaning.SamePeriod: dates whose year is written with four digits.
- WorkflowOutcomes.ActionRefused: whether a user may take an action, by permission, as requester or by role, comes in as one answer, and so does whether a condition holds.
- Formula functions other than the lazy and context-reading ones, and the conversions between numbers and texts, are parameters of the evaluator.
- Numbers are whole or real numbers; floating point is not modelled.
- Differences between configurations as text, previews of packs, amounts with currencies, and Hindi words.
- Login, tokens, mail, messages, files, PDF, the web application, HTTP routes, schemas and service clients.
- The database: single updates and transactions are atomic and unique indexes hold.
