# MoneyMap core, modelled in Dafny

MoneyMap is a personal-finance app. It tracks recurring bills and credit cards, lays out the coming paydays, and splits each paycheck's savings among goals. This project models the app's pure decision logic as immutable Dafny datatypes and functions, and proves properties of it:

- **Bills** (`bills.dfy`, `bill_list.dfy`):
  - the bill status state machine (`checkStatus`) and `makePayment`;
  - the credit-card metrics;
  - the sorting comparators;
  - the list aggregates;
  - the `due(_:)` timeframe buckets.
- **Dates** (`calendar.dfy`, `date_ext.dfy`):
  - a civil proleptic-Gregorian calendar of whole days, with month and year addition that clamps to the end of the month;
  - the "days until" caption;
  - the extra-payday rule, under which the third payday of a calendar month is a bonus payday.
- **Payday grid** (`payday_view.dfy`): `batchedPaydays`, which lays out paydays in rows of one or two.
- **Goals** (`goal.dfy`, `goals_view.dfy`, `savings_view.dfy`, `grid_view.dfy`):
  - goal arithmetic;
  - the urgency-weighted paycheck split, which exists in two copies that are proved equal;
  - saving a paycheck and resetting savings;
  - the priority levels and the edit actions of the goal grid.
- **Bill screens** (`bill_editor.dfy`, `bill_view.dfy`):
  - the editor's keyboard focus order;
  - the recurrence stepper;
  - the bill the editor saves;
  - the detail screen's own 30% advice. It uses `>= 0.3`, unlike the card's `> 0.3`, and the two are kept apart.

Supporting modules:

- `wrappers.dfy`: `Option`.
- `text.dfy`: string ordering and decimal digits.
- `seqs.dfy`: generic filter, sum and insertion sort with their lemmas.

Conventions:

- Every clock read becomes a parameter. This covers today's date, the first day of next month, and a goal's days until its deadline.
- Money is `real`.
- Swift object identity of goals is an `id` field. Lists of goals are required to have distinct ids.
- The two copies of `Goal.swift` have the same logic and are modelled once, in `goal.dfy`.

Two behaviours of the code worth knowing:

- `checkStatus` is not idempotent. A non-credit-card bill that rolls over onto today is reported as upcoming, and a second evaluation auto-pays it. See `Bills.CheckStatusStable` and `Bills.RolledOntoTodayIsNotStable`.
- The timeframes of `due(_:)` are not a partition. "This week" (2 to 7 days away) and "later" (on or after the first of next month) overlap near a month's end. See `BillList.ThisWeekAndLaterOverlap`.

## Model

| member | source | states |
|---|---|---|
| Bills.StatusEqualsIsEquality | MoneyMap/Data/Bills.swift:195-206 | Status equality (upcoming statuses compared by day) is exactly equality of whole-day statuses |
| Bills.Utilization | MoneyMap/Data/Bills.swift:94-96 | the utilization times the limit is the balance, for a non-zero limit |
| Bills.UtilizationAbove | MoneyMap/Data/Bills.swift:94-104 | utilization above t means a balance above t·limit for a positive limit and below it for a negative limit; with a zero limit the division gives +∞ for a positive balance and NaN or −∞ otherwise, so exactly a positive balance counts |
| Bills.OverExcellentThreshold | MoneyMap/Data/Bills.swift:98-100 | a card with a non-negative limit and nothing owed is never above 10% |
| Bills.OverUtilized | MoneyMap/Data/Bills.swift:102-104 | a card above 30% is also above 10% |
| Bills.RecommendedPayment | MoneyMap/Data/Bills.swift:94-115 | the card payment before cent rounding: with a non-zero limit, paying it leaves exactly 30% utilization when over 30% and exactly 10% when over 10%; it is 0 at or below 10%; with a zero limit it is the whole balance when that is positive, else 0; it is never negative for a non-negative limit |
| Bills.RecommendedPaymentTiers | MoneyMap/Data/Bills.swift:99-115 | over-utilized implies over the excellent threshold; the three tiers give 0, balance − 0.1·limit and balance − 0.3·limit |
| Bills.RecommendedPaymentExample | MoneyMap/Data/Bills.swift:107-115 | a 1000 limit with a 400 balance is advised to pay 100 |
| Bills.Advance | MoneyMap/Data/Bills.swift:343-352 | one recurrence step moves the due day by n days, 7n days, n calendar months or n years; for months and years the day of the month is kept when the target month has it and is otherwise the target month's last day; the step is strictly forward for n ≥ 1 |
| CalendarMath.AddMonths | MoneyMap/Data/Bills.swift:348-349 | month addition moves the month index by exactly n and keeps the day unless the target month is shorter |
| CalendarMath.EndOfMonthClamping | MoneyMap/Data/Bills.swift:348-349 | adding a month to 31 January lands on the last day of February |
| CalendarMath.AddYears | MoneyMap/Data/Bills.swift:350-351 | year addition keeps the month, and the day unless the target month is shorter, when it becomes that month's last day |
| Bills.CheckStatus | MoneyMap/Data/Bills.swift:317-382 | the resulting status agrees with the dates; only dates and status change; no due date gives overdue with nothing else changed; a credit-card bill never gets a payment date set; a new payment date is the due date of a non-credit-card bill that is due; a changed due date is one recurrence step and clears the payment date |
| Bills.CheckStatusRollsOver | MoneyMap/Data/Bills.swift:331-367 | a paid bill whose due day has passed advances one step, is unpaid, and is upcoming on the new due day iff that day is not before today, otherwise overdue |
| Bills.CheckStatusMissingRecurrence | MoneyMap/Data/Bills.swift:334-341 | without a recurrence unit or interval an elapsed paid bill is overdue and keeps its due date |
| Bills.CheckStatusStillPaid | MoneyMap/Data/Bills.swift:368-371 | a paid bill on or before its due day stays paid with its dates unchanged |
| Bills.CheckStatusUnpaid | MoneyMap/Data/Bills.swift:372-381 | an unpaid bill is upcoming on its due day iff that day is today or later, overdue iff it is earlier |
| Bills.RolloverMovesForward | MoneyMap/Data/Bills.swift:343-354 | with a positive interval a rolled due date is strictly later |
| Bills.CheckStatusStable | MoneyMap/Data/Bills.swift:317-382 | a second evaluation on the same day changes nothing, except for a non-credit-card bill rolled onto today or still overdue after its step |
| Bills.RolledOntoTodayIsNotStable | MoneyMap/Data/Bills.swift:326-361 | a monthly utility bill rolled onto today is upcoming after one evaluation and paid after the next |
| Bills.MakePayment | MoneyMap/Data/Bills.swift:178-185 | only the card details, due date, payment date and status change; the card balance drops by exactly the amount (no floor) and the limit stays; a bill without a card keeps none; the resulting status agrees with the dates; on or before the due day the bill is paid with that day as payment date, after it the bill rolls one period or is overdue without a recurrence |
| Bills.OnTimePaymentIsSettled | MoneyMap/Data/Bills.swift:178-185 | a payment on or before the due day leaves the bill paid, and evaluating its status the same day changes nothing |
| Bills.PaymentsAccumulate | MoneyMap/Data/Bills.swift:178-185 | two payments on one day leave the same card details as one payment of their sum |
| Bills.PayingRecommendedReachesThreshold | MoneyMap/Data/Bills.swift:107-115 | paying the card's recommended amount brings it to exactly the threshold it exceeded |
| Bills.ByStatusDateUtilizationKeys | MoneyMap/Data/Bills.swift:280-312 | unpaid before paid; paid bills by utilization descending then date; unpaid bills by date then utilization ascending; name last |
| Bills.ByStatusDateUtilizationStrictOrder | MoneyMap/Data/Bills.swift:280-312 | the credit-card ordering is a strict weak order on cards with a usable limit: irreflexive, transitive, and "neither before the other" is transitive |
| Bills.ByStatusDateUtilizationTies | MoneyMap/Data/Bills.swift:280-312 | two cards are unordered iff they agree on paid flag, due date, utilization and name (missing read as "") |
| Bills.ByStatusDateUtilization | MoneyMap/Data/Bills.swift:280-312 | an unpaid card sorts before a paid one, and a paid card never sorts before an unpaid one |
| Bills.ByDate | MoneyMap/Data/Bills.swift:246-253 | an earlier due day, or a missing one against a present one, sorts first; a bill never sorts before one due earlier; on the same due date the larger amount sorts first |
| Bills.ByBalance | MoneyMap/Data/Bills.swift:262-269 | the lower card balance sorts first, never the higher; on equal balances the larger amount sorts first |
| Bills.ByLimit | MoneyMap/Data/Bills.swift:271-278 | the lower credit limit sorts first, never the higher; on equal limits the larger amount sorts first |
| Bills.ByName | MoneyMap/Data/Bills.swift:255-260 | named bills sort in string order of their names; a bill never sorts before a differently named one whose name (missing read as "") is smaller; an unnamed bill does not sort before a bill named "" |
| Bills.ByDateStrictOrder | MoneyMap/Data/Bills.swift:246-253 | the due-date ordering (amount descending on the same day) is a strict weak order: irreflexive, transitive, and "neither before the other" is transitive |
| Bills.ByBalanceAndLimitStrictOrder | MoneyMap/Data/Bills.swift:262-278 | the balance and limit orderings are strict weak orders |
| Bills.ByNameIsNotStrictWeakOrder | MoneyMap/Data/Bills.swift:255-260 | the name ordering as written violates transitivity of incomparability for "" versus missing names |
| Bills.ByNameOrEmptyIsStrictWeakOrder | MoneyMap/Data/Bills.swift:255-260 | comparing names with a missing name read as "" throughout is a strict weak order |
| BillList.CreditCards | MoneyMap/Data/Bills.swift:479-483 | exactly the credit-card bills of the list |
| BillList.WithoutCreditCards | MoneyMap/Data/Bills.swift:473-477 | exactly the other bills of the list |
| BillList.CategorySplit | MoneyMap/Data/Bills.swift:473-483 | the two filters together hold every bill exactly as often as the list does |
| BillList.TotalAmount | MoneyMap/Data/Bills.swift:469-471 | the sum over the bills that have an amount; non-negative when no amount is negative |
| BillList.TotalBalance | MoneyMap/Data/Bills.swift:485-487 | the sum over all bills of the card balance of the credit cards, any other bill counting 0 even when it stores a balance |
| BillList.TotalCreditLimit | MoneyMap/Data/Bills.swift:489-491 | the sum over all bills of the credit limit of the credit cards, any other bill counting 0 |
| BillList.TotalAmountSplits | MoneyMap/Data/Bills.swift:469-483 | the total amount is the credit-card total plus the total of the rest |
| BillList.TotalsAppend | MoneyMap/Data/Bills.swift:469-491 | amount, balance and limit totals add over concatenated lists |
| BillList.CreditCardUtilization | MoneyMap/Data/Bills.swift:493-495 | 0 for a zero total limit, otherwise the quotient of total balance by total limit |
| BillList.RecommendedPayment | MoneyMap/Data/Bills.swift:497-504 | absent iff the total balance is at most 10% of the total limit; a present value is positive and paying it leaves exactly 10% |
| BillList.ByDateSortable | MoneyMap/Data/Bills.swift:569 | the due-date ordering handed to `sorted(by:)` is a strict weak order on all bills, hence irreflexive and transitive as the insertion sort needs |
| BillList.InTimeframe | MoneyMap/Data/Bills.swift:513-566 | only bills with a due date are in a timeframe; "today" holds exactly the bills due today, "tomorrow" exactly those due the next day, "overdue" exactly those due before today |
| BillList.Due | MoneyMap/Data/Bills.swift:506-570 | each bill occurs as often as in the list if it is not a credit card and lies in the timeframe, otherwise not at all; the result is sorted by due date |
| BillList.DueDaysAscend | MoneyMap/Data/Bills.swift:569 | due days never decrease along the result |
| BillList.NearBucketsDisjoint | MoneyMap/Data/Bills.swift:514-541 | overdue, today, tomorrow and this week never share a bill |
| BillList.BucketsCover | MoneyMap/Data/Bills.swift:513-566 | every dated bill lies in some timeframe |
| BillList.ThisWeekAndLaterOverlap | MoneyMap/Data/Bills.swift:535-566 | a bill due early next month can be both this week and later |
| DateExtensions.DaysUntil | MoneyMap/Extensions/Date.swift:15-31 | "Overdue" iff the day is past, "Today" iff it is today, "Tomorrow" iff it is one day away, else the decimal day count without leading zero followed by " Days" |
| DateExtensions.DaysUntilOnlyDependsOnDistance | MoneyMap/Extensions/Date.swift:15-31 | the caption depends only on the day difference |
| DateExtensions.DaysUntilExamples | MoneyMap/Extensions/Date.swift:15-31 | concrete captions across February 2024's end |
| DateExtensions.IsExtraPayDay | MoneyMap/Extensions/Date.swift:33-47 | only a day of the list can be an extra payday |
| DateExtensions.ExtraPayDayMonthHasThree | MoneyMap/Extensions/Date.swift:41-46 | the month of an extra payday holds at least three paydays of the list |
| DateExtensions.NotListedIsNotExtra | MoneyMap/Extensions/Date.swift:38-40 | a day not in the list is never an extra payday |
| DateExtensions.ExtraIffTwoEarlier | MoneyMap/Extensions/Date.swift:41-46 | a listed day is extra iff exactly two paydays of its month precede its first occurrence |
| DateExtensions.FirstPaydayIsNotExtra | MoneyMap/Extensions/Date.swift:41-46 | the first payday of the list is never extra |
| DateExtensions.FirstTwoOfMonthAreNotExtra | MoneyMap/Extensions/Date.swift:41-46 | the first and second paydays of a month are never extra |
| DateExtensions.AtMostOneExtraPerMonth | MoneyMap/Extensions/Date.swift:41-46 | two different days of one month are never both extra |
| DateExtensions.ExtraPayDayIsLate | MoneyMap/Extensions/Date.swift:41-46 | in an ascending schedule an extra payday is on the 3rd of its month or later |
| DateExtensions.ThirdPaydayIsExtra | MoneyMap/Extensions/Date.swift:33-47 | with biweekly paydays the third March 2024 payday is extra |
| DateExtensions.SecondPaydayIsNotExtra | MoneyMap/Extensions/Date.swift:33-47 | with biweekly paydays the second March 2024 payday is not extra |
| PaydayView.NextRow | MoneyMap/Views/Pay/PaydayView.swift:94-115 | the next row takes the next one or two paydays in order, its bonus flags are the extra-payday flags, it is priority iff it starts with the first or an extra payday, and a lone non-priority payday is last or followed by a priority one |
| PaydayView.BatchedPaydays | MoneyMap/Views/Pay/PaydayView.swift:90-119 | the rows' paydays concatenate to the input; no rows iff no input; every row has one or two paydays with matching bonus flags; a row is priority iff it is the first or starts with an extra payday, and priority rows are single; a lone non-priority payday is last or followed by a priority row |
| PaydayView.ExtraPaydayStandsAlone | MoneyMap/Views/Pay/PaydayView.swift:95-110 | every extra payday sits alone in a priority row |
| Goals.WeightRoundTrip | MoneyMap/Data/Goal.swift:24-28 | reading the weight after setting it gives the value set, and nothing else changes |
| Goals.Goal.Weight | MoneyMap/Data/Goal.swift:24-28 | the stored weight, or 1 for a goal stored without one |
| Goals.Goal.SetWeight | MoneyMap/Data/Goal.swift:24-28 | stores the weight and changes nothing else |
| Goals.Goal.Remaining | MoneyMap/Data/Goal.swift:42-44 | never negative; the shortfall to the target while below it, 0 once reached |
| Goals.Goal.ExpectedAmount | MoneyMap/Data/Goal.swift:66-69 | 0 for no paydays or no per-paycheck amount; one payday gives the per-paycheck amount; non-negative for a non-negative amount |
| Goals.Goal.Progress | MoneyMap/Data/Goal.swift:71-77 | 0 for a non-positive target; otherwise progress times target is the saved amount, and a reached target gives at least 1 |
| Goals.Goal.AddUrl | MoneyMap/Data/Goal.swift:50-58 | unparsable text changes nothing; a parsed link is appended to the list, or starts it, and nothing else changes |
| Goals.NewGoal | MoneyMap/Data/Goal.swift:33-40 | a new goal keeps its arguments, has the given weight, nothing saved and no links, and a per-paycheck amount that reaches the target over the given paydays |
| Goals.NewGoalOnSchedule | MoneyMapShared/Goal.swift:32-39 | after the planned number of paydays a new goal's expected amount is its target |
| Goals.ExpectedAmountLinear | MoneyMap/Data/Goal.swift:66-69 | the expected amount is additive in the number of paydays |
| Goals.RemainingIffUnfinished | MoneyMapShared/Goal.swift:41-43 | for a positive target a goal still needs money iff its progress is below 1 |
| Goals.AddUrlKeepsOrder | MoneyMap/Data/Goal.swift:50-58 | links added in turn are appended in order, starting from an empty list when there was none |
| GoalsView.Urgency | MoneyMap/Views/Goals/GoalsView.swift:126 | positive; the reciprocal of the days left when positive, else 1 |
| GoalsView.Participants | MoneyMap/Views/Goals/GoalsView.swift:122 | exactly the goals that still need money |
| GoalsView.Allocation | MoneyMap/Views/Goals/GoalsView.swift:135-136 | a goal's allocation is the smaller of its remaining amount and its share |
| GoalsView.Distribute | MoneyMap/Views/Goals/GoalsView.swift:121-140 | keys are exactly the goals still needing money; fully funded goals get nothing; each allocation is at most the remaining amount and equals the capped share |
| GoalsView.SharesSumToTotal | MoneyMap/Views/Goals/GoalsView.swift:131-136 | the uncapped shares of all participants add up to the whole amount |
| GoalsView.DistributeWithinTotal | MoneyMap/Views/Goals/GoalsView.swift:131-137 | with a non-negative amount and positive weights every allocation is non-negative and together they do not exceed the amount |
| GoalsView.DistributeHandsOutAllWhenUncapped | MoneyMap/Views/Goals/GoalsView.swift:131-137 | when no goal is capped the whole amount is handed out |
| GoalsView.ShareFollowsWeightedValue | MoneyMap/Views/Goals/GoalsView.swift:126-136 | one goal's uncapped share is below another's iff its urgency-weighted value is |
| GoalsView.UrgencyOrder | MoneyMap/Views/Goals/GoalsView.swift:126-127 | a nearer positive deadline gives a larger urgency; a deadline today or past counts like one day left |
| GoalsView.ImportantAndUrgentFirst | MoneyMap/Views/Goals/GoalsView.swift:121-140 | with equal days left the heavier goal gets the larger share; with equal positive weights the goal due sooner does |
| GoalsView.EvenSplitExample | MoneyMap/Views/Goals/GoalsView.swift:121-140 | two equal goals splitting 50 get 25 each |
| GoalsView.CappedSplitExample | MoneyMap/Views/Goals/GoalsView.swift:121-140 | a goal missing only 10 is capped at 10 while the other gets its 25 |
| GoalsView.Credit | MoneyMap/Views/Goals/GoalsView.swift:113-116 | a goal gains exactly its allocated amount, or is unchanged without one |
| GoalsView.SavePaycheckAmount | MoneyMap/Views/Goals/GoalsView.swift:110-119 | unparsable input changes nothing; otherwise only the savings of goals change |
| GoalsView.SaveCreditsSplit | MoneyMap/Views/Goals/GoalsView.swift:110-119 | each goal gains exactly its allocation when it has one and is unchanged otherwise |
| GoalsView.SaveNeverDecreases | MoneyMap/Views/Goals/GoalsView.swift:110-119 | with a non-negative amount and positive weights no goal's savings decrease |
| GoalsView.ResetSavings | MoneyMap/Views/Goals/GoalsView.swift:96-101 | every goal's savings become 0 and nothing else changes |
| GoalsView.ResetRestartsProgress | MoneyMap/Views/Goals/GoalsView.swift:96-101 | after a reset a goal with a positive target has progress 0 and needs its whole target |
| GoalsView.ResetIdempotent | MoneyMap/Views/Goals/GoalsView.swift:96-101 | resetting twice is resetting once |
| SavingsView.CalculateSavingsDistribution | MoneyMap/Views/SavingsView.swift:64-83 | no participants give an empty map; keys are exactly the goals still needing money; each value is at most the remaining amount |
| SavingsView.SameSplitAsGoalsView | MoneyMap/Views/SavingsView.swift:64-83 | the savings screen's split equals the goals screen's split on every input |
| SavingsView.SavePaycheckAmount | MoneyMap/Views/SavingsView.swift:91-101 | without a parsable amount or without settings nothing changes; otherwise the first settings record stores the amount, the others are unchanged, and the split is recomputed for that amount |
| GridView.FromRawValue | MoneyMap/Views/Goals/GridView.swift:171-172 | reading a raw value gives the case declared with it, and nothing for any other number |
| GridView.ValueIsRawValue | MoneyMap/Views/Goals/GridView.swift:171-216 | each priority's value is its raw value, and reading that raw value back gives the priority |
| GridView.Value | MoneyMap/Views/Goals/GridView.swift:207-216 | high weighs 2, medium 1, low 0.5 |
| GridView.ValuesOrdered | MoneyMap/Views/Goals/GridView.swift:207-216 | low < medium < high |
| GridView.LowCaptionMisspelled | MoneyMap/Views/Goals/GridView.swift:174-183 | the low priority's caption as written is not "Low" |
| GridView.NameAsWritten | MoneyMap/Views/Goals/GridView.swift:174-183 | as written, high and medium get their own words, and the caption is "Loa" exactly for low |
| GridView.Name | MoneyMap/Views/Goals/GridView.swift:174-183 | each priority's caption is its own word, and no two share one |
| GridView.ChoosePriority | MoneyMap/Views/Goals/GridView.swift:104-108 | the goal's weight becomes the priority's value and nothing else changes |
| GridView.AddAmount | MoneyMap/Views/Goals/GridView.swift:137-139 | savings grow by exactly the typed amount; empty input leaves the goal unchanged |
| GridView.SaveTotal | MoneyMap/Views/Goals/GridView.swift:140-142 | savings become the typed amount, or 0 for empty input |
| GridView.AddIsSaveOfSum | MoneyMap/Views/Goals/GridView.swift:137-142 | adding an amount equals saving the old total plus that amount |
| GridView.SaveTotalOverwrites | MoneyMap/Views/Goals/GridView.swift:140-142 | saving twice is saving the second total |
| GridView.AddAmountsAccumulate | MoneyMap/Views/Goals/GridView.swift:137-139 | adding in two steps is adding the sum |
| GridView.AddUneditedDoubles | MoneyMap/Views/Goals/GridView.swift:134-139 | the field first holds the savings the goal had when the grid cell was created, so a first "Add Amount" without editing doubles them |
| GridView.UneditedAddsRepeatFirstValue | MoneyMap/Views/Goals/GridView.swift:134-139 | the field keeps its value after an action, so a second unedited "Add Amount" adds the original savings again, giving three times them |
| GridView.SaveUneditedKeeps | MoneyMap/Views/Goals/GridView.swift:134-142 | "Save Total" without editing leaves the goal unchanged |
| GridView.SaveTarget | MoneyMap/Views/Goals/GridView.swift:149-151 | the target becomes the typed amount, or 0 for empty input, and nothing else changes |
| GridView.GridRemaining | MoneyMap/Views/Goals/GridView.swift:163-165 | the grid's remaining amount agrees with the goal's own |
| BillEditor.Fields | MoneyMap/Views/Bills/BillEditor.swift:128-131 | name then amount first; the card fields are present iff the category is credit card; no field repeats |
| BillEditor.MoveFocus | MoneyMap/Views/Bills/BillEditor.swift:126-143 | the result is always a shown field; no focus or a hidden focus goes to the first field; an in-range move goes to the field that many places on; an out-of-range move keeps the focus |
| BillEditor.NextThenPrevious | MoneyMap/Views/Bills/BillEditor.swift:139-142 | "next" then "previous" returns to the starting field when "next" had somewhere to go |
| BillEditor.MoveFromPosition | MoneyMap/Views/Bills/BillEditor.swift:139-142 | from the field at position i a move lands on the field `direction` places on, or stays put when that leaves the list |
| BillEditor.AmountIsLastUnlessCreditCard | MoneyMap/Views/Bills/BillEditor.swift:128-142 | "next" from the amount stays put unless the card fields are shown, then reaches the credit limit |
| BillEditor.HiddenFocusResets | MoneyMap/Views/Bills/BillEditor.swift:133-137 | a focus left on a hidden card field jumps to the name |
| BillEditor.Step | MoneyMap/Views/Bills/BillEditor.swift:67 | a stepper press moves the interval by one within 1...12 and does nothing at the ends |
| BillEditor.StepUndo | MoneyMap/Views/Bills/BillEditor.swift:67 | "−" undoes "+" below 12 and "+" undoes "−" above 1 |
| BillEditor.Press | MoneyMap/Views/Bills/BillEditor.swift:25 | any series of presses from the initial 1 keeps the interval within 1...12 |
| BillEditor.PressUpSaturates | MoneyMap/Views/Bills/BillEditor.swift:67 | n presses of "+" from 1 reach n + 1, but never more than 12 |
| BillEditor.PressReachesEveryValue | MoneyMap/Views/Bills/BillEditor.swift:67 | every interval in 1...12 is reachable |
| BillEditor.SaveBill | MoneyMap/Views/Bills/BillEditor.swift:145-159 | the new bill holds the form's values, has no payment date or status, and carries card details iff it is a credit card, with the typed limit and balance |
| BillEditor.SavedCardFigures | MoneyMap/Views/Bills/BillEditor.swift:150-155 | a saved bill's balance and limit count only for a credit card |
| BillEditor.HiddenCardFieldsIgnored | MoneyMap/Views/Bills/BillEditor.swift:150-155 | what is typed into the card fields of a non-card bill is discarded |
| BillEditor.DefaultLimitCard | MoneyMap/Views/Bills/BillEditor.swift:29 | a credit card saved with the limit left at its default 0 and a positive balance is over-utilized and is advised to pay the whole balance |
| BillView.ViewRecommendedPayment | MoneyMap/Views/Bills/BillView.swift:103-116 | nothing without card details; otherwise absent iff balance − 0.3·limit < 0, and a present value is non-negative and equals that difference |
| BillView.AboveMax | MoneyMap/Views/Bills/BillView.swift:118-126 | no warning without card details; with a positive limit the warning shows iff the balance is at least 30% of it, with a negative limit iff it is at most 30% of it, and with a zero limit iff the balance is positive |
| BillView.AboveMaxIffPaymentRecommended | MoneyMap/Views/Bills/BillView.swift:103-126 | for a positive limit the warning (balance/limit ≥ 0.3) shows iff a payment is recommended |
| BillView.NoCardNoAdvice | MoneyMap/Views/Bills/BillView.swift:105-107 | without card details there is neither a warning nor a recommendation |
| BillView.ZeroLimitEmptyCard | MoneyMap/Views/Bills/BillView.swift:109-125 | with a zero limit and zero balance there is no warning but a recommendation of 0 |
| BillView.ZeroLimitOwing | MoneyMap/Views/Bills/BillView.swift:109-125 | with a zero limit and a positive balance the warning shows and the whole balance is recommended |
| BillView.ThresholdDiffersFromCard | MoneyMap/Views/Bills/BillView.swift:118-126 | at exactly 30% the screen warns and recommends 0, while the card is not over-utilized and advises paying down to 10% |
| BillView.PayingRecommendationReachesThirtyPercent | MoneyMap/Views/Bills/BillView.swift:109-115 | paying the screen's recommendation leaves a positive-limit card at exactly 30% |

## Left out

- Persistence, CloudKit sync, notifications, file and image I/O, and network access are side effects with no logic to model. This covers SwiftData models and contexts, `saveImageToDocuments`, `loadImage`, `imageURL` and `Bill.setImage`.
- The payday scheduler (`PaydayManager`, `upcomingPaydaysForNextYear`, `numberOfPaydaysUntil`, `daysUntilNextPayday`) is not part of this model. The payday list reaches `isExtraPayDay` and `batchedPaydays` as an arbitrary sequence of days.
- `PaydayConfig` is not part of this model either. Only the fields the savings screen reads or writes are represented, in `SavingsView.PaydayConfig`.
- The clock is a parameter in four places:
  - the current day (`today`);
  - the first day of next month in `due(_:)` (`nextMonth`);
  - a goal's `daysUntilDeadline` (`daysUntil`, a function from deadline to days);
  - the payment day in `makePayment`.

  Time zones and daylight saving are not modelled, and all dates are whole days.
- `isExtraPayDay` finds the payday with `firstIndex(of:)`, which compares exact instants. The model compares whole days, so it assumes the payday list holds start-of-day dates.
- `URL(string:)` is a parameter `parse` of `Goals.Goal.AddUrl`. `Double(String)` parsing reaches the save actions as an optional number. `imageURL?.lastPathComponent` reaches `Goals.NewGoal` as the resulting file name.
- Floating point behaviour is not modelled: money is exact `real`. The exception is a zero credit limit in `aboveMax`, where the infinities and NaN of the division are written out.
- Bills.RecommendedPayment: states the value before `roundedToCents`; rounding to cents is left out because it is a floating-point formatting step.
- Goals.NewGoal: requires a non-zero number of paydays, because the division by zero yields an infinity or NaN that exact reals cannot represent.
- GoalsView.Distribute: requires the total weight of the participating goals to be non-zero (`Splittable`), for the same reason. So do `GoalsView.SavePaycheckAmount`, `SavingsView.CalculateSavingsDistribution` and `SavingsView.SavePaycheckAmount`, which compute the same split.
- Bills.Utilization: requires a non-zero limit, because the quotient is an infinity or NaN that exact reals cannot represent. A zero limit is the editor's default (MoneyMap/Views/Bills/BillEditor.swift:29), so `OverUtilized`, `OverExcellentThreshold` and the card's recommendation do handle it: they write out how the infinity or NaN compares.
- Bills.ByStatusDateUtilization: requires both bills' limits to be non-zero (`UsableLimit`). IEEE comparisons of NaN and infinite utilizations are not modelled in the credit-card ordering.
- Bills.ByStatusDateUtilization: the source compares raw due-date instants (MoneyMap/Data/Bills.swift:288-289, 298-299, 303-304), and due dates keep the time of day at which they were entered or rolled over. Two cards due on the same day are therefore ordered by time of day in the app. The model keeps whole days only, so it treats them as tied and orders them by utilization, then name.
- `Calendar.current` is assumed to be Gregorian. Under a user calendar with other months, the month and year test of `isExtraPayDay` (MoneyMap/Extensions/Date.swift:35-43) and the calendar arithmetic differ from this model.
- The `print` logging calls in the savings screen's `savePaycheckAmount` (MoneyMap/Views/SavingsView.swift:94, 98) are dropped, because they are console output only.
- The sorting in `due(_:)` is modelled by an insertion sort that satisfies the same contract: sorted, same elements. Which stable order Swift's `sorted(by:)` picks among equal keys is not modelled.
- Out of scope: presentation-only members, among them `Status.name` and `Status.color`, the category names, icons and colors, `Priority.icon` and `Priority.color`, `abbreviatedCurrency`, and the random sample data. `calculateTotal` is asynchronous and also out.
- Swift `Int` overflow in day counts and recurrence steps is not modelled; integers are unbounded.
- Bills.CheckStatus: `calendar.date(byAdding:)` returns an optional date, and a nil result makes the rolled bill overdue (MoneyMap/Data/Bills.swift:343-352, 365-366). The model's `Advance` always yields a date, because day, week, month and year arithmetic on a valid Gregorian date always has one, so that branch is not modelled.
- Bills.ByName: `StringLess` compares strings by code point. Swift's `String` `==` and `<` compare by Unicode canonical equivalence, so two differently encoded but canonically equal names are equal in Swift and distinct here.

## Findings

A note beside the table: the grid's amount field starts out holding the savings the goal had when the grid cell was created (MoneyMap/Views/Goals/GridView.swift:15); line 135 only sets the placeholder. The first "Add Amount" without editing therefore doubles the savings (`GridView.AddUneditedDoubles`), while "Save Total" without editing keeps them (`GridView.SaveUneditedKeeps`). After any action the field keeps its last value rather than the new savings, so a later unedited "Add Amount" adds that earlier value again (`GridView.UneditedAddsRepeatFirstValue`). The alert's message shows the savings too, so this may be a deliberate shortcut. It is recorded as a property and not as a defect.

| source | as written | input that shows it | evidently intended | confidence | as-written member | corrected member |
|---|---|---|---|---|---|---|
| MoneyMap/Data/Bills.swift:255-260 | `byName` tests names for equality as optionals but orders them with a missing name read as "" | bills named "" (amount 3), unnamed (amount 5), "" (amount 1): the unnamed bill is unordered against both, yet the two "" bills are ordered, so `sorted(by:)` gets no strict weak order | compare `name ?? ""` in both places | high, not executed | Bills.ByNameIsNotStrictWeakOrder | Bills.ByNameOrEmptyIsStrictWeakOrder |
| MoneyMap/Views/Goals/GridView.swift:174-183 | the low priority is captioned "Loa" | `Priority.low.name` | "Low" | high, not executed | GridView.LowCaptionMisspelled | GridView.Name |
