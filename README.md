# TimeBudget core in Dafny

TimeBudget is a weekly time-budgeting application. A user sets aside the week's fixed blocks
(sleep, work, meals, hygiene, transport), and the rest of the week's 10080 minutes is
available. Against that budget they log activities, rank up to four active priorities, reserve
non-overlapping calendar blocks, record activities they drop ("eliminations"), and close each
week with a review.

This project models the core of the backend and two of the client's utility modules.

- **Domain entities.** The budget arithmetic, the Monday-midnight week start, the review
  percentages, block overlap and the range validators are pure functions. The source's
  properties are proved about them as lemmas.
- **`Result` and the error taxonomy.** `Result` is a two-variant datatype. `DomainError` has one
  constructor per error class, and functions give each error's code, HTTP status, name,
  message and JSON form.
- **Repositories.** Each Prisma repository is a Dafny `class` whose table is a `seq` field and
  whose ids come from a counter field.
  - The `find*` queries are functions (`reads this`). They state the `where` filter, the
    `orderBy` order, and the limit and offset.
  - `create`, `update`, `delete`, `complete`, `reorder` and `seedDefaults` are methods
    (`modifies this`). Their `ensures` give the whole new table in terms of the old one.
  - Each class's `Valid()` invariant states that ids are unique and below the counter. Where
    the database has a unique key (one budget and one review per user and week, one user
    per lower-cased e-mail, one category per name), `Valid()` states that too.
- **Use cases.** Each `execute` is a Dafny method or function over the repositories it uses.
  - Its checks run in the source's order and end in the source's `Result`.
  - Its `ensures` state that a failure leaves every table unchanged.
  - Where the source relies on an invariant, the method preserves it: budgets never overbook
    the week, and a user's calendar blocks stay pairwise disjoint.
  - The limit of four active priorities is kept by `CreatePriority` and by the corrected
    `UpdatePriorityWithinLimit`. The source's own update, `UpdatePriority`, does not keep it
    (see "## Findings").
- **Client utilities.** These are the integer `formatMinutes` and every validator, with the
  e-mail regular expression stated as a pattern and proved equivalent to the executable check.

Instants are integer milliseconds since 1970-01-01 00:00 local time, and weekdays use
`Date.getDay` numbering (1970-01-01 was a Thursday). The current time, the password hasher,
the password comparer and the token generator are parameters. `Math.round(p / q)` is modelled
exactly on rationals, as `floor((2p + q) / 2q)`. Client-side numbers, which are JavaScript
doubles, are Dafny `real`s.

The repositories are kept as separate classes, as in the source, rather than one store
object. Each use case then names only the repositories it writes in its `modifies` clause.

## Model

| member | source | states |
|---|---|---|
| TimeBudgetEntity.AvailablePlusBaseIsWeek | backend/src/domain/entities/time-budget.entity.ts:48-57 | Available plus the five base blocks is always 10080, with no clamping: available is negative exactly when the blocks exceed the week. |
| TimeBudgetEntity.FloorDiv60 | backend/src/domain/entities/time-budget.entity.ts:63 | `Math.floor(m / 60)` is the h with 60h ≤ m < 60h + 60, negative m included. |
| TimeBudgetEntity.JsRem60 | backend/src/domain/entities/time-budget.entity.ts:64 | JavaScript's `%` keeps the dividend's sign: in [0,60) for m ≥ 0, in (-60,0] for m < 0, and congruent to m mod 60. |
| TimeBudgetEntity.FormatSplitsMinutes | backend/src/domain/entities/time-budget.entity.ts:62-69 | For m ≥ 0 the printed hours and minutes satisfy 60h + min = m with 0 ≤ min < 60. |
| TimeBudgetEntity.ParseFormatMinutes | backend/src/domain/entities/time-budget.entity.ts:62-69 | Reading the "{m}m", "{h}h" or "{h}h {m}m" text back gives the original non-negative count, so no information is lost. |
| TimeBudgetEntity.FormatNegativeMinutes | backend/src/domain/entities/time-budget.entity.ts:62-69 | A negative count prints a floored hour next to a negative remainder: -30 prints as "-1h -30m". |
| TimeBudgetEntity.TimeOfDay | backend/src/domain/entities/time-budget.entity.ts:79 | The time of day is in [0, 1 day) and, added to the day's midnight, gives back the instant. |
| TimeBudgetEntity.WeekDay | backend/src/domain/entities/time-budget.entity.ts:76 | `getDay` is in 0..6. |
| TimeBudgetEntity.GetWeekStart | backend/src/domain/entities/time-budget.entity.ts:74-81 | The result is a Monday at 00:00:00.000 with r ≤ t < r + 7 days. A Sunday maps six days back and any other day maps back by getDay − 1 days. |
| TimeBudgetEntity.WeekStartUnique | backend/src/domain/entities/time-budget.entity.ts:74-81 | Any Monday midnight m with m ≤ t < m + 7 days is the week start of t. |
| TimeBudgetEntity.WeekStartIdempotent | backend/src/domain/entities/time-budget.entity.ts:74-81 | Normalising a week start again changes nothing. |
| TimeBudgetEntity.SameWeekStartIffSameWeek | backend/src/domain/entities/time-budget.entity.ts:74-81 | Two instants share a week start exactly when they fall in the same Monday-to-Sunday week. |
| WeeklyReviewEntity.AlignmentPercentage | backend/src/domain/entities/weekly-review.entity.ts:47-53 | Returns 0 when nothing was tracked, whatever the aligned minutes are. Otherwise it returns aligned/tracked·100 rounded half up, stated as the bracketing inequality. |
| WeeklyReviewEntity.WastedPercentage | backend/src/domain/entities/weekly-review.entity.ts:58-64 | The same shape, with the wasted minutes as numerator. |
| WeeklyReviewEntity.AlignmentInRange | backend/src/domain/entities/weekly-review.entity.ts:47-53 | If 0 ≤ aligned ≤ tracked, the percentage lies in [0,100]. |
| WeeklyReviewEntity.WastedInRange | backend/src/domain/entities/weekly-review.entity.ts:58-64 | If 0 ≤ wasted ≤ tracked, the percentage lies in [0,100]. |
| WeeklyReviewEntity.AlignmentExact | backend/src/domain/entities/weekly-review.entity.ts:47-53 | When the aligned part is exactly k percent of the tracked time, the result is k. |
| WeeklyReviewEntity.ScoreBoundaries | backend/src/domain/entities/weekly-review.entity.ts:69-71 | Scores 0 and 100 are accepted; -1 and 101 are not. |
| CalendarBlockEntity.BlockDuration | backend/src/domain/entities/calendar-block.entity.ts:50-52 | The duration is (end − start) in minutes, rounded half up, stated as the bracketing inequality. |
| CalendarBlockEntity.WholeMinuteDuration | backend/src/domain/entities/calendar-block.entity.ts:50-52 | A block spanning exactly n minutes has duration n. |
| CalendarBlockEntity.DurationOfValidRange | backend/src/domain/entities/calendar-block.entity.ts:43-52 | A valid range (end strictly after start) never has a negative duration. |
| CalendarBlockEntity.OverlapIffSharedInstant | backend/src/domain/entities/calendar-block.entity.ts:57-64 | For valid half-open blocks, `start1 < end2 && end1 > start2` holds exactly when some instant lies in both. |
| CalendarBlockEntity.OverlapSymmetric | backend/src/domain/entities/calendar-block.entity.ts:57-64 | Overlap does not depend on the order of the two blocks. |
| CalendarBlockEntity.TouchingAndSelfOverlap | backend/src/domain/entities/calendar-block.entity.ts:43-64 | Touching blocks (e1 = s2) do not overlap. A block overlaps itself exactly when its range is valid. |
| ActivityEntity.ValidatorBoundaries | backend/src/domain/entities/activity.entity.ts:45-54 | Satisfaction levels 1 and 5 are accepted and 0 and 6 are not. Zero and negative durations are invalid. |
| PriorityEntity.ValidatorBoundaries | backend/src/domain/entities/priority.entity.ts:5-48 | The valid orders are exactly 1..4, so 0 is not one. Zero allocated minutes is allowed, and MIN_PRIORITIES < MAX_PRIORITIES. |
| EliminationEntity.TotalRecoveredTime | backend/src/domain/entities/elimination.entity.ts:24-26 | The total of the empty list is 0. |
| EliminationEntity.TotalOfConcat | backend/src/domain/entities/elimination.entity.ts:24-26 | The total of a concatenation is the sum of the two totals. |
| EliminationEntity.TotalBoundsEntries | backend/src/domain/entities/elimination.entity.ts:24-26 | With no negative entries, the total is ≥ 0 and ≥ every entry. |
| EliminationEntity.TotalIgnoresOrder | backend/src/domain/entities/elimination.entity.ts:24-26 | Two lists that are permutations of each other have the same total. |
| CategoryEntity.DefaultCategoriesTable | backend/src/domain/entities/category.entity.ts:15-26 | The table has ten entries, all marked default, with pairwise distinct names. The last is "Otro", coloured #6B7280, the colour analytics gives an unknown category. |
| UserEntity.ToUserWithoutPassword | backend/src/domain/entities/user.entity.ts:28-34 | Keeps id, e-mail, name and both timestamps; the result type has no password field. |
| UserEntity.ProjectionForgetsOnlyPassword | backend/src/domain/entities/user.entity.ts:20-34 | Two users have the same projection exactly when they differ at most in their password. |
| Results.Succeed | backend/src/domain/value-objects/result.ts:9-33 | `success(v)` has isSuccess true, isFailure false and value v. |
| Results.Fail | backend/src/domain/value-objects/result.ts:20-33 | `failure(e)` has isSuccess false, isFailure true and error e. |
| DomainErrors.DomainError.Code | backend/src/domain/errors/domain-errors.ts:27-185 | Every error kind has a non-empty code. |
| DomainErrors.DomainError.StatusCode | backend/src/domain/errors/domain-errors.ts:27-185 | The status is 401 exactly for invalid credentials or token, 409 exactly for a duplicate e-mail or budget, 404 exactly for the not-found kinds, and 400 for all the rest. |
| DomainErrors.DomainError.Name | backend/src/domain/errors/domain-errors.ts:7-15 | The name is the class name, which ends in "Error". |
| DomainErrors.DomainError.Message | backend/src/domain/errors/domain-errors.ts:27-185 | A validation error carries the caller's message; every other kind has a non-empty text. |
| DomainErrors.DomainError.ToJson | backend/src/domain/errors/domain-errors.ts:17-23 | `toJSON` is exactly the error's code, message and name. |
| DomainErrors.CodeIdentifiesKind | backend/src/domain/errors/domain-errors.ts:27-185 | Two errors have the same code exactly when they are of the same kind, so codes are pairwise distinct across kinds. |
| DomainErrors.ToJsonInjectiveOnKind | backend/src/domain/errors/domain-errors.ts:17-185 | Equal JSON forms imply the same kind and the same message. |
| TimeBudgetRepo.NewBudget | backend/src/infrastructure/database/repositories/time-budget.repository.ts:43-64 | Each given block is stored and each missing one defaults to 3360/2400/630/420/300. The week start is normalised, and the stored available minutes are computed from the same values. |
| TimeBudgetRepo.Merge | backend/src/infrastructure/database/repositories/time-budget.repository.ts:66-95 | Each given block replaces the stored one and each missing one is kept. Available minutes are recomputed from the merge, and id, user and week are kept. |
| TimeBudgetRepo.TimeBudgetRepository.FindById | backend/src/infrastructure/database/repositories/time-budget.repository.ts:13-17 | Returns the budget with that id, or none when no stored budget has it. |
| TimeBudgetRepo.TimeBudgetRepository.FindByUserAndWeek | backend/src/infrastructure/database/repositories/time-budget.repository.ts:19-29 | Returns the user's budget whose week start is the normalised week of the given date, or none when there is none. |
| TimeBudgetRepo.TimeBudgetRepository.FindByUser | backend/src/infrastructure/database/repositories/time-budget.repository.ts:31-36 | Returns exactly the user's budgets, as a multiset, ordered by week start descending. |
| TimeBudgetRepo.TimeBudgetRepository.FindCurrentByUser | backend/src/infrastructure/database/repositories/time-budget.repository.ts:38-41 | The same as findByUserAndWeek for the week of `now`. |
| TimeBudgetRepo.DefaultBudget | backend/src/infrastructure/database/repositories/time-budget.repository.ts:43-64 | A budget created with none of its five blocks given stores 3360/2400/630/420/300, so 7110 base minutes and 2970 available. |
| TimeBudgetRepo.TimeBudgetRepository.Create | backend/src/infrastructure/database/repositories/time-budget.repository.ts:43-64 | Appends NewBudget. A duplicate (user, week) is refused by the unique key and changes nothing. |
| TimeBudgetRepo.TimeBudgetRepository.Update | backend/src/infrastructure/database/repositories/time-budget.repository.ts:66-95 | A missing id fails and changes nothing. Otherwise exactly that entry becomes the merge. |
| TimeBudgetRepo.TimeBudgetRepository.Delete | backend/src/infrastructure/database/repositories/time-budget.repository.ts:97-101 | Removes exactly the entry with that id. |
| TimeBudgetRepo.FindByUserAndWeekNormalises | backend/src/infrastructure/database/repositories/time-budget.repository.ts:19-29 | Looking up a date or its week start finds the same budget. |
| TimeBudgetRepo.FindByUserAndWeekExact | backend/src/infrastructure/database/repositories/time-budget.repository.ts:19-29 | A stored budget is found from any instant of its week. |
| PriorityRepo.NewPriority | backend/src/infrastructure/database/repositories/priority.repository.ts:38-48 | A new priority is active, and order and allocated minutes default to 0. |
| PriorityRepo.ApplyUpdate | backend/src/infrastructure/database/repositories/priority.repository.ts:50-61 | Only the fields given change; id and owner are kept. |
| PriorityRepo.ReorderedUnlisted | backend/src/infrastructure/database/repositories/priority.repository.ts:69-78 | A priority whose id is not listed keeps its order. |
| PriorityRepo.ReorderedListed | backend/src/infrastructure/database/repositories/priority.repository.ts:69-78 | When the listed ids are distinct, the priority at list position k gets order k + 1. |
| PriorityRepo.PriorityRepository.FindById | backend/src/infrastructure/database/repositories/priority.repository.ts:12-16 | Returns the priority with that id, or none when no stored priority has it. |
| PriorityRepo.PriorityRepository.FindByUser | backend/src/infrastructure/database/repositories/priority.repository.ts:18-23 | Returns exactly the user's priorities, ordered by order ascending. |
| PriorityRepo.PriorityRepository.FindActiveByUser | backend/src/infrastructure/database/repositories/priority.repository.ts:25-30 | Returns exactly the user's active priorities, ordered by order ascending. |
| PriorityRepo.PriorityRepository.CountActiveByUser | backend/src/infrastructure/database/repositories/priority.repository.ts:32-36 | Equals the length of findActiveByUser. |
| PriorityRepo.PriorityRepository.Create | backend/src/infrastructure/database/repositories/priority.repository.ts:38-48 | Appends NewPriority with the next id. |
| PriorityRepo.PriorityRepository.Update | backend/src/infrastructure/database/repositories/priority.repository.ts:50-61 | A missing id changes nothing. Otherwise exactly that entry gets ApplyUpdate. |
| PriorityRepo.PriorityRepository.Delete | backend/src/infrastructure/database/repositories/priority.repository.ts:63-67 | Removes exactly the entry with that id. |
| PriorityRepo.PriorityRepository.Reorder | backend/src/infrastructure/database/repositories/priority.repository.ts:69-78 | All or nothing: if any listed id is missing, nothing changes. Otherwise the k-th listed id gets order k + 1 and everything else is kept. |
| PriorityRepo.ActiveCountAtMostAll | backend/src/infrastructure/database/repositories/priority.repository.ts:18-36 | A user never has more active priorities than priorities. |
| PriorityRepo.FilterOfFilter | backend/src/infrastructure/database/repositories/priority.repository.ts:18-30 | Selecting the active priorities from the user's list gives the user's active priorities. |
| ActivityRepo.NewActivity | backend/src/infrastructure/database/repositories/activity.repository.ts:56-70 | Fields are taken from the input, and alignedWithPriorities defaults to false. |
| ActivityRepo.ApplyUpdate | backend/src/infrastructure/database/repositories/activity.repository.ts:72-85 | Only the fields given change; id, owner and budget link are kept. |
| ActivityRepo.CategoryNameLookup | backend/src/infrastructure/database/repositories/activity.repository.ts:108-118 | A known category gives its name, and an unknown one gives "Desconocido". |
| ActivityRepo.ActivityRepository.FindById | backend/src/infrastructure/database/repositories/activity.repository.ts:12-16 | Returns the activity with that id, or none when no stored activity has it. |
| ActivityRepo.ActivityRepository.FindByUser | backend/src/infrastructure/database/repositories/activity.repository.ts:18-34 | Filters by user, by category, and by date when both bounds are given (inclusive at both ends). It sorts the matches newest first, then pages them by offset and limit, so the result is drawn from the matches and never longer than the limit. |
| ActivityRepo.ActivityRepository.FindByTimeBudget | backend/src/infrastructure/database/repositories/activity.repository.ts:36-41 | Returns exactly the activities linked to the budget, newest first. |
| ActivityRepo.ActivityRepository.FindByDateRange | backend/src/infrastructure/database/repositories/activity.repository.ts:43-54 | Returns exactly the user's activities dated in [start, end), newest first. |
| ActivityRepo.ActivityRepository.SumDurationByCategory | backend/src/infrastructure/database/repositories/activity.repository.ts:93-120 | Entries have pairwise distinct categories, and each has at least one of the user's activities dated in [start, end), so there is no empty group. Each entry totals its category's durations over those activities and carries the category's name. |
| ActivityRepo.SummariesArePresent | backend/src/infrastructure/database/repositories/activity.repository.ts:93-106 | Every category summarised for a range has an activity in that range: grouping makes no empty groups. |
| ActivityRepo.EveryCategoryGrouped | backend/src/infrastructure/database/repositories/activity.repository.ts:93-106 | Every activity in the range has its category among the entries. |
| ActivityRepo.CategoryTotalsAddUp | backend/src/infrastructure/database/repositories/activity.repository.ts:93-120 | The category totals add up to the duration total of findByDateRange over the same range. |
| ActivityRepo.ActivityRepository.Create | backend/src/infrastructure/database/repositories/activity.repository.ts:56-70 | Appends NewActivity with the next id. |
| ActivityRepo.ActivityRepository.Update | backend/src/infrastructure/database/repositories/activity.repository.ts:72-85 | A missing id changes nothing. Otherwise exactly that entry gets ApplyUpdate. |
| ActivityRepo.ActivityRepository.Delete | backend/src/infrastructure/database/repositories/activity.repository.ts:87-91 | Removes exactly the entry with that id. |
| CalendarBlockRepo.NewBlock | backend/src/infrastructure/database/repositories/calendar-block.repository.ts:62-74 | blockType defaults to PRIORITY and isRecurring to false. |
| CalendarBlockRepo.ApplyUpdate | backend/src/infrastructure/database/repositories/calendar-block.repository.ts:76-88 | Only the fields given change; id and owner are kept. |
| CalendarBlockRepo.CalendarBlockRepository.FindById | backend/src/infrastructure/database/repositories/calendar-block.repository.ts:12-16 | Returns the block with that id, or none when no stored block has it. |
| CalendarBlockRepo.CalendarBlockRepository.FindByUser | backend/src/infrastructure/database/repositories/calendar-block.repository.ts:18-23 | Returns exactly the user's blocks, ordered by start ascending. |
| CalendarBlockRepo.CalendarBlockRepository.FindByDateRange | backend/src/infrastructure/database/repositories/calendar-block.repository.ts:25-36 | Returns exactly the user's blocks starting in [start, end), ordered by start ascending. |
| CalendarBlockRepo.CalendarBlockRepository.FindOverlapping | backend/src/infrastructure/database/repositories/calendar-block.repository.ts:38-60 | Returns exactly the user's blocks with startTime < end and endTime > start, leaving out the block whose id is excludeId. |
| CalendarBlockRepo.CalendarBlockRepository.Create | backend/src/infrastructure/database/repositories/calendar-block.repository.ts:62-74 | Appends NewBlock with the next id. |
| CalendarBlockRepo.CalendarBlockRepository.Update | backend/src/infrastructure/database/repositories/calendar-block.repository.ts:76-88 | A missing id changes nothing. Otherwise exactly that entry gets ApplyUpdate. |
| CalendarBlockRepo.CalendarBlockRepository.Delete | backend/src/infrastructure/database/repositories/calendar-block.repository.ts:90-94 | Removes exactly the entry with that id. |
| CalendarBlockRepo.DateRangeWithinUser | backend/src/infrastructure/database/repositories/calendar-block.repository.ts:18-36 | The date-range listing is a sub-list of the user's listing and no longer than it. |
| CategoryRepo.NameAscIsPreorder | backend/src/infrastructure/database/repositories/category.repository.ts:25-36 | Name order is total and transitive, so the sorted listings are well defined. |
| CategoryRepo.SeedFrom | backend/src/infrastructure/database/repositories/category.repository.ts:44-52 | Seeding only appends: existing entries are kept in place, and ids only grow. |
| CategoryRepo.CategoryRepository.FindById | backend/src/infrastructure/database/repositories/category.repository.ts:13-17 | Returns the category with that id, or none when no stored category has it. |
| CategoryRepo.CategoryRepository.FindByName | backend/src/infrastructure/database/repositories/category.repository.ts:19-23 | Returns the category with that name, or none exactly when no stored category has it. |
| CategoryRepo.CategoryRepository.FindAll | backend/src/infrastructure/database/repositories/category.repository.ts:25-30 | Returns every category, sorted by name. |
| CategoryRepo.CategoryRepository.FindDefaults | backend/src/infrastructure/database/repositories/category.repository.ts:31-36 | Returns exactly the default categories, sorted by name. |
| CategoryRepo.CategoryRepository.Create | backend/src/infrastructure/database/repositories/category.repository.ts:38-43 | A taken name is refused by the unique key. Otherwise the category is appended with the next id. |
| CategoryRepo.CategoryRepository.SeedDefaults | backend/src/infrastructure/database/repositories/category.repository.ts:44-52 | The loop leaves the table that SeedFrom gives for the ten defaults. |
| CategoryRepo.CategoryRepository.Seed | backend/src/infrastructure/database/repositories/category.repository.ts:44-52 | The same upsert loop, over any list of entries. |
| CategoryRepo.SeedKeepsValid | backend/src/infrastructure/database/repositories/category.repository.ts:44-52 | Seeding keeps ids and names unique. |
| CategoryRepo.SeedCoversNames | backend/src/infrastructure/database/repositories/category.repository.ts:44-52 | After seeding, every seeded name is present. |
| CategoryRepo.SeedPresentIsNoOp | backend/src/infrastructure/database/repositories/category.repository.ts:48 | When every name is already present, seeding changes nothing, because the upsert's update is empty. |
| CategoryRepo.SeedIdempotent | backend/src/infrastructure/database/repositories/category.repository.ts:44-52 | Seeding twice leaves the same table as seeding once. |
| EliminationRepo.NewElimination | backend/src/infrastructure/database/repositories/elimination.repository.ts:25-34 | recoveredMinutes defaults to 0, and eliminatedAt is the creation time. |
| EliminationRepo.EliminationRepository.FindById | backend/src/infrastructure/database/repositories/elimination.repository.ts:12-16 | Returns the elimination with that id, or none when no stored elimination has it. |
| EliminationRepo.EliminationRepository.FindByUser | backend/src/infrastructure/database/repositories/elimination.repository.ts:18-23 | Returns exactly the user's eliminations, most recent first. |
| EliminationRepo.EliminationRepository.SumRecoveredMinutes | backend/src/infrastructure/database/repositories/elimination.repository.ts:42-51 | The total over the user's eliminations, and 0 when there are none. |
| EliminationRepo.EliminationRepository.Create | backend/src/infrastructure/database/repositories/elimination.repository.ts:25-34 | Appends NewElimination with the next id. |
| EliminationRepo.EliminationRepository.Delete | backend/src/infrastructure/database/repositories/elimination.repository.ts:36-40 | Removes exactly the entry with that id. |
| EliminationRepo.CreateAddsToOwnerTotal | backend/src/infrastructure/database/repositories/elimination.repository.ts:25-51 | Appending an elimination raises its owner's total by its minutes and leaves other users' totals alone. |
| UserRepo.NewUser | backend/src/infrastructure/database/repositories/user.repository.ts:24-32 | The stored e-mail is lower-cased; the password and name are stored as given. |
| UserRepo.ApplyUpdate | backend/src/infrastructure/database/repositories/user.repository.ts:34-43 | Only non-empty given fields change, and a new e-mail is lower-cased. |
| UserRepo.UserRepository.FindById | backend/src/infrastructure/database/repositories/user.repository.ts:12-16 | Returns the user with that id, or none when no stored user has it. |
| UserRepo.UserRepository.FindByEmail | backend/src/infrastructure/database/repositories/user.repository.ts:18-22 | Finds the user whose stored e-mail equals the lower-cased query, or none when there is none. |
| UserRepo.UserRepository.Create | backend/src/infrastructure/database/repositories/user.repository.ts:24-32 | A taken e-mail is refused by the unique key. Otherwise the user is appended and findByEmail then finds it. |
| UserRepo.UserRepository.Update | backend/src/infrastructure/database/repositories/user.repository.ts:34-43 | A missing id, or a new e-mail already held by another user (the unique key), fails and changes nothing. Otherwise exactly that entry gets ApplyUpdate. |
| UserRepo.UserRepository.Delete | backend/src/infrastructure/database/repositories/user.repository.ts:45-49 | Removes exactly the entry with that id. |
| UserRepo.LookupIgnoresCase | backend/src/infrastructure/database/repositories/user.repository.ts:18-32 | Two queries that agree after lower-casing find the same user. |
| WeeklyReviewRepo.NewReview | backend/src/infrastructure/database/repositories/weekly-review.repository.ts:49-56 | A new review has a normalised week, is open, and has zero minutes. |
| WeeklyReviewRepo.ApplyUpdate | backend/src/infrastructure/database/repositories/weekly-review.repository.ts:58-71 | Only the fields given change; isCompleted and completedAt are never touched. |
| WeeklyReviewRepo.ApplyComplete | backend/src/infrastructure/database/repositories/weekly-review.repository.ts:73-85 | Sets isCompleted and completedAt = now, and missing lists become []. Tracked, aligned and wasted minutes are kept. |
| WeeklyReviewRepo.WeeklyReviewRepository.FindById | backend/src/infrastructure/database/repositories/weekly-review.repository.ts:13-17 | Returns the review with that id, or none when no stored review has it. |
| WeeklyReviewRepo.WeeklyReviewRepository.FindByUserAndWeek | backend/src/infrastructure/database/repositories/weekly-review.repository.ts:19-29 | Returns the user's review of the normalised week, or none when there is none. |
| WeeklyReviewRepo.WeeklyReviewRepository.FindByUser | backend/src/infrastructure/database/repositories/weekly-review.repository.ts:31-37 | Returns the first `limit` (default 10) entries of a week-descending ordering of exactly the user's reviews (a multiset equal to them), so the latest `limit` reviews with no repeats: either all of them or exactly `limit`. |
| WeeklyReviewRepo.WeeklyReviewRepository.FindPendingByUser | backend/src/infrastructure/database/repositories/weekly-review.repository.ts:39-47 | Returns exactly the user's open reviews, latest week first. |
| WeeklyReviewRepo.WeeklyReviewRepository.Create | backend/src/infrastructure/database/repositories/weekly-review.repository.ts:49-56 | Appends NewReview. A duplicate (user, week) is refused and changes nothing. |
| WeeklyReviewRepo.WeeklyReviewRepository.Update | backend/src/infrastructure/database/repositories/weekly-review.repository.ts:58-71 | A missing id changes nothing. Otherwise exactly that entry gets ApplyUpdate. |
| WeeklyReviewRepo.WeeklyReviewRepository.Complete | backend/src/infrastructure/database/repositories/weekly-review.repository.ts:73-85 | A missing id changes nothing. Otherwise exactly that entry gets ApplyComplete. |
| WeeklyReviewRepo.WeeklyReviewRepository.Delete | backend/src/infrastructure/database/repositories/weekly-review.repository.ts:87-91 | Removes exactly the entry with that id. |
| WeeklyReviewRepo.PendingAreOpen | backend/src/infrastructure/database/repositories/weekly-review.repository.ts:39-47 | A pending review has no completion time, and every open review of the user is pending. |
| TimeBudgetUseCases.BaseError | backend/src/application/use-cases/time-budget/create-time-budget.use-case.ts:49-65 | Refuses exactly a negative block, or blocks that exceed the week, with the matching message and the negative check first. |
| TimeBudgetUseCases.ToResponse | backend/src/application/use-cases/time-budget/create-time-budget.use-case.ts:78-91 | The stored fields are copied, and baseMinutes + availableMinutes = 10080. For a stored budget, baseMinutes is the sum of its blocks. |
| TimeBudgetUseCases.DefaultBudgetResponse | backend/src/application/use-cases/time-budget/create-time-budget.use-case.ts:43-91 | A creation with no block given passes both value checks, and its response reports 7110 base minutes and 2970 available. |
| TimeBudgetUseCases.CreateInput | backend/src/application/use-cases/time-budget/create-time-budget.use-case.ts:32-47 | The week is normalised from the given date or from now, and missing blocks take the defaults. |
| TimeBudgetUseCases.CreateTimeBudget | backend/src/application/use-cases/time-budget/create-time-budget.use-case.ts:27-92 | A duplicate is reported before the value checks; any failure creates nothing. On success the one budget of that week is the new one, and no stored budget overbooks its week. |
| TimeBudgetUseCases.UpdateTimeBudget | backend/src/application/use-cases/time-budget/update-time-budget.use-case.ts:18-78 | A missing budget, or another user's, is not found. The merged values pass the creation checks or nothing changes. On success only that budget's blocks and available minutes change. |
| TimeBudgetUseCases.GetCurrentTimeBudget | backend/src/application/use-cases/time-budget/get-current-time-budget.use-case.ts:18-39 | Fails with TimeBudgetNotFound exactly when the user has no budget for the current week. Otherwise it returns that budget's response. |
| AnalyticsUseCases.Percent | backend/src/application/use-cases/analytics/get-weekly-analytics.use-case.ts:58-72 | Returns 0 unless the whole is positive; otherwise part/whole·100 rounded half up, in [0,100] for a part of the whole. |
| AnalyticsUseCases.CategoryColor | backend/src/application/use-cases/analytics/get-weekly-analytics.use-case.ts:49-56 | A known category gets the colour of a category with that id; an unknown category gets #6B7280. |
| AnalyticsUseCases.Breakdown | backend/src/application/use-cases/analytics/get-weekly-analytics.use-case.ts:51-62 | One entry per category total, with its colour and its percentage of the week, and the entries' minutes add up to the totals'. |
| AnalyticsUseCases.AverageTenths | backend/src/application/use-cases/analytics/get-weekly-analytics.use-case.ts:41-44 | Returns 0 with no rated activity; otherwise the mean level rounded to tenths. |
| AnalyticsUseCases.Metrics | backend/src/application/use-cases/analytics/get-weekly-analytics.use-case.ts:35-82 | tracked = sum of durations, usage = Percent(tracked, available) and alignment = Percent(aligned, tracked); it also gives the average and the breakdown. |
| AnalyticsUseCases.AvailableFor | backend/src/application/use-cases/analytics/get-weekly-analytics.use-case.ts:28-29 | The budget's available minutes, or 0 when the week has no budget. |
| AnalyticsUseCases.AnalyticsWeek | backend/src/application/use-cases/analytics/get-weekly-analytics.use-case.ts:20-25 | The week is the Monday-midnight start of the given date or of now, and contains that date. |
| AnalyticsUseCases.GetWeeklyAnalytics | backend/src/application/use-cases/analytics/get-weekly-analytics.use-case.ts:19-83 | Always succeeds, reads only, and returns the metrics of activities dated in [weekStart, weekStart + 7 days). |
| AnalyticsUseCases.MetricsMeaning | backend/src/application/use-cases/analytics/get-weekly-analytics.use-case.ts:35-72 | No tracked time gives 0 alignment, and no available time gives 0 usage. The breakdown sums to the category totals. Without negative durations the alignment lies in [0,100]. |
| AnalyticsUseCases.WeeklyBreakdownAddsUp | backend/src/application/use-cases/analytics/get-weekly-analytics.use-case.ts:32-62 | The breakdown's minutes add up to the week's tracked minutes. |
| AnalyticsUseCases.ToTrend | backend/src/application/use-cases/analytics/get-trends.use-case.ts:21-26 | Copies the week and the minutes; the score is overallScore, or 0 when it is null. |
| AnalyticsUseCases.TrendsOf | backend/src/application/use-cases/analytics/get-trends.use-case.ts:19-27 | The trend points are the reviews mapped in reverse order. |
| AnalyticsUseCases.TrendsOldestFirst | backend/src/application/use-cases/analytics/get-trends.use-case.ts:27 | Reversing a latest-first list gives oldest first. |
| AnalyticsUseCases.GetTrends | backend/src/application/use-cases/analytics/get-trends.use-case.ts:16-30 | Never fails and returns at most `weeks` (default 8) points, from completed reviews only, oldest week first. |
| AnalyticsUseCases.TrendsAreCompletedReviews | backend/src/application/use-cases/analytics/get-trends.use-case.ts:17-20 | Every trend point comes from a completed review of the user. |
| WeeklyReviewUseCases.ToResponse | backend/src/application/use-cases/weekly-review/get-weekly-review.use-case.ts:55-69 | Stored fields are copied, and the two percentages are derived on read by the entity functions. |
| WeeklyReviewUseCases.RefreshInput | backend/src/application/use-cases/weekly-review/get-weekly-review.use-case.ts:43-52 | Only tracked and aligned minutes are written, recomputed from the week; wasted minutes are never recomputed. |
| WeeklyReviewUseCases.RefreshedAlignmentInRange | backend/src/application/use-cases/weekly-review/get-weekly-review.use-case.ts:43-62 | After a refresh from non-negative durations, aligned ≤ tracked and the alignment percentage lies in [0,100]. |
| WeeklyReviewUseCases.FindOrCreate | backend/src/application/use-cases/weekly-review/get-weekly-review.use-case.ts:26-33 | Returns the stored review of the week, or one created for it, and the review is in the table. |
| WeeklyReviewUseCases.GetWeeklyReview | backend/src/application/use-cases/weekly-review/get-weekly-review.use-case.ts:20-70 | Always succeeds. An open review's minutes are recomputed and persisted; a completed review is left as stored. |
| WeeklyReviewUseCases.CompleteWeeklyReview | backend/src/application/use-cases/weekly-review/complete-weekly-review.use-case.ts:18-62 | Checks run in the order not found, then already completed, then score outside 0..100, and any failure changes nothing. On success the review is completed with its minutes unchanged, so a second completion fails. |
| WeeklyReviewUseCases.GetReviewHistory | backend/src/application/use-cases/weekly-review/get-review-history.use-case.ts:17-37 | Never fails: one response per fetched review, in order, at most `limit` (default 10), latest week first. |
| PriorityUseCases.CreatePriority | backend/src/application/use-cases/priorities/create-priority.use-case.ts:18-50 | A blank name is refused first, then a user with four active priorities; any failure creates nothing. On success the trimmed priority gets order activeCount + 1, and the active count grows by one without exceeding four. |
| PriorityUseCases.AppendActiveCount | backend/src/application/use-cases/priorities/create-priority.use-case.ts:28-40 | Appending an active priority of the user raises that user's active count by exactly one. |
| PriorityUseCases.ActiveIdsAreFound | backend/src/application/use-cases/priorities/reorder-priorities.use-case.ts:28-38 | Ids that passed the ownership check are all found by the repository's reorder. |
| PriorityUseCases.ReorderPriorities | backend/src/application/use-cases/priorities/reorder-priorities.use-case.ts:18-53 | More than four ids, or any id outside the caller's active priorities, is refused and changes nothing. Otherwise the k-th id gets order k + 1, and the result is the active priorities in order. |
| PriorityUseCases.UpdateInput | backend/src/application/use-cases/priorities/update-priority.use-case.ts:35-40 | Name and description are trimmed, and order is never part of the update. |
| PriorityUseCases.UpdatePriority | backend/src/application/use-cases/priorities/update-priority.use-case.ts:17-50 | A missing priority, or another user's, is not found; negative allocated minutes are refused. Any failure changes nothing; on success only the given fields of that priority change. |
| PriorityUseCases.UpdateCanActivateFifth | backend/src/application/use-cases/priorities/update-priority.use-case.ts:35-40 | With four active priorities, activating an inactive one leaves five active. |
| PriorityUseCases.UpdatePriorityWithinLimit | backend/src/application/use-cases/priorities/update-priority.use-case.ts:17-50 | The same update, refusing to activate a fifth priority, so the limit of four is kept. |
| PriorityUseCases.DeletePriority | backend/src/application/use-cases/priorities/delete-priority.use-case.ts:16-28 | A missing priority, or another user's, is not found and nothing is deleted. On success exactly that priority is removed, and the rest of the table is kept in place. |
| PriorityUseCases.Listing | backend/src/application/use-cases/priorities/get-priorities.use-case.ts:16-19 | Returns the user's active priorities, or all of them when onlyActive is false, ordered by order. |
| PriorityUseCases.GetPriorities | backend/src/application/use-cases/priorities/get-priorities.use-case.ts:16-31 | Never fails: one response per listed priority with its fields copied, ordered by order. |
| ActivityUseCases.BudgetIdFor | backend/src/application/use-cases/activity-tracking/create-activity.use-case.ts:42-49 | The id of the user's budget for the week of the date, or absent when there is none. |
| ActivityUseCases.CreateInput | backend/src/application/use-cases/activity-tracking/create-activity.use-case.ts:47-57 | Name and description are trimmed, and the budget link is attached. |
| ActivityUseCases.CreateActivity | backend/src/application/use-cases/activity-tracking/create-activity.use-case.ts:21-71 | Checks run in the order duration, then satisfaction, then category, and any failure creates nothing. On success the activity is appended, and every stored activity stays valid. |
| ActivityUseCases.UpdatedCategoryName | backend/src/application/use-cases/activity-tracking/update-activity.use-case.ts:42-52 | Takes the new category's name when one is given, else the existing category's, and "" when that one is gone. |
| ActivityUseCases.UpdateActivity | backend/src/application/use-cases/activity-tracking/update-activity.use-case.ts:19-77 | Checks run in the order ownership, then a given duration, then satisfaction, then category; any failure changes nothing. On success only the given fields change, and the budget link is kept. |
| ActivityUseCases.DeleteActivity | backend/src/application/use-cases/activity-tracking/delete-activity.use-case.ts:16-28 | A missing activity, or another user's, is not found and nothing is deleted. On success exactly that activity is removed, and no other changes. |
| ActivityUseCases.CategoryNameOf | backend/src/application/use-cases/activity-tracking/get-activities.use-case.ts:39-48 | The category's name, or absent exactly when no category has that id. |
| ActivityUseCases.GetActivities | backend/src/application/use-cases/activity-tracking/get-activities.use-case.ts:25-57 | Never fails and reads only. It returns one response per listed activity, in the repository's order, with its category name. |
| CalendarBlockUseCases.ToResponse | backend/src/application/use-cases/calendar-blocking/get-calendar-blocks.use-case.ts:38-47 | The response's duration is calculateBlockDuration of the block's range. |
| CalendarBlockUseCases.AppendKeepsDisjoint | backend/src/application/use-cases/calendar-blocking/create-calendar-block.use-case.ts:31-50 | A block that clashes with none of its owner's blocks keeps the table pairwise non-overlapping. |
| CalendarBlockUseCases.RemoveKeepsDisjoint | backend/src/application/use-cases/calendar-blocking/delete-calendar-block.use-case.ts:25 | Removing a block keeps the table pairwise non-overlapping. |
| CalendarBlockUseCases.CreateInput | backend/src/application/use-cases/calendar-blocking/create-calendar-block.use-case.ts:42-50 | The title is trimmed. |
| CalendarBlockUseCases.CreateCalendarBlock | backend/src/application/use-cases/calendar-blocking/create-calendar-block.use-case.ts:18-62 | A range that does not end after it starts is refused. So is an overlap with one of the user's own blocks, though a block that only touches is accepted. Any failure creates nothing, and disjointness is kept. |
| CalendarBlockUseCases.DeleteCalendarBlock | backend/src/application/use-cases/calendar-blocking/delete-calendar-block.use-case.ts:16-28 | A missing block, or another user's, is not found and nothing is deleted. On success exactly that block is removed, and disjointness is kept. |
| CalendarBlockUseCases.Listing | backend/src/application/use-cases/calendar-blocking/get-calendar-blocks.use-case.ts:28-36 | With both dates, the user's blocks starting in [start, end); otherwise all of the user's blocks. Both are ordered by start. |
| CalendarBlockUseCases.Responses | backend/src/application/use-cases/calendar-blocking/get-calendar-blocks.use-case.ts:38-47 | One response per block in the same order, so start-time order carries over. |
| CalendarBlockUseCases.GetCalendarBlocks | backend/src/application/use-cases/calendar-blocking/get-calendar-blocks.use-case.ts:22-50 | Never fails: exactly the listed blocks' responses, in start-time order. |
| EliminationUseCases.Responses | backend/src/application/use-cases/elimination/get-eliminations.use-case.ts:26-32 | One response per elimination in order, and their minutes add up to the total recovered time. |
| EliminationUseCases.CreateInput | backend/src/application/use-cases/elimination/create-elimination.use-case.ts:27-32 | The name and reason are trimmed, and recoveredMinutes defaults to 0. |
| EliminationUseCases.CreateElimination | backend/src/application/use-cases/elimination/create-elimination.use-case.ts:17-41 | A blank activity name is refused and creates nothing. On success one elimination is appended, and the user's total grows by its minutes. |
| EliminationUseCases.GetEliminations | backend/src/application/use-cases/elimination/get-eliminations.use-case.ts:21-37 | Never fails: one response per stored elimination, most recent first, with the total equal to the sum of the listed minutes. |
| AuthUseCases.RegisterCheck | backend/src/application/use-cases/auth/register-user.use-case.ts:30-36 | Refuses exactly a missing field, or a password shorter than 8 characters, with the matching message. |
| AuthUseCases.RegisterInput | backend/src/application/use-cases/auth/register-user.use-case.ts:45-52 | Stores the lower-cased, trimmed e-mail, the hasher's output rather than the plaintext, and the trimmed name. |
| AuthUseCases.Respond | backend/src/application/use-cases/auth/register-user.use-case.ts:55-66 | The token is for the user's id, and the user part has no password. |
| AuthUseCases.RegisterUser | backend/src/application/use-cases/auth/register-user.use-case.ts:28-67 | The input checks come first. The duplicate look-up lower-cases the e-mail as given, without trimming; a user found there is EmailAlreadyExists. A user found only under the trimmed form makes the insert hit the unique key. Any failure changes nothing. Otherwise the user is appended with the hashed password, and the response carries a token for the new id. |
| AuthUseCases.PaddedAddressReachesStore | backend/src/application/use-cases/auth/register-user.use-case.ts:39-49 | For any stored lower-case address with no surrounding whitespace, the same address with a leading space is missed by the duplicate look-up, but its normalised form is found. |
| AuthUseCases.PaddedDuplicateReachesStore | backend/src/application/use-cases/auth/register-user.use-case.ts:39-49 | With "a@x.co" registered, " a@x.co" is missed by the duplicate look-up, but its stored form "a@x.co" is taken. |
| AuthUseCases.PaddedPassesChecks | backend/src/application/use-cases/auth/register-user.use-case.ts:30-37 | The padded registration of the example passes the use case's own required-field and password-length checks. |
| AuthUseCases.RegisterUserNormalised | backend/src/application/use-cases/auth/register-user.use-case.ts:28-67 | With the look-up on the stored form, every duplicate is EmailAlreadyExists and the unique key never refuses. On success the new user is found by its e-mail. |
| AuthUseCases.LoginUser | backend/src/application/use-cases/auth/login-user.use-case.ts:28-59 | Empty credentials are a validation error. An unknown e-mail and a wrong password give the same InvalidCredentials. Success is exactly a stored user found by the trimmed, lower-cased e-mail whose password matches; it carries a token for that id. |
| AuthUseCases.RegisteredUserCanLogIn | backend/src/application/use-cases/auth/login-user.use-case.ts:35-58 | A stored user whose e-mail matches and whose password the comparer accepts logs in with a token for their id. |
| AuthUseCases.GetCurrentUser | backend/src/application/use-cases/auth/get-current-user.use-case.ts:17-25 | Fails with UserNotFound exactly when no user has the id. Otherwise it returns that user without the password. |
| Formatters.NonPositiveIsZero | frontend/src/shared/utils/formatters.ts:9 | Every count ≤ 0 prints "0m". |
| Formatters.FormatRoundTrip | frontend/src/shared/utils/formatters.ts:8-17 | For a positive count, 60h + m is the count with 0 ≤ m < 60, and reading the printed text gives the count back. |
| Formatters.SameAsBackend | frontend/src/shared/utils/formatters.ts:8-17 | On non-negative counts the client prints exactly what the backend's formatMinutes prints. |
| Formatters.DiffersFromBackendOnNegative | frontend/src/shared/utils/formatters.ts:9 | On -30 the client shows "0m" where the backend shows "-1h -30m". |
| Formatters.Examples | frontend/src/shared/utils/formatters.ts:14-16 | 30 prints "30m", 120 prints "2h" and 90 prints "1h 30m". |
| Validators.EmailCheckMatchesPattern | frontend/src/shared/utils/validators.ts:8-11 | The split-at-the-first-@ check accepts exactly the strings of the form a@b.c, with a, b and c non-empty and free of whitespace and '@'. |
| Validators.EmailFromParts | frontend/src/shared/utils/validators.ts:8-11 | Any three non-empty parts without whitespace or '@' joined as local@name.tld are accepted. |
| Validators.EmailAccepted | frontend/src/shared/utils/validators.ts:8-11 | "test@example.com" is accepted. |
| Validators.EmailRejected | frontend/src/shared/utils/validators.ts:8-11 | "", "invalid", "invalid@", "@domain.com" and "test@.com" are rejected. |
| Validators.NotEmptyIffNotBlank | frontend/src/shared/utils/validators.ts:23-25 | isNotEmpty holds exactly when some character is not whitespace. |
| Validators.RangeAndMinutesBoundaries | frontend/src/shared/utils/validators.ts:30-39 | The range check includes both ends. isValidMinutes refuses 0, 1.5 and -5, and accepts 1. |
| Validators.MinutesAgreeWithBackend | frontend/src/shared/utils/validators.ts:37-39 | On whole numbers, isValidMinutes is the backend's isValidDuration. |
| Validators.SatisfactionAgreesWithBackend | frontend/src/shared/utils/validators.ts:51-53 | On whole numbers, isValidSatisfaction is the backend's 1..5 check. |
| Validators.ScoreScalesDiffer | frontend/src/shared/utils/validators.ts:44-46 | The client's 1..10 scores are valid on the backend's 0..100 scale, but 0 and 11..100 are refused by the client. The client also accepts 7.5. |
| Validators.TimeRangeMeaning | frontend/src/shared/utils/validators.ts:58-60 | Valid exactly when both dates parse and the end is strictly later; equal instants are invalid. |
| Validators.GetEmailError | frontend/src/shared/utils/validators.ts:65-69 | Returns the "required" message for "", the format message for a string that does not match the pattern, and none exactly for a match. |
| Validators.GetPasswordError | frontend/src/shared/utils/validators.ts:74-78 | Returns the "required" message for "", the length message below 6 characters, and none exactly from 6 characters up. |
| Validators.PasswordMinimumsDiffer | frontend/src/shared/utils/validators.ts:74-78 | A password of 6 or 7 characters passes the client's check but is refused by the backend's registration, which asks for 8. |

## Left out

- HTTP controllers, routes, middlewares and request validation with zod are not modelled. Besides mapping a `Result` to a status code, the controllers read `weeks`, `limit` and `offset` from the query string with `parseInt` (analytics.controller.ts:46, weekly-review.controller.ts:79, activity.controller.ts:64-65); that parsing is not modelled.
- `ActivityRepo.ActivityRepository.FindByUser`: `limit` and `offset` are natural numbers. A negative number or NaN from `parseInt` is not modelled; Prisma takes from the other end of the ordering on a negative `take` and throws on a negative `skip` or on NaN.
- `WeeklyReviewRepo.WeeklyReviewRepository.FindByUser`: `limit` is a natural number, so a negative or NaN limit is not modelled, for the same reason.
- `AnalyticsUseCases.GetTrends`: `weeks` is a natural number, so a negative or NaN `weeks` query parameter is not modelled.
- `WeeklyReviewUseCases.GetReviewHistory`: `limit` is a natural number, so a negative or NaN `limit` query parameter is not modelled.
- `CategoryRepo.CategoryRepository.FindAll`: names are ordered by character code (`NameAsc`). Prisma's `orderBy: { name: 'asc' }` follows the database's collation, which is not modelled.
- `CategoryRepo.CategoryRepository.FindDefaults`: the same character-code order of names.
- Prisma is replaced by the in-memory tables. A unique-constraint violation, which Prisma throws, is a repository `create` returning `None`.
  - Where a use case can reach that violation (registration with a padded e-mail), the error is the separate `EmailConstraintViolation` outcome.
  - An `update` or `delete` of a missing row, which Prisma throws on, returns `None` or `false` and changes nothing.
- The `createdAt` and `updatedAt` timestamps of budgets, priorities, activities, blocks and reviews are not modelled; the user's timestamps are.
- Generated UUIDs are modelled as natural numbers taken from a per-table counter.
- The time zone and daylight-saving time behind `new Date()` and local `Date` arithmetic are not modelled. Instants are local milliseconds, and "now" is a parameter.
- `toISOString` formatting of dates in responses is not modelled: responses carry the instant itself.
- The backend use cases turn date strings from the query string into dates with `new Date(...)`. The model takes the parsed instant instead, with an absent or empty string (which is falsy) as `None`. A malformed string is not modelled: it gives an Invalid Date, which flows through `getWeekStart` into a Prisma query that throws. The members that take such an instant are listed below.
- `WeeklyReviewUseCases.GetWeeklyReview`: `weekStart` is the parsed instant, absent for now's week; a malformed `weekStart` string is not modelled (get-weekly-review.use-case.ts:21-23).
- `AnalyticsUseCases.AnalyticsWeek`: the same parsed `weekStart` (get-weekly-analytics.use-case.ts:20-22).
- `AnalyticsUseCases.GetWeeklyAnalytics`: takes its week from `AnalyticsWeek`, so a malformed `weekStart` string is not modelled.
- `ActivityUseCases.GetActivities`: `startDate` and `endDate` are parsed instants, absent when not given or empty; malformed strings are not modelled (get-activities.use-case.ts:31-32).
- `CalendarBlockUseCases.GetCalendarBlocks`: the same for `startDate` and `endDate` (get-calendar-blocks.use-case.ts:28-33).
- The client's `isValidTimeRange` parses two date strings. The model takes the parse results, with `None` standing for an Invalid Date.
- Password hashing (bcrypt) and token generation (jsonwebtoken) are function parameters. Whether a hash matches is the comparer's answer.
- Concurrency is not modelled: each use case runs alone. This leaves out the race between the check and the insert in create-budget, create-block and register.
- JavaScript numbers are not modelled as doubles:
  - backend arithmetic is on unbounded integers;
  - the client's validators take Dafny `real`s;
  - NaN and infinities are not modelled, and neither are float artefacts at .5 rounding boundaries.
- `AnalyticsUseCases.AverageTenths`: the average satisfaction, `Math.round(avg * 10) / 10`, is given in tenths as an integer (3.5 is 35), because the division by 10 lands on a floating-point value.
- The client's `formatMinutesToHours`, `formatPercentage`, `formatDate`, `formatTime`, `formatDateTime` and `formatNumber` are not modelled. They print floating-point or locale-dependent text.
- String lengths are counted in Dafny characters, not UTF-16 code units.
- Lower-casing covers ASCII letters only, and trimming uses the ECMAScript whitespace set.
- `WeeklyReviewUseCases.CompleteWeeklyReview`: the score range 0..100 is the use case's own `isValidScore`. The zod schema's requirement that the score be a whole number is not modelled.

## Findings

| source | as written | input that shows it | evidently intended | confidence | as-written member | corrected member |
|---|---|---|---|---|---|---|
| backend/src/application/use-cases/auth/register-user.use-case.ts:39-49 | The duplicate look-up uses the e-mail as given, which is lower-cased but not trimmed. The stored e-mail is lower-cased and trimmed. Its only caller, the register route (auth.controller.ts:22), first validates the body with `registerSchema`, whose `z.string().email()` (presentation/validators/index.ts:9) refuses a padded address. So the gap is reachable only by a caller that skips the schema, such as a direct call of the use case. | "a@x.co" registered, then a direct call of the use case with " a@x.co", password "password" and name "Ana": the input checks pass, the look-up misses, and the insert hits the unique constraint instead of returning EmailAlreadyExistsError. | Look up the same normalised e-mail that is stored, so every duplicate is reported as EmailAlreadyExistsError whoever the caller is. | low impact (not reachable through the route), not executed | AuthUseCases.PaddedDuplicateReachesStore | AuthUseCases.RegisterUserNormalised |
| backend/src/application/use-cases/priorities/update-priority.use-case.ts:35-40 | The update can set `isActive` to true without rechecking the limit of four active priorities that creation enforces. | A user with four active priorities and one inactive one updates the inactive one with isActive = true: five are now active. | Refuse an activation that would exceed MAX_PRIORITIES, as creation does. | medium, not executed | PriorityUseCases.UpdateCanActivateFifth | PriorityUseCases.UpdatePriorityWithinLimit |
