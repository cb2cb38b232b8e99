# autodump in Dafny

autodump schedules database dumps with AWS Step Functions. Resources opt in
through tags:

- a Secrets Manager secret carries `autodump:start-schedule` and
  `autodump:timezone`;
- an RDS instance or cluster carries `autodump:dump-schedule`,
  `autodump:database-name` and `autodump:retention-days`.

A schedule is a five-field cron expression in autodump's dialect: `-`
stands for `*`, `:` stands for `,`, and the minute field must be concrete.

The project models three parts of autodump:

- **The scanner Lambda** (`handlers/src/scanner.ts`). It lists the secrets,
  reads each secret's tags, works out the next dump time, and starts one
  state-machine execution per scheduled secret. The input of that execution
  carries a fingerprint (`"V1"` followed by the decimal cyrb53 hash) of the
  tags the schedule was computed from.
- **The shared helpers** (`handlers/src/hash-helper.ts`): cyrb53, the
  fingerprint, camel-casing of tag keys, and the projection of a tag list
  onto the scheduling tags.
- **The scheduler Lambda** (`src/scheduler.ts`). Step Functions wakes it
  with an action. It describes the RDS resource again and rejects the
  action when the resource is gone or its tags' fingerprint changed. For a
  dump, it schedules the next dump and says whether this one may run.

Modules, one per concern:

| file | module | what |
|---|---|---|
| `wrappers.dfy` | `Wrappers` | `Option`, `Result` |
| `js_strings.dfy` | `JsStrings` | strings as UTF-16 code units: `trim`, `split(/\s+/)`, `replace`, `replaceAll`, `slice`, `<` |
| `decimal.dfy` | `Decimal` | how JavaScript renders a number, and zero padding |
| `hash_helper.dfy` | `HashHelper` | cyrb53 (32-bit `Math.imul` arithmetic on `bv32`), the fingerprint, `toCamelCase`, `getTags` |
| `cron_dialect.dfy` | `CronDialect` | `optionalCron`: validation and normalisation of the dialect, and earliest-action selection |
| `scanner.dfy` | `Scanner` | the scanner: `cronAction`, `cronActions`, `nextAction`, `formatTimestamp`, the job name, and `handler` as the class `ScanRun` |
| `scheduler.dfy` | `Scheduler` | the scheduler: the four-field fingerprint, `getActionName`, `cronAction`, `cronActions`, `nextAction`, `calculateWhen`, `rdsTags`, `startExecution`, `processStateAction`, `handler` |

Both Lambdas share one definition of each of these: `cyrb53`,
`optionalCron` and `toCamelCase`. Their two source copies have the same
text.

The outside world comes in as parameters:

- the clock, as `now`;
- cron-parser's next occurrence, as `nextFire`;
- luxon's rendering of a date, as `formatWhen`;
- the local-time date fields of a timestamp, as `dateParts`;
- what Secrets Manager, DescribeDBInstances/DescribeDBClusters and
  StartExecution answer, as oracle functions and outcome values.

## Model

| member | source | states |
|---|---|---|
| JsStrings.TrimStart | handlers/src/scanner.ts:45 | the result is a suffix of the input; the leading code units `trim` drops are all whitespace, and the result does not start with whitespace |
| JsStrings.TrimEnd | handlers/src/scanner.ts:45 | the result is a prefix; the dropped code units are whitespace; the result does not end with whitespace |
| JsStrings.TrimIsInfix | handlers/src/scanner.ts:45 | `trim` returns the infix between a whitespace-only prefix and suffix, with non-whitespace at both ends |
| JsStrings.TrimNoWhitespace | handlers/src/hash-helper.ts:46 | `trim` leaves a string without whitespace unchanged |
| JsStrings.TrimIdempotent | handlers/src/hash-helper.ts:46 | trimming twice is trimming once |
| JsStrings.Take | src/scheduler.ts:83 | `slice(0, n)` keeps a prefix of length min(length, n) |
| JsStrings.ReplaceFirstAtStart | handlers/src/hash-helper.ts:45 | `replace` of a pattern that starts the string removes exactly that occurrence |
| JsStrings.ReplaceAllLength | handlers/src/scanner.ts:45 | `replaceAll` with a replacement as long as the pattern keeps the length |
| JsStrings.ReplaceAllUnit | handlers/src/scanner.ts:45 | `replaceAll(":", ",")` replaces every colon and changes nothing else |
| JsStrings.WordLength | handlers/src/scanner.ts:34 | the first piece of `split(/\s+/)` is the maximal whitespace-free prefix |
| JsStrings.GapLength | handlers/src/scanner.ts:34 | a separator of `split(/\s+/)` is a maximal whitespace run |
| JsStrings.SplitWhitespace | handlers/src/scanner.ts:34 | `split(/\s+/)` yields at least one piece |
| JsStrings.SplitPiecesHaveNoWhitespace | handlers/src/scanner.ts:34 | no piece of `split(/\s+/)` contains whitespace |
| JsStrings.SplitLeadingWhitespace | handlers/src/scanner.ts:34 | leading whitespace yields an empty first piece |
| JsStrings.SplitTrailingWhitespace | handlers/src/scanner.ts:34 | trailing whitespace yields an empty last piece |
| JsStrings.LessIrreflexive | handlers/src/scanner.ts:103 | string `<` is irreflexive |
| JsStrings.LessTransitive | handlers/src/scanner.ts:103 | string `<` is transitive |
| JsStrings.LessTotal | handlers/src/scanner.ts:103 | of two different strings, one is `<` the other |
| JsStrings.LessAsymmetric | handlers/src/scanner.ts:103 | string `<` is asymmetric |
| Decimal.NatToString | handlers/src/hash-helper.ts:29 | a non-negative number renders as decimal digits with no leading zero |
| Decimal.NatToStringRoundTrip | handlers/src/hash-helper.ts:29 | reading the rendered digits back gives the number |
| Decimal.NatToStringInjective | handlers/src/hash-helper.ts:29 | different numbers render differently |
| Decimal.IntToString | handlers/src/scanner.ts:188 | an integer renders as digits, with a leading `-` exactly when negative |
| Decimal.IntToStringInjective | handlers/src/scanner.ts:188 | different integers render differently |
| Decimal.PadTwo | handlers/src/scanner.ts:183-186 | the padded field is digits, with a leading `0` exactly when the value is below 10 |
| Decimal.PadTwoValue | handlers/src/scanner.ts:183-186 | a value below 100 pads to two digits that read back as the value |
| Decimal.DigitsValueBound | handlers/src/hash-helper.ts:25 | k digits read as less than 10^k |
| Decimal.DigitsOrder | handlers/src/scanner.ts:103 | for digit strings of equal length, string `<` is numeric `<` |
| HashHelper.AbsorbAppend | handlers/src/hash-helper.ts:15-19 | absorbing a + b is absorbing a, then b |
| HashHelper.Low21 | handlers/src/hash-helper.ts:25 | `2097151 & h2` is below 2^21 |
| HashHelper.Unsigned | handlers/src/hash-helper.ts:25 | `h1 >>> 0` is below 2^32 |
| HashHelper.Combine | handlers/src/hash-helper.ts:25 | `4294967296 * high + low` is below 2^53, and high and low can be read back from it |
| HashHelper.Finish | handlers/src/hash-helper.ts:20-25 | the final mixing gives a hash below 2^53 |
| HashHelper.DigestAbsorbs | handlers/src/hash-helper.ts:13-26 | the recursive digest is finishing what absorbing the whole string gives |
| HashHelper.Cyrb53 | handlers/src/hash-helper.ts:13-26 | the loop over the code units computes the cyrb53 value, which is below 2^53; src/scheduler.ts:29-42 is the same text |
| HashHelper.Subject | handlers/src/hash-helper.ts:29 | the hashed subject (timezone, a bar, start schedule) is never empty |
| HashHelper.Fingerprint | handlers/src/hash-helper.ts:29 | a fingerprint is `"V1"` followed by the decimal digits of the subject's cyrb53 |
| HashHelper.FingerprintAgree | handlers/src/hash-helper.ts:29 | two fingerprints are equal exactly when the cyrb53 values are |
| HashHelper.HashTagsV1 | handlers/src/hash-helper.ts:28-30 | the tag fingerprint is `"V1"` followed by the digits of cyrb53 of the timezone and the start schedule joined by a bar |
| HashHelper.HashTagsV1Agree | handlers/src/hash-helper.ts:28-30 | two tag sets have equal fingerprints exactly when their subjects' hashes agree |
| HashHelper.AbsentHashesAsEmpty | handlers/src/hash-helper.ts:29 | an absent tag and an empty one give the same fingerprint |
| HashHelper.SeparatorCollision | handlers/src/hash-helper.ts:29 | values containing the bar separator make different tag sets collide: (`a` + bar, `b`) and (`a`, bar + `b`) |
| HashHelper.AlnumPrefixLength | handlers/src/hash-helper.ts:33 | the first match of `/[a-zA-Z0-9]+/` is the longest alphanumeric prefix: every code unit before its end is alphanumeric, and the next one, if any, is not |
| HashHelper.AlnumRuns | handlers/src/hash-helper.ts:33 | every match of `/[a-zA-Z0-9]+/g` is a non-empty run of alphanumerics |
| HashHelper.AlnumPrefixOfWord | handlers/src/hash-helper.ts:33 | an alphanumeric word followed by a separator matches as a whole |
| HashHelper.RunsOfWord | handlers/src/hash-helper.ts:33 | the matches of a word and the rest are the word, then the matches of the rest |
| HashHelper.PrefixStopsAtSeparator | handlers/src/hash-helper.ts:33 | a match ends at the first non-alphanumeric code unit, whatever follows it |
| HashHelper.RunsSplitAtSeparator | handlers/src/hash-helper.ts:33 | a non-alphanumeric code unit splits the matches: those of the text before it, then those of the text after it |
| HashHelper.KeepAlnumAppend | handlers/src/hash-helper.ts:33 | the alphanumeric code units of a + b are those of a followed by those of b |
| HashHelper.RunsKeepAlnum | handlers/src/hash-helper.ts:33 | the matches of `/[a-zA-Z0-9]+/g`, joined, are exactly the alphanumeric code units of the string, in order |
| HashHelper.CamelCaseOneWord | handlers/src/hash-helper.ts:32-35 | `toCamelCase` leaves a lower-case alphanumeric word unchanged |
| HashHelper.CamelCaseTwoWords | handlers/src/hash-helper.ts:32-35 | `toCamelCase("a-b")` is `a` followed by `b` capitalised |
| HashHelper.JoinCapitalizedLetters | handlers/src/hash-helper.ts:33-34 | joining the capitalised matches gives only alphanumerics, the same as the matches joined up to case |
| HashHelper.CamelCaseKeepsAlnum | handlers/src/hash-helper.ts:32-35 | `toCamelCase` returns only alphanumerics: exactly the alphanumeric code units of its input, in order, with only their case changed |
| HashHelper.CamelCase | handlers/src/hash-helper.ts:32-35 | `toCamelCase`; its properties are stated by `HashHelper.CamelCaseKeepsAlnum`, `HashHelper.CamelCaseOneWord` and `HashHelper.CamelCaseTwoWords`; src/scheduler.ts:182-185 is the same text |
| HashHelper.RenamedStartSchedule | handlers/src/hash-helper.ts:45 | the key `autodump:start-schedule` becomes `startSchedule` |
| HashHelper.RenamedTimezone | handlers/src/hash-helper.ts:45 | the key `autodump:timezone` becomes `timezone` |
| HashHelper.ReduceStepContribution | handlers/src/hash-helper.ts:42-50 | one reduce step yields exactly the record of that tag, whatever came before |
| HashHelper.ReduceKeepsLast | handlers/src/hash-helper.ts:42-51 | the reduce returns the record of the last tag only |
| HashHelper.GetTagsLastTagOnly | handlers/src/hash-helper.ts:37-53 | `getTags` is `{}` without tags and otherwise the last tag's record; it never holds both fields |
| HashHelper.GetTags | handlers/src/hash-helper.ts:37-53 | `getTags`; `HashHelper.GetTagsLastTagOnly` states that it is `{}` without tags and otherwise the record of the last tag alone |
| CronDialect.ValidateCron | handlers/src/scanner.ts:33-45 | an absent or empty value gives no schedule; any other value is rejected exactly when `split(/\s+/)` does not give five fields or the first field trims to `*` or `-`; an accepted value has five fields and is returned normalised; src/scheduler.ts:90-106 is the same text |
| CronDialect.Normalize | handlers/src/scanner.ts:45 | `trim`, then `replaceAll(" -", " *")`, then `replaceAll(":", ",")`; stated by `CronDialect.NormalizePointwise` and `CronDialect.NormalizeShape` |
| CronDialect.OptionalCron | handlers/src/scanner.ts:29-52 | `optionalCron`: the validation of `CronDialect.ValidateCron`, then cron-parser on the normalised value a minute ahead; `Scanner.CronAction` states its outcomes |
| CronDialect.DashToStarPointwise | handlers/src/scanner.ts:45 | `replaceAll(" -", " *")` stars exactly the dashes after a space |
| CronDialect.NormalizePointwise | handlers/src/scanner.ts:45 | normalisation maps the trimmed value code unit by code unit |
| CronDialect.NormalizeShape | handlers/src/scanner.ts:45 | a normalised expression has no colon, no dash after a space, and no whitespace at its ends |
| CronDialect.NormalizeExample | handlers/src/scanner.ts:45 | `"3 16 - - -"` becomes `"3 16 * * *"` |
| CronDialect.SplitFirstWord | handlers/src/scanner.ts:34 | a word, whitespace, then the rest split as the word followed by the rest's pieces |
| CronDialect.SplitOneWord | handlers/src/scanner.ts:34 | a whitespace-free string splits into itself |
| CronDialect.LeadingWhitespaceCounts | handlers/src/scanner.ts:34-35 | leading whitespace adds an empty field to the count |
| CronDialect.NormalizeDropsLeadingWhitespace | handlers/src/scanner.ts:45 | normalisation ignores leading whitespace |
| CronDialect.MinuteRule | handlers/src/scanner.ts:40-44 | a well-formed five-field value is rejected exactly when its minute is `*` or `-` |
| CronDialect.LeadingWhitespaceSkipsMinuteCheck | handlers/src/scanner.ts:34-45 | with leading whitespace, four fields pass as five and the minute check sees an empty field |
| CronDialect.EarliestIndex | handlers/src/scanner.ts:101-106 | the selected index is in range exactly when there are actions |
| CronDialect.EarliestIndexIsFirstEarliest | handlers/src/scanner.ts:101-106 | the selection is the first action with the smallest `when` |
| CronDialect.EarliestIsMinimal | handlers/src/scanner.ts:101-106 | no action is strictly earlier than the selected one |
| CronDialect.SelectEarliest | handlers/src/scanner.ts:97-109 | the loop selects nothing for no actions and otherwise the first earliest; src/scheduler.ts:162-173 loops the same way |
| Scanner.CronAction | handlers/src/scanner.ts:54-80 | both ways: an empty schedule gives none; a rejected schedule gives its validation error; for an accepted one, an unparsable expression is an error, no next occurrence gives none, and a next occurrence gives the action with the resource's id, its fingerprint and that time, read in the resource's zone |
| Scanner.ScheduledActions | handlers/src/scanner.ts:82-95 | no start schedule gives no action; with one, an error of `cronAction` is the error, its action is the only action, and no action from it gives none |
| Scanner.CronActions | handlers/src/scanner.ts:82-95 | the push loop collects the scheduled actions |
| Scanner.NextAction | handlers/src/scanner.ts:97-109 | `nextAction` returns the earliest scheduled action |
| Scanner.EarliestAction | handlers/src/scanner.ts:97-109 | what `nextAction` selects; `Scanner.EarliestIsTheOnlyAction` states that it is the only scheduled action, and none exactly when nothing is scheduled |
| Scanner.EarliestIsTheOnlyAction | handlers/src/scanner.ts:97-109 | the earliest action is the only one, and there is none exactly when nothing is scheduled |
| Scanner.ScannedSchedulesUseUtc | handlers/src/scanner.ts:63 | a secret with a start schedule never has a timezone after `getTags`, so its schedule is read in UTC |
| Scanner.ScannedScheduleAction | handlers/src/scanner.ts:63-95 | a secret whose last tag is the start schedule with an accepted value and a next occurrence gets exactly one action: its ARN, the fingerprint of that schedule in UTC, and that time |
| Scanner.FormatTimestamp | handlers/src/scanner.ts:173-189 | `formatTimestamp`; stated by `Scanner.FormatTimestampFields` and `Scanner.FormatTimestampInjective` |
| Scanner.FormatTimestampFields | handlers/src/scanner.ts:173-189 | the timestamp is the year, then `-` and two digits each for month, day, hours and minutes |
| Scanner.FormatTimestampInjective | handlers/src/scanner.ts:173-189 | different date fields format differently |
| Scanner.JobName | handlers/src/scanner.ts:290-296 | the job name is empty without a name or database; otherwise it is a prefix of `name[..60]-database-time` whose length is the smaller of 80 and that string's length |
| Scanner.JobNameKeepsSecretName | handlers/src/scanner.ts:290-296 | the name's first 60 code units survive, and a short name is not cut |
| Scanner.ResolveArn | handlers/src/scanner.ts:195-229 | the Event Bridge `stateMachineArn` overrides `StateMachine.Id` |
| Scanner.ActionRequest | handlers/src/scanner.ts:288-309 | a request is sent exactly when the database name can be read, with the action as input and a name of at most 80 |
| Scanner.RequestFor | handlers/src/scanner.ts:275-318 | the step fails exactly on a cron error or a failed lookup; a request needs a next time and an ARN; with a next time, an ARN and a readable secret the request is exactly the one for the action at that time |
| Scanner.Dispatch | handlers/src/scanner.ts:255-321 | a request for a tag carries the secret's ARN and the fingerprint of the secret's tags |
| Scanner.DispatchSends | handlers/src/scanner.ts:255-321 | both ways: a scheduling error fails the tag, no scheduled action sends nothing, and the one scheduled action with an ARN and a readable secret sends exactly its request, named from the secret's name, its database and the formatted time |
| Scanner.ScheduledTagSends | handlers/src/scanner.ts:255-321 | a tag of a secret whose last tag is the start schedule with an accepted value and a next occurrence sends a request for that schedule at that time |
| Scanner.TagsRun | handlers/src/scanner.ts:254-322 | the tag loop as a fold over the tags; its lemmas below state what it sends |
| Scanner.SecretsRun | handlers/src/scanner.ts:251-328 | the secret loop as a fold over the secrets; its lemmas below state what it sends |
| Scanner.HandlerResult | handlers/src/scanner.ts:193-335 | what `handler` returns and sends; `Scanner.HandlerRequests` and `Scanner.HandlerReturns` state its outcome, and `Scanner.ScanRun.Handler` is proved equal to it |
| Scanner.TagsRunNext | handlers/src/scanner.ts:254-322 | the run over the tags advances one tag at a time |
| Scanner.TagsRunStopsAtFailure | handlers/src/scanner.ts:254-322 | after a failure no further tag changes anything |
| Scanner.SecretsRunStopsAtFailure | handlers/src/scanner.ts:251-328 | after a failure no further secret changes anything |
| Scanner.TagsRunWellFormed | handlers/src/scanner.ts:254-322 | every request sent goes to the resolved state machine with a name of at most 80 |
| Scanner.SecretsRunWellFormed | handlers/src/scanner.ts:251-328 | the same holds over all secrets |
| Scanner.HandlerRequests | handlers/src/scanner.ts:193-335 | no ARN returns false before listing; a failed listing rejects; every request sent goes to the resolved state machine with a name of at most 80 |
| Scanner.TagsRunFails | handlers/src/scanner.ts:254-322 | the tag loop fails exactly when it had failed before, or an eligible tag meets a secret whose scheduling throws |
| Scanner.SecretStepFails | handlers/src/scanner.ts:252-327 | one secret fails the scan exactly when it had failed before or that secret throws: a non-empty tag list with an eligible tag and a throwing schedule, lookup or dispatch |
| Scanner.ThrowingSecretsAt | handlers/src/scanner.ts:251-328 | the flag of each listed secret says whether that secret throws |
| Scanner.SecretsRunFails | handlers/src/scanner.ts:251-328 | the secret loop fails exactly when it had failed before or some secret throws |
| Scanner.HandlerReturns | handlers/src/scanner.ts:246-334 | with a resolved state machine, no secret list returns true; a secret list never rejects, and returns false exactly when some secret has an eligible tag whose scheduling throws into the catch-all |
| Scanner.TagsRunIdle | handlers/src/scanner.ts:255-321 | a secret whose tags project to no schedule sends nothing |
| Scanner.SecretNeedsScheduleLast | handlers/src/scanner.ts:264 | a secret whose last tag is not the start schedule sends nothing, because `getTags` keeps only the last tag |
| Scanner.TagsRunQuiet | handlers/src/scanner.ts:254-322 | when the secret's step sends nothing, no tag changes the run |
| Scanner.TagsRunRepeats | handlers/src/scanner.ts:254-322 | when the secret's step sends a request, the tag loop sends that request once per start-schedule tag and does not fail |
| Scanner.TagStepRepeats | handlers/src/scanner.ts:255-321 | one tag sends the request exactly when it is a start-schedule tag |
| Scanner.ScheduledSecretSends | handlers/src/scanner.ts:251-328 | a secret whose last tag is the start schedule with an accepted value, a next occurrence and a readable secret sends one request for that time per start-schedule tag, at least one |
| Scanner.ScanRun.constructor | handlers/src/scanner.ts:248-249 | a run starts with nothing sent and empty `resources` and `action` |
| Scanner.ScanRun.ScanTag | handlers/src/scanner.ts:255-321 | one tag appends exactly its request to the log and leaves `resources` and `action` empty |
| Scanner.ScanRun.ScheduleNext | handlers/src/scanner.ts:277-318 | scheduling appends exactly the request for the next time |
| Scanner.ScanRun.SendAction | handlers/src/scanner.ts:278-309 | sending appends the request unless the lookup fails |
| Scanner.ScanRun.ScanTags | handlers/src/scanner.ts:254-322 | the tag loop's log is the specification's log |
| Scanner.ScanRun.ScanSecret | handlers/src/scanner.ts:252-327 | a secret with tags runs the tag loop; one without tags sends nothing |
| Scanner.ScanRun.Handler | handlers/src/scanner.ts:193-335 | the handler returns the specification's outcome and appends exactly its requests |
| Scheduler.DumpSubject | src/scheduler.ts:45-46 | the scheduler's hashed subject ends with the bar separator |
| Scheduler.DumpTagsHash | src/scheduler.ts:44-47 | the fingerprint is `"V1"` followed by the digits of cyrb53 of the four fields, absent ones empty, each followed by a bar |
| Scheduler.DumpAbsentHashesAsEmpty | src/scheduler.ts:45-46 | for each of the four fields, absent and empty give the same fingerprint |
| Scheduler.CronAction | src/scheduler.ts:108-127 | `cronAction` fails exactly when `optionalCron` throws; an action with a `when` has the dump kind and the next occurrence; otherwise `when` is empty and there is no `action` field |
| Scheduler.ScheduledDumps | src/scheduler.ts:129-160 | one action exactly when the dump schedule is non-empty, and it is `cronAction`'s |
| Scheduler.CronActions | src/scheduler.ts:129-160 | the push collects the scheduled dumps |
| Scheduler.NextDump | src/scheduler.ts:162-173 | there is no next action exactly when there is no dump schedule; otherwise it is the only scheduled dump |
| Scheduler.NextAction | src/scheduler.ts:162-173 | the selection loop returns the next dump |
| Scheduler.NextDumpCarriesFingerprint | src/scheduler.ts:108-127 | a scheduled action names its resource and carries the fingerprint of the tags it was made from |
| Scheduler.CalculateWhen | src/scheduler.ts:175-180 | the result is never before `now`; it is `time + minutes` when that is not past, and otherwise a whole second in the minute from `now + 59 s` (exclusive) to `now + 60 s` |
| Scheduler.IdText | src/scheduler.ts:81 | with `hashId` the id is the decimal cyrb53 of the resource id, otherwise the id itself |
| Scheduler.NameHead | src/scheduler.ts:82 | the type, id and kind joined by dashes; `Scheduler.ActionNameAsWritten` and `Scheduler.ActionName` state how it is cut |
| Scheduler.NameTail | src/scheduler.ts:83 | the formatted time and the fingerprint; `Scheduler.ActionNameAsWritten` and `Scheduler.ActionName` state how it is cut |
| Scheduler.ActionNameAsWritten | src/scheduler.ts:79-84 | as written, the name is the full head followed by at most 80 code units of the tail |
| Scheduler.ActionNameAsWrittenTooLong | src/scheduler.ts:82-83 | a cluster id of 63 code units gives a name longer than 80 |
| Scheduler.ActionName | src/scheduler.ts:79-84 | corrected, the name is a prefix of the full name whose length is the smaller of 80 and the full name's length |
| Scheduler.ActionNameAgreesWhenShort | src/scheduler.ts:82-83 | the two readings agree exactly when the full name fits in 80 |
| Scheduler.RdsTagsAsWritten | src/scheduler.ts:248-260 | as written, `rdsTags` is `{}` without a tag list, throws on a scheduling tag without a value, and otherwise returns undefined |
| Scheduler.RdsTagsAsWrittenLosesSchedule | src/scheduler.ts:252-259 | one dump-schedule tag is lost as written and kept, trimmed, when the record is returned |
| Scheduler.RdsTags | src/scheduler.ts:248-260 | corrected, `rdsTags` is `{}` without a tag list |
| Scheduler.RdsReduceSnoc | src/scheduler.ts:252-259 | the reduce over one more tag is one more step |
| Scheduler.RdsTagStep | src/scheduler.ts:253-257 | one reduce step; `Scheduler.RdsTagsFields` states the record it builds |
| Scheduler.RdsKeysRenamed | src/scheduler.ts:256 | the three keys lose the prefix and become `dumpSchedule`, `databaseName`, `retentionDays`, all different from `timezone` |
| Scheduler.RdsTagsFields | src/scheduler.ts:248-260 | the corrected `rdsTags` throws exactly when a scheduling tag lacks a value; otherwise each field is the trimmed value of the last tag with its key, and there is never a timezone |
| Scheduler.RdsTagsTimezone | src/scheduler.ts:248-260 | RDS tags never set a timezone, so RDS schedules are read in UTC |
| Scheduler.DescribedFor | src/scheduler.ts:262-325 | describing fails exactly when the call for the action's type throws; the resources described are of that type |
| Scheduler.DescribedInstance | src/scheduler.ts:269-280 | a described instance has the type `rds-instance`, no timezone and no state |
| Scheduler.DescribedCluster | src/scheduler.ts:303-315 | a described cluster has the type `rds-cluster`, no timezone and no state |
| Scheduler.StartExecution | src/scheduler.ts:188-200 | no action sends nothing; an action sends one request carrying it, to the state machine, named by the corrected name with `hashId` exactly for instances; a refused request rejects |
| Scheduler.DumpVerdict | src/scheduler.ts:225-244 | a dump runs exactly when the resource is stopped |
| Scheduler.ProcessStateAction | src/scheduler.ts:202-246 | a describe call that throws rejects with nothing sent; no described resource gives "Instance no longer exists"; a matching dump whose schedule cannot be read rejects with nothing sent; a request is sent or a dump runs only for a dump whose fingerprint matches; an action that is not a dump and whose fingerprint matches wakes with no error and sends nothing |
| Scheduler.MismatchSendsNothing | src/scheduler.ts:214-223 | a changed fingerprint answers "Tags do not match execution" with the resource and sends nothing |
| Scheduler.DumpReschedules | src/scheduler.ts:188-244 | a matching dump sends one request, for the next dump, exactly when there is a dump schedule; it rejects exactly when StartExecution refuses that request; otherwise its verdict is the stopped check |
| Scheduler.WakeRejects | src/scheduler.ts:194-244 | a wake rejects exactly when the describe call throws, or, for a matching dump, when its dump schedule cannot be read or StartExecution refuses the request |
| Scheduler.DescribedResourcesNeverRun | src/scheduler.ts:226 | with resources as the describe calls build them (no state), a dump never runs |
| Scheduler.ScheduledActionMatchesUnchangedTags | src/scheduler.ts:202-223 | the action scheduled for a resource passes the existence and fingerprint checks while the resource's tags are unchanged |
| Scheduler.Handler | src/scheduler.ts:341-357 | tag-change events do nothing; non-RDS types are rejected; RDS actions go to `processStateAction` |
| Scheduler.HandlerSendsOnlyForMatchingDumps | src/scheduler.ts:341-357 | a request is only ever sent for an RDS dump whose fingerprint matches |

## Left out

- AWS calls are not modelled as I/O. Their outcomes are parameters:
  - ListSecrets, as `Scanner.ListOutcome`;
  - GetSecretValue, as `Env.lookup`;
  - StartExecution, as `SchedulerEnv.accepts` in the scheduler; in the scanner its errors are swallowed;
  - DescribeDBInstances and DescribeDBClusters, as `Scheduler.Describe`.
- Their catch blocks are inverted: NotFound is rethrown and other errors are swallowed. This shows up only as which `Describe` outcome a call has (`DescribeThrew` or a list, possibly empty).
- cron-parser (`parseExpression`, `hasNext`, `next`) is the parameter `nextFire`. It covers time zones, and the ISO string of the next occurrence. Its anchor is `now + 60000`.
- luxon's `DateTime.fromISO(...).toFormat(...)` is the parameter `formatWhen`.
- The local-time `Date` getters are the parameter `dateParts`; the date fields are integers.
- `JSON.parse` and `JSON.stringify` are left out. Requests carry the action value itself, not its JSON text.
- `console.log` is left out.
- `handleCloudWatchEvent` is modelled as doing nothing, because its body is commented out.
- `optionalNumber` is left out. It is unused and parses floating point.
- Scanner.Env: the clock is read once per invocation, and GetSecretValue answers as a fixed function of the ARN. The source reads `Date.now()` in `optionalCron` and calls GetSecretValue once per eligible tag (handlers/src/scanner.ts:48, :275, :288). Every eligible tag of a secret and every secret of a scan therefore share one clock reading and one lookup answer. `Scanner.TagsRunRepeats` and `Scanner.ScheduledSecretSends`, which send the same request once per start-schedule tag, rely on that.
- Scheduler.CalculateWhen: takes `time` as epoch milliseconds. It does not model an unparsable `time` (NaN). It reads the clock once, where the source reads it twice.
- The scheduler's `event.StateMachine.Id` is taken as present. A missing one would throw before routing.
- The cluster resource's `dumpSchedule` constant and `instanceIds` are not modelled; nothing reads them.
- `resource.state` is never set by the describe calls. The model keeps it as an optional field of `RdsResource`.
- Scheduler.DescribedInstance: uses the corrected `rdsTags`. As written, `rdsTags` returns undefined for a tag list, and `hashTagsV1(undefined)` then throws inside the describe call's `try`. The model does not trace that consequence beyond `RdsTagsAsWritten`.
- Scheduler.StartExecution: names the execution with the corrected `Scheduler.ActionName`, cut as a whole to 80 code units. As written, src/scheduler.ts:197 calls `getActionName`, whose name is `Scheduler.ActionNameAsWritten`'s and can be longer than 80. The bound of 80 in `Scheduler.DumpReschedules` holds for the corrected program only.
- Scheduler.DescribedCluster: uses the corrected `rdsTags`, like `Scheduler.DescribedInstance`. As written, a cluster with a tag list gets undefined tags, and the fingerprint call then throws inside the describe call's `try`.
- Scanner.Eligible: drops the `tag.Value !== null` test of handlers/src/scanner.ts:257. The SDK leaves a missing value undefined, never null, so the test always passes, and a tag without a value (`None`) is eligible, as in the source.
- Strings are sequences of UTF-16 code units, and whitespace is ECMAScript's WhiteSpace and LineTerminator set. Nothing depends on a locale.

## Findings

| source | as written | input that shows it | evidently intended | confidence | as-written member | corrected member |
|---|---|---|---|---|---|---|
| src/scheduler.ts:82-83 | `.slice(0, 80)` binds to the second template literal only, so only the date and fingerprint part is cut and the execution name is unbounded | an `rds-cluster` action whose id has 63 code units gives a name over 80 (`Scheduler.ActionNameAsWrittenTooLong`) | the whole name cut to 80, the Step Functions limit | not executed | Scheduler.ActionNameAsWritten | Scheduler.ActionName |
| src/scheduler.ts:248-260 | the reduce result is never returned, so `rdsTags` returns undefined for every resource with a tag list | one tag `autodump:dump-schedule` with any value (`Scheduler.RdsTagsAsWrittenLosesSchedule`) | return the accumulated record | not executed | Scheduler.RdsTagsAsWritten | Scheduler.RdsTags |
