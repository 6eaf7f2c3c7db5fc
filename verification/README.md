# Safezone tracking: status engine, disease picker and form rules

A caregiver sets a safezone (a centre and two radii) around a dependent
person. A device reports the person's distance from the centre, and the
location endpoint does the following:

- It classifies the distance as Inside (0), Caution (1), Alert (3) or Breach (2).
- It overwrites the one latest location row of the (user, cared-for person) pair.
- It pushes a LINE notification to the caregiver unless the status equals the one stored before.

The live-map page polls for that row and centres the map. The sign-up and
profile forms are checked by zod schemas. The chronic-disease picker reads
and emits a comma-separated list of diseases.

The modules follow the source files:

| module | file | models |
|---|---|---|
| `Js` | | `undefined` as `Option`, and `Number(...)` as `Num` (a real or NaN) |
| `JsString` | | `String.prototype.trim` with the ECMAScript whitespace set, `split` on one character, `join`, `includes` and the regular expression `/^[0-9]+$/` |
| `ZoneStatus` | `src/pages/api/sentlocation.ts` | the status if-chain |
| `SentLocation` | `src/pages/api/sentlocation.ts` | `handle`, in two forms. `Handle` is a function from the database before the call to the database after it and the response. Class `LocationService` holds the tables as fields, and its `Report` method runs the handler statement by statement and is proved equal to `Handle`. |
| `ChronicDisease` | `src/components/Form/ChronicDiseaseSelect.tsx` | the parsing and emitting of the comma string; `mergeOptions`, as a method with the source's two loops and the splice, proved equal to the function `Merged`; the handlers as functions on a `Picker` state, and as methods of class `ChronicDiseaseSelect`, whose fields are the component's state hooks |
| `CommonRules` | `src/components/validations/commonRules.ts` | `optionalDigitsRule` |
| `RegistrationSchema` | `src/components/validations/registrationSchema.ts` | the field rules; the form's validity; the set of keys `safeParse` reports issues on |
| `UserEditSchema` | `src/components/validations/cuserinfoSchema.ts` | the profile form, whose rules are those of the sign-up form |
| `ElderlySchema` | `src/components/validations/elderlyRegistrationSchema.ts` | the dependent person's form |
| `LocationPage` | `src/pages/location.tsx` | the no-location fallback, the polling interval and the map centre, as class `LocationView` |

The database, the LINE push and the clock enter `Handle` as parameters:

- The tables are a `Db` value.
- The `Fault` parameter names the first awaited call that throws.
- `now` stands for `new Date()`.

Zod's semantics are modelled as follows:

- A required key that is missing (`undefined`) aborts the object's parse, so the `superRefine` that compares the passwords does not run.
- A failed `min`, `length`, `regex` or `refine` only marks the parse dirty.

Two choices of the code are worth stating, because a notifier could reasonably do otherwise:

- A first report for a key does not skip the notification path. `previousStatus === null` does not return early at `sentlocation.ts:87`, so a first report notifies instead of being taken as a silent baseline. See `FirstReportNotifies`.
- A failure of the contact lookup or the push is caught by the one `catch` block and answered with a 500, although the row has already been written. A failed notification therefore fails the call. See `PushFailureAfterWrite`.

## Model

| member | source | states |
|---|---|---|
| ZoneStatus.Classify | src/pages/api/sentlocation.ts:33-48 | The status is always one of 0, 1, 2, 3. A NaN distance matches no band and keeps the initial 0. A real distance is Inside exactly when it is at most r1. It is Breach exactly when it exceeds r1 and r2 and is at least 0.8·r2. |
| ZoneStatus.ClassifyMatchesBands | src/pages/api/sentlocation.ts:39-48 | For radii with 0 ≤ r2 and r1 < 0.8·r2, the chain returns a status exactly when the distance lies in that status's band of the table: the four bands have no gap and no overlap. |
| ZoneStatus.ClassifySound | src/pages/api/sentlocation.ts:39-48 | For any radii, a real distance lies in the band of the status it gets. Only NaN reaches the trailing default. |
| ZoneStatus.ClassifyMonotone | src/pages/api/sentlocation.ts:39-48 | For any radii, a larger distance never gets a less severe status on the scale Inside < Caution < Alert < Breach. |
| ZoneStatus.ClassifyBoundaries | src/pages/api/sentlocation.ts:40-47 | r1 itself is Inside. The threshold 0.8·r2 and r2 are Alert. Just above r1 is Caution, and just above r2 is Breach. |
| SentLocation.Evaluate | src/pages/api/sentlocation.ts:87-89 | The decision is Skip exactly when a previous status exists and equals the new one. Otherwise it is Notify of the new status. |
| SentLocation.Recipient | src/pages/api/sentlocation.ts:92-127 | A message is pushed exactly when the user exists, an active (`takecare_status` 1) cared-for person exists and the user's LINE id is non-empty. It goes to that LINE id and carries the new status. A postback is attached exactly when the status is Breach, and it carries the LINE id and the cared-for person's id. |
| SentLocation.Handle | src/pages/api/sentlocation.ts:6-138 | The response code is one of 200, 400, 404, 405 and 500, and 500 only when some call threw. |
| SentLocation.Recorded | src/pages/api/sentlocation.ts:33-133 | The handler from the classification on. `HandleContract` states its effect. |
| SentLocation.Answer | src/pages/api/sentlocation.ts:86-133 | The answer after the write: skip, contact lookups, push, and the 500 when they throw. `HandleContract` states its effect. |
| SentLocation.HandleContract | src/pages/api/sentlocation.ts:6-138 | A method other than PUT and POST gives 405 with nothing touched. A missing field (0 and "" are accepted) gives 400. No safezone gives 404 with the store unchanged. Without a write there is no change and no push. When the write happens, exactly the key's row changes: it is overwritten in place with its id, or created with a fresh id. It holds the computed status, `locat_noti_status` 1, the request's fields and `now`. The decision compares with the status read before the write. A skip answers 200 without a push. A push happens exactly on the notification path when the contact lookup succeeds, and it is `Recipient`'s message, so a status change is never silently dropped. A written row is answered with 200 unless the contact lookup or the push fails. A 500 after the write comes only from those two: a failed contact lookup sends nothing, and a failed push of a message answers 500. |
| SentLocation.HandlePreservesValid | src/pages/api/sentlocation.ts:76-84 | Every row stays under its own key, and the row ids stay distinct and below the next id. |
| SentLocation.FirstReportNotifies | src/pages/api/sentlocation.ts:73-89 | A report for a key with no row reaches the notification path with the new status. |
| SentLocation.PushFailureAfterWrite | src/pages/api/sentlocation.ts:121-133 | When the push throws on the notification path, the answer is 500 without a row, yet the key's row already holds the new status and time. |
| SentLocation.RepeatedStatusNeverNotifies | src/pages/api/sentlocation.ts:86-89 | Once the key's row holds status s, any number of further reports classified as s each answer 200 with a skip and no push, and the row keeps s. |
| SentLocation.TransitionNotifiesOnce | src/pages/api/sentlocation.ts:73-89 | After a report stored as a, a report classified as b ≠ a goes to the notification path with b, and a repeated b is skipped. |
| SentLocation.LocationService.Report | src/pages/api/sentlocation.ts:6-138 | The new tables and the response are those of `Handle` on the old tables, and the row invariant is kept. |
| SentLocation.LocationService.Run | src/pages/api/sentlocation.ts:7-31 | The early returns (405, 400, 500 on the safezone lookup, 404) and the rest of the handler agree with `Handle`. |
| SentLocation.LocationService.Record | src/pages/api/sentlocation.ts:33-84 | The classification, the read of the latest row, and the update in place or the create agree with `Handle`'s write. |
| SentLocation.LocationService.Respond | src/pages/api/sentlocation.ts:86-129 | The skip, the contact lookups, the push and its failure agree with `Handle`'s answer. |
| ChronicDisease.Values | src/components/Form/ChronicDiseaseSelect.tsx:123 | The values of a list of options, one per option, in order. |
| ChronicDisease.TrimEach | src/components/Form/ChronicDiseaseSelect.tsx:96 | Each piece is replaced by its trimmed form, position by position. |
| ChronicDisease.DropEmpty | src/components/Form/ChronicDiseaseSelect.tsx:97 | Every kept piece is non-empty and comes from the input. |
| ChronicDisease.DropEmptyDistributes | src/components/Form/ChronicDiseaseSelect.tsx:97 | The filter distributes over concatenation: it keeps pieces in order and once. |
| ChronicDisease.DropEmptyOne | src/components/Form/ChronicDiseaseSelect.tsx:97 | On one piece, the filter keeps it exactly when it is non-empty. |
| ChronicDisease.AsOptions | src/components/Form/ChronicDiseaseSelect.tsx:98 | One option per value, in order, with label equal to value. |
| ChronicDisease.Pieces | src/components/Form/ChronicDiseaseSelect.tsx:94-97 | Every piece read from a comma string is non-empty, comma-free and trimmed. |
| ChronicDisease.ParseInitialValue | src/components/Form/ChronicDiseaseSelect.tsx:92-99 | `undefined` and "" give the empty list. Every parsed option has label equal to value, and the value is non-empty, comma-free and trimmed. |
| ChronicDisease.ToCommaString | src/components/Form/ChronicDiseaseSelect.tsx:101-104 | null and the empty list give "". |
| ChronicDisease.PiecesOfCommaString | src/components/Form/ChronicDiseaseSelect.tsx:94-103 | Splitting, trimming and filtering the values joined by ", " gives the values back, when each is non-empty, comma-free and trimmed. |
| ChronicDisease.CommaStringRoundTrip | src/components/Form/ChronicDiseaseSelect.tsx:92-104 | Reading back an emitted string gives one option per value, in order, with the label replaced by the value. |
| ChronicDisease.CommaStringRestoresOptions | src/components/Form/ChronicDiseaseSelect.tsx:92-104 | When every label equals its value and the values are well formed, reading back restores the list exactly. |
| ChronicDisease.ParseIsStable | src/components/Form/ChronicDiseaseSelect.tsx:92-104 | Emitting a parsed list and parsing it again gives the same list. |
| ChronicDisease.FindOther | src/components/Form/ChronicDiseaseSelect.tsx:115 | The index of the first "อื่นๆ" option, or -1 exactly when there is none. |
| ChronicDisease.MoveOtherFirstFacts | src/components/Form/ChronicDiseaseSelect.tsx:115-119 | The splice and unshift permute the list. They put the "อื่นๆ" option first when it sat later, keep the other options in order, and change nothing when it is first or absent. |
| ChronicDisease.MoveOtherFirst | src/components/Form/ChronicDiseaseSelect.tsx:115-119 | The splice and unshift keep the length. `MoveOtherFirstFacts` states the rest. |
| ChronicDisease.Merged | src/components/Form/ChronicDiseaseSelect.tsx:106-121 | `mergeOptions` as a value. `MergeValues`, `MergeKeepsBaseAndAppendsExtra`, `MergedMovesOtherFirst` and `MergedOffersEachValueOnce` state its properties. |
| ChronicDisease.MergeValues | src/components/Form/ChronicDiseaseSelect.tsx:106-114 | Before the move, the list holds each value once: those of `base` in order of first appearance, then the unseen ones of `extra`. |
| ChronicDisease.MergeKeepsBaseAndAppendsExtra | src/components/Form/ChronicDiseaseSelect.tsx:106-114 | Before the move, the list starts with the map built from `base`, whose entries come from `base`. Every later entry is an option of `extra` with a value `base` lacks, so no entry of `base` is replaced. |
| ChronicDisease.MergedMovesOtherFirst | src/components/Form/ChronicDiseaseSelect.tsx:114-120 | The result is a permutation of the list before the move, with "อื่นๆ" first whenever either input holds it. |
| ChronicDisease.MergedOffersEachValueOnce | src/components/Form/ChronicDiseaseSelect.tsx:106-121 | The merged list holds exactly the values of both inputs, each once, with "อื่นๆ" at index 0 or absent. |
| ChronicDisease.MoveOtherFirstKeepsDistinct | src/components/Form/ChronicDiseaseSelect.tsx:115-119 | Moving "อื่นๆ" never makes two entries share a value. |
| ChronicDisease.MergeAbsorbsKnownOptions | src/components/Form/ChronicDiseaseSelect.tsx:106-121 | Merging into a merged list options whose values it already holds returns that list unchanged. |
| ChronicDisease.MergeOptions | src/components/Form/ChronicDiseaseSelect.tsx:106-121 | The method, with the two loops and the splice, returns `Merged(base, extra)`. |
| ChronicDisease.SetEach | src/components/Form/ChronicDiseaseSelect.tsx:108 | The `base.forEach` loop computes `PutAll`, which replaces a known value in place and appends a new one. |
| ChronicDisease.SetEachAbsent | src/components/Form/ChronicDiseaseSelect.tsx:109-113 | The `extra.forEach` loop computes `PutAllAbsent`, which appends only unseen values. |
| ChronicDisease.WithoutOther | src/components/Form/ChronicDiseaseSelect.tsx:165-168 | No option of the result has the value "อื่นๆ". |
| ChronicDisease.WithoutOtherDistributes | src/components/Form/ChronicDiseaseSelect.tsx:165-168 | The filter distributes over concatenation: it keeps options in order and once. |
| ChronicDisease.WithoutOtherOne | src/components/Form/ChronicDiseaseSelect.tsx:165-168 | On one option, the filter keeps it exactly when its value is not "อื่นๆ". |
| ChronicDisease.WithoutOtherIdentity | src/components/Form/ChronicDiseaseSelect.tsx:257-260 | A list without "อื่นๆ" passes the filter unchanged. |
| ChronicDisease.OtherIsStatic | src/components/Form/ChronicDiseaseSelect.tsx:89 | "อื่นๆ" is one of the fixed values. |
| ChronicDisease.FilterOption | src/components/Form/ChronicDiseaseSelect.tsx:186-197 | While custom entry is open, a fixed value is never listed. A blank search lists every other candidate. |
| ChronicDisease.FilterBranchesAgree | src/components/Form/ChronicDiseaseSelect.tsx:188-196 | The custom-entry branch is the other branch with the fixed values hidden. |
| ChronicDisease.FilterShowsExactMatch | src/components/Form/ChronicDiseaseSelect.tsx:186-197 | A candidate whose value is the trimmed search is listed unless it is a fixed value hidden by custom entry. |
| ChronicDisease.FilterHidesOtherWhenCustom | src/components/Form/ChronicDiseaseSelect.tsx:188-189 | With custom entry open, the "อื่นๆ" option is never listed. |
| ChronicDisease.IsValidNewOption | src/components/Form/ChronicDiseaseSelect.tsx:207-214 | A new option is valid only with custom entry open, a non-blank trimmed input, and no option with that value. |
| ChronicDisease.CanCreate | src/components/Form/ChronicDiseaseSelect.tsx:153-157 | The confirm button shows only with custom entry open, a non-blank trimmed input, and no option with that value. |
| ChronicDisease.CanCreateIffValidNewOption | src/components/Form/ChronicDiseaseSelect.tsx:153-157 | The button shows exactly when the picker would accept the input as a new option. |
| ChronicDisease.EmittedNeverNamesOther | src/components/Form/ChronicDiseaseSelect.tsx:262-267 | When every chosen value is comma-free, non-empty and trimmed, the string emitted on a change never reads back with "อื่นๆ". |
| ChronicDisease.CommaInCustomValueReadsBackAsOther | src/components/Form/ChronicDiseaseSelect.tsx:159-173 | A custom value that holds a comma, such as "x, อื่นๆ", is accepted and emitted as it is. The emitted string reads back as two options, the second of them "อื่นๆ". |
| ChronicDisease.ReadsBackJoined | src/components/Form/ChronicDiseaseSelect.tsx:92-99 | The string joined by ", " from one or more well-formed values reads back as one option per value, label equal to value, in order. |
| ChronicDisease.ReadsBackWithOther | src/components/Form/ChronicDiseaseSelect.tsx:92-99 | A well-formed value followed by ", อื่นๆ" reads back as that value and "อื่นๆ". |
| ChronicDisease.WithoutOtherKeepsCustom | src/components/Form/ChronicDiseaseSelect.tsx:257-260 | Dropping "อื่นๆ" keeps a custom value and leaves no "อื่นๆ". |
| ChronicDisease.Mount | src/components/Form/ChronicDiseaseSelect.tsx:133-145 | On mount, the selection is the parsed initial value, the input is empty, and custom entry is open exactly when the selection holds "อื่นๆ". |
| ChronicDisease.MountIsValid | src/components/Form/ChronicDiseaseSelect.tsx:138-145 | The mounted picker offers every fixed value and every selected value, each once. |
| ChronicDisease.Sync | src/components/Form/ChronicDiseaseSelect.tsx:147-151 | The effect replaces the selection with the parsed value, and custom entry follows "อื่นๆ". |
| ChronicDisease.SyncOffersParsedValues | src/components/Form/ChronicDiseaseSelect.tsx:147-151 | The effect's merge makes the menu offer exactly what it offered before plus the parsed values. |
| ChronicDisease.SyncKeepsValid | src/components/Form/ChronicDiseaseSelect.tsx:147-151 | The effect keeps the menu offering every fixed and selected value once. |
| ChronicDisease.MountThenSyncChangesNothing | src/components/Form/ChronicDiseaseSelect.tsx:147-151 | The effect's first run after mounting leaves the state as it is. |
| ChronicDisease.AddCustom | src/components/Form/ChronicDiseaseSelect.tsx:159-175 | `onChange` is called exactly when the trimmed value is non-empty and not yet an option. Otherwise nothing changes. |
| ChronicDisease.Added | src/components/Form/ChronicDiseaseSelect.tsx:164-174 | The state updates and the `onChange` call once a value is accepted. `AddCustomEffect` states their effect. |
| ChronicDisease.AddCustomEffect | src/components/Form/ChronicDiseaseSelect.tsx:159-175 | An added value drops "อื่นๆ" from the selection and is appended at its end. The menu then offers exactly what it offered before plus the added value. The selection then holds a custom value and no "อื่นๆ". Custom entry opens, the input clears, and the emitted string is the new selection. |
| ChronicDisease.AddCustomKeepsValid | src/components/Form/ChronicDiseaseSelect.tsx:159-175 | Adding a value keeps the menu offering every fixed and selected value once. |
| ChronicDisease.CreateOption | src/components/Form/ChronicDiseaseSelect.tsx:203-206 | It emits exactly when `isValidNewOption` holds, and it is ignored while custom entry is closed. |
| ChronicDisease.Confirm | src/components/Form/ChronicDiseaseSelect.tsx:234-244 | When the button shows, clicking it always emits. |
| ChronicDisease.ConfirmOffersTypedText | src/components/Form/ChronicDiseaseSelect.tsx:234-244 | After the click, the menu offers the trimmed text and the input is cleared. |
| ChronicDisease.Change | src/components/Form/ChronicDiseaseSelect.tsx:249-268 | A change always emits and leaves the input untouched. |
| ChronicDisease.ChangeEffect | src/components/Form/ChronicDiseaseSelect.tsx:249-268 | After a change, the menu offers exactly what it offered before plus the chosen values. The new selection is the choice itself, except that "อื่นๆ" is dropped from it when a custom value is chosen too, so it never holds "อื่นๆ" beside a custom value. Custom entry is open exactly when the choice holds "อื่นๆ" or a custom value, which is exactly when the new selection does. The emitted string is the choice without "อื่นๆ". |
| ChronicDisease.ChangeKeepsValid | src/components/Form/ChronicDiseaseSelect.tsx:249-268 | A change keeps the menu offering every fixed and selected value once. |
| ChronicDisease.InitialState | src/components/Form/ChronicDiseaseSelect.tsx:133-145 | The initial arguments of the state hooks, which only the first render uses, compute the mounted state, and it is valid. |
| ChronicDisease.ChronicDiseaseSelect.constructor | src/components/Form/ChronicDiseaseSelect.tsx:133-145 | The fields hold the mounted state, and it is valid. |
| ChronicDisease.ChronicDiseaseSelect.SyncInitial | src/components/Form/ChronicDiseaseSelect.tsx:147-151 | The fields become `Sync` of the old state, and validity is kept. |
| ChronicDisease.ChronicDiseaseSelect.OnInputChange | src/components/Form/ChronicDiseaseSelect.tsx:199-202 | Only the input changes, to the typed text as it is. |
| ChronicDisease.ChronicDiseaseSelect.AddCustomOption | src/components/Form/ChronicDiseaseSelect.tsx:159-175 | The fields and the emitted string are those of `AddCustom`, and validity is kept. |
| ChronicDisease.ChronicDiseaseSelect.Accept | src/components/Form/ChronicDiseaseSelect.tsx:164-174 | The state setters and the `onChange` call of an accepted value agree with `Added`. |
| ChronicDisease.ChronicDiseaseSelect.OnCreateOption | src/components/Form/ChronicDiseaseSelect.tsx:203-206 | The fields and the emitted string are those of `CreateOption`. |
| ChronicDisease.ChronicDiseaseSelect.ConfirmClick | src/components/Form/ChronicDiseaseSelect.tsx:240 | The fields and the emitted string are those of `Confirm`. |
| ChronicDisease.ChronicDiseaseSelect.OnChange | src/components/Form/ChronicDiseaseSelect.tsx:249-268 | The fields and the emitted string are those of `Change`, and validity is kept. |
| JsString.Trim | src/components/validations/commonRules.ts:8 | The result is no longer than the input, has no whitespace at either end, and is empty exactly when the input is all whitespace. |
| JsString.TrimPadded | src/components/validations/commonRules.ts:8-10 | Whitespace around a trimmed core is exactly what `trim` removes. |
| JsString.TrimIdempotent | src/components/Form/ChronicDiseaseSelect.tsx:240 | Trimming the already trimmed input again changes nothing. |
| JsString.Split | src/components/Form/ChronicDiseaseSelect.tsx:95 | There is at least one piece, and no piece contains the separator. |
| JsString.SplitJoinParts | src/components/Form/ChronicDiseaseSelect.tsx:94-103 | Splitting what `join` built gives the parts back, each after the first carrying the filler. |
| CommonRules.OptionalDigits | src/components/validations/commonRules.ts:3-11 | `optionalDigitsRule` itself. Its meaning is stated by `OptionalDigitsMeaning`. |
| CommonRules.OptionalDigitsMeaning | src/components/validations/commonRules.ts:3-11 | `undefined`, "" and blank strings pass. Any other string passes exactly when its trimmed form is ASCII digits. |
| CommonRules.PaddedDigitsAccepted | src/components/validations/commonRules.ts:8-10 | Digits with whitespace on either side pass. |
| CommonRules.InteriorWhitespaceRejected | src/components/validations/commonRules.ts:8-10 | A value with whitespace inside its trimmed form, such as "1 2", is rejected whatever the padding. |
| RegistrationSchema.Required | src/components/validations/registrationSchema.ts:39-41 | A required string passes exactly when present and non-empty. No trim is applied. |
| RegistrationSchema.ExactDigits | src/components/validations/registrationSchema.ts:5-11 | A value accepted by `phoneRule`, `zipCodeRule` or the PIN rule is present, non-empty and has no whitespace at either end, since it is not trimmed. |
| RegistrationSchema.PhoneRule | src/components/validations/registrationSchema.ts:5-11 | `phoneRule`: exactly 10 ASCII digits, untrimmed. It is `ExactDigits` with 10, whose contract gives present and trimmed. |
| RegistrationSchema.ZipCodeRule | src/components/validations/registrationSchema.ts:29-35 | `zipCodeRule`: exactly 5 ASCII digits, untrimmed, through `ExactDigits`. |
| RegistrationSchema.PinRule | src/components/validations/registrationSchema.ts:55-60 | `users_pin`: exactly 4 ASCII digits, untrimmed, through `ExactDigits`. |
| RegistrationSchema.HomePhoneRule | src/components/validations/registrationSchema.ts:13-27 | The rule is `optionalDigitsRule` plus a length of 10 for the trimmed form when it is not blank. |
| RegistrationSchema.HomePhoneAcceptsPaddedNumber | src/components/validations/registrationSchema.ts:13-27 | Ten digits with padding pass `homePhoneRule`, and with non-empty padding they fail `phoneRule`. |
| RegistrationSchema.BlankNamePasses | src/components/validations/registrationSchema.ts:39-45 | A single space passes a required name. |
| RegistrationSchema.Valid | src/components/validations/registrationSchema.ts:38-90 | Every field rule holds and the two passwords are equal. `ValidIffNoIssues` ties it to the issues `safeParse` reports. |
| RegistrationSchema.AbortsHasFieldIssue | src/components/validations/registrationSchema.ts:38-80 | A missing required key fails its own rule. |
| RegistrationSchema.Issues | src/components/validations/registrationSchema.ts:81-90 | The reported keys are the failing fields, plus at most the confirmation key. |
| RegistrationSchema.ValidIffNoIssues | src/components/validations/registrationSchema.ts:38-90 | The form is valid exactly when `safeParse` reports no issue. |
| RegistrationSchema.MismatchReportedOnConfirm | src/components/validations/registrationSchema.ts:81-90 | With every required key present, differing passwords are reported on `users_passwd_comfirm` and the form is invalid. |
| RegistrationSchema.MissingKeyHidesMismatch | src/components/validations/registrationSchema.ts:81-90 | A missing required key keeps the mismatch from being reported, yet the form still has an issue. |
| UserEditSchema.Valid | src/components/validations/cuserinfoSchema.ts:38-73 | Every field rule of `userEditSchema` holds. Its rules are the sign-up form's, as `RegistrationIsProfilePlusPassword` states. |
| UserEditSchema.RegistrationIsProfilePlusPassword | src/components/validations/cuserinfoSchema.ts:38-73 | A sign-up form is valid exactly when its profile keys pass the profile form and the password is present, non-empty and confirmed. |
| ElderlySchema.PhoneRule | src/components/validations/elderlyRegistrationSchema.ts:5-19 | The optional mobile rule is the same predicate as `homePhoneRule`. |
| ElderlySchema.DateRule | src/components/validations/elderlyRegistrationSchema.ts:55-58 | `z.date()`: present, with a time value that is not NaN. |
| ElderlySchema.ChoiceRule | src/components/validations/elderlyRegistrationSchema.ts:60-68 | `z.number().min(1)`: present, not NaN and at least 1. `ChoiceBounds` states it. |
| ElderlySchema.Valid | src/components/validations/elderlyRegistrationSchema.ts:46-92 | Every field rule holds. There is no cross-field check. `FreeTextUnchecked` states which keys do not matter. |
| ElderlySchema.PhoneRuleWeakerThanRegistration | src/components/validations/elderlyRegistrationSchema.ts:5-19 | Every number the carer's `phoneRule` accepts passes here. A missing number and a blank one pass here but fail there. |
| ElderlySchema.FreeTextUnchecked | src/components/validations/elderlyRegistrationSchema.ts:70-91 | House number, road, diseases and drugs never change the verdict. |
| ElderlySchema.ChoiceBounds | src/components/validations/elderlyRegistrationSchema.ts:60-68 | Gender and marital status pass exactly for numbers of at least 1. NaN and a missing key fail. |
| LocationPage.CenterOf | src/pages/location.tsx:305-310 | The centre is `myPos` when known. Otherwise it is the patient when the latitude is set, else the safezone centre. It is always one of the three. |
| LocationPage.EquatorPatientNotCentered | src/pages/location.tsx:308 | A patient at latitude 0 is never centred. The safezone centre is shown instead. |
| LocationPage.InsideIsReachable | src/pages/location.tsx:265-268 | There are inputs for which the patient is confirmed inside the inner radius. |
| LocationPage.LocationView.constructor | src/pages/location.tsx:54-62 | Both positions start at (0, 0) with no own position, the radii at 10 and 20, and loading on. |
| LocationPage.LocationView.OnGetLocation | src/pages/location.tsx:76-97 | A found location moves the patient. No data puts the patient at the safezone centre. A failure leaves the patient. Loading ends in every case. |
| LocationPage.LocationView.OnGetSafezone | src/pages/location.tsx:99-118 | A found safezone stores the centre and the radii, then runs `onGetLocation`: the patient moves to a found location, stays on a failed fetch, and without data is put on the safezone centre. No row changes neither the positions, the radii nor loading. A failure only ends loading. |
| LocationPage.LocationView.PollInterval | src/pages/location.tsx:263-273 | As written, the interval is 3000 ms on every path. |
| LocationPage.LocationView.IntendedPollInterval | src/pages/location.tsx:263-273 | The interval is 30000 ms exactly when both latitudes are set and the distance is within the inner radius, and 3000 ms otherwise. |

## Left out

- The Haversine `getDistance` of `location.tsx` is floating-point trigonometry; the distance is an input (`Num`).
- Prisma, the LINE push (`getFlexTemplate`, `pushFlexMessage`) and `moment` are I/O and formatting. The tables are a value and the throwing calls a `Fault` parameter. The message text and the time string are not modelled; the pushed message is its recipient, status, name, coordinates and postback.
- The `location` table may hold several rows for one pair, of which `findFirst` with `orderBy: locat_timestamp desc` reads the newest (`sentlocation.ts:51-57`). The model keeps one row per pair, the newest, since the endpoint only ever reads and overwrites that one.
- Concurrent reports for one key (the read-then-write race of `sentlocation.ts:51-84`) are not modelled: calls are sequential.
- `Number(...)` of a non-numeric identifier gives NaN, which Prisma would reject. Identifiers are integers in the model, and such a rejection is one of the `Fault` cases rather than derived from the key.
- Zod's messages and the order of issues are not modelled; `RegistrationSchema.Issues` is the set of keys with an issue.
- A field of the wrong JavaScript type (a number where a string is expected) is not modelled: string fields are `Option<string>`.
- Numbers are exact reals, not IEEE doubles. `ZoneStatus.Threshold` computes `r2 * 0.8` without rounding, so a distance within one rounding step of the threshold may fall in the other band than in the source. ±Infinity is not represented either: `Number("Infinity")` as a distance gives Breach in the source and has no counterpart here.
- ElderlySchema.ChoiceBounds: `z.number()` also rejects Infinity in some zod versions. Numbers are finite reals or NaN here, so Infinity is not represented.
- The rendering of the picker and the map, react-select's wiring, styles, `formatCreateLabel` and `formatOptionLabel` are not modelled.
- ChronicDisease.CommaStringRoundTrip: labels do not survive the comma string. Each option comes back with its value as label, so the round trip restores the list only when labels equal values.
- `src/utils/apiLineGroup.ts`, `src/pages/registration.tsx` and `src/components/MapLayerControl.tsx` are not part of this model.
- `onGetSafezone` does not await its call of `onGetLocation` (`location.tsx:112`). `LocationPage.LocationView.OnGetSafezone` runs that call to completion inside itself, so the interleaving of its state updates with other renders and effects is not captured.
- The `Allow: PUT, POST` header set on the 405 answer (`sentlocation.ts:135`) is not modelled; a `Response` carries only the code, the row, the decision and the push.
- ChronicDisease.EmittedNeverNamesOther: holds only when every chosen value is comma-free, non-empty and trimmed. `addCustomOption` accepts any trimmed non-empty text, and a custom value that holds a comma is split when the emitted string is read back. `CommaInCustomValueReadsBackAsOther` shows "x, อื่นๆ" reading back with "อื่นๆ".
- The polling effect's `setInterval` and the geolocation and compass handlers of `location.tsx` are not modelled; only the interval chosen is.

## Findings

| source | as written | input that shows it | evidently intended | confidence | as-written member | corrected member |
|---|---|---|---|---|---|---|
| src/pages/location.tsx:263-273 | The "inside" branch (`dist <= range1`) is empty and the other branch assigns 3000 again, so the interval is 3000 ms on every path. | Safezone and patient both at (13.75, 100.5), distance 0, range1 10: the patient is confirmed inside, yet the page polls every 3 s. | 30000 ms while the patient is confirmed inside the inner radius, as the comment on the branch says; 3000 ms otherwise. | not executed | LocationPage.LocationView.PollInterval | LocationPage.LocationView.IntendedPollInterval |
