# Plant-quiz app: the value logic of its screens, in Dafny

The app pairs its users with a plant through a personality quiz. Users form
groups that grow a garden together by completing adventures. A trip planner
proposes places nearby. All of the app's logic sits inside six React Native
screens. This project lifts the pure part of each screen out as a Dafny
function or a small state machine and proves what the screen promises.

| module | screen | what is modelled |
|---|---|---|
| `Common` | — | `Option`, `Result`, `Min`, `Clamp` |
| `JsText` | — | JavaScript's `String.prototype.trim` and `slice(0, n)`, and `parseInt` without a radix up to the mathematical integer it reads (section 19.2.5 of ECMA-262); the final conversion of that integer to a double is not modelled |
| `Quiz` | `OnboardingSurveyScreen.js` | the question tables and `determinePrimaryType` |
| `Onboarding` | `OnboardingSurveyScreen.js` | the 11-step quiz wizard: select, Next, Back, the finish, the current question |
| `Garden` | `GroupScreen.js` | the capped progress counter, background and sprout art, progress dots, membership, member cards |
| `CreateGroup` | `CreateGroupScreen.js` | validating and building a new group document |
| `ProfileSurvey` | `SurveyScreen.js` | the two-step profile form, its validation and the saved payload |
| `PlantAssignment` | `PlantAssignmentScreen.js` | the plant card lookup with its fallback, and Continue |
| `TripPlanner` | `TripPlannerScreen.js` | the category list, features to points of interest, the error messages |

Conventions:

- A JavaScript value that may be `undefined` is an `Option`.
- Truthiness is spelled out: `0`, `""` and missing values are falsy.
- `Math.random()` is a parameter `r` with `0 <= r < 1`.
- Document-store reads and writes are left to the caller. The model takes a document as read and returns the value that would be written.

Behaviour worth knowing:

- `determinePrimaryType` returns `""`, not `"A"`, when no answer is one of the letters A to F. The finish then aborts (`Onboarding.FinishOutcome`).
- The secondary question for type B offers five plants (bonsai, orchid, bamboo, Japanese maple, ginkgo), not four.
- Only the bamboo entry of the plant-assignment table is live. Every other quiz outcome shows the "Mystery Plant" card (`PlantAssignment.OnlyBambooHasACard`).

## Model

| member | source | states |
|---|---|---|
| Common.Clamp | src/screens/GroupScreen.js:323-326 | `Math.min(Math.max(x, lo), hi)` lies in `[lo, hi]`. It is `x` inside the range and the nearer bound outside it. |
| JsText.TrimStart | src/screens/CreateGroupScreen.js:49 | The result is a suffix of the input. Everything dropped is white space, and the result does not start with white space. |
| JsText.TrimEnd | src/screens/CreateGroupScreen.js:49 | The result is a prefix of the input. Everything dropped is white space, and the result does not end with white space. |
| JsText.Trim | src/screens/CreateGroupScreen.js:63-64 | The trimmed string is a contiguous piece of the input. Neither of its ends is white space. |
| JsText.TrimEmptyIffAllSpace | src/screens/CreateGroupScreen.js:49 | `trim()` is empty exactly when the input is all white space, so `!name.trim()` rejects exactly the blank names. |
| JsText.TrimIdempotent | src/screens/CreateGroupScreen.js:63-64 | Trimming a trimmed string changes nothing. |
| JsText.SlicePrefix | src/screens/GroupScreen.js:213 | `slice(0, n)` has length `min(n, length)` and is a prefix of the string. |
| JsText.LeadingDigits | src/screens/GroupScreen.js:318 | `parseInt` reads the longest run of digits at the front: all of them are digits, and the next character is not. |
| JsText.ParseInt | src/screens/SurveyScreen.js:91 | A number needs something besides white space, and a negative number needs a leading minus sign. |
| JsText.DigitsParse | src/screens/GroupScreen.js:300 | `parseInt` of a non-empty digit string is its decimal value. |
| JsText.ParseIntDecimal | src/screens/SurveyScreen.js:91 | A decimal numeral followed by nothing or a non-digit parses back to its number. The one exception is "0" followed by `x` or `X`, which opens a hex prefix. |
| JsText.ParseIntNegativeDecimal | src/screens/SurveyScreen.js:91 | The same holds behind a minus sign, which gives the negative number. |
| JsText.NoDigitIsNaN | src/screens/SurveyScreen.js:91 | Text with no digit after the optional blanks and sign, the empty age included, parses to `NaN`. |
| Quiz.SecondaryQuestion | src/screens/OnboardingSurveyScreen.js:148-210 | A follow-up question exists exactly for the six letters A to F. |
| Quiz.PrimaryIdsDistinct | src/screens/OnboardingSurveyScreen.js:24-145 | The ten primary questions have distinct ids. |
| Quiz.SecondaryIdNotPrimary | src/screens/OnboardingSurveyScreen.js:148-210 | No follow-up question shares an id with a primary question, so follow-up answers never overwrite primary ones. |
| Quiz.SecondaryIdsDistinct | src/screens/OnboardingSurveyScreen.js:148-210 | Different letters have follow-up questions with different ids. |
| Quiz.SecondaryOptionIsPlant | src/screens/OnboardingSurveyScreen.js:148-210 | Every follow-up option is one of the 24 plant ids. None is empty or a letter. |
| Quiz.ScanFindsWinner | src/screens/OnboardingSurveyScreen.js:230-238 | The strict-greater scan over the counts ends on the plurality winner, from any state consistent with the letters already scanned. |
| Quiz.PrimaryTypeIsPluralityWinner | src/screens/OnboardingSurveyScreen.js:213-241 | `determinePrimaryType` returns `""` when no letter was chosen. Otherwise it returns the letter whose count is at least every other count and strictly above every earlier letter's, so ties go to the earlier letter. |
| Quiz.PluralityWinnerUnique | src/screens/OnboardingSurveyScreen.js:213-241 | That description fits exactly one result. |
| Quiz.PrimaryTypeIsLetterIff | src/screens/OnboardingSurveyScreen.js:225-240 | The result is a letter exactly when some answer is a letter; otherwise it is `""`. |
| Quiz.CountIgnoresNonLetter | src/screens/OnboardingSurveyScreen.js:225-227 | Storing a non-letter answer under a key that did not hold a letter leaves every letter's count unchanged. |
| Quiz.CountLoop | src/screens/OnboardingSurveyScreen.js:225-227 | The counting loop keeps six letter slots, none above the number of answers visited. Its exact meaning is stated by CountLoopCounts and CountLoopTally. |
| Quiz.CountLoopCounts | src/screens/OnboardingSurveyScreen.js:225-227 | After the counting loop has visited a list of distinct keys, each letter's slot holds the number of visited questions answered with that letter. |
| Quiz.CountLoopTally | src/screens/OnboardingSurveyScreen.js:213-241 | In whatever order the object lists its keys, the counting loop ends with the true letter counts, and the scan over them is `PrimaryType`. |
| Quiz.Scan | src/screens/OnboardingSurveyScreen.js:230-238 | The scan ends on the leader it started with or on one of the letters it still had to visit. |
| Quiz.PrimaryType | src/screens/OnboardingSurveyScreen.js:213-241 | `determinePrimaryType` returns `""` or one of the letters A to F, nothing else. |
| Quiz.StrictWinnerWins | src/screens/OnboardingSurveyScreen.js:213-241 | A letter chosen strictly more often than every other letter is the primary type. |
| Quiz.FullTieGivesFirstLetter | src/screens/OnboardingSurveyScreen.js:230-238 | When all six letters were chosen equally often, and at least once, "A" wins. |
| Quiz.NonLetterAnswerIgnored | src/screens/OnboardingSurveyScreen.js:225-238 | A non-letter answer, such as a plant id under a follow-up id, stored under a key that did not hold a letter, does not change the primary type. |
| Onboarding.CurrentQuestion | src/screens/OnboardingSurveyScreen.js:265-278 | Below step 10 the question shown is the primary question of the step. From step 10 it is the follow-up question of the primary type when that is a letter, and q10 otherwise. |
| Onboarding.IsSecondaryQuestion | src/screens/OnboardingSurveyScreen.js:256-262 | The secondary question is shown exactly from the step after the last of the ten primary questions. |
| Onboarding.IsOptionSelected | src/screens/OnboardingSurveyScreen.js:343-346 | An option shows as selected only when the current question has an answer. |
| Onboarding.OneOptionSelected | src/screens/OnboardingSurveyScreen.js:343-346 | At most one option shows as selected. |
| Onboarding.HasSelection | src/screens/OnboardingSurveyScreen.js:349-352 | Below step 10, Next is enabled exactly when the step's primary question has an answer. |
| Onboarding.Next | src/screens/OnboardingSurveyScreen.js:282-296 | Next moves exactly below step 10, to the following step with the answers kept. A completed finish carries a non-empty plant match that is one of the answers, and all answers. |
| Onboarding.Back | src/screens/OnboardingSurveyScreen.js:334-340 | Back steps back exactly when the step is above 0, to an earlier step with the answers kept. |
| Onboarding.Inv | src/screens/OnboardingSurveyScreen.js:19-21 | The screen's initial state satisfies the wizard invariant, and the invariant keeps the step at most 10. |
| Onboarding.Enabled | src/screens/OnboardingSurveyScreen.js:417-430 | Back is always enabled. An option that can be pressed is a non-empty id, since every option on screen is a letter or a plant id. |
| Onboarding.OptionsNonEmpty | src/screens/OnboardingSurveyScreen.js:24-210 | Every option a question can show is a non-empty id. |
| Onboarding.Apply | src/screens/OnboardingSurveyScreen.js:245-340 | No event removes an answer, and only choosing an option changes the answers. |
| Onboarding.Run | src/screens/OnboardingSurveyScreen.js:245-340 | A sequence of events never removes an answer, and one without any option press leaves the answers as they were. |
| Onboarding.Select | src/screens/OnboardingSurveyScreen.js:245-253 | `handleSelect` records the option under exactly the current question's id. Every other answer and the step are unchanged. |
| Onboarding.StepTransitions | src/screens/OnboardingSurveyScreen.js:282-340 | Below step 10, Next adds one, and step 9 goes to 10. Next never moves past 10 and keeps the answers. Back goes one step back exactly when the step is above 0, and leaves the screen otherwise. |
| Onboarding.FinishOutcome | src/screens/OnboardingSurveyScreen.js:303-324 | At the follow-up step, Next aborts when the primary type has no follow-up question or its answer is missing or empty. Otherwise it completes with that answer, verbatim, as the plant match, together with all answers. |
| Onboarding.PrimaryTypeAtSecondaryStep | src/screens/OnboardingSurveyScreen.js:265-278 | In any state satisfying the wizard invariant at step 10, the primary type is a letter and its follow-up question is shown; the q10 fallback is never used. |
| Onboarding.SelectKeepsInv | src/screens/OnboardingSurveyScreen.js:245-253 | Choosing a shown option keeps the invariant: answered questions, letter answers to primary questions, follow-up answers among their options. |
| Onboarding.ApplyKeepsInv | src/screens/OnboardingSurveyScreen.js:427-430 | Every enabled event keeps the invariant, with Next enabled only after a selection, and no answer is ever removed. |
| Onboarding.RunKeepsInv | src/screens/OnboardingSurveyScreen.js:427-430 | Every sequence of enabled events keeps the invariant. |
| Onboarding.ReachedSecondaryStepHasPrimaryType | src/screens/OnboardingSurveyScreen.js:282-296 | From the start, whenever step 10 is reached, q1 to q10 have been answered and the primary type is one of A to F. |
| Onboarding.FinishCompletes | src/screens/OnboardingSurveyScreen.js:303-324 | From a reachable state where Finish is enabled, the finish completes with one of the primary type's follow-up plants. |
| Onboarding.SelectIdempotent | src/screens/OnboardingSurveyScreen.js:245-253 | Choosing the same option twice gives the same answers as choosing it once, and that option then shows as selected. |
| Onboarding.SameQuestionAfterSelect | src/screens/OnboardingSurveyScreen.js:265-278 | Choosing a shown option does not change which question is shown. |
| Onboarding.NurturingCounts | src/screens/OnboardingSurveyScreen.js:225-227 | Seven "C", two "D" and one "B" answer count exactly 7, 2 and 1, and the other letters none. |
| Onboarding.NurturingVotesC | src/screens/OnboardingSurveyScreen.js:225-227 | The example has exactly seven "C" answers. |
| Onboarding.NurturingPrimaryType | src/screens/OnboardingSurveyScreen.js:213-241 | Those answers make "C" the primary type. |
| Onboarding.NurturingInv | src/screens/OnboardingSurveyScreen.js:265-278 | Those ten letter answers plus "aloeVera" under "secondaryC" form a consistent state at step 10. |
| Onboarding.NurturingFinish | src/screens/OnboardingSurveyScreen.js:303-324 | That state finishes with plant match "aloeVera" and all answers. |
| Onboarding.FinishWithAnswer | src/screens/OnboardingSurveyScreen.js:303-324 | At step 10, with the primary type's follow-up answered, Next is enabled and completes with that answer and all answers. |
| Garden.ProgressWrite | src/screens/GroupScreen.js:254-268 | A write happens exactly when progress (missing counts as 0) is below 5, and it writes progress plus one, which is at most 5. |
| Garden.Progress | src/screens/GroupScreen.js:254 | The progress read with a default of 0: a missing progress reads as 0 and a stored one as itself (a stored 0 stays 0). |
| Garden.AfterTrip | src/screens/GroupScreen.js:127-140 | Progress never decreases and never passes 5. It grows by one exactly on a successful trip below 5. A failed trip changes nothing, and the other fields are kept. |
| Garden.ProgressCountsSuccesses | src/screens/GroupScreen.js:254-268 | After a series of trips, progress is the starting progress plus the number of successes, capped at 5. |
| Garden.LegacyDigits | src/screens/GroupScreen.js:299 | A match of `(\d+)\.png$` happens exactly when the name ends in a digit followed by ".png". The capture is then the whole run of digits right before the final ".png": not preceded by another digit. |
| Garden.TrailingDigits | src/screens/GroupScreen.js:316-317 | The run taken is the longest digit suffix: the character before it, if any, is not a digit. |
| Garden.LegacyDigitsOf | src/screens/GroupScreen.js:316-319 | A name made of a non-digit-ending prefix, digits and ".png" captures exactly those digits. |
| Garden.LegacyDigitsNeedPng | src/screens/GroupScreen.js:299 | A name not ending in ".png" captures nothing. |
| Garden.LegacyId | src/screens/GroupScreen.js:297-301 | A legacy id exists exactly when the name is non-empty and captures digits, and it is never negative. |
| Garden.LegacyIdIsDecimal | src/screens/GroupScreen.js:300-301 | The legacy id is the decimal value of the captured digits. |
| Garden.GroupBackground | src/screens/GroupScreen.js:291-306 | The garden picture shown has a key 1 to 6. A truthy in-range `backgroundId` wins. Otherwise a legacy name whose id is an existing key shows that garden. The sky shows exactly when neither gives an existing key. |
| Garden.SproutKey | src/screens/GroupScreen.js:309-335 | The sprout picture key is always in 1 to 6. |
| Garden.Stage | src/screens/GroupScreen.js:326 | The growth stage is 1 to 6. It is progress + 1 for progress 0 to 5, and the final stage 6 exactly when progress is at least 5. |
| Garden.SproutBackgroundId | src/screens/GroupScreen.js:309-320 | The id comes from the first source that applies: a truthy `backgroundId` as is, else the legacy name's parsed id, else 1. |
| Garden.SproutFollowsProgress | src/screens/GroupScreen.js:322-334 | Below 5 adventures the sprout for stage progress + 1 shows, whatever the background. From 5 on, the tree of the clamped background id shows. |
| Garden.TreeMatchesBackdrop | src/screens/GroupScreen.js:291-335 | When the backdrop is a garden and `backgroundId` is not a truthy out-of-range number, the grown tree is the backdrop's own. |
| Garden.BackdropAndTreeCanDisagree | src/screens/GroupScreen.js:291-335 | With `backgroundId` 9 and legacy name "garden3.png", the backdrop is garden 3 but the tree is garden 6's. |
| Garden.LegacyIdOfGarden3 | src/screens/GroupScreen.js:297-301 | The legacy name "garden3.png" yields background id 3. |
| Garden.GrownGardenThree | src/screens/GroupScreen.js:291-335 | A group with 5 adventures and background id 3 shows garden 3 behind the grown tree of garden 3. |
| Garden.RandomBackgroundId | src/screens/GroupScreen.js:281 | `Math.floor(r * 6) + 1` is a garden key 1 to 6 for every `r` in [0, 1). |
| Garden.RandomBackgroundIdCovers | src/screens/GroupScreen.js:281 | Every key 1 to 6 is drawn for some `r` in [0, 1). |
| Garden.BackgroundAssignment | src/screens/GroupScreen.js:163-165 | A background is written exactly when `backgroundId` is falsy, and it is a key 1 to 6. |
| Garden.ProgressDots | src/screens/GroupScreen.js:404-413 | There are five dots, and dot `i` is completed exactly when `i < progress`. |
| Garden.CompletedDots | src/screens/GroupScreen.js:404-413 | The number of completed dots is progress clamped to 0 to 5. |
| Garden.IsMember | src/screens/GroupScreen.js:168 | A user is a member exactly when the members list exists and contains the uid. |
| Garden.FallbackName | src/screens/GroupScreen.js:213 | The fallback name is "User " plus at most the first five characters of the uid. |
| Garden.Spread | src/screens/GroupScreen.js:196-211 | In `{id, name, ...profile}`, the profile's own `id`, `name` and `plantMatch` win over the base values. |
| Garden.MemberNameFallback | src/screens/GroupScreen.js:187-217 | A member without a profile, with a failed fetch, or whose stored profile has no name and no username, is called the fallback name. |
| Garden.StoredUsernameShown | src/screens/GroupScreen.js:207-211 | A stored non-empty username is shown unless the profile carries its own `name`. |
| Garden.MemberCards | src/screens/GroupScreen.js:187-221 | An empty id list leaves the shown cards as they were. Otherwise there is one card per member id, in order. |
| Garden.MemberCardFor | src/screens/GroupScreen.js:192-217 | The signed-in user's own card takes its `id`, `name` and `plantMatch` from the user's own profile wherever the profile has them, because it is spread last: the stored `name` wins over `username`, and the id defaults to the member id. A fetched profile likewise supplies `id`, `plantMatch` and, when present, `name`. Every card other than the user's own has a name. A member whose profile is missing or failed to load gets the bare fallback card. |
| Garden.MemberPlantPicture | src/screens/GroupScreen.js:339-342 | The picture is the table's entry for the member's plant match when there is one, else the default picture. It is always a picture of the table. |
| CreateGroup.CreateGroup | src/screens/CreateGroupScreen.js:48-70 | Creation fails exactly for an all-white-space name. Otherwise the document holds the trimmed name (non-empty), the trimmed description, the creator as sole member and as `createdBy`, progress 0 and a background id 1 to 6. |
| CreateGroup.BlankDescriptionAccepted | src/screens/CreateGroupScreen.js:49-64 | Only the name is validated: a blank description is accepted and stored as "". |
| CreateGroup.StoredFieldsAreTrimmed | src/screens/CreateGroupScreen.js:63-64 | The stored name and description are already trimmed. |
| CreateGroup.NewGroupOnGroupScreen | src/screens/CreateGroupScreen.js:62-70 | On the group screen a new group shows its creator as a member, no completed dot, the first sprout and its own garden, and gets no second background. |
| CreateGroup.FiveAdventuresGrowTheTree | src/screens/CreateGroupScreen.js:68-69 | After at least five successful adventures, a new group's progress is 5 and the tree shown is the one of the background drawn at creation. |
| CreateGroup.AfterTripsKeepBackground | src/screens/GroupScreen.js:261-267 | Progress updates never change a group's background fields. |
| ProfileSurvey.FirstEmpty | src/screens/SurveyScreen.js:75-81 | The loop stops at the first empty field: every earlier field is filled in. |
| ProfileSurvey.ValidateCurrentStep | src/screens/SurveyScreen.js:73-82 | The step is valid exactly when all of its fields are filled in. Otherwise the message names its first empty field. |
| ProfileSurvey.Submit | src/screens/SurveyScreen.js:84-94 | Submitting saves exactly when the current step validates. The payload is the name, `parseInt(age)`, the interests and `surveyCompleted: true`. |
| ProfileSurvey.Next | src/screens/SurveyScreen.js:59-65 | Next on the first step moves to the second, and on the last step submits. |
| ProfileSurvey.Back | src/screens/SurveyScreen.js:67-71 | Back goes one step back, stays at step 0, and never changes the inputs. |
| ProfileSurvey.StepStaysInRange | src/screens/SurveyScreen.js:59-71 | The step stays in 0 to 1. Next moves on exactly from step 0, without validating. Back at step 0 does nothing. |
| ProfileSurvey.SubmitIgnoresFirstStep | src/screens/SurveyScreen.js:63-94 | With interests filled in, Next on the last step saves even with an empty name and age, and an empty age is saved as `NaN`. |
| ProfileSurvey.FirstStepFieldsNeverReported | src/screens/SurveyScreen.js:59-82 | Next never rejects for "Full Name" or "Age", only for the interests field. |
| ProfileSurvey.AgeRoundTrip | src/screens/SurveyScreen.js:89-94 | An age typed as a decimal number is saved as that number. |
| PlantAssignment.PlantFor | src/screens/PlantAssignmentScreen.js:147-152 | The lookup always yields a card with a name, image and description. It is the fixed "Mystery Plant" card exactly for plant ids other than bamboo. |
| PlantAssignment.Continue | src/screens/PlantAssignmentScreen.js:154-159 | Continue hands the plant match on unchanged, whatever card was shown. |
| PlantAssignment.OnlyBambooHasACard | src/screens/PlantAssignmentScreen.js:17-152 | Of the 24 plants the quiz can assign, only bamboo gets its own card. The others show the default picture. |
| PlantAssignment.PictureAgreesWithGroupScreen | src/screens/PlantAssignmentScreen.js:147-152 | The group screen has a picture for every quiz outcome. This screen's picture agrees with it exactly for bamboo. |
| PlantAssignment.GroupPictureIsNotDefault | src/screens/GroupScreen.js:51-84 | The group screen's picture for every quiz outcome is a plant of its own, not the default. |
| PlantAssignment.QuizFinishToAccount | src/screens/PlantAssignmentScreen.js:147-159 | A completed quiz arrives with one of the 24 plants, shows its card or the Mystery Plant, and passes it to account creation unchanged. |
| PlantAssignment.NurturingQuizShowsMysteryPlant | src/screens/PlantAssignmentScreen.js:147-159 | The quiz that ends on aloe vera shows the Mystery Plant card and still passes "aloeVera" on. |
| TripPlanner.SplitJoinRoundTrip | src/screens/TripPlannerScreen.js:49 | Joining parts with a separator none of them contains can be undone by splitting on it. |
| TripPlanner.Join | src/screens/TripPlannerScreen.js:49 | `join` of a non-empty list starts with the first part and ends with the last. |
| TripPlanner.CategoriesStringLists | src/screens/TripPlannerScreen.js:39-49 | The `categories` parameter reads back as exactly the seven categories, in their listed order. |
| TripPlanner.OrElse | src/screens/TripPlannerScreen.js:69-71 | The or-default of a string is the string when it is present and non-empty, and the fallback otherwise. |
| TripPlanner.ToPoi | src/screens/TripPlannerScreen.js:66-79 | Every point has a non-empty name. The description is the place type and the address the formatted address, each "" when missing. The rating is a number exactly when it is present and non-zero, else "No rating". Latitude exists exactly when there are two coordinates, longitude when there is one. |
| TripPlanner.ToPoiFields | src/screens/TripPlannerScreen.js:69-76 | A name is kept unless it is missing or empty, which gives "Unnamed place". Latitude is `coordinates[1]` and longitude `coordinates[0]`. |
| TripPlanner.Pois | src/screens/TripPlannerScreen.js:66-90 | Missing or empty features give the "no points" outcome. An unreadable feature throws. Otherwise there is one point per feature, in order. |
| TripPlanner.ErrorMessage | src/screens/TripPlannerScreen.js:84-115 | The "no points" message is the fixed sentence. A thrown error shows the fixed prefix followed by the error's message. |
| TripPlanner.ErrorMessagesDistinct | src/screens/TripPlannerScreen.js:84-115 | The two error messages never coincide. |
| TripPlanner.PromptPoisWellFormed | src/screens/TripPlannerScreen.js:66-79 | Every point handed to text generation has a name, and its rating is either non-zero or "No rating". |

## Left out

- Rendering is not modelled because it is presentation: JSX, styles, images, alerts, console output and the loading flags.
- The question and option texts are not modelled; only the ids take part in any computation.
- The document store and authentication (`AuthContext.js`, `getDoc`, `updateDoc`, `addDoc`, `onSnapshot`, `joinGroup`'s `arrayUnion`) are foreign calls. The model takes documents as read and returns what would be written. `createdAt` comes from the clock and is left out.
- The read-then-write race in `updateGroupProgress` is a concurrency matter. The update is modelled as a pure function of the document read.
- Location permission, the places request (radius 5000 m, limit 10), the text-generation call and its prompt are network and device calls. The model starts from the returned features. The catch-all `Thrown` outcome also stands for a failed request.
- Coordinates and ratings are `real`s. Floating-point rounding is not modelled, because coordinates are only copied.
- JsText.ParseInt: the result is the exact integer `parseInt` reads. ECMAScript then converts it to a double, so above 2^53 the program rounds it to a nearby double, and "-0" gives negative zero. Neither is modelled.
- DigitsParse: the parsed value is the exact decimal value; the program's double differs above 2^53.
- ParseIntDecimal: exact only where the number is at most 2^53; larger numbers come back rounded in the program.
- ParseIntNegativeDecimal: the same as ParseIntDecimal, and "-0" gives negative zero in the program rather than 0.
- LegacyIdIsDecimal: the legacy id is the exact decimal value of the digits; a digit run above 2^53 would be rounded in the program.
- AgeRoundTrip: the saved age equals the typed number only up to 2^53; above that the program saves a rounded double.
- TripPlanner.ToPoi: a `NaN` rating, which is falsy and would become "No rating", is not representable.
- Garden.GroupDoc: `progress` and `backgroundId` are integers. A fractional or string value that the document store could hold is not modelled.
- JsText.IsSpace: characters are Unicode scalar values, not UTF-16 code units. `slice(0, 5)` of a uid with characters outside the Basic Multilingual Plane can differ.
- PlantAssignment.PlantFor and Garden.MemberPlantPicture: keys inherited from `Object.prototype` (such as "constructor") are treated as missing. In JavaScript they would yield a truthy function.
- Garden.Profile: profile fields are strings; non-string values spread into a member card are not modelled.
- Side-quest dice rolls, the personality roll bonus and trip point thresholds are not implemented by any of the modelled screens. The group screen receives `tripSuccess` ready-made.
- The login, sign-in, account-creation, home and selection screens, and the route table in `App.js`, are navigation and authentication calls with no value logic.

