# NutriScan Pro core, modelled in Dafny

NutriScan Pro is a React Native nutrition tracker. This project models its
client core:

- **Translation service** (`I18n`): language choice at start-up, persistence, lookup with English fallback, `{{name}}` parameters and listeners.
- **API client** (`Api`): base URL, request headers, error mapping and the endpoint of every call.
- **Auth service** (`Auth`):
  - the token and the user in storage, including the user's JSON text;
  - sign-in, logout and start-up;
  - listener notification, with the order of its effects.
- **Meals hook** (`Meals`): calories per meal, the five-minute cache keyed by `YYYY-MM-DD`, reload, item removal, and the day's totals.
- **Login and signup forms** (`FormValidation`, `Login`, `Signup`): validation and submission.
- **Performance monitor** (`Performance`): timers, recorded durations, averages and the shared instance.
- **Add-meal review screen** (`AddMealResults`): totals, removal, quantity editing, titles and the confirm button.
- **Meal card** (`MealCard`): per-nutrient amounts, the segments shown and the stats line.
- **Date hook** (`DateFormatter`).
- **Application constants** (`AppConstants`): tables and validators.

The JavaScript runtime behaviour the app relies on is written out in `Text` and `ApiTypes`:

- `\s` white space and `trim`;
- `split(c)[0]`;
- `String(n)` and `parseFloat`;
- global replacement of a literal pattern;
- `Math.round`;
- division that can give a non-finite number.

Numbers read from the API are `real`. A computed number that may not be finite is a `Num`: a finite value, an infinity of either sign, or NaN.

Stateful services are classes whose fields the methods update:

- `I18nService`, `ApiService`, `AuthService`;
- `MealsHook` with its shared `MealsCache`;
- `PerformanceMonitor`;
- the screens' state (`LoginScreen`, `SignupScreen`, `ResultsScreen`).

Everything outside the program is a parameter: the network's answer, the storage's failure, the system locale, the clock and which listeners throw. A listener is identified by a number, because JavaScript compares callbacks by reference.

## Model

| member | source | states |
|---|---|---|
| Text.Trim | app/auth/login.tsx:21 | the trimmed text is empty exactly when every character is `\s` white space; otherwise it starts and ends with a non-space and is a slice of the input |
| Text.TrimStart | app/auth/signup.tsx:35 | dropping the leading white space leaves a tail of the input, preceded only by white space and starting with a non-space |
| Text.TrimEnd | app/auth/signup.tsx:35 | dropping the trailing white space leaves a prefix of the input, followed only by white space and ending with a non-space |
| Text.PrefixBefore | services/api.ts:83 | `split(c)[0]` is the longest prefix without `c`, followed in the input by `c` when shorter than it |
| Text.PrefixBeforeRoundTrip | services/api.ts:83 | splitting `k + c + rest` at the first `c` gives back `k` |
| Text.ReplaceFirstChar | app/add-meal/results.tsx:175 | `replace(',', '.')` changes only the first occurrence, and nothing when there is none |
| Text.NatToString | services/api.ts:87 | the decimal text of a number is digits without a leading zero whose value is the number |
| Text.IntToString | services/api.ts:87 | `String(i)` carries a minus sign exactly for negatives, then the digits of the magnitude |
| Text.IntToStringRoundTrip | services/api.ts:87 | parsing `String(i)` gives back `i` |
| Text.DigitPrefix | app/add-meal/results.tsx:175 | the leading digit run, stopped by the first non-digit |
| Text.DecimalParses | app/add-meal/results.tsx:175 | `parseFloat` of `w.f` is the decimal value of the digits |
| Text.NaturalParses | app/add-meal/results.tsx:175 | `parseFloat(String(n)) == n` for natural `n` |
| Text.ReplaceAllIsSplitJoin | services/i18n.ts:86 | global replacement equals splitting at the pattern and joining with the replacement |
| Text.SplitJoinRoundTrip | services/i18n.ts:86 | joining the parts with the pattern itself gives back the text |
| Text.ReplaceAllAbsent | services/i18n.ts:86 | replacing a pattern that does not occur changes nothing |
| Text.ToUpper | app/add-meal/results.tsx:108 | ASCII lower-case letters move to upper case; every other character is unchanged |
| Text.Utf16Length | constants/app.ts:141 | `length` counts UTF-16 code units: between one and two per character, and one per character exactly when none lies above U+FFFF |
| Text.Utf16LengthAppend | constants/app.ts:141 | the `length` of a concatenation is the sum of the lengths |
| Text.SurrogatePairsCountTwice | constants/app.ts:141 | three emoji have `length` 6 and one has `length` 2, though they are three and one characters |
| ApiTypes.Divide | hooks/useMeals.ts:55 | division is finite exactly when the divisor is non-zero, and then `q * d == n`; a zero divisor gives NaN iff the numerator is 0, otherwise an infinity of the numerator's sign |
| ApiTypes.Add | hooks/useMeals.ts:55 | finite iff both operands are; NaN iff an operand is NaN or the infinities have opposite signs; an infinite sum is one of the operands |
| ApiTypes.AddAssociative | hooks/useMeals.ts:48-58 | the grouping of additions does not change the outcome |
| ApiTypes.AddZero | hooks/useMeals.ts:48-58 | 0 is neutral on both sides of `+` |
| ApiTypes.RoundNum | hooks/useMeals.ts:47 | `Math.round` turns a finite value into an integer within half of it and returns infinities and NaN unchanged |
| ApiTypes.Round | hooks/useMeals.ts:47 | `Math.round` is within half of its argument, halves rounded up |
| ApiTypes.DateKey | hooks/useMeals.ts:43 | `toISOString().split('T')[0]` is the prefix before the first `T` |
| ApiTypes.DateKeyOfTimestamp | hooks/useMeals.ts:43 | the key of `day + "T" + time` is `day` |
| Listeners.Without | services/i18n.ts:96 | `filter(cb => cb !== callback)` removes every copy of the callback and keeps the count of all others |
| Listeners.WithoutKeepsOrder | services/i18n.ts:96 | filtering distributes over concatenation, so the remaining listeners keep their order |
| Listeners.Deliveries | services/i18n.ts:100-102 | one call per listener; the closed form that the notify loops are proved against |
| Listeners.ReachedAll | services/i18n.ts:100-102 | with no throwing listener, every listener is called |
| Listeners.ReachedFirstThrower | services/i18n.ts:100-102 | a throwing listener stops the loop right after itself |
| I18n.ValidLanguagesAreTheSix | services/i18n.ts:57-59 | a language is valid iff it is one of en, fr, es, de, it, pt |
| I18n.SystemLanguage | services/i18n.ts:43-55 | the system language is always valid: the candidate when valid, otherwise `fr` |
| I18n.WebRegionalVariant | services/i18n.ts:47 | on the web, `de-AT` resolves to `de` |
| I18n.Resolve | services/i18n.ts:82 | the text comes from the current table, else English, else the key, and is never empty for a non-empty key |
| I18n.ResolvePrecedence | services/i18n.ts:82 | the current language's non-empty text wins; English comes next; the key is the last fallback |
| I18n.UntabledLanguagesUseEnglish | locales/index.ts:6-9 | a language without a table translates exactly as English does |
| I18n.Placeholder | services/i18n.ts:86 | the pattern of a parameter starts with `{{` |
| I18n.TranslateWithoutParams | services/i18n.ts:84-91 | without parameters, or with none, `translate` returns the resolved text |
| I18n.OneParam | services/i18n.ts:84-88 | one parameter replaces every `{{name}}` with `String(value)` |
| I18n.ParamsInSequence | services/i18n.ts:84-88 | parameters apply one after another, in order |
| I18n.NoMarkerNoChange | services/i18n.ts:84-88 | a text without `{{` is left as it is by any parameters |
| I18n.I18nService.constructor | services/i18n.ts:10-11 | starts in `fr` with no listeners |
| I18n.I18nService.AddListener | services/i18n.ts:93-94 | the callback is appended |
| I18n.I18nService.Unsubscribe | services/i18n.ts:95-97 | the returned function removes every copy of the callback |
| I18n.I18nService.NotifyListeners | services/i18n.ts:100-102 | listeners are called in order up to the first that throws |
| I18n.I18nService.SetLanguage | services/i18n.ts:61-75 | the language changes; it is stored unless the write fails; listeners are then notified |
| I18n.I18nService.Initialize | services/i18n.ts:13-30 | adopts a truthy stored language; otherwise takes the valid system language, stores it and notifies listeners; falls back to `fr` when a listener throws |
| I18n.SetLanguageReachesEveryone | services/i18n.ts:100-102 | without throwing listeners, every listener hears the new language |
| Api.BaseUrl | services/api.ts:4 | a non-empty environment URL wins over the default |
| Api.RequestHeaders | services/api.ts:23-31 | the caller's headers override the defaults; JSON content type unless the body is form data; bearer token when one is held; no other header |
| Api.Field | services/api.ts:47 | a JSON field lookup finds a member of that name with no later one of the same name, or there is none |
| Api.ErrorFor | services/api.ts:45-48 | a `null` body throws on property access; a truthy string `message` is the error text; a truthy `message` of another kind is the value thrown with; without a truthy `message`, `HTTP <status>` |
| Api.StatusTextCarriesStatus | services/api.ts:47 | `HTTP <status>` starts with `HTTP ` and parses back to the status |
| Api.Settle | services/api.ts:36-54 | a network failure is rethrown; a non-ok response becomes its error; an ok response yields its JSON |
| Api.HistoryEndpointRoundTrip | services/api.ts:86-88 | page and limit can be read back from the history endpoint |
| Api.HistoryDefaults | services/api.ts:86 | the defaults are page 1 and limit 20 |
| Api.MealsByDateUsesDatePart | services/api.ts:82-84 | the by-date endpoint carries only the `YYYY-MM-DD` part |
| Api.CreateMealRequest | services/api.ts:90-95 | POST `/meals` with a JSON body of exactly the members `type` and `date` |
| Api.AddItemByBarcodeDefaultQuantity | services/api.ts:101-106 | the quantity defaults to 1 |
| Api.OnlyImageAnalysisIsForm | services/api.ts:25-27 | only the image analysis goes without the JSON content type |
| Api.ApiService.constructor | services/api.ts:6-7 | no token; nothing sent |
| Api.ApiService.SetToken | services/api.ts:9-11 | the token is held |
| Api.ApiService.ClearToken | services/api.ts:13-15 | no token is held |
| Api.ApiService.MakeRequest | services/api.ts:17-55 | one request to base URL + endpoint with the computed headers, whose result is the settled outcome |
| Api.ApiService.Send | services/api.ts:58-156 | every endpoint method sends its own endpoint and options through `makeRequest` |
| Api.BearerOnEveryCall | services/api.ts:29-31 | every call carries `Bearer <token>` exactly when a truthy token is held |
| Auth.Escape | services/auth.ts:52 | escaping never shortens a string |
| Auth.ParseStringBody | services/auth.ts:44 | a parsed string body consumes at least its closing quote |
| Auth.ParseEscaped | services/auth.ts:44-52 | an escaped string parses back to itself, leaving the rest untouched |
| Auth.ParsedIsEscaped | services/auth.ts:44-52 | whatever parses is an escaped string followed by a quote |
| Auth.AfterPrefix | services/auth.ts:44 | the rest is present exactly when the prefix matches |
| Auth.ParseMemberOf | services/auth.ts:44-52 | a member written by the encoder reads back |
| Auth.UserRoundTrip | services/auth.ts:44-52 | `JSON.parse(JSON.stringify(user))` is the user |
| Auth.DecodedIsEncoded | services/auth.ts:44-52 | a text that decodes is exactly the encoding of the user it decodes to |
| Auth.ReadStoredUser | services/auth.ts:38-48 | an absent or empty entry gives null; a user read is the one whose text was stored |
| Auth.StoredUserRoundTrip | services/auth.ts:38-61 | a stored user reads back |
| Auth.TruncatedUserIsNull | services/auth.ts:44-47 | stored user text cut short anywhere is not valid JSON, so the `catch` gives null |
| Auth.NoProperPrefixDecodes | services/auth.ts:44-47 | no proper prefix of readable user text is readable |
| Auth.ParseExtended | services/auth.ts:44 | reading a string literal stops at its closing quotation mark, whatever follows |
| Auth.MemberExtended | services/auth.ts:44 | reading a member stops at its closing quotation mark, whatever follows |
| Auth.DecodeExtended | services/auth.ts:44 | text after a complete user makes the whole unreadable |
| Auth.AuthService.constructor | services/auth.ts:10-11 | no user, no listeners |
| Auth.AuthService.IsLoggedIn | services/auth.ts:113-115 | logged in exactly when a user is held |
| Auth.AuthService.AddListener | services/auth.ts:117-118 | the callback is appended |
| Auth.AuthService.Unsubscribe | services/auth.ts:119-121 | every copy of the callback is removed |
| Auth.AuthService.NotifyListeners | services/auth.ts:124-126 | every listener receives the user |
| Auth.AuthService.SetToken | services/auth.ts:20-27 | the token is stored, then handed to the API client |
| Auth.AuthService.RemoveToken | services/auth.ts:29-36 | the token is deleted, then cleared in the API client |
| Auth.AuthService.SetUser | services/auth.ts:50-61 | the user is assigned, stored as JSON so that it reads back, and announced |
| Auth.AuthService.RemoveUser | services/auth.ts:63-73 | the user is cleared, deleted from storage, and null is announced |
| Auth.AuthService.SignIn | services/auth.ts:75-85 | on success: token, then user, in that order; on failure: nothing changes and the error propagates |
| Auth.AuthService.Logout | services/auth.ts:87-90 | token and user are both gone from storage and client, and null is announced |
| Auth.AuthService.Initialize | services/auth.ts:92-107 | without a token nothing happens; with one, the profile is fetched and stored; a failing fetch logs out |
| Meals.ItemCalories | hooks/useMeals.ts:49-56 | an item without numeric calories and serving size adds 0; otherwise `quantity * calories / servingSize`, which is not finite for serving size 0 and NaN when the numerator is 0 too |
| Meals.CaloriesSumFinite | hooks/useMeals.ts:48-58 | the sum is non-finite exactly when a counted item has serving size 0 |
| Meals.CaloriesSumSplit | hooks/useMeals.ts:48-58 | the sum over a concatenation is the sum of the sums |
| Meals.UncountedItemAddsNothing | hooks/useMeals.ts:49-57 | an item that is not counted does not change the total |
| Meals.MealCalories | hooks/useMeals.ts:46-60 | a finite total is an integer within half of the exact sum, finite exactly when no counted item has serving size 0; otherwise it is the non-finite sum itself |
| Meals.ProcessMeals | hooks/useMeals.ts:62-67 | each meal keeps everything but its total, which is recomputed |
| Meals.ProcessMealsIdempotent | hooks/useMeals.ts:62-67 | processing twice equals processing once |
| Meals.WithoutFoodItems | hooks/useMeals.ts:122-124 | the items kept are exactly those of another food |
| Meals.WithoutFoodItemsSplit | hooks/useMeals.ts:122-124 | the filter keeps order |
| Meals.WithoutFood | hooks/useMeals.ts:119-128 | only the meal with the given id loses the food's items |
| Meals.RemovalEffect | hooks/useMeals.ts:119-128 | after removal and reprocessing, other meals keep their items and the target meal loses exactly that food |
| Meals.DayCaloriesSplit | hooks/useMeals.ts:146-148 | the day's calories add over a concatenation |
| Meals.TotalOrZero | hooks/useMeals.ts:147 | `totalCalories \|\| 0`: a truthy total is itself; an absent, zero or NaN one is 0 |
| Meals.ProcessedDayCalories | hooks/useMeals.ts:146-148 | the day total of processed meals is finite exactly when no meal total is an infinity, and then adds the rounded finite totals, a NaN total counting 0 |
| Meals.InfiniteMealStep | hooks/useMeals.ts:146-148 | a list has an infinite meal total iff its front does or its last meal does |
| Meals.DayStep | hooks/useMeals.ts:147 | adding `total \|\| 0` keeps the day finite unless the total is an infinity, and a NaN total adds 0 |
| Meals.MealsMacroSplit | hooks/useMeals.ts:150-165 | macro totals add over a concatenation |
| Meals.MacrosIgnoreTotals | hooks/useMeals.ts:150-165 | reprocessing meals does not change the macro totals |
| Meals.TotalMacros | hooks/useMeals.ts:150-165 | the loop's protein, carbs and fat are the totals of `(value \|\| 0) * quantity / servingSize` over the items that have a food and a truthy serving size |
| Meals.FreshnessBoundary | hooks/useMeals.ts:31 | an entry is fresh 299,999 ms after it was written, but not 300,000 ms after |
| Meals.MealsCache.constructor | hooks/useMeals.ts:30 | the shared cache starts empty |
| Meals.MealsHook.constructor | hooks/useMeals.ts:34-40 | no meals, loading, no error |
| Meals.MealsHook.LoadMeals | hooks/useMeals.ts:69-104 | a fresh cache entry is used without fetching; otherwise the answer is fetched, processed and cached, or the error text is kept; loading ends either way |
| Meals.MealsHook.RefreshMeals | hooks/useMeals.ts:106-110 | a load of the hook's own date with `refreshing` raised around it: it fetches only when the entry is missing or stale or the cache is off, leaves meals, error and cache as that load does, and always ends with `refreshing` and `loading` down |
| Meals.MealsHook.RemoveMealItem | hooks/useMeals.ts:112-143 | on success the food leaves the meal, totals are recomputed and the date's cache entry is dropped; otherwise nothing changes |
| FormValidation.LooseEmailMeansShape | app/auth/login.tsx:23 | the scan agrees with `/\S+@\S+\.\S+/` matching somewhere (both directions) |
| FormValidation.DoubleAtPasses | app/auth/login.tsx:23 | the unanchored pattern accepts `a@@b.c` |
| FormValidation.ShapeIsNotBlank | app/auth/login.tsx:21-25 | an address of the right shape is never blank, so "invalid" is only reached after "required" |
| FormValidation.CheckEmail | app/auth/login.tsx:21-25 | "required" iff blank; "invalid" iff non-blank and not of the shape |
| FormValidation.CheckPassword | app/auth/login.tsx:27-31 | "required" iff blank; "too short" iff non-blank and with a `length` under 6 UTF-16 code units |
| FormValidation.PasswordChecksDiffer | app/auth/login.tsx:27-31 | white space counts towards length: six spaces are blank but `"  abcd"` passes |
| FormValidation.SurrogatePasswordAccepted | app/auth/login.tsx:29 | three emoji pass the check, since their `length` is 6 |
| Signup.ValidateSignup | app/auth/signup.tsx:27-55 | each of the four fields has its error exactly when the source's condition holds, including the mismatch of confirmation and password; the password length is in UTF-16 code units |
| Signup.SignupAcceptance | app/auth/signup.tsx:57-58 | the form is valid iff there is a name, a shaped email, a non-blank password whose `length` is 6 or more UTF-16 code units, and an equal confirmation |
| Signup.SignupCall | app/auth/signup.tsx:61-66 | `register` is called only for a valid form, with trimmed email and name |
| Signup.SignupScreen.constructor | app/auth/signup.tsx:16-22 | empty errors, not loading |
| Signup.SignupScreen.HandleSignup | app/auth/signup.tsx:61-73 | errors are set; a valid form registers and ends not loading |
| Login.ValidateLogin | app/auth/login.tsx:18-31 | each field's message appears exactly under the source's condition, the password length in UTF-16 code units |
| Login.LoginAcceptance | app/auth/login.tsx:33-34 | valid iff a shaped email and a non-blank password whose `length` is 6 or more UTF-16 code units |
| Login.LoginCall | app/auth/login.tsx:37-42 | `login` is called only for a valid form, with the trimmed email |
| Login.LoginScreen.constructor | app/auth/login.tsx:13-14 | empty errors, not loading |
| Login.LoginScreen.HandleLogin | app/auth/login.tsx:37-49 | errors are set; a valid form signs in and ends not loading |
| Performance.Average | utils/performance.ts:44-50 | the average times the count is the sum; no durations give 0 |
| Performance.SumBounds | utils/performance.ts:48 | the sum lies between count × lowest and count × highest |
| Performance.AverageBounds | utils/performance.ts:44-50 | an average lies between the smallest and the largest duration |
| Performance.Lowest | utils/performance.ts:44-50 | a recorded duration no larger than any other |
| Performance.Highest | utils/performance.ts:44-50 | a recorded duration no smaller than any other |
| Performance.SumAppend | utils/performance.ts:34 | recording a duration adds exactly it to the sum |
| Performance.PerformanceMonitor.constructor | utils/performance.ts:6-7 | no timers, no metrics |
| Performance.PerformanceMonitor.StartTimer | utils/performance.ts:16-18 | the name's start time is now, replacing an earlier one |
| Performance.PerformanceMonitor.EndTimer | utils/performance.ts:20-42 | an unknown or zero start gives 0 and changes nothing; otherwise the duration is recorded last and the timer removed; every recorded list stays non-empty |
| Performance.PerformanceMonitor.GetAverageTime | utils/performance.ts:44-50 | 0 for an unknown name, otherwise the average; when the monitor keeps no empty list, the average of a known name lies between its shortest and longest durations |
| Performance.PerformanceMonitor.ClearMetrics | utils/performance.ts:52-55 | both maps are emptied |
| Performance.PerformanceMonitor.GetMetrics | utils/performance.ts:57-63 | exactly the recorded names, each with its average |
| Performance.MonitorRegistry.constructor | utils/performance.ts:5 | no instance yet |
| Performance.MonitorRegistry.GetInstance | utils/performance.ts:9-14 | the first call creates a fresh, empty monitor; later calls return that same object |
| Performance.GetInstanceTwice | utils/performance.ts:9-14 | two calls in a row give the same monitor |
| AddMealResults.TotalNutritionSplit | app/add-meal/results.tsx:86-96 | the totals of a list are the totals of its parts added up |
| AddMealResults.NoValuesTotalZero | app/add-meal/results.tsx:86-96 | foods without values total zero |
| AddMealResults.RemoveAt | app/add-meal/results.tsx:65 | removing index `i` keeps the foods before it and shifts those after; an index out of range changes nothing |
| AddMealResults.RemoveAtTotals | app/add-meal/results.tsx:64-96 | removing a food takes exactly its values off the totals |
| AddMealResults.DecimalCommaAccepted | app/add-meal/results.tsx:175 | `12,5` is stored as 12.5 |
| AddMealResults.LettersGiveZero | app/add-meal/results.tsx:175 | text that is not a number stores 0 |
| AddMealResults.MethodTitle | app/add-meal/results.tsx:98-105 | each input method has its own title, and any other method gets the generic one (both directions) |
| AddMealResults.MealLabel | app/add-meal/results.tsx:107-109 | a missing or empty type gives `Meal`; otherwise the first letter is upper-cased and the rest is kept |
| AddMealResults.UpperCaseTypeUnchanged | app/add-meal/results.tsx:107-109 | a type already upper case is shown as it is |
| AddMealResults.ConfirmEnabled | app/add-meal/results.tsx:212-213 | enabled iff not loading and foods remain |
| AddMealResults.ResultsScreen.constructor | app/add-meal/results.tsx:19-27 | the parsed foods, not loading |
| AddMealResults.ResultsScreen.RemoveItem | app/add-meal/results.tsx:64-84 | the food at the index leaves the list; the "no items" prompt appears iff the list is then empty |
| AddMealResults.ResultsScreen.EditQuantity | app/add-meal/results.tsx:173-178 | only the edited food's quantity changes, to the parsed value or 0 |
| AddMealResults.ResultsScreen.Confirm | app/add-meal/results.tsx:40-62 | all foods go to `mealId \|\| ''`; the meal counts as added iff the call settles truthy; loading ends iff the call settles, and stays on when it rejects |
| MealCard.CalculateNutrient | components/MealCard.tsx:44-47 | 0 without food, nutrient or serving size; otherwise finite iff the serving size is non-zero, with `v * s == quantity * value`, and NaN iff the serving size and `quantity * value` are both 0 |
| MealCard.NutrientLinear | components/MealCard.tsx:44-47 | the amount is additive in the quantity |
| MealCard.NutrientScales | components/MealCard.tsx:44-47 | scaling the quantity scales the amount |
| MealCard.CardCaloriesMatchHook | components/MealCard.tsx:44-47 | the card's calories per item are those the meals hook adds up |
| MealCard.ToFixed0 | components/MealCard.tsx:91 | `toFixed(0)` gives a sign iff negative, then digits within half of the magnitude |
| MealCard.Segment | components/MealCard.tsx:89-101 | a segment is shown iff the food's nutrient and serving size are truthy, and shows the rounded amount |
| MealCard.ZeroNutrientHidden | components/MealCard.tsx:89-101 | a nutrient of 0 is computed as 0 but never shown |
| MealCard.AddMealArgs | components/MealCard.tsx:40-42 | the meal's id or `''`, with the slot's type and the date |
| MealCard.NumToFixed0 | components/MealCard.tsx:36 | `toFixed(0)` prints a finite number as `ToFixed0` does, and NaN and the infinities by name |
| MealCard.FixedDigitsOnlyWhenFinite | components/MealCard.tsx:36 | the printed total ends in a digit exactly when it is finite |
| MealCard.MealStats | components/MealCard.tsx:31-38 | the "no items" key without a meal; otherwise the item count and the total printed by `toFixed(0)` (`NaN` or an infinity included), or the number 0 without a total |
| MealCard.MissingTotalShowsZero | components/MealCard.tsx:36 | a meal without a total shows the same text as a total of 0 |
| AppConstants.LanguageTablesAgree | constants/app.ts:29-46 | both language tables have the same keys, which are the valid languages |
| AppConstants.LocaleForLanguage | constants/app.ts:128-130 | the language's locale, else `en-US` |
| AppConstants.LocaleOfLanguage | constants/app.ts:128-130 | a valid language gets its table locale; any other gets `en-US` |
| AppConstants.MealColor | constants/app.ts:132-134 | the type's colour, else gray 500 |
| AppConstants.ApiMealTypesAreGray | constants/app.ts:81-86 | the upper-case API meal types miss the lower-case colour table and all get gray |
| AppConstants.IsValidEmail | constants/app.ts:136-138 | the scan agrees with the anchored `^[^\s@]+@[^\s@]+\.[^\s@]+$` |
| AppConstants.ValidEmailCharacterised | constants/app.ts:105 | valid iff no white space, exactly one `@`, and a dot strictly inside the domain |
| AppConstants.ValidEmailIsLoose | constants/app.ts:105 | every address the constants accept, the forms accept |
| AppConstants.DoubleAtOnlyLoose | constants/app.ts:105 | `a@@b.c` passes the forms but not the constants |
| AppConstants.IsValidPassword | constants/app.ts:140-142 | valid iff the `length` is at least 6 UTF-16 code units, so six characters always suffice |
| AppConstants.IsValidName | constants/app.ts:144-146 | valid iff the `length` is at least 2 UTF-16 code units, so two characters always suffice |
| AppConstants.PasswordRuleMatchesForms | constants/app.ts:106 | for non-blank input, the forms' password check agrees with the constant |
| AppConstants.SurrogatePairsMeetLengths | constants/app.ts:140-146 | three emoji are a valid password and one emoji a valid name |
| AppConstants.NameRuleDiffersFromSignup | constants/app.ts:107 | signup accepts `a`, which the constant rejects, and rejects two spaces, which it accepts |
| DateFormatter.GetLocale | hooks/useDateFormatter.ts:23-26 | an absent or empty argument means the current language; an unknown code gives `en-US` |
| DateFormatter.GetLocaleMatchesConstants | hooks/useDateFormatter.ts:14-21 | the hook's table gives the same locale as the constants' |
| DateFormatter.CurrentLanguageLocale | hooks/useDateFormatter.ts:23-26 | without an argument, the locale is the current valid language's |
| DateFormatter.GetDateKey | hooks/useDateFormatter.ts:90-93 | the key is the prefix of the ISO text before the first `T` |
| DateFormatter.DateKeyOfIso | hooks/useDateFormatter.ts:90-93 | the key of an ISO timestamp is its `YYYY-MM-DD` part |
| DateFormatter.TodayIsNotYesterday | hooks/useDateFormatter.ts:77-88 | no day is both today and yesterday |
| DateFormatter.FormatDate | hooks/useDateFormatter.ts:28-49 | today's label iff today; yesterday's iff the day before; otherwise the date in the current locale |
| DateFormatter.LabelledDays | hooks/useDateFormatter.ts:33-44 | only today and yesterday are labelled, and their labels differ |

## Left out

- Floating point: finite numbers are exact reals, without IEEE rounding or a signed zero (so `x / -0` is not distinguished from `x / 0`); infinities and NaN are modelled only where a division by a serving size of 0 produces them.
- `parseFloat` with an exponent or `Infinity`; `toFixed` for magnitudes of 10^21 and above.
- Auth.Escape: only `"` and `\` are escaped; the control-character escapes of `JSON.stringify` are not modelled.
- The optional `goals` field of the user, and JSON member order other than the one written, are not modelled.
- Auth.ReadStoredUser: stored text in any other JSON layout reads as null; `JSON.parse` would return that other value.
- The blob fetch on the web in `AnalyseItemByImage`, and its unused `context` argument.
- `console` logging, `Alert`, navigation and rendering.
- The `JSON.parse` of the review screen's route data (app/add-meal/results.tsx:22-33); the screen starts from the parsed foods.
- Storage failures and throwing listeners in the auth service. The caller sees them as exceptions; the model assumes neither happens.
- Non-integer `page` and `limit`; `String(x)` of non-integer numbers in translation parameters; `$` patterns in replacement text.
- Unicode upper-casing beyond ASCII letters.
- Strings that hold an unpaired surrogate: a string is a sequence of Unicode scalar values, and `length` is computed from them as UTF-16 code units.
- Keys inherited from the object prototype (such as `constructor`) in the JavaScript table lookups of `getLocale` and `getMealColor`.
- Interleaving of concurrent async calls; each call is modelled from start to end.
- `debounce`, `throttle`, `measurePerformance`, `logMemoryUsage` and the rest of utils/performance.ts beyond the monitor.
- hooks/useAuth.ts and hooks/useI18n.ts are not part of this model.
- `deleteFoodFromMeal` is not part of this model; its answer is a parameter of `RemoveMealItem`.
- Locale date formatting (`toLocaleDateString`, `toLocaleTimeString`), `formatDateShort`, `formatDateLong` and `formatTime`.
- Calendar arithmetic: a day is a day number.
- `MAX_RETRIES` and `RETRY_DELAY` are never used; the other configuration constants have no behaviour.
- Performance.PerformanceMonitor.GetMetrics: the result is a map, so the insertion order of the returned object is not modelled.
- AddMealResults.ResultsScreen.EditQuantity: the source mutates the item object shared with the previous list. The model updates a value, so that aliasing is not captured.
