# School canteen business rules in Dafny

A model of the business rules of a school canteen web application: students
claim their daily breakfast or lunch (paid from their balance or covered by
a subscription), top up their balance, and buy subscriptions from a fixed
price table; administrators approve or reject cooks' purchase requests,
which restocks products, and read a report over a date range; the menu page
flags dishes that share an allergen with the student; every one of these is
behind a role gate. Cross-references between entities are stored as
comma-joined id lists, and that text encoding is modelled with its parser.

The store is one immutable `Canteen.State` (users with role, balance and
allergen list; menus by date; a set of attendance records; subscriptions and
payments in creation order; products with stock; purchase requests by id).
Each operation is a pure function returning `Result<State>`: a `Failure`
carries an error kind and no state, so a refused operation leaves the store
exactly as it was. Dates are integer day numbers and "today" is a parameter.

Files:

- `idlist.dfy` (`IdList`): `split`, `strip`, `isdigit`, `int`, `str` and `join` as used to store and read id lists; the parse/serialise round trip.
- `model.dfy` (`Canteen`): the entities, the store, error kinds, the balance invariant.
- `pricing.dfy` (`Pricing`): the nine-entry subscription price table and the subscription form's input domain.
- `entitlement.dfy` (`Entitlement`): meal claim, top-up, subscription purchase.
- `entitlement_facts.dfy` (`EntitlementFacts`): duplicate rejection, debit and coverage, counters, invariants, the finding below.
- `procurement.dfy` (`Procurement`): the decision on a purchase request and restocking.
- `reports.dfy` (`Reports`): the report sums and how each operation moves them.
- `menu_view.dfy` (`MenuView`): allergen flags and "already taken" markers on the student menu.
- `access.dfy` (`Access`): the role gate, the single-role wrappers, dashboard routing, and requests served through the gate.

Three behaviours of the code shape the model. The subscription lookup in
the meal claim takes the first active row in the subscription model's
ordering; the chosen subscription is a parameter that may be any active
subscription of the student (`Entitlement.ChoiceValid`). An action other than "approve" or
"reject" on a purchase request is accepted and saves the request unchanged.
The meal type of a claim comes from the URL and is any string, not only
breakfast or lunch.

## Model

| member | source | states |
|---|---|---|
| IdList.SplitParts | core/forms.py:168-169 | no part of `split(',')` contains the separator, and joining the parts gives the text back |
| IdList.SplitConcat | core/forms.py:168-169 | splitting a text made of two texts and a separator gives the parts of the first followed by those of the second |
| IdList.Strip | core/forms.py:168-169 | `strip()` never lengthens a token, leaves no whitespace at either end, and returns a token without whitespace unchanged |
| IdList.StripCutsOnlyEnds | core/forms.py:168-169 | `strip()` returns an infix of the token, and everything before and after that infix is whitespace |
| IdList.DecimalString | core/forms.py:177-178 | `str(id)` is a non-empty string of decimal digits without a leading zero |
| IdList.DecimalRoundTrip | core/forms.py:168-178 | `int` of `str(n)` is `n` for every non-negative id |
| IdList.SplitJoin | core/forms.py:168-178 | splitting a comma-join of comma-free tokens recovers exactly the tokens |
| IdList.ParseTokens | core/forms.py:168-169 | the comprehension keeps at most one id per token |
| IdList.ParseTokensAllValid | core/forms.py:168-169 | when every token is numeric after stripping, each token yields one id, its value, in order |
| IdList.ParseTokensNoneValid | core/forms.py:168-169 | when no token is numeric after stripping, no id is kept |
| IdList.ParseTokensAppend | core/forms.py:168-169 | the comprehension is a filter: the ids of two token lists put together are the ids of the first followed by those of the second |
| IdList.ParseTokensSingle | core/forms.py:168-169 | one token yields its value when it is all digits once stripped, and nothing otherwise |
| IdList.ParseConcat | core/forms.py:168-169 | the ids of a text joined at a comma are the ids of the left text followed by those of the right |
| IdList.ParseOneToken | core/forms.py:168-169 | a text without a comma yields its value when it is all digits once stripped, and nothing otherwise |
| IdList.Parse | core/forms.py:168-169 | a stored id list parses to no more ids than it has comma-separated tokens; the empty text parses to the empty list |
| IdList.Serialise | core/forms.py:175-178 | a selection serialises to digits and commas only, empty exactly when the selection is empty, and splits into the ids' decimal strings |
| IdList.RoundTrip | core/forms.py:168-178 | parsing the serialisation of any list of non-negative ids returns that same list |
| IdList.ParseTrimsSpaces | core/forms.py:168-169 | for any digits a, b, c the text "a, b,  c" parses to their three values: whitespace around tokens is ignored |
| IdList.ParseDropsNonDigits | core/forms.py:168-169 | for a non-digit, non-space character x and a digit d, "x,d," parses to [d]: empty and non-numeric tokens are dropped |
| IdList.ParseDropsNegative | core/forms.py:168-169 | for digits d, e the text "-d,e" parses to [e]: a negative number is not a digit token |
| Pricing.PriceFor | core/views.py:224-242 | the looked-up price is positive exactly for durations 7, 14, 30 with kind breakfast, lunch or both, and 0 for any other key |
| Pricing.DurationDays | core/views.py:239-242 | the form's duration text converts to 7, 14 or 30, and `str` of it is that same text, so the table key is the submitted choice |
| Pricing.FormChoicesArePriced | core/forms.py:74-95 | every duration/kind pair the subscription form accepts has a non-zero price |
| Pricing.PriceTable | core/views.py:224-234 | the nine prices 700/1000/1500, 1300/1900/2800, 2500/3800/5500 |
| Entitlement.SlotOf | core/views.py:151-154 | a claim is served from the breakfast slot exactly when its meal type is "breakfast"; every other word is served as lunch |
| Entitlement.Bump | core/views.py:176-180 | serving raises the claimed slot's counter by one and leaves the other counter and the dishes alone |
| Entitlement.ClaimMeal | core/views.py:135-183 | a duplicate (user, date, meal type) is refused first, then a missing menu; the claim succeeds iff covered by the subscription or balance ≥ slot price, otherwise it is refused with that price; on success only the debit, one attendance record and the slot counter change |
| Entitlement.ClaimMealChecked | core/views.py:135-154 | corrected claim: a meal type other than breakfast or lunch is refused; otherwise it is the claim above |
| Entitlement.TopUp | core/views.py:188-201 | a top-up succeeds iff the amount is at least 1, then appends one successful payment of that amount dated today and credits exactly that amount; nothing else changes |
| Entitlement.Subscribe | core/views.py:216-260 | inputs outside the form's choices are refused; a balance below the table price is refused with that price; otherwise exactly the price is debited, the balance stays ≥ 0, and one subscription ending today + duration is appended; nothing else changes |
| EntitlementFacts.SecondClaimRejected | core/views.py:138-140 | after a successful claim, the same claim the same day is refused as already claimed |
| EntitlementFacts.UncoveredClaimDebitsPrice | core/views.py:156-168 | without a covering subscription a successful claim lowers the balance by exactly the slot's price and leaves it ≥ 0 |
| EntitlementFacts.CoveredClaimKeepsBalance | core/views.py:158-169 | with a covering subscription no balance changes |
| EntitlementFacts.ClaimCountsOneMeal | core/views.py:170-180 | a successful claim adds exactly one attendance record and one to the claimed slot's counter only; other dates' menus and other users are unchanged |
| EntitlementFacts.ClaimIndependentOfLookup | core/views.py:142-161 | when all of a student's active subscriptions cover the meal, or none does, every possible lookup result gives the same claim outcome |
| EntitlementFacts.ClaimKeepsBalancesNonNegative | core/views.py:163-168 | a claim never makes any balance negative |
| EntitlementFacts.TopUpKeepsBalancesNonNegative | core/views.py:200-201 | a top-up never makes any balance negative |
| EntitlementFacts.SubscribeKeepsBalancesNonNegative | core/views.py:244-249 | a subscription purchase never makes any balance negative |
| EntitlementFacts.NewSubscriptionCovers | core/views.py:251-257 | a subscription bought today is a valid lookup result on every day through its end date and pays for its own meal kind (both meals for "both") |
| EntitlementFacts.ClaimKeepsCountersAgree | core/views.py:170-180 | a claim keeps every menu's given-counters equal to the number of attendance records of that date and slot |
| EntitlementFacts.TopUpAndSubscribeKeepCountersAgree | core/views.py:194-257 | top-ups and subscription purchases keep the counters equal to the attendance counts |
| EntitlementFacts.SecondLunchUnderAnotherWord | core/views.py:138-179 | as written, claiming "lunch" and then "dinner" on one day both succeed: two lunch-slot records, lunch counter 2, charged twice |
| EntitlementFacts.CheckedClaimKeepsOneMealPerSlot | core/views.py:138-179 | with the checked claim, every student has at most one breakfast and one lunch record per day |
| EntitlementFacts.BreakfastScenario | core/views.py:151-180 | breakfast priced 30 + 20 without subscription: balance 40 is refused with 50; balance 60 succeeds, leaves 10, adds one record and one given breakfast |
| EntitlementFacts.WeekBothScenario | core/views.py:242-257 | a week of both meals debits 1500 and ends today + 7 |
| Procurement.Restock | core/views.py:461-463 | each product's stock rises by exactly the total amount the pairs request for it; no product is added or removed |
| Procurement.Decide | core/views.py:456-470 | a missing request is not found; approve marks it approved and adds each paired amount to stock, keeping every product's allergens; reject marks it rejected and keeps stock; any other action changes nothing; other requests, users, menus, attendance, subscriptions and payments never change |
| Procurement.ApproveTwiceRestocksTwice | core/views.py:459-463 | with no status guard, approving a request twice adds its amounts to stock twice |
| Procurement.RejectKeepsStock | core/views.py:465-467 | rejecting never changes stock, whatever the current status |
| Procurement.ApproveTouchesOnlyRequested | core/views.py:461-463 | a product no pair names gains nothing from an approval |
| Reports.BuildReport | core/views.py:501-524 | the attendance total counts at most all records; breakfasts plus lunches never exceed it; the payment count is at most the number of payments |
| Reports.EmptyRangeReportsZero | core/views.py:507-524 | a range ending before it starts reports zero in every figure |
| Reports.PaymentsAppend | core/views.py:507-519 | a new payment adds its amount and one to the count exactly when it is successful and dated in range |
| Reports.TopUpReported | core/views.py:507-519 | a top-up dated in range raises the payments total by its amount and the count by one; attendance and expenses are unchanged |
| Reports.ClaimReported | core/views.py:510-522 | a claim dated in range adds one to the attendance total and one to breakfasts or lunches when the meal type is exactly that word |
| Reports.ExpensesOverUpdate | core/views.py:513-523 | changing one request's contribution changes the expenses sum by exactly the difference |
| Reports.DecisionReported | core/views.py:513-523 | approving a not-yet-approved request in range adds its price to expenses, re-approving adds nothing, rejecting an approved one removes its price |
| Reports.KnownMealTypesSplitTotal | core/views.py:520-522 | when every record is breakfast or lunch, breakfasts plus lunches equal the attendance total |
| MenuView.HasAllergen | core/views.py:102-103 | a dish is flagged exactly when some allergen is both the student's and the dish's |
| MenuView.FlagDishes | core/views.py:100-109 | each slot lists its dishes in order, each flagged exactly when it shares an allergen with the student |
| MenuView.StudentMenu | core/views.py:92-120 | without a menu both slots are empty; with one each slot lists all its dishes; "taken" is shown exactly when that day's breakfast or lunch record exists |
| MenuView.NoAllergensNoFlags | core/views.py:98-109 | a student with an empty allergen list sees no dish flagged |
| MenuView.FlagIsUnionOfSingles | core/views.py:102-103 | a dish is flagged for a set of allergens exactly when it is flagged for one of them alone (a corollary of the flag's definition, kept because the page evaluates the flag per dish) |
| MenuView.DemoStudentFlags | core/views.py:98-103 | a student allergic to "2,3" is warned about a dish with allergens 2, 1, 4 and not about one with none |
| Access.RoleRequired | core/decorators.py:6-17 | the anonymous are sent to login and a role outside the list to the dashboard, without invoking the view; an admitted role gets the view's result on the unchanged arguments |
| Access.SingleRoleWrappersAdmit | core/decorators.py:20-29 | the student, cook and admin wrappers each admit exactly the principals with that one role |
| Access.SingleRoleWrappersDisjoint | core/decorators.py:20-29 | no principal passes two different single-role wrappers (a corollary of `SingleRoleWrappersAdmit`) |
| Access.Dashboard | core/views.py:57-65 | the anonymous and unknown roles go to login; student, cook and admin each go to their own start page |
| Access.DashboardTargetAdmits | core/views.py:57-65 | the start page the dashboard picks is one whose gate admits the principal |
| Access.Perform | core/urls.py:14-35 | each admitted request runs the view its URL names (a meal claim with any meal-type word, a top-up, a subscription, a decision) and touches only its own part of the store: only a decision changes products and requests and leaves users alone, only a claim changes menus and attendance, only a top-up changes payments, only a purchase changes subscriptions |
| Access.PerformChecked | core/views.py:135-154 | corrected dispatch: a meal claim with a word other than breakfast or lunch is refused; every other request is dispatched as written |
| Access.Serve | core/decorators.py:9-15 | a request reaches its operation iff the principal is logged in as a stored user whose stored role its gate lists, and then returns that operation's result |
| Access.ServeChecked | core/decorators.py:9-15 | the same gate in front of the corrected dispatch |
| Access.RefusedRequestChangesNothing | core/decorators.py:10-14 | a request the gate turns away leaves the store unchanged |
| Access.OnlyAdminsRestock | core/views.py:454-463 | of the modelled requests, only a decision by a user whose stored role is administrator changes product stock |
| Access.ServeKeepsSound | core/views.py:133-268 | every gated request, as written, keeps balances non-negative and each menu's counters equal to the attendance records of that date and slot |
| Access.ServeCheckedKeepsConsistent | core/views.py:133-268 | with the corrected dispatch every gated request also keeps only breakfast and lunch records, at most one of each per student a day |
| Access.ServedSecondLunch | core/views.py:135-179 | through the gate as written, "lunch" then "dinner" are both served, lunch counter 2, balance 500 → 340; the corrected dispatch refuses "dinner" |

## Left out

- HTML rendering, flash messages, form widgets and redirect targets other than login and dashboard: only success or the error kind is kept.
- The object layer of `core/models.py`, which is not part of this model: menu slots hold the dishes they resolve to (price and allergen ids), a request holds its resolved (product, amount) pairs, and the user's allergen list is parsed with the id-list parser of `MenuForm`. Dangling ids and list-length mismatches are not modelled.
- Procurement.Decide: requires every pair of the request to name a stored product, because the pairs stand for the product rows the request resolves to. It assumes that `get_products_with_amounts` (in `core/models.py`) loads a fresh product row for each pair, so two pairs naming one product add both amounts. If that helper loads one instance per pair before the loop starts, the second `save()` of the same product overwrites the first, and only the last amount counts. The model does not cover that case.
- The payment date and subscription registration date are taken to be today (their defaults are in `core/models.py`).
- Concurrency and transactions: every operation is one sequential step; the check-then-act races are not modelled.
- Clock and calendar: `timezone.now()` and `timedelta` become integer day numbers with today as a parameter.
- IdList.IsDigit: only ASCII digits; Python's `isdigit` also accepts other Unicode digit characters, some of which `int` then rejects.
- The report's date strings and their defaults (the last 30 days up to today) are not modelled: the range is given as two day numbers.
- Integer width: balances, prices and counters are unbounded integers; database column limits are not modelled.
- Entitlement.ChoiceValid: admits any active subscription as the lookup's result. `.first()` on a query without `order_by` takes the first row by the model's declared ordering, or by primary key when there is none. With primary-key order, an older active "breakfast" subscription is picked before a newer "both" one, so a lunch claim is still charged. The ordering lives in `core/models.py`, which is not part of this model, so the choice is left open. `EntitlementFacts.ClaimIndependentOfLookup` states when the choice cannot matter.
- Access.OnlyAdminsRestock: holds over the four modelled requests only; the cook's product editor (`cook_product_edit`, core/views.py:378-392) saves a form whose fields include the stock amount (core/forms.py:192-194), and that view is not modelled.
- Other views: login, registration, logout, profile editing, reviews, the cook's menu/dish/product editors and request creation, the admin dashboard, user list, allergen list and statistics (its average rating is a database aggregate).
- The uniqueness of attendance per (user, date, meal type) is taken from the attendance set; the database constraint behind it is in `core/models.py`.

## Findings

| source | as written | input that shows it | evidently intended | confidence | as-written member | corrected member |
|---|---|---|---|---|---|---|
| core/views.py:138-179 | the duplicate check is keyed on the raw meal-type word from the URL, while every word other than "breakfast" is served from the lunch slot and counted as a lunch | a student claims "lunch", then "dinner" the same day: both succeed, the lunch counter reaches 2 and the price is debited twice (with a "both" subscription the extra lunches are free) | only "breakfast" and "lunch" are accepted, so a student gets at most one breakfast and one lunch a day | medium, not executed | EntitlementFacts.SecondLunchUnderAnotherWord | Entitlement.ClaimMealChecked |

`Access.Serve` dispatches claims as written, and `Access.ServedSecondLunch`
shows the double lunch through the gate. `Access.ServeChecked` dispatches
them through the corrected claim. `EntitlementFacts.CheckedClaimKeepsOneMealPerSlot`
proves the intended one-meal-per-slot property for that claim, and
`Access.ServeCheckedKeepsConsistent` carries it through every request.
