/**
 The student operations that move money or meals: claiming today's
 breakfast or lunch, topping up the balance, and buying a subscription.
 Each is a pure transition: a `Failure` leaves the store as it was.
 */
module Entitlement {
  import opened Canteen
  import Pricing

  datatype Slot = BreakfastSlot | LunchSlot

  /** The slot a claim is served from: anything but "breakfast" is served as lunch. */
  function SlotOf(mealType: string): (s: Slot)
    ensures s == BreakfastSlot <==> mealType == BREAKFAST
  {
    if mealType == BREAKFAST then BreakfastSlot else LunchSlot
  }

  function SlotDishes(m: Menu, s: Slot): seq<Dish> {
    match s
    case BreakfastSlot => m.breakfast
    case LunchSlot => m.lunch
  }

  /** How many meals of slot `s` the menu records as given. */
  function Served(m: Menu, s: Slot): int {
    match s
    case BreakfastSlot => m.givenBreakfasts
    case LunchSlot => m.givenLunches
  }

  /** The menu with one more meal of slot `s` given and nothing else changed. */
  function Bump(m: Menu, s: Slot): (m': Menu)
    ensures Served(m', s) == Served(m, s) + 1
    ensures forall o: Slot :: o != s ==> Served(m', o) == Served(m, o)
    ensures m'.breakfast == m.breakfast && m'.lunch == m.lunch
  {
    match s
    case BreakfastSlot => m.(givenBreakfasts := m.givenBreakfasts + 1)
    case LunchSlot => m.(givenLunches := m.givenLunches + 1)
  }

  /** `sum(d.price for d in dishes)` */
  function TotalPrice(dishes: seq<Dish>): int
    decreases |dishes|
  {
    if |dishes| == 0 then 0 else dishes[0].price + TotalPrice(dishes[1..])
  }

  /** The price of today's `mealType` slot. */
  function SlotPrice(st: State, today: Day, mealType: string): int
    requires today in st.menus
  {
    TotalPrice(SlotDishes(st.menus[today], SlotOf(mealType)))
  }

  predicate Active(s: Subscription, uid: UserId, today: Day) {
    s.user == uid && s.endDate >= today
  }

  /**
   What the subscription lookup may return: nothing exactly when the user has
   no subscription ending today or later, otherwise one of those. The lookup
   takes the first such row in the model's ordering (by primary key unless
   the model declares one); that ordering is left open here, so any active
   subscription may be the one returned.
   */
  predicate ChoiceValid(st: State, uid: UserId, today: Day, chosen: Option<Subscription>) {
    match chosen
    case None => forall i :: 0 <= i < |st.subscriptions| ==> !Active(st.subscriptions[i], uid, today)
    case Some(s) => s in st.subscriptions && Active(s, uid, today)
  }

  /** The chosen subscription pays for `mealType`: its kind is "both" or that very meal type. */
  predicate Covers(chosen: Option<Subscription>, mealType: string) {
    chosen.Some? && (chosen.value.mealType == BOTH || chosen.value.mealType == mealType)
  }

  predicate Claimed(st: State, uid: UserId, today: Day, mealType: string) {
    Attendance(uid, today, mealType) in st.attendance
  }

  /**
   The effect of a successful claim: `debit` taken from the claimant, one
   attendance record added, today's counter for the slot raised by one, and
   nothing else changed.
   */
  ghost predicate ClaimEffect(st: State, st': State, uid: UserId, today: Day, mealType: string, debit: int)
    requires uid in st.users
  {
    && today in st.menus
    && st'.users == st.users[uid := st.users[uid].(balance := st.users[uid].balance - debit)]
    && st'.attendance == st.attendance + {Attendance(uid, today, mealType)}
    && st'.menus == st.menus[today := Bump(st.menus[today], SlotOf(mealType))]
    && st'.subscriptions == st.subscriptions
    && st'.payments == st.payments
    && st'.products == st.products
    && st'.applications == st.applications
  }

  /**
   A student claims today's `mealType`. Checked in this order: an existing
   claim for the same (user, date, meal type); a published menu for today;
   then, unless the chosen subscription covers the meal, a balance of at
   least the slot's total price, which is then debited.
   */
  function ClaimMeal(st: State, uid: UserId, mealType: string, today: Day, chosen: Option<Subscription>): (r: Result<State>)
    requires uid in st.users
    requires ChoiceValid(st, uid, today, chosen)
    ensures Claimed(st, uid, today, mealType) ==> r == Failure(AlreadyClaimed)
    ensures !Claimed(st, uid, today, mealType) && today !in st.menus ==> r == Failure(NoMenuForToday)
    ensures r.Success? <==>
              && !Claimed(st, uid, today, mealType)
              && today in st.menus
              && (Covers(chosen, mealType) || st.users[uid].balance >= SlotPrice(st, today, mealType))
    ensures r.Failure? && !Claimed(st, uid, today, mealType) && today in st.menus ==>
              r.error == InsufficientBalance(SlotPrice(st, today, mealType))
    ensures r.Success? ==>
              ClaimEffect(st, r.value, uid, today, mealType,
                          if Covers(chosen, mealType) then 0 else SlotPrice(st, today, mealType))
  {
    if Attendance(uid, today, mealType) in st.attendance then Failure(AlreadyClaimed)
    else if today !in st.menus then Failure(NoMenuForToday)
    else
      var menu := st.menus[today];
      var slot := SlotOf(mealType);
      var total := TotalPrice(SlotDishes(menu, slot));
      var user := st.users[uid];
      var covered := Covers(chosen, mealType);
      if !covered && user.balance < total then Failure(InsufficientBalance(total))
      else
        var debit := if covered then 0 else total;
        Success(st.(users := st.users[uid := user.(balance := user.balance - debit)],
                    attendance := st.attendance + {Attendance(uid, today, mealType)},
                    menus := st.menus[today := Bump(menu, slot)]))
  }

  /** The two meal types the menu page links to. */
  predicate KnownMealType(mealType: string) {
    mealType == BREAKFAST || mealType == LUNCH
  }

  /** Every attendance record names breakfast or lunch. */
  ghost predicate MealTypesKnown(st: State) {
    forall a :: a in st.attendance ==> KnownMealType(a.mealType)
  }

  /** At most one record per user, date and served slot: one breakfast and one lunch a day. */
  ghost predicate OneMealPerSlot(st: State) {
    forall a, b ::
      (a in st.attendance && b in st.attendance && a.user == b.user && a.date == b.date
       && SlotOf(a.mealType) == SlotOf(b.mealType)) ==> a == b
  }

  /**
   The claim with the meal type checked first: any word other than
   "breakfast" or "lunch" is refused instead of being served as lunch.
   */
  function ClaimMealChecked(st: State, uid: UserId, mealType: string, today: Day, chosen: Option<Subscription>): (r: Result<State>)
    requires uid in st.users
    requires ChoiceValid(st, uid, today, chosen)
    ensures !KnownMealType(mealType) ==> r == Failure(InvalidInput)
    ensures KnownMealType(mealType) ==> r == ClaimMeal(st, uid, mealType, today, chosen)
  {
    if !KnownMealType(mealType) then Failure(InvalidInput) else ClaimMeal(st, uid, mealType, today, chosen)
  }

  /**
   A student tops up by `amount`. The payment form accepts integers of at
   least 1; a valid top-up records one successful payment dated today and
   credits the balance.
   */
  function TopUp(st: State, uid: UserId, amount: int, today: Day): (r: Result<State>)
    requires uid in st.users
    ensures r.Success? <==> amount >= 1
    ensures r.Failure? ==> r.error == InvalidInput
    ensures r.Success? ==>
              && r.value.users.Keys == st.users.Keys
              && r.value.users[uid].balance == st.users[uid].balance + amount
              && r.value.users[uid].role == st.users[uid].role
              && r.value.users[uid].allergens == st.users[uid].allergens
              && (forall u :: u in st.users && u != uid ==> r.value.users[u] == st.users[u])
              && r.value.payments == st.payments + [Payment(uid, amount, today, true)]
              && r.value.menus == st.menus
              && r.value.attendance == st.attendance
              && r.value.subscriptions == st.subscriptions
              && r.value.products == st.products
              && r.value.applications == st.applications
  {
    if amount < 1 then Failure(InvalidInput)
    else
      var user := st.users[uid];
      Success(st.(payments := st.payments + [Payment(uid, amount, today, true)],
                  users := st.users[uid := user.(balance := user.balance + amount)]))
  }

  /**
   A student buys a subscription. The form accepts the durations "7", "14"
   and "30" and the kinds breakfast, lunch and both; the price comes from the
   table; a balance below the price is refused; otherwise the price is
   debited and a subscription from today to today + duration is recorded.
   */
  function Subscribe(st: State, uid: UserId, durationText: string, mealKind: string, today: Day): (r: Result<State>)
    requires uid in st.users
    ensures !(Pricing.ValidDurationText(durationText) && Pricing.ValidMealKind(mealKind)) ==>
              r == Failure(InvalidInput)
    ensures Pricing.ValidDurationText(durationText) && Pricing.ValidMealKind(mealKind) ==>
              var days := Pricing.DurationDays(durationText);
              var price := Pricing.PriceFor(days, mealKind);
              && price > 0
              && (r.Failure? <==> st.users[uid].balance < price)
              && (r.Failure? ==> r.error == InsufficientBalance(price))
              && (r.Success? ==>
                    && r.value.users.Keys == st.users.Keys
                    && r.value.users[uid] == st.users[uid].(balance := st.users[uid].balance - price)
                    && r.value.users[uid].balance >= 0
                    && (forall u :: u in st.users && u != uid ==> r.value.users[u] == st.users[u])
                    && r.value.subscriptions == st.subscriptions + [Subscription(uid, mealKind, today, today + days, days)]
                    && r.value.menus == st.menus
                    && r.value.attendance == st.attendance
                    && r.value.payments == st.payments
                    && r.value.products == st.products
                    && r.value.applications == st.applications)
  {
    if !(Pricing.ValidDurationText(durationText) && Pricing.ValidMealKind(mealKind)) then Failure(InvalidInput)
    else
      var days := Pricing.DurationDays(durationText);
      var price := Pricing.PriceFor(days, mealKind);
      var user := st.users[uid];
      if user.balance < price then Failure(InsufficientBalance(price))
      else
        Success(st.(users := st.users[uid := user.(balance := user.balance - price)],
                    subscriptions := st.subscriptions + [Subscription(uid, mealKind, today, today + days, days)]))
  }
}
