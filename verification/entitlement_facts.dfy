/**
 Properties of the student operations that relate several calls, or a call
 and an invariant of the store.
 */
module EntitlementFacts {
  import opened Canteen
  import opened Entitlement
  import Pricing

  /** After a successful claim, claiming the same meal again the same day is refused. */
  lemma SecondClaimRejected(st: State, uid: UserId, mealType: string, today: Day,
                            chosen: Option<Subscription>, chosen2: Option<Subscription>)
    requires uid in st.users && ChoiceValid(st, uid, today, chosen)
    requires ClaimMeal(st, uid, mealType, today, chosen).Success?
    requires ChoiceValid(ClaimMeal(st, uid, mealType, today, chosen).value, uid, today, chosen2)
    ensures var st' := ClaimMeal(st, uid, mealType, today, chosen).value;
            uid in st'.users && ClaimMeal(st', uid, mealType, today, chosen2) == Failure(AlreadyClaimed)
  {
  }

  /** Without covering subscription a claim debits exactly the slot's price and cannot overdraw. */
  lemma UncoveredClaimDebitsPrice(st: State, uid: UserId, mealType: string, today: Day, chosen: Option<Subscription>)
    requires uid in st.users && ChoiceValid(st, uid, today, chosen)
    requires !Covers(chosen, mealType)
    requires ClaimMeal(st, uid, mealType, today, chosen).Success?
    ensures var st' := ClaimMeal(st, uid, mealType, today, chosen).value;
            && today in st.menus
            && st'.users[uid].balance == st.users[uid].balance - SlotPrice(st, today, mealType)
            && st'.users[uid].balance >= 0
  {
  }

  /** A covering subscription leaves the balance untouched. */
  lemma CoveredClaimKeepsBalance(st: State, uid: UserId, mealType: string, today: Day, chosen: Option<Subscription>)
    requires uid in st.users && ChoiceValid(st, uid, today, chosen)
    requires Covers(chosen, mealType)
    requires ClaimMeal(st, uid, mealType, today, chosen).Success?
    ensures ClaimMeal(st, uid, mealType, today, chosen).value.users == st.users
  {
    var user := st.users[uid];
    assert user.(balance := user.balance - 0) == user;
  }

  /**
   A successful claim adds exactly one attendance record, raises today's
   counter of the claimed slot by one, and leaves the other slot, the other
   dates' menus and every other user's balance alone.
   */
  lemma ClaimCountsOneMeal(st: State, uid: UserId, mealType: string, today: Day, chosen: Option<Subscription>)
    requires uid in st.users && ChoiceValid(st, uid, today, chosen)
    requires ClaimMeal(st, uid, mealType, today, chosen).Success?
    ensures var st' := ClaimMeal(st, uid, mealType, today, chosen).value;
            var slot := SlotOf(mealType);
            && |st'.attendance| == |st.attendance| + 1
            && today in st.menus && today in st'.menus
            && Served(st'.menus[today], slot) == Served(st.menus[today], slot) + 1
            && (forall o: Slot :: o != slot ==> Served(st'.menus[today], o) == Served(st.menus[today], o))
            && (forall d :: d in st.menus && d != today ==> d in st'.menus && st'.menus[d] == st.menus[d])
            && (forall u :: u in st.users && u != uid ==> u in st'.users && st'.users[u] == st.users[u])
  {
    var st' := ClaimMeal(st, uid, mealType, today, chosen).value;
    var rec := Attendance(uid, today, mealType);
    assert rec !in st.attendance;
    assert st'.attendance == st.attendance + {rec};
  }

  /** Every active subscription of the user pays for `mealType`. */
  ghost predicate AllActiveCover(st: State, uid: UserId, today: Day, mealType: string) {
    forall i :: 0 <= i < |st.subscriptions| && Active(st.subscriptions[i], uid, today) ==>
      Covers(Some(st.subscriptions[i]), mealType)
  }

  /** No active subscription of the user pays for `mealType`. */
  ghost predicate NoActiveCovers(st: State, uid: UserId, today: Day, mealType: string) {
    forall i :: 0 <= i < |st.subscriptions| && Active(st.subscriptions[i], uid, today) ==>
      !Covers(Some(st.subscriptions[i]), mealType)
  }

  /**
   Which active subscription the lookup returns matters only when the user's
   active subscriptions disagree about the meal: when they all cover it, or
   none does, every possible lookup result gives the same outcome.
   */
  lemma ClaimIndependentOfLookup(st: State, uid: UserId, mealType: string, today: Day,
                                 c1: Option<Subscription>, c2: Option<Subscription>)
    requires uid in st.users
    requires ChoiceValid(st, uid, today, c1) && ChoiceValid(st, uid, today, c2)
    requires (AllActiveCover(st, uid, today, mealType) && c1.Some? && c2.Some?)
             || NoActiveCovers(st, uid, today, mealType)
    ensures ClaimMeal(st, uid, mealType, today, c1) == ClaimMeal(st, uid, mealType, today, c2)
  {
    assert Covers(c1, mealType) == Covers(c2, mealType) by {
      if c1.Some? {
        var i :| 0 <= i < |st.subscriptions| && st.subscriptions[i] == c1.value;
        assert Active(st.subscriptions[i], uid, today);
      }
      if c2.Some? {
        var j :| 0 <= j < |st.subscriptions| && st.subscriptions[j] == c2.value;
        assert Active(st.subscriptions[j], uid, today);
      }
    }
  }

  /** Claiming a meal never makes a balance negative. */
  lemma ClaimKeepsBalancesNonNegative(st: State, uid: UserId, mealType: string, today: Day, chosen: Option<Subscription>)
    requires uid in st.users && ChoiceValid(st, uid, today, chosen)
    requires BalancesNonNegative(st)
    ensures BalancesNonNegative(After(st, ClaimMeal(st, uid, mealType, today, chosen)))
  {
  }

  /** Topping up never makes a balance negative. */
  lemma TopUpKeepsBalancesNonNegative(st: State, uid: UserId, amount: int, today: Day)
    requires uid in st.users && BalancesNonNegative(st)
    ensures BalancesNonNegative(After(st, TopUp(st, uid, amount, today)))
  {
  }

  /** Buying a subscription never makes a balance negative. */
  lemma SubscribeKeepsBalancesNonNegative(st: State, uid: UserId, durationText: string, mealKind: string, today: Day)
    requires uid in st.users && BalancesNonNegative(st)
    ensures BalancesNonNegative(After(st, Subscribe(st, uid, durationText, mealKind, today)))
  {
  }

  /**
   A subscription bought today is a possible lookup result on every day up to
   and including its end date, and there it pays for its own meal kind.
   */
  lemma NewSubscriptionCovers(st: State, uid: UserId, durationText: string, mealKind: string, today: Day, day: Day)
    requires uid in st.users
    requires Subscribe(st, uid, durationText, mealKind, today).Success?
    requires today <= day <= today + Pricing.DurationDays(durationText)
    ensures var st' := Subscribe(st, uid, durationText, mealKind, today).value;
            var s := st'.subscriptions[|st'.subscriptions| - 1];
            && ChoiceValid(st', uid, day, Some(s))
            && Covers(Some(s), mealKind)
            && (mealKind == BOTH ==> Covers(Some(s), BREAKFAST) && Covers(Some(s), LUNCH))
  {
  }

  /** The number of attendance records of `d` served from slot `s`. */
  function ServedRecords(st: State, d: Day, s: Slot): set<Attendance> {
    set a | a in st.attendance && a.date == d && SlotOf(a.mealType) == s
  }

  /** Each menu's counters equal the attendance records of its date, slot by slot. */
  ghost predicate CountersAgree(st: State) {
    forall d, s: Slot :: d in st.menus ==> Served(st.menus[d], s) == |ServedRecords(st, d, s)|
  }

  lemma ServedRecordsAfterInsert(st: State, st': State, rec: Attendance, d: Day, s: Slot)
    requires rec !in st.attendance
    requires st'.attendance == st.attendance + {rec}
    ensures rec.date == d && SlotOf(rec.mealType) == s ==>
              ServedRecords(st', d, s) == ServedRecords(st, d, s) + {rec}
              && |ServedRecords(st', d, s)| == |ServedRecords(st, d, s)| + 1
    ensures !(rec.date == d && SlotOf(rec.mealType) == s) ==>
              ServedRecords(st', d, s) == ServedRecords(st, d, s)
  {
    if rec.date == d && SlotOf(rec.mealType) == s {
      assert ServedRecords(st', d, s) == ServedRecords(st, d, s) + {rec};
      assert rec !in ServedRecords(st, d, s);
    } else {
      assert ServedRecords(st', d, s) == ServedRecords(st, d, s);
    }
  }

  /** A claim keeps every menu counter equal to its attendance count. */
  lemma ClaimKeepsCountersAgree(st: State, uid: UserId, mealType: string, today: Day, chosen: Option<Subscription>)
    requires uid in st.users && ChoiceValid(st, uid, today, chosen)
    requires CountersAgree(st)
    ensures CountersAgree(After(st, ClaimMeal(st, uid, mealType, today, chosen)))
  {
    var r := ClaimMeal(st, uid, mealType, today, chosen);
    if r.Success? {
      var st' := r.value;
      var rec := Attendance(uid, today, mealType);
      forall d, s: Slot | d in st'.menus
        ensures Served(st'.menus[d], s) == |ServedRecords(st', d, s)|
      {
        ServedRecordsAfterInsert(st, st', rec, d, s);
        if d == today {
          if s == SlotOf(mealType) {
            assert Served(st'.menus[d], s) == Served(st.menus[d], s) + 1;
          } else {
            assert Served(st'.menus[d], s) == Served(st.menus[d], s);
          }
        } else {
          assert st'.menus[d] == st.menus[d];
        }
      }
    }
  }

  /** Top-ups and subscriptions touch neither menus nor attendance. */
  lemma TopUpAndSubscribeKeepCountersAgree(st: State, uid: UserId, amount: int, durationText: string,
                                            mealKind: string, today: Day)
    requires uid in st.users && CountersAgree(st)
    ensures CountersAgree(After(st, TopUp(st, uid, amount, today)))
    ensures CountersAgree(After(st, Subscribe(st, uid, durationText, mealKind, today)))
  {
    var st1 := After(st, TopUp(st, uid, amount, today));
    assert forall d, s: Slot :: ServedRecords(st1, d, s) == ServedRecords(st, d, s);
    var st2 := After(st, Subscribe(st, uid, durationText, mealKind, today));
    assert forall d, s: Slot :: ServedRecords(st2, d, s) == ServedRecords(st, d, s);
  }

  /**
   As written, the duplicate check is keyed on the meal-type word while any
   word other than "breakfast" is served as lunch: after claiming "lunch", a
   claim for "dinner" the same day succeeds and serves a second lunch.
   */
  lemma SecondLunchUnderAnotherWord()
    ensures var menu := Menu([], [Dish(4, 80, [])], 0, 0);
            var st0 := State(map[1 := User(STUDENT, 500, "")], map[0 := menu], {}, [], [], map[], map[]);
            && OneMealPerSlot(st0) && MealTypesKnown(st0)
            && ClaimMeal(st0, 1, LUNCH, 0, None).Success?
            && var st1 := ClaimMeal(st0, 1, LUNCH, 0, None).value;
               && ClaimMeal(st1, 1, "dinner", 0, None).Success?
               && var st2 := ClaimMeal(st1, 1, "dinner", 0, None).value;
                  && !OneMealPerSlot(st2)
                  && st2.menus[0].givenLunches == 2
                  && st2.users[1].balance == 340
  {
    var menu := Menu([], [Dish(4, 80, [])], 0, 0);
    var st0 := State(map[1 := User(STUDENT, 500, "")], map[0 := menu], {}, [], [], map[], map[]);
    assert TotalPrice(menu.lunch) == 80;
    var st1 := ClaimMeal(st0, 1, LUNCH, 0, None).value;
    assert "dinner" != LUNCH;
    assert Attendance(1, 0, "dinner") !in st1.attendance;
    var st2 := ClaimMeal(st1, 1, "dinner", 0, None).value;
    var a := Attendance(1, 0, LUNCH);
    var b := Attendance(1, 0, "dinner");
    assert a in st2.attendance && b in st2.attendance && a != b;
    assert SlotOf(a.mealType) == SlotOf(b.mealType);
  }

  /** With the meal type checked, every claim keeps one breakfast and one lunch per student per day. */
  lemma CheckedClaimKeepsOneMealPerSlot(st: State, uid: UserId, mealType: string, today: Day, chosen: Option<Subscription>)
    requires uid in st.users && ChoiceValid(st, uid, today, chosen)
    requires MealTypesKnown(st) && OneMealPerSlot(st)
    ensures var st' := After(st, ClaimMealChecked(st, uid, mealType, today, chosen));
            MealTypesKnown(st') && OneMealPerSlot(st')
  {
    var r := ClaimMealChecked(st, uid, mealType, today, chosen);
    if r.Success? {
      var st' := r.value;
      var rec := Attendance(uid, today, mealType);
      assert KnownMealType(mealType);
      assert rec !in st.attendance;
      assert st'.attendance == st.attendance + {rec};
      assert forall a :: a in st.attendance && SlotOf(a.mealType) == SlotOf(mealType) ==> a.mealType == mealType;
    }
  }

  /**
   Breakfast of two dishes priced 30 and 20, no subscription: with 40 the
   claim is refused and nothing changes; with 60 it succeeds, leaves 10, and
   counts one breakfast.
   */
  lemma BreakfastScenario(st: State, uid: UserId, today: Day)
    requires uid in st.users && today in st.menus
    requires st.menus[today].breakfast == [Dish(1, 30, []), Dish(2, 20, [])]
    requires ChoiceValid(st, uid, today, None)
    requires !Claimed(st, uid, today, BREAKFAST)
    ensures st.users[uid].balance == 40 ==>
              ClaimMeal(st, uid, BREAKFAST, today, None) == Failure(InsufficientBalance(50))
    ensures st.users[uid].balance == 60 ==>
              var r := ClaimMeal(st, uid, BREAKFAST, today, None);
              && r.Success?
              && r.value.users[uid].balance == 10
              && r.value.menus[today].givenBreakfasts == st.menus[today].givenBreakfasts + 1
              && Attendance(uid, today, BREAKFAST) in r.value.attendance
              && |r.value.attendance| == |st.attendance| + 1
  {
    assert TotalPrice([Dish(1, 30, []), Dish(2, 20, [])]) == 50;
    if st.users[uid].balance == 60 {
      ClaimCountsOneMeal(st, uid, BREAKFAST, today, None);
    }
  }

  /** A week of both meals costs 1500 and runs until seven days from today. */
  lemma WeekBothScenario(st: State, uid: UserId, today: Day)
    requires uid in st.users && st.users[uid].balance >= 1500
    ensures var r := Subscribe(st, uid, "7", "both", today);
            && r.Success?
            && r.value.users[uid].balance == st.users[uid].balance - 1500
            && r.value.subscriptions[|r.value.subscriptions| - 1] == Subscription(uid, "both", today, today + 7, 7)
  {
    Pricing.PriceTable();
  }
}
