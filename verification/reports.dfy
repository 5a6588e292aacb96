/**
 The administrator's report over a date range [start, end]: successful
 payments, attendance by meal type and the price of approved requests.
 Reading it changes nothing; an empty range gives zeros.
 */
module Reports {
  import opened Canteen
  import Entitlement
  import Procurement

  datatype Report = Report(paymentsTotal: int, paymentsCount: nat, attendanceTotal: nat,
                           breakfasts: nat, lunches: nat, expenses: int)

  predicate InRange(d: Day, start: Day, end: Day) {
    start <= d <= end
  }

  predicate Counted(p: Payment, start: Day, end: Day) {
    p.successful && InRange(p.date, start, end)
  }

  /** Sum of the amounts of successful payments dated in range. */
  function PaymentsTotal(ps: seq<Payment>, start: Day, end: Day): int
    decreases |ps|
  {
    if |ps| == 0 then 0
    else (if Counted(ps[0], start, end) then ps[0].amount else 0) + PaymentsTotal(ps[1..], start, end)
  }

  /** Number of successful payments dated in range. */
  function PaymentsCount(ps: seq<Payment>, start: Day, end: Day): (n: nat)
    ensures n <= |ps|
    decreases |ps|
  {
    if |ps| == 0 then 0
    else (if Counted(ps[0], start, end) then 1 else 0) + PaymentsCount(ps[1..], start, end)
  }

  function AttendanceIn(att: set<Attendance>, start: Day, end: Day): set<Attendance> {
    set a | a in att && InRange(a.date, start, end)
  }

  function AttendanceOfType(att: set<Attendance>, start: Day, end: Day, mealType: string): set<Attendance> {
    set a | a in att && InRange(a.date, start, end) && a.mealType == mealType
  }

  /** The smallest element of a non-empty set of ids, found by counting up from `k`. */
  function MinFrom(s: set<nat>, k: nat, ghost w: nat): (m: nat)
    requires w in s && k <= w
    requires forall x :: x in s ==> x >= k
    ensures m in s && forall x :: x in s ==> m <= x
    decreases w - k
  {
    if k in s then k else MinFrom(s, k + 1, w)
  }

  function MinKey(s: set<nat>): (m: nat)
    requires s != {}
    ensures m in s && forall x :: x in s ==> m <= x
  {
    var w :| w in s;
    MinFrom(s, 0, w)
  }

  /** What request `a` adds to the expenses: its price when approved and dated in range. */
  function Expense(apps: map<AppId, Application>, a: AppId, start: Day, end: Day): int {
    if a in apps && apps[a].status == Approved && InRange(apps[a].date, start, end) then apps[a].price else 0
  }

  /** Sum of `Expense` over the ids in `keys`, smallest id first. */
  function ExpensesOver(apps: map<AppId, Application>, keys: set<AppId>, start: Day, end: Day): int
    decreases keys
  {
    if keys == {} then 0
    else
      var k := MinKey(keys);
      Expense(apps, k, start, end) + ExpensesOver(apps, keys - {k}, start, end)
  }

  /** The report shown for [start, end]. */
  function BuildReport(st: State, start: Day, end: Day): (r: Report)
    ensures r.attendanceTotal <= |st.attendance|
    ensures r.breakfasts + r.lunches <= r.attendanceTotal
    ensures r.paymentsCount <= |st.payments|
  {
    var inRange := AttendanceIn(st.attendance, start, end);
    var b := AttendanceOfType(st.attendance, start, end, BREAKFAST);
    var l := AttendanceOfType(st.attendance, start, end, LUNCH);
    assert b !! l;
    assert b + l <= inRange;
    SubsetCard(b + l, inRange);
    SubsetCard(inRange, st.attendance);
    Report(PaymentsTotal(st.payments, start, end), PaymentsCount(st.payments, start, end),
           |inRange|, |b|, |l|, ExpensesOver(st.applications, st.applications.Keys, start, end))
  }

  lemma SubsetCard<T>(a: set<T>, b: set<T>)
    requires a <= b
    ensures |a| <= |b|
  {
    assert b == a + (b - a);
  }

  /** A range that ends before it starts reports zeros everywhere. */
  lemma EmptyRangeReportsZero(st: State, start: Day, end: Day)
    requires end < start
    ensures BuildReport(st, start, end) == Report(0, 0, 0, 0, 0, 0)
  {
    PaymentsNoneCounted(st.payments, start, end);
    ExpensesNoneCounted(st.applications, st.applications.Keys, start, end);
    assert AttendanceIn(st.attendance, start, end) == {};
    assert AttendanceOfType(st.attendance, start, end, BREAKFAST) == {};
    assert AttendanceOfType(st.attendance, start, end, LUNCH) == {};
  }

  lemma {:induction false} PaymentsNoneCounted(ps: seq<Payment>, start: Day, end: Day)
    requires end < start
    ensures PaymentsTotal(ps, start, end) == 0 && PaymentsCount(ps, start, end) == 0
    decreases |ps|
  {
    if |ps| > 0 {
      PaymentsNoneCounted(ps[1..], start, end);
    }
  }

  lemma {:induction false} ExpensesNoneCounted(apps: map<AppId, Application>, keys: set<AppId>, start: Day, end: Day)
    requires end < start
    ensures ExpensesOver(apps, keys, start, end) == 0
    decreases keys
  {
    if keys != {} {
      ExpensesNoneCounted(apps, keys - {MinKey(keys)}, start, end);
    }
  }

  /** Appending a payment adds its amount to the total exactly when it counts. */
  lemma {:induction false} PaymentsAppend(ps: seq<Payment>, p: Payment, start: Day, end: Day)
    ensures PaymentsTotal(ps + [p], start, end)
         == PaymentsTotal(ps, start, end) + (if Counted(p, start, end) then p.amount else 0)
    ensures PaymentsCount(ps + [p], start, end)
         == PaymentsCount(ps, start, end) + (if Counted(p, start, end) then 1 else 0)
    decreases |ps|
  {
    if |ps| == 0 {
      assert [] + [p] == [p];
      assert [p][1..] == [];
    } else {
      PaymentsAppend(ps[1..], p, start, end);
      assert (ps + [p])[1..] == ps[1..] + [p];
    }
  }

  /** A top-up dated in range raises the payments total by its amount and the count by one. */
  lemma TopUpReported(st: State, uid: UserId, amount: int, today: Day, start: Day, end: Day)
    requires uid in st.users
    requires Entitlement.TopUp(st, uid, amount, today).Success?
    ensures var r := BuildReport(st, start, end);
            var r' := BuildReport(Entitlement.TopUp(st, uid, amount, today).value, start, end);
            && r'.paymentsTotal == r.paymentsTotal + (if InRange(today, start, end) then amount else 0)
            && r'.paymentsCount == r.paymentsCount + (if InRange(today, start, end) then 1 else 0)
            && r'.attendanceTotal == r.attendanceTotal
            && r'.expenses == r.expenses
  {
    PaymentsAppend(st.payments, Payment(uid, amount, today, true), start, end);
  }

  /**
   A claim dated in range adds one to the attendance total, and one to the
   breakfast or lunch count when the meal type is exactly that word.
   */
  lemma ClaimReported(st: State, uid: UserId, mealType: string, today: Day, chosen: Option<Subscription>,
                      start: Day, end: Day)
    requires uid in st.users && Entitlement.ChoiceValid(st, uid, today, chosen)
    requires Entitlement.ClaimMeal(st, uid, mealType, today, chosen).Success?
    requires InRange(today, start, end)
    ensures var r := BuildReport(st, start, end);
            var r' := BuildReport(Entitlement.ClaimMeal(st, uid, mealType, today, chosen).value, start, end);
            && r'.attendanceTotal == r.attendanceTotal + 1
            && r'.breakfasts == r.breakfasts + (if mealType == BREAKFAST then 1 else 0)
            && r'.lunches == r.lunches + (if mealType == LUNCH then 1 else 0)
            && r'.paymentsTotal == r.paymentsTotal
            && r'.expenses == r.expenses
  {
    var st' := Entitlement.ClaimMeal(st, uid, mealType, today, chosen).value;
    var rec := Attendance(uid, today, mealType);
    assert rec !in st.attendance;
    assert AttendanceIn(st'.attendance, start, end) == AttendanceIn(st.attendance, start, end) + {rec};
    assert rec !in AttendanceIn(st.attendance, start, end);
    if mealType == BREAKFAST {
      assert AttendanceOfType(st'.attendance, start, end, BREAKFAST)
          == AttendanceOfType(st.attendance, start, end, BREAKFAST) + {rec};
      assert rec !in AttendanceOfType(st.attendance, start, end, BREAKFAST);
    } else {
      assert AttendanceOfType(st'.attendance, start, end, BREAKFAST)
          == AttendanceOfType(st.attendance, start, end, BREAKFAST);
    }
    if mealType == LUNCH {
      assert AttendanceOfType(st'.attendance, start, end, LUNCH)
          == AttendanceOfType(st.attendance, start, end, LUNCH) + {rec};
      assert rec !in AttendanceOfType(st.attendance, start, end, LUNCH);
    } else {
      assert AttendanceOfType(st'.attendance, start, end, LUNCH)
          == AttendanceOfType(st.attendance, start, end, LUNCH);
    }
  }

  /** Changing one request's expense changes the sum by the difference. */
  lemma {:induction false} ExpensesOverUpdate(apps: map<AppId, Application>, apps': map<AppId, Application>,
                                              keys: set<AppId>, k: AppId, start: Day, end: Day)
    requires forall a :: a != k ==> Expense(apps', a, start, end) == Expense(apps, a, start, end)
    ensures ExpensesOver(apps', keys, start, end)
         == ExpensesOver(apps, keys, start, end)
            + (if k in keys then Expense(apps', k, start, end) - Expense(apps, k, start, end) else 0)
    decreases keys
  {
    if keys != {} {
      ExpensesOverUpdate(apps, apps', keys - {MinKey(keys)}, k, start, end);
    }
  }

  /**
   Deciding a request dated in range: approving one not yet approved adds its
   price to the expenses, approving an approved one adds nothing, rejecting an
   approved one removes its price.
   */
  lemma DecisionReported(st: State, appId: AppId, action: string, start: Day, end: Day)
    requires appId in st.applications && Procurement.Resolvable(st, appId)
    requires InRange(st.applications[appId].date, start, end)
    ensures var app := st.applications[appId];
            var r := BuildReport(st, start, end);
            var r' := BuildReport(Procurement.Decide(st, appId, action).value, start, end);
            && (action == "approve" ==>
                  r'.expenses == r.expenses + (if app.status == Approved then 0 else app.price))
            && (action == "reject" ==>
                  r'.expenses == r.expenses - (if app.status == Approved then app.price else 0))
            && r'.paymentsTotal == r.paymentsTotal
            && r'.attendanceTotal == r.attendanceTotal
  {
    var st' := Procurement.Decide(st, appId, action).value;
    ExpensesOverUpdate(st.applications, st'.applications, st.applications.Keys, appId, start, end);
  }

  /** When every record names breakfast or lunch, the two counts add up to the total. */
  lemma KnownMealTypesSplitTotal(st: State, start: Day, end: Day)
    requires Entitlement.MealTypesKnown(st)
    ensures var r := BuildReport(st, start, end);
            r.breakfasts + r.lunches == r.attendanceTotal
  {
    var b := AttendanceOfType(st.attendance, start, end, BREAKFAST);
    var l := AttendanceOfType(st.attendance, start, end, LUNCH);
    assert AttendanceIn(st.attendance, start, end) == b + l;
    assert b !! l;
  }
}
