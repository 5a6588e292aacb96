/**
 The access decision in front of every view: the role gate and its three
 single-role forms, the dashboard's routing by role, and the student and
 administrator operations served through the gate.
 */
module Access {
  import opened Canteen
  import Entitlement
  import EntitlementFacts
  import Procurement

  /** Who is asking: nobody logged in, or a logged-in user with a stored role. */
  datatype Principal = Anonymous | Authenticated(uid: UserId, role: string)

  /** What a guarded view answers: a redirect, or the wrapped view's own result. */
  datatype Response<R> = RedirectLogin | RedirectDashboard | View(result: R)

  /**
   `role_required(*roles)` around `view`: the anonymous go to login, a role
   outside `roles` goes to the dashboard, and only an admitted role reaches
   the view, with the arguments as given.
   */
  function RoleRequired<A, R>(roles: seq<string>, p: Principal, view: (Principal, A) -> R, args: A): (resp: Response<R>)
    ensures p.Anonymous? ==> resp == RedirectLogin
    ensures p.Authenticated? && p.role !in roles ==> resp == RedirectDashboard
    ensures resp.View? <==> p.Authenticated? && p.role in roles
    ensures resp.View? ==> resp.result == view(p, args)
  {
    if !p.Authenticated? then RedirectLogin
    else if p.role !in roles then RedirectDashboard
    else View(view(p, args))
  }

  function StudentRequired<A, R>(p: Principal, view: (Principal, A) -> R, args: A): Response<R> {
    RoleRequired([STUDENT], p, view, args)
  }

  function CookRequired<A, R>(p: Principal, view: (Principal, A) -> R, args: A): Response<R> {
    RoleRequired([COOK], p, view, args)
  }

  function AdminRequired<A, R>(p: Principal, view: (Principal, A) -> R, args: A): Response<R> {
    RoleRequired([ADMIN], p, view, args)
  }

  /** Each single-role form admits exactly the principals holding that one role. */
  lemma SingleRoleWrappersAdmit<A, R>(p: Principal, view: (Principal, A) -> R, args: A)
    ensures StudentRequired(p, view, args).View? <==> p.Authenticated? && p.role == STUDENT
    ensures CookRequired(p, view, args).View? <==> p.Authenticated? && p.role == COOK
    ensures AdminRequired(p, view, args).View? <==> p.Authenticated? && p.role == ADMIN
  {
  }

  /** No principal passes two different single-role gates. */
  lemma SingleRoleWrappersDisjoint<A, R>(p: Principal, view: (Principal, A) -> R, args: A)
    ensures !(StudentRequired(p, view, args).View? && CookRequired(p, view, args).View?)
    ensures !(StudentRequired(p, view, args).View? && AdminRequired(p, view, args).View?)
    ensures !(CookRequired(p, view, args).View? && AdminRequired(p, view, args).View?)
  {
  }

  datatype Page = LoginPage | StudentMenuPage | CookDashboardPage | AdminDashboardPage

  /** The dashboard sends each role to its own start page and anyone else to login. */
  function Dashboard(p: Principal): (page: Page)
    ensures p.Anonymous? ==> page == LoginPage
    ensures page == StudentMenuPage <==> p.Authenticated? && p.role == STUDENT
    ensures page == CookDashboardPage <==> p.Authenticated? && p.role == COOK
    ensures page == AdminDashboardPage <==> p.Authenticated? && p.role == ADMIN
  {
    if !p.Authenticated? then LoginPage
    else if p.role == STUDENT then StudentMenuPage
    else if p.role == COOK then CookDashboardPage
    else if p.role == ADMIN then AdminDashboardPage
    else LoginPage
  }

  /** The role each start page's gate admits. */
  function PageRole(page: Page): seq<string> {
    match page
    case LoginPage => []
    case StudentMenuPage => [STUDENT]
    case CookDashboardPage => [COOK]
    case AdminDashboardPage => [ADMIN]
  }

  /** The dashboard never sends a principal to a start page whose gate would turn it away. */
  lemma DashboardTargetAdmits<A, R>(p: Principal, view: (Principal, A) -> R, args: A)
    requires Dashboard(p) != LoginPage
    ensures RoleRequired(PageRole(Dashboard(p)), p, view, args).View?
  {
  }

  /** The state-changing requests of the core. */
  datatype Request =
    | TakeMeal(mealType: string)
    | Pay(amount: int)
    | Subscribe(durationText: string, mealKind: string)
    | DecideApplication(appId: AppId, action: string)

  /** The roles each request's gate admits. */
  function Gate(req: Request): seq<string> {
    match req
    case DecideApplication(_, _) => [ADMIN]
    case _ => [STUDENT]
  }

  /**
   What the wrapped view can rely on: the principal is a stored user, the
   role the gate tests is that user's stored role, and its lookups are
   consistent.
   */
  predicate Ready(st: State, q: Principal, req: Request, today: Day, chosen: Option<Subscription>) {
    && q.Authenticated?
    && q.uid in st.users
    && st.users[q.uid].role == q.role
    && (req.TakeMeal? ==> Entitlement.ChoiceValid(st, q.uid, today, chosen))
    && (req.DecideApplication? ==> Procurement.Resolvable(st, req.appId))
  }

  /**
   The view each request's URL routes to, as written: a meal claim with any
   meal-type word. Each request touches only its own part of the store.
   */
  function Perform(st: State, q: Principal, req: Request, today: Day, chosen: Option<Subscription>): (r: Result<State>)
    requires Ready(st, q, req, today, chosen)
    ensures r.Success? && !req.DecideApplication? ==>
              r.value.products == st.products && r.value.applications == st.applications
    ensures r.Success? && !req.TakeMeal? ==> r.value.attendance == st.attendance && r.value.menus == st.menus
    ensures r.Success? && !req.Pay? ==> r.value.payments == st.payments
    ensures r.Success? && !req.Subscribe? ==> r.value.subscriptions == st.subscriptions
    ensures r.Success? && req.DecideApplication? ==> r.value.users == st.users
  {
    match req
    case TakeMeal(mt) => Entitlement.ClaimMeal(st, q.uid, mt, today, chosen)
    case Pay(amount) => Entitlement.TopUp(st, q.uid, amount, today)
    case Subscribe(d, m) => Entitlement.Subscribe(st, q.uid, d, m, today)
    case DecideApplication(a, action) => Procurement.Decide(st, a, action)
  }

  /** As `Perform`, but a meal claim goes through the corrected, meal-type-checked claim. */
  function PerformChecked(st: State, q: Principal, req: Request, today: Day, chosen: Option<Subscription>): (r: Result<State>)
    requires Ready(st, q, req, today, chosen)
    ensures req.TakeMeal? && !Entitlement.KnownMealType(req.mealType) ==> r == Failure(InvalidInput)
    ensures !(req.TakeMeal? && !Entitlement.KnownMealType(req.mealType)) ==> r == Perform(st, q, req, today, chosen)
  {
    if req.TakeMeal? then Entitlement.ClaimMealChecked(st, q.uid, req.mealType, today, chosen)
    else Perform(st, q, req, today, chosen)
  }

  /** Serve a request through its gate. */
  function Serve(st: State, p: Principal, req: Request, today: Day, chosen: Option<Subscription>): (resp: Response<Result<State>>)
    requires p.Authenticated? ==> Ready(st, p, req, today, chosen)
    ensures resp.View? <==> p.Authenticated? && p.role in Gate(req)
    ensures resp.View? ==> resp.result == Perform(st, p, req, today, chosen)
  {
    var view := (q: Principal, r: Request) =>
      if Ready(st, q, r, today, chosen) then Perform(st, q, r, today, chosen) else Failure(NotFound);
    RoleRequired(Gate(req), p, view, req)
  }

  /** Serve a request through its gate, with the corrected meal claim. */
  function ServeChecked(st: State, p: Principal, req: Request, today: Day, chosen: Option<Subscription>): (resp: Response<Result<State>>)
    requires p.Authenticated? ==> Ready(st, p, req, today, chosen)
    ensures resp.View? <==> p.Authenticated? && p.role in Gate(req)
    ensures resp.View? ==> resp.result == PerformChecked(st, p, req, today, chosen)
  {
    var view := (q: Principal, r: Request) =>
      if Ready(st, q, r, today, chosen) then PerformChecked(st, q, r, today, chosen) else Failure(NotFound);
    RoleRequired(Gate(req), p, view, req)
  }

  /** The store after serving: changed only by an admitted, successful operation. */
  function StoreAfter(st: State, resp: Response<Result<State>>): State {
    if resp.View? then After(st, resp.result) else st
  }

  /**
   A principal the gate turns away changes nothing: no student operation
   for non-students, no application decision for non-administrators.
   */
  lemma RefusedRequestChangesNothing(st: State, p: Principal, req: Request, today: Day, chosen: Option<Subscription>)
    requires p.Authenticated? ==> Ready(st, p, req, today, chosen)
    requires !(p.Authenticated? && p.role in Gate(req))
    ensures StoreAfter(st, Serve(st, p, req, today, chosen)) == st
  {
  }

  /** Of the modelled requests, only an administrator's decision moves stock. */
  lemma OnlyAdminsRestock(st: State, p: Principal, req: Request, today: Day, chosen: Option<Subscription>)
    requires p.Authenticated? ==> Ready(st, p, req, today, chosen)
    requires p.Authenticated? ==> st.users[p.uid].role != ADMIN
    ensures StoreAfter(st, Serve(st, p, req, today, chosen)).products == st.products
  {
    var resp := Serve(st, p, req, today, chosen);
    if resp.View? {
      assert !req.DecideApplication?;
    }
  }

  /** The invariants the program as written keeps: balances non-negative, counters match attendance. */
  ghost predicate Sound(st: State) {
    BalancesNonNegative(st) && EntitlementFacts.CountersAgree(st)
  }

  /** The invariants the corrected claim adds: only breakfast and lunch records, one of each per student a day. */
  ghost predicate Consistent(st: State) {
    && Sound(st)
    && Entitlement.MealTypesKnown(st)
    && Entitlement.OneMealPerSlot(st)
  }

  /** Every request served through its gate keeps balances non-negative and counters equal to attendance. */
  lemma ServeKeepsSound(st: State, p: Principal, req: Request, today: Day, chosen: Option<Subscription>)
    requires p.Authenticated? ==> Ready(st, p, req, today, chosen)
    requires Sound(st)
    ensures Sound(StoreAfter(st, Serve(st, p, req, today, chosen)))
  {
    var resp := Serve(st, p, req, today, chosen);
    if resp.View? {
      match req
      case TakeMeal(mt) =>
        EntitlementFacts.ClaimKeepsBalancesNonNegative(st, p.uid, mt, today, chosen);
        EntitlementFacts.ClaimKeepsCountersAgree(st, p.uid, mt, today, chosen);
      case Pay(amount) =>
        EntitlementFacts.TopUpKeepsBalancesNonNegative(st, p.uid, amount, today);
        EntitlementFacts.TopUpAndSubscribeKeepCountersAgree(st, p.uid, amount, "", "", today);
      case Subscribe(d, m) =>
        EntitlementFacts.SubscribeKeepsBalancesNonNegative(st, p.uid, d, m, today);
        EntitlementFacts.TopUpAndSubscribeKeepCountersAgree(st, p.uid, 0, d, m, today);
      case DecideApplication(a, action) =>
        var st' := StoreAfter(st, resp);
        assert st'.users == st.users && st'.menus == st.menus && st'.attendance == st.attendance;
        assert forall d, s: Entitlement.Slot :: EntitlementFacts.ServedRecords(st', d, s) == EntitlementFacts.ServedRecords(st, d, s);
    }
  }

  /** With the corrected claim, every served request also keeps one breakfast and one lunch per student a day. */
  lemma ServeCheckedKeepsConsistent(st: State, p: Principal, req: Request, today: Day, chosen: Option<Subscription>)
    requires p.Authenticated? ==> Ready(st, p, req, today, chosen)
    requires Consistent(st)
    ensures Consistent(StoreAfter(st, ServeChecked(st, p, req, today, chosen)))
  {
    var resp := ServeChecked(st, p, req, today, chosen);
    ServeKeepsSound(st, p, req, today, chosen);
    if resp.View? {
      if req.TakeMeal? {
        var mt := req.mealType;
        EntitlementFacts.CheckedClaimKeepsOneMealPerSlot(st, p.uid, mt, today, chosen);
        EntitlementFacts.ClaimKeepsBalancesNonNegative(st, p.uid, mt, today, chosen);
        EntitlementFacts.ClaimKeepsCountersAgree(st, p.uid, mt, today, chosen);
      } else {
        var st' := StoreAfter(st, resp);
        assert st' == StoreAfter(st, Serve(st, p, req, today, chosen));
        assert st'.attendance == st.attendance;
      }
    }
  }

  /**
   Through the gate, as written: a student with 500 claims "lunch" and then
   "dinner" on a day whose lunch costs 80; both are served, the second as a
   lunch again. The corrected dispatch refuses the second claim.
   */
  lemma ServedSecondLunch()
    ensures var menu := Menu([], [Dish(4, 80, [])], 0, 0);
            var st0 := State(map[1 := User(STUDENT, 500, "")], map[0 := menu], {}, [], [], map[], map[]);
            var p := Authenticated(1, STUDENT);
            var r1 := Serve(st0, p, TakeMeal(LUNCH), 0, None);
            && Consistent(st0)
            && r1.View? && r1.result.Success?
            && (var st1 := r1.result.value;
                var r2 := Serve(st1, p, TakeMeal("dinner"), 0, None);
                && r2.View? && r2.result.Success?
                && r2.result.value.users[1].balance == 340
                && r2.result.value.menus[0].givenLunches == 2
                && !Consistent(r2.result.value)
                && ServeChecked(st1, p, TakeMeal("dinner"), 0, None) == View(Failure(InvalidInput)))
  {
    EntitlementFacts.SecondLunchUnderAnotherWord();
    var menu := Menu([], [Dish(4, 80, [])], 0, 0);
    var st0 := State(map[1 := User(STUDENT, 500, "")], map[0 := menu], {}, [], [], map[], map[]);
    assert EntitlementFacts.CountersAgree(st0);
    var st1 := Entitlement.ClaimMeal(st0, 1, LUNCH, 0, None).value;
    assert !Entitlement.KnownMealType("dinner");
  }
}
