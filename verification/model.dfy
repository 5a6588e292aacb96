/**
 The canteen's entities as immutable values, and the whole store as one
 `State`. Dates are day numbers; meal types, roles and subscription kinds
 are the strings the application stores.
 */
module Canteen {

  type UserId = nat
  type ProductId = nat
  type AppId = nat

  /** A calendar date as a day number; `d + n` is the date `n` days later. */
  type Day = int

  const BREAKFAST: string := "breakfast"
  const LUNCH: string := "lunch"
  const BOTH: string := "both"

  const STUDENT: string := "student"
  const COOK: string := "cook"
  const ADMIN: string := "admin"

  /** `allergens` is the stored comma-joined allergen id list. */
  datatype User = User(role: string, balance: int, allergens: string)

  /** A dish as a menu slot resolves it: its price and the allergen ids of its products. */
  datatype Dish = Dish(id: nat, price: int, allergens: seq<nat>)

  /** The menu of one date: the dishes each slot resolves to and the per-slot served counters. */
  datatype Menu = Menu(breakfast: seq<Dish>, lunch: seq<Dish>, givenBreakfasts: int, givenLunches: int)

  /** The record that `user` claimed the meal `mealType` on `date`. */
  datatype Attendance = Attendance(user: UserId, date: Day, mealType: string)

  datatype Payment = Payment(user: UserId, amount: int, date: Day, successful: bool)

  datatype Subscription = Subscription(user: UserId, mealType: string, registerDate: Day, endDate: Day, duration: int)

  /** `amount` is the stock count. */
  datatype Product = Product(allergens: string, amount: int)

  datatype AppStatus = Pending | Approved | Rejected

  /** One (product, quantity) pair of a purchase request. */
  datatype StockItem = StockItem(product: ProductId, amount: int)

  /** A purchase request: the resolved (product, amount) pairs, total price, status and date. */
  datatype Application = Application(user: UserId, items: seq<StockItem>, price: int, status: AppStatus, date: Day)

  /**
   The store. Attendance is a set: a claim inserts one record. Subscriptions
   and payments keep creation order.
   */
  datatype State = State(
    users: map<UserId, User>,
    menus: map<Day, Menu>,
    attendance: set<Attendance>,
    subscriptions: seq<Subscription>,
    payments: seq<Payment>,
    products: map<ProductId, Product>,
    applications: map<AppId, Application>)

  /** Why an operation refused; a refused operation leaves the store as it was. */
  datatype Error =
    | AlreadyClaimed
    | NoMenuForToday
    | InsufficientBalance(required: int)
    | InvalidInput
    | NotFound

  datatype Result<T> = Success(value: T) | Failure(error: Error)

  datatype Option<T> = None | Some(value: T)

  /** The store after an operation: the new state on success, the old one on failure. */
  function After(st: State, r: Result<State>): State {
    if r.Success? then r.value else st
  }

  /** The invariant every operation keeps: no user's balance is negative. */
  ghost predicate BalancesNonNegative(st: State) {
    forall u :: u in st.users ==> st.users[u].balance >= 0
  }
}
