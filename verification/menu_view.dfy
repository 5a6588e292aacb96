/**
 The student's menu page for today: each dish of each slot flagged when it
 shares an allergen with the student, and whether breakfast and lunch have
 already been claimed.
 */
module MenuView {
  import opened Canteen
  import IdList

  /** The student's allergens: the stored id list, parsed. */
  function UserAllergens(u: User): set<nat> {
    set a | a in IdList.Parse(u.allergens)
  }

  /** `bool(user_alergens & dish_alergens)`: true exactly when some allergen is on both sides. */
  function HasAllergen(userAllergens: set<nat>, dish: Dish): (flag: bool)
    ensures flag <==> exists a :: a in userAllergens && a in dish.allergens
  {
    var common := userAllergens * (set a | a in dish.allergens);
    assert forall a :: a in userAllergens && a in dish.allergens ==> a in common;
    common != {}
  }

  datatype FlaggedDish = FlaggedDish(dish: Dish, hasAllergen: bool)

  /** The slot's dishes in order, each with its allergen flag. */
  function FlagDishes(userAllergens: set<nat>, dishes: seq<Dish>): (flagged: seq<FlaggedDish>)
    ensures |flagged| == |dishes|
    ensures forall i :: 0 <= i < |dishes| ==>
              && flagged[i].dish == dishes[i]
              && (flagged[i].hasAllergen <==> exists a :: a in userAllergens && a in dishes[i].allergens)
    decreases |dishes|
  {
    if |dishes| == 0 then []
    else [FlaggedDish(dishes[0], HasAllergen(userAllergens, dishes[0]))] + FlagDishes(userAllergens, dishes[1..])
  }

  datatype MenuPage = MenuPage(hasMenu: bool, breakfast: seq<FlaggedDish>, lunch: seq<FlaggedDish>,
                               breakfastTaken: bool, lunchTaken: bool)

  /** The page for student `uid` on `today`. Without a menu both slots are empty. */
  function StudentMenu(st: State, uid: UserId, today: Day): (page: MenuPage)
    requires uid in st.users
    ensures page.hasMenu <==> today in st.menus
    ensures today !in st.menus ==> page.breakfast == [] && page.lunch == []
    ensures today in st.menus ==>
              var menu := st.menus[today];
              var mine := UserAllergens(st.users[uid]);
              && |page.breakfast| == |menu.breakfast|
              && (forall i :: 0 <= i < |page.breakfast| ==>
                    && page.breakfast[i].dish == menu.breakfast[i]
                    && (page.breakfast[i].hasAllergen <==> exists a :: a in mine && a in menu.breakfast[i].allergens))
              && |page.lunch| == |menu.lunch|
              && (forall i :: 0 <= i < |page.lunch| ==>
                    && page.lunch[i].dish == menu.lunch[i]
                    && (page.lunch[i].hasAllergen <==> exists a :: a in mine && a in menu.lunch[i].allergens))
    ensures page.breakfastTaken <==> Attendance(uid, today, BREAKFAST) in st.attendance
    ensures page.lunchTaken <==> Attendance(uid, today, LUNCH) in st.attendance
  {
    var mine := UserAllergens(st.users[uid]);
    var hasMenu := today in st.menus;
    MenuPage(hasMenu,
             if hasMenu then FlagDishes(mine, st.menus[today].breakfast) else [],
             if hasMenu then FlagDishes(mine, st.menus[today].lunch) else [],
             Attendance(uid, today, BREAKFAST) in st.attendance,
             Attendance(uid, today, LUNCH) in st.attendance)
  }

  /** A student with no stored allergens sees no dish flagged. */
  lemma NoAllergensNoFlags(st: State, uid: UserId, today: Day)
    requires uid in st.users && st.users[uid].allergens == ""
    ensures var page := StudentMenu(st, uid, today);
            (forall i :: 0 <= i < |page.breakfast| ==> !page.breakfast[i].hasAllergen)
            && (forall i :: 0 <= i < |page.lunch| ==> !page.lunch[i].hasAllergen)
  {
    assert IdList.Parse("") == [];
    assert UserAllergens(st.users[uid]) == {};
  }

  /** A dish is flagged for one student exactly when it is flagged for each of that student's allergens taken alone. */
  lemma FlagIsUnionOfSingles(userAllergens: set<nat>, dish: Dish)
    ensures HasAllergen(userAllergens, dish) <==> exists a :: a in userAllergens && HasAllergen({a}, dish)
  {
    if HasAllergen(userAllergens, dish) {
      var a :| a in userAllergens && a in dish.allergens;
      assert HasAllergen({a}, dish);
    }
  }

  lemma ParseTwoThree()
    ensures IdList.Parse("2,3") == [2, 3]
  {
    assert IdList.Join(["2", "3"], ',') == "2,3";
    IdList.SplitJoin(["2", "3"], ',');
    TwoThreeTokens();
  }

  lemma TwoThreeTokens()
    ensures IdList.ParseTokens(["2", "3"]) == [2, 3]
  {
    IdList.SingleDigitToken('2');
    IdList.SingleDigitToken('3');
    IdList.ParseTokensCons("3", []);
    assert IdList.ParseTokens(["3"]) == [3];
    IdList.ParseTokensCons("2", ["3"]);
  }

  /**
   The demonstration data: a student allergic to "2,3" is warned about a dish
   whose products carry allergens 1, 2 and 4, and not about one carrying none.
   */
  lemma DemoStudentFlags()
    ensures HasAllergen(UserAllergens(User(STUDENT, 500, "2,3")), Dish(1, 50, [2, 1, 4]))
    ensures !HasAllergen(UserAllergens(User(STUDENT, 500, "2,3")), Dish(8, 30, []))
  {
    ParseTwoThree();
    assert 2 in UserAllergens(User(STUDENT, 500, "2,3"));
  }
}
