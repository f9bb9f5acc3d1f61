/** Worked examples of the composer on concrete menus. */
module Scenarios {
  import opened Options
  import opened Text
  import opened DayNames
  import opened Blocks
  import opened MenuMessage

  /** The host clock's English "Monday" becomes "mandag". */
  lemma MondayIsMandag()
    ensures Norwegify("Monday") == "mandag"
  {
    var m := Lower("Monday");
    assert m[0] == 'm' && m[1] == 'o' && m[2] == 'n' && m[3] == 'd' && m[4] == 'a' && m[5] == 'y';
    assert m == "monday";
    assert IsTrimmed(m);
    assert Normalize("Monday") == "monday";
  }

  lemma MandagLabelMatches()
    ensures KeyMatches("Mandag", "mandag")
  {
    var l := Lower("Mandag");
    assert l[0] == 'm' && l[1] == 'a' && l[2] == 'n' && l[3] == 'd' && l[4] == 'a' && l[5] == 'g';
    assert l == "mandag";
    assert Lower("mandag") == "mandag";
    assert OccursAt(l, Lower("mandag"), 0);
  }

  lemma TirsdagLabelDoesNotMatch()
    ensures !KeyMatches("Tirsdag", "mandag")
  {
    var l := Lower("Tirsdag");
    assert Lower("mandag") == "mandag";
    assert l[0] == 't' && l[1] == 'i';
    assert !OccursAt(l, "mandag", 0) && !OccursAt(l, "mandag", 1);
  }

  /** Monday, with a weekly menu holding "Mandag" and a blank entry: a header
      for "mandag" and one block for the one real dish. */
  lemma MondayMenu(search: ImageSearch)
    ensures CreateSlackMessage(false, MenuService(Unavailable, Ok([("Mandag", ["Fiskesuppe", ""])]), Unavailable),
                               "Monday", search)
            == [SectionBlock(DayHeader("mandag"), None), DishBlock("Fiskesuppe", search("Fiskesuppe"))]
  {
    var menu: WeeklyMenu := [("Mandag", ["Fiskesuppe", ""])];
    MondayIsMandag();
    MandagLabelMatches();
    assert FindMeals(menu, "mandag") == Some(["Fiskesuppe", ""]);
    BlankEntryDropped();
  }

  lemma BlankEntryDropped()
    ensures NonBlank(["Fiskesuppe", ""]) == ["Fiskesuppe"]
  {
    assert !IsWhiteSpace("Fiskesuppe"[0]);
    assert IsBlank("");
  }

  /** No weekly key matches Monday: one "not found" section, naming the day. */
  lemma MondayNotOnMenu(search: ImageSearch)
    ensures CreateSlackMessage(false, MenuService(Unavailable, Ok([("Tirsdag", ["Taco"])]), Unavailable),
                               "Monday", search)
            == [SectionBlock(NotFoundText("mandag"), None)]
  {
    var menu: WeeklyMenu := [("Tirsdag", ["Taco"])];
    MondayIsMandag();
    TirsdagLabelDoesNotMatch();
    assert FindMeals(menu, "mandag") == None;
  }

  /** An empty weekly menu falls back to the daily one, under the "i dag" header. */
  lemma EmptyWeekUsesDailyMenu(today: string, search: ImageSearch)
    ensures CreateSlackMessage(false, MenuService(Unavailable, Ok([]), Ok(["Taco"])), today, search)
            == [SectionBlock("*Meny for i dag*", None), DishBlock("Taco", search("Taco"))]
  {
    assert !IsWhiteSpace("Taco"[0]);
    assert NonBlank(["Taco"]) == ["Taco"];
    assert "*" + "Taco" + "*" == "*Taco*";
  }

  /** The whole week in all-in-one mode is one section with the text as it came. */
  lemma WholeWeekIsOneSection(text: string, today: string, search: ImageSearch)
    ensures CreateSlackMessage(true, MenuService(Ok(text), Unavailable, Unavailable), today, search)
            == [SectionBlock(text, None)]
  {
  }

  /** An image found for "Kylling" fills its accessory; "Pasta" without one keeps it empty. */
  lemma ImageOnlyWhenFound(search: ImageSearch)
    requires search("Kylling") == Some("http://img/x.png") && search("Pasta") == None
    ensures DishBlocks(["Kylling", "Pasta"], search)
            == [SectionBlock("*Kylling*", Some(Accessory(Some("Kylling"), Some("http://img/x.png")))),
                SectionBlock("*Pasta*", Some(Accessory(None, None)))]
  {
    assert !IsWhiteSpace("Kylling"[0]) && !IsWhiteSpace("Pasta"[0]);
    assert NonBlank(["Kylling", "Pasta"]) == ["Kylling", "Pasta"];
    assert "*" + "Kylling" + "*" == "*Kylling*" && "*" + "Pasta" + "*" == "*Pasta*";
  }
}
