/**
 * Composition of the menu message: picking today's dishes out of the weekly
 * menu, the specific-day and daily messages, and the fallback policy of
 * `CreateSlackMessage`.
 */
module MenuMessage {
  import opened Options
  import opened Text
  import opened DayNames
  import opened Blocks

  /** The weekly menu dictionary as (day label, dishes) pairs in enumeration order. */
  type WeeklyMenu = seq<(string, seq<string>)>

  /** A call to the menu service: its data, or `WorkplaceNotWorkingException`. */
  datatype Fetch<T> = Ok(data: T) | Unavailable

  /** What the three calls of the menu service would return in this request. */
  datatype MenuService = MenuService(
    entireMenuAsText: Fetch<string>,
    weeklyMenu: Fetch<WeeklyMenu>,
    dailyMenu: Fetch<seq<string>>)

  const WorkplaceDownText: string := "https://workplace.izy.as/ er nede?"
  const DailyHeader: string := "*Meny for i dag*"

  function DayHeader(day: string): string {
    "*Meny for " + day + "*"
  }

  function NotFoundText(day: string): string {
    "Finner ikke meny for " + day + " (eller andre dager for den saksskyld)"
  }

  /** The LINQ filter: the lowered key contains the lowered day name. */
  predicate KeyMatches(key: string, today: string)
    ensures KeyMatches(key, today) ==> |today| <= |key|
    ensures today == [] ==> KeyMatches(key, today)
  {
    assert OccursAt(Lower(key), Lower(today), 0) <== today == [];
    Contains(Lower(key), Lower(today))
  }

  /** `FirstOrDefault` over the matching keys: the dishes of the first matching key. */
  function FindMeals(menu: WeeklyMenu, today: string): (r: Option<seq<string>>)
    ensures r.None? <==> forall i :: 0 <= i < |menu| ==> !KeyMatches(menu[i].0, today)
    ensures r.Some? ==>
              exists i :: 0 <= i < |menu| && KeyMatches(menu[i].0, today) && r.value == menu[i].1 &&
                          forall j :: 0 <= j < i ==> !KeyMatches(menu[j].0, today)
  {
    if menu == [] then None
    else if KeyMatches(menu[0].0, today) then Some(menu[0].1)
    else
      var r := FindMeals(menu[1..], today);
      assert forall i :: 1 <= i < |menu| ==> menu[i] == menu[1..][i - 1];
      r
  }

  /** The blocks of `CreateMessageForSpecificDay`, for the host's weekday name `today`. */
  function SpecificDayMessage(menu: WeeklyMenu, today: string, search: ImageSearch): (r: seq<SectionBlock>)
    ensures FindMeals(menu, Norwegify(today)).None? ==>
              r == [SectionBlock(NotFoundText(Norwegify(today)), None)]
    ensures FindMeals(menu, Norwegify(today)).Some? ==>
              var meals := FindMeals(menu, Norwegify(today)).value;
              && |r| == 1 + |NonBlank(meals)|
              && r[0] == SectionBlock(DayHeader(Norwegify(today)), None)
              && r[1..] == DishBlocks(meals, search)
  {
    var day := Norwegify(today);
    match FindMeals(menu, day)
    case None => [SectionBlock(NotFoundText(day), None)]
    case Some(meals) => CreateDefaultSectionText(DayHeader(day)) + DishBlocks(meals, search)
  }

  /** The blocks of `CreateMessageForDailyMenu`. */
  function DailyMenuMessage(dailyMenu: seq<string>, search: ImageSearch): (r: seq<SectionBlock>)
    ensures |r| == 1 + |NonBlank(dailyMenu)|
    ensures r[0] == SectionBlock(DailyHeader, None)
    ensures r[1..] == DishBlocks(dailyMenu, search)
  {
    CreateDefaultSectionText(DailyHeader) + DishBlocks(dailyMenu, search)
  }

  /** A header section followed by the dish blocks, as `AddRange` builds it. */
  method CreateMessageForDailyMenu(dailyMenu: seq<string>, search: ImageSearch)
    returns (blocks: seq<SectionBlock>, searched: seq<string>)
    ensures blocks == DailyMenuMessage(dailyMenu, search)
    ensures |blocks| == 1 + |NonBlank(dailyMenu)|
    ensures blocks[0] == SectionBlock(DailyHeader, None)
    ensures blocks[1..] == DishBlocks(dailyMenu, search)
    ensures searched == NonBlank(dailyMenu)
  {
    blocks := CreateDefaultSectionText(DailyHeader);
    var dishes;
    dishes, searched := CreateSlackAttachment(dailyMenu, search);
    blocks := blocks + dishes;
  }

  /** Today's dishes under a header naming the day, or one "not found" section. */
  method CreateMessageForSpecificDay(menu: WeeklyMenu, today: string, search: ImageSearch)
    returns (blocks: seq<SectionBlock>, searched: seq<string>)
    ensures blocks == SpecificDayMessage(menu, today, search)
    ensures FindMeals(menu, Norwegify(today)).None? ==>
              blocks == [SectionBlock(NotFoundText(Norwegify(today)), None)] && searched == []
    ensures FindMeals(menu, Norwegify(today)).Some? ==>
              var meals := FindMeals(menu, Norwegify(today)).value;
              && |blocks| == 1 + |NonBlank(meals)|
              && blocks[0] == SectionBlock(DayHeader(Norwegify(today)), None)
              && blocks[1..] == DishBlocks(meals, search)
              && searched == NonBlank(meals)
  {
    var day := Norwegify(today);
    var meals := FindMeals(menu, day);
    if meals.None? {
      return [SectionBlock(NotFoundText(day), None)], [];
    }
    blocks := CreateDefaultSectionText(DayHeader(day));
    var dishes;
    dishes, searched := CreateSlackAttachment(meals.value, search);
    blocks := blocks + dishes;
  }

  /**
   * The fallback policy: the whole week as one text section in all-in-one mode;
   * otherwise today's entry of the weekly menu, or the daily menu when the weekly
   * one is empty; one fixed section whenever the menu service is unavailable.
   */
  function CreateSlackMessage(allInOne: bool, service: MenuService, today: string, search: ImageSearch)
    : (r: seq<SectionBlock>)
    ensures |r| >= 1
    ensures allInOne ==> |r| == 1 && r[0].accessory.None?
  {
    if allInOne then
      match service.entireMenuAsText
      case Ok(text) => CreateDefaultSectionText(text)
      case Unavailable => CreateDefaultSectionText(WorkplaceDownText)
    else
      match service.weeklyMenu
      case Unavailable => CreateDefaultSectionText(WorkplaceDownText)
      case Ok(menu) =>
        if |menu| > 0 then SpecificDayMessage(menu, today, search)
        else
          match service.dailyMenu
          case Unavailable => CreateDefaultSectionText(WorkplaceDownText)
          case Ok(daily) => DailyMenuMessage(daily, search)
  }

  /** The menu service fails on the path the mode takes. */
  predicate FailsOnPath(allInOne: bool, service: MenuService) {
    if allInOne then service.entireMenuAsText.Unavailable?
    else service.weeklyMenu.Unavailable? ||
         (|service.weeklyMenu.data| == 0 && service.dailyMenu.Unavailable?)
  }

  /** An unavailable menu service always yields exactly the one fallback section, in either mode. */
  lemma UnavailableGivesFallback(allInOne: bool, service: MenuService, today: string, search: ImageSearch)
    requires FailsOnPath(allInOne, service)
    ensures CreateSlackMessage(allInOne, service, today, search) == [SectionBlock(WorkplaceDownText, None)]
  {
  }

  /** Which of the three paths a successful request takes, and what it returns. */
  lemma MessagePaths(allInOne: bool, service: MenuService, today: string, search: ImageSearch)
    requires !FailsOnPath(allInOne, service)
    ensures var r := CreateSlackMessage(allInOne, service, today, search);
            if allInOne then r == [SectionBlock(service.entireMenuAsText.data, None)]
            else if |service.weeklyMenu.data| > 0 then r == SpecificDayMessage(service.weeklyMenu.data, today, search)
            else r == DailyMenuMessage(service.dailyMenu.data, search)
  {
  }

  /** With a non-empty weekly menu the daily menu is never consulted, and in
      all-in-one mode neither menu is. */
  lemma UnusedFetchesDoNotMatter(allInOne: bool, service: MenuService, daily: Fetch<seq<string>>,
                                 today: string, search: ImageSearch)
    requires allInOne || (service.weeklyMenu.Ok? && |service.weeklyMenu.data| > 0)
    ensures CreateSlackMessage(allInOne, service, today, search) ==
            CreateSlackMessage(allInOne, service.(dailyMenu := daily), today, search)
    ensures allInOne ==>
              CreateSlackMessage(true, service, today, search) ==
              CreateSlackMessage(true, service.(weeklyMenu := Unavailable, dailyMenu := daily), today, search)
  {
  }

  /** Of several matching keys the first one wins, whatever comes after it. */
  lemma FirstMatchWins(menu: WeeklyMenu, today: string, i: nat)
    requires i < |menu| && KeyMatches(menu[i].0, today)
    requires forall j :: 0 <= j < i ==> !KeyMatches(menu[j].0, today)
    ensures FindMeals(menu, today) == Some(menu[i].1)
  {
  }

  /** Matching ignores the case of both the key and the day name. */
  lemma KeyMatchIgnoresCase(key: string, today: string)
    ensures KeyMatches(key, today) == KeyMatches(Lower(key), today)
    ensures KeyMatches(key, today) == KeyMatches(key, Lower(today))
  {
  }

  /** A label with more text than the day name still matches: "Mandag (10/2)" holds "mandag". */
  lemma LabelWithDateMatches()
    ensures KeyMatches("Mandag (10/2)", "mandag")
  {
    assert OccursAt(Lower("Mandag (10/2)"), Lower("mandag"), 0);
  }

  /** For a weekday name the two header texts differ, so the daily path can be told
      apart from the specific-day path. */
  lemma HeadersDiffer(today: string)
    requires Normalize(today) in EnglishDays || Normalize(today) in NorwegianDays
    ensures DayHeader(Norwegify(today)) != DailyHeader
  {
    WeekdayIsNorwegified(today);
    NorwegianHeaderIsNotDaily(Norwegify(today));
  }

  lemma WeekdayIsNorwegified(today: string)
    requires Normalize(today) in EnglishDays || Normalize(today) in NorwegianDays
    ensures Norwegify(today) in NorwegianDays
  {
    NorwegifyTranslates(today);
    if Normalize(today) in NorwegianDays {
      NorwegianNameIsNotEnglish(Normalize(today));
    }
  }

  lemma NorwegianHeaderIsNotDaily(day: string)
    requires day in NorwegianDays
    ensures DayHeader(day) != DailyHeader
  {
    assert |day| >= 6;
    assert |DayHeader(day)| != |DailyHeader|;
  }

}
