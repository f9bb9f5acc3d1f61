# Cafeteria menu to Slack message — a Dafny model

This project models the message-composition core of `KantineController`, the
controller that turns the cafeteria menu of the Vitaminveien 4 canteen into a
Slack Block Kit message. It covers:

- `Norwegify`: lowering and trimming the host's weekday name and translating an
  English name to Norwegian (module `DayNames`);
- the day selection of `CreateMessageForSpecificDay`: the dishes of the first weekly
  key, in enumeration order, whose lowered text contains the lowered day name, or one
  "not found" section (module `MenuMessage`);
- `CreateSlackAttachment`: one block per dish that is not null or white space, in
  order, with text `*dish*` and an image accessory only when the image search found
  one (module `Blocks`);
- `CreateMessageForDailyMenu`, `CreateDefaultSectionText` and the fallback policy of
  `CreateSlackMessage` (all-in-one text, weekly menu, daily menu, and one fixed section
  when the menu service throws `WorkplaceNotWorkingException`);
- the URL guard of `PostToUrl` and the command dispatch of `SlackDirectResponse`
  (module `Endpoints`).

The .NET string operations the controller uses (`ToLower`, `Trim`,
`string.IsNullOrWhiteSpace`, `Contains`, `StartsWith`) are written out on `seq<char>`
in module `Text`; `Options` holds the `Option` type that stands for a nullable value.

The menu service is a `MenuService` value holding what each of its three calls would
return: `Ok(data)` or `Unavailable` (the exception). The image searcher is a total
function from a dish name to an optional URL. "Today" is the weekday name the host
clock would format, passed in as a string. The weekly dictionary is a sequence of
(label, dishes) pairs, because the first match depends on enumeration order.

The day messages and `CreateSlackMessage` are specified as functions
(`SpecificDayMessage`, `DailyMenuMessage`, `DishBlocks`); the list-building code of the
controller (`blocks.Add` in a loop, `AddRange` onto the header) is modelled by methods
proved equal to them. `CreateSlackAttachment` also returns the sequence of dish names
the image search was asked for, which shows that blank names are never searched.

`Norwegify` returns a name outside the seven English ones lowered and trimmed, not
unchanged; the headers are `*Meny for <day>*` and `*Meny for i dag*`; and the help
reply is ephemeral too, since only `announce` leaves `response_type` unset.

## Model

| member | source | states |
|---|---|---|
| Text.IsWhiteSpace | Api/Controllers/KantineController.cs:185 | `char.IsWhiteSpace`: space, tab, line feed and carriage return are white space (with the other Unicode separators listed in its body); letters, digits and `*` are not |
| Text.IsBlank | Api/Controllers/KantineController.cs:260 | `string.IsNullOrWhiteSpace` of a non-null string: the empty string is blank and a string holding an ASCII letter is not |
| Text.Contains | Api/Controllers/KantineController.cs:207 | ordinal `Contains`: some index k with s[k..k+\|t\|] == t; true for an empty t and for t == s, false when t is longer than s |
| Text.StartsWith | Api/Controllers/KantineController.cs:60 | ordinal `StartsWith`: the prefix sits at index 0; true for an empty prefix, and a string contains every prefix it starts with |
| Text.Lower | Api/Controllers/KantineController.cs:185 | `ToLower` keeps the length, lowers each character in place, yields a lower-case string, leaves a lower-case string unchanged and keeps white space where it was |
| Text.Trim | Api/Controllers/KantineController.cs:185 | `Trim` yields a trimmed piece of the input with only white space cut off either end; it is empty exactly for blank input and the identity on trimmed input |
| Text.LowerIdempotent | Api/Controllers/KantineController.cs:207 | lowering twice is lowering once |
| Text.StartsWithNonBlank | Api/Controllers/KantineController.cs:60 | a string that starts with a non-blank prefix is not blank |
| DayNames.Normalize | Api/Controllers/KantineController.cs:185 | `ToLower().Trim()` yields a lower-case trimmed name and leaves a lower-case trimmed name unchanged |
| DayNames.DaySwitch | Api/Controllers/KantineController.cs:187-197 | the switch sends the i-th English weekday to the i-th Norwegian one and returns any other name as it is |
| DayNames.Norwegify | Api/Controllers/KantineController.cs:183-197 | every output is lower case and trimmed (the mapping itself is stated by `NorwegifyTranslates`) |
| DayNames.DaySwitchKeepsNormal | Api/Controllers/KantineController.cs:187-197 | the switch maps a lower-case trimmed name to a lower-case trimmed name |
| DayNames.NorwegifyTranslates | Api/Controllers/KantineController.cs:183-197 | after lowering and trimming, "monday".."sunday" become "mandag".."søndag"; any other name comes back lowered and trimmed; the output is a Norwegian name different from the normalised input exactly when the input was an English name |
| DayNames.NorwegifyIdempotent | Api/Controllers/KantineController.cs:185-197 | applying `Norwegify` twice equals applying it once |
| DayNames.NorwegifyKeepsNorwegian | Api/Controllers/KantineController.cs:187-197 | a Norwegian weekday name comes back unchanged |
| DayNames.NorwegianNameIsNormal | Api/Controllers/KantineController.cs:189-195 | the Norwegian names are lower case and trimmed |
| DayNames.NorwegianNameIsNotEnglish | Api/Controllers/KantineController.cs:189-195 | no Norwegian name is in the English match set |
| Blocks.CreateDefaultSectionText | Api/Controllers/KantineController.cs:229-238 | exactly one section with the given text and no accessory |
| Blocks.NonBlank | Api/Controllers/KantineController.cs:258-263 | the kept dishes are non-blank members of the input, no more of them than the input has |
| Blocks.DishBlock | Api/Controllers/KantineController.cs:245-273 | the block of a non-blank dish has text `*dish*` and always an accessory, whose URL is what the search returned and whose alt text is the dish name exactly when a URL came back |
| Blocks.DishBlocks | Api/Controllers/KantineController.cs:242-276 | one dish block per non-blank dish |
| Blocks.CreateSlackAttachment | Api/Controllers/KantineController.cs:240-279 | the loop yields exactly one block per non-blank dish in input order, text `*dish*`, accessory alt text and URL set if and only if the search returned a URL (the URL it returned), and asks the image search for exactly the non-blank dishes, in order |
| Blocks.NonBlankAppend | Api/Controllers/KantineController.cs:243-275 | filtering distributes over concatenation, so dish order is kept |
| Blocks.NonBlankCounts | Api/Controllers/KantineController.cs:258-263 | each non-blank dish occurs as often in the output as in the input; blank dishes do not occur |
| Blocks.NonBlankKeepsNonBlank | Api/Controllers/KantineController.cs:258-263 | a list without blank names passes through unchanged |
| Blocks.NonBlankDropsBlank | Api/Controllers/KantineController.cs:258-263 | a list of blank names gives no blocks |
| Blocks.SearchOnlyAffectsAccessories | Api/Controllers/KantineController.cs:266-273 | the image search changes no block text and not the number or order of blocks |
| MenuMessage.KeyMatches | Api/Controllers/KantineController.cs:207 | a matching key is at least as long as the day name, and an empty day name matches every key (ordinal `Contains` of the lowered strings) |
| MenuMessage.FindMeals | Api/Controllers/KantineController.cs:205-210 | no result exactly when no key's lowered text contains the lowered day; otherwise the dishes of a matching key before which no key matches |
| MenuMessage.UnusedFetchesDoNotMatter | Api/Controllers/KantineController.cs:131-155 | the daily menu matters only when the weekly menu is empty, and neither weekly nor daily menu matters in all-in-one mode |
| MenuMessage.FirstMatchWins | Api/Controllers/KantineController.cs:205-208 | when several keys match, the first in enumeration order is taken |
| MenuMessage.KeyMatchIgnoresCase | Api/Controllers/KantineController.cs:207 | matching is insensitive to the case of key and day |
| MenuMessage.LabelWithDateMatches | Api/Controllers/KantineController.cs:207 | the label "Mandag (10/2)" matches "mandag" (substring, not equality) |
| MenuMessage.DailyMenuMessage | Api/Controllers/KantineController.cs:163-168 | header `*Meny for i dag*` then the dish blocks; 1 + number of non-blank dishes blocks |
| MenuMessage.SpecificDayMessage | Api/Controllers/KantineController.cs:200-227 | no match for the Norwegified day: the one not-found section naming it; a match: the `*Meny for <day>*` header then the dish blocks of the first matching key, 1 + number of its non-blank dishes blocks |
| MenuMessage.CreateMessageForDailyMenu | Api/Controllers/KantineController.cs:163-168 | header `*Meny for i dag*` then the dish blocks: 1 + number of non-blank dishes blocks; searches exactly the non-blank dishes |
| MenuMessage.CreateMessageForSpecificDay | Api/Controllers/KantineController.cs:200-227 | no match: one section `Finner ikke meny for <day> (...)` and no image search; a match: header `*Meny for <day>*` then one block per non-blank dish of the first matching key, with the Norwegified day |
| MenuMessage.CreateSlackMessage | Api/Controllers/KantineController.cs:129-161 | never empty; all-in-one mode always gives one section without accessory |
| MenuMessage.UnavailableGivesFallback | Api/Controllers/KantineController.cs:131-160 | a failing menu service on the taken path gives exactly the one section `https://workplace.izy.as/ er nede?`, in either mode |
| MenuMessage.MessagePaths | Api/Controllers/KantineController.cs:131-155 | all-in-one mode wraps the full text in one section; otherwise a non-empty weekly menu takes the specific-day path and an empty one the daily path |
| MenuMessage.HeadersDiffer | Api/Controllers/KantineController.cs:163-226 | for a weekday name, the specific-day header differs from the daily header |
| MenuMessage.WeekdayIsNorwegified | Api/Controllers/KantineController.cs:202-203 | an English or Norwegian weekday name becomes a Norwegian weekday name |
| MenuMessage.NorwegianHeaderIsNotDaily | Api/Controllers/KantineController.cs:165 | no Norwegian weekday gives the header `*Meny for i dag*` |
| Endpoints.PrefixIsNotBlank | Api/Controllers/KantineController.cs:60 | the Slack hook prefix is not blank |
| Endpoints.RejectsUrl | Api/Controllers/KantineController.cs:60 | the guard (null, blank, or not under `https://hooks.slack.com/services/`) rejects exactly the URLs that are null or lack the prefix |
| Endpoints.PrefixedUrlIsNotBlank | Api/Controllers/KantineController.cs:60 | a URL under the prefix is never blank |
| Endpoints.PostToUrl | Api/Controllers/KantineController.cs:58-69 | bad request exactly when the guard `RejectsUrl` holds, that is when the URL is null or does not start with `https://hooks.slack.com/services/` (the blank test is subsumed), with the fixed reason; otherwise the default message, ephemeral, for that URL |
| Endpoints.RejectionIgnoresComposition | Api/Controllers/KantineController.cs:60-63 | a rejected URL gets the same bad request whatever the menu service, day or image search |
| Endpoints.SlackDirectResponse | Api/Controllers/KantineController.cs:86-127 | help/hjelp (with text present) gives the help section, else all/alt the all-in-one message, else the default message; `response_type` is `ephemeral` unless the command is announce |
| Scenarios.MondayIsMandag | Api/Controllers/KantineController.cs:183-197 | `Norwegify("Monday")` is "mandag" |
| Scenarios.MandagLabelMatches | Api/Controllers/KantineController.cs:207 | the key "Mandag" matches "mandag" |
| Scenarios.TirsdagLabelDoesNotMatch | Api/Controllers/KantineController.cs:207 | the key "Tirsdag" does not match "mandag" |
| Scenarios.MondayMenu | Api/Controllers/KantineController.cs:143-150 | Monday with {"Mandag": ["Fiskesuppe", ""]} gives the "mandag" header and one "Fiskesuppe" block |
| Scenarios.BlankEntryDropped | Api/Controllers/KantineController.cs:260-263 | ["Fiskesuppe", ""] keeps only "Fiskesuppe" |
| Scenarios.MondayNotOnMenu | Api/Controllers/KantineController.cs:205-222 | Monday with only a "Tirsdag" key gives the one "not found" section for "mandag" |
| Scenarios.EmptyWeekUsesDailyMenu | Api/Controllers/KantineController.cs:147-155 | an empty weekly menu and daily ["Taco"] give the "i dag" header and one "Taco" block |
| Scenarios.WholeWeekIsOneSection | Api/Controllers/KantineController.cs:131-137 | all-in-one mode returns the full text as one section |
| Scenarios.ImageOnlyWhenFound | Api/Controllers/KantineController.cs:266-273 | "Kylling" with an image gets alt text and URL; "Pasta" without one gets an empty accessory |

## Left out

- ASP.NET routing, attributes, `IActionResult` wrapping and the `Get` action (which returns the default message without `response_type`): framework plumbing.
- The outbound HTTP POST, its response and the JSON serialiser options of `PostToUrl`: I/O and a library; the model returns the URL and message that would be posted.
- `DateTime.Now` and nb-NO weekday formatting: the host clock and locale; "today" is a parameter.
- async/await: the model is sequential, as the awaited loop is.
- The implementations of `IHelsedirMenuService` and `IImageSearcher`: network clients not part of this model. Each service call is a fixed `Fetch` result, so calls that would return different data on retry are not modelled; exceptions other than `WorkplaceNotWorkingException`, which the controller does not catch, are not modelled; the image search is a total function and never throws.
- `SlackPost.IsCommand`: its definition is not part of this model; it is an abstract parameter.
- Endpoints.SlackDirectResponse: takes a non-null post; with a null post the source reaches `post.IsCommand("announce")` on line 121 and may throw a `NullReferenceException` (depending on how `IsCommand` is defined), which is not modelled.
- Text.Lower: lowers only the ASCII and Latin-1 capitals (including Æ, Ø, Å), not full Unicode case mapping.
- Text.IsBlank: models `string.IsNullOrWhiteSpace` for non-null strings; a null dish name or a null dish list in the menu data is not representable.
- Endpoints.RejectsUrl: `StartsWith` is modelled as an ordinal comparison; .NET's culture-sensitive `StartsWith(string)` may also ignore zero-width characters.
- Blocks are values rather than objects: each block is freshly allocated and never shared in the source, so no aliasing is lost; the unset `Text` of a skipped block is never observed.
- The weekly menu as a sequence may hold duplicate labels, which a `Dictionary` cannot; the first match is still taken.
- Commented-out code of the controller.
