# SladkiyRough_Bot conversation engine in Dafny

A model of the per-update conversation engine of a Telegram recipe bot. The bot keeps recipes in three categories (`pan`, `oven`, `no_cook`). Anybody can browse them with inline buttons. One admin chat (`AdminId = 12345`) adds, edits and deletes recipes through short dialogues, whose state lives in a per-chat session table.

The model covers one call of `HandleUpdateAsync`:
- It records the sender in the Users table if the sender is not there yet.
- A button press is dispatched on its payload. Five exact payloads and seven prefixes are tested in source order, and the first match wins.
- A message is consumed by the chat's open session, if there is one. Otherwise it goes to the keyword handling: `/users`, `/add`, `/menu` or a greeting, and a fallback.
- The replies are rendered by `ShowRecipesList`, `SendMainMenu`, the recipe card and the fixed keyboards.

Modules:

- `Strings`: the .NET primitives the dispatch depends on, written out:
  - ordinal `StartsWith` and `Contains`;
  - `Replace(prefix, "")`, which scans from left to right and drops every non-overlapping occurrence of the prefix, not just a leading one; the result is not scanned again, so dropping one occurrence can leave a new one behind (`shshow_ow_5` becomes `show_5`);
  - `ToLower`;
  - `Int32.ToString`;
  - `Int32.Parse`/`TryParse` with `NumberStyles.Integer`: white space, a sign, ASCII digits, trailing NULs, 32-bit range.
- `Catalog`: the data.
  - `Recipe`, `BotUser`, `UserSession`, and the `State` that holds the Recipes and Users tables, `_userSessions` and the AUTOINCREMENT counter.
  - `WellFormed`, the invariant.
  - The order in which the store returns rows: ascending primary key.
- `Views`: the replies as message descriptors (`SendText`, `SendPhoto`, `SendVideo`, each with its rows of buttons).
- `Engine`: one update as a function, `HandleUpdate(state, update, now)`. A press is first classified by its payload (`Classify`, the tests in source order) and then acted on (`OnPress`). It returns the new state, the replies, and whether `int.Parse` threw. A thrown exception ends the update at that point. The user row inserted before the throw stays; nothing after the throw happens.
- `EngineProperties`: what one update does, for each kind of press and message. Each lemma holds for every state and update its `requires` admit; some are stated for one kind of payload or session step, and the dialogue lemmas assume `WellFormed`. It also covers the whole add-recipe dialogue and the invariant.
- `BotHost`: class `Bot`.
  - Its fields are the tables and the session map, and its methods change them in place, mirroring `HandleUpdateAsync` and its early returns.
  - `ShowRecipesList` and the `/users` report are loops.
  - Each method is proved equal to its `Engine` function, and `HandleUpdate` preserves `WellFormed`.

The `edit_title_`, `edit_desc_` and `edit_media_` handlers (`SladkiyRough_Bot/Program.cs:181-183`) do not check the sender, unlike `edit_menu_`, `del_`, `add_cat_` and `admin_add` (lines 170, 188, 199, 207). `EngineProperties.EditFieldPress` states it for any chat, and `EngineProperties.AnyChatCanRename` shows the consequence: any chat can rename an existing recipe with two updates. These buttons are only ever rendered for the admin, behind the admin-checked `edit_menu_`, but the handler accepts these payloads from any chat.

## Model

| member | source | states |
|---|---|---|
| Strings.ReplaceAll | SladkiyRough_Bot/Program.cs:139 | `data.Replace(prefix, "")`. The result is no longer than the input and contains only characters of the input. |
| Strings.ReplaceAllLeading | SladkiyRough_Bot/Program.cs:139 | A leading occurrence of the prefix is dropped and the scan goes on after it, so a doubled prefix is removed twice. |
| Strings.ReplaceAllAbsent | SladkiyRough_Bot/Program.cs:139 | A string without the prefix's first character passes through `Replace` unchanged. |
| Strings.ParseInt32 | SladkiyRough_Bot/Program.cs:139 | `int.TryParse`/`int.Parse`: any parsed value lies in the 32-bit range. |
| Strings.ParseAllDigits | SladkiyRough_Bot/Program.cs:139 | A run of ASCII digits with nothing after it is accepted, with its decimal value. |
| Strings.ParseSigned | SladkiyRough_Bot/Program.cs:139 | A `-` (or no sign) before accepted digits gives their value negated (or as is), when it fits in 32 bits. |
| Strings.SkipWhiteSuffix | SladkiyRough_Bot/Program.cs:139 | Skipping the leading white space that `NumberStyles.Integer` allows leaves a suffix of the input. |
| Strings.NoDigitRejected | SladkiyRough_Bot/Program.cs:139 | The reject side of `TryParse`/`Parse`: a string with no ASCII digit is never accepted, whatever white space or sign it carries. |
| Strings.ParseInt32RoundTrip | SladkiyRough_Bot/Program.cs:148-149 | Every 32-bit id, once printed into a payload, parses back to itself. |
| Strings.IntToStringInjective | SladkiyRough_Bot/Program.cs:148-149 | Distinct ids print to distinct strings, so distinct recipes get distinct payloads. |
| Strings.ExtractAfterPrefix | SladkiyRough_Bot/Program.cs:139 | For any prefix that starts with neither `-` nor a digit, removing it from `prefix + id` and parsing gives back `id`. |
| Strings.LowerChar | SladkiyRough_Bot/Program.cs:285 | A character is changed iff it is a capital in A–Z, U+00C0–U+00DE other than U+00D7, or U+0400–U+042F; all other characters are kept (see "Left out"). |
| Strings.ToLower | SladkiyRough_Bot/Program.cs:285 | `text.ToLower()` keeps the length and lowers character by character. |
| Strings.ToLowerIdempotent | SladkiyRough_Bot/Program.cs:285 | Lowering a lowered text changes nothing. |
| Strings.StartsWith | SladkiyRough_Bot/Program.cs:137-197 | The ordinal prefix test of the payload dispatch: it holds iff the prefix is no longer than the string and agrees with it character by character. |
| Strings.Contains | SladkiyRough_Bot/Program.cs:305 | A string contains only texts no longer than itself, and it contains each of its prefixes. |
| Strings.ContainsOccurs | SladkiyRough_Bot/Program.cs:305 | `text.Contains(p)` holds iff `p` stands in the text at some offset. |
| Strings.IntToString | SladkiyRough_Bot/Program.cs:149-150 | The id printed into a payload is non-empty, starts with `-` or an ASCII digit, and holds nothing but these; `Strings.ParseInt32RoundTrip` reads it back. |
| Strings.ContainsChar | SladkiyRough_Bot/Program.cs:305 | If `text.Contains(p)`, every character of `p` occurs in the text. |
| Catalog.IsEditSteps | SladkiyRough_Bot/Program.cs:227 | `Step.StartsWith("Edit")` holds exactly for the three edit steps. |
| Catalog.InitialWellFormed | SladkiyRough_Bot/Program.cs:71 | A freshly created database with no sessions satisfies the invariant. |
| Catalog.SortedKeys | SladkiyRough_Bot/Program.cs:317 | A table scan returns each key once, all keys, in ascending order. |
| Catalog.RecipesIn | SladkiyRough_Bot/Program.cs:317 | `Where(r => r.Category == category)` returns exactly the ids of that category, in ascending order. |
| Catalog.UsersInOrder | SladkiyRough_Bot/Program.cs:290 | `db.Users.ToListAsync()` has one entry per user and includes every stored user. |
| Views.CategoryLabel | SladkiyRough_Bot/Program.cs:321 | The heading is Духовка iff `oven`, Сковорода iff `pan`, and Без готовки for anything else. |
| Views.RecipesList | SladkiyRough_Bot/Program.cs:315-323 | A text to the chat, headed with the label. It has one row per recipe of the category, and its last row is the `main_menu` button. |
| Views.RecipesListRows | SladkiyRough_Bot/Program.cs:317-319 | Row `i` is the title of the `i`-th recipe of the category, with payload `show_<id>`. |
| Views.ListedRecipeOffered | SladkiyRough_Bot/Program.cs:317-319 | Every recipe of the category has its `show_<id>` button in the list. |
| Views.OfferedRecipeListed | SladkiyRough_Bot/Program.cs:317-320 | A `show_<id>` button in the list always belongs to an existing recipe of that category. |
| Views.RecipesListOffers | SladkiyRough_Bot/Program.cs:317-320 | The list offers `show_<id>` iff recipe `id` exists and is in that category. |
| Views.RecipeCard | SladkiyRough_Bot/Program.cs:143-162 | The card reply (details below this table). |
| Views.TextCardShowsRecipe | SladkiyRough_Bot/Program.cs:162 | A text card contains the title and the whole description. |
| Views.MainMenu | SladkiyRough_Bot/Program.cs:325-340 | The promotional picture with its caption and the `pan`, `oven` and `no_cook` buttons; `admin_add` is present iff the chat is the admin. |
| Views.EditMenu | SladkiyRough_Bot/Program.cs:172-177 | The submenu is a text to the chat with four one-button rows, whose payloads are `edit_title_`, `edit_desc_`, `edit_media_` and `show_`, each followed by the printed id. |
| Views.AddCategoryMenu | SladkiyRough_Bot/Program.cs:208 | The category choice is a text to the chat with the rows `add_cat_pan`, `add_cat_oven` and then `add_cat_no_cook`. |
| Views.UsersReport | SladkiyRough_Bot/Program.cs:291-292 | The `/users` text starts with the header that carries the user count. |
| Views.UserLinesPrefix | SladkiyRough_Bot/Program.cs:292 | The report lines of a prefix of the user list start the lines of the whole list. |
| Views.ReportGrows | SladkiyRough_Bot/Program.cs:291-292 | Appending the next user's line to the report of the first `i` users gives the report of the first `i + 1`. |
| Views.UsersReportListsEveryone | SladkiyRough_Bot/Program.cs:290-292 | The report starts with the user count and contains a line for every user. |
| Engine.RecordUser | SladkiyRough_Bot/Program.cs:117-122 | After recording, the table has the old keys plus the sender. Every existing row is unchanged, and a missing sender gets a new row stamped with the clock reading. |
| Engine.Classify | SladkiyRough_Bot/Program.cs:131-212 | A payload is a category listing iff it is `pan`, `oven` or `no_cook`. An edit press always names one of the three edit steps. A payload is left unrecognised only when it matches none of the five exact payloads and none of the seven prefixes. |
| Engine.NewUser | SladkiyRough_Bot/Program.cs:97-120 | A first-time sender's row carries its chat id and the clock reading, with `NoNick` and `NoName` standing in for a missing user name or first name. |
| Engine.ExtractId | SladkiyRough_Bot/Program.cs:139-189 | `Replace(prefix, "")` then `TryParse`/`Parse`: an id is found only in a non-empty remainder, and it lies in the 32-bit range. |
| Engine.OpenEdit | SladkiyRough_Bot/Program.cs:181-183 | An unparsable id throws and changes nothing. Otherwise the chat's session becomes exactly the edit step on that id with empty category and title, every other session, recipe, user and the counter are kept, and the one reply is the prompt. |
| Engine.OnPress | SladkiyRough_Bot/Program.cs:131-212 | No press touches the Users table or the id counter. A press that throws leaves the state as it was and sends nothing. A press never adds or changes a recipe, it can only remove one, and from any chat but the admin's it leaves the Recipes table as it was. The admin-only kinds (`edit_menu_`, `del_`, `add_cat_`, `admin_add`) do nothing at all for any other chat. |
| Engine.OnCallback | SladkiyRough_Bot/Program.cs:124-212 | A press never touches Users or the id counter. One that throws leaves the state as it was and sends nothing. From any chat but the admin's, the Recipes table is kept. |
| Engine.EditedRecipe | SladkiyRough_Bot/Program.cs:232-246 | An edit step yields no update only on the media step without a photo or video. The category is always kept, and so is the title outside the title step. A consistent recipe stays consistent. |
| Engine.OnEditMessage | SladkiyRough_Bot/Program.cs:227-256 | An edit step never touches Users or the id counter, never throws, and never adds or removes a recipe id. It either changes nothing or ends the chat's session. |
| Engine.OnTitleMessage | SladkiyRough_Bot/Program.cs:259-266 | The title step sends exactly one reply and never touches the Recipes table, Users or the counter. A non-empty text moves the session to `WaitContent`, titled with it and with its category kept. |
| Engine.ContentRecipe | SladkiyRough_Bot/Program.cs:269-273 | A recipe is built iff the message carries a photo, a video or a text. It takes the session's title and category, and its media type agrees with its handle. |
| Engine.OnContentMessage | SladkiyRough_Bot/Program.cs:267-281 | The content step never touches Users and never throws. When it sends nothing, nothing changes. Otherwise the next id is taken, the counter moves past it, and the session ends. |
| Engine.OnKeyword | SladkiyRough_Bot/Program.cs:285-311 | A message without a session gets at most one reply, and only a chat other than the admin's can get none. |
| Engine.HandleUpdate | SladkiyRough_Bot/Program.cs:85-312 | Any other update changes nothing and sends nothing. After a press or a message, the sender is in Users. Only a press can throw, and a throw sends nothing. |
| Engine.OnMessage | SladkiyRough_Bot/Program.cs:218-311 | No message touches the Users table, and none throws. |
| EngineProperties.SenderIsRecorded | SladkiyRough_Bot/Program.cs:117-122 | After any press or message, the sender's chat is in Users. An existing row, FirstVisit included, stays unchanged; otherwise exactly one new row is added, stamped with the clock reading. |
| EngineProperties.OtherUpdatesIgnored | SladkiyRough_Bot/Program.cs:108 | Any other update changes nothing and sends nothing. |
| EngineProperties.ClassifyShow | SladkiyRough_Bot/Program.cs:131-139 | A `show_` payload is none of the category payloads, so it asks for the card of the id left after removing `show_`. |
| EngineProperties.ClassifyEditMenu | SladkiyRough_Bot/Program.cs:131-171 | An `edit_menu_` payload passes the earlier tests and asks for the edit submenu of the parsed id. |
| EngineProperties.ClassifyEditField | SladkiyRough_Bot/Program.cs:131-183 | `edit_title_`, `edit_desc_` and `edit_media_` payloads fail every earlier test and each opens its own edit step with its own prompt, even though `edit_menu_` and `edit_media_` share their first six characters. |
| EngineProperties.ClassifyDelete | SladkiyRough_Bot/Program.cs:131-189 | A `del_` payload passes the earlier tests and asks to delete the parsed id. |
| EngineProperties.ClassifyAddCategory | SladkiyRough_Bot/Program.cs:131-200 | An `add_cat_` payload passes the earlier tests and asks to add a recipe to the payload with every `add_cat_` removed. |
| EngineProperties.ClassifyAdminAdd | SladkiyRough_Bot/Program.cs:131-205 | `admin_add` matches no prefix test and asks for the category choice. |
| EngineProperties.AdminOnlyButtonsDropped | SladkiyRough_Bot/Program.cs:170-207 | From a non-admin chat, `edit_menu_*`, `del_*`, `add_cat_*` and `admin_add` send nothing, do not throw, and change nothing but the user row. |
| EngineProperties.NonAdminPressKeepsRecipes | SladkiyRough_Bot/Program.cs:131-212 | No press from a non-admin chat changes the Recipes table. |
| EngineProperties.ShowPress | SladkiyRough_Bot/Program.cs:136-165 | `show_*` sends the card of the parsed id when that recipe exists, and nothing otherwise; it never throws and nothing else changes. |
| EngineProperties.NoDigitIdRejected | SladkiyRough_Bot/Program.cs:139-189 | A payload without a digit yields no id, whichever prefix `Replace` removes from it. |
| EngineProperties.MalformedEditMenuPress | SladkiyRough_Bot/Program.cs:171 | The admin's `edit_menu_x` throws in `int.Parse`, sends nothing and leaves only the user row recorded. |
| EngineProperties.MalformedDeletePress | SladkiyRough_Bot/Program.cs:189 | The admin's `del_abc` fails `int.TryParse`, so nothing is deleted or sent. |
| EngineProperties.ChooseCategoryPress | SladkiyRough_Bot/Program.cs:205-209 | The admin's `admin_add` gets exactly the category choice, and only the user row changes. |
| EngineProperties.MainMenuPress | SladkiyRough_Bot/Program.cs:212 | `main_menu` from any chat gets exactly the main menu for that chat, and only the user row changes. |
| EngineProperties.ListedButtonOpensRecipe | SladkiyRough_Bot/Program.cs:137-142 | Pressing a list's `show_<id>` button opens exactly recipe `id`. |
| EngineProperties.DoubledPrefixAccepted | SladkiyRough_Bot/Program.cs:139 | `show_show_<id>` also opens recipe `id`, because `Replace` drops every non-overlapping occurrence of the prefix, scanning from left to right. |
| EngineProperties.BackButtonListsCategory | SladkiyRough_Bot/Program.cs:131-153 | A card's back button re-lists the recipe's category when that category is one of the three. |
| EngineProperties.EditMenuPress | SladkiyRough_Bot/Program.cs:168-179 | The admin's `edit_menu_*` sends the edit submenu, or throws iff the id does not parse; the state is left as it was. |
| EngineProperties.CardEditButtonOpensMenu | SladkiyRough_Bot/Program.cs:148-171 | The admin's edit button on a card opens the submenu of that recipe. |
| EngineProperties.EditFieldPress | SladkiyRough_Bot/Program.cs:181-183 | From any chat, `edit_title_*`, `edit_desc_*` and `edit_media_*` open the matching edit session on the parsed id and prompt, or throw iff the id does not parse. Recipes are untouched. |
| EngineProperties.EditMenuButtonsOpenSteps | SladkiyRough_Bot/Program.cs:172-183 | The three edit buttons of a recipe's submenu open the title, description and media steps for that recipe, and the last button opens its card again. |
| EngineProperties.DeletePress | SladkiyRough_Bot/Program.cs:186-194 | The admin's `del_<id>` on an existing recipe (details below this table). |
| EngineProperties.DeletedRecipeLeavesListing | SladkiyRough_Bot/Program.cs:186-194 | After a card's delete button, the list sent no longer offers the recipe and still offers every other recipe of its category. |
| EngineProperties.AddCategoryPress | SladkiyRough_Bot/Program.cs:197-203 | The admin's `add_cat_*` opens a `WaitTitle` session whose category is the payload with every `add_cat_` removed, and prompts with that category. |
| EngineProperties.AddCategoryButtonsStartAdd | SladkiyRough_Bot/Program.cs:197-208 | The buttons of the category choice start the add dialogue for `pan`, `oven` and `no_cook` respectively. |
| EngineProperties.TitleStep | SladkiyRough_Bot/Program.cs:259-266 | In `WaitTitle`, a missing or empty text re-prompts and changes nothing. A non-empty text becomes TempTitle and the step becomes `WaitContent`, with the category kept. |
| EngineProperties.ContentPriority | SladkiyRough_Bot/Program.cs:269-273 | How `WaitContent` builds a recipe (details below this table). |
| EngineProperties.ContentStep | SladkiyRough_Bot/Program.cs:267-281 | In `WaitContent`, content is stored under a fresh id (the next id), the chat's session is removed, and the saved note is followed by the category list. No content changes nothing. |
| EngineProperties.EditTargetMissing | SladkiyRough_Bot/Program.cs:229-230 | An edit session whose recipe is gone replies "not found" and removes the session; nothing else changes. |
| EngineProperties.EditTextStep | SladkiyRough_Bot/Program.cs:232-255 | `EditWaitTitle` (`EditWaitDesc`) sets only the title (only the description) to `text ?? ""`. Every other field and recipe is kept; the session ends and the main menu follows. |
| EngineProperties.EditMediaStep | SladkiyRough_Bot/Program.cs:242-255 | `EditWaitMedia` (details below this table). |
| EngineProperties.EditRepliesNotKeyword | SladkiyRough_Bot/Program.cs:227-256 | No reply of an edit step is the `/users` report, the `/add` keyboard or the fallback. |
| EngineProperties.TitleRepliesNotKeyword | SladkiyRough_Bot/Program.cs:259-266 | The title step sends exactly one plain text, and it is no keyword reply. |
| EngineProperties.ContentRepliesNotKeyword | SladkiyRough_Bot/Program.cs:267-281 | The content step sends only plain texts (the saved note and the category list), none a keyword reply. |
| EngineProperties.SessionBeforeKeywords | SladkiyRough_Bot/Program.cs:222-311 | While a chat has a session, no message gets the `/users` report, the `/add` keyboard or the fallback. Outside an edit, no main menu either. |
| EngineProperties.MenuText | SladkiyRough_Bot/Program.cs:285-309 | A text whose lowered form contains `/menu` is neither `/users` nor `/add`, and gets exactly the main menu. |
| EngineProperties.MenuKeyword | SladkiyRough_Bot/Program.cs:305-309 | Without a session, a text whose lowered form contains `/menu` gets exactly the main menu, and nothing changes but the user row. |
| EngineProperties.AdminKeywordsText | SladkiyRough_Bot/Program.cs:288-311 | `/users` from a non-admin chat falls through to the fallback (it mentions neither `/menu` nor the greeting), and `/add` gets nothing. |
| EngineProperties.AdminKeywordsIgnoredForOthers | SladkiyRough_Bot/Program.cs:288-311 | Without a session, `/users` from a non-admin chat gets the fallback and `/add` gets nothing; the state is unchanged apart from the user row. |
| EngineProperties.AdminUsersText | SladkiyRough_Bot/Program.cs:288-294 | The admin's text that lowers to `/users` is answered with just the report of every user, in key order. |
| EngineProperties.AdminUsersKeyword | SladkiyRough_Bot/Program.cs:288-294 | Without a session, the admin's `/users` in any case reports every user, sender included, and changes nothing but the user row. |
| EngineProperties.AdminAddText | SladkiyRough_Bot/Program.cs:297-302 | The admin's text that lowers to `/add` is answered with just the category choice. |
| EngineProperties.AdminAddKeyword | SladkiyRough_Bot/Program.cs:297-302 | Without a session, the admin's `/add` in any case offers the category choice and changes nothing but the user row. |
| EngineProperties.GreetingText | SladkiyRough_Bot/Program.cs:288-308 | A text whose lowered form contains `привет` is neither `/users` nor `/add`, and gets exactly the main menu, from any chat. |
| EngineProperties.GreetingKeyword | SladkiyRough_Bot/Program.cs:305-308 | Without a session, a text whose lowered form contains `привет` gets exactly the main menu. |
| EngineProperties.FallbackText | SladkiyRough_Bot/Program.cs:288-311 | A message without text, or whose lowered text is none of the keywords for that chat, gets exactly the "not understood" reply. |
| EngineProperties.FallbackKeyword | SladkiyRough_Bot/Program.cs:288-311 | Without a session, such a message gets exactly the "not understood" reply and changes nothing but the user row. |
| EngineProperties.StepPreservesWellFormed | SladkiyRough_Bot/Program.cs:242-277 | Every update keeps ids positive and below the next id, media type consistent with the handle, and each user row keyed by its chat. |
| EngineProperties.AddRecipeDialogue | SladkiyRough_Bot/Program.cs:197-281 | `add_cat_pan`, then "Pancakes", then a photo captioned "Fluffy": the sessions in between are `WaitTitle{pan}` and `WaitContent{pan, Pancakes}`, the recipe Pancakes/Fluffy/pan/Photo is stored under the next id, and the session is gone. |
| EngineProperties.EmptyThenTitle | SladkiyRough_Bot/Program.cs:259-265 | In `WaitTitle`, an empty text and then "Omelette" leave the chat in `WaitContent` titled Omelette, with no recipe stored. |
| EngineProperties.AnyChatCanRename | SladkiyRough_Bot/Program.cs:181-235 | Any chat can press `edit_title_<id>` and then rename recipe `id`. |
| BotHost.Bot.constructor | SladkiyRough_Bot/Program.cs:66-71 | A new bot has the empty tables and session map and satisfies the invariant. |
| BotHost.Bot.ShowRecipesList | SladkiyRough_Bot/Program.cs:315-323 | The `foreach` over the category's recipes builds exactly `Views.RecipesList`. |
| BotHost.Bot.UsersResponse | SladkiyRough_Bot/Program.cs:290-292 | The `/users` text is exactly `Views.UsersReport` over the table's rows in scan order. |
| BotHost.Bot.Report | SladkiyRough_Bot/Program.cs:291-292 | The `response +=` loop gives the header followed by one line per user, in order. |
| BotHost.Bot.HandleUpdate | SladkiyRough_Bot/Program.cs:85-312 | The in-place handler leaves exactly the state, replies and exception outcome of `Engine.HandleUpdate`, and keeps `WellFormed`. |
| BotHost.Bot.HandleCallback | SladkiyRough_Bot/Program.cs:124-215 | The in-place payload dispatch is `Engine.OnCallback`: the payload is classified, then acted on. |
| BotHost.Bot.ApplyPress | SladkiyRough_Bot/Program.cs:131-212 | Acting on each kind of press in place, with the early returns for other chats, is `Engine.OnPress`. |
| BotHost.Bot.StartEdit | SladkiyRough_Bot/Program.cs:181-183 | Setting the edit session is `Engine.OpenEdit`. |
| BotHost.Bot.HandleMessage | SladkiyRough_Bot/Program.cs:218-311 | The in-place message handling is `Engine.OnMessage`. |
| BotHost.Bot.ApplyEdit | SladkiyRough_Bot/Program.cs:227-256 | Updating the tracked recipe in place is `Engine.OnEditMessage`. |
| BotHost.Bot.SaveNewRecipe | SladkiyRough_Bot/Program.cs:267-281 | `db.Recipes.Add` plus removing the session is `Engine.OnContentMessage`. |
| BotHost.Bot.Keywords | SladkiyRough_Bot/Program.cs:285-311 | The keyword handling is `Engine.OnKeyword`, and it changes nothing. |

Details of the longer rows:

- `Views.RecipeCard`:
  - a photo or video with the description as caption for Photo/Video recipes, and the bold title plus description for Text;
  - the last row is the back button, whose payload is the recipe's category;
  - the admin gets an `edit_menu_<id>`/`del_<id>` row first, and others get no extra row.
- `EngineProperties.DeletePress`:
  - removes exactly `id`;
  - keeps every other recipe and every session;
  - sends "deleted" and then the list of the former category.
  - A missing or unparsable id changes nothing and sends nothing.
- `EngineProperties.ContentPriority`:
  - photo before video before text;
  - title and category come from the session;
  - the handle is set only for media;
  - the description is `caption ?? ""`, or the text.
- `EngineProperties.EditMediaStep`:
  - without a photo or video, the session and the recipe are kept and the bot asks again;
  - otherwise it sets the media type and handle, sets the description only when a caption comes with the media, and ends the session.

## Left out

- Telegram transport is not modelled: `StartReceiving`, `GetMeAsync`, the bot token and the polling error handler. Each `Send*Async` call becomes an `Outbound` descriptor appended to the update's replies.
- `AnswerCallbackQueryAsync` and its swallowed exception (line 126) are foreign I/O with no effect on state or replies.
- The HTML parse mode is not carried, and neither is the failed send it can cause: Telegram rejects an HTML message with an unescaped `<` or `&`, which can come from a recipe title or description on the text card (line 162) or from a user name in the `/users` report (line 293). The model always delivers those replies.
- The promotional picture's URL is represented by `PromoPicture`.
- EF Core and SQLite are not modelled. The tables are maps committed at once, so `SaveChangesAsync` is implicit.
- Recipe ids: the AUTOINCREMENT id is the counter `nextId`, which starts at 1 and only grows.
- Row order: both tables are read in ascending primary-key order, which is what a SQLite scan of an integer-keyed table returns. A store failure is not modelled.
- Console logging and colours (lines 89-114) are output only.
- The clock: `DateTime.Now` is the `now` parameter. `/users` shows `FirstVisit` as that number rather than with `dd.MM.yy` formatting.
- Concurrency: the static session dictionary is unsynchronised, and updates are modelled one at a time.
- Strings.LowerChar: lowers only the capitals A–Z, U+00C0–U+00DE except U+00D7, and U+0400–U+042F. Every other cased character (for example Ґ, U+0490, or Greek capitals) is kept, unlike culture-aware `char.ToLower`. The keywords `/users`, `/add`, `/menu` and `привет` lie within these ranges, but a text that only matches them after lowering such a character is not modelled.
- Strings.ToLower: inherits the ranges of `Strings.LowerChar`, character by character; no culture-specific rules (such as the Turkish dotted I) are modelled.
- Strings.StartsWith: is ordinal. The culture-sensitive default of `string.StartsWith(string)` agrees with it on the ASCII payloads the bot builds.
- Updates: `Update` is either a button press or a message. Telegram never sends both in one update, so the source's differing test order for logging (message first) and handling (press first) does not matter.
- A press whose `Data` is null is not modelled.
- `Photo.Last()` is "the photo handle" of a message.
- Int32 overflow of recipe ids (past 2147483647 inserts) is not modelled.
- Entities are values, not tracked objects. The session entry mutated in place (lines 262-263) and the tracked recipe assigned field by field (lines 234-245) become map entries replaced as a whole, which gives the same observable result because nothing else holds a reference to them.
- The step stored in a session is one of the five values the engine ever writes, so the "None" default of `new UserSession` and the fall-through of a session with an unknown step to the keywords cannot arise.
