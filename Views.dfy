/**
 * What the bot sends, as message descriptors: the category list of
 * `ShowRecipesList`, the main menu of `SendMainMenu`, the recipe card of a
 * `show_<id>` press, the fixed keyboards and the `/users` report.
 */
module Views {
  import opened Strings
  import opened Catalog

  /** `InlineKeyboardButton.WithCallbackData(text, payload)`. */
  datatype Button = Button(text: string, payload: string)

  /** Rows of inline buttons; `[]` stands for a message sent without markup. */
  type Keyboard = seq<seq<Button>>

  /** A photo to send: a stored Telegram file handle, or the fixed promotional picture. */
  datatype InputFile = FileRef(handle: Option<string>) | PromoPicture

  /** One `Send*Async` call; every reply goes to the chat the update came from. */
  datatype Outbound =
    | SendText(chat: int, text: string, markup: Keyboard)
    | SendPhoto(chat: int, photo: InputFile, caption: string, markup: Keyboard)
    | SendVideo(chat: int, video: Option<string>, caption: string, markup: Keyboard)

  /** Some button of `kb` carries `payload`. */
  predicate HasPayload(kb: Keyboard, payload: string) {
    exists i, j :: 0 <= i < |kb| && 0 <= j < |kb[i]| && kb[i][j].payload == payload
  }

  // ---------------------------------------------------------------------------
  // Fixed texts of the dialogue

  const Deleted: string := "✅ Удалено."
  const RecipeSaved: string := "✅ Рецепт сохранен!"
  const TitleUpdated: string := "✅ Название обновлено."
  const DescriptionUpdated: string := "✅ Описание обновлено."
  const MediaUpdated: string := "✅ Медиа обновлено."
  const RecipeNotFound: string := "Ошибка: Рецепт не найден."
  const NeedMedia: string := "Нужно фото или видео."
  const AskTitleAsText: string := "Пришлите название текстом."
  const AskContent: string := "Теперь пришлите Рецепт " + "(Текст, Фото или Видео)."
  const AskNewTitle: string := "Введите новое название:"
  const AskNewDescription: string := "Введите новое описание:"
  const AskNewMedia: string := "Пришлите новое фото или видео:"
  const AskWhat: string := "Что хотите изменить?"
  const AskWhere: string := "Куда добавляем?"
  const NotUnderstood: string := "Я вас не понимаю 🤷‍♂️\nНажмите /menu"
  const MenuCaption: string := "ПП рецепты на каждый день. Выбери категорию:"

  function AskTitleFor(category: string): string {
    "Категория: " + category + ". Введите Название:"
  }

  // ---------------------------------------------------------------------------
  // Category list (`ShowRecipesList`)

  /** The heading of a category list: two named categories, everything else is no-cook. */
  function CategoryLabel(category: string): (name: string)
    ensures name == "Духовка" <==> category == "oven"
    ensures name == "Сковорода" <==> category == "pan"
    ensures name == "Без готовки" <==> category != "oven" && category != "pan"
  {
    if category == "oven" then "Духовка" else if category == "pan" then "Сковорода" else "Без готовки"
  }

  const BackToMenu: Button := Button("⬅️ В главное меню", "main_menu")

  /** The button that opens recipe `id`. */
  function ShowButton(recipes: map<int, Recipe>, id: int): Button
    requires id in recipes
  {
    Button(recipes[id].title, "show_" + IntToString(id))
  }

  /** One row per listed id, in the order given. */
  function ListRows(recipes: map<int, Recipe>, ids: seq<int>): Keyboard
    requires forall id :: id in ids ==> id in recipes
  {
    seq(|ids|, i requires 0 <= i < |ids| => [ShowButton(recipes, ids[i])])
  }

  /**
   * `ShowRecipesList(chat, category)`: one row per recipe of the category in
   * ascending id order, then the back-to-menu row.
   */
  function RecipesList(recipes: map<int, Recipe>, chat: int, category: string): (o: Outbound)
    ensures o.SendText? && o.chat == chat && o.text == "📂 " + CategoryLabel(category)
    ensures |o.markup| == |RecipesIn(recipes, category)| + 1
    ensures o.markup[|o.markup| - 1] == [BackToMenu]
  {
    var ids := RecipesIn(recipes, category);
    SendText(chat, "📂 " + CategoryLabel(category), ListRows(recipes, ids) + [[BackToMenu]])
  }

  /** Row `i` of a category list opens the `i`-th recipe of that category, oldest first. */
  lemma RecipesListRows(recipes: map<int, Recipe>, chat: int, category: string, i: int)
    requires 0 <= i < |RecipesIn(recipes, category)|
    ensures var id := RecipesIn(recipes, category)[i];
      && id in recipes && recipes[id].category == category
      && RecipesList(recipes, chat, category).markup[i] == [Button(recipes[id].title, "show_" + IntToString(id))]
      && forall k :: 0 <= k < i ==> RecipesIn(recipes, category)[k] < id
  {
    var ids := RecipesIn(recipes, category);
    assert ids[i] in ids;
    assert (ListRows(recipes, ids) + [[BackToMenu]])[i] == ListRows(recipes, ids)[i];
  }

  /** Every recipe of the category has its `show_<id>` button in the list. */
  lemma ListedRecipeOffered(recipes: map<int, Recipe>, chat: int, category: string, id: int)
    requires id in recipes && recipes[id].category == category
    ensures HasPayload(RecipesList(recipes, chat, category).markup, "show_" + IntToString(id))
  {
    var ids := RecipesIn(recipes, category);
    var kb: Keyboard := RecipesList(recipes, chat, category).markup;
    assert kb == ListRows(recipes, ids) + [[BackToMenu]];
    var i :| 0 <= i < |ids| && ids[i] == id;
    assert kb[i] == ListRows(recipes, ids)[i];
    assert kb[i][0].payload == "show_" + IntToString(id);
  }

  /** A payload that is not `main_menu` comes from the rows above the back-to-menu row. */
  lemma AboveBackRow(rows: Keyboard, p: string)
    requires HasPayload(rows + [[BackToMenu]], p) && p != "main_menu"
    ensures HasPayload(rows, p)
  {
    var kb: Keyboard := rows + [[BackToMenu]];
    var i, j :| 0 <= i < |kb| && 0 <= j < |kb[i]| && kb[i][j].payload == p;
    assert kb[|rows|] == [BackToMenu];
    assert i < |rows| && kb[i] == rows[i];
  }

  /** Every payload of the recipe rows is `show_` followed by one of the listed ids. */
  lemma ListRowsPayload(recipes: map<int, Recipe>, ids: seq<int>, p: string)
    requires forall id :: id in ids ==> id in recipes
    requires HasPayload(ListRows(recipes, ids), p)
    ensures exists i :: 0 <= i < |ids| && p == "show_" + IntToString(ids[i])
  {
    var rows: Keyboard := ListRows(recipes, ids);
    var i, j :| 0 <= i < |rows| && 0 <= j < |rows[i]| && rows[i][j].payload == p;
    assert rows[i] == [ShowButton(recipes, ids[i])];
  }

  /** A `show_<id>` button in the list belongs to a recipe of the category. */
  lemma OfferedRecipeListed(recipes: map<int, Recipe>, chat: int, category: string, id: int)
    requires HasPayload(RecipesList(recipes, chat, category).markup, "show_" + IntToString(id))
    ensures id in recipes && recipes[id].category == category
  {
    var ids := RecipesIn(recipes, category);
    var p := "show_" + IntToString(id);
    assert p[0] == 's' && "main_menu"[0] == 'm';
    AboveBackRow(ListRows(recipes, ids), p);
    ListRowsPayload(recipes, ids, p);
    var i :| 0 <= i < |ids| && p == "show_" + IntToString(ids[i]);
    assert ids[i] in ids;
    ConcatCancel("show_", IntToString(ids[i]), IntToString(id));
    IntToStringInjective(ids[i], id);
  }

  /** A category list offers `show_<id>` exactly for the recipes of that category. */
  lemma RecipesListOffers(recipes: map<int, Recipe>, chat: int, category: string, id: int)
    ensures HasPayload(RecipesList(recipes, chat, category).markup, "show_" + IntToString(id))
        <==> id in recipes && recipes[id].category == category
  {
    if id in recipes && recipes[id].category == category {
      ListedRecipeOffered(recipes, chat, category, id);
    }
    if HasPayload(RecipesList(recipes, chat, category).markup, "show_" + IntToString(id)) {
      OfferedRecipeListed(recipes, chat, category, id);
    }
  }

  // ---------------------------------------------------------------------------
  // Recipe card (`show_<id>`)

  function EditButton(id: int): Button {
    Button("✏️ Редактировать", "edit_menu_" + IntToString(id))
  }

  function DeleteButton(id: int): Button {
    Button("❌ Удалить", "del_" + IntToString(id))
  }

  function BackToList(category: string): Button {
    Button("🔙 Назад к списку", category)
  }

  /**
   * The card of recipe `id`: the media with the description as caption, or
   * the title and description as text; the admin first gets an edit/delete
   * row; everybody gets a back button whose payload is the recipe's category.
   */
  function RecipeCard(chat: int, id: int, r: Recipe): (o: Outbound)
    ensures o.chat == chat
    ensures o.SendPhoto? <==> r.mediaType == Photo
    ensures o.SendVideo? <==> r.mediaType == Video
    ensures o.SendPhoto? ==> o.photo == FileRef(r.fileId) && o.caption == r.description
    ensures o.SendVideo? ==> o.video == r.fileId && o.caption == r.description
    ensures |o.markup| > 0 && o.markup[|o.markup| - 1] == [BackToList(r.category)]
    ensures chat == AdminId ==> |o.markup| == 2 && o.markup[0] == [EditButton(id), DeleteButton(id)]
    ensures chat != AdminId ==> |o.markup| == 1
  {
    var adminRow := if chat == AdminId then [[EditButton(id), DeleteButton(id)]] else [];
    var markup := adminRow + [[BackToList(r.category)]];
    match r.mediaType
    case Photo => SendPhoto(chat, FileRef(r.fileId), r.description, markup)
    case Video => SendVideo(chat, r.fileId, r.description, markup)
    case Text => SendText(chat, "<b>🍽 " + r.title + "</b>\n\n" + r.description, markup)
  }

  /** The recipe text of a Text card holds the title and the whole description. */
  lemma TextCardShowsRecipe(chat: int, id: int, r: Recipe)
    requires r.mediaType == Text
    ensures Contains(RecipeCard(chat, id, r).text, r.title)
    ensures Contains(RecipeCard(chat, id, r).text, r.description)
  {
    var t := RecipeCard(chat, id, r).text;
    assert t == "<b>🍽 " + r.title + ("</b>\n\n" + r.description);
    ContainsInfix("<b>🍽 ", r.title, "</b>\n\n" + r.description);
    assert t == ("<b>🍽 " + r.title + "</b>\n\n") + r.description + "";
    ContainsInfix("<b>🍽 " + r.title + "</b>\n\n", r.description, "");
  }

  // ---------------------------------------------------------------------------
  // Main menu (`SendMainMenu`) and the fixed keyboards

  const CategoryRows: Keyboard := [
    [Button("🍳 На сковороде", "pan"), Button("🧖‍♀️ Духовка", "oven")],
    [Button("🥗 Не нужна готовка", "no_cook")]
  ]

  const AddRecipeButton: Button := Button("➕ Добавить рецепт", "admin_add")

  /** The promotional picture with the three category buttons and, for the admin only, "add recipe". */
  function MainMenu(chat: int): (o: Outbound)
    ensures o.SendPhoto? && o.chat == chat && o.photo == PromoPicture && o.caption == MenuCaption
    ensures HasPayload(o.markup, "pan") && HasPayload(o.markup, "oven") && HasPayload(o.markup, "no_cook")
    ensures HasPayload(o.markup, "admin_add") <==> chat == AdminId
  {
    var rows := CategoryRows + if chat == AdminId then [[AddRecipeButton]] else [];
    assert rows[0][0].payload == "pan" && rows[0][1].payload == "oven" && rows[1][0].payload == "no_cook";
    assert chat == AdminId ==> rows[2][0].payload == "admin_add";
    assert chat != AdminId ==> forall i, j :: 0 <= i < |rows| && 0 <= j < |rows[i]| ==>
      rows[i][j].payload[0] != 'a';
    SendPhoto(chat, PromoPicture, MenuCaption, rows)
  }

  /** The edit submenu of `edit_menu_<id>`. */
  function EditMenu(chat: int, id: int): (o: Outbound)
    ensures o.SendText? && o.chat == chat && o.text == AskWhat
    ensures |o.markup| == 4 && forall i :: 0 <= i < 4 ==> |o.markup[i]| == 1
    ensures var n := IntToString(id);
      && o.markup[0][0].payload == "edit_title_" + n && o.markup[1][0].payload == "edit_desc_" + n
      && o.markup[2][0].payload == "edit_media_" + n && o.markup[3][0].payload == "show_" + n
  {
    var n := IntToString(id);
    SendText(chat, AskWhat, [
      [Button("📝 Изм. Название", "edit_title_" + n)],
      [Button("📄 Изм. Описание", "edit_desc_" + n)],
      [Button("🖼 Изм. Фото/Видео", "edit_media_" + n)],
      [Button("🔙 Отмена", "show_" + n)]
    ])
  }

  /** The category choice of `admin_add` and `/add`. */
  function AddCategoryMenu(chat: int): (o: Outbound)
    ensures o.SendText? && o.chat == chat && o.text == AskWhere
    ensures |o.markup| == 2 && |o.markup[0]| == 2 && |o.markup[1]| == 1
    ensures && o.markup[0][0].payload == "add_cat_" + "pan" && o.markup[0][1].payload == "add_cat_" + "oven"
            && o.markup[1][0].payload == "add_cat_" + "no_cook"
  {
    SendText(chat, AskWhere, [
      [Button("На сковороде", "add_cat_pan"), Button("Духовка", "add_cat_oven")],
      [Button("Без готовки", "add_cat_no_cook")]
    ])
  }

  // ---------------------------------------------------------------------------
  // `/users` report

  function ReportHeader(count: int): string {
    "📊 <b>Пользователи: " + IntToString(count) + "</b>\n\n"
  }

  /** One line of the report; the first visit is shown as the stored clock reading. */
  function UserLine(u: BotUser): string {
    "👤 " + u.firstName + " (@" + u.username + ") — " + IntToString(u.firstVisit) + "\n"
  }

  /** The lines of `users`, in order. */
  function UserLines(users: seq<BotUser>): string
    decreases |users|
  {
    if users == [] then "" else UserLines(users[..|users| - 1]) + UserLine(users[|users| - 1])
  }

  /** The `/users` reply: the header with the count, then one line per user. */
  function UsersReport(users: seq<BotUser>): (r: string)
    ensures StartsWith(r, ReportHeader(|users|))
  {
    StartsWithAppend(ReportHeader(|users|), UserLines(users));
    ReportHeader(|users|) + UserLines(users)
  }

  /** The lines of a prefix of the list stand at the start of the lines of the list. */
  lemma {:induction false} UserLinesPrefix(users: seq<BotUser>, k: nat)
    requires k <= |users|
    ensures StartsWith(UserLines(users), UserLines(users[..k]))
    decreases |users|
  {
    if k < |users| {
      var init := users[..|users| - 1];
      assert init[..k] == users[..k];
      UserLinesPrefix(init, k);
    } else {
      assert users[..k] == users;
    }
  }

  /** Adding the next user adds its line at the end. */
  lemma UserLinesSnoc(users: seq<BotUser>, i: int)
    requires 0 <= i < |users|
    ensures UserLines(users[..i + 1]) == UserLines(users[..i]) + UserLine(users[i])
  {
    var upto := users[..i + 1];
    assert upto[..|upto| - 1] == users[..i];
  }

  /** Appending the next user's line to a report of the first `i` users gives the report of the first `i + 1`. */
  lemma ReportGrows(header: string, users: seq<BotUser>, i: int, response: string)
    requires 0 <= i < |users| && response == header + UserLines(users[..i])
    ensures response + UserLine(users[i]) == header + UserLines(users[..i + 1])
  {
    UserLinesSnoc(users, i);
    ConcatAssoc(header, UserLines(users[..i]), UserLine(users[i]));
  }

  /** The report starts with the user count and has a line for every user. */
  lemma UsersReportListsEveryone(users: seq<BotUser>, i: int)
    requires 0 <= i < |users|
    ensures StartsWith(UsersReport(users), ReportHeader(|users|))
    ensures Contains(UsersReport(users), UserLine(users[i]))
  {
    StartsWithAppend(ReportHeader(|users|), UserLines(users));
    UserLinesSnoc(users, i);
    UserLinesPrefix(users, i + 1);
    ContainsViaPrefix(ReportHeader(|users|), UserLines(users), UserLines(users[..i]), UserLine(users[i]));
  }
}
