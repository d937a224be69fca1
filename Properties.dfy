/**
 * What one update of the bot does, proved of `Engine.HandleUpdate`; each lemma
 * holds for every state and update its `requires` admit: user bookkeeping, the admin-only buttons, deletion, the
 * add-recipe and edit dialogues, the precedence of an open session over
 * keywords, and the invariant every reachable state keeps.
 */
module EngineProperties {
  import opened Strings
  import opened Catalog
  import opened Views
  import opened Engine

  /** The state once the sender has been recorded: what every dispatch starts from. */
  function Registered(s: State, chat: int, p: Profile, now: int): State {
    s.(users := RecordUser(s.users, chat, p, now))
  }

  /** A payload that starts with `p` agrees with `p` at position `k`. */
  lemma PrefixChar(data: string, p: string, k: nat)
    requires StartsWith(data, p) && k < |p|
    ensures k < |data| && data[k] == p[k]
  {
    assert data[..|p|][k] == data[k];
  }

  /**
   * The characters that tell the payload kinds apart: the dispatch tests them
   * in order, and these are the positions where the payloads first differ.
   */
  lemma PayloadHeads(data: string)
    ensures IsCategoryPayload(data) ==> |data| > 0 && (data[0] == 'o' || data[0] == 'p' || data[0] == 'n')
    ensures StartsWith(data, "show_") ==> |data| > 0 && data[0] == 's'
    ensures StartsWith(data, "edit_menu_") ==> |data| > 7 && data[0] == 'e' && data[5] == 'm' && data[7] == 'n'
    ensures StartsWith(data, "edit_title_") ==> |data| > 5 && data[0] == 'e' && data[5] == 't'
    ensures StartsWith(data, "edit_desc_") ==> |data| > 5 && data[0] == 'e' && data[5] == 'd'
    ensures StartsWith(data, "edit_media_") ==> |data| > 7 && data[0] == 'e' && data[5] == 'm' && data[7] == 'd'
    ensures StartsWith(data, "del_") ==> |data| > 0 && data[0] == 'd'
    ensures StartsWith(data, "add_cat_") ==> |data| > 2 && data[0] == 'a' && data[2] == 'd'
    ensures data == "admin_add" ==> |data| > 2 && data[0] == 'a' && data[2] == 'm'
    ensures data == "main_menu" ==> |data| > 0 && data[0] == 'm'
  {
    if StartsWith(data, "show_") { PrefixChar(data, "show_", 0); }
    if StartsWith(data, "edit_menu_") {
      PrefixChar(data, "edit_menu_", 0); PrefixChar(data, "edit_menu_", 5); PrefixChar(data, "edit_menu_", 7);
    }
    if StartsWith(data, "edit_title_") { PrefixChar(data, "edit_title_", 0); PrefixChar(data, "edit_title_", 5); }
    if StartsWith(data, "edit_desc_") { PrefixChar(data, "edit_desc_", 0); PrefixChar(data, "edit_desc_", 5); }
    if StartsWith(data, "edit_media_") {
      PrefixChar(data, "edit_media_", 0); PrefixChar(data, "edit_media_", 5); PrefixChar(data, "edit_media_", 7);
    }
    if StartsWith(data, "del_") { PrefixChar(data, "del_", 0); }
    if StartsWith(data, "add_cat_") { PrefixChar(data, "add_cat_", 0); PrefixChar(data, "add_cat_", 2); }
  }

  /** Which kind of press each payload prefix gives: the earlier tests cannot match it. */
  lemma ClassifyShow(data: string)
    requires StartsWith(data, "show_")
    ensures Classify(data) == OpenCard(ExtractId(data, "show_"))
  {
    PayloadHeads(data);
  }

  lemma ClassifyEditMenu(data: string)
    requires StartsWith(data, "edit_menu_")
    ensures Classify(data) == OpenEditMenu(ExtractId(data, "edit_menu_"))
  {
    PayloadHeads(data);
  }

  lemma ClassifyEditField(data: string, prefix: string, step: Step)
    requires || (prefix == "edit_title_" && step == EditWaitTitle)
             || (prefix == "edit_desc_" && step == EditWaitDesc)
             || (prefix == "edit_media_" && step == EditWaitMedia)
    requires StartsWith(data, prefix)
    ensures Classify(data) == StartFieldEdit(step, ExtractId(data, prefix))
  {
    PayloadHeads(data);
  }

  lemma ClassifyDelete(data: string)
    requires StartsWith(data, "del_")
    ensures Classify(data) == RemoveRecipe(ExtractId(data, "del_"))
  {
    PayloadHeads(data);
  }

  lemma ClassifyAddCategory(data: string)
    requires StartsWith(data, "add_cat_")
    ensures Classify(data) == StartAdd(ReplaceAll(data, "add_cat_"))
  {
    PayloadHeads(data);
  }

  lemma ClassifyAdminAdd(data: string)
    requires data == "admin_add"
    ensures Classify(data) == ChooseCategory
  {
    PayloadHeads(data);
  }

  // ---------------------------------------------------------------------------
  // User bookkeeping

  /**
   * Every button press and message leaves its chat in the Users table; a row
   * that existed is kept as it was (FirstVisit included) and no other row changes.
   */
  lemma SenderIsRecorded(s: State, u: Update, now: int)
    requires !u.OtherUpdate?
    ensures var p := if u.CallbackQuery? then u.from else u.chat;
      var users := HandleUpdate(s, u, now).state.users;
      && u.chatId in users
      && (u.chatId in s.users ==> users == s.users)
      && (u.chatId !in s.users ==> users == s.users[u.chatId := NewUser(u.chatId, p, now)])
  {
  }

  /** An update that is neither a press nor a message is ignored before anything is recorded. */
  lemma OtherUpdatesIgnored(s: State, now: int)
    ensures HandleUpdate(s, OtherUpdate, now) == Outcome(s, [], false)
  {
  }

  // ---------------------------------------------------------------------------
  // Button presses

  /** `edit_menu_`, `del_`, `add_cat_` and `admin_add` from any chat but the admin's do nothing at all. */
  lemma AdminOnlyButtonsDropped(s: State, chat: int, p: Profile, data: string, now: int)
    requires chat != AdminId
    requires StartsWith(data, "edit_menu_") || StartsWith(data, "del_") || StartsWith(data, "add_cat_") || data == "admin_add"
    ensures HandleUpdate(s, CallbackQuery(chat, p, data), now) == Outcome(Registered(s, chat, p, now), [], false)
  {
    if StartsWith(data, "edit_menu_") {
      ClassifyEditMenu(data);
    } else if StartsWith(data, "del_") {
      ClassifyDelete(data);
    } else if StartsWith(data, "add_cat_") {
      ClassifyAddCategory(data);
    } else {
      ClassifyAdminAdd(data);
    }
    assert Classify(data).AdminOnly();
  }

  /** No button press from a chat other than the admin's removes, adds or changes a recipe. */
  lemma NonAdminPressKeepsRecipes(s: State, chat: int, p: Profile, data: string, now: int)
    requires chat != AdminId
    ensures HandleUpdate(s, CallbackQuery(chat, p, data), now).state.recipes == s.recipes
  {
  }

  /** `show_<id>`: the card of an existing recipe, silence for an unknown or unparsable id. */
  lemma ShowPress(s: State, chat: int, p: Profile, data: string, now: int)
    requires StartsWith(data, "show_")
    ensures var id := ExtractId(data, "show_");
      HandleUpdate(s, CallbackQuery(chat, p, data), now) ==
        Outcome(Registered(s, chat, p, now),
                if id.Some? && id.value in s.recipes then [RecipeCard(chat, id.value, s.recipes[id.value])] else [],
                false)
  {
    ClassifyShow(data);
  }

  /** A payload without a digit never yields an id, whatever prefix is removed from it. */
  lemma NoDigitIdRejected(data: string, prefix: string)
    requires |prefix| > 0
    requires forall i :: 0 <= i < |data| ==> !IsDigit(data[i])
    ensures ExtractId(data, prefix) == None
  {
    var rest := ReplaceAll(data, prefix);
    forall i | 0 <= i < |rest| ensures !IsDigit(rest[i]) {
      var j :| 0 <= j < |data| && data[j] == rest[i];
    }
    NoDigitRejected(rest);
  }

  /** The admin's `edit_menu_x` throws: `int.Parse` finds no id, and only the user row was recorded. */
  lemma MalformedEditMenuPress(s: State, p: Profile, now: int)
    ensures HandleUpdate(s, CallbackQuery(AdminId, p, "edit_menu_x"), now) == Outcome(Registered(s, AdminId, p, now), [], true)
  {
    NoDigitIdRejected("edit_menu_x", "edit_menu_");
    StartsWithAppend("edit_menu_", "x");
    assert "edit_menu_x" == "edit_menu_" + "x";
    EditMenuPress(s, p, "edit_menu_x", now);
  }

  /** The admin's `del_abc` changes nothing: `int.TryParse` finds no id. */
  lemma MalformedDeletePress(s: State, p: Profile, now: int)
    ensures HandleUpdate(s, CallbackQuery(AdminId, p, "del_abc"), now) == Outcome(Registered(s, AdminId, p, now), [], false)
  {
    NoDigitIdRejected("del_abc", "del_");
    StartsWithAppend("del_", "abc");
    assert "del_abc" == "del_" + "abc";
    DeletePress(s, p, "del_abc", now);
  }

  /** The admin's `admin_add` offers the category choice and changes nothing but the user row. */
  lemma ChooseCategoryPress(s: State, p: Profile, now: int)
    ensures HandleUpdate(s, CallbackQuery(AdminId, p, "admin_add"), now) ==
      Outcome(Registered(s, AdminId, p, now), [AddCategoryMenu(AdminId)], false)
  {
    ClassifyAdminAdd("admin_add");
  }

  /** `main_menu` from any chat sends the main menu and changes nothing but the user row. */
  lemma MainMenuPress(s: State, chat: int, p: Profile, now: int)
    ensures HandleUpdate(s, CallbackQuery(chat, p, "main_menu"), now) ==
      Outcome(Registered(s, chat, p, now), [MainMenu(chat)], false)
  {
    PayloadHeads("main_menu");
  }

  /** Pressing a recipe's button of a category list opens exactly that recipe. */
  lemma ListedButtonOpensRecipe(s: State, chat: int, p: Profile, id: int, now: int)
    requires id in s.recipes && InInt32(id)
    ensures HandleUpdate(s, CallbackQuery(chat, p, "show_" + IntToString(id)), now).out == [RecipeCard(chat, id, s.recipes[id])]
  {
    var data := "show_" + IntToString(id);
    ExtractAfterPrefix("show_", id);
    assert StartsWith(data, "show_");
    ShowPress(s, chat, p, data, now);
  }

  /**
   * `Replace` drops every non-overlapping occurrence of the prefix, scanning
   * from left to right without scanning the result again, so a payload with
   * the prefix doubled still opens the recipe.
   */
  lemma DoubledPrefixAccepted(s: State, chat: int, p: Profile, id: int, now: int)
    requires id in s.recipes && InInt32(id)
    ensures HandleUpdate(s, CallbackQuery(chat, p, "show_show_" + IntToString(id)), now).out == [RecipeCard(chat, id, s.recipes[id])]
  {
    var data := "show_show_" + IntToString(id);
    assert data == "show_" + ("show_" + IntToString(id));
    ReplaceAllLeading("show_", "show_" + IntToString(id));
    ExtractAfterPrefix("show_", id);
    assert StartsWith(data, "show_");
    ShowPress(s, chat, p, data, now);
  }

  /** The back button of a card re-lists the card's category when that is one of the three. */
  lemma BackButtonListsCategory(s: State, chat: int, p: Profile, r: Recipe, now: int)
    requires IsCategoryPayload(r.category)
    ensures HandleUpdate(s, CallbackQuery(chat, p, BackToList(r.category).payload), now).out
         == [RecipesList(s.recipes, chat, r.category)]
  {
    PayloadHeads(BackToList(r.category).payload);
  }

  /** `edit_menu_<id>` from the admin: the edit submenu, or an exception when the id does not parse. */
  lemma EditMenuPress(s: State, p: Profile, data: string, now: int)
    requires StartsWith(data, "edit_menu_")
    ensures var o := HandleUpdate(s, CallbackQuery(AdminId, p, data), now);
      var id := ExtractId(data, "edit_menu_");
      && o.state == Registered(s, AdminId, p, now)
      && (o.faulted <==> id.None?)
      && o.out == if id.None? then [] else [EditMenu(AdminId, id.value)]
  {
    ClassifyEditMenu(data);
  }

  /** The admin's edit button on a card opens the edit submenu of that recipe. */
  lemma CardEditButtonOpensMenu(s: State, p: Profile, id: int, now: int)
    requires InInt32(id)
    ensures HandleUpdate(s, CallbackQuery(AdminId, p, EditButton(id).payload), now) ==
      Outcome(Registered(s, AdminId, p, now), [EditMenu(AdminId, id)], false)
  {
    ExtractAfterPrefix("edit_menu_", id);
    EditMenuPress(s, p, EditButton(id).payload, now);
  }

  /**
   * `edit_title_<id>`, `edit_desc_<id>`, `edit_media_<id>` from ANY chat open
   * the matching edit session for that chat (there is no admin test), or
   * throw when the id does not parse; recipes are untouched either way.
   */
  lemma EditFieldPress(s: State, chat: int, p: Profile, data: string, prefix: string, step: Step, now: int)
    requires || (prefix == "edit_title_" && step == EditWaitTitle)
             || (prefix == "edit_desc_" && step == EditWaitDesc)
             || (prefix == "edit_media_" && step == EditWaitMedia)
    requires StartsWith(data, prefix)
    ensures var o := HandleUpdate(s, CallbackQuery(chat, p, data), now);
      var s1 := Registered(s, chat, p, now);
      var id := ExtractId(data, prefix);
      && (o.faulted <==> id.None?)
      && o.state.recipes == s.recipes
      && (id.None? ==> o.state == s1 && o.out == [])
      && (id.Some? ==> o.state == s1.(sessions := s1.sessions[chat := UserSession(step, "", "", id.value)])
                       && o.out == [SendText(chat, EditPrompt(step), [])])
  {
    ClassifyEditField(data, prefix, step);
  }

  /** Each button of the edit submenu of a recipe opens its own step for that recipe; the last one goes back to the card. */
  lemma EditMenuButtonsOpenSteps(chat: int, id: int)
    requires InInt32(id)
    ensures var kb := EditMenu(chat, id).markup;
      && Classify(kb[0][0].payload) == StartFieldEdit(EditWaitTitle, Some(id))
      && Classify(kb[1][0].payload) == StartFieldEdit(EditWaitDesc, Some(id))
      && Classify(kb[2][0].payload) == StartFieldEdit(EditWaitMedia, Some(id))
      && Classify(kb[3][0].payload) == OpenCard(Some(id))
  {
    var n := IntToString(id);
    StartsWithAppend("edit_title_", n);
    ExtractAfterPrefix("edit_title_", id);
    ClassifyEditField("edit_title_" + n, "edit_title_", EditWaitTitle);
    StartsWithAppend("edit_desc_", n);
    ExtractAfterPrefix("edit_desc_", id);
    ClassifyEditField("edit_desc_" + n, "edit_desc_", EditWaitDesc);
    StartsWithAppend("edit_media_", n);
    ExtractAfterPrefix("edit_media_", id);
    ClassifyEditField("edit_media_" + n, "edit_media_", EditWaitMedia);
    StartsWithAppend("show_", n);
    ExtractAfterPrefix("show_", id);
    ClassifyShow("show_" + n);
  }

  /** The admin's delete: the recipe goes, the rest stay, and its category is listed again. */
  lemma RemovalByAdmin(s: State, id: Option<int>)
    ensures OnPress(s, AdminId, RemoveRecipe(id)) ==
      if id.Some? && id.value in s.recipes then
        Outcome(s.(recipes := s.recipes - {id.value}),
                [SendText(AdminId, Deleted, []), RecipesList(s.recipes - {id.value}, AdminId, s.recipes[id.value].category)],
                false)
      else Outcome(s, [], false)
  {
  }

  /**
   * `del_<id>` from the admin removes exactly recipe `id`, keeps every other
   * recipe and the sessions, and re-lists the removed recipe's category; an
   * unknown or unparsable id changes nothing and sends nothing.
   */
  lemma DeletePress(s: State, p: Profile, data: string, now: int)
    requires StartsWith(data, "del_")
    ensures var o := HandleUpdate(s, CallbackQuery(AdminId, p, data), now);
      var s1 := Registered(s, AdminId, p, now);
      var id := ExtractId(data, "del_");
      && !o.faulted
      && (id.Some? && id.value in s.recipes ==>
            && o.state == s1.(recipes := s.recipes - {id.value})
            && (forall k :: k in o.state.recipes <==> k in s.recipes && k != id.value)
            && (forall k :: k in o.state.recipes ==> o.state.recipes[k] == s.recipes[k])
            && o.out == [SendText(AdminId, Deleted, []),
                         RecipesList(o.state.recipes, AdminId, s.recipes[id.value].category)])
      && (!(id.Some? && id.value in s.recipes) ==> o.state == s1 && o.out == [])
  {
    ClassifyDelete(data);
    var s1 := Registered(s, AdminId, p, now);
    RemovalByAdmin(s1, ExtractId(data, "del_"));
  }

  /**
   * After the admin deletes recipe `id` with its card's button, the list that
   * follows no longer offers it and still offers every other recipe of its category.
   */
  lemma DeletedRecipeLeavesListing(s: State, p: Profile, id: int, now: int)
    requires id in s.recipes && InInt32(id)
    ensures var o := HandleUpdate(s, CallbackQuery(AdminId, p, DeleteButton(id).payload), now);
      && |o.out| == 2
      && !HasPayload(o.out[1].markup, "show_" + IntToString(id))
      && forall k :: k in s.recipes && k != id && s.recipes[k].category == s.recipes[id].category ==>
           HasPayload(o.out[1].markup, "show_" + IntToString(k))
  {
    var data := DeleteButton(id).payload;
    ExtractAfterPrefix("del_", id);
    assert StartsWith(data, "del_");
    DeletePress(s, p, data, now);
    var o := HandleUpdate(s, CallbackQuery(AdminId, p, data), now);
    var category := s.recipes[id].category;
    RecipesListOffers(o.state.recipes, AdminId, category, id);
    forall k | k in s.recipes && k != id && s.recipes[k].category == category
      ensures HasPayload(o.out[1].markup, "show_" + IntToString(k))
    {
      RecipesListOffers(o.state.recipes, AdminId, category, k);
    }
  }

  /** `add_cat_<c>` from the admin opens a title session for category `c` (every `add_cat_` removed). */
  lemma AddCategoryPress(s: State, p: Profile, data: string, now: int)
    requires StartsWith(data, "add_cat_")
    ensures var o := HandleUpdate(s, CallbackQuery(AdminId, p, data), now);
      var s1 := Registered(s, AdminId, p, now);
      var category := ReplaceAll(data, "add_cat_");
      && o.state == s1.(sessions := s1.sessions[AdminId := UserSession(WaitTitle, category, "", 0)])
      && o.out == [SendText(AdminId, AskTitleFor(category), [])]
      && !o.faulted
  {
    ClassifyAddCategory(data);
  }

  /** Each button of the category choice starts the dialogue for its category. */
  lemma AddCategoryButtonsStartAdd(chat: int)
    ensures var kb := AddCategoryMenu(chat).markup;
      && Classify(kb[0][0].payload) == StartAdd("pan")
      && Classify(kb[0][1].payload) == StartAdd("oven")
      && Classify(kb[1][0].payload) == StartAdd("no_cook")
  {
    StartsWithAppend("add_cat_", "pan");
    ReplaceAllLeading("add_cat_", "pan");
    assert ReplaceAll("pan", "add_cat_") == "pan";
    ClassifyAddCategory("add_cat_" + "pan");
    StartsWithAppend("add_cat_", "oven");
    ReplaceAllLeading("add_cat_", "oven");
    ReplaceAllAbsent("oven", "add_cat_");
    ClassifyAddCategory("add_cat_" + "oven");
    StartsWithAppend("add_cat_", "no_cook");
    ReplaceAllLeading("add_cat_", "no_cook");
    ReplaceAllAbsent("no_cook", "add_cat_");
    ClassifyAddCategory("add_cat_" + "no_cook");
  }

  // ---------------------------------------------------------------------------
  // The add-recipe dialogue

  /**
   * `WaitTitle`: a missing or empty text re-prompts and changes nothing; a
   * non-empty text becomes the title and the session moves to `WaitContent`
   * with its category kept. No recipe is created or changed.
   */
  lemma TitleStep(s: State, chat: int, p: Profile, m: Message, now: int)
    requires chat in s.sessions && s.sessions[chat].step == WaitTitle
    ensures var o := HandleUpdate(s, MessageUpdate(chat, p, m), now);
      var s1 := Registered(s, chat, p, now);
      var session := s.sessions[chat];
      && !o.faulted && o.state.recipes == s.recipes
      && (m.text.None? || m.text == Some("") ==>
            o.state == s1 && o.out == [SendText(chat, AskTitleAsText, [])])
      && (m.text.Some? && m.text.value != "" ==>
            && o.state == s1.(sessions := s1.sessions[chat := UserSession(WaitContent, session.category, m.text.value, session.editingRecipeId)])
            && o.out == [SendText(chat, AskContent, [])])
  {
    IsEditSteps(WaitTitle);
  }

  /**
   * The recipe built in the `WaitContent` step: a photo wins over a video,
   * which wins over text; media recipes take the caption (or "") as
   * description and keep the handle; the title and category come from the session.
   */
  lemma ContentPriority(session: UserSession, m: Message)
    ensures var r := ContentRecipe(session, m);
      && (r.Some? <==> m.photo.Some? || m.video.Some? || m.text.Some?)
      && (r.Some? ==> r.value.title == session.tempTitle && r.value.category == session.category
                      && MediaConsistent(r.value))
      && (m.photo.Some? ==> r.value.mediaType == Photo && r.value.fileId == m.photo
                            && r.value.description == m.caption.GetOr(""))
      && (m.photo.None? && m.video.Some? ==> r.value.mediaType == Video && r.value.fileId == m.video
                                             && r.value.description == m.caption.GetOr(""))
      && (m.photo.None? && m.video.None? && m.text.Some? ==>
            r.value.mediaType == Text && r.value.fileId.None? && r.value.description == m.text.value)
  {
  }

  /**
   * `WaitContent`: content stores the recipe under a fresh id, ends the
   * session and re-lists the category; a message with no photo, video or
   * text does nothing.
   */
  lemma ContentStep(s: State, chat: int, p: Profile, m: Message, now: int)
    requires WellFormed(s)
    requires chat in s.sessions && s.sessions[chat].step == WaitContent
    ensures var o := HandleUpdate(s, MessageUpdate(chat, p, m), now);
      var s1 := Registered(s, chat, p, now);
      var r := ContentRecipe(s.sessions[chat], m);
      && !o.faulted
      && (r.None? ==> o.state == s1 && o.out == [])
      && (r.Some? ==>
            && s.nextId !in s.recipes
            && o.state.recipes == s.recipes[s.nextId := r.value]
            && o.state.nextId == s.nextId + 1
            && o.state.sessions == s.sessions - {chat}
            && o.out == [SendText(chat, RecipeSaved, []), RecipesList(o.state.recipes, chat, r.value.category)])
  {
    IsEditSteps(WaitContent);
  }

  // ---------------------------------------------------------------------------
  // The edit dialogue

  /** An edit session for a recipe that no longer exists ends with a not-found reply. */
  lemma EditTargetMissing(s: State, chat: int, p: Profile, m: Message, now: int)
    requires chat in s.sessions && IsEdit(s.sessions[chat].step)
    requires s.sessions[chat].editingRecipeId !in s.recipes
    ensures var o := HandleUpdate(s, MessageUpdate(chat, p, m), now);
      var s1 := Registered(s, chat, p, now);
      o == Outcome(s1.(sessions := s1.sessions - {chat}), [SendText(chat, RecipeNotFound, [])], false)
  {
  }

  /**
   * `EditWaitTitle` and `EditWaitDesc` set only the title, or only the
   * description, to the text (or ""), end the session and show the main menu.
   */
  lemma EditTextStep(s: State, chat: int, p: Profile, m: Message, now: int)
    requires chat in s.sessions
    requires s.sessions[chat].step == EditWaitTitle || s.sessions[chat].step == EditWaitDesc
    requires s.sessions[chat].editingRecipeId in s.recipes
    ensures var o := HandleUpdate(s, MessageUpdate(chat, p, m), now);
      var id := s.sessions[chat].editingRecipeId;
      var before := s.recipes[id];
      var after := o.state.recipes[id];
      && !o.faulted
      && id in o.state.recipes
      && (forall k :: k in o.state.recipes <==> k in s.recipes)
      && (forall k :: k in s.recipes && k != id ==> o.state.recipes[k] == s.recipes[k])
      && after.category == before.category && after.mediaType == before.mediaType && after.fileId == before.fileId
      && (s.sessions[chat].step == EditWaitTitle ==>
            after.title == m.text.GetOr("") && after.description == before.description)
      && (s.sessions[chat].step == EditWaitDesc ==>
            after.description == m.text.GetOr("") && after.title == before.title)
      && o.state.sessions == s.sessions - {chat}
      && o.out == [SendText(chat, EditAck(s.sessions[chat].step), []), MainMenu(chat)]
  {
    IsEditSteps(s.sessions[chat].step);
  }

  /**
   * `EditWaitMedia`: a photo (before a video) replaces media type and handle,
   * and the description only when a caption comes with it; a message with
   * neither keeps the session and the recipe and asks again.
   */
  lemma EditMediaStep(s: State, chat: int, p: Profile, m: Message, now: int)
    requires chat in s.sessions && s.sessions[chat].step == EditWaitMedia
    requires s.sessions[chat].editingRecipeId in s.recipes
    ensures var o := HandleUpdate(s, MessageUpdate(chat, p, m), now);
      var s1 := Registered(s, chat, p, now);
      var id := s.sessions[chat].editingRecipeId;
      var before := s.recipes[id];
      && !o.faulted
      && (m.photo.None? && m.video.None? ==> o.state == s1 && o.out == [SendText(chat, NeedMedia, [])])
      && (m.photo.Some? || m.video.Some? ==>
            && o.state.recipes == s.recipes[id := o.state.recipes[id]]
            && o.state.recipes[id].title == before.title
            && o.state.recipes[id].category == before.category
            && o.state.recipes[id].mediaType == (if m.photo.Some? then Photo else Video)
            && o.state.recipes[id].fileId == (if m.photo.Some? then m.photo else m.video)
            && o.state.recipes[id].description == m.caption.GetOr(before.description)
            && o.state.sessions == s.sessions - {chat}
            && o.out == [SendText(chat, MediaUpdated, []), MainMenu(chat)])
  {
    IsEditSteps(EditWaitMedia);
  }

  // ---------------------------------------------------------------------------
  // Sessions before keywords

  /** The replies only the keyword handling produces: the fallback, the category choice of `/add`, the `/users` report. */
  predicate KeywordReply(o: Outbound) {
    o.SendText? && (o.text == NotUnderstood || o.text == AskWhere || StartsWith(o.text, "📊"))
  }

  lemma NotKeywordText(o: Outbound, head: char)
    requires o.SendText? ==> |o.text| > 0 && o.text[0] == head
    requires head != 'Я' && head != 'К' && head != '📊'
    ensures !KeywordReply(o)
  {
    assert NotUnderstood[0] == 'Я' && AskWhere[0] == 'К';
  }

  /** No reply of an edit step is a keyword reply. */
  lemma EditRepliesNotKeyword(s: State, chat: int, session: UserSession, m: Message)
    ensures var out := OnEditMessage(s, chat, session, m).out;
      forall i :: 0 <= i < |out| ==> !KeywordReply(out[i])
  {
    var out := OnEditMessage(s, chat, session, m).out;
    var id := session.editingRecipeId;
    if id !in s.recipes {
      assert out == [SendText(chat, RecipeNotFound, [])];
      NotKeywordText(out[0], 'О');
    } else if EditedRecipe(session.step, s.recipes[id], m).None? {
      assert out == [SendText(chat, NeedMedia, [])];
      NotKeywordText(out[0], 'Н');
    } else {
      assert out == [SendText(chat, EditAck(session.step), []), MainMenu(chat)];
      NotKeywordText(out[0], '✅');
      NotKeywordText(out[1], '✅');
    }
  }

  /** The title step answers with a plain text that is no keyword reply. */
  lemma TitleRepliesNotKeyword(s: State, chat: int, session: UserSession, m: Message)
    ensures var out := OnTitleMessage(s, chat, session, m).out;
      |out| == 1 && out[0].SendText? && !KeywordReply(out[0])
  {
    var out := OnTitleMessage(s, chat, session, m).out;
    if m.text.None? || m.text.value == "" {
      assert out == [SendText(chat, AskTitleAsText, [])];
      NotKeywordText(out[0], 'П');
    } else {
      assert out == [SendText(chat, AskContent, [])];
      NotKeywordText(out[0], 'Т');
    }
  }

  /** The content step answers with the confirmation and the category list, or not at all. */
  lemma ContentRepliesNotKeyword(s: State, chat: int, session: UserSession, m: Message)
    ensures var out := OnContentMessage(s, chat, session, m).out;
      forall i :: 0 <= i < |out| ==> out[i].SendText? && !KeywordReply(out[i])
  {
    var out := OnContentMessage(s, chat, session, m).out;
    if ContentRecipe(session, m).Some? {
      var r := ContentRecipe(session, m).value;
      assert out == [SendText(chat, RecipeSaved, []), RecipesList(s.recipes[s.nextId := r], chat, r.category)];
      NotKeywordText(out[0], '✅');
      NotKeywordText(out[1], '📂');
    }
  }

  /**
   * While a chat has a session, its next message is consumed by the session:
   * no `/users`, `/add` or fallback reply is produced, whatever the text, and
   * the main menu appears only after a completed edit.
   */
  lemma SessionBeforeKeywords(s: State, chat: int, p: Profile, m: Message, now: int)
    requires chat in s.sessions
    ensures var o := HandleUpdate(s, MessageUpdate(chat, p, m), now);
      && (forall i :: 0 <= i < |o.out| ==> !KeywordReply(o.out[i]))
      && (!IsEdit(s.sessions[chat].step) ==> forall i :: 0 <= i < |o.out| ==> !o.out[i].SendPhoto?)
  {
    var s1 := Registered(s, chat, p, now);
    var session := s1.sessions[chat];
    IsEditSteps(session.step);
    if IsEdit(session.step) {
      EditRepliesNotKeyword(s1, chat, session, m);
    } else if session.step == WaitTitle {
      TitleRepliesNotKeyword(s1, chat, session, m);
    } else {
      ContentRepliesNotKeyword(s1, chat, session, m);
    }
  }

  /** A text that mentions /menu (in any case) is answered with the main menu. */
  lemma MenuText(s: State, chat: int, t: string)
    requires Contains(ToLower(t), "/menu")
    ensures OnKeyword(s, chat, Message(Some(t), None, None, None)) == [MainMenu(chat)]
  {
    var lower := ToLower(t);
    ContainsChar(lower, "/menu", 1);
    assert "/menu"[1] == 'm';
    CharTellsApart(lower, "/users", 'm');
    CharTellsApart(lower, "/add", 'm');
    assert Some(lower) != Some("/users") && Some(lower) != Some("/add");
  }

  /** Without a session, a text that mentions /menu (in any case) brings the main menu. */
  lemma MenuKeyword(s: State, chat: int, p: Profile, t: string, now: int)
    requires chat !in s.sessions
    requires Contains(ToLower(t), "/menu")
    ensures var o := HandleUpdate(s, MessageUpdate(chat, p, Message(Some(t), None, None, None)), now);
      && o.state == Registered(s, chat, p, now) && !o.faulted
      && o.out == [MainMenu(chat)]
  {
    MenuText(Registered(s, chat, p, now), chat, t);
  }

  /** `/users` and `/add` from a chat other than the admin's: the fallback reply, or nothing. */
  lemma AdminKeywordsText(s: State, chat: int, t: string)
    requires chat != AdminId
    requires ToLower(t) == "/users" || ToLower(t) == "/add"
    ensures OnKeyword(s, chat, Message(Some(t), None, None, None)) ==
      if ToLower(t) == "/users" then [SendText(chat, NotUnderstood, [])] else []
  {
    var lower := ToLower(t);
    assert 'm' !in lower && 'п' !in lower;
    assert "/menu"[1] == 'm' && "привет"[0] == 'п';
    NotContainsMissingChar(lower, "/menu", 1);
    NotContainsMissingChar(lower, "привет", 0);
  }

  /** Without a session, `/users` and `/add` from a chat other than the admin's never reach the admin handlers. */
  lemma AdminKeywordsIgnoredForOthers(s: State, chat: int, p: Profile, t: string, now: int)
    requires chat != AdminId && chat !in s.sessions
    requires ToLower(t) == "/users" || ToLower(t) == "/add"
    ensures var o := HandleUpdate(s, MessageUpdate(chat, p, Message(Some(t), None, None, None)), now);
      && o.state == Registered(s, chat, p, now)
      && (ToLower(t) == "/users" ==> o.out == [SendText(chat, NotUnderstood, [])])
      && (ToLower(t) == "/add" ==> o.out == [])
  {
    AdminKeywordsText(Registered(s, chat, p, now), chat, t);
  }

  /** `/users` (in any case) from the admin is answered with the report of every user, in key order. */
  lemma AdminUsersText(s: State, m: Message)
    requires m.text.Some? && ToLower(m.text.value) == "/users"
    ensures OnKeyword(s, AdminId, m) == [SendText(AdminId, UsersReport(UsersInOrder(s.users)), [])]
  {
  }

  /** Without a session, the admin's `/users` reports every user, the sender included. */
  lemma AdminUsersKeyword(s: State, p: Profile, m: Message, now: int)
    requires AdminId !in s.sessions
    requires m.text.Some? && ToLower(m.text.value) == "/users"
    ensures var o := HandleUpdate(s, MessageUpdate(AdminId, p, m), now);
      var s1 := Registered(s, AdminId, p, now);
      && o.state == s1 && !o.faulted
      && o.out == [SendText(AdminId, UsersReport(UsersInOrder(s1.users)), [])]
  {
    AdminUsersText(Registered(s, AdminId, p, now), m);
  }

  /** `/add` (in any case) from the admin offers the category choice. */
  lemma AdminAddText(s: State, m: Message)
    requires m.text.Some? && ToLower(m.text.value) == "/add"
    ensures OnKeyword(s, AdminId, m) == [AddCategoryMenu(AdminId)]
  {
    var lower := ToLower(m.text.value);
    assert lower[1] == 'a';
    assert "/users"[1] == 'u';
  }

  /** Without a session, the admin's `/add` offers the category choice and changes nothing else. */
  lemma AdminAddKeyword(s: State, p: Profile, m: Message, now: int)
    requires AdminId !in s.sessions
    requires m.text.Some? && ToLower(m.text.value) == "/add"
    ensures var o := HandleUpdate(s, MessageUpdate(AdminId, p, m), now);
      && o.state == Registered(s, AdminId, p, now) && !o.faulted
      && o.out == [AddCategoryMenu(AdminId)]
  {
    AdminAddText(Registered(s, AdminId, p, now), m);
  }

  /** A text that mentions привет (in any case) is answered with the main menu. */
  lemma GreetingText(s: State, chat: int, m: Message)
    requires m.text.Some? && Contains(ToLower(m.text.value), "привет")
    ensures OnKeyword(s, chat, m) == [MainMenu(chat)]
  {
    var lower := ToLower(m.text.value);
    ContainsChar(lower, "привет", 0);
    assert "привет"[0] == 'п';
    CharTellsApart(lower, "/users", 'п');
    CharTellsApart(lower, "/add", 'п');
    assert Some(lower) != Some("/users") && Some(lower) != Some("/add");
  }

  /** Without a session, a greeting brings the main menu, from any chat. */
  lemma GreetingKeyword(s: State, chat: int, p: Profile, m: Message, now: int)
    requires chat !in s.sessions
    requires m.text.Some? && Contains(ToLower(m.text.value), "привет")
    ensures var o := HandleUpdate(s, MessageUpdate(chat, p, m), now);
      && o.state == Registered(s, chat, p, now) && !o.faulted
      && o.out == [MainMenu(chat)]
  {
    GreetingText(Registered(s, chat, p, now), chat, m);
  }

  /** A message none of the keyword tests accepts: no text, or a text that is no keyword for this chat. */
  predicate MatchesNoKeyword(chat: int, m: Message) {
    m.text.None? ||
    var lower := ToLower(m.text.value);
    && !(lower == "/users" && chat == AdminId) && lower != "/add"
    && !Contains(lower, "/menu") && !Contains(lower, "привет")
  }

  /** Such a message gets the fallback reply. */
  lemma FallbackText(s: State, chat: int, m: Message)
    requires MatchesNoKeyword(chat, m)
    ensures OnKeyword(s, chat, m) == [SendText(chat, NotUnderstood, [])]
  {
  }

  /** Without a session, such a message gets the fallback reply, from any chat. */
  lemma FallbackKeyword(s: State, chat: int, p: Profile, m: Message, now: int)
    requires chat !in s.sessions
    requires MatchesNoKeyword(chat, m)
    ensures var o := HandleUpdate(s, MessageUpdate(chat, p, m), now);
      && o.state == Registered(s, chat, p, now) && !o.faulted
      && o.out == [SendText(chat, NotUnderstood, [])]
  {
    FallbackText(Registered(s, chat, p, now), chat, m);
  }

  // ---------------------------------------------------------------------------
  // The invariant

  lemma PressPreservesWellFormed(s: State, chat: int, data: string)
    requires WellFormed(s)
    ensures WellFormed(OnCallback(s, chat, data).state)
  {
  }

  lemma EditPreservesWellFormed(s: State, chat: int, session: UserSession, m: Message)
    requires WellFormed(s)
    ensures WellFormed(OnEditMessage(s, chat, session, m).state)
  {
    var id := session.editingRecipeId;
    if id in s.recipes {
      var e := EditedRecipe(session.step, s.recipes[id], m);
      if e.Some? {
        assert MediaConsistent(e.value);
      }
    }
  }

  lemma ContentPreservesWellFormed(s: State, chat: int, session: UserSession, m: Message)
    requires WellFormed(s)
    ensures WellFormed(OnContentMessage(s, chat, session, m).state)
  {
    var c := ContentRecipe(session, m);
    if c.Some? {
      assert MediaConsistent(c.value);
    }
  }

  lemma MessagePreservesWellFormed(s: State, chat: int, m: Message)
    requires WellFormed(s)
    ensures WellFormed(OnMessage(s, chat, m).state)
  {
    if chat in s.sessions {
      var session := s.sessions[chat];
      if IsEdit(session.step) {
        EditPreservesWellFormed(s, chat, session, m);
        assert OnMessage(s, chat, m) == OnEditMessage(s, chat, session, m);
      } else if session.step != WaitTitle {
        ContentPreservesWellFormed(s, chat, session, m);
        assert OnMessage(s, chat, m) == OnContentMessage(s, chat, session, m);
      }
    }
  }

  /** Every update keeps ids below the next id, media consistent and user rows keyed by their chat. */
  lemma StepPreservesWellFormed(s: State, u: Update, now: int)
    requires WellFormed(s)
    ensures WellFormed(HandleUpdate(s, u, now).state)
  {
    match u
    case OtherUpdate =>
    case CallbackQuery(chat, from, data) =>
      PressPreservesWellFormed(Registered(s, chat, from, now), chat, data);
    case MessageUpdate(chat, profile, m) =>
      MessagePreservesWellFormed(Registered(s, chat, profile, now), chat, m);
  }

  // ---------------------------------------------------------------------------
  // Whole dialogues

  /**
   * The admin presses `add_cat_pan`, sends "Pancakes", then a photo captioned
   * "Fluffy": the recipe is stored under the next id as a Pancakes photo in
   * category pan and the session is gone.
   */
  lemma AddRecipeDialogue(s: State, p: Profile, handle: string, t1: int, t2: int, t3: int)
    requires WellFormed(s)
    ensures var s1 := HandleUpdate(s, CallbackQuery(AdminId, p, "add_cat_pan"), t1).state;
      var s2 := HandleUpdate(s1, MessageUpdate(AdminId, p, Message(Some("Pancakes"), None, None, None)), t2).state;
      var s3 := HandleUpdate(s2, MessageUpdate(AdminId, p, Message(None, Some(handle), None, Some("Fluffy"))), t3).state;
      && AdminId in s1.sessions && s1.sessions[AdminId] == UserSession(WaitTitle, "pan", "", 0)
      && AdminId in s2.sessions && s2.sessions[AdminId] == UserSession(WaitContent, "pan", "Pancakes", 0)
      && s.nextId !in s.recipes
      && s3.recipes == s.recipes[s.nextId := Recipe("Pancakes", "Fluffy", "pan", Some(handle), Photo)]
      && AdminId !in s3.sessions
  {
    var data := "add_cat_pan";
    assert data == "add_cat_" + "pan";
    ReplaceAllLeading("add_cat_", "pan");
    assert ReplaceAll("pan", "add_cat_") == "pan";
    assert StartsWith(data, "add_cat_");
    AddCategoryPress(s, p, data, t1);
    var s1 := HandleUpdate(s, CallbackQuery(AdminId, p, data), t1).state;
    StepPreservesWellFormed(s, CallbackQuery(AdminId, p, data), t1);
    TitleStep(s1, AdminId, p, Message(Some("Pancakes"), None, None, None), t2);
    var s2 := HandleUpdate(s1, MessageUpdate(AdminId, p, Message(Some("Pancakes"), None, None, None)), t2).state;
    StepPreservesWellFormed(s1, MessageUpdate(AdminId, p, Message(Some("Pancakes"), None, None, None)), t2);
    ContentStep(s2, AdminId, p, Message(None, Some(handle), None, Some("Fluffy")), t3);
  }

  /**
   * In a title session an empty text and then "Omelette": the first keeps
   * the session as it was, the second moves it to `WaitContent` with that
   * title, and neither stores a recipe.
   */
  lemma EmptyThenTitle(s: State, chat: int, p: Profile, t1: int, t2: int)
    requires chat in s.sessions && s.sessions[chat].step == WaitTitle
    ensures var s1 := HandleUpdate(s, MessageUpdate(chat, p, Message(Some(""), None, None, None)), t1).state;
      var s2 := HandleUpdate(s1, MessageUpdate(chat, p, Message(Some("Omelette"), None, None, None)), t2).state;
      && s1.sessions == s.sessions && s1.recipes == s.recipes
      && s2.sessions[chat] == s.sessions[chat].(step := WaitContent, tempTitle := "Omelette")
      && s2.recipes == s.recipes
  {
    TitleStep(s, chat, p, Message(Some(""), None, None, None), t1);
    var s1 := HandleUpdate(s, MessageUpdate(chat, p, Message(Some(""), None, None, None)), t1).state;
    TitleStep(s1, chat, p, Message(Some("Omelette"), None, None, None), t2);
  }

  /**
   * The edit-field buttons carry no admin test: any chat that presses
   * `edit_title_<id>` for an existing recipe can then rename it.
   */
  lemma AnyChatCanRename(s: State, chat: int, p: Profile, id: int, title: string, t1: int, t2: int)
    requires id in s.recipes && InInt32(id)
    ensures var s1 := HandleUpdate(s, CallbackQuery(chat, p, "edit_title_" + IntToString(id)), t1).state;
      var s2 := HandleUpdate(s1, MessageUpdate(chat, p, Message(Some(title), None, None, None)), t2).state;
      && id in s2.recipes && s2.recipes[id] == s.recipes[id].(title := title)
  {
    var data := "edit_title_" + IntToString(id);
    ExtractAfterPrefix("edit_title_", id);
    assert StartsWith(data, "edit_title_");
    EditFieldPress(s, chat, p, data, "edit_title_", EditWaitTitle, t1);
    var s1 := HandleUpdate(s, CallbackQuery(chat, p, data), t1).state;
    EditTextStep(s1, chat, p, Message(Some(title), None, None, None), t2);
  }
}
