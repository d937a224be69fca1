/**
 * `HandleUpdateAsync` as a transition function: one Telegram update, the
 * state before it and the clock reading give the state after it, the replies
 * sent, and whether the handler stopped on an exception.
 */
module Engine {
  import opened Strings
  import opened Catalog
  import opened Views

  /** The sender's public names as Telegram reports them (either may be missing). */
  datatype Profile = Profile(username: Option<string>, firstName: Option<string>)

  /** The parts of a message the bot looks at; `photo` is the handle of its largest size. */
  datatype Message = Message(
    text: Option<string>,
    photo: Option<string>,
    video: Option<string>,
    caption: Option<string>)

  /**
   * An incoming update: a button press (the chat of the message that carries
   * the button, the presser's profile, the payload), a message (its chat and
   * the chat's profile), or anything else.
   */
  datatype Update =
    | CallbackQuery(chatId: int, from: Profile, data: string)
    | MessageUpdate(chatId: int, chat: Profile, message: Message)
    | OtherUpdate

  /**
   * The effect of one update. `faulted` is set when `int.Parse` threw: the
   * handler stops there, so nothing after the throw happens.
   */
  datatype Outcome = Outcome(state: State, out: seq<Outbound>, faulted: bool)

  function Reply(s: State, out: seq<Outbound>): Outcome {
    Outcome(s, out, false)
  }

  // ---------------------------------------------------------------------------
  // User bookkeeping

  /** The row stored for a first-time sender: a missing user name or first name gets its placeholder. */
  function NewUser(chatId: int, p: Profile, now: int): (u: BotUser)
    ensures u.chatId == chatId && u.firstVisit == now
    ensures u.username == (if p.username.Some? then p.username.value else "NoNick")
    ensures u.firstName == (if p.firstName.Some? then p.firstName.value else "NoName")
  {
    BotUser(chatId, p.username.GetOr("NoNick"), p.firstName.GetOr("NoName"), now)
  }

  /** Insert the sender unless a row for its chat already exists; an existing row is never changed. */
  function RecordUser(users: map<int, BotUser>, chatId: int, p: Profile, now: int): (r: map<int, BotUser>)
    ensures r.Keys == users.Keys + {chatId}
    ensures forall c :: c in users ==> r[c] == users[c]
    ensures chatId !in users ==> r[chatId] == NewUser(chatId, p, now)
  {
    if chatId in users then users else users[chatId := NewUser(chatId, p, now)]
  }

  // ---------------------------------------------------------------------------
  // Button presses

  /** `data.Replace(prefix, "")` followed by `int.TryParse` (or `int.Parse`, which throws on None). */
  function ExtractId(data: string, prefix: string): (r: Option<int>)
    requires |prefix| > 0
    ensures r.Some? ==> InInt32(r.value)
    ensures r.Some? ==> |ReplaceAll(data, prefix)| > 0
  {
    ParseInt32(ReplaceAll(data, prefix))
  }

  predicate IsCategoryPayload(data: string) {
    data == "oven" || data == "pan" || data == "no_cook"
  }

  /** `edit_title_`/`edit_desc_`/`edit_media_`: remember which recipe the next message edits. */
  function OpenEdit(s: State, chat: int, step: Step, id: Option<int>, prompt: string): (r: Outcome)
    ensures r.faulted <==> id.None?
    ensures id.None? ==> r.state == s && r.out == []
    ensures id.Some? ==>
      && r.state.recipes == s.recipes && r.state.users == s.users && r.state.nextId == s.nextId
      && r.state.sessions.Keys == s.sessions.Keys + {chat}
      && r.state.sessions[chat] == UserSession(step, "", "", id.value)
      && (forall c :: c in s.sessions && c != chat ==> r.state.sessions[c] == s.sessions[c])
      && r.out == [SendText(chat, prompt, [])]
  {
    if id.None? then Outcome(s, [], true)
    else Reply(s.(sessions := s.sessions[chat := UserSession(step, "", "", id.value)]), [SendText(chat, prompt, [])])
  }

  /** The prompt that opens each edit step. */
  function EditPrompt(step: Step): string {
    if step == EditWaitTitle then AskNewTitle
    else if step == EditWaitDesc then AskNewDescription
    else AskNewMedia
  }

  /** What a press asks for, as decided by the payload tests of the dispatch. */
  datatype Press =
    | ListCategory(category: string)
    | OpenCard(id: Option<int>)
    | OpenEditMenu(id: Option<int>)
    | StartFieldEdit(step: Step, id: Option<int>)
    | RemoveRecipe(id: Option<int>)
    | StartAdd(category: string)
    | ChooseCategory
    | BackToMain
    | Unrecognised
  {
    /** The kinds the handler serves to the admin's chat only. */
    predicate AdminOnly() {
      OpenEditMenu? || RemoveRecipe? || StartAdd? || ChooseCategory?
    }
  }

  /** The payload tests in the order the handler makes them; the first that matches decides. */
  function Classify(data: string): (r: Press)
    ensures r.ListCategory? <==> IsCategoryPayload(data)
    ensures r.StartFieldEdit? ==> r.step == EditWaitTitle || r.step == EditWaitDesc || r.step == EditWaitMedia
    ensures r.Unrecognised? ==>
      && !IsCategoryPayload(data) && data != "admin_add" && data != "main_menu"
      && !StartsWith(data, "show_") && !StartsWith(data, "edit_menu_") && !StartsWith(data, "edit_title_")
      && !StartsWith(data, "edit_desc_") && !StartsWith(data, "edit_media_") && !StartsWith(data, "del_")
      && !StartsWith(data, "add_cat_")
  {
    if IsCategoryPayload(data) then ListCategory(data)
    else if StartsWith(data, "show_") then OpenCard(ExtractId(data, "show_"))
    else if StartsWith(data, "edit_menu_") then OpenEditMenu(ExtractId(data, "edit_menu_"))
    else if StartsWith(data, "edit_title_") then StartFieldEdit(EditWaitTitle, ExtractId(data, "edit_title_"))
    else if StartsWith(data, "edit_desc_") then StartFieldEdit(EditWaitDesc, ExtractId(data, "edit_desc_"))
    else if StartsWith(data, "edit_media_") then StartFieldEdit(EditWaitMedia, ExtractId(data, "edit_media_"))
    else if StartsWith(data, "del_") then RemoveRecipe(ExtractId(data, "del_"))
    else if StartsWith(data, "add_cat_") then StartAdd(ReplaceAll(data, "add_cat_"))
    else if data == "admin_add" then ChooseCategory
    else if data == "main_menu" then BackToMain
    else Unrecognised
  }

  /**
   * What the handler does for a press: the admin-only kinds do nothing for
   * any other chat, before the id is parsed; `int.Parse` failing stops the update.
   */
  function OnPress(s: State, chat: int, p: Press): (r: Outcome)
    ensures r.state.users == s.users && r.state.nextId == s.nextId
    ensures r.faulted ==> r.state == s && r.out == []
    ensures forall id :: id in r.state.recipes ==> id in s.recipes && r.state.recipes[id] == s.recipes[id]
    ensures chat != AdminId ==> r.state.recipes == s.recipes
    ensures chat != AdminId && p.AdminOnly() ==> r == Outcome(s, [], false)
  {
    match p
    case ListCategory(category) => Reply(s, [RecipesList(s.recipes, chat, category)])
    case OpenCard(id) =>
      if id.Some? && id.value in s.recipes then Reply(s, [RecipeCard(chat, id.value, s.recipes[id.value])])
      else Reply(s, [])
    case OpenEditMenu(id) =>
      if chat != AdminId then Reply(s, [])
      else if id.None? then Outcome(s, [], true)
      else Reply(s, [EditMenu(chat, id.value)])
    case StartFieldEdit(step, id) => OpenEdit(s, chat, step, id, EditPrompt(step))
    case RemoveRecipe(id) =>
      if chat != AdminId then Reply(s, [])
      else if id.Some? && id.value in s.recipes then
        var category := s.recipes[id.value].category;
        var recipes := s.recipes - {id.value};
        Reply(s.(recipes := recipes), [SendText(chat, Deleted, []), RecipesList(recipes, chat, category)])
      else Reply(s, [])
    case StartAdd(category) =>
      if chat != AdminId then Reply(s, [])
      else Reply(s.(sessions := s.sessions[chat := UserSession(WaitTitle, category, "", 0)]),
                 [SendText(chat, AskTitleFor(category), [])])
    case ChooseCategory => if chat != AdminId then Reply(s, []) else Reply(s, [AddCategoryMenu(chat)])
    case BackToMain => Reply(s, [MainMenu(chat)])
    case Unrecognised => Reply(s, [])
  }

  /** The payload dispatch of a button press. */
  function OnCallback(s: State, chat: int, data: string): (r: Outcome)
    ensures r.state.users == s.users && r.state.nextId == s.nextId
    ensures r.faulted ==> r.state == s && r.out == []
    ensures chat != AdminId ==> r.state.recipes == s.recipes
  {
    OnPress(s, chat, Classify(data))
  }

  // ---------------------------------------------------------------------------
  // Messages while a session is open

  /** The recipe an `Edit*` step makes of `r`, or None when the message lacks what the step needs. */
  function EditedRecipe(step: Step, r: Recipe, m: Message): (e: Option<Recipe>)
    ensures e.None? <==> step != EditWaitTitle && step != EditWaitDesc && m.photo.None? && m.video.None?
    ensures e.Some? ==> e.value.category == r.category
    ensures e.Some? && step != EditWaitTitle ==> e.value.title == r.title
    ensures e.Some? && MediaConsistent(r) ==> MediaConsistent(e.value)
  {
    if step == EditWaitTitle then Some(r.(title := m.text.GetOr("")))
    else if step == EditWaitDesc then Some(r.(description := m.text.GetOr("")))
    else if m.photo.Some? then Some(r.(mediaType := Photo, fileId := m.photo, description := m.caption.GetOr(r.description)))
    else if m.video.Some? then Some(r.(mediaType := Video, fileId := m.video, description := m.caption.GetOr(r.description)))
    else None
  }

  function EditAck(step: Step): string {
    if step == EditWaitTitle then TitleUpdated
    else if step == EditWaitDesc then DescriptionUpdated
    else MediaUpdated
  }

  function OnEditMessage(s: State, chat: int, session: UserSession, m: Message): (r: Outcome)
    ensures r.state.users == s.users && r.state.nextId == s.nextId && !r.faulted
    ensures r.state.recipes.Keys == s.recipes.Keys
    ensures r.state == s || r.state.sessions == s.sessions - {chat}
  {
    var id := session.editingRecipeId;
    if id !in s.recipes then
      Reply(s.(sessions := s.sessions - {chat}), [SendText(chat, RecipeNotFound, [])])
    else
      match EditedRecipe(session.step, s.recipes[id], m)
      case None => Reply(s, [SendText(chat, NeedMedia, [])])
      case Some(r) =>
        Reply(s.(recipes := s.recipes[id := r], sessions := s.sessions - {chat}),
              [SendText(chat, EditAck(session.step), []), MainMenu(chat)])
  }

  function OnTitleMessage(s: State, chat: int, session: UserSession, m: Message): (r: Outcome)
    ensures r.state.recipes == s.recipes && r.state.users == s.users && r.state.nextId == s.nextId
    ensures |r.out| == 1
    ensures m.text.Some? && m.text.value != "" ==>
      chat in r.state.sessions && r.state.sessions[chat].step == WaitContent
      && r.state.sessions[chat].tempTitle == m.text.value && r.state.sessions[chat].category == session.category
  {
    if m.text.None? || m.text.value == "" then
      Reply(s, [SendText(chat, AskTitleAsText, [])])
    else
      Reply(s.(sessions := s.sessions[chat := session.(tempTitle := m.text.value, step := WaitContent)]),
            [SendText(chat, AskContent, [])])
  }

  /** The recipe the `WaitContent` step builds: photo before video before text. */
  function ContentRecipe(session: UserSession, m: Message): (r: Option<Recipe>)
    ensures r.Some? <==> m.photo.Some? || m.video.Some? || m.text.Some?
    ensures r.Some? ==> r.value.title == session.tempTitle && r.value.category == session.category && MediaConsistent(r.value)
  {
    if m.photo.Some? then Some(Recipe(session.tempTitle, m.caption.GetOr(""), session.category, m.photo, Photo))
    else if m.video.Some? then Some(Recipe(session.tempTitle, m.caption.GetOr(""), session.category, m.video, Video))
    else if m.text.Some? then Some(Recipe(session.tempTitle, m.text.value, session.category, None, Text))
    else None
  }

  function OnContentMessage(s: State, chat: int, session: UserSession, m: Message): (r: Outcome)
    ensures r.state.users == s.users && !r.faulted
    ensures r.out == [] ==> r.state == s
    ensures r.out != [] ==>
      && s.nextId in r.state.recipes
      && r.state.nextId == s.nextId + 1
      && chat !in r.state.sessions
  {
    match ContentRecipe(session, m)
    case None => Reply(s, [])
    case Some(r) =>
      var recipes := s.recipes[s.nextId := r];
      Reply(State(recipes, s.users, s.sessions - {chat}, s.nextId + 1),
            [SendText(chat, RecipeSaved, []), RecipesList(recipes, chat, r.category)])
  }

  // ---------------------------------------------------------------------------
  // Messages without a session

  function OnKeyword(s: State, chat: int, m: Message): (r: seq<Outbound>)
    ensures |r| <= 1
    ensures r == [] ==> chat != AdminId
  {
    var text := if m.text.Some? then Some(ToLower(m.text.value)) else None;
    if text == Some("/users") && chat == AdminId then
      [SendText(chat, UsersReport(UsersInOrder(s.users)), [])]
    else if text == Some("/add") then
      if chat != AdminId then [] else [AddCategoryMenu(chat)]
    else if text.Some? && (Contains(text.value, "/menu") || Contains(text.value, "привет")) then
      [MainMenu(chat)]
    else
      [SendText(chat, NotUnderstood, [])]
  }

  function OnMessage(s: State, chat: int, m: Message): (r: Outcome)
    ensures r.state.users == s.users && !r.faulted
  {
    if chat in s.sessions then
      var session := s.sessions[chat];
      if IsEdit(session.step) then OnEditMessage(s, chat, session, m)
      else if session.step == WaitTitle then OnTitleMessage(s, chat, session, m)
      else OnContentMessage(s, chat, session, m)
    else
      Reply(s, OnKeyword(s, chat, m))
  }

  // ---------------------------------------------------------------------------
  // The whole handler

  function HandleUpdate(s: State, u: Update, now: int): (r: Outcome)
    ensures u.OtherUpdate? ==> r == Outcome(s, [], false)
    ensures !u.OtherUpdate? ==> u.chatId in r.state.users
    ensures r.faulted ==> u.CallbackQuery? && r.out == []
  {
    match u
    case OtherUpdate => Reply(s, [])
    case CallbackQuery(chat, from, data) =>
      OnCallback(s.(users := RecordUser(s.users, chat, from, now)), chat, data)
    case MessageUpdate(chat, profile, m) =>
      OnMessage(s.(users := RecordUser(s.users, chat, profile, now)), chat, m)
  }
}
