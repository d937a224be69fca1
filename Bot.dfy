/**
 * `Program.HandleUpdateAsync` as the source runs it: the Users and Recipes
 * tables and `_userSessions` are fields that each update changes in place,
 * and the handler returns early exactly where the source does. Every method
 * is proved to do what `Engine` says one update does.
 */
module BotHost {
  import opened Strings
  import opened Catalog
  import opened Views
  import opened Engine
  import EngineProperties

  class Bot {
    /** `db.Recipes`, keyed by `Recipe.Id`. */
    var recipes: map<int, Recipe>
    /** `db.Users`, keyed by `BotUser.ChatId`. */
    var users: map<int, BotUser>
    /** `Program._userSessions`. */
    var sessions: map<int, UserSession>
    /** The id SQLite gives the next inserted recipe. */
    var nextId: int

    function Snapshot(): State
      reads this
    {
      State(recipes, users, sessions, nextId)
    }

    /** What every reachable store satisfies. */
    predicate Valid()
      reads this
    {
      WellFormed(Snapshot())
    }

    /** `EnsureCreated` on an empty database, with no session open. */
    constructor()
      ensures Snapshot() == Initial && Valid()
    {
      recipes := map[];
      users := map[];
      sessions := map[];
      nextId := 1;
    }

    /** `ShowRecipesList`: one button row per recipe of the category, oldest first, then the way back. */
    method ShowRecipesList(chat: int, category: string) returns (msg: Outbound)
      ensures msg == RecipesList(recipes, chat, category)
    {
      var ids := RecipesIn(recipes, category);
      var rows: Keyboard := [];
      for i := 0 to |ids|
        invariant |rows| == i
        invariant forall k :: 0 <= k < i ==> rows[k] == [ShowButton(recipes, ids[k])]
      {
        rows := rows + [[Button(recipes[ids[i]].title, "show_" + IntToString(ids[i]))]];
      }
      assert rows == ListRows(recipes, ids);
      rows := rows + [[BackToMenu]];
      msg := SendText(chat, "📂 " + CategoryLabel(category), rows);
    }

    /** The `/users` reply: the count, then one line per stored user in the order the table returns them. */
    method UsersResponse() returns (response: string)
      ensures response == UsersReport(UsersInOrder(users))
    {
      response := Report(UsersInOrder(users));
    }

    /** `response += ...` for each user of the list. */
    static method Report(all: seq<BotUser>) returns (response: string)
      ensures response == UsersReport(all)
    {
      response := ReportHeader(|all|);
      for i := 0 to |all|
        invariant response == ReportHeader(|all|) + UserLines(all[..i])
      {
        ReportGrows(ReportHeader(|all|), all, i, response);
        response := response + UserLine(all[i]);
      }
      assert all[..|all|] == all;
    }

    /** `HandleUpdateAsync`. */
    method HandleUpdate(u: Update, now: int) returns (out: seq<Outbound>, faulted: bool)
      modifies this
      ensures var o := Engine.HandleUpdate(old(Snapshot()), u, now);
        Snapshot() == o.state && out == o.out && faulted == o.faulted
      ensures old(Valid()) ==> Valid()
    {
      if Valid() {
        EngineProperties.StepPreservesWellFormed(Snapshot(), u, now);
      }
      out, faulted := [], false;
      if u.OtherUpdate? {
        return;
      }
      var chat := u.chatId;
      var profile := if u.CallbackQuery? then u.from else u.chat;
      if chat !in users {
        users := users[chat := NewUser(chat, profile, now)];
      }
      if u.CallbackQuery? {
        out, faulted := HandleCallback(chat, u.data);
        return;
      }
      out := HandleMessage(chat, u.message);
    }

    /** The callback branch: the kind of press decides; `int.Parse` failing stops the update. */
    method HandleCallback(chat: int, data: string) returns (out: seq<Outbound>, faulted: bool)
      modifies this
      ensures var o := OnCallback(old(Snapshot()), chat, data);
        Snapshot() == o.state && out == o.out && faulted == o.faulted
    {
      out, faulted := ApplyPress(chat, Classify(data));
    }

    /** One kind of press, acted on in place; the admin-only kinds return early for any other chat. */
    method ApplyPress(chat: int, press: Press) returns (out: seq<Outbound>, faulted: bool)
      modifies this
      ensures var o := OnPress(old(Snapshot()), chat, press);
        Snapshot() == o.state && out == o.out && faulted == o.faulted
    {
      out, faulted := [], false;
      match press
      case ListCategory(category) =>
        var list := ShowRecipesList(chat, category);
        return [list], false;
      case OpenCard(id) =>
        if id.Some? && id.value in recipes {
          return [RecipeCard(chat, id.value, recipes[id.value])], false;
        }
      case OpenEditMenu(id) =>
        if chat != AdminId {
          return;
        }
        if id.None? {
          faulted := true;
          return;
        }
        out := [EditMenu(chat, id.value)];
      case StartFieldEdit(step, id) =>
        out, faulted := StartEdit(chat, step, id, EditPrompt(step));
      case RemoveRecipe(id) =>
        if chat != AdminId {
          return;
        }
        if id.Some? && id.value in recipes {
          var category := recipes[id.value].category;
          recipes := recipes - {id.value};
          var list := ShowRecipesList(chat, category);
          return [SendText(chat, Deleted, []), list], false;
        }
      case StartAdd(category) =>
        if chat != AdminId {
          return;
        }
        sessions := sessions[chat := UserSession(WaitTitle, category, "", 0)];
        return [SendText(chat, AskTitleFor(category), [])], false;
      case ChooseCategory =>
        if chat != AdminId {
          return;
        }
        out := [AddCategoryMenu(chat)];
      case BackToMain =>
        out := [MainMenu(chat)];
      case Unrecognised =>
    }

    /** `_userSessions[chat] = new UserSession { Step = step, EditingRecipeId = int.Parse(...) }`. */
    method StartEdit(chat: int, step: Step, id: Option<int>, prompt: string) returns (out: seq<Outbound>, faulted: bool)
      modifies this
      ensures var o := OpenEdit(old(Snapshot()), chat, step, id, prompt);
        Snapshot() == o.state && out == o.out && faulted == o.faulted
    {
      if id.None? {
        return [], true;
      }
      sessions := sessions[chat := UserSession(step, "", "", id.value)];
      out, faulted := [SendText(chat, prompt, [])], false;
    }

    /** The message branch: an open session takes the message; otherwise the keywords. */
    method HandleMessage(chat: int, m: Message) returns (out: seq<Outbound>)
      modifies this
      ensures var o := OnMessage(old(Snapshot()), chat, m);
        Snapshot() == o.state && out == o.out
    {
      if chat in sessions {
        var session := sessions[chat];
        if IsEdit(session.step) {
          out := ApplyEdit(chat, session, m);
        } else if session.step == WaitTitle {
          if m.text.None? || m.text.value == "" {
            return [SendText(chat, AskTitleAsText, [])];
          }
          sessions := sessions[chat := session.(tempTitle := m.text.value, step := WaitContent)];
          out := [SendText(chat, AskContent, [])];
        } else {
          out := SaveNewRecipe(chat, session, m);
        }
        return;
      }
      out := Keywords(chat, m);
    }

    /** An `Edit*` step: change one field (or the media) of the recipe being edited, then the main menu. */
    method ApplyEdit(chat: int, session: UserSession, m: Message) returns (out: seq<Outbound>)
      requires IsEdit(session.step)
      modifies this
      ensures var o := OnEditMessage(old(Snapshot()), chat, session, m);
        Snapshot() == o.state && out == o.out
    {
      var id := session.editingRecipeId;
      if id !in recipes {
        out := [SendText(chat, RecipeNotFound, [])];
        sessions := sessions - {chat};
        return;
      }
      var r := recipes[id];
      if session.step == EditWaitTitle {
        r := r.(title := m.text.GetOr(""));
        out := [SendText(chat, TitleUpdated, [])];
      } else if session.step == EditWaitDesc {
        r := r.(description := m.text.GetOr(""));
        out := [SendText(chat, DescriptionUpdated, [])];
      } else {
        if m.photo.Some? {
          r := r.(mediaType := Photo, fileId := m.photo);
          if m.caption.Some? {
            r := r.(description := m.caption.value);
          }
        } else if m.video.Some? {
          r := r.(mediaType := Video, fileId := m.video);
          if m.caption.Some? {
            r := r.(description := m.caption.value);
          }
        } else {
          return [SendText(chat, NeedMedia, [])];
        }
        out := [SendText(chat, MediaUpdated, [])];
      }
      recipes := recipes[id := r];
      sessions := sessions - {chat};
      out := out + [MainMenu(chat)];
    }

    /** The `WaitContent` step: store the recipe under the next id, end the session, list its category. */
    method SaveNewRecipe(chat: int, session: UserSession, m: Message) returns (out: seq<Outbound>)
      modifies this
      ensures var o := OnContentMessage(old(Snapshot()), chat, session, m);
        Snapshot() == o.state && out == o.out
    {
      var r := Recipe(session.tempTitle, "", session.category, None, Text);
      if m.photo.Some? {
        r := r.(mediaType := Photo, fileId := m.photo, description := m.caption.GetOr(""));
      } else if m.video.Some? {
        r := r.(mediaType := Video, fileId := m.video, description := m.caption.GetOr(""));
      } else if m.text.Some? {
        r := r.(mediaType := Text, description := m.text.value);
      } else {
        return [];
      }
      assert ContentRecipe(session, m) == Some(r);
      ghost var s0 := Snapshot();
      recipes := recipes[nextId := r];
      nextId := nextId + 1;
      sessions := sessions - {chat};
      assert Snapshot() == State(s0.recipes[s0.nextId := r], s0.users, s0.sessions - {chat}, s0.nextId + 1);
      var list := ShowRecipesList(chat, r.category);
      out := [SendText(chat, RecipeSaved, []), list];
    }

    /** The keyword replies of a chat without a session; they change nothing. */
    method Keywords(chat: int, m: Message) returns (out: seq<Outbound>)
      ensures out == OnKeyword(Snapshot(), chat, m)
    {
      var text := if m.text.Some? then Some(ToLower(m.text.value)) else None;
      if text == Some("/users") && chat == AdminId {
        var response := UsersResponse();
        return [SendText(chat, response, [])];
      }
      if text == Some("/add") {
        if chat != AdminId {
          return [];
        }
        return [AddCategoryMenu(chat)];
      }
      if text.Some? && (Contains(text.value, "/menu") || Contains(text.value, "привет")) {
        return [MainMenu(chat)];
      }
      out := [SendText(chat, NotUnderstood, [])];
    }
  }
}
