/**
 * The bot's data: the `Recipe` and `BotUser` tables of the SQLite store, the
 * in-memory `_userSessions` table, and the order in which the store returns rows.
 */
module Catalog {
  import opened Strings

  /** `Recipe.MediaType`, stored as the strings "Text", "Photo" and "Video". */
  datatype MediaType = Text | Photo | Video

  /** A row of the Recipes table; its `Id` is the key it is stored under. */
  datatype Recipe = Recipe(
    title: string,
    description: string,
    category: string,
    fileId: Option<string>,
    mediaType: MediaType)

  /** A row of the Users table; `firstVisit` is the clock reading at insertion. */
  datatype BotUser = BotUser(chatId: int, username: string, firstName: string, firstVisit: int)

  /** The values `UserSession.Step` takes: the engine never stores any other. */
  datatype Step = WaitTitle | WaitContent | EditWaitTitle | EditWaitDesc | EditWaitMedia

  function StepName(step: Step): string {
    match step
    case WaitTitle => "WaitTitle"
    case WaitContent => "WaitContent"
    case EditWaitTitle => "EditWaitTitle"
    case EditWaitDesc => "EditWaitDesc"
    case EditWaitMedia => "EditWaitMedia"
  }

  /** `session.Step.StartsWith("Edit")`. */
  predicate IsEdit(step: Step) {
    StartsWith(StepName(step), "Edit")
  }

  lemma IsEditSteps(step: Step)
    ensures IsEdit(step) <==> step != WaitTitle && step != WaitContent
  {
    match step
    case WaitTitle =>
      assert StepName(step)[0] != 'E';
    case WaitContent =>
      assert StepName(step)[0] != 'E';
    case _ =>
      assert StepName(step)[..4] == "Edit";
  }

  /** One entry of `_userSessions`; the defaults are those of `new UserSession { }`. */
  datatype UserSession = UserSession(step: Step, category: string, tempTitle: string, editingRecipeId: int)

  /**
   * Everything one update may read or change: the two tables, the session
   * table and the id the store will give the next recipe it inserts
   * (AUTOINCREMENT: one more than the largest id ever handed out).
   */
  datatype State = State(
    recipes: map<int, Recipe>,
    users: map<int, BotUser>,
    sessions: map<int, UserSession>,
    nextId: int)

  /** `Program.AdminId`. */
  const AdminId: int := 12345

  /** A freshly created database and an empty session table. */
  const Initial: State := State(map[], map[], map[], 1)

  /** A Photo or Video recipe has a file handle, a Text recipe has none. */
  predicate MediaConsistent(r: Recipe) {
    r.mediaType == Text <==> r.fileId.None?
  }

  /** What holds of every state the engine reaches from `Initial`. */
  predicate WellFormed(s: State) {
    && s.nextId > 0
    && (forall id :: id in s.recipes ==> 0 < id < s.nextId && MediaConsistent(s.recipes[id]))
    && (forall c :: c in s.users ==> s.users[c].chatId == c)
  }

  lemma InitialWellFormed()
    ensures WellFormed(Initial) && Initial.recipes == map[] && Initial.sessions == map[]
  {
  }

  // ---------------------------------------------------------------------------
  // Row order. Both tables are keyed by an integer primary key, so SQLite
  // returns their rows in ascending key order.

  /** A set with no member is the empty set. */
  lemma EmptyWhenNoMember(s: set<int>)
    ensures (forall y :: y !in s) ==> s == {}
  {
    if forall y :: y !in s {
      assert s == {};
    }
  }

  predicate IsMin(m: int, s: set<int>) {
    m in s && forall x :: x in s ==> m <= x
  }

  lemma {:induction false} MinExists(s: set<int>)
    requires s != {}
    ensures exists m :: IsMin(m, s)
    decreases s
  {
    EmptyWhenNoMember(s);
    var y :| y in s;
    var rest := s - {y};
    if rest == {} {
      forall x | x in s ensures y <= x {
        assert x == y || x in rest;
      }
      assert IsMin(y, s);
    } else {
      MinExists(rest);
      var m :| IsMin(m, rest);
      forall x | x in s ensures x == y || x in rest {
      }
      if y < m {
        assert IsMin(y, s);
      } else {
        assert IsMin(m, s);
      }
    }
  }

  function Min(s: set<int>): (m: int)
    requires s != {}
    ensures IsMin(m, s)
  {
    MinExists(s);
    var m :| IsMin(m, s);
    m
  }

  /** The keys of a table in the order a full scan returns them. */
  function SortedKeys(s: set<int>): (r: seq<int>)
    ensures |r| == |s|
    ensures forall x :: x in s <==> x in r
    ensures forall i, j :: 0 <= i < j < |r| ==> r[i] < r[j]
    decreases |s|
  {
    if s == {} then []
    else
      var m := Min(s);
      var rest := SortedKeys(s - {m});
      assert forall x :: x in rest ==> m < x;
      [m] + rest
  }

  /** `db.Recipes.Where(r => r.Category == category).ToListAsync()`, as ids. */
  function RecipesIn(recipes: map<int, Recipe>, category: string): (ids: seq<int>)
    ensures forall id :: id in ids <==> id in recipes && recipes[id].category == category
    ensures forall i, j :: 0 <= i < j < |ids| ==> ids[i] < ids[j]
  {
    SortedKeys(set id | id in recipes && recipes[id].category == category)
  }

  /** `db.Users.ToListAsync()`. */
  function UsersInOrder(users: map<int, BotUser>): (us: seq<BotUser>)
    ensures |us| == |users|
    ensures forall c :: c in users ==> users[c] in us
  {
    var keys := SortedKeys(users.Keys);
    var us := seq(|keys|, i requires 0 <= i < |keys| => users[keys[i]]);
    UsersInOrderCovers(users, keys, us);
    us
  }

  lemma UsersInOrderCovers(users: map<int, BotUser>, keys: seq<int>, us: seq<BotUser>)
    requires forall c :: c in users <==> c in keys
    requires |us| == |keys| && forall i :: 0 <= i < |keys| ==> keys[i] in users && us[i] == users[keys[i]]
    ensures forall c :: c in users ==> users[c] in us
  {
    forall c | c in users ensures users[c] in us {
      var i :| 0 <= i < |keys| && keys[i] == c;
      assert us[i] == users[c];
    }
  }
}
