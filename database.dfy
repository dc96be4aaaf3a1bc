/**
 * The bot's SQLite tables as one object: the users table, the reputation
 * history, the warn-reason log and the two word lists, with the operations of
 * telegramBot/database.py that read and update them in place.
 */
module Database {
  import opened Wrappers
  import opened Text
  import opened Levels

  /** One row of the users table. */
  datatype UserRow = UserRow(
    username: Option<string>,
    fullName: Option<string>,
    xp: int,
    level: int,
    warns: int,
    modLevel: int,
    reputation: int,
    lastWipeDate: Option<string>)

  /** One row of rep_history; the triple is the table's primary key. */
  datatype RepGrant = RepGrant(from: int, to: int, date: string)

  datatype RepResult = SelfRep | DailyLimitUser | DailyLimitTotal | Success

  datatype WarnAction = Add | Remove | Reset

  datatype ListName = Whitelist | Badwords

  const DailyRepLimit: nat := 3

  /** How a username is stored and looked up: leading '@'s dropped, then lower-cased. */
  function Clean(username: string): (c: string)
    ensures |c| <= |username|
    ensures c == [] || c[0] != '@'
  {
    Lower(LStripChar(username, '@'))
  }

  lemma {:induction false} LowerKeepsAt(s: string)
    ensures s == [] || s[0] != '@' ==> Lower(s) == [] || Lower(s)[0] != '@'
  {
  }

  /** Cleaning a clean name changes nothing. */
  lemma {:induction false} CleanIdempotent(username: string)
    ensures Clean(Clean(username)) == Clean(username)
  {
    var c := Clean(username);
    assert LStripChar(c, '@') == c;
    LowerIdempotent(LStripChar(username, '@'));
  }

  /** "@Name", "@@name" and "name" are stored and looked up as the same key. */
  lemma {:induction false} CleanIgnoresAtAndCase(name: string)
    ensures Clean("@" + name) == Clean(name)
    ensures Clean(Lower(name)) == Clean(name)
  {
    assert ("@" + name)[1..] == name;
    LowerStripCommute(name);
    LowerIdempotent(LStripChar(name, '@'));
  }

  lemma {:induction false} LowerStripCommute(s: string)
    ensures LStripChar(Lower(s), '@') == Lower(LStripChar(s, '@'))
    decreases |s|
  {
    if s != [] {
      assert Lower(s)[1..] == Lower(s[1..]);
      LowerStripCommute(s[1..]);
    }
  }

  /** `manage_warn`'s action argument: anything other than "reset" and "remove" adds. */
  function ActionOf(action: string): (a: WarnAction)
    ensures a == Reset <==> action == "reset"
    ensures a == Remove <==> action == "remove"
  {
    if action == "reset" then Reset
    else if action == "remove" then Remove
    else Add
  }

  /** The grants `from` has made on `date`. */
  function GrantsOn(history: set<RepGrant>, from: int, date: string): (g: set<RepGrant>)
    ensures g <= history
    ensures forall x :: x in g ==> x.from == from && x.date == date
  {
    set x | x in history && x.from == from && x.date == date
  }

  /** The answer of `give_reputation`, in the order the checks run. */
  function RepOutcome(history: set<RepGrant>, from: int, to: int, today: string): (r: RepResult)
    ensures from == to ==> r == SelfRep
    ensures from != to && RepGrant(from, to, today) in history ==> r == DailyLimitUser
    ensures (from != to && RepGrant(from, to, today) !in history
             && |GrantsOn(history, from, today)| >= DailyRepLimit) ==> r == DailyLimitTotal
    ensures r == Success <==>
      from != to && RepGrant(from, to, today) !in history && |GrantsOn(history, from, today)| < DailyRepLimit
  {
    if from == to then SelfRep
    else if RepGrant(from, to, today) in history then DailyLimitUser
    else if |GrantsOn(history, from, today)| >= DailyRepLimit then DailyLimitTotal
    else Success
  }

  /** Recording a successful grant keeps the giver within the daily limit. */
  lemma {:induction false} GrantKeepsLimit(history: set<RepGrant>, from: int, to: int, today: string)
    requires RepOutcome(history, from, to, today) == Success
    ensures |GrantsOn(history + {RepGrant(from, to, today)}, from, today)| <= DailyRepLimit
  {
    var g := RepGrant(from, to, today);
    assert GrantsOn(history + {g}, from, today) == GrantsOn(history, from, today) + {g};
  }

  /** Grants on other days or by other users are unaffected by a new grant. */
  lemma {:induction false} GrantIsLocal(history: set<RepGrant>, from: int, to: int, today: string, f: int, d: string)
    requires f != from || d != today
    ensures GrantsOn(history + {RepGrant(from, to, today)}, f, d) == GrantsOn(history, f, d)
  {
  }

  /** A user's reasons, oldest first; the log holds none for a user never warned. */
  function ReasonsOf(log: map<int, seq<string>>, userId: int): seq<string> {
    if userId in log then log[userId] else []
  }

  /** The row `get_user` inserts for an unknown user. */
  function NewRow(username: Option<string>, fullName: Option<string>): (row: UserRow)
    ensures row.xp == 0 && row.level == 1 && row.warns == 0 && row.modLevel == 0 && row.reputation == 0
    ensures row.fullName.Some? && (Given(fullName) ==> row.fullName == fullName)
    ensures Given(username) <==> row.username.Some?
    ensures Normal(row.level, row.xp)
  {
    UserRow(
      if Given(username) then Some(Clean(username.value)) else None,
      if Given(fullName) then fullName else Some("User"),
      0, 1, 0, 0, 0, None)
  }

  /** The users table after `get_user(userId, username, fullName)`. */
  function Registered(users: map<int, UserRow>, userId: int, username: Option<string>, fullName: Option<string>): (r: map<int, UserRow>)
    ensures userId in r && r.Keys == users.Keys + {userId}
    ensures forall u :: u in users && u != userId ==> r[u] == users[u]
    ensures userId in users ==> r[userId].level == users[userId].level && r[userId].xp == users[userId].xp
    ensures userId !in users ==> r[userId] == NewRow(username, fullName)
  {
    if userId !in users then users[userId := NewRow(username, fullName)]
    else if Given(username) || Given(fullName) then
      users[userId := users[userId].(username := NewRow(username, None).username, fullName := fullName)]
    else users
  }

  /** The users table after `UPDATE users SET reputation = reputation + 1 WHERE user_id = to`. */
  function Endorsed(users: map<int, UserRow>, to: int): (r: map<int, UserRow>)
    ensures r.Keys == users.Keys
    ensures forall id :: id in users && id != to ==> r[id] == users[id]
    ensures to in users ==> r[to].reputation == users[to].reputation + 1
    ensures to in users ==> r[to] == users[to].(reputation := r[to].reputation)
  {
    if to in users then users[to := users[to].(reputation := users[to].reputation + 1)] else users
  }

  /** The users table after `set_moderator_level(userId, level)`: one column of one row; a missing row stays missing. */
  function Appointed(users: map<int, UserRow>, userId: int, level: int): (r: map<int, UserRow>)
    ensures r.Keys == users.Keys
    ensures forall u :: u in users && u != userId ==> r[u] == users[u]
    ensures userId in users ==> r[userId].modLevel == level && r[userId] == users[userId].(modLevel := r[userId].modLevel)
  {
    if userId in users then users[userId := users[userId].(modLevel := level)] else users
  }

  /** The users table after `update_xp(userId, amount)`. */
  function Credit(users: map<int, UserRow>, userId: int, amount: int): (r: map<int, UserRow>)
    requires userId in users ==> IsLevel(users[userId].level)
    ensures r.Keys == users.Keys
    ensures forall id :: id in users && id != userId ==> r[id] == users[id]
    ensures userId in users ==> Normal(r[userId].level, r[userId].xp)
  {
    if userId !in users then users
    else
      var row := users[userId];
      var s := Settle(row.level, row.xp, amount);
      users[userId := row.(xp := s.xp, level := s.level)]
  }

  /** Users placed strictly above `me` on the leaderboard. */
  function Above(users: map<int, UserRow>, me: UserRow): (s: set<int>)
    ensures s <= users.Keys
  {
    set id | id in users && (users[id].level > me.level || (users[id].level == me.level && users[id].xp > me.xp))
  }

  /** `get_user_rank`: 1 + the number of users strictly above; None for an unknown user. */
  function Rank(users: map<int, UserRow>, userId: int): (r: Option<nat>)
    ensures r.Some? <==> userId in users
    ensures r.Some? ==> 1 <= r.value <= |users|
  {
    if userId !in users then None
    else
      var above := Above(users, users[userId]);
      assert userId in users.Keys - above;
      StrictSubsetSmaller(above, users.Keys);
      Some(|above| + 1)
  }

  /** A user strictly above another gets a strictly better (smaller) rank. */
  lemma {:induction false} RankOrder(users: map<int, UserRow>, a: int, b: int)
    requires a in users && b in users
    requires users[a].level > users[b].level || (users[a].level == users[b].level && users[a].xp > users[b].xp)
    ensures Rank(users, a).value < Rank(users, b).value
  {
    var above_a := Above(users, users[a]);
    var above_b := Above(users, users[b]);
    assert above_a <= above_b;
    assert a in above_b - above_a;
    StrictSubsetSmaller(above_a, above_b);
  }

  lemma {:induction false} StrictSubsetSmaller(a: set<int>, b: set<int>)
    requires a <= b && b - a != {}
    ensures |a| < |b|
  {
    assert b == a + (b - a);
    assert a * (b - a) == {};
  }

  class Store {
    var users: map<int, UserRow>
    var repHistory: set<RepGrant>
    var warnReasons: map<int, seq<string>>
    var whitelist: seq<string>
    var badwords: seq<string>

    /** What the schema and the operations below keep true of the tables. */
    ghost predicate Valid()
      reads this
    {
      (forall id :: id in users ==> Normal(users[id].level, users[id].xp) && users[id].warns >= 0)
      && (forall f, d :: |GrantsOn(repHistory, f, d)| <= DailyRepLimit)
      && NoDuplicates(whitelist) && NoDuplicates(badwords)
    }

    constructor ()
      ensures Valid()
      ensures users == map[] && repHistory == {} && warnReasons == map[]
      ensures whitelist == [] && badwords == []
    {
      users := map[];
      repHistory := {};
      warnReasons := map[];
      whitelist := [];
      badwords := [];
    }

    /**
     * `get_user`: creates the row of an unknown user and returns it; for a
     * known user, overwrites both name columns when either name is given and
     * returns the row as it was before.
     */
    method GetUser(userId: int, username: Option<string>, fullName: Option<string>) returns (row: UserRow)
      requires Valid()
      modifies this
      ensures Valid()
      ensures repHistory == old(repHistory) && warnReasons == old(warnReasons)
      ensures whitelist == old(whitelist) && badwords == old(badwords)
      ensures userId !in old(users) ==> row == NewRow(username, fullName) && users == old(users)[userId := row]
      ensures userId in old(users) ==> row == old(users)[userId]
      ensures userId in old(users) && (Given(username) || Given(fullName)) ==>
        users == old(users)[userId := row.(username := NewRow(username, None).username, fullName := fullName)]
      ensures userId in old(users) && !(Given(username) || Given(fullName)) ==> users == old(users)
      ensures users == Registered(old(users), userId, username, fullName)
    {
      var clean: Option<string> := if Given(username) then Some(Clean(username.value)) else None;
      if userId !in users {
        var name := if Given(fullName) then fullName else Some("User");
        row := UserRow(clean, name, 0, 1, 0, 0, 0, None);
        users := users[userId := row];
      } else {
        row := users[userId];
        if Given(username) || Given(fullName) {
          users := users[userId := row.(username := clean, fullName := fullName)];
        }
      }
    }

    /**
     * `get_id_by_username`: some user whose stored name is the cleaned
     * argument, if there is one (the column is not unique; the database
     * returns whichever row it meets first).
     */
    method GetIdByUsername(username: string) returns (id: Option<int>)
      ensures id.Some? ==> id.value in users && users[id.value].username == Some(Clean(username))
      ensures id.None? ==> forall u :: u in users ==> users[u].username != Some(Clean(username))
    {
      var clean := Clean(username);
      if u :| u in users && users[u].username == Some(clean) {
        id := Some(u);
      } else {
        id := None;
      }
    }

    /**
     * `update_xp`: moves the user along the ladder by `amount` and returns
     * (old level, new level, amount); an unknown user gets (0, 0, 0).
     */
    method UpdateXp(userId: int, amount: int) returns (oldLevel: int, newLevel: int, applied: int)
      requires Valid()
      modifies this
      ensures Valid()
      ensures repHistory == old(repHistory) && warnReasons == old(warnReasons)
      ensures whitelist == old(whitelist) && badwords == old(badwords)
      ensures userId !in old(users) ==> oldLevel == 0 && newLevel == 0 && applied == 0 && users == old(users)
      ensures userId in old(users) ==>
        var row := old(users)[userId];
        var s := Settle(row.level, row.xp, amount);
        oldLevel == row.level && newLevel == s.level && applied == amount
      ensures users == Credit(old(users), userId, amount)
    {
      if userId !in users {
        return 0, 0, 0;
      }
      var row := users[userId];
      var xp, level := ApplyDelta(row.xp, row.level, amount);
      users := users[userId := row.(xp := xp, level := level)];
      return row.level, level, amount;
    }

    /** `give_reputation` on `today`'s date. */
    method GiveReputation(from: int, to: int, today: string) returns (r: RepResult)
      requires Valid()
      modifies this
      ensures Valid()
      ensures r == RepOutcome(old(repHistory), from, to, today)
      ensures warnReasons == old(warnReasons) && whitelist == old(whitelist) && badwords == old(badwords)
      ensures r != Success ==> repHistory == old(repHistory) && users == old(users)
      ensures r == Success ==> repHistory == old(repHistory) + {RepGrant(from, to, today)}
      ensures r == Success && to in old(users) ==>
        users == old(users)[to := old(users)[to].(reputation := old(users)[to].reputation + 1)]
      ensures r == Success && to !in old(users) ==> users == old(users)
      ensures r == Success ==> users == Endorsed(old(users), to)
    {
      if from == to {
        return SelfRep;
      }
      if RepGrant(from, to, today) in repHistory {
        return DailyLimitUser;
      }
      var count := |GrantsOn(repHistory, from, today)|;
      if count >= DailyRepLimit {
        return DailyLimitTotal;
      }
      GrantKeepsLimit(repHistory, from, to, today);
      forall f, d | f != from || d != today
        ensures GrantsOn(repHistory + {RepGrant(from, to, today)}, f, d) == GrantsOn(repHistory, f, d)
      {
        GrantIsLocal(repHistory, from, to, today, f, d);
      }
      repHistory := repHistory + {RepGrant(from, to, today)};
      if to in users {
        users := users[to := users[to].(reputation := users[to].reputation + 1)];
      }
      return Success;
    }

    /**
     * `check_wipe_cooldown`: false when the user already wiped `today`;
     * otherwise records `today` (on an existing row) and answers true.
     */
    method CheckWipeCooldown(userId: int, today: string) returns (ok: bool)
      requires Valid()
      modifies this
      ensures Valid()
      ensures repHistory == old(repHistory) && warnReasons == old(warnReasons)
      ensures whitelist == old(whitelist) && badwords == old(badwords)
      ensures ok <==> !(userId in old(users) && old(users)[userId].lastWipeDate == Some(today))
      ensures !ok ==> users == old(users)
      ensures ok && userId in old(users) ==>
        users == old(users)[userId := old(users)[userId].(lastWipeDate := Some(today))]
      ensures ok && userId !in old(users) ==> users == old(users)
      ensures userId in users ==> users[userId].lastWipeDate == Some(today)
    {
      var last: Option<string> := if userId in users then users[userId].lastWipeDate else None;
      if last == Some(today) {
        return false;
      }
      if userId in users {
        users := users[userId := users[userId].(lastWipeDate := Some(today))];
      }
      return true;
    }

    /** `set_moderator_level`; a missing user is left missing. */
    method SetModeratorLevel(userId: int, level: int)
      requires Valid()
      modifies this
      ensures Valid()
      ensures repHistory == old(repHistory) && warnReasons == old(warnReasons)
      ensures whitelist == old(whitelist) && badwords == old(badwords)
      ensures users == if userId in old(users) then old(users)[userId := old(users)[userId].(modLevel := level)] else old(users)
      ensures users == Appointed(old(users), userId, level)
    {
      if userId in users {
        users := users[userId := users[userId].(modLevel := level)];
      }
    }

    /**
     * `manage_warn`: "reset" zeroes the count and forgets every reason,
     * "remove" lowers the count (not below 0) and forgets the latest reason,
     * anything else raises the count and logs the reason when one is given.
     * Answers the stored count afterwards (0 for an unknown user).
     */
    method ManageWarn(userId: int, action: string, reason: Option<string>) returns (newWarns: int)
      requires Valid()
      modifies this
      ensures Valid()
      ensures repHistory == old(repHistory) && whitelist == old(whitelist) && badwords == old(badwords)
      ensures forall u :: u != userId ==> ReasonsOf(warnReasons, u) == ReasonsOf(old(warnReasons), u)
      ensures users.Keys == old(users.Keys)
      ensures forall u :: u in users && u != userId ==> users[u] == old(users)[u]
      ensures userId in users ==> users[userId] == old(users)[userId].(warns := newWarns)
      ensures userId !in users ==> newWarns == 0
      ensures newWarns >= 0
      ensures ActionOf(action) == Reset ==> newWarns == 0 && ReasonsOf(warnReasons, userId) == []
      ensures ActionOf(action) == Remove ==>
        var before := ReasonsOf(old(warnReasons), userId);
        (userId in users ==> newWarns == Max0(old(users)[userId].warns - 1))
        && ReasonsOf(warnReasons, userId) == if before == [] then [] else before[..|before| - 1]
      ensures ActionOf(action) == Add ==>
        (userId in users ==> newWarns == old(users)[userId].warns + 1)
        && ReasonsOf(warnReasons, userId) ==
           ReasonsOf(old(warnReasons), userId) + (if Given(reason) then [reason.value] else [])
    {
      var a := ActionOf(action);
      var before := ReasonsOf(warnReasons, userId);
      if a == Reset {
        SetWarns(userId, 0);
        warnReasons := warnReasons[userId := []];
        newWarns := 0;
      } else if a == Remove {
        if userId in users {
          var w := users[userId].warns - 1;
          SetWarns(userId, if w < 0 then 0 else w);
        }
        if before != [] {
          warnReasons := warnReasons[userId := before[..|before| - 1]];
        }
        newWarns := if userId in users then users[userId].warns else 0;
      } else {
        if userId in users {
          SetWarns(userId, users[userId].warns + 1);
        }
        if Given(reason) {
          warnReasons := warnReasons[userId := before + [reason.value]];
        }
        newWarns := if userId in users then users[userId].warns else 0;
      }
    }

    /** The `warns` column of one row, when the row exists. */
    method SetWarns(userId: int, w: int)
      requires Valid() && w >= 0
      modifies this
      ensures Valid()
      ensures repHistory == old(repHistory) && warnReasons == old(warnReasons)
      ensures whitelist == old(whitelist) && badwords == old(badwords)
      ensures users == if userId in old(users) then old(users)[userId := old(users)[userId].(warns := w)] else old(users)
    {
      if userId in users {
        users := users[userId := users[userId].(warns := w)];
      }
    }

    /** The rows of one word list, in insertion order. */
    function ListOf(table: ListName): seq<string>
      reads this
    {
      match table
      case Whitelist => whitelist
      case Badwords => badwords
    }

    /**
     * `add_to_list`: inserts the lower-cased item; the primary key refuses a
     * duplicate, which is reported as false.
     */
    method AddToList(table: ListName, item: string) returns (ok: bool)
      requires Valid()
      modifies this
      ensures Valid()
      ensures users == old(users) && repHistory == old(repHistory) && warnReasons == old(warnReasons)
      ensures ok <==> Lower(item) !in old(ListOf(table))
      ensures ListOf(table) == if ok then old(ListOf(table)) + [Lower(item)] else old(ListOf(table))
      ensures table == Whitelist ==> badwords == old(badwords)
      ensures table == Badwords ==> whitelist == old(whitelist)
    {
      var word := Lower(item);
      var current := ListOf(table);
      if word in current {
        return false;
      }
      AppendKeepsDistinct(current, word);
      if table == Whitelist {
        whitelist := whitelist + [word];
      } else {
        badwords := badwords + [word];
      }
      return true;
    }
  }

  predicate NoDuplicates(s: seq<string>) {
    forall i, j :: 0 <= i < j < |s| ==> s[i] != s[j]
  }

  lemma {:induction false} AppendKeepsDistinct(s: seq<string>, x: string)
    requires NoDuplicates(s) && x !in s
    ensures NoDuplicates(s + [x])
  {
  }

  /** A successful grant, repeated the same day, is refused as a per-user duplicate. */
  method RepTwiceSameDay(db: Store, from: int, to: int, today: string) returns (first: RepResult, second: RepResult)
    requires db.Valid()
    modifies db
    ensures first == Success ==> second == DailyLimitUser
    ensures from == to ==> first == SelfRep && second == SelfRep
  {
    first := db.GiveReputation(from, to, today);
    second := db.GiveReputation(from, to, today);
  }

  /** A second wipe on the same day by a known user is refused. */
  method WipeTwiceSameDay(db: Store, userId: int, today: string) returns (first: bool, second: bool)
    requires db.Valid() && userId in db.users
    modifies db
    ensures !second
  {
    first := db.CheckWipeCooldown(userId, today);
    second := db.CheckWipeCooldown(userId, today);
  }

  /** A name stored by `get_user` is found again by `get_id_by_username`, with or without '@'. */
  method StoreThenFind(db: Store, userId: int, name: string) returns (found: Option<int>)
    requires db.Valid() && name != ""
    modifies db
    ensures found.Some? && found.value in db.users && db.users[found.value].username == Some(Clean(name))
  {
    var _ := db.GetUser(userId, Some(name), None);
    assert db.users[userId].username == Some(Clean(name));
    CleanIgnoresAtAndCase(name);
    found := db.GetIdByUsername("@" + name);
  }
}
