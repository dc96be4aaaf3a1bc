/**
 * The member-facing rules of telegramBot/modules/user.py: the effective
 * level behind every menu gate, the profile and games keyboards, how a
 * group message or a photo earns XP, the "+rep" reply, `/wipe`, and the
 * grouping of the staff list.
 */
module UserXp {
  import opened Wrappers
  import opened Text
  import opened Telegram
  import opened Levels
  import opened Database
  import opened Games
  import opened Moderation

  // ---------------------------------------------------------------------
  // Levels and menu gates

  /**
   * `get_effective_level`: the owner and the two platform accounts rank 5, a
   * creator or administrator of a group chat ranks 5 (a failed lookup is
   * ignored), and anyone else keeps the level passed in.
   */
  function EffectiveLevel(userId: int, ownerId: int, dbLevel: int, isPrivate: bool, lookup: RoleLookup): int {
    if IsSuperActor(userId, ownerId) then 5
    else if !isPrivate && IsChatAdmin(lookup) then 5
    else dbLevel
  }

  /** The effective level is the level passed in, raised to 5 exactly for the privileged. */
  lemma {:induction false} EffectiveLevelSpec(userId: int, ownerId: int, dbLevel: int, isPrivate: bool, lookup: RoleLookup)
    ensures var e := EffectiveLevel(userId, ownerId, dbLevel, isPrivate, lookup);
      (e == 5 <==> IsSuperActor(userId, ownerId) || (!isPrivate && IsChatAdmin(lookup)) || dbLevel == 5)
      && (e != 5 ==> e == dbLevel)
      && (dbLevel <= 5 ==> dbLevel <= e <= 5)
  {
  }

  /**
   * Unlike the moderation rank, the effective level lets the chat role win:
   * an administrator stored at Moder² is 5 here and 2 to the moderation
   * commands.
   */
  lemma {:induction false} ChatRoleWinsHereOnly(userId: int, ownerId: int, modLevel: int, lookup: RoleLookup)
    requires !IsSuperActor(userId, ownerId) && IsChatAdmin(lookup) && 0 < modLevel < 5
    ensures EffectiveLevel(userId, ownerId, modLevel, false, lookup) == 5
    ensures SenderLevel(userId, ownerId, modLevel, false, lookup) == modLevel
  {
    StoredLevelOverridesChatRole(userId, ownerId, modLevel, lookup);
  }

  /** The gate of `/staff`: the effective level, computed from the RPG level, reaches 3. */
  predicate StaffGateOpen(userId: int, ownerId: int, rpgLevel: int, isPrivate: bool, lookup: RoleLookup) {
    EffectiveLevel(userId, ownerId, rpgLevel, isPrivate, lookup) >= 3
  }

  /** The gate of `/leaders`: the effective level, computed from the RPG level, reaches 2. */
  predicate LeadersGateOpen(userId: int, ownerId: int, rpgLevel: int, isPrivate: bool, lookup: RoleLookup) {
    EffectiveLevel(userId, ownerId, rpgLevel, isPrivate, lookup) >= 2
  }

  /**
   * Both gates open for the privileged whatever their RPG level, and for
   * everyone else exactly at RPG level 3 (staff) and 2 (leaders); a freshly
   * registered level-1 user passes neither.
   */
  lemma {:induction false} CommandGates(userId: int, ownerId: int, rpgLevel: int, isPrivate: bool, lookup: RoleLookup)
    ensures var privileged := IsSuperActor(userId, ownerId) || (!isPrivate && IsChatAdmin(lookup));
      (StaffGateOpen(userId, ownerId, rpgLevel, isPrivate, lookup) <==> privileged || rpgLevel >= 3)
      && (LeadersGateOpen(userId, ownerId, rpgLevel, isPrivate, lookup) <==> privileged || rpgLevel >= 2)
    ensures StaffGateOpen(userId, ownerId, rpgLevel, isPrivate, lookup) ==>
      LeadersGateOpen(userId, ownerId, rpgLevel, isPrivate, lookup)
    ensures !IsSuperActor(userId, ownerId) && (isPrivate || !IsChatAdmin(lookup)) ==>
      !LeadersGateOpen(userId, ownerId, NewRow(None, None).level, isPrivate, lookup)
  {
  }

  /** `eff_lvl if eff_lvl > lvl else lvl`: the level the profile and games menus are drawn for. */
  function MenuLevel(eff: int, lvl: int): (m: int)
    ensures m >= eff && m >= lvl && (m == eff || m == lvl)
  {
    if eff > lvl then eff else lvl
  }

  /**
   * The gates of the leaders and games callbacks and of foreign profiles
   * (`eff < k and lvl < k` refuses) let through exactly the menu levels of
   * at least `k`.
   */
  lemma {:induction false} GateIsMenuLevel(eff: int, lvl: int, k: int)
    ensures !(eff < k && lvl < k) <==> MenuLevel(eff, lvl) >= k
  {
  }

  datatype MenuButton = Nav(callback: string) | Padlock(callback: string)

  datatype ProfileKeyboard = ProfileKeyboard(leaders: MenuButton, games: MenuButton)

  /** `get_profile_keyboard` */
  function ProfileKeyboardFor(userLvl: int): ProfileKeyboard {
    ProfileKeyboard(
      if userLvl >= 2 then Nav("nav_leaders") else Padlock("locked_2"),
      if userLvl >= 3 then Nav("nav_games") else Padlock("locked_3"))
  }

  /** Leaders open from level 2 and games from level 3, so games never open without leaders. */
  lemma {:induction false} ProfileKeyboardSpec(userLvl: int)
    ensures ProfileKeyboardFor(userLvl).leaders.Nav? <==> userLvl >= 2
    ensures ProfileKeyboardFor(userLvl).games.Nav? <==> userLvl >= 3
    ensures ProfileKeyboardFor(userLvl).games.Nav? ==> ProfileKeyboardFor(userLvl).leaders.Nav?
  {
  }

  /** The four buttons of the games menu, drawn for `finalLvl` with `get_game_btn_simple` (no admin bypass). */
  function GamesMenu(finalLvl: int, uid: int): seq<GameButton> {
    [GameButtonFor("dice", finalLvl, false, "game_menu_dice", uid),
     GameButtonFor("slots", finalLvl, false, "game_menu_slots", uid),
     GameButtonFor("basketball", finalLvl, false, "game_menu_basket", uid),
     GameButtonFor("duel", finalLvl, false, "game_info_duel", uid)]
  }

  /** Whoever reaches the games menu (level 3) can play dice and slots; basketball and duels need level 4. */
  lemma {:induction false} GamesMenuSpec(finalLvl: int, uid: int)
    requires finalLvl >= 3
    ensures GamesMenu(finalLvl, uid)[0] == Playable("game_menu_dice", uid)
    ensures GamesMenu(finalLvl, uid)[1] == Playable("game_menu_slots", uid)
    ensures GamesMenu(finalLvl, uid)[2].Playable? <==> finalLvl >= 4
    ensures GamesMenu(finalLvl, uid)[3].Playable? <==> finalLvl >= 4
  {
  }

  datatype Photo = Level3Image | Level4Image | Level5Image

  /** The picture of a profile: none below level 3. */
  function ProfilePhoto(lvl: int): Option<Photo> {
    if lvl >= 3 then Some(if lvl == 3 then Level3Image else if lvl == 4 then Level4Image else Level5Image)
    else None
  }

  /** The tag shown before a staff member's name: `role_map.get(mod_lvl, "Staff")`, none for level 0 and below. */
  function RoleTag(modLvl: int): Option<string> {
    if modLvl <= 0 then None
    else if modLvl == 1 then Some("Moder¹")
    else if modLvl == 2 then Some("Moder²")
    else if modLvl == 3 then Some("Moder³")
    else if modLvl == 4 then Some("Manager")
    else if modLvl == 5 then Some("Admin")
    else if modLvl == 999 then Some("Owner")
    else Some("Staff")
  }

  /** Exactly the stored staff get a tag, and only levels 3 and up get a picture. */
  lemma {:induction false} ProfileDecorations(lvl: int, modLvl: int)
    ensures RoleTag(modLvl).Some? <==> modLvl > 0
    ensures ProfilePhoto(lvl).Some? <==> lvl >= 3
    ensures ProfilePhoto(lvl) == Some(Level5Image) <==> lvl >= 5
  {
  }

  // ---------------------------------------------------------------------
  // Whose profile is shown

  datatype ProfileOutcome = ForeignDenied | NotFound | Aborted | Silent | Show(target: int, keyboard: Option<ProfileKeyboard>)

  /** `(command.args is not None and command.args.strip()) or message.reply_to_message` */
  predicate IsForeignRequest(args: Option<string>, reply: Option<int>) {
    (args.Some? && Strip(args.value) != "") || reply.Some?
  }

  /** The stored username a profile argument names: its first word, every '@' removed, cleaned. */
  function HandleOf(args: string): Option<string>
    requires Words(args) != []
  {
    Some(Clean(RemoveChar(Words(args)[0], '@')))
  }

  /** Only the caller's own profile carries the keyboard, drawn for the menu level. */
  function KeyboardOf(target: int, userId: int, eff: int, lvl: int): Option<ProfileKeyboard> {
    if target == userId then Some(ProfileKeyboardFor(MenuLevel(eff, lvl))) else None
  }

  /**
   * `show_profile` once the caller's row is known: a request about someone
   * else needs menu level 4; an argument is looked up as a username with
   * every '@' removed; a reply shows its author; anything else shows the
   * caller, with the profile keyboard. Whitespace-only arguments together
   * with a reply make `split()[0]` raise (`Aborted`); a target id of 0 ends
   * the handler without an answer (`Silent`). Drawing the profile runs
   * `get_user` on the shown user, which registers an unknown one.
   */
  method ShowProfile(db: Store, userId: int, eff: int, lvl: int, args: Option<string>, reply: Option<int>)
    returns (r: ProfileOutcome)
    requires db.Valid()
    modifies db
    ensures db.Valid()
    ensures unchanged(db`repHistory, db`warnReasons, db`whitelist, db`badwords)
    ensures r.Show? ==> r.target != 0 && db.users == Registered(old(db.users), r.target, None, None)
    ensures !r.Show? ==> db.users == old(db.users)
    ensures r.Show? ==> r.keyboard == KeyboardOf(r.target, userId, eff, lvl)
    ensures r.Show? && r.target != userId ==> MenuLevel(eff, lvl) >= 4
    ensures !IsForeignRequest(args, reply) ==>
      r == if userId == 0 then Silent else Show(userId, KeyboardOf(userId, userId, eff, lvl))
    ensures r == ForeignDenied <==> IsForeignRequest(args, reply) && MenuLevel(eff, lvl) < 4
    ensures r == Aborted <==> IsForeignRequest(args, reply) && MenuLevel(eff, lvl) >= 4 && Given(args) && Words(args.value) == []
    ensures IsForeignRequest(args, reply) && MenuLevel(eff, lvl) >= 4 && Given(args) && Words(args.value) != [] ==>
      var name := HandleOf(args.value);
      (r == NotFound || r.Show?)
      && ((forall u :: u in old(db.users) ==> old(db.users)[u].username != name) ==> r == NotFound)
      && (r == NotFound ==>
            (forall u :: u in old(db.users) ==> old(db.users)[u].username != name)
            || (0 in old(db.users) && old(db.users)[0].username == name))
      && (r.Show? ==> r.target in old(db.users) && old(db.users)[r.target].username == name)
    ensures IsForeignRequest(args, reply) && MenuLevel(eff, lvl) >= 4 && !Given(args) ==>
      reply.Some? && r == if reply.value == 0 then Silent else Show(reply.value, KeyboardOf(reply.value, userId, eff, lvl))
  {
    var foreign := (args.Some? && Strip(args.value) != "") || reply.Some?;
    var targetId: int;
    if foreign {
      if eff < 4 && lvl < 4 {
        return ForeignDenied;
      }
      if Given(args) {
        var words := Words(args.value);
        if words == [] {
          return Aborted;
        }
        var usernameArg := RemoveChar(words[0], '@');
        var found := db.GetIdByUsername(usernameArg);
        if found.Some? && found.value != 0 {
          targetId := found.value;
        } else {
          return NotFound;
        }
      } else if reply.Some? {
        targetId := reply.value;
      } else {
        targetId := userId;
      }
    } else {
      targetId := userId;
    }
    if targetId == 0 {
      return Silent;
    }
    var _ := db.GetUser(targetId, None, None);
    var keyboard: Option<ProfileKeyboard> := None;
    if targetId == userId {
      keyboard := Some(ProfileKeyboardFor(if eff > lvl then eff else lvl));
    }
    return Show(targetId, keyboard);
  }

  /**
   * `show_profile` from its first line: `get_user` registers the caller,
   * whose stored moderation level feeds the effective level and whose RPG
   * level is the other half of the menu level; then `ShowProfile` runs.
   */
  method Profile(db: Store, userId: int, username: Option<string>, fullName: Option<string>,
                 ownerId: int, isPrivate: bool, lookup: RoleLookup, args: Option<string>, reply: Option<int>)
    returns (r: ProfileOutcome)
    requires db.Valid()
    modifies db
    ensures db.Valid()
    ensures unchanged(db`repHistory, db`warnReasons, db`whitelist, db`badwords)
    ensures var reg := Registered(old(db.users), userId, username, fullName);
      var eff := EffectiveLevel(userId, ownerId, reg[userId].modLevel, isPrivate, lookup);
      var lvl := reg[userId].level;
      (r == ForeignDenied <==> IsForeignRequest(args, reply) && MenuLevel(eff, lvl) < 4)
      && (r.Show? ==> db.users == Registered(reg, r.target, None, None))
      && (r.Show? ==> r.keyboard == KeyboardOf(r.target, userId, eff, lvl))
      && (!r.Show? ==> db.users == reg)
      && (!IsForeignRequest(args, reply) ==>
            r == if userId == 0 then Silent else Show(userId, KeyboardOf(userId, userId, eff, lvl)))
  {
    var caller := db.GetUser(userId, username, fullName);
    var eff := EffectiveLevel(userId, ownerId, caller.modLevel, isPrivate, lookup);
    r := ShowProfile(db, userId, eff, caller.level, args, reply);
  }

  // ---------------------------------------------------------------------
  // XP for messages and media

  /** The words of a message with every word starting with "http" dropped. */
  function NonLinks(ws: seq<string>): (r: seq<string>)
    ensures |r| <= |ws|
    ensures forall k :: 0 <= k < |r| ==> !StartsWith(r[k], "http")
  {
    if ws == [] then []
    else if StartsWith(ws[0], "http") then NonLinks(ws[1..])
    else [ws[0]] + NonLinks(ws[1..])
  }

  /** `' '.join(w for w in text.split() if not w.startswith('http'))` */
  function HttpFree(text: string): string {
    Join(NonLinks(Words(text)), " ")
  }

  /** `int(x * 1.5)` during the night hours 2..6, `x` otherwise. */
  function NightBoost(x: nat, hour: int): nat {
    if 2 <= hour < 7 then x * 3 / 2 else x
  }

  /** The last time recorded under `key`, or `dflt` when there is none (`dict.get(key, dflt)`). */
  function LastOr(m: map<int, real>, key: int, dflt: real): real {
    if key in m then m[key] else dflt
  }

  /** The chat has been silent for more than an hour; a chat never seen counts as active now. */
  predicate Revives(chatLastActive: map<int, real>, chatId: int, now: real) {
    now - LastOr(chatLastActive, chatId, now) > 3600.0
  }

  /** The XP of a message: 5, plus 10 for a long text, plus 50 for reviving the chat, boosted at night. */
  function TextXp(long: bool, revives: bool, hour: int): nat {
    NightBoost(5 + (if long then 10 else 0) + (if revives then 50 else 0), hour)
  }

  /** Every amount a message can earn, and the night boost is exactly half again, rounded down. */
  lemma {:induction false} TextXpValues(long: bool, revives: bool, hour: int)
    ensures TextXp(long, revives, hour) in {5, 15, 55, 65, 7, 22, 82, 97}
    ensures 5 <= TextXp(long, revives, hour) <= 97
    ensures !(2 <= hour < 7) ==> TextXp(long, revives, hour) == 5 + (if long then 10 else 0) + (if revives then 50 else 0)
    ensures revives ==> TextXp(long, revives, hour) >= 55
  {
  }

  /** The first message seen in a chat never earns the revival bonus. */
  lemma {:induction false} FirstMessageNeverRevives(chatLastActive: map<int, real>, chatId: int, now: real)
    requires chatId !in chatLastActive
    ensures !Revives(chatLastActive, chatId, now)
  {
  }

  /** A message made only of links is never long. */
  lemma {:induction false} OnlyLinksNotLong(text: string)
    requires forall k :: 0 <= k < |Words(text)| ==> StartsWith(Words(text)[k], "http")
    ensures HttpFree(text) == ""
  {
    AllLinksDropped(Words(text));
  }

  lemma {:induction false} AllLinksDropped(ws: seq<string>)
    requires forall k :: 0 <= k < |ws| ==> StartsWith(ws[k], "http")
    ensures NonLinks(ws) == []
  {
    if ws != [] {
      AllLinksDropped(ws[1..]);
    }
  }

  /** The XP of a photo or video: 15, or 22 at night. */
  function MediaXp(hour: int): (x: nat)
    ensures x == 15 || x == 22
    ensures x == 22 <==> 2 <= hour < 7
  {
    NightBoost(15, hour)
  }

  /** The three phrases that, sent as a reply, grant reputation. */
  predicate IsRepTrigger(text: string) {
    var t := Lower(Strip(text));
    t == "+rep" || t == "+реп" || t == "респект"
  }

  /** Who may grant reputation: RPG level 4, any staff level, the owner, or a chat admin. */
  predicate RepAllowed(rpgLevel: int, modLevel: int, userId: int, ownerId: int, lookup: RoleLookup) {
    rpgLevel >= 4 || modLevel >= 1 || userId == ownerId || IsChatAdmin(lookup)
  }

  /** The owner needs no level; a user above level 4 with no role is always allowed; a fresh user is not. */
  lemma {:induction false} RepAllowedCases(userId: int, ownerId: int, lookup: RoleLookup)
    ensures RepAllowed(1, 0, ownerId, ownerId, None)
    ensures RepAllowed(4, 0, userId, ownerId, None)
    ensures userId != ownerId && !IsChatAdmin(lookup) ==> !RepAllowed(NewRow(None, None).level, NewRow(None, None).modLevel, userId, ownerId, lookup)
  {
  }

  datatype TextOutcome = Ignored | RepLocked | RepDone(result: RepResult) | TooSoon | Earned(xp: nat, oldLevel: int, newLevel: int)

  datatype MediaOutcome = MediaIgnored | MediaCooldown | MediaCredited(xp: nat, oldLevel: int, newLevel: int)

  /** What the "+rep" branch answers: a padlock for a giver who may not grant, else `give_reputation`'s answer. */
  function RepAnswer(users: map<int, UserRow>, history: set<RepGrant>, userId: int, targetId: int,
                     ownerId: int, lookup: RoleLookup, today: string): (out: TextOutcome)
    ensures out == RepLocked || out == RepDone(RepOutcome(history, userId, targetId, today))
    ensures var giver := Registered(users, userId, None, None)[userId];
      out == RepLocked <==> !RepAllowed(giver.level, giver.modLevel, userId, ownerId, lookup)
  {
    var giver := Registered(users, userId, None, None)[userId];
    if RepAllowed(giver.level, giver.modLevel, userId, ownerId, lookup) then RepDone(RepOutcome(history, userId, targetId, today))
    else RepLocked
  }

  /**
   * The users table after the "+rep" branch: the giver is registered, and a
   * successful grant adds one reputation point and 150 XP to the target.
   */
  function RepUsers(users: map<int, UserRow>, userId: int, targetId: int, success: bool): (r: map<int, UserRow>)
    requires forall id :: id in users ==> IsLevel(users[id].level)
    ensures r.Keys == users.Keys + {userId}
    ensures forall id :: id in users && id != userId && id != targetId ==> r[id] == users[id]
    ensures !success ==> r == Registered(users, userId, None, None)
    ensures success && userId != targetId ==> r[userId] == Registered(users, userId, None, None)[userId]
  {
    var reg := Registered(users, userId, None, None);
    if success then Credit(Endorsed(reg, targetId), targetId, 150) else reg
  }

  /**
   * A "+rep" reply never farms XP: whatever the branch answers, the giver
   * ends with exactly the XP and level the registration left.
   */
  lemma {:induction false} RepNeverFarms(users: map<int, UserRow>, history: set<RepGrant>, userId: int, targetId: int,
                                         ownerId: int, lookup: RoleLookup, today: string)
    requires forall id :: id in users ==> IsLevel(users[id].level)
    ensures var out := RepAnswer(users, history, userId, targetId, ownerId, lookup, today);
      var after := RepUsers(users, userId, targetId, out == RepDone(Success));
      var giver := Registered(users, userId, None, None)[userId];
      userId in after && after[userId].xp == giver.xp && after[userId].level == giver.level
  {
    var out := RepAnswer(users, history, userId, targetId, ownerId, lookup, today);
    if out == RepDone(Success) {
      assert RepOutcome(history, userId, targetId, today) == Success;
      assert userId != targetId;
    }
  }

  /**
   * The "+rep" branch of `text_handler`: the giver's row is fetched (and
   * created), and an allowed giver calls `give_reputation`; success credits
   * the target 150 XP.
   */
  method GiveRep(db: Store, userId: int, targetId: int, ownerId: int, lookup: RoleLookup, today: string)
    returns (out: TextOutcome)
    requires db.Valid()
    modifies db
    ensures db.Valid()
    ensures unchanged(db`warnReasons, db`whitelist, db`badwords)
    ensures out == RepAnswer(old(db.users), old(db.repHistory), userId, targetId, ownerId, lookup, today)
    ensures db.users == RepUsers(old(db.users), userId, targetId, out == RepDone(Success))
    ensures out != RepDone(Success) ==> db.repHistory == old(db.repHistory)
    ensures out == RepDone(Success) ==> db.repHistory == old(db.repHistory) + {RepGrant(userId, targetId, today)}
  {
    var giver := db.GetUser(userId, None, None);
    ghost var reg := db.users;
    assert reg == Registered(old(db.users), userId, None, None);
    if giver.level >= 4 || giver.modLevel >= 1 || userId == ownerId || IsChatAdmin(lookup) {
      var result := db.GiveReputation(userId, targetId, today);
      if result == Success {
        assert db.users == Endorsed(reg, targetId);
        var _, _, _ := db.UpdateXp(targetId, 150);
      }
      out := RepDone(result);
    } else {
      out := RepLocked;
    }
  }

  /** The XP caches of user.py: when each user last earned by text and by media, and when each chat was last active. */
  class XpCaches {
    var userLastMsg: map<int, real>
    var mediaCooldown: map<int, real>
    var chatLastActive: map<int, real>

    constructor ()
      ensures userLastMsg == map[] && mediaCooldown == map[] && chatLastActive == map[]
    {
      userLastMsg := map[];
      mediaCooldown := map[];
      chatLastActive := map[];
    }

    /**
     * `text_handler` for a group message that is not a command. A "+rep"
     * reply is handled by `GiveRep` and never earns XP; any other message
     * earns `TextXp` at most once a minute per user.
     */
    method OnText(db: Store, chatId: int, userId: int, username: Option<string>, fullName: Option<string>,
                  isPrivate: bool, text: string, replyAuthor: Option<int>,
                  ownerId: int, lookup: RoleLookup, now: real, hour: int, today: string)
      returns (out: TextOutcome)
      requires db.Valid()
      modifies this, db
      ensures db.Valid()
      ensures unchanged(db`warnReasons, db`whitelist, db`badwords)
      ensures isPrivate ==> out == Ignored && unchanged(db`users, db`repHistory)
      ensures isPrivate || (replyAuthor.Some? && IsRepTrigger(text)) || out == TooSoon ==>
        userLastMsg == old(userLastMsg) && chatLastActive == old(chatLastActive)
      ensures mediaCooldown == old(mediaCooldown)
      ensures !isPrivate && replyAuthor.Some? && IsRepTrigger(text) ==>
        out == RepAnswer(old(db.users), old(db.repHistory), userId, replyAuthor.value, ownerId, lookup, today)
        && db.users == RepUsers(old(db.users), userId, replyAuthor.value, out == RepDone(Success))
        && (out != RepDone(Success) ==> db.repHistory == old(db.repHistory))
        && (out == RepDone(Success) ==> db.repHistory == old(db.repHistory) + {RepGrant(userId, replyAuthor.value, today)})
      ensures !isPrivate && !(replyAuthor.Some? && IsRepTrigger(text)) ==>
        (out == TooSoon <==> now - LastOr(old(userLastMsg), userId, 0.0) < 60.0)
        && (out != TooSoon ==> out.Earned? && out.xp == TextXp(|HttpFree(text)| > 50, Revives(old(chatLastActive), chatId, now), hour))
        && db.repHistory == old(db.repHistory)
      ensures out == TooSoon ==> db.users == old(db.users)
      ensures out.Earned? ==>
        userLastMsg == old(userLastMsg)[userId := now] && chatLastActive == old(chatLastActive)[chatId := now]
        && db.users == Credit(Registered(old(db.users), userId, username, fullName), userId, out.xp)
    {
      if isPrivate {
        return Ignored;
      }
      if replyAuthor.Some? && IsRepTrigger(text) {
        out := GiveRep(db, userId, replyAuthor.value, ownerId, lookup, today);
        return;
      }
      out := Farm(db, chatId, userId, username, fullName, text, now, hour);
    }

    /** The XP half of `text_handler`. */
    method Farm(db: Store, chatId: int, userId: int, username: Option<string>, fullName: Option<string>,
                text: string, now: real, hour: int)
      returns (out: TextOutcome)
      requires db.Valid()
      modifies this, db
      ensures db.Valid()
      ensures mediaCooldown == old(mediaCooldown)
      ensures unchanged(db`repHistory, db`warnReasons, db`whitelist, db`badwords)
      ensures out == TooSoon <==> now - LastOr(old(userLastMsg), userId, 0.0) < 60.0
      ensures out == TooSoon ==> userLastMsg == old(userLastMsg) && chatLastActive == old(chatLastActive) && db.users == old(db.users)
      ensures out != TooSoon ==> out.Earned? && out.xp == TextXp(|HttpFree(text)| > 50, Revives(old(chatLastActive), chatId, now), hour)
      ensures out.Earned? ==>
        userLastMsg == old(userLastMsg)[userId := now] && chatLastActive == old(chatLastActive)[chatId := now]
        && db.users == Credit(Registered(old(db.users), userId, username, fullName), userId, out.xp)
        && db.repHistory == old(db.repHistory)
    {
      var lastMsg := if userId in userLastMsg then userLastMsg[userId] else 0.0;
      if now - lastMsg < 60.0 {
        return TooSoon;
      }
      userLastMsg := userLastMsg[userId := now];
      var earned := Score(chatId, text, now, hour);
      var _ := db.GetUser(userId, username, fullName);
      assert db.users == Registered(old(db.users), userId, username, fullName);
      var oldLvl, newLvl, _ := db.UpdateXp(userId, earned);
      out := Earned(earned, oldLvl, newLvl);
    }

    /** The amount of an earning message, step by step; the chat is marked active. */
    method Score(chatId: int, text: string, now: real, hour: int) returns (earned: nat)
      modifies this
      ensures earned == TextXp(|HttpFree(text)| > 50, Revives(old(chatLastActive), chatId, now), hour)
      ensures chatLastActive == old(chatLastActive)[chatId := now]
      ensures userLastMsg == old(userLastMsg) && mediaCooldown == old(mediaCooldown)
    {
      earned := 5;
      if |HttpFree(text)| > 50 {
        earned := earned + 10;
      }
      var chatLast := if chatId in chatLastActive then chatLastActive[chatId] else now;
      if now - chatLast > 3600.0 {
        earned := earned + 50;
      }
      chatLastActive := chatLastActive[chatId := now];
      if 2 <= hour < 7 {
        earned := earned * 3 / 2;
      }
    }

    /** `media_handler`: a photo or video in a group earns `MediaXp` when the last one was more than ten minutes ago. */
    method OnMedia(db: Store, userId: int, username: Option<string>, fullName: Option<string>,
                   isPrivate: bool, now: real, hour: int)
      returns (out: MediaOutcome)
      requires db.Valid()
      modifies this, db
      ensures db.Valid()
      ensures userLastMsg == old(userLastMsg) && chatLastActive == old(chatLastActive)
      ensures unchanged(db`repHistory, db`warnReasons, db`whitelist, db`badwords)
      ensures isPrivate ==> out == MediaIgnored
      ensures !isPrivate ==> (out == MediaCooldown <==> now - LastOr(old(mediaCooldown), userId, 0.0) <= 600.0)
      ensures out == MediaIgnored || out == MediaCooldown ==> mediaCooldown == old(mediaCooldown) && db.users == old(db.users)
      ensures out.MediaCredited? ==>
        out.xp == MediaXp(hour) && mediaCooldown == old(mediaCooldown)[userId := now]
        && db.users == Credit(Registered(old(db.users), userId, username, fullName), userId, out.xp)
    {
      if isPrivate {
        return MediaIgnored;
      }
      var lastMedia := if userId in mediaCooldown then mediaCooldown[userId] else 0.0;
      if now - lastMedia > 600.0 {
        mediaCooldown := mediaCooldown[userId := now];
        var _ := db.GetUser(userId, username, fullName);
        assert db.users == Registered(old(db.users), userId, username, fullName);
        var amount: nat := 15;
        if 2 <= hour < 7 {
          amount := amount * 3 / 2;
        }
        var oldLvl, newLvl, _ := db.UpdateXp(userId, amount);
        return MediaCredited(amount, oldLvl, newLvl);
      }
      return MediaCooldown;
    }
  }

  /** Two ordinary messages less than a minute apart: the first earns, the second does not. */
  method TwoMessagesWithinAMinute(db: Store, chatId: int, userId: int, text: string, now: real, later: real, hour: int)
    returns (first: TextOutcome, second: TextOutcome)
    requires db.Valid() && now >= 60.0 && now <= later < now + 60.0
    modifies db
    ensures first.Earned? && second == TooSoon
  {
    var caches := new XpCaches();
    first := caches.OnText(db, chatId, userId, None, None, false, text, None, 0, None, now, hour, "");
    second := caches.OnText(db, chatId, userId, None, None, false, text, None, 0, None, later, hour, "");
  }

  // ---------------------------------------------------------------------
  // /wipe

  datatype WipeOutcome = NoReply | WipeRefused | WipeCooledDown | Wiped

  /** Who `/wipe` lets through without the level check and the daily cooldown. */
  predicate WipeBypass(userId: int, ownerId: int, modLevel: int, isPrivate: bool, lookup: RoleLookup) {
    userId == ownerId || modLevel >= 5 || (!isPrivate && IsChatAdmin(lookup))
  }

  /**
   * `cmd_wipe`: only as a reply; the caller's row is fetched (and created);
   * the privileged wipe at once, anyone else needs RPG level 5 and a wipe
   * left for today.
   */
  method CmdWipe(db: Store, hasReply: bool, userId: int, ownerId: int, isPrivate: bool, lookup: RoleLookup, today: string)
    returns (out: WipeOutcome)
    requires db.Valid()
    modifies db
    ensures db.Valid()
    ensures !hasReply <==> out == NoReply
    ensures hasReply ==>
      var row := Registered(old(db.users), userId, None, None)[userId];
      var bypass := WipeBypass(userId, ownerId, row.modLevel, isPrivate, lookup);
      (out == WipeRefused <==> row.level < 5 && !bypass)
      && (bypass ==> out == Wiped)
      && (out == WipeCooledDown <==> !bypass && row.level >= 5 && row.lastWipeDate == Some(today))
    ensures unchanged(db`repHistory, db`warnReasons, db`whitelist, db`badwords)
    ensures out == NoReply ==> db.users == old(db.users)
    ensures hasReply ==>
      var reg := Registered(old(db.users), userId, None, None);
      var bypass := WipeBypass(userId, ownerId, reg[userId].modLevel, isPrivate, lookup);
      (out == WipeRefused || out == WipeCooledDown || bypass ==> db.users == reg)
      && (out == Wiped && !bypass ==> db.users == reg[userId := reg[userId].(lastWipeDate := Some(today))])
    ensures out == Wiped && hasReply ==>
      WipeBypass(userId, ownerId, db.users[userId].modLevel, isPrivate, lookup) || db.users[userId].lastWipeDate == Some(today)
  {
    if !hasReply {
      return NoReply;
    }
    var row := db.GetUser(userId, None, None);
    assert db.users == Registered(old(db.users), userId, None, None);
    var isChatAdmin := false;
    if userId == ownerId || row.modLevel >= 5 {
      isChatAdmin := true;
    } else if !isPrivate {
      if IsChatAdmin(lookup) {
        isChatAdmin := true;
      }
    }
    if row.level < 5 && !isChatAdmin {
      return WipeRefused;
    }
    if !isChatAdmin {
      var canWipe := db.CheckWipeCooldown(userId, today);
      if !canWipe {
        return WipeCooledDown;
      }
    }
    return Wiped;
  }

  /** A level-5 member without privileges wipes once a day: the second `/wipe` on the same day is refused. */
  method WipeTwiceADay(db: Store, userId: int, ownerId: int, today: string) returns (first: WipeOutcome, second: WipeOutcome)
    requires db.Valid() && userId != ownerId
    requires userId in db.users && db.users[userId].level == 5 && db.users[userId].modLevel < 5
    requires db.users[userId].lastWipeDate != Some(today)
    modifies db
    ensures first == Wiped && second == WipeCooledDown
  {
    first := CmdWipe(db, true, userId, ownerId, false, None, today);
    second := CmdWipe(db, true, userId, ownerId, false, None, today);
  }

  // ---------------------------------------------------------------------
  // /staff

  /** One row of `get_all_staff`. */
  datatype StaffEntry = StaffEntry(name: Option<string>, modLevel: int, username: Option<string>, uid: int)

  /** A role heading: a known title, or "Role n" for any other level. */
  datatype Title = Known(name: string) | OtherRole(level: int)

  /** `roles.get(mod_lvl, f"Role {mod_lvl}")` */
  function RoleTitle(modLevel: int): Title {
    if modLevel == 4 then Known("Manager")
    else if modLevel == 3 then Known("Moder³")
    else if modLevel == 2 then Known("Moder²")
    else if modLevel == 1 then Known("Moder¹")
    else OtherRole(modLevel)
  }

  /** Different levels get different headings. */
  lemma {:induction false} RoleTitleInjective(a: int, b: int)
    requires RoleTitle(a) == RoleTitle(b)
    ensures a == b
  {
  }

  /** The entries listed under heading `t`, in the order of the list. */
  function Members(staff: seq<StaffEntry>, t: Title): seq<StaffEntry> {
    if staff == [] then []
    else
      var last := staff[|staff| - 1];
      Members(staff[..|staff| - 1], t) + (if last.modLevel < 5 && RoleTitle(last.modLevel) == t then [last] else [])
  }

  /** The grouping loop of `cmd_staff`: entries at level 5 and above are skipped. */
  method GroupStaff(staff: seq<StaffEntry>) returns (grouped: map<Title, seq<StaffEntry>>)
    ensures forall t :: t in grouped <==> Members(staff, t) != []
    ensures forall t :: t in grouped ==> grouped[t] == Members(staff, t)
  {
    grouped := map[];
    var i := 0;
    while i < |staff|
      invariant 0 <= i <= |staff|
      invariant forall t :: t in grouped <==> Members(staff[..i], t) != []
      invariant forall t :: t in grouped ==> grouped[t] == Members(staff[..i], t)
    {
      var e := staff[i];
      assert staff[..i + 1][..i] == staff[..i];
      if e.modLevel < 5 {
        var title := RoleTitle(e.modLevel);
        var current := if title in grouped then grouped[title] else [];
        grouped := grouped[title := current + [e]];
      }
      i := i + 1;
    }
    assert staff[..|staff|] == staff;
  }

  /** Every listed entry sits under its own level's heading and below level 5. */
  lemma {:induction false} MembersSpec(staff: seq<StaffEntry>, t: Title)
    ensures forall k :: 0 <= k < |Members(staff, t)| ==>
      Members(staff, t)[k].modLevel < 5 && RoleTitle(Members(staff, t)[k].modLevel) == t
    ensures forall e :: e in Members(staff, t) ==> e in staff
  {
    if staff != [] {
      MembersSpec(staff[..|staff| - 1], t);
    }
  }

  /** An entry below level 5 is listed under its heading. */
  lemma {:induction false} MembersComplete(staff: seq<StaffEntry>, k: nat)
    requires k < |staff| && staff[k].modLevel < 5
    ensures staff[k] in Members(staff, RoleTitle(staff[k].modLevel))
  {
    var t := RoleTitle(staff[k].modLevel);
    if k == |staff| - 1 {
    } else {
      MembersComplete(staff[..|staff| - 1], k);
    }
  }

  /** The headings `cmd_staff` prints, in order, each with its entries; empty groups are skipped. */
  function Sections(grouped: map<Title, seq<StaffEntry>>): seq<(Title, seq<StaffEntry>)> {
    Section(grouped, 4) + Section(grouped, 3) + Section(grouped, 2) + Section(grouped, 1)
  }

  function Section(grouped: map<Title, seq<StaffEntry>>, lvl: int): seq<(Title, seq<StaffEntry>)> {
    var t := RoleTitle(lvl);
    if t in grouped && grouped[t] != [] then [(t, grouped[t])] else []
  }

  /** The heading of level `lvl` with its entries, when it has any. */
  function Shown(staff: seq<StaffEntry>, lvl: int): seq<(Title, seq<StaffEntry>)> {
    var t := RoleTitle(lvl);
    if Members(staff, t) != [] then [(t, Members(staff, t))] else []
  }

  /**
   * What the staff list shows depends on the staff rows alone: the non-empty
   * headings of levels 4, 3, 2 and 1, in that order, each with its entries;
   * nothing of level 5 or above, nor of levels without a title.
   */
  lemma {:induction false} StaffSectionsShape(staff: seq<StaffEntry>, grouped: map<Title, seq<StaffEntry>>)
    requires forall t :: t in grouped <==> Members(staff, t) != []
    requires forall t :: t in grouped ==> grouped[t] == Members(staff, t)
    ensures Sections(grouped) == Shown(staff, 4) + Shown(staff, 3) + Shown(staff, 2) + Shown(staff, 1)
  {
    assert Section(grouped, 4) == Shown(staff, 4);
    assert Section(grouped, 3) == Shown(staff, 3);
    assert Section(grouped, 2) == Shown(staff, 2);
    assert Section(grouped, 1) == Shown(staff, 1);
  }

  /** Every entry at levels 1 to 4 is shown under some heading. */
  lemma {:induction false} StaffSectionsComplete(staff: seq<StaffEntry>, grouped: map<Title, seq<StaffEntry>>)
    requires forall t :: t in grouped <==> Members(staff, t) != []
    requires forall t :: t in grouped ==> grouped[t] == Members(staff, t)
    ensures forall i :: 0 <= i < |staff| && 1 <= staff[i].modLevel <= 4 ==>
      exists k :: 0 <= k < |Sections(grouped)| && staff[i] in Sections(grouped)[k].1
  {
    var s4, s3, s2 := Section(grouped, 4), Section(grouped, 3), Section(grouped, 2);
    var s := Sections(grouped);
    forall i | 0 <= i < |staff| && 1 <= staff[i].modLevel <= 4
      ensures exists k :: 0 <= k < |s| && staff[i] in s[k].1
    {
      var l := staff[i].modLevel;
      MembersComplete(staff, i);
      var before := if l == 4 then 0 else if l == 3 then |s4| else if l == 2 then |s4| + |s3| else |s4| + |s3| + |s2|;
      assert s[before] == (RoleTitle(l), Members(staff, RoleTitle(l)));
    }
  }
}
