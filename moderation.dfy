/**
 * The rank and moderation rules of telegramBot/modules/moderation.py: who
 * ranks how high, who may act on whom, what a manager may grant, which
 * messages break the rules, when warnings turn into a restriction, and what
 * the anti-flood middleware does with a group message.
 */
module Moderation {
  import opened Wrappers
  import opened Text
  import opened Telegram
  import opened Database
  import opened Flood
  import opened TextAnalysis
  import opened CommandArgs
  import opened Levels

  const LvlUser: int := 0
  const LvlHelper: int := 1
  const LvlModer: int := 2
  const LvlSenior: int := 3
  const LvlManager: int := 4
  const LvlAdmin: int := 5

  // ---------------------------------------------------------------------
  // Ranks

  /** The `mod_level` column as `get_sender_level` reads it: 0 for a row it has just created. */
  function StoredModLevel(users: map<int, UserRow>, userId: int): int {
    if userId in users then users[userId].modLevel else 0
  }

  /**
   * `get_sender_level` once the stored level is known: the owner and the two
   * platform accounts first, then a positive stored level, then the chat role
   * (a lookup that raised counts as no role, and private chats are not
   * looked up), then 0.
   */
  function SenderLevel(userId: int, ownerId: int, modLevel: int, isPrivate: bool, lookup: RoleLookup): int {
    if IsSuperActor(userId, ownerId) then LvlAdmin
    else if modLevel > 0 then modLevel
    else if !isPrivate && IsChatAdmin(lookup) then LvlAdmin
    else LvlUser
  }

  /** The users table after `get_sender_level(userId)`: anyone but the special ids goes through `get_user`. */
  function Looked(users: map<int, UserRow>, userId: int, ownerId: int): (r: map<int, UserRow>)
    ensures IsSuperActor(userId, ownerId) || userId in users ==> r == users
    ensures !IsSuperActor(userId, ownerId) && userId !in users ==> r == users[userId := NewRow(None, None)]
  {
    if IsSuperActor(userId, ownerId) then users else Registered(users, userId, None, None)
  }

  /**
   * `get_sender_level`: the special ids answer at once; anyone else is looked
   * up with `get_user`, which creates the row of a user never seen before.
   */
  method GetSenderLevel(db: Store, userId: int, ownerId: int, isPrivate: bool, lookup: RoleLookup)
    returns (level: int)
    requires db.Valid()
    modifies db
    ensures db.Valid()
    ensures level == SenderLevel(userId, ownerId, StoredModLevel(old(db.users), userId), isPrivate, lookup)
    ensures db.repHistory == old(db.repHistory) && db.warnReasons == old(db.warnReasons)
    ensures db.whitelist == old(db.whitelist) && db.badwords == old(db.badwords)
    ensures IsSuperActor(userId, ownerId) || userId in old(db.users) ==> db.users == old(db.users)
    ensures !IsSuperActor(userId, ownerId) && userId !in old(db.users) ==>
      db.users == old(db.users)[userId := NewRow(None, None)]
    ensures db.users == Looked(old(db.users), userId, ownerId)
  {
    if userId == ownerId {
      return LvlAdmin;
    }
    if userId == AnonBotId || userId == ServiceId {
      return LvlAdmin;
    }
    var row := db.GetUser(userId, None, None);
    var dbLevel := row.modLevel;
    if dbLevel > 0 {
      return dbLevel;
    }
    if !isPrivate {
      if IsChatAdmin(lookup) {
        return LvlAdmin;
      }
    }
    return LvlUser;
  }

  /** A stored level wins over the chat role: a chat admin given level 1..4 ranks at that level, not 5. */
  lemma {:induction false} StoredLevelOverridesChatRole(userId: int, ownerId: int, modLevel: int, lookup: RoleLookup)
    requires !IsSuperActor(userId, ownerId) && 0 < modLevel < LvlAdmin && IsChatAdmin(lookup)
    ensures SenderLevel(userId, ownerId, modLevel, false, lookup) == modLevel < LvlAdmin
  {
  }

  /** Ranks stay within 0..5 while the stored levels do. */
  lemma {:induction false} SenderLevelBounds(userId: int, ownerId: int, modLevel: int, isPrivate: bool, lookup: RoleLookup)
    requires 0 <= modLevel <= LvlAdmin
    ensures 0 <= SenderLevel(userId, ownerId, modLevel, isPrivate, lookup) <= LvlAdmin
    ensures SenderLevel(userId, ownerId, modLevel, isPrivate, lookup) == LvlUser <==>
      !IsSuperActor(userId, ownerId) && modLevel == 0 && !(!isPrivate && IsChatAdmin(lookup))
  {
  }

  /** In a private chat the chat role is never consulted. */
  lemma {:induction false} PrivateIgnoresRole(userId: int, ownerId: int, modLevel: int, lookup: RoleLookup)
    ensures SenderLevel(userId, ownerId, modLevel, true, lookup) == SenderLevel(userId, ownerId, modLevel, true, None)
  {
  }

  /** `is_admin`: a message sent on behalf of the chat itself passes; otherwise the rank must reach `required`. */
  method IsAdmin(db: Store, userId: int, ownerId: int, isPrivate: bool, lookup: RoleLookup,
                 sameChatSender: bool, required: int)
    returns (b: bool)
    requires db.Valid()
    modifies db
    ensures db.Valid()
    ensures b <==> sameChatSender || SenderLevel(userId, ownerId, StoredModLevel(old(db.users), userId), isPrivate, lookup) >= required
    ensures sameChatSender ==> db.users == old(db.users)
    ensures !sameChatSender && (IsSuperActor(userId, ownerId) || userId in old(db.users)) ==> db.users == old(db.users)
    ensures !sameChatSender && !IsSuperActor(userId, ownerId) && userId !in old(db.users) ==>
      db.users == old(db.users)[userId := NewRow(None, None)]
    ensures db.repHistory == old(db.repHistory) && db.warnReasons == old(db.warnReasons)
    ensures db.whitelist == old(db.whitelist) && db.badwords == old(db.badwords)
  {
    if sameChatSender {
      return true;
    }
    var actual := GetSenderLevel(db, userId, ownerId, isPrivate, lookup);
    b := actual >= required;
  }

  // ---------------------------------------------------------------------
  // Who may act on whom

  /** The guard of mute, warn, kick and ban: the target must rank strictly lower, unless the owner acts. */
  predicate MayActOn(senderId: int, ownerId: int, senderLevel: int, targetLevel: int) {
    !(targetLevel >= senderLevel && senderId != ownerId)
  }

  /** Between two users other than the owner, at most one may act on the other, and never on an equal. */
  lemma {:induction false} NoMutualAction(a: int, b: int, ownerId: int, la: int, lb: int)
    requires a != ownerId && b != ownerId
    ensures !(MayActOn(a, ownerId, la, lb) && MayActOn(b, ownerId, lb, la))
    ensures la == lb ==> !MayActOn(a, ownerId, la, lb)
  {
  }

  datatype Command = MuteCmd | WarnCmd | UnwarnCmd | UnmuteCmd | KickCmd | BanCmd | UnbanCmd

  /** The `required_level` each command passes to `is_admin`. */
  function RequiredLevel(c: Command): int {
    match c
    case KickCmd => LvlModer
    case BanCmd => LvlSenior
    case UnbanCmd => LvlSenior
    case _ => LvlHelper
  }

  /** The commands that compare the two ranks before acting. */
  predicate RankGuarded(c: Command) {
    c == MuteCmd || c == WarnCmd || c == KickCmd || c == BanCmd
  }

  datatype Gate = NoRights | MissingTarget | Outranked | Proceed(target: int)

  /**
   * The checks every moderation command runs in turn: `is_admin` with the
   * command's level, a truthy target id from `parse_command_complex`, and for
   * the guarded commands the rank comparison.
   */
  function GateOf(c: Command, sameChatSender: bool, senderId: int, ownerId: int, senderLevel: int,
                  target: Option<int>, targetLevel: int): Gate {
    if !(sameChatSender || senderLevel >= RequiredLevel(c)) then NoRights
    else if target.None? || target.value == 0 then MissingTarget
    else if RankGuarded(c) && !MayActOn(senderId, ownerId, senderLevel, targetLevel) then Outranked
    else Proceed(target.value)
  }

  /** A command goes ahead exactly when all of its checks pass. */
  lemma {:induction false} GateProceedsIff(c: Command, sameChatSender: bool, senderId: int, ownerId: int,
                                           senderLevel: int, target: Option<int>, targetLevel: int, t: int)
    ensures GateOf(c, sameChatSender, senderId, ownerId, senderLevel, target, targetLevel) == Proceed(t) <==>
      (sameChatSender || senderLevel >= RequiredLevel(c))
      && target == Some(t) && t != 0
      && (RankGuarded(c) ==> MayActOn(senderId, ownerId, senderLevel, targetLevel))
  {
  }

  /**
   * A chat administrator whom the bot stores as Moder¹ ranks 1, so `/ban`
   * (level 3) is refused to them.
   */
  lemma {:induction false} StoredHelperCannotBan(senderId: int, ownerId: int, target: Option<int>, targetLevel: int)
    requires !IsSuperActor(senderId, ownerId)
    ensures GateOf(BanCmd, false, senderId, ownerId, SenderLevel(senderId, ownerId, 1, false, Some(Administrator)),
                   target, targetLevel) == NoRights
  {
    StoredLevelOverridesChatRole(senderId, ownerId, 1, Some(Administrator));
  }

  /** `/mute`: the parsed duration when truthy, ten minutes otherwise. */
  function MuteSeconds(d: Option<nat>): (s: nat)
    ensures s > 0
    ensures Truthy(d) ==> s == d.value
  {
    if Truthy(d) then d.value else 600
  }

  datatype BanTerm = Temporary(until: int, days: int) | Permanent

  /** `/ban`: a truthy duration bans until now plus the duration, with its whole days reported; otherwise for good. */
  function BanOf(now: int, d: Option<nat>): BanTerm {
    var until := if Truthy(d) then now + d.value else 0;
    if until > 0 then Temporary(until, d.value / 86400) else Permanent
  }

  /** At any positive clock reading, a ban is permanent exactly when no truthy duration was given. */
  lemma {:induction false} BanPermanentIff(now: int, d: Option<nat>)
    requires now > 0
    ensures BanOf(now, d).Permanent? <==> !Truthy(d)
    ensures BanOf(now, d).Temporary? ==> BanOf(now, d).until > now && BanOf(now, d).days * 86400 <= d.value
  {
  }

  // ---------------------------------------------------------------------
  // Manager promotion limits

  datatype PromoteResult = ManagersOnly | Usage | NotANumber | UserNotFound | ManagerCap | TargetTooHigh
    | Promoted(target: int, level: int)

  /** The words after `/setlevel`: `command.args.split()`, or none. */
  function PromoteArgs(argsText: Option<string>): seq<string> {
    Words(argsText.GetOr(""))
  }

  /** The user part of `/setlevel`: every word but the last, joined. */
  function UserPart(args: seq<string>): string
    requires |args| >= 1
  {
    Join(args[..|args| - 1], " ")
  }

  /** `t` is a user `parse_command_complex` can pick from the reply or these words. */
  predicate TargetFits(users: map<int, UserRow>, reply: Option<(int, string)>, words: seq<string>, t: int) {
    match SourceOf(reply, words)
    case ByReply(id, _) => t == id
    case ByHandle(h) => t in users && users[t].username == Some(Clean(h))
    case ById(n) => t == n
    case NoTarget => false
  }

  /**
   * `cmd_promote`: only a Manager (4) or higher may run it; the last word is
   * the new level and the rest names the target. A Manager may hand out only
   * levels below 4 and only to someone currently below 4; level 5 and above
   * is unrestricted. The new level is written with `set_moderator_level`.
   */
  method Promote(db: Store, senderLevel: int, reply: Option<(int, string)>, argsText: Option<string>,
                 ownerId: int, isPrivate: bool, targetLookup: RoleLookup)
    returns (r: PromoteResult)
    requires db.Valid()
    modifies db
    ensures db.Valid()
    ensures db.repHistory == old(db.repHistory) && db.warnReasons == old(db.warnReasons)
    ensures db.whitelist == old(db.whitelist) && db.badwords == old(db.badwords)
    ensures !r.Promoted? && r != TargetTooHigh ==> db.users == old(db.users)
    ensures r == UserNotFound ==>
      var args := PromoteArgs(argsText);
      |args| >= 2
      && ((forall t :: t != 0 ==> !TargetFits(old(db.users), reply, Words(UserPart(args)), t))
          || TargetFits(old(db.users), reply, Words(UserPart(args)), 0))
    ensures var args := PromoteArgs(argsText);
      senderLevel > LvlManager && |args| >= 2 && ParseInt(args[|args| - 1]).Some?
      && (exists t :: t != 0 && TargetFits(old(db.users), reply, Words(UserPart(args)), t))
      && !TargetFits(old(db.users), reply, Words(UserPart(args)), 0)
      ==> r.Promoted? && r.level == ParseInt(args[|args| - 1]).value
    ensures r == TargetTooHigh ==>
      var args := PromoteArgs(argsText);
      |args| >= 2
      && exists t :: t != 0 && TargetFits(old(db.users), reply, Words(UserPart(args)), t) && db.users == Looked(old(db.users), t, ownerId)
    ensures r.Promoted? ==>
      db.users == Appointed(if senderLevel == LvlManager then Looked(old(db.users), r.target, ownerId) else old(db.users),
                            r.target, r.level)
    ensures senderLevel < LvlManager <==> r == ManagersOnly
    ensures var args := PromoteArgs(argsText);
      (senderLevel >= LvlManager && |args| >= 2 && ParseInt(args[|args| - 1]).Some?
       && (exists t :: t != 0 && TargetFits(old(db.users), reply, Words(UserPart(args)), t))
       && !TargetFits(old(db.users), reply, Words(UserPart(args)), 0))
      ==> r !in {ManagersOnly, Usage, NotANumber, UserNotFound}
    ensures r !in {ManagersOnly, Usage, NotANumber, UserNotFound} ==>
      var args := PromoteArgs(argsText);
      |args| >= 2 && ParseInt(args[|args| - 1]).Some?
      && (exists t :: t != 0 && TargetFits(old(db.users), reply, Words(UserPart(args)), t)
            && r == GrantOutcome(senderLevel, t, ParseInt(args[|args| - 1]).value,
                                 SenderLevel(t, ownerId, StoredModLevel(old(db.users), t), isPrivate, targetLookup)))
    ensures var args := PromoteArgs(argsText);
      senderLevel >= LvlManager && |args| < 2 ==> r == Usage
    ensures var args := PromoteArgs(argsText);
      senderLevel >= LvlManager && |args| >= 2 && ParseInt(args[|args| - 1]).None? ==> r == NotANumber
    ensures r.Promoted? ==>
      var args := PromoteArgs(argsText);
      |args| >= 2 && ParseInt(args[|args| - 1]) == Some(r.level) && r.target != 0
      && TargetFits(old(db.users), reply, Words(UserPart(args)), r.target)
      && (r.target in db.users ==> db.users[r.target].modLevel == r.level)
      && (forall u :: u in db.users && u != r.target ==> u in old(db.users) && db.users[u] == old(db.users)[u])
    ensures r.Promoted? && senderLevel == LvlManager ==>
      r.level < LvlManager
      && SenderLevel(r.target, ownerId, StoredModLevel(old(db.users), r.target), isPrivate, targetLookup) < LvlManager
  {
    if senderLevel < LvlManager {
      return ManagersOnly;
    }
    var args := PromoteArgs(argsText);
    if |args| < 2 {
      return Usage;
    }
    var parsed := ParseInt(args[|args| - 1]);
    if parsed.None? {
      return NotANumber;
    }
    r := Appoint(db, senderLevel, reply, UserPart(args), parsed.value, ownerId, isPrivate, targetLookup);
  }

  /** The rest of `cmd_promote` once the level is read: find the target, then `Grant`. */
  method Appoint(db: Store, senderLevel: int, reply: Option<(int, string)>, userStr: string, newLevel: int,
                 ownerId: int, isPrivate: bool, targetLookup: RoleLookup)
    returns (r: PromoteResult)
    requires db.Valid() && senderLevel >= LvlManager
    modifies db
    ensures db.Valid()
    ensures db.repHistory == old(db.repHistory) && db.warnReasons == old(db.warnReasons)
    ensures db.whitelist == old(db.whitelist) && db.badwords == old(db.badwords)
    ensures r in {UserNotFound, ManagerCap, TargetTooHigh} || (r.Promoted? && r.level == newLevel)
    ensures r == UserNotFound || r == ManagerCap ==> db.users == old(db.users)
    ensures r == UserNotFound ==>
      (forall t :: t != 0 ==> !TargetFits(old(db.users), reply, Words(userStr), t))
      || TargetFits(old(db.users), reply, Words(userStr), 0)
    ensures ((exists t :: t != 0 && TargetFits(old(db.users), reply, Words(userStr), t))
             && !TargetFits(old(db.users), reply, Words(userStr), 0)) ==> r != UserNotFound
    ensures senderLevel > LvlManager && r != UserNotFound ==> r.Promoted?
    ensures r != UserNotFound ==>
      exists t :: t != 0 && TargetFits(old(db.users), reply, Words(userStr), t)
        && r == GrantOutcome(senderLevel, t, newLevel,
                             SenderLevel(t, ownerId, StoredModLevel(old(db.users), t), isPrivate, targetLookup))
    ensures r == TargetTooHigh ==>
      exists t :: t != 0 && TargetFits(old(db.users), reply, Words(userStr), t) && db.users == Looked(old(db.users), t, ownerId)
    ensures r.Promoted? ==>
      r.target != 0 && TargetFits(old(db.users), reply, Words(userStr), r.target)
      && (r.target in db.users ==> db.users[r.target].modLevel == r.level)
      && (forall u :: u in db.users && u != r.target ==> u in old(db.users) && db.users[u] == old(db.users)[u])
      && db.users == Appointed(if senderLevel == LvlManager then Looked(old(db.users), r.target, ownerId) else old(db.users),
                               r.target, r.level)
    ensures r.Promoted? && senderLevel == LvlManager ==>
      r.level < LvlManager
      && SenderLevel(r.target, ownerId, StoredModLevel(old(db.users), r.target), isPrivate, targetLookup) < LvlManager
  {
    var data := ParseCommandComplex(db, reply, userStr);
    if data.targetId.None? || data.targetId.value == 0 {
      return UserNotFound;
    }
    r := Grant(db, senderLevel, data.targetId.value, newLevel, ownerId, isPrivate, targetLookup);
  }

  /**
   * The answer `cmd_promote` gives once its target is found, from the sender's
   * level, the requested level and the target's current level: a Manager may
   * not hand out 4 or more, nor touch someone already at 4 or more.
   */
  function GrantOutcome(senderLevel: int, target: int, newLevel: int, targetLevel: int): (r: PromoteResult)
    ensures r == ManagerCap <==> senderLevel == LvlManager && newLevel >= LvlManager
    ensures r == TargetTooHigh <==> senderLevel == LvlManager && newLevel < LvlManager && targetLevel >= LvlManager
    ensures r != ManagerCap && r != TargetTooHigh ==> r == Promoted(target, newLevel)
  {
    if senderLevel == LvlManager && newLevel >= LvlManager then ManagerCap
    else if senderLevel == LvlManager && targetLevel >= LvlManager then TargetTooHigh
    else Promoted(target, newLevel)
  }

  /**
   * The last steps of `cmd_promote`, once the target and the level are
   * known: a Manager meets the two caps; the level is then written.
   */
  method Grant(db: Store, senderLevel: int, target: int, newLevel: int,
               ownerId: int, isPrivate: bool, targetLookup: RoleLookup)
    returns (r: PromoteResult)
    requires db.Valid() && senderLevel >= LvlManager
    modifies db
    ensures db.Valid()
    ensures db.repHistory == old(db.repHistory) && db.warnReasons == old(db.warnReasons)
    ensures db.whitelist == old(db.whitelist) && db.badwords == old(db.badwords)
    ensures r == ManagerCap || r == TargetTooHigh || r == Promoted(target, newLevel)
    ensures senderLevel > LvlManager ==> r == Promoted(target, newLevel)
    ensures r == GrantOutcome(senderLevel, target, newLevel,
                              SenderLevel(target, ownerId, StoredModLevel(old(db.users), target), isPrivate, targetLookup))
    ensures r == ManagerCap <==> senderLevel == LvlManager && newLevel >= LvlManager
    ensures r == ManagerCap ==> db.users == old(db.users)
    ensures r == TargetTooHigh <==>
      (senderLevel == LvlManager && newLevel < LvlManager
       && SenderLevel(target, ownerId, StoredModLevel(old(db.users), target), isPrivate, targetLookup) >= LvlManager)
    ensures r.Promoted? ==>
      (target in db.users ==> db.users[target].modLevel == newLevel)
      && (forall u :: u in db.users && u != target ==> u in old(db.users) && db.users[u] == old(db.users)[u])
    ensures r == TargetTooHigh ==> db.users == Looked(old(db.users), target, ownerId)
    ensures r.Promoted? ==>
      db.users == Appointed(if senderLevel == LvlManager then Looked(old(db.users), target, ownerId) else old(db.users),
                            target, newLevel)
  {
    if senderLevel == LvlManager {
      if newLevel >= LvlManager {
        return ManagerCap;
      }
      var targetLevel := GetSenderLevel(db, target, ownerId, isPrivate, targetLookup);
      if targetLevel >= LvlManager {
        return TargetTooHigh;
      }
    }
    db.SetModeratorLevel(target, newLevel);
    return Promoted(target, newLevel);
  }

  // ---------------------------------------------------------------------
  // Content rules

  const AdReason: string := "Реклама / Ссылки"
  const BadWordReason: string := "Запрещенное слово"

  /** A text or caption that starts with '/' is a command and never checked. */
  predicate IsCommandText(text: Option<string>, caption: Option<string>) {
    (Given(text) && StartsWith(text.value, "/")) || (Given(caption) && StartsWith(caption.value, "/"))
  }

  /** `message.text or message.caption or ""` */
  function AnalyzedText(text: Option<string>, caption: Option<string>): string {
    if Given(text) then text.value else if Given(caption) then caption.value else ""
  }

  /** Some whitelist item occurs in the lower-cased text. */
  predicate Whitelisted(whitelist: seq<string>, textLower: string) {
    exists i :: 0 <= i < |whitelist| && IsSubstring(whitelist[i], textLower)
  }

  /**
   * What `bad_content_checker` finds in a non-empty text: a link (as the
   * detector sees the lower-cased text) that no whitelist item covers is
   * advertising; only failing that is the banned-word matcher consulted.
   */
  function TextViolation(t: string, whitelist: seq<string>, badwords: seq<string>,
                         isLink: string -> bool, ratio: (string, string) -> real): Option<string> {
    if isLink(Lower(t)) && !Whitelisted(whitelist, Lower(t)) then Some(AdReason)
    else if IsBadWord(t, badwords, ratio) then Some(BadWordReason)
    else None
  }

  /**
   * What `bad_content_checker` reports. Private chats, commands, staff from
   * helper level up and empty texts are exempt; anything else is judged by
   * `TextViolation`.
   */
  function Violation(isPrivate: bool, text: Option<string>, caption: Option<string>, isAdm: bool,
                     whitelist: seq<string>, badwords: seq<string>,
                     isLink: string -> bool, ratio: (string, string) -> real): Option<string> {
    if isPrivate || IsCommandText(text, caption) || isAdm || AnalyzedText(text, caption) == "" then None
    else TextViolation(AnalyzedText(text, caption), whitelist, badwords, isLink, ratio)
  }

  /** The whitelist loop: stops at the first item found in the text. */
  method LinkAllowed(whitelist: seq<string>, textLower: string) returns (allowed: bool)
    ensures allowed == Whitelisted(whitelist, textLower)
  {
    allowed := false;
    var k := 0;
    while k < |whitelist|
      invariant 0 <= k <= |whitelist|
      invariant !exists i :: 0 <= i < k && IsSubstring(whitelist[i], textLower)
    {
      if IsSubstring(whitelist[k], textLower) {
        allowed := true;
        return;
      }
      k := k + 1;
    }
  }

  /**
   * `bad_content_checker`; `isAdm` is its `is_admin` call at helper level and
   * `isLink` stands for the two link patterns.
   */
  method BadContentChecker(isPrivate: bool, text: Option<string>, caption: Option<string>, isAdm: bool,
                           whitelist: seq<string>, badwords: seq<string>,
                           isLink: string -> bool, ratio: (string, string) -> real)
    returns (reason: Option<string>)
    ensures reason == Violation(isPrivate, text, caption, isAdm, whitelist, badwords, isLink, ratio)
  {
    if isPrivate {
      return None;
    }
    if (Given(text) && StartsWith(text.value, "/")) || (Given(caption) && StartsWith(caption.value, "/")) {
      return None;
    }
    if isAdm {
      return None;
    }
    var textToAnalyze := if Given(text) then text.value else if Given(caption) then caption.value else "";
    if textToAnalyze == "" {
      return None;
    }
    reason := CheckText(textToAnalyze, whitelist, badwords, isLink, ratio);
  }

  /** The link rule and then the banned-word rule, on a text that is not exempt. */
  method CheckText(textToAnalyze: string, whitelist: seq<string>, badwords: seq<string>,
                   isLink: string -> bool, ratio: (string, string) -> real)
    returns (reason: Option<string>)
    ensures reason == TextViolation(textToAnalyze, whitelist, badwords, isLink, ratio)
  {
    reason := None;
    var textLower := Lower(textToAnalyze);
    if isLink(textLower) {
      var allowed := LinkAllowed(whitelist, textLower);
      if !allowed {
        reason := Some(AdReason);
      }
    }
    if reason.None? && IsBadWord(textToAnalyze, badwords, ratio) {
      reason := Some(BadWordReason);
    }
  }

  /** Exempt messages are never reported. */
  lemma {:induction false} ExemptNeverReported(isPrivate: bool, text: Option<string>, caption: Option<string>, isAdm: bool,
                                               whitelist: seq<string>, badwords: seq<string>,
                                               isLink: string -> bool, ratio: (string, string) -> real)
    requires isPrivate || IsCommandText(text, caption) || isAdm || AnalyzedText(text, caption) == ""
    ensures Violation(isPrivate, text, caption, isAdm, whitelist, badwords, isLink, ratio) == None
  {
  }

  /**
   * An uncovered link is reported as advertising whatever the banned-word
   * list says; a banned word is reported only when there is no such link.
   */
  lemma {:induction false} AdvertFirst(isPrivate: bool, text: Option<string>, caption: Option<string>, isAdm: bool,
                                       whitelist: seq<string>, badwords: seq<string>,
                                       isLink: string -> bool, ratio: (string, string) -> real)
    requires !isPrivate && !IsCommandText(text, caption) && !isAdm && AnalyzedText(text, caption) != ""
    ensures var t := Lower(AnalyzedText(text, caption));
      var v := Violation(isPrivate, text, caption, isAdm, whitelist, badwords, isLink, ratio);
      (v == Some(AdReason) <==> isLink(t) && !Whitelisted(whitelist, t))
      && (v == Some(BadWordReason) <==>
            !(isLink(t) && !Whitelisted(whitelist, t)) && IsBadWord(AnalyzedText(text, caption), badwords, ratio))
  {
  }

  /** A whitelisted link passes the link rule; the text is still checked for banned words. */
  lemma {:induction false} WhitelistedLinkPasses(isPrivate: bool, text: Option<string>, caption: Option<string>, isAdm: bool,
                                                 whitelist: seq<string>, badwords: seq<string>,
                                                 isLink: string -> bool, ratio: (string, string) -> real, i: nat)
    requires !isPrivate && !IsCommandText(text, caption) && !isAdm && AnalyzedText(text, caption) != ""
    requires i < |whitelist| && IsSubstring(whitelist[i], Lower(AnalyzedText(text, caption)))
    ensures Violation(isPrivate, text, caption, isAdm, whitelist, badwords, isLink, ratio) != Some(AdReason)
  {
    var t := AnalyzedText(text, caption);
    assert Whitelisted(whitelist, Lower(t));
    assert Violation(isPrivate, text, caption, isAdm, whitelist, badwords, isLink, ratio)
        == TextViolation(t, whitelist, badwords, isLink, ratio);
    assert |AdReason| != |BadWordReason|;
  }

  // ---------------------------------------------------------------------
  // Warn escalation

  /** How long reaching the warn limit restricts a user, in seconds. */
  const WarnRestrictSeconds: nat := 1800

  datatype WarnOutcome = Warned(count: int) | LimitReached(restrictSeconds: nat) | PunishFailed(count: int)

  /**
   * The tail of `handle_bad_content` and of `/warn`: one warn is added with
   * its reason; reaching `warnLimit` restricts the user for 1800 seconds and
   * then resets the count. `restrictOk` says whether Telegram accepted the
   * restriction; when it raised, the reset is skipped.
   */
  method Escalate(db: Store, userId: int, reason: Option<string>, warnLimit: int, restrictOk: bool)
    returns (outcome: WarnOutcome)
    requires db.Valid()
    modifies db
    ensures db.Valid()
    ensures db.repHistory == old(db.repHistory) && db.whitelist == old(db.whitelist) && db.badwords == old(db.badwords)
    ensures db.users.Keys == old(db.users).Keys
    ensures forall u :: u in db.users && u != userId ==> db.users[u] == old(db.users)[u]
    ensures forall u :: u != userId ==> ReasonsOf(db.warnReasons, u) == ReasonsOf(old(db.warnReasons), u)
    ensures userId in db.users ==>
      var added := old(db.users)[userId].warns + 1;
      (added < warnLimit ==> outcome == Warned(added) && db.users[userId] == old(db.users)[userId].(warns := added))
      && (added >= warnLimit && restrictOk ==>
            outcome == LimitReached(WarnRestrictSeconds) && db.users[userId] == old(db.users)[userId].(warns := 0)
            && ReasonsOf(db.warnReasons, userId) == [])
      && (added >= warnLimit && !restrictOk ==>
            outcome == PunishFailed(added) && db.users[userId] == old(db.users)[userId].(warns := added))
    ensures !outcome.LimitReached? ==>
      ReasonsOf(db.warnReasons, userId) == ReasonsOf(old(db.warnReasons), userId) + (if Given(reason) then [reason.value] else [])
    ensures restrictOk && warnLimit > 0 && userId in db.users ==> db.users[userId].warns < warnLimit
  {
    var cnt := db.ManageWarn(userId, "add", reason);
    if cnt >= warnLimit {
      if restrictOk {
        var _ := db.ManageWarn(userId, "reset", None);
        outcome := LimitReached(WarnRestrictSeconds);
      } else {
        outcome := PunishFailed(cnt);
      }
    } else {
      outcome := Warned(cnt);
    }
  }

  /**
   * `/unwarn` as written: a reset when "all" occurs anywhere in the lower-cased
   * arguments, a single removal otherwise.
   */
  function UnwarnActionAsWritten(args: Option<string>): string {
    if IsSubstring("all", Lower(args.GetOr(""))) then "reset" else "remove"
  }

  /** The evidently intended rule: a reset only when "all" is one of the arguments. */
  function UnwarnAction(args: Option<string>): string {
    if "all" in Words(Lower(args.GetOr(""))) then "reset" else "remove"
  }

  /** As written, `/unwarn @marshall` wipes every warn of that user, because the handle contains "all". */
  lemma {:induction false} HandleWithAllResets(args: string)
    requires args == "@marshall"
    ensures UnwarnActionAsWritten(Some(args)) == "reset"
  {
    var t := Lower(args);
    assert t[6..9] == "all";
    assert OccursAt("all", t, 6);
  }

  /** With the intended rule, naming a user by handle alone removes a single warn. */
  lemma {:induction false} HandleAloneRemoves(handle: string)
    requires handle != [] && handle[0] == '@'
    requires forall i :: 0 <= i < |handle| ==> !IsSpace(handle[i])
    ensures UnwarnAction(Some(handle)) == "remove"
  {
    var t := Lower(handle);
    WordsOfOneWord(t);
  }

  /** The intended rule resets only where the code as written also resets. */
  lemma {:induction false} IntendedResetsLess(args: Option<string>)
    ensures UnwarnAction(args) == "reset" ==> UnwarnActionAsWritten(args) == "reset"
  {
    var t := Lower(args.GetOr(""));
    if "all" in Words(t) {
      WordsOccur(t);
      var k :| 0 <= k < |Words(t)| && Words(t)[k] == "all";
    }
  }

  /** A string without blanks is one word. */
  lemma {:induction false} WordsOfOneWord(w: string)
    requires w != [] && forall i :: 0 <= i < |w| ==> !IsSpace(w[i])
    ensures Words(w) == [w]
  {
    var n := WordLength(w);
    assert n == |w|;
    assert w[n..] == [];
    assert w[..n] == w;
  }

  /** Every word of a text occurs in it. */
  lemma {:induction false} WordsOccur(s: string)
    ensures forall k :: 0 <= k < |Words(s)| ==> IsSubstring(Words(s)[k], s)
    decreases |s|
  {
    if s != [] {
      if IsSpace(s[0]) {
        WordsOccur(s[1..]);
        forall k | 0 <= k < |Words(s)|
          ensures IsSubstring(Words(s)[k], s)
        {
          ShiftOccurrence(Words(s)[k], s, 1);
        }
      } else {
        var n := WordLength(s);
        WordsOccur(s[n..]);
        assert Words(s) == [s[..n]] + Words(s[n..]);
        forall k | 0 <= k < |Words(s)|
          ensures IsSubstring(Words(s)[k], s)
        {
          if k == 0 {
            assert OccursAt(s[..n], s, 0);
          } else {
            assert Words(s)[k] == Words(s[n..])[k - 1];
            ShiftOccurrence(Words(s)[k], s, n);
          }
        }
      }
    }
  }

  /** What occurs in a suffix of `s` occurs in `s`. */
  lemma {:induction false} ShiftOccurrence(w: string, s: string, d: nat)
    requires d <= |s| && IsSubstring(w, s[d..])
    ensures IsSubstring(w, s)
  {
    var i: nat :| i <= |s[d..]| && OccursAt(w, s[d..], i);
    assert s[d + i..d + i + |w|] == s[d..][i..i + |w|];
    assert OccursAt(w, s, d + i);
  }

  /**
   * `/unwarn`, with the intended reading of "all": `isAdm` is its `is_admin`
   * call and `target` the id `parse_command_complex` found. Answers the new
   * count, or None when refused.
   */
  method Unwarn(db: Store, isAdm: bool, target: Option<int>, args: Option<string>) returns (r: Option<int>)
    requires db.Valid()
    modifies db
    ensures db.Valid()
    ensures unchanged(db`repHistory, db`whitelist, db`badwords)
    ensures r.Some? <==> isAdm && target.Some? && target.value != 0
    ensures r.None? ==> unchanged(db`users, db`warnReasons)
    ensures r.Some? ==>
      var t := target.value;
      db.users.Keys == old(db.users).Keys
      && (forall u :: u in db.users && u != t ==> db.users[u] == old(db.users)[u])
      && (t in db.users ==> db.users[t] == old(db.users)[t].(warns := r.value))
      && (t !in db.users ==> r.value == 0)
    ensures r.Some? ==>
      forall u :: u != target.value ==> ReasonsOf(db.warnReasons, u) == ReasonsOf(old(db.warnReasons), u)
    ensures r.Some? && UnwarnAction(args) == "reset" ==>
      r.value == 0 && ReasonsOf(db.warnReasons, target.value) == []
    ensures r.Some? && UnwarnAction(args) == "remove" ==>
      var t := target.value;
      var before := ReasonsOf(old(db.warnReasons), t);
      (t in db.users ==> r.value == Max0(old(db.users)[t].warns - 1))
      && ReasonsOf(db.warnReasons, t) == if before == [] then [] else before[..|before| - 1]
  {
    if !isAdm {
      return None;
    }
    if target.None? || target.value == 0 {
      return None;
    }
    var action := UnwarnAction(args);
    var cnt := db.ManageWarn(target.value, action, None);
    r := Some(cnt);
  }

  // ---------------------------------------------------------------------
  // Anti-flood middleware

  datatype FloodAction = Deliver | Drop | DropAndMute(seconds: nat)

  /** `event.text or event.caption or "content"` */
  function FloodContent(text: Option<string>, caption: Option<string>): string {
    if Given(text) then text.value else if Given(caption) then caption.value else "content"
  }

  /** What the middleware does with a group message once the flood verdict is known. */
  function FloodDecision(isAdm: bool, status: Status): FloodAction {
    if status == Pass || isAdm then Deliver
    else if status == Mute then DropAndMute(600)
    else Drop
  }

  /** Staff always get through; anyone else is stopped exactly on a warn or a mute, and muted only on a mute. */
  lemma {:induction false} FloodDecisionSpec(isAdm: bool, status: Status)
    ensures isAdm ==> FloodDecision(isAdm, status) == Deliver
    ensures !isAdm ==> (FloodDecision(isAdm, status) == Deliver <==> status == Pass)
    ensures FloodDecision(isAdm, status).DropAndMute? <==> !isAdm && status == Mute
  {
  }

  /**
   * `FloodMiddleware`: private chats and messages without an author pass
   * untouched. Every other message registers its author and feeds the flood
   * score, staff included; `isAdm` is the middleware's `is_admin` call.
   */
  method FloodMiddleware(flood: FloodControl, db: Store, isPrivate: bool,
                         author: Option<(int, Option<string>, Option<string>)>, isAdm: bool,
                         text: Option<string>, caption: Option<string>,
                         now: real, ratio: (string, string) -> real)
    returns (a: FloodAction)
    requires flood.Valid() && db.Valid()
    modifies flood, db
    ensures flood.Valid() && db.Valid()
    ensures db.repHistory == old(db.repHistory) && db.warnReasons == old(db.warnReasons)
    ensures db.whitelist == old(db.whitelist) && db.badwords == old(db.badwords)
    ensures isPrivate || author.None? ==> a == Deliver && flood.users == old(flood.users) && db.users == old(db.users)
    ensures !isPrivate && author.Some? ==>
      db.users == Registered(old(db.users), author.value.0, author.value.1, author.value.2)
    ensures !isPrivate && author.Some? ==>
      var uid := author.value.0;
      var before := if uid in old(flood.users) then old(flood.users)[uid] else Fresh(now);
      var r := Step(before, CleanText(FloodContent(text, caption)), now, ratio);
      uid in db.users
      && flood.users == old(flood.users)[uid := r.0]
      && a == FloodDecision(isAdm, r.1)
  {
    if isPrivate || author.None? {
      return Deliver;
    }
    var (uid, username, fullName) := author.value;
    var _ := db.GetUser(uid, username, fullName);
    var content := if Given(text) then text.value else if Given(caption) then caption.value else "content";
    var status := flood.Check(uid, content, now, ratio);
    if status != Pass && !isAdm {
      if status == Mute {
        return DropAndMute(600);
      } else {
        return Drop;
      }
    }
    return Deliver;
  }
}
