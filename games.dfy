/**
 * The mini-games of telegramBot/modules/games.py: level gates, the
 * affordability check, the payout tables, and the per-chat duel state
 * machine kept in `active_duels`.
 */
module Games {
  import opened Wrappers
  import opened Text
  import opened Telegram
  import opened Levels
  import opened Database

  /** `GAME_REQS.get(key, 0)`: the level a game button needs. */
  function GameReq(key: string): (r: nat)
    ensures r <= 4
    ensures key == "duel" || key == "basketball" ==> r == 4
    ensures key == "dice" || key == "slots" ==> r == 3
    ensures key !in {"dice", "slots", "basketball", "duel"} ==> r == 0
  {
    if key == "dice" || key == "slots" then 3
    else if key == "basketball" || key == "duel" then 4
    else 0
  }

  /** `is_admin_or_owner`: the owner, the two platform accounts, or an admin of a group chat. */
  predicate IsAdminOrOwner(userId: int, ownerId: int, isPrivate: bool, lookup: RoleLookup) {
    IsSuperActor(userId, ownerId) || (!isPrivate && IsChatAdmin(lookup))
  }

  /**
   * What `is_admin_or_owner` answers: yes for the owner and the two platform
   * accounts wherever they click; for anyone else no in a private chat, and
   * in a group yes exactly when the member lookup names a creator or an
   * administrator (a failed lookup is a no).
   */
  lemma {:induction false} AdminOrOwnerCases(userId: int, ownerId: int, isPrivate: bool, lookup: RoleLookup)
    ensures userId == ownerId || userId == AnonBotId || userId == ServiceId ==>
      IsAdminOrOwner(userId, ownerId, isPrivate, lookup)
    ensures !IsSuperActor(userId, ownerId) && isPrivate ==> !IsAdminOrOwner(userId, ownerId, isPrivate, lookup)
    ensures !IsSuperActor(userId, ownerId) && !isPrivate ==>
      (IsAdminOrOwner(userId, ownerId, isPrivate, lookup) <==> lookup == Some(Creator) || lookup == Some(Administrator))
    ensures !IsSuperActor(userId, ownerId) && lookup.None? ==> !IsAdminOrOwner(userId, ownerId, isPrivate, lookup)
  {
  }

  datatype GameButton = Playable(callbackBase: string, ownerId: int) | Locked(requiredLevel: nat)

  /** `get_game_btn`: the game's button, or a padlock naming the level it needs. */
  function GameButtonFor(key: string, level: int, isAdmin: bool, callbackBase: string, ownerId: int): (b: GameButton)
    ensures b.Playable? <==> level >= GameReq(key) || isAdmin
    ensures b.Playable? ==> b == Playable(callbackBase, ownerId)
    ensures b.Locked? ==> b == Locked(GameReq(key))
  {
    if level >= GameReq(key) || isAdmin then Playable(callbackBase, ownerId)
    else Locked(GameReq(key))
  }

  /** A button unlocked at some level stays unlocked at every higher level. */
  lemma {:induction false} UnlockMonotone(key: string, l1: int, l2: int, isAdmin: bool, base: string, ownerId: int)
    requires l1 <= l2
    requires GameButtonFor(key, l1, isAdmin, base, ownerId).Playable?
    ensures GameButtonFor(key, l2, isAdmin, base, ownerId).Playable?
  {
  }

  /** At level 4 and above every game is open; below 3 only keys missing from the table are. */
  lemma {:induction false} UnlockThresholds(key: string, level: int, base: string, ownerId: int)
    ensures level >= 4 ==> GameButtonFor(key, level, false, base, ownerId).Playable?
    ensures level < 3 && key in {"dice", "slots", "basketball", "duel"} ==>
      GameButtonFor(key, level, false, base, ownerId).Locked?
  {
  }

  /** What `can_afford` decides: the bet is covered by xp plus every level the player could drop. */
  predicate Affordable(xp: int, level: int, bet: int)
    requires IsLevel(level)
  {
    bet <= xp + Floor(level)
  }

  /**
   * `can_afford`: first the xp alone, then a simulated descent that refunds
   * the cap of each level dropped to while a debt remains.
   */
  method CanAfford(xp: int, level: int, bet: int) returns (ok: bool)
    requires IsLevel(level)
    ensures ok <==> Affordable(xp, level, bet)
  {
    if xp >= bet {
      return true;
    }
    var needed := bet - xp;
    var tempLevel := level;
    while tempLevel > MinLevel && needed > 0
      invariant IsLevel(tempLevel) && tempLevel <= level
      invariant needed == bet - xp - (Floor(level) - Floor(tempLevel))
      decreases tempLevel
    {
      tempLevel := tempLevel - 1;
      needed := needed - Cap(tempLevel);
    }
    return needed <= 0;
  }

  /** `can_afford` holds exactly when debiting the bet settles without the level-1 clamp. */
  lemma {:induction false} AffordableIffExactDebit(xp: int, level: int, bet: int)
    requires IsLevel(level)
    ensures Affordable(xp, level, bet) <==> !Clamps(level, xp, -bet)
    ensures Affordable(xp, level, bet) ==>
      var s := Settle(level, xp, -bet);
      Total(s.level, s.xp) == Total(level, xp) - bet
    ensures !Affordable(xp, level, bet) ==> Settle(level, xp, -bet) == Standing(1, 0)
  {
    SettleConserves(level, xp, -bet);
  }

  lemma {:induction false} AffordExamples()
    ensures !Affordable(10, 1, 1000)
    ensures Affordable(50, 2, 400)
    ensures Affordable(0, 5, 35500) && !Affordable(0, 5, 35501)
  {
  }

  datatype Game = Dice | Basket | Slots | OtherGame

  /** The game named in a `play_<game>:<bet>:<owner>` callback. */
  function GameOf(name: string): Game {
    if name == "dice" then Dice
    else if name == "basket" then Basket
    else if name == "slots" then Slots
    else OtherGame
  }

  /** The payout multiplier of `play_game_logic` for a roll of the game's die. */
  function Multiplier(game: Game, roll: int): (m: nat)
    ensures m == 0 || m == 2 || m == 3 || m == 10
    ensures game == Dice ==> (m == 2 <==> roll >= 4) && (m == 0 <==> roll < 4)
    ensures game == OtherGame ==> m == 0
    ensures m == 10 ==> game == Slots && roll == 64
  {
    match game
    case Dice => if roll >= 4 then 2 else 0
    case Basket =>
      if roll <= 2 then 0
      else if roll == 3 then 0
      else if roll == 4 then 2
      else if roll == 5 then 3
      else 0
    case Slots =>
      if roll == 64 then 10
      else if roll == 1 || roll == 22 || roll == 43 then 3
      else 0
    case OtherGame => 0
  }

  /** Sum of the multipliers over the faces lo..hi of a die. */
  function PayoutSum(game: Game, lo: int, hi: int): nat
    decreases hi - lo + 1
  {
    if hi < lo then 0 else PayoutSum(game, lo, hi - 1) + Multiplier(game, hi)
  }

  /**
   * Over the faces of each die (dice 1..6, basket 1..5, slots 1..64): dice and
   * basket pay back the stake on average, slots pay 19 stakes per 64 spins.
   */
  lemma {:induction false} PayoutTables()
    ensures PayoutSum(Dice, 1, 6) == 6
    ensures PayoutSum(Basket, 1, 5) == 5
    ensures PayoutSum(Slots, 1, 64) == 19
  {
    SlotsPayout(1, 64);
  }

  lemma {:induction false} SlotsPayout(first: int, last: int)
    requires first == 1 && last == 64
    ensures PayoutSum(Slots, first, last) == 19
  {
    PayoutSplit(Slots, first, first, last);
    PayoutSplit(Slots, 2, 22, last);
    PayoutSplit(Slots, 23, 43, last);
    SlotsStretch(2, 22);
    SlotsStretch(23, 43);
    SlotsStretch(44, last);
  }

  /** Each of the stretches 2..22, 23..43 and 44..64 of slot faces pays on its last face only. */
  lemma {:induction false} SlotsStretch(lo: int, hi: int)
    requires lo == 2 || lo == 23 || lo == 44
    requires hi == lo + 20
    ensures PayoutSum(Slots, lo, hi) == Multiplier(Slots, hi)
  {
    forall roll | lo <= roll < hi
      ensures Multiplier(Slots, roll) == 0
    {
      assert roll != 1 && roll != 22 && roll != 43 && roll != 64;
    }
    PayoutSplit(Slots, lo, hi - 1, hi);
    NoPayout(Slots, lo, hi - 1);
  }

  lemma {:induction false} PayoutSplit(game: Game, lo: int, mid: int, hi: int)
    requires lo - 1 <= mid <= hi
    ensures PayoutSum(game, lo, hi) == PayoutSum(game, lo, mid) + PayoutSum(game, mid + 1, hi)
    decreases hi - mid
  {
    if mid < hi {
      PayoutSplit(game, lo, mid, hi - 1);
    }
  }

  lemma {:induction false} NoPayout(game: Game, lo: int, hi: int)
    requires forall roll :: lo <= roll <= hi ==> Multiplier(game, roll) == 0
    ensures PayoutSum(game, lo, hi) == 0
    decreases hi - lo + 1
  {
    if lo <= hi {
      NoPayout(game, lo, hi - 1);
    }
  }

  datatype PlayResult = Unparsed | AdminsOnly | NotYourTable | CannotAfford | Played(player: int, multiplier: nat)

  /** Whose XP a game click stakes: the table owner's, or the chat's when the table is the anonymous admin's. */
  function PlayerOf(ownerId: int, clickerId: int, clickerIsAdmin: bool): (r: Result<int, PlayResult>)
    ensures r.Ok? ==> r.value == ownerId
    ensures r.Ok? <==> (ownerId == AnonBotId && clickerIsAdmin) || (ownerId != AnonBotId && clickerId == ownerId)
  {
    if ownerId == AnonBotId then
      if clickerIsAdmin then Ok(AnonBotId) else Err(AdminsOnly)
    else if clickerId != ownerId then Err(NotYourTable)
    else Ok(clickerId)
  }

  /** The username a game registers for its player: the anonymous admin's fixed handle, else the clicker's. */
  function PlayerUsername(player: int, clickerUsername: Option<string>): Option<string> {
    if player == AnonBotId then Some("GroupAnonymousBot") else clickerUsername
  }

  /** The full name a game registers for its player. */
  function PlayerFullName(player: int, clickerFullName: Option<string>): Option<string> {
    if player == AnonBotId then Some("Group Anonymous Bot") else clickerFullName
  }

  /** The callback data `play_<game>:<bet>:<owner>` split into its parts. */
  function ParsePlay(data: string): Option<(string, int, int)> {
    var parts := SplitOn(data, ':');
    if |parts| < 3 then None
    else if !StartsWith(parts[0], "play_") then None
    else
      match (ParseInt(parts[1]), ParseInt(parts[2]))
      case (Some(bet), Some(owner)) => Some((RemoveAll(parts[0], "play_"), bet, owner))
      case _ => None
  }

  /**
   * `play_game_logic`: identify the player, check the bet against the
   * ladder, debit it, then credit bet × multiplier for a winning roll.
   */
  method PlayGame(db: Store, data: string, clickerId: int, botOwner: int, isPrivate: bool, clickerLookup: RoleLookup,
                  clickerUsername: Option<string>, clickerFullName: Option<string>, roll: int)
    returns (r: PlayResult)
    requires db.Valid()
    modifies db
    ensures db.Valid()
    ensures unchanged(db`repHistory, db`warnReasons, db`whitelist, db`badwords)
    ensures ParsePlay(data).None? <==> r == Unparsed
    ensures r == Unparsed ==> db.users == old(db.users)
    ensures r == AdminsOnly <==> ParsePlay(data).Some? && ParsePlay(data).value.2 == AnonBotId
                                 && !IsAdminOrOwner(clickerId, botOwner, isPrivate, clickerLookup)
    ensures r == NotYourTable <==> ParsePlay(data).Some? && ParsePlay(data).value.2 != AnonBotId
                                   && clickerId != ParsePlay(data).value.2
    ensures r == AdminsOnly || r == NotYourTable ==> db.users == old(db.users)
    ensures r == CannotAfford ==>
      var (_, bet, owner) := ParsePlay(data).value;
      db.users == Registered(old(db.users), owner, PlayerUsername(owner, clickerUsername),
                             PlayerFullName(owner, clickerFullName))
      && !Affordable(db.users[owner].xp, db.users[owner].level, bet)
    ensures r.Played? ==>
      var (name, bet, owner) := ParsePlay(data).value;
      var reg := Registered(old(db.users), owner, PlayerUsername(owner, clickerUsername), PlayerFullName(owner, clickerFullName));
      r.player == owner && r.multiplier == Multiplier(GameOf(name), roll)
      && db.users.Keys == reg.Keys
      && (forall u :: u in reg && u != owner ==> db.users[u] == reg[u])
      && db.users[owner] == reg[owner].(xp := db.users[owner].xp, level := db.users[owner].level)
      && Affordable(reg[owner].xp, reg[owner].level, bet)
      && Total(db.users[owner].level, db.users[owner].xp) == Max0(Total(reg[owner].level, reg[owner].xp) - bet + bet * r.multiplier)
      && (bet >= 0 ==>
            Total(db.users[owner].level, db.users[owner].xp) == Total(reg[owner].level, reg[owner].xp) - bet + bet * r.multiplier)
  {
    var parsed := ParsePlay(data);
    if parsed.None? {
      return Unparsed;
    }
    var (name, bet, owner) := parsed.value;
    var clickerIsAdmin := owner == AnonBotId && IsAdminOrOwner(clickerId, botOwner, isPrivate, clickerLookup);
    var who := PlayerOf(owner, clickerId, clickerIsAdmin);
    if who.Err? {
      return who.error;
    }
    r := PlaceBet(db, who.value, bet, Multiplier(GameOf(name), roll),
                  PlayerUsername(who.value, clickerUsername), PlayerFullName(who.value, clickerFullName));
  }

  /** The rest of `play_game_logic` once the player is known: `get_user`, `can_afford`, then the stake. */
  method PlaceBet(db: Store, player: int, bet: int, mult: nat, username: Option<string>, fullName: Option<string>)
    returns (r: PlayResult)
    requires db.Valid()
    modifies db
    ensures db.Valid()
    ensures unchanged(db`repHistory, db`warnReasons, db`whitelist, db`badwords)
    ensures r == CannotAfford || r == Played(player, mult)
    ensures var reg := Registered(old(db.users), player, username, fullName);
      (r == CannotAfford <==> !Affordable(reg[player].xp, reg[player].level, bet))
      && (r == CannotAfford ==> db.users == reg)
      && (r.Played? ==>
            db.users.Keys == reg.Keys
            && (forall u :: u in reg && u != player ==> db.users[u] == reg[u])
            && db.users[player] == reg[player].(xp := db.users[player].xp, level := db.users[player].level)
            && Total(db.users[player].level, db.users[player].xp) == Max0(Total(reg[player].level, reg[player].xp) - bet + bet * mult)
            && (bet >= 0 ==>
                  Total(db.users[player].level, db.users[player].xp) == Total(reg[player].level, reg[player].xp) - bet + bet * mult))
  {
    var row := db.GetUser(player, username, fullName);
    assert db.users == Registered(old(db.users), player, username, fullName);
    var ok := CanAfford(row.xp, row.level, bet);
    if !ok {
      return CannotAfford;
    }
    Stake(db, player, bet, mult);
    return Played(player, mult);
  }

  /** Steps 4 and 6 of `play_game_logic`: the bet is debited, then bet × multiplier is credited when positive. */
  method Stake(db: Store, player: int, bet: int, mult: nat)
    requires db.Valid() && player in db.users
    requires Affordable(db.users[player].xp, db.users[player].level, bet)
    modifies db
    ensures db.Valid()
    ensures unchanged(db`repHistory, db`warnReasons, db`whitelist, db`badwords)
    ensures db.users.Keys == old(db.users).Keys
    ensures forall u :: u in old(db.users) && u != player ==> db.users[u] == old(db.users)[u]
    ensures db.users[player] == old(db.users)[player].(xp := db.users[player].xp, level := db.users[player].level)
    ensures Total(db.users[player].level, db.users[player].xp)
            == Max0(Total(old(db.users)[player].level, old(db.users)[player].xp) - bet + bet * mult)
    ensures bet >= 0 ==>
      Total(db.users[player].level, db.users[player].xp)
      == Total(old(db.users)[player].level, old(db.users)[player].xp) - bet + bet * mult
  {
    ghost var row := db.users[player];
    ghost var start := Total(row.level, row.xp);
    var _, _, _ := db.UpdateXp(player, -bet);
    AffordableIffExactDebit(row.xp, row.level, bet);
    ghost var mid := db.users[player];
    assert Total(mid.level, mid.xp) == start - bet;
    if mult > 0 {
      var _, _, _ := db.UpdateXp(player, bet * mult);
      SettleConserves(mid.level, mid.xp, bet * mult);
      if bet >= 0 {
        NonNegativeGain(bet, mult);
      }
    } else {
      NoGain(bet, mult);
    }
  }

  lemma {:induction false} NonNegativeGain(bet: int, mult: nat)
    requires bet >= 0
    ensures bet * mult >= 0
  {
  }

  lemma {:induction false} NoGain(bet: int, mult: nat)
    requires mult == 0
    ensures bet * mult == 0
  {
  }

  datatype Tactic = Atk | Def | Trick

  /** The rules text: attack beats trick, defence beats attack, trick beats defence. */
  predicate Beats(a: Tactic, b: Tactic) {
    (a == Atk && b == Trick) || (a == Def && b == Atk) || (a == Trick && b == Def)
  }

  datatype Winner = Tie | Initiator | Target

  /** The if-chain of `resolve_duel` choosing a winner from the two tactics. */
  function WinnerOf(p1: Tactic, p2: Tactic): (w: Winner)
    ensures w == Tie <==> p1 == p2
    ensures w == Initiator <==> Beats(p1, p2)
    ensures w == Target <==> Beats(p2, p1)
  {
    if p1 == p2 then Tie
    else if p1 == Atk then (if p2 == Trick then Initiator else Target)
    else if p1 == Def then (if p2 == Atk then Initiator else Target)
    else (if p2 == Def then Initiator else Target)
  }

  /** Every tactic beats exactly one other and loses to exactly one other. */
  lemma {:induction false} BeatsIsCyclic(a: Tactic)
    ensures exists b :: Beats(a, b)
    ensures exists b :: Beats(b, a)
    ensures forall b, c :: Beats(a, b) && Beats(a, c) ==> b == c
    ensures forall b :: !(Beats(a, b) && Beats(b, a))
  {
    match a
    case Atk => assert Beats(Atk, Trick) && Beats(Def, Atk);
    case Def => assert Beats(Def, Atk) && Beats(Trick, Def);
    case Trick => assert Beats(Trick, Def) && Beats(Atk, Trick);
  }

  /** Swapping the two sides swaps the winner. */
  lemma {:induction false} WinnerSymmetric(p1: Tactic, p2: Tactic)
    ensures WinnerOf(p1, p2) == Tie <==> WinnerOf(p2, p1) == Tie
    ensures WinnerOf(p1, p2) == Initiator <==> WinnerOf(p2, p1) == Target
  {
  }

  /**
   * A transfer of `bet` from a loser who can afford it to a winner keeps the
   * XP of the two players, summed, unchanged.
   */
  lemma {:induction false} TransferConserves(wl: int, wx: int, ll: int, lx: int, bet: int)
    requires IsLevel(wl) && IsLevel(ll) && Total(wl, wx) >= 0 && bet >= 0
    requires Affordable(lx, ll, bet)
    ensures var w := Settle(wl, wx, bet);
      var l := Settle(ll, lx, -bet);
      Total(w.level, w.xp) + Total(l.level, l.xp) == Total(wl, wx) + Total(ll, lx)
  {
    AffordableIffExactDebit(lx, ll, bet);
  }

  datatype Phase = WaitingAccept | Fighting

  datatype Duel = Duel(
    initiator: int, target: int, bet: int,
    initiatorName: Option<string>, targetName: Option<string>,
    phase: Phase, p1: Option<Tactic>, p2: Option<Tactic>)

  /** `u` is a stored user whose username is the one the handle `name` names ('@' removed, cleaned). */
  predicate HasHandle(users: map<int, UserRow>, u: int, name: string) {
    u in users && users[u].username == Some(Clean(RemoveChar(name, '@')))
  }

  datatype DuelResult =
    | NoArgs | BadBet | BetTooSmall | LevelTooLow | CannotCover | TargetNotFound | SelfChallenge | Challenged
    | Expired | NotChallenged | Accepted
    | Inactive | Spectator | AlreadyChosen | Chosen | Resolved(winner: Winner)

  /** The challenge `cmd_duel` stores for a chat. */
  function Challenge(initiator: int, target: int, bet: int, initiatorName: Option<string>, targetName: Option<string>): (d: Duel)
    ensures d.phase == WaitingAccept && d.p1.None? && d.p2.None?
  {
    Duel(initiator, target, bet, initiatorName, targetName, WaitingAccept, None, None)
  }

  /** The role a click takes in a fight: 1 for the initiator's side, 2 for the target's, 0 for a spectator. */
  function SideOf(d: Duel, userId: int, clickerIsAdmin: bool): (side: nat)
    ensures side <= 2
    ensures side == 0 <==> !(userId == d.initiator || (d.initiator == AnonBotId && clickerIsAdmin))
                           && !(userId == d.target || (d.target == AnonBotId && clickerIsAdmin))
  {
    if userId == d.initiator || (d.initiator == AnonBotId && clickerIsAdmin) then 1
    else if userId == d.target || (d.target == AnonBotId && clickerIsAdmin) then 2
    else 0
  }

  /**
   * A stored duel names two different players and a bet of at least 10; no
   * tactic is chosen before the fight starts; a fight with both tactics
   * chosen has already been resolved and removed.
   */
  ghost predicate WellFormed(d: Duel) {
    d.bet >= 10 && d.initiator != d.target
    && (d.phase == WaitingAccept ==> d.p1.None? && d.p2.None?)
    && !(d.p1.Some? && d.p2.Some?)
  }

  /** `active_duels`: at most one duel per chat, updated in place by the handlers. */
  class DuelTable {
    var duels: map<int, Duel>

    ghost predicate Valid()
      reads this
    {
      forall c :: c in duels ==> WellFormed(duels[c])
    }

    constructor ()
      ensures Valid() && duels == map[]
    {
      duels := map[];
    }

    /**
     * `cmd_duel`: `args` are the words after the command, `replyTarget` the
     * author of the replied-to message. On success the chat's duel, if any,
     * is replaced by a fresh challenge.
     */
    method CreateDuel(db: Store, chatId: int, initiator: int, initiatorUsername: Option<string>,
                      initiatorName: Option<string>, isAdmin: bool, args: seq<string>,
                      replyTarget: Option<(int, Option<string>)>)
      returns (r: DuelResult)
      requires Valid() && db.Valid()
      modifies this, db
      ensures Valid() && db.Valid()
      ensures r != Challenged ==> duels == old(duels)
      ensures unchanged(db`repHistory, db`warnReasons, db`whitelist, db`badwords)
      ensures r in {NoArgs, BadBet, BetTooSmall} ==> db.users == old(db.users)
      ensures r !in {NoArgs, BadBet, BetTooSmall} ==>
        db.users == Registered(old(db.users), initiator, initiatorUsername, initiatorName)
      ensures |args| == 0 ==> r == NoArgs
      ensures |args| > 0 && (|args| < 2 || ParseInt(args[1]).None?) ==> r == BadBet
      ensures |args| >= 2 && ParseInt(args[1]).Some? && ParseInt(args[1]).value < 10 ==> r == BetTooSmall
      ensures |args| >= 2 && ParseInt(args[1]).Some? && ParseInt(args[1]).value >= 10 ==> initiator in db.users
      ensures |args| >= 2 && ParseInt(args[1]).Some? && ParseInt(args[1]).value >= 10 ==>
        var bet := ParseInt(args[1]).value;
        var row := db.users[initiator];
        r in {LevelTooLow, CannotCover, TargetNotFound, SelfChallenge, Challenged}
        && (r == LevelTooLow <==> row.level < 4 && !isAdmin)
        && (r == CannotCover <==> (row.level >= 4 || isAdmin) && !Affordable(row.xp, row.level, bet))
        && (r == TargetNotFound ==>
              (replyTarget.Some? ==> replyTarget.value.0 == 0)
              && (replyTarget.None? ==>
                    (forall u :: !HasHandle(db.users, u, args[0])) || HasHandle(db.users, 0, args[0])))
        && (r == SelfChallenge ==>
              (replyTarget.Some? ==> replyTarget.value.0 == initiator)
              && (replyTarget.None? ==> HasHandle(db.users, initiator, args[0])))
        && ((row.level >= 4 || isAdmin) && Affordable(row.xp, row.level, bet) ==>
              (replyTarget.Some? && replyTarget.value.0 != 0 && replyTarget.value.0 != initiator ==> r == Challenged)
              && ((replyTarget.None? && (exists u :: HasHandle(db.users, u, args[0]))
                   && !HasHandle(db.users, 0, args[0]) && !HasHandle(db.users, initiator, args[0])) ==> r == Challenged))
      ensures r == Challenged ==>
        var bet := ParseInt(args[1]).value;
        var row := if initiator in old(db.users) then old(db.users)[initiator] else NewRow(initiatorUsername, initiatorName);
        bet >= 10 && (row.level >= 4 || isAdmin) && Affordable(row.xp, row.level, bet)
        && chatId in duels && duels == old(duels)[chatId := duels[chatId]]
        && duels[chatId].initiator == initiator && duels[chatId].bet == bet
        && duels[chatId].target != initiator && duels[chatId].target != 0
        && duels[chatId].phase == WaitingAccept && duels[chatId].p1.None? && duels[chatId].p2.None?
        && (replyTarget.Some? ==> duels[chatId].target == replyTarget.value.0)
        && (replyTarget.None? ==>
              duels[chatId].target in db.users
              && db.users[duels[chatId].target].username == Some(Clean(RemoveChar(args[0], '@'))))
    {
      if |args| == 0 {
        return NoArgs;
      }
      var targetUsername := args[0];
      if |args| < 2 || ParseInt(args[1]).None? {
        return BadBet;
      }
      var bet := ParseInt(args[1]).value;
      if bet < 10 {
        return BetTooSmall;
      }
      r := Open(db, chatId, initiator, initiatorUsername, initiatorName, isAdmin, targetUsername, bet, replyTarget);
    }

    /**
     * The second half of `cmd_duel`, once the bet is read: the initiator's
     * level and XP, then the target, then the new challenge.
     */
    method Open(db: Store, chatId: int, initiator: int, initiatorUsername: Option<string>,
                initiatorName: Option<string>, isAdmin: bool, targetUsername: string, bet: int,
                replyTarget: Option<(int, Option<string>)>)
      returns (r: DuelResult)
      requires Valid() && db.Valid() && bet >= 10
      modifies this, db
      ensures Valid() && db.Valid()
      ensures r != Challenged ==> duels == old(duels)
      ensures unchanged(db`repHistory, db`warnReasons, db`whitelist, db`badwords)
      ensures r in {LevelTooLow, CannotCover, TargetNotFound, SelfChallenge, Challenged}
      ensures db.users == Registered(old(db.users), initiator, initiatorUsername, initiatorName)
      ensures var row := db.users[initiator];
        (r == LevelTooLow <==> row.level < 4 && !isAdmin)
        && (r == CannotCover <==> (row.level >= 4 || isAdmin) && !Affordable(row.xp, row.level, bet))
      ensures r == TargetNotFound ==>
        (replyTarget.Some? ==> replyTarget.value.0 == 0)
        && (replyTarget.None? ==>
              (forall u :: !HasHandle(db.users, u, targetUsername)) || HasHandle(db.users, 0, targetUsername))
      ensures r == SelfChallenge ==>
        (replyTarget.Some? ==> replyTarget.value.0 == initiator)
        && (replyTarget.None? ==> HasHandle(db.users, initiator, targetUsername))
      ensures var row := db.users[initiator];
        (row.level >= 4 || isAdmin) && Affordable(row.xp, row.level, bet) ==>
          r in {TargetNotFound, SelfChallenge, Challenged}
          && (replyTarget.Some? && replyTarget.value.0 != 0 && replyTarget.value.0 != initiator ==> r == Challenged)
          && ((replyTarget.None? && (exists u :: HasHandle(db.users, u, targetUsername))
               && !HasHandle(db.users, 0, targetUsername) && !HasHandle(db.users, initiator, targetUsername)) ==> r == Challenged)
      ensures r == Challenged ==>
        var row := if initiator in old(db.users) then old(db.users)[initiator] else NewRow(initiatorUsername, initiatorName);
        (row.level >= 4 || isAdmin) && Affordable(row.xp, row.level, bet)
        && chatId in duels && duels == old(duels)[chatId := duels[chatId]]
        && duels[chatId].initiator == initiator && duels[chatId].bet == bet
        && duels[chatId].target != initiator && duels[chatId].target != 0
        && duels[chatId].phase == WaitingAccept && duels[chatId].p1.None? && duels[chatId].p2.None?
        && (replyTarget.Some? ==> duels[chatId].target == replyTarget.value.0)
        && (replyTarget.None? ==>
              duels[chatId].target in db.users
              && db.users[duels[chatId].target].username == Some(Clean(RemoveChar(targetUsername, '@'))))
    {
      var row := db.GetUser(initiator, initiatorUsername, initiatorName);
      if row.level < 4 && !isAdmin {
        return LevelTooLow;
      }
      var ok := CanAfford(row.xp, row.level, bet);
      if !ok {
        return CannotCover;
      }
      var targetId, targetName := FindTarget(db, targetUsername, replyTarget);
      if targetId.None? || targetId.value == 0 {
        return TargetNotFound;
      }
      if targetId.value == initiator {
        return SelfChallenge;
      }
      Post(chatId, Challenge(initiator, targetId.value, bet, initiatorName, targetName));
      return Challenged;
    }

    /** The target of `cmd_duel`: the replied-to author, else the user with the given handle. */
    method FindTarget(db: Store, targetUsername: string, replyTarget: Option<(int, Option<string>)>)
      returns (targetId: Option<int>, targetName: Option<string>)
      ensures replyTarget.Some? ==> targetId == Some(replyTarget.value.0)
      ensures replyTarget.None? && targetId.Some? ==>
        targetId.value in db.users && db.users[targetId.value].username == Some(Clean(RemoveChar(targetUsername, '@')))
      ensures replyTarget.None? && targetId.None? ==> forall u :: !HasHandle(db.users, u, targetUsername)
    {
      if replyTarget.Some? {
        targetId := Some(replyTarget.value.0);
        targetName := replyTarget.value.1;
      } else {
        targetId := db.GetIdByUsername(RemoveChar(targetUsername, '@'));
        targetName := Some(targetUsername);
      }
    }

    /** Stores a well-formed duel for a chat, replacing any earlier one. */
    method Post(chatId: int, d: Duel)
      requires Valid() && WellFormed(d)
      modifies this
      ensures Valid() && duels == old(duels)[chatId := d]
    {
      duels := duels[chatId := d];
    }

    /**
     * `duel_accept`: only a waiting challenge can be accepted, only by its
     * target (or by an admin for the anonymous-admin target), and only when
     * the accepting side can cover the bet. Chosen tactics are not touched.
     */
    method Accept(db: Store, chatId: int, userId: int, clickerIsAdmin: bool,
                  username: Option<string>, fullName: Option<string>)
      returns (r: DuelResult)
      requires Valid() && db.Valid()
      modifies this, db
      ensures Valid() && db.Valid()
      ensures r != Accepted ==> duels == old(duels)
      ensures unchanged(db`repHistory, db`warnReasons, db`whitelist, db`badwords)
      ensures r in {Expired, NotChallenged, Accepted, CannotCover}
      ensures r == Expired || r == NotChallenged ==> db.users == old(db.users)
      ensures r == Accepted || r == CannotCover ==> chatId in old(duels)
      ensures r == Accepted || r == CannotCover ==>
        var target := old(duels)[chatId].target;
        db.users == Registered(old(db.users), target, PlayerUsername(target, username), PlayerFullName(target, fullName))
        && (r == CannotCover <==> !Affordable(db.users[target].xp, db.users[target].level, old(duels)[chatId].bet))
      ensures !(chatId in old(duels) && old(duels)[chatId].phase == WaitingAccept) ==> r == Expired
      ensures (chatId in old(duels) && old(duels)[chatId].phase == WaitingAccept
               && (userId == old(duels)[chatId].target
                   || (old(duels)[chatId].target == AnonBotId && clickerIsAdmin))) ==> r in {Accepted, CannotCover}
      ensures (chatId in old(duels) && old(duels)[chatId].phase == WaitingAccept
               && userId != old(duels)[chatId].target
               && !(old(duels)[chatId].target == AnonBotId && clickerIsAdmin)) ==> r == NotChallenged
      ensures r == Accepted ==>
        var d := old(duels)[chatId];
        var player := d.target;
        player in db.users && Affordable(db.users[player].xp, db.users[player].level, d.bet)
        && duels == old(duels)[chatId := d.(phase := Fighting)]
    {
      if chatId !in duels || duels[chatId].phase != WaitingAccept {
        return Expired;
      }
      var d := duels[chatId];
      var player: int;
      if userId == d.target {
        player := userId;
      } else if d.target == AnonBotId && clickerIsAdmin {
        player := AnonBotId;
      } else {
        return NotChallenged;
      }
      r := Admit(db, chatId, player, PlayerUsername(player, username), PlayerFullName(player, fullName));
    }

    /** The second half of `duel_accept`: the target's row is fetched and must cover the bet. */
    method Admit(db: Store, chatId: int, player: int, username: Option<string>, fullName: Option<string>)
      returns (r: DuelResult)
      requires Valid() && db.Valid()
      requires chatId in duels && duels[chatId].phase == WaitingAccept && duels[chatId].target == player
      modifies this, db
      ensures Valid() && db.Valid()
      ensures r == Accepted || r == CannotCover
      ensures r == CannotCover ==> duels == old(duels)
      ensures unchanged(db`repHistory, db`warnReasons, db`whitelist, db`badwords)
      ensures db.users == Registered(old(db.users), player, username, fullName)
      ensures r == CannotCover <==> !Affordable(db.users[player].xp, db.users[player].level, old(duels)[chatId].bet)
      ensures r == Accepted ==>
        var d := old(duels)[chatId];
        player in db.users && Affordable(db.users[player].xp, db.users[player].level, d.bet)
        && duels == old(duels)[chatId := d.(phase := Fighting)]
    {
      var d := duels[chatId];
      var row := db.GetUser(player, username, fullName);
      var ok := CanAfford(row.xp, row.level, d.bet);
      if !ok {
        return CannotCover;
      }
      duels := duels[chatId := d.(phase := Fighting)];
      return Accepted;
    }

    /**
     * `duel_tactics` followed, once both sides have chosen, by
     * `resolve_duel`: the winner gains the bet, the loser pays it, and the
     * chat's duel is removed.
     */
    method ChooseTactic(db: Store, chatId: int, userId: int, clickerIsAdmin: bool, choice: Tactic)
      returns (r: DuelResult)
      requires Valid() && db.Valid()
      modifies this, db
      ensures Valid() && db.Valid()
      ensures unchanged(db`repHistory, db`warnReasons, db`whitelist, db`badwords)
      ensures !(chatId in old(duels) && old(duels)[chatId].phase == Fighting) ==>
        r == Inactive && duels == old(duels) && db.users == old(db.users)
      ensures r in {Spectator, AlreadyChosen} ==> duels == old(duels) && db.users == old(db.users)
      ensures r == Chosen ==>
        var d := old(duels)[chatId];
        var side := SideOf(d, userId, clickerIsAdmin);
        db.users == old(db.users)
        && duels == old(duels)[chatId := if side == 1 then d.(p1 := Some(choice)) else d.(p2 := Some(choice))]
      ensures r.Resolved? ==>
        var d := old(duels)[chatId];
        duels == old(duels) - {chatId}
        && (r.winner == Tie ==> db.users == old(db.users))
        && (r.winner == Initiator ==> db.users == Credit(Credit(old(db.users), d.initiator, d.bet), d.target, -d.bet))
        && (r.winner == Target ==> db.users == Credit(Credit(old(db.users), d.target, d.bet), d.initiator, -d.bet))
      ensures chatId in old(duels) && old(duels)[chatId].phase == Fighting ==>
        var d := old(duels)[chatId];
        var side := SideOf(d, userId, clickerIsAdmin);
        (side == 0 <==> r == Spectator)
        && (side == 1 && d.p1.Some? ==> r == AlreadyChosen)
        && (side == 2 && d.p2.Some? ==> r == AlreadyChosen)
        && (side == 1 && d.p1.None? ==> r == (if d.p2.Some? then Resolved(WinnerOf(choice, d.p2.value)) else Chosen))
        && (side == 2 && d.p2.None? ==> r == (if d.p1.Some? then Resolved(WinnerOf(d.p1.value, choice)) else Chosen))
    {
      if chatId !in duels || duels[chatId].phase != Fighting {
        return Inactive;
      }
      var d := duels[chatId];
      var side := SideOf(d, userId, clickerIsAdmin);
      if side == 0 {
        return Spectator;
      }
      if side == 1 {
        if d.p1.Some? {
          return AlreadyChosen;
        }
        d := d.(p1 := Some(choice));
      } else {
        if d.p2.Some? {
          return AlreadyChosen;
        }
        d := d.(p2 := Some(choice));
      }
      if d.p1.Some? && d.p2.Some? {
        var w := ResolveDuel(db, chatId, d);
        return Resolved(w);
      }
      duels := duels[chatId := d];
      return Chosen;
    }

    /** `resolve_duel`: settle the bet between the two sides and drop the chat's duel. */
    method ResolveDuel(db: Store, chatId: int, d: Duel) returns (w: Winner)
      requires db.Valid() && Valid()
      requires chatId in duels && d.p1.Some? && d.p2.Some?
      modifies this, db
      ensures db.Valid() && Valid()
      ensures unchanged(db`repHistory, db`warnReasons, db`whitelist, db`badwords)
      ensures w == WinnerOf(d.p1.value, d.p2.value)
      ensures duels == old(duels) - {chatId}
      ensures w == Tie ==> db.users == old(db.users)
      ensures w == Initiator ==> db.users == Credit(Credit(old(db.users), d.initiator, d.bet), d.target, -d.bet)
      ensures w == Target ==> db.users == Credit(Credit(old(db.users), d.target, d.bet), d.initiator, -d.bet)
    {
      w := WinnerOf(d.p1.value, d.p2.value);
      if w != Tie {
        var winnerId := if w == Initiator then d.initiator else d.target;
        var loserId := if w == Initiator then d.target else d.initiator;
        var _, _, _ := db.UpdateXp(winnerId, d.bet);
        var _, _, _ := db.UpdateXp(loserId, -d.bet);
      }
      duels := duels - {chatId};
    }
  }
}
