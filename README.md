# Telegram moderation bot — a Dafny model of its rules

The bot guards a Telegram group. It deletes adverts and banned words and
damps floods with a decaying per-user score. It escalates warnings to
30-minute restrictions and gives moderators a ranked command set: mute,
warn, unwarn, kick, ban and promote. Alongside this it runs an XP economy
with five levels, level caps, daily reputation grants, dice/basket/slots
games, rock-paper-scissors duels and a daily `/wipe`. An admin panel
manages a whitelist and a paginated bad-word list.

This project models that logic. External effects enter as parameters:

- the clock, the hour of day and the date;
- the dice roll;
- the chat-role lookup (`chat.get_member`, which may fail);
- the `difflib` similarity ratio;
- the link detector;
- the configuration constants `OWNER_ID` and `WARN_LIMIT`.

The modules are:

- `Wrappers`: `Option` and `Result`.
- `Text`: the Python string builtins the bot uses (`lower`, `split`, `strip`, `lstrip`, `in`, `int()`).
- `Telegram`: chat roles, the anonymous-admin and service ids, and the role lookup.
- `Levels`: `LEVEL_CAPS` and the XP cascade of `update_xp`.
- `Database`: the SQLite tables, as the class `Store`. Users, rep history and warn reasons are maps and sets; the whitelist and bad-word list are sequences.
- `Games`: game gating, `can_afford`, the payout tables and the duel state machine. The duel store is the class `DuelTable`.
- `TextAnalysis`: leetspeak `normalize` and the banned-word matcher.
- `Flood`: `SmartFloodControl`, as the class `FloodControl`, over `real`.
- `CommandArgs`: the summing `parse_time` and `parse_command_complex`.
- `ReplyArgs`: the first-match-per-unit `parse_time` and `extract_args`.
- `Moderation`: rank resolution, command gates, promotion, content rules, warn escalation and the flood middleware.
- `UserXp`: effective level, menus, the profile, text and media XP, reputation, `/wipe` and the staff list.
- `AdminPanel`: bad-word pagination, the navigation keyboard, bulk entry and whitelist truncation.

## Model

| member | source | states |
|---|---|---|
| Levels.Cap | telegramBot/database.py:10-16 | every finite level cap is at least 500 |
| Levels.StandingOf | telegramBot/database.py:126-141 | each non-negative XP total has exactly one normal standing (level 1..5, 0 <= xp < cap below level 5), and that standing carries that total |
| Levels.NormalBounds | telegramBot/database.py:10-16 | a normal standing's total lies in its level's band of totals |
| Levels.NormalUnique | telegramBot/database.py:126-141 | two normal standings with the same total are equal |
| Levels.StandingMonotone | telegramBot/database.py:126-141 | a larger total never has a lower level |
| Levels.SettleZero | telegramBot/database.py:117-145 | a zero delta leaves a normal standing unchanged |
| Levels.SettleDirection | telegramBot/database.py:117-145 | a non-negative delta never lowers the level; a non-positive delta never raises it |
| Levels.SettleConserves | telegramBot/database.py:126-141 | the new total is max(0, old total + delta) and the result is normal |
| Levels.WorkedExamples | telegramBot/database.py:128-141 | (1,480)+100 gives (2,80); (2,50)-100 gives (1,450); (1,10)-1000 gives (1,0); (4,24999)+1 gives (5,0) |
| Levels.ApplyDelta | telegramBot/database.py:126-141 | the two cascade loops end in the standing given by the total rule, and that standing is normal |
| Database.Clean | telegramBot/database.py:92-102 | the cleaned username never starts with '@' and is no longer than the input |
| Database.CleanIdempotent | telegramBot/database.py:110-115 | cleaning twice equals cleaning once |
| Database.CleanIgnoresAtAndCase | telegramBot/database.py:110-115 | a leading '@' and letter case do not change the cleaned name |
| Database.LowerStripCommute | telegramBot/database.py:92-102 | lowercasing and stripping '@' commute |
| Database.ActionOf | telegramBot/database.py:200-220 | "reset" and "remove" select their actions; every other action string adds |
| Database.RepOutcome | telegramBot/database.py:147-170 | a self grant is self_rep; otherwise a repeated (from, to, today) triple is daily_limit_user; otherwise 3 or more grants by the giver today is daily_limit_total; success exactly when none of these holds |
| Database.GrantKeepsLimit | telegramBot/database.py:160-166 | after a successful grant the giver has at most 3 grants that day |
| Database.GrantIsLocal | telegramBot/database.py:147-170 | a grant leaves every other giver's and every other day's grants unchanged |
| Database.NewRow | telegramBot/database.py:92-102 | a new user starts with xp 0, level 1, warns 0, mod_level 0 and rep 0; a username is stored iff one was given |
| Database.Registered | telegramBot/database.py:80-108 | get_user keeps every other row, keeps a known user's XP and level, and creates a new row otherwise |
| Database.Credit | telegramBot/database.py:117-145 | crediting XP touches only that user's row, keeps the key set and leaves the row normal |
| Database.Rank | telegramBot/database.py:274-293 | a rank exists iff the user exists, and lies in 1..number of users |
| Database.RankOrder | telegramBot/database.py:286-289 | a user with a higher level, or the same level and more XP, ranks strictly ahead |
| Database.Store.constructor | telegramBot/database.py:18-78 | all tables start empty |
| Database.Store.GetUser | telegramBot/database.py:80-108 | an unknown user gets a new row; a known user gets its stored row, with the names overwritten only when some name is given |
| Database.Store.GetIdByUsername | telegramBot/database.py:110-115 | finds a user whose stored username is the cleaned input, and returns None only when no user has it |
| Database.Store.UpdateXp | telegramBot/database.py:117-145 | an unknown user gets (0,0,0) and nothing changes; otherwise the row becomes the cascaded standing and the old level, new level and delta are returned |
| Database.Store.GiveReputation | telegramBot/database.py:147-170 | the result is RepOutcome; only success inserts the triple and adds +1 to the target's reputation |
| Database.Endorsed | telegramBot/database.py:167 | the users table after the +1 UPDATE: the same keys, every other row kept, the target's reputation one higher and the rest of its row kept |
| Database.Store.CheckWipeCooldown | telegramBot/database.py:172-184 | true iff the stored date is not today; a true answer records today, a false one changes nothing |
| Database.Store.SetModeratorLevel | telegramBot/database.py:186-189 | sets only that user's mod_level; unknown users are ignored |
| Database.Appointed | telegramBot/database.py:186-189 | the users table after the UPDATE: the same keys, every other row kept, and the user's row with only mod_level replaced |
| Database.Store.ManageWarn | telegramBot/database.py:200-220 | add increments and logs the reason if one is given; remove floors at 0 and drops only the newest reason; reset zeroes and clears; the new count is returned and other users are untouched |
| Database.Store.SetWarns | telegramBot/database.py:200-220 | overwrites only that user's warn count |
| Database.Store.AddToList | telegramBot/database.py:231-240 | inserts the lowercased item iff it is not already present, and reports whether it did |
| Database.AppendKeepsDistinct | telegramBot/database.py:231-240 | appending an absent item keeps a list duplicate-free |
| Database.RepTwiceSameDay | telegramBot/database.py:158-161 | after a successful grant the same grant on the same day is refused as daily_limit_user; self-grants are always refused |
| Database.WipeTwiceSameDay | telegramBot/database.py:172-184 | a second cooldown check on the same day fails |
| Database.StoreThenFind | telegramBot/database.py:92-115 | a user stored with a username is found again by it |
| Games.GameReq | telegramBot/modules/games.py:16-21 | duel and basketball need level 4, dice and slots level 3, any other key 0 (the `.get(key, 0)` default) |
| Text.RemoveAll | telegramBot/modules/games.py:183 | `replace("play_", "")` removes copies of the pattern and never lengthens the text; a text without the pattern is returned as it is |
| Text.RemoveAllLeading | telegramBot/modules/games.py:183 | the leading "play_" goes and so does every later copy, so "play_play_dice" names the game "dice" |
| Games.GameButtonFor | telegramBot/modules/games.py:43-51 | a button is playable iff the level reaches the game's requirement or the user is an admin; a playable button carries the callback and owner, a locked one names the required level |
| Games.UnlockMonotone | telegramBot/modules/games.py:43-51 | a game unlocked at one level stays unlocked at every higher level |
| Games.UnlockThresholds | telegramBot/modules/games.py:16-21 | level 4 unlocks everything; below level 3 every listed game is locked for non-admins |
| Games.CanAfford | telegramBot/modules/games.py:53-78 | the downward cascade loop answers exactly whether bet <= xp + the caps of the lower levels |
| Games.AffordableIffExactDebit | telegramBot/modules/games.py:63-75 | affordable iff debiting the bet with update_xp does not hit the level-1 clamp; otherwise the debit clamps to (1,0) |
| Games.AffordExamples | telegramBot/modules/games.py:53-78 | (10,1,1000) is unaffordable, (50,2,400) affordable, and level 5 with 0 XP covers exactly 35500 |
| Games.Multiplier | telegramBot/modules/games.py:241-276 | dice pay x2 iff roll >= 4; x10 only for slots 64; unknown games pay nothing |
| Games.PayoutTables | telegramBot/modules/games.py:241-276 | summed over all faces, the multipliers are 6 for dice, 5 for basket and 19 for slots |
| Games.AdminOrOwnerCases | telegramBot/modules/games.py:32-41 | the owner, the anonymous admin bot and the service account always count as admins; anyone else never in a private chat, and in a group exactly when the member lookup succeeds with creator or administrator |
| Games.PlayerOf | telegramBot/modules/games.py:190-207 | the owner of the table plays; an anonymous-admin table is playable only by admins |
| Games.PlayGame | telegramBot/modules/games.py:179-300 | unparsable data and the two refusals (a non-admin on the anonymous table, a stranger on someone's table, the admin answer coming from is_admin_or_owner) leave the users table as it was; an unaffordable bet only registers the player; a played round registers the player, then the player's total becomes max(0, total - bet + bet x multiplier) (exactly that when the bet is not negative), every other row and the player's other columns stay as registered, and the bet was affordable; no outcome touches reputation, warn reasons or the lists |
| Games.PlaceBet | telegramBot/modules/games.py:211-283 | registers the player; CannotAfford iff the registered player cannot cover the bet, leaving the registered table; otherwise Played with the given multiplier and the player's total max(0, total - bet + bet x multiplier), every other row kept |
| Games.Stake | telegramBot/modules/games.py:223-283 | debiting the bet and crediting bet x multiplier leaves max(0, total - bet + bet x multiplier) XP and changes no other row and no other column of the player's |
| Games.WinnerOf | telegramBot/modules/games.py:566-573 | a tie iff the tactics are equal; otherwise the side whose tactic beats the other's wins |
| Games.BeatsIsCyclic | telegramBot/modules/games.py:566-573 | every tactic beats exactly one tactic, is beaten by one, and no two tactics beat each other |
| Games.WinnerSymmetric | telegramBot/modules/games.py:566-573 | swapping the sides swaps the winner |
| Games.TransferConserves | telegramBot/modules/games.py:590-596 | when the loser can afford the bet, the winner's total rises by the bet and the loser's falls by it |
| Games.Challenge | telegramBot/modules/games.py:438 | a new duel waits for acceptance with no tactics chosen |
| Games.SideOf | telegramBot/modules/games.py:520-526 | a clicker who is neither duellist, nor an admin standing in for the anonymous one, gets no side |
| Games.DuelTable.constructor | telegramBot/modules/games.py:385 | no duel is open |
| Games.DuelTable.CreateDuel | telegramBot/modules/games.py:385-447 | missing args, a bad bet and a bet below 10 are refused with the users table unchanged; a bet of 10 or more registers the initiator and carries all of Open's outcome rules for the first word and that bet: the level and cover refusals as iffs, not found and self-challenge only in their cases, and a challenge forced for a non-zero, non-self reply author or an unambiguous handle; the duel table changes only for a challenge, which overwrites the chat's duel; reputation, warn reasons and the lists never change |
| Games.DuelTable.Open | telegramBot/modules/games.py:400-447 | registers the initiator; LevelTooLow iff the registered initiator is a non-admin below level 4, CannotCover iff an eligible initiator cannot cover the bet; not found only for a reply from id 0, or a handle no user holds or user 0 holds; a self-challenge only when the reply author or the handle holder is the initiator; an eligible initiator who can pay is challenged whenever the reply author is neither 0 nor the initiator, or the handle is held by someone and by neither 0 nor the initiator; a challenge replaces the chat's duel with a fresh one; nothing else in the database changes |
| Games.DuelTable.FindTarget | telegramBot/modules/games.py:421-427 | the replied-to author is the target; otherwise a found target is a stored user whose username is the cleaned handle, and no target is found only when no stored user has that username |
| Games.DuelTable.Accept | telegramBot/modules/games.py:465-494 | a duel that is missing or not waiting is Expired and a wrong clicker NotChallenged, both leaving the users table unchanged; a waiting duel clicked by its target, or by an admin for the anonymous target, always reaches Admit: the target is registered, the answer is CannotCover iff the target cannot cover the bet, else Accepted with the duel moved to fighting and the tactics kept |
| Games.DuelTable.Admit | telegramBot/modules/games.py:480-494 | registers the target; refused iff the registered target cannot cover the bet; otherwise the duel starts fighting; nothing else in the database changes |
| Games.DuelTable.ChooseTactic | telegramBot/modules/games.py:512-544 | only fighting duels accept tactics; spectators and second choices are refused; resolution runs exactly when both choices are set; reputation, warn reasons and the lists never change |
| Games.DuelTable.ResolveDuel | telegramBot/modules/games.py:560-618 | the winner gains the bet, the loser loses it, a tie changes no XP, and the duel is removed in every case; reputation, warn reasons and the lists never change |
| TextAnalysis.LeetShape | telegramBot/utils.py:58-62 | each leet key maps to at most one character that is not itself a key |
| TextAnalysis.ReplaceEachPerChar | telegramBot/utils.py:66-67 | when no replacement introduces a later key, the sequential replace loop equals a per-character first-match map |
| TextAnalysis.LeetPairsClosed | telegramBot/utils.py:58-62 | no replacement output of the leet map is a key |
| TextAnalysis.NormalizeIsPerChar | telegramBot/utils.py:64-68 | normalize is lowercase followed by the per-character leet map |
| TextAnalysis.NormalizeShape | telegramBot/utils.py:64-68 | the output contains no map key and is no longer than the input |
| TextAnalysis.NormalizeExample | telegramBot/utils.py:64-68 | "h3ll0" normalizes to "hello" and "Ca$h" to "cash" |
| TextAnalysis.NormalizeIdempotent | telegramBot/utils.py:64-68 | normalizing twice equals normalizing once |
| TextAnalysis.IsBadWordSpec | telegramBot/utils.py:70-85 | a text is bad iff some banned phrase occurs at a word boundary of the normalized text or matches one of its tokens |
| TextAnalysis.ShortPhraseExact | telegramBot/utils.py:80-82 | phrases of length <= 3 match a token only by equality |
| TextAnalysis.EqualTokenCaught | telegramBot/utils.py:79-84 | a token equal to a banned phrase is always caught |
| TextAnalysis.WholeTextCaught | telegramBot/utils.py:75-77 | a normalized text equal to a banned phrase is caught |
| TextAnalysis.EmptyListNeverHits | telegramBot/utils.py:74-85 | an empty banned list never reports |
| Flood.Weight | telegramBot/utils.py:113-119 | the message weight lies in [1, 8]; a short repeat weighs 6 |
| Flood.Decayed | telegramBot/utils.py:110-111 | the decayed score is score - 0.5 x elapsed when that is not negative and 0 otherwise, never above the old score |
| Flood.Classify | telegramBot/utils.py:125-130 | after classification the stored score lies in (0, 10) and the text and time are recorded |
| Flood.StepClassifies | telegramBot/utils.py:121-130 | a raised score >= 10 mutes and resets to 6, >= 6 warns, else passes |
| Flood.QuietUserNotMuted | telegramBot/utils.py:110-130 | a user silent for 20 seconds cannot be muted by the next message |
| Flood.LaterIsLower | telegramBot/utils.py:110-111 | decay is monotone in elapsed time |
| Flood.HeaviestWeight | telegramBot/utils.py:117-119 | a nine-letter one-character repeat reaches the largest weight, 8 |
| Flood.FloodControl.constructor | telegramBot/utils.py:91-99 | no user is tracked |
| Flood.FloodControl.Check | telegramBot/utils.py:104-130 | the user's entry becomes the step of the decayed old entry (a fresh one for a new user) and the status is that step's |
| Flood.FloodControl.Record | telegramBot/utils.py:106-130 | on an already cleaned text: decay, add the weight, remember the text and time, classify, as one step of the score rule |
| Flood.CleanHi | telegramBot/utils.py:114 | cleaning "hi" leaves it unchanged, so the check on "hi" is the recorded step on "hi" |
| Flood.HiFirst | telegramBot/utils.py:106-130 | a new user's first "hi" scores 1.5 and passes |
| Flood.HiRepeated | telegramBot/utils.py:110-130 | a repeated "hi" at the same instant raises 1.5 to 7.5 (warn) and 7.5 to 13.5, which mutes and resets to 6 |
| Flood.HiThreeTimes | telegramBot/utils.py:104-130 | "hi" three times at one instant from a new user passes, warns, then mutes |
| CommandArgs.ParseTime | telegramBot/utils.py:136-146 | the accumulation loop computes the summing duration: None for empty input or no match |
| CommandArgs.SumOfPieces | telegramBot/utils.py:141-145 | the seconds of a concatenation split at a non-digit add up |
| CommandArgs.SingleTerm | telegramBot/utils.py:141-146 | one term "<digits><unit>" lasts digits x unit seconds |
| CommandArgs.TwoTerms | telegramBot/utils.py:141-146 | two terms last the sum of their seconds |
| CommandArgs.HourAndHalf | telegramBot/utils.py:136-146 | "1h30m" is 5400 seconds |
| CommandArgs.BlanksIgnored | telegramBot/utils.py:138 | a space does not change the duration |
| CommandArgs.CaseIgnored | telegramBot/utils.py:138 | letter case does not change the duration |
| CommandArgs.NoDigitNoDuration | telegramBot/utils.py:146 | a text without digits has no duration |
| CommandArgs.RepeatedUnitAdds | telegramBot/utils.py:143-145 | "1m1m" counts both terms: 120 |
| CommandArgs.ZeroSeconds | telegramBot/utils.py:145-146 | "0s" is Some(0), not None |
| CommandArgs.RestOf | telegramBot/utils.py:160-172 | the first argument is consumed exactly when it names the target by @handle or id |
| CommandArgs.ParseCommandComplex | telegramBot/utils.py:151-185 | the target comes from the reply, else the @handle, else a numeric id; the flag, duration and reason are those of the argument scan |
| CommandArgs.FlagIffDel | telegramBot/utils.py:174-176 | the delete flag is set iff "-del" is among the arguments |
| CommandArgs.DelNeverInReason | telegramBot/utils.py:174-182 | "-del" never reaches the reason |
| CommandArgs.FirstTruthy | telegramBot/utils.py:177-180 | the chosen duration, if any, is non-zero |
| CommandArgs.DurationIsFirst | telegramBot/utils.py:177-180 | the duration is the first argument with a truthy duration |
| CommandArgs.AfterDurationAllReason | telegramBot/utils.py:177-182 | once a duration is set, every later argument except "-del" goes to the reason |
| CommandArgs.ArgumentsPartitioned | telegramBot/utils.py:174-182 | each argument is the flag, the duration or part of the reason |
| CommandArgs.SpamExample | telegramBot/utils.py:174-182 | "10m spam -del 5m" gives 600 s, reason "spam 5m" and the flag |
| ReplyArgs.ParseTimeFirst | telegramBot/modules/utils.py:7-42 | the per-unit search loop computes the first-match-per-unit duration |
| ReplyArgs.SearchIsFirstMatch | telegramBot/modules/utils.py:15-34 | the per-unit regex search finds the first match with that unit |
| ReplyArgs.ParsersFindAlike | telegramBot/modules/utils.py:8-42 | both parsers find a duration on exactly the same inputs |
| ReplyArgs.ParsersAgree | telegramBot/modules/utils.py:15-42 | when no unit repeats, the two parsers agree |
| ReplyArgs.DistinctUnitsAgree | telegramBot/modules/utils.py:15-42 | two terms with different units give the same duration under both parsers |
| ReplyArgs.RepeatedUnit | telegramBot/modules/utils.py:30-34 | a repeated unit counts only its first amount |
| ReplyArgs.RepeatedUnitOnce | telegramBot/modules/utils.py:30-34 | "1m1m" is 60 here and 120 under the summing parser |
| ReplyArgs.DayAndTenHours | telegramBot/modules/utils.py:15-42 | "1d10h" is 122400 seconds |
| ReplyArgs.ZeroIsSome | telegramBot/modules/utils.py:40-42 | "0s" is Some(0) |
| ReplyArgs.ExtractArgs | telegramBot/modules/utils.py:67-107 | without a reply the target is refused; with one, a truthy first duration is taken and the rest is the reason, else everything is the reason |
| Moderation.GetSenderLevel | telegramBot/modules/moderation.py:30-56 | owner and service ids rank 5; a stored mod_level > 0 wins over the chat role; chat admins in groups rank 5; else 0; an unknown ordinary user is registered |
| Moderation.Looked | telegramBot/modules/moderation.py:30-56 | the users table after get_sender_level: unchanged for the owner, the service ids and known users, and a new row for an unknown ordinary user |
| Moderation.StoredLevelOverridesChatRole | telegramBot/modules/moderation.py:41-47 | a chat admin with a stored mod_level keeps that level |
| Moderation.SenderLevelBounds | telegramBot/modules/moderation.py:30-56 | the level lies in 0..5 and is 0 exactly when none of the ranking cases applies |
| Moderation.PrivateIgnoresRole | telegramBot/modules/moderation.py:48-54 | in a private chat the role lookup does not matter |
| Moderation.IsAdmin | telegramBot/modules/moderation.py:58-63 | true iff the message came on behalf of the same chat or the sender's level reaches the required level; a same-chat sender leaves the users table unchanged, otherwise it is get_sender_level's (an unknown ordinary sender is registered) |
| Moderation.NoMutualAction | telegramBot/modules/moderation.py:217 | two non-owners can never act on each other, and equals never act on each other |
| Moderation.GateProceedsIff | telegramBot/modules/moderation.py:206-400 | a command proceeds iff the sender has the command's level, a target was given, and for mute/warn/kick/ban the target ranks strictly lower or the sender is the owner |
| Moderation.StoredHelperCannotBan | telegramBot/modules/moderation.py:356 | a chat admin stored as helper is refused /ban |
| Moderation.MuteSeconds | telegramBot/modules/moderation.py:220 | a truthy duration is used, otherwise 600 s |
| Moderation.BanPermanentIff | telegramBot/modules/moderation.py:369-376 | the ban is permanent iff no truthy duration was given; a temporary ban ends after now |
| Moderation.Promote | telegramBot/modules/moderation.py:411-440 | senders below 4 are refused; fewer than two args or a non-number are refused; "user not found" only when no non-zero user fits the user part or user 0 does, and never for a sender of 4 or more with a parsed level and a fitting non-zero target when user 0 does not fit; every later answer is GrantOutcome for some fitting non-zero target and the parsed level, so a Manager granting below 4 to a target below 4 is promoted; a promotion sets the target's mod_level and keeps every other row; refusals other than TargetTooHigh change nothing |
| Moderation.Appoint | telegramBot/modules/moderation.py:428-440 | the target is looked up from the reply or the user words; not found only when no non-zero user fits or user 0 does; otherwise the answer is GrantOutcome for a fitting non-zero target, and the new users table is Grant's |
| Moderation.Grant | telegramBot/modules/moderation.py:433-440 | the answer is GrantOutcome of the target's current level: a Manager may grant only levels below 4 and only to targets below 4; higher senders always promote; TargetTooHigh only registers the target through get_sender_level; a promotion sets the target's mod_level on the (for a Manager, looked-up) table and keeps every other row |
| Moderation.GrantOutcome | telegramBot/modules/moderation.py:433-440 | ManagerCap iff a Manager asks for 4 or more; TargetTooHigh iff a Manager asks for less but the target is at 4 or more; any other case promotes the target to the requested level |
| Moderation.LinkAllowed | telegramBot/modules/moderation.py:148-154 | the whitelist loop answers whether some whitelist item occurs in the lowercased text |
| Moderation.BadContentChecker | telegramBot/modules/moderation.py:121-163 | the reported reason is the violation rule, exemptions first |
| Moderation.CheckText | telegramBot/modules/moderation.py:139-161 | the advert check precedes the bad-word check |
| Moderation.ExemptNeverReported | telegramBot/modules/moderation.py:122-132 | private chats, commands, helpers and above, and empty text are never reported |
| Moderation.AdvertFirst | telegramBot/modules/moderation.py:139-161 | a non-whitelisted link gives the advert reason, whatever the banned words say |
| Moderation.WhitelistedLinkPasses | telegramBot/modules/moderation.py:148-156 | a text containing a whitelist item is never reported as an advert |
| Moderation.Escalate | telegramBot/modules/moderation.py:175-194 | one warn is added; at the limit a successful 1800-second restriction resets the count and the reasons, so the stored count stays below the limit |
| Moderation.UnwarnActionAsWritten | telegramBot/modules/moderation.py:291 | the action is reset iff "all" is a substring of the lowercased args |
| Moderation.HandleWithAllResets | telegramBot/modules/moderation.py:291 | `/unwarn @marshall` resets all warns under the code as written |
| Moderation.HandleAloneRemoves | telegramBot/modules/moderation.py:291 | under the corrected rule a lone @handle removes one warn |
| Moderation.IntendedResetsLess | telegramBot/modules/moderation.py:291 | the corrected rule resets only where the written rule does |
| Moderation.Unwarn | telegramBot/modules/moderation.py:282-295 | an answer comes exactly for an admin with a non-zero target; refusals change nothing; otherwise only the target's warns and warn reasons change: reset clears both, remove drops one warn and the newest reason; reputation and the lists never change. The choice between reset and remove is the corrected `UnwarnAction` (see Findings), not moderation.py:291 as written |
| Moderation.FloodDecisionSpec | telegramBot/modules/moderation.py:97-115 | admins always pass; others pass iff the status is ok; mute adds a 600 s restriction |
| Moderation.FloodMiddleware | telegramBot/modules/moderation.py:66-115 | private or authorless messages pass untouched; a group message registers its author with username and full name, and updates the flood state, admins included, and the decision follows it; reputation, warn reasons and the lists never change |
| UserXp.EffectiveLevelSpec | telegramBot/modules/user.py:36-55 | owner and service ids and group chat admins get 5; otherwise the passed-in level |
| UserXp.CommandGates | telegramBot/modules/user.py:118-126 | /staff opens for the privileged or RPG level 3 and up, /leaders for the privileged or RPG level 2 and up; a new level-1 user passes neither |
| UserXp.ChatRoleWinsHereOnly | telegramBot/modules/user.py:36-55 | a chat admin stored at mod_level 1..4 is 5 here but keeps the stored level in the moderation ranking |
| UserXp.MenuLevel | telegramBot/modules/user.py:394 | the menu level is the larger of the effective and the RPG level |
| UserXp.GateIsMenuLevel | telegramBot/modules/user.py:394 | "both below k" fails exactly when the menu level reaches k |
| UserXp.ProfileKeyboardSpec | telegramBot/modules/user.py:349-363 | leaders unlock iff level >= 2, games iff level >= 3 |
| UserXp.GamesMenuSpec | telegramBot/modules/user.py:427-456 | at level 3 dice and slots are open; basketball and duel open iff level >= 4 |
| UserXp.ProfileDecorations | telegramBot/modules/user.py:288-345 | a role tag iff mod_level > 0; a photo iff level >= 3; the level-5 image iff level 5 |
| UserXp.ShowProfile | telegramBot/modules/user.py:243-279 | denied iff the request is foreign and the menu level is below 4; blank args abort; with a handle, no matching user means not found and a shown target has that handle; a reply shows its author; otherwise the caller with the keyboard for the menu level; showing registers the shown user and nothing else changes |
| UserXp.Profile | telegramBot/modules/user.py:223-279 | get_user registers the caller first; the caller's stored mod_level gives the effective level and its RPG level the other half of the menu level; then ShowProfile decides, on the registered table |
| UserXp.NonLinks | telegramBot/modules/user.py:590 | the words kept contain no "http"-prefixed word |
| UserXp.TextXpValues | telegramBot/modules/user.py:590-603 | 5, +10 for long text, +50 for reviving an idle chat, x1.5 floored at night: always one of 5, 15, 55, 65, 7, 22, 82, 97 |
| UserXp.FirstMessageNeverRevives | telegramBot/modules/user.py:595-597 | the first message seen in a chat earns no idle bonus |
| UserXp.OnlyLinksNotLong | telegramBot/modules/user.py:590 | a text made only of links counts as empty |
| UserXp.MediaXp | telegramBot/modules/user.py:636-638 | media earns 15, or 22 during hours 2..6 |
| UserXp.RepAllowedCases | telegramBot/modules/user.py:556-565 | the owner and level-4 users may give rep; a new ordinary non-admin may not |
| UserXp.RepAnswer | telegramBot/modules/user.py:547-581 | the +rep answer is locked iff the registered giver may not grant rep; otherwise it is give_reputation's outcome |
| UserXp.RepUsers | telegramBot/modules/user.py:547-581 | the users table after +rep: the giver registered; every row other than giver and target kept; nothing but the registration unless the grant succeeded |
| UserXp.GiveRep | telegramBot/modules/user.py:547-581 | the answer is RepAnswer (locked iff the registered giver may not grant, else give_reputation's outcome); the users table becomes RepUsers: the giver registered, and on success +1 rep and +150 XP for the target only; a locked giver changes no rep history; warn reasons and the lists never change |
| UserXp.RepNeverFarms | telegramBot/modules/user.py:547-581 | after a +rep, whatever its outcome, the giver's XP and level are exactly those of the registered giver: +rep never farms XP |
| UserXp.XpCaches.constructor | telegramBot/modules/user.py:19-21 | all caches start empty |
| UserXp.XpCaches.OnText | telegramBot/modules/user.py:539-620 | private text is ignored and changes nothing; a rep trigger on a reply is GiveRep's answer and tables, so it never farms XP; other text farms, keeping rep history; too soon changes nothing; warn reasons and the lists never change |
| UserXp.XpCaches.Farm | telegramBot/modules/user.py:584-608 | too soon iff under 60 s since the user's last credited message, which changes nothing; otherwise the text-XP amount is credited; reputation, warn reasons and the lists never change |
| UserXp.XpCaches.Score | telegramBot/modules/user.py:590-603 | the amount is the text-XP rule on the old chat activity; the chat's activity time becomes now |
| UserXp.XpCaches.OnMedia | telegramBot/modules/user.py:624-645 | cooldown iff at most 600 s since the last credited media; otherwise the media amount is credited; reputation, warn reasons and the lists never change |
| UserXp.TwoMessagesWithinAMinute | telegramBot/modules/user.py:584-588 | two messages less than a minute apart earn once |
| UserXp.CmdWipe | telegramBot/modules/user.py:465-497 | without a reply nothing happens; bypassers wipe at once and the users table stays as registered; others need level 5 and the daily cooldown: a refusal or a cooldown keeps the registered table, a wipe also stamps today as the last wipe date |
| UserXp.WipeTwiceADay | telegramBot/modules/user.py:473-490 | a level-5 ordinary user wipes once, and the second wipe that day is cooled down |
| UserXp.RoleTitleInjective | telegramBot/modules/user.py:132-138 | distinct mod levels get distinct titles |
| UserXp.GroupStaff | telegramBot/modules/user.py:140-149 | the grouping loop maps each title to exactly the staff below level 5 holding it, in order |
| UserXp.MembersSpec | telegramBot/modules/user.py:140-149 | every grouped entry has that title, is below level 5 and comes from the staff list |
| UserXp.MembersComplete | telegramBot/modules/user.py:140-149 | every staff entry below level 5 lands in its title's group |
| UserXp.StaffSectionsShape | telegramBot/modules/user.py:154-159 | the printed sections are Manager, Moder³, Moder², Moder¹, each shown only when non-empty |
| UserXp.StaffSectionsComplete | telegramBot/modules/user.py:154-159 | every staff entry at mod level 1..4 is printed |
| AdminPanel.TotalPages | admin.py:164 | the page count is ceil(n / 50), zero only for an empty list |
| AdminPanel.ParsePage | admin.py:154-157 | callback data without a ':' part asks for page 0 |
| AdminPanel.ClampPageSpec | admin.py:173-174 | the clamped page lies in [0, total-1] and equals the request when it is in range |
| AdminPanel.PageSliceSpec | admin.py:177-179 | a shown page holds 1 to 50 items, items[page*50 + k] in order |
| AdminPanel.FirstPagesPrefix | admin.py:177-179 | the first k pages together are the list's prefix of k*50 items |
| AdminPanel.PagesPartition | admin.py:177-179 | all pages together are the whole list, in order |
| AdminPanel.BadwordsKb | admin.py:38-69 | four rows; the navigation row has "previous" iff page > 0, "next" iff page < total-1 and the label page+1/total, else a show button for page 0; then the fixed rows |
| AdminPanel.NavigationStaysInRange | admin.py:42-59 | from an in-range page every page button targets an in-range page |
| AdminPanel.ShowBadwords | admin.py:152-187 | an empty list gives the empty view with keyboard (0, 1); otherwise the clamped page of ceil(n/50) pages |
| AdminPanel.ShowBadwordsSpec | admin.py:162-179 | a shown page lies in range and holds that page's items |
| AdminPanel.SplitItemsClean | admin.py:233 | every bulk item is a stripped, non-empty, comma-free piece |
| AdminPanel.AddAllSpec | admin.py:235-238 | adding items keeps the old list as a prefix, stays duplicate-free and ends up holding every item lowercased |
| AdminPanel.ProcessAdd | admin.py:231-262 | the message's items are offered to the list: it becomes AddAll of the items, the reply counts the inserts, and nothing else changes |
| AdminPanel.AddItems | admin.py:235-238 | the insert loop leaves the list as AddAll of the items and counts exactly the accepted ones |
| AdminPanel.Offer | admin.py:236-238 | one offered item takes the list one step along AddAll and grows it by one exactly when accepted |
| AdminPanel.Truncate | admin.py:146 | text over 4000 characters becomes its first 4000 plus "\n..."; shorter text is kept |

## Left out

- Telegram transport: sending, deleting and scheduling messages (`answer_temp`, `delete_later`, the temp-message map), HTML rendering (`get_user_link`, `format_xp`), the welcome message and the help texts. These are I/O.
- SQLite internals and migrations. The tables are maps, sets and sequences inside `Database.Store`.
- The regex link patterns of the content checker. Link detection is a predicate parameter and only the decision order is modelled.
- `difflib.SequenceMatcher.ratio`. It is a function parameter returning a `real`.
- `time.time()`, the hour and the date. They are parameters. The dice roll is a parameter.
- Concurrency between awaits. Each handler runs as one sequential step.
- telegramBot/modules/admin.py is not part of this model. It duplicates admin.py without pagination.
- telegramBot/main.py and telegramBot/keep_alive.py are not part of this model; they are wiring and a web server.
- `cmd_addxp` is not modelled on its own. Its effect is `Database.Store.UpdateXp` with a parsed amount.
- `cmd_unmute` and `cmd_unban` are modelled only through their level gate (`Moderation.GateOf`). Lifting a restriction is a Telegram call.
- `remove_from_list` is not modelled. It names the column `item`, which the bad-word table does not have.
- The ordering of `get_top_users` and the leaders text are not modelled.
- The float progress bar of the profile is not modelled.
- `cb_locked` callback parsing is not modelled.
- Text.ParseInt: accepts an optional sign and ASCII digits only. Python's `int()` also accepts surrounding blanks, underscores and non-ASCII digits.
- Flood.Weight: the proved bound is [1, 8]. The short-message and low-variety multipliers exclude each other (lengths under 5 and over 8), so the larger [1, 24] range is never reached.
- Games.DuelTable.Accept: keeps the chosen tactics, because the code never clears them.
- Flood.Decayed and Flood.FloodControl.Check: the score is an exact `real`. The code uses floats, so the rounding of `time_diff * 0.5` and of the score arithmetic is not modelled.
- UserXp.ShowProfile: the deletion of the caller's previous profile message is not modelled; it is a Telegram call.
- Flood.FloodControl.Check: works on the lowercased, stripped text, as the code does, not on the leetspeak normalisation.
- UserXp.EffectiveLevelSpec: the /staff and /leaders gates are modelled on the RPG level (`UserXp.StaffGateOpen`, `UserXp.LeadersGateOpen`). `UserXp.Profile` computes the effective level from the caller's stored mod level; the leaders and games callbacks take it as a parameter and do not compute it from the mod level themselves.
- Text.Lower: lowercases ASCII and the Cyrillic capitals U+0400-U+042F only. Python's `str.lower()` covers all of Unicode, including Latin-1, Greek and 'İ', which becomes two characters. `TextAnalysis.Normalize`, `TextAnalysis.IsBadWord`, `Database.Clean` and both `parse_time` models inherit this, and `TextAnalysis.NormalizeShape`'s length bound holds only for this narrower lowercasing.
- Text.IsDigit: accepts ASCII digits only, and so does `Text.AllDigits`. Python's `\d` and `isdigit()` accept every Unicode decimal digit, so `parse_time("٥m")` is 300 seconds in the bot and None here.
- Database.Store: the whitelist and the bad-word list are sequences in insertion order. The tables are keyed by the item, and `get_list` reads them with no ORDER BY, so SQLite does not promise that order. `AdminPanel.AddAllSpec`'s prefix clause and the page contents of `AdminPanel.ShowBadwords` rest on it.
- Games.DuelTable: `CreateDuel`, `Open`, `Accept` and `ChooseTactic` take the answer of `is_admin_or_owner` as a boolean. `Games.AdminOrOwnerCases` states what that answer is, and `Games.PlayGame` computes it with `Games.IsAdminOrOwner`.
- ReplyArgs.ParseTimeFirst: the example "10m 20s" = 620 is not proved as a lemma. `ReplyArgs.DistinctUnitsAgree` with `CommandArgs.BlanksIgnored` covers that case.

## Findings

| source | as written | input that shows it | evidently intended | confidence | as-written member | corrected member |
|---|---|---|---|---|---|---|
| telegramBot/modules/moderation.py:291 | `/unwarn` resets every warn when "all" occurs anywhere in the lowercased argument text | `/unwarn @marshall` resets all warns instead of removing one | reset only when "all" is given as a word of its own | not executed | Moderation.HandleWithAllResets | Moderation.UnwarnAction |
