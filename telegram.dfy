/** What the bot learns from Telegram about an actor: special ids and chat roles. */
module Telegram {
  import opened Wrappers

  /** "Group Anonymous Bot": the sender id of messages posted by anonymous chat admins. */
  const AnonBotId: int := 1087968824

  /** Telegram's own service account. */
  const ServiceId: int := 777000

  datatype MemberStatus = Creator | Administrator | Member | Restricted | Left | Kicked

  /**
   * The answer of `chat.get_member(user_id)`: `None` when the call raised,
   * which every caller swallows.
   */
  type RoleLookup = Option<MemberStatus>

  /** `member.status in ['creator', 'administrator']` on a successful lookup. */
  predicate IsChatAdmin(lookup: RoleLookup) {
    lookup.Some? && (lookup.value == Creator || lookup.value == Administrator)
  }

  /** The owner and the two platform accounts that every rank check treats as all-powerful. */
  predicate IsSuperActor(userId: int, ownerId: int) {
    userId == ownerId || userId == AnonBotId || userId == ServiceId
  }
}
