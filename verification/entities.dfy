/**
 * The Discord records the agent handles (the fields of `discordgo` types that
 * the relay reads).  Identifiers are Discord's snowflake strings.
 */
module Entities {

  datatype User = User(id: string, email: string, username: string, avatar: string, bot: bool, system: bool)

  /** The guild-scoped part of a message's author. */
  datatype MemberInfo = MemberInfo(nick: string, avatar: string)

  /** A `MessageCreate` event: one new message posted in a guild channel. */
  datatype Message = Message(
    id: string,
    channelId: string,
    guildId: string,
    content: string,
    author: User,
    member: MemberInfo,
    pinned: bool,
    kind: int)

  datatype Channel = Channel(id: string, name: string, nsfw: bool, position: int)

  /** A guild as cached by the agent, together with its channel list. */
  datatype Guild = Guild(id: string, name: string, icon: string, region: string, ownerId: string, channels: seq<Channel>)
}
