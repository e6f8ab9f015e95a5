/**
  The pin action of a message: whether the current user may pin in the
  current channel (`canPin`), and what pressing the pin button does
  (`handlePin`): which SDK call it makes and which error notice it raises
  when that call fails.
 */
module PinHandler {
  import opened Js

  /** A user record as seen by `canPin`: `role` is `None` when it is not a string. */
  datatype RoleHolder = RoleHolder(role: Option<string>)

  /** The chat client: the id and the record of the connected user. */
  datatype Client = Client(userID: Option<string>, user: Option<RoleHolder>)

  /** The loaded state of a channel: its members and watchers by user id. */
  datatype ChannelState = ChannelState(members: map<string, RoleHolder>, watchers: map<string, RoleHolder>)

  /** The current channel: its type and, once loaded, its state. */
  datatype Channel = Channel(channelType: string, state: Option<ChannelState>)

  /** For one channel type, which roles may pin. */
  type RoleTable = map<string, bool>

  /** The permission table: channel type to role table. */
  type Permissions = map<string, RoleTable>

  /** `table[role]` is truthy, for a role that is a string. */
  predicate Grants(table: RoleTable, role: Option<string>)
  {
    role.Some? && role.value in table && table[role.value]
  }

  /** The role of an optional user record (`record?.role`). */
  function RoleOf(holder: Option<RoleHolder>): Option<string>
  {
    if holder.Some? then holder.value.role else None
  }

  /** The record stored under `id` in a member or watcher map, if any. */
  function Lookup(m: map<string, RoleHolder>, id: string): Option<RoleHolder>
  {
    if id in m then Some(m[id]) else None
  }

  /**
    Everything `canPin` needs before it looks at roles: a connected user id,
    a loaded channel, a permission table and an entry in it for the channel's type.
   */
  predicate Eligible(client: Option<Client>, channel: Option<Channel>, permissions: Option<Permissions>)
    ensures client.None? || client.value.userID.None? || client.value.userID == Some("") ==> !Eligible(client, channel, permissions)
    ensures channel.None? || channel.value.state.None? ==> !Eligible(client, channel, permissions)
    ensures permissions.None? ==> !Eligible(client, channel, permissions)
    ensures channel.Some? && permissions.Some? && channel.value.channelType !in permissions.value ==> !Eligible(client, channel, permissions)
    ensures Eligible(client, channel, permissions) ==> channel.value.channelType in permissions.value
  {
    && client.Some? && Truthy(client.value.userID)
    && channel.Some? && channel.value.state.Some?
    && permissions.Some? && channel.value.channelType in permissions.value
  }

  /**
    `canPin()`: false unless the user, the channel state and a permission
    entry for the channel's type exist; then true exactly when the user's
    global role, channel-member role or channel-watcher role is granted by
    that entry.
   */
  function CanPin(client: Option<Client>, channel: Option<Channel>, permissions: Option<Permissions>): (r: bool)
    ensures !Eligible(client, channel, permissions) ==> !r
    ensures Eligible(client, channel, permissions) ==>
      var table := permissions.value[channel.value.channelType];
      var id := client.value.userID.value;
      var st := channel.value.state.value;
      (r <==> (|| Grants(table, RoleOf(client.value.user))
               || Grants(table, RoleOf(Lookup(st.members, id)))
               || Grants(table, RoleOf(Lookup(st.watchers, id)))))
  {
    if !Eligible(client, channel, permissions) then false
    else
      var table := permissions.value[channel.value.channelType];
      var id := client.value.userID.value;
      var st := channel.value.state.value;
      if client.value.user.Some? && client.value.user.value.role.Some?
         && Grants(table, client.value.user.value.role) then true
      else if id in st.members && st.members[id].role.Some?
         && Grants(table, st.members[id].role) then true
      else if id in st.watchers && st.watchers[id].role.Some?
         && Grants(table, st.watchers[id].role) then true
      else false
  }

  /** `p'` grants everything `p` grants, and possibly more. */
  predicate GrantsAtLeast(p: Permissions, p': Permissions)
  {
    forall ty | ty in p :: ty in p' && forall role | role in p[ty] && p[ty][role] :: role in p'[ty] && p'[ty][role]
  }

  /** Granting more roles never takes the right to pin away. */
  lemma CanPinMonotone(client: Option<Client>, channel: Option<Channel>, p: Permissions, p': Permissions)
    requires GrantsAtLeast(p, p')
    requires CanPin(client, channel, Some(p))
    ensures CanPin(client, channel, Some(p'))
  {
    var ty := channel.value.channelType;
    assert ty in p';
    var table, table' := p[ty], p'[ty];
    forall role: Option<string> | Grants(table, role) ensures Grants(table', role) {
      assert role.value in table && table[role.value];
    }
  }

  /** A user none of whose roles is a string can never pin. */
  lemma NonStringRolesNeverGrant(client: Option<Client>, channel: Option<Channel>, permissions: Option<Permissions>)
    requires client.Some? && RoleOf(client.value.user).None?
    requires channel.Some? && channel.value.state.Some? && client.value.userID.Some?
    requires RoleOf(Lookup(channel.value.state.value.members, client.value.userID.value)).None?
    requires RoleOf(Lookup(channel.value.state.value.watchers, client.value.userID.value)).None?
    ensures !CanPin(client, channel, permissions)
  {
  }

  /** Without a permission table nobody can pin. */
  lemma NoTableNoPin(client: Option<Client>, channel: Option<Channel>)
    ensures !CanPin(client, channel, None)
  {
  }

  /** A channel-member role that is granted suffices, whatever the global role says. */
  lemma MemberRoleSuffices(client: Client, channel: Channel, permissions: Permissions)
    requires Truthy(client.userID) && channel.state.Some? && channel.channelType in permissions
    requires Grants(permissions[channel.channelType], RoleOf(Lookup(channel.state.value.members, client.userID.value)))
    ensures CanPin(Some(client), Some(channel), Some(permissions))
  {
  }

  // ---------------------------------------------------------------------------
  // handlePin

  /** A message, as far as the pin button is concerned. */
  datatype Message = Message(pinned: bool)

  /** The SDK call `handlePin` makes. */
  datatype SdkCall = NoCall | PinMessage | UnpinMessage

  /** The kinds `notify` accepts. */
  datatype NoticeKind = Success | Error

  /** One call of `notify(text, kind)`. */
  datatype Notice = Notice(text: string, kind: NoticeKind)

  /** What one press of the pin button does. */
  datatype PinOutcome = PinOutcome(call: SdkCall, notices: seq<Notice>)

  const PinErrorText: string := "Error pinning message"
  const UnpinErrorText: string := "Error removing message pin"

  /**
    `handlePin`: nothing without a message; otherwise `pinMessage` for an
    unpinned message and `unpinMessage` for a pinned one. When that call
    fails (`callFails`) and a `notify` callback is supplied (`hasNotify`),
    one error notice follows, carrying the caller's text (`customError`, the
    result of `getErrorNotification`) when that is truthy and the default
    text otherwise. The failure goes no further.
   */
  function HandlePin(message: Option<Message>, callFails: bool, customError: Option<string>, hasNotify: bool): (o: PinOutcome)
    ensures message.None? ==> o.call == NoCall
    ensures message.Some? ==> o.call == (if message.value.pinned then UnpinMessage else PinMessage)
    ensures |o.notices| == (if message.Some? && callFails && hasNotify then 1 else 0)
    ensures forall n | n in o.notices :: n.kind == Error
    ensures forall n | n in o.notices ::
      n.text == (if Truthy(customError) then customError.value
                 else if o.call == PinMessage then PinErrorText else UnpinErrorText)
  {
    if message.None? then PinOutcome(NoCall, [])
    else
      var call := if message.value.pinned then UnpinMessage else PinMessage;
      var fallback := if message.value.pinned then UnpinErrorText else PinErrorText;
      if callFails && hasNotify then
        PinOutcome(call, [Notice(OrElse(customError, Some(fallback)).value, Error)])
      else PinOutcome(call, [])
  }

  /** Every error notice has something to say: an empty custom text falls back to the default. */
  lemma NoticeTextNeverEmpty(message: Option<Message>, callFails: bool, customError: Option<string>, hasNotify: bool)
    ensures forall n | n in HandlePin(message, callFails, customError, hasNotify).notices :: n.text != ""
  {
  }
}
