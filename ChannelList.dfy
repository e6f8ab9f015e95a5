/**
  The channel list's reaction to two client notifications: being added to a
  channel (`notification.added_to_channel`) puts the fetched channel at the
  top and drops any older entry with the same `cid`; being removed from one
  (`notification.removed_from_channel`) drops every entry with the event's
  `cid`. Either listener may be replaced by a custom handler, which then runs
  instead.
 */
module ChannelList {
  import opened Js
  import opened Seqs

  /** A channel of the list, identified by its `cid` (`type:id`). */
  datatype Channel = Channel(cid: string)

  function Cid(c: Channel): string
  {
    c.cid
  }

  /** The channel an event refers to; any of its fields may be missing. */
  datatype EventChannel = EventChannel(channelType: Option<string>, id: Option<string>, cid: Option<string>)

  /** A client event, as far as the listeners read it. */
  datatype Event = Event(channel: Option<EventChannel>)

  /** `event.channel?.type` is truthy. */
  predicate HasType(e: Event)
  {
    e.channel.Some? && Truthy(e.channel.value.channelType)
  }

  /** `event.channel?.cid`. */
  function EventCid(e: Event): Option<string>
  {
    if e.channel.Some? then e.channel.value.cid else None
  }

  /** The `cid`s `channel.cid !== cid` rules out: none when `cid` is `undefined`. */
  function CidSet(cid: Option<string>): set<string>
  {
    if cid.Some? then {cid.value} else {}
  }

  /**
    The added-listener's update, `uniqBy([channel, ...channels], 'cid')`: the
    new channel comes first, no `cid` is listed twice, and the `cid`s are
    those of the old list plus the new one.
   */
  function PrependUnique(channels: seq<Channel>, c: Channel): (r: seq<Channel>)
    ensures |r| >= 1 && r[0] == c
    ensures NoDupKeys(r, Cid)
    ensures KeysOf(r, Cid) == KeysOf(channels, Cid) + {c.cid}
  {
    UniqByCons(c, channels, Cid);
    UniqByNoDup([c] + channels, Cid);
    UniqByKeys([c] + channels, Cid);
    KeysOfAppend([c], channels, Cid);
    KeysOfSnoc([], c, Cid);
    assert [] + [c] == [c];
    UniqBy([c] + channels, Cid)
  }

  /**
    The removed-listener's update, `channels.filter(ch => ch.cid !== cid)`:
    exactly the entries with another `cid` survive, so none with `cid` is left.
   */
  function RemoveCid(channels: seq<Channel>, cid: Option<string>): (r: seq<Channel>)
    ensures |r| <= |channels|
    ensures forall ch :: ch in r <==> ch in channels && Some(ch.cid) != cid
  {
    WithoutKeysMembers(channels, Cid, CidSet(cid));
    WithoutKeys(channels, Cid, CidSet(cid))
  }

  /**
    On a list without duplicate `cid`s, adding a channel keeps every other
    entry in its relative order and drops only the earlier entry with the
    new channel's `cid`.
   */
  lemma PrependUniqueOnNoDup(channels: seq<Channel>, c: Channel)
    requires NoDupKeys(channels, Cid)
    ensures PrependUnique(channels, c) == [c] + WithoutKeys(channels, Cid, {c.cid})
  {
    UniqByCons(c, channels, Cid);
    WithoutKeysNoDup(channels, Cid, {c.cid});
    UniqByOfNoDup(WithoutKeys(channels, Cid, {c.cid}), Cid);
  }

  /** On a list without duplicate `cid`s, an add grows the list by one exactly when the `cid` is new. */
  lemma PrependUniqueLength(channels: seq<Channel>, c: Channel)
    requires NoDupKeys(channels, Cid)
    ensures |PrependUnique(channels, c)| == if c.cid in KeysOf(channels, Cid) then |channels| else |channels| + 1
  {
    PrependUniqueOnNoDup(channels, c);
    WithoutOneKeyLength(channels, Cid, c.cid);
  }

  /** Adding the same channel twice in a row is the same as adding it once. */
  lemma PrependUniqueTwice(channels: seq<Channel>, c: Channel)
    ensures PrependUnique(PrependUnique(channels, c), c) == PrependUnique(channels, c)
  {
    var once := PrependUnique(channels, c);
    var rest := once[1..];
    assert once == [c] + rest;
    HeadKeyNotInTail(once, Cid);
    var ks := {c.cid};
    WithoutKeysAppend([c], rest, Cid, ks);
    assert WithoutKeys([c], Cid, ks) == [] by {
      assert [c][..0] == [];
    }
    WithoutAbsentKeys(rest, Cid, ks);
    calc {
      PrependUnique(once, c);
      { PrependUniqueOnNoDup(once, c); }
      [c] + WithoutKeys(once, Cid, ks);
      [c] + WithoutKeys([c] + rest, Cid, ks);
      [c] + (WithoutKeys([c], Cid, ks) + WithoutKeys(rest, Cid, ks));
      { assert WithoutKeys(rest, Cid, ks) == rest; }
      [c] + ([] + rest);
      { assert [] + rest == rest; }
      [c] + rest;
    }
  }

  /** Removing a `cid` that is not listed changes nothing. */
  lemma RemoveAbsentCid(channels: seq<Channel>, cid: Option<string>)
    requires cid.None? || cid.value !in KeysOf(channels, Cid)
    ensures RemoveCid(channels, cid) == channels
  {
    WithoutAbsentKeys(channels, Cid, CidSet(cid));
  }

  /** Removing the same `cid` twice is the same as removing it once. */
  lemma RemoveCidTwice(channels: seq<Channel>, cid: Option<string>)
    ensures RemoveCid(RemoveCid(channels, cid), cid) == RemoveCid(channels, cid)
  {
    WithoutKeysIdempotent(channels, Cid, CidSet(cid));
  }

  /** The survivors of a removal keep their relative order: removal distributes over concatenation. */
  lemma RemoveCidKeepsOrder(a: seq<Channel>, b: seq<Channel>, cid: Option<string>)
    ensures RemoveCid(a + b, cid) == RemoveCid(a, cid) + RemoveCid(b, cid)
  {
    WithoutKeysAppend(a, b, Cid, CidSet(cid));
  }

  /** On a list without duplicate `cid`s, a removal drops one entry when the `cid` is listed and none otherwise. */
  lemma RemoveCidLength(channels: seq<Channel>, cid: string)
    requires NoDupKeys(channels, Cid)
    ensures |RemoveCid(channels, Some(cid))| == if cid in KeysOf(channels, Cid) then |channels| - 1 else |channels|
  {
    WithoutOneKeyLength(channels, Cid, cid);
  }

  /** A removal keeps a list free of duplicate `cid`s. */
  lemma RemoveCidNoDup(channels: seq<Channel>, cid: Option<string>)
    requires NoDupKeys(channels, Cid)
    ensures NoDupKeys(RemoveCid(channels, cid), Cid)
  {
    WithoutKeysNoDup(channels, Cid, CidSet(cid));
  }

  // ---------------------------------------------------------------------------
  // A run of notifications

  /** One default list update: an add with its fetched channel, or a removal of a `cid`. */
  datatype Update = Added(channel: Channel) | Removed(cid: Option<string>)

  /**
    The list after applying `updates` in order to `channels`. After a final
    add, the added channel is on top; after a final removal, no entry with
    the removed `cid` is left.
   */
  function Replay(channels: seq<Channel>, updates: seq<Update>): (r: seq<Channel>)
    decreases |updates|
    ensures updates != [] && updates[|updates| - 1].Added? ==> r != [] && r[0] == updates[|updates| - 1].channel
    ensures updates != [] && updates[|updates| - 1].Removed? ==>
      forall ch :: ch in r ==> Some(ch.cid) != updates[|updates| - 1].cid
  {
    if updates == [] then channels
    else
      var next := match updates[0]
        case Added(c) => PrependUnique(channels, c)
        case Removed(cid) => RemoveCid(channels, cid);
      Replay(next, updates[1..])
  }

  /** Once the list has no duplicate `cid`s, no sequence of notifications introduces one. */
  lemma {:induction false} ReplayNoDup(channels: seq<Channel>, updates: seq<Update>)
    requires NoDupKeys(channels, Cid) || (updates != [] && updates[0].Added?)
    ensures NoDupKeys(Replay(channels, updates), Cid)
    decreases |updates|
  {
    if updates != [] {
      match updates[0]
      case Added(c) =>
        ReplayNoDup(PrependUnique(channels, c), updates[1..]);
      case Removed(cid) =>
        RemoveCidNoDup(channels, cid);
        ReplayNoDup(RemoveCid(channels, cid), updates[1..]);
    }
  }

  // ---------------------------------------------------------------------------
  // The list state and its two listeners

  /**
    The channel list as the two listeners see it: the list set through
    `setChannels`, which custom handlers are installed, and the events handed
    to those handlers.
   */
  class ChannelListState {
    var channels: seq<Channel>
    /** The events handed to the custom added-handler, oldest first. */
    var delegatedAdded: seq<Event>
    /** The events handed to the custom removed-handler, oldest first. */
    var delegatedRemoved: seq<Event>
    const customAdded: bool
    const customRemoved: bool

    /** The list names no `cid` twice. */
    ghost predicate Valid()
      reads this
    {
      NoDupKeys(channels, Cid)
    }

    constructor(initial: seq<Channel>, customAdded: bool, customRemoved: bool)
      ensures channels == initial
      ensures Valid() <==> NoDupKeys(initial, Cid)
      ensures delegatedAdded == [] && delegatedRemoved == []
      ensures this.customAdded == customAdded && this.customRemoved == customRemoved
    {
      channels := initial;
      delegatedAdded := [];
      delegatedRemoved := [];
      this.customAdded := customAdded;
      this.customRemoved := customRemoved;
    }

    /**
      `notification.added_to_channel`, at the moment its `getChannel` fetch
      resolves: `fetched` is what that fetch returned for the event's type and
      id, `None` when it failed. With a custom
      handler only that handler runs; otherwise, for an event with a channel
      type and a fetched channel, the channel goes to the top of the list
      without a duplicate `cid`.
     */
    method OnAdded(e: Event, fetched: Option<Channel>)
      modifies this
      ensures delegatedRemoved == old(delegatedRemoved)
      ensures customAdded ==> delegatedAdded == old(delegatedAdded) + [e] && channels == old(channels)
      ensures !customAdded ==> delegatedAdded == old(delegatedAdded)
      ensures !customAdded && HasType(e) && fetched.Some? ==>
        && channels == PrependUnique(old(channels), fetched.value)
        && channels[0] == fetched.value
        && NoDupKeys(channels, Cid)
      ensures !customAdded && (!HasType(e) || fetched.None?) ==> channels == old(channels)
      ensures old(Valid()) ==> Valid()
    {
      if customAdded {
        delegatedAdded := delegatedAdded + [e];
      } else if HasType(e) && fetched.Some? {
        channels := PrependUnique(channels, fetched.value);
      }
    }

    /**
      `notification.removed_from_channel`. With a custom handler only that
      handler runs; otherwise every entry with the event's `cid` is dropped.
     */
    method OnRemoved(e: Event)
      modifies this
      ensures delegatedAdded == old(delegatedAdded)
      ensures customRemoved ==> delegatedRemoved == old(delegatedRemoved) + [e] && channels == old(channels)
      ensures !customRemoved ==> delegatedRemoved == old(delegatedRemoved)
      ensures !customRemoved ==>
        && channels == RemoveCid(old(channels), EventCid(e))
        && (forall ch :: ch in channels ==> Some(ch.cid) != EventCid(e))
        && (NoDupKeys(old(channels), Cid) ==> NoDupKeys(channels, Cid))
      ensures old(Valid()) ==> Valid()
    {
      if !customRemoved {
        if NoDupKeys(channels, Cid) {
          RemoveCidNoDup(channels, EventCid(e));
        }
        channels := RemoveCid(channels, EventCid(e));
      } else {
        delegatedRemoved := delegatedRemoved + [e];
      }
    }
  }
}
