/** The Windows loop's dense poll array: registered channels fill the first `count` slots of two
    parallel arrays, each channel knows its slot, and removal moves the last one into the gap. */
module WindowsLoop {
  import opened Memory

  datatype PollFd = PollFd(fd: int, events: nat, revents: nat)

  const INVALID_SOCKET: int := -1

  class Channel {
    const fd: int
    var event: nat
    var index: int

    constructor (fd: int)
      ensures this.fd == fd && event == 0 && index == -1
    {
      this.fd := fd;
      event, index := 0, -1;
    }
  }

  // ---------------------------------------------------------------- the arrays as sequences

  /** Element k is replaced by the last one, and the last one dropped. */
  function SwapRemove<T>(s: seq<T>, k: nat): seq<T>
    requires k < |s|
  {
    s[k := s[|s| - 1]][..|s| - 1]
  }

  /** The registered channels and the events polled for each. */
  ghost function Watched<C>(slots: seq<C>, pollfds: seq<PollFd>): map<C, nat>
    requires |slots| == |pollfds|
  {
    map c | c in slots :: pollfds[IndexOf(slots, c)].events
  }

  lemma IndexOfDistinct<C>(s: seq<C>, k: nat)
    requires Distinct(s) && k < |s|
    ensures IndexOf(s, s[k]) == k
  {
  }

  lemma SwapRemoveAt<C>(s: seq<C>, k: nat)
    requires Distinct(s) && k < |s|
    ensures var r := SwapRemove(s, k);
      && Distinct(r) && |r| == |s| - 1
      && (forall i :: 0 <= i < |r| ==> r[i] == if i == k then s[|s| - 1] else s[i])
      && (forall c :: c in r <==> c in s && c != s[k])
  {
    var r := SwapRemove(s, k);
    forall c | c in s && c != s[k] ensures c in r {
      var i := IndexOf(s, c);
      assert r[if i == |s| - 1 then k else i] == c;
    }
  }

  /** Swap-remove forgets exactly the removed channel; every other keeps its events. */
  lemma SwapRemoveForgets<C>(slots: seq<C>, pollfds: seq<PollFd>, k: nat)
    requires |slots| == |pollfds| && Distinct(slots) && k < |slots|
    ensures Watched(SwapRemove(slots, k), SwapRemove(pollfds, k)) == Watched(slots, pollfds) - {slots[k]}
  {
    var s, p := SwapRemove(slots, k), SwapRemove(pollfds, k);
    SwapRemoveAt(slots, k);
    forall c | c in s ensures p[IndexOf(s, c)].events == pollfds[IndexOf(slots, c)].events {
      var i := IndexOf(s, c);
      IndexOfDistinct(slots, if i == k then |slots| - 1 else i);
    }
    assert Watched(s, p).Keys == (Watched(slots, pollfds) - {slots[k]}).Keys;
  }

  lemma AppendWatches<C>(slots: seq<C>, pollfds: seq<PollFd>, c: C, p: PollFd)
    requires |slots| == |pollfds| && Distinct(slots) && c !in slots
    ensures Distinct(slots + [c])
    ensures Watched(slots + [c], pollfds + [p]) == Watched(slots, pollfds)[c := p.events]
  {
    var s := slots + [c];
    forall x | x in s
      ensures (pollfds + [p])[IndexOf(s, x)].events ==
              if x == c then p.events else pollfds[IndexOf(slots, x)].events
    {
      IndexOfDistinct(s, if x == c then |slots| else IndexOf(slots, x));
    }
    assert Watched(s, pollfds + [p]).Keys == Watched(slots, pollfds)[c := p.events].Keys;
  }

  lemma UpdateWatches<C>(slots: seq<C>, pollfds: seq<PollFd>, k: nat, p: PollFd)
    requires |slots| == |pollfds| && Distinct(slots) && k < |slots|
    ensures Watched(slots, pollfds[k := p]) == Watched(slots, pollfds)[slots[k] := p.events]
  {
    forall x | x in slots
      ensures pollfds[k := p][IndexOf(slots, x)].events ==
              if x == slots[k] then p.events else pollfds[IndexOf(slots, x)].events
    {
      IndexOfDistinct(slots, k);
    }
  }

  // ---------------------------------------------------------------- runs of updates

  /** What one update with mask e does to the registered channels. */
  ghost function Updated<C>(watched: map<C, nat>, c: C, e: nat): map<C, nat> {
    if e == 0 && c in watched then watched - {c} else watched[c := e]
  }

  ghost function AfterUpdates<C>(updates: seq<(C, nat)>): map<C, nat> {
    if updates == [] then map[]
    else var (c, e) := updates[|updates| - 1]; Updated(AfterUpdates(updates[..|updates| - 1]), c, e)
  }

  /** The mask of the latest update of c, 0 before any. */
  function LatestMask<C(==)>(updates: seq<(C, nat)>, c: C): nat {
    if updates == [] then 0
    else if updates[|updates| - 1].0 == c then updates[|updates| - 1].1
    else LatestMask(updates[..|updates| - 1], c)
  }

  /** Some update of c had a mask that is not empty. */
  predicate EverWatched<C(==)>(updates: seq<(C, nat)>, c: C) {
    exists i :: 0 <= i < |updates| && updates[i].0 == c && updates[i].1 != 0
  }

  /** How many of c's updates came with an empty mask after its last one that did not. */
  function EmptyTail<C(==)>(updates: seq<(C, nat)>, c: C): nat {
    if updates == [] then 0
    else
      var before, (d, e) := updates[..|updates| - 1], updates[|updates| - 1];
      if d != c then EmptyTail(before, c) else if e == 0 then 1 + EmptyTail(before, c) else 0
  }

  lemma EverWatchedMore<C>(updates: seq<(C, nat)>, c: C)
    requires updates != []
    ensures var (d, e) := updates[|updates| - 1];
      EverWatched(updates, c) <==> EverWatched(updates[..|updates| - 1], c) || (d == c && e != 0)
  {
    var before := updates[..|updates| - 1];
    if i :| 0 <= i < |before| && before[i].0 == c && before[i].1 != 0 {
      assert updates[i] == before[i];
    }
    if i :| 0 <= i < |updates| && updates[i].0 == c && updates[i].1 != 0 && i < |before| {
      assert updates[i] == before[i];
    }
  }

  /** Over every run of updates a registered channel is polled for its latest mask.  Empty updates
      toggle: once watched, a channel is registered while their number since is even, and one never
      watched while it is odd. */
  lemma {:induction false} RegisteredExactlyWhen<C>(updates: seq<(C, nat)>, c: C)
    ensures c in AfterUpdates(updates) <==> (EverWatched(updates, c) <==> EmptyTail(updates, c) % 2 == 0)
    ensures c in AfterUpdates(updates) ==> AfterUpdates(updates)[c] == LatestMask(updates, c)
  {
    if updates != [] {
      RegisteredExactlyWhen(updates[..|updates| - 1], c);
      EverWatchedMore(updates, c);
    }
  }

  lemma {:induction false} LatestMaskIsTail<C>(updates: seq<(C, nat)>, c: C)
    ensures LatestMask(updates, c) != 0 <==> EverWatched(updates, c) && EmptyTail(updates, c) == 0
  {
    if updates != [] {
      LatestMaskIsTail(updates[..|updates| - 1], c);
      EverWatchedMore(updates, c);
    }
  }

  /** "Registered exactly if there is something to watch" holds of c exactly if it has no empty updates
      since it was last watched or an odd number, and an even number if it was never watched. */
  lemma PromiseExactlyWhen<C>(updates: seq<(C, nat)>, c: C)
    ensures (c in AfterUpdates(updates) <==> LatestMask(updates, c) != 0) <==>
      if EverWatched(updates, c) then EmptyTail(updates, c) == 0 || EmptyTail(updates, c) % 2 == 1
      else EmptyTail(updates, c) % 2 == 0
  {
    RegisteredExactlyWhen(updates, c);
    LatestMaskIsTail(updates, c);
  }

  /** It fails for a single empty update. */
  lemma EmptyUpdateRegisters<C>(c: C)
    ensures c in AfterUpdates([(c, 0)]) && LatestMask([(c, 0)], c) == 0
  {
    assert [(c, 0)][..0] == [];
  }

  /** Every slot's channel has that slot as its index, and every other channel has index -1. */
  ghost predicate Placed<C>(index: map<C, int>, slots: seq<C>)
  {
    && (forall i :: 0 <= i < |slots| ==> slots[i] in index && index[slots[i]] == i)
    && (forall c :: c in index ==> index[c] == -1 || (0 <= index[c] < |slots| && slots[index[c]] == c))
  }

  lemma PlacedDistinct<C>(index: map<C, int>, slots: seq<C>)
    requires Placed(index, slots)
    ensures Distinct(slots)
    ensures forall c :: c in index ==> (c in slots <==> index[c] >= 0)
  {
  }

  /** Moving the last channel into slot k and clearing the removed one's index keeps the placement. */
  lemma SwapRemovePlaced<C>(index: map<C, int>, slots: seq<C>, k: nat)
    requires Placed(index, slots) && k < |slots|
    ensures Placed(index[slots[|slots| - 1] := k][slots[k] := -1], SwapRemove(slots, k))
  {
    PlacedDistinct(index, slots);
    SwapRemoveAt(slots, k);
    var r, m := SwapRemove(slots, k), index[slots[|slots| - 1] := k][slots[k] := -1];
    forall c | c in m ensures m[c] == -1 || (0 <= m[c] < |r| && r[m[c]] == c) {
      if c != slots[k] && c != slots[|slots| - 1] && index[c] != -1 {
        assert r[index[c]] == c;
      }
    }
  }

  lemma AppendPlaced<C>(index: map<C, int>, slots: seq<C>, c: C)
    requires Placed(index, slots) && c in index && index[c] < 0
    ensures Placed(index[c := |slots|], slots + [c])
  {
  }

  /** Every poll entry is for the descriptor of the channel in the same slot. */
  ghost predicate Aligned(slots: seq<Channel>, pollfds: seq<PollFd>)
  {
    |slots| == |pollfds| && forall i :: 0 <= i < |slots| ==> pollfds[i].fd == slots[i].fd
  }

  lemma AppendAligned(slots: seq<Channel>, pollfds: seq<PollFd>, c: Channel, p: PollFd)
    requires Aligned(slots, pollfds) && p.fd == c.fd
    ensures Aligned(slots + [c], pollfds + [p])
  {
  }

  lemma SwapRemoveAligned(slots: seq<Channel>, pollfds: seq<PollFd>, k: nat)
    requires Aligned(slots, pollfds) && Distinct(slots) && k < |slots|
    ensures Aligned(SwapRemove(slots, k), SwapRemove(pollfds, k))
  {
    SwapRemoveAt(slots, k);
  }

  class Loop {
    var pollfds: array<PollFd>
    var channels: array<Channel?>
    var maxCount: nat
    var count: nat
    /** The channels that belong to this loop, registered or not. */
    ghost var known: set<Channel>
    /** The registered ones, slot by slot. */
    ghost var slots: seq<Channel>

    ghost predicate Valid()
      reads this, pollfds, channels, known
    {
      && 0 < maxCount && count <= maxCount
      && pollfds.Length == maxCount && channels.Length == 2 * maxCount
      && |slots| == count
      && channels[..count] == slots
      && Aligned(slots, pollfds[..count])
      && Placed(Indexes(), slots)
    }

    ghost function Indexes(): map<Channel, int>
      reads this, known
    {
      map c | c in known :: c.index
    }

    ghost function Registered(): map<Channel, nat>
      reads this, pollfds, channels, known
      requires Valid()
    {
      Watched(slots, pollfds[..count])
    }

    /** A channel is in its slot, or has index -1 and is in none. */
    lemma InSlots(c: Channel)
      requires Valid() && c in known
      ensures Distinct(slots)
      ensures c in slots <==> c.index >= 0
      ensures c.index >= 0 ==> c.index < count && slots[c.index] == c
    {
      PlacedDistinct(Indexes(), slots);
      assert Indexes()[c] == c.index;
    }

    constructor (hint: nat)
      ensures Valid() && known == {} && Registered() == map[] && fresh(pollfds) && fresh(channels)
    {
      var n := if hint < 64 then 64 else hint;
      maxCount, count := n, 0;
      pollfds := new PollFd[n](_ => PollFd(0, 0, 0));
      channels := new Channel?[2 * n](_ => null);
      known, slots := {}, [];
    }

    /** ensure_channel_slots: a full pair of arrays is replaced by a doubled one. */
    method EnsureChannelSlots()
      requires Valid()
      modifies `pollfds, `channels, `maxCount
      ensures Valid() && count < maxCount
      ensures Registered() == old(Registered())
      ensures (pollfds == old(pollfds) && channels == old(channels)) || (fresh(pollfds) && fresh(channels))
    {
      if count < maxCount {
        return;
      }
      Grow();
    }

    /** Both arrays are copied into ones twice as long; the upper half of the channel array holds
        the active list of a dispatch, which is not carried over. */
    method Grow()
      requires 0 < maxCount == pollfds.Length && channels.Length == 2 * maxCount
      modifies `pollfds, `channels, `maxCount
      ensures maxCount == 2 * old(maxCount) == pollfds.Length && channels.Length == 2 * maxCount
      ensures fresh(pollfds) && fresh(channels)
      ensures pollfds[..old(maxCount)] == old(pollfds[..])
      ensures channels[..old(maxCount)] == old(channels[..maxCount])
    {
      var max := maxCount * 2;
      var newPollfds := new PollFd[max](_ => PollFd(0, 0, 0));
      forall i | 0 <= i < maxCount {
        newPollfds[i] := pollfds[i];
      }
      var newChannels := new Channel?[2 * max](_ => null);
      forall i | 0 <= i < maxCount {
        newChannels[i] := channels[i];
      }
      pollfds := newPollfds;
      channels := newChannels;
      maxCount := max;
    }

    /** do_loop_update_channel for a channel without a slot: it takes the next one, even if its mask
        is empty. */
    method Register(channel: Channel)
      requires Valid() && channel in known && channel.index < 0
      modifies this, pollfds, channels, channel`index
      ensures Valid() && known == old(known)
      ensures Registered() == old(Registered())[channel := channel.event]
    {
      EnsureChannelSlots();
      TakeSlot(channel);
    }

    method TakeSlot(channel: Channel)
      requires Valid() && channel in known && channel.index < 0 && count < maxCount
      modifies this`slots, this`count, pollfds, channels, channel`index
      ensures Valid()
      ensures Registered() == old(Registered())[channel := channel.event]
    {
      InSlots(channel);
      ghost var s, f, m := slots, pollfds[..count], Indexes();
      var p := PollFd(channel.fd, channel.event, 0);
      AppendWatches(s, f, channel, p);
      AppendPlaced(m, s, channel);
      AppendAligned(s, f, channel, p);
      Occupy(channel, p);
      slots := s + [channel];
      assert Indexes() == m[channel := |s|] && pollfds[..count] == f + [p];
    }

    /** The array writes of the registration. */
    method Occupy(channel: Channel, p: PollFd)
      requires Valid() && channel in known && count < maxCount
      modifies this`count, pollfds, channels, channel`index
      ensures count == old(count) + 1
      ensures pollfds[..count] == old(pollfds[..count]) + [p]
      ensures channels[..count] == old(slots) + [channel]
      ensures Indexes() == old(Indexes())[channel := old(count)]
    {
      var idx := count;
      pollfds[idx] := p;
      channel.index := idx;
      channels[idx] := channel;
      count := count + 1;
    }

    /** ... with a slot and an empty mask: the last channel moves into its slot. */
    method Unregister(channel: Channel)
      requires Valid() && channel in known && channel.index >= 0
      modifies this, pollfds, channels, known`index
      ensures Valid() && known == old(known)
      ensures Registered() == old(Registered()) - {channel}
    {
      InSlots(channel);
      var idx := channel.index;
      ghost var s, f, m := slots, pollfds[..count], Indexes();
      SwapRemoveForgets(s, f, idx);
      SwapRemovePlaced(m, s, idx);
      SwapRemoveAligned(s, f, idx);
      FillGap(channel, idx);
      slots := SwapRemove(s, idx);
    }

    /** The array writes of the removal, and the indices of the channel that moved and the one
        that left. */
    method FillGap(channel: Channel, idx: nat)
      requires Valid() && idx < count && slots[idx] == channel
      modifies this`count, pollfds, channels, known`index
      ensures count == old(count) - 1
      ensures pollfds[..count] == old(SwapRemove(pollfds[..count], idx))
      ensures channels[..count] == SwapRemove(slots, idx)
      ensures Indexes() == old(Indexes())[slots[count] := idx][channel := -1]
    {
      assert slots[idx] in Indexes() && slots[count - 1] in Indexes();
      assert channels[..count][count - 1] == slots[count - 1];
      ghost var f, m := pollfds[..count], Indexes();
      count := count - 1;
      SetIndex(channels[count], idx);
      ghost var moved := m[slots[count] := idx];
      assert Indexes() == moved;
      MoveLast(idx);
      assert Indexes() == moved && pollfds[..count] == SwapRemove(f, idx);
      SetIndex(channel, -1);
    }

    /** channel_setindex. */
    method SetIndex(channel: Channel?, index: int)
      requires channel != null && channel in known
      modifies channel`index
      ensures Indexes() == old(Indexes())[channel := index]
    {
      channel.index := index;
    }

    /** Slot idx takes over the one behind the last, which is cleared. */
    method MoveLast(idx: nat)
      requires idx <= count < pollfds.Length && count < channels.Length
      modifies pollfds, channels
      ensures pollfds[..count] == old(SwapRemove(pollfds[..count + 1], idx))
      ensures channels[..count] == old(SwapRemove(channels[..count + 1], idx))
    {
      pollfds[idx] := pollfds[count];
      channels[idx] := channels[count];
      pollfds[count] := PollFd(INVALID_SOCKET, 0, pollfds[count].revents);
      channels[count] := null;
    }

    /** ... with a slot and a mask: only the polled events change. */
    method Modify(channel: Channel)
      requires Valid() && channel in known && channel.index >= 0
      modifies pollfds
      ensures Valid()
      ensures Registered() == old(Registered())[channel := channel.event]
    {
      InSlots(channel);
      var idx := channel.index;
      ghost var before := pollfds[..count];
      var p := pollfds[idx].(events := channel.event);
      UpdateWatches(slots, before, idx, p);
      pollfds[idx] := p;
      assert pollfds[..count] == before[idx := p];
    }

    /** do_loop_update_channel. */
    method UpdateChannel(channel: Channel)
      requires Valid() && channel in known
      modifies this, pollfds, channels, known`index
      ensures Valid() && known == old(known)
      ensures Registered() == Updated(old(Registered()), channel, channel.event)
      ensures channel.event == old(channel.event)
    {
      InSlots(channel);
      if channel.index < 0 {
        Register(channel);
      } else if channel.event == 0 {
        Unregister(channel);
      } else {
        Modify(channel);
      }
    }
  }
}
