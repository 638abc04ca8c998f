/** The order of channels: each channel names its previous sibling, so the channels below one
    parent form a linked list inside the channel map. */
module Channels {
  import opened Options

  /** Channel id 0 stands for "no channel": the root as a parent, the start as an order. */
  datatype Channel = Channel(id: nat, parent: nat, order: nat)

  type ChannelMap = map<nat, Channel>

  /** The log entry for a changed order, with the old value. */
  datatype Event = OrderChanged(id: nat, was: nat)

  // ---------- Chains ----------

  type Chains = map<nat, seq<nat>>

  function Chain(chains: Chains, parent: nat): seq<nat> {
    if parent in chains then chains[parent] else []
  }

  /** The channels `ids` lie below `parent`, in this order. */
  ghost predicate ChainOk(m: ChannelMap, parent: nat, ids: seq<nat>) {
    && (forall i :: 0 <= i < |ids| ==> LinkOk(m, parent, ids, i))
    && (forall i, j :: 0 <= i < j < |ids| ==> ids[i] != ids[j])
  }

  predicate LinkOk(m: ChannelMap, parent: nat, ids: seq<nat>, i: nat)
    requires i < |ids|
  {
    ids[i] in m && m[ids[i]] == Channel(ids[i], parent, if i == 0 then 0 else ids[i - 1])
  }

  ghost predicate Placed(m: ChannelMap, chains: Chains) {
    forall id :: id in m ==> id != 0 && m[id].id == id && id in Chain(chains, m[id].parent)
  }

  /** Below every parent the order links form one chain that starts at 0. */
  ghost predicate Chained(m: ChannelMap, chains: Chains) {
    Placed(m, chains) && forall p :: ChainOk(m, p, Chain(chains, p))
  }

  ghost predicate HasChains(m: ChannelMap) {
    exists chains :: Chained(m, chains)
  }

  // ---------- Relinking ----------

  predicate FollowsIn(c: Channel, id: nat, order: nat, parent: nat) {
    c.order == order && c.parent == parent && c.id != id
  }

  predicate Follows(c: Channel, id: nat) {
    c.order == id && c.id != id
  }

  /** What follows `order` below `parent` now follows `id`. */
  function Link(m: ChannelMap, id: nat, order: nat, parent: nat): ChannelMap {
    map c | c in m :: if FollowsIn(m[c], id, order, parent) then m[c].(order := id) else m[c]
  }

  /** What follows `id` now follows `order`. */
  function Unlink(m: ChannelMap, id: nat, order: nat): ChannelMap {
    map c | c in m :: if Follows(m[c], id) then m[c].(order := order) else m[c]
  }

  /** A new channel is spliced into the chain of its parent at place `i`. */
  lemma AddSplices(m: ChannelMap, chains: Chains, r: Channel, i: nat)
    requires Chained(m, chains) && r.id !in m && r.id != 0
    requires i <= |Chain(chains, r.parent)|
    requires r.order == if i == 0 then 0 else Chain(chains, r.parent)[i - 1]
    ensures var ids := Chain(chains, r.parent);
            Chained(Link(m, r.id, r.order, r.parent)[r.id := r], chains[r.parent := ids[..i] + [r.id] + ids[i..]])
  {
    hide ChainOk, LinkOk;
    var ids := Chain(chains, r.parent);
    var ids' := ids[..i] + [r.id] + ids[i..];
    var m' := Link(m, r.id, r.order, r.parent)[r.id := r];
    var chains' := chains[r.parent := ids'];
    AddIsOk(m, r, ids, i, m');
    forall p
      ensures ChainOk(m', p, Chain(chains', p))
    {
      assert ChainOk(m, p, Chain(chains, p));
      if p != r.parent {
        OtherChain(m, m', p, Chain(chains, p), r.parent);
      }
    }
    forall id | id in m'
      ensures id in Chain(chains', m'[id].parent)
    {
      if id != r.id && m[id].parent == r.parent {
        InSpliced(ids, i, r.id, id);
      } else if id == r.id {
        assert ids'[i] == id;
      }
    }
  }

  lemma InSpliced(ids: seq<nat>, i: nat, x: nat, id: nat)
    requires i <= |ids| && id in ids
    ensures id in ids[..i] + [x] + ids[i..]
  {
    assert ids == ids[..i] + ids[i..];
  }

  /** Channels below another parent keep their links. */
  lemma OtherChain(m: ChannelMap, m': ChannelMap, p: nat, ids: seq<nat>, parent: nat)
    requires ChainOk(m, p, ids) && p != parent
    requires forall c :: c in m && m[c].parent != parent ==> c in m' && m'[c] == m[c]
    ensures ChainOk(m', p, ids)
  {
    forall i | 0 <= i < |ids|
      ensures LinkOk(m', p, ids, i)
    {
      assert LinkOk(m, p, ids, i);
    }
  }

  lemma AddIsOk(m: ChannelMap, r: Channel, ids: seq<nat>, i: nat, m': ChannelMap)
    requires ChainOk(m, r.parent, ids) && r.id !in m && r.id != 0 && 0 !in m
    requires i <= |ids| && r.order == if i == 0 then 0 else ids[i - 1]
    requires m' == Link(m, r.id, r.order, r.parent)[r.id := r]
    ensures ChainOk(m', r.parent, ids[..i] + [r.id] + ids[i..])
  {
    var ids' := ids[..i] + [r.id] + ids[i..];
    assert forall j :: 0 <= j < |ids| ==> LinkOk(m, r.parent, ids, j);
    assert forall j :: 0 <= j < |ids'| ==> ids'[j] == if j < i then ids[j] else if j == i then r.id else ids[j - 1];
    forall j | 0 <= j < |ids'|
      ensures LinkOk(m', r.parent, ids', j)
    {
      if j != i {
        KeptLink(m, r, ids, i, m', if j < i then j else j - 1);
      }
    }
    forall j | 0 <= j < |ids|
      ensures ids[j] != r.id
    {
      assert LinkOk(m, r.parent, ids, j);
    }
  }

  /** The link of an old sibling after the insertion. */
  lemma KeptLink(m: ChannelMap, r: Channel, ids: seq<nat>, i: nat, m': ChannelMap, k: nat)
    requires ChainOk(m, r.parent, ids) && r.id !in m && r.id != 0 && 0 !in m
    requires i <= |ids| && r.order == if i == 0 then 0 else ids[i - 1]
    requires m' == Link(m, r.id, r.order, r.parent)[r.id := r] && k < |ids|
    ensures ids[k] in m' && ids[k] != r.id
    ensures m'[ids[k]] == Channel(ids[k], r.parent, if k == i then r.id else if k == 0 then 0 else ids[k - 1])
  {
    assert LinkOk(m, r.parent, ids, k);
    if k > 0 {
      assert LinkOk(m, r.parent, ids, k - 1);
    }
    if i > 0 {
      assert LinkOk(m, r.parent, ids, i - 1);
    }
  }

  /** A channel is taken out of the chain of its parent. */
  lemma RemoveSplices(m: ChannelMap, chains: Chains, id: nat, i: nat)
    requires Chained(m, chains) && id in m
    requires var ids := Chain(chains, m[id].parent); i < |ids| && ids[i] == id
    ensures var ids := Chain(chains, m[id].parent);
            Chained(Unlink(m - {id}, id, m[id].order), chains[m[id].parent := ids[..i] + ids[i + 1..]])
  {
    hide ChainOk, LinkOk;
    var parent := m[id].parent;
    var ids := Chain(chains, parent);
    var ids' := ids[..i] + ids[i + 1..];
    var m' := Unlink(m - {id}, id, m[id].order);
    var chains' := chains[parent := ids'];
    RemoveIsOk(m, id, ids, i, m');
    forall p
      ensures ChainOk(m', p, Chain(chains', p))
    {
      assert ChainOk(m, p, Chain(chains, p));
      if p != parent {
        OtherChainAfterRemove(m, chains, id, p, m');
      }
    }
    forall c | c in m'
      ensures c in Chain(chains', m'[c].parent)
    {
      if m[c].parent == parent {
        assert c in ids && c != ids[i];
        assert ids == ids[..i] + [ids[i]] + ids[i + 1..];
      }
    }
  }

  lemma OtherChainAfterRemove(m: ChannelMap, chains: Chains, id: nat, p: nat, m': ChannelMap)
    requires Chained(m, chains) && id in m && p != m[id].parent
    requires m' == Unlink(m - {id}, id, m[id].order)
    ensures ChainOk(m', p, Chain(chains, p))
  {
    var ids := Chain(chains, p);
    assert ChainOk(m, p, ids);
    forall j | 0 <= j < |ids|
      ensures LinkOk(m', p, ids, j)
    {
      assert LinkOk(m, p, ids, j);
      if j > 0 {
        assert LinkOk(m, p, ids, j - 1);
      }
    }
  }

  lemma RemoveIsOk(m: ChannelMap, id: nat, ids: seq<nat>, i: nat, m': ChannelMap)
    requires id in m && id != 0 && i < |ids| && ids[i] == id && ChainOk(m, m[id].parent, ids)
    requires m' == Unlink(m - {id}, id, m[id].order)
    ensures ChainOk(m', m[id].parent, ids[..i] + ids[i + 1..])
  {
    var parent := m[id].parent;
    var ids' := ids[..i] + ids[i + 1..];
    assert forall j :: 0 <= j < |ids'| ==> ids'[j] == ids[if j < i then j else j + 1];
    assert LinkOk(m, parent, ids, i);
    forall j | 0 <= j < |ids'|
      ensures LinkOk(m', parent, ids', j)
    {
      var k := if j < i then j else j + 1;
      assert LinkOk(m, parent, ids, k);
      if k > 0 {
        assert LinkOk(m, parent, ids, k - 1);
      }
    }
  }

  // ---------- Which positions keep the chains ----------

  /** An order names the start or a sibling. */
  predicate GoodPlace(m: ChannelMap, order: nat, parent: nat) {
    order == 0 || (order in m && m[order].parent == parent)
  }

  /** With a new channel the order links form chains exactly when its order is 0 or a sibling. */
  lemma AddKeepsChainsExactly(m: ChannelMap, chains: Chains, r: Channel)
    requires Chained(m, chains) && r.id !in m && r.id != 0
    ensures HasChains(Link(m, r.id, r.order, r.parent)[r.id := r]) <==> GoodPlace(m, r.order, r.parent)
  {
    var ids := Chain(chains, r.parent);
    var m' := Link(m, r.id, r.order, r.parent)[r.id := r];
    if GoodPlace(m, r.order, r.parent) {
      if r.order == 0 {
        AddSplices(m, chains, r, 0);
      } else {
        var j :| 0 <= j < |ids| && ids[j] == r.order;
        AddSplices(m, chains, r, j + 1);
      }
    }
    if HasChains(m') {
      var after :| Chained(m', after);
      var ids' := Chain(after, r.parent);
      assert r.id in m' && m'[r.id] == r;
      var j :| 0 <= j < |ids'| && ids'[j] == r.id;
      assert ChainOk(m', r.parent, ids');
      assert LinkOk(m', r.parent, ids', j);
      if j > 0 {
        assert LinkOk(m', r.parent, ids', j - 1);
        assert ids'[j - 1] != ids'[j];
      }
    }
  }

  /** The whole effect of moving channel `id`: taken out of its chain and put in after `order`
      below `parent`. */
  function Moved(m: ChannelMap, id: nat, order: nat, parent: nat): ChannelMap
    requires id in m
  {
    Link(Unlink(m - {id}, id, m[id].order), id, order, parent)[id := Channel(id, parent, order)]
  }

  /** A move within or across parents splices the chains, and keeps them exactly when the new
      place is the start or a sibling other than the channel itself. */
  lemma MoveKeepsChainsExactly(m: ChannelMap, chains: Chains, id: nat, order: nat, parent: nat)
    requires Chained(m, chains) && id in m
    ensures HasChains(Moved(m, id, order, parent)) <==> GoodPlace(m - {id}, order, parent)
  {
    var ids := Chain(chains, m[id].parent);
    var i :| 0 <= i < |ids| && ids[i] == id;
    hide Chained, HasChains;
    RemoveSplices(m, chains, id, i);
    var rest := Unlink(m - {id}, id, m[id].order);
    AddKeepsChainsExactly(rest, chains[m[id].parent := ids[..i] + ids[i + 1..]], Channel(id, parent, order));
    assert GoodPlace(rest, order, parent) <==> GoodPlace(m - {id}, order, parent);
  }

  /** The new chains of a move, place `i` in the old chain and place `k` in the new one. */
  lemma MoveSplices(m: ChannelMap, chains: Chains, id: nat, i: nat, parent: nat, k: nat)
    requires Chained(m, chains) && id in m
    requires var ids := Chain(chains, m[id].parent); i < |ids| && ids[i] == id
    requires k <= |Chain(Taken(chains, m[id].parent, i), parent)|
    ensures var rest := Chain(Taken(chains, m[id].parent, i), parent);
            Chained(Moved(m, id, if k == 0 then 0 else rest[k - 1], parent),
                    Taken(chains, m[id].parent, i)[parent := rest[..k] + [id] + rest[k..]])
  {
    RemoveSplices(m, chains, id, i);
    var rest := Chain(Taken(chains, m[id].parent, i), parent);
    AddSplices(Unlink(m - {id}, id, m[id].order), Taken(chains, m[id].parent, i),
               Channel(id, parent, if k == 0 then 0 else rest[k - 1]), k);
  }

  /** The chains without the channel at place `i` below `parent`. */
  function Taken(chains: Chains, parent: nat, i: nat): Chains
    requires i < |Chain(chains, parent)|
  {
    var ids := Chain(chains, parent);
    chains[parent := ids[..i] + ids[i + 1..]]
  }

  // ---------- The book ----------

  /** At most one channel has the property, as in every chained map. */
  ghost predicate AtMostOne(ids: set<nat>) {
    forall a, b :: a in ids && b in ids ==> a == b
  }

  function Followers(m: ChannelMap, id: nat): set<nat> {
    set c | c in m && Follows(m[c], id)
  }

  function FollowersIn(m: ChannelMap, id: nat, order: nat, parent: nat): set<nat> {
    set c | c in m && FollowsIn(m[c], id, order, parent)
  }

  /** One of `ids`, if there is any, got the new order, and the change was logged. */
  ghost predicate OneChanged(m: ChannelMap, ids: set<nat>, order: nat, m': ChannelMap, log: seq<Event>) {
    if ids == {} then m' == m && log == []
    else exists c :: c in ids && c in m && m' == m[c := m[c].(order := order)]
                     && log == [OrderChanged(m[c].id, m[c].order)]
  }

  ghost predicate IdsMatch(m: ChannelMap) {
    forall c :: c in m ==> m[c].id == c
  }

  /** The old orders put back, the last change first. */
  function Undone(m: ChannelMap, log: seq<Event>): ChannelMap {
    if log == [] then m
    else
      var last := log[|log| - 1];
      var undone := if last.id in m then m[last.id := m[last.id].(order := last.was)] else m;
      Undone(undone, log[..|log| - 1])
  }

  lemma OneChangedIsUndone(m: ChannelMap, ids: set<nat>, order: nat, m': ChannelMap, first: seq<Event>, log: seq<Event>)
    requires IdsMatch(m) && OneChanged(m, ids, order, m', log)
    ensures IdsMatch(m') && Undone(m', first + log) == Undone(m, first)
  {
    if ids == {} {
      assert first + log == first;
    } else {
      var c :| c in ids && c in m && m' == m[c := m[c].(order := order)] && log == [OrderChanged(m[c].id, m[c].order)];
      assert (first + log)[..|first|] == first;
      assert m'[c := m'[c].(order := m[c].order)] == m;
    }
  }

  /** Where a channel stands in the chain of its parent. */
  lemma PlaceOf(m: ChannelMap, chains: Chains, id: nat) returns (i: nat)
    requires Chained(m, chains) && id in m
    ensures var ids := Chain(chains, m[id].parent);
            && i < |ids| && ids[i] == id && m[id].order == (if i == 0 then 0 else ids[i - 1])
            && (i > 0 ==> m[id].order in m && m[m[id].order].parent == m[id].parent)
  {
    var ids := Chain(chains, m[id].parent);
    i :| 0 <= i < |ids| && ids[i] == id;
    assert ChainOk(m, m[id].parent, ids);
    assert LinkOk(m, m[id].parent, ids, i);
    if i > 0 {
      assert LinkOk(m, m[id].parent, ids, i - 1);
    }
  }

  /** Two channels below one parent with the same order are the same channel. */
  lemma SameOrderSameChannel(m: ChannelMap, chains: Chains, a: nat, b: nat)
    requires Chained(m, chains) && a in m && b in m && m[a].order == m[b].order
    requires m[a].order == 0 ==> m[a].parent == m[b].parent
    ensures a == b
  {
    var i := PlaceOf(m, chains, a);
    var j := PlaceOf(m, chains, b);
    assert Placed(m, chains);
    var ids := Chain(chains, m[a].parent);
    assert ChainOk(m, m[a].parent, ids);
  }

  lemma ChainedHaveOneFollower(m: ChannelMap, chains: Chains, id: nat, order: nat, parent: nat)
    requires Chained(m, chains)
    ensures AtMostOne(FollowersIn(m, id, order, parent))
    ensures id != 0 ==> AtMostOne(Followers(m, id))
  {
    forall a, b | a in FollowersIn(m, id, order, parent) && b in FollowersIn(m, id, order, parent)
      ensures a == b
    {
      SameOrderSameChannel(m, chains, a, b);
    }
    if id != 0 {
      forall a, b | a in Followers(m, id) && b in Followers(m, id)
        ensures a == b
      {
        SameOrderSameChannel(m, chains, a, b);
      }
    }
  }

  lemma OneChangedIsUnlink(m: ChannelMap, id: nat, order: nat, m': ChannelMap, log: seq<Event>)
    requires AtMostOne(Followers(m, id)) && OneChanged(m, Followers(m, id), order, m', log)
    ensures m' == Unlink(m, id, order)
  {
    assert forall c :: c in m && Follows(m[c], id) ==> c in Followers(m, id);
  }

  lemma OneChangedIsLink(m: ChannelMap, id: nat, order: nat, parent: nat, m': ChannelMap, log: seq<Event>)
    requires AtMostOne(FollowersIn(m, id, order, parent))
    requires OneChanged(m, FollowersIn(m, id, order, parent), id, m', log)
    ensures m' == Link(m, id, order, parent)
  {
    assert forall c :: c in m && FollowsIn(m[c], id, order, parent) ==> c in FollowersIn(m, id, order, parent);
  }

  /** A second insertion of the same channel at the same place finds nothing to change. */
  lemma SecondInsertChangesNothing(m: ChannelMap, id: nat, order: nat, parent: nat)
    requires id != order
    ensures FollowersIn(Link(m, id, order, parent), id, order, parent) == {}
  {
  }

  class Book {
    var channels: ChannelMap
    var events: seq<Event>

    constructor ()
      ensures channels == map[] && events == []
    {
      channels, events := map[], [];
    }

    /** The first channel found that follows `id` follows `order` from now on. */
    method OrderRemove(id: nat, order: nat)
      modifies this
      ensures old(events) <= events
      ensures OneChanged(old(channels), Followers(old(channels), id), order, channels, events[|old(events)|..])
    {
      if Followers(channels, id) != {} {
        var c :| c in Followers(channels, id);
        events := events + [OrderChanged(channels[c].id, channels[c].order)];
        channels := channels[c := channels[c].(order := order)];
      }
    }

    /** The first channel found that follows `order` below `parent` follows `id` from now on. */
    method OrderInsert(id: nat, order: nat, parent: nat)
      modifies this
      ensures old(events) <= events
      ensures OneChanged(old(channels), FollowersIn(old(channels), id, order, parent), id, channels,
                         events[|old(events)|..])
    {
      if FollowersIn(channels, id, order, parent) != {} {
        var c :| c in FollowersIn(channels, id, order, parent);
        events := events + [OrderChanged(channels[c].id, channels[c].order)];
        channels := channels[c := channels[c].(order := id)];
      }
    }

    method AddChannel(r: Channel) returns (replaced: Option<Channel>)
      modifies this
      ensures old(events) <= events
      ensures exists linked ::
                && OneChanged(old(channels), FollowersIn(old(channels), r.id, r.order, r.parent), r.id, linked,
                              events[|old(events)|..])
                && channels == linked[r.id := r]
                && replaced == if r.id in linked then Some(linked[r.id]) else None
      ensures HasChains(old(channels)) ==> channels == Link(old(channels), r.id, r.order, r.parent)[r.id := r]
    {
      ghost var m := channels;
      OrderInsert(r.id, r.order, r.parent);
      if HasChains(m) {
        ghost var chains :| Chained(m, chains);
        ChainedHaveOneFollower(m, chains, r.id, r.order, r.parent);
        OneChangedIsLink(m, r.id, r.order, r.parent, channels, events[|old(events)|..]);
      }
      replaced := if r.id in channels then Some(channels[r.id]) else None;
      channels := channels[r.id := r];
    }

    method RemoveChannel(id: nat) returns (removed: Option<Channel>)
      modifies this
      ensures old(events) <= events
      ensures if id in old(channels) then
                && removed == Some(old(channels)[id])
                && var m := old(channels) - {id};
                   OneChanged(m, Followers(m, removed.value.id), removed.value.order, channels, events[|old(events)|..])
              else removed == None && channels == old(channels) && events == old(events)
      ensures HasChains(old(channels)) && id in old(channels) ==>
                channels == Unlink(old(channels) - {id}, id, old(channels)[id].order)
    {
      removed := None;
      ghost var m := channels;
      if id in channels {
        removed := Some(channels[id]);
        channels := channels - {id};
        OrderRemove(removed.value.id, removed.value.order);
        if HasChains(m) {
          ghost var chains :| Chained(m, chains);
          ChainedHaveOneFollower(m, chains, id, 0, 0);
          IdsArePlaced(m, chains, id);
          assert Followers(m - {id}, id) == Followers(m, id);
          OneChangedIsUnlink(m - {id}, id, removed.value.order, channels, events[|old(events)|..]);
        }
      }
    }

    /** A channel that was created: its place is made twice, once for the order in the message
        and once when it is added.  In a chained book that is one splice. */
    method Created(r: Channel)
      modifies this
      ensures old(events) <= events
      ensures HasChains(old(channels)) && r.id !in old(channels) && r.id != r.order ==>
                && channels == Link(old(channels), r.id, r.order, r.parent)[r.id := r]
                && OneChanged(old(channels), FollowersIn(old(channels), r.id, r.order, r.parent), r.id,
                              Link(old(channels), r.id, r.order, r.parent), events[|old(events)|..])
    {
      ghost var m := channels;
      OrderInsert(r.id, r.order, r.parent);
      ghost var linked := channels;
      ghost var log := events[|old(events)|..];
      ghost var upTo := |events|;
      var replaced := AddChannel(r);
      if HasChains(m) && r.id != r.order {
        ghost var chains :| Chained(m, chains);
        ChainedHaveOneFollower(m, chains, r.id, r.order, r.parent);
        OneChangedIsLink(m, r.id, r.order, r.parent, linked, log);
        SecondInsertChangesNothing(m, r.id, r.order, r.parent);
        assert events[|old(events)|..] == log;
      }
    }

    /** The changes of a move and their log: the channel itself, what followed it, what follows it
        now. */
    static ghost predicate MoveLogged(m: ChannelMap, id: nat, newOrder: Option<nat>, parent: nat,
                                      m': ChannelMap, log: seq<Event>)
      requires id in m
    {
      var order := if newOrder.Some? then newOrder.value else m[id].order;
      var m1 := m[id := m[id].(order := order)];
      exists m2, log1, log2 ::
        && OneChanged(m1, Followers(m1, id), m[id].order, m2, log1)
        && OneChanged(m2, FollowersIn(m2, id, order, parent), id, m', log2)
        && log == OwnEvent(m[id], newOrder) + log1 + log2
    }

    static function OwnEvent(c: Channel, newOrder: Option<nat>): seq<Event> {
      if newOrder.Some? then [OrderChanged(c.id, c.order)] else []
    }

    static lemma MoveIsLogged(m: ChannelMap, id: nat, newOrder: Option<nat>, parent: nat, m2: ChannelMap,
                              m3: ChannelMap, log1: seq<Event>, log2: seq<Event>)
      requires id in m
      requires var order := if newOrder.Some? then newOrder.value else m[id].order;
               var m1 := m[id := m[id].(order := order)];
               && OneChanged(m1, Followers(m1, id), m[id].order, m2, log1)
               && OneChanged(m2, FollowersIn(m2, id, order, parent), id, m3, log2)
      ensures MoveLogged(m, id, newOrder, parent, m3, OwnEvent(m[id], newOrder) + log1 + log2)
    {
    }

    /** Move a channel.  Its own parent is set by the caller. */
    method Move(id: nat, newOrder: Option<nat>, newParent: Option<nat>) returns (found: bool)
      modifies this
      ensures old(events) <= events
      ensures found == (id in old(channels) || (newOrder.None? && newParent.None?))
      ensures !found || (newOrder.None? && newParent.None?) ==> channels == old(channels) && events == old(events)
      ensures id in old(channels) && (newOrder.Some? || newParent.Some?) ==>
                var parent := if newParent.Some? then newParent.value else old(channels)[id].parent;
                MoveLogged(old(channels), id, newOrder, parent, channels, events[|old(events)|..])
      ensures id in old(channels) && newOrder.Some? ==>
                && |old(events)| < |events|
                && events[|old(events)|] == OrderChanged(old(channels)[id].id, old(channels)[id].order)
      ensures |events| <= |old(events)| + 3
      ensures IdsMatch(old(channels)) ==> Undone(channels, events[|old(events)|..]) == old(channels)
      ensures id in old(channels) && (newOrder.Some? || newParent.Some?) && HasChains(old(channels)) ==>
                var c := old(channels)[id];
                var order := if newOrder.Some? then newOrder.value else c.order;
                var parent := if newParent.Some? then newParent.value else c.parent;
                id in channels && channels[id := Channel(id, parent, order)] == Moved(old(channels), id, order, parent)
    {
      hide OneChanged, HasChains, MoveLogged, Moved, IdsMatch, Undone, Followers, FollowersIn;
      NothingUndone(channels);
      assert events[|old(events)|..] == [];
      found := true;
      if newOrder.None? && newParent.None? {
        return;
      }
      if id !in channels {
        return false;
      }
      ghost var m := channels;
      var oldOrder := channels[id].order;
      var parent := if newParent.Some? then newParent.value else channels[id].parent;
      if newOrder.Some? {
        events := events + [OrderChanged(channels[id].id, channels[id].order)];
        channels := channels[id := channels[id].(order := newOrder.value)];
      }
      ghost var m1, upTo := channels, |events|;
      OrderRemove(id, oldOrder);
      ghost var m2, log := channels, events[upTo..];
      upTo := |events|;
      var order := if newOrder.Some? then newOrder.value else oldOrder;
      OrderInsert(id, order, parent);
      assert m1 == m[id := m[id].(order := order)];
      MoveIsLogged(m, id, newOrder, parent, m2, channels, log, events[upTo..]);
      assert events[|old(events)|..] == OwnEvent(m[id], newOrder) + log + events[upTo..];
      LogIsShort(m1, Followers(m1, id), oldOrder, m2, log);
      LogIsShort(m2, FollowersIn(m2, id, order, parent), id, channels, events[upTo..]);
      if IdsMatch(m) {
        MoveIsUndone(m, id, newOrder, parent, m2, channels, log, events[upTo..]);
      }
      if HasChains(m) {
        MoveRelinks(m, id, order, parent, m1, m2, channels, log, events[upTo..]);
      }
    }

    static lemma NothingUndone(m: ChannelMap)
      ensures Undone(m, []) == m
    {
    }

    static lemma LogIsShort(m: ChannelMap, ids: set<nat>, order: nat, m': ChannelMap, log: seq<Event>)
      requires OneChanged(m, ids, order, m', log)
      ensures |log| <= 1
    {
    }

    /** The log of a move undoes it. */
    static lemma MoveIsUndone(m: ChannelMap, id: nat, newOrder: Option<nat>, parent: nat, m2: ChannelMap,
                              m3: ChannelMap, log1: seq<Event>, log2: seq<Event>)
      requires IdsMatch(m) && id in m
      requires var order := if newOrder.Some? then newOrder.value else m[id].order;
               var m1 := m[id := m[id].(order := order)];
               && OneChanged(m1, Followers(m1, id), m[id].order, m2, log1)
               && OneChanged(m2, FollowersIn(m2, id, order, parent), id, m3, log2)
      ensures Undone(m3, OwnEvent(m[id], newOrder) + log1 + log2) == m
    {
      hide OneChanged;
      var order := if newOrder.Some? then newOrder.value else m[id].order;
      var m1 := m[id := m[id].(order := order)];
      var own := OwnEvent(m[id], newOrder);
      OneChangedIsUndone(m1, Followers(m1, id), m[id].order, m2, own, log1);
      OneChangedIsUndone(m2, FollowersIn(m2, id, order, parent), id, m3, own + log1, log2);
      assert own[..0] == [] && m1[id := m1[id].(order := m[id].order)] == m;
    }

    static lemma MoveRelinks(m: ChannelMap, id: nat, order: nat, parent: nat, m1: ChannelMap, m2: ChannelMap,
                             m3: ChannelMap, log: seq<Event>, log': seq<Event>)
      requires HasChains(m) && id in m && m1 == m[id := m[id].(order := order)]
      requires OneChanged(m1, Followers(m1, id), m[id].order, m2, log)
      requires OneChanged(m2, FollowersIn(m2, id, order, parent), id, m3, log')
      ensures id in m3 && m3[id := Channel(id, parent, order)] == Moved(m, id, order, parent)
    {
      hide Chained, OneChanged;
      var chains :| Chained(m, chains);
      var i := PlaceOf(m, chains, id);
      RemoveSplices(m, chains, id, i);
      ChainedHaveOneFollower(m, chains, id, order, parent);
      IdsArePlaced(m, chains, id);
      var rest := Unlink(m - {id}, id, m[id].order);
      UnlinkApart(m, id, m1[id], m[id].order);
      OneChangedIsUnlink(m1, id, m[id].order, m2, log);
      ChainedHaveOneFollower(rest, Taken(chains, m[id].parent, i), id, order, parent);
      LinkApart(rest, id, m1[id], order, parent);
      OneChangedIsLink(m2, id, order, parent, m3, log');
    }

    static lemma IdsArePlaced(m: ChannelMap, chains: Chains, id: nat)
      requires Chained(m, chains) && id in m
      ensures m[id].id == id && id != 0
    {
    }

    /** A channel does not follow itself: unlinking treats it and the others apart. */
    static lemma UnlinkApart(m: ChannelMap, id: nat, x: Channel, order: nat)
      requires id in m && m[id].id == id == x.id
      ensures Followers(m[id := x], id) == Followers(m, id)
      ensures Unlink(m[id := x], id, order) == Unlink(m - {id}, id, order)[id := x]
    {
    }

    static lemma LinkApart(m: ChannelMap, id: nat, x: Channel, order: nat, parent: nat)
      requires id !in m && x.id == id
      ensures FollowersIn(m[id := x], id, order, parent) == FollowersIn(m, id, order, parent)
      ensures Link(m[id := x], id, order, parent) == Link(m, id, order, parent)[id := x]
    {
    }
  }
}
