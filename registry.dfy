/**
 * The value the chat server keeps in its `channels` field — channel name to
 * member id to outbound handle — and the three things the handlers do with
 * it: insert a member, remove a member, fan a text out to every member.
 * The class in module Server updates its field in place and is specified by
 * these functions.
 */
module Registry {
  import opened Messages

  /** `HashMap<String, HashMap<String, Recipient<Message>>>` */
  type Channels = map<string, map<string, Handle>>

  /** The ids registered under `channel`; none when the channel is absent. */
  function Members(r: Channels, channel: string): set<string>
  {
    if channel in r then r[channel].Keys else {}
  }

  /** The registry invariant: every stored channel has at least one member. */
  ghost predicate NoEmptyChannel(r: Channels)
  {
    forall c :: c in r ==> r[c] != map[]
  }

  /**
   * The `Connect` update: insert `id -> addr` into the member map of
   * `channel`, creating the channel when it is absent.
   */
  function Join(r: Channels, id: string, channel: string, addr: Handle): (r': Channels)
    ensures r'.Keys == r.Keys + {channel}
    ensures Members(r', channel) == Members(r, channel) + {id}
    ensures r'[channel][id] == addr
    ensures forall m :: m in Members(r, channel) && m != id ==> r'[channel][m] == r[channel][m]
    ensures forall c :: c in r && c != channel ==> r'[c] == r[c]
  {
    var members := if channel in r then r[channel] else map[];
    r[channel := members[id := addr]]
  }

  /**
   * The `Disconnect` update: remove `id` from `channel`, and drop the channel
   * when that leaves it without members. An absent channel is left alone.
   */
  function Leave(r: Channels, id: string, channel: string): (r': Channels)
    ensures Members(r', channel) == Members(r, channel) - {id}
    ensures channel in r' <==> Members(r, channel) - {id} != {}
    ensures forall m :: m in Members(r', channel) ==> r'[channel][m] == r[channel][m]
    ensures forall c :: c != channel ==> (c in r' <==> c in r)
    ensures forall c :: c in r && c != channel ==> r'[c] == r[c]
  {
    if channel in r then
      var members := r[channel] - {id};
      if members == map[] then r - {channel} else r[channel := members]
    else
      r
  }

  /**
   * `order` lists every id of `ids` exactly once: one iteration order of a
   * member map. Hash-map iteration order is not fixed, so the model
   * quantifies over all of them.
   */
  ghost predicate Enumerates(order: seq<string>, ids: set<string>)
  {
    && (forall i, j :: 0 <= i < j < |order| ==> order[i] != order[j])
    && (forall i :: 0 <= i < |order| ==> order[i] in ids)
    && (forall x :: x in ids ==> x in order)
  }

  /** No two members of the map share a handle. */
  ghost predicate DistinctHandles(members: map<string, Handle>)
  {
    forall a, b :: a in members && b in members && a != b ==> members[a] != members[b]
  }

  /**
   * `send_message` on one member map: one `Message(text)` per id of `order`,
   * sent to that member's handle, in that order.
   */
  function Fanout(members: map<string, Handle>, order: seq<string>, text: string): (d: seq<Delivery>)
    requires forall i :: 0 <= i < |order| ==> order[i] in members
    ensures |d| == |order|
    ensures forall i :: 0 <= i < |order| ==> d[i] == Delivery(members[order[i]], Message(text))
  {
    if order == [] then []
    else
      var last := |order| - 1;
      Fanout(members, order[..last], text) + [Delivery(members[order[last]], Message(text))]
  }

  // ---------------------------------------------------------------------
  // The registry invariant

  lemma JoinKeepsNoEmptyChannel(r: Channels, id: string, channel: string, addr: Handle)
    requires NoEmptyChannel(r)
    ensures NoEmptyChannel(Join(r, id, channel, addr))
  {
    var r' := Join(r, id, channel, addr);
    forall c | c in r' ensures r'[c] != map[] {
      if c == channel {
        assert id in r'[c];
      }
    }
  }

  lemma LeaveKeepsNoEmptyChannel(r: Channels, id: string, channel: string)
    requires NoEmptyChannel(r)
    ensures NoEmptyChannel(Leave(r, id, channel))
  {
    var r' := Leave(r, id, channel);
    forall c | c in r' ensures r'[c] != map[] {
      if c == channel {
        var m :| m in Members(r, channel) - {id};
        assert m in r'[c];
      }
    }
  }

  // ---------------------------------------------------------------------
  // How the two updates relate

  /** Re-connecting an id under the same channel only replaces its handle. */
  lemma JoinReplacesHandle(r: Channels, id: string, channel: string, a: Handle, b: Handle)
    ensures Join(Join(r, id, channel, a), id, channel, b) == Join(r, id, channel, b)
  {
    var lhs := Join(Join(r, id, channel, a), id, channel, b);
    var rhs := Join(r, id, channel, b);
    assert lhs[channel] == rhs[channel];
  }

  /** Disconnecting a member that is not there changes nothing. */
  lemma LeaveAbsentIsNoop(r: Channels, id: string, channel: string)
    requires NoEmptyChannel(r)
    requires id !in Members(r, channel)
    ensures Leave(r, id, channel) == r
  {
    if channel in r {
      assert r[channel] - {id} == r[channel];
    }
  }

  /** Disconnecting twice is the same as disconnecting once. */
  lemma LeaveIdempotent(r: Channels, id: string, channel: string)
    ensures Leave(Leave(r, id, channel), id, channel) == Leave(r, id, channel)
  {
    var once := Leave(r, id, channel);
    if channel in once {
      assert once[channel] - {id} == once[channel];
    }
  }

  /** Disconnect undoes a Connect of an id that was not yet a member. */
  lemma LeaveUndoesJoin(r: Channels, id: string, channel: string, addr: Handle)
    requires NoEmptyChannel(r)
    requires id !in Members(r, channel)
    ensures Leave(Join(r, id, channel, addr), id, channel) == r
  {
    var r' := Leave(Join(r, id, channel, addr), id, channel);
    if channel in r {
      assert r'[channel] == r[channel];
    }
  }

  /**
   * The server does not confine an id to one channel: the same id connected
   * to two channels is a member of both. Only fresh session ids keep it out.
   */
  lemma SameIdMayJoinTwoChannels(h: Handle)
    ensures var r := Join(Join(map[], "a", "x", h), "a", "y", h);
            "a" in Members(r, "x") && "a" in Members(r, "y")
  {
  }

  // ---------------------------------------------------------------------
  // Broadcast

  /** Every member of the map receives the text. */
  lemma FanoutReachesEveryMember(members: map<string, Handle>, order: seq<string>, text: string, id: string)
    requires Enumerates(order, members.Keys)
    requires id in members
    ensures Delivery(members[id], Message(text)) in Fanout(members, order, text)
  {
    var i :| 0 <= i < |order| && order[i] == id;
    assert Fanout(members, order, text)[i] == Delivery(members[id], Message(text));
  }

  /** Nothing but the text is sent, and only to handles of members. */
  lemma FanoutOnlyToMembers(members: map<string, Handle>, order: seq<string>, text: string, d: Delivery)
    requires Enumerates(order, members.Keys)
    requires d in Fanout(members, order, text)
    ensures d.msg == Message(text)
    ensures exists id :: id in members && members[id] == d.to
  {
    var i :| 0 <= i < |order| && Fanout(members, order, text)[i] == d;
    assert members[order[i]] == d.to;
  }

  /**
   * The number of copies of the text sent to a member's handle is one when
   * the member's id is in `order` and zero otherwise, provided no other
   * member shares that handle.
   */
  lemma {:induction false} FanoutCopies(members: map<string, Handle>, order: seq<string>, text: string, id: string)
    requires forall i :: 0 <= i < |order| ==> order[i] in members
    requires forall i, j :: 0 <= i < j < |order| ==> order[i] != order[j]
    requires DistinctHandles(members)
    requires id in members
    ensures multiset(Fanout(members, order, text))[Delivery(members[id], Message(text))]
            == if id in order then 1 else 0
  {
    if order != [] {
      var last := |order| - 1;
      var init := order[..last];
      FanoutCopies(members, init, text, id);
      assert Fanout(members, order, text)
          == Fanout(members, init, text) + [Delivery(members[order[last]], Message(text))];
      assert order == init + [order[last]];
      if order[last] == id {
        assert id !in init;
      }
    }
  }

  /** `send_message` delivers exactly one copy to each member of the channel. */
  lemma FanoutOncePerMember(members: map<string, Handle>, order: seq<string>, text: string, id: string)
    requires Enumerates(order, members.Keys)
    requires DistinctHandles(members)
    requires id in members
    ensures multiset(Fanout(members, order, text))[Delivery(members[id], Message(text))] == 1
  {
    FanoutCopies(members, order, text, id);
  }
}
