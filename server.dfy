/**
 * The `ChatServer` actor of src/server.rs. Its mailbox is abstracted away:
 * each handler runs as one atomic step on the object, and every `do_send`
 * is appended to `outbox`.
 */
module Server {
  import opened Messages
  import opened Registry

  class ChatServer {
    /** Initialised and never used by any handler. */
    var users: map<string, set<string>>
    /** channel name -> member id -> handle */
    var channels: Channels
    /** Every `Message` the server has sent, with its recipient, in order. */
    var outbox: seq<Delivery>

    ghost predicate Valid()
      reads this
    {
      NoEmptyChannel(channels)
    }

    /** `ChatServer::new`: no channels, no users, nothing sent. */
    constructor ()
      ensures Valid()
      ensures channels == map[] && users == map[] && outbox == []
    {
      users := map[];
      channels := map[];
      outbox := [];
    }

    /**
     * `send_message`: one `Message(message)` to every member of `channelId`,
     * in the member map's iteration order `order`; nothing when the channel
     * is absent. The registry is only read.
     */
    method SendMessage(channelId: string, message: string) returns (ghost order: seq<string>)
      requires Valid()
      modifies this`outbox
      ensures Valid()
      ensures channelId in channels ==> Enumerates(order, channels[channelId].Keys)
      ensures channelId in channels ==> outbox == old(outbox) + Fanout(channels[channelId], order, message)
      ensures channelId !in channels ==> outbox == old(outbox)
    {
      order := [];
      if channelId in channels {
        var members := channels[channelId];
        var rest := members.Keys;
        while rest != {}
          invariant rest <= members.Keys
          invariant forall i :: 0 <= i < |order| ==> order[i] in members && order[i] !in rest
          invariant forall i, j :: 0 <= i < j < |order| ==> order[i] != order[j]
          invariant forall x :: x in members ==> x in rest || x in order
          invariant outbox == old(outbox) + Fanout(members, order, message)
          decreases rest
        {
          var id :| id in rest;
          outbox := outbox + [Delivery(members[id], Message(message))];
          ghost var before := order;
          order := order + [id];
          assert order[..|before|] == before;
          rest := rest - {id};
        }
      }
    }

    /**
     * `Handler<Connect>`: register `id -> addr` under `channel`, then look the
     * member up again and send it the welcome.
     */
    method Connect(id: string, channel: string, addr: Handle)
      requires Valid()
      modifies this`channels, this`outbox
      ensures Valid()
      ensures channels == Join(old(channels), id, channel, addr)
      ensures outbox == old(outbox) + [Delivery(addr, Message(ServerJoined))]
    {
      JoinKeepsNoEmptyChannel(channels, id, channel, addr);
      if channel in channels {
        var members := channels[channel][id := addr];
        channels := channels[channel := members];
      } else {
        var members := map[id := addr];
        channels := channels[channel := members];
      }

      if channel in channels && id in channels[channel] {
        outbox := outbox + [Delivery(channels[channel][id], Message(ServerJoined))];
      }
    }

    /**
     * `Handler<Disconnect>`: remove `id` from `channel` and drop the channel
     * once it has no members; a missing channel or member is not an error.
     */
    method Disconnect(id: string, channel: string)
      requires Valid()
      modifies this`channels
      ensures Valid()
      ensures channels == Leave(old(channels), id, channel)
    {
      LeaveKeepsNoEmptyChannel(channels, id, channel);
      if channel in channels {
        var members := channels[channel] - {id};
        channels := channels[channel := members];

        if channels[channel] == map[] {
          channels := channels - {channel};
        }
      }
    }

    /** `Handler<ClientMessage>`: broadcast `msg` to `channel`; `id` is unused. */
    method ClientMessage(id: string, msg: string, channel: string) returns (ghost order: seq<string>)
      requires Valid()
      modifies this`outbox
      ensures Valid()
      ensures channel in channels ==> Enumerates(order, channels[channel].Keys)
      ensures channel in channels ==> outbox == old(outbox) + Fanout(channels[channel], order, msg)
      ensures channel !in channels ==> outbox == old(outbox)
    {
      order := SendMessage(channel, msg);
    }
  }
}
