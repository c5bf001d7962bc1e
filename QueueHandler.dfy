/**
 The stateful side of the speaking queue: the client-wide `speakingQueue`
 variable, the socket action handler that mutates it, the broadcast of the
 whole queue after every recognised action, and the snapshot receiver that
 overwrites it and renders it.
 */
module QueueHandler {
  import opened SpeakingQueue
  import opened QueueView

  /**
   The queue state of one client. `speakingQueue` is the module-level list;
   `broadcasts` records, in order, the `queue` of every `updateQueue`
   message this client has emitted on the socket channel.
   */
  class QueueStore {
    var speakingQueue: seq<UserId>
    var broadcasts: seq<seq<UserId>>

    /** No id is queued twice, now or in any snapshot already sent. */
    ghost predicate Valid()
      reads this
    {
      NoDuplicates(speakingQueue) &&
      forall k :: 0 <= k < |broadcasts| ==> NoDuplicates(broadcasts[k])
    }

    /** The queue starts empty and nothing has been sent yet. */
    constructor ()
      ensures speakingQueue == [] && broadcasts == []
      ensures Valid()
    {
      speakingQueue := [];
      broadcasts := [];
    }

    /** `broadcastQueueUpdate`: send the whole current queue as an `updateQueue` message. */
    method BroadcastQueueUpdate()
      modifies this`broadcasts
      ensures broadcasts == old(broadcasts) + [speakingQueue]
    {
      broadcasts := broadcasts + [speakingQueue];
    }

    /** `addPlayer`: push the id unless it is already queued, then broadcast. */
    method AddPlayer(userId: UserId)
      modifies this
      ensures speakingQueue == Join(old(speakingQueue), userId)
      ensures broadcasts == old(broadcasts) + [speakingQueue]
      ensures old(Valid()) ==> Valid()
    {
      if userId !in speakingQueue {
        speakingQueue := speakingQueue + [userId];
      }
      BroadcastQueueUpdate();
    }

    /** `removePlayer`: keep only the entries different from the id, then broadcast. */
    method RemovePlayer(userId: UserId)
      modifies this
      ensures speakingQueue == Leave(old(speakingQueue), userId)
      ensures broadcasts == old(broadcasts) + [speakingQueue]
      ensures old(Valid()) ==> Valid()
    {
      ghost var before := speakingQueue;
      speakingQueue := Leave(speakingQueue, userId);
      if NoDuplicates(before) {
        LeaveKeepsNoDuplicates(before, userId);
      }
      BroadcastQueueUpdate();
    }

    /** `removeCurrent`: shift off the current speaker if there is one, then broadcast. */
    method RemoveCurrent()
      modifies this
      ensures speakingQueue == Advance(old(speakingQueue))
      ensures broadcasts == old(broadcasts) + [speakingQueue]
      ensures old(Valid()) ==> Valid()
    {
      if |speakingQueue| > 0 {
        speakingQueue := speakingQueue[1..];
      }
      BroadcastQueueUpdate();
    }

    /** `clearQueue`: empty the queue, then broadcast. */
    method ClearQueue()
      modifies this
      ensures speakingQueue == []
      ensures broadcasts == old(broadcasts) + [[]]
      ensures old(Valid()) ==> Valid()
    {
      speakingQueue := [];
      BroadcastQueueUpdate();
    }

    /**
     The socket handler's `switch` on the message tag. A recognised tag
     changes the queue as `Step` says and sends exactly one snapshot of the
     new queue, even when nothing changed; any other tag, `updateQueue`
     included, changes nothing and sends nothing.
     */
    method HandleMessage(data: Payload)
      modifies this
      ensures speakingQueue == Step(old(speakingQueue), data)
      ensures broadcasts == old(broadcasts) + Emitted(old(speakingQueue), data)
      ensures Recognised(data) ==> broadcasts == old(broadcasts) + [speakingQueue]
      ensures !Recognised(data) ==> speakingQueue == old(speakingQueue) && broadcasts == old(broadcasts)
      ensures old(Valid()) ==> Valid()
    {
      if data.action == AddPlayerTag {
        AddPlayer(data.userId);
      } else if data.action == RemovePlayerTag {
        RemovePlayer(data.userId);
      } else if data.action == RemoveCurrentTag {
        RemoveCurrent();
      } else if data.action == ClearQueueTag {
        ClearQueue();
      }
    }

    /**
     `updateQueueUI`: overwrite the local queue with a received snapshot and
     produce the entries to display. The snapshot is taken as it comes, so
     the invariant survives only a snapshot without duplicates.
     */
    method UpdateQueueUI(queue: seq<UserId>, users: map<UserId, string>) returns (labels: seq<Label>)
      modifies this`speakingQueue
      ensures speakingQueue == queue
      ensures labels == Render(queue, users)
      ensures old(Valid()) && NoDuplicates(queue) ==> Valid()
    {
      speakingQueue := queue;
      labels := Render(queue, users);
    }
  }

  /**
   Two players join, a third client repeats the first join, and then the
   current speaker is dismissed. The authoritative store sends four
   snapshots (the repeated join included), and a mirror that receives the
   last one shows the second player as the speaker.
   */
  method JoinJoinRepeatAdvance(a: UserId, b: UserId, g: UserId, users: map<UserId, string>)
    returns (snapshots: seq<seq<UserId>>, view: seq<Label>)
    requires a != b
    ensures snapshots == [[a], [a, b], [a, b], [b]]
    ensures view == [Speaking(DisplayName(users, b))]
  {
    var store := new QueueStore();
    store.HandleMessage(Payload(AddPlayerTag, a, []));
    assert store.speakingQueue == [a] && store.broadcasts == [[a]];
    store.HandleMessage(Payload(AddPlayerTag, b, []));
    assert store.speakingQueue == [a, b] && store.broadcasts == [[a], [a, b]];
    store.HandleMessage(Payload(AddPlayerTag, a, []));
    assert store.speakingQueue == [a, b] && store.broadcasts == [[a], [a, b], [a, b]];
    store.HandleMessage(Payload(RemoveCurrentTag, g, []));
    assert store.speakingQueue == [b];
    snapshots := store.broadcasts;
    var mirror := new QueueStore();
    view := mirror.UpdateQueueUI(snapshots[|snapshots| - 1], users);
  }
}
