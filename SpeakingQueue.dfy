/**
 Pure transitions of the shared speaking queue.

 The authoritative handler keeps one ordered list of user ids; its head is the
 current speaker. A socket message carries a string `action` tag, and the
 handler's `switch` recognises exactly four of them. Everything here is a
 function on values; the class in QueueHandler.dfy applies these transitions
 to its field in place.
 */
module SpeakingQueue {

  /** A user id as the host application hands it out (an opaque string). */
  type UserId = string

  /** The tags that the handler's `switch` dispatches on. */
  const AddPlayerTag: string := "addPlayer"
  const RemovePlayerTag: string := "removePlayer"
  const RemoveCurrentTag: string := "removeCurrent"
  const ClearQueueTag: string := "clearQueue"
  /** The tag of a snapshot broadcast; the action handler does not recognise it. */
  const UpdateQueueTag: string := "updateQueue"

  /**
   A message on the module's socket channel. `userId` is read only by the
   two player actions and `queue` only by the snapshot message; the other
   fields of a message are whatever its sender put there.
   */
  datatype Payload = Payload(action: string, userId: UserId, queue: seq<UserId>)

  /** True of the four tags for which the handler mutates and broadcasts. */
  predicate Recognised(p: Payload) {
    p.action == AddPlayerTag || p.action == RemovePlayerTag ||
    p.action == RemoveCurrentTag || p.action == ClearQueueTag
  }

  /** Each id occurs at most once. */
  predicate NoDuplicates<T(==)>(q: seq<T>) {
    forall i, j :: 0 <= i < j < |q| ==> q[i] != q[j]
  }

  /** `r` is `q` with some entries deleted and the rest kept in their order. */
  predicate IsSubsequence<T(==)>(r: seq<T>, q: seq<T>)
    decreases |r| + |q|
  {
    if r == [] then true
    else if q == [] then false
    else if r[0] == q[0] then IsSubsequence(r[1..], q[1..])
    else IsSubsequence(r, q[1..])
  }

  /** `addPlayer`: append the id unless it is already queued. */
  function Join<T(==)>(q: seq<T>, x: T): (r: seq<T>)
    ensures x in r
    ensures |r| == (if x in q then |q| else |q| + 1)
    ensures r[..|q|] == q
    ensures x !in q ==> r[|q|] == x
    ensures NoDuplicates(q) ==> NoDuplicates(r)
  {
    if x in q then q else q + [x]
  }

  /** `removePlayer`: drop every occurrence of the id; a queue without it is left alone. */
  function Leave<T(==)>(q: seq<T>, x: T): (r: seq<T>)
    ensures x !in r
    ensures |r| <= |q|
    ensures x !in q ==> r == q
  {
    if q == [] then []
    else if q[0] == x then Leave(q[1..], x)
    else
      assert q == [q[0]] + q[1..];
      [q[0]] + Leave(q[1..], x)
  }

  /** `removeCurrent`: dismiss the current speaker, if there is one. */
  function Advance<T>(q: seq<T>): (r: seq<T>)
    ensures q != [] ==> [q[0]] + r == q
    ensures q == [] ==> r == []
    ensures NoDuplicates(q) ==> NoDuplicates(r)
  {
    if |q| > 0 then q[1..] else q
  }

  /** The queue after the handler has processed one message. */
  function Step(q: seq<UserId>, p: Payload): (r: seq<UserId>)
    ensures p.action == AddPlayerTag ==> r == Join(q, p.userId)
    ensures p.action == RemovePlayerTag ==> r == Leave(q, p.userId)
    ensures p.action == RemoveCurrentTag ==> r == Advance(q)
    ensures p.action == ClearQueueTag ==> r == []
    ensures !Recognised(p) ==> r == q
  {
    if p.action == AddPlayerTag then Join(q, p.userId)
    else if p.action == RemovePlayerTag then Leave(q, p.userId)
    else if p.action == RemoveCurrentTag then Advance(q)
    else if p.action == ClearQueueTag then []
    else q
  }

  /** The snapshot the handler emits for one message: the new queue, or nothing. */
  function Emitted(q: seq<UserId>, p: Payload): (r: seq<seq<UserId>>)
    ensures |r| == (if Recognised(p) then 1 else 0)
    ensures forall k :: 0 <= k < |r| ==> r[k] == Step(q, p)
  {
    if Recognised(p) then [Step(q, p)] else []
  }

  /** The queue after the handler has processed a sequence of messages in order. */
  function Run(q: seq<UserId>, ps: seq<Payload>): seq<UserId>
    decreases |ps|
  {
    if ps == [] then q else Run(Step(q, ps[0]), ps[1..])
  }

  /** Every snapshot the handler emits while processing messages in order. */
  function Broadcasts(q: seq<UserId>, ps: seq<Payload>): seq<seq<UserId>>
    decreases |ps|
  {
    if ps == [] then [] else Emitted(q, ps[0]) + Broadcasts(Step(q, ps[0]), ps[1..])
  }

  /** How many of the messages carry one of the four recognised tags. */
  function CountRecognised(ps: seq<Payload>): nat {
    if ps == [] then 0 else (if Recognised(ps[0]) then 1 else 0) + CountRecognised(ps[1..])
  }

  // ---------------------------------------------------------------------------
  // Properties of the single transitions

  /** Joining twice is joining once. */
  lemma JoinIdempotent(q: seq<UserId>, x: UserId)
    ensures Join(Join(q, x), x) == Join(q, x)
  {
  }

  /** Leaving twice is leaving once. */
  lemma LeaveIdempotent(q: seq<UserId>, x: UserId)
    ensures Leave(Leave(q, x), x) == Leave(q, x)
  {
  }

  /** Leaving zeroes the id's count and keeps the count of every other id. */
  lemma {:induction false} LeaveCounts<T>(q: seq<T>, x: T)
    ensures multiset(Leave(q, x)) == multiset(q)[x := 0]
    decreases |q|
  {
    if q != [] {
      LeaveCounts(q[1..], x);
      assert q == [q[0]] + q[1..];
      assert multiset(q) == multiset{q[0]} + multiset(q[1..]);
    }
  }

  /** Leaving removes exactly the one id: it is gone, and every other id is queued iff it was. */
  lemma LeaveMembership<T>(q: seq<T>, x: T, y: T)
    ensures x !in Leave(q, x)
    ensures y != x ==> (y in Leave(q, x) <==> y in q)
  {
    LeaveCounts(q, x);
    assert y != x ==> multiset(Leave(q, x))[y] == multiset(q)[y];
  }

  /** The ids that stay keep their relative order. */
  lemma {:induction false} LeaveKeepsOrder<T>(q: seq<T>, x: T)
    ensures IsSubsequence(Leave(q, x), q)
    decreases |q|
  {
    if q != [] {
      LeaveKeepsOrder(q[1..], x);
      var r := Leave(q[1..], x);
      if q[0] == x {
        LeaveMembership(q[1..], x, x);
        assert r == [] || r[0] != q[0];
      } else {
        assert ([q[0]] + r)[1..] == r;
      }
    }
  }

  /** Leaving keeps the at-most-once invariant. */
  lemma {:induction false} LeaveKeepsNoDuplicates<T>(q: seq<T>, x: T)
    requires NoDuplicates(q)
    ensures NoDuplicates(Leave(q, x))
    decreases |q|
  {
    if q != [] {
      assert NoDuplicates(q[1..]);
      LeaveKeepsNoDuplicates(q[1..], x);
      if q[0] != x {
        var r := Leave(q[1..], x);
        assert q[0] !in q[1..];
        LeaveMembership(q[1..], x, q[0]);
        assert q[0] !in r;
        var s := [q[0]] + r;
        forall i, j | 0 <= i < j < |s| ensures s[i] != s[j] {
          if i == 0 { assert s[j] == r[j - 1]; }
          else { assert s[i] == r[i - 1] && s[j] == r[j - 1]; }
        }
      }
    }
  }

  /** A prefix free of the id passes through untouched. */
  lemma {:induction false} LeaveKeepsCleanPrefix<T>(a: seq<T>, x: T, t: seq<T>)
    requires x !in a
    ensures Leave(a + t, x) == a + Leave(t, x)
    decreases |a|
  {
    if a != [] {
      assert a == [a[0]] + a[1..];
      assert a[0] != x && x !in a[1..];
      assert a + t == [a[0]] + (a[1..] + t);
      LeaveHead(a[0], a[1..] + t, x);
      LeaveKeepsCleanPrefix(a[1..], x, t);
      assert a + Leave(t, x) == [a[0]] + (a[1..] + Leave(t, x));
    } else {
      assert a + t == t && a + Leave(t, x) == Leave(t, x);
    }
  }

  /** On a queue without duplicates, leaving deletes the one occurrence and closes the gap. */
  lemma LeaveSingleOccurrence<T>(a: seq<T>, x: T, b: seq<T>)
    requires x !in a && x !in b
    ensures Leave(a + [x] + b, x) == a + b
  {
    var t := [x] + b;
    assert a + [x] + b == a + t;
    LeaveHead(x, b, x);
    assert Leave(t, x) == b;
    LeaveKeepsCleanPrefix(a, x, t);
  }

  /** One unfolding of Leave on a queue written as head and tail. */
  lemma LeaveHead<T>(h: T, t: seq<T>, x: T)
    ensures Leave([h] + t, x) == if h == x then Leave(t, x) else [h] + Leave(t, x)
  {
    assert ([h] + t)[0] == h && ([h] + t)[1..] == t;
  }

  /** `removeCurrent` removes the head only, and is harmless on the empty queue. */
  lemma AdvanceRemovesHeadOnly(a: UserId, rest: seq<UserId>)
    ensures Advance([a] + rest) == rest
    ensures Advance<UserId>([]) == []
  {
  }

  /** A snapshot message reaching the action handler changes nothing there. */
  lemma UpdateQueueIgnoredByHandler(q: seq<UserId>, p: Payload)
    requires p.action == UpdateQueueTag
    ensures Step(q, p) == q && Emitted(q, p) == []
  {
  }

  /** Every message keeps the at-most-once invariant. */
  lemma StepKeepsNoDuplicates(q: seq<UserId>, p: Payload)
    requires NoDuplicates(q)
    ensures NoDuplicates(Step(q, p))
  {
    if p.action == RemovePlayerTag {
      LeaveKeepsNoDuplicates(q, p.userId);
    }
  }

  // ---------------------------------------------------------------------------
  // Properties of runs of messages

  /** Any run of messages keeps the at-most-once invariant. */
  lemma {:induction false} RunKeepsNoDuplicates(q: seq<UserId>, ps: seq<Payload>)
    requires NoDuplicates(q)
    ensures NoDuplicates(Run(q, ps))
    decreases |ps|
  {
    if ps != [] {
      StepKeepsNoDuplicates(q, ps[0]);
      RunKeepsNoDuplicates(Step(q, ps[0]), ps[1..]);
    }
  }

  /** Starting from the empty queue, no run of messages queues an id twice. */
  lemma RunFromEmptyHasNoDuplicates(ps: seq<Payload>)
    ensures NoDuplicates(Run([], ps))
  {
    RunKeepsNoDuplicates([], ps);
  }

  /**
   One snapshot per recognised message, none for the others, and the last
   snapshot (if any message was recognised) is the final queue.
   */
  lemma {:induction false} BroadcastsFaithful(q: seq<UserId>, ps: seq<Payload>)
    ensures |Broadcasts(q, ps)| == CountRecognised(ps)
    ensures CountRecognised(ps) == 0 ==> Run(q, ps) == q
    ensures CountRecognised(ps) > 0 ==> Broadcasts(q, ps)[|Broadcasts(q, ps)| - 1] == Run(q, ps)
    decreases |ps|
  {
    if ps != [] {
      BroadcastsFaithful(Step(q, ps[0]), ps[1..]);
    }
  }

  /** Every snapshot emitted by a run from a duplicate-free queue is duplicate-free. */
  lemma {:induction false} BroadcastsHaveNoDuplicates(q: seq<UserId>, ps: seq<Payload>)
    requires NoDuplicates(q)
    ensures forall k :: 0 <= k < |Broadcasts(q, ps)| ==> NoDuplicates(Broadcasts(q, ps)[k])
    decreases |ps|
  {
    if ps != [] {
      StepKeepsNoDuplicates(q, ps[0]);
      BroadcastsHaveNoDuplicates(Step(q, ps[0]), ps[1..]);
    }
  }

  /** Distinct joins queue up in arrival order. */
  lemma JoinsInArrivalOrder(a: UserId, b: UserId, c: UserId, qa: seq<UserId>, qb: seq<UserId>, qc: seq<UserId>)
    requires a != b && b != c && a != c
    ensures Run([], [Payload(AddPlayerTag, a, qa), Payload(AddPlayerTag, b, qb), Payload(AddPlayerTag, c, qc)]) == [a, b, c]
  {
    var p1, p2, p3 := Payload(AddPlayerTag, a, qa), Payload(AddPlayerTag, b, qb), Payload(AddPlayerTag, c, qc);
    assert [p1, p2, p3][1..] == [p2, p3];
    assert [p2, p3][1..] == [p3];
    assert Step([], p1) == [a];
    assert Step([a], p2) == [a, b];
    assert Step([a, b], p3) == [a, b, c];
    assert Run([a, b], [p3]) == Run([a, b, c], []);
    assert Run([a], [p2, p3]) == Run([a, b], [p3]);
    assert Run([], [p1, p2, p3]) == Run([a], [p2, p3]);
  }
}
