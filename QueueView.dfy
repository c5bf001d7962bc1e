/**
 The display projection of a received snapshot.

 Every queued id becomes one list entry, in queue order; the entry at index 0
 is marked as the current speaker and every later one is plain. An id that
 does not resolve to a user with a non-empty name is shown as
 "Unknown Player". The markup itself is left to the UI; a `Label` keeps only
 what the markup distinguishes.
 */
module QueueView {
  import opened SpeakingQueue

  const UnknownPlayer: string := "Unknown Player"

  /** One rendered entry: the emphasised "(Speaking)" entry, or a plain one. */
  datatype Label = Speaking(name: string) | Waiting(name: string)

  /**
   The name shown for an id. `users` stands for the host's user directory;
   a missing user and a user whose name is empty (falsy) both fall back.
   */
  function DisplayName(users: map<UserId, string>, id: UserId): (n: string)
    ensures n != ""
    ensures id !in users ==> n == UnknownPlayer
    ensures id in users && users[id] != "" ==> n == users[id]
    ensures n != UnknownPlayer ==> id in users && users[id] == n
  {
    if id in users && users[id] != "" then users[id] else UnknownPlayer
  }

  /**
   The projection as the UI computes it: a map over the queue with an index
   test. One entry per id; only index 0 speaks; each entry shows its own id's name.
   */
  function Render(q: seq<UserId>, users: map<UserId, string>): (r: seq<Label>)
    ensures |r| == |q|
    ensures forall i :: 0 <= i < |q| ==> (r[i].Speaking? <==> i == 0)
    ensures forall i :: 0 <= i < |q| ==> r[i].name == DisplayName(users, q[i])
  {
    seq(|q|, i requires 0 <= i < |q| =>
      if i == 0 then Speaking(DisplayName(users, q[i])) else Waiting(DisplayName(users, q[i])))
  }

  // ---------------------------------------------------------------------------
  // A reference definition: the head speaks, the rest wait in order.

  /** Plain entries for every id, in order. */
  function WaitingLabels(q: seq<UserId>, users: map<UserId, string>): seq<Label> {
    if q == [] then [] else [Waiting(DisplayName(users, q[0]))] + WaitingLabels(q[1..], users)
  }

  /** The head as the speaker, followed by everybody else waiting. */
  function HeadThenWaiting(q: seq<UserId>, users: map<UserId, string>): seq<Label> {
    if q == [] then [] else [Speaking(DisplayName(users, q[0]))] + WaitingLabels(q[1..], users)
  }

  lemma {:induction false} WaitingLabelsAt(q: seq<UserId>, users: map<UserId, string>)
    ensures |WaitingLabels(q, users)| == |q|
    ensures forall i :: 0 <= i < |q| ==> WaitingLabels(q, users)[i] == Waiting(DisplayName(users, q[i]))
    decreases |q|
  {
    if q != [] {
      WaitingLabelsAt(q[1..], users);
    }
  }

  /** The index-based projection agrees with the head-then-waiting reading. */
  lemma RenderIsHeadThenWaiting(q: seq<UserId>, users: map<UserId, string>)
    ensures Render(q, users) == HeadThenWaiting(q, users)
  {
    if q != [] {
      WaitingLabelsAt(q[1..], users);
    }
  }

  /**
   After `removeCurrent`, the first waiting entry becomes the speaker and the rest
   move up; dismissing the only speaker leaves nothing to show.
   */
  lemma RenderAfterAdvance(q: seq<UserId>, users: map<UserId, string>)
    requires |q| >= 1
    ensures |q| == 1 ==> Render(Advance(q), users) == []
    ensures |q| >= 2 ==> Render(Advance(q), users)[0] == Speaking(Render(q, users)[1].name)
    ensures |Render(Advance(q), users)| == |Render(q, users)| - 1
    ensures forall i :: 1 <= i < |q| - 1 ==> Render(Advance(q), users)[i] == Render(q, users)[i + 1]
  {
  }

  /** A newcomer joins at the back as a waiting entry, or speaks at once if the queue was empty. */
  lemma RenderAfterJoin(q: seq<UserId>, x: UserId, users: map<UserId, string>)
    requires x !in q
    ensures q == [] ==> Render(Join(q, x), users) == [Speaking(DisplayName(users, x))]
    ensures q != [] ==> Render(Join(q, x), users) == Render(q, users) + [Waiting(DisplayName(users, x))]
  {
  }

  /** Three queued users: the first speaks, the other two wait in order. */
  lemma RenderThree(u1: UserId, u2: UserId, u3: UserId, users: map<UserId, string>)
    ensures Render([u1, u2, u3], users) ==
      [Speaking(DisplayName(users, u1)), Waiting(DisplayName(users, u2)), Waiting(DisplayName(users, u3))]
  {
  }
}
