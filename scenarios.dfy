/** Worked scenarios of the repository that show what the queue operations do as
    written: positions follow the provider's cached counter, nothing
    renumbers the queue, and so a position is not kept at one or above. */
module Scenarios {
  import opened Collections
  import opened Domain
  import opened Queue
  import opened Store

  function Clinic(queueLength: int): Provider
  {
    Provider("p1", "Dr. Lee", "Cardiology", 4.5, 120.0, queueLength, [], [])
  }

  /** Joining an empty queue gives position 1 and a 15 minute wait; after the
      entry is cancelled its token no longer has a status. */
  method JoinThenCancel() returns (joined: JoinResult, status: Option<StatusView>)
    ensures joined == JoinResult("t1", 1, 15)
    ensures status.None?
  {
    var repo := new Repository([Clinic(0)], [], []);
    joined := repo.JoinQueue("p1", "u1", "t1");
    assert repo.queue[0].token == "t1";
    var cancelled := repo.CancelQueueEntry("t1");
    status := repo.GetQueueStatus("t1", true);
  }

  /** The queue is the provider's counter, not the people in it: with five
      patients on the counter and nobody queued, the first to join gets
      position 6 and a 90 minute wait. */
  method JoinBehindCounter() returns (joined: JoinResult, counter: int)
    ensures joined == JoinResult("t1", 6, 90)
    ensures counter == 6
  {
    var repo := new Repository([Clinic(5)], [], []);
    joined := repo.JoinQueue("p1", "u1", "t1");
    counter := repo.providers[0].queueLength;
  }

  /** A status check may move the second patient up to the first one's
      position; inviting the first then moves the second to position 0. */
  method NeighbourReachesZero() returns (position: int, eta: int)
    ensures position == 0 && eta == 0
  {
    var repo := new Repository([Clinic(0)], [], []);
    var a := repo.JoinQueue("p1", "ua", "ta");
    assert repo.queue[0].token == "ta";
    var b := repo.JoinQueue("p1", "ub", "tb");
    assert repo.queue[1].token == "tb";
    TokenIndexUnique(repo.queue, "tb", 1);
    var seen := repo.GetQueueStatus("tb", true);
    assert repo.queue[0].position == 1 && repo.queue[1].position == 1;
    assert IsNextWaiting(repo.queue, "p1", 0);
    var invited := repo.InviteNextPatient("p1");
    assert repo.queue[1].position == 0;
    TokenIndexUnique(repo.queue, "tb", 1);
    var now := repo.GetQueueStatus("tb", false);
    position := now.value.position;
    eta := now.value.eta;
  }

  /** Inviting for an id no provider has fails with the provider error and its
      message, and changes nothing. */
  method InviteUnknownProvider() returns (message: string, counter: int)
    ensures message == "Provider not found"
    ensures counter == 3
  {
    var repo := new Repository([Clinic(3)], [], []);
    var r := repo.InviteNextPatient("p2");
    message := ErrorMessage(r.error);
    counter := repo.providers[0].queueLength;
  }

  /** Postponing sets the position to the number of waiting patients, which
      can leave the postponed patient ahead of someone who joined later. */
  method PostponeStaysAhead() returns (postponed: int, later: int)
    ensures postponed == 2 && later == 7
  {
    var repo := new Repository([Clinic(5)], [], []);
    var a := repo.JoinQueue("p1", "ua", "ta");
    assert repo.queue[0].token == "ta";
    var b := repo.JoinQueue("p1", "ub", "tb");
    assert repo.queue[1].token == "tb";
    TokenIndexUnique(repo.queue, "ta", 0);
    assert Filter(repo.queue, WaitingFor("p1")) == repo.queue;
    var r := repo.PostponePatient("ta");
    postponed := repo.queue[0].position;
    later := repo.queue[1].position;
  }
}
