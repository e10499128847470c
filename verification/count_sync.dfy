/** Count entries made during an outage. Lines are independent, so a refusal sets one entry aside and
    the walk goes on; only losing the server stops it. */
module CountSync {

  datatype Entry = Entry(key: string, rejected: bool)

  /** The server's answer to a post, or none. */
  datatype Answer = Response(status: nat) | NoResponse

  predicate Success(a: Answer) { a.Response? && 200 <= a.status < 300 }

  /** A 4xx is the server's verdict on the entry, except an expired session or a rate limit. */
  predicate IsRefusal(a: Answer) { a.Response? && 400 <= a.status < 500 && a.status != 401 && a.status != 429 }

  /** What becomes of one entry that is reached: gone, or kept, perhaps set aside. */
  function Kept(e: Entry, a: Answer): seq<Entry> {
    if e.rejected then [e] else if Success(a) then [] else [e.(rejected := true)]
  }

  /** The entry at which the walk loses the server, or the end of the queue. */
  function StallAt(queue: seq<Entry>, answers: seq<Answer>): (n: nat)
    requires |answers| == |queue|
    ensures n <= |queue|
    decreases |queue|
  {
    if queue == [] then 0
    else if !queue[0].rejected && !Success(answers[0]) && !IsRefusal(answers[0]) then 0
    else 1 + StallAt(queue[1..], answers[1..])
  }

  function KeptOf(queue: seq<Entry>, answers: seq<Answer>, n: nat): seq<Entry>
    requires n <= |queue| == |answers|
  {
    if n == 0 then [] else KeptOf(queue, answers, n - 1) + Kept(queue[n - 1], answers[n - 1])
  }

  /** The queue after a walk: entries before the stall have had their answer, the rest are untouched. */
  function Walked(queue: seq<Entry>, answers: seq<Answer>): seq<Entry>
    requires |answers| == |queue|
  {
    var n := StallAt(queue, answers);
    KeptOf(queue, answers, n) + queue[n..]
  }

  lemma {:induction false} StallIsFirst(queue: seq<Entry>, answers: seq<Answer>)
    requires |answers| == |queue|
    ensures var n := StallAt(queue, answers);
            && (n < |queue| ==> !queue[n].rejected && !Success(answers[n]) && !IsRefusal(answers[n]))
            && (forall i :: 0 <= i < n ==> queue[i].rejected || Success(answers[i]) || IsRefusal(answers[i]))
    decreases |queue|
  {
    if queue != [] { StallIsFirst(queue[1..], answers[1..]); }
  }

  /** How far a walk gets: up to the first entry not set aside that is neither taken, with a status in the 200s,
      nor refused, with one in the 400s other than 401 and 429. */
  lemma WalkReaches(queue: seq<Entry>, answers: seq<Answer>, i: nat)
    requires i < |queue| == |answers|
    ensures i < StallAt(queue, answers) <==>
              forall k :: 0 <= k <= i && !queue[k].rejected ==>
                && answers[k].Response?
                && var status := answers[k].status;
                   200 <= status <= 299 || (400 <= status <= 499 && status !in {401, 429})
  {
    StallIsFirst(queue, answers);
  }

  lemma {:induction false} KeptWhich(queue: seq<Entry>, answers: seq<Answer>, n: nat, i: nat)
    requires i < n <= |queue| == |answers|
    ensures forall e :: e in Kept(queue[i], answers[i]) ==> e in KeptOf(queue, answers, n)
  {
    if i < n - 1 { KeptWhich(queue, answers, n - 1, i); }
  }

  lemma {:induction false} KeptFrom(queue: seq<Entry>, answers: seq<Answer>, n: nat)
    requires n <= |queue| == |answers|
    ensures forall e :: e in KeptOf(queue, answers, n) ==>
              exists i :: 0 <= i < n && e in Kept(queue[i], answers[i])
  {
    if n > 0 { KeptFrom(queue, answers, n - 1); }
  }

  /** No entry is lost: one leaves the queue only when it was posted and the server took it; a refused
      one stays and is set aside; whatever comes at or after the point where the server was lost, and
      whatever had been set aside before, is still there as it was. */
  lemma NoEntryLost(queue: seq<Entry>, answers: seq<Answer>, i: nat)
    requires i < |queue| == |answers|
    ensures if i >= StallAt(queue, answers) || queue[i].rejected then queue[i] in Walked(queue, answers)
            else
              && answers[i].Response?
              && var status := answers[i].status;
                 || (200 <= status <= 299)
                 || (400 <= status <= 499 && status !in {401, 429}
                     && queue[i].(rejected := true) in Walked(queue, answers))
  {
    var n := StallAt(queue, answers);
    StallIsFirst(queue, answers);
    if i >= n {
      assert queue[n..][i - n] == queue[i];
    } else {
      KeptWhich(queue, answers, n, i);
      if !Success(answers[i]) && !queue[i].rejected {
        assert queue[i].(rejected := true) in Kept(queue[i], answers[i]);
      }
    }
  }

  /** Nor is one invented or posted again: an entry still queued was not taken by the server in this walk. */
  lemma LeftWasNotTaken(queue: seq<Entry>, answers: seq<Answer>, e: Entry)
    requires |answers| == |queue| && e in Walked(queue, answers)
    ensures exists i :: 0 <= i < |queue| && e.key == queue[i].key
                        && (i >= StallAt(queue, answers) || queue[i].rejected || !Success(answers[i]))
  {
    var n := StallAt(queue, answers);
    KeptFrom(queue, answers, n);
    hide StallAt, KeptOf;
    if e in queue[n..] {
      var j :| 0 <= j < |queue[n..]| && queue[n..][j] == e;
      assert queue[n + j] == e;
    } else {
      var i :| 0 <= i < n && e in Kept(queue[i], answers[i]);
      KeptIs(queue[i], answers[i], e);
    }
  }

  lemma KeptIs(e: Entry, a: Answer, kept: Entry)
    requires kept in Kept(e, a)
    ensures kept.key == e.key && (e.rejected || !Success(a))
  {
  }

  class CountDevice {
    var queue: seq<Entry>

    constructor ()
      ensures queue == []
    {
      queue := [];
    }

    /** `answers[i]` is what the server would say to entry i. */
    method SyncQueuedCounts(answers: seq<Answer>) returns (synced: nat, rejected: nat, stalled: bool)
      requires |answers| == |queue|
      modifies this
      ensures queue == Walked(old(queue), answers)
      ensures stalled <==> StallAt(old(queue), answers) < |old(queue)|
      ensures synced + |queue| == |old(queue)|
    {
      var list := queue;
      var i, left := 0, [];
      synced, rejected, stalled := 0, 0, false;
      assert list[0..] == list && answers[0..] == answers;
      while i < |list| && !stalled
        invariant 0 <= i <= |list|
        invariant left == KeptOf(list, answers, i) && synced + |left| == i
        invariant StallAt(list, answers) == i + (if stalled then 0 else StallAt(list[i..], answers[i..]))
        invariant stalled ==> i < |list|
        decreases |list| - i, !stalled
      {
        var e, a := list[i], answers[i];
        assert list[i..][0] == e && list[i..][1..] == list[i + 1..];
        assert answers[i..][0] == a && answers[i..][1..] == answers[i + 1..];
        if e.rejected {
          left := left + [e];
          i := i + 1;
        } else if Success(a) {
          left := left + [];
          synced := synced + 1;
          i := i + 1;
        } else if IsRefusal(a) {
          left := left + [e.(rejected := true)];
          rejected := rejected + 1;
          i := i + 1;
        } else {
          stalled := true;
        }
      }
      queue := left + list[i..];
    }
  }
}
