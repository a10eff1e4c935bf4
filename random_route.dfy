/** `POST /api/problems/random`: a random problem the user has not completed yet, or any
    problem of the catalog once every one is completed. */
module RandomRoute {
  import opened Wrappers

  /** A catalog entry; the selection only looks at its id. */
  datatype Problem = Problem(id: string, title: string, difficulty: string)

  datatype RandomReply = RandomReply(problem: Option<Problem>, message: string)

  const LoadedMessage := "Random problem loaded successfully"
  const AllDoneMessage := "All problems completed! Here's a random one to practice."

  /** `availableProblems`: the catalog entries whose id is not among `completed`, in
      catalog order. */
  function Available(catalog: seq<Problem>, completed: seq<string>): (r: seq<Problem>)
    ensures |r| <= |catalog|
    ensures forall p :: p in r <==> p in catalog && p.id !in completed
  {
    if catalog == [] then []
    else if catalog[0].id !in completed then [catalog[0]] + Available(catalog[1..], completed)
    else Available(catalog[1..], completed)
  }

  /** Filtering a concatenation filters each part and keeps them in order, so the
      available problems keep their relative catalog order. */
  lemma {:induction false} AvailableAppend(a: seq<Problem>, b: seq<Problem>, completed: seq<string>)
    ensures Available(a + b, completed) == Available(a, completed) + Available(b, completed)
  {
    if a == [] {
      assert a + b == b;
    } else {
      assert (a + b)[0] == a[0] && (a + b)[1..] == a[1..] + b;
      AvailableAppend(a[1..], b, completed);
    }
  }

  /** With nothing completed every problem is available. */
  lemma {:induction false} NothingCompleted(catalog: seq<Problem>)
    ensures Available(catalog, []) == catalog
  {
    if catalog != [] {
      NothingCompleted(catalog[1..]);
    }
  }

  /** `Math.floor(Math.random() * n)` for a draw `r` in [0, 1). */
  function RandomIndex(r: real, n: nat): (i: int)
    requires 0.0 <= r < 1.0
    ensures n > 0 ==> 0 <= i < n
    ensures n == 0 ==> i == 0
  {
    assert 0.0 <= r * n as real <= n as real;
    assert n > 0 ==> r * n as real < n as real;
    (r * n as real).Floor
  }

  /** Every index can be drawn: the draw `k / n` selects index `k`. */
  lemma RandomIndexReaches(k: nat, n: nat)
    requires k < n
    ensures 0.0 <= k as real / n as real < 1.0
    ensures RandomIndex(k as real / n as real, n) == k
  {
    var r := k as real / n as real;
    assert r * n as real == k as real;
    assert r * (n as real) < 1.0 * (n as real);
  }

  /** The reply for the draw `r`. An absent `completedProblems` counts as empty; with no
      problem left the draw is made over the whole catalog, and an empty catalog gives
      no problem. */
  function SelectRandom(catalog: seq<Problem>, completedProblems: Option<seq<string>>, r: real): (reply: RandomReply)
    requires 0.0 <= r < 1.0
    ensures var completed := completedProblems.GetOr([]);
      var available := Available(catalog, completed);
      && (available != [] ==>
            && reply.message == LoadedMessage
            && reply.problem.Some?
            && reply.problem.value in available
            && reply.problem.value.id !in completed)
      && (available == [] ==>
            && reply.message == AllDoneMessage
            && (reply.problem.Some? <==> catalog != [])
            && (reply.problem.Some? ==> reply.problem.value in catalog))
  {
    var completed := completedProblems.GetOr([]);
    var available := Available(catalog, completed);
    if |available| == 0 then
      var randomIndex := RandomIndex(r, |catalog|);
      RandomReply(if randomIndex < |catalog| then Some(catalog[randomIndex]) else None, AllDoneMessage)
    else
      var randomIndex := RandomIndex(r, |available|);
      RandomReply(Some(available[randomIndex]), LoadedMessage)
  }

  /** Every uncompleted problem is chosen by some draw. */
  lemma EveryAvailableReachable(catalog: seq<Problem>, completed: seq<string>, k: nat)
    requires k < |Available(catalog, completed)|
    ensures var r := k as real / |Available(catalog, completed)| as real;
      0.0 <= r < 1.0 && SelectRandom(catalog, Some(completed), r).problem == Some(Available(catalog, completed)[k])
  {
    RandomIndexReaches(k, |Available(catalog, completed)|);
  }
}
