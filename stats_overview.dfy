/** The dashboard's four figures (client/src/components/StatsOverview.tsx): how many agents
    there are, how many are working, how many are idle, and their mean progress rounded to a
    whole percent. */
module StatsOverview {
  import opened Schema

  /** `agents.filter(a => a.status === status)`: exactly the agents with that status, each as
      often as it occurs. */
  function WithStatus(agents: seq<Agent>, status: string): (r: seq<Agent>)
    ensures |r| <= |agents|
    ensures forall k :: 0 <= k < |r| ==> r[k].status == status
    ensures multiset(r) <= multiset(agents)
    ensures forall a :: a in agents && a.status == status ==> multiset(r)[a] == multiset(agents)[a]
  {
    if agents == [] then []
    else
      assert agents == [agents[0]] + agents[1..];
      (if agents[0].status == status then [agents[0]] else []) + WithStatus(agents[1..], status)
  }

  /** Agents in two different statuses are disjoint groups, so together they are no more than
      all the agents. */
  lemma {:induction false} DistinctStatusesFit(agents: seq<Agent>, s1: string, s2: string)
    requires s1 != s2
    ensures |WithStatus(agents, s1)| + |WithStatus(agents, s2)| <= |agents|
  {
    if agents != [] {
      DistinctStatusesFit(agents[1..], s1, s2);
    }
  }

  /** `agents.reduce((acc, curr) => acc + (curr.progress || 0), 0)` */
  function ProgressSum(agents: seq<Agent>): int
  {
    if agents == [] then 0 else ProgressSum(agents[..|agents| - 1]) + ProgressOrZero(agents[|agents| - 1].progress)
  }

  /** When every progress lies in 0..100, the sum lies in 0..100 times the count. */
  lemma {:induction false} ProgressSumBounds(agents: seq<Agent>)
    requires forall k :: 0 <= k < |agents| && agents[k].progress.Some? ==> 0 <= agents[k].progress.value <= 100
    ensures 0 <= ProgressSum(agents) <= 100 * |agents|
  {
    if agents != [] {
      ProgressSumBounds(agents[..|agents| - 1]);
    }
  }

  /** `Math.round(s / n)`: the integer nearest to s / n, halves rounded up. */
  function RoundedMean(s: int, n: int): (r: int)
    requires n > 0
    ensures 2 * n * r - n <= 2 * s < 2 * n * r + n
  {
    var r := (2 * s + n) / (2 * n);
    assert 2 * s + n == 2 * n * r + (2 * s + n) % (2 * n);
    r
  }

  datatype Stats = Stats(totalAgents: nat, activeAgents: nat, idleAgents: nat, avgProgress: int)

  /** The four figures for `agents`. With no agents the mean is 0; otherwise `avgProgress` is the
      mean of the progress values (null counted as 0) rounded half up. */
  function ComputeStats(agents: seq<Agent>): (st: Stats)
    ensures st.totalAgents == |agents|
    ensures st.activeAgents == |WithStatus(agents, "working")|
    ensures st.idleAgents == |WithStatus(agents, "idle")|
    ensures st.activeAgents + st.idleAgents <= st.totalAgents
    ensures agents == [] ==> st.avgProgress == 0
    ensures agents != [] ==>
              var n, s := |agents|, ProgressSum(agents);
              2 * n * st.avgProgress - n <= 2 * s < 2 * n * st.avgProgress + n
  {
    DistinctStatusesFit(agents, "working", "idle");
    var total := |agents|;
    Stats(total, |WithStatus(agents, "working")|, |WithStatus(agents, "idle")|,
          if total > 0 then RoundedMean(ProgressSum(agents), total) else 0)
  }

  /** When every progress lies in 0..100, so does the mean shown as "Avg Efficiency". */
  lemma AvgProgressInRange(agents: seq<Agent>)
    requires forall k :: 0 <= k < |agents| && agents[k].progress.Some? ==> 0 <= agents[k].progress.value <= 100
    ensures 0 <= ComputeStats(agents).avgProgress <= 100
  {
    if agents != [] {
      ProgressSumBounds(agents);
      RoundedMeanInRange(ProgressSum(agents), |agents|);
    }
  }

  /** A rounded mean of values in 0..100 lies in 0..100. */
  lemma RoundedMeanInRange(s: int, n: int)
    requires n > 0 && 0 <= s <= 100 * n
    ensures 0 <= RoundedMean(s, n) <= 100
  {
    var r := RoundedMean(s, n);
    assert n * (2 * r + 1) == 2 * n * r + n;
    assert n * (2 * r - 1) == 2 * n * r - n;
    if r < 0 {
      assert 2 * r + 1 <= -1;
      LowerFactor(n, 2 * r + 1);
    }
    if r > 100 {
      assert 2 * r - 1 >= 201;
      UpperFactor(n, 2 * r - 1);
    }
  }

  lemma LowerFactor(n: int, m: int)
    requires n > 0 && m <= -1
    ensures n * m <= -n
  {
  }

  lemma UpperFactor(n: int, m: int)
    requires n > 0 && m >= 201
    ensures n * m >= 201 * n
  {
  }
}
