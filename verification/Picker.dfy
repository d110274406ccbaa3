/** Choosing a worker for a capability: a rotated scan, capacity groups, least load first. */
module Picker {
  import opened RouteModel

  /** What the scan sees of a connected worker. */
  datatype Worker = Worker(
    ready: bool,
    supports: bool,
    inflight: nat,
    maxInflight: nat,
    capacityKnown: bool,
    maxActiveSessions: nat,
    activeSessions: nat)

  datatype Choice = Chosen(nodeId: NodeId) | NoWorker | NoCapacity

  /** One call: the online nodes, where the rotation starts, and a snapshot of the workers. */
  datatype Scan = Scan(
    nodeIds: seq<NodeId>,
    start: nat,
    excluded: set<NodeId>,
    workers: map<NodeId, Worker>,
    capacityAware: bool)
  {
    predicate Valid() {
      forall i, j | 0 <= i < j < |nodeIds| :: nodeIds[i] != nodeIds[j]
    }

    /** The node visited at step i of the rotation. */
    function NodeAt(i: nat): NodeId
      requires i < |nodeIds|
    {
      nodeIds[(start + i) % |nodeIds|]
    }

    predicate Online(i: nat)
      requires i < |nodeIds|
    {
      NodeAt(i) !in excluded && NodeAt(i) in workers && workers[NodeAt(i)].ready && workers[NodeAt(i)].supports
    }

    predicate Eligible(i: nat)
      requires i < |nodeIds|
    {
      Online(i) && workers[NodeAt(i)].inflight < workers[NodeAt(i)].maxInflight
    }

    function Load(i: nat): nat
      requires i < |nodeIds| && Eligible(i)
    {
      workers[NodeAt(i)].inflight
    }

    /** 0: room reported or irrelevant; 1: capacity unknown; 2: reported full. */
    function Group(i: nat): (g: nat)
      requires i < |nodeIds| && Eligible(i)
      ensures g < 3
    {
      var w := workers[NodeAt(i)];
      if !capacityAware then 0
      else if !w.capacityKnown then 1
      else if w.maxActiveSessions > 0 && w.activeSessions >= w.maxActiveSessions then 2
      else 0
    }

    /** Lower group, then lower load, then earlier in the rotation. */
    predicate Before(i: nat, j: nat)
      requires i < |nodeIds| && j < |nodeIds| && Eligible(i) && Eligible(j)
    {
      Group(i) < Group(j) || (Group(i) == Group(j) && (Load(i) < Load(j) || (Load(i) == Load(j) && i < j)))
    }

    /** Node n is the first, in that order, of the eligible workers still willing to take a slot. */
    predicate IsBest(n: NodeId, unwilling: set<NodeId>) {
      exists i | 0 <= i < |nodeIds| && Eligible(i) && NodeAt(i) == n ::
        && n !in unwilling
        && forall j | 0 <= j < |nodeIds| && Eligible(j) && NodeAt(j) !in unwilling && j != i :: Before(i, j)
    }
  }

  // ---------------------------------------------------------------- the rotation

  lemma ModStep(a: nat, n: nat)
    requires n > 0
    ensures (a + 1) % n == if a % n + 1 == n then 0 else a % n + 1
  {
    assert a == n * (a / n) + a % n;
    if a % n + 1 == n {
      assert a + 1 == n * (a / n + 1);
      MultipleMod(a / n + 1, n, 0);
    } else {
      MultipleMod(a / n, n, a % n + 1);
    }
  }

  lemma MultipleMod(q: nat, n: nat, r: nat)
    requires r < n
    ensures (n * q + r) % n == r
  {
    var a := n * q + r;
    var d := a / n - q;
    assert n * d == r - a % n;
    assert d >= 1 ==> n * d >= n;
    assert d <= -1 ==> n * d + n <= 0;
  }

  lemma {:induction false} ModDistinct(a: nat, d: nat, n: nat)
    requires 0 < d < n
    ensures a % n != (a + d) % n
    ensures (a + d) % n == if a % n + d < n then a % n + d else a % n + d - n
  {
    if d == 1 {
      ModStep(a, n);
    } else {
      ModDistinct(a, d - 1, n);
      ModStep(a + d - 1, n);
    }
  }

  /** The scan visits every node exactly once. */
  lemma VisitsEachOnce(scan: Scan, k: nat)
    requires scan.Valid() && k < |scan.nodeIds|
    ensures exists i | 0 <= i < |scan.nodeIds| :: scan.NodeAt(i) == scan.nodeIds[k]
    ensures forall i, j | 0 <= i < j < |scan.nodeIds| :: scan.NodeAt(i) != scan.NodeAt(j)
  {
    var n := |scan.nodeIds|;
    forall i, j | 0 <= i < j < n ensures scan.NodeAt(i) != scan.NodeAt(j) {
      ModDistinct(scan.start + i, j - i, n);
      assert scan.start + i + (j - i) == scan.start + j;
      var a, b := (scan.start + i) % n, (scan.start + j) % n;
      assert a < b || b < a;
    }
    var r := scan.start % n;
    var i := if k >= r then k - r else k - r + n;
    if i > 0 {
      ModDistinct(scan.start, i, n);
    }
    assert (scan.start + i) % n == k;
    assert scan.NodeAt(i) == scan.nodeIds[k];
  }

  // ---------------------------------------------------------------- stable sort by load

  /** An eligible worker: the step of the rotation that visited it, and its load then. */
  datatype Candidate = Candidate(offset: nat, inflight: nat)

  /** Lighter first, and among equally loaded ones the earlier visited. */
  predicate Precedes(a: Candidate, b: Candidate) {
    a.inflight < b.inflight || (a.inflight == b.inflight && a.offset < b.offset)
  }

  predicate Ordered(s: seq<Candidate>) { forall i, j | 0 <= i < j < |s| :: Precedes(s[i], s[j]) }

  predicate InRotation(s: seq<Candidate>) { forall i, j | 0 <= i < j < |s| :: s[i].offset < s[j].offset }

  /** A later visited candidate goes behind the equally loaded ones. */
  function InsertStable(s: seq<Candidate>, x: Candidate): (r: seq<Candidate>)
    requires Ordered(s) && forall k | 0 <= k < |s| :: s[k].offset < x.offset
    ensures Ordered(r)
    ensures forall y :: y in r <==> y in s || y == x
  {
    if s == [] then
      [x]
    else
      var last, rest := s[|s| - 1], s[..|s| - 1];
      assert s == rest + [last];
      if last.inflight <= x.inflight then
        assert forall i | 0 <= i < |s| :: Precedes(s[i], x) by {
          assert forall i | 0 <= i < |s| - 1 :: Precedes(s[i], last);
        }
        s + [x]
      else
        var r := InsertStable(rest, x);
        assert forall y | y in r :: Precedes(y, last);
        assert forall i | 0 <= i < |r| :: r[i] in r;
        r + [last]
  }

  method SortStable(s: seq<Candidate>) returns (r: seq<Candidate>)
    requires InRotation(s)
    ensures Ordered(r)
    ensures forall y :: y in r <==> y in s
  {
    r := [];
    for k := 0 to |s|
      invariant Ordered(r)
      invariant forall y :: y in r <==> y in s[..k]
    {
      forall i | 0 <= i < |r| ensures r[i].offset < s[k].offset {
        assert r[i] in s[..k];
      }
      assert s[..k + 1] == s[..k] + [s[k]];
      r := InsertStable(r, s[k]);
    }
    assert s[..|s|] == s;
  }

  // ---------------------------------------------------------------- the picker

  /** Candidate c stands for an eligible worker of group g. */
  predicate Stands(scan: Scan, c: Candidate, g: nat) {
    && c.offset < |scan.nodeIds| && scan.Eligible(c.offset)
    && scan.Group(c.offset) == g && scan.Load(c.offset) == c.inflight
  }

  /** The group holds exactly the eligible workers of group g among the first `upTo` visited, in that order. */
  predicate Gathered(scan: Scan, s: seq<Candidate>, g: nat, upTo: nat)
    requires upTo <= |scan.nodeIds|
  {
    && InRotation(s)
    && (forall c | c in s :: c.offset < upTo && Stands(scan, c, g))
    && (forall i | 0 <= i < upTo && scan.Eligible(i) && scan.Group(i) == g :: Candidate(i, scan.Load(i)) in s)
  }

  lemma GatherOne(scan: Scan, s: seq<Candidate>, g: nat, i: nat)
    requires i < |scan.nodeIds| && Gathered(scan, s, g, i)
    ensures scan.Eligible(i) && scan.Group(i) == g ==> Gathered(scan, s + [Candidate(i, scan.Load(i))], g, i + 1)
    ensures !(scan.Eligible(i) && scan.Group(i) == g) ==> Gathered(scan, s, g, i + 1)
  {
    forall k | 0 <= k < |s| ensures s[k].offset < i {
      assert s[k] in s;
    }
  }

  /** Scan once and sort the eligible workers into groups, in rotation order. */
  method Collect(scan: Scan) returns (groups: seq<seq<Candidate>>, hasSession: bool)
    ensures |groups| == 3 && forall g | 0 <= g < 3 :: Gathered(scan, groups[g], g, |scan.nodeIds|)
    ensures hasSession <==> exists i | 0 <= i < |scan.nodeIds| :: scan.Online(i)
  {
    groups, hasSession := [[], [], []], false;
    for i := 0 to |scan.nodeIds|
      invariant |groups| == 3 && forall g | 0 <= g < 3 :: Gathered(scan, groups[g], g, i)
      invariant hasSession <==> exists j | 0 <= j < i :: scan.Online(j)
    {
      forall g | 0 <= g < 3 {
        GatherOne(scan, groups[g], g, i);
      }
      var n := scan.NodeAt(i);
      if n in scan.excluded || n !in scan.workers || !scan.workers[n].ready || !scan.workers[n].supports {
        continue;
      }
      assert scan.Online(i);
      hasSession := true;
      if scan.workers[n].inflight >= scan.workers[n].maxInflight {
        continue;
      }
      var g := 0;
      if scan.capacityAware {
        if !scan.workers[n].capacityKnown {
          g := 1;
        } else if scan.workers[n].maxActiveSessions > 0 &&
            scan.workers[n].activeSessions >= scan.workers[n].maxActiveSessions {
          g := 2;
        }
      }
      groups := groups[g := groups[g] + [Candidate(i, scan.workers[n].inflight)]];
    }
  }

  /** `unwilling` are the workers whose last slot was taken between the snapshot and the attempt to
      take it; run without interference it is empty. The choice is the best willing worker, and the two
      failures are told apart by whether any usable worker was seen at all. */
  method Pick(scan: Scan, unwilling: set<NodeId>) returns (choice: Choice)
    ensures choice.Chosen? ==> scan.IsBest(choice.nodeId, unwilling) && choice.nodeId !in scan.excluded
    ensures choice.NoWorker? <==> forall i | 0 <= i < |scan.nodeIds| :: !scan.Online(i)
    ensures choice.NoCapacity? <==>
              (exists i | 0 <= i < |scan.nodeIds| :: scan.Online(i)) &&
              (forall i | 0 <= i < |scan.nodeIds| && scan.Eligible(i) :: scan.NodeAt(i) in unwilling)
  {
    if |scan.nodeIds| == 0 {
      return NoWorker;
    }
    var groups, hasSession := Collect(scan);
    for g := 0 to 3
      invariant forall i | 0 <= i < |scan.nodeIds| && scan.Eligible(i) && scan.Group(i) < g ::
          scan.NodeAt(i) in unwilling
    {
      var sorted := SortStable(groups[g]);
      for k := 0 to |sorted|
        invariant forall a | 0 <= a < k :: Stands(scan, sorted[a], g) && scan.NodeAt(sorted[a].offset) in unwilling
      {
        assert sorted[k] in sorted && sorted[k] in groups[g];
        var i := sorted[k].offset;
        if scan.NodeAt(i) in unwilling {
          continue;
        }
        forall j | 0 <= j < |scan.nodeIds| && scan.Eligible(j) && scan.NodeAt(j) !in unwilling && j != i
          ensures scan.Before(i, j)
        {
          if scan.Group(j) == g {
            var c := Candidate(j, scan.Load(j));
            assert c in groups[g] && c in sorted;
            var l :| 0 <= l < |sorted| && sorted[l] == c;
            assert Precedes(sorted[k], sorted[l]);
          }
        }
        assert scan.IsBest(scan.NodeAt(i), unwilling);
        return Chosen(scan.NodeAt(i));
      }
      forall i | 0 <= i < |scan.nodeIds| && scan.Eligible(i) && scan.Group(i) == g ensures scan.NodeAt(i) in unwilling {
        assert Candidate(i, scan.Load(i)) in groups[g];
        assert Candidate(i, scan.Load(i)) in sorted;
      }
    }
    return if hasSession then NoCapacity else NoWorker;
  }

  // ---------------------------------------------------------------- fairness

  /** Every node is eligible, in the same group and equally loaded. */
  predicate Even(scan: Scan) {
    && (forall i | 0 <= i < |scan.nodeIds| :: scan.Eligible(i))
    && (forall i, j | 0 <= i < |scan.nodeIds| && 0 <= j < |scan.nodeIds| ::
          scan.Group(i) == scan.Group(j) && scan.Load(i) == scan.Load(j))
  }

  /** Among equals the first node of the rotation is chosen. */
  lemma EvenChoice(scan: Scan, n: NodeId)
    requires scan.Valid() && Even(scan) && scan.IsBest(n, {})
    ensures n == scan.nodeIds[scan.start % |scan.nodeIds|]
  {
    forall k | 0 < k < |scan.nodeIds|
      ensures scan.Eligible(k) && scan.Eligible(0) && !scan.Before(k, 0)
    {
    }
    var i :| 0 <= i < |scan.nodeIds| && scan.Eligible(i) && scan.NodeAt(i) == n &&
             (forall j | 0 <= j < |scan.nodeIds| && scan.Eligible(j) && scan.NodeAt(j) !in {} && j != i ::
                 scan.Before(i, j));
  }

  /** Two picks fewer than n calls apart, over the same n evenly loaded workers, choose different ones;
      the loads may change between the two as long as they stay even. */
  lemma RoundRobinIsFair(a: Scan, b: Scan, m: NodeId, n: NodeId)
    requires a.Valid() && Even(a) && Even(b) && a.nodeIds == b.nodeIds
    requires a.start < b.start < a.start + |a.nodeIds|
    requires a.IsBest(m, {}) && b.IsBest(n, {})
    ensures m != n
  {
    EvenChoice(a, m);
    EvenChoice(b, n);
    ModDistinct(a.start, b.start - a.start, |a.nodeIds|);
    var x, y := a.start % |a.nodeIds|, b.start % |a.nodeIds|;
    assert x < y || y < x;
  }
}
