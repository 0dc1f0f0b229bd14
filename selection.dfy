/** The balancer's four selection algorithms, each as one step on the list of
    healthy candidates of a type and that type's counter, and what a run of
    consecutive steps does on a stable list. */
module Selection {
  import opened Common
  import opened Instances

  datatype Algorithm = RoundRobin | LeastConnections | WeightedRoundRobin | ResponseTime

  /** The error `get_agent` raises when weighted round-robin sees a total weight of 0. */
  const ModuloByZero: string := "integer modulo by zero"

  // ---------------------------------------------------------------------------
  // Modular arithmetic used by the counters

  /** Euclidean division is unique: a quotient and an in-range remainder determine `%` and `/`. */
  lemma ModUnique(n: int, k: int, q: int, r: int)
    requires k > 0 && 0 <= r < k && n == q * k + r
    ensures n % k == r && n / k == q
  {
    var q', r' := n / k, n % k;
    assert n == q' * k + r';
    assert (q - q') * k == r' - r;
    if q - q' >= 1 {
      assert false;
    } else if q - q' <= -1 {
      assert false;
    }
  }

  /** Adding to the dividend commutes with reducing it first. */
  lemma ModShift(a: nat, b: nat, k: nat)
    requires k > 0
    ensures (a % k + b) % k == (a + b) % k
  {
    var x := a % k + b;
    ModUnique(a + b, k, a / k + x / k, x % k);
  }

  /** `k` consecutive values from `c` taken modulo `k` walk the positions from `c mod k` and wrap once. */
  lemma RotationIndex(c: nat, k: nat, j: nat)
    requires j < k
    ensures (c + j) % k == if c % k + j < k then c % k + j else c % k + j - k
  {
    if c % k + j < k {
      ModUnique(c + j, k, c / k, c % k + j);
    } else {
      ModUnique(c + j, k, c / k + 1, c % k + j - k);
    }
  }

  /** A multiple of `b` leaves no remainder, whatever the sign of `b`. */
  lemma MultipleMod(q: int, b: int)
    requires b != 0
    ensures (q * b) % b == 0
  {
    var n := q * b;
    var k := if b > 0 then b else -b;
    var q' := if b > 0 then q else -q;
    assert n == q' * k;
    ModUnique(n, k, q', 0);
    var r := n % b;
    assert n == (n / b) * b + r && 0 <= r < k;
    assert n == (if b > 0 then n / b else -(n / b)) * k + r;
    ModUnique(n, k, if b > 0 then n / b else -(n / b), r);
  }

  /** The floored remainder differs from the dividend by a multiple of the divisor. */
  lemma FlooredRemainder(a: int, b: int)
    requires b != 0
    ensures (a - (if b > 0 || a % b == 0 then a % b else a % b + b)) % b == 0
  {
    var e := a % b;
    assert a == (a / b) * b + e;
    if b > 0 || e == 0 {
      assert a - e == (a / b) * b;
      MultipleMod(a / b, b);
    } else {
      assert a - (e + b) == (a / b - 1) * b;
      MultipleMod(a / b - 1, b);
    }
  }

  /** Python's `%`: floored, so the remainder takes the sign of the divisor. */
  function PyMod(a: int, b: int): (r: int)
    requires b != 0
    ensures b > 0 ==> r == a % b
    ensures b > 0 ==> 0 <= r < b
    ensures b < 0 ==> b < r <= 0
    ensures (a - r) % b == 0
  {
    FlooredRemainder(a, b);
    var e := a % b;
    if b > 0 || e == 0 then e else e + b
  }

  /** `s` read from position `m`, wrapping around to the front. */
  function Rotate<T>(s: seq<T>, m: nat): seq<T>
    requires m <= |s|
  {
    s[m..] + s[..m]
  }

  lemma RotatePermutes<T>(s: seq<T>, m: nat)
    requires m <= |s|
    ensures multiset(Rotate(s, m)) == multiset(s)
  {
    assert s == s[..m] + s[m..];
  }

  /** `0, 1, ..., k - 1`. */
  function Range(k: nat): (r: seq<nat>)
    ensures |r| == k
    ensures forall i :: 0 <= i < k ==> r[i] == i
  {
    seq(k, i => i)
  }

  lemma {:induction false} RangeCounts(k: nat)
    ensures forall i :: 0 <= i < k ==> multiset(Range(k))[i] == 1
    ensures forall i :: i >= k ==> multiset(Range(k))[i] == 0
  {
    if k > 0 {
      RangeCounts(k - 1);
      assert Range(k) == Range(k - 1) + [k - 1];
    } else {
      assert multiset(Range(0)) == multiset{};
    }
  }

  // ---------------------------------------------------------------------------
  // Round-robin

  /** Round-robin over `k` candidates: pick `counter mod k`; the stored counter becomes the
      position after the picked one, cyclically. */
  function RoundRobinStep(counter: nat, k: nat): (r: (nat, nat))
    requires k > 0
    ensures r.0 == counter % k
    ensures r.0 < k && r.1 < k
    ensures r.1 == (r.0 + 1) % k
  {
    ModShift(counter, 1, k);
    (counter % k, (counter + 1) % k)
  }

  /** The positions picked by `n` consecutive round-robin steps from `counter` on a stable list of `k`. */
  function RoundRobinPicks(counter: nat, k: nat, n: nat): seq<nat>
    requires k > 0
    decreases n
  {
    if n == 0 then []
    else
      var step := RoundRobinStep(counter, k);
      [step.0] + RoundRobinPicks(step.1, k, n - 1)
  }

  lemma {:induction false} RoundRobinPicksAt(counter: nat, k: nat, n: nat)
    requires k > 0
    decreases n
    ensures |RoundRobinPicks(counter, k, n)| == n
    ensures forall j :: 0 <= j < n ==> RoundRobinPicks(counter, k, n)[j] == (counter + j) % k
  {
    if n > 0 {
      var next := (counter + 1) % k;
      RoundRobinPicksAt(next, k, n - 1);
      forall j | 0 <= j < n
        ensures RoundRobinPicks(counter, k, n)[j] == (counter + j) % k
      {
        if j > 0 {
          ModShift(counter + 1, j - 1, k);
        }
      }
    }
  }

  /** Over `k` consecutive calls on a stable list of `k` candidates, whatever the counter
      held before, every candidate is picked exactly once. */
  lemma {:induction false} RoundRobinFair(counter: nat, k: nat)
    requires k > 0
    ensures |RoundRobinPicks(counter, k, k)| == k
    ensures forall i :: 0 <= i < k ==> multiset(RoundRobinPicks(counter, k, k))[i] == 1
  {
    var picks := RoundRobinPicks(counter, k, k);
    RoundRobinPicksAt(counter, k, k);
    var rotated := Rotate(Range(k), counter % k);
    forall j | 0 <= j < k
      ensures picks[j] == rotated[j]
    {
      RotationIndex(counter, k, j);
    }
    assert picks == rotated;
    RotatePermutes(Range(k), counter % k);
    RangeCounts(k);
  }

  // ---------------------------------------------------------------------------
  // Weighted round-robin

  function Weights(cands: seq<AgentInstance>): (ws: seq<int>)
    ensures |ws| == |cands|
    ensures forall i :: 0 <= i < |cands| ==> ws[i] == cands[i].weight
  {
    seq(|cands|, i requires 0 <= i < |cands| => cands[i].weight)
  }

  /** The running total of the weights up to and including position `j`. */
  function RunningTotal(ws: seq<int>, j: nat): int
    requires j < |ws|
  {
    Sum(ws[..j + 1])
  }

  lemma RunningTotalsCons(ws: seq<int>)
    requires ws != []
    ensures RunningTotal(ws, 0) == ws[0]
    ensures forall j :: 0 < j < |ws| ==> RunningTotal(ws, j) == ws[0] + RunningTotal(ws[1..], j - 1)
  {
    assert ws[..1] == [ws[0]];
    assert ws[..1][1..] == [];
    assert Sum(ws[..1]) == ws[0] + Sum(ws[..1][1..]);
    forall j | 0 < j < |ws|
      ensures RunningTotal(ws, j) == ws[0] + RunningTotal(ws[1..], j - 1)
    {
      assert ws[..j + 1][1..] == ws[1..][..j];
    }
  }

  /** The weight band holding `target`: the first position at which the running total of
      the weights exceeds `target`, or none when no running total does. */
  function Band(ws: seq<int>, target: int): (r: Option<nat>)
    ensures r.Some? ==> r.value < |ws| && target < RunningTotal(ws, r.value)
    ensures r.Some? ==> forall j :: 0 <= j < r.value ==> RunningTotal(ws, j) <= target
    ensures r.None? ==> forall j :: 0 <= j < |ws| ==> RunningTotal(ws, j) <= target
  {
    if ws == [] then None
    else
      RunningTotalsCons(ws);
      if target < ws[0] then Some(0)
      else
        match Band(ws[1..], target - ws[0])
        case Some(b) => Some(b + 1)
        case None => None
  }

  /** A target below the total weight always falls in some band. */
  lemma BandFound(ws: seq<int>, target: int)
    ensures 0 <= target < Sum(ws) ==> Band(ws, target).Some?
  {
    if 0 <= target < Sum(ws) && Band(ws, target).None? {
      assert ws[..|ws| - 1 + 1] == ws;
    }
  }

  /** The position the weighted loop returns, with the first candidate as the fallback. */
  function BandIndex(ws: seq<int>, target: int): nat
  {
    match Band(ws, target)
    case Some(b) => b
    case None => 0
  }

  /** Weighted round-robin over candidates with weights `ws`: the target is the counter modulo the
      total weight; the band holding it is picked and the counter advances by one, without wrapping.
      A zero total raises; the fallback (first candidate, counter kept) is taken only when the
      total is negative. */
  function WeightedStep(ws: seq<int>, counter: nat): (r: Result<(nat, nat), string>)
    requires |ws| > 0
    ensures r.Err? <==> Sum(ws) == 0
    ensures r.Ok? ==> r.value.0 < |ws|
    ensures Sum(ws) > 0 ==> r.Ok? && r.value.1 == counter + 1
    ensures r.Ok? ==> r.value.1 == counter + 1 || (r.value == (0, counter) && Sum(ws) < 0)
  {
    var total := Sum(ws);
    if total == 0 then Err(ModuloByZero)
    else
      var target := PyMod(counter, total);
      BandFound(ws, target);
      match Band(ws, target)
      case Some(b) => Ok((b, counter + 1))
      case None => Ok((0, counter))
  }

  /** The positions picked by `n` consecutive weighted steps from `counter` on a stable list. */
  function WeightedPicks(ws: seq<int>, counter: nat, n: nat): seq<nat>
    requires |ws| > 0 && Sum(ws) > 0
    decreases n
  {
    if n == 0 then []
    else
      var step := WeightedStep(ws, counter).value;
      [step.0] + WeightedPicks(ws, step.1, n - 1)
  }

  lemma {:induction false} WeightedPicksAt(ws: seq<int>, counter: nat, n: nat)
    requires |ws| > 0 && Sum(ws) > 0
    decreases n
    ensures |WeightedPicks(ws, counter, n)| == n
    ensures forall j :: 0 <= j < n ==> WeightedPicks(ws, counter, n)[j] == BandIndex(ws, (counter + j) % Sum(ws))
  {
    if n > 0 {
      WeightedPicksAt(ws, counter + 1, n - 1);
    }
  }

  predicate NonNegative(ws: seq<int>)
  {
    forall i :: 0 <= i < |ws| ==> ws[i] >= 0
  }

  /** `s` with every element one larger. */
  function Shifted(s: seq<nat>): (r: seq<nat>)
    ensures |r| == |s|
    ensures forall i :: 0 <= i < |s| ==> r[i] == s[i] + 1
  {
    seq(|s|, i requires 0 <= i < |s| => s[i] + 1)
  }

  /** Shifting moves every count up by one value: nothing occurs as 0 afterwards. */
  lemma {:induction false} ShiftedCountAt(s: seq<nat>, x: nat)
    ensures multiset(Shifted(s))[x] == if x == 0 then 0 else multiset(s)[x - 1]
  {
    if s != [] {
      var init: seq<nat> := s[..|s| - 1];
      var last := s[|s| - 1];
      ShiftedCountAt(init, x);
      ShiftedSnoc(s);
      ShiftedCountStep(Shifted(init), init, last, x);
    }
  }

  /** Shifting a non-empty sequence shifts its front and appends its shifted last element. */
  lemma ShiftedSnoc(s: seq<nat>)
    requires s != []
    ensures s == s[..|s| - 1] + [s[|s| - 1]]
    ensures Shifted(s) == Shifted(s[..|s| - 1]) + [s[|s| - 1] + 1]
  {
    var init := s[..|s| - 1];
    assert forall i :: 0 <= i < |init| ==> init[i] == s[i];
  }

  /** Appending `v + 1` to one sequence and `v` to another keeps the counts of the first one
      value above those of the second. */
  lemma ShiftedCountStep(shifted: seq<nat>, s: seq<nat>, v: nat, x: nat)
    requires multiset(shifted)[x] == if x == 0 then 0 else multiset(s)[x - 1]
    ensures multiset(shifted + [v + 1])[x] == if x == 0 then 0 else multiset(s + [v])[x - 1]
  {
    CountSnoc(shifted, v + 1, x);
    if x > 0 {
      CountSnoc(s, v, x - 1);
    }
  }

  /** Appending `v` adds one occurrence of `v` and none of anything else. */
  lemma CountSnoc(a: seq<nat>, v: nat, x: nat)
    ensures multiset(a + [v])[x] == multiset(a)[x] + if v == x then 1 else 0
  {
    assert multiset(a + [v]) == multiset(a) + multiset{v};
  }

  lemma ShiftedCounts(s: seq<nat>)
    ensures multiset(Shifted(s))[0] == 0
    ensures forall x: nat :: x > 0 ==> multiset(Shifted(s))[x] == multiset(s)[x - 1]
  {
    ShiftedCountAt(s, 0);
    forall x: nat | x > 0
      ensures multiset(Shifted(s))[x] == multiset(s)[x - 1]
    {
      ShiftedCountAt(s, x);
    }
  }

  /** `w` zeros. */
  function Zeros(w: nat): (r: seq<nat>)
    ensures |r| == w
  {
    seq(w, _ => 0)
  }

  lemma {:induction false} ZerosCounts(w: nat)
    ensures multiset(Zeros(w))[0] == w
    ensures forall x: nat :: x != 0 ==> multiset(Zeros(w))[x] == 0
  {
    if w > 0 {
      ZerosCounts(w - 1);
      assert Zeros(w) == Zeros(w - 1) + [0];
    } else {
      assert Zeros(w) == [];
    }
  }

  /** Every position repeated as many times as its weight, in list order: what one full
      weighted cycle from counter 0 picks. */
  function Expand(ws: seq<int>): (r: seq<nat>)
    requires NonNegative(ws)
    ensures |r| == Sum(ws)
  {
    if ws == [] then []
    else Zeros(ws[0]) + Shifted(Expand(ws[1..]))
  }

  lemma {:induction false} ExpandAt(ws: seq<int>, t: nat)
    requires NonNegative(ws) && t < Sum(ws)
    ensures Expand(ws)[t] == BandIndex(ws, t)
  {
    if t >= ws[0] {
      ExpandAt(ws[1..], t - ws[0]);
      BandFound(ws[1..], t - ws[0]);
    }
  }

  lemma {:induction false} ExpandCounts(ws: seq<int>)
    requires NonNegative(ws)
    ensures forall i :: 0 <= i < |ws| ==> multiset(Expand(ws))[i] == ws[i]
    ensures forall x :: x >= |ws| ==> multiset(Expand(ws))[x] == 0
  {
    if ws != [] {
      var rest: seq<nat> := Expand(ws[1..]);
      var restCounts: multiset<nat> := multiset(rest);
      ExpandCounts(ws[1..]);
      ShiftedCounts(rest);
      ZerosCounts(ws[0]);
      assert Expand(ws) == Zeros(ws[0]) + Shifted(rest);
      forall x: nat | x >= |ws|
        ensures multiset(Expand(ws))[x] == 0
      {
        assert multiset(Shifted(rest))[x] == restCounts[x - 1];
      }
      forall i | 0 <= i < |ws|
        ensures multiset(Expand(ws))[i] == ws[i]
      {
        if i > 0 {
          assert multiset(Shifted(rest))[i] == restCounts[i - 1];
        }
      }
    } else {
      assert Expand(ws) == [];
    }
  }

  /** Over `W` consecutive calls on a stable list whose weights are non-negative and total
      `W > 0`, whatever the counter held before, every candidate is picked exactly as many
      times as its weight (a zero-weight candidate never). */
  lemma {:induction false} WeightedFair(ws: seq<int>, counter: nat)
    requires |ws| > 0 && NonNegative(ws) && Sum(ws) > 0
    ensures |WeightedPicks(ws, counter, Sum(ws))| == Sum(ws)
    ensures forall i :: 0 <= i < |ws| ==> multiset(WeightedPicks(ws, counter, Sum(ws)))[i] == ws[i]
    ensures forall x :: x >= |ws| ==> multiset(WeightedPicks(ws, counter, Sum(ws)))[x] == 0
  {
    var total := Sum(ws);
    var picks := WeightedPicks(ws, counter, total);
    var expanded := Expand(ws);
    WeightedPicksAt(ws, counter, total);
    var rotated := Rotate(expanded, counter % total);
    forall j | 0 <= j < total
      ensures picks[j] == rotated[j]
    {
      RotationIndex(counter, total, j);
      ExpandAt(ws, (counter + j) % total);
    }
    assert picks == rotated;
    RotatePermutes(expanded, counter % total);
    ExpandCounts(ws);
  }

  /** Three candidates weighted 3, 2, 2: seven consecutive calls pick the first three
      times and each of the others twice. */
  lemma WeightedExample(counter: nat)
    ensures var picks := WeightedPicks([3, 2, 2], counter, 7);
      |picks| == 7 && multiset(picks)[0] == 3 && multiset(picks)[1] == 2 && multiset(picks)[2] == 2
  {
    var ws := [3, 2, 2];
    assert Sum(ws) == 7;
    WeightedFair(ws, counter);
  }

  // ---------------------------------------------------------------------------
  // Least-connections and response-time: Python's `min` with a key

  /** The first position holding the least key, as `min(..., key=...)` scans left to right. */
  function FirstMinIndex(keys: seq<real>): (i: nat)
    requires |keys| > 0
    ensures i < |keys|
    ensures forall j :: 0 <= j < |keys| ==> keys[i] <= keys[j]
    ensures forall j :: 0 <= j < i ==> keys[i] < keys[j]
  {
    if |keys| == 1 then 0
    else
      var m := FirstMinIndex(keys[..|keys| - 1]);
      if keys[|keys| - 1] < keys[m] then |keys| - 1 else m
  }

  function ConnectionKeys(cands: seq<AgentInstance>): (keys: seq<real>)
    ensures |keys| == |cands|
    ensures forall i :: 0 <= i < |cands| ==> keys[i] == cands[i].activeConnections as real
  {
    seq(|cands|, i requires 0 <= i < |cands| => cands[i].activeConnections as real)
  }

  function ResponseTimeKeys(cands: seq<AgentInstance>): (keys: seq<real>)
    ensures |keys| == |cands|
    ensures forall i :: 0 <= i < |cands| ==> keys[i] == AvgResponseTime(cands[i])
  {
    seq(|cands|, i requires 0 <= i < |cands| => AvgResponseTime(cands[i]))
  }

  // ---------------------------------------------------------------------------
  // Dispatch on the active algorithm

  /** One selection on the healthy candidates of a type: the picked position and the type's
      new counter. Only weighted round-robin can fail, and only on a zero total weight. */
  function Select(algorithm: Algorithm, cands: seq<AgentInstance>, counter: nat): (r: Result<(nat, nat), string>)
    requires |cands| > 0
    ensures r.Ok? ==> r.value.0 < |cands|
    ensures r.Err? <==> algorithm == WeightedRoundRobin && Sum(Weights(cands)) == 0
    ensures algorithm == LeastConnections || algorithm == ResponseTime ==> r.Ok? && r.value.1 == counter
  {
    match algorithm
    case RoundRobin => Ok(RoundRobinStep(counter, |cands|))
    case LeastConnections => Ok((FirstMinIndex(ConnectionKeys(cands)), counter))
    case WeightedRoundRobin => WeightedStep(Weights(cands), counter)
    case ResponseTime => Ok((FirstMinIndex(ResponseTimeKeys(cands)), counter))
  }

  /** Least-connections picks the first candidate with the fewest active connections. */
  lemma LeastConnectionsPicksMinimum(cands: seq<AgentInstance>, counter: nat)
    requires |cands| > 0
    ensures var r := Select(LeastConnections, cands, counter);
      && r.Ok?
      && (forall j :: 0 <= j < |cands| ==> cands[r.value.0].activeConnections <= cands[j].activeConnections)
      && (forall j :: 0 <= j < r.value.0 ==> cands[r.value.0].activeConnections < cands[j].activeConnections)
  {
    var keys := ConnectionKeys(cands);
    var i := FirstMinIndex(keys);
    forall j | 0 <= j < |cands|
      ensures cands[i].activeConnections <= cands[j].activeConnections
    {
      assert keys[i] <= keys[j];
    }
    forall j | 0 <= j < i
      ensures cands[i].activeConnections < cands[j].activeConnections
    {
      assert keys[i] < keys[j];
    }
  }

  /** Response-time picks the first candidate with the lowest mean response time. */
  lemma ResponseTimePicksMinimum(cands: seq<AgentInstance>, counter: nat)
    requires |cands| > 0
    ensures var r := Select(ResponseTime, cands, counter);
      && r.Ok?
      && (forall j :: 0 <= j < |cands| ==> AvgResponseTime(cands[r.value.0]) <= AvgResponseTime(cands[j]))
      && (forall j :: 0 <= j < r.value.0 ==> AvgResponseTime(cands[r.value.0]) < AvgResponseTime(cands[j]))
  {
    var keys := ResponseTimeKeys(cands);
    var i := FirstMinIndex(keys);
    assert forall j :: 0 <= j < |cands| ==> keys[j] == AvgResponseTime(cands[j]);
  }
}
