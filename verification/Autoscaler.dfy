/** The autoscaler: the lag it reads, the replicas it asks for, and the cooldown between scalings. */
module Autoscaler {
  import opened Common
  import opened CommitTracking
  import opened Delivery
  import opened DeliverySafety

  // ----- lag

  /** What the brokers answer for one partition: its end offset and the group's committed offset. */
  datatype Offsets = Offsets(end: Option<int>, committed: Option<int>)

  function PartitionLag(o: Offsets): nat {
    var high := if o.end.Some? then o.end.value else 0;
    var committed := if Known(o.committed) then o.committed.value else 0;
    Max(high - committed, 0)
  }

  function TotalLag(os: seq<Offsets>): nat {
    if os == [] then 0 else TotalLag(os[..|os| - 1]) + PartitionLag(os[|os| - 1])
  }

  /** `get_route_lag` */
  method GetRouteLag(os: seq<Offsets>) returns (lag: nat)
    ensures lag == TotalLag(os)
  {
    if os == [] {
      return 0;
    }
    lag := 0;
    for i := 0 to |os|
      invariant lag == TotalLag(os[..i])
    {
      var highWatermark := if os[i].end.Some? then os[i].end.value else 0;
      var committed := 0;
      if os[i].committed.Some? && os[i].committed.value >= 0 {
        committed := os[i].committed.value;
      }
      assert os[..i + 1][..i] == os[..i];
      lag := lag + Max(highWatermark - committed, 0);
    }
    assert os[..|os|] == os;
  }

  /** The offsets, by partition, from the committed one up to the end; a missing or negative number counts as 0. */
  ghost function Behind(os: seq<Offsets>): set<(nat, nat)> {
    set i: nat, k: nat | i < |os| && IsBehind(os[i], k) && k < EndOf(os[i]) :: (i, k)
  }

  predicate IsBehind(o: Offsets, k: nat) {
    && (o.end.Some? && k < o.end.value)
    && (o.committed.Some? ==> o.committed.value < 0 || o.committed.value <= k)
  }

  function EndOf(o: Offsets): int {
    if o.end.Some? then o.end.value else 0
  }

  ghost function Span(lo: nat, hi: int): (ks: set<nat>)
    ensures forall k: nat :: k in ks <==> lo <= k < hi
    ensures |ks| == Max(hi - lo, 0)
    decreases hi - lo
  {
    if lo < hi then {lo} + Span(lo + 1, hi) else {}
  }

  ghost function Tagged(i: nat, ks: set<nat>): set<(nat, nat)> {
    set k | k in ks :: (i, k)
  }

  lemma {:induction false} TaggedSize(i: nat, ks: set<nat>)
    ensures |Tagged(i, ks)| == |ks|
  {
    if ks == {} {
      assert Tagged(i, ks) == {};
    } else {
      var x :| x in ks;
      TaggedSize(i, ks - {x});
      assert (i, x) !in Tagged(i, ks - {x}) && Tagged(i, ks) == Tagged(i, ks - {x}) + {(i, x)};
    }
  }

  function StartOf(o: Offsets): nat {
    if o.committed.Some? && o.committed.value >= 0 then o.committed.value else 0
  }

  lemma BehindSnoc(os: seq<Offsets>)
    requires os != []
    ensures var n := |os| - 1;
      var last := Tagged(n, Span(StartOf(os[n]), EndOf(os[n])));
      Behind(os) == Behind(os[..n]) + last && Behind(os[..n]) !! last
  {
    var n := |os| - 1;
    var last := Tagged(n, Span(StartOf(os[n]), EndOf(os[n])));
    forall i: nat, k: nat ensures (i, k) in Behind(os) <==> (i, k) in Behind(os[..n]) || (i, k) in last {
      assert i < n ==> os[..n][i] == os[i];
    }
  }

  /** Whatever the brokers answer, the lag is the number of offsets behind, counted over all partitions. */
  lemma {:induction false} LagCountsOffsets(os: seq<Offsets>)
    ensures TotalLag(os) == |Behind(os)|
  {
    if os == [] {
      assert Behind(os) == {};
    } else {
      hide Behind, Tagged;
      var n := |os| - 1;
      LagCountsOffsets(os[..n]);
      BehindSnoc(os);
      TaggedSize(n, Span(StartOf(os[n]), EndOf(os[n])));
    }
  }

  /** What the brokers answer about a state of the delivery protocol. */
  function Observed(ps: seq<Partition>): seq<Offsets> {
    seq(|ps|, i requires 0 <= i < |ps| => Offsets(Some(|ps[i].log|), ps[i].view.committed))
  }

  ghost function UnresolvedIn(s: State, log: seq<Slot>): nat {
    if log == [] then 0
    else UnresolvedIn(s, log[..|log| - 1]) + (if Resolved(s, log[|log| - 1].msg) then 0 else 1)
  }

  ghost function Unresolved(s: State, ps: seq<Partition>): nat {
    if ps == [] then 0 else Unresolved(s, ps[..|ps| - 1]) + UnresolvedIn(s, ps[|ps| - 1].log)
  }

  lemma {:induction false} UnresolvedAboveCommitted(s: State, log: seq<Slot>, c: nat)
    requires forall off :: 0 <= off < |log| && off < c ==> Resolved(s, log[off].msg)
    ensures UnresolvedIn(s, log) <= Max(|log| - c, 0)
  {
    hide Resolved;
    if log != [] { UnresolvedAboveCommitted(s, log[..|log| - 1], c); }
  }

  lemma {:induction false} LagCovers(s: State, ps: seq<Partition>)
    requires forall p :: 0 <= p < |ps| ==> LocalInv(ps[p]) && ResolvedInv(s, ps[p])
    ensures Unresolved(s, ps) <= TotalLag(Observed(ps))
  {
    if ps != [] {
      hide Resolved, UnresolvedIn;
      var n := |ps| - 1;
      LagCovers(s, ps[..n]);
      assert Observed(ps)[..n] == Observed(ps[..n]);
      var pt := ps[n];
      assert LocalInv(pt) && ResolvedInv(s, pt);
      forall off | 0 <= off < |pt.log| && off < CommittedOf(pt) ensures Resolved(s, pt.log[off].msg) {
        assert Passable(pt, off);
      }
      UnresolvedAboveCommitted(s, pt.log, CommittedOf(pt));
    }
  }

  /** In every state that a disciplined run reaches, the lag is at least the number of unresolved messages. */
  lemma LagBoundsUnresolvedMessages(cfg: Config, s0: State, es: seq<Event>)
    requires cfg.Valid() && Initial(s0) && Legal(cfg, s0, es) && AllDisciplined(cfg, s0, es)
    ensures var s := Exec(cfg, s0, es); Unresolved(s, s.partitions) <= TotalLag(Observed(s.partitions))
  {
    InitialInv(cfg, s0);
    RunKeeps(cfg, s0, es);
    LagCovers(Exec(cfg, s0, es), Exec(cfg, s0, es).partitions);
  }

  /** The slots, by partition, at or above the committed offset. */
  ghost function Uncommitted(ps: seq<Partition>): set<(nat, nat)> {
    set p: nat, off: nat | p < |ps| && CommittedOf(ps[p]) <= off < |ps[p].log| :: (p, off)
  }

  /** On a state of the delivery protocol the lag is exactly the number of messages at or above the committed offset. */
  lemma LagCountsUncommitted(ps: seq<Partition>)
    ensures TotalLag(Observed(ps)) == |Uncommitted(ps)|
  {
    LagCountsOffsets(Observed(ps));
    forall p: nat, off: nat ensures (p, off) in Behind(Observed(ps)) <==> (p, off) in Uncommitted(ps) {
      if p < |ps| {
        assert IsBehind(Observed(ps)[p], off) <==> CommittedOf(ps[p]) <= off < |ps[p].log|;
      }
    }
    assert Behind(Observed(ps)) == Uncommitted(ps);
  }

  // ----- replicas

  /** The environment's limits; what does not parse falls back to 1 and 4. */
  datatype Limits = Limits(minReplicas: RawInt, maxReplicas: RawInt, lagPerReplica: int) {
    predicate Valid() { lagPerReplica >= 1 }

    function Least(): nat { Max(0, if minReplicas.Number? then minReplicas.n else 1) }

    function Most(): nat { Max(Least(), if maxReplicas.Number? then maxReplicas.n else 4) }
  }

  /** The environment's numbers are taken as they are, but none goes below 0 and the upper limit not below the lower. */
  lemma LimitsAreRead(l: Limits)
    ensures l.minReplicas.Number? && l.minReplicas.n >= 0 ==> l.Least() == l.minReplicas.n
    ensures l.minReplicas.Number? && l.minReplicas.n < 0 ==> l.Least() == 0
    ensures !l.minReplicas.Number? ==> l.Least() == 1
    ensures l.maxReplicas.Number? && l.maxReplicas.n >= l.Least() ==> l.Most() == l.maxReplicas.n
    ensures l.maxReplicas.Number? && l.maxReplicas.n < l.Least() ==> l.Most() == l.Least()
    ensures !l.maxReplicas.Number? && l.Least() <= 4 ==> l.Most() == 4
    ensures !l.maxReplicas.Number? && l.Least() > 4 ==> l.Most() == l.Least()
  {
  }

  function CeilDiv(a: int, b: int): int
    requires b >= 1
  {
    (a + b - 1) / b
  }

  function DesiredReplicas(l: Limits, lag: int): int
    requires l.Valid()
  {
    if lag <= 0 then l.Least() else Min(l.Most(), Max(l.Least(), CeilDiv(lag, l.lagPerReplica)))
  }

  /** `r` replicas take a lag. */
  predicate Covers(l: Limits, r: int, lag: int) {
    r * l.lagPerReplica >= lag
  }

  lemma CeilDivIsLeast(a: int, b: int, r: int)
    requires b >= 1
    ensures r >= CeilDiv(a, b) <==> r * b >= a
  {
    var q := CeilDiv(a, b);
    assert q * b <= a + b - 1 < (q + 1) * b by { DivBounds(a + b - 1, b); }
    if r >= q {
      Scale(q, r, b);
      assert q * b > a - 1 by { assert (q + 1) * b == q * b + b; }
    } else {
      Scale(r + 1, q, b);
      assert (r + 1) * b == r * b + b;
    }
  }

  lemma DivBounds(x: int, b: int)
    requires b >= 1
    ensures (x / b) * b <= x < (x / b + 1) * b
  {
    assert x == (x / b) * b + x % b;
    assert (x / b + 1) * b == (x / b) * b + b;
  }

  lemma Scale(x: int, y: int, b: int)
    requires x <= y && b >= 1
    ensures x * b <= y * b
  {
    assert (y - x) * b >= 0;
    assert y * b - x * b == (y - x) * b;
  }

  /**
   * The desired count is within the limits and is the least count there that covers the lag;
   * it stops at the upper limit exactly when no count within the limits covers it or the limit itself is the least.
   */
  lemma DesiredIsLeastCovering(l: Limits, lag: int, r: int)
    requires l.Valid() && l.Least() <= r <= l.Most()
    ensures l.Least() <= DesiredReplicas(l, lag) <= l.Most()
    ensures Covers(l, DesiredReplicas(l, lag), lag) <==> Covers(l, l.Most(), lag)
    ensures Covers(l, r, lag) ==> DesiredReplicas(l, lag) <= r
    ensures !Covers(l, l.Most(), lag) ==> DesiredReplicas(l, lag) == l.Most()
  {
    var d := DesiredReplicas(l, lag);
    CeilDivIsLeast(lag, l.lagPerReplica, r);
    CeilDivIsLeast(lag, l.lagPerReplica, d);
    CeilDivIsLeast(lag, l.lagPerReplica, l.Most());
    Scale(0, d, l.lagPerReplica);
    Scale(0, l.Most(), l.lagPerReplica);
  }

  lemma DesiredIsMonotone(l: Limits, lag: int, lag': int)
    requires l.Valid() && lag <= lag'
    ensures DesiredReplicas(l, lag) <= DesiredReplicas(l, lag')
  {
    var d' := DesiredReplicas(l, lag');
    DesiredIsLeastCovering(l, lag', d');
    DesiredIsLeastCovering(l, lag, d');
  }

  // ----- cooldown

  /** One route's evaluation: the service, what runs and what is wanted, and the clock reading. */
  datatype Tick = Tick(service: string, current: int, desired: int, now: real)

  predicate Scales(cooldown: real, last: map<string, real>, t: Tick) {
    t.desired != t.current
    && cooldown - (t.now - (if t.service in last then last[t.service] else 0.0)) <= 0.0
  }

  function Noted(cooldown: real, last: map<string, real>, t: Tick): map<string, real> {
    if Scales(cooldown, last, t) then last[t.service := t.now] else last
  }

  class Scaler {
    const cooldown: real
    var lastScaledAt: map<string, real>

    constructor (cooldown: real)
      ensures this.cooldown == cooldown && lastScaledAt == map[]
    {
      this.cooldown := cooldown;
      lastScaledAt := map[];
    }

    /** The body of `run_autoscaler`'s loop over routes. */
    method Evaluate(t: Tick) returns (scaled: bool)
      modifies this
      ensures scaled ==> t.desired != t.current && t.service in lastScaledAt && lastScaledAt[t.service] == t.now
      ensures scaled && t.service in old(lastScaledAt) ==> t.now >= old(lastScaledAt)[t.service] + cooldown
      ensures !scaled ==> lastScaledAt == old(lastScaledAt)
      ensures !scaled && t.desired != t.current ==>
        if t.service in lastScaledAt then t.now < lastScaledAt[t.service] + cooldown else t.now < cooldown
      ensures forall service :: service != t.service ==>
        && (service in lastScaledAt <==> service in old(lastScaledAt))
        && (service in lastScaledAt ==> lastScaledAt[service] == old(lastScaledAt)[service])
      ensures scaled == Scales(cooldown, old(lastScaledAt), t) && lastScaledAt == Noted(cooldown, old(lastScaledAt), t)
    {
      var since := if t.service in lastScaledAt then lastScaledAt[t.service] else 0.0;
      var cooldownRemaining := cooldown - (t.now - since);
      scaled := false;
      if t.desired != t.current && cooldownRemaining <= 0.0 {
        lastScaledAt := lastScaledAt[t.service := t.now];
        scaled := true;
      }
    }
  }

  function LastAfter(cooldown: real, ts: seq<Tick>): map<string, real> {
    if ts == [] then map[]
    else Noted(cooldown, LastAfter(cooldown, ts[..|ts| - 1]), ts[|ts| - 1])
  }

  predicate ScalesAt(cooldown: real, ts: seq<Tick>, i: nat)
    requires i < |ts|
  {
    Scales(cooldown, LastAfter(cooldown, ts[..i]), ts[i])
  }

  lemma {:induction false} LastIsLatest(cooldown: real, ts: seq<Tick>, i: nat)
    requires cooldown >= 0.0 && i < |ts| && ScalesAt(cooldown, ts, i)
    ensures ts[i].service in LastAfter(cooldown, ts) && ts[i].now <= LastAfter(cooldown, ts)[ts[i].service]
  {
    var n := |ts| - 1;
    if i < n {
      assert ts[..n][..i] == ts[..i];
      LastIsLatest(cooldown, ts[..n], i);
    }
  }

  /**
   * Two scalings of one service are at least the cooldown apart by the clock that decided them,
   * even if that clock was set back in between.
   */
  lemma ScalingsAreApart(cooldown: real, ts: seq<Tick>, i: nat, j: nat)
    requires cooldown >= 0.0 && i < j < |ts| && ts[i].service == ts[j].service
    requires ScalesAt(cooldown, ts, i) && ScalesAt(cooldown, ts, j)
    ensures ts[j].now - ts[i].now >= cooldown
  {
    assert ts[..j][..i] == ts[..i];
    LastIsLatest(cooldown, ts[..j], i);
  }

  /** The noted time of a service is that of its latest scaling, if it has had one. */
  lemma {:induction false} NotedIsAScaling(cooldown: real, ts: seq<Tick>, service: string) returns (i: nat)
    ensures service in LastAfter(cooldown, ts) ==>
      i < |ts| && ts[i].service == service && ScalesAt(cooldown, ts, i) && ts[i].now == LastAfter(cooldown, ts)[service]
    ensures service !in LastAfter(cooldown, ts) ==>
      forall k :: 0 <= k < |ts| && ts[k].service == service ==> !ScalesAt(cooldown, ts, k)
  {
    i := 0;
    if ts != [] {
      var n := |ts| - 1;
      forall k | 0 <= k < n ensures ScalesAt(cooldown, ts, k) == ScalesAt(cooldown, ts[..n], k) {
        assert ts[..n][..k] == ts[..k];
      }
      if ts[n].service == service && ScalesAt(cooldown, ts, n) {
        i := n;
      } else {
        i := NotedIsAScaling(cooldown, ts[..n], service);
      }
    }
  }

  /**
   * A service is scaled exactly when its count is off and the cooldown has passed since every earlier scaling of it,
   * or, when it had none, since the clock's zero.
   */
  lemma ScalesExactlyWhenCooledDown(cooldown: real, ts: seq<Tick>, j: nat)
    requires cooldown >= 0.0 && j < |ts|
    ensures ScalesAt(cooldown, ts, j) <==>
      && ts[j].desired != ts[j].current
      && ((forall i :: 0 <= i < j && ts[i].service == ts[j].service ==> !ScalesAt(cooldown, ts, i)) ==>
        ts[j].now >= cooldown)
      && forall i :: 0 <= i < j && ts[i].service == ts[j].service && ScalesAt(cooldown, ts, i) ==>
        ts[j].now - ts[i].now >= cooldown
  {
    var k := NotedIsAScaling(cooldown, ts[..j], ts[j].service);
    forall i | 0 <= i < j ensures ScalesAt(cooldown, ts[..j], i) == ScalesAt(cooldown, ts, i) {
      assert ts[..j][..i] == ts[..i];
    }
    if ScalesAt(cooldown, ts, j) {
      forall i | 0 <= i < j && ts[i].service == ts[j].service && ScalesAt(cooldown, ts, i)
        ensures ts[j].now - ts[i].now >= cooldown
      {
        ScalingsAreApart(cooldown, ts, i, j);
      }
    }
  }
}
