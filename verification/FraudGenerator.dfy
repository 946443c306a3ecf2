/** The transaction generator of the fraud workshop: it emits a transaction per tick, and
    a fraudulent one as well whenever a countdown, drawn at random, has run out. */
module FraudGenerator {
  import opened Wrappers

  /** One trigger: the number that `randint` would give, and whether the session commits. */
  datatype Tick = Tick(draw: int, commits: bool)

  predicate Expired(countdown: Option<int>) {
    countdown.None? || countdown.value <= 0
  }

  function Next(countdown: Option<int>, draw: int): Option<int> {
    if Expired(countdown) then Some(draw) else Some(countdown.value - 1)
  }

  /** The countdown after the first `n` ticks. */
  function Countdown(ticks: seq<Tick>, n: nat): Option<int>
    requires n <= |ticks|
  {
    if n == 0 then None else Next(Countdown(ticks, n - 1), ticks[n - 1].draw)
  }

  /** Tick `i` brings a fraudulent transaction. */
  predicate FraudAt(ticks: seq<Tick>, i: nat)
    requires i < |ticks|
  {
    Expired(Countdown(ticks, i + 1))
  }

  function Frauds(ticks: seq<Tick>, n: nat): nat
    requires n <= |ticks|
  {
    if n == 0 then 0 else Frauds(ticks, n - 1) + if FraudAt(ticks, n - 1) then 1 else 0
  }

  /** Transactions that leave the processor in the first `n` ticks: those rolled back do not. */
  function Emitted(ticks: seq<Tick>, n: nat): nat
    requires n <= |ticks|
  {
    if n == 0 then 0
    else Emitted(ticks, n - 1) + if !ticks[n - 1].commits then 0 else if FraudAt(ticks, n - 1) then 2 else 1
  }

  class Processor {
    var countdown: Option<int>

    constructor ()
      ensures countdown == None
    {
      countdown := None;
    }

    /** `raised` is set when randint is asked for a number from an empty range. */
    method UpdateFraudCountdown(min: int, max: int, draw: int) returns (raised: bool)
      requires min <= max ==> min <= draw <= max
      modifies this
      ensures raised <==> Expired(old(countdown)) && max < min
      ensures countdown == if raised then old(countdown) else Next(old(countdown), draw)
    {
      raised := false;
      if countdown.None? || countdown.value <= 0 {
        if max < min {
          return true;
        }
        countdown := Some(draw);
      } else if countdown.value > 0 {
        countdown := Some(countdown.value - 1);
      }
    }

    method OnTrigger(min: int, max: int, tick: Tick) returns (raised: bool, emitted: nat)
      requires min <= max ==> min <= tick.draw <= max
      modifies this
      ensures raised <==> Expired(old(countdown)) && max < min
      ensures countdown == if raised then old(countdown) else Next(old(countdown), tick.draw)
      ensures emitted == if raised || !tick.commits then 0 else if Expired(countdown) then 2 else 1
    {
      emitted := 0;
      raised := UpdateFraudCountdown(min, max, tick.draw);
      if raised {
        return;
      }
      var pending := 1;
      if countdown.value <= 0 {
        pending := pending + 1;
      }
      if tick.commits {
        emitted := pending;
      }
    }

    /** A run of the processor. */
    method Run(min: int, max: int, ticks: seq<Tick>) returns (emitted: nat)
      requires countdown == None && min <= max
      requires forall i :: 0 <= i < |ticks| ==> min <= ticks[i].draw <= max
      modifies this
      ensures countdown == Countdown(ticks, |ticks|) && emitted == Emitted(ticks, |ticks|)
    {
      emitted := 0;
      for i := 0 to |ticks|
        invariant countdown == Countdown(ticks, i) && emitted == Emitted(ticks, i)
      {
        var raised, more := OnTrigger(min, max, ticks[i]);
        emitted := emitted + more;
      }
    }
  }

  function Positive(x: int): nat {
    if x > 0 then x else 0
  }

  ghost predicate DrawnFrom(ticks: seq<Tick>, min: int, max: int) {
    min <= max && forall i :: 0 <= i < |ticks| ==> min <= ticks[i].draw <= max
  }

  /** Once the countdown has expired, it is drawn anew and counts down to the next fraud. */
  lemma {:induction false} CountsDown(ticks: seq<Tick>, i: nat, m: nat)
    requires i < |ticks| && Expired(Countdown(ticks, i))
    requires m <= Positive(ticks[i].draw) && i + m < |ticks|
    ensures Countdown(ticks, i + 1 + m) == Some(ticks[i].draw - m)
  {
    if m > 0 {
      CountsDown(ticks, i, m - 1);
    }
  }

  /** Tick `j` brings the first fraud from tick `i` on, which is the first tick of all or
      the one after a fraud. */
  ghost predicate Gap(ticks: seq<Tick>, i: nat, j: nat) {
    && i <= j < |ticks| && (i > 0 ==> FraudAt(ticks, i - 1))
    && FraudAt(ticks, j) && forall k :: i <= k < j ==> !FraudAt(ticks, k)
  }

  /** After a fraud (or at the start) the next one comes exactly one tick later than the
      number drawn, so that frauds are min + 1 to max + 1 ticks apart. */
  lemma NextFraud(ticks: seq<Tick>, i: nat, j: nat, min: int, max: int)
    requires DrawnFrom(ticks, min, max) && Gap(ticks, i, j)
    ensures j == i + Positive(ticks[i].draw)
    ensures Positive(min) + 1 <= j + 1 - i <= Positive(max) + 1
  {
    var d := Positive(ticks[i].draw);
    if j < i + d {
      CountsDown(ticks, i, j - i);
    } else {
      CountsDown(ticks, i, d);
      assert FraudAt(ticks, i + d);
    }
  }

  /** The bounds that hold after each tick. */
  ghost predicate Bounded(min: nat, max: nat, n: nat, frauds: nat, countdown: Option<int>) {
    if Expired(countdown) then frauds * (min + 1) <= n <= frauds * (max + 1)
    else
      && frauds * (min + 1) + min + 1 <= n + countdown.value <= frauds * (max + 1) + max + 1
      && frauds * (min + 1) <= n
  }

  lemma Distribute(f: nat, x: nat)
    ensures (f + 1) * (x + 1) == f * (x + 1) + x + 1
  {
  }

  lemma {:induction false} StaysBounded(ticks: seq<Tick>, n: nat, min: int, max: int)
    requires DrawnFrom(ticks, min, max) && n <= |ticks|
    ensures Bounded(Positive(min), Positive(max), n, Frauds(ticks, n), Countdown(ticks, n))
  {
    if n > 0 {
      StaysBounded(ticks, n - 1, min, max);
      Distribute(Frauds(ticks, n - 1), Positive(min));
      Distribute(Frauds(ticks, n - 1), Positive(max));
      assert min <= ticks[n - 1].draw <= max;
    }
  }

  /** How often frauds come: with F frauds among K ticks, K lies between F * (min + 1) and
      (F + 1) * (max + 1), and K + F transactions are emitted exactly if none is rolled back. */
  lemma FraudRate(ticks: seq<Tick>, min: int, max: int)
    requires DrawnFrom(ticks, min, max)
    ensures var k, f := |ticks|, Frauds(ticks, |ticks|);
            && f * (Positive(min) + 1) <= k < (f + 1) * (Positive(max) + 1)
            && Emitted(ticks, k) <= k + f
            && ((forall i :: 0 <= i < k ==> ticks[i].commits) <==> Emitted(ticks, k) == k + f)
  {
    var k := |ticks|;
    StaysBounded(ticks, k, min, max);
    Distribute(Frauds(ticks, k), Positive(max));
    EmittedIs(ticks, k);
  }

  lemma {:induction false} EmittedIs(ticks: seq<Tick>, n: nat)
    requires n <= |ticks|
    ensures Emitted(ticks, n) <= n + Frauds(ticks, n)
    ensures (forall i :: 0 <= i < n ==> ticks[i].commits) <==> Emitted(ticks, n) == n + Frauds(ticks, n)
  {
    if n > 0 {
      EmittedIs(ticks, n - 1);
    }
  }

  // Rollbacks: they count down without emitting, so on the transactions that leave, frauds
  // can come closer than min + 1 apart.

  /** How many ticks from `i` up to, but not including, `j` are committed. */
  function Committed(ticks: seq<Tick>, i: nat, j: nat): nat
    requires i <= j <= |ticks|
  {
    if i == j then 0 else Committed(ticks, i, j - 1) + if ticks[j - 1].commits then 1 else 0
  }

  function RolledBack(ticks: seq<Tick>, i: nat, j: nat): nat
    requires i <= j <= |ticks|
  {
    if i == j then 0 else RolledBack(ticks, i, j - 1) + if ticks[j - 1].commits then 0 else 1
  }

  lemma {:induction false} EachTickCounts(ticks: seq<Tick>, i: nat, j: nat)
    requires i <= j <= |ticks|
    ensures Committed(ticks, i, j) + RolledBack(ticks, i, j) == j - i
  {
    if i < j {
      EachTickCounts(ticks, i, j - 1);
    }
  }

  lemma {:induction false} CommittedSplits(ticks: seq<Tick>, i: nat, m: nat, j: nat)
    requires i <= m <= j <= |ticks|
    ensures Committed(ticks, i, j) == Committed(ticks, i, m) + Committed(ticks, m, j)
  {
    if m < j {
      CommittedSplits(ticks, i, m, j - 1);
    }
  }

  lemma {:induction false} AllCommitted(ticks: seq<Tick>, i: nat, j: nat)
    requires i <= j <= |ticks|
    ensures Committed(ticks, i, j) == j - i <==> forall t :: i <= t < j ==> ticks[t].commits
    ensures Committed(ticks, i, j) <= j - i
  {
    if i < j {
      AllCommitted(ticks, i, j - 1);
    }
  }

  /** A fraud is preceded by at least min committed ticks without one exactly when no more
      ticks are rolled back than the number drawn exceeds min. */
  lemma GapKeepsRateExactly(ticks: seq<Tick>, i: nat, j: nat, min: int, max: int)
    requires DrawnFrom(ticks, min, max) && Gap(ticks, i, j)
    ensures Committed(ticks, i, j) >= Positive(min) <==>
            RolledBack(ticks, i, j) <= Positive(ticks[i].draw) - Positive(min)
  {
    NextFraud(ticks, i, j, min, max);
    EachTickCounts(ticks, i, j);
  }

  /** Every fraud is preceded by at least `m` committed ticks without one. */
  ghost predicate KeepsRate(ticks: seq<Tick>, m: nat) {
    forall i, j :: Gap(ticks, i, j) ==> Committed(ticks, i, j) >= m
  }

  function FraudsEmitted(ticks: seq<Tick>, n: nat): nat
    requires n <= |ticks|
  {
    if n == 0 then 0
    else FraudsEmitted(ticks, n - 1) + if ticks[n - 1].commits && FraudAt(ticks, n - 1) then 1 else 0
  }

  /** What that means for a whole run: of the committed ticks, at most one in m + 1 brings
      a fraud. `i` is where the last gap began. */
  lemma {:induction false} KeptRateIsADensity(ticks: seq<Tick>, m: nat, n: nat, i: nat)
    requires KeepsRate(ticks, m) && i <= n <= |ticks| && (i > 0 ==> FraudAt(ticks, i - 1))
    requires forall k :: i <= k < n ==> !FraudAt(ticks, k)
    ensures FraudsEmitted(ticks, n) * (m + 1) + Committed(ticks, i, n) <= Committed(ticks, 0, n)
  {
    if i < n {
      KeptRateIsADensity(ticks, m, n - 1, i);
    } else if n > 0 {
      var start := GapStart(ticks, n - 1);
      KeptRateIsADensity(ticks, m, n - 1, start);
      assert Gap(ticks, start, n - 1);
      Distribute(FraudsEmitted(ticks, n - 1), m);
    }
  }

  lemma {:induction false} GapStart(ticks: seq<Tick>, n: nat) returns (i: nat)
    requires n <= |ticks|
    ensures i <= n && (i > 0 ==> FraudAt(ticks, i - 1)) && forall k :: i <= k < n ==> !FraudAt(ticks, k)
  {
    if n == 0 || FraudAt(ticks, n - 1) {
      i := n;
    } else {
      i := GapStart(ticks, n - 1);
    }
  }

  lemma FraudsAreNotDense(ticks: seq<Tick>, m: nat)
    requires KeepsRate(ticks, m)
    ensures FraudsEmitted(ticks, |ticks|) * (m + 1) <= Committed(ticks, 0, |ticks|)
  {
    var i := GapStart(ticks, |ticks|);
    KeptRateIsADensity(ticks, m, |ticks|, i);
  }

  // Which commit patterns keep the rate, whatever is drawn.

  function Ticks(draws: seq<int>, commits: seq<bool>): (ticks: seq<Tick>)
    requires |draws| == |commits|
    ensures |ticks| == |draws| && forall i :: 0 <= i < |ticks| ==> ticks[i] == Tick(draws[i], commits[i])
  {
    seq(|draws|, i requires 0 <= i < |draws| => Tick(draws[i], commits[i]))
  }

  /** A number between n * (min + 1) and n * (max + 1) of ticks can bring n frauds, the
      last of them in the last tick. */
  ghost predicate CanStart(i: nat, min: nat, max: nat) {
    exists n: nat :: Between(i, n, min, max)
  }

  predicate Between(i: nat, n: nat, min: nat, max: nat) {
    n * (min + 1) <= i <= n * (max + 1)
  }

  /** Where a gap of the least length can lie, all its ticks before the fraud are committed. */
  ghost predicate ShortestGapsCommit(commits: seq<bool>, min: nat, max: nat) {
    forall i: nat, t: nat :: CanStart(i, min, max) && i + min < |commits| && i <= t < i + min ==> commits[t]
  }

  /** Draws after which `i` ticks have brought `n` frauds. */
  lemma {:induction false} DrawsUpTo(i: nat, n: nat, min: nat, max: nat) returns (draws: seq<int>)
    requires min <= max && Between(i, n, min, max)
    ensures |draws| == i && forall k :: 0 <= k < i ==> min <= draws[k] <= max
    ensures forall ticks: seq<Tick> ::
              |ticks| >= i && (forall k :: 0 <= k < i ==> ticks[k].draw == draws[k]) ==> Expired(Countdown(ticks, i))
    decreases n
  {
    if n == 0 {
      draws := [];
    } else {
      var length := LastGap(i, n, min, max);
      var before := DrawsUpTo(i - length, n - 1, min, max);
      draws := before + seq(length, _ => length - 1);
      forall ticks: seq<Tick> | |ticks| >= i && forall k :: 0 <= k < i ==> ticks[k].draw == draws[k]
        ensures Expired(Countdown(ticks, i))
      {
        assert forall k :: 0 <= k < i - length ==> draws[k] == before[k];
        assert Expired(Countdown(ticks, i - length));
        CountsDown(ticks, i - length, length - 1);
      }
    }
  }

  lemma LastGap(i: nat, n: nat, min: nat, max: nat) returns (length: nat)
    requires min <= max && n > 0 && Between(i, n, min, max)
    ensures min + 1 <= length <= max + 1 && length <= i && Between(i - length, n - 1, min, max)
  {
    Distribute(n - 1, min);
    Distribute(n - 1, max);
    var rest := (n - 1) * (max + 1);
    AtLeast(n - 1, min, max);
    length := if i - rest > min + 1 then i - rest else min + 1;
  }

  lemma AtLeast(n: nat, min: nat, max: nat)
    requires min <= max
    ensures 0 <= n * (min + 1) <= n * (max + 1)
  {
    assert n * (max - min) >= 0;
    assert n * (max + 1) == n * (min + 1) + n * (max - min);
  }

  lemma FraudWhenDrawn(ticks: seq<Tick>, i: nat, k: nat)
    requires i <= k < |ticks| && Expired(Countdown(ticks, i)) && k - i <= Positive(ticks[i].draw)
    ensures FraudAt(ticks, k) <==> ticks[i].draw <= k - i
  {
    CountsDown(ticks, i, k - i);
    assert i + 1 + (k - i) == k + 1;
  }

  lemma DrawBringsGap(ticks: seq<Tick>, i: nat, m: nat)
    requires i + m < |ticks| && Expired(Countdown(ticks, i)) && ticks[i].draw == m
    ensures Gap(ticks, i, i + m)
  {
    forall k | i <= k <= i + m ensures FraudAt(ticks, k) <==> k == i + m {
      FraudWhenDrawn(ticks, i, k);
    }
  }

  /** A gap of the least length, anywhere one can start. */
  lemma ShortestGap(commits: seq<bool>, i: nat, min: nat, max: nat) returns (draws: seq<int>)
    requires min <= max && CanStart(i, min, max) && i + min < |commits|
    ensures |draws| == |commits| && DrawnFrom(Ticks(draws, commits), min, max)
    ensures Gap(Ticks(draws, commits), i, i + min)
  {
    var n: nat :| Between(i, n, min, max);
    var before := DrawsUpTo(i, n, min, max);
    draws := before + seq(|commits| - i, _ => min);
    var ticks := Ticks(draws, commits);
    assert forall k :: 0 <= k < i ==> ticks[k].draw == before[k];
    DrawBringsGap(ticks, i, min);
  }

  lemma GapsStartWhereTheyCan(ticks: seq<Tick>, i: nat, j: nat, min: int, max: int)
    requires DrawnFrom(ticks, min, max) && Gap(ticks, i, j)
    ensures CanStart(i, Positive(min), Positive(max)) && i + Positive(min) <= j
  {
    NextFraud(ticks, i, j, min, max);
    StaysBounded(ticks, i, min, max);
    assert Between(i, Frauds(ticks, i), Positive(min), Positive(max));
  }

  ghost predicate KeepsRateForAllDraws(commits: seq<bool>, min: int, max: int) {
    forall draws :: |draws| == |commits| && DrawnFrom(Ticks(draws, commits), min, max) ==>
      KeepsRate(Ticks(draws, commits), Positive(min))
  }

  lemma CommittedGapsAreLongEnough(ticks: seq<Tick>, i: nat, j: nat, min: int, max: int)
    requires DrawnFrom(ticks, min, max) && Gap(ticks, i, j)
    requires forall t :: i <= t < i + Positive(min) && t < |ticks| ==> ticks[t].commits
    ensures Committed(ticks, i, j) >= Positive(min)
  {
    var m := Positive(min);
    GapsStartWhereTheyCan(ticks, i, j, min, max);
    AllCommitted(ticks, i, i + m);
    CommittedSplits(ticks, i, i + m, j);
  }

  lemma CommittingKeepsRate(draws: seq<int>, commits: seq<bool>, min: int, max: int)
    requires |draws| == |commits| && DrawnFrom(Ticks(draws, commits), min, max)
    requires ShortestGapsCommit(commits, Positive(min), Positive(max))
    ensures KeepsRate(Ticks(draws, commits), Positive(min))
  {
    var ticks := Ticks(draws, commits);
    forall i, j | Gap(ticks, i, j) ensures Committed(ticks, i, j) >= Positive(min) {
      GapsStartWhereTheyCan(ticks, i, j, min, max);
      CommittedGapsAreLongEnough(ticks, i, j, min, max);
    }
  }

  lemma RollbackInShortestGap(commits: seq<bool>, i: nat, t: nat, min: nat, max: nat) returns (draws: seq<int>)
    requires min <= max && CanStart(i, min, max) && i + min < |commits| && i <= t < i + min && !commits[t]
    ensures |draws| == |commits| && DrawnFrom(Ticks(draws, commits), min, max)
    ensures !KeepsRate(Ticks(draws, commits), min)
  {
    draws := ShortestGap(commits, i, min, max);
    var ticks := Ticks(draws, commits);
    AllCommitted(ticks, i, i + min);
    assert !ticks[t].commits && Gap(ticks, i, i + min);
  }

  /** A commit pattern keeps the rate whatever is drawn, exactly when no rolled back tick
      lies where it could fall into a gap of the least length. */
  lemma RateKeptExactlyWhenShortestGapsCommit(commits: seq<bool>, min: int, max: int)
    requires min <= max
    ensures KeepsRateForAllDraws(commits, min, max) <==> ShortestGapsCommit(commits, Positive(min), Positive(max))
  {
    if ShortestGapsCommit(commits, Positive(min), Positive(max)) {
      forall draws | |draws| == |commits| && DrawnFrom(Ticks(draws, commits), min, max)
        ensures KeepsRate(Ticks(draws, commits), Positive(min))
      {
        CommittingKeepsRate(draws, commits, min, max);
      }
    } else {
      var i: nat, t: nat :| CanStart(i, Positive(min), Positive(max)) && i + Positive(min) < |commits|
                            && i <= t < i + Positive(min) && !commits[t];
      var draws := RollbackInShortestGap(commits, i, t, min, max);
    }
  }

  /** The least instance: with a frequency of one, at most every second committed tick should
      bring a fraud, but one rollback lets the only committed tick bring one. */
  lemma RollbacksMakeFraudsDenser()
    ensures var ticks := [Tick(1, false), Tick(1, true)];
            && DrawnFrom(ticks, 1, 1) && FraudsEmitted(ticks, 2) == Committed(ticks, 0, 2) == 1
            && !KeepsRate(ticks, 1)
  {
    var ticks := [Tick(1, false), Tick(1, true)];
    assert Countdown(ticks, 1) == Some(1) && Countdown(ticks, 2) == Some(0);
    assert FraudsEmitted(ticks, 1) == 0 && Committed(ticks, 0, 1) == 0;
    assert Gap(ticks, 0, 1);
  }
}
