/** Community tiers: the threshold policy, the state it derives from the up ratio, the bands the panel shows for
    each state, and the truncated percentages printed beside them. */
module Liangzi {
  import opened Arithmetic

  datatype State = Waiting | XiaoNanLiang | LiangGong | LiangZong | LiangShen | LiangSheng | LiangZu

  const ACTIVE_STATES: seq<State> := [XiaoNanLiang, LiangGong, LiangZong, LiangShen, LiangSheng, LiangZu]

  type Policy = seq<real>

  const LEGACY_THRESHOLDS: Policy := [0.5, 0.7, 0.85, 0.95]
  const DEFAULT_THRESHOLDS: Policy := [0.25, 0.5, 0.7, 0.85, 0.95]

  datatype Result<T> = Ok(value: T) | InvalidPolicy

  /** Four or five boundaries, strictly ascending inside (0,1). */
  predicate ValidPolicy(policy: Policy) {
    && (|policy| == 4 || |policy| == 5)
    && (forall i :: 0 <= i < |policy| ==> 0.0 < policy[i] < 1.0)
    && (forall i, j :: 0 <= i < j < |policy| ==> policy[i] < policy[j])
  }

  /** The index loop that checks each boundary against (0,1) and against its predecessor only. */
  method CheckThresholdPolicy(policy: Policy) returns (ok: bool)
    ensures ok <==> ValidPolicy(policy)
  {
    if |policy| != 4 && |policy| != 5 {
      return false;
    }
    var i := 0;
    while i < |policy|
      invariant 0 <= i <= |policy|
      invariant forall k :: 0 <= k < i ==> 0.0 < policy[k] < 1.0
      invariant forall k, l :: 0 <= k < l < i ==> policy[k] < policy[l]
    {
      if policy[i] <= 0.0 || policy[i] >= 1.0 {
        return false;
      }
      if i > 0 && policy[i] <= policy[i - 1] {
        return false;
      }
      i := i + 1;
    }
    return true;
  }

  function StatesFor(policy: Policy): (states: seq<State>)
    ensures |policy| == 4 || |policy| == 5 ==> |states| == |policy| + 1
  {
    if |policy| == 4 then ACTIVE_STATES[1..] else ACTIVE_STATES
  }

  /** `findIndex(boundary => upRatio < boundary)` from position i, or the length when there is none. */
  function FirstAbove(policy: Policy, upRatio: real, i: nat): (index: nat)
    requires i <= |policy|
    ensures i <= index <= |policy|
    ensures forall k :: i <= k < index ==> policy[k] <= upRatio
    ensures index < |policy| ==> upRatio < policy[index]
    decreases |policy| - i
  {
    if i == |policy| || upRatio < policy[i] then i else FirstAbove(policy, upRatio, i + 1)
  }

  function StateForUpRatio(upRatio: real, policy: Policy): Result<State> {
    if !ValidPolicy(policy) || upRatio < 0.0 || upRatio > 1.0 then InvalidPolicy
    else Ok(StatesFor(policy)[FirstAbove(policy, upRatio, 0)])
  }

  datatype Bound = Unbounded | At(value: real)
  datatype Band = Band(minInclusive: Bound, maxExclusive: Bound)

  function IndexOf(states: seq<State>, state: State): (index: int)
    ensures -1 <= index < |states|
    ensures index >= 0 ==> states[index] == state && state !in states[..index]
    ensures index < 0 <==> state !in states
  {
    if states == [] then -1
    else if states[0] == state then 0
    else
      var rest := IndexOf(states[1..], state);
      assert forall k :: 0 <= k < rest ==> states[..rest + 1][k + 1] == states[1..][..rest][k];
      if rest < 0 then -1 else rest + 1
  }

  function UpRatioBand(state: State, policy: Policy): Result<Band> {
    if !ValidPolicy(policy) then InvalidPolicy
    else if state == Waiting then Ok(Band(Unbounded, Unbounded))
    else
      var index := IndexOf(StatesFor(policy), state);
      if index < 0 then InvalidPolicy
      else Ok(Band(
        if index == 0 then Unbounded else At(policy[index - 1]),
        if index < |policy| then At(policy[index]) else Unbounded))
  }

  predicate InBand(ratio: real, band: Band) {
    && (band.minInclusive.At? ==> band.minInclusive.value <= ratio)
    && (band.maxExclusive.At? ==> ratio < band.maxExclusive.value)
  }

  lemma PolicySize(policy: Policy)
    requires ValidPolicy(policy)
    ensures |policy| == 4 || |policy| == 5
  {
  }

  lemma StatesDistinct(policy: Policy, i: nat, j: nat)
    requires ValidPolicy(policy) && i <= |policy| && j <= |policy|
    ensures StatesFor(policy)[i] == StatesFor(policy)[j] <==> i == j
    ensures StatesFor(policy)[i] != Waiting
  {
    assert ACTIVE_STATES[1..] == [LiangGong, LiangZong, LiangShen, LiangSheng, LiangZu];
  }

  /** In an ascending policy the ratio lies between two neighbouring boundaries exactly where the first larger one stands. */
  lemma BandOfIndex(ratio: real, policy: Policy, index: nat)
    requires ValidPolicy(policy) && index <= |policy|
    ensures index == FirstAbove(policy, ratio, 0) <==>
              (index > 0 ==> policy[index - 1] <= ratio) && (index < |policy| ==> ratio < policy[index])
  {
  }

  /** State function and band function are inverse: a ratio lies in the band of a state exactly when it has that
      state, so the bands of a policy's states cover [0,1] without overlap. */
  lemma BandsPartition(ratio: real, state: State, policy: Policy)
    requires ValidPolicy(policy) && 0.0 <= ratio <= 1.0 && state != Waiting
    ensures UpRatioBand(state, policy).Ok? <==> state in StatesFor(policy)
    ensures state in StatesFor(policy) ==>
              (InBand(ratio, UpRatioBand(state, policy).value) <==> StateForUpRatio(ratio, policy) == Ok(state))
    ensures StateForUpRatio(ratio, policy).Ok? && StateForUpRatio(ratio, policy).value in StatesFor(policy)
  {
    hide ValidPolicy, FirstAbove, StatesFor, IndexOf;
    PolicySize(policy);
    var found := FirstAbove(policy, ratio, 0);
    var index := IndexOf(StatesFor(policy), state);
    if index >= 0 {
      StatesDistinct(policy, found, index);
      BandOfIndex(ratio, policy, index);
    }
  }

  function DeriveState(up: nat, down: nat, policy: Policy): Result<State> {
    if up + down == 0 then Ok(Waiting)
    else StateForUpRatio(up as real / (up + down) as real, policy)
  }

  /** A case without votes is waiting, and only that; with votes each state stands for one band, in this order from the top. */
  lemma StatesByName(up: nat, down: nat, policy: Policy)
    requires ValidPolicy(policy)
    ensures DeriveState(up, down, policy).Ok? && (DeriveState(up, down, policy).value == Waiting <==> up + down == 0)
    ensures up + down > 0 ==>
              var ratio, top, state := up as real / (up + down) as real, |policy|, DeriveState(up, down, policy).value;
              && 0.0 <= ratio <= 1.0
              && (state == LiangZu <==> policy[top - 1] <= ratio)
              && (state == LiangSheng <==> policy[top - 2] <= ratio < policy[top - 1])
              && (state == LiangShen <==> policy[top - 3] <= ratio < policy[top - 2])
              && (state == LiangZong <==> policy[top - 4] <= ratio < policy[top - 3])
              && (state == LiangGong <==> ratio < policy[top - 4] && (top == 5 ==> policy[0] <= ratio))
              && (state == XiaoNanLiang <==> top == 5 && ratio < policy[0])
  {
    if up + down > 0 {
      var ratio := up as real / (up + down) as real;
      RatioInRange(up, up + down);
      BandOfIndex(ratio, policy, FirstAbove(policy, ratio, 0));
      PolicySize(policy);
    }
  }

  lemma RatioInRange(part: nat, total: nat)
    requires part <= total && total > 0
    ensures 0.0 <= part as real / total as real <= 1.0
  {
  }

  /** Height of a state in a policy: how many boundaries lie at or below the ratio. */
  function Tier(state: State, policy: Policy): int { IndexOf(StatesFor(policy), state) }

  function Pow10(n: nat): (p: nat)
    ensures p >= 1
  {
    if n == 0 then 1 else 10 * Pow10(n - 1)
  }

  /** Printed percentages in units of 10^-decimals percent; `Waiting` text before the first vote. */
  datatype PercentPair = Placeholder | Scaled(up: int, down: int, scale: nat)

  function FormatRatioPercents(up: nat, down: nat, decimals: nat): PercentPair {
    if up + down == 0 then Placeholder
    else
      var scale := Pow10(decimals);
      var scaledUp := (up * 100 * scale) / (up + down);
      Scaled(scaledUp, 100 * scale - scaledUp, scale)
  }

  /** The printed percent is the exact one cut off at the asked precision; it is never on the wrong side of a whole-percent
      boundary, and the printed pair adds up to 100% with both sides in range. */
  lemma PercentOnSameSide(up: nat, down: nat, decimals: nat, b: nat)
    requires up + down > 0
    ensures var p := FormatRatioPercents(up, down, decimals);
            && (p.up >= b * p.scale <==> 100 * up >= b * (up + down))
            && p.scale == Pow10(decimals) && p.up + p.down == 100 * p.scale && 0 <= p.up && 0 <= p.down
            && p.up * (up + down) <= up * 100 * p.scale < (p.up + 1) * (up + down)
  {
    var scale, total := Pow10(decimals), up + down;
    QuotientReaches(up * 100 * scale, total, (up * 100 * scale) / total);
    QuotientReaches(up * 100 * scale, total, (up * 100 * scale) / total + 1);
    PercentReaches(up, total, scale, b);
    PercentReaches(up, total, scale, 100);
    TruncationBounds(up, total, scale);
  }

  lemma PercentReaches(up: nat, total: nat, scale: nat, b: nat)
    requires total > 0 && scale >= 1
    ensures (up * 100 * scale) / total >= b * scale <==> 100 * up >= b * total
  {
    QuotientReaches(up * 100 * scale, total, b * scale);
    ScaleKeepsOrder(scale, 100 * up, b * total);
    assert up * 100 * scale == scale * (100 * up);
    assert (b * scale) * total == scale * (b * total) by { MulAssoc(b, scale, total); }
  }

  lemma MulAssoc(b: nat, scale: nat, total: nat)
    ensures (b * scale) * total == scale * (b * total)
  {
  }

  lemma TruncationBounds(up: nat, total: nat, scale: nat)
    requires total > 0 && scale >= 1 && up <= total
    ensures 0 <= (up * 100 * scale) / total <= 100 * scale
  {
    var n := up * 100 * scale;
    assert n <= 100 * scale * total by {
      assert scale * (total - up) >= 0;
    }
    assert (100 * scale + 1) * total == 100 * scale * total + total;
    QuotientReaches(n, total, 100 * scale + 1);
    QuotientReaches(n, total, 0);
  }

  /** Boundary k of a policy, in whole percent. */
  predicate WholePercent(policy: Policy, percents: seq<nat>) {
    |percents| == |policy| && forall k :: 0 <= k < |policy| ==> policy[k] * 100.0 == percents[k] as real
  }

  lemma ShippedPoliciesAreWholePercent()
    ensures ValidPolicy(DEFAULT_THRESHOLDS) && WholePercent(DEFAULT_THRESHOLDS, [25, 50, 70, 85, 95])
    ensures ValidPolicy(LEGACY_THRESHOLDS) && WholePercent(LEGACY_THRESHOLDS, [50, 70, 85, 95])
  {
  }

  lemma RatioReaches(up: nat, total: nat, boundary: real, percent: nat)
    requires total > 0 && boundary * 100.0 == percent as real
    ensures up as real / total as real >= boundary <==> 100 * up >= percent * total
  {
    var r := up as real / total as real;
    assert r * total as real == up as real;
    assert (100 * up) as real == 100.0 * r * total as real;
    assert (percent * total) as real == 100.0 * boundary * total as real;
    if r >= boundary {
      assert (r - boundary) * total as real >= 0.0;
    } else {
      assert (boundary - r) * total as real > 0.0;
    }
  }

  /** The tier of a ratio is above k exactly when the ratio has reached boundary k. */
  lemma TierReaches(ratio: real, policy: Policy, k: nat)
    requires ValidPolicy(policy) && 0.0 <= ratio <= 1.0 && k < |policy|
    ensures StateForUpRatio(ratio, policy).Ok?
    ensures Tier(StateForUpRatio(ratio, policy).value, policy) > k <==> ratio >= policy[k]
  {
    PolicySize(policy);
    var found := FirstAbove(policy, ratio, 0);
    StatesDistinct(policy, found, IndexOf(StatesFor(policy), StatesFor(policy)[found]));
    assert ratio >= policy[k] <==> found > k;
  }

  /** The number and the portrait never disagree: the printed up percent is at or above a boundary exactly when the
      derived state is at or above the tier that starts there, for every count and every number of decimals. */
  lemma PercentAgreesWithState(up: nat, down: nat, decimals: nat, policy: Policy, percents: seq<nat>, k: nat)
    requires up + down > 0 && ValidPolicy(policy) && WholePercent(policy, percents) && k < |policy|
    ensures DeriveState(up, down, policy).Ok?
    ensures var p := FormatRatioPercents(up, down, decimals);
            p.up >= percents[k] * p.scale <==> Tier(DeriveState(up, down, policy).value, policy) > k
  {
    hide Tier, StateForUpRatio, FormatRatioPercents, Pow10, ValidPolicy;
    RatioInRange(up, up + down);
    TierReaches(up as real / (up + down) as real, policy, k);
    PercentOnSameSide(up, down, decimals, percents[k]);
    RatioReaches(up, up + down, policy[k], percents[k]);
    assert 100 * up >= percents[k] * (up + down) <==> up as real / (up + down) as real >= policy[k];
  }
}
