/** `autoScroll`: the results feed is scrolled until it lists enough result links or
    its height has failed to grow ten times. The page is given as the feed's initial
    height and the sequence of what each scroll step observes once it has waited. */
module AutoScroll {
  import opened Js

  /** The most stalled scrolls the loop tolerates. */
  const MaxAttempts := 10

  /** What one scroll step sees: the feed's new height and the number of result links. */
  datatype Observation = Observation(scrollHeight: int, anchorCount: nat)

  /** The loop's counters. */
  datatype ScrollState = ScrollState(currentCount: nat, attempts: nat, lastHeight: int)

  /** How the scroll ends: at once when there is no feed, otherwise after some iterations. */
  datatype ScrollResult = NoFeed | Scrolled(iterations: nat, state: ScrollState)

  /** The height the step at index `i` compares against. */
  function PreviousHeight(initialHeight: int, obs: seq<Observation>, i: nat): int
    requires i < |obs|
  {
    if i == 0 then initialHeight else obs[i - 1].scrollHeight
  }

  /** The number of steps in `obs` after which the height had not changed. */
  function Stalls(initialHeight: int, obs: seq<Observation>): (n: nat)
    ensures n <= |obs|
  {
    if |obs| == 0 then 0
    else
      var last := |obs| - 1;
      var prefix := obs[..last];
      assert forall i :: 0 <= i < last ==> PreviousHeight(initialHeight, prefix, i) == PreviousHeight(initialHeight, obs, i);
      Stalls(initialHeight, prefix)
        + (if obs[last].scrollHeight == PreviousHeight(initialHeight, obs, last) then 1 else 0)
  }

  /** True when the loop goes on after the step at index `i`. */
  predicate Continues(initialHeight: int, obs: seq<Observation>, limit: int, i: nat)
    requires i < |obs|
  {
    obs[i].anchorCount < limit && Stalls(initialHeight, obs[..i + 1]) < MaxAttempts
  }

  /** `autoScroll(page, resultLimit)` on a page whose feed, if any, starts at
      `feedHeight` and whose scroll steps observe `obs`. Without a feed nothing
      happens; otherwise the loop stops at the first step that sees enough links or
      brings the stall count to ten. The count is the latest observation, not a sum,
      and the height is remembered after every step. A run that is still going when
      `obs` ends stops there. */
  method Scroll(feedHeight: Nullable<int>, limit: int, obs: seq<Observation>) returns (r: ScrollResult)
    ensures feedHeight.Null? <==> r.NoFeed?
    ensures r.Scrolled? ==> r.iterations <= |obs|
    ensures r.Scrolled? && limit <= 0 ==> r.iterations == 0
    ensures r.Scrolled? ==> r.state.attempts == Stalls(feedHeight.value, obs[..r.iterations])
    ensures r.Scrolled? ==> r.state.attempts <= MaxAttempts
    ensures r.Scrolled? && r.iterations == 0 ==> r.state == ScrollState(0, 0, feedHeight.value)
    ensures r.Scrolled? && r.iterations > 0 ==>
              && r.state.currentCount == obs[r.iterations - 1].anchorCount
              && r.state.lastHeight == obs[r.iterations - 1].scrollHeight
    ensures r.Scrolled? ==>
              r.state.currentCount >= limit || r.state.attempts == MaxAttempts || r.iterations == |obs|
    ensures r.Scrolled? ==> forall i :: 0 <= i < r.iterations - 1 ==> Continues(feedHeight.value, obs, limit, i)
  {
    if feedHeight.Null? {
      return NoFeed;
    }
    var h0 := feedHeight.value;
    var currentCount: nat := 0;
    var attempts: nat := 0;
    var lastHeight := h0;
    var i := 0;
    while currentCount < limit && attempts < MaxAttempts && i < |obs|
      invariant 0 <= i <= |obs|
      invariant limit <= 0 ==> i == 0
      invariant attempts == Stalls(h0, obs[..i]) <= MaxAttempts
      invariant i == 0 ==> currentCount == 0 && lastHeight == h0
      invariant i > 0 ==> currentCount == obs[i - 1].anchorCount && lastHeight == obs[i - 1].scrollHeight
      invariant forall j :: 0 <= j < i - 1 ==> Continues(h0, obs, limit, j)
      decreases |obs| - i
    {
      var o := obs[i];
      assert i > 0 ==> Continues(h0, obs, limit, i - 1);
      assert obs[..i + 1][..i] == obs[..i];
      assert lastHeight == PreviousHeight(h0, obs[..i + 1], i);
      currentCount := o.anchorCount;
      if o.scrollHeight == lastHeight {
        attempts := attempts + 1;
      }
      lastHeight := o.scrollHeight;
      i := i + 1;
      if currentCount >= limit {
        break;
      }
    }
    return Scrolled(i, ScrollState(currentCount, attempts, lastHeight));
  }

  /** On a feed whose height never changes every step is a stall. */
  lemma {:induction false} StallsOfStillFeed(h: int, obs: seq<Observation>)
    requires forall i :: 0 <= i < |obs| ==> obs[i].scrollHeight == h
    ensures Stalls(h, obs) == |obs|
  {
    if |obs| > 0 {
      StallsOfStillFeed(h, obs[..|obs| - 1]);
    }
  }

  /** On a feed that stops growing and never lists enough links the loop gives up
      after exactly ten steps. */
  lemma StillFeedGivesUpAfterTen(h: int, limit: int, obs: seq<Observation>)
    requires |obs| >= MaxAttempts
    requires forall i :: 0 <= i < |obs| ==> obs[i].scrollHeight == h && obs[i].anchorCount < limit
    ensures forall i :: 0 <= i < MaxAttempts - 1 ==> Continues(h, obs, limit, i)
    ensures !Continues(h, obs, limit, MaxAttempts - 1)
  {
    forall n | 1 <= n <= MaxAttempts
      ensures Stalls(h, obs[..n]) == n
    {
      StallsOfStillFeed(h, obs[..n]);
    }
  }
}
