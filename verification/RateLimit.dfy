/**
  The two-level rate limiter (internal/ratelimit/ratelimit.go).  A limiter is
  a token bucket over real time; the registry keeps one per key, evicts in
  insertion order and asks a global bucket first.
 */
module RateLimit {
  import opened Sequences
  import opened Wrappers

  /* ----- token buckets ----- */

  datatype Bucket = Bucket(limit: real, burst: nat, tokens: real, last: real)

  ghost predicate Filled(b: Bucket) {
    b.limit >= 0.0 && 0.0 <= b.tokens <= b.burst as real
  }

  // What the rate adds between two times.
  function Earned(limit: real, from: real, to: real): real {
    limit * (to - from)
  }

  // Tokens at a time: refilled at the rate, never above the burst.
  function Available(b: Bucket, now: real): real {
    var refill := b.tokens + (if now > b.last then Earned(b.limit, b.last, now) else 0.0);
    if refill > b.burst as real then b.burst as real else refill
  }

  function Grants(b: Bucket, now: real): bool {
    Available(b, now) >= 1.0
  }

  // One request: takes a token, or is refused and leaves the tokens there.
  function Take(b: Bucket, now: real): Bucket {
    b.(tokens := if Grants(b, now) then Available(b, now) - 1.0 else Available(b, now), last := now)
  }

  function After(b: Bucket, times: seq<real>): Bucket {
    if times == [] then b else Take(After(b, times[..|times| - 1]), times[|times| - 1])
  }

  // How many of the requests from the i-th on are granted.
  function Granted(b: Bucket, times: seq<real>, i: nat): nat
    requires i <= |times|
  {
    if |times| == i then 0
    else
      var n := |times| - 1;
      Granted(b, times[..n], i) + if Grants(After(b, times[..n]), times[n]) then 1 else 0
  }

  ghost predicate Monotone(times: seq<real>) {
    forall i, j :: 0 <= i < j < |times| ==> times[i] <= times[j]
  }

  lemma {:induction false} AfterFilled(b: Bucket, times: seq<real>)
    requires Filled(b)
    ensures Filled(After(b, times)) && After(b, times).limit == b.limit && After(b, times).burst == b.burst
    ensures times != [] ==> After(b, times).last == times[|times| - 1]
  {
    if times != [] {
      var before := After(b, times[..|times| - 1]);
      AfterFilled(b, times[..|times| - 1]);
      EarnedNonNegative(before.limit, before.last, times[|times| - 1]);
    }
  }

  lemma EarnedNonNegative(limit: real, from: real, to: real)
    requires limit >= 0.0
    ensures to >= from ==> Earned(limit, from, to) >= 0.0
  {
  }

  function Later(a: real, b: real): real {
    if a < b then b else a
  }

  // One request: what is granted and what is left come out of what was there.
  // A reading behind the last one earns nothing.
  lemma TakeSpends(b: Bucket, now: real)
    requires Filled(b)
    ensures var spent := (if Grants(b, now) then 1.0 else 0.0) + Take(b, now).tokens;
            spent <= b.burst as real && spent <= b.tokens + Earned(b.limit, b.last, Later(b.last, now))
  {
    EarnedAdds(b.limit, now, now, now);
    EarnedAdds(b.limit, b.last, b.last, b.last);
  }

  lemma EarnedAdds(limit: real, a: real, m: real, z: real)
    ensures Earned(limit, a, m) + Earned(limit, m, z) == Earned(limit, a, z) && Earned(limit, a, a) == 0.0
  {
  }

  // How far the readings from the i-th on move forward, all moves together.
  function Forward(times: seq<real>, i: nat): real
    requires i < |times|
  {
    var n := |times| - 1;
    if i == n then 0.0 else Forward(times[..n], i) + (Later(times[n - 1], times[n]) - times[n - 1])
  }

  // In any window of requests, whatever their clock readings, the grants and
  // the tokens left over never exceed a full bucket plus what the rate adds
  // while the readings move forward.
  lemma {:induction false} WindowBound(b: Bucket, times: seq<real>, i: nat)
    requires Filled(b) && i < |times|
    ensures Granted(b, times, i) as real + After(b, times).tokens <= b.burst as real + Earned(b.limit, 0.0, Forward(times, i))
  {
    var n := |times| - 1;
    var before, now := After(b, times[..n]), times[n];
    AfterFilled(b, times[..n]);
    TakeSpends(before, now);
    if i < n {
      WindowBound(b, times[..n], i);
      assert times[..n][n - 1] == before.last;
      EarnedMore(b.limit, Forward(times[..n], i), before.last, Later(before.last, now));
    } else {
      assert Granted(b, times[..n], i) == 0;
      EarnedAdds(b.limit, 0.0, 0.0, 0.0);
    }
  }

  lemma EarnedMore(limit: real, way: real, from: real, to: real)
    ensures Earned(limit, 0.0, way + (to - from)) == Earned(limit, 0.0, way) + Earned(limit, from, to)
  {
  }

  // Readings in order move forward by the length of the window.
  lemma {:induction false} ForwardInOrder(times: seq<real>, i: nat)
    requires i < |times| && Monotone(times[i..])
    ensures Forward(times, i) == times[|times| - 1] - times[i]
  {
    var n := |times| - 1;
    if i < n {
      assert times[i..][n - 1 - i] == times[n - 1] && times[i..][n - i] == times[n];
      assert forall k :: 0 <= k < n - i ==> times[..n][i..][k] == times[i..][k];
      ForwardInOrder(times[..n], i);
    }
  }

  // Counting the grants is counting the requests that are granted.
  ghost predicate IsGranted(b: Bucket, times: seq<real>, k: nat) {
    k < |times| && Grants(After(b, times[..k]), times[k])
  }

  ghost function GrantedAt(b: Bucket, times: seq<real>, i: nat): set<nat> {
    set k: nat | i <= k < |times| && IsGranted(b, times, k)
  }

  lemma {:induction false} GrantedCounts(b: Bucket, times: seq<real>, i: nat)
    requires i <= |times|
    ensures Granted(b, times, i) == |GrantedAt(b, times, i)|
  {
    if |times| == i {
      assert GrantedAt(b, times, i) == {};
    } else {
      GrantedCounts(b, times[..|times| - 1], i);
      OneMoreGranted(b, times, i);
    }
  }

  lemma OneMoreGranted(b: Bucket, times: seq<real>, i: nat)
    requires i < |times|
    ensures var n := |times| - 1;
            GrantedAt(b, times, i) == GrantedAt(b, times[..n], i) + (if Grants(After(b, times[..n]), times[n]) then {n} else {})
  {
    var n := |times| - 1;
    var init := times[..n];
    forall k: nat | k < n ensures IsGranted(b, init, k) <==> IsGranted(b, times, k) {
      assert init[..k] == times[..k];
    }
  }

  /* ----- what is refused ----- */

  // The tokens left are a full bucket at some request, plus what the rate has
  // added since, less the grants since.
  ghost predicate BalancedFrom(b: Bucket, times: seq<real>, i: nat)
    requires i < |times|
  {
    After(b, times).tokens == b.burst as real + Earned(b.limit, times[i], times[|times| - 1]) - Granted(b, times, i) as real
  }

  lemma {:induction false} Balance(b: Bucket, times: seq<real>) returns (i: nat)
    requires Filled(b) && b.tokens == b.burst as real && times != [] && Monotone(times) && b.last <= times[0]
    ensures i < |times| && BalancedFrom(b, times, i)
  {
    var n := |times| - 1;
    var before, now := After(b, times[..n]), times[n];
    AfterFilled(b, times[..n]);
    EarnedNonNegative(b.limit, b.last, now);
    EarnedAdds(b.limit, now, now, now);
    if n == 0 || before.tokens + Earned(b.limit, before.last, now) > b.burst as real {
      i := n;
    } else {
      i := Balance(b, times[..n]);
      assert before.last == times[..n][n - 1] == times[n - 1] <= now;
      EarnedAdds(b.limit, times[i], times[n - 1], now);
    }
  }

  // One grant more at the last request would be one too many since the i-th.
  ghost predicate WindowIsFull(b: Bucket, times: seq<real>, i: nat)
    requires i < |times|
  {
    Granted(b, times[..|times| - 1], i) as real + 1.0 > b.burst as real + Earned(b.limit, times[i], times[|times| - 1])
  }

  // For readings in order the limiter refuses no more than it must: a request
  // is refused exactly when granting it would exceed the bound in some window.
  lemma RefusedIffWindowFull(b: Bucket, times: seq<real>)
    requires Filled(b) && b.tokens == b.burst as real && times != [] && Monotone(times) && b.last <= times[0]
    ensures !Grants(After(b, times[..|times| - 1]), times[|times| - 1]) <==> exists i: nat :: i < |times| && WindowIsFull(b, times, i)
  {
    var n := |times| - 1;
    var before, now := After(b, times[..n]), times[n];
    if Grants(before, now) {
      forall i: nat | i < |times| ensures !WindowIsFull(b, times, i) {
        GrantLeavesRoom(b, times, i);
      }
    } else if n == 0 || Available(before, now) == b.burst as real {
      RefusedByEmptyBurst(b, times);
    } else {
      var i := Balance(b, times[..n]);
      RefusedByBalance(b, times, i);
    }
  }

  lemma GrantLeavesRoom(b: Bucket, times: seq<real>, i: nat)
    requires Filled(b) && i < |times| && Monotone(times) && Grants(After(b, times[..|times| - 1]), times[|times| - 1])
    ensures !WindowIsFull(b, times, i)
  {
    AfterFilled(b, times);
    WindowBound(b, times, i);
    ForwardInOrder(times, i);
    EarnedOver(b.limit, times[i], times[|times| - 1]);
  }

  lemma RefusedByEmptyBurst(b: Bucket, times: seq<real>)
    requires Filled(b) && b.tokens == b.burst as real && times != [] && b.last <= times[0]
    requires var n := |times| - 1;
             !Grants(After(b, times[..n]), times[n]) && (n == 0 || Available(After(b, times[..n]), times[n]) == b.burst as real)
    ensures WindowIsFull(b, times, |times| - 1)
  {
    var now := times[|times| - 1];
    EarnedAdds(b.limit, now, now, now);
    EarnedNonNegative(b.limit, b.last, now);
  }

  lemma RefusedByBalance(b: Bucket, times: seq<real>, i: nat)
    requires Filled(b) && i < |times| - 1 && Monotone(times) && BalancedFrom(b, times[..|times| - 1], i)
    requires var n := |times| - 1;
             !Grants(After(b, times[..n]), times[n]) && Available(After(b, times[..n]), times[n]) != b.burst as real
    ensures WindowIsFull(b, times, i)
  {
    var n := |times| - 1;
    AfterFilled(b, times[..n]);
    assert After(b, times[..n]).last == times[..n][n - 1] == times[n - 1] <= times[n];
    EarnedAdds(b.limit, times[i], times[n - 1], times[n]);
    EarnedAdds(b.limit, times[n - 1], times[n - 1], times[n]);
  }

  // A refused request leaves no trace: whoever asks next, no earlier, finds the
  // bucket as if it had not been made.
  lemma RefusalIsFree(b: Bucket, now: real, later: real)
    requires Filled(b) && b.last <= now <= later && !Grants(b, now)
    ensures Grants(Take(b, now), later) == Grants(b, later) && Take(Take(b, now), later) == Take(b, later)
  {
    EarnedAdds(b.limit, b.last, now, later);
    EarnedNonNegative(b.limit, b.last, now);
    EarnedNonNegative(b.limit, now, later);
    EarnedAdds(b.limit, now, now, now);
    EarnedAdds(b.limit, b.last, b.last, b.last);
  }

  lemma {:induction false} AfterConcat(b: Bucket, early: seq<real>, late: seq<real>)
    ensures After(b, early + late) == After(After(b, early), late)
  {
    if late == [] {
      assert early + late == early;
    } else {
      var times := early + late;
      assert times[..|times| - 1] == early + late[..|late| - 1];
      AfterConcat(b, early, late[..|late| - 1]);
    }
  }

  // So it can be left out of the requests, if one follows.
  lemma RefusedCanBeLeftOut(b: Bucket, early: seq<real>, refused: real, next: real, late: seq<real>)
    requires Filled(b) && b.last <= refused <= next && (early != [] ==> early[|early| - 1] <= refused)
    requires !Grants(After(b, early), refused)
    ensures After(b, early + [refused, next] + late) == After(b, early + [next] + late)
  {
    var before := After(b, early);
    AfterFilled(b, early);
    RefusalIsFree(before, refused, next);
    TakesInTurn(before, refused, next);
    AfterConcat(b, early, [refused, next]);
    AfterConcat(b, early, [next]);
    AfterConcat(b, early + [refused, next], late);
    AfterConcat(b, early + [next], late);
    assert After(before, [refused, next]) == After(before, [next]);
    assert After(b, early + [refused, next]) == After(b, early + [next]);
  }

  lemma TakesInTurn(b: Bucket, first: real, second: real)
    ensures After(b, [first, second]) == Take(Take(b, first), second) && After(b, [second]) == Take(b, second)
  {
    AfterAppend(b, [], first);
    AfterAppend(b, [], second);
    AfterAppend(b, [first], second);
    assert [] + [first] == [first] && [] + [second] == [second] && [first] + [second] == [first, second];
  }

  /* ----- when the length of the window is enough ----- */

  // The bound with the plain length of the window in it.
  ghost predicate WithinLength(b: Bucket, window: seq<real>)
    requires window != []
  {
    Granted(b, window, 0) as real <= b.burst as real + Earned(b.limit, window[0], window[|window| - 1])
  }

  // Every window that does not end before it begins keeps within its length,
  // in whatever state it finds the bucket.
  ghost predicate LengthSuffices(times: seq<real>) {
    forall b, i, j :: Filled(b) && 0 <= i <= j < |times| && times[i] <= times[j] ==> WithinLength(b, times[i..j + 1])
  }

  // No window that ends where it began, or later, goes back in between.
  ghost predicate NoDetour(times: seq<real>) {
    forall i, j :: 0 <= i <= j < |times| && times[i] <= times[j] ==> Monotone(times[i..j + 1])
  }

  // The length of the window bounds the grants exactly for readings without
  // a detour.  The library reads the clock before it locks, so requests that
  // overlap can make one.
  lemma LengthSufficesIff(times: seq<real>)
    ensures LengthSuffices(times) <==> NoDetour(times)
  {
    if NoDetour(times) {
      forall b, i, j | Filled(b) && 0 <= i <= j < |times| && times[i] <= times[j] ensures WithinLength(b, times[i..j + 1]) {
        OrderedWithinLength(b, times[i..j + 1]);
      }
    } else {
      var i, j := SteepRise(times);
      var b := RiseEarns(times, i, j);
      assert !WithinLength(b, times[i..j + 1]);
    }
  }

  lemma OrderedWithinLength(b: Bucket, window: seq<real>)
    requires Filled(b) && window != [] && Monotone(window)
    ensures WithinLength(b, window)
  {
    assert window[0..] == window;
    WindowBound(b, window, 0);
    ForwardInOrder(window, 0);
    AfterFilled(b, window);
    EarnedOver(b.limit, window[0], window[|window| - 1]);
  }

  // A detour hides a window whose last step, or first, alone is longer than
  // the whole: it starts above where the last step starts, or ends below where
  // the first step ends.
  ghost predicate Steep(times: seq<real>, i: nat, j: nat) {
    && i + 1 < j < |times| && times[i] <= times[j]
    && (times[j - 1] < times[i] || times[i + 1] > times[j])
  }

  lemma SteepRise(times: seq<real>) returns (i: nat, j: nat)
    requires !NoDetour(times)
    ensures Steep(times, i, j)
  {
    var from, to :| 0 <= from <= to < |times| && times[from] <= times[to] && !Monotone(times[from..to + 1]);
    var drop := DropWithin(times, from, to);
    if times[drop - 1] <= times[to] {
      i := drop - 1;
      j := Regained(times, drop, to);
    } else {
      i := Overshot(times, from, drop, to);
      j := to;
    }
  }

  // The first reading that comes back to where the drop began.
  lemma Regained(times: seq<real>, drop: nat, to: nat) returns (j: nat)
    requires 0 < drop <= to < |times| && times[drop] < times[drop - 1] <= times[to]
    ensures drop < j < |times| && times[j - 1] < times[drop - 1] <= times[j]
  {
    j := drop + 1;
    assert times[drop] < times[to];
    while times[j] < times[drop - 1]
      invariant drop < j <= to && times[j - 1] < times[drop - 1]
      decreases |times| - j
    {
      j := j + 1;
    }
  }

  // The last reading before the window's end is passed.
  lemma Overshot(times: seq<real>, from: nat, drop: nat, to: nat) returns (i: nat)
    requires from < drop <= to < |times| && times[from] <= times[to] < times[drop - 1]
    ensures i + 1 < drop && times[i] <= times[to] < times[i + 1]
  {
    i := from;
    while times[i + 1] <= times[to]
      invariant from <= i < drop - 1 && times[i] <= times[to]
      decreases drop - i
    {
      i := i + 1;
    }
  }

  lemma DropWithin(times: seq<real>, from: nat, to: nat) returns (drop: nat)
    requires from <= to < |times| && !Monotone(times[from..to + 1])
    ensures from < drop <= to && times[drop] < times[drop - 1]
  {
    drop := from + 1;
    while drop <= to && times[drop - 1] <= times[drop]
      invariant from < drop <= to + 1 && Monotone(times[from..drop])
    {
      assert times[from..drop][drop - 1 - from] == times[drop - 1];
      assert times[from..drop + 1] == times[from..drop] + [times[drop]];
      drop := drop + 1;
    }
  }

  // A bucket with one token that earns one in the long step grants twice,
  // which is more than the length of the window allows.
  lemma RiseEarns(times: seq<real>, i: nat, j: nat) returns (b: Bucket)
    requires Steep(times, i, j)
    ensures Filled(b) && !WithinLength(b, times[i..j + 1])
  {
    var w := times[i..j + 1];
    var n := |w| - 1;
    var last := w[n - 1] < w[0];
    var step := if last then w[n] - w[n - 1] else w[1] - w[0];
    b := Bucket(1.0 / step, 1, 1.0, w[0]);
    OneToken(step, w[n] - w[0]);
    EarnedOver(b.limit, w[0], w[n]);
    assert Earned(b.limit, w[0], w[n]) < 1.0;
    AfterFilled(b, w[..1]);
    AfterFilled(b, w[..n]);
    EarnedAdds(b.limit, w[0], w[0], w[0]);
    assert w[..1][..0] == [] && w[..2][..1] == w[..1] && w[..n][n - 1] == w[n - 1];
    assert Granted(b, w[..1], 0) == 1;
    if last {
      EarnedOver(b.limit, w[n - 1], w[n]);
      assert Earned(b.limit, w[n - 1], w[n]) == 1.0;
      GrantsAddUp(b, w[..n], 1);
      assert w[..n][..1] == w[..1];
    } else {
      EarnedOver(b.limit, w[0], w[1]);
      assert Earned(b.limit, w[0], w[1]) == 1.0;
      assert Granted(b, w[..2], 0) == 2;
      GrantsAddUp(b, w, 2);
    }
  }

  lemma OneToken(step: real, way: real)
    requires step > 0.0 && way < step
    ensures 1.0 / step > 0.0 && Earned(1.0 / step, 0.0, step) == 1.0 && Earned(1.0 / step, 0.0, way) < 1.0
  {
    var rate := 1.0 / step;
    assert Earned(rate, 0.0, step) == 1.0;
    EarnedAdds(rate, 0.0, way, step);
    assert Earned(rate, way, step) > 0.0;
  }

  lemma {:induction false} GrantsAddUp(b: Bucket, times: seq<real>, m: nat)
    requires m <= |times|
    ensures Granted(b, times[..m], 0) <= Granted(b, times, 0)
  {
    if m == |times| {
      assert times[..m] == times;
    } else {
      GrantsAddUp(b, times[..|times| - 1], m);
      assert times[..|times| - 1][..m] == times[..m];
    }
  }

  /* ----- the registry ----- */

  function BurstFor(limit: real): nat
    requires limit >= 0.0
  {
    if limit.Floor > 1 then limit.Floor else 1
  }

  // The burst is the rate in whole requests, but at least one.
  lemma BurstIsWholeRate(limit: real)
    requires limit >= 0.0
    ensures BurstFor(limit) >= 1
    ensures if limit < 1.0 then BurstFor(limit) == 1 else BurstFor(limit) as real <= limit < BurstFor(limit) as real + 1.0
  {
  }

  function NewBucket(limit: real, now: real): Bucket
    requires limit >= 0.0
  {
    Bucket(limit, BurstFor(limit), BurstFor(limit) as real, now)
  }

  class Limiter {
    var bucket: Bucket

    constructor (limit: real, now: real)
      requires limit >= 0.0
      ensures bucket == NewBucket(limit, now)
    {
      bucket := NewBucket(limit, now);
    }

    method Reserve(now: real) returns (granted: bool)
      modifies this
      ensures bucket == Take(old(bucket), now) && granted == Grants(old(bucket), now)
    {
      granted := Grants(bucket, now);
      bucket := Take(bucket, now);
    }
  }

  // The insertion order after a key came in: the oldest leaves a full registry.
  function OrderWith(order: seq<string>, key: string, maxEntries: nat): seq<string> {
    if key in order then order
    else (if |order| >= maxEntries && order != [] then order[1..] else order) + [key]
  }

  // The insertion order after a run of keys looked up and inserted.
  function OrderAfter(keys: seq<string>, maxEntries: nat): seq<string> {
    if keys == [] then [] else OrderWith(OrderAfter(keys[..|keys| - 1], maxEntries), keys[|keys| - 1], maxEntries)
  }

  // The keys of the run that had no limiter when they came, in order.
  function Newcomers(keys: seq<string>, maxEntries: nat): seq<string> {
    if keys == [] then []
    else
      var init, key := keys[..|keys| - 1], keys[|keys| - 1];
      Newcomers(init, maxEntries) + if key in OrderAfter(init, maxEntries) then [] else [key]
  }

  function Latest(keys: seq<string>, n: nat): seq<string> {
    if |keys| <= n then keys else keys[|keys| - n..]
  }

  // First in, first out: the keys that have a limiter are the latest newcomers,
  // as many as there is room for.
  lemma {:induction false} LatestNewcomersStay(keys: seq<string>, maxEntries: nat)
    requires maxEntries > 0
    ensures OrderAfter(keys, maxEntries) == Latest(Newcomers(keys, maxEntries), maxEntries)
  {
    if keys != [] {
      var init, key := keys[..|keys| - 1], keys[|keys| - 1];
      LatestNewcomersStay(init, maxEntries);
      NewcomerStays(Newcomers(init, maxEntries), key, maxEntries);
      assert key in OrderAfter(init, maxEntries) ==> Newcomers(init, maxEntries) + [] == Newcomers(init, maxEntries);
    }
  }

  lemma NewcomerStays(came: seq<string>, key: string, maxEntries: nat)
    requires maxEntries > 0
    ensures var order := Latest(came, maxEntries);
            OrderWith(order, key, maxEntries) == if key in order then order else Latest(came + [key], maxEntries)
  {
    var order, longer := Latest(came, maxEntries), came + [key];
    if key !in order && |came| >= maxEntries {
      assert order[1..] + [key] == longer[|longer| - maxEntries..];
    }
  }

  class Registry {
    var limiters: map<string, Limiter>
    var order: seq<string>
    const maxEntries: nat
    const defaults: map<string, real>
    const global: Limiter?

    // The keys with a limiter are exactly those in the insertion order, each
    // once, and at most maxEntries many.
    ghost predicate Valid() reads this {
      && maxEntries > 0 && |order| <= maxEntries && NoDup(order)
      && (forall k :: k in limiters <==> k in order)
      && (forall k :: k in defaults ==> defaults[k] >= 0.0)
      && (forall k :: k in limiters ==> limiters[k] != global)
    }

    constructor (defaultLimit: Option<real>, overrides: map<string, real>, globalLimit: Option<real>, maxEntries: nat, now: real)
      requires maxEntries > 0 && forall k :: k in overrides ==> overrides[k] > 0.0
      requires (defaultLimit.Some? ==> defaultLimit.value > 0.0) && (globalLimit.Some? ==> globalLimit.value > 0.0)
      ensures Valid() && limiters == map[] && this.maxEntries == maxEntries
      // A key's own override applies, else the default, else an override of
      // the empty key.
      ensures forall key :: RateFor(key) == if key != "" && key in overrides then Some(overrides[key])
                                            else if defaultLimit.Some? then defaultLimit
                                            else if "" in overrides then Some(overrides[""])
                                            else None
      ensures globalLimit.Some? <==> global != null
      ensures globalLimit.Some? ==> fresh(global) && global.bucket == NewBucket(globalLimit.value, now)
    {
      limiters, order, this.maxEntries := map[], [], maxEntries;
      defaults := if defaultLimit.Some? then overrides["" := defaultLimit.value] else overrides;
      if globalLimit.Some? {
        var l := new Limiter(globalLimit.value, now);
        global := l;
      } else {
        global := null;
      }
    }

    // The rate that applies to a key; none means the key is not limited.
    function RateFor(key: string): Option<real> {
      if key in defaults then Some(defaults[key])
      else if "" in defaults && defaults[""] != 0.0 then Some(defaults[""])
      else None
    }

    // Where a call goes after the first phase.
    ghost function Looked(key: string): Stage reads this {
      if key in limiters then Holds(limiters[key])
      else if RateFor(key).None? then Finished(true)
      else Missed(RateFor(key).value)
    }

    // First phase of getLimiter, under the read lock.
    method Lookup(key: string) returns (l: Limiter?)
      requires Valid()
      ensures if key in limiters then l == limiters[key] else l == null
    {
      l := if key in limiters then limiters[key] else null;
    }

    // Second phase, under the write lock; other calls may have come between.
    method Insert(key: string, limit: real, now: real) returns (l: Limiter)
      requires Valid() && limit >= 0.0
      modifies this
      ensures Valid() && key in limiters && limiters[key] == l
      ensures key in old(limiters) ==> l == old(limiters)[key] && limiters == old(limiters) && order == old(order)
      ensures key !in old(limiters) ==> fresh(l) && l.bucket == NewBucket(limit, now)
      ensures order == OrderWith(old(order), key, maxEntries)
      ensures key !in old(limiters) ==> forall k :: k in order && k != key ==> k in old(limiters) && limiters[k] == old(limiters)[k]
    {
      if key in limiters {
        return limiters[key];
      }
      if |order| >= maxEntries {
        var evict := order[0];
        assert order == [evict] + order[1..];
        order := order[1..];
        limiters := limiters - {evict};
      }
      l := new Limiter(limit, now);
      limiters := limiters[key := l];
      order := order + [key];
    }

    // A call with nothing in between its critical sections.  The global bucket
    // is asked first: what it refuses leaves the keys alone, what it grants
    // costs a token there whatever the key's own limiter says.  A key that had
    // no limiter is granted at once.
    method Allow(key: string, now: real) returns (granted: bool)
      requires Valid()
      modifies this, limiters.Values, global
      ensures Valid() && forall k :: k in limiters ==> fresh(limiters[k]) || (k in old(limiters) && limiters[k] == old(limiters)[k])
      ensures global != null ==> global.bucket == Take(old(global.bucket), now)
      ensures granted <==> (global == null || Grants(old(global.bucket), now))
                           && (key in old(limiters) ==> Grants(old(limiters[key].bucket), now))
      ensures global != null && !Grants(old(global.bucket), now) ==>
                limiters == old(limiters) && order == old(order)
                && forall k :: k in limiters ==> limiters[k] != global && limiters[k].bucket == old(limiters[k].bucket)
      ensures (global == null || Grants(old(global.bucket), now)) && (key in old(limiters) || RateFor(key).Some?) ==>
                && key in limiters && order == OrderWith(old(order), key, maxEntries)
                && limiters[key].bucket == Take(if key in old(limiters) then old(limiters[key].bucket) else NewBucket(RateFor(key).value, now), now)
    {
      if global != null {
        var pass := global.Reserve(now);
        if !pass {
          return false;
        }
      }
      var l := Lookup(key);
      if l == null {
        var rate := RateFor(key);
        if rate.None? {
          return true;
        }
        assert rate.value >= 0.0;
        l := Insert(key, rate.value, now);
        NewBucketGrants(rate.value, now);
      }
      granted := l.Reserve(now);
    }
  }

  lemma NewBucketGrants(limit: real, now: real)
    requires limit >= 0.0
    ensures Grants(NewBucket(limit, now), now)
  {
  }

  /* ----- calls in steps ----- */

  // One call of Allow, by its key and how far it is.  Missed has seen no limiter
  // under the read lock; Holds has one in hand, evicted since or not.
  datatype Stage = Begun | Passed | Missed(limit: real) | Holds(l: Limiter) | Finished(allowed: bool)

  datatype Call = Call(key: string, stage: Stage)

  // The critical sections of Allow and getLimiter; a step that finds its call
  // at another stage does nothing.
  datatype Step =
    | Begin(key: string)
    | AskGlobal(c: nat, now: real)
    | LookUp(c: nat)
    | InsertKey(c: nat, now: real)
    | AskLocal(c: nat, now: real)

  ghost predicate At(calls: seq<Call>, c: nat, stage: Stage) {
    c < |calls| && calls[c].stage == stage
  }

  // A call that got past the global limiter was granted a token there.
  ghost predicate PastGlobal(stage: Stage) {
    stage.Passed? || stage.Missed? || stage.Holds? || stage == Finished(true)
  }

  // What a step can do, as far as the global limiter is concerned: a call that
  // has just begun asks it, one past it moves on, and nobody else does
  // anything.
  ghost predicate Follows(bucket: Bucket, calls: seq<Call>, asked: seq<(nat, real)>, step: Step, next: seq<Call>, asked': seq<(nat, real)>) {
    match step
    case Begin(key) => next == calls + [Call(key, Begun)] && asked' == asked
    case AskGlobal(c, now) =>
      if At(calls, c, Begun)
      then next == calls[c := calls[c].(stage := if Grants(bucket, now) then Passed else Finished(false))] && asked' == asked + [(c, now)]
      else next == calls && asked' == asked
    case LookUp(c) => MovesOn(calls, c, next) && asked' == asked
    case InsertKey(c, _) => MovesOn(calls, c, next) && asked' == asked
    case AskLocal(c, _) => MovesOn(calls, c, next) && asked' == asked
  }

  ghost predicate MovesOn(calls: seq<Call>, c: nat, next: seq<Call>) {
    next == calls || (c < |calls| == |next| && PastGlobal(calls[c].stage) && !next[c].stage.Begun? && next == calls[c := next[c]])
  }

  // The calls and the requests to the global limiter: who asked, and when.
  method Perform(r: Registry, calls: seq<Call>, asked: seq<(nat, real)>, step: Step) returns (next: seq<Call>, asked': seq<(nat, real)>)
    requires r.Valid()
    requires forall c :: 0 <= c < |calls| && calls[c].stage.Holds? ==> calls[c].stage.l != r.global
    requires forall c :: 0 <= c < |calls| && calls[c].stage.Missed? ==> calls[c].stage.limit >= 0.0
    modifies r, r.global, set c | 0 <= c < |calls| && calls[c].stage.Holds? :: calls[c].stage.l
    ensures r.Valid()
    ensures forall c :: 0 <= c < |next| && next[c].stage.Holds? ==> next[c].stage.l != r.global
    ensures forall c :: 0 <= c < |next| && next[c].stage.Missed? ==> next[c].stage.limit >= 0.0
    ensures forall c :: 0 <= c < |next| && next[c].stage.Holds? && (c >= |calls| || next[c] != calls[c]) ==>
              fresh(next[c].stage.l) || next[c].stage.l in old(r.limiters.Values)
    ensures forall k :: k in r.limiters ==> fresh(r.limiters[k]) || r.limiters[k] in old(r.limiters.Values)
    // The global limiter, if there is one, hears from a call that has just
    // begun, and nobody else.
    ensures asked' == if step.AskGlobal? && At(calls, step.c, Begun) && r.global != null then asked + [(step.c, step.now)] else asked
    ensures r.global != null ==>
              r.global.bucket == if asked' == asked then old(r.global.bucket) else Take(old(r.global.bucket), step.now)
    ensures next == match step
                    case Begin(key) => calls + [Call(key, Begun)]
                    case AskGlobal(c, now) =>
                      if At(calls, c, Begun)
                      then calls[c := calls[c].(stage := if r.global == null || Grants(old(r.global.bucket), now) then Passed else Finished(false))]
                      else calls
                    case LookUp(c) =>
                      if At(calls, c, Passed) then calls[c := calls[c].(stage := r.Looked(calls[c].key))] else calls
                    case InsertKey(c, _) =>
                      if c < |calls| && calls[c].stage.Missed? && calls[c].key in r.limiters
                      then calls[c := calls[c].(stage := Holds(r.limiters[calls[c].key]))]
                      else calls
                    case AskLocal(c, now) =>
                      if c < |calls| && calls[c].stage.Holds?
                      then calls[c := calls[c].(stage := Finished(Grants(old(calls[c].stage.l.bucket), now)))]
                      else calls
    ensures step.InsertKey? && step.c < |calls| && calls[step.c].stage.Missed? ==>
              && calls[step.c].key in r.limiters
              && (calls[step.c].key !in old(r.limiters) ==> r.limiters[calls[step.c].key].bucket == NewBucket(calls[step.c].stage.limit, step.now))
    ensures step.AskLocal? && step.c < |calls| && calls[step.c].stage.Holds? ==>
              calls[step.c].stage.l.bucket == Take(old(calls[step.c].stage.l.bucket), step.now)
    ensures r.global != null ==> Follows(old(r.global.bucket), calls, asked, step, next, asked')
    ensures r.order == if step.InsertKey? && step.c < |calls| && calls[step.c].stage.Missed?
                       then OrderWith(old(r.order), calls[step.c].key, r.maxEntries) else old(r.order)
  {
    next, asked' := calls, asked;
    match step
    case Begin(key) =>
      next := calls + [Call(key, Begun)];
    case AskGlobal(c, now) =>
      if c < |calls| && calls[c].stage.Begun? {
        var pass := true;
        if r.global != null {
          pass := r.global.Reserve(now);
          asked' := asked + [(c, now)];
        }
        next := calls[c := calls[c].(stage := if pass then Passed else Finished(false))];
      }
    case LookUp(c) =>
      if c < |calls| && calls[c].stage.Passed? {
        var l := r.Lookup(calls[c].key);
        var rate := r.RateFor(calls[c].key);
        next := calls[c := calls[c].(stage := if l != null then Holds(l) else if rate.None? then Finished(true) else Missed(rate.value))];
      }
    case InsertKey(c, now) =>
      if c < |calls| && calls[c].stage.Missed? {
        var l := r.Insert(calls[c].key, calls[c].stage.limit, now);
        next := calls[c := calls[c].(stage := Holds(l))];
      }
    case AskLocal(c, now) =>
      if c < |calls| && calls[c].stage.Holds? {
        var granted := calls[c].stage.l.Reserve(now);
        next := calls[c := calls[c].(stage := Finished(granted))];
      }
  }

  /* ----- the rate bound ----- */

  function Times(asked: seq<(nat, real)>): seq<real> {
    seq(|asked|, i requires 0 <= i < |asked| => asked[i].1)
  }

  // How many calls from the i-th on are allowed.
  function Allowed(grants: seq<bool>, i: nat): nat
    requires i <= |grants|
  {
    if |grants| == i then 0 else Allowed(grants[..|grants| - 1], i) + if grants[|grants| - 1] then 1 else 0
  }

  lemma {:induction false} AllowedWithinGranted(b: Bucket, times: seq<real>, grants: seq<bool>, i: nat)
    requires |grants| == |times| && i <= |grants|
    requires forall k :: 0 <= k < |grants| && grants[k] ==> Grants(After(b, times[..k]), times[k])
    ensures Allowed(grants, i) <= Granted(b, times, i)
  {
    if i < |grants| {
      var n := |grants| - 1;
      forall k | 0 <= k < n && grants[k] ensures Grants(After(b, times[..n][..k]), times[..n][k]) {
        assert times[..n][..k] == times[..k];
      }
      AllowedWithinGranted(b, times[..n], grants[..n], i);
    }
  }

  ghost function AllowedAt(grants: seq<bool>, i: nat): set<nat> {
    set k: nat | i <= k < |grants| && grants[k]
  }

  lemma {:induction false} AllowedCounts(grants: seq<bool>, i: nat)
    requires i <= |grants|
    ensures Allowed(grants, i) == |AllowedAt(grants, i)|
  {
    if |grants| == i {
      assert AllowedAt(grants, i) == {};
    } else {
      var n := |grants| - 1;
      AllowedCounts(grants[..n], i);
      assert AllowedAt(grants, i) == AllowedAt(grants[..n], i) + if grants[n] then {n} else {};
    }
  }

  // The calls allowed among those that asked in a window, over all keys
  // together.
  ghost predicate WindowRespected(limit: real, asked: seq<(nat, real)>, grants: seq<bool>, i: nat, j: nat)
    requires limit >= 0.0 && i < j <= |grants| == |asked|
  {
    Allowed(grants[..j], i) as real <= BurstFor(limit) as real + Earned(limit, 0.0, Forward(Times(asked[..j]), i))
  }

  ghost predicate LengthRespected(limit: real, asked: seq<(nat, real)>, grants: seq<bool>, i: nat, j: nat)
    requires limit >= 0.0 && i < j <= |grants| == |asked|
  {
    Allowed(grants[..j], i) as real <= BurstFor(limit) as real + Earned(limit, asked[i].1, asked[j - 1].1)
  }

  predicate IsAllowed(calls: seq<Call>, c: nat) {
    c < |calls| && calls[c].stage == Finished(true)
  }

  // Which of the requests belong to calls that were allowed in the end.
  function Outcomes(calls: seq<Call>, asked: seq<(nat, real)>): seq<bool> {
    seq(|asked|, i requires 0 <= i < |asked| => IsAllowed(calls, asked[i].0))
  }

  // The i-th request was granted.
  ghost predicate Backed(b: Bucket, asked: seq<(nat, real)>, i: nat)
    requires i < |asked|
  {
    Grants(After(b, Times(asked[..i])), asked[i].1)
  }

  ghost predicate Accounted(b: Bucket, calls: seq<Call>, asked: seq<(nat, real)>) {
    && (forall i :: 0 <= i < |asked| ==> RequestOk(b, calls, asked, i))
    && (forall i, j :: 0 <= i < j < |asked| ==> asked[i].0 != asked[j].0)
    && (forall c :: 0 <= c < |calls| && !calls[c].stage.Begun? ==> HasAsked(asked, c))
  }

  ghost predicate RequestOk(b: Bucket, calls: seq<Call>, asked: seq<(nat, real)>, i: nat)
    requires i < |asked|
  {
    var c := asked[i].0;
    c < |calls| && !calls[c].stage.Begun? && (PastGlobal(calls[c].stage) ==> Backed(b, asked, i))
  }

  ghost predicate HasAsked(asked: seq<(nat, real)>, c: nat) {
    exists i :: 0 <= i < |asked| && asked[i].0 == c
  }

  lemma BeginKeepsAccount(b: Bucket, calls: seq<Call>, asked: seq<(nat, real)>, key: string)
    requires Accounted(b, calls, asked)
    ensures Accounted(b, calls + [Call(key, Begun)], asked)
  {
    var next := calls + [Call(key, Begun)];
    forall i | 0 <= i < |asked| ensures RequestOk(b, next, asked, i) {
      assert RequestOk(b, calls, asked, i);
    }
    forall c | 0 <= c < |next| && !next[c].stage.Begun? ensures HasAsked(asked, c) {
      assert next[c] == calls[c];
    }
  }

  lemma AskKeepsRequest(b: Bucket, calls: seq<Call>, asked: seq<(nat, real)>, c: nat, now: real, stage: Stage, i: nat)
    requires Accounted(b, calls, asked) && At(calls, c, Begun) && i <= |asked|
    requires stage == if Grants(After(b, Times(asked)), now) then Passed else Finished(false)
    ensures RequestOk(b, calls[c := calls[c].(stage := stage)], asked + [(c, now)], i)
  {
    var longer := asked + [(c, now)];
    if i < |asked| {
      assert RequestOk(b, calls, asked, i);
      assert longer[..i] == asked[..i];
    } else {
      assert longer[..i] == asked;
    }
  }

  lemma AskKeepsAccount(b: Bucket, calls: seq<Call>, asked: seq<(nat, real)>, c: nat, now: real, stage: Stage)
    requires Accounted(b, calls, asked) && At(calls, c, Begun)
    requires stage == if Grants(After(b, Times(asked)), now) then Passed else Finished(false)
    ensures Accounted(b, calls[c := calls[c].(stage := stage)], asked + [(c, now)])
  {
    var next, longer := calls[c := calls[c].(stage := stage)], asked + [(c, now)];
    forall i | 0 <= i < |longer| ensures RequestOk(b, next, longer, i) {
      AskKeepsRequest(b, calls, asked, c, now, stage, i);
    }
    forall i | 0 <= i < |asked| ensures asked[i].0 != c {
      assert RequestOk(b, calls, asked, i);
    }
    forall d | 0 <= d < |next| && !next[d].stage.Begun? ensures HasAsked(longer, d) {
      AskedGrows(asked, (c, now), d);
    }
  }

  lemma AskedGrows(asked: seq<(nat, real)>, request: (nat, real), d: nat)
    ensures HasAsked(asked + [request], d) <==> HasAsked(asked, d) || d == request.0
  {
    var longer := asked + [request];
    assert longer[|asked|] == request;
    if HasAsked(asked, d) {
      var i :| 0 <= i < |asked| && asked[i].0 == d;
      assert longer[i].0 == d;
    }
  }

  lemma MoveKeepsAccount(b: Bucket, calls: seq<Call>, asked: seq<(nat, real)>, c: nat, next: seq<Call>)
    requires Accounted(b, calls, asked) && MovesOn(calls, c, next)
    ensures Accounted(b, next, asked)
  {
    forall i | 0 <= i < |asked| ensures RequestOk(b, next, asked, i) {
      assert RequestOk(b, calls, asked, i);
    }
    forall d | 0 <= d < |next| && !next[d].stage.Begun? ensures HasAsked(asked, d) {
      assert !calls[d].stage.Begun?;
    }
  }

  // The whole account: the bucket has seen the requests in order, and every
  // call past the global limiter had its request granted.
  ghost predicate Books(b: Bucket, bucket: Bucket, calls: seq<Call>, asked: seq<(nat, real)>) {
    Accounted(b, calls, asked) && bucket == After(b, Times(asked))
  }

  lemma StepKeepsBooks(b: Bucket, bucket: Bucket, calls: seq<Call>, asked: seq<(nat, real)>, step: Step, next: seq<Call>,
                       asked': seq<(nat, real)>, bucket': Bucket)
    requires Books(b, bucket, calls, asked) && Follows(bucket, calls, asked, step, next, asked')
    requires bucket' == if asked' == asked then bucket else Take(bucket, step.now)
    ensures Books(b, bucket', next, asked')
  {
    match step
    case Begin(key) => BeginKeepsAccount(b, calls, asked, key);
    case AskGlobal(c, now) =>
      if At(calls, c, Begun) {
        AskKeepsAccount(b, calls, asked, c, now, next[c].stage);
        assert Times(asked') == Times(asked) + [now];
        AfterAppend(b, Times(asked), now);
      }
    case LookUp(c) => MoveKeepsAccount(b, calls, asked, c, next);
    case InsertKey(c, _) => MoveKeepsAccount(b, calls, asked, c, next);
    case AskLocal(c, _) => MoveKeepsAccount(b, calls, asked, c, next);
  }

  lemma AfterAppend(b: Bucket, times: seq<real>, now: real)
    ensures After(b, times + [now]) == Take(After(b, times), now)
  {
    assert (times + [now])[..|times|] == times;
  }

  // Any interleaving of the critical sections of any calls, with any keys and
  // rates and the evictions they cause: the keys with a limiter equal the
  // duplicate-free insertion order, and in every window of requests to the
  // global limiter the calls allowed number at most its burst plus its rate
  // times what the clock readings move forward in the window; for readings
  // without a detour that is its length.
  method Serve(defaultLimit: Option<real>, overrides: map<string, real>, globalLimit: real, maxEntries: nat, start: real, schedule: seq<Step>)
    returns (r: Registry, calls: seq<Call>, asked: seq<(nat, real)>)
    requires maxEntries > 0 && globalLimit > 0.0 && (forall k :: k in overrides ==> overrides[k] > 0.0)
    requires defaultLimit.Some? ==> defaultLimit.value > 0.0
    ensures r.Valid() && r.maxEntries == maxEntries
    ensures forall c :: IsAllowed(calls, c) ==> HasAsked(asked, c)
    ensures forall i, j :: 0 <= i < j < |asked| ==> asked[i].0 != asked[j].0
    ensures forall i, j :: 0 <= i < j <= |asked| ==> WindowRespected(globalLimit, asked, Outcomes(calls, asked), i, j)
    ensures NoDetour(Times(asked)) ==>
              forall i, j :: 0 <= i < j <= |asked| && asked[i].1 <= asked[j - 1].1 ==>
                LengthRespected(globalLimit, asked, Outcomes(calls, asked), i, j)
  {
    r := new Registry(defaultLimit, overrides, Some(globalLimit), maxEntries, start);
    ghost var b := NewBucket(globalLimit, start);
    calls, asked := [], [];
    for n := 0 to |schedule|
      invariant fresh(r) && r.Valid() && r.maxEntries == maxEntries && r.global != null && fresh(r.global)
      invariant forall k :: k in r.limiters ==> fresh(r.limiters[k])
      invariant forall c :: 0 <= c < |calls| && calls[c].stage.Holds? ==> fresh(calls[c].stage.l) && calls[c].stage.l != r.global
      invariant forall c :: 0 <= c < |calls| && calls[c].stage.Missed? ==> calls[c].stage.limit >= 0.0
      invariant Books(b, r.global.bucket, calls, asked)
    {
      ghost var bucket, before, reqs := r.global.bucket, calls, asked;
      calls, asked := Perform(r, calls, asked, schedule[n]);
      StepKeepsBooks(b, bucket, before, reqs, schedule[n], calls, asked, r.global.bucket);
    }
    AllWindows(globalLimit, start, calls, asked);
  }

  lemma AllWindows(limit: real, start: real, calls: seq<Call>, asked: seq<(nat, real)>)
    requires limit > 0.0 && Accounted(NewBucket(limit, start), calls, asked)
    ensures forall i, j :: 0 <= i < j <= |asked| ==> WindowRespected(limit, asked, Outcomes(calls, asked), i, j)
    ensures NoDetour(Times(asked)) ==>
              forall i, j :: 0 <= i < j <= |asked| && asked[i].1 <= asked[j - 1].1 ==>
                LengthRespected(limit, asked, Outcomes(calls, asked), i, j)
  {
    var b := NewBucket(limit, start);
    forall k | 0 <= k < |asked| && Outcomes(calls, asked)[k] ensures Backed(b, asked, k) {
      assert RequestOk(b, calls, asked, k);
    }
    forall i, j | 0 <= i < j <= |asked|
      ensures WindowRespected(limit, asked, Outcomes(calls, asked), i, j)
      ensures NoDetour(Times(asked)) && asked[i].1 <= asked[j - 1].1 ==> LengthRespected(limit, asked, Outcomes(calls, asked), i, j)
    {
      EveryWindow(limit, start, asked, Outcomes(calls, asked), i, j);
    }
  }

  // The bound for each window of requests.
  lemma EveryWindow(limit: real, start: real, asked: seq<(nat, real)>, grants: seq<bool>, i: nat, j: nat)
    requires limit > 0.0 && i < j <= |grants| == |asked|
    requires var b := NewBucket(limit, start);
             forall k :: 0 <= k < |grants| && grants[k] ==> Backed(b, asked, k)
    ensures WindowRespected(limit, asked, grants, i, j)
    ensures NoDetour(Times(asked)) && asked[i].1 <= asked[j - 1].1 ==> LengthRespected(limit, asked, grants, i, j)
  {
    var b, window := NewBucket(limit, start), Times(asked[..j]);
    forall k | 0 <= k < j && grants[..j][k] ensures Grants(After(b, window[..k]), window[k]) {
      assert window[..k] == Times(asked[..k]) && Backed(b, asked, k);
    }
    AllowedWithinGranted(b, window, grants[..j], i);
    AfterFilled(b, window);
    WindowBound(b, window, i);
    assert b.limit == limit && Filled(After(b, window));
    assert WindowRespected(limit, asked, grants, i, j);
    if NoDetour(Times(asked)) && asked[i].1 <= asked[j - 1].1 {
      InOrderForward(limit, asked, i, j);
    }
  }

  lemma InOrderForward(limit: real, asked: seq<(nat, real)>, i: nat, j: nat)
    requires i < j <= |asked| && NoDetour(Times(asked)) && asked[i].1 <= asked[j - 1].1
    ensures Earned(limit, 0.0, Forward(Times(asked[..j]), i)) == Earned(limit, asked[i].1, asked[j - 1].1)
  {
    WindowInOrder(asked, i, j);
    ForwardInOrder(Times(asked[..j]), i);
    EarnedOver(limit, asked[i].1, asked[j - 1].1);
  }

  lemma WindowInOrder(asked: seq<(nat, real)>, i: nat, j: nat)
    requires i < j <= |asked| && NoDetour(Times(asked)) && asked[i].1 <= asked[j - 1].1
    ensures Monotone(Times(asked[..j])[i..])
  {
    var times, k := Times(asked), j - 1;
    assert Times(asked[..j])[i..] == times[i..k + 1];
    assert times[i] <= times[k];
  }

  lemma EarnedOver(limit: real, from: real, to: real)
    ensures Earned(limit, 0.0, to - from) == Earned(limit, from, to)
  {
  }
}
