/** TokenBucketLimiter (api-gateway/rate_limiter.py): a bucket per client key, refilled
    lazily when the client calls. Tokens are exact reals.

    The bucket is specified over credits, the tokens the refill has brought by a given
    time: credit(t) = t * refill, so a wait of d seconds is worth d * refill. */
module TokenBucket {
  import opened RateLimiting

  datatype Verdict = Admitted | Refused(retryAfter: real) | DividedByZero

  function Min(a: real, b: real): real {
    if a < b then a else b
  }

  // --- one key's bucket, as a fold over the credits at its calls --------------------------------

  datatype Bucket = Unseen | Bucket(tokens: real, last: real)

  /** The tokens a call finds when the credits stand at c. */
  function Level(cap: real, b: Bucket, c: real): real {
    if b.Unseen? then cap else Min(cap, b.tokens + (c - b.last))
  }

  function Pay(level: real): real {
    if level >= 1.0 then level - 1.0 else level
  }

  function After(cap: real, h: seq<real>): Bucket {
    if h == [] then Unseen
    else
      var c := h[|h| - 1];
      Bucket(Pay(Level(cap, After(cap, h[..|h| - 1]), c)), c)
  }

  /** The tokens found by a call at c after the calls h of the same key. */
  function Found(cap: real, h: seq<real>, c: real): real {
    Level(cap, After(cap, h), c)
  }

  predicate Admits(cap: real, h: seq<real>, c: real) {
    Found(cap, h, c) >= 1.0
  }

  lemma {:induction false} AfterSnoc(cap: real, h: seq<real>, c: real)
    ensures After(cap, h + [c]) == Bucket(Pay(Found(cap, h, c)), c)
  {
    assert (h + [c])[..|h|] == h;
  }

  // --- the class -----------------------------------------------------------------------------------

  function PerSecond(refill: real): real -> real {
    (t: real) => t * refill
  }

  function Credits(credit: real -> real, times: seq<real>): (h: seq<real>)
    ensures |h| == |times|
    ensures forall i :: 0 <= i < |h| ==> h[i] == credit(times[i])
  {
    if times == [] then [] else Credits(credit, times[..|times| - 1]) + [credit(times[|times| - 1])]
  }

  /** The tokens a key's call at `now` finds after its calls so far. */
  function FoundBy(capacity: int, credit: real -> real, times: seq<real>, now: real): real {
    Found(capacity as real, Credits(credit, times), credit(now))
  }

  function VerdictOf(refill: real, level: real): Verdict {
    if level >= 1.0 then Admitted
    else if refill == 0.0 then DividedByZero
    else Refused((1.0 - level) / refill)
  }

  /** The verdict on a key's call at `now`, after its calls so far. */
  function Answer(capacity: int, refill: real, times: seq<real>, now: real): Verdict {
    VerdictOf(refill, FoundBy(capacity, PerSecond(refill), times, now))
  }

  lemma AdmittedIsFound(capacity: int, refill: real, times: seq<real>, now: real)
    ensures Answer(capacity, refill, times, now).Admitted? <==> FoundBy(capacity, PerSecond(refill), times, now) >= 1.0
  {
  }

  class TokenBucketLimiter {
    const capacity: int
    const refill: real
    var tokens: map<string, real>
    var lastRefill: map<string, real>
    ghost var calls: seq<Call>

    /** Each key's entries are its own bucket: other keys leave no trace in it. */
    ghost predicate Valid()
      reads this
    {
      forall key: string :: Holds(capacity as real, PerSecond(refill), tokens, lastRefill, key, TimesOf(calls, key))
    }

    static ghost predicate Holds(cap: real, credit: real -> real, tokens: map<string, real>,
                                 lastRefill: map<string, real>, key: string, times: seq<real>) {
      && (key in tokens <==> times != [])
      && (key in lastRefill <==> times != [])
      && (times != [] ==>
            && lastRefill[key] == times[|times| - 1]
            && tokens[key] == After(cap, Credits(credit, times)).tokens)
    }

    constructor (capacity: int, refill: real)
      ensures Valid() && calls == [] && this.capacity == capacity && this.refill == refill
    {
      this.capacity, this.refill := capacity, refill;
      tokens, lastRefill, calls := map[], map[], [];
    }

    method Allow(key: string, now: real) returns (verdict: Verdict)
      requires Valid()
      modifies this
      ensures Valid() && calls == old(calls) + [Call(key, now)]
      ensures verdict == Answer(capacity, refill, TimesOf(old(calls), key), now)
      ensures verdict.DividedByZero? <==> !verdict.Admitted? && refill == 0.0
      ensures var times := TimesOf(old(calls), key);
              refill >= 0.0 && Monotone(times) && NotBefore(times, now) ==>
                (verdict.Admitted? <==> forall i :: 0 <= i <= |times| ==> HasRoom(capacity, refill, times, now, i))
    {
      ghost var times := TimesOf(calls, key);
      if refill >= 0.0 && Monotone(times) && NotBefore(times, now) {
        AdmittedExactly(capacity, refill, times, now);
      }
      var level := Refilled(key, now);
      verdict := VerdictOf(refill, level);
      Store(key, now, if level >= 1.0 then level - 1.0 else level);
    }

    /** The lazy refill: the tokens the call finds. */
    method Refilled(key: string, now: real) returns (level: real)
      requires Valid()
      ensures level == FoundBy(capacity, PerSecond(refill), TimesOf(calls, key), now)
    {
      ghost var times := TimesOf(calls, key);
      assert Holds(capacity as real, PerSecond(refill), tokens, lastRefill, key, times);
      level := if key in tokens then tokens[key] else capacity as real;
      var last := if key in lastRefill then lastRefill[key] else now;
      var elapsed := now - last;
      var gained := elapsed * refill;
      SecondsToCredits(refill, last, now);
      level := Min(capacity as real, level + gained);
    }

    /** The two dictionary writes, the same whether the call was admitted or not. */
    method Store(key: string, now: real, left: real)
      requires Valid() && left == Pay(FoundBy(capacity, PerSecond(refill), TimesOf(calls, key), now))
      modifies this
      ensures Valid() && calls == old(calls) + [Call(key, now)]
    {
      ghost var cap, credit := capacity as real, PerSecond(refill);
      ghost var before, kept, keptRefill := calls, tokens, lastRefill;
      calls := calls + [Call(key, now)];
      tokens := tokens[key := left];
      lastRefill := lastRefill[key := now];
      forall other: string
        ensures Holds(cap, credit, tokens, lastRefill, other, TimesOf(calls, other))
      {
        assert Holds(cap, credit, kept, keptRefill, other, TimesOf(before, other));
        TimesSnoc(before, Call(key, now), other);
        CreditsSnoc(credit, TimesOf(before, key), now);
        AfterSnoc(cap, Credits(credit, TimesOf(before, key)), credit(now));
      }
    }
  }

  lemma {:induction false} CreditsSnoc(credit: real -> real, times: seq<real>, now: real)
    ensures Credits(credit, times + [now]) == Credits(credit, times) + [credit(now)]
  {
    assert (times + [now])[..|times|] == times;
  }

  /** What passes between two times is the elapsed time at the refill rate. */
  lemma SecondsToCredits(refill: real, from: real, to: real)
    ensures PerSecond(refill)(to) - PerSecond(refill)(from) == (to - from) * refill
  {
  }

  ghost predicate Grows(credit: real -> real) {
    forall s: real, t: real :: s <= t ==> credit(s) <= credit(t)
  }

  lemma PerSecondGrows(refill: real)
    requires refill >= 0.0
    ensures Grows(PerSecond(refill))
  {
    forall s: real, t: real | s <= t
      ensures PerSecond(refill)(s) <= PerSecond(refill)(t)
    {
      SecondsToCredits(refill, s, t);
      assert (t - s) * refill >= 0.0;
    }
  }

  // --- the bucket against its specification over the whole history --------------------------------------

  /** Calls admitted among those from index i on. */
  function Admissions(cap: real, h: seq<real>, i: nat): nat {
    if |h| <= i then 0
    else
      var front := h[..|h| - 1];
      Admissions(cap, front, i) + if Admits(cap, front, h[|h| - 1]) then 1 else 0
  }

  /** The start of the window that begins with call i, or with the call asking now. */
  function StartOf(h: seq<real>, now: real, i: nat): real {
    if i < |h| then h[i] else now
  }

  /** What a window that begins at call i still allows. */
  function Allowance(cap: real, h: seq<real>, c: real, i: nat): real {
    cap + (c - StartOf(h, c, i)) - Admissions(cap, h, i) as real
  }

  /** Another call makes every window longer and counts in those it was admitted to. */
  lemma {:induction false} AllowanceSnoc(cap: real, h: seq<real>, last: real, c: real, i: nat)
    requires i <= |h|
    ensures Allowance(cap, h + [last], c, i) ==
            Allowance(cap, h, last, i) + (c - last) - if Admits(cap, h, last) then 1.0 else 0.0
  {
    assert (h + [last])[..|h|] == h;
  }

  /** A bucket not full at any call since `full`, nor now, is so in the longer history. */
  lemma {:induction false} NotFullSince(cap: real, h: seq<real>, front: seq<real>, last: real, c: real, full: nat)
    requires h == front + [last] && full <= |front| && Found(cap, h, c) < cap
    requires forall k :: full < k <= |front| ==> Found(cap, front[..k], StartOf(front, last, k)) < cap
    ensures forall k :: full < k <= |h| ==> Found(cap, h[..k], StartOf(h, c, k)) < cap
  {
    forall k | full < k <= |h|
      ensures Found(cap, h[..k], StartOf(h, c, k)) < cap
    {
      if k == |h| {
        assert h[..k] == h;
      } else {
        assert h[..k] == front[..k] && StartOf(h, c, k) == StartOf(front, last, k);
      }
    }
  }

  /** The level is the least of the windows' allowances, attained in the window that
      starts when the bucket was last full. */
  lemma {:induction false} LevelIsLeastAllowance(cap: real, h: seq<real>, c: real) returns (full: nat)
    requires Monotone(h) && NotBefore(h, c)
    ensures forall i :: 0 <= i <= |h| ==> Found(cap, h, c) <= Allowance(cap, h, c, i)
    ensures full <= |h| && Found(cap, h, c) == Allowance(cap, h, c, full)
    ensures Found(cap, h[..full], StartOf(h, c, full)) == cap
    ensures forall k :: full < k <= |h| ==> Found(cap, h[..k], StartOf(h, c, k)) < cap
  {
    if h == [] {
      full := 0;
    } else {
      var front, last := h[..|h| - 1], h[|h| - 1];
      assert h == front + [last];
      var earlier := LevelIsLeastAllowance(cap, front, last);
      forall i | 0 <= i < |h|
        ensures Found(cap, h, c) <= Allowance(cap, h, c, i)
      {
        AllowanceSnoc(cap, front, last, c, i);
      }
      if After(cap, h).tokens + (c - last) >= cap {
        full := |h|;
        assert h[..full] == h;
      } else {
        full := earlier;
        AllowanceSnoc(cap, front, last, c, full);
        assert h[..full] == front[..full];
        NotFullSince(cap, h, front, last, c, full);
      }
    }
  }

  /** Calls admitted with credits between from and to. */
  function AdmittedWithin(cap: real, h: seq<real>, from: real, to: real): nat {
    if h == [] then 0
    else
      var front, c := h[..|h| - 1], h[|h| - 1];
      AdmittedWithin(cap, front, from, to) + if from <= c <= to && Admits(cap, front, c) then 1 else 0
  }

  lemma {:induction false} WithinIsSuffix(cap: real, h: seq<real>, from: real, to: real, i: nat)
    requires i <= |h|
    requires forall k :: 0 <= k < i ==> h[k] < from
    requires forall k :: i <= k < |h| ==> from <= h[k] <= to
    ensures AdmittedWithin(cap, h, from, to) == Admissions(cap, h, i)
  {
    if h == [] {
    } else {
      var front := h[..|h| - 1];
      WithinIsSuffix(cap, front, from, to, if i == |h| then i - 1 else i);
    }
  }

  lemma FirstSince(h: seq<real>, from: real) returns (i: nat)
    requires Monotone(h)
    ensures i <= |h| && (forall k :: 0 <= k < i ==> h[k] < from) && (forall k :: i <= k < |h| ==> from <= h[k])
  {
    i := 0;
    while i < |h| && h[i] < from
      invariant i <= |h| && forall k :: 0 <= k < i ==> h[k] < from
    {
      i := i + 1;
    }
  }

  lemma {:induction false} WithinBound(cap: real, h: seq<real>, from: real, to: real)
    requires cap >= 0.0 && Monotone(h) && from <= to
    ensures AdmittedWithin(cap, h, from, to) as real <= cap + (to - from)
  {
    if h == [] {
    } else {
      var front, c := h[..|h| - 1], h[|h| - 1];
      WithinBound(cap, front, from, to);
      if from <= c <= to && Admits(cap, front, c) {
        var i := FirstSince(front, from);
        WithinIsSuffix(cap, front, from, to, i);
        var full := LevelIsLeastAllowance(cap, front, c);
        assert Allowance(cap, front, c, i) >= 1.0;
      }
    }
  }

  // --- the same over times -----------------------------------------------------------------------------------

  lemma CreditsMonotone(credit: real -> real, times: seq<real>, now: real)
    requires Grows(credit) && Monotone(times) && NotBefore(times, now)
    ensures Monotone(Credits(credit, times)) && NotBefore(Credits(credit, times), credit(now))
  {
  }

  /** Admissions of a key from its call i on. */
  function AdmittedFrom(capacity: int, credit: real -> real, times: seq<real>, i: nat): nat {
    Admissions(capacity as real, Credits(credit, times), i)
  }

  /** Does a window with so many admissions and so many credits leave room for one more? */
  predicate Room(capacity: int, admitted: nat, gained: real) {
    admitted as real + 1.0 <= capacity as real + gained
  }

  /** ... the window that begins with call i and ends now, whatever the refill credits. */
  predicate WindowAllows(capacity: int, credit: real -> real, times: seq<real>, now: real, i: nat) {
    Room(capacity, AdmittedFrom(capacity, credit, times, i), credit(now) - credit(StartOf(times, now, i)))
  }

  lemma WindowIsAllowance(capacity: int, credit: real -> real, times: seq<real>, now: real, i: nat)
    requires i <= |times|
    ensures WindowAllows(capacity, credit, times, now, i) <==>
            Allowance(capacity as real, Credits(credit, times), credit(now), i) >= 1.0
  {
  }

  /** The bucket was full at call full, or at the moment asked about, and at none since. */
  predicate LastFull(capacity: int, credit: real -> real, times: seq<real>, now: real, full: nat)
    requires full <= |times|
  {
    && FoundBy(capacity, credit, times[..full], StartOf(times, now, full)) == capacity as real
    && forall k :: full < k <= |times| ==>
         FoundBy(capacity, credit, times[..k], StartOf(times, now, k)) < capacity as real
  }

  lemma {:induction false} CreditsPrefix(credit: real -> real, times: seq<real>, k: nat)
    requires k <= |times|
    ensures Credits(credit, times[..k]) == Credits(credit, times)[..k]
  {
    assert |Credits(credit, times[..k])| == k;
  }

  lemma {:induction false} FoundByPrefix(capacity: int, credit: real -> real, times: seq<real>, now: real, k: nat)
    requires k <= |times|
    ensures FoundBy(capacity, credit, times[..k], StartOf(times, now, k)) ==
            Found(capacity as real, Credits(credit, times)[..k], StartOf(Credits(credit, times), credit(now), k))
  {
    CreditsPrefix(credit, times, k);
  }

  lemma {:induction false} LastFullInCredits(capacity: int, credit: real -> real, times: seq<real>, now: real,
                                             h: seq<real>, full: nat)
    requires h == Credits(credit, times) && full <= |h|
    requires Found(capacity as real, h[..full], StartOf(h, credit(now), full)) == capacity as real
    requires forall k :: full < k <= |h| ==>
               Found(capacity as real, h[..k], StartOf(h, credit(now), k)) < capacity as real
    ensures LastFull(capacity, credit, times, now, full)
  {
    FoundByPrefix(capacity, credit, times, now, full);
    forall k | full < k <= |times|
      ensures FoundBy(capacity, credit, times[..k], StartOf(times, now, k)) < capacity as real
    {
      FoundByPrefix(capacity, credit, times, now, k);
    }
  }

  lemma AdmittedByWindows(capacity: int, credit: real -> real, times: seq<real>, now: real) returns (full: nat)
    requires Grows(credit) && Monotone(times) && NotBefore(times, now)
    ensures FoundBy(capacity, credit, times, now) >= 1.0 <==>
            forall i :: 0 <= i <= |times| ==> WindowAllows(capacity, credit, times, now, i)
    ensures full <= |times| && LastFull(capacity, credit, times, now, full)
    ensures WindowAllows(capacity, credit, times, now, full) <==> FoundBy(capacity, credit, times, now) >= 1.0
  {
    CreditsMonotone(credit, times, now);
    full := LevelIsLeastAllowance(capacity as real, Credits(credit, times), credit(now));
    LastFullInCredits(capacity, credit, times, now, Credits(credit, times), full);
    WindowIsAllowance(capacity, credit, times, now, full);
    if FoundBy(capacity, credit, times, now) >= 1.0 {
      forall i | 0 <= i <= |times|
        ensures WindowAllows(capacity, credit, times, now, i)
      {
        WindowIsAllowance(capacity, credit, times, now, i);
      }
    }
  }

  /** The same window, with its length in seconds. */
  predicate SecondsAllow(capacity: int, refill: real, times: seq<real>, now: real, i: nat) {
    Room(capacity, AdmittedFrom(capacity, PerSecond(refill), times, i), (now - StartOf(times, now, i)) * refill)
  }

  lemma RoomInSeconds(capacity: int, refill: real, times: seq<real>, now: real, i: nat)
    ensures SecondsAllow(capacity, refill, times, now, i) <==> WindowAllows(capacity, PerSecond(refill), times, now, i)
  {
    SecondsToCredits(refill, StartOf(times, now, i), now);
  }

  lemma FoundExactly(capacity: int, refill: real, times: seq<real>, now: real)
    requires refill >= 0.0 && Monotone(times) && NotBefore(times, now)
    ensures FoundBy(capacity, PerSecond(refill), times, now) >= 1.0 <==>
            forall i :: 0 <= i <= |times| ==> SecondsAllow(capacity, refill, times, now, i)
  {
    assert FoundBy(capacity, PerSecond(refill), times, now) >= 1.0 <==>
           forall i :: 0 <= i <= |times| ==> WindowAllows(capacity, PerSecond(refill), times, now, i)
    by {
      PerSecondGrows(refill);
      var full := AdmittedByWindows(capacity, PerSecond(refill), times, now);
    }
    forall i: nat
      ensures SecondsAllow(capacity, refill, times, now, i) <==>
                WindowAllows(capacity, PerSecond(refill), times, now, i)
    {
      RoomInSeconds(capacity, refill, times, now, i);
    }
  }

  /** Calls answered Admitted among those from call i on. */
  function AdmittedSince(capacity: int, refill: real, times: seq<real>, i: nat): nat {
    if |times| <= i then 0
    else
      var front := times[..|times| - 1];
      AdmittedSince(capacity, refill, front, i) +
      if Answer(capacity, refill, front, times[|times| - 1]).Admitted? then 1 else 0
  }

  lemma {:induction false} AdmittedSinceFrom(capacity: int, refill: real, times: seq<real>, i: nat)
    ensures AdmittedSince(capacity, refill, times, i) == AdmittedFrom(capacity, PerSecond(refill), times, i)
  {
    if |times| <= i {
    } else {
      var front, t := times[..|times| - 1], times[|times| - 1];
      AdmittedSinceFrom(capacity, refill, front, i);
      CreditsPrefix(PerSecond(refill), times, |front|);
      AdmittedIsFound(capacity, refill, front, t);
    }
  }

  /** One admission more fits the window that begins with call i and ends now. */
  predicate HasRoom(capacity: int, refill: real, times: seq<real>, now: real, i: nat) {
    AdmittedSince(capacity, refill, times, i) as real + 1.0
    <= capacity as real + (now - StartOf(times, now, i)) * refill
  }

  lemma {:induction false} HasRoomInSeconds(capacity: int, refill: real, times: seq<real>, now: real, i: nat)
    ensures HasRoom(capacity, refill, times, now, i) <==> SecondsAllow(capacity, refill, times, now, i)
  {
    AdmittedSinceFrom(capacity, refill, times, i);
  }

  /** The whole policy, in both directions: after any history of a key's calls, a call
      is answered Admitted exactly when no window ending with it, wherever it begins, then
      holds more than capacity + refill * length admissions. */
  lemma {:induction false} AdmittedExactly(capacity: int, refill: real, times: seq<real>, now: real)
    requires refill >= 0.0 && Monotone(times) && NotBefore(times, now)
    ensures Answer(capacity, refill, times, now).Admitted? <==>
            forall i :: 0 <= i <= |times| ==> HasRoom(capacity, refill, times, now, i)
  {
    AdmittedIsFound(capacity, refill, times, now);
    FoundExactly(capacity, refill, times, now);
    forall i: nat
      ensures HasRoom(capacity, refill, times, now, i) <==> SecondsAllow(capacity, refill, times, now, i)
    {
      HasRoomInSeconds(capacity, refill, times, now, i);
    }
  }

  /** A refusal names its reason: since the last moment the bucket was full, more than
      capacity + refill * time - 1 calls were admitted. */
  lemma {:induction false} RefusalJustified(capacity: int, refill: real, times: seq<real>, now: real)
    returns (full: nat)
    requires refill >= 0.0 && Monotone(times) && NotBefore(times, now)
    requires !Answer(capacity, refill, times, now).Admitted?
    ensures full <= |times| && LastFull(capacity, PerSecond(refill), times, now, full)
    ensures !HasRoom(capacity, refill, times, now, full)
  {
    AdmittedIsFound(capacity, refill, times, now);
    PerSecondGrows(refill);
    full := AdmittedByWindows(capacity, PerSecond(refill), times, now);
    RoomInSeconds(capacity, refill, times, now, full);
    HasRoomInSeconds(capacity, refill, times, now, full);
  }

  /** Over any interval of any history, at most capacity + refill * length calls of a
      key are admitted. */
  lemma IntervalBound(capacity: int, refill: real, times: seq<real>, from: real, to: real)
    requires refill >= 0.0 && capacity >= 0 && Monotone(times) && from <= to
    ensures AdmittedBetween(capacity, refill, times, from, to) as real
            <= capacity as real + (to - from) * refill
  {
    var credit := PerSecond(refill);
    PerSecondGrows(refill);
    CreditsMonotone(credit, times, if times == [] then 0.0 else times[|times| - 1]);
    SecondsToCredits(refill, from, to);
    WithinBound(capacity as real, Credits(credit, times), credit(from), credit(to));
    BetweenIsWithin(capacity, refill, credit, times, from, to);
  }

  /** Calls of a key answered Admitted at times in [from, to]. */
  function AdmittedBetween(capacity: int, refill: real, times: seq<real>, from: real, to: real): nat {
    if times == [] then 0
    else
      var front, t := times[..|times| - 1], times[|times| - 1];
      AdmittedBetween(capacity, refill, front, from, to) +
      if from <= t <= to && Answer(capacity, refill, front, t).Admitted? then 1 else 0
  }

  lemma {:induction false} BetweenIsWithin(capacity: int, refill: real, credit: real -> real, times: seq<real>,
                                           from: real, to: real)
    requires credit == PerSecond(refill) && Grows(credit)
    ensures AdmittedBetween(capacity, refill, times, from, to)
            <= AdmittedWithin(capacity as real, Credits(credit, times), credit(from), credit(to))
  {
    if times == [] {
    } else {
      var front, t := times[..|times| - 1], times[|times| - 1];
      BetweenIsWithin(capacity, refill, credit, front, from, to);
      AdmittedIsFound(capacity, refill, front, t);
      assert Credits(credit, times)[..|front|] == Credits(credit, front);
    }
  }

  // --- refused calls and other keys leave no trace ---------------------------------------------------------

  /** The calls of h that were admitted, alone. */
  function OnlyAdmitted(cap: real, h: seq<real>): seq<real> {
    if h == [] then []
    else
      var front, c := h[..|h| - 1], h[|h| - 1];
      if Admits(cap, front, c) then OnlyAdmitted(cap, front) + [c] else OnlyAdmitted(cap, front)
  }

  /** Refilling a bucket at two moments is refilling it at the second. */
  lemma RefillTwice(cap: real, b: Bucket, c: real, later: real)
    requires c <= later && Level(cap, b, c) < 1.0
    ensures Level(cap, Bucket(Pay(Level(cap, b, c)), c), later) == Level(cap, b, later)
  {
  }

  /** Lazy refill is a continuous bucket: at every later moment the key's level, and so
      its decision and its retry_after, are what they would be had only its admitted
      calls been made. */
  lemma {:induction false} RefusedCallsLeaveNoTrace(cap: real, h: seq<real>, c: real)
    requires Monotone(h) && NotBefore(h, c)
    ensures Found(cap, h, c) == Found(cap, OnlyAdmitted(cap, h), c)
    ensures NotBefore(OnlyAdmitted(cap, h), c)
  {
    if h == [] {
    } else {
      var front, last := h[..|h| - 1], h[|h| - 1];
      RefusedCallsLeaveNoTrace(cap, front, last);
      if Admits(cap, front, last) {
        AfterSnoc(cap, OnlyAdmitted(cap, front), last);
      } else {
        RefusedCallsLeaveNoTrace(cap, front, c);
        RefillTwice(cap, After(cap, front), last, c);
      }
    }
  }

  /** Histories of a key that admitted the same calls find the same tokens, and so have
      their next call answered alike, whatever was refused between. */
  lemma SameAdmissionsSameDecision(cap: real, h: seq<real>, g: seq<real>, c: real)
    requires Monotone(h) && Monotone(g) && NotBefore(h, c) && NotBefore(g, c)
    requires OnlyAdmitted(cap, h) == OnlyAdmitted(cap, g)
    ensures Found(cap, h, c) == Found(cap, g, c)
  {
    RefusedCallsLeaveNoTrace(cap, h, c);
    RefusedCallsLeaveNoTrace(cap, g, c);
  }

  // --- retry_after ---------------------------------------------------------------------------------------------

  /** retry_after is exact, precisely when a full bucket holds a token at all: the next
      call is answered Admitted after waiting that long, and after no shorter wait. */
  lemma {:induction false} RetryAfterExact(capacity: int, refill: real, times: seq<real>, now: real, wait: real)
    requires refill > 0.0 && Monotone(times) && NotBefore(times, now) && wait >= 0.0
    requires !Answer(capacity, refill, times, now).Admitted?
    ensures var verdict := Answer(capacity, refill, times, now);
            && verdict.Refused? && verdict.retryAfter > 0.0
            && (Answer(capacity, refill, times + [now], now + wait).Admitted? <==>
                capacity >= 1 && wait >= verdict.retryAfter)
  {
    AdmittedIsFound(capacity, refill, times, now);
    AdmittedIsFound(capacity, refill, times + [now], now + wait);
    FoundAfterWait(capacity, refill, times, now, wait);
  }

  lemma {:induction false} FoundAfterWait(capacity: int, refill: real, times: seq<real>, now: real, wait: real)
    requires refill > 0.0 && FoundBy(capacity, PerSecond(refill), times, now) < 1.0
    ensures var credit := PerSecond(refill);
            var retry := (1.0 - FoundBy(capacity, credit, times, now)) / refill;
            && retry > 0.0
            && (FoundBy(capacity, credit, times + [now], now + wait) >= 1.0 <==> capacity >= 1 && wait >= retry)
  {
    var credit := PerSecond(refill);
    var gained: real :| gained == credit(now + wait) - credit(now);
    var least: real :| least == (1.0 - FoundBy(capacity, credit, times, now)) / refill;
    assert gained == wait * refill by {
      SecondsToCredits(refill, now, now + wait);
    }
    Quotient(1.0 - FoundBy(capacity, credit, times, now), refill, wait);
    WaitedLevel(capacity, credit, times, now, wait, gained);
  }

  /** The level after a refusal and a wait. */
  lemma WaitedLevel(capacity: int, credit: real -> real, times: seq<real>, now: real, wait: real, gained: real)
    requires gained == credit(now + wait) - credit(now) && FoundBy(capacity, credit, times, now) < 1.0
    ensures FoundBy(capacity, credit, times + [now], now + wait) ==
            Min(capacity as real, FoundBy(capacity, credit, times, now) + gained)
    ensures FoundBy(capacity, credit, times + [now], now + wait) >= 1.0 <==>
            capacity >= 1 && gained >= 1.0 - FoundBy(capacity, credit, times, now)
  {
    CreditsSnoc(credit, times, now);
    AfterSnoc(capacity as real, Credits(credit, times), credit(now));
  }

  /** A client that waits as the Retry-After header says is always admitted. */
  lemma {:induction false} HeaderSuffices(capacity: int, refill: real, times: seq<real>, now: real)
    requires refill > 0.0 && capacity >= 1 && Monotone(times) && NotBefore(times, now)
    requires !Answer(capacity, refill, times, now).Admitted?
    ensures Answer(capacity, refill, times, now).Refused?
    ensures var retry := Answer(capacity, refill, times, now).retryAfter;
            Answer(capacity, refill, times + [now], now + RetryAfterSeconds(retry) as real).Admitted?
  {
    RetryAfterExact(capacity, refill, times, now, 0.0);
    var wait: real :| wait == RetryAfterSeconds(Answer(capacity, refill, times, now).retryAfter) as real;
    RetryAfterExact(capacity, refill, times, now, wait);
  }

  lemma Quotient(a: real, r: real, wait: real)
    requires r > 0.0 && a > 0.0
    ensures a / r > 0.0
    ensures wait >= a / r <==> wait * r >= a
  {
    var q := a / r;
    assert q * r == a;
    SecondsToCredits(r, q, wait);
    if wait >= q {
      assert (wait - q) * r >= 0.0;
    } else {
      assert (q - wait) * r > 0.0;
    }
  }
}
