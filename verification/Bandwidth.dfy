/** The bandwidth limiter: token buckets that reserve first, wait out the debt, and are refunded when
    the waiting transfer is cancelled. Time and tokens are exact. */
module Bandwidth {
  import opened Prelude

  datatype Key = Global(direction: string) | Profile(profile: nat, direction: string)

  datatype Bucket = Bucket(tokens: real, updated: real, limit: nat)

  type Buckets = map<Key, Bucket>

  datatype Claim = Claim(key: Key, limit: nat)

  function MinReal(a: real, b: real): real {
    if a < b then a else b
  }

  function MaxReal(a: real, b: real): real {
    if a < b then b else a
  }

  /** Tokens after refilling at the given rate up to now, never above one second's worth. */
  function Refilled(b: Bucket, now: real, rate: nat): real {
    MinReal(b.tokens + (now - b.updated) * rate as real, rate as real)
  }

  /** The bucket of a key as an acquisition finds it: created full, and capped when its limit changed. */
  function Prepared(buckets: Buckets, key: Key, limit: nat, now: real): Bucket {
    if key !in buckets then Bucket(limit as real, now, limit)
    else if buckets[key].limit == limit then buckets[key]
    else buckets[key].(limit := limit, tokens := MinReal(buckets[key].tokens, limit as real))
  }

  function Debited(buckets: Buckets, c: Claim, bytes: nat, now: real): Buckets {
    var b := Prepared(buckets, c.key, c.limit, now);
    buckets[c.key := Bucket(Refilled(b, now, c.limit) - bytes as real, now, c.limit)]
  }

  function WaitFor(b: Bucket): real {
    if b.limit > 0 && b.tokens < 0.0 then -b.tokens / b.limit as real else 0.0
  }

  function Refunded(buckets: Buckets, c: Claim, bytes: nat, now: real): Buckets {
    if c.key !in buckets then buckets
    else
      var b := buckets[c.key];
      buckets[c.key := b.(tokens := MinReal(Refilled(b, now, c.limit) + bytes as real, c.limit as real),
                          updated := now)]
  }

  /** The claims of one acquisition: a limit that is absent or zero reserves nothing. */
  function Claims(direction: string, profile: nat, globalLimit: Option<nat>, profileLimit: Option<nat>): seq<Claim> {
    (if globalLimit.Some? && globalLimit.value > 0 then [Claim(Global(direction), globalLimit.value)] else [])
    + (if profileLimit.Some? && profileLimit.value > 0
       then [Claim(Profile(profile, direction), profileLimit.value)] else [])
  }

  function DebitAll(buckets: Buckets, claims: seq<Claim>, bytes: nat, now: real): Buckets
    decreases claims
  {
    if claims == [] then buckets
    else DebitAll(Debited(buckets, claims[0], bytes, now), claims[1..], bytes, now)
  }

  function RefundAll(buckets: Buckets, claims: seq<Claim>, bytes: nat, now: real): Buckets
    decreases claims
  {
    if claims == [] then buckets
    else RefundAll(Refunded(buckets, claims[0], bytes, now), claims[1..], bytes, now)
  }

  /** The longest of the claims' own waits, each read right after its own debit. */
  function LongestWait(buckets: Buckets, claims: seq<Claim>, bytes: nat, now: real): real
    decreases claims
  {
    if claims == [] then 0.0
    else
      var next := Debited(buckets, claims[0], bytes, now);
      MaxReal(WaitFor(next[claims[0].key]), LongestWait(next, claims[1..], bytes, now))
  }

  lemma UnfoldClaims(buckets: Buckets, claims: seq<Claim>, bytes: nat, now: real)
    requires |claims| <= 2
    ensures |claims| == 1 ==>
      && DebitAll(buckets, claims, bytes, now) == Debited(buckets, claims[0], bytes, now)
      && LongestWait(buckets, claims, bytes, now)
         == MaxReal(WaitFor(Debited(buckets, claims[0], bytes, now)[claims[0].key]), 0.0)
    ensures |claims| == 2 ==>
      var next := Debited(buckets, claims[0], bytes, now);
      var last := Debited(next, claims[1], bytes, now);
      && DebitAll(buckets, claims, bytes, now) == last
      && LongestWait(buckets, claims, bytes, now)
         == MaxReal(WaitFor(next[claims[0].key]), MaxReal(WaitFor(last[claims[1].key]), 0.0))
  {
    if |claims| == 2 {
      var rest := claims[1..];
      assert rest == [claims[1]] && rest[1..] == [];
      var next := Debited(buckets, claims[0], bytes, now);
      assert DebitAll(next, rest, bytes, now) == Debited(next, rest[0], bytes, now);
      assert LongestWait(next, rest, bytes, now)
          == MaxReal(WaitFor(Debited(next, rest[0], bytes, now)[rest[0].key]), 0.0);
    }
  }

  /** After this time the bucket is out of debt. */
  predicate IsPaid(b: Bucket, time: real) {
    -b.tokens <= time * b.limit as real
  }

  predicate ArePaid(buckets: Buckets, claims: seq<Claim>, time: real) {
    forall i :: 0 <= i < |claims| && claims[i].key in buckets ==> IsPaid(buckets[claims[i].key], time)
  }

  /** The wait pays for the debt, and for no more. */
  predicate IsWaitFor(b: Bucket, wait: real) {
    if b.tokens < 0.0 then wait * b.limit as real == -b.tokens else wait == 0.0
  }

  lemma OneWaitIsLeast(b: Bucket, time: real)
    requires b.limit > 0 && time >= 0.0
    ensures WaitFor(b) >= 0.0 && IsWaitFor(b, WaitFor(b))
    ensures WaitFor(b) <= time <==> IsPaid(b, time)
  {
    var l := b.limit as real;
    if b.tokens < 0.0 {
      assert l * (-b.tokens / l) == -b.tokens;
      if WaitFor(b) <= time {
        assert l * WaitFor(b) <= l * time;
      } else {
        assert l * time < l * WaitFor(b);
      }
    } else {
      assert time * l >= 0.0;
    }
  }

  /** The claims wait no longer than it takes until every one of their buckets is out of debt, and no less. */
  lemma {:induction false} WaitIsLeast(buckets: Buckets, claims: seq<Claim>, bytes: nat, now: real, time: real)
    requires OneClaimPerKey(claims) && (forall i :: 0 <= i < |claims| ==> claims[i].limit > 0) && time >= 0.0
    ensures LongestWait(buckets, claims, bytes, now) <= time
            <==> ArePaid(DebitAll(buckets, claims, bytes, now), claims, time)
    decreases claims
  {
    if claims == [] {
    } else {
      var rest, key := claims[1..], claims[0].key;
      var next := Debited(buckets, claims[0], bytes, now);
      var last := DebitAll(next, rest, bytes, now);
      assert forall i :: 0 <= i < |rest| ==> rest[i] == claims[i + 1];
      WaitIsLeast(next, rest, bytes, now, time);
      DebitAllAt(next, rest, bytes, now, key);
      OneWaitIsLeast(next[key], time);
      PaidInTurn(last, claims, rest, time);
    }
  }

  lemma PaidInTurn(buckets: Buckets, claims: seq<Claim>, rest: seq<Claim>, time: real)
    requires claims != [] && rest == claims[1..] && claims[0].key in buckets
    ensures ArePaid(buckets, claims, time) <==> ArePaid(buckets, rest, time) && IsPaid(buckets[claims[0].key], time)
  {
    if ArePaid(buckets, rest, time) && IsPaid(buckets[claims[0].key], time) {
      forall i | 0 <= i < |claims| && claims[i].key in buckets ensures IsPaid(buckets[claims[i].key], time) {
        assert i > 0 ==> rest[i - 1] == claims[i];
      }
    }
    if ArePaid(buckets, claims, time) {
      assert forall i :: 0 <= i < |rest| ==> rest[i] == claims[i + 1];
    }
  }

  /** One bucket is debited: it is created full, or if it is there it is refilled for the time gone by, up to its
      limit. */
  predicate IsDebit(before: Buckets, after: Buckets, key: Key, limit: nat, bytes: nat, now: real) {
    && key in after && after == before[key := after[key]]
    && after[key].limit == limit && after[key].updated == now
    && (key !in before ==> after[key].tokens == limit as real - bytes as real)
    && (key in before ==>
          var was, rate := before[key], limit as real;
          var content := if was.limit == limit || was.tokens < rate then was.tokens else rate;
          var refilled := content + (now - was.updated) * rate;
          after[key].tokens == (if refilled < rate then refilled else rate) - bytes as real)
  }

  lemma DebitByTheNumbers(buckets: Buckets, c: Claim, bytes: nat, now: real)
    ensures IsDebit(buckets, Debited(buckets, c, bytes, now), c.key, c.limit, bytes, now)
  {
    assert (now - now) * c.limit as real == 0.0;
  }

  class BandwidthLimiter {
    var buckets: Buckets

    constructor ()
      ensures buckets == map[]
    {
      buckets := map[];
    }

    /** Reserves on one bucket; nothing happens without a positive limit. */
    method ReserveOne(key: Key, limit: Option<nat>, bytes: nat, now: real)
      returns (wait: Option<real>)
      modifies this
      ensures wait.Some? <==> limit.Some? && limit.value > 0
      ensures wait.Some? ==> buckets == Debited(old(buckets), Claim(key, limit.value), bytes, now)
      ensures wait.Some? ==> wait.value == WaitFor(buckets[key]) >= 0.0
      ensures wait.None? ==> buckets == old(buckets)
      ensures wait.Some? ==> IsDebit(old(buckets), buckets, key, limit.value, bytes, now)
      ensures wait.Some? ==> IsWaitFor(buckets[key], wait.value)
    {
      if limit.None? || limit.value == 0 {
        return None;
      }
      var rate := limit.value;
      if key !in buckets {
        buckets := buckets[key := Bucket(rate as real, now, rate)];
      }
      var bucket := buckets[key];
      if bucket.limit != rate {
        bucket := bucket.(limit := rate, tokens := MinReal(bucket.tokens, rate as real));
      }
      bucket := bucket.(tokens := Refilled(bucket, now, rate), updated := now);
      bucket := bucket.(tokens := bucket.tokens - bytes as real);
      buckets := buckets[key := bucket];
      wait := Some(if bucket.tokens < 0.0 then -bucket.tokens / rate as real else 0.0);
      DebitByTheNumbers(old(buckets), Claim(key, rate), bytes, now);
      OneWaitIsLeast(bucket, 0.0);
    }

    /** The locked part of an acquisition. */
    method Reserve(direction: string, profile: nat, bytes: nat,
                   globalLimit: Option<nat>, profileLimit: Option<nat>, now: real)
      returns (wait: real, reserved: seq<Claim>)
      modifies this
      ensures reserved == Claims(direction, profile, globalLimit, profileLimit)
      ensures buckets == DebitAll(old(buckets), reserved, bytes, now)
      ensures wait == LongestWait(old(buckets), reserved, bytes, now)
      ensures forall c :: c in reserved <==>
        || (c.key == Global(direction) && globalLimit == Some(c.limit) && c.limit > 0)
        || (c.key == Profile(profile, direction) && profileLimit == Some(c.limit) && c.limit > 0)
      // It is the least time after which every bucket is out of debt.
      ensures wait >= 0.0
      ensures forall time :: time >= 0.0 ==> (wait <= time <==> ArePaid(buckets, reserved, time))
    {
      wait, reserved := 0.0, [];
      var first := ReserveOne(Global(direction), globalLimit, bytes, now);
      if first.Some? {
        wait, reserved := first.value, [Claim(Global(direction), globalLimit.value)];
      }
      var second := ReserveOne(Profile(profile, direction), profileLimit, bytes, now);
      if second.Some? {
        wait := MaxReal(wait, second.value);
        reserved := reserved + [Claim(Profile(profile, direction), profileLimit.value)];
      }
      UnfoldClaims(old(buckets), reserved, bytes, now);
      ClaimsAreDistinct(direction, profile, globalLimit, profileLimit);
      forall time | time >= 0.0 ensures wait <= time <==> ArePaid(buckets, reserved, time) {
        WaitIsLeast(old(buckets), reserved, bytes, now, time);
      }
    }

    /** Dropping a reservation that was not committed. */
    method Refund(reserved: seq<Claim>, bytes: nat, now: real)
      modifies this
      ensures buckets == RefundAll(old(buckets), reserved, bytes, now)
    {
      for i := 0 to |reserved|
        invariant RefundAll(old(buckets), reserved, bytes, now) == RefundAll(buckets, reserved[i..], bytes, now)
      {
        var Claim(key, limit) := reserved[i];
        ghost var before := buckets;
        assert reserved[i..][0] == reserved[i] && reserved[i..][1..] == reserved[i + 1..];
        if key in buckets {
          var bucket := buckets[key];
          bucket := bucket.(tokens := Refilled(bucket, now, limit), updated := now);
          bucket := bucket.(tokens := MinReal(bucket.tokens + bytes as real, limit as real));
          buckets := buckets[key := bucket];
        }
        assert buckets == Refunded(before, reserved[i], bytes, now);
      }
    }
  }

  // ---------------------------------------------------------------------------------------------
  // Runs of many transfers

  datatype Status = Waiting | Completed | Cancelled

  /** One acquisition: it may complete once its deadline passed, or be cancelled before. */
  datatype Acquisition = Acquisition(claims: seq<Claim>, bytes: nat, deadline: real, status: Status)

  datatype System = System(now: real, buckets: Buckets, born: map<Key, real>, history: seq<Acquisition>)

  datatype Event =
    | Tick(to: real)
    | Acquire(direction: string, profile: nat, bytes: nat, globalLimit: Option<nat>, profileLimit: Option<nat>)
    | Finish(index: nat)
    | Cancel(index: nat)

  predicate Enabled(sys: System, ev: Event) {
    match ev
    case Tick(to) => sys.now <= to
    case Acquire(_, _, _, _, _) => true
    case Finish(i) => i < |sys.history| && sys.history[i].status == Waiting && sys.history[i].deadline <= sys.now
    case Cancel(i) => i < |sys.history| && sys.history[i].status == Waiting
  }

  function Apply(sys: System, ev: Event): System
    requires Enabled(sys, ev)
  {
    match ev
    case Tick(to) => sys.(now := to)
    case Acquire(direction, profile, bytes, globalLimit, profileLimit) =>
      var claims := Claims(direction, profile, globalLimit, profileLimit);
      var wait := LongestWait(sys.buckets, claims, bytes, sys.now);
      System(sys.now,
             DebitAll(sys.buckets, claims, bytes, sys.now),
             map k | k in DebitAll(sys.buckets, claims, bytes, sys.now).Keys ::
               if k in sys.born then sys.born[k] else sys.now,
             sys.history + [Acquisition(claims, bytes, sys.now + wait, Waiting)])
    case Finish(i) => sys.(history := sys.history[i := sys.history[i].(status := Completed)])
    case Cancel(i) =>
      sys.(buckets := RefundAll(sys.buckets, sys.history[i].claims, sys.history[i].bytes, sys.now),
           history := sys.history[i := sys.history[i].(status := Cancelled)])
  }

  ghost predicate Reachable(sys: System, steps: nat)
    decreases steps
  {
    if steps == 0 then sys.buckets == map[] && sys.born == map[] && sys.history == []
    else exists before, ev :: Reachable(before, steps - 1) && Enabled(before, ev) && sys == Apply(before, ev)
  }

  predicate Uses(a: Acquisition, key: Key) {
    exists i :: 0 <= i < |a.claims| && a.claims[i].key == key
  }

  /** Every acquisition that used the key ran under the same limit. */
  predicate LimitUnchanged(history: seq<Acquisition>, key: Key, limit: nat) {
    forall i, j :: 0 <= i < |history| && 0 <= j < |history[i].claims| && history[i].claims[j].key == key
      ==> history[i].claims[j].limit == limit
  }

  function BytesIf(history: seq<Acquisition>, key: Key, counts: Status -> bool): nat {
    if history == [] then 0
    else
      var last := history[|history| - 1];
      BytesIf(history[..|history| - 1], key, counts)
      + if Uses(last, key) && counts(last.status) then last.bytes else 0
  }

  // ---------------------------------------------------------------------------------------------
  // What a run keeps

  function NotCancelled(s: Status): bool {
    s != Cancelled
  }

  function IsCompleted(s: Status): bool {
    s == Completed
  }

  /** Bytes reserved on the key by the first n acquisitions and not given back. */
  function Kept(history: seq<Acquisition>, key: Key, n: nat): nat
    requires n <= |history|
  {
    BytesIf(history[..n], key, NotCancelled)
  }

  /** The most that may pass through a bucket of this limit in the given time: its initial content and
      what trickles in. */
  function Allowance(limit: nat, elapsed: real): real {
    limit as real + limit as real * elapsed
  }

  /** The books of one bucket: what was kept plus what is left is covered by the allowance. */
  ghost predicate BucketInv(sys: System, key: Key, limit: nat) {
    && (key in sys.born <==> key in sys.buckets)
    && (key in sys.buckets ==>
          && sys.born[key] <= sys.buckets[key].updated <= sys.now
          && sys.buckets[key].limit == limit
          && Kept(sys.history, key, |sys.history|) as real + sys.buckets[key].tokens
             <= Allowance(limit, sys.buckets[key].updated - sys.born[key]))
  }

  ghost predicate KeyInv(sys: System, key: Key, limit: nat) {
    && BucketInv(sys, key, limit)
    && (forall n :: 1 <= n <= |sys.history| ==> AcquisitionInv(sys, key, limit, n))
  }

  /** The n-th acquisition: by its deadline, everything kept up to and including it was allowed. */
  ghost predicate AcquisitionInv(sys: System, key: Key, limit: nat, n: nat)
    requires 1 <= n <= |sys.history|
  {
    var a := sys.history[n - 1];
    Uses(a, key) ==>
      && key in sys.born
      && (a.status == Completed ==> a.deadline <= sys.now)
      && Kept(sys.history, key, n) as real <= Allowance(limit, a.deadline - sys.born[key])
  }

  lemma {:induction false} StatusChange(history: seq<Acquisition>, key: Key, counts: Status -> bool, i: nat,
                                        status: Status)
    requires i < |history|
    ensures var a := history[i];
            BytesIf(history[i := a.(status := status)], key, counts)
              + (if Uses(a, key) && counts(a.status) then a.bytes else 0)
            == BytesIf(history, key, counts) + (if Uses(a, key) && counts(status) then a.bytes else 0)
  {
    var history' := history[i := history[i].(status := status)];
    var m := |history| - 1;
    assert forall k :: Uses(history[i].(status := status), k) <==> Uses(history[i], k);
    if i == m {
      assert history'[..m] == history[..m];
    } else {
      assert history'[..m] == history[..m][i := history[i].(status := status)];
      StatusChange(history[..m], key, counts, i, status);
    }
  }

  lemma KeptAfterChange(history: seq<Acquisition>, key: Key, i: nat, status: Status, n: nat)
    requires i < |history| && n <= |history| && history[i].status == Waiting
    ensures Kept(history[i := history[i].(status := status)], key, n)
         == Kept(history, key, n) - (if i < n && Uses(history[i], key) && status == Cancelled then history[i].bytes
                                     else 0)
  {
    var history' := history[i := history[i].(status := status)];
    if i < n {
      assert history'[..n] == history[..n][i := history[i].(status := status)];
      StatusChange(history[..n], key, NotCancelled, i, status);
    } else {
      assert history'[..n] == history[..n];
    }
  }

  lemma {:induction false} UnusedKeyKeepsNothing(history: seq<Acquisition>, key: Key, counts: Status -> bool)
    requires forall i :: 0 <= i < |history| ==> !Uses(history[i], key)
    ensures BytesIf(history, key, counts) == 0
  {
    if history == [] {
    } else {
      UnusedKeyKeepsNothing(history[..|history| - 1], key, counts);
    }
  }

  predicate OneClaimPerKey(claims: seq<Claim>) {
    forall i, j :: 0 <= i < j < |claims| ==> claims[i].key != claims[j].key
  }

  /** A debit touches only its own bucket, and the acquisition waits at least as long as each asks. */
  lemma {:induction false} DebitAllAt(buckets: Buckets, claims: seq<Claim>, bytes: nat, now: real, key: Key)
    requires OneClaimPerKey(claims)
    ensures var result := DebitAll(buckets, claims, bytes, now);
            && LongestWait(buckets, claims, bytes, now) >= 0.0
            && (forall i :: 0 <= i < |claims| && claims[i].key == key ==>
                  && key in result && result[key] == Debited(buckets, claims[i], bytes, now)[key]
                  && LongestWait(buckets, claims, bytes, now) >= WaitFor(result[key]))
            && ((forall i :: 0 <= i < |claims| ==> claims[i].key != key) ==>
                  (key in result <==> key in buckets) && (key in buckets ==> result[key] == buckets[key]))
    decreases claims
  {
    if claims == [] {
    } else {
      var next := Debited(buckets, claims[0], bytes, now);
      DebitAllAt(next, claims[1..], bytes, now, key);
      assert forall i :: 1 <= i < |claims| ==> claims[i] == claims[1..][i - 1];
      assert forall i :: 0 <= i < |claims| - 1 ==> claims[1..][i] == claims[i + 1];
    }
  }

  lemma {:induction false} RefundAllAt(buckets: Buckets, claims: seq<Claim>, bytes: nat, now: real, key: Key)
    requires OneClaimPerKey(claims)
    ensures var result := RefundAll(buckets, claims, bytes, now);
            && (key in result <==> key in buckets)
            && (forall i :: 0 <= i < |claims| && claims[i].key == key && key in buckets ==>
                  result[key] == Refunded(buckets, claims[i], bytes, now)[key])
            && ((forall i :: 0 <= i < |claims| ==> claims[i].key != key) ==>
                  (key in buckets ==> result[key] == buckets[key]))
    decreases claims
  {
    if claims == [] {
    } else {
      var next := Refunded(buckets, claims[0], bytes, now);
      RefundAllAt(next, claims[1..], bytes, now, key);
      assert forall i :: 1 <= i < |claims| ==> claims[i] == claims[1..][i - 1];
      assert forall i :: 0 <= i < |claims| - 1 ==> claims[1..][i] == claims[i + 1];
    }
  }

  lemma AllowanceGrows(limit: nat, elapsed: real, more: real)
    requires more >= 0.0
    ensures Allowance(limit, elapsed + more) == Allowance(limit, elapsed) + limit as real * more
    ensures Allowance(limit, elapsed + more) >= Allowance(limit, elapsed)
  {
    assert limit as real * (elapsed + more) == limit as real * elapsed + limit as real * more;
  }

  lemma RefillWithinAllowance(b: Bucket, kept: real, born: real, now: real)
    requires born <= b.updated <= now && kept + b.tokens <= Allowance(b.limit, b.updated - born)
    ensures kept + Refilled(b, now, b.limit) <= Allowance(b.limit, now - born)
  {
    AllowanceGrows(b.limit, b.updated - born, now - b.updated);
  }

  lemma WaitPaysTheDebt(b: Bucket, kept: real, elapsed: real, wait: real)
    requires b.limit > 0 && kept + b.tokens <= Allowance(b.limit, elapsed) && wait >= WaitFor(b) && wait >= 0.0
    ensures kept <= Allowance(b.limit, elapsed + wait)
  {
    AllowanceGrows(b.limit, elapsed, wait);
    if b.tokens < 0.0 {
      var l := b.limit as real;
      assert l * (-b.tokens / l) == -b.tokens;
      assert l * wait >= l * WaitFor(b);
    }
  }

  lemma ClaimsAreDistinct(direction: string, profile: nat, globalLimit: Option<nat>, profileLimit: Option<nat>)
    ensures OneClaimPerKey(Claims(direction, profile, globalLimit, profileLimit))
    ensures forall c :: c in Claims(direction, profile, globalLimit, profileLimit) ==> c.limit > 0
  {
  }

  /** The debit of one claim keeps the bucket's books, and the new deadline pays for the claim. */
  lemma DebitKeepsBooks(buckets: Buckets, c: Claim, bytes: nat, now: real, kept: real, born: real, wait: real)
    requires c.limit > 0 && born <= now
    requires if c.key in buckets
             then && born <= buckets[c.key].updated <= now && buckets[c.key].limit == c.limit
                  && kept + buckets[c.key].tokens <= Allowance(c.limit, buckets[c.key].updated - born)
             else born == now && kept == 0.0
    requires wait >= 0.0 && wait >= WaitFor(Debited(buckets, c, bytes, now)[c.key])
    ensures var b := Debited(buckets, c, bytes, now)[c.key];
            && b.updated == now && b.limit == c.limit
            && kept + bytes as real + b.tokens <= Allowance(c.limit, now - born)
            && kept + bytes as real <= Allowance(c.limit, now + wait - born)
  {
    var prepared := Prepared(buckets, c.key, c.limit, now);
    RefillWithinAllowance(prepared, kept, born, now);
    WaitPaysTheDebt(Debited(buckets, c, bytes, now)[c.key], kept + bytes as real, now - born, wait);
    assert now - born + wait == now + wait - born;
  }

  lemma KeptGrows(history: seq<Acquisition>, a: Acquisition, key: Key, n: nat)
    requires n <= |history|
    ensures Kept(history + [a], key, n) == Kept(history, key, n)
    ensures Kept(history + [a], key, |history| + 1)
         == Kept(history, key, |history|) + if Uses(a, key) && a.status != Cancelled then a.bytes else 0
  {
    var history' := history + [a];
    assert history'[..n] == history[..n];
    assert history'[..|history| + 1] == history' && history'[..|history|] == history == history[..|history|];
  }

  lemma UnbornKeyKeepsNothing(sys: System, key: Key, limit: nat)
    requires KeyInv(sys, key, limit)
    ensures key !in sys.born ==> Kept(sys.history, key, |sys.history|) == 0
  {
    if key !in sys.born {
      forall i | 0 <= i < |sys.history| ensures !Uses(sys.history[i], key) {
        assert AcquisitionInv(sys, key, limit, i + 1);
      }
      assert sys.history[..|sys.history|] == sys.history;
      UnusedKeyKeepsNothing(sys.history, key, NotCancelled);
    }
  }

  lemma AcquireLeavesOthers(sys: System, ev: Event, key: Key, limit: nat)
    requires ev.Acquire? && KeyInv(sys, key, limit)
    requires !Uses(Apply(sys, ev).history[|sys.history|], key)
    ensures BucketInv(Apply(sys, ev), key, limit)
    ensures key in sys.born ==> key in Apply(sys, ev).born && Apply(sys, ev).born[key] == sys.born[key]
  {
    var sys' := Apply(sys, ev);
    var a := sys'.history[|sys.history|];
    ClaimsAreDistinct(ev.direction, ev.profile, ev.globalLimit, ev.profileLimit);
    DebitAllAt(sys.buckets, a.claims, a.bytes, sys.now, key);
    OtherBucketKeepsBooks(sys, sys', a, key, limit);
  }

  lemma OtherBucketKeepsBooks(sys: System, after: System, a: Acquisition, key: Key, limit: nat)
    requires BucketInv(sys, key, limit) && !Uses(a, key) && after.now == sys.now && after.history == sys.history + [a]
    requires key in after.buckets <==> key in sys.buckets
    requires key in after.born <==> key in sys.born
    requires key in sys.buckets ==> after.buckets[key] == sys.buckets[key] && after.born[key] == sys.born[key]
    ensures BucketInv(after, key, limit)
  {
    KeptGrows(sys.history, a, key, |sys.history|);
  }

  lemma AcquireKeepsBucket(sys: System, ev: Event, key: Key, limit: nat, c: nat)
    requires ev.Acquire? && KeyInv(sys, key, limit)
    requires var a := Apply(sys, ev).history[|sys.history|]; c < |a.claims| && a.claims[c] == Claim(key, limit)
    ensures BucketInv(Apply(sys, ev), key, limit)
    ensures AcquisitionInv(Apply(sys, ev), key, limit, |sys.history| + 1)
    ensures key in sys.born ==> key in Apply(sys, ev).born && Apply(sys, ev).born[key] == sys.born[key]
  {
    var after := Apply(sys, ev);
    var a := after.history[|sys.history|];
    ClaimsAreDistinct(ev.direction, ev.profile, ev.globalLimit, ev.profileLimit);
    assert a.claims[c] in a.claims;
    DebitAllAt(sys.buckets, a.claims, a.bytes, sys.now, key);
    UnbornKeyKeepsNothing(sys, key, limit);
    UsedBucketKeepsBooks(sys, after, a, key, limit);
  }

  lemma UsedBucketKeepsBooks(sys: System, after: System, a: Acquisition, key: Key, limit: nat)
    requires BucketInv(sys, key, limit) && limit > 0 && Uses(a, key) && a.status == Waiting
    requires key !in sys.born ==> Kept(sys.history, key, |sys.history|) == 0
    requires after.now == sys.now && after.history == sys.history + [a]
    requires key in after.buckets
             && after.buckets[key] == Debited(sys.buckets, Claim(key, limit), a.bytes, sys.now)[key]
    requires key in after.born && after.born[key] == if key in sys.born then sys.born[key] else sys.now
    requires a.deadline - sys.now >= WaitFor(after.buckets[key]) && a.deadline >= sys.now
    ensures BucketInv(after, key, limit) && AcquisitionInv(after, key, limit, |sys.history| + 1)
  {
    var n := |sys.history|;
    KeptGrows(sys.history, a, key, n);
    DebitKeepsBooks(sys.buckets, Claim(key, limit), a.bytes, sys.now, Kept(sys.history, key, n) as real,
                    after.born[key], a.deadline - sys.now);
  }

  lemma AcquireKeepsInv(sys: System, ev: Event, key: Key, limit: nat)
    requires ev.Acquire? && KeyInv(sys, key, limit)
    requires LimitUnchanged(Apply(sys, ev).history, key, limit)
    ensures KeyInv(Apply(sys, ev), key, limit)
  {
    var sys' := Apply(sys, ev);
    var a := sys'.history[|sys.history|];
    if Uses(a, key) {
      var c :| 0 <= c < |a.claims| && a.claims[c].key == key;
      AcquireKeepsBucket(sys, ev, key, limit, c);
    } else {
      AcquireLeavesOthers(sys, ev, key, limit);
    }
    forall n | 1 <= n <= |sys.history| ensures AcquisitionInv(sys', key, limit, n) {
      assert AcquisitionInv(sys, key, limit, n);
      KeptGrows(sys.history, sys'.history[|sys.history|], key, n);
    }
  }

  lemma CancelKeepsBucket(sys: System, ev: Event, key: Key, limit: nat)
    requires ev.Cancel? && Enabled(sys, ev) && BucketInv(sys, key, limit) && WellFormed(sys)
    requires LimitUnchanged(sys.history, key, limit)
    ensures BucketInv(Apply(sys, ev), key, limit)
  {
    var a := sys.history[ev.index];
    var kept := Kept(sys.history, key, |sys.history|);
    RefundAllAt(sys.buckets, a.claims, a.bytes, sys.now, key);
    KeptAfterChange(sys.history, key, ev.index, Cancelled, |sys.history|);
    if key in sys.buckets {
      var b := sys.buckets[key];
      RefillWithinAllowance(b, kept as real, sys.born[key], sys.now);
      AllowanceGrows(limit, b.updated - sys.born[key], sys.now - b.updated);
      if Uses(a, key) {
        var c :| 0 <= c < |a.claims| && a.claims[c].key == key;
        assert a.claims[c].limit == limit;
      }
    }
  }

  lemma CancelKeepsInv(sys: System, ev: Event, key: Key, limit: nat)
    requires ev.Cancel? && Enabled(sys, ev) && KeyInv(sys, key, limit) && WellFormed(sys)
    requires LimitUnchanged(sys.history, key, limit)
    ensures KeyInv(Apply(sys, ev), key, limit)
  {
    var sys' := Apply(sys, ev);
    CancelKeepsBucket(sys, ev, key, limit);
    forall n | 1 <= n <= |sys.history| ensures AcquisitionInv(sys', key, limit, n) {
      assert AcquisitionInv(sys, key, limit, n);
      KeptAfterChange(sys.history, key, ev.index, Cancelled, n);
      assert Uses(sys'.history[n - 1], key) == Uses(sys.history[n - 1], key);
    }
  }

  lemma FinishKeepsInv(sys: System, ev: Event, key: Key, limit: nat)
    requires ev.Finish? && Enabled(sys, ev) && KeyInv(sys, key, limit)
    ensures KeyInv(Apply(sys, ev), key, limit)
  {
    var sys' := Apply(sys, ev);
    KeptAfterChange(sys.history, key, ev.index, Completed, |sys.history|);
    forall n | 1 <= n <= |sys.history| ensures AcquisitionInv(sys', key, limit, n) {
      assert AcquisitionInv(sys, key, limit, n);
      KeptAfterChange(sys.history, key, ev.index, Completed, n);
      assert Uses(sys'.history[n - 1], key) == Uses(sys.history[n - 1], key);
    }
  }

  lemma TickKeepsInv(sys: System, ev: Event, key: Key, limit: nat)
    requires ev.Tick? && Enabled(sys, ev) && KeyInv(sys, key, limit)
    ensures KeyInv(Apply(sys, ev), key, limit)
  {
    forall n | 1 <= n <= |sys.history| ensures AcquisitionInv(Apply(sys, ev), key, limit, n) {
      assert AcquisitionInv(sys, key, limit, n);
    }
  }

  /** Claims in the history are the ones an acquisition makes. */
  ghost predicate WellFormed(sys: System) {
    forall i :: 0 <= i < |sys.history| ==> OneClaimPerKey(sys.history[i].claims)
  }

  lemma HistoryLimitsPersist(sys: System, ev: Event, key: Key, limit: nat)
    requires Enabled(sys, ev) && LimitUnchanged(Apply(sys, ev).history, key, limit)
    ensures LimitUnchanged(sys.history, key, limit)
  {
    var history' := Apply(sys, ev).history;
    forall i, j | 0 <= i < |sys.history| && 0 <= j < |sys.history[i].claims| && sys.history[i].claims[j].key == key
      ensures sys.history[i].claims[j].limit == limit
    {
      assert history'[i].claims[j] == sys.history[i].claims[j];
    }
  }

  lemma StepKeepsWellFormed(sys: System, ev: Event)
    requires Enabled(sys, ev) && WellFormed(sys)
    ensures WellFormed(Apply(sys, ev))
  {
    if ev.Acquire? {
      ClaimsAreDistinct(ev.direction, ev.profile, ev.globalLimit, ev.profileLimit);
    }
  }

  lemma StepKeepsInv(sys: System, ev: Event, key: Key, limit: nat)
    requires Enabled(sys, ev) && KeyInv(sys, key, limit) && WellFormed(sys)
    requires LimitUnchanged(sys.history, key, limit) && LimitUnchanged(Apply(sys, ev).history, key, limit)
    ensures KeyInv(Apply(sys, ev), key, limit)
  {
    match ev
    case Tick(_) => TickKeepsInv(sys, ev, key, limit);
    case Acquire(_, _, _, _, _) => AcquireKeepsInv(sys, ev, key, limit);
    case Finish(_) => FinishKeepsInv(sys, ev, key, limit);
    case Cancel(_) => CancelKeepsInv(sys, ev, key, limit);
  }

  ghost predicate RunInv(sys: System, key: Key, limit: nat) {
    KeyInv(sys, key, limit) && WellFormed(sys)
  }

  lemma StepKeepsRunInv(sys: System, ev: Event, after: System, key: Key, limit: nat)
    requires Enabled(sys, ev) && after == Apply(sys, ev) && RunInv(sys, key, limit)
    requires LimitUnchanged(sys.history, key, limit) && LimitUnchanged(after.history, key, limit)
    ensures RunInv(after, key, limit)
  {
    StepKeepsWellFormed(sys, ev);
    StepKeepsInv(sys, ev, key, limit);
  }

  lemma {:induction false} ReachableKeyInv(sys: System, steps: nat, key: Key, limit: nat)
    requires Reachable(sys, steps) && LimitUnchanged(sys.history, key, limit)
    ensures RunInv(sys, key, limit)
    decreases steps
  {
    if steps == 0 {
    } else {
      var before, ev :| Reachable(before, steps - 1) && Enabled(before, ev) && sys == Apply(before, ev);
      HistoryLimitsPersist(before, ev, key, limit);
      ReachableKeyInv(before, steps - 1, key, limit);
      StepKeepsRunInv(before, ev, sys, key, limit);
    }
  }

  // ---------------------------------------------------------------------------------------------
  // Main results

  /** Bytes on the key whose acquisition has completed. */
  function CompletedBytes(sys: System, key: Key): nat {
    BytesIf(sys.history, key, IsCompleted)
  }

  lemma {:induction false} CompletedAreCovered(sys: System, key: Key, limit: nat, n: nat)
    requires KeyInv(sys, key, limit) && key in sys.born && n <= |sys.history| && key in sys.buckets
    ensures BytesIf(sys.history[..n], key, IsCompleted) as real <= Allowance(limit, sys.now - sys.born[key])
  {
    AllowanceGrows(limit, 0.0, sys.now - sys.born[key]);
    if n > 0 {
      var a := sys.history[n - 1];
      assert AcquisitionInv(sys, key, limit, n);
      assert sys.history[..n][..n - 1] == sys.history[..n - 1];
      if Uses(a, key) && a.status == Completed {
        CompletedWithinKept(sys.history[..n], key);
        AllowanceGrows(limit, a.deadline - sys.born[key], sys.now - a.deadline);
      } else {
        CompletedAreCovered(sys, key, limit, n - 1);
      }
    }
  }

  lemma {:induction false} CompletedWithinKept(history: seq<Acquisition>, key: Key)
    ensures BytesIf(history, key, IsCompleted) <= BytesIf(history, key, NotCancelled)
  {
    if history == [] {
    } else {
      CompletedWithinKept(history[..|history| - 1], key);
    }
  }

  /** Whatever is acquired, awaited, cancelled and refunded, and in whatever order: the bytes that have
      passed through a bucket of unchanged limit never exceed one second's worth plus what the limit
      allows for the time since the bucket was created. */
  lemma CompletedBytesRespectTheLimit(sys: System, steps: nat, key: Key, limit: nat)
    requires Reachable(sys, steps) && LimitUnchanged(sys.history, key, limit) && key in sys.born
    ensures CompletedBytes(sys, key) as real <= Allowance(limit, sys.now - sys.born[key])
  {
    ReachableKeyInv(sys, steps, key, limit);
    assert sys.history[..|sys.history|] == sys.history;
    CompletedAreCovered(sys, key, limit, |sys.history|);
  }

  /** What the key has let through up to and including acquisition i is allowed by i's deadline. */
  ghost predicate KeptByDeadline(sys: System, i: nat, key: Key, limit: nat)
    requires i < |sys.history| && key in sys.born
  {
    Kept(sys.history, key, i + 1) as real <= Allowance(limit, sys.history[i].deadline - sys.born[key])
  }

  predicate UsesBoth(a: Acquisition, first: Key, second: Key) {
    Uses(a, first) && Uses(a, second)
  }

  /** A transfer under a global and a profile limit obeys both at once, because it waits for the slower
      of its two buckets: the bytes that passed both are within both allowances. */
  lemma BothLimitsHold(sys: System, steps: nat, first: Key, firstLimit: nat, second: Key, secondLimit: nat)
    requires Reachable(sys, steps) && first in sys.born && second in sys.born
    requires LimitUnchanged(sys.history, first, firstLimit) && LimitUnchanged(sys.history, second, secondLimit)
    ensures CompletedBytes(sys, first) as real <= Allowance(firstLimit, sys.now - sys.born[first])
    ensures CompletedBytes(sys, second) as real <= Allowance(secondLimit, sys.now - sys.born[second])
    ensures forall i :: 0 <= i < |sys.history| && UsesBoth(sys.history[i], first, second) ==>
      KeptByDeadline(sys, i, first, firstLimit) && KeptByDeadline(sys, i, second, secondLimit)
  {
    ReachableKeyInv(sys, steps, first, firstLimit);
    ReachableKeyInv(sys, steps, second, secondLimit);
    forall i | 0 <= i < |sys.history| && UsesBoth(sys.history[i], first, second)
      ensures KeptByDeadline(sys, i, first, firstLimit) && KeptByDeadline(sys, i, second, secondLimit)
    {
      assert AcquisitionInv(sys, first, firstLimit, i + 1) && AcquisitionInv(sys, second, secondLimit, i + 1);
    }
    CompletedBytesRespectTheLimit(sys, steps, first, firstLimit);
    CompletedBytesRespectTheLimit(sys, steps, second, secondLimit);
  }

  // ---------------------------------------------------------------------------------------------
  // What a cancelled reservation leaves behind

  /** What others do with the same bucket: reserve, or get a reservation back. */
  datatype Use = Debit(bytes: nat, at: real) | Credit(bytes: nat, at: real)

  function Using(buckets: Buckets, c: Claim, use: Use): Buckets {
    match use
    case Debit(bytes, at) => Debited(buckets, c, bytes, at)
    case Credit(bytes, at) => Refunded(buckets, c, bytes, at)
  }

  function UsingAll(buckets: Buckets, c: Claim, uses: seq<Use>): Buckets {
    if uses == [] then buckets else Using(UsingAll(buckets, c, uses[..|uses| - 1]), c, uses[|uses| - 1])
  }

  /** The same for the one bucket. */
  function Used(b: Bucket, use: Use): Bucket {
    var tokens := Refilled(b, use.at, b.limit);
    match use
    case Debit(bytes, at) => Bucket(tokens - bytes as real, at, b.limit)
    case Credit(bytes, at) => Bucket(MinReal(tokens + bytes as real, b.limit as real), at, b.limit)
  }

  function UsedAll(b: Bucket, uses: seq<Use>): Bucket {
    if uses == [] then b else Used(UsedAll(b, uses[..|uses| - 1]), uses[|uses| - 1])
  }

  lemma {:induction false} UsingOneBucket(buckets: Buckets, c: Claim, uses: seq<Use>)
    requires c.key in buckets && buckets[c.key].limit == c.limit
    ensures UsingAll(buckets, c, uses) == buckets[c.key := UsedAll(buckets[c.key], uses)]
    ensures UsedAll(buckets[c.key], uses).limit == c.limit
  {
    if uses == [] {
    } else {
      UsingOneBucket(buckets, c, uses[..|uses| - 1]);
    }
  }

  /** The moments at which a bucket is used, in order. */
  predicate InOrder(start: real, uses: seq<Use>, end: real) {
    if uses == [] then start <= end
    else uses[|uses| - 1].at <= end && InOrder(start, uses[..|uses| - 1], uses[|uses| - 1].at)
  }

  function Gain(use: Use): real {
    if use.Credit? then use.bytes as real else 0.0
  }

  function Loss(use: Use): real {
    if use.Debit? then use.bytes as real else 0.0
  }

  /** Something is lost because the bucket is full. */
  predicate Overflows(b: Bucket, use: Use) {
    b.tokens + (use.at - b.updated) * b.limit as real + Gain(use) > b.limit as real
  }

  predicate EverOverflows(b: Bucket, uses: seq<Use>) {
    uses != [] && (EverOverflows(b, uses[..|uses| - 1]) || Overflows(UsedAll(b, uses[..|uses| - 1]), uses[|uses| - 1]))
  }

  /** Two runs of one bucket, the second with more tokens. */
  predicate AreApart(low: Bucket, high: Bucket, gap: real) {
    low.limit == high.limit && low.updated == high.updated && low.tokens + gap == high.tokens && gap >= 0.0
  }

  lemma CappedGap(tokens: real, gap: real, refill: real, cap: real)
    requires gap >= 0.0 && refill >= 0.0
    ensures var low, high := MinReal(tokens + refill, cap), MinReal(tokens + gap + refill, cap);
            && low <= high <= low + gap
            && (high == low + gap <==> gap == 0.0 || tokens + gap + refill <= cap)
  {
  }

  lemma CreditCapsOnce(tokens: real, bytes: real, cap: real)
    requires bytes >= 0.0
    ensures MinReal(MinReal(tokens, cap) + bytes, cap) == MinReal(tokens + bytes, cap)
  {
  }

  lemma TokensAfterUse(b: Bucket, use: Use, refill: real)
    requires refill == (use.at - b.updated) * b.limit as real && refill >= 0.0
    ensures Used(b, use)
            == Bucket(MinReal(b.tokens + (refill + Gain(use)), b.limit as real) - Loss(use), use.at, b.limit)
    ensures Overflows(b, use) <==> b.tokens + (refill + Gain(use)) > b.limit as real
  {
    if use.Credit? {
      CreditCapsOnce(b.tokens + refill, use.bytes as real, b.limit as real);
    }
  }

  lemma GapShrinks(low: Bucket, high: Bucket, use: Use, gap: real) returns (next: real)
    requires AreApart(low, high, gap) && low.updated <= use.at
    ensures next <= gap && AreApart(Used(low, use), Used(high, use), next)
    ensures next == gap <==> gap == 0.0 || !Overflows(high, use)
  {
    var refill := (use.at - low.updated) * low.limit as real;
    RefillIsPositive(low, use.at, refill);
    TokensAfterUse(low, use, refill);
    TokensAfterUse(high, use, refill);
    CappedGap(low.tokens, gap, refill + Gain(use), low.limit as real);
    next := Used(high, use).tokens - Used(low, use).tokens;
  }

  lemma RefillIsPositive(b: Bucket, at: real, refill: real)
    requires b.updated <= at && refill == (at - b.updated) * b.limit as real
    ensures refill >= 0.0
  {
  }

  lemma {:induction false} GapAfterUses(low: Bucket, high: Bucket, uses: seq<Use>, gap: real, end: real)
    returns (next: real)
    requires AreApart(low, high, gap) && InOrder(low.updated, uses, end)
    ensures next <= gap && AreApart(UsedAll(low, uses), UsedAll(high, uses), next)
    ensures UsedAll(low, uses).updated <= end && UsedAll(low, uses).limit == low.limit
    ensures next == gap <==> gap == 0.0 || !EverOverflows(high, uses)
  {
    if uses == [] {
      next := gap;
    } else {
      var init, last := uses[..|uses| - 1], uses[|uses| - 1];
      var before := GapAfterUses(low, high, init, gap, last.at);
      next := GapShrinks(UsedAll(low, init), UsedAll(high, init), last, before);
    }
  }

  lemma RefillInSteps(b: Bucket, at: real, later: real)
    requires b.updated <= at <= later
    ensures Refilled(Bucket(Refilled(b, at, b.limit), at, b.limit), later, b.limit) == Refilled(b, later, b.limit)
  {
    var l := b.limit as real;
    assert (later - b.updated) * l == (at - b.updated) * l + (later - at) * l;
    assert (later - at) * l >= 0.0;
  }

  /** Refilling a bucket early makes no difference to what it is used for later. */
  lemma {:induction false} EarlyRefill(b: Bucket, at: real, uses: seq<Use>, end: real)
    requires b.updated <= at && InOrder(at, uses, end)
    ensures UsedAll(b, uses).limit == b.limit
    ensures var early := Bucket(Refilled(b, at, b.limit), at, b.limit);
            Refilled(UsedAll(early, uses), end, b.limit) == Refilled(UsedAll(b, uses), end, b.limit)
            && (uses != [] ==> UsedAll(early, uses) == UsedAll(b, uses))
  {
    if uses == [] {
      RefillInSteps(b, at, end);
    } else {
      EarlyRefill(b, at, uses[..|uses| - 1], uses[|uses| - 1].at);
    }
  }

  /** The bucket at the moment of the reservation, refilled but not debited. */
  function AtReservation(b: Bucket, at: real): Bucket {
    Bucket(Refilled(b, at, b.limit), at, b.limit)
  }

  /** One bucket, with a reservation that is refunded and without it. */
  lemma RefundInOneBucket(b: Bucket, bytes: nat, reservedAt: real, uses: seq<Use>, refundedAt: real)
    requires b.updated <= reservedAt && InOrder(reservedAt, uses, refundedAt)
    ensures var refunded := Used(UsedAll(Used(b, Debit(bytes, reservedAt)), uses), Credit(bytes, refundedAt)).tokens;
            var spared := Refilled(UsedAll(b, uses), refundedAt, b.limit);
            && spared <= refunded <= spared + bytes as real
            && (refunded == spared <==>
                  bytes == 0 || spared == b.limit as real || !EverOverflows(AtReservation(b, reservedAt), uses))
  {
    var low, high := Used(b, Debit(bytes, reservedAt)), AtReservation(b, reservedAt);
    var gap := GapAfterUses(low, high, uses, bytes as real, refundedAt);
    EarlyRefill(b, reservedAt, uses, refundedAt);
    RefundClosesGap(UsedAll(low, uses), UsedAll(high, uses), gap, bytes, refundedAt);
  }

  lemma RefundClosesGap(low: Bucket, high: Bucket, gap: real, bytes: nat, at: real)
    requires AreApart(low, high, gap) && gap <= bytes as real && low.updated <= at
    ensures var refunded, spared := Used(low, Credit(bytes, at)).tokens, Refilled(high, at, high.limit);
            && spared <= refunded <= spared + bytes as real
            && (refunded == spared <==> gap == bytes as real || spared == high.limit as real)
  {
    var refill := (at - low.updated) * low.limit as real;
    RefillIsPositive(low, at, refill);
    TokensAfterUse(low, Credit(bytes, at), refill);
    TokensAfterUse(high, Debit(0, at), refill);
    CappedRefund(low.tokens + refill, gap, bytes as real, low.limit as real);
  }

  lemma CappedRefund(tokens: real, gap: real, bytes: real, cap: real)
    requires 0.0 <= gap <= bytes
    ensures var refunded, spared := MinReal(tokens + bytes, cap), MinReal(tokens + gap, cap);
            && spared <= refunded <= spared + bytes
            && (refunded == spared <==> gap == bytes || spared == cap)
  {
  }

  lemma DebitOfOneBucket(buckets: Buckets, c: Claim, bytes: nat, at: real)
    requires c.key in buckets && buckets[c.key].limit == c.limit
    ensures Debited(buckets, c, bytes, at) == buckets[c.key := Used(buckets[c.key], Debit(bytes, at))]
  {
  }

  lemma RefundOfOneBucket(buckets: Buckets, c: Claim, bytes: nat, at: real)
    requires c.key in buckets && buckets[c.key].limit == c.limit
    ensures Refunded(buckets, c, bytes, at) == buckets[c.key := Used(buckets[c.key], Credit(bytes, at))]
  {
  }

  lemma RefundedRun(buckets: Buckets, c: Claim, bytes: nat, reservedAt: real, uses: seq<Use>, refundedAt: real)
    requires c.key in buckets && buckets[c.key].limit == c.limit
    ensures Refunded(UsingAll(Debited(buckets, c, bytes, reservedAt), c, uses), c, bytes, refundedAt)
         == buckets[c.key := Used(UsedAll(Used(buckets[c.key], Debit(bytes, reservedAt)), uses),
                                  Credit(bytes, refundedAt))]
  {
    var start := Debited(buckets, c, bytes, reservedAt);
    DebitOfOneBucket(buckets, c, bytes, reservedAt);
    UsingOneBucket(start, c, uses);
    RefundOfOneBucket(UsingAll(start, c, uses), c, bytes, refundedAt);
  }

  /** A cancelled reservation never costs the others anything: whatever they did with the bucket in between, after the
      refund it holds at least what it would have held without the reservation, and at most the refunded bytes more. It
      holds exactly that when nothing was reserved, when it would be full anyway, or when it would never have
      overflowed in between. */
  lemma RefundAmongOthers(buckets: Buckets, c: Claim, bytes: nat, reservedAt: real, uses: seq<Use>, refundedAt: real)
    requires c.key in buckets && buckets[c.key].limit == c.limit
    requires buckets[c.key].updated <= reservedAt && InOrder(reservedAt, uses, refundedAt)
    ensures var after := Refunded(UsingAll(Debited(buckets, c, bytes, reservedAt), c, uses), c, bytes, refundedAt);
            var without := UsingAll(buckets, c, uses);
            && c.key in after && c.key in without && after == without[c.key := after[c.key]]
            && var refunded, spared := after[c.key].tokens, Refilled(without[c.key], refundedAt, c.limit);
            && spared <= refunded <= spared + bytes as real
            && (refunded == spared <==>
                  bytes == 0 || spared == c.limit as real
                      || !EverOverflows(AtReservation(buckets[c.key], reservedAt), uses))
  {
    var b := buckets[c.key];
    UsingOneBucket(buckets, c, uses);
    RefundedRun(buckets, c, bytes, reservedAt, uses, refundedAt);
    RefundInOneBucket(b, bytes, reservedAt, uses, refundedAt);
  }

  /** In particular, if nobody else uses the bucket, a cancelled reservation leaves no mark at all. */
  lemma RefundUndoesReservation(buckets: Buckets, c: Claim, bytes: nat, reservedAt: real, refundedAt: real)
    requires reservedAt <= refundedAt
    requires c.key in buckets && buckets[c.key].limit == c.limit && buckets[c.key].updated <= reservedAt
    ensures var after := Refunded(Debited(buckets, c, bytes, reservedAt), c, bytes, refundedAt);
            && after.Keys == buckets.Keys
            && after[c.key] == Bucket(Refilled(buckets[c.key], refundedAt, c.limit), refundedAt, c.limit)
            && forall k :: k in buckets && k != c.key ==> after[k] == buckets[k]
  {
    RefundAmongOthers(buckets, c, bytes, reservedAt, [], refundedAt);
  }

  /** A full bucket of 100: 50 reserved at 0.0, 10 more by another half a second later, then the 50 given back. That
      leaves 100 tokens, 10 more than without the reservation. */
  lemma ARefundMayGiveMore(buckets: Buckets, c: Claim)
    requires c.limit == 100 && c.key in buckets && buckets[c.key] == Bucket(100.0, 0.0, 100)
    ensures var uses := [Debit(10, 0.5)];
            && Refunded(UsingAll(Debited(buckets, c, 50, 0.0), c, uses), c, 50, 0.5)[c.key].tokens == 100.0
            && UsingAll(buckets, c, uses)[c.key] == Bucket(90.0, 0.5, 100)
  {
    var uses := [Debit(10, 0.5)];
    assert uses[..0] == [];
  }
}
