/** The limiter from the other side: how much it lets through. Every token of a bucket is accounted for, and an
    acquisition waits exactly until the allowance covers what was asked for. */
module Throughput {
  import opened Prelude
  import opened Bandwidth

  /** Every event is possible when its turn comes. */
  predicate Legal(sys: System, run: seq<Event>)
    decreases run
  {
    run == [] || (Enabled(sys, run[0]) && Legal(Apply(sys, run[0]), run[1..]))
  }

  function After(sys: System, run: seq<Event>): System
    requires Legal(sys, run)
    decreases run
  {
    if run == [] then sys else After(Apply(sys, run[0]), run[1..])
  }

  /** What does not fit into a bucket. */
  function Excess(tokens: real, limit: nat): real {
    if tokens > limit as real then tokens - limit as real else 0.0
  }

  /** Whether the event reserves on the key, or gives back. */
  predicate Concerns(sys: System, ev: Event, key: Key)
    requires Enabled(sys, ev)
  {
    match ev
    case Acquire(direction, profile, bytes, globalLimit, profileLimit) =>
      Uses(Apply(sys, ev).history[|sys.history|], key)
    case Cancel(i) => Uses(sys.history[i], key)
    case _ => false
  }

  /** What a step may let go of a bucket: what does not fit when it is refilled, and when it is credited. */
  function Lost(b: Bucket, now: real): real {
    Excess(b.tokens + (now - b.updated) * b.limit as real, b.limit)
  }

  function LostToCredit(b: Bucket, bytes: nat, now: real): real {
    Lost(b, now) + Excess(b.tokens + (now - b.updated) * b.limit as real - Lost(b, now) + bytes as real, b.limit)
  }

  /** The tokens that a full bucket lets go at one step: those that trickled in, and those that were given back. */
  function Spill(sys: System, ev: Event, key: Key): real
    requires Enabled(sys, ev)
  {
    if key !in sys.buckets || !Concerns(sys, ev, key) then 0.0
    else if ev.Acquire? then Lost(sys.buckets[key], sys.now)
    else LostToCredit(sys.buckets[key], sys.history[ev.index].bytes, sys.now)
  }

  function Spilled(sys: System, run: seq<Event>, key: Key): real
    requires Legal(sys, run)
    decreases run
  {
    if run == [] then 0.0 else Spill(sys, run[0], key) + Spilled(Apply(sys, run[0]), run[1..], key)
  }

  predicate IsStart(sys: System) {
    sys.buckets == map[] && sys.born == map[] && sys.history == []
  }

  function KeptOn(sys: System, key: Key): nat {
    Kept(sys.history, key, |sys.history|)
  }

  /** The books of a bucket, to the token: what was kept, what is left and what was let go make up the allowance. */
  ghost predicate Balances(sys: System, key: Key, limit: nat, spilled: real) {
    && (key in sys.born <==> key in sys.buckets)
    && (key !in sys.buckets ==> spilled == 0.0 && forall i :: 0 <= i < |sys.history| ==> !Uses(sys.history[i], key))
    && (key in sys.buckets ==>
          && sys.born[key] <= sys.buckets[key].updated <= sys.now && sys.buckets[key].limit == limit
          && KeptOn(sys, key) as real + sys.buckets[key].tokens + spilled
             == Allowance(limit, sys.buckets[key].updated - sys.born[key]))
  }

  lemma NothingKept(sys: System, key: Key, limit: nat, spilled: real)
    requires Balances(sys, key, limit, spilled) && key !in sys.buckets
    ensures KeptOn(sys, key) == 0
  {
    assert sys.history[..|sys.history|] == sys.history;
    UnusedKeyKeepsNothing(sys.history, key, NotCancelled);
  }

  /** A debit leaves what was there and what trickled in and fitted, less the bytes. */
  lemma DebitBalances(buckets: Buckets, key: Key, limit: nat, bytes: nat, now: real, born: real, kept: real,
                      spilled: real)
    requires key in buckets && buckets[key].limit == limit && buckets[key].updated <= now
    requires kept + buckets[key].tokens + spilled == Allowance(limit, buckets[key].updated - born)
    ensures var after := Debited(buckets, Claim(key, limit), bytes, now)[key];
            && after.limit == limit && after.updated == now
            && kept + bytes as real + after.tokens + (spilled + Lost(buckets[key], now)) == Allowance(limit, now - born)
  {
    var b := buckets[key];
    var gain := (now - b.updated) * limit as real;
    EarnedSince(limit, b.updated - born, now - b.updated, now - born, gain);
  }

  /** What fits and what does not make up the whole, also when more is added. */
  lemma FittingAndExcess(tokens: real, limit: nat, bytes: nat)
    ensures MinReal(tokens, limit as real) + Excess(tokens, limit) == tokens
    ensures MinReal(MinReal(tokens, limit as real) + bytes as real, limit as real)
              + (Excess(tokens, limit) + Excess(tokens - Excess(tokens, limit) + bytes as real, limit))
            == tokens + bytes as real
  {
  }

  lemma EarnedSince(limit: nat, before: real, more: real, whole: real, gain: real)
    requires more >= 0.0 && whole == before + more && gain == more * limit as real
    ensures Allowance(limit, whole) == Allowance(limit, before) + gain
  {
    AllowanceGrows(limit, before, more);
  }

  lemma RefilledBy(b: Bucket, now: real, rate: nat, gain: real)
    requires gain == (now - b.updated) * rate as real
    ensures Refilled(b, now, rate) == MinReal(b.tokens + gain, rate as real)
  {
  }

  lemma RefundByTheNumbers(buckets: Buckets, c: Claim, bytes: nat, now: real)
    requires c.key in buckets
    ensures var before, after, l := buckets[c.key], Refunded(buckets, c, bytes, now)[c.key], c.limit as real;
            && after.limit == before.limit && after.updated == now
            && after.tokens == MinReal(Refilled(before, now, c.limit) + bytes as real, l)
  {
  }

  lemma RefundBalances(buckets: Buckets, key: Key, limit: nat, bytes: nat, now: real, born: real, kept: real,
                       spilled: real)
    requires key in buckets && buckets[key].limit == limit && buckets[key].updated <= now
    requires kept + buckets[key].tokens + spilled == Allowance(limit, buckets[key].updated - born)
    ensures var after := Refunded(buckets, Claim(key, limit), bytes, now)[key];
            && after.limit == limit && after.updated == now
            && kept - bytes as real + after.tokens + (spilled + LostToCredit(buckets[key], bytes, now))
               == Allowance(limit, now - born)
  {
    var b, l := buckets[key], limit as real;
    var gain := (now - b.updated) * l;
    FittingAndExcess(b.tokens + gain, limit, bytes);
    RefilledBy(b, now, limit, gain);
    RefundByTheNumbers(buckets, Claim(key, limit), bytes, now);
    EarnedSince(limit, b.updated - born, now - b.updated, now - born, gain);
  }

  lemma AcquireBalances(sys: System, ev: Event, key: Key, limit: nat, spilled: real)
    requires ev.Acquire? && Balances(sys, key, limit, spilled)
    requires LimitUnchanged(Apply(sys, ev).history, key, limit)
    ensures Balances(Apply(sys, ev), key, limit, spilled + Spill(sys, ev, key))
  {
    var after := Apply(sys, ev);
    var a := after.history[|sys.history|];
    ClaimsAreDistinct(ev.direction, ev.profile, ev.globalLimit, ev.profileLimit);
    DebitAllAt(sys.buckets, a.claims, a.bytes, sys.now, key);
    if Uses(a, key) {
      var c :| 0 <= c < |a.claims| && a.claims[c].key == key;
      assert a.claims[c] == Claim(key, limit);
      UsedBalances(sys, after, a, key, limit, spilled);
    } else {
      OthersBalance(sys, after, a, key, limit, spilled);
    }
  }

  lemma UsedBalances(sys: System, after: System, a: Acquisition, key: Key, limit: nat, spilled: real)
    requires Balances(sys, key, limit, spilled) && Uses(a, key) && a.status == Waiting && after.now == sys.now
    requires after.history == sys.history + [a]
    requires key in after.buckets
             && after.buckets[key] == Debited(sys.buckets, Claim(key, limit), a.bytes, sys.now)[key]
    requires key in after.born && after.born[key] == if key in sys.born then sys.born[key] else sys.now
    ensures Balances(after, key, limit, spilled + if key in sys.buckets then Lost(sys.buckets[key], sys.now) else 0.0)
  {
    var kept := KeptOn(sys, key) as real;
    KeptGrows(sys.history, a, key, |sys.history|);
    if key in sys.buckets {
      DebitBalances(sys.buckets, key, limit, a.bytes, sys.now, sys.born[key], kept, spilled);
    } else {
      NothingKept(sys, key, limit, spilled);
      assert limit as real * (sys.now - sys.now) == 0.0 && (sys.now - sys.now) * limit as real == 0.0;
    }
  }

  lemma OthersBalance(sys: System, after: System, a: Acquisition, key: Key, limit: nat, spilled: real)
    requires Balances(sys, key, limit, spilled) && !Uses(a, key) && after.now == sys.now
    requires after.history == sys.history + [a]
    requires key in after.buckets <==> key in sys.buckets
    requires key in after.born <==> key in sys.born
    requires key in sys.buckets ==> after.buckets[key] == sys.buckets[key] && after.born[key] == sys.born[key]
    ensures Balances(after, key, limit, spilled)
  {
    KeptGrows(sys.history, a, key, |sys.history|);
  }

  lemma SameUses(history: seq<Acquisition>, after: seq<Acquisition>, i: nat, status: Status, key: Key)
    requires i < |history| && after == history[i := history[i].(status := status)]
    ensures forall j :: 0 <= j < |history| ==> (Uses(after[j], key) <==> Uses(history[j], key))
  {
  }

  lemma CancelBalances(sys: System, ev: Event, key: Key, limit: nat, spilled: real)
    requires ev.Cancel? && Enabled(sys, ev) && Balances(sys, key, limit, spilled) && WellFormed(sys)
    requires LimitUnchanged(sys.history, key, limit)
    ensures Balances(Apply(sys, ev), key, limit, spilled + Spill(sys, ev, key))
  {
    var a := sys.history[ev.index];
    var after := Apply(sys, ev);
    RefundAllAt(sys.buckets, a.claims, a.bytes, sys.now, key);
    if Uses(a, key) {
      var c :| 0 <= c < |a.claims| && a.claims[c].key == key;
      assert a.claims[c] == Claim(key, limit);
    }
    CreditBalances(sys, after, ev.index, key, limit, spilled);
  }

  lemma CreditBalances(sys: System, after: System, i: nat, key: Key, limit: nat, spilled: real)
    requires Balances(sys, key, limit, spilled) && i < |sys.history| && sys.history[i].status == Waiting
    requires after.now == sys.now && after.born == sys.born && (key in after.buckets <==> key in sys.buckets)
    requires after.history == sys.history[i := sys.history[i].(status := Cancelled)]
    requires key in sys.buckets ==>
      after.buckets[key] == if Uses(sys.history[i], key)
                            then Refunded(sys.buckets, Claim(key, limit), sys.history[i].bytes, sys.now)[key]
                            else sys.buckets[key]
    ensures Balances(after, key, limit, spilled + if key in sys.buckets && Uses(sys.history[i], key)
                       then LostToCredit(sys.buckets[key], sys.history[i].bytes, sys.now) else 0.0)
  {
    var a := sys.history[i];
    KeptAfterChange(sys.history, key, i, Cancelled, |sys.history|);
    SameUses(sys.history, after.history, i, Cancelled, key);
    if key in sys.buckets && Uses(a, key) {
      RefundBalances(sys.buckets, key, limit, a.bytes, sys.now, sys.born[key], KeptOn(sys, key) as real, spilled);
    }
  }

  lemma FinishBalances(sys: System, ev: Event, key: Key, limit: nat, spilled: real)
    requires ev.Finish? && Enabled(sys, ev) && Balances(sys, key, limit, spilled)
    ensures Balances(Apply(sys, ev), key, limit, spilled)
  {
    var after := Apply(sys, ev);
    KeptAfterChange(sys.history, key, ev.index, Completed, |sys.history|);
    SameUses(sys.history, after.history, ev.index, Completed, key);
  }

  lemma StepBalances(sys: System, ev: Event, key: Key, limit: nat, spilled: real)
    requires Enabled(sys, ev) && Balances(sys, key, limit, spilled) && WellFormed(sys)
    requires LimitUnchanged(sys.history, key, limit) && LimitUnchanged(Apply(sys, ev).history, key, limit)
    ensures Balances(Apply(sys, ev), key, limit, spilled + Spill(sys, ev, key))
  {
    match ev
    case Tick(_) =>
    case Acquire(_, _, _, _, _) => AcquireBalances(sys, ev, key, limit, spilled);
    case Finish(_) => FinishBalances(sys, ev, key, limit, spilled);
    case Cancel(_) => CancelBalances(sys, ev, key, limit, spilled);
  }

  lemma {:induction false} RunLimitsPersist(sys: System, run: seq<Event>, key: Key, limit: nat)
    requires Legal(sys, run) && LimitUnchanged(After(sys, run).history, key, limit)
    ensures LimitUnchanged(sys.history, key, limit)
    decreases run
  {
    if run == [] {
    } else {
      RunLimitsPersist(Apply(sys, run[0]), run[1..], key, limit);
      HistoryLimitsPersist(sys, run[0], key, limit);
    }
  }

  lemma {:induction false} RunBalances(sys: System, run: seq<Event>, key: Key, limit: nat, spilled: real)
    requires Legal(sys, run) && Balances(sys, key, limit, spilled) && WellFormed(sys)
    requires LimitUnchanged(After(sys, run).history, key, limit)
    ensures Balances(After(sys, run), key, limit, spilled + Spilled(sys, run, key)) && WellFormed(After(sys, run))
    decreases run
  {
    if run == [] {
    } else {
      var next := Apply(sys, run[0]);
      RunLimitsPersist(sys, run, key, limit);
      RunLimitsPersist(next, run[1..], key, limit);
      StepBalances(sys, run[0], key, limit, spilled);
      StepKeepsWellFormed(sys, run[0]);
      RunBalances(next, run[1..], key, limit, spilled + Spill(sys, run[0], key));
    }
  }

  lemma RunFromStart(start: System, run: seq<Event>, key: Key, limit: nat)
    requires IsStart(start) && Legal(start, run) && LimitUnchanged(After(start, run).history, key, limit)
    ensures Balances(After(start, run), key, limit, Spilled(start, run, key))
  {
    RunBalances(start, run, key, limit, 0.0);
  }

  lemma MakesUpTheAllowance(sys: System, key: Key, limit: nat, spilled: real)
    requires Balances(sys, key, limit, spilled)
    ensures key in sys.born && key in sys.buckets ==>
              KeptOn(sys, key) as real + sys.buckets[key].tokens + spilled
              == Allowance(limit, sys.buckets[key].updated - sys.born[key])
  {
  }

  /** Along every run a bucket of unchanged limit has let through, or still holds, or has let go, exactly what its
      limit allows for: no token is lost otherwise, and none is made. */
  lemma TokensAreConserved(start: System, run: seq<Event>, key: Key, limit: nat)
    requires IsStart(start) && Legal(start, run) && LimitUnchanged(After(start, run).history, key, limit)
    ensures var sys := After(start, run);
            key in sys.born && key in sys.buckets ==>
              KeptOn(sys, key) as real + sys.buckets[key].tokens + Spilled(start, run, key)
              == Allowance(limit, sys.buckets[key].updated - sys.born[key])
  {
    RunFromStart(start, run, key, limit);
    MakesUpTheAllowance(After(start, run), key, limit, Spilled(start, run, key));
  }

  // ---------------------------------------------------------------------------------------------
  // Waiting no longer than needed

  /** At that time the allowance of the key covers what was kept, and what a full bucket let go. */
  ghost predicate IsCovered(sys: System, key: Key, limit: nat, spilled: real, time: real)
    requires key in sys.born
  {
    KeptOn(sys, key) as real + spilled <= Allowance(limit, time - sys.born[key])
  }

  lemma CoveredWhenPaid(sys: System, key: Key, limit: nat, spilled: real, time: real)
    requires Balances(sys, key, limit, spilled) && key in sys.buckets && sys.buckets[key].updated == sys.now <= time
    ensures IsCovered(sys, key, limit, spilled, time) <==> IsPaid(sys.buckets[key], time - sys.now)
  {
    AllowanceGrows(limit, sys.now - sys.born[key], time - sys.now);
    assert time - sys.born[key] == sys.now - sys.born[key] + (time - sys.now);
  }

  /** All claims of the acquisition are on buckets of unchanged limits. */
  ghost predicate LimitsAreUnchanged(history: seq<Acquisition>, claims: seq<Claim>) {
    forall i :: 0 <= i < |claims| ==> LimitUnchanged(history, claims[i].key, claims[i].limit)
  }

  ghost predicate ClaimIsCovered(start: System, run: seq<Event>, c: Claim, time: real)
    requires Legal(start, run)
  {
    var sys := After(start, run);
    c.key in sys.born && IsCovered(sys, c.key, c.limit, Spilled(start, run, c.key), time)
  }

  /** Every bucket of the acquisition covers it at that time. */
  ghost predicate AreCovered(start: System, run: seq<Event>, claims: seq<Claim>, time: real)
    requires Legal(start, run)
  {
    forall i :: 0 <= i < |claims| ==> ClaimIsCovered(start, run, claims[i], time)
  }

  lemma {:induction false} RunsCompose(sys: System, run: seq<Event>, ev: Event)
    requires Legal(sys, run) && Enabled(After(sys, run), ev)
    ensures Legal(sys, run + [ev]) && After(sys, run + [ev]) == Apply(After(sys, run), ev)
    decreases run
  {
    if run == [] {
      assert run + [ev] == [ev] && [ev][1..] == [];
      assert After(Apply(sys, ev), []) == Apply(sys, ev);
    } else {
      assert (run + [ev])[1..] == run[1..] + [ev];
      RunsCompose(Apply(sys, run[0]), run[1..], ev);
    }
  }

  /** A bucket that was debited just now covers what was kept when it is out of debt. */
  lemma ClaimIsCoveredWhenPaid(start: System, run: seq<Event>, c: Claim, time: real)
    requires IsStart(start) && Legal(start, run) && LimitUnchanged(After(start, run).history, c.key, c.limit)
    requires var sys := After(start, run);
             time >= sys.now && c.key in sys.buckets && sys.buckets[c.key].updated == sys.now
    ensures ClaimIsCovered(start, run, c, time)
            <==> IsPaid(After(start, run).buckets[c.key], time - After(start, run).now)
  {
    RunFromStart(start, run, c.key, c.limit);
    CoveredWhenPaid(After(start, run), c.key, c.limit, Spilled(start, run, c.key), time);
  }

  lemma AreCoveredWhenPaid(start: System, run: seq<Event>, claims: seq<Claim>, time: real)
    requires IsStart(start) && Legal(start, run) && LimitsAreUnchanged(After(start, run).history, claims)
    requires var sys := After(start, run);
             && time >= sys.now
             && forall i :: 0 <= i < |claims| ==>
                  claims[i].key in sys.buckets && sys.buckets[claims[i].key].updated == sys.now
    ensures AreCovered(start, run, claims, time)
            <==> ArePaid(After(start, run).buckets, claims, time - After(start, run).now)
  {
    var sys := After(start, run);
    forall i | 0 <= i < |claims|
      ensures ClaimIsCovered(start, run, claims[i], time) <==> IsPaid(sys.buckets[claims[i].key], time - sys.now)
    {
      ClaimIsCoveredWhenPaid(start, run, claims[i], time);
    }
  }

  /** The step of an acquisition: its buckets are debited just now, and its wait ends when they are out of debt. */
  lemma AcquireByDebts(sys: System, ev: Event, time: real)
    requires ev.Acquire? && time >= sys.now
    ensures var after := Apply(sys, ev);
            var a := after.history[|sys.history|];
            && a.bytes == ev.bytes && after.now == sys.now <= a.deadline
            && (forall i :: 0 <= i < |a.claims| ==>
                  a.claims[i].key in after.buckets && after.buckets[a.claims[i].key].updated == sys.now)
            && (a.deadline <= time <==> ArePaid(after.buckets, a.claims, time - sys.now))
  {
    var a := Apply(sys, ev).history[|sys.history|];
    ClaimsAreDistinct(ev.direction, ev.profile, ev.globalLimit, ev.profileLimit);
    assert forall i :: 0 <= i < |a.claims| ==> a.claims[i] in a.claims;
    WaitIsLeast(sys.buckets, a.claims, a.bytes, sys.now, time - sys.now);
    AllAreDebited(sys.buckets, a.claims, a.bytes, sys.now);
  }

  lemma AllAreDebited(buckets: Buckets, claims: seq<Claim>, bytes: nat, now: real)
    requires OneClaimPerKey(claims)
    ensures LongestWait(buckets, claims, bytes, now) >= 0.0
    ensures var after := DebitAll(buckets, claims, bytes, now);
            forall i :: 0 <= i < |claims| ==> claims[i].key in after && after[claims[i].key].updated == now
  {
    DebitAllAt(buckets, claims, bytes, now, Global(""));
    var after := DebitAll(buckets, claims, bytes, now);
    forall i | 0 <= i < |claims| ensures claims[i].key in after && after[claims[i].key].updated == now {
      DebitAllAt(buckets, claims, bytes, now, claims[i].key);
    }
  }

  /** An acquisition is told to wait until the first moment at which each of its buckets has earned what was asked
      for: at every earlier time one of them has not, and at every later one all have. */
  lemma DeadlineIsTheFirstMoment(start: System, run: seq<Event>, ev: Event, time: real)
    requires IsStart(start) && Legal(start, run) && ev.Acquire? && time >= After(start, run).now
    requires var after := Apply(After(start, run), ev);
             LimitsAreUnchanged(after.history, after.history[|after.history| - 1].claims)
    ensures Legal(start, run + [ev]) && After(start, run + [ev]) == Apply(After(start, run), ev)
    ensures var after := After(start, run + [ev]);
            var a := after.history[|after.history| - 1];
            && a.bytes == ev.bytes && a.deadline >= after.now
            && (a.deadline <= time <==> AreCovered(start, run + [ev], a.claims, time))
  {
    var a := Apply(After(start, run), ev).history[|After(start, run).history|];
    RunsCompose(start, run, ev);
    AcquireByDebts(After(start, run), ev, time);
    AreCoveredWhenPaid(start, run + [ev], a.claims, time);
  }
}
