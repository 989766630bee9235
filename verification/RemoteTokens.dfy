/** The central token server of the local-cached limiter: a bucket that may go into debt.
    Levels are in nanotokens; instants in nanoseconds. */
module RemoteTokens {
  import opened Common

  datatype Remote = Remote(tokens: int, lastRefill: int)

  datatype Answer = Answer(granted: int, wait: int, remote: Remote)

  function Refilled(rate: int, r: Remote, now: int): int {
    r.tokens + (now - r.lastRefill) * rate
  }

  /** RequestTokens: a bucket in debt refuses, any other grants in full, even into debt. */
  function Request(rate: int, r: Remote, now: int, n: int): Answer
    requires rate > 0
  {
    var level := Refilled(rate, r, now);
    if level < 0 then
      Answer(0, TruncDiv(-level, rate), Remote(level, now))
    else if level - n * NANO < 0 then
      Answer(n, TruncDiv(n * NANO - level, rate), Remote(level - n * NANO, now))
    else
      Answer(n, 0, Remote(level - n * NANO, now))
  }

  /** Whether a request is granted (a refusal and a grant of 0 look alike to the caller). */
  predicate Grants(rate: int, r: Remote, now: int) {
    Refilled(rate, r, now) >= 0
  }

  class RemoteTokenServer {
    var tokens: int
    const rate: int
    var lastRefill: int

    ghost function State(): Remote
      reads this
    {
      Remote(tokens, lastRefill)
    }

    constructor (rate: int, burst: int, now: int)
      ensures this.rate == rate && State() == Remote(burst * NANO, now)
    {
      this.rate := rate;
      tokens := burst * NANO;
      lastRefill := now;
    }

    method RequestTokens(n: int, now: int) returns (granted: int, wait: int)
      requires rate > 0
      modifies this
      ensures Answer(granted, wait, State()) == Request(rate, old(State()), now, n)
      ensures granted == if old(tokens) + (now - old(lastRefill)) * rate >= 0 then n else 0
      ensures tokens == old(tokens) + (now - old(lastRefill)) * rate - granted * NANO && lastRefill == now
      ensures tokens >= 0 ==> wait == 0
      ensures tokens < 0 ==> IsTruncated(wait, -tokens, rate)
    {
      var elapsed := now - lastRefill;
      lastRefill := now;
      tokens := tokens + elapsed * rate;
      if tokens < 0 { TruncDivTruncates(-tokens, rate); }
      if tokens < 0 {
        var deficit := -tokens;
        return 0, TruncDiv(deficit, rate);
      }
      tokens := tokens - n * NANO;
      if tokens < 0 { TruncDivTruncates(-tokens, rate); }
      if tokens < 0 {
        var deficit := -tokens;
        return n, TruncDiv(deficit, rate);
      }
      return n, 0;
    }
  }

  // ----- runs of requests, from any number of limiters -----

  /** A request for `n` tokens reaching the server at `now`. */
  datatype Arrival = Arrival(now: int, n: int)

  /** The server after a run of requests. */
  function Served(rate: int, r: Remote, asks: seq<Arrival>): Remote
    requires rate > 0
    decreases |asks|
  {
    if asks == [] then r else Served(rate, Request(rate, r, asks[0].now, asks[0].n).remote, asks[1..])
  }

  /** Which requests of a run are granted. */
  function Outcomes(rate: int, r: Remote, asks: seq<Arrival>): (o: seq<bool>)
    requires rate > 0
    ensures |o| == |asks|
    decreases |asks|
  {
    if asks == [] then []
    else [Grants(rate, r, asks[0].now)] + Outcomes(rate, Request(rate, r, asks[0].now, asks[0].n).remote, asks[1..])
  }

  function Granted(rate: int, r: Remote, asks: seq<Arrival>): int
    requires rate > 0
    decreases |asks|
  {
    if asks == [] then 0
    else
      var a := Request(rate, r, asks[0].now, asks[0].n);
      a.granted + Granted(rate, a.remote, asks[1..])
  }

  /** Every nanotoken granted came from the initial level or from refill. */
  lemma RequestConserves(rate: int, r: Remote, now: int, n: int)
    requires rate > 0
    ensures var a := Request(rate, r, now, n);
            a.granted * NANO == r.tokens + rate * (now - r.lastRefill) - a.remote.tokens
            && a.remote.lastRefill == now
  {
  }

  lemma {:induction false} RunConserves(rate: int, r: Remote, asks: seq<Arrival>)
    requires rate > 0
    ensures Granted(rate, r, asks) * NANO
         == r.tokens + rate * (Served(rate, r, asks).lastRefill - r.lastRefill) - Served(rate, r, asks).tokens
    decreases |asks|
  {
    if asks != [] {
      var a := Request(rate, r, asks[0].now, asks[0].n);
      RequestConserves(rate, r, asks[0].now, asks[0].n);
      RunConserves(rate, a.remote, asks[1..]);
      var end := Served(rate, r, asks).lastRefill;
      assert rate * (asks[0].now - r.lastRefill) + rate * (end - asks[0].now) == rate * (end - r.lastRefill);
    }
  }

  /** The answers of a run. */
  function Answers(rate: int, r: Remote, asks: seq<Arrival>): (answers: seq<Answer>)
    requires rate > 0
    ensures |answers| == |asks|
    decreases |asks|
  {
    if asks == [] then []
    else
      var a := Request(rate, r, asks[0].now, asks[0].n);
      [a] + Answers(rate, a.remote, asks[1..])
  }

  function TotalGranted(answers: seq<Answer>): int {
    if answers == [] then 0 else answers[0].granted + TotalGranted(answers[1..])
  }

  /** The answer to a request for `n` tokens that finds `level`: everything or nothing; a wait
      exactly if it leaves a debt, for as long as the rate needs, truncated. */
  ghost predicate ExactAnswer(rate: int, n: int, level: int, a: Answer)
    requires rate > 0
  {
    var left := level - a.granted * NANO;
    && a.granted == (if level >= 0 then n else 0)
    && (left >= 0 ==> a.wait == 0)
    && (left < 0 ==> IsTruncated(a.wait, -left, rate))
  }

  lemma OneAnswerIsExact(rate: int, r: Remote, now: int, n: int)
    requires rate > 0
    ensures ExactAnswer(rate, n, r.tokens + rate * (now - r.lastRefill), Request(rate, r, now, n))
  {
    var a := Request(rate, r, now, n);
    assert r.tokens + rate * (now - r.lastRefill) == Refilled(rate, r, now);
    assert Refilled(rate, r, now) - a.granted * NANO == a.remote.tokens;
    if a.remote.tokens < 0 {
      TruncDivTruncates(-a.remote.tokens, rate);
      assert a.wait == TruncDiv(-a.remote.tokens, rate);
    }
  }

  /** The initial level, plus the refill until request `i`, less all tokens granted before it. */
  function LevelAt(rate: int, r: Remote, asks: seq<Arrival>, i: nat): int
    requires rate > 0 && i < |asks|
  {
    r.tokens + rate * (asks[i].now - r.lastRefill) - TotalGranted(Answers(rate, r, asks)[..i]) * NANO
  }

  lemma LevelAfterFirst(rate: int, r: Remote, asks: seq<Arrival>, i: nat)
    requires rate > 0 && 0 < i < |asks|
    ensures LevelAt(rate, r, asks, i)
         == LevelAt(rate, Request(rate, r, asks[0].now, asks[0].n).remote, asks[1..], i - 1)
  {
    var a, answers := Request(rate, r, asks[0].now, asks[0].n), Answers(rate, r, asks);
    RequestConserves(rate, r, asks[0].now, asks[0].n);
    RefillAdds(rate, r.lastRefill, asks[0].now, asks[i].now);
    assert answers[1..] == Answers(rate, a.remote, asks[1..]);
    assert answers[..i][0] == a && answers[..i][1..] == answers[1..][..i - 1];
  }

  /** In a run of requests at any instants each one is answered exactly from that level. */
  lemma {:induction false} AnswersAreExact(rate: int, r: Remote, asks: seq<Arrival>, i: nat)
    requires rate > 0 && i < |asks|
    ensures ExactAnswer(rate, asks[i].n, LevelAt(rate, r, asks, i), Answers(rate, r, asks)[i])
    decreases i
  {
    if i == 0 {
      assert Answers(rate, r, asks)[..0] == [];
      OneAnswerIsExact(rate, r, asks[0].now, asks[0].n);
    } else {
      LevelAfterFirst(rate, r, asks, i);
      AnswersAreExact(rate, Request(rate, r, asks[0].now, asks[0].n).remote, asks[1..], i - 1);
    }
  }

  lemma RefillAdds(rate: int, t0: int, t1: int, t2: int)
    ensures rate * (t2 - t0) == rate * (t2 - t1) + rate * (t1 - t0)
  {
  }

  /** Outcomes tell which requests got their tokens. */
  lemma {:induction false} OutcomesAreGrants(rate: int, r: Remote, asks: seq<Arrival>, i: nat)
    requires rate > 0 && i < |asks|
    ensures Answers(rate, r, asks)[i].granted == if Outcomes(rate, r, asks)[i] then asks[i].n else 0
    decreases i
  {
    if i > 0 {
      OutcomesAreGrants(rate, Request(rate, r, asks[0].now, asks[0].n).remote, asks[1..], i - 1);
    }
  }

  /** A refusal only takes the refill so far: later instants are granted as before. */
  lemma RefusalKeepsTheDebt(rate: int, r: Remote, now: int, n: int, later: int)
    requires rate > 0 && !Grants(rate, r, now)
    ensures Grants(rate, Request(rate, r, now, n).remote, later) <==> Grants(rate, r, later)
  {
    assert (later - r.lastRefill) * rate == (later - now) * rate + (now - r.lastRefill) * rate;
  }

  lemma OutcomesAfterFirst(rate: int, r: Remote, asks: seq<Arrival>, next: Remote, rest: seq<Arrival>)
    requires rate > 0 && asks != [] && rest == asks[1..]
    requires next == Request(rate, r, asks[0].now, asks[0].n).remote
    ensures Outcomes(rate, r, asks)[0] == Grants(rate, r, asks[0].now)
    ensures forall k :: 0 <= k < |rest| ==> Outcomes(rate, next, rest)[k] == Outcomes(rate, r, asks)[k + 1]
  {
  }

  /** Refused requests leave no trace: the first one granted is the first that would have been
      granted if it were the only one. */
  lemma {:induction false} RefusalsLeaveNoTrace(rate: int, r: Remote, asks: seq<Arrival>, i: nat)
    requires rate > 0 && i < |asks|
    requires forall k :: 0 <= k < i ==> !Outcomes(rate, r, asks)[k]
    ensures Outcomes(rate, r, asks)[i] <==> Grants(rate, r, asks[i].now)
    decreases i
  {
    var next, rest := Request(rate, r, asks[0].now, asks[0].n).remote, asks[1..];
    OutcomesAfterFirst(rate, r, asks, next, rest);
    if i > 0 {
      assert !Outcomes(rate, r, asks)[0];
      RefusalKeepsTheDebt(rate, r, asks[0].now, asks[0].n, rest[i - 1].now);
      RefusalsLeaveNoTrace(rate, next, rest, i - 1);
    }
  }

  /** While the server owes `-r.tokens` nanotokens, a request is granted exactly when the refill
      since then covers the debt, however many refused requests came before it. */
  lemma {:induction false} DebtBlocks(rate: int, r: Remote, asks: seq<Arrival>, i: nat)
    requires rate > 0 && i < |asks|
    requires forall k :: 0 <= k < i ==> !Outcomes(rate, r, asks)[k]
    ensures Outcomes(rate, r, asks)[i] <==> rate * (asks[i].now - r.lastRefill) >= -r.tokens
  {
    RefusalsLeaveNoTrace(rate, r, asks, i);
  }

  /** The debt a server was left in, seen through the wait it told the caller. */
  lemma WaitMeasuresDebt(rate: int, r: Remote, now: int, n: int)
    requires rate > 0
    ensures var a := Request(rate, r, now, n);
            a.wait == (if a.remote.tokens < 0 then -a.remote.tokens / rate else 0)
  {
  }

  /** After an answer that left the server in debt with wait `w` at instant `t`: whatever is
      asked meanwhile, nothing is granted before t + w, and as long as nothing was granted
      a request is granted exactly when it comes after t + w, or at t + w if the truncation
      in `w` lost nothing. */
  lemma {:induction false} BackOffIsExact(rate: int, r: Remote, t: int, n: int, asks: seq<Arrival>, i: nat)
    requires rate > 0 && i < |asks|
    requires Request(rate, r, t, n).remote.tokens < 0
    ensures var a := Request(rate, r, t, n);
            (forall k :: 0 <= k <= i ==> asks[k].now < t + a.wait) ==> !Outcomes(rate, a.remote, asks)[i]
    ensures var a := Request(rate, r, t, n);
            (forall k :: 0 <= k < i ==> !Outcomes(rate, a.remote, asks)[k])
            ==> (Outcomes(rate, a.remote, asks)[i]
                 <==> asks[i].now > t + a.wait
                      || (asks[i].now == t + a.wait && -a.remote.tokens % rate == 0))
  {
    var a := Request(rate, r, t, n);
    WaitMeasuresDebt(rate, r, t, n);
    if forall k :: 0 <= k < i ==> !Outcomes(rate, a.remote, asks)[k] {
      DebtBlocks(rate, a.remote, asks, i);
      TruncatedWait(-a.remote.tokens, rate, asks[i].now - t);
    }
    if forall k :: 0 <= k <= i ==> asks[k].now < t + a.wait {
      NothingBefore(rate, a.remote, t + a.wait, asks, i);
    }
  }

  lemma {:induction false} NothingBefore(rate: int, r: Remote, until: int, asks: seq<Arrival>, i: nat)
    requires rate > 0 && i < |asks|
    requires r.tokens < 0 && until == r.lastRefill + -r.tokens / rate
    requires forall k :: 0 <= k <= i ==> asks[k].now < until
    ensures forall k :: 0 <= k <= i ==> !Outcomes(rate, r, asks)[k]
    decreases i
  {
    if i > 0 { NothingBefore(rate, r, until, asks, i - 1); }
    DebtBlocks(rate, r, asks, i);
    TruncatedWait(-r.tokens, rate, asks[i].now - r.lastRefill);
  }
}
