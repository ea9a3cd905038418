/** Taking the live approval that expires first serves at least as many requests as any other
    way of choosing among the live approvals. */
module Approvals {
  import opened Wrappers
  import opened Calendar
  import opened Ledger

  /** What happens to the approvals table: an operator approves, or a request that policy
      permits needs one approval on its key. */
  datatype Happening = Approved(key: Key, expiresAt: Instant) | Requested(key: Key)

  datatype Timed = Timed(at: Instant, happening: Happening)

  /** The table, and how many requests on the key of interest were served. */
  datatype Pool = Pool(approvals: seq<Approval>, served: nat)

  predicate Chronological(timeline: seq<Timed>) {
    forall i, j :: 0 <= i < j < |timeline| ==> timeline[i].at <= timeline[j].at
  }

  function Consume(approvals: seq<Approval>, i: nat): seq<Approval>
    requires i < |approvals|
  {
    approvals[i := approvals[i].(consumed := true)]
  }

  /** A choice for a request: no approval, or a live one on the key of the request. */
  predicate ValidChoice(pool: Pool, moment: Timed, choice: Option<nat>) {
    moment.happening.Requested? && choice.Some? ==>
      choice.value < |pool.approvals| && LiveApproval(pool.approvals[choice.value], moment.happening.key, moment.at)
  }

  function Next(pool: Pool, key: Key, moment: Timed, choice: Option<nat>): Pool
    requires ValidChoice(pool, moment, choice)
  {
    match moment.happening
    case Approved(k, expiresAt) => pool.(approvals := pool.approvals + [Approval(k, expiresAt, false, "operator")])
    case Requested(k) =>
      if choice.None? then pool
      else Pool(Consume(pool.approvals, choice.value), if k == key then pool.served + 1 else pool.served)
  }

  /** The choice that issue makes. */
  function Earliest(pool: Pool, moment: Timed): Option<nat> {
    if moment.happening.Requested? then EarliestLive(pool.approvals, moment.happening.key, moment.at) else None
  }

  function RunEarliest(start: Pool, key: Key, timeline: seq<Timed>): Pool {
    if |timeline| == 0 then start
    else
      var last := |timeline| - 1;
      var pool := RunEarliest(start, key, timeline[..last]);
      Next(pool, key, timeline[last], Earliest(pool, timeline[last]))
  }

  /** The pool after following a list of choices, or None once one of them is not valid. */
  function RunChoices(start: Pool, key: Key, timeline: seq<Timed>, choices: seq<Option<nat>>): Option<Pool>
    requires |choices| == |timeline|
  {
    if |timeline| == 0 then Some(start)
    else
      var last := |timeline| - 1;
      match RunChoices(start, key, timeline[..last], choices[..last])
      case None => None
      case Some(pool) =>
        if ValidChoice(pool, timeline[last], choices[last])
        then Some(Next(pool, key, timeline[last], choices[last])) else None
  }

  // ----- counting live approvals -----

  /** The unconsumed approvals on a key that expire after t. */
  function LiveCount(approvals: seq<Approval>, key: Key, t: Instant): nat {
    if |approvals| == 0 then 0
    else LiveCount(approvals[..|approvals| - 1], key, t)
         + if LiveApproval(approvals[|approvals| - 1], key, t) then 1 else 0
  }

  lemma CountAppend(approvals: seq<Approval>, row: Approval, key: Key, t: Instant)
    ensures LiveCount(approvals + [row], key, t)
         == LiveCount(approvals, key, t) + if LiveApproval(row, key, t) then 1 else 0
  {
    assert (approvals + [row])[..|approvals|] == approvals;
  }

  lemma {:induction false} CountConsume(approvals: seq<Approval>, i: nat, key: Key, t: Instant)
    requires i < |approvals|
    ensures LiveCount(Consume(approvals, i), key, t) + (if LiveApproval(approvals[i], key, t) then 1 else 0)
         == LiveCount(approvals, key, t)
  {
    var last := |approvals| - 1;
    if i < last {
      CountConsume(approvals[..last], i, key, t);
      assert Consume(approvals, i)[..last] == Consume(approvals[..last], i);
    } else {
      assert Consume(approvals, i)[..last] == approvals[..last];
    }
  }

  /** Later, no more approvals are live; exactly as many if none expires in between. */
  lemma {:induction false} CountLater(approvals: seq<Approval>, key: Key, t: Instant, u: Instant)
    requires t <= u
    ensures LiveCount(approvals, key, u) <= LiveCount(approvals, key, t)
    ensures (forall i :: 0 <= i < |approvals| && LiveApproval(approvals[i], key, t) ==> approvals[i].expiresAt > u) ==>
              LiveCount(approvals, key, u) == LiveCount(approvals, key, t)
  {
    if |approvals| > 0 {
      CountLater(approvals[..|approvals| - 1], key, t, u);
    }
  }

  lemma CountNone(approvals: seq<Approval>, key: Key, t: Instant)
    requires forall i :: 0 <= i < |approvals| ==> !LiveApproval(approvals[i], key, t)
    ensures LiveCount(approvals, key, t) == 0
  {
    if |approvals| > 0 {
      CountNone(approvals[..|approvals| - 1], key, t);
    }
  }

  /** Approval i, live at t, is no longer counted at the later u when it has expired by then. */
  lemma CountLost(approvals: seq<Approval>, key: Key, t: Instant, u: Instant, i: nat)
    requires t <= u && i < |approvals| && LiveApproval(approvals[i], key, t) && approvals[i].expiresAt <= u
    ensures LiveCount(approvals, key, u) < LiveCount(approvals, key, t)
  {
    CountConsume(approvals, i, key, t);
    CountConsume(approvals, i, key, u);
    CountLater(Consume(approvals, i), key, t, u);
  }

  // ----- dominance -----

  /** From now on, whatever the deadline x, the first pool has served and can still serve with
      approvals that outlast x at least as many requests as the second. */
  ghost predicate Dominates(a: Pool, b: Pool, key: Key, now: Instant) {
    forall x: Instant :: now <= x ==>
      LiveCount(b.approvals, key, x) + b.served <= LiveCount(a.approvals, key, x) + a.served
  }

  lemma OtherKeysIgnored(pool: Pool, key: Key, moment: Timed, choice: Option<nat>, x: Instant)
    requires ValidChoice(pool, moment, choice) && moment.happening.Requested? && moment.happening.key != key
    ensures LiveCount(Next(pool, key, moment, choice).approvals, key, x) == LiveCount(pool.approvals, key, x)
    ensures Next(pool, key, moment, choice).served == pool.served
  {
    if choice.Some? {
      CountConsume(pool.approvals, choice.value, key, x);
    }
  }

  /** Serving a request with the approval that expires first keeps dominance over a pool that
      makes any valid choice. */
  lemma RequestKeepsDominance(a: Pool, b: Pool, key: Key, moment: Timed, choice: Option<nat>, x: Instant)
    requires Dominates(a, b, key, moment.at) && moment.at <= x
    requires moment.happening == Requested(key) && ValidChoice(b, moment, choice)
    ensures var a', b' := Next(a, key, moment, Earliest(a, moment)), Next(b, key, moment, choice);
            LiveCount(b'.approvals, key, x) + b'.served <= LiveCount(a'.approvals, key, x) + a'.served
  {
    var t, first := moment.at, Earliest(a, moment);
    assert LiveCount(b.approvals, key, x) + b.served <= LiveCount(a.approvals, key, x) + a.served;
    assert LiveCount(b.approvals, key, t) + b.served <= LiveCount(a.approvals, key, t) + a.served;
    if first.Some? {
      CountConsume(a.approvals, first.value, key, x);
    }
    if choice.Some? {
      CountConsume(b.approvals, choice.value, key, x);
      if b.approvals[choice.value].expiresAt <= x {
        CountLost(b.approvals, key, t, x, choice.value);
        if first.None? {
          CountNone(a.approvals, key, t);
        } else if x < a.approvals[first.value].expiresAt {
          CountLater(a.approvals, key, t, x);
        }
      } else if first.None? {
        CountNone(a.approvals, key, t);
        CountLater(a.approvals, key, t, x);
        assert LiveCount(b.approvals, key, x) >= 1;
      }
    }
  }

  lemma StepKeepsDominance(a: Pool, b: Pool, key: Key, moment: Timed, choice: Option<nat>)
    requires Dominates(a, b, key, moment.at) && ValidChoice(b, moment, choice)
    ensures Dominates(Next(a, key, moment, Earliest(a, moment)), Next(b, key, moment, choice), key, moment.at)
  {
    var a', b' := Next(a, key, moment, Earliest(a, moment)), Next(b, key, moment, choice);
    forall x: Instant | moment.at <= x
      ensures LiveCount(b'.approvals, key, x) + b'.served <= LiveCount(a'.approvals, key, x) + a'.served
    {
      match moment.happening
      case Approved(k, expiresAt) =>
        var row := Approval(k, expiresAt, false, "operator");
        CountAppend(a.approvals, row, key, x);
        CountAppend(b.approvals, row, key, x);
      case Requested(k) =>
        if k == key {
          RequestKeepsDominance(a, b, key, moment, choice, x);
        } else {
          OtherKeysIgnored(a, key, moment, Earliest(a, moment), x);
          OtherKeysIgnored(b, key, moment, choice, x);
        }
    }
  }

  lemma {:induction false} RunKeepsDominance(start: Pool, key: Key, timeline: seq<Timed>, choices: seq<Option<nat>>, now: Instant)
    requires Chronological(timeline) && |choices| == |timeline|
    requires forall i :: 0 <= i < |timeline| ==> timeline[i].at <= now
    requires RunChoices(start, key, timeline, choices).Some?
    ensures Dominates(RunEarliest(start, key, timeline), RunChoices(start, key, timeline, choices).value, key, now)
  {
    if |timeline| > 0 {
      var last := |timeline| - 1;
      var moment := timeline[last];
      RunKeepsDominance(start, key, timeline[..last], choices[..last], moment.at);
      StepKeepsDominance(RunEarliest(start, key, timeline[..last]),
                         RunChoices(start, key, timeline[..last], choices[..last]).value, key, moment, choices[last]);
    }
  }

  /** A time by which every approval has expired. */
  function LastExpiry(approvals: seq<Approval>, now: Instant): (t: Instant)
    ensures now <= t
    ensures forall i :: 0 <= i < |approvals| ==> approvals[i].expiresAt <= t
  {
    if |approvals| == 0 then now
    else
      var t := LastExpiry(approvals[..|approvals| - 1], now);
      if approvals[|approvals| - 1].expiresAt > t then approvals[|approvals| - 1].expiresAt else t
  }

  /** For every timeline of approvals and requests, on any keys, the code's choice serves at
      least as many requests on a key as any other valid choices from the same table. */
  lemma EarliestExpiryIsOptimal(start: Pool, key: Key, timeline: seq<Timed>, choices: seq<Option<nat>>)
    requires Chronological(timeline) && |choices| == |timeline|
    requires RunChoices(start, key, timeline, choices).Some?
    ensures RunChoices(start, key, timeline, choices).value.served <= RunEarliest(start, key, timeline).served
  {
    var now := if |timeline| == 0 then 0 else timeline[|timeline| - 1].at;
    RunKeepsDominance(start, key, timeline, choices, now);
    var a := RunEarliest(start, key, timeline);
    var x := LastExpiry(a.approvals, now);
    CountNone(a.approvals, key, x);
  }

  /** The code's own choices are among the valid ones, so the bound is attained. */
  lemma {:induction false} EarliestIsValid(start: Pool, key: Key, timeline: seq<Timed>) returns (choices: seq<Option<nat>>)
    ensures |choices| == |timeline| && RunChoices(start, key, timeline, choices) == Some(RunEarliest(start, key, timeline))
  {
    if |timeline| == 0 {
      choices := [];
    } else {
      var last := |timeline| - 1;
      var prefix := EarliestIsValid(start, key, timeline[..last]);
      choices := prefix + [Earliest(RunEarliest(start, key, timeline[..last]), timeline[last])];
      assert choices[..last] == prefix;
    }
  }

  /** An issue that policy permits and that needs an approval is granted exactly when one is
      live, and then does to the table what the earliest choice does. */
  lemma IssueTakesEarliest(db: Db, config: Config, key: Key, ttlSeconds: int, policy: Policy, signature: string,
                           clock: IssueClock, served: nat)
    requires 1 <= ttlSeconds <= 300
    requires Admit(db, config, key, policy, clock).Decide? && Admit(db, config, key, policy, clock).approvalRequired
    requires Admit(db, config, key, policy, clock).approved.Some? ==> Admit(db, config, key, policy, clock).allowed
    ensures var (next, outcome) := IssueTx(db, config, key, ttlSeconds, policy, signature, clock);
            var moment, pool := Timed(clock.approveAt, Requested(key)), Pool(db.approvals, served);
            var chosen := Next(pool, key, moment, Earliest(pool, moment));
            && next.approvals == chosen.approvals
            && (if outcome.Granted? then chosen.served == served + 1 else outcome.Denied? && chosen.served == served)
  {
  }

  /** An approval serves requests on its key from now until its time to live has passed, and
      nothing else. */
  lemma ApproveOpensAWindow(db: Db, key: Key, approvedBy: string, ttlSeconds: int, now: Instant, other: Key, t: Instant)
    requires approvedBy != "" && 1 <= ttlSeconds <= 3600
    ensures EarliestLive(ApproveTx(db, key, approvedBy, ttlSeconds, now).0.approvals, other, t).Some?
            <==> EarliestLive(db.approvals, other, t).Some? || (other == key && t < now + ttlSeconds * SECOND)
  {
    var next := ApproveTx(db, key, approvedBy, ttlSeconds, now).0.approvals;
    assert next[..|db.approvals|] == db.approvals;
  }

  /** An operator's approval arrives in the table as the timeline has it, whoever gave it. */
  lemma ApproveArrives(db: Db, key: Key, approvedBy: string, ttlSeconds: int, now: Instant, other: Key, served: nat)
    requires approvedBy != "" && 1 <= ttlSeconds <= 3600
    ensures var next := ApproveTx(db, key, approvedBy, ttlSeconds, now).0.approvals;
            var arrival := Timed(now, Approved(key, now + ttlSeconds * SECOND));
            && |next| == |db.approvals| + 1
            && Next(Pool(db.approvals, served), other, arrival, None)
               == Pool(db.approvals + [next[|db.approvals|].(approvedBy := "operator")], served)
  {
  }
}
