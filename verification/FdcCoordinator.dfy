/** The coordinator's central check on manual callers (services/fdc_quota_coordinator.py) with the
    policy that the manual scripts inject (fdc_manual_provider_gate.py). */
module FdcCoordinator {
  import opened FdcQuota

  const MANUAL_CALLER_ID_PREFIX := "manual:"

  /** What the session calendar says of today. */
  datatype Session = TradingDay | NoTradingDay | LookupFails

  /** The policy the coordinator was built with, and what the calendar says when it is consulted. */
  datatype Policy = NoPolicy | Calendar(session: Session)

  datatype Request = Request(caller: string, policy: Policy, op: Op)

  /** The reservation call returns, or the calendar's own failure comes out of it. */
  datatype Verdict = Replied(answer: Answer) | CalendarFailed

  predicate Manual(r: Request) {
    MANUAL_CALLER_ID_PREFIX <= r.caller
  }

  predicate Barred(r: Request) {
    Manual(r) && r.policy != Calendar(NoTradingDay)
  }

  function ReplyTo(l: Ledger, r: Request): Verdict {
    if !Barred(r) then Replied(AnswerTo(l, r.op))
    else if r.policy == Calendar(LookupFails) then CalendarFailed
    else Replied(Error)
  }

  /** The ledger after one request and all replies so far. */
  function Serve(l: Ledger, requests: seq<Request>): (Ledger, seq<Verdict>)
    decreases |requests|
  {
    if requests == [] then (l, [])
    else
      var (before, replies) := Serve(l, requests[..|requests| - 1]);
      var r := requests[|requests| - 1];
      (if Barred(r) then before else Step(before, r.op), replies + [ReplyTo(before, r)])
  }

  /** `build_manual_call_policy` and the coordinator's `try_reserve`, in front of the repository. */
  method CoordinatedReserve(repo: QuotaRepository, r: Request) returns (reply: Verdict)
    requires r.op.Reserve?
    modifies repo`attempts, repo`jobs
    ensures reply == ReplyTo(old(repo.View()), r)
    ensures repo.View() == if Barred(r) then old(repo.View()) else Step(old(repo.View()), r.op)
    ensures !("manual:" <= r.caller) || r.policy == Calendar(NoTradingDay) ==>
              reply == Replied(AnswerTo(old(repo.View()), r.op)) && repo.View() == Step(old(repo.View()), r.op)
    ensures "manual:" <= r.caller && r.policy != Calendar(NoTradingDay) ==> repo.View() == old(repo.View())
    ensures "manual:" <= r.caller && (r.policy == NoPolicy || r.policy == Calendar(TradingDay)) ==> reply == Replied(Error)
    ensures "manual:" <= r.caller && r.policy == Calendar(LookupFails) ==> reply == CalendarFailed
  {
    if MANUAL_CALLER_ID_PREFIX <= r.caller {
      match r.policy {
        case NoPolicy => return Replied(Error);
        case Calendar(session) =>
          if session == LookupFails { return CalendarFailed; }
          if session == TradingDay { return Replied(Error); }
      }
    }
    var answer := repo.TryReserve(r.op.now, r.op.rpm, r.op.window, r.op.id, r.op.job, r.op.attemptNo, r.op.fails);
    reply := Replied(answer);
  }

  function Admitted(requests: seq<Request>): seq<Request>
    decreases |requests|
  {
    if requests == [] then []
    else
      var before, r := Admitted(requests[..|requests| - 1]), requests[|requests| - 1];
      if Barred(r) then before else before + [r]
  }

  /** The replies that went to requests that were not barred, in order. */
  function AdmittedReplies(requests: seq<Request>, replies: seq<Verdict>): seq<Verdict>
    requires |replies| == |requests|
    decreases |requests|
  {
    if requests == [] then []
    else
      var n := |requests| - 1;
      var before := AdmittedReplies(requests[..n], replies[..n]);
      if Barred(requests[n]) then before else before + [replies[n]]
  }

  lemma {:induction false} OneReplyEach(l: Ledger, requests: seq<Request>)
    ensures |Serve(l, requests).1| == |requests|
    decreases |requests|
  {
    if requests != [] { OneReplyEach(l, requests[..|requests| - 1]); }
  }

  /** Manual callers on a trading day, or without a policy, are invisible: deleting their requests
      from any run changes neither the ledger nor any reply that another caller gets. */
  lemma {:induction false} BarredCallersAreInvisible(l: Ledger, requests: seq<Request>)
    ensures |Serve(l, requests).1| == |requests|
    ensures Serve(l, requests).0 == Serve(l, Admitted(requests)).0
    ensures AdmittedReplies(requests, Serve(l, requests).1) == Serve(l, Admitted(requests)).1
    decreases |requests|
  {
    OneReplyEach(l, requests);
    if requests != [] {
      var n := |requests| - 1;
      var front, r := requests[..n], requests[n];
      BarredCallersAreInvisible(l, front);
      assert Serve(l, requests).1[..n] == Serve(l, front).1;
      if !Barred(r) {
        assert Admitted(requests)[..|Admitted(front)|] == Admitted(front);
      }
    }
  }
}
