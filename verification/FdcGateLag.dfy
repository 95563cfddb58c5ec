/** Why the rate of physical POSTs carries a lag term: the gate counts grants, and a POST may
    leave some time after its grant. */
module FdcGateLag {
  import opened Outcomes
  import opened FdcAttempt
  import opened FdcQuota
  import opened FdcSystem
  import opened FdcSystemLaws

  const FULL := REQUIRED_WINDOW_SECONDS * MICROS

  /** Clients 0 to k-1 have used reservations and gate permits 0 to k-1; all other callers are idle. */
  ghost predicate Done(w: World, k: nat) {
    && w.ledger.anchored && w.ledger.gateAnchored
    && (forall r: nat :: r in w.ledger.attempts <==> r < k)
    && (forall g: nat :: g in w.ledger.gate <==> g < k)
    && (forall c: nat :: c >= k ==> At(w, c) == Idle)
  }

  /** The permits were granted at time 0 and every gated POST so far left at most `lag` later. */
  ghost predicate InTime(w: World, lag: int) {
    && (forall g :: g in w.ledger.gate ==> w.ledger.gate[g] == 0)
    && (forall i :: 0 <= i < |w.log| && w.log[i].Sent? && w.log[i].gate.Some? ==>
          w.log[i].at == lag && w.log[i].gate.value in w.ledger.gate)
  }

  lemma {:induction false} FirstIds(ids: set<nat>, k: nat)
    requires forall r :: r in ids ==> r < k
    ensures |ids| <= k
    decreases k
  {
    if k == 0 {
      assert ids == {};
    } else {
      FirstIds(ids - {k - 1}, k - 1);
      if k - 1 in ids { assert ids == (ids - {k - 1}) + {k - 1}; }
    }
  }

  /** Client `k` is handed a reservation that caller `k` asked for. */
  lemma Handover(w: World, k: nat) returns (acts: seq<Action>)
    requires Done(w, k)
    ensures GatesLimited(acts, 1)
    ensures var w' := Play(w, acts);
            && At(w', k) == Holding(k, true) && (forall c :: c != k ==> At(w', c) == At(w, c))
            && w'.ledger.gate == w.ledger.gate && w'.ledger.gateAnchored && w'.ledger.anchored
            && (forall r: nat :: r in w'.ledger.attempts <==> r <= k)
            && w'.ledger.attempts[k].httpStartedAt.None? && w'.log == w.log + [Issued(k)]
  {
    var op := Reserve(0, k + 1, 60, k, None, 1, false);
    FirstIds(Recent(ReservedTimes(w.ledger), -FULL), k);
    assert AnswerTo(w.ledger, op) == Grant;
    var ask, give := [Ask(k, op), Crash(k)], Adopt(k, k, true);
    PlayTwo(w, ask[0], ask[1]);
    var w1 := Play(w, ask);
    assert At(w1, k) == Idle && w1.log == w.log + [Issued(k)] && k in w1.ledger.attempts;
    acts := ask + [give, give];
    PlayConcat(w, ask, [give, give]);
    PlayTwo(w1, give, give);
  }

  /** It passes the gate at `t`, records its start and POSTs at `at`. */
  lemma PassAndPost(w: World, k: nat, limit: nat, t: int, at: int) returns (acts: seq<Action>)
    requires At(w, k) == Holding(k, true) && k in w.ledger.attempts && w.ledger.attempts[k].httpStartedAt.None?
    requires AnswerTo(w.ledger, AcquireGate(t, limit, 60, k, false)) == Grant
    ensures GatesLimited(acts, limit)
    ensures var w' := Play(w, acts);
            && w'.ledger.gate == w.ledger.gate[k := t] && w'.ledger.attempts.Keys == w.ledger.attempts.Keys
            && w'.ledger.anchored == w.ledger.anchored && w'.ledger.gateAnchored == w.ledger.gateAnchored
            && (forall c :: c != k ==> At(w', c) == At(w, c))
            && w'.log == w.log + [Recorded(k, HttpStarted), Sent(k, Some(k), at)]
  {
    var pass, start := PassGate(k, AcquireGate(t, limit, 60, k, false)), WriteStart(k, 0, false);
    var post := Post(k, at);
    PlayTwo(w, pass, start);
    var w1 := Apply(w, pass);
    assert At(w1, k) == Cleared(k, Some(k)) && w1.ledger.attempts == w.ledger.attempts;
    var w2 := Apply(w1, start);
    assert At(w2, k) == Started(k, Some(k)) && w2.log == w.log + [Recorded(k, HttpStarted)];
    acts := [pass, start] + [post, post];
    PlayConcat(w, [pass, start], [post, post]);
    PlayTwo(w2, post, post);
  }

  /** One more POST inside the window. */
  lemma OneMorePost(log: seq<SysEvent>, k: nat, at: int, length: int, end: int)
    requires end - length < at <= end
    ensures var more := log + [Issued(k)] + [Recorded(k, HttpStarted), Sent(k, Some(k), at)];
            |GatedPosts(more, length, end)| == |GatedPosts(log, length, end)| + 1
  {
    var one := log + [Issued(k)];
    var two := one + [Recorded(k, HttpStarted)];
    assert one + [Recorded(k, HttpStarted), Sent(k, Some(k), at)] == two + [Sent(k, Some(k), at)];
    PostsSnoc(log, Issued(k), length, end);
    PostsSnoc(one, Recorded(k, HttpStarted), length, end);
    PostsSnoc(two, Sent(k, Some(k), at), length, end);
  }

  lemma PostsSnoc(log: seq<SysEvent>, e: SysEvent, length: int, end: int)
    ensures |GatedPosts(log + [e], length, end)| == |GatedPosts(log, length, end)| +
            if e.Sent? && e.gate.Some? && end - length < e.at <= end then 1 else 0
  {
    var more := log + [e];
    var posts, old' := GatedPosts(more, length, end), GatedPosts(log, length, end);
    forall i: nat ensures i in posts <==> i in old' || (i == |log| && e.Sent? && e.gate.Some? && end - length < e.at <= end) {
      if i < |log| { assert more[i] == log[i]; }
    }
    if e.Sent? && e.gate.Some? && end - length < e.at <= end {
      assert posts == old' + {|log|};
    } else {
      assert posts == old';
    }
  }

  /** A whole client, from idle to POST. */
  lemma OneClient(w: World, k: nat, limit: nat, t: int, at: int) returns (acts: seq<Action>)
    requires Done(w, k) && limit >= 1
    requires |Recent(w.ledger.gate, t - FULL)| < limit <= MAX_TARGET_RPM
    ensures GatesLimited(acts, limit) && Done(Play(w, acts), k + 1)
    ensures Play(w, acts).ledger.gate == w.ledger.gate[k := t]
    ensures Play(w, acts).log == w.log + [Issued(k)] + [Recorded(k, HttpStarted), Sent(k, Some(k), at)]
  {
    var hand := Handover(w, k);
    var w1 := Play(w, hand);
    var post := PassAndPost(w1, k, limit, t, at);
    PlayConcat(w, hand, post);
    acts := hand + post;
  }

  /** Any number of clients up to the limit: permits at time 0, POSTs `lag` later. */
  lemma {:induction false} ManyClients(k: nat, limit: nat, lag: int) returns (w: World, acts: seq<Action>)
    requires k <= limit <= MAX_TARGET_RPM && 1 <= limit && 1 <= lag <= FULL
    ensures Initial(w) && GatesLimited(acts, limit) && Done(Play(w, acts), k) && InTime(Play(w, acts), lag)
    ensures |GatedPosts(Play(w, acts).log, FULL - lag + 1, FULL)| == k
  {
    if k == 0 {
      w, acts := World(Ledger(true, map[], map[], true, map[]), map[], []), [];
      assert GatedPosts([], FULL - lag + 1, FULL) == {};
    } else {
      var before;
      w, before := ManyClients(k - 1, limit, lag);
      var w1 := Play(w, before);
      FirstIds(Recent(w1.ledger.gate, -FULL), k - 1);
      var more := OneClient(w1, k - 1, limit, 0, lag);
      OneMorePost(w1.log, k - 1, lag, FULL - lag + 1, FULL);
      PlayConcat(w, before, more);
      acts := before + more;
    }
  }

  /** The bound of `GatedPostRate` is tight for every limit the gate accepts and every lag: a window
      longer by one microsecond can hold one POST more than the limit. */
  lemma LagBoundIsTight(limit: nat, lag: int) returns (w: World, acts: seq<Action>)
    requires MIN_TARGET_RPM <= limit <= MAX_TARGET_RPM && 1 <= lag <= FULL
    ensures Initial(w) && Lagged(Play(w, acts), lag) && GatesLimited(acts, limit)
    ensures |GatedPosts(Play(w, acts).log, FULL - lag + 1, FULL)| == limit + 1
  {
    var before;
    w, before := ManyClients(limit, limit, lag);
    var w1 := Play(w, before);
    assert Recent(w1.ledger.gate, 0) == {};
    var last := OneClient(w1, limit, limit, FULL, FULL);
    OneMorePost(w1.log, limit, FULL, FULL - lag + 1, FULL);
    PlayConcat(w, before, last);
    acts := before + last;
    AllLagged(w1, Play(w, acts), limit, lag);
  }

  lemma AllLagged(w: World, w': World, k: nat, lag: int)
    requires Done(w, k) && InTime(w, lag) && lag >= 1
    requires w'.ledger.gate == w.ledger.gate[k := FULL]
    requires w'.log == w.log + [Issued(k)] + [Recorded(k, HttpStarted), Sent(k, Some(k), FULL)]
    ensures Lagged(w', lag)
  {
    forall i | 0 <= i < |w'.log| && w'.log[i].Sent? && w'.log[i].gate.Some? && w'.log[i].gate.value in w'.ledger.gate
      ensures w'.ledger.gate[w'.log[i].gate.value] <= w'.log[i].at <= w'.ledger.gate[w'.log[i].gate.value] + lag
    {
      if i < |w.log| { assert w'.log[i] == w.log[i]; }
    }
  }
}
