/** Retrying orders that need reconciliation and are not linked to a run
    (retry_failed_reconciliation.py).  Inserts commit one by one and any of them may fail. */
module RetryReconciliation {
  import opened Outcomes

  datatype Trigger = RequiresReconciliation | OtherTrigger(name: string)

  datatype Order = Order(id: nat, account: nat, needsReconcile: bool)

  datatype Run = Run(account: nat, trigger: Trigger)

  /** A link: run id and order id. */
  type Link = (nat, nat)

  /** The orders are in order of creation. */
  datatype Db = Db(orders: seq<Order>, runs: map<nat, Run>, links: set<Link>)

  datatype Report = Report(accounts: nat, runsCreated: nat, failedAccounts: nat, linksCreated: nat, exitCode: nat)

  // ---------------------------------------------------------------- selection and grouping

  /** The link belongs to a requires_reconciliation run. */
  predicate Claims(db: Db, l: Link, order: nat) {
    l in db.links && l.1 == order && l.0 in db.runs && db.runs[l.0].trigger == RequiresReconciliation
  }

  predicate Linked(db: Db, order: nat) {
    exists l :: l in db.links && Claims(db, l, order)
  }

  predicate Selectable(db: Db, o: Order) {
    o.needsReconcile && !Linked(db, o.id)
  }

  function SelectableOrders(db: Db, orders: seq<Order>): seq<Order> {
    if orders == [] then []
    else SelectableOrders(db, orders[..|orders| - 1]) +
         if Selectable(db, orders[|orders| - 1]) then [orders[|orders| - 1]] else []
  }

  /** `find_target_orders`: all selectable orders in order of creation, or the first `limit` of them. */
  method FindTargetOrders(db: Db, limit: Option<nat>) returns (targets: seq<Order>)
    ensures targets == TargetsOf(db, limit)
    ensures forall o :: o in targets ==> o in db.orders && Selectable(db, o)
  {
    targets := [];
    for i := 0 to |db.orders|
      invariant targets == SelectableOrders(db, db.orders[..i])
      invariant forall o :: o in targets ==> o in db.orders && Selectable(db, o)
    {
      assert db.orders[..i + 1][..i] == db.orders[..i];
      if Selectable(db, db.orders[i]) { targets := targets + [db.orders[i]]; }
    }
    assert db.orders[..|db.orders|] == db.orders;
    if limit.Some? && limit.value < |targets| { targets := targets[..limit.value]; }
  }

  /** The orders of one account, in their own order. */
  function OfAccount(orders: seq<Order>, account: nat): seq<Order> {
    if orders == [] then []
    else OfAccount(orders[..|orders| - 1], account) +
         if orders[|orders| - 1].account == account then [orders[|orders| - 1]] else []
  }

  /** The accounts in order of first appearance. */
  function AccountsOf(orders: seq<Order>): seq<nat> {
    if orders == [] then []
    else
      var before := AccountsOf(orders[..|orders| - 1]);
      if orders[|orders| - 1].account in before then before else before + [orders[|orders| - 1].account]
  }

  ghost predicate Groups(orders: seq<Order>, accounts: seq<nat>, groups: map<nat, seq<Order>>) {
    && accounts == AccountsOf(orders)
    && (forall a :: a in accounts <==> a in groups)
    && (forall a :: a in groups ==> groups[a] == OfAccount(orders, a))
  }

  /** `groups[o.account].append(o)` */
  function WithOrder(groups: map<nat, seq<Order>>, o: Order): map<nat, seq<Order>> {
    groups[o.account := (if o.account in groups then groups[o.account] else []) + [o]]
  }

  lemma OfAccountSnoc(orders: seq<Order>, o: Order, a: nat)
    ensures OfAccount(orders + [o], a) == OfAccount(orders, a) + if o.account == a then [o] else []
  {
    assert (orders + [o])[..|orders|] == orders;
  }

  lemma GroupStep(orders: seq<Order>, o: Order, accounts: seq<nat>, groups: map<nat, seq<Order>>)
    requires Groups(orders, accounts, groups)
    ensures Groups(orders + [o], if o.account in groups then accounts else accounts + [o.account], WithOrder(groups, o))
  {
    assert (orders + [o])[..|orders|] == orders;
    if o.account !in groups { NotListed(orders, o.account); }
    var more := WithOrder(groups, o);
    forall a | a in more ensures more[a] == OfAccount(orders + [o], a) { OfAccountSnoc(orders, o, a); }
  }

  lemma {:induction false} NotListed(orders: seq<Order>, a: nat)
    requires a !in AccountsOf(orders)
    ensures OfAccount(orders, a) == []
  {
    if orders != [] { NotListed(orders[..|orders| - 1], a); }
  }

  /** `_group_by_account`: the dictionary and the order of its keys. */
  method GroupByAccount(orders: seq<Order>) returns (accounts: seq<nat>, groups: map<nat, seq<Order>>)
    ensures Groups(orders, accounts, groups)
  {
    accounts, groups := [], map[];
    for i := 0 to |orders|
      invariant Groups(orders[..i], accounts, groups)
    {
      var o := orders[i];
      assert orders[..i + 1] == orders[..i] + [o];
      GroupStep(orders[..i], o, accounts, groups);
      if o.account !in groups { accounts := accounts + [o.account]; }
      groups := WithOrder(groups, o);
    }
    assert orders[..|orders|] == orders;
  }

  predicate Distinct(accounts: seq<nat>) {
    forall i, j :: 0 <= i < j < |accounts| ==> accounts[i] != accounts[j]
  }

  ghost predicate GroupsFor(targets: seq<Order>, accounts: seq<nat>, groups: map<nat, seq<Order>>) {
    forall k :: 0 <= k < |accounts| ==> accounts[k] in groups && groups[accounts[k]] == OfAccount(targets, accounts[k])
  }

  lemma GroupsAreUsable(targets: seq<Order>, accounts: seq<nat>, groups: map<nat, seq<Order>>)
    requires Groups(targets, accounts, groups)
    ensures Distinct(accounts) && GroupsFor(targets, accounts, groups)
  {
    GroupingPartitions(targets, Order(0, 0, false), 0);
    forall k | 0 <= k < |accounts| ensures accounts[k] in groups && groups[accounts[k]] == OfAccount(targets, accounts[k]) {
      assert accounts[k] in accounts;
    }
  }

  /** Grouping is a partition: no account repeats, and an order is in the group of its own account and
      in no other. */
  lemma {:induction false} GroupingPartitions(orders: seq<Order>, o: Order, a: nat)
    ensures Distinct(AccountsOf(orders))
    ensures o in orders ==> o.account in AccountsOf(orders)
    ensures o in OfAccount(orders, a) <==> o in orders && o.account == a
    decreases |orders|
  {
    if orders != [] {
      GroupingPartitions(orders[..|orders| - 1], o, a);
      assert orders == orders[..|orders| - 1] + [orders[|orders| - 1]];
    }
  }

  /** `group` is the orders of account `a`, which stand at the increasing indices `at`. */
  ghost predicate GroupAt(orders: seq<Order>, a: nat, group: seq<Order>, at: seq<nat>) {
    && |at| == |group| && (forall i, j :: 0 <= i < j < |at| ==> at[i] < at[j])
    && (forall i :: 0 <= i < |at| ==> at[i] < |orders| && group[i] == orders[at[i]])
    && (forall k: nat :: k < |orders| ==> (k in at <==> orders[k].account == a))
  }

  lemma GroupAtNext(orders: seq<Order>, a: nat, group: seq<Order>, at: seq<nat>, o: Order)
    requires GroupAt(orders, a, group, at)
    ensures if o.account == a then GroupAt(orders + [o], a, group + [o], at + [|orders|]) else GroupAt(orders + [o], a, group, at)
  {
    assert |orders| !in at;
  }

  /** A group holds exactly the orders of its account, in their order. */
  lemma {:induction false} GroupKeepsOrder(orders: seq<Order>, a: nat) returns (at: seq<nat>)
    ensures GroupAt(orders, a, OfAccount(orders, a), at)
    decreases |orders|
  {
    if orders == [] {
      at := [];
    } else {
      var before, o := orders[..|orders| - 1], orders[|orders| - 1];
      at := GroupKeepsOrder(before, a);
      GroupAtNext(before, a, OfAccount(before, a), at, o);
      assert orders == before + [o];
      if o.account == a { at := at + [|before|]; }
    }
  }

  /** `first[i]` is the index of the first order of account `i`. */
  ghost predicate FirstOrders(orders: seq<Order>, accounts: seq<nat>, first: seq<nat>) {
    && |first| == |accounts|
    && (forall i :: 0 <= i < |first| ==> first[i] < |orders| && orders[first[i]].account == accounts[i])
    && (forall i, k :: 0 <= i < |first| && 0 <= k < first[i] ==> orders[k].account != accounts[i])
  }

  lemma {:induction false} NoOrderOf(orders: seq<Order>, a: nat)
    requires a !in AccountsOf(orders)
    ensures forall k :: 0 <= k < |orders| ==> orders[k].account != a
  {
    if orders != [] { NoOrderOf(orders[..|orders| - 1], a); }
  }

  lemma FirstOrdersNext(orders: seq<Order>, accounts: seq<nat>, first: seq<nat>, o: Order)
    requires FirstOrders(orders, accounts, first)
    ensures FirstOrders(orders + [o], accounts, first)
    ensures (forall k :: 0 <= k < |orders| ==> orders[k].account != o.account) ==>
              FirstOrders(orders + [o], accounts + [o.account], first + [|orders|])
  {
  }

  /** The accounts are in the order of their first orders. */
  lemma {:induction false} AccountsInOrder(orders: seq<Order>) returns (first: seq<nat>)
    ensures FirstOrders(orders, AccountsOf(orders), first) && forall i, j :: 0 <= i < j < |first| ==> first[i] < first[j]
    decreases |orders|
  {
    if orders == [] {
      first := [];
    } else {
      var before, o := orders[..|orders| - 1], orders[|orders| - 1];
      first := AccountsInOrder(before);
      FirstOrdersNext(before, AccountsOf(before), first, o);
      assert orders == before + [o];
      if o.account !in AccountsOf(before) {
        NoOrderOf(before, o.account);
        first := first + [|before|];
      }
    }
  }

  // ---------------------------------------------------------------- what one invocation does

  /** Which inserts fail: the run of an account, the link of an order. */
  datatype Faults = Faults(runFails: nat -> bool, linkFails: nat -> bool)

  predicate Succeeds(f: Faults, o: Order) {
    !f.runFails(o.account) && !f.linkFails(o.id)
  }

  ghost predicate DistinctIds(orders: seq<Order>) {
    forall i, j :: 0 <= i < j < |orders| ==> orders[i].id != orders[j].id
  }

  /** Run ids are fresh, as generated uuids are; links refer to runs. */
  ghost predicate Sound(db: Db) {
    DistinctIds(db.orders) && forall l :: l in db.links ==> l.0 in db.runs
  }

  ghost predicate Fresh(start: Db, now: Db, l: Link) {
    l in now.links && l !in start.links
  }

  /** Some target order of `account` whose inserts succeed. */
  ghost predicate Earned(targets: seq<Order>, f: Faults, account: nat, id: nat) {
    exists o :: o in targets && o.id == id && o.account == account && Succeeds(f, o)
  }

  ghost predicate Grew(start: Db, now: Db) {
    && now.orders == start.orders && start.links <= now.links
    && forall r :: r in start.runs ==> r in now.runs && now.runs[r] == start.runs[r]
  }

  /** Each new link joins a target order whose inserts succeed to a new requires_reconciliation run
      of its account, and that account has been processed. */
  ghost predicate OnlyEarned(start: Db, now: Db, targets: seq<Order>, f: Faults, done: seq<nat>) {
    forall l :: Fresh(start, now, l) ==>
      && l.0 !in start.runs && l.0 in now.runs && now.runs[l.0].trigger == RequiresReconciliation
      && now.runs[l.0].account in done && Earned(targets, f, now.runs[l.0].account, l.1)
  }

  ghost predicate AtMostOneEach(start: Db, now: Db) {
    forall l, m :: Fresh(start, now, l) && Fresh(start, now, m) && l.1 == m.1 ==> l == m
  }

  ghost predicate Gained(start: Db, now: Db, id: nat) {
    exists l :: Fresh(start, now, l) && l.1 == id
  }

  ghost predicate AllEarned(start: Db, now: Db, targets: seq<Order>, f: Faults, done: seq<nat>) {
    forall o {:trigger Gained(start, now, o.id)} ::
      o in targets && o.account in done && Succeeds(f, o) ==> Gained(start, now, o.id)
  }

  ghost predicate Progress(start: Db, now: Db, targets: seq<Order>, f: Faults, done: seq<nat>) {
    && Grew(start, now) && OnlyEarned(start, now, targets, f, done)
    && AtMostOneEach(start, now) && AllEarned(start, now, targets, f, done)
  }

  function TargetsOf(db: Db, limit: Option<nat>): seq<Order> {
    var all := SelectableOrders(db, db.orders);
    if limit.Some? && limit.value < |all| then all[..limit.value] else all
  }

  /** The ids of the group's orders whose link insert succeeds. */
  function LinkedIds(group: seq<Order>, f: Faults): set<nat> {
    set o | o in group && !f.linkFails(o.id) :: o.id
  }

  function Successes(group: seq<Order>, f: Faults): nat {
    if group == [] then 0
    else Successes(group[..|group| - 1], f) + if f.linkFails(group[|group| - 1].id) then 0 else 1
  }

  function LinksTo(run: nat, ids: set<nat>): set<Link> {
    set id | id in ids :: (run, id)
  }

  class Reconciliation {
    var orders: seq<Order>
    var runs: map<nat, Run>
    var links: set<Link>
    var nextId: nat

    function View(): Db
      reads this
    {
      Db(orders, runs, links)
    }

    ghost predicate Valid()
      reads this
    {
      Sound(View()) && forall r :: r in runs ==> r < nextId
    }

    /** One account: create its run, then link its orders, each insert failing or not. */
    method ProcessAccount(account: nat, group: seq<Order>, f: Faults) returns (created: bool, linked: nat)
      requires Valid()
      modifies this
      ensures Valid() && orders == old(orders) && created == !f.runFails(account)
      ensures !created ==> View() == old(View()) && linked == 0
      ensures old(nextId) !in old(runs)
      ensures created ==> runs == old(runs)[old(nextId) := Run(account, RequiresReconciliation)]
      ensures created ==> links == old(links) + LinksTo(old(nextId), LinkedIds(group, f))
      ensures created ==> linked == Successes(group, f)
    {
      linked := 0;
      if f.runFails(account) { return false, 0; }
      var runId := nextId;
      runs := runs[runId := Run(account, RequiresReconciliation)];
      nextId := nextId + 1;
      for i := 0 to |group|
        invariant Valid() && orders == old(orders) && nextId == old(nextId) + 1
        invariant runs == old(runs)[runId := Run(account, RequiresReconciliation)]
        invariant links == old(links) + LinksTo(runId, LinkedIds(group[..i], f))
        invariant linked == Successes(group[..i], f)
      {
        assert group[..i + 1] == group[..i] + [group[i]];
        if !f.linkFails(group[i].id) {
          links := links + {(runId, group[i].id)};
          linked := linked + 1;
          assert LinkedIds(group[..i + 1], f) == LinkedIds(group[..i], f) + {group[i].id};
        } else {
          assert LinkedIds(group[..i + 1], f) == LinkedIds(group[..i], f);
        }
      }
      assert group[..|group|] == group;
      created := true;
    }

    /** One turn of the loop over the accounts. */
    method NextAccount(ghost start: Db, ghost targets: seq<Order>, ghost done: seq<nat>, account: nat, group: seq<Order>,
                       f: Faults) returns (created: bool, linked: nat)
      requires Valid() && Sound(start) && Progress(start, View(), targets, f, done) && account !in done
      requires group == OfAccount(targets, account) && forall o :: o in targets ==> o in start.orders
      modifies this
      ensures Valid() && Progress(start, View(), targets, f, done + [account])
      ensures created == !f.runFails(account)
      ensures linked == if created then Successes(group, f) else 0
    {
      ghost var before, id := View(), nextId;
      created, linked := ProcessAccount(account, group, f);
      if created {
        AccountProgress(start, before, View(), targets, f, done, account, id);
      } else {
        FailedAccount(start, before, targets, f, done, account);
      }
    }

    /** The loop over the accounts, counting as it goes. */
    method ProcessAll(ghost start: Db, targets: seq<Order>, accounts: seq<nat>, groups: map<nat, seq<Order>>, f: Faults)
      returns (r: Report)
      requires Valid() && View() == start && Distinct(accounts) && GroupsFor(targets, accounts, groups)
      requires forall o :: o in targets ==> o in start.orders
      modifies this
      ensures Valid() && Progress(start, View(), targets, f, accounts)
      ensures r == Summary(targets, accounts, f)
    {
      var runsCreated, failedAccounts, linksCreated := 0, 0, 0;
      assert accounts[..0] == [];
      NothingYet(start, targets, f);
      for k := 0 to |accounts|
        invariant Valid() && Progress(start, View(), targets, f, accounts[..k])
        invariant runsCreated + failedAccounts == k && failedAccounts == FailedRuns(accounts[..k], f)
        invariant linksCreated == LinkCount(targets, accounts[..k], f)
      {
        var account := accounts[k];
        CountsSnoc(targets, accounts, k, f);
        NotYet(accounts, k);
        var created, linked := NextAccount(start, targets, accounts[..k], account, groups[account], f);
        if created { runsCreated := runsCreated + 1; } else { failedAccounts := failedAccounts + 1; }
        linksCreated := linksCreated + linked;
      }
      assert accounts[..|accounts|] == accounts;
      r := Report(|accounts|, runsCreated, failedAccounts, linksCreated, if failedAccounts > 0 then 1 else 0);
    }

    /** `run_retry`: which orders gain a link, and what the summary says. */
    method RunRetry(limit: Option<nat>, dryRun: bool, f: Faults) returns (r: Report)
      requires Valid()
      modifies this
      ensures Valid()
      ensures dryRun ==> View() == old(View()) && r == Report(|AccountsOf(TargetsOf(old(View()), limit))|, 0, 0, 0, 0)
      ensures !dryRun ==> InvokedWith(old(View()), View(), limit, f)
      ensures !dryRun ==> r == Summary(TargetsOf(old(View()), limit), AccountsOf(TargetsOf(old(View()), limit)), f)
    {
      var targets := FindTargetOrders(View(), limit);
      if targets == [] { return Report(0, 0, 0, 0, 0); }
      var accounts, groups := GroupByAccount(targets);
      if dryRun { return Report(|accounts|, 0, 0, 0, 0); }
      GroupsAreUsable(targets, accounts, groups);
      r := ProcessAll(View(), targets, accounts, groups, f);
    }
  }

  /** The number of accounts whose run insert fails. */
  function FailedRuns(accounts: seq<nat>, f: Faults): (n: nat)
    ensures n <= |accounts|
  {
    if accounts == [] then 0
    else FailedRuns(accounts[..|accounts| - 1], f) + if f.runFails(accounts[|accounts| - 1]) then 1 else 0
  }

  /** The links created for these accounts. */
  function LinkCount(targets: seq<Order>, accounts: seq<nat>, f: Faults): nat {
    if accounts == [] then 0
    else
      var a := accounts[|accounts| - 1];
      LinkCount(targets, accounts[..|accounts| - 1], f) + if f.runFails(a) then 0 else Successes(OfAccount(targets, a), f)
  }

  function Summary(targets: seq<Order>, accounts: seq<nat>, f: Faults): (r: Report)
    ensures r.runsCreated + r.failedAccounts == r.accounts
  {
    var failed := FailedRuns(accounts, f);
    Report(|accounts|, |accounts| - failed, failed, LinkCount(targets, accounts, f), if failed > 0 then 1 else 0)
  }

  lemma CountsSnoc(targets: seq<Order>, accounts: seq<nat>, k: nat, f: Faults)
    requires k < |accounts|
    ensures accounts[..k + 1] == accounts[..k] + [accounts[k]]
    ensures FailedRuns(accounts[..k + 1], f) == FailedRuns(accounts[..k], f) + if f.runFails(accounts[k]) then 1 else 0
    ensures LinkCount(targets, accounts[..k + 1], f) == LinkCount(targets, accounts[..k], f) +
              if f.runFails(accounts[k]) then 0 else Successes(OfAccount(targets, accounts[k]), f)
  {
    assert accounts[..k + 1][..k] == accounts[..k];
  }

  lemma {:induction false} FailedRunsIff(accounts: seq<nat>, f: Faults)
    ensures FailedRuns(accounts, f) > 0 <==> exists i :: 0 <= i < |accounts| && f.runFails(accounts[i])
    decreases |accounts|
  {
    if accounts != [] {
      var before := accounts[..|accounts| - 1];
      FailedRunsIff(before, f);
      if i :| 0 <= i < |before| && f.runFails(before[i]) { assert f.runFails(accounts[i]); }
      if i :| 0 <= i < |accounts| && f.runFails(accounts[i]) {
        if i < |before| { assert f.runFails(before[i]); }
      }
    }
  }

  /** The number of orders whose inserts succeed. */
  function Winners(orders: seq<Order>, f: Faults): nat {
    if orders == [] then 0
    else Winners(orders[..|orders| - 1], f) + if Succeeds(f, orders[|orders| - 1]) then 1 else 0
  }

  lemma SuccessesSnoc(orders: seq<Order>, o: Order, a: nat, f: Faults)
    ensures Successes(OfAccount(orders + [o], a), f)
         == Successes(OfAccount(orders, a), f) + if o.account == a && !f.linkFails(o.id) then 1 else 0
  {
    var group := OfAccount(orders, a);
    assert (orders + [o])[..|orders|] == orders;
    assert (group + [o])[..|group|] == group;
    assert OfAccount(orders + [o], a) == if o.account == a then group + [o] else group;
  }

  lemma {:induction false} OneMoreOrder(orders: seq<Order>, o: Order, accounts: seq<nat>, f: Faults)
    requires Distinct(accounts)
    ensures LinkCount(orders + [o], accounts, f)
         == LinkCount(orders, accounts, f) + if o.account in accounts && Succeeds(f, o) then 1 else 0
    decreases |accounts|
  {
    if accounts != [] {
      var before, a := accounts[..|accounts| - 1], accounts[|accounts| - 1];
      OneMoreOrder(orders, o, before, f);
      assert accounts == before + [a] && a !in before;
      SuccessesSnoc(orders, o, a, f);
    }
  }

  /** The summary's link count is the number of target orders whose inserts succeeded: grouping by
      account loses none and counts none twice. */
  lemma {:induction false} LinksCreatedExactly(targets: seq<Order>, f: Faults)
    ensures LinkCount(targets, AccountsOf(targets), f) == Winners(targets, f)
    decreases |targets|
  {
    if targets != [] {
      var before, o := targets[..|targets| - 1], targets[|targets| - 1];
      LinksCreatedExactly(before, f);
      assert targets == before + [o];
      GroupingPartitions(targets, o, o.account);
      OneMoreOrder(before, o, AccountsOf(targets), f);
      NewAccountAddsNone(before, o, f);
    }
  }

  lemma NewAccountAddsNone(before: seq<Order>, o: Order, f: Faults)
    ensures LinkCount(before, AccountsOf(before + [o]), f) == LinkCount(before, AccountsOf(before), f)
  {
    var accounts := AccountsOf(before);
    assert (before + [o])[..|before|] == before;
    if o.account !in accounts {
      NotListed(before, o.account);
      assert (accounts + [o.account])[..|accounts|] == accounts;
    }
  }

  lemma NotYet(accounts: seq<nat>, k: nat)
    requires k < |accounts| && Distinct(accounts)
    ensures accounts[k] !in accounts[..k]
  {
  }

  lemma NothingYet(start: Db, targets: seq<Order>, f: Faults)
    ensures Progress(start, start, targets, f, [])
  {
  }

  lemma FailedAccount(start: Db, now: Db, targets: seq<Order>, f: Faults, done: seq<nat>, account: nat)
    requires Progress(start, now, targets, f, done) && f.runFails(account)
    ensures Progress(start, now, targets, f, done + [account])
  {
  }

  /** Adding one account's run keeps the bookkeeping: its orders had no new link yet. */
  lemma AccountProgress(start: Db, before: Db, now: Db, targets: seq<Order>, f: Faults, done: seq<nat>, account: nat, id: nat)
    requires Progress(start, before, targets, f, done) && account !in done && Sound(start) && Sound(before)
    requires !f.runFails(account) && id !in before.runs && forall o :: o in targets ==> o in start.orders
    requires now == Db(before.orders, before.runs[id := Run(account, RequiresReconciliation)],
                       before.links + LinksTo(id, LinkedIds(OfAccount(targets, account), f)))
    ensures Progress(start, now, targets, f, done + [account])
  {
    forall l | Fresh(start, now, l) && l !in before.links ensures l.0 == id && Earned(targets, f, account, l.1) {
      NewLinkEarned(targets, f, account, id, l);
    }
    forall l | Fresh(start, now, l) && l in before.links ensures l.0 != id && Fresh(start, before, l) {
    }
    AccountKeepsOne(start, before, now, targets, f, done, account, id);
    forall o | o in targets && o.account in done + [account] && Succeeds(f, o) ensures Gained(start, now, o.id) {
      if o.account in done {
        assert Gained(start, before, o.id);
        var l :| Fresh(start, before, l) && l.1 == o.id;
        assert Fresh(start, now, l);
      } else {
        GroupingPartitions(targets, o, account);
        assert o.id in LinkedIds(OfAccount(targets, account), f);
        assert Fresh(start, now, (id, o.id));
      }
    }
  }

  lemma NewLinkEarned(targets: seq<Order>, f: Faults, account: nat, id: nat, l: Link)
    requires l in LinksTo(id, LinkedIds(OfAccount(targets, account), f)) && !f.runFails(account)
    ensures l.0 == id && Earned(targets, f, account, l.1)
  {
    var o :| o in OfAccount(targets, account) && o.id == l.1 && !f.linkFails(o.id);
    GroupingPartitions(targets, o, account);
  }

  lemma AccountKeepsOne(start: Db, before: Db, now: Db, targets: seq<Order>, f: Faults, done: seq<nat>, account: nat, id: nat)
    requires Progress(start, before, targets, f, done) && account !in done && Sound(start) && Sound(before)
    requires forall o :: o in targets ==> o in start.orders
    requires forall l :: Fresh(start, now, l) && l !in before.links ==> l.0 == id && Earned(targets, f, account, l.1)
    ensures AtMostOneEach(start, now)
  {
    forall l, m | Fresh(start, now, l) && Fresh(start, now, m) && l.1 == m.1 ensures l == m {
      if l in before.links && m !in before.links {
        assert Fresh(start, before, l);
        EarnedByOneAccount(start, targets, f, l.1, before.runs[l.0].account, account);
      } else if l !in before.links && m in before.links {
        assert Fresh(start, before, m);
        EarnedByOneAccount(start, targets, f, m.1, before.runs[m.0].account, account);
      } else if l in before.links {
        assert Fresh(start, before, l) && Fresh(start, before, m);
      }
    }
  }

  /** An order has one account. */
  lemma EarnedByOneAccount(start: Db, targets: seq<Order>, f: Faults, id: nat, a: nat, b: nat)
    requires DistinctIds(start.orders) && forall o :: o in targets ==> o in start.orders
    requires Earned(targets, f, a, id) && Earned(targets, f, b, id)
    ensures a == b
  {
    var o :| o in targets && o.id == id && o.account == a && Succeeds(f, o);
    var p :| p in targets && p.id == id && p.account == b && Succeeds(f, p);
    var i :| 0 <= i < |start.orders| && start.orders[i] == o;
    var j :| 0 <= j < |start.orders| && start.orders[j] == p;
    assert i == j;
  }

  lemma {:induction false} SelectedAreSelectable(db: Db, orders: seq<Order>, o: Order)
    ensures o in SelectableOrders(db, orders) <==> o in orders && Selectable(db, o)
    decreases |orders|
  {
    if orders != [] {
      SelectedAreSelectable(db, orders[..|orders| - 1], o);
      assert orders == orders[..|orders| - 1] + [orders[|orders| - 1]];
    }
  }

  // ---------------------------------------------------------------- any number of invocations

  /** `b` is the database that one real invocation makes of `a`, with some limit and some failures. */
  ghost predicate Invoked(a: Db, b: Db) {
    exists limit, f :: InvokedWith(a, b, limit, f)
  }

  ghost predicate InvokedWith(a: Db, b: Db, limit: Option<nat>, f: Faults) {
    Sound(a) && Sound(b) && Progress(a, b, TargetsOf(a, limit), f, AccountsOf(TargetsOf(a, limit)))
  }

  ghost predicate ClaimedOnce(db: Db, order: nat) {
    forall l, m :: Claims(db, l, order) && Claims(db, m, order) ==> l == m
  }

  lemma FreshNeedsNoClaim(a: Db, b: Db, limit: Option<nat>, f: Faults, l: Link)
    requires InvokedWith(a, b, limit, f) && Fresh(a, b, l)
    ensures !Linked(a, l.1) && Claims(b, l, l.1)
  {
    var targets := TargetsOf(a, limit);
    var o :| o in targets && o.id == l.1 && o.account == b.runs[l.0].account && Succeeds(f, o);
    SelectedAreSelectable(a, a.orders, o);
  }

  lemma OldClaimsStay(a: Db, b: Db, l: Link, order: nat)
    requires Sound(a) && Grew(a, b) && l in a.links
    ensures Claims(a, l, order) <==> Claims(b, l, order)
  {
  }

  /** One invocation: an order that was claimed at most once still is. */
  lemma StepClaimsOnce(a: Db, b: Db, order: nat)
    requires Invoked(a, b) && ClaimedOnce(a, order)
    ensures ClaimedOnce(b, order)
  {
    var limit, f :| InvokedWith(a, b, limit, f);
    forall l, m | Claims(b, l, order) && Claims(b, m, order) ensures l == m {
      if l in a.links { OldClaimsStay(a, b, l, order); } else { FreshNeedsNoClaim(a, b, limit, f, l); }
      if m in a.links { OldClaimsStay(a, b, m, order); } else { FreshNeedsNoClaim(a, b, limit, f, m); }
    }
  }

  /** One invocation: an order is linked afterwards exactly when it was before, or it was a target
      and both its inserts succeeded. */
  lemma LinkedExactly(a: Db, b: Db, limit: Option<nat>, f: Faults, o: Order)
    requires InvokedWith(a, b, limit, f) && o in a.orders
    ensures Linked(b, o.id) <==> Linked(a, o.id) || (o in TargetsOf(a, limit) && Succeeds(f, o))
  {
    if Linked(a, o.id) {
      var l :| l in a.links && Claims(a, l, o.id);
      OldClaimsStay(a, b, l, o.id);
    } else if o in TargetsOf(a, limit) && Succeeds(f, o) {
      GroupingPartitions(TargetsOf(a, limit), o, o.account);
      assert Gained(a, b, o.id);
      var l :| Fresh(a, b, l) && l.1 == o.id;
      FreshNeedsNoClaim(a, b, limit, f, l);
    } else if Linked(b, o.id) {
      var l :| l in b.links && Claims(b, l, o.id);
      if l in a.links { OldClaimsStay(a, b, l, o.id); }
      var targets := TargetsOf(a, limit);
      assert Fresh(a, b, l);
      var p :| p in targets && p.id == l.1 && p.account == b.runs[l.0].account && Succeeds(f, p);
      SelectedAreSelectable(a, a.orders, p);
      SameId(a.orders, o, p);
    }
  }

  lemma SameId(orders: seq<Order>, o: Order, p: Order)
    requires DistinctIds(orders) && o in orders && p in orders && o.id == p.id
    ensures o == p
  {
    var i :| 0 <= i < |orders| && orders[i] == o;
    var j :| 0 <= j < |orders| && orders[j] == p;
    assert i == j;
  }

  ghost predicate Chain(dbs: seq<Db>) {
    dbs != [] && forall i :: 0 <= i < |dbs| - 1 ==> Invoked(dbs[i], dbs[i + 1])
  }

  lemma StepKeepsLinks(a: Db, b: Db, o: Order)
    requires Invoked(a, b) && o in a.orders
    ensures o in b.orders && (Linked(a, o.id) ==> Linked(b, o.id))
  {
    var limit, f :| InvokedWith(a, b, limit, f);
    LinkedExactly(a, b, limit, f, o);
  }

  lemma NoClaimIsOnce(db: Db, order: nat)
    requires !Linked(db, order)
    ensures ClaimedOnce(db, order)
  {
  }

  /** Over any number of serial invocations with arbitrary limits and insert failures, an order
      without a claim at the start gains at most one, a claim is never lost, and as long as the order has none
      it is found by the next invocation without a limit. */
  lemma {:induction false} AtMostOneClaimEver(dbs: seq<Db>, o: Order)
    requires Chain(dbs) && o in dbs[0].orders && o.needsReconcile && !Linked(dbs[0], o.id)
    ensures ClaimedOnce(dbs[|dbs| - 1], o.id)
    ensures o in TargetsOf(dbs[|dbs| - 1], None) <==> !Linked(dbs[|dbs| - 1], o.id)
    ensures forall i :: 0 <= i < |dbs| && Linked(dbs[i], o.id) ==> Linked(dbs[|dbs| - 1], o.id)
    ensures o in dbs[|dbs| - 1].orders
    decreases |dbs|
  {
    var n := |dbs|;
    if n == 1 {
      NoClaimIsOnce(dbs[0], o.id);
    } else {
      var before := dbs[..n - 1];
      forall i | 0 <= i < n - 2 ensures Invoked(before[i], before[i + 1]) {
        assert Invoked(dbs[i], dbs[i + 1]);
      }
      AtMostOneClaimEver(before, o);
      assert Invoked(dbs[n - 2], dbs[n - 2 + 1]);
      StepClaimsOnce(dbs[n - 2], dbs[n - 1], o.id);
      StepKeepsLinks(dbs[n - 2], dbs[n - 1], o);
      forall i | 0 <= i < n && Linked(dbs[i], o.id) ensures Linked(dbs[n - 1], o.id) {
        if i < n - 1 { assert Linked(before[i], o.id); }
      }
    }
    SelectedAreSelectable(dbs[n - 1], dbs[n - 1].orders, o);
  }

  /** After an invocation without limit, an order is found again exactly when it was found and an
      insert for it failed: with no failures a second invocation finds nothing. */
  lemma FoundAgainIffFailed(a: Db, b: Db, f: Faults, o: Order)
    requires InvokedWith(a, b, None, f) && o in a.orders
    ensures o in TargetsOf(b, None) <==> o in TargetsOf(a, None) && !Succeeds(f, o)
  {
    LinkedExactly(a, b, None, f, o);
    SelectedAreSelectable(a, a.orders, o);
    SelectedAreSelectable(b, b.orders, o);
  }

  // ---------------------------------------------------------------- which orders are found

  /** An order is found if and only if it needs reconciliation and no link joins it to a run whose
      trigger is requires_reconciliation. */
  lemma FoundExactly(db: Db, o: Order)
    ensures o in TargetsOf(db, None) <==>
            && o in db.orders && o.needsReconcile
            && forall r :: (r, o.id) in db.links && r in db.runs ==> db.runs[r].trigger != RequiresReconciliation
  {
    SelectedAreSelectable(db, db.orders, o);
    forall r | (r, o.id) in db.links && r in db.runs && db.runs[r].trigger == RequiresReconciliation ensures Linked(db, o.id) {
      assert Claims(db, (r, o.id), o.id);
    }
    if Linked(db, o.id) {
      var l :| l in db.links && Claims(db, l, o.id);
      assert l == (l.0, o.id);
    }
  }

  /** The found orders are in the order of creation, each once per row, and a limit takes the first. */
  lemma FoundInOrder(db: Db, limit: Option<nat>) returns (at: seq<nat>)
    ensures var all := TargetsOf(db, None);
            && |at| == |all| && (forall i, j :: 0 <= i < j < |at| ==> at[i] < at[j])
            && (forall i :: 0 <= i < |at| ==> at[i] < |db.orders| && all[i] == db.orders[at[i]])
            && TargetsOf(db, limit) == all[..if limit.Some? && limit.value < |all| then limit.value else |all|]
  {
    at := SelectedIndices(db, db.orders);
    var all := TargetsOf(db, None);
    assert all[..|all|] == all;
  }

  lemma {:induction false} SelectedIndices(db: Db, orders: seq<Order>) returns (at: seq<nat>)
    ensures var all := SelectableOrders(db, orders);
            && |at| == |all| && (forall i, j :: 0 <= i < j < |at| ==> at[i] < at[j])
            && (forall i :: 0 <= i < |at| ==> at[i] < |orders| && all[i] == orders[at[i]])
    decreases |orders|
  {
    if orders == [] {
      at := [];
    } else {
      at := SelectedIndices(db, orders[..|orders| - 1]);
      if Selectable(db, orders[|orders| - 1]) { at := at + [|orders| - 1]; }
    }
  }

  // ---------------------------------------------------------------- what the exit code tells

  ghost predicate SomeRunFails(targets: seq<Order>, f: Faults) {
    exists i :: 0 <= i < |targets| && f.runFails(targets[i].account)
  }

  ghost predicate NoLinkFails(targets: seq<Order>, f: Faults) {
    forall i :: 0 <= i < |targets| ==> !f.linkFails(targets[i].id)
  }

  ghost predicate AllLinked(db: Db, targets: seq<Order>) {
    forall i :: 0 <= i < |targets| ==> Linked(db, targets[i].id)
  }

  lemma {:induction false} AccountHasOrder(orders: seq<Order>, a: nat)
    requires a in AccountsOf(orders)
    ensures exists i :: 0 <= i < |orders| && orders[i].account == a
    decreases |orders|
  {
    var before := orders[..|orders| - 1];
    if a in AccountsOf(before) {
      AccountHasOrder(before, a);
      var i :| 0 <= i < |before| && before[i].account == a;
      assert orders[i].account == a;
    }
  }

  /** The exit code is 1 if and only if the run insert of some target's account fails. */
  lemma ExitCodeTellsFailedRuns(targets: seq<Order>, f: Faults)
    ensures Summary(targets, AccountsOf(targets), f).exitCode == 1 <==> SomeRunFails(targets, f)
  {
    var accounts := AccountsOf(targets);
    FailedRunsIff(accounts, f);
    if k :| 0 <= k < |accounts| && f.runFails(accounts[k]) {
      AccountHasOrder(targets, accounts[k]);
      var i :| 0 <= i < |targets| && targets[i].account == accounts[k];
      assert f.runFails(targets[i].account);
    }
    if i :| 0 <= i < |targets| && f.runFails(targets[i].account) {
      GroupingPartitions(targets, targets[i], 0);
      var k :| 0 <= k < |accounts| && accounts[k] == targets[i].account;
      assert f.runFails(accounts[k]);
    }
  }

  /** Every target is linked afterwards if and only if no insert for a target failed. */
  lemma AllLinkedIff(a: Db, b: Db, limit: Option<nat>, f: Faults)
    requires InvokedWith(a, b, limit, f)
    ensures AllLinked(b, TargetsOf(a, limit)) <==> !SomeRunFails(TargetsOf(a, limit), f) && NoLinkFails(TargetsOf(a, limit), f)
  {
    var targets := TargetsOf(a, limit);
    forall i | 0 <= i < |targets| ensures Linked(b, targets[i].id) <==> Succeeds(f, targets[i]) {
      assert targets[i] in targets;
      SelectedAreSelectable(a, a.orders, targets[i]);
      LinkedExactly(a, b, limit, f, targets[i]);
    }
  }

  /** Exit code 0 means exactly that every target got its link, if and only if some run insert fails
      or no link insert does: a failed link alone leaves the exit code at 0. */
  lemma ExitCodeIsHonestIff(a: Db, b: Db, limit: Option<nat>, f: Faults)
    requires InvokedWith(a, b, limit, f)
    ensures var targets := TargetsOf(a, limit);
            (Summary(targets, AccountsOf(targets), f).exitCode == 0 <==> AllLinked(b, targets))
            <==> SomeRunFails(targets, f) || NoLinkFails(targets, f)
  {
    ExitCodeTellsFailedRuns(TargetsOf(a, limit), f);
    AllLinkedIff(a, b, limit, f);
  }

  /** Concretely: one order, its run is created, its link insert fails; the code is 0, the order unlinked. */
  lemma FailedLinkExitsZero() returns (a: Db, b: Db, f: Faults)
    ensures InvokedWith(a, b, None, f) && TargetsOf(a, None) != []
    ensures Summary(TargetsOf(a, None), AccountsOf(TargetsOf(a, None)), f).exitCode == 0 && !AllLinked(b, TargetsOf(a, None))
  {
    var o := Order(0, 7, true);
    f := Faults(account => false, id => true);
    a := Db([o], map[], {});
    b := Db([o], map[0 := Run(7, RequiresReconciliation)], {});
    assert [o][..0] == [];
    assert SelectableOrders(a, [o][..0]) == [] && SelectableOrders(a, [o]) == [o];
    assert AllEarned(a, b, [o], f, AccountsOf([o]));
    assert InvokedWith(a, b, None, f);
    ExitCodeTellsFailedRuns([o], f);
    AllLinkedIff(a, b, None, f);
    assert f.linkFails([o][0].id);
  }
}
