/** One batch of the synchronous receive handler, device failures and refused headers included:
    which of its packets reach the driver, which are recycled, and which nobody has any more. */
module HtcRecvPending {
  import opened SeqFacts
  import opened HtcRecvPacket
  import opened HtcRecvFetch

  /** What the device and the messages decide: whether the n-th submission to the device
      succeeds, and whether the header of the j-th packet processed is accepted. */
  datatype World = World(io: nat -> bool, good: nat -> bool)

  /** One pass of the fetch loop. In synchronous operation the packets of a scatter request are
      queued for completion before it is submitted; a packet read by itself only afterwards. */
  datatype Pass = Pass(gots: seq<Got>, rest: seq<RxPacket>, dropped: seq<RxPacket>, ok: bool, partial: bool,
      attempts: nat, submitted: nat)

  function ReadOne(w: World, q: seq<RxPacket>, partial: bool, k: nat, n: nat): Pass
    requires q != []
  {
    if w.io(n) then Pass([Got(q[0], |q| > 1, false)], q[1..], [], true, partial, k, n + 1)
    else Pass([], q[1..], [q[0]], false, partial, k, n + 1)
  }

  function PassOf(rules: RecvRules, w: World, q: seq<RxPacket>, partial: bool, k: nat, n: nat): (r: Pass)
    requires q != []
    ensures |r.rest| <= |q| && (r.ok ==> |r.rest| < |q|)
  {
    if !rules.bundling || |q| <= 1 then ReadOne(w, q, partial, k, n)
    else if !rules.alloc(k) then ReadOne(w, q, true, k + 1, n)
    else
      var gots := Collect(rules, q, Slots(rules, q), rules.maxBytes, partial || Slots(rules, q) < |q|);
      var rest := q[|gots|..];
      if !w.io(n) then Pass(gots, rest, [], false, partial, k + 1, n + 1)
      else if gots == [] then ReadOne(w, q, true, k + 1, n + 1)
      else Pass(gots, rest, [], true, partial || rest != [], k + 1, n + 1)
  }

  /** The queue for completion, what is left to be fetched, the packet in hand when a read of
      its own failed, and the status of the fetch loop. */
  datatype Fetched = Fetched(completed: seq<Got>, rest: seq<RxPacket>, dropped: seq<RxPacket>, ok: bool)

  function FetchSync(rules: RecvRules, w: World, q: seq<RxPacket>, partial: bool, k: nat, n: nat): Fetched
    decreases |q|
  {
    if q == [] then Fetched([], [], [], true)
    else
      var p := PassOf(rules, w, q, partial, k, n);
      if !p.ok then Fetched(p.gots, p.rest, p.dropped, false)
      else
        var more := FetchSync(rules, w, p.rest, p.partial, p.attempts, p.submitted);
        more.(completed := p.gots + more.completed)
  }

  /** How many packets from the front have a header that is accepted. */
  function GoodFront(w: World, count: nat, j: nat): (r: nat)
    ensures r <= count && (r < count ==> !w.good(j + r))
    ensures forall i :: j <= i < j + r ==> w.good(i)
    decreases count
  {
    if count == 0 || !w.good(j) then 0 else 1 + GoodFront(w, count - 1, j + 1)
  }

  /** Where the packets of a batch end up, and the status with which it does. */
  datatype Outcome = Outcome(indicated: seq<RxPacket>, recycled: seq<RxPacket>, lost: seq<RxPacket>, ok: bool)

  /** Processing the headers replaces the status of the fetch loop, and packets are cleaned up
      only on a failure. A refused packet has left the queue by then. */
  function Finish(f: Fetched, n: nat): Outcome
    requires n <= |f.completed|
  {
    var all := Packets(f.completed);
    if f.completed == [] then
      if f.ok then Outcome([], [], [], true) else Outcome([], f.rest, f.dropped, false)
    else if n < |all| then Outcome(all[..n], f.rest + all[n + 1..], f.dropped + [all[n]], false)
    else Outcome(all, [], f.dropped + f.rest, true)
  }

  function Batch(rules: RecvRules, w: World, q: seq<RxPacket>, k: nat, n: nat, j: nat): Outcome
  {
    var f := FetchSync(rules, w, q, false, k, n);
    Finish(f, GoodFront(w, |f.completed|, j))
  }

  // --- what fetching does to the queue --------------------------------------------------------

  /** `front`, `hand` and `rest` are the batch, in order; nothing is in hand unless a read of a
      single packet failed. */
  ghost predicate Splits(q: seq<RxPacket>, front: seq<RxPacket>, hand: seq<RxPacket>, rest: seq<RxPacket>) {
    front + (hand + rest) == q && |hand| <= 1
  }

  lemma ReadOneSplits(w: World, q: seq<RxPacket>, partial: bool, k: nat, n: nat)
    requires q != []
    ensures var p := ReadOne(w, q, partial, k, n);
      Splits(q, Packets(p.gots), p.dropped, p.rest) && (p.ok ==> p.dropped == [])
  {
    OneGot(Got(q[0], |q| > 1, false));
    assert [q[0]] + ([] + q[1..]) == q;
    assert [] + ([q[0]] + q[1..]) == q;
  }

  lemma PassSplits(rules: RecvRules, w: World, q: seq<RxPacket>, partial: bool, k: nat, n: nat)
    requires q != []
    ensures var p := PassOf(rules, w, q, partial, k, n);
      Splits(q, Packets(p.gots), p.dropped, p.rest) && (p.ok ==> p.dropped == [])
  {
    ScatterSplits(rules, q, Slots(rules, q), partial || Slots(rules, q) < |q|);
    forall broken, j, m {
      ReadOneSplits(w, q, broken, j, m);
    }
  }

  lemma ScatterSplits(rules: RecvRules, q: seq<RxPacket>, slots: nat, partial: bool)
    ensures var gots := Collect(rules, q, slots, rules.maxBytes, partial); Splits(q, Packets(gots), [], q[|gots|..])
  {
    var gots := Collect(rules, q, slots, rules.maxBytes, partial);
    CollectIsPrefix(rules, q, slots, rules.maxBytes, partial);
    assert [] + q[|gots|..] == q[|gots|..];
  }

  /** Fetched, in hand and left to be fetched are the batch, in order. */
  lemma {:induction false} FetchSplits(rules: RecvRules, w: World, q: seq<RxPacket>, partial: bool, k: nat, n: nat)
    ensures var f := FetchSync(rules, w, q, partial, k, n);
      && Splits(q, Packets(f.completed), f.dropped, f.rest)
      && (f.ok ==> f.dropped == f.rest == [])
    decreases |q|
  {
    if q != [] {
      var p := PassOf(rules, w, q, partial, k, n);
      PassSplits(rules, w, q, partial, k, n);
      if p.ok {
        FetchSplits(rules, w, p.rest, p.partial, p.attempts, p.submitted);
        var more := FetchSync(rules, w, p.rest, p.partial, p.attempts, p.submitted);
        PacketsConcat(p.gots, more.completed);
        SplitsMore(q, Packets(p.gots), p.rest, Packets(more.completed), more.dropped, more.rest);
      }
    }
  }

  lemma SplitsMore(q: seq<RxPacket>, front: seq<RxPacket>, q1: seq<RxPacket>, front1: seq<RxPacket>,
      hand: seq<RxPacket>, rest: seq<RxPacket>)
    requires Splits(q, front, [], q1) && Splits(q1, front1, hand, rest)
    ensures Splits(q, front + front1, hand, rest)
  {
    assert [] + q1 == q1;
    Regroup(front, front1, hand + rest);
  }

  ghost predicate Ignored(gots: seq<Got>) {
    forall i :: 0 <= i < |gots| ==> gots[i].ignore
  }

  lemma IgnoredConcat(a: seq<Got>, b: seq<Got>)
    requires Ignored(a) && Ignored(b)
    ensures Ignored(a + b)
  {
  }

  lemma PassIgnores(rules: RecvRules, w: World, q: seq<RxPacket>, partial: bool, k: nat, n: nat)
    requires q != []
    ensures var p := PassOf(rules, w, q, partial, k, n); p.dropped != [] || p.rest != [] ==> Ignored(p.gots)
  {
    CollectMarks(rules, q, Slots(rules, q), rules.maxBytes, partial || Slots(rules, q) < |q|);
  }

  /** When fetching stops short, every packet fetched so far has its look-ahead ignored. */
  lemma {:induction false} ShortFetchIgnores(rules: RecvRules, w: World, q: seq<RxPacket>, partial: bool, k: nat,
      n: nat)
    ensures var f := FetchSync(rules, w, q, partial, k, n); f.dropped != [] || f.rest != [] ==> Ignored(f.completed)
    decreases |q|
  {
    if q != [] {
      var p := PassOf(rules, w, q, partial, k, n);
      PassIgnores(rules, w, q, partial, k, n);
      if p.ok {
        ShortFetchIgnores(rules, w, p.rest, p.partial, p.attempts, p.submitted);
        var more := FetchSync(rules, w, p.rest, p.partial, p.attempts, p.submitted);
        if more.dropped != [] || more.rest != [] {
          NothingFromNothing(rules, w, p.rest, p.partial, p.attempts, p.submitted);
          IgnoredConcat(p.gots, more.completed);
        }
      }
    }
  }

  lemma NothingFromNothing(rules: RecvRules, w: World, q: seq<RxPacket>, partial: bool, k: nat, n: nat)
    ensures var f := FetchSync(rules, w, q, partial, k, n); q == [] ==> f.completed == [] && f.dropped == f.rest == []
  {
  }

  // --- what becomes of a batch ----------------------------------------------------------------

  /** Packets are indicated in order from the front of the batch, and each packet of the batch
      is indicated, recycled or lost, once. */
  lemma BatchAccounts(rules: RecvRules, w: World, q: seq<RxPacket>, k: nat, n: nat, j: nat)
    ensures var r := Batch(rules, w, q, k, n, j);
      && r.indicated <= q
      && multiset(q) == multiset(r.indicated) + multiset(r.recycled) + multiset(r.lost)
  {
    var f := FetchSync(rules, w, q, false, k, n);
    FetchSplits(rules, w, q, false, k, n);
    FinishAccounts(q, f, GoodFront(w, |f.completed|, j));
  }

  lemma FinishAccounts(q: seq<RxPacket>, f: Fetched, n: nat)
    requires n <= |f.completed| && q == Packets(f.completed) + (f.dropped + f.rest)
    requires f.ok ==> f.rest == f.dropped == []
    ensures var r := Finish(f, n);
      && r.indicated <= q
      && multiset(q) == multiset(r.indicated) + multiset(r.recycled) + multiset(r.lost)
  {
    var all := Packets(f.completed);
    if n < |all| {
      RefusedAccounts(q, all, n, f.dropped, f.rest);
    } else {
      AcceptedAccounts(q, all, f.dropped, f.rest);
    }
  }

  lemma AcceptedAccounts(q: seq<RxPacket>, all: seq<RxPacket>, hand: seq<RxPacket>, rest: seq<RxPacket>)
    requires q == all + (hand + rest)
    ensures all <= q && multiset(q) == multiset(all) + multiset(hand + rest)
    ensures multiset(hand + rest) == multiset(rest) + multiset(hand)
  {
  }

  lemma RefusedAccounts(q: seq<RxPacket>, all: seq<RxPacket>, g: nat, hand: seq<RxPacket>, rest: seq<RxPacket>)
    requires q == all + (hand + rest) && g < |all|
    ensures all[..g] <= q
    ensures multiset(q) == multiset(all[..g]) + multiset(rest + all[g + 1..]) + multiset(hand + [all[g]])
  {
    SplitAt(all, g);
    HeadTail(all[g..]);
    assert all[g..][1..] == all[g + 1..];
  }

  /** Without failures the whole batch is indicated, in order. */
  lemma CleanBatch(rules: RecvRules, w: World, q: seq<RxPacket>, k: nat, n: nat, j: nat)
    requires (forall i: nat :: w.io(i)) && (forall i: nat :: w.good(i))
    ensures Batch(rules, w, q, k, n, j) == Outcome(q, [], [], true)
  {
    FetchesAll(rules, w, q, false, k, n);
    FetchSplits(rules, w, q, false, k, n);
    var f := FetchSync(rules, w, q, false, k, n);
    assert Packets(f.completed) == q;
  }

  /** A batch that fails loses at most the packet whose own read failed and the one whose header
      was refused; one that succeeds recycles nothing and loses all it did not indicate. */
  lemma LossesAreBounded(rules: RecvRules, w: World, q: seq<RxPacket>, k: nat, n: nat, j: nat)
    ensures var r := Batch(rules, w, q, k, n, j);
      && (!r.ok ==> |r.lost| <= 2)
      && (r.ok ==> r.recycled == [] && r.indicated + r.lost == q)
  {
    FetchSplits(rules, w, q, false, k, n);
    var f := FetchSync(rules, w, q, false, k, n);
  }

  // --- what was planned, and how far it came -----------------------------------------------------

  /** The first of `count` submissions, numbered from `n`, that fails. */
  function FirstFailure(w: World, count: nat, n: nat): (r: nat)
    ensures r <= count && (r < count ==> !w.io(n + r))
    ensures forall i :: n <= i < n + r ==> w.io(i)
    decreases count
  {
    if count == 0 || !w.io(n) then 0 else 1 + FirstFailure(w, count - 1, n + 1)
  }

  /** What is queued for completion when the requests up to number `m` succeed: their packets,
      and those of a scatter request that fails. */
  function Done(plan: seq<Fetch>, m: nat): seq<Got>
    requires m <= |plan|
  {
    Gots(plan[..m]) + (if m < |plan| && plan[m].Scatter? then plan[m].gots else [])
  }

  /** The packet whose own read fails. */
  function Hand(plan: seq<Fetch>, m: nat): seq<RxPacket>
    requires m <= |plan|
  {
    if m < |plan| && plan[m].Single? then [plan[m].got.packet] else []
  }

  ghost predicate FollowsPlan(w: World, f: Fetched, plan: seq<Fetch>, n: nat) {
    var m := FirstFailure(w, |plan|, n);
    f.completed == Done(plan, m) && f.dropped == Hand(plan, m) && f.ok == (m == |plan|)
  }

  /** A request ahead of a plan. */
  lemma PlanCons(w: World, x: Fetch, plan: seq<Fetch>, n: nat, more: Fetched, f: Fetched)
    requires w.io(n) ==> FollowsPlan(w, more, plan, n + 1)
    requires if w.io(n) then f.completed == Gots([x]) + more.completed && f.dropped == more.dropped && f.ok == more.ok
             else f.completed == (if x.Scatter? then x.gots else []) && f.dropped == Hand([x], 0) && !f.ok
    ensures FollowsPlan(w, f, [x] + plan, n)
  {
    var all := [x] + plan;
    if w.io(n) {
      var m := FirstFailure(w, |plan|, n + 1);
      assert FirstFailure(w, |all|, n) == 1 + m;
      assert all[..1 + m] == [x] + plan[..m];
      GotsConcat([x], plan[..m]);
      assert m < |plan| ==> all[1 + m] == plan[m];
      Regroup(Gots([x]), Gots(plan[..m]), if m < |plan| && plan[m].Scatter? then plan[m].gots else []);
    } else {
      assert FirstFailure(w, |all|, n) == 0 && all[..0] == [];
    }
  }

  /** A single read, then the rest of the plan. */
  lemma SinglePlan(w: World, q: seq<RxPacket>, partial: bool, k: nat, n: nat, plan: seq<Fetch>, more: Fetched)
    requires q != [] && (w.io(n) ==> FollowsPlan(w, more, plan, n + 1))
    ensures var p := ReadOne(w, q, partial, k, n);
      FollowsPlan(w, if p.ok then more.(completed := p.gots + more.completed)
        else Fetched(p.gots, p.rest, p.dropped, false),
                  [Single(Got(q[0], |q| > 1, false))] + plan, n)
  {
    var p := ReadOne(w, q, partial, k, n);
    OneSingle(Got(q[0], |q| > 1, false));
    PlanCons(w, Single(Got(q[0], |q| > 1, false)), plan, n, more,
             if p.ok then more.(completed := p.gots + more.completed) else Fetched(p.gots, p.rest, p.dropped, false));
  }

  /** A scatter request without entries, a single read, then the rest of the plan. */
  lemma EmptyThenSingle(w: World, q: seq<RxPacket>, k: nat, n: nat, plan: seq<Fetch>, more: Fetched, f: Fetched)
    requires |q| > 1 && (w.io(n) && w.io(n + 1) ==> FollowsPlan(w, more, plan, n + 2))
    requires if !w.io(n) then f == Fetched([], q, [], false)
      else
        var p := ReadOne(w, q, true, k, n + 1);
        f == if p.ok then more.(completed := p.gots + more.completed) else Fetched(p.gots, p.rest, p.dropped, false)
    ensures FollowsPlan(w, f, [Scatter([]), Single(Got(q[0], true, false))] + plan, n)
  {
    var single := Single(Got(q[0], true, false));
    OneScatter([]);
    if w.io(n) { SinglePlan(w, q, true, k, n + 1, plan, more); }
    assert [Scatter([]), single] + plan == [Scatter([])] + ([single] + plan);
    PlanCons(w, Scatter([]), [single] + plan, n, f, f);
  }

  /** What the fetch loop makes of the rest of the batch after a pass. */
  function Rest(rules: RecvRules, w: World, p: Pass): Fetched
  {
    FetchSync(rules, w, p.rest, p.partial, p.attempts, p.submitted)
  }

  function AfterPass(p: Pass, more: Fetched): Fetched
  {
    if p.ok then more.(completed := p.gots + more.completed) else Fetched(p.gots, p.rest, p.dropped, false)
  }

  lemma PassOfSingle(rules: RecvRules, w: World, q: seq<RxPacket>, partial: bool, k: nat, n: nat, plan: seq<Fetch>)
    requires q != [] && (!rules.bundling || |q| <= 1 || !rules.alloc(k))
    requires var p := PassOf(rules, w, q, partial, k, n); p.ok ==> FollowsPlan(w, Rest(rules, w, p), plan, p.submitted)
    ensures var p := PassOf(rules, w, q, partial, k, n);
      FollowsPlan(w, AfterPass(p, Rest(rules, w, p)), TurnOf(rules, q, partial, k).fetches + plan, n)
  {
    var p := PassOf(rules, w, q, partial, k, n);
    assert TurnOf(rules, q, partial, k).fetches == [Single(Got(q[0], |q| > 1, false))];
    if !rules.bundling || |q| <= 1 {
      SinglePlan(w, q, partial, k, n, plan, Rest(rules, w, p));
    } else {
      SinglePlan(w, q, true, k + 1, n, plan, Rest(rules, w, p));
    }
  }

  lemma PassOfScatter(rules: RecvRules, w: World, q: seq<RxPacket>, partial: bool, k: nat, n: nat, plan: seq<Fetch>)
    requires rules.bundling && 1 < |q| && rules.alloc(k)
    requires var p := PassOf(rules, w, q, partial, k, n); p.ok ==> FollowsPlan(w, Rest(rules, w, p), plan, p.submitted)
    ensures var p := PassOf(rules, w, q, partial, k, n);
      FollowsPlan(w, AfterPass(p, Rest(rules, w, p)), TurnOf(rules, q, partial, k).fetches + plan, n)
  {
    var p := PassOf(rules, w, q, partial, k, n);
    var gots := Collect(rules, q, Slots(rules, q), rules.maxBytes, partial || Slots(rules, q) < |q|);
    OneScatter(gots);
    if gots != [] {
      assert TurnOf(rules, q, partial, k).fetches == [Scatter(gots)];
      PlanCons(w, Scatter(gots), plan, n, Rest(rules, w, p), AfterPass(p, Rest(rules, w, p)));
    } else {
      assert TurnOf(rules, q, partial, k).fetches == [Scatter([]), Single(Got(q[0], true, false))];
      EmptyThenSingle(w, q, k + 1, n, plan, Rest(rules, w, p), AfterPass(p, Rest(rules, w, p)));
    }
  }

  lemma PassIsTurn(rules: RecvRules, w: World, q: seq<RxPacket>, partial: bool, k: nat, n: nat)
    requires q != []
    ensures var p, t := PassOf(rules, w, q, partial, k, n), TurnOf(rules, q, partial, k);
      p.ok ==> p.rest == t.rest && p.partial == t.partial && p.attempts == t.attempts
  {
    if rules.bundling && |q| > 1 {
      var b := BundleTurn(rules, q, partial, k);
      if rules.alloc(k) {
        var gots := Collect(rules, q, Slots(rules, q), rules.maxBytes, partial || Slots(rules, q) < |q|);
        assert b == Turn([Scatter(gots)], q[|gots|..], partial, k + 1);
        assert gots == [] ==> b.rest == q;
      } else {
        assert b == Turn([], q, partial, k + 1);
      }
    }
  }

  /** The fetch loop submits the requests of the plan made for a device that never fails, up to
      and including the first one that does fail. */
  lemma {:induction false} FetchFollowsPlan(rules: RecvRules, w: World, q: seq<RxPacket>, partial: bool, k: nat, n: nat)
    ensures FollowsPlan(w, FetchSync(rules, w, q, partial, k, n), FetchAll(rules, q, partial, k), n)
    decreases |q|
  {
    if q != [] {
      var p, t := PassOf(rules, w, q, partial, k, n), TurnOf(rules, q, partial, k);
      var plan := FetchAll(rules, t.rest, t.partial, t.attempts);
      PassIsTurn(rules, w, q, partial, k, n);
      if p.ok { FetchFollowsPlan(rules, w, p.rest, p.partial, p.attempts, p.submitted); }
      if !rules.bundling || |q| <= 1 || !rules.alloc(k) {
        PassOfSingle(rules, w, q, partial, k, n, plan);
      } else {
        PassOfScatter(rules, w, q, partial, k, n, plan);
      }
      assert FetchSync(rules, w, q, partial, k, n) == AfterPass(p, Rest(rules, w, p));
    }
  }

  /** While the device does not fail, fetching is what FetchAll says. */
  lemma FetchesAll(rules: RecvRules, w: World, q: seq<RxPacket>, partial: bool, k: nat, n: nat)
    requires forall i: nat :: w.io(i)
    ensures var f := FetchSync(rules, w, q, partial, k, n);
      f.ok && f.completed == Gots(FetchAll(rules, q, partial, k))
  {
    var plan := FetchAll(rules, q, partial, k);
    FetchFollowsPlan(rules, w, q, partial, k, n);
    assert FirstFailure(w, |plan|, n) == |plan| && plan[..|plan|] == plan;
  }

  /** The headers of all packets queued for completion are accepted. */
  predicate AllGood(w: World, j: nat, count: nat) {
    forall i :: j <= i < j + count ==> w.good(i)
  }

  lemma GoodFrontIsAll(w: World, count: nat, j: nat)
    ensures GoodFront(w, count, j) == count <==> AllGood(w, j, count)
  {
    var g := GoodFront(w, count, j);
    assert g < count ==> j <= j + g < j + count;
  }

  /** Nothing of a batch is lost exactly when all headers processed are accepted and either no
      submission fails, or the first to fail is a scatter request that comes before anything
      was fetched or that completes the batch. */
  lemma NothingLostIff(rules: RecvRules, w: World, q: seq<RxPacket>, k: nat, n: nat, j: nat)
    ensures var plan := FetchAll(rules, q, false, k);
      var m := FirstFailure(w, |plan|, n);
      var count := |Done(plan, m)|;
      Batch(rules, w, q, k, n, j).lost == [] <==>
        AllGood(w, j, count) && (m == |plan| || (plan[m].Scatter? && (count == 0 || count == |q|)))
  {
    var plan, f := FetchAll(rules, q, false, k), FetchSync(rules, w, q, false, k, n);
    FetchFollowsPlan(rules, w, q, false, k, n);
    FetchSplits(rules, w, q, false, k, n);
    GoodFrontIsAll(w, |f.completed|, j);
    assert |f.completed| + |f.dropped| + |f.rest| == |q|;
  }

  /** When a submission fails, the handler still reports success exactly when something was
      queued for completion and all headers processed are accepted. */
  lemma FailureMaskedIff(rules: RecvRules, w: World, q: seq<RxPacket>, k: nat, n: nat, j: nat)
    ensures var plan := FetchAll(rules, q, false, k);
      var m := FirstFailure(w, |plan|, n);
      var count := |Done(plan, m)|;
      m < |plan| ==> (Batch(rules, w, q, k, n, j).ok <==> 0 < count && AllGood(w, j, count))
  {
    FetchFollowsPlan(rules, w, q, false, k, n);
    GoodFrontIsAll(w, |FetchSync(rules, w, q, false, k, n).completed|, j);
  }

  lemma {:induction false} SinglesFetch(rules: RecvRules, w: World, q: seq<RxPacket>, partial: bool, k: nat, n: nat)
    requires !rules.bundling
    ensures var f := FetchSync(rules, w, q, partial, k, n);
      && (f.ok <==> forall i :: n <= i < n + |q| ==> w.io(i))
      && (f.ok <==> f.dropped == []) && (f.ok ==> |f.completed| == |q|)
    decreases |q|
  {
    if q != [] && w.io(n) {
      SinglesFetch(rules, w, q[1..], partial, k, n + 1);
      var rest := FetchSync(rules, w, q[1..], partial, k, n + 1);
      assert rest.ok ==> forall i :: n <= i < n + |q| ==> w.io(i);
      assert (forall i :: n <= i < n + |q| ==> w.io(i)) ==> forall i :: n + 1 <= i < n + 1 + |q[1..]| ==> w.io(i);
    }
  }

  /** Without bundling, a batch loses nothing exactly when all its reads succeed and all its
      headers are accepted. */
  lemma SinglesLoseNothingIff(rules: RecvRules, w: World, q: seq<RxPacket>, k: nat, n: nat, j: nat)
    requires !rules.bundling
    ensures Batch(rules, w, q, k, n, j).lost == [] <==>
      (forall i :: n <= i < n + |q| ==> w.io(i)) && AllGood(w, j, |q|)
  {
    SinglesFetch(rules, w, q, false, k, n);
    FetchSplits(rules, w, q, false, k, n);
    GoodFrontIsAll(w, |FetchSync(rules, w, q, false, k, n).completed|, j);
  }

  /** After a success with packets lost no look-ahead makes the handler go on: it returns. */
  lemma MaskedFailureIsSilent(rules: RecvRules, w: World, q: seq<RxPacket>, k: nat, n: nat, j: nat)
    requires Batch(rules, w, q, k, n, j).ok && Batch(rules, w, q, k, n, j).lost != []
    ensures Ignored(FetchSync(rules, w, q, false, k, n).completed)
  {
    ShortFetchIgnores(rules, w, q, false, k, n);
  }

  /** Three packets read one by one, the second read failing: the first one is indicated, the
      other two are gone, and the batch counts as a success. */
  lemma MaskedLoss(rules: RecvRules, a: RxPacket, b: RxPacket, c: RxPacket)
    requires !rules.bundling
    ensures Batch(rules, World(i => i != 1, i => true), [a, b, c], 0, 0, 0) == Outcome([a], [], [b, c], true)
  {
    var w := World(i => i != 1, i => true);
    assert [a, b, c][1..] == [b, c] && [b, c][1..] == [c];
    assert PassOf(rules, w, [b, c], false, 0, 1) == Pass([], [c], [b], false, false, 0, 2);
    assert FetchSync(rules, w, [b, c], false, 0, 1) == Fetched([], [c], [b], false);
    var got := Got(a, true, false);
    assert FetchSync(rules, w, [a, b, c], false, 0, 0) == Fetched([got], [c], [b], false);
    OneGot(got);
  }

  /** The packets of a scatter request that failed are processed as if they had been read. */
  lemma FailedRequestIsProcessed(rules: RecvRules, w: World, q: seq<RxPacket>, k: nat, n: nat, j: nat)
    requires var plan := FetchAll(rules, q, false, k);
      FirstFailure(w, |plan|, n) < |plan| && plan[FirstFailure(w, |plan|, n)].Scatter?
    ensures var plan := FetchAll(rules, q, false, k);
      var m := FirstFailure(w, |plan|, n);
      var count := |Gots(plan[..m])| + |plan[m].gots|;
      count <= |q| && Batch(rules, w, q, k, n, j).indicated == q[..GoodFront(w, count, j)]
  {
    FetchFollowsPlan(rules, w, q, false, k, n);
    FetchSplits(rules, w, q, false, k, n);
  }

  // --- in place -------------------------------------------------------------------------------

  /** The handler at work on a batch. */
  class Handler {
    const batch: Receiver
    const w: World
    var SyncCompletedPktsQueue: seq<Got>
    var Reads: nat
    var Processed: nat
    var Indicated: seq<RxPacket>
    var Recycled: seq<RxPacket>
    ghost var Lost: seq<RxPacket>

    constructor (batch: Receiver, w: World)
      ensures this.batch == batch && this.w == w
      ensures SyncCompletedPktsQueue == [] && Indicated == Recycled == Lost == [] && Reads == Processed == 0
    {
      this.batch, this.w := batch, w;
      SyncCompletedPktsQueue, Indicated, Recycled, Lost, Reads, Processed := [], [], [], [], 0, 0;
    }

    /** Reads the packet at the head of the queue by itself. */
    method IssueRecv(partialBundle: bool) returns (status: bool)
      requires batch.RecvPktQueue != []
      modifies this`SyncCompletedPktsQueue, this`Reads, this`Lost, batch`RecvPktQueue
      ensures var p := ReadOne(w, old(batch.RecvPktQueue), partialBundle, batch.Attempts, old(Reads));
        && batch.RecvPktQueue == p.rest && Reads == p.submitted && status == p.ok
        && SyncCompletedPktsQueue == old(SyncCompletedPktsQueue) + p.gots && Lost == old(Lost) + p.dropped
    {
      var pPacket := batch.RecvPktQueue[0];
      batch.RecvPktQueue := batch.RecvPktQueue[1..];
      var ignoreLookahead := |batch.RecvPktQueue| > 0;
      status := w.io(Reads);
      Reads := Reads + 1;
      if !status {
        Lost := Lost + [pPacket];
        return;
      }
      SyncCompletedPktsQueue := SyncCompletedPktsQueue + [Got(pPacket, ignoreLookahead, false)];
    }

    /** HTCIssueRecvPacketBundle in synchronous operation. */
    method IssueRecvPacketBundle(PartialBundle: bool) returns (status: bool, fetched: nat)
      modifies this`SyncCompletedPktsQueue, this`Reads, batch`RecvPktQueue, batch`Attempts
      ensures batch.Attempts == old(batch.Attempts) + 1
      ensures !batch.rules.alloc(old(batch.Attempts)) ==>
        && status && fetched == 0 && Reads == old(Reads)
        && SyncCompletedPktsQueue == old(SyncCompletedPktsQueue) && batch.RecvPktQueue == old(batch.RecvPktQueue)
      ensures batch.rules.alloc(old(batch.Attempts)) ==>
        var q, slots := old(batch.RecvPktQueue), Slots(batch.rules, old(batch.RecvPktQueue));
        var gots := Collect(batch.rules, q, slots, batch.rules.maxBytes, PartialBundle || slots < |q|);
        && status == w.io(old(Reads)) && Reads == old(Reads) + 1 && fetched == (if status then |gots| else 0)
        && SyncCompletedPktsQueue == old(SyncCompletedPktsQueue) + gots && batch.RecvPktQueue == q[|gots|..]
    {
      var pktsToScatter := Slots(batch.rules, batch.RecvPktQueue);
      var partial := PartialBundle || |batch.RecvPktQueue| - pktsToScatter > 0;
      var granted := batch.rules.alloc(batch.Attempts);
      batch.Attempts := batch.Attempts + 1;
      if !granted {
        return true, 0;
      }
      var scatterList := batch.FillRequest(pktsToScatter, partial);
      SyncCompletedPktsQueue := SyncCompletedPktsQueue + scatterList;
      status := w.io(Reads);
      Reads := Reads + 1;
      fetched := if status then |scatterList| else 0;
    }

    /** One pass of the fetch loop. */
    method FetchPass(partialBundle: bool) returns (status: bool, broken: bool)
      requires batch.RecvPktQueue != []
      modifies this`SyncCompletedPktsQueue, this`Reads, this`Lost, batch`RecvPktQueue, batch`Attempts
      ensures var p := PassOf(batch.rules, w, old(batch.RecvPktQueue), partialBundle, old(batch.Attempts), old(Reads));
        && batch.RecvPktQueue == p.rest && batch.Attempts == p.attempts && Reads == p.submitted && status == p.ok
        && SyncCompletedPktsQueue == old(SyncCompletedPktsQueue) + p.gots && Lost == old(Lost) + p.dropped
        && (status ==> broken == p.partial)
    {
      var pktsFetched := 0;
      broken := partialBundle;
      if batch.rules.bundling && |batch.RecvPktQueue| > 1 {
        status, pktsFetched := IssueRecvPacketBundle(partialBundle);
        if !status {
          return;
        }
        if |batch.RecvPktQueue| != 0 {
          broken := true;
        }
      }
      status := true;
      if pktsFetched == 0 {
        status := IssueRecv(broken);
      }
    }

    /** Fetches the batch until it is done or the device fails. */
    method FetchPackets() returns (status: bool)
      requires SyncCompletedPktsQueue == []
      modifies this`SyncCompletedPktsQueue, this`Reads, this`Lost, batch`RecvPktQueue, batch`Attempts
      ensures var f := FetchSync(batch.rules, w, old(batch.RecvPktQueue), false, old(batch.Attempts), old(Reads));
        && SyncCompletedPktsQueue == f.completed && batch.RecvPktQueue == f.rest && status == f.ok
          && Lost == old(Lost) + f.dropped
    {
      status := true;
      var partialBundle := false;
      ghost var all := FetchSync(batch.rules, w, batch.RecvPktQueue, false, batch.Attempts, Reads);
      while status && batch.RecvPktQueue != []
        invariant status ==> Lost == old(Lost)
        invariant status ==>
          Fetching(SyncCompletedPktsQueue,
            FetchSync(batch.rules, w, batch.RecvPktQueue, partialBundle, batch.Attempts, Reads), all)
        invariant !status ==>
          && all == Fetched(SyncCompletedPktsQueue, batch.RecvPktQueue, all.dropped, false)
          && Lost == old(Lost) + all.dropped
        decreases status, |batch.RecvPktQueue|
      {
        FetchingStep(SyncCompletedPktsQueue, batch.rules, w, batch.RecvPktQueue, partialBundle, batch.Attempts, Reads,
          all);
        PassSplits(batch.rules, w, batch.RecvPktQueue, partialBundle, batch.Attempts, Reads);
        status, partialBundle := FetchPass(partialBundle);
      }
    }

    /** Processes the header of the next packet queued for completion. */
    method ProcessNext(ghost gots: seq<Got>, ghost j: nat, ghost i: nat, ghost before: seq<RxPacket>,
        ghost lost: seq<RxPacket>)
      returns (status: bool)
      requires Unloading(w, gots, j, i, SyncCompletedPktsQueue, Indicated, before) && SyncCompletedPktsQueue != []
      requires Processed == j + i && Lost == lost
      modifies this`SyncCompletedPktsQueue, this`Processed, this`Indicated, this`Lost
      ensures status ==>
        && Unloading(w, gots, j, i + 1, SyncCompletedPktsQueue, Indicated, before)
        && Processed == j + i + 1 && Lost == lost
      ensures !status ==>
        && Unloaded(w, gots, j, SyncCompletedPktsQueue, Indicated, before, Lost, lost)
        && GoodFront(w, |gots|, j) < |gots|
      ensures |SyncCompletedPktsQueue| < |old(SyncCompletedPktsQueue)|
    {
      UnloadStep(w, gots, j, i, SyncCompletedPktsQueue, Indicated, before, lost);
      var got := SyncCompletedPktsQueue[0];
      SyncCompletedPktsQueue := SyncCompletedPktsQueue[1..];
      status := w.good(Processed);
      Processed := Processed + 1;
      if status {
        Indicated := Indicated + [got.packet];
      } else {
        Lost := Lost + [got.packet];
      }
    }

    /** Processes the headers of the packets queued for completion, up to the first refusal. */
    method UnloadCompletions(fetchStatus: bool) returns (status: bool)
      modifies this`SyncCompletedPktsQueue, this`Processed, this`Indicated, this`Lost
      ensures var gots := old(SyncCompletedPktsQueue);
        Unloaded(w, gots, old(Processed), SyncCompletedPktsQueue, Indicated, old(Indicated), Lost, old(Lost))
        && status == (if gots == [] then fetchStatus else GoodFront(w, |gots|, old(Processed)) == |gots|)
    {
      status := fetchStatus;
      ghost var gots, i, j, before, lost := SyncCompletedPktsQueue, 0, Processed, Indicated, Lost;
      UnloadStarts(w, gots, j, before);
      while SyncCompletedPktsQueue != []
        invariant 0 <= i <= |gots| && Unloading(w, gots, j, i, SyncCompletedPktsQueue, Indicated, before)
        invariant Processed == j + i && Lost == lost && status == (if i == 0 then fetchStatus else true)
        decreases |SyncCompletedPktsQueue|
      {
        status := ProcessNext(gots, j, i, before, lost);
        if !status {
          return;
        }
        i := i + 1;
      }
      UnloadEnds(w, gots, j, i, Indicated, before, lost);
    }

    /** Recycles what is left in both queues. */
    method Cleanup()
      modifies this`SyncCompletedPktsQueue, this`Recycled, batch`RecvPktQueue
      ensures batch.RecvPktQueue == [] && SyncCompletedPktsQueue == []
      ensures Recycled == old(Recycled) + (old(batch.RecvPktQueue) + Packets(old(SyncCompletedPktsQueue)))
    {
      ghost var all := Recycled + (batch.RecvPktQueue + Packets(SyncCompletedPktsQueue));
      while batch.RecvPktQueue != []
        invariant Recycled + (batch.RecvPktQueue + Packets(SyncCompletedPktsQueue)) == all
        decreases |batch.RecvPktQueue|
      {
        Recycled := Recycled + [batch.RecvPktQueue[0]];
        batch.RecvPktQueue := batch.RecvPktQueue[1..];
      }
      while SyncCompletedPktsQueue != []
        invariant batch.RecvPktQueue == [] && Recycled + Packets(SyncCompletedPktsQueue) == all
        decreases |SyncCompletedPktsQueue|
      {
        Recycled := Recycled + [SyncCompletedPktsQueue[0].packet];
        SyncCompletedPktsQueue := SyncCompletedPktsQueue[1..];
      }
    }

    /** Processes what was fetched and, on a failure, cleans up. What is still queued after a
        success is forgotten when the queues are set up for the next batch. */
    method Conclude(fetchStatus: bool, ghost f: Fetched, ghost lost: seq<RxPacket>) returns (status: bool)
      requires f == Fetched(SyncCompletedPktsQueue, batch.RecvPktQueue, f.dropped, fetchStatus)
        && Lost == lost + f.dropped
      requires f.ok ==> f.dropped == f.rest == []
      modifies this, batch`RecvPktQueue
      ensures var r := Finish(f, GoodFront(w, |f.completed|, old(Processed)));
        && status == r.ok && Indicated == old(Indicated) + r.indicated
        && Recycled == old(Recycled) + r.recycled && Lost == lost + r.lost
      ensures batch.RecvPktQueue == [] && SyncCompletedPktsQueue == []
    {
      ghost var j, before := Processed, Indicated;
      status := UnloadCompletions(fetchStatus);
      ConcludeParts(w, f, j, SyncCompletedPktsQueue, Indicated, before, Lost, lost, status);
      if !status {
        Cleanup();
      } else {
        Lost := Lost + batch.RecvPktQueue;
        batch.RecvPktQueue := [];
      }
    }

    /** A whole batch. */
    method HandleBatch() returns (status: bool)
      requires SyncCompletedPktsQueue == []
      modifies this, batch`RecvPktQueue, batch`Attempts
      ensures var r := Batch(batch.rules, w, old(batch.RecvPktQueue), old(batch.Attempts), old(Reads), old(Processed));
        && status == r.ok && Indicated == old(Indicated) + r.indicated
        && Recycled == old(Recycled) + r.recycled && Lost == old(Lost) + r.lost
      ensures batch.RecvPktQueue == [] && SyncCompletedPktsQueue == []
    {
      ghost var f, lost := FetchSync(batch.rules, w, batch.RecvPktQueue, false, batch.Attempts, Reads), Lost;
      FetchSplits(batch.rules, w, batch.RecvPktQueue, false, batch.Attempts, Reads);
      var fetchStatus := FetchPackets();
      status := Conclude(fetchStatus, f, lost);
    }
  }

  function Refused(f: Fetched, n: nat): seq<RxPacket>
    requires n <= |f.completed|
  {
    if n < |f.completed| then [f.completed[n].packet] else []
  }

  /** The outcome, put together from what the steps leave. */
  lemma FinishParts(f: Fetched, n: nat)
    requires n <= |f.completed| && (f.ok ==> f.dropped == f.rest == [])
    ensures var r := Finish(f, n);
      && r.indicated == Packets(f.completed[..n])
      && r.ok == (if f.completed == [] then f.ok else n == |f.completed|)
      && (if r.ok then r.recycled == [] && r.lost == f.dropped + f.rest && Refused(f, n) == []
          else
            && r.recycled == f.rest + Packets(if n < |f.completed| then f.completed[n + 1..] else [])
            && r.lost == f.dropped + Refused(f, n))
  {
    PacketsSplit(f.completed, n);
    assert n == |f.completed| ==> f.completed[..n] == f.completed;
  }

  /** What remains to be done after processing the headers. */
  lemma ConcludeParts(w: World, f: Fetched, j: nat, queue: seq<Got>, indicated: seq<RxPacket>, before: seq<RxPacket>,
                      lost: seq<RxPacket>, lostBefore: seq<RxPacket>, status: bool)
    requires f.ok ==> f.dropped == f.rest == []
    requires Unloaded(w, f.completed, j, queue, indicated, before, lost, lostBefore + f.dropped)
    requires status == (if f.completed == [] then f.ok else GoodFront(w, |f.completed|, j) == |f.completed|)
    ensures var r := Finish(f, GoodFront(w, |f.completed|, j));
      && status == r.ok && indicated == before + r.indicated
      && (if status then queue == [] && r.recycled == [] && lost + f.rest == lostBefore + r.lost
          else r.recycled == f.rest + Packets(queue) && lost == lostBefore + r.lost)
  {
    var n := GoodFront(w, |f.completed|, j);
    FinishParts(f, n);
    Regroup(lostBefore, f.dropped, Refused(f, n));
    Regroup(lostBefore, f.dropped, f.rest);
  }

  /** Having processed `i` packets, `queue` is left and their packets were indicated. */
  ghost predicate Unloading(w: World, gots: seq<Got>, j: nat, i: nat, queue: seq<Got>, indicated: seq<RxPacket>,
      before: seq<RxPacket>) {
    && i <= |gots| && queue == gots[i..] && indicated == before + Packets(gots[..i])
    && GoodFront(w, |gots|, j) == i + GoodFront(w, |gots| - i, j + i)
  }

  /** Processing has stopped at the first refused header or the end. */
  ghost predicate Unloaded(w: World, gots: seq<Got>, j: nat, queue: seq<Got>, indicated: seq<RxPacket>,
      before: seq<RxPacket>, lost: seq<RxPacket>, lostBefore: seq<RxPacket>) {
    var n := GoodFront(w, |gots|, j);
    && indicated == before + Packets(gots[..n])
    && queue == (if n < |gots| then gots[n + 1..] else [])
    && lost == (if n < |gots| then lostBefore + [gots[n].packet] else lostBefore)
  }

  lemma UnloadStarts(w: World, gots: seq<Got>, j: nat, before: seq<RxPacket>)
    ensures Unloading(w, gots, j, 0, gots, before, before)
  {
    assert gots[0..] == gots && gots[..0] == [];
    assert before + [] == before;
  }

  lemma UnloadStep(w: World, gots: seq<Got>, j: nat, i: nat, queue: seq<Got>, indicated: seq<RxPacket>,
      before: seq<RxPacket>, lost: seq<RxPacket>)
    requires Unloading(w, gots, j, i, queue, indicated, before) && queue != []
    ensures if w.good(j + i) then Unloading(w, gots, j, i + 1, queue[1..], indicated + [queue[0].packet], before)
      else
        && Unloaded(w, gots, j, queue[1..], indicated, before, lost + [queue[0].packet], lost)
        && GoodFront(w, |gots|, j) < |gots|
  {
    PacketsGrow(gots, i);
    Regroup(before, Packets(gots[..i]), [gots[i].packet]);
  }

  lemma UnloadEnds(w: World, gots: seq<Got>, j: nat, i: nat, indicated: seq<RxPacket>, before: seq<RxPacket>,
      lost: seq<RxPacket>)
    requires Unloading(w, gots, j, i, [], indicated, before)
    ensures Unloaded(w, gots, j, [], indicated, before, lost, lost) && i == |gots| == GoodFront(w, |gots|, j)
  {
  }

  /** Having queued `sofar`, fetching `more` completes `all`. */
  ghost predicate Fetching(sofar: seq<Got>, more: Fetched, all: Fetched) {
    all == more.(completed := sofar + more.completed)
  }

  lemma FetchingStep(sofar: seq<Got>, rules: RecvRules, w: World, q: seq<RxPacket>, partial: bool, k: nat, n: nat,
      all: Fetched)
    requires q != [] && Fetching(sofar, FetchSync(rules, w, q, partial, k, n), all)
    ensures var p := PassOf(rules, w, q, partial, k, n);
      if p.ok then Fetching(sofar + p.gots, FetchSync(rules, w, p.rest, p.partial, p.attempts, p.submitted), all)
      else all == Fetched(sofar + p.gots, p.rest, p.dropped, false)
  {
    var p := PassOf(rules, w, q, partial, k, n);
    if p.ok { Regroup(sofar, p.gots, FetchSync(rules, w, p.rest, p.partial, p.attempts, p.submitted).completed); }
  }

  lemma PacketsGrow(gots: seq<Got>, i: nat)
    requires i < |gots|
    ensures Packets(gots[..i + 1]) == Packets(gots[..i]) + [gots[i].packet]
  {
    assert gots[..i + 1] == gots[..i] + [gots[i]];
    PacketsConcat(gots[..i], [gots[i]]);
    OneGot(gots[i]);
  }

  lemma {:induction false} PacketsTake(gots: seq<Got>, n: nat)
    requires n <= |gots|
    ensures Packets(gots[..n]) == Packets(gots)[..n]
  {
    if n > 0 {
      PacketsTake(gots[1..], n - 1);
      assert gots[..n][1..] == gots[1..][..n - 1];
    }
  }

  lemma {:induction false} PacketsDrop(gots: seq<Got>, n: nat)
    requires n <= |gots|
    ensures Packets(gots[n..]) == Packets(gots)[n..]
  {
    if n > 0 {
      PacketsDrop(gots[1..], n - 1);
      assert gots[n..] == gots[1..][n - 1..];
    } else {
      assert gots[n..] == gots;
    }
  }

  /** The packets before, at and behind a position. */
  lemma PacketsSplit(gots: seq<Got>, n: nat)
    requires n <= |gots|
    ensures Packets(gots[..n]) == Packets(gots)[..n]
    ensures n < |gots| ==> Packets(gots)[n] == gots[n].packet && Packets(gots[n + 1..]) == Packets(gots)[n + 1..]
  {
    PacketsTake(gots, n);
    if n < |gots| {
      PacketsDrop(gots, n);
      PacketsDrop(gots, n + 1);
    }
  }
}
