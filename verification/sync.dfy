/** Cash sales made during an outage: a queue on the device, a network that loses requests and
    responses, and a server that answers a repeated key with the sale it already has. */
module OfflineSync {
  import opened Outcome
  import opened Sums
  import opened Allocation
  import opened Lots
  import opened StockEngine
  import opened Fefo
  import opened Checkout
  import opened Ledger
  import opened LedgerInvariant
  import opened CartPlans
  import opened PaymentSteps
  import opened Holds
  import opened OfflinePlan
  import opened TillService

  datatype Net = RequestLost | ResponseLost | Delivered

  /** One walk over the queue, from the list it read when it began. `horizon` counts the sales that had
      been queued by then. */
  datatype Walker = Walker(pending: seq<nat>, horizon: nat)

  /** `keys` are all the keys ever minted, in the order the sales were rung up; `queue` the rows still on
      the device. Several walkers stand for several tabs or an interrupted page. */
  datatype World = World(keys: seq<string>, queue: set<nat>, server: State, walkers: seq<Walker>)

  function Listed(queue: set<nat>, n: nat): (r: seq<nat>) {
    if n == 0 then [] else Listed(queue, n - 1) + (if n - 1 in queue then [n - 1] else [])
  }

  /** The server has sale number `i` of the device. */
  predicate Has(sales: seq<Sale>, keys: seq<string>, i: nat) { i < |keys| && HasKey(sales, keys[i]) }

  predicate Accepted(w: World, i: nat) { Has(w.server.sales, w.keys, i) }

  datatype Act =
    | Enqueue(key: string)
    | Begin
    | Post(walker: nat, net: Net, cart: seq<CartLine>, terms: StoreTerms, now: int)
    | Elsewhere(event: Event)

  /** Keys are minted fresh, and nobody else's checkout uses a key of this device. */
  predicate Enabled(w: World, a: Act) {
    match a
    case Enqueue(key) => key !in w.keys && !HasKey(w.server.sales, key)
    case Elsewhere(e) => e.EvSale? && e.key.Some? ==> e.key.value !in w.keys
    case _ => true
  }

  function Reply(server: State, key: string, cart: seq<CartLine>, terms: StoreTerms, now: int): Result<State> {
    CreateSale(server, cart, terms, true, true, Some(key), now)
  }

  function ServerAfter(server: State, reply: Result<State>, net: Net): State {
    if net.RequestLost? || reply.Err? then server else reply.value
  }

  /** Success removes the row and goes on; anything else marks the row, which puts it back if another
      walker had removed it, and stops the walk. */
  function Next(w: World, a: Act): World {
    match a
    case Enqueue(key) => w.(keys := w.keys + [key], queue := w.queue + {|w.keys|})
    case Begin => w.(walkers := w.walkers + [Walker(Listed(w.queue, |w.keys|), |w.keys|)])
    case Elsewhere(e) => w.(server := Exec(w.server, e))
    case Post(k, net, cart, terms, now) =>
      if k >= |w.walkers| || w.walkers[k].pending == [] || w.walkers[k].pending[0] >= |w.keys| then w
      else
        var walker, i := w.walkers[k], w.walkers[k].pending[0];
        var reply := Reply(w.server, w.keys[i], cart, terms, now);
        var server := ServerAfter(w.server, reply, net);
        if net.Delivered? && reply.Ok?
        then World(w.keys, w.queue - {i}, server, w.walkers[k := walker.(pending := walker.pending[1..])])
        else World(w.keys, w.queue + {i}, server, w.walkers[k := walker.(pending := [])])
  }

  // ---- The server never forgets a key ----

  predicate KeysKept(a: seq<Sale>, b: seq<Sale>) {
    |a| <= |b| && forall i :: 0 <= i < |a| ==> b[i].key == a[i].key
  }

  predicate SameKeys(a: seq<Sale>, b: seq<Sale>) { KeysKept(a, b) && |a| == |b| }

  lemma RefundKeepsKeys(s: State, rid: nat)
    ensures FinalizeRefund(s, rid).Ok? ==> SameKeys(s.sales, FinalizeRefund(s, rid).value.sales)
    ensures AbortRefund(s, rid).Ok? ==> SameKeys(s.sales, AbortRefund(s, rid).value.sales)
  {
  }

  lemma ReconcileKeepsKeys(s: State, id: nat, answer: StripeAnswer)
    ensures ReconcileRefund(s, id, answer).Ok? ==> SameKeys(s.sales, ReconcileRefund(s, id, answer).value.sales)
  {
    if id < |s.sales| && s.sales[id].pendingRefund.Some? { RefundKeepsKeys(s, s.sales[id].pendingRefund.value); }
  }

  /** Whatever else happens on the server, rows keep their keys, and only a checkout adds one. */
  lemma StepKeepsKeys(s: State, e: Event)
    requires !e.EvSale?
    ensures SameKeys(s.sales, Exec(s, e).sales)
  {
    match e
    case EvFinalizeRefund(rid) => RefundKeepsKeys(s, rid);
    case EvAbortRefund(rid) => RefundKeepsKeys(s, rid);
    case EvReconcile(id, answer) => ReconcileKeepsKeys(s, id, answer);
    case _ =>
  }

  /** A checkout adds at most its own key, once, at the end. */
  lemma CheckoutKeys(s: State, cart: seq<CartLine>, terms: StoreTerms, cash: bool, offline: bool,
                     key: Option<string>, now: int)
    ensures var r := CreateSale(s, cart, terms, cash, offline, key, now);
            r.Ok? ==>
              && KeysKept(s.sales, r.value.sales)
              && (r.value == s || (|r.value.sales| == |s.sales| + 1 && r.value.sales[|s.sales|].key == key))
              && (key.Some? ==> HasKey(r.value.sales, key.value) && (HasKey(s.sales, key.value) ==> r.value == s))
  {
    var r := CreateSale(s, cart, terms, cash, offline, key, now);
    if r.Ok? && r.value != s && key.Some? { assert r.value.sales[|s.sales|].key == key; }
  }

  lemma HasKeyKept(a: seq<Sale>, b: seq<Sale>, key: string)
    requires KeysKept(a, b) && HasKey(a, key)
    ensures HasKey(b, key)
  {
    var i :| 0 <= i < |a| && a[i].key == Some(key);
    assert b[i].key == Some(key);
  }

  // ---- The invariant ----

  predicate KeysDistinct(w: World) { forall i, j :: 0 <= i < j < |w.keys| ==> w.keys[i] != w.keys[j] }

  /** No sale is lost: it is on the device or on the server. */
  predicate NothingLost(w: World) {
    && (forall i :: i in w.queue ==> i < |w.keys|)
    && (forall i: nat :: i < |w.keys| ==> i in w.queue || Accepted(w, i))
  }

  /** Row `a` of the server is sale number `i` of the device. */
  predicate IsSale(sales: seq<Sale>, keys: seq<string>, a: nat, i: nat) {
    a < |sales| && i < |keys| && sales[a].key == Some(keys[i])
  }

  /** The server took the sales in the order they were rung up, without gaps. */
  ghost predicate InOrderOn(sales: seq<Sale>, keys: seq<string>) {
    && (forall i: nat, j: nat :: i < j && Has(sales, keys, j) ==> Has(sales, keys, i))
    && (forall a: nat, b: nat, i: nat, j: nat :: a < b && IsSale(sales, keys, a, i) && IsSale(sales, keys, b, j) ==>
       i < j)
  }

  predicate Ascending(xs: seq<nat>) { forall i, j :: 0 <= i < j < |xs| ==> xs[i] < xs[j] }

  /** What a walker no longer has before it, the server has. */
  predicate WalkerOk(sales: seq<Sale>, keys: seq<string>, walker: Walker) {
    && walker.horizon <= |keys| && Ascending(walker.pending)
    && (forall i :: i in walker.pending ==> i < walker.horizon)
    && (walker.pending != [] ==>
          forall j: nat :: j < walker.horizon && j !in walker.pending ==> Has(sales, keys, j))
  }

  ghost predicate SyncOk(w: World) {
    && KeysDistinct(w) && KeysOk(w.server.sales) && NothingLost(w) && InOrderOn(w.server.sales, w.keys)
    && forall k :: 0 <= k < |w.walkers| ==> WalkerOk(w.server.sales, w.keys, w.walkers[k])
  }

  lemma {:induction false} ListedIs(queue: set<nat>, n: nat)
    ensures Ascending(Listed(queue, n))
    ensures forall i: nat :: i in Listed(queue, n) <==> i < n && i in queue
  {
    if n > 0 {
      ListedIs(queue, n - 1);
      var init := Listed(queue, n - 1);
      assert forall i :: 0 <= i < |init| ==> init[i] in init;
    }
  }

  lemma WalkersKept(a: World, b: World)
    requires SyncOk(a) && a.keys <= b.keys
    requires forall i: nat :: i < |a.keys| && Accepted(a, i) ==> Accepted(b, i)
    ensures forall k :: 0 <= k < |a.walkers| ==> WalkerOk(b.server.sales, b.keys, a.walkers[k])
  {
    forall k | 0 <= k < |a.walkers| ensures WalkerOk(b.server.sales, b.keys, a.walkers[k]) {
      var walker := a.walkers[k];
      assert WalkerOk(a.server.sales, a.keys, walker);
      if walker.pending != [] {
        forall j: nat | j < walker.horizon && j !in walker.pending ensures Accepted(b, j) { assert Accepted(a, j); }
      }
    }
  }

  lemma EnqueueKeeps(w: World, key: string)
    requires SyncOk(w) && Enabled(w, Enqueue(key))
    ensures SyncOk(Next(w, Enqueue(key)))
  {
    var t := Next(w, Enqueue(key));
    var sales := w.server.sales;
    forall i: nat ensures Has(sales, t.keys, i) <==> Has(sales, w.keys, i) {}
    assert forall a :: 0 <= a < |sales| ==> sales[a].key != Some(key);
    forall a: nat, i: nat ensures IsSale(sales, t.keys, a, i) <==> IsSale(sales, w.keys, a, i) {}
    WalkersKept(w, t);
  }

  lemma BeginKeeps(w: World)
    requires SyncOk(w)
    ensures SyncOk(Next(w, Begin))
  {
    var t := Next(w, Begin);
    ListedIs(w.queue, |w.keys|);
    forall i: nat | i < |w.keys| ensures Accepted(t, i) <==> Accepted(w, i) {}
    WalkersKept(w, t);
    assert WalkerOk(t.server.sales, t.keys, Walker(Listed(w.queue, |w.keys|), |w.keys|));
  }

  /** Server work that adds no key of the device. */
  lemma ServerKeeps(w: World, server: State)
    requires SyncOk(w) && KeysKept(w.server.sales, server.sales) && KeysOk(server.sales)
    requires forall a :: |w.server.sales| <= a < |server.sales| && server.sales[a].key.Some? ==>
             server.sales[a].key.value !in w.keys
    ensures SyncOk(w.(server := server))
  {
    var t := w.(server := server);
    forall i: nat | i < |w.keys| ensures Has(server.sales, w.keys, i) <==> Has(w.server.sales, w.keys, i) {
      if Accepted(w, i) { HasKeyKept(w.server.sales, server.sales, w.keys[i]); }
      if Accepted(t, i) {
        var a :| 0 <= a < |server.sales| && server.sales[a].key == Some(w.keys[i]);
        assert w.server.sales[a].key == Some(w.keys[i]);
      }
    }
    WalkersKept(w, t);
    assert NothingLost(t);
    forall a: nat, b: nat, i: nat, j: nat
      | a < b && IsSale(server.sales, w.keys, a, i) && IsSale(server.sales, w.keys, b, j)
      ensures i < j
    {
      assert IsSale(w.server.sales, w.keys, a, i) && IsSale(w.server.sales, w.keys, b, j);
    }
  }

  lemma ElsewhereKeeps(w: World, e: Event)
    requires SyncOk(w) && Enabled(w, Elsewhere(e))
    ensures SyncOk(Next(w, Elsewhere(e)))
  {
    if e.EvSale? {
      CheckoutKeys(w.server, e.cart, e.terms, e.cash, e.offline, e.key, e.now);
    } else {
      StepKeepsKeys(w.server, e);
    }
    var server := Exec(w.server, e);
    assert KeysKept(w.server.sales, server.sales);
    KeysStayDistinct(w.server, server, e);
    ServerKeeps(w, server);
  }

  lemma KeysStayDistinct(s: State, t: State, e: Event)
    requires KeysOk(s.sales) && t == Exec(s, e)
    ensures KeysOk(t.sales)
  {
    if e.EvSale? {
      CheckoutKeys(s, e.cart, e.terms, e.cash, e.offline, e.key, e.now);
      if t.sales != s.sales { LastKeyNew(s.sales, t.sales, e.key); }
    } else {
      StepKeepsKeys(s, e);
    }
  }

  lemma LastKeyNew(a: seq<Sale>, b: seq<Sale>, key: Option<string>)
    requires KeysOk(a) && KeysKept(a, b) && |b| == |a| + 1 && b[|a|].key == key
    requires key.Some? ==> !HasKey(a, key.value)
    ensures KeysOk(b)
  {
    forall i, j | 0 <= i < j < |b| && b[i].key.Some? ensures b[i].key != b[j].key {
      if j < |a| { assert a[i].key != a[j].key; } else { assert a[i].key == b[i].key; }
    }
  }

  /** The head of a walk reaches the server: either its key is there already and nothing changes, or it
      is the first sale the server does not have, and it becomes the last one it has. */
  lemma ArrivalKeeps(w: World, k: nat, cart: seq<CartLine>, terms: StoreTerms, now: int)
    requires SyncOk(w) && k < |w.walkers| && w.walkers[k].pending != []
    ensures var i := w.walkers[k].pending[0];
            i < |w.keys| && var reply := Reply(w.server, w.keys[i], cart, terms, now);
            reply.Ok? ==> SyncOk(w.(server := reply.value)) && HasKey(reply.value.sales, w.keys[i])
                          && (Accepted(w, i) ==> reply.value == w.server)
  {
    var i := w.walkers[k].pending[0];
    assert WalkerOk(w.server.sales, w.keys, w.walkers[k]) && i in w.walkers[k].pending;
    var reply := Reply(w.server, w.keys[i], cart, terms, now);
    CheckoutKeys(w.server, cart, terms, true, true, Some(w.keys[i]), now);
    if reply.Ok? && reply.value != w.server {
      assert !Accepted(w, i);
      EarlierAccepted(w, w.walkers[k]);
      LastKeyNew(w.server.sales, reply.value.sales, Some(w.keys[i]));
      TakeNext(w, reply.value, i);
    } else if reply.Ok? {
      assert w.(server := reply.value) == w;
    }
  }

  lemma EarlierAccepted(w: World, walker: Walker)
    requires SyncOk(w) && WalkerOk(w.server.sales, w.keys, walker) && walker.pending != []
    ensures forall j: nat :: j < walker.pending[0] ==> Accepted(w, j)
  {
    assert walker.pending[0] in walker.pending;
    assert forall n :: 0 <= n < |walker.pending| ==> walker.pending[0] <= walker.pending[n];
  }

  lemma TakeNext(w: World, server: State, i: nat)
    requires SyncOk(w) && i < |w.keys| && !Accepted(w, i) && forall j: nat :: j < i ==> Accepted(w, j)
    requires KeysKept(w.server.sales, server.sales) && |server.sales| == |w.server.sales| + 1
    requires server.sales[|w.server.sales|].key == Some(w.keys[i]) && KeysOk(server.sales)
    ensures SyncOk(w.(server := server))
  {
    var t, n := w.(server := server), |w.server.sales|;
    forall j: nat | j < |w.keys| ensures Has(server.sales, w.keys, j) <==> Has(w.server.sales, w.keys, j) || j == i {
      if Accepted(w, j) { HasKeyKept(w.server.sales, server.sales, w.keys[j]); }
      if j == i { assert server.sales[n].key == Some(w.keys[i]); }
      if Accepted(t, j) && j != i {
        var a :| 0 <= a < |server.sales| && server.sales[a].key == Some(w.keys[j]);
        assert a < n && w.server.sales[a].key == Some(w.keys[j]);
      }
    }
    WalkersKept(w, t);
    assert NothingLost(t);
    forall x: nat, y: nat | x < y && Has(server.sales, w.keys, y) ensures Has(server.sales, w.keys, x) {
      if y == i { assert Accepted(w, x); }
    }
    forall a: nat, b: nat, x: nat, y: nat
      | a < b && IsSale(server.sales, w.keys, a, x) && IsSale(server.sales, w.keys, b, y)
      ensures x < y
    {
      assert IsSale(w.server.sales, w.keys, a, x) && Has(w.server.sales, w.keys, x);
      if b < n { assert IsSale(w.server.sales, w.keys, b, y); }
    }
  }

  lemma MoveOn(w: World, k: nat, queue: set<nat>, pending: seq<nat>)
    requires SyncOk(w) && k < |w.walkers| && w.walkers[k].pending != []
    requires var i := w.walkers[k].pending[0];
             (Accepted(w, i) && queue == w.queue - {i} && pending == w.walkers[k].pending[1..])
             || (queue == w.queue + {i} && pending == [])
    ensures SyncOk(World(w.keys, queue, w.server, w.walkers[k := w.walkers[k].(pending := pending)]))
  {
    var walker, i := w.walkers[k], w.walkers[k].pending[0];
    var next := walker.(pending := pending);
    var t := World(w.keys, queue, w.server, w.walkers[k := next]);
    assert WalkerOk(w.server.sales, w.keys, walker) && i in walker.pending;
    forall j: nat | j < |w.keys| ensures Accepted(t, j) <==> Accepted(w, j) {}
    WalkersKept(w, t);
    assert WalkerOk(t.server.sales, t.keys, next) by {
      if pending != [] {
        assert walker.pending == [i] + pending;
      }
      assert forall x :: x in pending ==> x in walker.pending;
    }
  }

  lemma PostKeeps(w: World, k: nat, net: Net, cart: seq<CartLine>, terms: StoreTerms, now: int)
    requires SyncOk(w)
    ensures SyncOk(Next(w, Post(k, net, cart, terms, now)))
  {
    if k < |w.walkers| && w.walkers[k].pending != [] && w.walkers[k].pending[0] < |w.keys| {
      var walker, i := w.walkers[k], w.walkers[k].pending[0];
      ArrivalKeeps(w, k, cart, terms, now);
      var reply := Reply(w.server, w.keys[i], cart, terms, now);
      var mid := w.(server := ServerAfter(w.server, reply, net));
      assert SyncOk(mid) by { if mid.server == w.server { assert mid == w; } }
      if net.Delivered? && reply.Ok? {
        MoveOn(mid, k, w.queue - {i}, walker.pending[1..]);
      } else {
        MoveOn(mid, k, w.queue + {i}, []);
      }
    }
  }

  lemma ActKeeps(w: World, a: Act)
    requires SyncOk(w) && Enabled(w, a)
    ensures SyncOk(Next(w, a))
  {
    match a
    case Enqueue(key) => EnqueueKeeps(w, key);
    case Begin => BeginKeeps(w);
    case Post(k, net, cart, terms, now) => PostKeeps(w, k, net, cart, terms, now);
    case Elsewhere(e) => ElsewhereKeeps(w, e);
  }

  // ---- Runs ----

  function RunSync(w: World, acts: seq<Act>): World {
    if acts == [] then w else Next(RunSync(w, acts[..|acts| - 1]), acts[|acts| - 1])
  }

  predicate AllEnabled(w: World, acts: seq<Act>) {
    forall k :: 0 <= k < |acts| ==> Enabled(RunSync(w, acts[..k]), acts[k])
  }

  /** However often the network fails and whatever walks overlap: no sale is ever lost, no key has two
      sales on the server, and the server has the sales of the device as a prefix of its queue, in order. */
  lemma {:induction false} SyncSafe(w: World, acts: seq<Act>)
    requires SyncOk(w) && AllEnabled(w, acts)
    ensures SyncOk(RunSync(w, acts))
  {
    if acts != [] {
      var init := acts[..|acts| - 1];
      forall k | 0 <= k < |init| ensures Enabled(RunSync(w, init[..k]), init[k]) { assert init[..k] == acts[..k]; }
      SyncSafe(w, init);
      ActKeeps(RunSync(w, init), acts[|acts| - 1]);
    }
  }

  /** One basket, one decrement: however a key is posted again, a server that has it does not move. */
  lemma RepostMovesNothing(w: World, k: nat, net: Net, cart: seq<CartLine>, terms: StoreTerms, now: int)
    requires SyncOk(w) && k < |w.walkers| && w.walkers[k].pending != [] && w.walkers[k].pending[0] < |w.keys|
    requires Accepted(w, w.walkers[k].pending[0])
    ensures Next(w, Post(k, net, cart, terms, now)).server == w.server
  {
    ArrivalKeeps(w, k, cart, terms, now);
  }

  // ---- What the server does not promise ----

  /** The whole answer to a queued sale: taken exactly when the server has it already, or its lines are
      well formed, its products known, its money acceptable and each line served. */
  lemma QueuedSaleTaken(s: State, key: string, cart: seq<CartLine>, terms: StoreTerms, now: int)
    ensures Reply(s, key, cart, terms, now).Ok? <==>
              && cart != []
              && (HasKey(s.sales, key)
                  || (&& CartOk(cart) && Price(cart, terms).Ok?
                      && (forall i :: 0 <= i < |cart| ==> cart[i].product < |s.shelf.products|)
                      && (forall i: nat :: i < |cart| ==>
                         LineServed(s.shelf.lots, cart, ZeroTaken(|s.shelf.lots|), i))))
  {
    if CartOk(cart) { OfflineServed(s.shelf.lots, cart, ZeroTaken(|s.shelf.lots|)); }
    hide LineServed, PlanCart, Price, CartOk;
    if Reply(s, key, cart, terms, now).Ok? && !HasKey(s.sales, key) {
      CreateGranted(s, cart, terms, true, true, Some(key), now);
    }
    if cart != [] && CartOk(cart) && Price(cart, terms).Ok?
      && PlanCart(s.shelf.lots, cart, ZeroTaken(|s.shelf.lots|), true).Ok?
       && forall i :: 0 <= i < |cart| ==> cart[i].product < |s.shelf.products| {
      CheckoutGoes(s, cart, terms, true, true, Some(key), now);
    }
  }

  /** A sale the server refuses stays at the head of the queue and ends the walk: nothing behind it is
      sent by that walk. */
  lemma RefusalBlocks(w: World, k: nat, net: Net, cart: seq<CartLine>, terms: StoreTerms, now: int)
    requires SyncOk(w) && k < |w.walkers| && w.walkers[k].pending != [] && w.walkers[k].pending[0] < |w.keys|
    requires Reply(w.server, w.keys[w.walkers[k].pending[0]], cart, terms, now).Err?
    ensures var t := Next(w, Post(k, net, cart, terms, now));
            && t.server == w.server && w.walkers[k].pending[0] in t.queue && t.walkers[k].pending == []
            && forall again: Act :: again.Post? && again.walker == k ==> Next(t, again) == t
  {
  }

  // ---- The loop on the device ----

  /** What becomes of one post: the network's part, and the cart as the server prices it then. */
  datatype Attempt = Attempt(net: Net, cart: seq<CartLine>, terms: StoreTerms, now: int)

  function PostsOf(tries: seq<Attempt>): seq<Act> {
    if tries == [] then []
    else
      var a := tries[|tries| - 1];
      PostsOf(tries[..|tries| - 1]) + [Post(0, a.net, a.cart, a.terms, a.now)]
  }

  lemma NoPosts(w: World, tries: seq<Attempt>)
    ensures RunSync(w, PostsOf(tries[..0])) == w
  {
  }

  lemma OneMorePost(w: World, tries: seq<Attempt>, i: nat)
    requires i < |tries|
    ensures RunSync(w, PostsOf(tries[..i + 1]))
         == Next(RunSync(w, PostsOf(tries[..i])), Post(0, tries[i].net, tries[i].cart, tries[i].terms, tries[i].now))
  {
    assert tries[..i + 1][..i] == tries[..i];
    var posts := PostsOf(tries[..i]);
    var last := Post(0, tries[i].net, tries[i].cart, tries[i].terms, tries[i].now);
    assert (posts + [last])[..|posts|] == posts;
  }

  class Device {
    const till: Till
    var keys: seq<string>
    var queue: set<nat>

    constructor (till: Till)
      ensures this.till == till && keys == [] && queue == {}
    {
      this.till := till;
      keys, queue := [], {};
    }

    ghost function Seen(walkers: seq<Walker>): World
      reads this, till
    {
      World(keys, queue, till.Books(), walkers)
    }

    /** One entry: posted if the request gets out, removed if the answer comes back and is a yes. */
    method ReplayOne(i: nat, attempt: Attempt) returns (ok: bool)
      requires i < |keys|
      modifies `queue, till
      ensures var reply := Reply(old(till.Books()), keys[i], attempt.cart, attempt.terms, attempt.now);
              && till.Books() == ServerAfter(old(till.Books()), reply, attempt.net)
              && ok == (attempt.net.Delivered? && reply.Ok?)
      ensures queue == if ok then old(queue) - {i} else old(queue) + {i}
    {
      var refusal := Some(0);
      if !attempt.net.RequestLost? {
        refusal := till.CreateSale(attempt.cart, attempt.terms, true, true, Some(keys[i]), attempt.now);
      }
      ok := refusal.None? && attempt.net.Delivered?;
      queue := if ok then queue - {i} else queue + {i};
    }

    /** The entries in order, up to the first that fails. */
    method Walk(ghost began: World, list: seq<nat>, tries: seq<Attempt>)
      returns (synced: nat, failed: nat, ghost walkers: seq<Walker>)
      requires |list| <= |tries| && Ascending(list) && forall i :: i in list ==> i < |keys|
      requires Seen([Walker(list, |keys|)]) == began && forall i :: i in queue <==> i in list
      modifies `queue, till
      ensures synced + failed <= |list| && failed <= 1
      ensures Seen(walkers) == RunSync(began, PostsOf(tries[..synced + failed]))
      ensures failed == 0 ==> queue == {}
    {
      hide RunSync, PostsOf, Next;
      synced, failed := 0, 0;
      NoPosts(began, tries);
      walkers := [Walker(list, |keys|)];
      while synced < |list| && failed == 0
        invariant 0 <= synced + failed <= |list| && failed <= 1
        invariant failed == 0 ==> walkers == [Walker(list[synced..], |keys|)]
        invariant Seen(walkers) == RunSync(began, PostsOf(tries[..synced + failed]))
        invariant failed == 0 ==> forall i :: i in queue <==> i in list[synced..]
        decreases |list| - synced - failed
      {
        assert list[synced] in list;
        var ok;
        walkers, ok := OneReplay(began, walkers, list, synced, tries);
        if ok { synced := synced + 1; } else { failed := 1; }
      }
    }

    /** The walk is a run of the protocol: it begins, posts its entries in order, and stops at the first
        that fails. A walk without failure empties the queue. */
    method SyncQueuedSales(tries: seq<Attempt>) returns (synced: nat, failed: nat, ghost walkers: seq<Walker>)
      requires |tries| >= |keys| && forall i :: i in queue ==> i < |keys|
      modifies `queue, till
      ensures synced + failed <= |tries| && failed <= 1
      ensures Seen(walkers) == RunSync(Next(old(Seen([])), Begin), PostsOf(tries[..synced + failed]))
      ensures failed == 0 ==> queue == {}
    {
      var list := Listed(queue, |keys|);
      ListedIs(queue, |keys|);
      ListedShort(queue, |keys|);
      assert [] + [Walker(list, |keys|)] == [Walker(list, |keys|)];
      synced, failed, walkers := Walk(Seen([Walker(list, |keys|)]), list, tries);
    }

    method OneReplay(ghost began: World, ghost walkers: seq<Walker>, list: seq<nat>, n: nat, tries: seq<Attempt>)
      returns (ghost after: seq<Walker>, ok: bool)
      requires n < |list| && n < |tries| && list[n] < |keys| && Ascending(list)
      requires walkers == [Walker(list[n..], |keys|)] && Seen(walkers) == RunSync(began, PostsOf(tries[..n]))
      modifies `queue, till
      ensures Seen(after) == RunSync(began, PostsOf(tries[..n + 1]))
      ensures ok ==> after == [Walker(list[n + 1..], |keys|)] && queue == old(queue) - {list[n]}
      ensures ok ==> forall i :: i in list[n + 1..] <==> i in list[n..] && i != list[n]
    {
      StepOver(list, n);
      OneMorePost(began, tries, n);
      PostIs(Seen(walkers), list[n..], |keys|, tries[n]);
      ok := ReplayOne(list[n], tries[n]);
      after := [Walker(if ok then list[n + 1..] else [], |keys|)];
    }
  }

  lemma PostIs(w: World, pending: seq<nat>, horizon: nat, a: Attempt)
    requires w.walkers == [Walker(pending, horizon)] && pending != [] && pending[0] < |w.keys|
    ensures var reply := Reply(w.server, w.keys[pending[0]], a.cart, a.terms, a.now);
            var ok := a.net.Delivered? && reply.Ok?;
            Next(w, Post(0, a.net, a.cart, a.terms, a.now))
            == World(w.keys, if ok then w.queue - {pending[0]} else w.queue + {pending[0]},
                     ServerAfter(w.server, reply, a.net), [Walker(if ok then pending[1..] else [], horizon)])
  {
  }

  lemma StepOver(list: seq<nat>, k: nat)
    requires k < |list| && Ascending(list)
    ensures list[k..][1..] == list[k + 1..] && list[k..][0] == list[k]
    ensures forall i :: i in list[k + 1..] <==> i in list[k..] && i != list[k]
  {
    assert list[k..] == [list[k]] + list[k + 1..];
  }

  lemma {:induction false} ListedShort(queue: set<nat>, n: nat)
    ensures |Listed(queue, n)| <= n
  {
    if n > 0 { ListedShort(queue, n - 1); }
  }
}
