/** `next_unused` and `cluster_config::resize`: greedy growth of a cluster. */
module Resize {
  import opened Basics
  import opened Clusters

  // ---------------------------------------------------------------- ports in use

  function PortsOn(ws: seq<PeerId>, ip: Ipv4): seq<Port> {
    if ws == [] then [] else
      PortsOn(ws[..|ws| - 1], ip) + if ws[|ws| - 1].ipv4 == ip then [ws[|ws| - 1].port] else []
  }

  function Load(ws: seq<PeerId>, ip: Ipv4): nat { |PortsOn(ws, ip)| }

  lemma PortsStep(ws: seq<PeerId>, w: PeerId, ip: Ipv4)
    ensures PortsOn(ws + [w], ip) == PortsOn(ws, ip) + if w.ipv4 == ip then [w.port] else []
  {
    assert (ws + [w])[..|ws + [w]| - 1] == ws;
  }

  lemma {:induction false} PortsAreUsed(ws: seq<PeerId>, i: nat)
    requires i < |ws|
    ensures ws[i].port in PortsOn(ws, ws[i].ipv4)
    decreases |ws|
  {
    if i < |ws| - 1 {
      PortsAreUsed(ws[..|ws| - 1], i);
    }
  }

  // ---------------------------------------------------------------- next_unused

  function Min(used: seq<Port>): (m: Port)
    requires used != []
    ensures m in used && forall y :: y in used ==> m <= y
  {
    if |used| == 1 then used[0] else
      var rest := used[..|used| - 1];
      var m := Min(rest);
      assert forall y :: y in used ==> y in rest || y == used[|used| - 1];
      if used[|used| - 1] < m then used[|used| - 1] else m
  }

  /** How many increments of a `uint16_t` lead from just above `m` to `y`. */
  function Ahead(m: Port, y: Port): (d: int)
    ensures 0 <= d < 0x1_0000
  {
    if y > m then y - m - 1 else y - m - 1 + 0x1_0000
  }

  function Increment(x: Port): Port {
    if x == 0xFFFF then 0 else x + 1
  }

  /** The first port above the least one in use that is free, wrapping around. */
  ghost predicate FirstFree(used: seq<Port>, x: Port)
    requires used != []
  {
    x !in used && forall y: Port :: Ahead(Min(used), y) < Ahead(Min(used), x) ==> y in used
  }

  /** `m` is the least port in use, `x` is free, and every port that the search from above `m`
      passes on its way to `x`, over the top and from zero on if need be, is in use. */
  ghost predicate NextAbove(used: seq<Port>, m: Port, x: Port) {
    && m in used && (forall y :: y in used ==> m <= y)
    && x !in used
    && if m < x then forall y: Port :: m < y < x ==> y in used
       else forall y: Port :: m < y || y < x ==> y in used
  }

  lemma FirstFreeIsNext(used: seq<Port>, x: Port)
    requires used != [] && FirstFree(used, x)
    ensures NextAbove(used, Min(used), x)
  {
    var m := Min(used);
    forall y: Port | if m < x then m < y < x else m < y || y < x ensures y in used {
      assert Ahead(m, y) < Ahead(m, x);
    }
  }

  method NextUnused(used: seq<Port>) returns (x: Port)
    requires used != [] && exists p: Port :: p !in used
    ensures FirstFree(used, x)
    ensures exists m: Port :: NextAbove(used, m, x)
  {
    var m := Min(used);
    x := Increment(m);
    ghost var free: Port :| free !in used;
    while x in used
      invariant forall y: Port :: Ahead(m, y) < Ahead(m, x) ==> y in used
      decreases 0x1_0000 - Ahead(m, x)
    {
      assert forall y: Port :: Ahead(m, y) == Ahead(m, x) ==> y == x;
      assert Ahead(m, x) <= Ahead(m, free);
      x := Increment(x);
    }
    FirstFreeIsNext(used, x);
  }

  lemma FirstFreeUnique(used: seq<Port>, x: Port, y: Port)
    requires used != [] && FirstFree(used, x) && FirstFree(used, y)
    ensures x == y
  {
    assert Ahead(Min(used), x) == Ahead(Min(used), y);
  }

  lemma {:induction false} AllTaken(used: seq<Port>, n: nat)
    requires n <= 0x1_0000 && forall p: Port :: p < n ==> p in used
    ensures |used| >= n
    decreases n
  {
    if n > 0 {
      var top: Port := n - 1;
      assert top in used;
      var i :| 0 <= i < |used| && used[i] == top;
      var rest := used[..i] + used[i + 1..];
      forall p: Port | p < n - 1 ensures p in rest {
        assert p in used;
        var k :| 0 <= k < |used| && used[k] == p;
        assert p == if k < i then rest[k] else rest[k - 1];
      }
      AllTaken(rest, n - 1);
    }
  }

  // ---------------------------------------------------------------- one greedy choice

  /** The first runner whose host has the fewest workers. */
  ghost predicate LeastLoaded(runners: seq<PeerId>, ws: seq<PeerId>, k: nat) {
    && k < |runners|
    && (forall j :: 0 <= j < |runners| ==> Load(ws, runners[k].ipv4) <= Load(ws, runners[j].ipv4))
    && (forall j :: 0 <= j < k ==> Load(ws, runners[k].ipv4) < Load(ws, runners[j].ipv4))
  }

  ghost predicate Chosen(runners: seq<PeerId>, ws: seq<PeerId>, w: PeerId) {
    && PortsOn(ws, w.ipv4) != [] && FirstFree(PortsOn(ws, w.ipv4), w.port)
    && exists k: nat :: LeastLoaded(runners, ws, k) && runners[k].ipv4 == w.ipv4
  }

  /** `ws'` continues `ws` by greedy choices. */
  ghost predicate Greedy(runners: seq<PeerId>, ws: seq<PeerId>, ws': seq<PeerId>)
    decreases |ws'|
  {
    ws' == ws ||
    (|ws'| > |ws| && Chosen(runners, Earlier(ws'), ws'[|ws'| - 1]) && Greedy(runners, ws, Earlier(ws')))
  }

  function Earlier(ws: seq<PeerId>): seq<PeerId>
    requires ws != []
  {
    ws[..|ws| - 1]
  }

  /** The old workers stay, in front. */
  lemma {:induction false} GreedyKeeps(runners: seq<PeerId>, ws: seq<PeerId>, ws': seq<PeerId>)
    requires Greedy(runners, ws, ws')
    ensures ws <= ws'
    decreases |ws'|
  {
    if ws' != ws { GreedyKeeps(runners, ws, Earlier(ws')); }
  }

  lemma SameLeast(runners: seq<PeerId>, ws: seq<PeerId>, j: nat, k: nat)
    requires LeastLoaded(runners, ws, j) && LeastLoaded(runners, ws, k)
    ensures j == k
  {
    assert Load(ws, runners[j].ipv4) <= Load(ws, runners[k].ipv4) <= Load(ws, runners[j].ipv4);
  }

  lemma ChosenUnique(runners: seq<PeerId>, ws: seq<PeerId>, a: PeerId, b: PeerId)
    requires Chosen(runners, ws, a) && Chosen(runners, ws, b)
    ensures a == b
  {
    var j: nat :| LeastLoaded(runners, ws, j) && runners[j].ipv4 == a.ipv4;
    var k: nat :| LeastLoaded(runners, ws, k) && runners[k].ipv4 == b.ipv4;
    SameLeast(runners, ws, j, k);
    FirstFreeUnique(PortsOn(ws, a.ipv4), a.port, b.port);
  }

  /** Growth is determined. */
  lemma {:induction false} GreedyUnique(runners: seq<PeerId>, ws: seq<PeerId>, a: seq<PeerId>, b: seq<PeerId>)
    requires Greedy(runners, ws, a) && Greedy(runners, ws, b) && |a| == |b|
    ensures a == b
    decreases |a|
  {
    if |a| > |ws| {
      GreedyUnique(runners, ws, Earlier(a), Earlier(b));
      ChosenUnique(runners, Earlier(a), a[|a| - 1], b[|b| - 1]);
      assert a == Earlier(a) + [a[|a| - 1]] && b == Earlier(b) + [b[|b| - 1]];
    }
  }

  lemma {:induction false} GreedyFrom(runners: seq<PeerId>, ws: seq<PeerId>, full: seq<PeerId>, k: nat)
    requires Greedy(runners, ws, full) && |ws| <= k <= |full|
    ensures Greedy(runners, full[..k], full)
    decreases |full|
  {
    if k == |full| {
      assert full[..k] == full;
    } else {
      assert Earlier(full)[..k] == full[..k];
      GreedyFrom(runners, ws, Earlier(full), k);
    }
  }

  /** Shrinking to a size not below the one it grew from, and growing back, hands out the very
      same addresses. */
  lemma ShrinkAndRegrow(runners: seq<PeerId>, ws: seq<PeerId>, full: seq<PeerId>, k: nat, again: seq<PeerId>)
    requires Greedy(runners, ws, full) && |ws| <= k <= |full|
    requires Greedy(runners, full[..k], again) && |again| == |full|
    ensures again == full
  {
    GreedyFrom(runners, ws, full, k);
    GreedyUnique(runners, full[..k], again, full);
  }

  /** Growing to one size and then to a larger one is growing to the larger at once. */
  lemma {:induction false} GrowTwice(runners: seq<PeerId>, ws: seq<PeerId>, a: seq<PeerId>, b: seq<PeerId>)
    requires Greedy(runners, ws, a) && Greedy(runners, a, b)
    ensures Greedy(runners, ws, b)
    ensures forall d :: Greedy(runners, ws, d) && |d| == |b| ==> d == b
    decreases |b|
  {
    if b != a {
      GreedyKeeps(runners, ws, a);
      GrowTwice(runners, ws, a, Earlier(b));
    }
    forall d | Greedy(runners, ws, d) && |d| == |b| ensures d == b {
      GreedyUnique(runners, ws, d, b);
    }
  }

  /** The first `i` workers on a host, by their places in the list, and their ports. */
  ghost function Places(ws: seq<PeerId>, i: nat, ip: Ipv4): set<nat>
    requires i <= |ws|
  {
    set j: nat | j < i && ws[j].ipv4 == ip
  }

  lemma {:induction false} LoadIsPlaces(ws: seq<PeerId>, i: nat, ip: Ipv4)
    requires i <= |ws|
    ensures Load(ws[..i], ip) == |Places(ws, i, ip)|
    ensures forall p :: p in PortsOn(ws[..i], ip) <==> exists j :: j in Places(ws, i, ip) && ws[j].port == p
  {
    if i > 0 {
      LoadIsPlaces(ws, i - 1, ip);
      assert ws[..i][..i - 1] == ws[..i - 1];
      if ws[i - 1].ipv4 == ip {
        assert Places(ws, i, ip) == Places(ws, i - 1, ip) + {i - 1};
        forall p ensures p in PortsOn(ws[..i], ip) <==> exists j :: j in Places(ws, i, ip) && ws[j].port == p {
          if p == ws[i - 1].port { assert i - 1 in Places(ws, i, ip); }
          if p in PortsOn(ws[..i - 1], ip) {
            var j :| j in Places(ws, i - 1, ip) && ws[j].port == p;
            assert j in Places(ws, i, ip);
          }
        }
      } else {
        assert Places(ws, i, ip) == Places(ws, i - 1, ip);
      }
    }
  }

  /** Host `k` of the runners is the first of those with the fewest workers so far. */
  ghost predicate FirstOfFewest(runners: seq<PeerId>, ws: seq<PeerId>, i: nat, k: nat)
    requires i <= |ws| && k < |runners|
  {
    && (forall j :: 0 <= j < |runners| ==>
          |Places(ws, i, runners[k].ipv4)| <= |Places(ws, i, runners[j].ipv4)|)
    && (forall j :: 0 <= j < k ==>
          |Places(ws, i, runners[k].ipv4)| < |Places(ws, i, runners[j].ipv4)|)
  }

  lemma {:induction false} ChosenAt(runners: seq<PeerId>, ws: seq<PeerId>, ws': seq<PeerId>, i: nat)
    requires Greedy(runners, ws, ws') && |ws| <= i < |ws'|
    ensures Chosen(runners, ws'[..i], ws'[i])
    decreases |ws'|
  {
    if i < |ws'| - 1 {
      ChosenAt(runners, ws, Earlier(ws'), i);
      assert Earlier(ws')[..i] == ws'[..i];
    }
  }

  /** A new worker goes to the first of the runner hosts with the fewest workers. */
  lemma NewWorkersHost(runners: seq<PeerId>, ws: seq<PeerId>, ws': seq<PeerId>, i: nat) returns (k: nat)
    requires Greedy(runners, ws, ws') && |ws| <= i < |ws'|
    ensures k < |runners| && runners[k].ipv4 == ws'[i].ipv4 && FirstOfFewest(runners, ws', i, k)
  {
    ChosenAt(runners, ws, ws', i);
    k :| LeastLoaded(runners, ws'[..i], k) && runners[k].ipv4 == ws'[i].ipv4;
    forall j | 0 <= j < |runners| ensures Load(ws'[..i], runners[j].ipv4) == |Places(ws', i, runners[j].ipv4)| {
      LoadIsPlaces(ws', i, runners[j].ipv4);
    }
  }

  /** It takes the next free port above the least one in use on that host. */
  lemma NewWorkersPort(runners: seq<PeerId>, ws: seq<PeerId>, ws': seq<PeerId>, i: nat)
    returns (m: Port, used: seq<Port>)
    requires Greedy(runners, ws, ws') && |ws| <= i < |ws'|
    ensures forall p :: p in used <==> exists j :: j in Places(ws', i, ws'[i].ipv4) && ws'[j].port == p
    ensures NextAbove(used, m, ws'[i].port)
  {
    ChosenAt(runners, ws, ws', i);
    used := PortsOn(ws'[..i], ws'[i].ipv4);
    m := Min(used);
    LoadIsPlaces(ws', i, ws'[i].ipv4);
    FirstFreeIsNext(used, ws'[i].port);
  }

  /** A new worker differs from every worker before it. */
  lemma {:induction false} GreedyIsFresh(runners: seq<PeerId>, ws: seq<PeerId>, ws': seq<PeerId>, i: nat, j: nat)
    requires Greedy(runners, ws, ws') && i < j < |ws'| && |ws| <= j
    ensures ws'[i] != ws'[j]
    decreases |ws'|
  {
    if j == |ws'| - 1 {
      PortsAreUsed(Earlier(ws'), i);
    } else {
      GreedyIsFresh(runners, ws, Earlier(ws'), i, j);
    }
  }

  lemma NoDuplicates(runners: seq<PeerId>, ws: seq<PeerId>, ws': seq<PeerId>)
    requires Greedy(runners, ws, ws') && Distinct(ws)
    ensures Distinct(ws')
  {
    GreedyKeeps(runners, ws, ws');
    forall i, j | 0 <= i < j < |ws'| ensures ws'[i] != ws'[j] {
      if j < |ws| {
        assert ws'[i] == ws[i] && ws'[j] == ws[j];
      } else {
        GreedyIsFresh(runners, ws, ws', i, j);
      }
    }
  }

  ghost predicate IsRunner(runners: seq<PeerId>, ip: Ipv4) {
    exists k :: 0 <= k < |runners| && runners[k].ipv4 == ip
  }

  lemma ChosenIsLeast(runners: seq<PeerId>, ws: seq<PeerId>, w: PeerId, ip: Ipv4)
    requires Chosen(runners, ws, w) && IsRunner(runners, ip)
    ensures IsRunner(runners, w.ipv4) && Load(ws, w.ipv4) <= Load(ws, ip)
  {
    var k: nat :| LeastLoaded(runners, ws, k) && runners[k].ipv4 == w.ipv4;
    var j :| 0 <= j < |runners| && runners[j].ipv4 == ip;
    assert Load(ws, runners[k].ipv4) <= Load(ws, runners[j].ipv4);
  }

  /** A host that received a worker never has two more workers than another runner host. */
  lemma {:induction false} GreedyIsBalanced(runners: seq<PeerId>, ws: seq<PeerId>, ws': seq<PeerId>, i: nat, ip: Ipv4)
    requires Greedy(runners, ws, ws') && |ws| <= i < |ws'| && IsRunner(runners, ip)
    ensures IsRunner(runners, ws'[i].ipv4)
    ensures Load(ws', ws'[i].ipv4) <= Load(ws', ip) + 1
    decreases |ws'|
  {
    var before, w := Earlier(ws'), ws'[|ws'| - 1];
    assert ws' == before + [w];
    PortsStep(before, w, ip);
    PortsStep(before, w, ws'[i].ipv4);
    ChosenIsLeast(runners, before, w, ip);
    if i < |ws'| - 1 {
      GreedyIsBalanced(runners, ws, before, i, ip);
    }
  }

  // ---------------------------------------------------------------- room for the new workers

  ghost function Hosts(runners: seq<PeerId>): (h: set<Ipv4>)
    ensures forall k :: 0 <= k < |runners| ==> runners[k].ipv4 in h
    ensures forall ip :: ip in h ==> IsRunner(runners, ip)
  {
    set k | 0 <= k < |runners| :: runners[k].ipv4
  }

  ghost function OnHosts(ws: seq<PeerId>, hs: set<Ipv4>): nat {
    if ws == [] then 0 else OnHosts(ws[..|ws| - 1], hs) + if ws[|ws| - 1].ipv4 in hs then 1 else 0
  }

  lemma {:induction false} OneHostApart(ws: seq<PeerId>, hs: set<Ipv4>, h: Ipv4)
    requires h in hs
    ensures OnHosts(ws, hs) == OnHosts(ws, hs - {h}) + Load(ws, h)
    decreases |ws|
  {
    if ws != [] {
      OneHostApart(ws[..|ws| - 1], hs, h);
    }
  }

  lemma {:induction false} NoHosts(ws: seq<PeerId>)
    ensures OnHosts(ws, {}) == 0
    decreases |ws|
  {
    if ws != [] { NoHosts(ws[..|ws| - 1]); }
  }

  lemma {:induction false} LoadedHosts(ws: seq<PeerId>, hs: set<Ipv4>, m: nat)
    requires forall h :: h in hs ==> Load(ws, h) >= m
    ensures OnHosts(ws, hs) >= m * |hs|
    decreases |hs|
  {
    if hs == {} {
      NoHosts(ws);
    } else {
      var h :| h in hs;
      OneHostApart(ws, hs, h);
      LoadedHosts(ws, hs - {h}, m);
      assert |hs| == |hs - {h}| + 1;
      OneMore(m, |hs - {h}|);
    }
  }

  lemma OneMore(m: nat, k: nat)
    ensures m * (k + 1) == m * k + m
  {
  }

  /** The runner hosts have a port for every worker to be added. */
  ghost predicate Room(c: Config, newSize: nat) {
    newSize - |c.workers| + OnHosts(c.workers, Hosts(c.runners)) <= 0x1_0000 * |Hosts(c.runners)|
  }

  lemma LeastHasRoom(c: Config, newSize: nat, ws: seq<PeerId>, k: nat)
    requires Room(c, newSize) && |ws| < newSize && LeastLoaded(c.runners, ws, k)
    requires OnHosts(ws, Hosts(c.runners)) == OnHosts(c.workers, Hosts(c.runners)) + |ws| - |c.workers|
    ensures Load(ws, c.runners[k].ipv4) < 0x1_0000
  {
    var hs, m := Hosts(c.runners), Load(ws, c.runners[k].ipv4);
    forall h | h in hs ensures Load(ws, h) >= m {
      var j :| 0 <= j < |c.runners| && c.runners[j].ipv4 == h;
      assert Load(ws, c.runners[k].ipv4) <= Load(ws, c.runners[j].ipv4);
    }
    LoadedHosts(ws, hs, m);
    if m >= 0x1_0000 { MulMono(0x1_0000, m, |hs|); }
  }

  lemma PortLeft(used: seq<Port>)
    requires |used| < 0x1_0000
    ensures exists p: Port :: p !in used
  {
    if forall p: Port :: p in used {
      AllTaken(used, 0x1_0000);
    }
  }

  // ---------------------------------------------------------------- the loops

  function Entry(used: map<Ipv4, seq<Port>>, ip: Ipv4): seq<Port> {
    if ip in used then used[ip] else []
  }

  ghost predicate Tracks(used: map<Ipv4, seq<Port>>, ws: seq<PeerId>) {
    forall ip: Ipv4 :: Entry(used, ip) == PortsOn(ws, ip)
  }

  method Track(used: map<Ipv4, seq<Port>>, ghost ws: seq<PeerId>, w: PeerId) returns (used': map<Ipv4, seq<Port>>)
    requires Tracks(used, ws)
    ensures Tracks(used', ws + [w])
  {
    used' := used[w.ipv4 := Entry(used, w.ipv4) + [w.port]];
    forall ip: Ipv4 ensures Entry(used', ip) == PortsOn(ws + [w], ip) {
      PortsStep(ws, w, ip);
    }
  }

  method UsedPorts(workers: seq<PeerId>) returns (used: map<Ipv4, seq<Port>>)
    ensures Tracks(used, workers)
  {
    used := map[];
    for i := 0 to |workers|
      invariant Tracks(used, workers[..i])
    {
      used := Track(used, workers[..i], workers[i]);
      assert workers[..i] + [workers[i]] == workers[..i + 1];
    }
    assert workers[..|workers|] == workers;
  }

  /** `std::min_element` by the number of ports in use. */
  method LeastUsed(runners: seq<PeerId>, used: map<Ipv4, seq<Port>>) returns (k: nat)
    requires runners != []
    ensures k < |runners|
    ensures forall j :: 0 <= j < |runners| ==> |Entry(used, runners[k].ipv4)| <= |Entry(used, runners[j].ipv4)|
    ensures forall j :: 0 <= j < k ==> |Entry(used, runners[k].ipv4)| < |Entry(used, runners[j].ipv4)|
  {
    k := 0;
    for i := 1 to |runners|
      invariant k < i
      invariant forall j :: 0 <= j < i ==> |Entry(used, runners[k].ipv4)| <= |Entry(used, runners[j].ipv4)|
      invariant forall j :: 0 <= j < k ==> |Entry(used, runners[k].ipv4)| < |Entry(used, runners[j].ipv4)|
    {
      if |Entry(used, runners[i].ipv4)| < |Entry(used, runners[k].ipv4)| {
        k := i;
      }
    }
  }

  ghost predicate EveryHostWorks(c: Config, ws: seq<PeerId>) {
    forall k :: 0 <= k < |c.runners| ==> PortsOn(ws, c.runners[k].ipv4) != []
  }

  method NextWorker(c: Config, newSize: nat, used: map<Ipv4, seq<Port>>, ghost ws: seq<PeerId>) returns (w: PeerId)
    requires c.runners != [] && Tracks(used, ws) && EveryHostWorks(c, ws)
    requires Room(c, newSize) && |ws| < newSize
    requires OnHosts(ws, Hosts(c.runners)) == OnHosts(c.workers, Hosts(c.runners)) + |ws| - |c.workers|
    ensures Chosen(c.runners, ws, w) && w.ipv4 in Hosts(c.runners)
  {
    var k := LeastUsed(c.runners, used);
    forall j | 0 <= j < |c.runners| ensures |Entry(used, c.runners[j].ipv4)| == Load(ws, c.runners[j].ipv4) {
      assert Entry(used, c.runners[j].ipv4) == PortsOn(ws, c.runners[j].ipv4);
    }
    assert LeastLoaded(c.runners, ws, k);
    var ip := c.runners[k].ipv4;
    assert Entry(used, ip) == PortsOn(ws, ip);
    LeastHasRoom(c, newSize, ws, k);
    PortLeft(PortsOn(ws, ip));
    var port := NextUnused(Entry(used, ip));
    w := PeerId(ip, port);
  }

  /** `cluster_config::resize`. Growing needs a worker on every runner host and a free port
      for every worker to be added. */
  method Resize(c: Config, newSize: nat) returns (r: Config)
    requires newSize > |c.workers| && c.runners != [] ==> EveryHostWorks(c, c.workers) && Room(c, newSize)
    ensures newSize <= |c.workers| ==> r == Config(c.runners, c.workers[..newSize])
    ensures newSize > |c.workers| && c.runners == [] ==> r == c
    ensures newSize > |c.workers| && c.runners != [] ==>
              r.runners == c.runners && |r.workers| == newSize && Greedy(c.runners, c.workers, r.workers)
  {
    if newSize <= |c.workers| {
      return Config(c.runners, c.workers[..newSize]);
    }
    if |c.runners| <= 0 {
      return c;
    }
    var ws := c.workers;
    var used := UsedPorts(c.workers);
    while |ws| < newSize
      invariant |c.workers| <= |ws| <= newSize && Tracks(used, ws) && EveryHostWorks(c, ws)
      invariant Greedy(c.runners, c.workers, ws)
      invariant OnHosts(ws, Hosts(c.runners)) == OnHosts(c.workers, Hosts(c.runners)) + |ws| - |c.workers|
    {
      var w := NextWorker(c, newSize, used, ws);
      used := Track(used, ws, w);
      AddChosen(c, ws, w);
      ws := ws + [w];
    }
    r := Config(c.runners, ws);
  }

  lemma AddChosen(c: Config, ws: seq<PeerId>, w: PeerId)
    requires Greedy(c.runners, c.workers, ws) && Chosen(c.runners, ws, w)
    requires EveryHostWorks(c, ws) && w.ipv4 in Hosts(c.runners)
    ensures Greedy(c.runners, c.workers, ws + [w]) && EveryHostWorks(c, ws + [w])
    ensures OnHosts(ws + [w], Hosts(c.runners)) == OnHosts(ws, Hosts(c.runners)) + 1
  {
    var more := ws + [w];
    assert Earlier(more) == ws;
    GreedyKeeps(c.runners, c.workers, ws);
    forall k | 0 <= k < |c.runners| ensures PortsOn(more, c.runners[k].ipv4) != [] {
      PortsStep(ws, w, c.runners[k].ipv4);
    }
  }

  /** Growing and shrinking back gives the first configuration again. */
  method GrowAndShrink(c: Config, newSize: nat) returns (r: Config)
    requires newSize > |c.workers| && c.runners != [] ==> EveryHostWorks(c, c.workers) && Room(c, newSize)
    ensures newSize >= |c.workers| ==> r == c
  {
    var grown := Resize(c, newSize);
    if newSize >= |c.workers| {
      assert c.workers[..|c.workers|] == c.workers;
      if newSize > |c.workers| && c.runners != [] {
        GreedyKeeps(c.runners, c.workers, grown.workers);
      }
      assert grown.workers[..|c.workers|] == c.workers;
      r := Resize(grown, |c.workers|);
    } else {
      r := grown;
    }
  }
}
