/** What the failover logic of `MeshConnection` promises, and where the code
    as written departs from what its design intends. */
module FailoverProps {
  import opened Values
  import opened Uri
  import opened Strategy
  import opened Failover

  // ----- the constructor's address list -----

  /** A cluster entry is kept exactly when both its host and its port differ
      from the given ones; nothing else enters the list. */
  lemma {:induction false} KeptMembers(cluster: seq<Addr>, host: string, port: int, a: Addr)
    ensures Some(a) in Kept(cluster, host, port) <==> a in cluster && a.host != host && a.port != port
    ensures None !in Kept(cluster, host, port)
  {
    if cluster != [] {
      var init := cluster[..|cluster| - 1];
      KeptMembers(init, host, port, a);
      assert cluster == init + [cluster[|cluster| - 1]];
    }
  }

  /** Filtering keeps the order of `cluster_list`: the kept entries of a
      concatenation are the kept entries of each part, one after the other. */
  lemma {:induction false} KeptConcat(a: seq<Addr>, b: seq<Addr>, host: string, port: int)
    ensures Kept(a + b, host, port) == Kept(a, host, port) + Kept(b, host, port)
    decreases |b|
  {
    if b != [] {
      var init := b[..|b| - 1];
      assert (a + b)[..|a + b| - 1] == a + init;
      KeptConcat(a, init, host, port);
    } else {
      assert a + b == a;
    }
  }

  /** Right after the constructor the list starts with the given address,
      which is current, and it lists exactly that address and the kept
      cluster entries; the cursor has moved past the first entry. */
  lemma InitialState(host: string, port: int, cluster: seq<Addr>, connected: bool, now: int, a: Addr)
    ensures var s := Initial(host, port, cluster, connected, now);
      s.addrs[0] == Some(s.cur) && s.cur == Addr(host, port) && None !in s.addrs &&
      (Some(a) in s.addrs <==> a == Addr(host, port) || (a in cluster && a.host != host && a.port != port)) &&
      s.pos == (if |s.addrs| == 1 then 0 else 1) && s.lastRefresh == now
  {
    KeptMembers(cluster, host, port, a);
    var s := Initial(host, port, cluster, connected, now);
    assert s.addrs == [Some(Addr(host, port))] + Kept(cluster, host, port);
  }

  // ----- the reconnect loop -----

  /** When every listed address is the current one, the loop never dials and
      raises NetworkError after exactly `attempts + 1` draws; with the
      source's budget `2 * len + 1` that is `2 * len + 2` draws. */
  lemma {:induction false} AllCurrentExhausts(s: Session, attempts: int, w: World, fuel: nat)
    requires s.Valid() && !s.connected && attempts >= -1
    requires forall i :: 0 <= i < |s.addrs| ==> s.addrs[i] == Some(s.cur)
    ensures Reconnect(s, attempts, w, fuel) ==
      Run(s.(pos := Cursor(s.pos, attempts + 1, |s.addrs|)), Raised(NetworkError), w, attempts + 1, attempts + 1)
    decreases attempts + 1
  {
    if attempts >= 0 {
      var s1 := Draw(s).1;
      AllCurrentExhausts(s1, attempts - 1, w, fuel);
      CursorAdd(s.pos, 1, attempts, |s.addrs|);
    }
  }

  /** With the source's budget `2 * len + 1`, a list holding only the current
      address is drawn `2 * len + 2` times before NetworkError is raised. */
  lemma BudgetExhausts(s: Session, w: World, fuel: nat)
    requires s.Valid() && !s.connected
    requires forall i :: 0 <= i < |s.addrs| ==> s.addrs[i] == Some(s.cur)
    ensures Reconnect(s, Budget(s), w, fuel).draws == 2 * |s.addrs| + 2
    ensures Reconnect(s, Budget(s), w, fuel).out == Raised(NetworkError)
  {
    AllCurrentExhausts(s, Budget(s), w, fuel);
  }

  /** The loop reaches a listed node that accepts connections within `d + 1`
      draws when that node is `d` places ahead of the cursor. */
  lemma {:induction false} LiveNodeAhead(s: Session, attempts: int, w: World, fuel: nat, x: Addr, d: nat)
    requires s.Valid() && !s.connected
    requires forall i :: 0 <= i < |s.addrs| ==> s.addrs[i].Some?
    requires s.addrs[Cursor(s.pos, d, |s.addrs|)] == Some(x)
    requires x in w.up && x != s.cur
    requires attempts >= d && fuel >= d
    ensures Reconnect(s, attempts, w, fuel).out == Returned(())
    ensures Reconnect(s, attempts, w, fuel).draws <= d + 1
    decreases d
  {
    var n := |s.addrs|;
    var s1 := Draw(s).1;
    if d > 0 {
      CursorAdd(s.pos, 1, d - 1, n);
      var y := s.addrs[s.pos].value;
      if y == s.cur {
        LiveNodeAhead(s1, attempts - 1, w, fuel, x, d - 1);
      } else if y !in w.up {
        LiveNodeAhead(s1.(cur := y), attempts, Dial(w, y).0, fuel - 1, x, d - 1);
      }
    }
  }

  /** Liveness: if some listed node other than the current one accepts
      connections, a loop given at least `len - 1` attempts (the source gives
      `2 * len + 1`) connects within `len` draws, to a listed node that is up. */
  lemma ReconnectFindsLiveNode(s: Session, attempts: int, w: World, fuel: nat, i: nat)
    requires s.Valid() && !s.connected
    requires forall k :: 0 <= k < |s.addrs| ==> s.addrs[k].Some?
    requires i < |s.addrs| && s.addrs[i].value in w.up && s.addrs[i].value != s.cur
    requires attempts >= |s.addrs| - 1 && fuel >= |s.addrs| - 1
    ensures var r := Reconnect(s, attempts, w, fuel);
      r.out == Returned(()) && r.s.connected && r.s.cur in w.up && Some(r.s.cur) in s.addrs &&
      r.draws <= |s.addrs|
  {
    var d := CursorReaches(s.pos, i, |s.addrs|);
    LiveNodeAhead(s, attempts, w, fuel, s.addrs[i].value, d);
  }

  /** Neighbouring entries of the list differ, cyclically. */
  predicate NoRepeats(addrs: seq<Slot>)
  {
    forall i :: 0 <= i < |addrs| ==> addrs[Advance(i, |addrs|)] != addrs[i]
  }

  /** Helper of ReconnectNeverGivesUp: once the cursor is off the current
      address, every draw differs from it and every dial fails. */
  lemma {:induction false} DownCycleDiverges(s: Session, attempts: int, w: World, fuel: nat)
    requires s.Valid() && !s.connected && attempts >= 0
    requires forall i :: 0 <= i < |s.addrs| ==> s.addrs[i].Some? && s.addrs[i].value !in w.up
    requires NoRepeats(s.addrs) && s.addrs[s.pos] != Some(s.cur)
    ensures Reconnect(s, attempts, w, fuel).out == Diverged
    decreases fuel
  {
    var y := s.addrs[s.pos].value;
    if fuel > 0 {
      DownCycleDiverges(Draw(s).1.(cur := y), attempts, Dial(w, y).0, fuel - 1);
    }
  }

  /** As written, a failed dial does not use up an attempt: when every listed
      node is down and neighbouring entries differ (two distinct unreachable
      nodes suffice), the loop never raises NetworkError; whatever fuel the
      model is given, it ends in `Diverged`, i.e. the source loops for ever. */
  lemma ReconnectNeverGivesUp(s: Session, attempts: int, w: World, fuel: nat)
    requires s.Valid() && !s.connected && attempts >= 1
    requires forall i :: 0 <= i < |s.addrs| ==> s.addrs[i].Some? && s.addrs[i].value !in w.up
    requires NoRepeats(s.addrs)
    ensures Reconnect(s, attempts, w, fuel).out == Diverged
  {
    if s.addrs[s.pos] == Some(s.cur) {
      DownCycleDiverges(Draw(s).1, attempts - 1, w, fuel);
    } else {
      DownCycleDiverges(s, attempts, w, fuel);
    }
  }

  // ----- the refresh -----

  /** The node-list function is called (once) exactly when the connection is
      up and more than the refresh interval has passed; nothing else is sent,
      and only the reconnect loop dials. */
  lemma RefreshCallsOnlyWhenDue(s: Session, cfg: Config, now: int, w: World, fuel: nat)
    requires s.Valid()
    ensures var r := RefreshInstances(s, cfg, now, w, fuel);
      r.w.sent == w.sent + (if RefreshDue(s, cfg, now) then [ListNodes(cfg.nodesFunction)] else []) &&
      r.w.up == w.up
    ensures !RefreshDue(s, cfg, now) ==> RefreshInstances(s, cfg, now, w, fuel).w.replies == w.replies
  {
  }

  /** When the interval has not passed on a live connection, the refresh
      changes nothing at all. */
  lemma RefreshNotDue(s: Session, cfg: Config, now: int, w: World, fuel: nat)
    requires s.Valid() && s.connected && now - s.lastRefresh <= cfg.refreshInterval
    ensures RefreshInstances(s, cfg, now, w, fuel) == Effect(s, Returned(()), w)
  {
  }

  /** A reply with a non-empty node list replaces the strategy: the new list
      is the element-wise parse of the reply (same length, same order, `None`
      for rejected strings), and the refresh time becomes `now`. When the
      current address is listed it stays current, the cursor is 0 and
      nothing is dialed. */
  lemma RefreshAdoptsList(s: Session, cfg: Config, now: int, w: World, fuel: nat, data: seq<seq<string>>)
    requires s.Valid() && RefreshDue(s, cfg, now)
    requires w.replies != [] && w.replies[0] == Rows(data) && |data| > 0 && |data[0]| > 0
    ensures var r := RefreshInstances(s, cfg, now, w, fuel);
      r.s.addrs == ParseAll(data[0]) && |r.s.addrs| == |data[0]| && r.s.lastRefresh == now
    ensures Some(s.cur) in ParseAll(data[0]) ==>
      RefreshInstances(s, cfg, now, w, fuel) ==
        Effect(s.(addrs := ParseAll(data[0]), pos := 0, lastRefresh := now), Returned(()),
               w.(replies := w.replies[1..], sent := w.sent + [ListNodes(cfg.nodesFunction)]))
  {
  }

  /** Eviction: when the current address is not in a non-empty node list
      whose first string parses to `x`, the fresh strategy is drawn from once,
      `x` becomes the current address and the connection is closed; the new
      list is adopted and the refresh time is `now`. */
  lemma EvictionTakesNextAddress(s: Session, data: seq<seq<string>>, now: int, x: Addr)
    requires s.Valid() && |data| > 0 && |data[0]| > 0
    requires Some(s.cur) !in ParseAll(data[0]) && ParseAll(data[0])[0] == Some(x)
    ensures AdoptNodeList(s, data, now) ==
      (Session(ParseAll(data[0]), Advance(0, |data[0]|), x, false, now), Returned(()))
  {
  }

  /** As written, a reply without a node list (no rows, or an empty first
      row) reads the unassigned local `addrs` and raises UnboundLocalError;
      the strategy, the current address and the refresh time stay as they were. */
  lemma RefreshWithoutNodesRaises(s: Session, cfg: Config, now: int, w: World, fuel: nat, data: seq<seq<string>>)
    requires s.Valid() && RefreshDue(s, cfg, now)
    requires w.replies != [] && w.replies[0] == Rows(data) && (|data| == 0 || |data[0]| == 0)
    ensures var r := RefreshInstances(s, cfg, now, w, fuel);
      r.out == Raised(UnboundLocalError) && r.s == s
  {
  }

  /** A refresh that returns normally is not repeated within the interval: a
      second refresh at `now2`, no later than `nodes_refresh_interval` after
      the first, makes at most one node-list call between the two of them. */
  lemma RefreshAtMostOncePerInterval(s: Session, cfg: Config, now: int, now2: int, w: World, fuel: nat, fuel2: nat)
    requires s.Valid() && now2 - now <= cfg.refreshInterval
    requires RefreshInstances(s, cfg, now, w, fuel).out.Returned?
    ensures var r1 := RefreshInstances(s, cfg, now, w, fuel);
      var r2 := RefreshInstances(r1.s, cfg, now2, r1.w, fuel2);
      |r2.w.sent| <= |w.sent| + 1
  {
    var r1 := RefreshInstances(s, cfg, now, w, fuel);
    RefreshCallsOnlyWhenDue(s, cfg, now, w, fuel);
    RefreshCallsOnlyWhenDue(r1.s, cfg, now2, r1.w, fuel2);
    if RefreshDue(s, cfg, now) {
      assert r1.s.lastRefresh == now;
    }
  }

  /** Eviction: when the current address is missing from a refreshed list of
      at least two valid entries, some entry after the first of which is up
      and differs from the first, the connection moves to a listed node that
      is up. */
  lemma EvictionMigrates(s: Session, cfg: Config, now: int, w: World, fuel: nat, data: seq<seq<string>>, i: nat)
    requires s.Valid() && RefreshDue(s, cfg, now)
    requires w.replies != [] && w.replies[0] == Rows(data) && |data| > 0
    requires var listed := ParseAll(data[0]);
      |listed| >= 2 && (forall k :: 0 <= k < |listed| ==> listed[k].Some?) && Some(s.cur) !in listed &&
      1 <= i < |listed| && listed[i].value in w.up && listed[i] != listed[0]
    requires fuel >= |data[0]|
    ensures var r := RefreshInstances(s, cfg, now, w, fuel);
      r.out == Returned(()) && r.s.connected && r.s.cur in w.up && Some(r.s.cur) in ParseAll(data[0])
  {
    var listed := ParseAll(data[0]);
    var s1 := Draw(s.(addrs := listed, pos := 0, lastRefresh := now)).1.(cur := listed[0].value, connected := false);
    ReconnectFindsLiveNode(s1, Budget(s1), Exchange(w, ListNodes(cfg.nodesFunction)).0, fuel, i);
  }

  /** As written, eviction to a one-entry list always fails: the eviction makes
      the listed node current before the loop, the loop then skips it as
      "already current" `2 * 1 + 2` times without dialing, and raises
      NetworkError, even when that node is up. */
  lemma EvictionToSingleNodeFails(s: Session, cfg: Config, now: int, w: World, fuel: nat, uri: string, b: Addr)
    requires s.Valid() && RefreshDue(s, cfg, now)
    requires w.replies != [] && w.replies[0] == Rows([[uri]])
    requires ParseUri(uri) == Some(b) && b != s.cur
    ensures var r := RefreshInstances(s, cfg, now, w, fuel);
      r.out == Raised(NetworkError) && r.s.cur == b && !r.s.connected && r.w.dialed == w.dialed
  {
    var listed := ParseAll([uri]);
    assert listed == [Some(b)];
    var s1 := Draw(s.(addrs := listed, pos := 0, lastRefresh := now)).1.(cur := b, connected := false);
    AllCurrentExhausts(s1, Budget(s1), Exchange(w, ListNodes(cfg.nodesFunction)).0, fuel);
  }

  /** As written, rejected strings stay in the list as `None`: when the
      current address is missing and the reply's first string is rejected,
      the eviction subscripts `None` and raises TypeError. */
  lemma RejectedFirstEntryRaises(s: Session, cfg: Config, now: int, w: World, fuel: nat, data: seq<seq<string>>)
    requires s.Valid() && RefreshDue(s, cfg, now)
    requires w.replies != [] && w.replies[0] == Rows(data) && |data| > 0 && |data[0]| > 0
    requires ParseUri(data[0][0]) == None && Some(s.cur) !in ParseAll(data[0])
    ensures RefreshInstances(s, cfg, now, w, fuel).out == Raised(TypeError)
  {
  }

  // ----- dispatch -----

  /** As written, the `return` in `finally` sends every request a second
      time: a request whose first answer is anything but a NetworkError (a
      result, or a DatabaseError) is sent twice and the second answer is
      returned; the first is discarded. */
  lemma ResendsAfterAnswer(s: Session, cfg: Config, req: Request, now: int, w: World, fuel: nat,
                           first: Reply, second: Reply, rest: seq<Reply>)
    requires s.Valid()
    requires w.replies == [first, second] + rest && first != Fault(NetworkError)
    ensures TryFinally(s, cfg, req, now, w, fuel) ==
      Effect(s, FromReply(second), w.(replies := rest, sent := w.sent + [req, req]))
  {
    assert ([first, second] + rest)[1..][1..] == rest;
    assert w.sent + [req] + [req] == w.sent + [req, req];
  }

  /** A request that meets a NetworkError is sent again after the refresh
      and reconnect, unless that runs for ever; the second answer is
      returned and any exception of the refresh is swallowed. */
  lemma ResendsAfterNetworkError(s: Session, cfg: Config, req: Request, now: int, w: World, fuel: nat,
                                 reply: Reply, rest: seq<Reply>)
    requires s.Valid()
    requires w.replies == [Fault(NetworkError), reply] + rest
    ensures var rec := RefreshInstances(s.(connected := false), cfg, now,
                                        w.(replies := [reply] + rest, sent := w.sent + [req]), fuel);
      TryFinally(s, cfg, req, now, w, fuel) ==
        if rec.out.Diverged? then Effect(rec.s, Diverged, rec.w)
        else Effect(rec.s, FromReply(Exchange(rec.w, req).1), Exchange(rec.w, req).0)
  {
    assert ([Fault(NetworkError), reply] + rest)[1..] == [reply] + rest;
  }

  /** A node-list call does not count as a sending of an application request. */
  lemma ListCallsNotCounted(sent: seq<Request>, extra: seq<Request>, req: Request)
    requires req.Query? && forall i :: 0 <= i < |extra| ==> extra[i].ListNodes?
    ensures multiset(sent + extra)[req] == multiset(sent)[req]
  {
    assert req !in multiset(extra);
  }

  /** The `try`/`finally` sends the application's request exactly twice,
      the second time last, unless the refresh in between runs for ever. */
  lemma TryFinallySendsTwice(s: Session, cfg: Config, req: Request, now: int, w: World, fuel: nat)
    requires s.Valid() && req.Query?
    ensures var r := TryFinally(s, cfg, req, now, w, fuel);
      !r.out.Diverged? ==>
        |r.w.sent| > 0 && r.w.sent[|r.w.sent| - 1] == req &&
        multiset(r.w.sent)[req] == multiset(w.sent)[req] + 2
  {
    var (w1, first) := Exchange(w, req);
    var s0 := s.(connected := false);
    var extra := if first == Fault(NetworkError) && RefreshDue(s0, cfg, now) then [ListNodes(cfg.nodesFunction)] else [];
    if first == Fault(NetworkError) {
      RefreshCallsOnlyWhenDue(s0, cfg, now, w1, fuel);
    }
    ListCallsNotCounted(w.sent + [req], extra, req);
  }

  /** Every dispatch whose first refresh returns sends the application's
      request exactly twice, the second time last, unless the refresh after
      a NetworkError runs for ever. */
  lemma SendRequestSendsTwice(s: Session, cfg: Config, req: Request, now: int, w: World, fuel: nat)
    requires s.Valid() && req.Query?
    requires PreRefresh(s, cfg, now, w, fuel).out.Returned?
    ensures var r := SendRequest(s, cfg, req, now, w, fuel);
      !r.out.Diverged? ==>
        |r.w.sent| > 0 && r.w.sent[|r.w.sent| - 1] == req &&
        multiset(r.w.sent)[req] == multiset(w.sent)[req] + 2
  {
    var pre := PreRefresh(s, cfg, now, w, fuel);
    var extra := if RefreshDue(s, cfg, now) && Truthy(cfg.nodesFunction) then [ListNodes(cfg.nodesFunction)] else [];
    if Truthy(cfg.nodesFunction) {
      RefreshCallsOnlyWhenDue(s, cfg, now, w, fuel);
    }
    ListCallsNotCounted(w.sent, extra, req);
    TryFinallySendsTwice(pre.s, cfg, req, now, pre.w, fuel);
  }

  /** The scenario of unit/suites/test_mesh.py, test_01: a connection made
      with one address, whose refresh is overdue, learns a second node from
      the node-list function on its next request, stays on the first node,
      and returns the answer to the (second) sending of the request. */
  lemma RefreshGrowsList(h1: string, p1: int, h2: string, p2: int, t0: int, cfg: Config, req: Request,
                         now: int, w: World, fuel: nat, first: Reply, second: Reply, rest: seq<Reply>)
    requires h1 != [] && ':' !in h1 && p1 != 0 && h2 != [] && ':' !in h2 && p2 != 0
    requires Truthy(cfg.nodesFunction) && now > cfg.refreshInterval
    requires first != Fault(NetworkError)
    requires w.replies ==
      [Rows([[h1 + [':'] + IntToDecimal(p1), h2 + [':'] + IntToDecimal(p2)]]), first, second] + rest
    ensures var s := Initial(h1, p1, [], true, t0).(lastRefresh := 0);
      var r := SendRequest(s, cfg, req, now, w, fuel);
      |s.addrs| == 1 && r.s.addrs == [Some(Addr(h1, p1)), Some(Addr(h2, p2))] &&
      r.s.cur == Addr(h1, p1) && r.s.connected && r.out == FromReply(second)
  {
    var s := Initial(h1, p1, [], true, t0).(lastRefresh := 0);
    InitialState(h1, p1, [], true, t0, Addr(h1, p1));
    assert s.addrs == [Some(Addr(h1, p1))];
    var uris := [h1 + [':'] + IntToDecimal(p1), h2 + [':'] + IntToDecimal(p2)];
    ParseTwo(h1, p1, h2, p2);
    PreRefreshAdopts(s, cfg, now, w, fuel, uris, [first, second] + rest);
    var pre := PreRefresh(s, cfg, now, w, fuel);
    ResendsAfterAnswer(pre.s, cfg, req, now, pre.w, fuel, first, second, rest);
  }

  /** Helper of RefreshGrowsList: the node list of the scenario parses to its two nodes. */
  lemma ParseTwo(h1: string, p1: int, h2: string, p2: int)
    requires h1 != [] && ':' !in h1 && p1 != 0 && h2 != [] && ':' !in h2 && p2 != 0
    ensures ParseAll([h1 + [':'] + IntToDecimal(p1), h2 + [':'] + IntToDecimal(p2)]) ==
      [Some(Addr(h1, p1)), Some(Addr(h2, p2))]
  {
    ParseUriRoundTrip(h1, p1);
    ParseUriRoundTrip(h2, p2);
  }

  /** Helper of RefreshGrowsList: a due refresh before a request adopts a
      node list that holds the current address, and returns. */
  lemma PreRefreshAdopts(s: Session, cfg: Config, now: int, w: World, fuel: nat, uris: seq<string>, more: seq<Reply>)
    requires s.Valid() && s.connected && Truthy(cfg.nodesFunction) && now - s.lastRefresh > cfg.refreshInterval
    requires w.replies == [Rows([uris])] + more && |uris| > 0 && Some(s.cur) in ParseAll(uris)
    ensures PreRefresh(s, cfg, now, w, fuel) ==
      Effect(s.(addrs := ParseAll(uris), pos := 0, lastRefresh := now), Returned(()),
             w.(replies := more, sent := w.sent + [ListNodes(cfg.nodesFunction)]))
  {
    RefreshAdoptsList(s, cfg, now, w, fuel, [uris]);
    assert w.replies[1..] == more;
  }

  /** The scenario of unit/suites/test_mesh.py, test_02: two listed nodes,
      connected to the first; the first stops, so the request meets a
      NetworkError; the reconnect loop skips the (current) first node, dials
      the second, and the request is sent again there. */
  lemma FailoverToSecondNode(a: Addr, b: Addr, last: int, cfg: Config, req: Request, now: int, w: World,
                             fuel: nat, reply: Reply, rest: seq<Reply>)
    requires a != b && b in w.up
    requires now - last <= cfg.refreshInterval
    requires w.replies == [Fault(NetworkError), reply] + rest
    ensures var s := Session([Some(a), Some(b)], 0, a, true, last);
      var r := SendRequest(s, cfg, req, now, w, fuel);
      r.s.cur == b && r.s.connected && r.out == FromReply(reply) && r.w.dialed == w.dialed + [b]
  {
    var s := Session([Some(a), Some(b)], 0, a, true, last);
    assert PreRefresh(s, cfg, now, w, fuel) == Effect(s, Returned(()), w);
    var w1 := w.(replies := [reply] + rest, sent := w.sent + [req]);
    ResendsAfterNetworkError(s, cfg, req, now, w, fuel, reply, rest);
    var s0 := s.(connected := false);
    SkipThenConnect(a, b, last, w1, fuel);
    assert RefreshInstances(s0, cfg, now, w1, fuel).w == Dial(w1, b).0;
  }

  /** Helper of FailoverToSecondNode: the loop of the scenario skips `a`
      and connects to `b`. */
  lemma SkipThenConnect(a: Addr, b: Addr, last: int, w: World, fuel: nat)
    requires a != b && b in w.up
    ensures var r := Reconnect(Session([Some(a), Some(b)], 0, a, false, last), 5, w, fuel);
      r.s.cur == b && r.out == Returned(()) && r.w == Dial(w, b).0
  {
    var s1 := Session([Some(a), Some(b)], 1, a, false, last);
    assert Reconnect(s1, 4, w, fuel).w == Dial(w, b).0;
  }
}
