/** `MeshConnection`: the connection object whose fields the failover logic
    updates in place. Each method is proved to do exactly what the function
    of the same name in module Failover describes. */
module Mesh {
  import opened Values
  import opened Uri
  import opened Strategy
  import opened Failover

  class MeshConnection {
    var strategy: RoundRobinStrategy<Slot>
    var host: string
    var port: int
    var connected: bool
    var lastNodesRefresh: int
    const getNodesFunctionName: Option<string>
    const nodesRefreshInterval: int

    ghost predicate Valid()
      reads this, strategy
    {
      strategy.Valid()
    }

    /** The fields as a Failover.Session value. */
    ghost function State(): Session
      reads this, strategy
    {
      Session(strategy.addrs, strategy.pos, Addr(host, port), connected, lastNodesRefresh)
    }

    function Settings(): Config
    {
      Config(getNodesFunctionName, nodesRefreshInterval)
    }

    /** The constructor: builds the address list, makes the strategy and
        draws the first address from it. `connected` stands for the outcome
        of the inherited constructor's connection attempt. */
    constructor (host: string, port: int, clusterList: seq<Addr>, getNodesFunctionName: Option<string>,
                 nodesRefreshInterval: int, now: int, connected: bool)
      ensures Valid() && fresh(strategy)
      ensures State() == Initial(host, port, clusterList, connected, now)
      ensures Settings() == Config(getNodesFunctionName, nodesRefreshInterval)
    {
      var addrs := [Some(Addr(host, port))];
      var i := 0;
      while i < |clusterList|
        invariant 0 <= i <= |clusterList|
        invariant addrs == SeedList(host, port, clusterList[..i])
      {
        var e := clusterList[i];
        assert clusterList[..i + 1][..i] == clusterList[..i];
        if !(e.host == host || e.port == port) {
          addrs := addrs + [Some(e)];
        }
        i := i + 1;
      }
      assert clusterList[..i] == clusterList;
      var st := new RoundRobinStrategy(addrs);
      var addr := st.GetNext();
      strategy := st;
      this.host := addr.value.host;
      this.port := addr.value.port;
      this.getNodesFunctionName := getNodesFunctionName;
      this.nodesRefreshInterval := nodesRefreshInterval;
      lastNodesRefresh := now;
      this.connected := connected;
    }

    /** `_opt_refresh_instances`, with the clock reading `now`. */
    method OptRefreshInstances(now: int, w: World, fuel: nat) returns (out: Outcome<()>, w': World)
      requires Valid()
      modifies this, strategy
      ensures Valid() && (strategy == old(strategy) || fresh(strategy))
      ensures Effect(State(), out, w') == RefreshInstances(old(State()), Settings(), now, w, fuel)
    {
      ghost var first := RefreshNodes(State(), Settings(), now, w);
      w' := w;
      if connected && now - lastNodesRefresh > nodesRefreshInterval {
        var sent := Exchange(w', ListNodes(getNodesFunctionName));
        w' := sent.0;
        var reply := sent.1;
        if reply.Fault? {
          return Raised(reply.error), w';
        }
        var data := reply.data;
        if !(|data| > 0 && |data[0]| > 0) {
          // `addrs` was never assigned: reading it at line 166 raises
          return Raised(UnboundLocalError), w';
        }
        var addrs := ParseAll(data[0]);
        strategy := new RoundRobinStrategy(addrs);
        lastNodesRefresh := now;
        if Some(Addr(host, port)) !in addrs {
          var addr := strategy.GetNext();
          if addr.None? {
            return Raised(TypeError), w';
          }
          host, port := addr.value.host, addr.value.port;
          connected := false;  // close()
        }
      }
      assert Effect(State(), Returned(()), w') == first;
      if !connected {
        out, w' := ReconnectLoop(w', fuel);
      } else {
        out := Returned(());
      }
    }

    /** The block `if not self.connected` of `_opt_refresh_instances`
        (lines 172-189): the budgeted loop over the strategy's draws. */
    method ReconnectLoop(w: World, fuel: nat) returns (out: Outcome<()>, w': World)
      requires Valid() && !connected
      modifies this, strategy
      ensures Valid() && strategy == old(strategy)
      ensures var run := Reconnect(old(State()), Budget(old(State())), w, fuel);
        Effect(State(), out, w') == Effect(run.s, run.out, run.w)
    {
      ghost var entry := State();
      w' := w;
      var nattempts := (|strategy.addrs| * 2) + 1;
      var fuelLeft := fuel;
      while nattempts >= 0
        invariant Valid() && !connected && nattempts >= -1
        invariant strategy == old(strategy)
        invariant var run := Reconnect(State(), nattempts, w', fuelLeft);
          var start := Reconnect(entry, Budget(entry), w, fuel);
          (run.s, run.out, run.w) == (start.s, start.out, start.w)
        decreases fuelLeft, nattempts + 1
      {
        ghost var before := State();
        var addr := strategy.GetNext();
        assert (addr, State()) == Draw(before);
        if addr.None? {
          return Raised(TypeError), w';
        }
        if addr.value.host != host || addr.value.port != port {
          host, port := addr.value.host, addr.value.port;
          var dialed := Dial(w', addr.value);  // _opt_reconnect()
          w' := dialed.0;
          if dialed.1 {
            connected := true;
            return Returned(()), w';  // break
          }
          // NetworkError: `continue`, with the budget untouched
          if fuelLeft == 0 {
            return Diverged, w';
          }
          fuelLeft := fuelLeft - 1;
        } else {
          nattempts := nattempts - 1;
        }
      }
      // while ... else: raise NetworkError
      return Raised(NetworkError), w';
    }

    /** `_send_request` for `req`, with the clock reading `now` for both refreshes. */
    method SendRequest(req: Request, now: int, w: World, fuel: nat)
      returns (out: Outcome<seq<seq<string>>>, w': World)
      requires Valid()
      modifies this, strategy
      ensures Valid()
      ensures Effect(State(), out, w') == Failover.SendRequest(old(State()), Settings(), req, now, w, fuel)
    {
      w' := w;
      if getNodesFunctionName.Some? && getNodesFunctionName.value != [] {
        var pre;
        pre, w' := OptRefreshInstances(now, w', fuel);
        if !pre.Returned? {
          return if pre.Raised? then Raised(pre.error) else Diverged, w';
        }
      }
      // try: return super()._send_request(request)
      var sent := Exchange(w', req);
      w' := sent.0;
      if sent.1 == Fault(NetworkError) {
        // except NetworkError
        connected := false;
        var recovered;
        recovered, w' := OptRefreshInstances(now, w', fuel);
        if recovered.Diverged? {
          return Diverged, w';
        }
      }
      // finally: return super()._send_request(request)
      var resent := Exchange(w', req);
      w' := resent.0;
      out := FromReply(resent.1);
    }
  }
}
