/** What `MeshConnection` does to its own fields and to the outside world,
    written as functions on the values of those fields. The class in
    mesh.dfy is proved to follow these functions step by step; the lemmas
    in failover_props.dfy state what they promise. */
module Failover {
  import opened Values
  import opened Uri
  import opened Strategy

  /** An entry of the node list: `None` where `parse_uri` rejected the string. */
  type Slot = Option<Addr>

  /** The fields of a MeshConnection that the core reads and writes: the
      strategy's list and cursor, the current `host`/`port`, the `connected`
      flag and `last_nodes_refresh` (milliseconds). */
  datatype Session = Session(addrs: seq<Slot>, pos: nat, cur: Addr, connected: bool, lastRefresh: int)
  {
    predicate Valid() { pos < |addrs| }
  }

  /** The fields set once by the constructor: `get_nodes_function_name` and
      `nodes_refresh_interval` (milliseconds). */
  datatype Config = Config(nodesFunction: Option<string>, refreshInterval: int)

  /** A step's new fields, how it ended, and the world after it. */
  datatype Effect<T> = Effect(s: Session, out: Outcome<T>, w: World)

  /** Python's truth value of `get_nodes_function_name`. */
  predicate Truthy(name: Option<string>) { name.Some? && name.value != [] }

  // ----- the constructor's address list -----

  /** The `cluster_list` entries the constructor appends: those whose host
      differs from `host` and whose port differs from `port`, in order. */
  function Kept(cluster: seq<Addr>, host: string, port: int): (kept: seq<Slot>)
    ensures |kept| <= |cluster|
  {
    if cluster == [] then []
    else
      var e := cluster[|cluster| - 1];
      Kept(cluster[..|cluster| - 1], host, port) +
        (if e.host == host || e.port == port then [] else [Some(e)])
  }

  /** The constructor's list: the given address, then the kept cluster entries. */
  function SeedList(host: string, port: int, cluster: seq<Addr>): (addrs: seq<Slot>)
    ensures 1 <= |addrs| <= |cluster| + 1 && addrs[0] == Some(Addr(host, port))
  {
    [Some(Addr(host, port))] + Kept(cluster, host, port)
  }

  /** The fields right after the constructor: a fresh strategy over the list
      has been drawn from once, and its first entry is the current address.
      `connected` is whatever the inherited constructor's connection attempt
      left; `now` is the clock reading. */
  function Initial(host: string, port: int, cluster: seq<Addr>, connected: bool, now: int): (s: Session)
    ensures s.Valid()
  {
    var addrs := SeedList(host, port, cluster);
    Session(addrs, Advance(0, |addrs|), Addr(host, port), connected, now)
  }

  // ----- the reconnect loop -----

  /** `strategy.getnext()`: the entry at the cursor, and the advanced cursor. */
  function Draw(s: Session): (r: (Slot, Session))
    requires s.Valid()
    ensures r.1.Valid() && r.1.addrs == s.addrs && r.1.cur == s.cur && r.1.connected == s.connected
    ensures r.1.pos == Cursor(s.pos, 1, |s.addrs|) && [r.0] == Rotation(s.addrs, s.pos, 1)
  {
    (s.addrs[s.pos], s.(pos := Advance(s.pos, |s.addrs|)))
  }

  /** The end of the reconnect loop, with the number of draws it made and the
      number of those that found the current address (`skips`). */
  datatype Run = Run(s: Session, out: Outcome<()>, w: World, draws: nat, skips: nat)

  /** The loop `while nattempts >= 0` of `_opt_refresh_instances`, entered
      with `attempts` left. A draw equal to the current address uses up one
      attempt; a different one becomes the current address and is dialed:
      success ends the loop, failure continues it WITHOUT using up an attempt.
      A `None` draw raises TypeError; running out of attempts raises
      NetworkError. The source can loop for ever; `fuel` bounds the failed
      dials, and the model reports `Diverged` when it runs out. */
  function Reconnect(s: Session, attempts: int, w: World, fuel: nat): (r: Run)
    requires s.Valid() && !s.connected && attempts >= -1
    ensures r.s.Valid() && r.s.addrs == s.addrs && r.s.lastRefresh == s.lastRefresh
    ensures r.s.pos == Cursor(s.pos, r.draws, |s.addrs|)
    ensures r.s.connected <==> r.out.Returned?
    ensures r.out.Returned? ==> r.s.cur in w.up && Some(r.s.cur) in s.addrs
    ensures r.out.Raised? ==> r.out.error == NetworkError || r.out.error == TypeError
    ensures r.out == Raised(NetworkError) <==> r.skips == attempts + 1
    ensures r.skips <= attempts + 1
    ensures r.w == w.(dialed := r.w.dialed)
    ensures |w.dialed| <= |r.w.dialed| && r.w.dialed[..|w.dialed|] == w.dialed
    ensures r.draws == r.skips + (|r.w.dialed| - |w.dialed|) + (if r.out == Raised(TypeError) then 1 else 0)
    ensures forall i :: |w.dialed| <= i < |r.w.dialed| ==> Some(r.w.dialed[i]) in s.addrs
    ensures forall i :: |w.dialed| <= i < |r.w.dialed| - 1 ==> r.w.dialed[i] !in w.up
    decreases fuel, attempts + 1
  {
    if attempts < 0 then Run(s, Raised(NetworkError), w, 0, 0)
    else
      var (a, s1) := Draw(s);
      CursorAdd(s.pos, 1, 0, |s.addrs|);
      match a
      case None => Run(s1, Raised(TypeError), w, 1, 0)
      case Some(x) =>
        if x == s.cur then
          var r := Reconnect(s1, attempts - 1, w, fuel);
          CursorAdd(s.pos, 1, r.draws, |s.addrs|);
          r.(draws := r.draws + 1, skips := r.skips + 1)
        else
          var (w1, ok) := Dial(w, x);
          if ok then Run(s1.(cur := x, connected := true), Returned(()), w1, 1, 0)
          else if fuel == 0 then Run(s1.(cur := x), Diverged, w1, 1, 0)
          else
            var r := Reconnect(s1.(cur := x), attempts, w1, fuel - 1);
            CursorAdd(s.pos, 1, r.draws, |s.addrs|);
            assert r.w.dialed[..|w1.dialed|] == w1.dialed;
            assert r.w.dialed[..|w.dialed|] == w1.dialed[..|w.dialed|];
            r.(draws := r.draws + 1)
  }

  /** The budget the source gives the loop: `2 * len(addrs) + 1`. */
  function Budget(s: Session): (b: int)
    ensures b > 0 && b >= |s.addrs| - 1
  {
    2 * |s.addrs| + 1
  }

  // ----- the refresh -----

  /** Whether `_opt_refresh_instances` calls the node-list function. */
  predicate RefreshDue(s: Session, cfg: Config, now: int)
    ensures RefreshDue(s, cfg, now) ==> s.connected
  {
    s.connected && now - s.lastRefresh > cfg.refreshInterval
  }

  /** Lines 161-170 on the rows of the node-list reply: a non-empty first row
      becomes the list of a fresh strategy and the refresh time is `now`;
      otherwise the local `addrs` is unbound and reading it raises
      UnboundLocalError. If the current address is not listed, the next
      address of the strategy becomes current (TypeError if it is `None`) and
      the connection is closed. */
  function AdoptNodeList(s: Session, data: seq<seq<string>>, now: int): (r: (Session, Outcome<()>))
    requires s.Valid()
    ensures r.0.Valid()
  {
    if |data| > 0 && |data[0]| > 0 then
      var listed := s.(addrs := ParseAll(data[0]), pos := 0, lastRefresh := now);
      if Some(s.cur) in listed.addrs then (listed, Returned(()))
      else
        var (a, s1) := Draw(listed);
        match a
        case None => (s1, Raised(TypeError))
        case Some(x) => (s1.(cur := x, connected := false), Returned(()))
    else (s, Raised(UnboundLocalError))
  }

  /** Lines 156-170: the time-gated call of the node-list function and what
      is done with its reply. An exception of the call propagates. */
  function RefreshNodes(s: Session, cfg: Config, now: int, w: World): (r: Effect<()>)
    requires s.Valid()
    ensures r.s.Valid()
  {
    if RefreshDue(s, cfg, now) then
      var (w1, reply) := Exchange(w, ListNodes(cfg.nodesFunction));
      match reply
      case Fault(e) => Effect(s, Raised(e), w1)
      case Rows(data) =>
        var (s1, out) := AdoptNodeList(s, data, now);
        Effect(s1, out, w1)
    else Effect(s, Returned(()), w)
  }

  /** `_opt_refresh_instances`: the time-gated refresh, then the reconnect
      loop when the connection is down. */
  function RefreshInstances(s: Session, cfg: Config, now: int, w: World, fuel: nat): (r: Effect<()>)
    requires s.Valid()
    ensures r.s.Valid()
  {
    var first := RefreshNodes(s, cfg, now, w);
    if first.out.Returned? && !first.s.connected then
      var run := Reconnect(first.s, Budget(first.s), first.w, fuel);
      Effect(run.s, run.out, run.w)
    else first
  }

  // ----- dispatch -----

  /** The refresh `_send_request` makes before the request: only when a
      node-list function is named. */
  function PreRefresh(s: Session, cfg: Config, now: int, w: World, fuel: nat): (r: Effect<()>)
    requires s.Valid()
    ensures r.s.Valid()
  {
    if Truthy(cfg.nodesFunction) then RefreshInstances(s, cfg, now, w, fuel)
    else Effect(s, Returned(()), w)
  }

  /** The `try`/`except`/`finally` of `_send_request`: the request is sent;
      a NetworkError marks the connection down and runs the refresh again.
      Whatever happened, the `return` in `finally` sends the request once
      more and returns that answer, discarding the first answer and any
      exception raised in between. */
  function TryFinally(s: Session, cfg: Config, req: Request, now: int, w: World, fuel: nat)
    : (r: Effect<seq<seq<string>>>)
    requires s.Valid()
    ensures r.s.Valid()
  {
    var (w1, first) := Exchange(w, req);
    var recovered :=
      if first == Fault(NetworkError) then RefreshInstances(s.(connected := false), cfg, now, w1, fuel)
      else Effect(s, Returned(()), w1);
    if recovered.out.Diverged? then Effect(recovered.s, Diverged, recovered.w)
    else
      var (w2, second) := Exchange(recovered.w, req);
      Effect(recovered.s, FromReply(second), w2)
  }

  /** `_send_request`: the optional refresh first (its exception
      propagates), then the request. */
  function SendRequest(s: Session, cfg: Config, req: Request, now: int, w: World, fuel: nat)
    : (r: Effect<seq<seq<string>>>)
    requires s.Valid()
    ensures r.s.Valid()
  {
    var pre := PreRefresh(s, cfg, now, w, fuel);
    match pre.out
    case Raised(e) => Effect(pre.s, Raised(e), pre.w)
    case Diverged => Effect(pre.s, Diverged, pre.w)
    case Returned(_) => TryFinally(pre.s, cfg, req, now, pre.w, fuel)
  }
}
