/** The failover logic as its design evidently intends it, where the code as
    written departs from that (see the lemmas ReconnectNeverGivesUp,
    RefreshWithoutNodesRaises and ResendsAfterAnswer in FailoverProps):
    a failed connection attempt uses up the budget, a reply without a node
    list leaves everything as it is, and a request is sent a second time
    only after a NetworkError. */
module FailoverFixed {
  import opened Values
  import opened Uri
  import opened Strategy
  import opened Failover

  /** The reconnect loop with every draw other than a success using up one
      attempt, so that it ends without any fuel. */
  function Reconnect(s: Session, attempts: int, w: World): (r: Run)
    requires s.Valid() && !s.connected && attempts >= -1
    ensures r.s.Valid() && r.s.addrs == s.addrs && r.s.lastRefresh == s.lastRefresh
    ensures r.s.pos == Cursor(s.pos, r.draws, |s.addrs|)
    ensures r.s.connected <==> r.out.Returned?
    ensures r.out.Returned? ==> r.s.cur in w.up && Some(r.s.cur) in s.addrs
    ensures r.out.Raised? ==> r.out.error == NetworkError || r.out.error == TypeError
    ensures r.w == w.(dialed := r.w.dialed)
    decreases attempts + 1
  {
    if attempts < 0 then Run(s, Raised(NetworkError), w, 0, 0)
    else
      var (a, s1) := Draw(s);
      CursorAdd(s.pos, 1, 0, |s.addrs|);
      match a
      case None => Run(s1, Raised(TypeError), w, 1, 0)
      case Some(x) =>
        if x == s.cur then
          var r := Reconnect(s1, attempts - 1, w);
          CursorAdd(s.pos, 1, r.draws, |s.addrs|);
          r.(draws := r.draws + 1, skips := r.skips + 1)
        else
          var (w1, ok) := Dial(w, x);
          if ok then Run(s1.(cur := x, connected := true), Returned(()), w1, 1, 0)
          else
            var r := Reconnect(s1.(cur := x), attempts - 1, w1);
            CursorAdd(s.pos, 1, r.draws, |s.addrs|);
            r.(draws := r.draws + 1)
  }

  /** The corrected loop always ends, after at most `attempts + 1` draws,
      by connecting or by raising; it never runs for ever. */
  lemma {:induction false} ReconnectTerminates(s: Session, attempts: int, w: World)
    requires s.Valid() && !s.connected && attempts >= -1
    ensures !Reconnect(s, attempts, w).out.Diverged?
    ensures Reconnect(s, attempts, w).draws <= attempts + 1
    decreases attempts + 1
  {
    if attempts >= 0 {
      var (a, s1) := Draw(s);
      if a.Some? {
        var x := a.value;
        if x == s.cur {
          ReconnectTerminates(s1, attempts - 1, w);
        } else if x !in w.up {
          ReconnectTerminates(s1.(cur := x), attempts - 1, Dial(w, x).0);
        }
      }
    }
  }

  /** The corrected loop keeps the liveness of the original: a listed node
      that is up and `d` places ahead of the cursor is reached within
      `d + 1` draws when the budget covers them. */
  lemma {:induction false} LiveNodeAhead(s: Session, attempts: int, w: World, x: Addr, d: nat)
    requires s.Valid() && !s.connected
    requires forall i :: 0 <= i < |s.addrs| ==> s.addrs[i].Some?
    requires s.addrs[Cursor(s.pos, d, |s.addrs|)] == Some(x)
    requires x in w.up && x != s.cur && attempts >= d
    ensures Reconnect(s, attempts, w).out == Returned(())
    ensures Reconnect(s, attempts, w).draws <= d + 1
    decreases d
  {
    var s1 := Draw(s).1;
    if d > 0 {
      CursorAdd(s.pos, 1, d - 1, |s.addrs|);
      var y := s.addrs[s.pos].value;
      if y == s.cur {
        LiveNodeAhead(s1, attempts - 1, w, x, d - 1);
      } else if y !in w.up {
        LiveNodeAhead(s1.(cur := y), attempts - 1, Dial(w, y).0, x, d - 1);
      }
    }
  }

  /** With the source's budget `2 * len + 1`, the corrected loop connects
      whenever some listed node other than the current one is up. */
  lemma ReconnectFindsLiveNode(s: Session, w: World, i: nat)
    requires s.Valid() && !s.connected
    requires forall k :: 0 <= k < |s.addrs| ==> s.addrs[k].Some?
    requires i < |s.addrs| && s.addrs[i].value in w.up && s.addrs[i].value != s.cur
    ensures var r := Reconnect(s, Budget(s), w);
      r.out == Returned(()) && r.s.cur in w.up && Some(r.s.cur) in s.addrs && r.draws <= |s.addrs|
  {
    var d := CursorReaches(s.pos, i, |s.addrs|);
    LiveNodeAhead(s, Budget(s), w, s.addrs[i].value, d);
  }

  /** The eviction check inside the "got data" block: a reply without a
      node list changes nothing. */
  function AdoptNodeList(s: Session, data: seq<seq<string>>, now: int): (r: (Session, Outcome<()>))
    requires s.Valid()
    ensures r.0.Valid() && (r.1 == Returned(()) || r.1 == Raised(TypeError))
  {
    if |data| > 0 && |data[0]| > 0 then Failover.AdoptNodeList(s, data, now)
    else (s, Returned(()))
  }

  /** The corrected `_opt_refresh_instances`: the refresh with the eviction
      inside the "got data" block, then the corrected loop. */
  function RefreshInstances(s: Session, cfg: Config, now: int, w: World): (r: Effect<()>)
    requires s.Valid()
    ensures r.s.Valid()
  {
    var first :=
      if RefreshDue(s, cfg, now) then
        var (w1, reply) := Exchange(w, ListNodes(cfg.nodesFunction));
        match reply
        case Fault(e) => Effect(s, Raised(e), w1)
        case Rows(data) =>
          var (s1, out) := AdoptNodeList(s, data, now);
          Effect(s1, out, w1)
      else Effect(s, Returned(()), w);
    if first.out.Returned? && !first.s.connected then
      var run := Reconnect(first.s, Budget(first.s), first.w);
      Effect(run.s, run.out, run.w)
    else first
  }

  /** The corrected refresh: when a due refresh receives no node list (no
      rows, or an empty first row), the call returns normally, the fields
      stay as they were (the refresh time is not advanced), and nothing is
      dialed; only the node-list call has been made. */
  lemma RefreshWithoutNodesKeeps(s: Session, cfg: Config, now: int, w: World, data: seq<seq<string>>)
    requires s.Valid() && RefreshDue(s, cfg, now)
    requires w.replies != [] && w.replies[0] == Rows(data) && (|data| == 0 || |data[0]| == 0)
    ensures RefreshInstances(s, cfg, now, w) ==
      Effect(s, Returned(()), w.(replies := w.replies[1..], sent := w.sent + [ListNodes(cfg.nodesFunction)]))
  {
  }

  /** The corrected refresh never runs for ever and raises nothing of its
      own but NetworkError and TypeError (besides the node-list call's own
      error); when it returns, the connection is up. */
  lemma RefreshInstancesEnds(s: Session, cfg: Config, now: int, w: World)
    requires s.Valid()
    ensures var r := RefreshInstances(s, cfg, now, w);
      !r.out.Diverged? && (r.out.Returned? ==> r.s.connected) &&
      (r.out.Raised? ==> r.out.error == NetworkError || r.out.error == TypeError ||
                         (RefreshDue(s, cfg, now) && w.replies != [] && w.replies[0] == Fault(r.out.error)))
  {
    if RefreshDue(s, cfg, now) {
      var (w1, reply) := Exchange(w, ListNodes(cfg.nodesFunction));
      if reply.Rows? {
        var s1 := AdoptNodeList(s, reply.data, now).0;
        if AdoptNodeList(s, reply.data, now).1.Returned? && !s1.connected {
          ReconnectTerminates(s1, Budget(s1), w1);
        }
      }
    } else if !s.connected {
      ReconnectTerminates(s, Budget(s), w);
    }
  }

  /** The corrected `try`/`except`: the answer to the request is returned;
      only after a NetworkError is the refresh run and the request sent again. */
  function TryExcept(s: Session, cfg: Config, req: Request, now: int, w: World)
    : (r: Effect<seq<seq<string>>>)
    requires s.Valid()
    ensures r.s.Valid()
  {
    var (w1, first) := Exchange(w, req);
    if first != Fault(NetworkError) then Effect(s, FromReply(first), w1)
    else
      var recovered := RefreshInstances(s.(connected := false), cfg, now, w1);
      if recovered.out.Raised? then Effect(recovered.s, Raised(recovered.out.error), recovered.w)
      else
        var (w2, second) := Exchange(recovered.w, req);
        Effect(recovered.s, FromReply(second), w2)
  }

  /** A request answered by anything but a NetworkError is sent once, and
      its own answer (a result or a DatabaseError) is returned. */
  lemma AnswerSentOnce(s: Session, cfg: Config, req: Request, now: int, w: World,
                       first: Reply, rest: seq<Reply>)
    requires s.Valid()
    requires w.replies == [first] + rest && first != Fault(NetworkError)
    ensures TryExcept(s, cfg, req, now, w) ==
      Effect(s, FromReply(first), w.(replies := rest, sent := w.sent + [req]))
  {
    assert ([first] + rest)[1..] == rest;
  }

  /** An exception of the refresh after a NetworkError is reported, not
      swallowed, and the request is then not sent again. */
  lemma RefreshErrorReported(s: Session, cfg: Config, req: Request, now: int, w: World)
    requires s.Valid()
    requires w.replies == [] || w.replies[0] == Fault(NetworkError)
    requires RefreshInstances(s.(connected := false), cfg, now, Exchange(w, req).0).out.Raised?
    ensures var rec := RefreshInstances(s.(connected := false), cfg, now, Exchange(w, req).0);
      TryExcept(s, cfg, req, now, w) == Effect(rec.s, Raised(rec.out.error), rec.w)
  {
  }
}
