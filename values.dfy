/** Values shared by the mesh connection model: node addresses, the
    exceptions that can leave the core, and the outside world the
    connection talks to (the single-node connection layer it inherits
    from, which this model does not implement). */
module Values {

  datatype Option<T> = None | Some(value: T)

  /** A cluster node: the `{'host': ..., 'port': ...}` dictionary of the source. */
  datatype Addr = Addr(host: string, port: int)

  /** Exceptions that can leave `_opt_refresh_instances` or `_send_request`. */
  datatype Error =
    | NetworkError       // transport failure, or the reconnect loop giving up
    | DatabaseError      // the server rejected a request
    | UnboundLocalError  // the local `addrs` read before it was assigned
    | TypeError          // a `None` entry of the node list subscripted

  /** What a request receives: the rows of the response (`resp.data`) or an exception. */
  datatype Reply = Rows(data: seq<seq<string>>) | Fault(error: Error)

  /** A request: the call of the node-list function, or any other request of the application. */
  datatype Request = ListNodes(name: Option<string>) | Query(id: int)

  /** How a Python call ends: it returns a value, raises, or (in a loop the
      source never leaves) does not return at all. */
  datatype Outcome<T> = Returned(value: T) | Raised(error: Error) | Diverged

  /** The outside world, as seen through the inherited connection layer.
      `up` holds the nodes that accept a connection; `replies` the answers that
      successive requests receive, in order; `sent` and `dialed` record the
      requests sent and the connections attempted. */
  datatype World = World(up: set<Addr>, replies: seq<Reply>, sent: seq<Request>, dialed: seq<Addr>)

  /** Sending one request: it is recorded and receives the next scripted
      answer, or a NetworkError when no answer is left. */
  function Exchange(w: World, req: Request): (World, Reply)
  {
    if w.replies == [] then (w.(sent := w.sent + [req]), Fault(NetworkError))
    else (w.(replies := w.replies[1..], sent := w.sent + [req]), w.replies[0])
  }

  /** One connection attempt (`_opt_reconnect`): recorded, and successful
      exactly when the node is up. */
  function Dial(w: World, a: Addr): (World, bool)
  {
    (w.(dialed := w.dialed + [a]), a in w.up)
  }

  /** What a Python caller of a request sees for a reply. */
  function FromReply(r: Reply): Outcome<seq<seq<string>>>
  {
    match r
    case Rows(data) => Returned(data)
    case Fault(e) => Raised(e)
  }
}
