# MeshConnection failover, modelled in Dafny

This project models the failover layer of the Tarantool Python connector,
`tarantool/mesh_connection.py`. That layer sits on top of a single-node
`Connection`. It keeps a round-robin list of cluster nodes. It refreshes that
list from a stored Lua function at most once per refresh interval. It moves
to another node when the current one disappears from the list or stops
answering. It re-sends a request after a NetworkError.

Files:

- `values.dfy` (module `Values`): addresses, the exceptions that can leave
  the core, and the outside world.
  - The outside world is a value `World`. It has the set of nodes that
    accept a connection, the scripted answers to successive requests, and
    logs of the requests sent and the connections attempted.
  - It stands for the inherited `Connection` layer: `_opt_reconnect`,
    `_send_request_wo_reconnect` and the superclass's `_send_request`.
- `uri.dfy` (module `Uri`): `parse_uri`, with Python's `str.split` and
  `int` on sign-and-digit strings.
- `strategy.dfy` (module `Strategy`): the class `RoundRobinStrategy` with
  its cursor, plus functions and lemmas on how the cursor and the draws
  evolve.
- `failover.dfy` (module `Failover`): the fields that the core reads and
  writes, as a value `Session`. Each operation is a function from the old
  fields and the world to the new fields, how the call ended (returned,
  raised an exception, or never returned), and the new world.
- `mesh.dfy` (module `Mesh`): the class `MeshConnection`.
  - Its fields are `strategy`, `host`, `port`, `connected` and
    `last_nodes_refresh`.
  - Its constructor and its methods `_opt_refresh_instances` (with its
    reconnect loop as a separate method) and `_send_request` change those
    fields in place.
  - Each method is proved to leave exactly the fields and outcome that the
    matching function of `Failover` computes.
- `failover_props.dfy` (module `FailoverProps`): what those functions
  promise, and where the code as written departs from what it evidently
  means.
- `findings.dfy` (module `FailoverFixed`): corrected versions of the three
  departures listed under "## Findings", with the intended properties
  proved. The class in `mesh.dfy` follows the code as written.

How the model represents time, exceptions and loops that never end:

- Time is an integer number of milliseconds, passed in as `now`. The refresh
  condition `now - last_nodes_refresh > nodes_refresh_interval/1000` (in
  seconds) becomes `now - lastRefresh > refreshInterval` (in milliseconds).
- A Python exception becomes the outcome `Raised(e)`. The fields keep every
  change made before the raise.
- The reconnect loop can run for ever. A `fuel` parameter bounds the number
  of failed connection attempts, and the outcome `Diverged` stands for a
  call that never returns.

## Model

| member | source | states |
|---|---|---|
| Uri.Split | tarantool/mesh_connection.py:41 | `uri_str.split(':')` gives at least one field. It gives two or more exactly when the separator occurs. No field contains the separator. Joining the fields with it gives back the string. |
| Uri.SplitNoSep | tarantool/mesh_connection.py:41 | A string without the separator splits into itself alone. |
| Uri.SplitAfterField | tarantool/mesh_connection.py:41 | Splitting `a + ':' + t`, where `a` has no colon, gives `a` followed by the fields of `t`. |
| Uri.NatToDecimal | tarantool/mesh_connection.py:44 | The decimal text of `n` is a non-empty digit string whose value is `n`. |
| Uri.DecimalRoundTrip | tarantool/mesh_connection.py:44 | `int(str(n)) == n` for every integer, and `str(n)` has no colon. |
| Uri.ParseInt | tarantool/mesh_connection.py:44 | `int(uri[1])` accepts only non-empty text without a colon. With DecimalRoundTrip it reads back every integer that `str` writes. |
| Uri.ParseUri | tarantool/mesh_connection.py:38-51 | An accepted address has a non-empty, colon-free host and a non-zero port. The input begins with the host followed by a colon. The full accept and reject table is in ParseUriNoColon, ColonFields and ParseUriFields. |
| Uri.ParseAll | tarantool/mesh_connection.py:162 | The parsed node list has the reply's length, and entry `i` is `parse_uri` of string `i`. |
| Uri.ParseUriNoColon | tarantool/mesh_connection.py:39-40 | A string without a colon, the empty string included, is rejected. |
| Uri.ColonFields | tarantool/mesh_connection.py:41-44 | Every string with a colon reads as host, colon, port text, then either nothing or a further colon and more. |
| Uri.ParseUriFields | tarantool/mesh_connection.py:38-51 | On such a reading, the result is `{host, int(port text)}` when the port text is an integer, the host is non-empty and the port is non-zero. Otherwise it is `None`. |
| Uri.ParseUriIgnoresTail | tarantool/mesh_connection.py:41-44 | Text after a second colon does not change the result. |
| Uri.ParseUriRoundTrip | tarantool/mesh_connection.py:38-51 | `parse_uri(host + ':' + str(port)) == {host, port}` for a non-empty, colon-free host and a non-zero port. |
| Strategy.Advance | tarantool/mesh_connection.py:34 | `(pos + 1) % len` is `pos + 1`, or 0 at the end of the list. |
| Strategy.Rotation | tarantool/mesh_connection.py:32-35 | `k` consecutive draws return `k` entries. |
| Strategy.Cursor | tarantool/mesh_connection.py:34 | After any number of draws the cursor is inside the list. |
| Strategy.CursorAdd | tarantool/mesh_connection.py:34 | `a` draws followed by `b` draws move the cursor like `a + b` draws. |
| Strategy.CursorWalk | tarantool/mesh_connection.py:34 | Short of the end of the list, `k` draws move the cursor `k` places. |
| Strategy.CursorReaches | tarantool/mesh_connection.py:34 | From any cursor, every position is reached in fewer than `len` draws. |
| Strategy.CursorFromStart | tarantool/mesh_connection.py:28-35 | From a fresh strategy, after `k <= len` draws the cursor is at `k`, or back at 0 when `k == len`. |
| Strategy.RotationAt | tarantool/mesh_connection.py:32-35 | Draw `i` returns the entry at the cursor reached after `i` draws. |
| Strategy.CursorFromZero | tarantool/mesh_connection.py:28-35 | From a fresh strategy, the cursor after `k` draws is `k % len`, for every `k`. |
| Strategy.FreshDrawAt | tarantool/mesh_connection.py:28-35 | From a fresh strategy, draw `i` returns entry `i % len`, for every `i`. |
| Strategy.FreshRotation | tarantool/mesh_connection.py:28-35 | From a fresh strategy, `len` draws return the list in order, and the next `len` draws repeat it. |
| Strategy.RoundRobinStrategy.constructor | tarantool/mesh_connection.py:28-30 | The new strategy holds the given list, with the cursor at 0. |
| Strategy.RoundRobinStrategy.GetNext | tarantool/mesh_connection.py:32-35 | Returns `addrs[pos]` (the one-draw rotation) and sets `pos` to `(pos + 1) % len`. The cursor stays in range and the list does not change. |
| Failover.Kept | tarantool/mesh_connection.py:123-127 | The filter of `cluster_list` keeps at most as many entries as it is given. |
| Failover.SeedList | tarantool/mesh_connection.py:122-127 | The constructor's list starts with the given address and has at most one entry more than `cluster_list`. KeptMembers and InitialState state exactly which entries it holds. |
| Failover.Initial | tarantool/mesh_connection.py:122-136 | The fields after the constructor have the cursor inside the list. |
| Failover.Draw | tarantool/mesh_connection.py:32-35 | `getnext` on the session returns the one-draw rotation. It moves the cursor one draw and changes nothing else. |
| Failover.Budget | tarantool/mesh_connection.py:174 | The budget is positive and covers the `len - 1` attempts that ReconnectFindsLiveNode needs. BudgetExhausts counts its exact effect, `2 * len + 2` draws. |
| Failover.Reconnect | tarantool/mesh_connection.py:172-189 | See the list after this table. |
| Failover.AdoptNodeList | tarantool/mesh_connection.py:161-170 | The handling of the node-list reply keeps the cursor inside the list. |
| Failover.RefreshDue | tarantool/mesh_connection.py:156 | A refresh is due only on a live connection. RefreshCallsOnlyWhenDue states what the gate controls. |
| Failover.RefreshNodes | tarantool/mesh_connection.py:156-170 | The time-gated refresh keeps the cursor inside the list. |
| Failover.RefreshInstances | tarantool/mesh_connection.py:149-189 | `_opt_refresh_instances` keeps the cursor inside the list. |
| Failover.PreRefresh | tarantool/mesh_connection.py:203-204 | The refresh before a request keeps the cursor inside the list. |
| Failover.TryFinally | tarantool/mesh_connection.py:206-212 | The `try`/`except`/`finally` keeps the cursor inside the list. |
| Failover.SendRequest | tarantool/mesh_connection.py:191-212 | `_send_request` keeps the cursor inside the list. |
| Mesh.MeshConnection.constructor | tarantool/mesh_connection.py:122-136 | The loop builds the filtered list. The strategy is fresh and has been drawn from once. The fields equal `Failover.Initial`. |
| Mesh.MeshConnection.OptRefreshInstances | tarantool/mesh_connection.py:149-189 | The new fields, the outcome and the world are exactly those of `Failover.RefreshInstances` on the old fields. |
| Mesh.MeshConnection.ReconnectLoop | tarantool/mesh_connection.py:172-189 | The `while` loop with budget `2 * len + 1` ends with the fields, outcome and world of `Failover.Reconnect`. It keeps the same strategy object. |
| Mesh.MeshConnection.SendRequest | tarantool/mesh_connection.py:191-212 | The new fields, the outcome and the world are exactly those of `Failover.SendRequest` on the old fields. |
| FailoverProps.KeptMembers | tarantool/mesh_connection.py:123-127 | An address is kept if and only if it is in `cluster_list` and both its host and its port differ from the given ones. No `None` is added. |
| FailoverProps.KeptConcat | tarantool/mesh_connection.py:124-127 | The filter keeps the order of `cluster_list`. |
| FailoverProps.InitialState | tarantool/mesh_connection.py:122-136 | After the constructor, the first entry is the given address, which is current. The list is exactly that address plus the kept entries. The cursor has moved one place and the refresh time is `now`. |
| FailoverProps.AllCurrentExhausts | tarantool/mesh_connection.py:172-189 | When every entry is the current address, the loop dials nothing. It raises NetworkError after exactly `attempts + 1` draws, which is `2 * len + 2` with the source's budget. |
| FailoverProps.BudgetExhausts | tarantool/mesh_connection.py:172-189 | With the budget `2 * len + 1` and every entry the current address, the loop draws exactly `2 * len + 2` times and raises NetworkError. |
| FailoverProps.LiveNodeAhead | tarantool/mesh_connection.py:176-183 | A node that is up and `d` places ahead is connected within `d + 1` draws. |
| FailoverProps.ReconnectFindsLiveNode | tarantool/mesh_connection.py:172-189 | If any listed node other than the current one is up, the loop connects within `len` draws, to a listed node that is up. |
| FailoverProps.DownCycleDiverges | tarantool/mesh_connection.py:176-187 | With all nodes down and neighbouring entries distinct, a loop whose cursor is off the current address never ends. |
| FailoverProps.ReconnectNeverGivesUp | tarantool/mesh_connection.py:176-187 | With all nodes down and neighbouring entries distinct, the loop as written never raises NetworkError. It never returns. |
| FailoverProps.RefreshCallsOnlyWhenDue | tarantool/mesh_connection.py:156-158 | The node-list function is called once if connected and the interval has passed, and never otherwise. Nothing else is sent. |
| FailoverProps.RefreshNotDue | tarantool/mesh_connection.py:156-172 | A live connection whose interval has not passed is left exactly as it is. |
| FailoverProps.RefreshAdoptsList | tarantool/mesh_connection.py:161-166 | A non-empty node list becomes the strategy: the element-wise parse, same length and order, cursor 0, refresh time `now`. When the current address is listed it stays, and nothing is dialed. |
| FailoverProps.RefreshWithoutNodesRaises | tarantool/mesh_connection.py:161-166 | An empty reply raises UnboundLocalError. The fields stay as they were. |
| FailoverProps.RefreshAtMostOncePerInterval | tarantool/mesh_connection.py:156-164 | Two refreshes within the interval (the second at most `nodes_refresh_interval` after the first, which returns) make at most one node-list call between them. |
| FailoverProps.EvictionTakesNextAddress | tarantool/mesh_connection.py:161-170 | When the current address is not in a new node list whose first entry parses to `x`: the list is adopted and drawn from once, `x` becomes current, the connection is closed, and the refresh time is `now`. |
| FailoverProps.EvictionMigrates | tarantool/mesh_connection.py:166-189 | Suppose the current address is not in a refreshed list of valid entries, and a later entry other than the first is up. Then the connection moves to a listed node that is up. |
| FailoverProps.EvictionToSingleNodeFails | tarantool/mesh_connection.py:166-189 | Eviction to a one-entry list raises NetworkError without dialing, even if that node is up. |
| FailoverProps.RejectedFirstEntryRaises | tarantool/mesh_connection.py:162-168 | If the current address is not listed and the first string is rejected, the `None` entry is subscripted and TypeError is raised. |
| FailoverProps.ResendsAfterAnswer | tarantool/mesh_connection.py:206-212 | A request answered by anything but a NetworkError is sent twice. The second answer is returned. |
| FailoverProps.ResendsAfterNetworkError | tarantool/mesh_connection.py:206-212 | After a NetworkError, the connection is marked down and the refresh runs. Unless that refresh never returns, the request is sent again and its answer returned, and any exception of the refresh is discarded. |
| FailoverProps.TryFinallySendsTwice | tarantool/mesh_connection.py:206-212 | The `try`/`finally` sends the request exactly twice, the second time last. |
| FailoverProps.SendRequestSendsTwice | tarantool/mesh_connection.py:191-212 | `_send_request` whose first refresh returns sends the request exactly twice. |
| FailoverProps.RefreshGrowsList | unit/suites/test_mesh.py:56-75 | Scenario of `test_01`: a one-address connection whose refresh is overdue learns a second node on its next call. It stays on the first node and returns the answer. |
| FailoverProps.SkipThenConnect | tarantool/mesh_connection.py:176-183 | Loop of `test_02`: it skips the current first node and connects to the second. |
| FailoverProps.FailoverToSecondNode | unit/suites/test_mesh.py:79-99 | Scenario of `test_02`: after the first node stops, the call fails over to the second node, dials only it, and returns its answer. |
| FailoverFixed.Reconnect | tarantool/mesh_connection.py:172-189 | The corrected loop keeps the cursor law and the connected-iff-returned law. Returned means a listed node that is up. It raises only NetworkError or TypeError. |
| FailoverFixed.ReconnectTerminates | tarantool/mesh_connection.py:186-187 | The corrected loop always ends, within `attempts + 1` draws. |
| FailoverFixed.LiveNodeAhead | tarantool/mesh_connection.py:176-183 | The corrected loop still reaches a live node `d` places ahead within `d + 1` draws. |
| FailoverFixed.ReconnectFindsLiveNode | tarantool/mesh_connection.py:172-189 | With the source's budget, the corrected loop connects whenever another listed node is up. |
| FailoverFixed.AdoptNodeList | tarantool/mesh_connection.py:161-170 | The corrected reply handling only returns or raises TypeError. |
| FailoverFixed.RefreshWithoutNodesKeeps | tarantool/mesh_connection.py:161-166 | With the eviction inside the "got data" block, a due refresh that gets no node list returns normally. The fields stay as they were, the refresh time does not advance, nothing is dialed, and only the node-list call is sent. |
| FailoverFixed.RefreshInstances | tarantool/mesh_connection.py:149-189 | The corrected refresh keeps the cursor inside the list. |
| FailoverFixed.RefreshInstancesEnds | tarantool/mesh_connection.py:149-189 | The corrected refresh always ends. It returns only when connected, and raises nothing of its own but NetworkError or TypeError. |
| FailoverFixed.TryExcept | tarantool/mesh_connection.py:206-212 | The corrected dispatch keeps the cursor inside the list. |
| FailoverFixed.AnswerSentOnce | tarantool/mesh_connection.py:206-212 | In the corrected dispatch, a request answered by anything but a NetworkError is sent once, and its own answer is returned. |
| FailoverFixed.RefreshErrorReported | tarantool/mesh_connection.py:208-210 | In the corrected dispatch, an exception of the refresh after a NetworkError is reported, and the request is not re-sent. |

What `Failover.Reconnect` states:

- The list and the refresh time do not change.
- The cursor has made exactly `draws` moves.
- The connection is up exactly when the loop returns.
- A return is to a listed node that is up.
- The only exceptions are NetworkError and TypeError.
- NetworkError is raised exactly when `attempts + 1` draws found the current address.
- Only `dialed` changes in the world, and it only grows.
- Every draw is either a skip, a dial, or the one `None` that raised TypeError.
- Every dial is of a listed node.
- Every dial before the last one was of a node that is down.

## Left out

- The `Connection` superclass is left out: sockets, authentication,
  `RequestCall` and MessagePack framing, `_opt_reconnect`,
  `_send_request_wo_reconnect` and the superclass's own `_send_request`.
  They are reduced to the `World` value. A connect succeeds exactly when the
  node is in `up`. Requests receive scripted answers in order, and a
  NetworkError once the script is empty. The superclass's own reconnect
  attempts inside `_send_request` are not modelled.
- `connect_now` and the constructor's connection attempt become the
  constructor parameter `connected`.
- `close()` is defined by the superclass, which is not part of this model.
  The model takes its effect to be that `connected` becomes false.
- `time.time()` is the parameter `now`, in milliseconds. It does not advance
  within one call. The float division `nodes_refresh_interval/1000` becomes a
  comparison in milliseconds. Python 2 integer division is not modelled.
- Python's `int()` is modelled on an optional sign followed by ASCII digits.
  Surrounding whitespace, underscores and non-ASCII digits are not accepted
  by the model.
- `parse_uri(None)` and node-list entries that are not strings are not
  modelled. Node lists are sequences of strings.
- Strategy classes other than `RoundRobinStrategy` are not modelled. The
  `strategy_class` parameter is fixed to it.
- Strategy.RoundRobinStrategy.GetNext: requires a non-empty list. On an empty
  list the source raises ZeroDivisionError. No caller in the core can pass
  one, because the constructor's list always holds the given address and an
  empty node list is never adopted.
- Failover.Budget: its contract states only the bounds the other lemmas use.
  The exact value `2 * len + 1` is stated through its effect, in
  BudgetExhausts.
- Failover.Reconnect: the `fuel` parameter bounds the number of failed
  connection attempts. When it runs out the model reports `Diverged` instead
  of looping on, so termination within a given number of steps is not stated.
- Mesh.MeshConnection.OptRefreshInstances: the node-list reply is modelled
  only as rows of strings or an exception. The `None` that `resp.data` may
  be is treated like an empty reply.
- The integration tests (unit/suites/test_mesh.py,
  unit/suites/test_reconnect.py) need live servers. Two of their scenarios
  are stated as lemmas. The tests of the older API in test_reconnect.py do
  not match this revision's constructor and are not modelled.

## Findings

| source | as written | input that shows it | evidently intended | confidence | as-written member | corrected member |
|---|---|---|---|---|---|---|
| tarantool/mesh_connection.py:186-187 | `except NetworkError: continue` does not decrement `nattempts` | a connection that is down, with two listed nodes that are both down: the loop dials them in turn for ever | a failed connection uses up an attempt, and the loop raises NetworkError when the budget is spent | not executed | FailoverProps.ReconnectNeverGivesUp | FailoverFixed.ReconnectTerminates |
| tarantool/mesh_connection.py:161-166 | the eviction check is outside the "got data" block and reads `addrs` even when it was never assigned | a due refresh whose node-list function returns an empty table: UnboundLocalError | an empty node list leaves the strategy and the connection as they were | not executed | FailoverProps.RefreshWithoutNodesRaises | FailoverFixed.RefreshWithoutNodesKeeps |
| tarantool/mesh_connection.py:206-212 | the `return` inside `finally` always runs | any request that gets an answer: it is executed twice and the first answer is discarded; a DatabaseError of the first sending is swallowed | the request is sent again only after a NetworkError | not executed | FailoverProps.ResendsAfterAnswer | FailoverFixed.AnswerSentOnce |

The lemmas also show two behaviours of the code as written that the table
does not list as bugs:

- A node-list string that `parse_uri` rejects stays in the list as `None`.
  Drawing it raises TypeError (FailoverProps.RejectedFirstEntryRaises).
- Eviction to a one-entry list makes that entry current before the loop. The
  loop then skips it as "already current" and raises NetworkError without
  dialing it (FailoverProps.EvictionToSingleNodeFails). This rests on the
  model's reading of `close()` as clearing `connected`; the superclass that
  defines `close()` is not part of this model.
