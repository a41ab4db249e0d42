/**
 * The two probes of network/NetworkManager.kt: `attemptConnection` (a socket
 * connect to (ip, PORT) bounded by SOCKET_TIMEOUT, closed at once) and
 * `testConnection` (the same attempt under `withTimeout(SOCKET_TIMEOUT)`).
 * The socket is the environment; what it did is the input of the model.
 */
module Probes {

  /**
   * How `socket.connect` ended: it connected, or it threw one of the
   * exceptions the probe catches.
   */
  datatype SocketResult =
    | Connected
    | ConnectFailed(refused: bool)   // ConnectException; `refused` when its text says "Connection refused"
    | UnknownHost                    // UnknownHostException
    | IoFailure                      // any other IOException
    | SocketTimeout                  // SocketTimeoutException

  /** One text written to a socket opened to `ip`. */
  datatype Delivery = Delivery(ip: string, text: string)

  /** What the `withTimeout` wrapper of testConnection saw. */
  datatype TimedAttempt =
    | Finished(result: SocketResult)
    | TimeoutCancelled               // TimeoutCancellationException: `result` keeps its initial false

  /**
   * attemptConnection's value; it also posts the same value to `isConnected`.
   * Every caught failure yields false, so the probe never throws.
   * (SocketTimeoutException is an IOException, so in the source the IOException
   * clause already catches it; both clauses yield false.)
   */
  function AttemptConnection(r: SocketResult): (ok: bool)
    ensures ok <==> r == Connected
  {
    match r
    case Connected => true
    case ConnectFailed(_) => false
    case UnknownHost => false
    case IoFailure => false
    case SocketTimeout => false
  }

  /** testConnection's value: true only for an attempt that finished and connected. */
  function TestConnection(t: TimedAttempt): (ok: bool)
    ensures ok <==> t == Finished(Connected)
  {
    match t
    case Finished(r) => AttemptConnection(r)
    case TimeoutCancelled => false
  }

  /** The deliveries of one text to a list of addresses, in order. */
  function Deliveries(ips: seq<string>, text: string): (ds: seq<Delivery>)
    ensures |ds| == |ips|
  {
    if ips == [] then [] else Deliveries(ips[..|ips| - 1], text) + [Delivery(ips[|ips| - 1], text)]
  }

  /** Delivery k is one write of the text to address k. */
  lemma {:induction false} DeliveriesContents(ips: seq<string>, text: string)
    decreases |ips|
    ensures forall k :: 0 <= k < |ips| ==> Deliveries(ips, text)[k] == Delivery(ips[k], text)
  {
    if ips != [] {
      var pre := ips[..|ips| - 1];
      DeliveriesContents(pre, text);
      forall k | 0 <= k < |ips|
        ensures Deliveries(ips, text)[k] == Delivery(ips[k], text)
      {
        if k < |pre| {
          assert ips[k] == pre[k];
        }
      }
    }
  }

  /** Delivering to one more address appends one delivery. */
  lemma DeliveriesSnoc(ips: seq<string>, ip: string, text: string)
    ensures Deliveries(ips + [ip], text) == Deliveries(ips, text) + [Delivery(ip, text)]
  {
    assert (ips + [ip])[..|ips|] == ips;
  }
}
