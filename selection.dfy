/** The values handleConn works with before any byte is relayed, and the
    reference definition of its sequential failover over the discovered backends. */
module Selection {
  import opened Address

  /** An opaque Go `error`, identified by its message. */
  datatype Error = Error(msg: string)

  /** The error handleConn returns when discovery found no backend (proxy/proxy.go:79). */
  const NoBackendsError: Error := Error("Failed to get backends port")

  /** Go's `time.Duration`: a signed 64-bit count of nanoseconds, passed through untouched. */
  type Duration = int

  /** An established upstream connection, opaque to the proxy. */
  type ConnHandle = nat

  /** A backend as discovery reports it; only its public port is used. */
  datatype Backend = Backend(publicPort: uint16)

  /** What `Discovery.Get` answers: an error, or backends in trial order. */
  datatype Discovery = DiscoveryFailed(err: Error) | Found(backends: seq<Backend>)

  /** What `net.DialTimeout` answers: a connection, or an error (never both). */
  datatype DialResult = Dialed(conn: ConnHandle) | DialFailed(err: Error)

  /** The dialler as an oracle: target address and per-attempt timeout to outcome. */
  type Dialer = (string, Duration) -> DialResult

  /** One call of the dialler, as the proxy issues it. */
  datatype Attempt = Attempt(target: string, timeout: Duration)

  /** The attempt made for the backend at position `i`. */
  function AttemptFor(backends: seq<Backend>, i: nat, timeout: Duration): (a: Attempt)
    requires i < |backends|
  {
    Attempt(DialTarget(backends[i].publicPort), timeout)
  }

  /** The attempts in the order they would be made if every dial failed. */
  function Plan(backends: seq<Backend>, timeout: Duration): (p: seq<Attempt>)
    ensures |p| == |backends|
    ensures forall i :: 0 <= i < |p| ==> p[i] == AttemptFor(backends, i, timeout)
  {
    seq(|backends|, i requires 0 <= i < |backends| => AttemptFor(backends, i, timeout))
  }

  /** Outcome of dialling the backend at position `i`. */
  function DialAt(backends: seq<Backend>, i: nat, dial: Dialer, timeout: Duration): (r: DialResult)
    requires i < |backends|
  {
    var a := AttemptFor(backends, i, timeout);
    dial(a.target, a.timeout)
  }

  /** Reference definition of the failover: the first backend whose dial succeeds
      wins; if none does, the last failure is the result. */
  function Failover(backends: seq<Backend>, dial: Dialer, timeout: Duration): (r: DialResult)
    requires backends != []
    ensures r.Dialed? ==> exists i :: 0 <= i < |backends| && r == DialAt(backends, i, dial, timeout)
    ensures r.DialFailed? ==> r == DialAt(backends, |backends| - 1, dial, timeout)
    decreases |backends|
  {
    var first := DialAt(backends, 0, dial, timeout);
    if first.Dialed? || |backends| == 1 then first
    else
      assert forall i :: 0 <= i < |backends| - 1 ==>
        DialAt(backends[1..], i, dial, timeout) == DialAt(backends, i + 1, dial, timeout);
      Failover(backends[1..], dial, timeout)
  }

  /** How many dials the failover makes: up to and including the first success,
      or all of them. */
  function AttemptsMade(backends: seq<Backend>, dial: Dialer, timeout: Duration): (n: nat)
    requires backends != []
    ensures 1 <= n <= |backends|
    decreases |backends|
  {
    if DialAt(backends, 0, dial, timeout).Dialed? || |backends| == 1 then 1
    else 1 + AttemptsMade(backends[1..], dial, timeout)
  }

  /** Dialling the backend at position `i` of a suffix is dialling position `i + 1`. */
  lemma DialAtTail(backends: seq<Backend>, i: nat, dial: Dialer, timeout: Duration)
    requires i + 1 < |backends|
    ensures DialAt(backends[1..], i, dial, timeout) == DialAt(backends, i + 1, dial, timeout)
  {
  }

  /** The backend at position `k` wins exactly when every earlier one failed and it
      succeeded; then it was attempted last and its connection is the result. */
  lemma {:induction false} FailoverFirstSuccess(backends: seq<Backend>, k: nat, dial: Dialer, timeout: Duration)
    requires k < |backends|
    requires forall j :: 0 <= j < k ==> DialAt(backends, j, dial, timeout).DialFailed?
    requires DialAt(backends, k, dial, timeout).Dialed?
    ensures Failover(backends, dial, timeout) == DialAt(backends, k, dial, timeout)
    ensures AttemptsMade(backends, dial, timeout) == k + 1
    decreases k
  {
    if k > 0 {
      var tail := backends[1..];
      forall j | 0 <= j < k - 1
        ensures DialAt(tail, j, dial, timeout).DialFailed?
      {
        DialAtTail(backends, j, dial, timeout);
      }
      DialAtTail(backends, k - 1, dial, timeout);
      FailoverFirstSuccess(tail, k - 1, dial, timeout);
    }
  }

  /** When every dial fails, all backends are attempted and the last failure is
      the result. */
  lemma {:induction false} FailoverAllFail(backends: seq<Backend>, dial: Dialer, timeout: Duration)
    requires backends != []
    requires forall j :: 0 <= j < |backends| ==> DialAt(backends, j, dial, timeout).DialFailed?
    ensures Failover(backends, dial, timeout) == DialAt(backends, |backends| - 1, dial, timeout)
    ensures AttemptsMade(backends, dial, timeout) == |backends|
    decreases |backends|
  {
    if |backends| > 1 {
      var tail := backends[1..];
      forall j | 0 <= j < |tail|
        ensures DialAt(tail, j, dial, timeout).DialFailed?
      {
        DialAtTail(backends, j, dial, timeout);
      }
      DialAtTail(backends, |tail| - 1, dial, timeout);
      FailoverAllFail(tail, dial, timeout);
    }
  }

  /** The failover connects if and only if some backend accepts the dial; it then
      returns the connection of the first that does, after exactly that many attempts. */
  lemma {:induction false} FailoverSucceedsIff(backends: seq<Backend>, dial: Dialer, timeout: Duration)
    requires backends != []
    ensures Failover(backends, dial, timeout).Dialed?
        <==> exists i :: 0 <= i < |backends| && DialAt(backends, i, dial, timeout).Dialed?
    ensures Failover(backends, dial, timeout).Dialed? ==>
      var k := AttemptsMade(backends, dial, timeout) - 1;
      DialAt(backends, k, dial, timeout).Dialed? &&
      Failover(backends, dial, timeout) == DialAt(backends, k, dial, timeout) &&
      forall j :: 0 <= j < k ==> DialAt(backends, j, dial, timeout).DialFailed?
    decreases |backends|
  {
    if exists i :: 0 <= i < |backends| && DialAt(backends, i, dial, timeout).Dialed? {
      var k := FirstDialed(backends, dial, timeout);
      FailoverFirstSuccess(backends, k, dial, timeout);
    } else {
      FailoverAllFail(backends, dial, timeout);
    }
  }

  /** The least position whose dial succeeds, given that one does. */
  lemma FirstDialed(backends: seq<Backend>, dial: Dialer, timeout: Duration) returns (k: nat)
    requires exists i :: 0 <= i < |backends| && DialAt(backends, i, dial, timeout).Dialed?
    ensures k < |backends| && DialAt(backends, k, dial, timeout).Dialed?
    ensures forall j :: 0 <= j < k ==> DialAt(backends, j, dial, timeout).DialFailed?
  {
    k := 0;
    while DialAt(backends, k, dial, timeout).DialFailed?
      invariant k < |backends|
      invariant forall j :: 0 <= j < k ==> DialAt(backends, j, dial, timeout).DialFailed?
      decreases |backends| - k
    {
      k := k + 1;
    }
  }

  /** The attempt count locates the outcome: the result is the outcome of the last
      dial made, and a failed failover has dialled every backend. */
  lemma AttemptsMadeLocatesResult(backends: seq<Backend>, dial: Dialer, timeout: Duration)
    requires backends != []
    ensures Failover(backends, dial, timeout)
         == DialAt(backends, AttemptsMade(backends, dial, timeout) - 1, dial, timeout)
    ensures Failover(backends, dial, timeout).DialFailed?
        ==> AttemptsMade(backends, dial, timeout) == |backends|
  {
    FailoverSucceedsIff(backends, dial, timeout);
    if Failover(backends, dial, timeout).DialFailed? {
      FailoverAllFail(backends, dial, timeout);
    }
  }
}
