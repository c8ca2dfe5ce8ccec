/** The proxy's configuration and the part of handleConn that runs between
    accepting a client and starting the relay: discovery, rejection, failover dial. */
module Proxy {
  import opened Address
  import opened Selection

  /** The accepted client connection; the selection step can only close it. */
  class ClientConn {
    /** How many times `Close` has been called on it. */
    var closeCalls: nat

    constructor ()
      ensures closeCalls == 0
    {
      closeCalls := 0;
    }

    predicate Closed()
      reads this
    {
      closeCalls > 0
    }

    method Close()
      modifies this
      ensures closeCalls == old(closeCalls) + 1
    {
      closeCalls := closeCalls + 1;
    }
  }

  class Proxy {
    const listen: string
    const port: uint16
    const timeout: Duration

    /** NewProxy (proxy/proxy.go:28-36): pure configuration, stored unchanged. */
    constructor (listen: string, port: uint16, timeout: Duration)
      ensures this.listen == listen && this.port == port && this.timeout == timeout
    {
      this.listen := listen;
      this.port := port;
      this.timeout := timeout;
    }

    /** The sequential failover loop of handleConn (proxy/proxy.go:81-90): dial each
        backend in the order given, every time with the configured timeout, until one
        connects. `s` and `err` are the loop's two shared variables as left after it;
        `trace` records every dial made. */
    method DialBackends(backends: seq<Backend>, dial: Dialer)
      returns (s: Option<ConnHandle>, err: Option<Error>, ghost trace: seq<Attempt>)
      requires backends != []
      ensures Failover(backends, dial, timeout).Dialed? ==>
        s == Some(Failover(backends, dial, timeout).conn) && err == None
      ensures Failover(backends, dial, timeout).DialFailed? ==>
        s == None && err == Some(Failover(backends, dial, timeout).err)
      ensures trace == Plan(backends, timeout)[..AttemptsMade(backends, dial, timeout)]
    {
      s, err := None, None;
      trace := [];
      var i := 0;
      while i < |backends|
        invariant 0 <= i <= |backends|
        invariant trace == Plan(backends, timeout)[..i]
        invariant forall j :: 0 <= j < i ==> DialAt(backends, j, dial, timeout).DialFailed?
        invariant i == 0 ==> err == None && s == None
        invariant i > 0 ==> s == None && err == Some(DialAt(backends, i - 1, dial, timeout).err)
      {
        var target := DialTarget(backends[i].publicPort);
        trace := trace + [Attempt(target, timeout)];
        match dial(target, timeout) {
          case Dialed(conn) =>
            s, err := Some(conn), None;
          case DialFailed(e) =>
            s, err := None, Some(e);
        }
        if err == None {
          FailoverFirstSuccess(backends, i, dial, timeout);
          return;
        }
        i := i + 1;
      }
      FailoverAllFail(backends, dial, timeout);
    }

    /** handleConn up to the start of the relay (proxy/proxy.go:68-96). `discover` is
        the discovery collaborator's answer for a port at the time of the call; `dial`
        the dialler. On every error exit the client is closed once and the error
        returned; on success the upstream connection is returned for the relay and the
        client is left as it was. */
    method HandleConn(c: ClientConn, discover: uint16 -> Discovery, dial: Dialer)
      returns (err: Option<Error>, s: Option<ConnHandle>, ghost trace: seq<Attempt>)
      modifies c
      ensures err.Some? <==> s.None?
      ensures c.closeCalls == old(c.closeCalls) + (if err.Some? then 1 else 0)
      ensures err.Some? ==> c.Closed()
      ensures discover(port).DiscoveryFailed? ==>
        err == Some(discover(port).err) && trace == []
      ensures discover(port) == Found([]) ==>
        err == Some(NoBackendsError) && trace == []
      ensures discover(port).Found? && discover(port).backends != [] ==>
        var backends := discover(port).backends;
        var r := Failover(backends, dial, timeout);
        trace == Plan(backends, timeout)[..AttemptsMade(backends, dial, timeout)] &&
        match r
        case Dialed(conn) => s == Some(conn)
        case DialFailed(e) => err == Some(e)
    {
      trace := [];
      s := None;
      var found := discover(port);
      if found.DiscoveryFailed? {
        c.Close();
        return Some(found.err), None, [];
      }
      var backends := found.backends;
      if |backends| == 0 {
        c.Close();
        return Some(NoBackendsError), None, [];
      }
      s, err, trace := DialBackends(backends, dial);
      if err.Some? {
        c.Close();
        return err, None, trace;
      }
    }
  }

  /** Every dial the failover makes is to a backend's loopback address, in the order
      discovery gave, with the one configured timeout. */
  lemma TraceTargets(backends: seq<Backend>, dial: Dialer, timeout: Duration, trace: seq<Attempt>)
    requires backends != []
    requires trace == Plan(backends, timeout)[..AttemptsMade(backends, dial, timeout)]
    ensures 1 <= |trace| <= |backends|
    ensures forall i :: 0 <= i < |trace| ==>
      trace[i].timeout == timeout &&
      SplitAtLastColon(trace[i].target) == Some((Loopback, backends[i].publicPort))
  {
    forall i | 0 <= i < |trace|
      ensures trace[i].timeout == timeout
      ensures SplitAtLastColon(trace[i].target) == Some((Loopback, backends[i].publicPort))
    {
      assert trace[i] == AttemptFor(backends, i, timeout);
      SplitJoinHostPort(Loopback, backends[i].publicPort);
    }
  }
}
