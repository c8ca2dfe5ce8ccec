# motarei proxy: backend selection and failover

motarei's proxy accepts TCP connections on a listen address and port. For each
client it asks the discovery collaborator which backends serve that port. It then
dials them one after another on the loopback interface, each dial bounded by the
configured timeout, until one connects. Only then does it start relaying bytes.

This project models that selection step of `handleConn` and the values around it:

- `address.dfy` (module `Address`): Go's `uint16`, the decimal rendering `%d`
  gives a number, and the `host:port` strings the proxy builds. These are the
  listen address (`listen:port`) and the dial target (`127.0.0.1:<PublicPort>`).
  The partner of these builders is `SplitAtLastColon`, the model's own inverse of
  the `%s:%d` format, which splits at the last colon. `SplitJoinHostPort` proves
  that joining and then splitting gives back the host and the port. This splitter
  is not what `net.ResolveTCPAddr` accepts: Go rejects an unbracketed host that
  holds a colon, and address resolution is not part of this model.
- `selection.dfy` (module `Selection`): the discovery answer (an error, or
  backends in trial order), the dial outcome (a connection or an error), and the
  dialler as an oracle from target and timeout to outcome. `Failover` is the
  reference definition: the first backend whose dial succeeds wins, and if none
  does, the last failure is the result. `AttemptsMade` counts the dials made and
  `Plan` lists, in order, the attempts that would be made if every dial failed.
  Lemmas characterise both.
- `proxy.dfy` (module `Proxy`): the `Proxy` class with its immutable
  configuration (`NewProxy`), and the client connection as a class whose `Close`
  calls are counted. `DialBackends` is the source's `for` loop. It reassigns `s`
  and `err` on every attempt, stops at the first success, and records a ghost
  trace of the dials it made. Its contract ties it to `Failover`. `HandleConn` adds
  the two discovery error exits and the final give-up exit. Each of the three
  closes the client exactly once and returns the error. On success the client is
  left open and the upstream connection is returned for the relay.

`handleConn` has no error types of its own. It returns the discovery error itself
(proxy/proxy.go:73), a fresh error with the message `Failed to get backends port`
for an empty list (proxy/proxy.go:79), and the last dial error unwrapped
(proxy/proxy.go:95). The model returns the same three.

## Model

| member | source | states |
|---|---|---|
| `Address.Decimal` | proxy/proxy.go:84 | `%d` output is a nonempty string of digits, with a leading `0` exactly for zero and one digit below ten |
| `Address.ParseDecimalOfDecimal` | proxy/proxy.go:84 | reading the decimal rendering back gives the number rendered |
| `Address.DecimalInjective` | proxy/proxy.go:84 | two ports render to the same digits if and only if they are equal |
| `Address.SplitJoinHostPort` | proxy/proxy.go:40 | the `%s:%d` address splits at its last colon back into exactly the host and the port |
| `Address.ListenAddressFormat` | proxy/proxy.go:40 | the listen address starts with the configured host and carries the configured port unchanged |
| `Address.DialTargetFormat` | proxy/proxy.go:84 | every dial target is `127.0.0.1`, a colon and the backend's public port; distinct ports give distinct targets |
| `Selection.Failover` | proxy/proxy.go:82-96 | reference definition of the failover: a connection is always some backend's dial outcome, and a failure is the last backend's error; characterised fully by `FailoverFirstSuccess`, `FailoverAllFail` and `FailoverSucceedsIff` |
| `Selection.AttemptsMade` | proxy/proxy.go:82-90 | the failover makes at least one and at most as many dials as there are backends |
| `Selection.FailoverFirstSuccess` | proxy/proxy.go:82-90 | when every backend before position k fails and k connects, the result is k's connection after exactly k + 1 dials |
| `Selection.FailoverAllFail` | proxy/proxy.go:82-96 | when every dial fails, every backend is dialled and the result is the last backend's error |
| `Selection.FailoverSucceedsIff` | proxy/proxy.go:82-96 | the failover connects if and only if some backend accepts; the winner is the first that does and every earlier one failed |
| `Selection.AttemptsMadeLocatesResult` | proxy/proxy.go:82-96 | the result is the outcome of the last dial made, and a failed failover has dialled every backend |
| `Proxy.ClientConn.Close` | proxy/proxy.go:72 | `c.Close()` on an error exit: the close count goes up by exactly one |
| `Proxy.Proxy.constructor` | proxy/proxy.go:28-36 | `NewProxy` stores listen address, port and timeout unchanged |
| `Proxy.Proxy.DialBackends` | proxy/proxy.go:81-90 | the loop leaves `s` set and `err` nil with the first successful connection, or `s` nil and `err` the last failure; its dial trace is the plan cut after the winning attempt, or the whole plan |
| `Proxy.Proxy.HandleConn` | proxy/proxy.go:68-96 | a discovery error or an empty backend list closes the client once, returns that error or `Failed to get backends port`, and dials nothing; otherwise the outcome is the failover's; a failed failover closes the client once and returns the last dial error; success leaves the client unclosed |
| `Proxy.TraceTargets` | proxy/proxy.go:82-84 | every recorded dial goes, in order, to `127.0.0.1` and the public port of the backend at the same position, with the one configured timeout |

## Left out

- Discovery: the `discovery.Discovery` implementation is not part of this model. `HandleConn` takes its answer as a function of the port, and `NewProxy` does not store the `d` reference. `PublicPort` is taken to be 16-bit, like the proxy's own port.
- Dialling: `net.DialTimeout` is an oracle. Each answer is either a connection or an error, never both. The timeout is an opaque `Duration` passed to every attempt, with no wall-clock meaning. The oracle is a fixed function of target and timeout, so two backends with the same `PublicPort` always get the same outcome, whereas in the program a second dial to the same port can succeed after the first timed out.
- `Start`: address resolution, `ListenTCP`, the accept loop, `SetNoDelay` and the goroutine that closes the listener on cancellation (proxy/proxy.go:39-66) are socket I/O and concurrency. Only the listen address string (line 40) is modelled.
- The relay after a successful dial (proxy/proxy.go:98-132) is left out. That covers the two `io.Copy` goroutines, the `doneCh` rendezvous, the unsynchronised `goClose` flag and the closing of both connections at teardown. It is concurrent byte copying. `HandleConn` therefore ends where the relay would begin, and does not model the final `return nil`.
- The context argument of `Get`, all `log.Printf` calls, the unused `bufferSize` constant and the unused `done` channel are left out.
