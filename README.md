# go-sshtunnel endpoint addresses, in Dafny

This project models the address handling of the go-sshtunnel package, a
single-use local port-forwarding tunnel through an SSH gateway. Three endpoints
are written as `[user@]host[:port]` text: the local listen address, the gateway
and the destination. The model covers three pieces of code:

- `NewAddress`, which parses such a text into an `Address{Host, Port, User}`;
- `(*Address).String`, which renders an address as `host:port`;
- the part of the factory `NewSSHTunnel` that parses the three endpoints,
  gives the gateway port 22 when it parses to 0, and passes the gateway's user
  to the client configuration.

All of these are pure, so the model uses functions over datatypes:

- `go_strings.dfy` (module `GoStrings`): Go's `strings.Split` for a
  one-character separator, with `strings.Join` as its inverse.
- `strconv.dfy` (module `Strconv`): `strconv.Atoi` with its error discarded, and
  the `%d` formatting of an integer (`FormatInt`).
- `addresses.dfy` (module `Addresses`): the `Address` datatype, `NewAddress`,
  `String`, and the lemmas about them.
- `tunnel.dfy` (module `Tunnel`): the addresses of a new tunnel and the
  gateway's default port.

Edge cases of the parser that the model makes explicit:

- The user is split off at the first '@', not the last. The text is cut at
  every '@' and only the first two pieces are kept: the user is the text
  before the first '@', the host text is the text between the first and the
  second '@', and anything after a second '@' is dropped (`NewAddressUser`,
  `NewAddressDropsAfterSecondAt`).
- A port may be negative. `Atoi` accepts a sign, so `host:-5` gives port -5,
  and `String` prints it back as `host:-5` (`FormatInt`, `NewAddressString`).
- The local port text is spliced into `"localhost:" + localport` and is not
  checked. A text containing '@' replaces `localhost` and fills in a user
  (`LocalPortWithAt`); a text containing ':' keeps only what precedes the
  first ':' as the port, so "80:90" gives port 80 (`LocalPortWithColon`).

## Model

| member | source | states |
|---|---|---|
| `GoStrings.Split` | ssh_tunnel.go:28-35 | the pieces `strings.Split` yields: at least one; more than one exactly when the separator occurs; no piece contains the separator or a character not in the input; joining them with the separator gives the input back |
| `GoStrings.SplitJoin` | ssh_tunnel.go:28-35 | Split inverts Join on separator-free pieces, so the pieces are uniquely determined by the input |
| `Strconv.Atoi` | ssh_tunnel.go:35 | an optional '+'/'-' then one or more ASCII digits gives that integer; anything else (empty, lone sign, any other character) gives 0, the value Port keeps when the error is discarded; a negative result comes only from a leading '-' |
| `Strconv.Digits` | ssh_tunnel.go:42 | the decimal digits of a natural number: only digits, denoting that number, no leading zero |
| `Strconv.FormatInt` | ssh_tunnel.go:42 | what `%d` prints for the port: a canonical decimal, with only digits after an optional leading '-', which Atoi reads back as the same integer |
| `Strconv.FormatIntAtoi` | ssh_tunnel.go:35 | for every canonical decimal text, printing what Atoi read gives the text back; with FormatInt's contract, Atoi and `%d` are inverse |
| `Strconv.AtoiRejects` | ssh_tunnel.go:35 | a character that is not a digit, other than a sign in the first position, makes the discarded Atoi error occur, and the port is 0 |
| `Addresses.NewAddress` | ssh_tunnel.go:23-39 | a parsed host never contains '@' or ':'; a parsed user never contains '@'; no '@' in the input gives an empty user; no ':' in the input gives port 0 |
| `Addresses.String` | ssh_tunnel.go:41-43 | the rendering is the host, then ':', then the port exactly as `%d` prints it: a canonical decimal (no '+', no leading zero) that Atoi reads back as the port and that contains neither '@' nor ':' |
| `Addresses.StringIgnoresUser` | ssh_tunnel.go:41-43 | two addresses with the same host and port render identically, whatever their users |
| `Addresses.NewAddressBare` | ssh_tunnel.go:23-36 | a text without '@' and ':' is all host, with port 0 and no user |
| `Addresses.NewAddressUser` | ssh_tunnel.go:28-31 | the user is the text before the first '@', whatever follows |
| `Addresses.NewAddressWithUser` | ssh_tunnel.go:28-36 | `user@hosttext` parses as `hosttext` alone, with that user |
| `Addresses.NewAddressDropsAfterSecondAt` | ssh_tunnel.go:28-31 | everything from a second '@' on is ignored |
| `Addresses.NewAddressPort` | ssh_tunnel.go:33-36 | `host:p` gives that host and port Atoi(p); a missing, empty or non-numeric p gives 0, with no error |
| `Addresses.NewAddressDropsAfterSecondColon` | ssh_tunnel.go:33-36 | everything from a second ':' on is ignored |
| `Addresses.NewAddressFull` | ssh_tunnel.go:23-39 | `user@host:p` gives exactly host, Atoi(p) and user |
| `Addresses.NewAddressString` | ssh_tunnel.go:23-43 | round trip: parsing a rendered address whose host has no '@' or ':' gives back its host and port, with an empty user |
| `Addresses.StringNewAddressIdempotent` | ssh_tunnel.go:23-43 | rendering after parsing is idempotent: parsing and rendering again gives the same text |
| `Addresses.StringNewAddressFull` | ssh_tunnel.go:23-43 | `user@host:port`, with the port written as `%d` writes it, renders as `host:port` (the user is dropped) |
| `Tunnel.NewSSHTunnel` | ssh_tunnel.go:157-180 | the gateway port is never 0; the gateway keeps its parsed host, user and any non-zero port; the configured user is the gateway's user; the destination is parsed unchanged |
| `Tunnel.GatewayPort22` | ssh_tunnel.go:160-163 | the gateway port is 22 exactly when it parsed to 0 or to 22 |
| `Tunnel.GatewayDefaultPort` | ssh_tunnel.go:160-163 | a gateway port that is absent, or whose text reads as 0 (an explicit 0, empty, non-numeric), becomes 22; any other is kept; for gateways written with a user |
| `Tunnel.GatewayDefaultPortNoUser` | ssh_tunnel.go:160-163 | the same default for gateways written `host:p` or `host`: 22 when the port text reads as 0 or is absent, Atoi(p) otherwise, and no user |
| `Tunnel.LocalEndpoint` | ssh_tunnel.go:159 | for a port text without '@' or ':', the local endpoint is host `localhost` on Atoi of that text, with no user |
| `Tunnel.LocalPortWithAt` | ssh_tunnel.go:159 | a port text containing '@' puts `localhost:` and the text before the '@' into the local user, and the rest replaces host and port |
| `Tunnel.LocalPortWithColon` | ssh_tunnel.go:159 | a port text containing ':' gives host `localhost` on Atoi of the text before its first ':'; the rest is dropped |

## Left out

- `Start` (accept loop, `newConnectionWaiter`, the `select` on the close channel), `Close` and the shutdown drain: goroutines and unbuffered-channel coordination.
- `forward`: the gateway dial, the destination dial through the SSH client, and the two `io.Copy` goroutines are network I/O through an external SSH library.
- The `Conns` and `SvrConns` registries: shared slices appended to from several goroutines without synchronisation, and closed through foreign I/O.
- Writing the port the kernel actually bound back into the local endpoint after `net.Listen`: it depends on the operating system.
- The `auth` parameter of `NewSSHTunnel`, the rest of `ssh.ClientConfig` and the host-key callback that accepts every key: opaque library values and a security policy, not logic. Only the config's `User` is modelled (`configUser`).
- `logf` and the `logger` interface: a logging sink.
- `Strconv.Atoi`: does not model the clamping of out-of-range values to Go's 64-bit `int`. Ports are unbounded integers, so `String` of a port outside that range is also not limited to Go's width.
- Go strings are byte sequences; the model uses Dafny's `string` (a sequence of characters). Splitting on the ASCII characters '@' and ':' gives the same pieces either way.
