/**
 * The address part of the tunnel factory `NewSSHTunnel`: the three endpoints
 * it parses, the gateway's default port, and the user it hands to the
 * transport configuration.
 *
 * The authentication method, the host-key policy and the connection state
 * (listener, registries, close signal) are not part of this model.
 */
module Tunnel {
  import opened Strconv
  import opened Addresses

  /** Port a gateway is reached on when its address gives none (or 0). */
  const DefaultGatewayPort := 22

  /**
   * The addresses of a freshly made tunnel: the local listen endpoint, the
   * gateway (`Server`), the destination (`Remote`), and the user that the
   * client configuration authenticates as.
   */
  datatype SSHTunnel = SSHTunnel(local: Address, server: Address, remote: Address, configUser: string)

  /**
   * `NewSSHTunnel(tunnel, auth, destination, localport)` without `auth`: the
   * local endpoint is parsed from "localhost:" + localport, the gateway from
   * `tunnel` with its port replaced by 22 when it parsed to 0, and the
   * destination from `destination` as it is.
   */
  function NewSSHTunnel(tunnel: string, destination: string, localport: string): (t: SSHTunnel)
    ensures t.server.port != 0
    ensures t.server.host == NewAddress(tunnel).host && t.server.user == NewAddress(tunnel).user
    ensures NewAddress(tunnel).port != 0 ==> t.server.port == NewAddress(tunnel).port
    ensures t.configUser == t.server.user
    ensures t.remote == NewAddress(destination)
  {
    var localEndpoint := NewAddress("localhost:" + localport);
    var server := NewAddress(tunnel);
    var server := if server.port == 0 then server.(port := DefaultGatewayPort) else server;
    SSHTunnel(localEndpoint, server, NewAddress(destination), server.user)
  }

  /** The gateway port is 22 exactly when the address said 0 (or nothing, or garbage) or 22. */
  lemma GatewayPort22(tunnel: string, destination: string, localport: string)
    ensures NewSSHTunnel(tunnel, destination, localport).server.port == DefaultGatewayPort
            <==> NewAddress(tunnel).port == 0 || NewAddress(tunnel).port == DefaultGatewayPort
  {
  }

  /**
   * A gateway written `[user@]host:p` whose port text reads as 0 (an explicit
   * "0", an empty text, a non-numeric text) gets port 22; so does one with no
   * port at all.
   */
  lemma GatewayDefaultPort(u: string, h: string, p: string, destination: string, localport: string)
    requires '@' !in u
    requires '@' !in h && ':' !in h
    requires '@' !in p && ':' !in p
    ensures Atoi(p) == 0 ==>
              NewSSHTunnel(u + "@" + h + ":" + p, destination, localport).server == Address(h, DefaultGatewayPort, u)
    ensures Atoi(p) != 0 ==>
              NewSSHTunnel(u + "@" + h + ":" + p, destination, localport).server == Address(h, Atoi(p), u)
    ensures NewSSHTunnel(u + "@" + h, destination, localport).server == Address(h, DefaultGatewayPort, u)
  {
    NewAddressFull(u, h, p);
    NewAddressWithUser(u, h);
    NewAddressBare(h);
  }

  /**
   * For a port text without '@' or ':', the local endpoint is `localhost`
   * on Atoi of that text ("0" asks the system for a free port), with no user.
   */
  lemma LocalEndpoint(tunnel: string, destination: string, localport: string)
    requires '@' !in localport && ':' !in localport
    ensures NewSSHTunnel(tunnel, destination, localport).local == Address("localhost", Atoi(localport), "")
  {
    assert '@' !in "localhost" && ':' !in "localhost" by {
      assert forall i :: 0 <= i < |"localhost"| ==> "localhost"[i] in "lochast";
    }
    NewAddressPort("localhost", localport);
    assert "localhost:" + localport == "localhost" + ":" + localport;
  }

  /**
   * The local port text is not checked: one that contains '@' puts
   * "localhost:" and the text before the '@' into the local endpoint's user,
   * and the text after it replaces "localhost" as host and port.
   */
  lemma LocalPortWithAt(tunnel: string, destination: string, u: string, rest: string)
    requires '@' !in u && '@' !in rest
    ensures NewSSHTunnel(tunnel, destination, u + "@" + rest).local == NewAddress(rest).(user := "localhost:" + u)
  {
    var user := "localhost:" + u;
    assert '@' !in user by {
      assert forall i :: 0 <= i < |"localhost:"| ==> "localhost:"[i] in "lochast:";
    }
    assert "localhost:" + (u + "@" + rest) == user + "@" + rest;
    NewAddressWithUser(user, rest);
  }

  /**
   * A local port text containing ':' keeps only what precedes the first
   * ':' as the port text; the rest is dropped.
   */
  lemma LocalPortWithColon(tunnel: string, destination: string, p: string, t: string)
    requires '@' !in p && ':' !in p && '@' !in t
    ensures NewSSHTunnel(tunnel, destination, p + ":" + t).local == Address("localhost", Atoi(p), "")
  {
    assert '@' !in "localhost" && ':' !in "localhost" by {
      assert forall i :: 0 <= i < |"localhost"| ==> "localhost"[i] in "lochast";
    }
    NewAddressDropsAfterSecondColon("localhost", p, t);
    NewAddressPort("localhost", p);
    assert "localhost:" + (p + ":" + t) == "localhost" + ":" + p + ":" + t;
  }

  /** The same default for a gateway written without a user: `host:p` or `host`. */
  lemma GatewayDefaultPortNoUser(h: string, p: string, destination: string, localport: string)
    requires '@' !in h && ':' !in h
    requires '@' !in p && ':' !in p
    ensures Atoi(p) == 0 ==>
              NewSSHTunnel(h + ":" + p, destination, localport).server == Address(h, DefaultGatewayPort, "")
    ensures Atoi(p) != 0 ==>
              NewSSHTunnel(h + ":" + p, destination, localport).server == Address(h, Atoi(p), "")
    ensures NewSSHTunnel(h, destination, localport).server == Address(h, DefaultGatewayPort, "")
  {
    NewAddressPort(h, p);
    NewAddressBare(h);
  }
}
