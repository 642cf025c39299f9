/**
 * The endpoint descriptor of the tunnel: a `[user@]host[:port]` text parsed
 * into an `Address` and rendered back as `host:port`.
 *
 * Parsing is lenient. It never fails, it drops whatever follows a second '@'
 * or a second ':', and a port that is missing or not a signed decimal reads
 * as 0.
 */
module Addresses {
  import opened GoStrings
  import opened Strconv

  /** `Address{Host, Port, User}`; an absent user is the empty string. */
  datatype Address = Address(host: string, port: int, user: string)

  /**
   * `NewAddress`: start from the whole text as the host; if it contains '@',
   * the first '@'-piece becomes the user and the second the host; then, if
   * the host contains ':', the first ':'-piece becomes the host and Atoi of
   * the second the port.
   */
  function NewAddress(s: string): (a: Address)
    ensures '@' !in a.host && ':' !in a.host
    ensures '@' !in a.user
    ensures '@' !in s ==> a.user == ""
    ensures ':' !in s ==> a.port == 0
  {
    var address := Address(s, 0, "");
    var atParts := Split(address.host, '@');
    var address := if |atParts| > 1 then address.(user := atParts[0], host := atParts[1]) else address;
    var colonParts := Split(address.host, ':');
    if |colonParts| > 1 then address.(host := colonParts[0], port := Atoi(colonParts[1])) else address
  }

  /** `Address.String`: the host, a ':' and the port in decimal; the user is not printed. */
  function String(a: Address): (r: string)
    ensures |r| > |a.host| && r[..|a.host|] == a.host && r[|a.host|] == ':'
    ensures Atoi(r[|a.host| + 1..]) == a.port
    ensures IsCanonicalDecimal(r[|a.host| + 1..])
    ensures forall i :: |a.host| < i < |r| ==> r[i] != '@' && r[i] != ':'
  {
    var r := a.host + ":" + FormatInt(a.port);
    assert r[|a.host| + 1..] == FormatInt(a.port);
    r
  }

  /** The user is dropped on render: two addresses that differ only in their user print alike. */
  lemma StringIgnoresUser(a: Address, b: Address)
    requires a.host == b.host && a.port == b.port
    ensures String(a) == String(b)
  {
  }

  /** A text without '@' has no user, and one with neither '@' nor ':' is all host, port 0. */
  lemma NewAddressBare(h: string)
    requires '@' !in h && ':' !in h
    ensures NewAddress(h) == Address(h, 0, "")
  {
    SplitWithout(h, '@');
    SplitWithout(h, ':');
  }

  /** The user is the text before the first '@', whatever follows it. */
  lemma NewAddressUser(u: string, t: string)
    requires '@' !in u
    ensures NewAddress(u + "@" + t).user == u
  {
    SplitAtFirst(u, '@', t);
  }

  /**
   * With a user, the rest is parsed as if the host text (the text between
   * the first '@' and the next one, or the end) had been given alone.
   */
  lemma NewAddressWithUser(u: string, h: string)
    requires '@' !in u && '@' !in h
    ensures NewAddress(u + "@" + h) == NewAddress(h).(user := u)
  {
    SplitAtFirst(u, '@', h);
    SplitWithout(h, '@');
  }

  /** Everything after a second '@' is discarded. */
  lemma NewAddressDropsAfterSecondAt(u: string, h: string, t: string)
    requires '@' !in u && '@' !in h
    ensures NewAddress(u + "@" + h + "@" + t) == NewAddress(u + "@" + h)
  {
    SplitAtFirst(u, '@', h + "@" + t);
    SplitAtFirst(h, '@', t);
    assert u + "@" + h + "@" + t == u + "@" + (h + "@" + t);
    SplitAtFirst(u, '@', h);
    SplitWithout(h, '@');
  }

  /** In a host text, the host is the text before the first ':' and the port is Atoi of what follows. */
  lemma NewAddressPort(h: string, p: string)
    requires '@' !in h && ':' !in h
    requires '@' !in p && ':' !in p
    ensures NewAddress(h + ":" + p) == Address(h, Atoi(p), "")
  {
    SplitWithout(h + ":" + p, '@');
    SplitAtFirst(h, ':', p);
    SplitWithout(p, ':');
  }

  /** Everything after a second ':' is discarded. */
  lemma NewAddressDropsAfterSecondColon(h: string, p: string, t: string)
    requires '@' !in h && ':' !in h
    requires '@' !in p && ':' !in p
    requires '@' !in t
    ensures NewAddress(h + ":" + p + ":" + t) == NewAddress(h + ":" + p)
  {
    var s := h + ":" + p + ":" + t;
    assert '@' !in s by {
      assert forall i :: 0 <= i < |s| ==> s[i] != '@' by {
        forall i | 0 <= i < |s| ensures s[i] != '@' {
          if i < |h| { assert s[i] == h[i]; }
          else if i == |h| { }
          else if i < |h| + 1 + |p| { assert s[i] == p[i - |h| - 1]; }
          else if i == |h| + 1 + |p| { }
          else { assert s[i] == t[i - |h| - 2 - |p|]; }
        }
      }
    }
    SplitWithout(s, '@');
    assert s == h + ":" + (p + ":" + t);
    SplitAtFirst(h, ':', p + ":" + t);
    SplitAtFirst(p, ':', t);
    NewAddressPort(h, p);
  }

  /** The full form `user@host:port` gives exactly those three fields. */
  lemma NewAddressFull(u: string, h: string, p: string)
    requires '@' !in u
    requires '@' !in h && ':' !in h
    requires '@' !in p && ':' !in p
    ensures NewAddress(u + "@" + h + ":" + p) == Address(h, Atoi(p), u)
  {
    assert u + "@" + h + ":" + p == u + "@" + (h + ":" + p);
    NewAddressWithUser(u, h + ":" + p);
    NewAddressPort(h, p);
  }

  /**
   * Round trip: parsing a rendered address gives back its host and port,
   * with no user, provided the host is one a parse could have produced.
   */
  lemma NewAddressString(a: Address)
    requires '@' !in a.host && ':' !in a.host
    ensures NewAddress(String(a)) == a.(user := "")
  {
    var p := FormatInt(a.port);
    assert '@' !in p && ':' !in p by {
      assert forall i :: 0 <= i < |p| ==> p[i] != '@' && p[i] != ':';
    }
    NewAddressPort(a.host, p);
  }

  /** Rendering after parsing is idempotent: re-parsing and re-rendering changes nothing. */
  lemma StringNewAddressIdempotent(s: string)
    ensures String(NewAddress(String(NewAddress(s)))) == String(NewAddress(s))
  {
    NewAddressString(NewAddress(s));
  }

  /**
   * `user@host:port` renders as `host:port` when the port is written as
   * `%d` would write it (no '+', no leading zero, no "-0").
   */
  lemma StringNewAddressFull(u: string, h: string, p: string)
    requires '@' !in u
    requires '@' !in h && ':' !in h
    requires IsCanonicalDecimal(p)
    ensures String(NewAddress(u + "@" + h + ":" + p)) == h + ":" + p
  {
    assert '@' !in p && ':' !in p by {
      assert forall i :: 0 <= i < |p| ==> p[i] != '@' && p[i] != ':' by {
        forall i | 0 <= i < |p| ensures p[i] != '@' && p[i] != ':' {
          assert IsDigit(p[i]) || p[i] == '-';
        }
      }
    }
    NewAddressFull(u, h, p);
    FormatIntAtoi(p);
  }
}
