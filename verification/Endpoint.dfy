/**
  Network endpoints: the parser of internal/pkg/endpoint and the printer that
  internal/controllers/sharedvolume uses for the published address.
 */
module Endpoint {
  import opened Common
  import opened Strconv

  datatype EndpointError = MissingPort | TooManyColons | MissingBracket | UnexpectedBracket | BadPort

  datatype AddressPort = AddressPort(address: string, port: int)

  function IndexOf(s: string, c: char): (i: int)
    ensures -1 <= i < |s|
    ensures i >= 0 ==> s[i] == c && c !in s[..i]
    ensures i < 0 ==> c !in s
  {
    if s == "" then -1
    else if s[0] == c then 0
    else
      var i := IndexOf(s[1..], c);
      if i < 0 then -1 else
        assert s[..i + 1] == [s[0]] + s[1..][..i];
        i + 1
  }

  function LastIndexOf(s: string, c: char): (i: int)
    ensures -1 <= i < |s|
    ensures i >= 0 ==> s[i] == c && c !in s[i + 1..]
    ensures i < 0 ==> c !in s
  {
    if s == "" then -1
    else if s[|s| - 1] == c then |s| - 1
    else
      var front := s[..|s| - 1];
      assert s == front + [s[|s| - 1]];
      var i := LastIndexOf(front, c);
      assert i >= 0 ==> s[i + 1..] == front[i + 1..] + [s[|s| - 1]];
      i
  }

  /** net.SplitHostPort */
  function SplitHostPort(hostport: string): Result<(string, string), EndpointError> {
    var i := LastIndexOf(hostport, ':');
    if i < 0 then Err(MissingPort)
    else if hostport[0] == '[' then
      var end := IndexOf(hostport, ']');
      if end < 0 then Err(MissingBracket)
      else if end + 1 == |hostport| then Err(MissingPort)
      else if end + 1 != i then
        Err(if hostport[end + 1] == ':' then TooManyColons else MissingPort)
      else if '[' in hostport[1..] || ']' in hostport[end + 1..] then Err(UnexpectedBracket)
      else Ok((hostport[1..end], hostport[i + 1..]))
    else if ':' in hostport[..i] then Err(TooManyColons)
    else if '[' in hostport || ']' in hostport then Err(UnexpectedBracket)
    else Ok((hostport[..i], hostport[i + 1..]))
  }

  /** endpoint.SplitAddressPort */
  function SplitAddressPort(endpoint: string): Result<AddressPort, EndpointError> {
    match SplitHostPort(endpoint)
    case Err(e) => Err(e)
    case Ok((address, port)) =>
      match Atoi(port)
      case None => Err(BadPort)
      case Some(n) => Ok(AddressPort(address, n))
  }

  /** The "%s:%d" printer. */
  function Print(host: string, port: int): string {
    host + ":" + Itoa(port)
  }

  predicate PlainHost(host: string) {
    ':' !in host && '[' !in host && ']' !in host
  }

  lemma ItoaIsPlain(port: int)
    ensures PlainHost(Itoa(port)) && Itoa(port) != ""
  {
    assert forall c | c in Itoa(port) :: c == '-' || IsDigit(c);
  }

  lemma PrintedColon(host: string, port: int)
    ensures var s := Print(host, port);
            LastIndexOf(s, ':') == |host| && s[..|host|] == host && s[|host| + 1..] == Itoa(port)
  {
    ItoaIsPlain(port);
    var s := Print(host, port);
    assert s[|host|] == ':';
    assert s[|host| + 1..] == Itoa(port);
  }

  /**
    Printing then parsing is the identity exactly for hosts without a colon or
    a bracket. In particular a published IPv6 ClusterIP never parses back: the
    bracketed form of section 3.2.2 of RFC 3986 is not produced.
   */
  lemma PrintThenSplit(host: string, port: int)
    requires -(MAX_INT64 + 1) <= port <= MAX_INT64
    ensures SplitAddressPort(Print(host, port)) == Ok(AddressPort(host, port)) <==> PlainHost(host)
  {
    var s := Print(host, port);
    PrintedColon(host, port);
    ItoaIsPlain(port);
    AtoiOfItoa(port);
    if PlainHost(host) {
      assert forall c | c in s :: c in host || c == ':' || c in Itoa(port);
    } else if s[0] == '[' {
      var end := IndexOf(s, ']');
      if end + 1 == |host| {
        assert |s[1..end]| != |host|;
      }
    } else {
      assert forall c | c in host :: c in s;
    }
  }

  lemma FirstAt(s: string, c: char, i: nat)
    requires i < |s| && s[i] == c && c !in s[..i]
    ensures IndexOf(s, c) == i
  {
    assert s[i] in s;
  }

  lemma LastAt(s: string, c: char, i: nat)
    requires i < |s| && s[i] == c && c !in s[i + 1..]
    ensures LastIndexOf(s, c) == i
  {
    assert s[i] in s;
  }

  lemma BracketedHostPort(host: string, port: string)
    requires '[' !in host && ']' !in host && PlainHost(port)
    ensures SplitHostPort("[" + host + "]:" + port) == Ok((host, port))
  {
    var s, end := "[" + host + "]:" + port, |host| + 1;
    assert s[end] == ']' && s[end + 1] == ':';
    assert s[..end] == "[" + host;
    assert s[end + 2..] == port;
    assert s[end + 1..] == ":" + port;
    assert s[1..] == host + ("]:" + port);
    assert s[1..end] == host;
    assert '[' !in "]:" + port && ']' !in ":" + port && ']' !in "[" + host;
    FirstAt(s, ']', end);
    LastAt(s, ':', end + 1);
    hide IndexOf, LastIndexOf, PlainHost;
  }

  /** A plain host and port, or a host in brackets, which may have colons, and a port. */
  predicate HasForm(s: string, host: string, port: string) {
    && PlainHost(port)
    && ((PlainHost(host) && s == host + ":" + port) || ('[' !in host && ']' !in host && s == "[" + host + "]:" + port))
  }

  lemma PlainHostPort(host: string, port: string)
    requires PlainHost(host) && PlainHost(port)
    ensures SplitHostPort(host + ":" + port) == Ok((host, port))
  {
    var s := host + ":" + port;
    assert s[|host|] == ':' && s[..|host|] == host && s[|host| + 1..] == port;
    assert forall c | c in s :: c in host || c == ':' || c in port;
    LastAt(s, ':', |host|);
    hide IndexOf, LastIndexOf;
  }

  /** An endpoint splits into a host and a port if and only if it has one of the two forms. */
  lemma SplitsIff(s: string, host: string, port: string)
    ensures SplitHostPort(s) == Ok((host, port)) <==> HasForm(s, host, port)
  {
    if HasForm(s, host, port) {
      if PlainHost(host) && s == host + ":" + port {
        PlainHostPort(host, port);
      } else {
        BracketedHostPort(host, port);
      }
    } else if SplitHostPort(s) == Ok((host, port)) {
      SplitHasForm(s);
    }
  }

  lemma SplitHasForm(s: string)
    requires SplitHostPort(s).Ok?
    ensures HasForm(s, SplitHostPort(s).value.0, SplitHostPort(s).value.1)
  {
    var i := LastIndexOf(s, ':');
    var (host, port) := SplitHostPort(s).value;
    assert port == s[i + 1..];
    if s[0] == '[' {
      var end := IndexOf(s, ']');
      assert host == s[1..end] && end + 1 == i;
      assert s == "[" + host + "]:" + port;
      assert forall c | c in port :: c in s[1..] && c in s[end + 1..];
      assert forall c | c in host :: c in s[1..] && c in s[..end];
    } else {
      assert host == s[..i];
      assert s == host + ":" + port;
      assert forall c | c in port :: c in s;
      assert forall c | c in host :: c in s;
    }
    hide IndexOf, LastIndexOf;
  }

  /** A host in brackets may have colons: the bracketed form of any host without brackets splits to the host. */
  lemma BracketedSplits(host: string, port: int)
    requires '[' !in host && ']' !in host && -(MAX_INT64 + 1) <= port <= MAX_INT64
    ensures SplitAddressPort("[" + host + "]:" + Itoa(port)) == Ok(AddressPort(host, port))
  {
    ItoaIsPlain(port);
    AtoiOfItoa(port);
    BracketedHostPort(host, Itoa(port));
    hide SplitHostPort, Itoa, Atoi, PlainHost;
  }

  /** The NFS endpoint of an address is the address, a colon and "2049". */
  lemma PrintNfs(address: string)
    ensures Print(address, 2049) == address + ":2049"
  {
    assert Decimal(2) == "2" && Decimal(20) == "20" && Decimal(204) == "204" && Decimal(2049) == "2049";
  }

  /** An unbracketed host with a colon in it is rejected, whatever the port. */
  lemma ColonHostRejected(host: string, port: int)
    requires ':' in host && host[0] != '['
    ensures SplitAddressPort(Print(host, port)) == Err(TooManyColons)
  {
    PrintedColon(host, port);
  }
}
