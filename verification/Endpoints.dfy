/**
Host and port texts: net.SplitHostPort and net.JoinHostPort, and the endpoint of a peer on top of
them (resolveIPPAndPort in config.go). Resolution of a host is a parameter.
*/
module Endpoints {
  import opened Wrappers
  import opened Text

  /** The last position of `c`, or None. */
  function LastIndex(s: string, c: char): (r: Option<nat>)
    ensures r.None? ==> c !in s
    ensures r.Some? ==> r.value < |s| && s[r.value] == c && c !in s[r.value + 1..]
  {
    if s == "" then None
    else if s[|s| - 1] == c then Some(|s| - 1)
    else LastIndex(s[..|s| - 1], c)
  }

  /** The first position of `c`, or None. */
  function FirstIndex(s: string, c: char): (r: Option<nat>)
    ensures r.None? ==> c !in s
    ensures r.Some? ==> r.value < |s| && s[r.value] == c && c !in s[..r.value]
  {
    if s == "" then None
    else if s[0] == c then Some(0)
    else
      var r := FirstIndex(s[1..], c);
      if r.None? then None else Some(r.value + 1)
  }

  predicate BracketFree(s: string) {
    '[' !in s && ']' !in s
  }

  /** "[host]:port", the last colon being at `i`. */
  function SplitBracketed(s: string, i: nat): Option<(string, string)>
    requires i < |s| && s[0] == '['
  {
    var end :- FirstIndex(s, ']');
    if end + 1 != i || '[' in s[1..] || ']' in s[i..] then None else Some((s[1..end], s[i + 1..]))
  }

  /** "host:port", the last colon being at `i`. */
  function SplitPlain(s: string, i: nat): Option<(string, string)>
    requires i < |s|
  {
    if ':' in s[..i] || !BracketFree(s) then None else Some((s[..i], s[i + 1..]))
  }

  /** net.SplitHostPort: the port follows the last colon and is not looked at; a bracketed host may hold colons. */
  function SplitHostPort(s: string): Option<(string, string)> {
    var i :- LastIndex(s, ':');
    if s[0] == '[' then SplitBracketed(s, i) else SplitPlain(s, i)
  }

  /** net.JoinHostPort: a host with a colon is taken for an IPv6 literal and gets brackets. */
  function JoinHostPort(host: string, port: string): string {
    if ':' in host then "[" + host + "]:" + port else host + ":" + port
  }

  /** The texts that mean `host` and `port`. */
  predicate Spells(s: string, host: string, port: string) {
    && ':' !in port && BracketFree(host) && BracketFree(port)
    && (s == "[" + host + "]:" + port || (':' !in host && s == host + ":" + port))
  }

  lemma BracketedIsSpelled(s: string, i: nat)
    requires i < |s| && s[0] == '[' && s[i] == ':' && ':' !in s[i + 1..] && SplitBracketed(s, i).Some?
    ensures Spells(s, SplitBracketed(s, i).value.0, SplitBracketed(s, i).value.1)
  {
    var host, port := s[1..i - 1], s[i + 1..];
    assert s == "[" + host + "]:" + port;
    assert forall k :: 0 <= k < |host| ==> host[k] == s[1..][k] == s[..i - 1][k + 1];
    assert forall k :: 0 <= k < |port| ==> port[k] == s[1..][i + k] == s[i..][k + 1];
  }

  lemma PlainIsSpelled(s: string, i: nat)
    requires i < |s| && s[i] == ':' && ':' !in s[i + 1..] && SplitPlain(s, i).Some?
    ensures Spells(s, SplitPlain(s, i).value.0, SplitPlain(s, i).value.1)
  {
    assert s == s[..i] + ":" + s[i + 1..];
  }

  lemma SplitIsSpelled(s: string, host: string, port: string)
    requires SplitHostPort(s) == Some((host, port))
    ensures Spells(s, host, port)
  {
    var i := LastIndex(s, ':').value;
    if s[0] == '[' { BracketedIsSpelled(s, i); } else { PlainIsSpelled(s, i); }
  }

  lemma {:induction false} LastIndexAt(s: string, c: char, i: nat)
    requires i < |s| && s[i] == c && c !in s[i + 1..]
    ensures LastIndex(s, c) == Some(i)
  {
    var n := |s| - 1;
    if i < n {
      assert s[i + 1..][n - i - 1] == s[n] && s[..n][i + 1..] <= s[i + 1..];
      LastIndexAt(s[..n], c, i);
    }
  }

  lemma {:induction false} FirstIndexAt(s: string, c: char, i: nat)
    requires i < |s| && s[i] == c && c !in s[..i]
    ensures FirstIndex(s, c) == Some(i)
  {
    if i > 0 {
      assert s[..i][0] == s[0] && s[1..][..i - 1] == s[..i][1..];
      FirstIndexAt(s[1..], c, i - 1);
    }
  }

  lemma BracketedIsSplit(host: string, port: string)
    requires ':' !in port && BracketFree(host) && BracketFree(port)
    ensures SplitHostPort("[" + host + "]:" + port) == Some((host, port))
  {
    var s, i := "[" + host + "]:" + port, |host| + 2;
    assert s[i + 1..] == port && s[..i - 1] == "[" + host && s[i..] == ":" + port && s[1..] == host + "]:" + port;
    LastIndexAt(s, ':', i);
    FirstIndexAt(s, ']', i - 1);
    assert s[1..i - 1] == host;
  }

  lemma PlainIsSplit(host: string, port: string)
    requires ':' !in port && BracketFree(host) && BracketFree(port) && ':' !in host
    ensures SplitHostPort(host + ":" + port) == Some((host, port))
  {
    var s, i := host + ":" + port, |host|;
    assert s[..i] == host && s[i + 1..] == port && s[i] == ':';
    LastIndexAt(s, ':', i);
    assert BracketFree(s) && s[0] != '[';
  }

  lemma SpelledIsSplit(s: string, host: string, port: string)
    requires Spells(s, host, port)
    ensures SplitHostPort(s) == Some((host, port))
  {
    if s == "[" + host + "]:" + port { BracketedIsSplit(host, port); } else { PlainIsSplit(host, port); }
  }

  /** A text splits into host and port if and only if it spells them. */
  lemma SplitHostPortExactly(s: string, host: string, port: string)
    ensures SplitHostPort(s) == Some((host, port)) <==> Spells(s, host, port)
  {
    if SplitHostPort(s) == Some((host, port)) { SplitIsSpelled(s, host, port); }
    if Spells(s, host, port) { SpelledIsSplit(s, host, port); }
  }

  /** Joining and splitting again gives back the host and the port. */
  lemma SplitJoined(host: string, port: string)
    requires ':' !in port && BracketFree(host) && BracketFree(port)
    ensures SplitHostPort(JoinHostPort(host, port)) == Some((host, port))
  {
    SpelledIsSplit(JoinHostPort(host, port), host, port);
  }

  // ---------------------------------------------------------------- endpoints

  /** net.IPAddr: the printed address, and the zone of a scoped IPv6 address. */
  datatype IPAddr = IPAddr(ip: string, zone: string) {
    function Text(): string {
      if zone == "" then ip else ip + "%" + zone
    }
  }

  /** resolveIPPAndPort. */
  function ResolveIPAndPort(resolve: string -> Option<IPAddr>, addr: string): Option<string> {
    var parts :- SplitHostPort(addr);
    var ip :- resolve(parts.0);
    Some(JoinHostPort(ip.Text(), parts.1))
  }

  /** The resolved address fits on a line if and only if the port text and the zone do. */
  lemma ResolvedLine(ip: IPAddr, port: string)
    requires NoNewline(ip.ip)
    ensures NoNewline(JoinHostPort(ip.Text(), port)) <==> NoNewline(ip.zone) && NoNewline(port)
  {
    var text := ip.Text();
    NoNewlineAppend(ip.ip + "%", ip.zone);
    NoNewlineAppend(ip.ip, "%");
    NoNewlineAppend("[" + text + "]:", port);
    NoNewlineAppend("[" + text, "]:");
    NoNewlineAppend("[", text);
    NoNewlineAppend(text + ":", port);
    NoNewlineAppend(text, ":");
  }

  /** strings.ToLower, rune by rune. */
  function ToLower(lower: char -> char, s: string): (r: string)
    ensures |r| == |s| && forall i :: 0 <= i < |s| ==> r[i] == lower(s[i])
  {
    seq(|s|, i requires 0 <= i < |s| => lower(s[i]))
  }

  /** Splitting a text into host and port neither adds nor loses a newline. */
  lemma SplitKeepsNewlines(s: string, host: string, port: string)
    requires SplitHostPort(s) == Some((host, port))
    ensures NoNewline(s) <==> NoNewline(host) && NoNewline(port)
  {
    SplitIsSpelled(s, host, port);
    if s == "[" + host + "]:" + port {
      NoNewlineAppend("[" + host + "]:", port);
      NoNewlineAppend("[" + host, "]:");
      NoNewlineAppend("[", host);
    } else {
      NoNewlineAppend(host + ":", port);
      NoNewlineAppend(host, ":");
    }
  }

  lemma LowerKeepsNewlines(lower: char -> char, s: string)
    requires forall c :: lower(c) == '\n' <==> c == '\n'
    ensures NoNewline(ToLower(lower, s)) <==> NoNewline(s)
  {
    var r := ToLower(lower, s);
    if !NoNewline(s) {
      var i :| 0 <= i < |s| && s[i] == '\n';
      assert r[i] == '\n';
    }
  }
}
