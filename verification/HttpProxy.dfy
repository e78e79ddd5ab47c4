/**
A connection of the HTTP proxy (serve, handleConn and handle in http.go): who closes the peer that
was dialled for it. Dials and writes are given by their outcomes.
*/
module HttpProxy {
  import opened Wrappers
  import opened Endpoints
  import opened BasicAuth

  /** A dialled peer: owned by the code that dialled it, closed, or owned by the two copying goroutines. */
  datatype Peer = Peer(addr: string, owner: Owner)
  datatype Owner = Handler | Nobody | Copiers

  datatype Request = Request(isConnect: bool, host: string, authorization: string)

  /** Whether a dial succeeds, and whether the first write after it does. */
  datatype Outcome = Outcome(dials: bool, writes: bool)

  /** The address to dial: the host of the request, with the default port of its method if it has none. */
  function Target(r: Request): string {
    if ':' in r.host then r.host else JoinHostPort(r.host, if r.isConnect then "443" else "80")
  }

  /** A host without a port is dialled at port 443 for CONNECT and at port 80 otherwise. */
  lemma DefaultPort(r: Request)
    requires ':' !in r.host && BracketFree(r.host)
    ensures SplitHostPort(Target(r)) == Some((r.host, if r.isConnect then "443" else "80"))
  {
    SplitJoined(r.host, if r.isConnect then "443" else "80");
  }

  /** A host that names its port is dialled as it is. */
  lemma NamedPort(r: Request)
    requires ':' in r.host
    ensures Target(r) == r.host
  {
  }

  class Server {
    const credentials: Credentials
    var peers: seq<Peer>   // every peer ever dialled

    constructor (credentials: Credentials)
      ensures this.credentials == credentials && peers == []
    {
      this.credentials := credentials;
      peers := [];
    }

    /** handleConn and handle: a peer that is returned is open, and one that is not returned is closed. */
    method Connect(r: Request, o: Outcome) returns (peer: Option<nat>)
      modifies this`peers
      ensures peer == if o.dials && o.writes then Some(|old(peers)|) else None
      ensures peers == old(peers) +
        if o.dials then [Peer(Target(r), if o.writes then Handler else Nobody)] else []
    {
      var addr := r.host;
      if ':' !in addr {
        var port := if r.isConnect then "443" else "80";
        addr := JoinHostPort(addr, port);
      }
      if !o.dials { return None; }
      peers := peers + [Peer(addr, Handler)];
      peer := Some(|peers| - 1);
      if !o.writes {
        peers := peers[|peers| - 1 := peers[|peers| - 1].(owner := Nobody)];
        peer := None;
      }
    }

    /**
    serve: whatever the outcomes, no peer stays with the handler. One is dialled only for a request
    that was read and authenticated, at its target; it is handed over when the first write succeeds,
    and closed otherwise.
    */
    method Serve(request: Option<Request>, o: Outcome)
      requires forall i :: 0 <= i < |peers| ==> peers[i].owner != Handler
      modifies this`peers
      ensures forall i :: 0 <= i < |peers| ==> peers[i].owner != Handler
      ensures |old(peers)| <= |peers| <= |old(peers)| + 1 && peers[..|old(peers)|] == old(peers)
      ensures |peers| > |old(peers)| <==> request.Some? && o.dials && Authenticate(credentials, request.value.authorization) == Accepted
      ensures request.Some? && request.value.authorization == "" && (credentials.username != [] || credentials.password != []) ==>
        peers == old(peers)
      ensures |peers| > |old(peers)| ==>
        peers[|old(peers)|] == Peer(Target(request.value), if o.writes then Copiers else Nobody)
    {
      if request.None? { return; }
      if Authenticate(credentials, request.value.authorization) != Accepted { return; }
      var peer := Connect(request.value, o);
      if peer.None? { return; }
      peers := peers[peer.value := peers[peer.value].(owner := Copiers)];
    }
  }
}
