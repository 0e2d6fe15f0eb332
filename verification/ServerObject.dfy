/**
  The server's deque of connections, changed in place.  Shows ties it to the table machine;
  conns lists, in the order of their accepts, the connection objects that the machine's
  handles stand for.
 */
module ServerObjects {
  import opened Bytes
  import opened Messages
  import opened ConnectionObjects
  import E = Endpoints
  import S = ServerTables

  /** The pointer that a handle stands for. */
  function Pointer(conns: seq<Connection>, h: S.Handle): Connection? {
    if h.Some? && h.value < |conns| then conns[h.value] else null
  }

  function Pointers(conns: seq<Connection>, hs: seq<S.Handle>): (ps: seq<Connection?>)
    ensures |ps| == |hs|
  {
    seq(|hs|, i requires 0 <= i < |hs| => Pointer(conns, hs[i]))
  }

  /** Handles that are not null stand for accepted connections. */
  predicate Known(conns: seq<Connection>, hs: seq<S.Handle>) {
    forall h | h in hs :: h.Some? ==> h.value < |conns|
  }

  ghost predicate Distinct(conns: seq<Connection>) {
    forall i, j | 0 <= i < j < |conns| :: conns[i] != conns[j]
  }

  lemma PointersSnoc(conns: seq<Connection>, hs: seq<S.Handle>, h: S.Handle)
    ensures Pointers(conns, hs + [h]) == Pointers(conns, hs) + [Pointer(conns, h)]
    ensures Known(conns, hs) && (h.Some? ==> h.value < |conns|) ==> Known(conns, hs + [h])
  {
  }

  /** remove of the null pointers, with the erase of what it leaves behind. */
  method RemoveNulls(d: seq<Connection?>, ghost conns: seq<Connection>, ghost hs: seq<S.Handle>)
    returns (r: seq<Connection?>)
    requires d == Pointers(conns, hs) && Known(conns, hs)
    ensures r == Pointers(conns, S.WithoutNulls(hs)) && Known(conns, S.WithoutNulls(hs))
  {
    hide Known, S.WithoutNulls;
    r := [];
    var i := 0;
    assert S.WithoutNulls([]) == [] && hs[..0] == [] && Known(conns, []) by { NoPointers(conns); }
    while i < |d|
      invariant 0 <= i <= |d| == |hs|
      invariant r == Pointers(conns, S.WithoutNulls(hs[..i])) && Known(conns, S.WithoutNulls(hs[..i]))
    {
      assert hs[..i + 1] == hs[..i] + [hs[i]];
      S.WithoutNullsSnoc(hs[..i], hs[i]);
      KnownAt(conns, hs, i);
      PointersSnoc(conns, S.WithoutNulls(hs[..i]), hs[i]);
      if d[i] != null {
        r := r + [d[i]];
      }
      i := i + 1;
    }
    assert hs[..i] == hs;
  }

  /** The endpoint that each connection shows. */
  ghost function Models(conns: seq<Connection>): (es: seq<E.Endpoint>)
    reads conns
    ensures |es| == |conns| && forall c | 0 <= c < |conns| :: es[c] == conns[c].model
  {
    if conns == [] then [] else [conns[0].model] + Models(conns[1..])
  }

  /** Every receiver has had the message sent; the others are as they were. */
  ghost function Sent(es: seq<E.Endpoint>, receivers: seq<nat>, m: Message): (fs: seq<E.Endpoint>)
    ensures |fs| == |es|
  {
    seq(|es|, c requires 0 <= c < |es| => if c in receivers then E.Step(es[c], E.Send(m)) else es[c])
  }

  lemma NoneSent(es: seq<E.Endpoint>, m: Message)
    ensures Sent(es, S.Receivers([]), m) == es
  {
    hide E.Step;
  }

  lemma SentSnoc(es: seq<E.Endpoint>, receivers: seq<nat>, d: nat, m: Message, sent: bool)
    requires d < |es| && d !in receivers
    ensures Sent(es, receivers, m)[d] == es[d]
    ensures Sent(es, receivers + if sent then [d] else [], m)
         == Sent(es, receivers, m)[d := if sent then E.Step(es[d], E.Send(m)) else es[d]]
  {
    hide E.Step;
    assert receivers + [] == receivers;
  }

  /** The connections are as the table machine has them. */
  ghost predicate InStep(cs: seq<S.Conn>, conns: seq<Connection>)
    reads conns
  {
    && |conns| == |cs| && Distinct(conns)
    && (forall i | 0 <= i < |conns| :: conns[i].open == cs[i].open && conns[i].Valid())
    && (forall i | 0 <= i < |conns| :: cs[i].order.Some? ==> conns[i].id == cs[i].id)
  }

  lemma NoPointers(conns: seq<Connection>)
    ensures Pointers(conns, []) == [] && Known(conns, []) && S.WithoutNulls([]) == []
  {
  }

  lemma KnownAt(conns: seq<Connection>, hs: seq<S.Handle>, i: nat)
    requires Known(conns, hs) && i < |hs|
    ensures hs[i].Some? ==> hs[i].value < |conns|
  {
    assert hs[i] in hs;
  }

  lemma Fits(cs: seq<S.Conn>, conns: seq<Connection>, d: nat)
    requires InStep(cs, conns) && d < |conns|
    ensures |conns| == |cs| && Distinct(conns) && conns[d].Valid() && conns[d].open == cs[d].open
  {
  }

  lemma FitsAll(cs: seq<S.Conn>, conns: seq<Connection>)
    requires InStep(cs, conns)
    ensures |conns| == |cs|
  {
  }

  lemma SameClient(conns: seq<Connection>, d: nat, h: S.Handle)
    requires Distinct(conns) && d < |conns|
    ensures Pointer(conns, h) == conns[d] <==> h == Some(d)
  {
  }

  /** Only connection d has changed, and at most by what it has been sent. */
  twostate lemma OneSent(new cs: seq<S.Conn>, conns: seq<Connection>, new d: nat)
    requires old(InStep(cs, conns)) && d < |conns|
    requires conns[d].Valid() && conns[d].open == old(conns[d].open) && conns[d].id == old(conns[d].id)
    requires forall c | 0 <= c < |conns| && conns[c] != conns[d] :: unchanged(conns[c])
    ensures InStep(cs, conns)
    ensures Models(conns) == old(Models(conns))[d := conns[d].model]
  {
    hide Connection.Valid;
    forall c | 0 <= c < |conns| && c != d ensures conns[c] != conns[d] && conns[c].Valid() {
      assert old(conns[c].Valid());
    }
  }

  lemma Listed(s: S.Server)
    requires S.Inv(s)
    ensures S.Ordered(s.table)
  {
  }

  lemma StartSweep(s: S.Server, m: Message, h: S.Handle)
    ensures S.Swept(s.conns, s.table[..0], m, h) == S.Sweep([], [], [])
    ensures [] + s.table[0..] == s.table
  {
  }

  /** One turn, on values: what it leaves of the table and who is to be sent to or dropped. */
  lemma VisitShape(
    cs: seq<S.Conn>, conns: seq<Connection>, before: S.Sweep, p: S.Handle, rest: seq<S.Handle>, m: Message, h: S.Handle)
    requires |conns| == |cs| && p.Some? && p.value < |conns| && Known(conns, before.table)
    ensures
      var after := S.Visit(cs, before, p, m, h);
      && Pointers(conns, before.table + [p] + rest)[|before.table|] == conns[p.value]
      && Known(conns, after.table)
      && (if S.Live(cs, p) then
            && after.table + rest == before.table + [p] + rest
            && after.dropped == before.dropped
            && S.Receivers(after.sends) == S.Receivers(before.sends) + (if p != h then [p.value] else [])
          else
            && Pointers(conns, after.table + rest) == Pointers(conns, before.table + [p] + rest)[|before.table| := null]
            && Pointers(conns, after.dropped) == Pointers(conns, before.dropped) + [Pointer(conns, p)]
            && after.dropped != []
            && S.Receivers(after.sends) == S.Receivers(before.sends) + [])
  {
  }

  /** The turn for handle i of an ordered table. */
  lemma Turn(s: S.Server, conns: seq<Connection>, m: Message, h: S.Handle, i: nat, before: S.Sweep)
    requires |conns| == |s.conns| && Known(conns, s.table) && S.Ordered(s.table) && i < |s.table|
    requires before == S.Swept(s.conns, s.table[..i], m, h) && Known(conns, before.table)
    ensures s.table[i].Some? && s.table[i].value < |conns|
    ensures s.table[i].value !in S.Receivers(before.sends)
    ensures S.Visit(s.conns, before, s.table[i], m, h) == S.Swept(s.conns, s.table[..i + 1], m, h)
    ensures |before.table| == i && before.table + s.table[i..] == before.table + [s.table[i]] + s.table[i + 1..]
  {
    assert s.table[i] in s.table;
    assert s.table[..i + 1][..i] == s.table[..i];
    TurnFresh(s, m, h, i, before);
    hide S.Visit, S.Receivers, S.Live, S.Ordered;
  }

  lemma TurnFresh(s: S.Server, m: Message, h: S.Handle, i: nat, before: S.Sweep)
    requires S.Ordered(s.table) && i < |s.table|
    requires before == S.Swept(s.conns, s.table[..i], m, h)
    ensures s.table[i].Some? && s.table[i].value !in S.Receivers(before.sends)
  {
    assert s.table[i] in s.table;
    forall k | 0 <= k < i ensures s.table[..i][k].Some? {
      assert s.table[k] in s.table;
    }
    S.SweptMeans(s.conns, s.table[..i], m, h);
    hide S.Swept;
    var c := s.table[i].value;
    forall k | 0 <= k < |before.sends| ensures before.sends[k].0 != c {
      assert (before.sends[k].0, before.sends[k].1) in before.sends;
      assert Some(before.sends[k].0) in s.table[..i];
    }
  }

  class ServerInterface {
    var deqConnections: seq<Connection?>
    var nIDCounter: u32
    var disconnects: seq<Connection?>     // the calls of OnClientDisconnect

    ghost predicate Shows(s: S.Server, conns: seq<Connection>)
      reads this, conns
    {
      && InStep(s.conns, conns)
      && deqConnections == Pointers(conns, s.table)
      && Known(conns, s.table)
      && nIDCounter == s.counter
    }

    constructor ()
      ensures Shows(S.EMPTY, []) && nIDCounter == 10000 && deqConnections == [] && disconnects == []
    {
      deqConnections, nIDCounter, disconnects := [], S.FIRST_ID, [];
    }

    /** The accept handler, without error; approve is the answer of OnClientConnect. */
    method OnAccept(newconn: Connection, approve: bool, ghost s: S.Server, ghost conns: seq<Connection>)
      requires Shows(s, conns) && newconn !in conns
      requires newconn.Valid() && newconn.owner == E.Server && newconn.open && E.Enabled(newconn.model, E.Start)
      modifies this, newconn
      ensures Shows(S.Step(s, S.Accept(approve)), conns + [newconn])
      ensures approve ==> newconn.model == E.Step(old(newconn.model), E.Start)
      ensures if approve then
                && deqConnections == old(deqConnections) + [newconn]
                && newconn.id == old(nIDCounter) && nIDCounter == (old(nIDCounter) + 1) % 0x1_0000_0000
              else
                && deqConnections == old(deqConnections) && nIDCounter == old(nIDCounter)
                && newconn.model == old(newconn.model) && newconn.id == old(newconn.id)
      ensures disconnects == old(disconnects)
    {
      hide Connection.Valid, E.Step, E.Enabled;
      if approve {
        deqConnections := deqConnections + [newconn];
        newconn.ConnectToClient(nIDCounter);
        nIDCounter := SizeField(nIDCounter + 1);
      }
    }

    method MessageClient(
      client: Connection?, m: Message, ghost s: S.Server, ghost conns: seq<Connection>, ghost h: S.Handle)
      requires Shows(s, conns) && S.Inv(s) && S.Enabled(s, S.MessageOne(h, m)) && client == Pointer(conns, h)
      modifies this, client
      ensures Shows(S.Step(s, S.MessageOne(h, m)), conns) && deqConnections == old(deqConnections)
      ensures if S.Live(s.conns, h) then
                && client.model == E.Step(old(client.model), E.Send(m))
                && disconnects == old(disconnects)
              else disconnects == old(disconnects) + [client]
    {
      hide Connection.Valid, E.Step, S.Inv;
      S.MessageOneKeepsInv(s, h, m);
      if client != null && client.IsConnected() {
        client.Send(m);
      } else {
        disconnects := disconnects + [client];
        // client.reset() leaves the null pointer to be searched for
        deqConnections := RemoveNulls(deqConnections, conns, s.table);
      }
    }

    /**
      One turn of the broadcast loop: the client is sent the message, or passed over, or, if
      it cannot be reached, reported and its pointer reset.
     */
    method VisitClient(i: nat, m: Message, ignore: Connection?) returns (invalid: bool)
      requires i < |deqConnections| && (deqConnections[i] != null ==> deqConnections[i].Valid())
      modifies `deqConnections, `disconnects, deqConnections[i]
      ensures invalid == (old(deqConnections)[i] == null || !old(deqConnections[i].open))
      ensures invalid ==>
                && deqConnections == old(deqConnections)[i := null]
                && disconnects == old(disconnects) + [old(deqConnections)[i]]
      ensures !invalid ==> deqConnections == old(deqConnections) && disconnects == old(disconnects)
      ensures var client := old(deqConnections)[i];
              client != null ==>
                && client.Valid() && client.open == old(client.open) && client.id == old(client.id)
                && client.model == if client.open && client != ignore then E.Step(old(client.model), E.Send(m))
                                   else old(client.model)
    {
      hide Connection.Valid, E.Step;
      var client := deqConnections[i];
      invalid := client == null || !client.IsConnected();
      if !invalid {
        if client != ignore {
          client.Send(m);
        }
      } else {
        disconnects := disconnects + [client];
        deqConnections := deqConnections[i := null];
      }
    }

    /** The objects in the middle of a sweep: what it has kept, dropped and sent, and the rest of the table. */
    ghost predicate Visited(
      conns: seq<Connection>, sw: S.Sweep, rest: seq<S.Handle>, m: Message,
      es: seq<E.Endpoint>, base: seq<Connection?>)
      reads `deqConnections, `disconnects, conns
    {
      && |es| == |conns|
      && Known(conns, sw.table) && deqConnections == Pointers(conns, sw.table + rest)
      && disconnects == base + Pointers(conns, sw.dropped)
      && Models(conns) == Sent(es, S.Receivers(sw.sends), m)
    }

    lemma VisitedNone(s: S.Server, conns: seq<Connection>, m: Message, h: S.Handle)
      requires Shows(s, conns)
      ensures |deqConnections| == |s.table|
      ensures Visited(conns, S.Swept(s.conns, s.table[..0], m, h), s.table[0..], m, Models(conns), disconnects)
      ensures S.Swept(s.conns, s.table[..0], m, h).dropped == []
    {
      hide InStep, Sent;
      NoPointers(conns);
      StartSweep(s, m, h);
      NoneSent(Models(conns), m);
    }

    lemma VisitedAll(
      s: S.Server, conns: seq<Connection>, m: Message, h: S.Handle, i: nat, es: seq<E.Endpoint>, base: seq<Connection?>)
      requires |conns| == |s.conns| && i == |s.table|
      requires Visited(conns, S.Swept(s.conns, s.table[..i], m, h), s.table[i..], m, es, base)
      ensures
        var sw := S.Swept(s.conns, s.table, m, h);
        && s.table[..i] == s.table
        && deqConnections == Pointers(conns, sw.table) && Known(conns, sw.table)
        && disconnects == base + Pointers(conns, sw.dropped)
        && Models(conns) == Sent(es, S.Receivers(sw.sends), m)
    {
      hide S.Swept, S.Receivers, Sent, Known;
      var sw := S.Swept(s.conns, s.table, m, h);
      assert s.table[..i] == s.table && sw.table + s.table[i..] == sw.table;
    }

    /** One turn takes the sweep of the table machine one handle further. */
    method TakeTurn(
      i: nat, m: Message, ignore: Connection?,
      ghost s: S.Server, ghost conns: seq<Connection>, ghost h: S.Handle, ghost sw: S.Sweep,
      ghost es: seq<E.Endpoint>, ghost base: seq<Connection?>)
      returns (invalid: bool)
      requires |conns| == |s.conns| == |es| && Known(conns, s.table) && S.Ordered(s.table)
      requires ignore == Pointer(conns, h) && i < |s.table| && sw == S.Swept(s.conns, s.table[..i], m, h)
      requires InStep(s.conns, conns) && Visited(conns, sw, s.table[i..], m, es, base)
      modifies `deqConnections, `disconnects, conns
      ensures var after := S.Swept(s.conns, s.table[..i + 1], m, h);
              && Visited(conns, after, s.table[i + 1..], m, es, base)
              && (invalid || sw.dropped != [] <==> after.dropped != [])
      ensures |deqConnections| == old(|deqConnections|) && InStep(s.conns, conns)
    {
      hide Connection.Valid, E.Step, S.Swept, S.Visit, S.Receivers, Sent, InStep, Pointers, Known;
      Turn(s, conns, m, h, i, sw);
      VisitShape(s.conns, conns, sw, s.table[i], s.table[i + 1..], m, h);
      ghost var d := s.table[i].value;
      Fits(s.conns, conns, d);
      SameClient(conns, d, h);
      invalid := VisitClient(i, m, ignore);
      OneSent(s.conns, conns, d);
      SentSnoc(es, S.Receivers(sw.sends), d, m, S.Live(s.conns, Some(d)) && h != Some(d));
    }

    /** The loop of MessageAllClients. */
    method VisitClients(
      m: Message, ignore: Connection?, ghost s: S.Server, ghost conns: seq<Connection>, ghost h: S.Handle)
      returns (bInvalidClientExists: bool)
      requires Shows(s, conns) && S.Inv(s) && S.Enabled(s, S.MessageAll(m, h)) && ignore == Pointer(conns, h)
      modifies `deqConnections, `disconnects, conns
      ensures var sw := S.Swept(s.conns, s.table, m, h);
              && deqConnections == Pointers(conns, sw.table) && Known(conns, sw.table)
              && disconnects == old(disconnects) + Pointers(conns, sw.dropped)
              && bInvalidClientExists == (sw.dropped != [])
              && Models(conns) == Sent(old(Models(conns)), S.Receivers(sw.sends), m)
      ensures InStep(s.conns, conns)
    {
      hide Connection.Valid, E.Step, E.Enabled;
      hide S.Inv, S.Swept, S.Receivers, S.Ordered, Sent, InStep, Known, Visited, Models;
      FitsAll(s.conns, conns);
      bInvalidClientExists := false;
      var i := 0;
      VisitedNone(s, conns, m, h);
      assert S.Ordered(s.table) by { Listed(s); }
      while i < |deqConnections|
        invariant 0 <= i <= |deqConnections| == |s.table|
        invariant
          var sw := S.Swept(s.conns, s.table[..i], m, h);
          && Visited(conns, sw, s.table[i..], m, old(Models(conns)), old(disconnects))
          && bInvalidClientExists == (sw.dropped != [])
        invariant InStep(s.conns, conns)
      {
        ghost var sw := S.Swept(s.conns, s.table[..i], m, h);
        var invalid := TakeTurn(i, m, ignore, s, conns, h, sw, old(Models(conns)), old(disconnects));
        if invalid {
          bInvalidClientExists := true;
        }
        i := i + 1;
      }
      VisitedAll(s, conns, m, h, i, old(Models(conns)), old(disconnects));
    }

    method MessageAllClients(
      m: Message, ignore: Connection?, ghost s: S.Server, ghost conns: seq<Connection>, ghost h: S.Handle)
      requires Shows(s, conns) && S.Inv(s) && S.Enabled(s, S.MessageAll(m, h)) && ignore == Pointer(conns, h)
      modifies this, conns
      ensures Shows(S.Step(s, S.MessageAll(m, h)), conns)
      ensures Models(conns) == Sent(old(Models(conns)), S.Receivers(S.Swept(s.conns, s.table, m, h).sends), m)
      ensures disconnects == old(disconnects) + Pointers(conns, S.Swept(s.conns, s.table, m, h).dropped)
    {
      hide S.Inv, S.Swept, S.Receivers, Sent, InStep, Models;
      var bInvalidClientExists := VisitClients(m, ignore, s, conns, h);
      if bInvalidClientExists {
        deqConnections := RemoveNulls(deqConnections, conns, S.Swept(s.conns, s.table, m, h).table);
      }
    }
  }
}
