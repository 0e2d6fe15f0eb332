/**
  The server's table of connections over whole runs: accepts, closes, broadcasts and messages
  to one client.

  A connection is identified by its place in the order of accepts; a handle is a shared
  pointer, which may be null.
 */
module ServerTables {
  import opened Bytes
  import opened Messages

  const FIRST_ID: u32 := 10000

  type Handle = Option<nat>

  /** order, the number of approvals before this one, is history. */
  datatype Conn = Conn(open: bool, id: u32, order: Option<nat>)

  /**
    History: approved counts approvals, sends is every Send with its connection, dropped the
    connections a broadcast has reported to OnClientDisconnect, and complaints the handles
    MessageClient has.
   */
  datatype Server = Server(
    table: seq<Handle>,
    counter: u32,
    conns: seq<Conn>,
    approved: nat,
    sends: seq<(nat, Message)>,
    dropped: seq<nat>,
    complaints: seq<Handle>)

  const EMPTY := Server([], FIRST_ID, [], 0, [], [], [])

  datatype Event =
    | Accept(approve: bool)               // a connection, and OnClientConnect's answer
    | AcceptError
    | Close(c: nat)                       // the socket of connection c is closed
    | MessageAll(m: Message, ignore: Handle)
    | MessageOne(client: Handle, m: Message)

  predicate Enabled(s: Server, e: Event) {
    match e
    case Close(c) => c < |s.conns|
    case MessageAll(_, ignore) => ignore.Some? ==> ignore.value < |s.conns|
    case MessageOne(client, _) => client.Some? ==> client.value < |s.conns|
    case _ => true
  }

  /** client && client->IsConnected() */
  predicate Live(conns: seq<Conn>, h: Handle) {
    h.Some? && h.value < |conns| && conns[h.value].open
  }

  /** What the broadcast loop has made of a prefix of the table. */
  datatype Sweep = Sweep(table: seq<Handle>, sends: seq<(nat, Message)>, dropped: seq<Handle>)

  /** One turn of the loop. */
  function Visit(conns: seq<Conn>, sw: Sweep, h: Handle, m: Message, ignore: Handle): Sweep {
    if Live(conns, h) then
      Sweep(sw.table + [h], if h != ignore then sw.sends + [(h.value, m)] else sw.sends, sw.dropped)
    else Sweep(sw.table + [None], sw.sends, sw.dropped + [h])
  }

  function Swept(conns: seq<Conn>, table: seq<Handle>, m: Message, ignore: Handle): (sw: Sweep)
    ensures |sw.table| == |table|
  {
    if table == [] then Sweep([], [], [])
    else Visit(conns, Swept(conns, table[..|table| - 1], m, ignore), table[|table| - 1], m, ignore)
  }

  /** erase(remove(begin, end, nullptr), end) */
  function WithoutNulls(table: seq<Handle>): seq<Handle> {
    if table == [] then []
    else WithoutNulls(table[..|table| - 1]) + (if table[|table| - 1].Some? then [table[|table| - 1]] else [])
  }

  /** The connections of handles that are not null. */
  function Conns(hs: seq<Handle>): seq<nat> {
    if hs == [] then []
    else Conns(hs[..|hs| - 1]) + (if hs[|hs| - 1].Some? then [hs[|hs| - 1].value] else [])
  }

  function Step(s: Server, e: Event): Server
    requires Enabled(s, e)
  {
    match e
    case Accept(approve) =>
      if approve then
        s.(conns := s.conns + [Conn(true, s.counter, Some(s.approved))],
           table := s.table + [Some(|s.conns|)],
           counter := SizeField(s.counter + 1),
           approved := s.approved + 1)
      else s.(conns := s.conns + [Conn(true, 0, None)])
    case AcceptError => s
    case Close(c) => s.(conns := s.conns[c := s.conns[c].(open := false)])
    case MessageAll(m, ignore) =>
      var sw := Swept(s.conns, s.table, m, ignore);
      s.(table := if sw.dropped != [] then WithoutNulls(sw.table) else sw.table,
         sends := s.sends + sw.sends,
         dropped := s.dropped + Conns(sw.dropped))
    case MessageOne(client, m) =>
      if Live(s.conns, client) then s.(sends := s.sends + [(client.value, m)])
      else
        // the handle is reset before the table is searched for it, so nulls are searched for
        s.(table := WithoutNulls(s.table), complaints := s.complaints + [client])
  }

  // ---------- What a broadcast does ----------

  ghost predicate NoNulls(table: seq<Handle>) {
    forall h | h in table :: h.Some?
  }

  ghost predicate Increasing(cs: seq<nat>) {
    forall i, j | 0 <= i < j < |cs| :: cs[i] < cs[j]
  }

  /** The connections of the table, in order. */
  ghost predicate Ordered(table: seq<Handle>) {
    NoNulls(table) && forall i, j | 0 <= i < j < |table| :: table[i].value < table[j].value
  }

  function Receivers(sends: seq<(nat, Message)>): (cs: seq<nat>)
    ensures |cs| == |sends|
  {
    seq(|sends|, i requires 0 <= i < |sends| => sends[i].0)
  }

  /** kept are the live handles of the table, in order. */
  ghost predicate KeptMeans(conns: seq<Conn>, table: seq<Handle>, kept: seq<Handle>) {
    Ordered(kept) && forall h :: h in kept <==> h in table && Live(conns, h)
  }

  /** Each live connection of the table is sent the message once, in order, but for the ignored one. */
  ghost predicate SendMeans(
    conns: seq<Conn>, table: seq<Handle>, m: Message, ignore: Handle, sends: seq<(nat, Message)>)
  {
    && Increasing(Receivers(sends))
    && (forall c, x :: (c, x) in sends <==> x == m && Some(c) in table && Live(conns, Some(c)) && Some(c) != ignore)
  }

  /** dropped are the other connections of the table, in order. */
  ghost predicate DropMeans(conns: seq<Conn>, table: seq<Handle>, dropped: seq<nat>) {
    Increasing(dropped) && forall c :: c in dropped <==> Some(c) in table && !Live(conns, Some(c))
  }

  ghost predicate SweepMeans(conns: seq<Conn>, table: seq<Handle>, m: Message, ignore: Handle, sw: Sweep) {
    && KeptMeans(conns, table, WithoutNulls(sw.table))
    && SendMeans(conns, table, m, ignore, sw.sends)
    && DropMeans(conns, table, Conns(sw.dropped))
    && (sw.dropped == [] ==> WithoutNulls(sw.table) == sw.table)
  }

  lemma KeptSnoc(conns: seq<Conn>, front: seq<Handle>, h: Handle, kept: seq<Handle>)
    requires KeptMeans(conns, front, kept) && h.Some?
    requires forall k | k in front :: k.Some? && k.value < h.value
    ensures KeptMeans(conns, front + [h], if Live(conns, h) then kept + [h] else kept)
  {
    assert forall k | k in kept :: k in front;
  }

  lemma SendSnoc(
    conns: seq<Conn>, front: seq<Handle>, h: Handle, m: Message, ignore: Handle, sends: seq<(nat, Message)>)
    requires SendMeans(conns, front, m, ignore, sends) && h.Some?
    requires forall k | k in front :: k.Some? && k.value < h.value
    ensures SendMeans(conns, front + [h], m, ignore,
              if Live(conns, h) && h != ignore then sends + [(h.value, m)] else sends)
  {
    forall i | 0 <= i < |sends| ensures sends[i].0 < h.value {
      assert (sends[i].0, sends[i].1) in sends;
    }
    assert Receivers(sends + [(h.value, m)]) == Receivers(sends) + [h.value];
  }

  lemma DropSnoc(conns: seq<Conn>, front: seq<Handle>, h: Handle, dropped: seq<nat>)
    requires DropMeans(conns, front, dropped) && h.Some?
    requires forall k | k in front :: k.Some? && k.value < h.value
    ensures DropMeans(conns, front + [h], if Live(conns, h) then dropped else dropped + [h.value])
  {
    forall i | 0 <= i < |dropped| ensures dropped[i] < h.value {
      assert dropped[i] in dropped;
    }
  }

  lemma WithoutNullsSnoc(table: seq<Handle>, h: Handle)
    ensures WithoutNulls(table + [h]) == if h.Some? then WithoutNulls(table) + [h] else WithoutNulls(table)
  {
    assert (table + [h])[..|table|] == table;
  }

  lemma ConnsSnoc(hs: seq<Handle>, h: Handle)
    ensures Conns(hs + [h]) == if h.Some? then Conns(hs) + [h.value] else Conns(hs)
  {
    assert (hs + [h])[..|hs|] == hs;
  }

  lemma VisitMeans(conns: seq<Conn>, front: seq<Handle>, sw: Sweep, h: Handle, m: Message, ignore: Handle)
    requires SweepMeans(conns, front, m, ignore, sw) && h.Some?
    requires forall k | k in front :: k.Some? && k.value < h.value
    ensures SweepMeans(conns, front + [h], m, ignore, Visit(conns, sw, h, m, ignore))
  {
    KeptSnoc(conns, front, h, WithoutNulls(sw.table));
    SendSnoc(conns, front, h, m, ignore, sw.sends);
    DropSnoc(conns, front, h, Conns(sw.dropped));
    WithoutNullsSnoc(sw.table, if Live(conns, h) then h else None);
    ConnsSnoc(sw.dropped, h);
    hide KeptMeans, SendMeans, DropMeans, WithoutNulls, Conns, Live;
  }

  lemma {:induction false} SweptMeans(conns: seq<Conn>, table: seq<Handle>, m: Message, ignore: Handle)
    requires Ordered(table)
    ensures SweepMeans(conns, table, m, ignore, Swept(conns, table, m, ignore))
  {
    if table != [] {
      var n := |table| - 1;
      SweptMeans(conns, table[..n], m, ignore);
      assert table == table[..n] + [table[n]] && table[n] in table;
      hide SweepMeans, Visit;
      VisitMeans(conns, table[..n], Swept(conns, table[..n], m, ignore), table[n], m, ignore);
    }
  }

  // ---------- Invariant ----------

  /** conns[c] has been approved and given its identifier. */
  predicate Approved(s: Server, c: nat) {
    c < |s.conns| && s.conns[c].order.Some?
  }

  /** The identifier of the n-th approved connection. */
  function IdOf(n: nat): u32 {
    SizeField(FIRST_ID + n)
  }

  /** Approved connections are numbered in the order of their accepts. */
  ghost predicate Numbered(s: Server) {
    && s.counter == IdOf(s.approved)
    && (forall c: nat | Approved(s, c) ::
          s.conns[c].order.value < s.approved && s.conns[c].id == IdOf(s.conns[c].order.value))
    && (forall c: nat, d: nat | Approved(s, c) && Approved(s, d) && c < d ::
          s.conns[c].order.value < s.conns[d].order.value)
  }

  /** An approved connection is in the table, once, or has been dropped, once. */
  ghost predicate Listed(s: Server) {
    && Ordered(s.table)
    && (forall c: nat :: Approved(s, c) <==> Some(c) in s.table || c in s.dropped)
    && (forall c | c in s.dropped :: Some(c) !in s.table && !s.conns[c].open)
    && (forall i, j | 0 <= i < j < |s.dropped| :: s.dropped[i] != s.dropped[j])
  }

  ghost predicate Inv(s: Server) {
    Numbered(s) && Listed(s)
  }

  lemma {:induction false} NothingToRemove(table: seq<Handle>)
    requires NoNulls(table)
    ensures WithoutNulls(table) == table
  {
    if table != [] {
      assert table[|table| - 1] in table;
      NothingToRemove(table[..|table| - 1]);
    }
  }

  lemma AcceptKeepsNumbered(s: Server, approve: bool)
    requires Numbered(s)
    ensures Numbered(Step(s, Accept(approve)))
  {
    var t := Step(s, Accept(approve));
    assert forall c: nat | c < |s.conns| :: Approved(t, c) <==> Approved(s, c);
  }

  lemma AcceptKeepsListed(s: Server, approve: bool)
    requires Listed(s)
    ensures Listed(Step(s, Accept(approve)))
  {
    var t := Step(s, Accept(approve));
    var n := |s.conns|;
    assert forall c: nat | c < n :: Approved(t, c) <==> Approved(s, c);
    assert forall c | c in s.dropped :: Approved(s, c);
    forall i | 0 <= i < |s.table| ensures s.table[i].Some? && s.table[i].value < n {
      assert s.table[i] in s.table;
      assert Approved(s, s.table[i].value);
    }
    if approve {
      assert forall c: nat :: Some(c) in t.table <==> Some(c) in s.table || c == n;
    }
  }

  lemma CloseKeepsInv(s: Server, c: nat)
    requires Inv(s) && c < |s.conns|
    ensures Inv(Step(s, Close(c)))
  {
    var t := Step(s, Close(c));
    assert forall k: nat :: Approved(t, k) <==> Approved(s, k);
  }

  lemma MessageAllKeepsListed(s: Server, m: Message, ignore: Handle)
    requires Listed(s) && Enabled(s, MessageAll(m, ignore))
    ensures Listed(Step(s, MessageAll(m, ignore)))
  {
    hide Swept, Conns, WithoutNulls;
    var t := Step(s, MessageAll(m, ignore));
    var sw := Swept(s.conns, s.table, m, ignore);
    SweptMeans(s.conns, s.table, m, ignore);
    var gone := Conns(sw.dropped);
    assert forall k: nat :: Approved(t, k) <==> Approved(s, k);
    assert forall c | c in gone :: Some(c) in s.table && Approved(s, c);
    forall i, j | 0 <= i < j < |t.dropped| ensures t.dropped[i] != t.dropped[j] {
      if i < |s.dropped| <= j {
        assert t.dropped[i] in s.dropped && t.dropped[j] in gone;
      }
    }
  }

  lemma MessageAllKeepsInv(s: Server, m: Message, ignore: Handle)
    requires Inv(s) && Enabled(s, MessageAll(m, ignore))
    ensures Inv(Step(s, MessageAll(m, ignore)))
  {
    MessageAllKeepsListed(s, m, ignore);
    hide Swept, Conns, WithoutNulls, Listed;
    assert forall k: nat :: Approved(Step(s, MessageAll(m, ignore)), k) <==> Approved(s, k);
  }

  lemma MessageOneKeepsInv(s: Server, client: Handle, m: Message)
    requires Inv(s) && Enabled(s, MessageOne(client, m))
    ensures Inv(Step(s, MessageOne(client, m)))
    ensures Step(s, MessageOne(client, m)).table == s.table
  {
    NothingToRemove(s.table);
    assert forall k: nat :: Approved(Step(s, MessageOne(client, m)), k) <==> Approved(s, k);
  }

  lemma StepKeepsInv(s: Server, e: Event)
    requires Inv(s) && Enabled(s, e)
    ensures Inv(Step(s, e))
  {
    hide Numbered, Listed, Swept;
    match e
    case Accept(approve) => AcceptKeepsNumbered(s, approve); AcceptKeepsListed(s, approve);
    case AcceptError =>
    case Close(c) => CloseKeepsInv(s, c);
    case MessageAll(m, ignore) => MessageAllKeepsInv(s, m, ignore);
    case MessageOne(client, m) => MessageOneKeepsInv(s, client, m);
  }

  // ---------- Every run ----------

  ghost predicate Run(s: Server, es: seq<Event>, t: Server)
    decreases |es|
  {
    if es == [] then t == s else Enabled(s, es[0]) && Run(Step(s, es[0]), es[1..], t)
  }

  lemma {:induction false} RunKeepsInv(s: Server, es: seq<Event>, t: Server)
    requires Inv(s) && Run(s, es, t)
    ensures Inv(t)
    decreases |es|
  {
    hide Inv, Step, Enabled;
    if es != [] {
      StepKeepsInv(s, es[0]);
      RunKeepsInv(Step(s, es[0]), es[1..], t);
    }
  }

  ghost predicate Reachable(s: Server) {
    exists es :: Run(EMPTY, es, s)
  }

  lemma ReachableInv(s: Server)
    requires Reachable(s)
    ensures Inv(s)
  {
    var es :| Run(EMPTY, es, s);
    assert Inv(EMPTY);
    RunKeepsInv(EMPTY, es, s);
  }

  /**
    Between calls the table holds no null handle and lists approved connections in the order
    of their accepts; until the 32-bit counter wraps their identifiers increase with it.
   */
  lemma TableOverRuns(s: Server)
    requires Reachable(s)
    ensures Ordered(s.table)
    ensures forall i | 0 <= i < |s.table| ::
              s.table[i].Some? && s.table[i].value < |s.conns| && Approved(s, s.table[i].value)
    ensures s.approved <= 0x1_0000_0000 - 10000 ==>
              forall i, j | 0 <= i < j < |s.table| :: s.conns[s.table[i].value].id < s.conns[s.table[j].value].id
  {
    ReachableInv(s);
    forall i | 0 <= i < |s.table| ensures s.table[i].Some? && Approved(s, s.table[i].value) {
      assert s.table[i] in s.table;
    }
    if s.approved <= U32_LIMIT - FIRST_ID {
      forall i, j | 0 <= i < j < |s.table|
        ensures s.conns[s.table[i].value].id < s.conns[s.table[j].value].id
      {
        assert s.table[i].value < s.table[j].value;
      }
    }
  }

  /**
    One broadcast: the connected subsequence stays, in order; each of it but the ignored
    client is sent the message once; each other is reported once.
   */
  lemma Broadcast(s: Server, m: Message, ignore: Handle)
    requires Reachable(s) && Enabled(s, MessageAll(m, ignore))
    ensures var t := Step(s, MessageAll(m, ignore));
            && KeptMeans(s.conns, s.table, t.table)
            && s.sends <= t.sends && SendMeans(s.conns, s.table, m, ignore, t.sends[|s.sends|..])
            && s.dropped <= t.dropped && DropMeans(s.conns, s.table, t.dropped[|s.dropped|..])
            && t.conns == s.conns && t.complaints == s.complaints
  {
    ReachableInv(s);
    SweptMeans(s.conns, s.table, m, ignore);
    var sw := Swept(s.conns, s.table, m, ignore);
    hide KeptMeans, SendMeans, DropMeans, Swept, Conns, WithoutNulls;
    var t := Step(s, MessageAll(m, ignore));
    assert t.sends[|s.sends|..] == sw.sends && t.dropped[|s.dropped|..] == Conns(sw.dropped);
  }

  /** A broadcast leaves no dead approved connection unreported, and none is ever reported twice. */
  lemma ReportedOnce(s: Server, m: Message, ignore: Handle)
    requires Reachable(s) && Enabled(s, MessageAll(m, ignore))
    ensures var t := Step(s, MessageAll(m, ignore));
            && (forall c: nat | Approved(s, c) :: s.conns[c].open <==> c !in t.dropped)
            && (forall i, j | 0 <= i < j < |t.dropped| :: t.dropped[i] != t.dropped[j])
  {
    ReachableInv(s);
    MessageAllKeepsInv(s, m, ignore);
    Broadcast(s, m, ignore);
    var t := Step(s, MessageAll(m, ignore));
    hide Step;
    forall c: nat | Approved(s, c) ensures s.conns[c].open <==> c !in t.dropped {
      assert Approved(t, c);
      assert c !in t.dropped ==> Some(c) in t.table;
    }
  }

  /**
    A message to one client never changes the table: a live client is sent it; a dead one is
    reported, and stays to be reported again.
   */
  lemma MessageOneEffect(s: Server, client: Handle, m: Message)
    requires Reachable(s) && Enabled(s, MessageOne(client, m))
    ensures var t := Step(s, MessageOne(client, m));
            && t.table == s.table && t.dropped == s.dropped
            && (if Live(s.conns, client) then t.sends == s.sends + [(client.value, m)] && t.complaints == s.complaints
                else t.sends == s.sends && t.complaints == s.complaints + [client])
  {
    ReachableInv(s);
    MessageOneKeepsInv(s, client, m);
  }

  // ---------- The counter wraps ----------

  lemma {:induction false} RunSnoc(s: Server, es: seq<Event>, t: Server, e: Event)
    requires Run(s, es, t) && Enabled(t, e)
    ensures Run(s, es + [e], Step(t, e))
    decreases |es|
  {
    hide Step, Enabled;
    if es == [] {
      assert Run(Step(s, e), [], Step(s, e));
      assert (es + [e])[1..] == [];
    } else {
      RunSnoc(Step(s, es[0]), es[1..], t, e);
      assert (es + [e])[1..] == es[1..] + [e];
    }
  }

  lemma {:induction false} ManyAccepts(n: nat) returns (s: Server)
    ensures Reachable(s) && s.approved == n && |s.conns| == n && |s.table| == n
    ensures forall c: nat | c < n :: s.table[c] == Some(c) && s.conns[c].id == IdOf(c)
  {
    hide IdOf, SizeField;
    if n == 0 {
      s := EMPTY;
      assert Run(EMPTY, [], s);
    } else {
      var s0 := ManyAccepts(n - 1);
      var es :| Run(EMPTY, es, s0);
      RunSnoc(EMPTY, es, s0, Accept(true));
      ReachableInv(s0);
      s := Step(s0, Accept(true));
    }
  }

  /** One accept beyond the bound, the newest connection has the smallest identifier. */
  lemma IdsWrap()
    ensures exists s: Server ::
      && Reachable(s) && s.approved == 0x1_0000_0000 - 10000 + 1
      && |s.table| == s.approved == |s.conns|
      && s.table[s.approved - 1] == Some(s.approved - 1)
      && s.conns[s.approved - 1].id == 0
  {
    var s := ManyAccepts(U32_LIMIT - FIRST_ID + 1);
    assert IdOf(U32_LIMIT - FIRST_ID) == 0;
  }

  // ---------- What the events say ----------

  /** How many connections have been accepted. */
  function Accepted(es: seq<Event>): nat
    decreases |es|
  {
    if es == [] then 0
    else Accepted(es[..|es| - 1]) + (if es[|es| - 1].Accept? then 1 else 0)
  }

  /** The connections that OnClientConnect approved, in order. */
  function Approvals(es: seq<Event>): (cs: seq<nat>)
    decreases |es|
  {
    if es == [] then []
    else
      var before, e := es[..|es| - 1], es[|es| - 1];
      Approvals(before) + (if e.Accept? && e.approve then [Accepted(before)] else [])
  }

  /** A run up to its last event. */
  lemma {:induction false} RunInit(s: Server, es: seq<Event>, t: Server) returns (m: Server)
    requires Run(s, es, t) && es != []
    ensures Run(s, es[..|es| - 1], m) && Enabled(m, es[|es| - 1]) && t == Step(m, es[|es| - 1])
    decreases |es|
  {
    hide Step, Enabled;
    if |es| == 1 {
      m := s;
      assert Run(Step(s, es[0]), [], t) by { assert es[1..] == []; }
      assert es[..0] == [];
    } else {
      m := RunInit(Step(s, es[0]), es[1..], t);
      assert es[1..][..|es| - 2] == es[..|es| - 1][1..];
      assert es[1..][|es| - 2] == es[|es| - 1];
    }
  }

  /** n connections, of which those of cs have been approved, in that order. */
  ghost predicate Made(s: Server, n: nat, cs: seq<nat>) {
    && |s.conns| == n && s.approved == |cs|
    && (forall k | 0 <= k < |cs| :: cs[k] < n && s.conns[cs[k]].order == Some(k))
    && (forall c: nat | Approved(s, c) :: s.conns[c].order.value < |cs| && cs[s.conns[c].order.value] == c)
  }

  /** A connection is open exactly until its socket is closed. */
  ghost predicate OpenUntilClosed(s: Server, es: seq<Event>) {
    && (forall c: nat | c < |s.conns| :: s.conns[c].open <==> Close(c) !in es)
    && (forall c: nat | Close(c) in es :: c < |s.conns|)
  }

  ghost predicate FromEvents(s: Server, es: seq<Event>) {
    Made(s, Accepted(es), Approvals(es)) && OpenUntilClosed(s, es)
  }

  lemma MadeAccept(s: Server, n: nat, cs: seq<nat>, approve: bool)
    requires Made(s, n, cs)
    ensures Made(Step(s, Accept(approve)), n + 1, cs + (if approve then [n] else []))
  {
    var t := Step(s, Accept(approve));
    assert forall c: nat | c < n :: Approved(t, c) <==> Approved(s, c);
  }

  lemma MadeQuiet(s: Server, n: nat, cs: seq<nat>, e: Event)
    requires Made(s, n, cs) && Enabled(s, e) && !e.Accept?
    ensures Made(Step(s, e), n, cs)
  {
    var t := Step(s, e);
    hide Swept, WithoutNulls, Conns;
    assert forall c: nat :: Approved(t, c) <==> Approved(s, c);
  }

  lemma OpenStep(s: Server, es: seq<Event>, e: Event)
    requires OpenUntilClosed(s, es) && Enabled(s, e)
    ensures OpenUntilClosed(Step(s, e), es + [e])
  {
    hide Swept, WithoutNulls, Conns;
    assert forall c: nat :: Close(c) in es + [e] <==> Close(c) in es || e == Close(c);
  }

  lemma EventsStep(s: Server, es: seq<Event>, e: Event)
    requires FromEvents(s, es) && Enabled(s, e)
    ensures FromEvents(Step(s, e), es + [e])
  {
    hide Made, OpenUntilClosed, Step, Enabled;
    assert (es + [e])[..|es|] == es;
    OpenStep(s, es, e);
    if e.Accept? {
      MadeAccept(s, Accepted(es), Approvals(es), e.approve);
    } else {
      MadeQuiet(s, Accepted(es), Approvals(es), e);
      assert Approvals(es) + [] == Approvals(es);
    }
  }

  lemma {:induction false} RunMade(es: seq<Event>, s: Server)
    requires Run(EMPTY, es, s)
    ensures FromEvents(s, es)
    decreases |es|
  {
    hide Step, Enabled, FromEvents;
    if es == [] {
      assert FromEvents(EMPTY, []) by { NothingMade(); }
    } else {
      var m := RunInit(EMPTY, es, s);
      RunMade(es[..|es| - 1], m);
      EventsStep(m, es[..|es| - 1], es[|es| - 1]);
      assert es[..|es| - 1] + [es[|es| - 1]] == es;
    }
  }

  lemma NothingMade()
    ensures FromEvents(EMPTY, [])
  {
  }

  /** The k-th approved connection has identifier 10000 + k, modulo 2^32. */
  lemma Identifiers(es: seq<Event>, s: Server, k: nat)
    requires Run(EMPTY, es, s) && k < |Approvals(es)|
    ensures Approvals(es)[k] < |s.conns|
    ensures s.conns[Approvals(es)[k]].id == (10000 + k) % 0x1_0000_0000
  {
    hide Run, Listed, IdOf, Step, Enabled, Approvals, Accepted;
    RunMade(es, s);
    StartsInv(es, s);
    assert Approved(s, Approvals(es)[k]);
    IdFormula(k);
  }

  lemma IdFormula(k: nat)
    ensures IdOf(k) == (10000 + k) % 0x1_0000_0000
  {
  }

  /**
    After a broadcast the table is exactly the approved connections that have not been closed,
    in the order of their accepts, whatever went before; and exactly the approved ones that have
    been closed have been reported by broadcasts, once each.
   */
  lemma TableFromEvents(es: seq<Event>, s: Server, m: Message, ignore: Handle)
    requires Run(EMPTY, es, s) && es != [] && es[|es| - 1] == MessageAll(m, ignore)
    ensures Ordered(s.table)
    ensures forall c: nat :: Some(c) in s.table <==> c in Approvals(es) && Close(c) !in es
    ensures forall c: nat :: c in s.dropped <==> c in Approvals(es) && Close(c) in es
    ensures forall i, j | 0 <= i < j < |s.dropped| :: s.dropped[i] != s.dropped[j]
  {
    hide Step, Enabled, Run;
    var before := RunInit(EMPTY, es, s);
    assert Reachable(before);
    ReportedOnce(before, m, ignore);
    RunMade(es, s);
    StartsInv(es, s);
    SameConns(before, m, ignore);
    forall c: nat ensures c in Approvals(es) <==> Approved(s, c) {
      if c in Approvals(es) {
        var k :| 0 <= k < |Approvals(es)| && Approvals(es)[k] == c;
      }
    }
  }

  lemma SameConns(s: Server, m: Message, ignore: Handle)
    requires Enabled(s, MessageAll(m, ignore))
    ensures Step(s, MessageAll(m, ignore)).conns == s.conns
  {
  }

  lemma StartsInv(es: seq<Event>, s: Server)
    requires Run(EMPTY, es, s)
    ensures Inv(s)
  {
    RunKeepsInv(EMPTY, es, s);
  }
}
