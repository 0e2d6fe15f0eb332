/**
  Messages of the framed transport: a header (32-bit id, 32-bit size) and a body used as a
  stack of bytes.
 */
module Messages {
  import opened Bytes
  import opened Framing

  datatype Message = Message(id: u32, size: u32, body: seq<byte>)

  /** What WriteHeader and ReadHeader take for granted of a message that is sent. */
  predicate Consistent(m: Message) {
    m.size == |m.body|
  }

  /** size_t assigned to the uint32_t header field. */
  function SizeField(n: nat): u32 {
    n % U32_LIMIT
  }

  function Pushed(m: Message, data: seq<byte>): Message {
    Message(m.id, SizeField(|m.body| + |data|), m.body + data)
  }

  function Popped(m: Message, n: nat): Message
    requires n <= |m.body|
  {
    Message(m.id, SizeField(|m.body| - n), m.body[..|m.body| - n])
  }

  function Top(m: Message, n: nat): seq<byte>
    requires n <= |m.body|
  {
    m.body[|m.body| - n..]
  }

  /** The message object that the stream operators change in place. */
  class MessageObject {
    var id: u32
    var size: u32
    var body: seq<byte>

    constructor (id: u32)
      ensures View() == Message(id, 0, [])
    {
      this.id := id;
      size := 0;
      body := [];
    }

    function View(): Message
      reads this
    {
      Message(id, size, body)
    }

    /** operator<<: grow the body, copy the value into the new space, restate the size. */
    method Push(data: seq<byte>)
      modifies this
      ensures View() == Pushed(old(View()), data)
      ensures id == old(id) && body == old(body) + data && size == |body| % 0x1_0000_0000
    {
      var i := |body|;
      body := body + seq(|data|, _ => 0);
      body := body[..i] + data;
      size := SizeField(|body|);
    }

    /** operator>>: copying from before the start of the body is undefined. */
    method Pop(n: nat) returns (data: seq<byte>)
      requires n <= |body|
      modifies this
      ensures data == Top(old(View()), n)
      ensures View() == Popped(old(View()), n)
      ensures id == old(id) && body + data == old(body) && |data| == n && size == |body| % 0x1_0000_0000
    {
      var i := |body| - n;
      data := body[i..];
      body := body[..i];
      size := SizeField(|body|);
    }
  }

  function PushAll(m: Message, values: seq<seq<byte>>): Message
    decreases |values|
  {
    if values == [] then m else PushAll(Pushed(m, values[0]), values[1..])
  }

  /** Pops values of the given sizes, the last first; None if the body runs short. */
  function PopAll(m: Message, sizes: seq<nat>): Option<(Message, seq<seq<byte>>)>
    decreases |sizes|
  {
    if sizes == [] then Some((m, []))
    else
      var n := sizes[|sizes| - 1];
      if n > |m.body| then None
      else match PopAll(Popped(m, n), sizes[..|sizes| - 1])
        case None => None
        case Some((m', vs)) => Some((m', vs + [Top(m, n)]))
  }

  function Sizes(values: seq<seq<byte>>): seq<nat> {
    seq(|values|, i requires 0 <= i < |values| => |values[i]|)
  }

  lemma {:induction false} PushAllSnoc(m: Message, values: seq<seq<byte>>, v: seq<byte>)
    ensures PushAll(m, values + [v]) == Pushed(PushAll(m, values), v)
    decreases |values|
  {
    if values == [] {
      assert (values + [v])[1..] == [];
    } else {
      assert (values + [v])[1..] == values[1..] + [v];
      PushAllSnoc(Pushed(m, values[0]), values[1..], v);
    }
  }

  /** >> undoes <<, up to the size field, which it restates. */
  lemma PopUndoesPush(m: Message, v: seq<byte>)
    ensures Top(Pushed(m, v), |v|) == v
    ensures Popped(Pushed(m, v), |v|) == m.(size := SizeField(|m.body|))
  {
  }

  /**
    The body is a stack: for every list of values of any sizes, pushing all and popping in
    reverse order gives every value back and restores the body; so a consistent message is
    restored entirely.
   */
  lemma {:induction false} StackRoundTrip(m: Message, values: seq<seq<byte>>)
    requires m.size == SizeField(|m.body|)
    ensures PopAll(PushAll(m, values), Sizes(values)) == Some((m, values))
    decreases |values|
  {
    if values == [] {
    } else {
      var k := |values| - 1;
      var v := values[k];
      assert values == values[..k] + [v];
      PushAllSnoc(m, values[..k], v);
      var p := PushAll(m, values[..k]);
      PushAllSized(m, values[..k]);
      PopUndoesPush(p, v);
      assert Sizes(values)[..k] == Sizes(values[..k]);
      StackRoundTrip(m, values[..k]);
    }
  }

  lemma {:induction false} PushAllSized(m: Message, values: seq<seq<byte>>)
    requires m.size == SizeField(|m.body|)
    ensures PushAll(m, values).size == SizeField(|PushAll(m, values).body|)
    ensures PushAll(m, values).id == m.id
    ensures PushAll(m, values).body == m.body + Concat(values)
    decreases |values|
  {
    if values != [] {
      PushAllSized(Pushed(m, values[0]), values[1..]);
    }
  }

  /** A message built from nothing by << can be sent iff its values stay below 2^32 bytes. */
  lemma BuiltConsistent(id: u32, values: seq<seq<byte>>)
    ensures PushAll(Message(id, 0, []), values).body == Concat(values)
    ensures Consistent(PushAll(Message(id, 0, []), values)) <==> |Concat(values)| < U32_LIMIT
  {
    PushAllSized(Message(id, 0, []), values);
  }
}
