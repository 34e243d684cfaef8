/** The mutable connection: each handler and loop of src/main/net/connection.ts against its step in module Connections. */
module ConnectionObjects {
  import opened Bytes
  import opened Connections

  /** How `upgrade` ends: normally, or throwing. */
  datatype Upgraded = Done | Already | Failed

  class Connection {
    const codec: Codec
    var upgraded: bool
    var broken: bool
    var count: nat
    var pending: seq<Held>
    var accepted: seq<Buffer>
    var inbox: seq<Item>
    var handed: seq<Item>
    var handshakes: Post
    var messages: Post
    ghost var delivered: seq<Item>

    ghost function Box(): Mailbox
      reads this
    {
      Mailbox(inbox, handed, delivered, handshakes, messages)
    }

    ghost function State(): Conn
      reads this
    {
      Conn(upgraded, broken, count, pending, accepted, Box())
    }

    constructor (codec: Codec)
      ensures this.codec == codec && State() == NEW_CONN
    {
      this.codec := codec;
      upgraded, broken, count, pending, accepted := false, false, 0, [], [];
      inbox, handed, delivered := [], [], [];
      handshakes, messages := Post(Nobody, false), Post(Nobody, false);
    }

    method EmitTo(x: Item, late: bool)
      modifies this`handed, this`handshakes, this`messages
      ensures Box() == Emit(old(Box()), x, late)
    {
      if x.kind == Handshake {
        handshakes := Post(After(handshakes.mode), handshakes.overtook || late);
      } else {
        messages := Post(After(messages.mode), messages.overtook || late);
      }
      handed := handed + [x];
    }

    method DeliverItem(x: Item)
      modifies this`handed, this`handshakes, this`messages, this`inbox, this`delivered
      ensures Box() == Deliver(old(Box()), x)
    {
      delivered := delivered + [x];
      var mode := if x.kind == Handshake then handshakes.mode else messages.mode;
      if Hungry(mode) {
        EmitTo(x, Only(x.kind, inbox) != []);
      } else {
        inbox := inbox + [x];
      }
    }

    method FlushInbox()
      modifies this`handed, this`handshakes, this`messages, this`inbox
      ensures Box() == FlushAll(old(Box()).(inbox := []), old(inbox))
    {
      var held := inbox;
      inbox := [];
      for i := 0 to |held|
        invariant delivered == old(delivered)
        invariant FlushAll(Box(), held[i..]) == FlushAll(old(Box()).(inbox := []), held)
      {
        assert held[i..][0] == held[i] && held[i..][1..] == held[i + 1..];
        var mode := if held[i].kind == Handshake then handshakes.mode else messages.mode;
        if Hungry(mode) {
          EmitTo(held[i], false);
        } else {
          inbox := inbox + [held[i]];
        }
      }
      assert held[|held|..] == [];
    }

    method OpenFrame(h: Held)
      modifies this
      ensures State() == Open(old(State()), codec, h)
    {
      var body := codec.open(accepted, h.frame);
      if body.None? {
        broken := true;
        return;
      }
      accepted := accepted + [h.frame];
      DeliverItem(Item(Message, h.at, body.value));
    }

    /** Throws when the keys are already there, or at the first early frame that does not open. */
    method InstallKeys() returns (r: Upgraded)
      modifies this
      ensures State() == Step(old(State()), codec, Upgrade)
      ensures r.Already? <==> old(upgraded)
      ensures !old(broken) ==> (r.Failed? <==> broken)
    {
      if upgraded { return Already; }
      upgraded := true;
      var early := pending;
      pending := [];
      ghost var start := State();
      assert early[0..] == early;
      for i := 0 to |early|
        invariant Drain(State(), codec, early[i..]) == Drain(start, codec, early)
        invariant upgraded && broken == start.broken
      {
        assert early[i..][0] == early[i] && early[i..][1..] == early[i + 1..];
        var opens := codec.open(accepted, early[i].frame).Some?;
        OpenFrame(early[i]);
        if !opens { return Failed; }
      }
      return Done;
    }

    method OnText(data: Buffer)
      modifies this
      ensures State() == Step(old(State()), codec, Text(data))
    {
      if upgraded {
        broken := true;
        return;
      }
      var msg := codec.parse(data);
      if msg.None? {
        broken := true;
        return;
      }
      count := count + 1;
      DeliverItem(Item(Handshake, count - 1, msg.value));
    }

    method OnBinary(frame: Buffer)
      modifies this
      ensures State() == Step(old(State()), codec, Binary(frame))
    {
      if upgraded {
        count := count + 1;
        OpenFrame(Held(count - 1, frame));
      } else if |pending| < MAX_EARLY {
        pending := pending + [Held(count, frame)];
        count := count + 1;
      } else {
        broken := true;
      }
    }
  }
}
