/** The MIDI device hub of services/midiService.ts: host access, the port
    lists, the registry of message callbacks with its fan-out, and the byte
    encoding of the messages it sends (Channel Voice note-on 0x9n, note-off
    0x8n and control-change 0xBn, and the System Real-Time start, continue
    and stop bytes of the MIDI 1.0 Detailed Specification).

    The host is a parameter: what `requestMIDIAccess` grants and which ports
    it enumerates are inputs, and a send is returned as a `Send` record
    (output id, bytes, delay in milliseconds) instead of calling
    `output.send` or `setTimeout`. */
module MidiService {
  import opened Wrappers
  import opened Bits

  /** A host MIDI port: its opaque id and display name. */
  datatype Port = Port(id: string, name: string)

  /** A registered callback, compared by identity as a JavaScript `Set`
      compares functions. */
  type Callback = nat

  /** The service object: whether access was granted, the ports enumerated
      at the last device update, the default channel, and the callback set
      in insertion order (the order `Set.forEach` visits). */
  datatype Hub = Hub(
    access: bool,
    inputs: seq<Port>,
    outputs: seq<Port>,
    defaultChannel: channel,
    callbacks: seq<Callback>)

  /** A freshly constructed service: no access, no ports, channel 0, no callbacks. */
  const Fresh := Hub(false, [], [], 0, [])

  /** What every reachable hub satisfies: the port lists are only filled once
      access exists, and the callback set holds no duplicates. */
  predicate Consistent(h: Hub)
  {
    && (!h.access ==> h.inputs == [] && h.outputs == [])
    && Distinct(h.callbacks)
  }

  // ---------------------------------------------------------------- access

  /** The host's answer to `requestMIDIAccess`: refused, or granted with the
      ports it currently enumerates. */
  datatype Grant = Refused | Granted(inputs: seq<Port>, outputs: seq<Port>)

  datatype InitOutcome = InitOutcome(hub: Hub, ok: bool)

  /** `updateDevices`: without access nothing happens; with access both port
      lists are rebuilt in full from the host's enumeration. */
  function UpdateDevices(h: Hub, inputs: seq<Port>, outputs: seq<Port>): (r: Hub)
    ensures !h.access ==> r == h
    ensures h.access ==> r.inputs == inputs && r.outputs == outputs
    ensures r.access == h.access && r.callbacks == h.callbacks
    ensures r.defaultChannel == h.defaultChannel
    ensures Consistent(h) ==> Consistent(r)
  {
    if !h.access then h else h.(inputs := inputs, outputs := outputs)
  }

  /** `initialize`: false, with nothing changed, when the host has no MIDI
      API or refuses access; otherwise true, with access recorded and the
      ports enumerated. */
  function Initialize(h: Hub, apiPresent: bool, grant: Grant): (r: InitOutcome)
    ensures r.ok <==> apiPresent && grant.Granted?
    ensures !r.ok ==> r.hub == h
    ensures r.ok ==> && r.hub.access
                     && r.hub.inputs == grant.inputs && r.hub.outputs == grant.outputs
                     && r.hub.callbacks == h.callbacks
                     && r.hub.defaultChannel == h.defaultChannel
    ensures Consistent(h) ==> Consistent(r.hub)
  {
    if !apiPresent then InitOutcome(h, false)
    else match grant
      case Refused => InitOutcome(h, false)
      case Granted(ins, outs) => InitOutcome(UpdateDevices(h.(access := true), ins, outs), true)
  }

  // ------------------------------------------------------------- callbacks

  /** `s` without any occurrence of `x`, in the original order
      (`Set.delete`). */
  function Without(s: seq<Callback>, x: Callback): (r: seq<Callback>)
    ensures x !in r
    ensures forall y :: y in r <==> y in s && y != x
    ensures x !in s ==> r == s
    ensures Distinct(s) ==> Distinct(r)
    ensures |r| <= |s|
  {
    if s == [] then []
    else if s[0] == x then Without(s[1..], x)
    else
      var rest := Without(s[1..], x);
      assert Distinct(s) ==> s[0] !in s[1..];
      [s[0]] + rest
  }

  /** `onMessage(cb)`: adds `cb` to the set; adding a member again changes nothing. */
  function OnMessage(h: Hub, cb: Callback): (r: Hub)
    ensures cb in r.callbacks
    ensures forall c :: c in r.callbacks <==> c in h.callbacks || c == cb
    ensures cb in h.callbacks ==> r == h
    ensures r.access == h.access && r.inputs == h.inputs && r.outputs == h.outputs
    ensures r.defaultChannel == h.defaultChannel
    ensures Consistent(h) ==> Consistent(r)
  {
    if cb in h.callbacks then h else h.(callbacks := h.callbacks + [cb])
  }

  /** The cleanup function `onMessage` returns: removes exactly `cb`. */
  function Unsubscribe(h: Hub, cb: Callback): (r: Hub)
    ensures cb !in r.callbacks
    ensures forall c :: c != cb ==> (c in r.callbacks <==> c in h.callbacks)
    ensures r.access == h.access && r.inputs == h.inputs && r.outputs == h.outputs
    ensures r.defaultChannel == h.defaultChannel
    ensures Consistent(h) ==> Consistent(r)
  {
    h.(callbacks := Without(h.callbacks, cb))
  }

  lemma {:induction false} WithoutAppended(s: seq<Callback>, x: Callback)
    requires x !in s
    ensures Without(s + [x], x) == s
  {
    if s == [] {
      assert [x][1..] == [];
    } else {
      assert (s + [x])[1..] == s[1..] + [x];
      WithoutAppended(s[1..], x);
      assert s == [s[0]] + s[1..];
    }
  }

  /** Removal works element by element: the survivors of a concatenation are
      the survivors of each part, in their order. */
  lemma {:induction false} WithoutAppend(a: seq<Callback>, b: seq<Callback>, x: Callback)
    ensures Without(a + b, x) == Without(a, x) + Without(b, x)
  {
    if a == [] {
      assert a + b == b;
    } else {
      assert (a + b)[0] == a[0] && (a + b)[1..] == a[1..] + b;
      WithoutAppend(a[1..], b, x);
    }
  }

  /** Removal from a one-element sequence: the element goes when it is `x`
      and stays otherwise. */
  lemma WithoutOne(c: Callback, x: Callback)
    ensures Without([c], x) == if c == x then [] else [c]
  {
    assert [c][1..] == [];
  }

  /** Registering a new callback and calling the cleanup it returns gives
      back the hub as it was. */
  lemma SubscribeThenUnsubscribe(h: Hub, cb: Callback)
    requires cb !in h.callbacks
    ensures Unsubscribe(OnMessage(h, cb), cb) == h
  {
    WithoutAppended(h.callbacks, cb);
  }

  // -------------------------------------------------------------- delivery

  /** One callback invocation `cb(status, data1, data2, input.id)`. A field
      the message is too short to carry is `undefined`, i.e. `None`. */
  datatype Delivery = Delivery(
    callback: Callback,
    status: Option<byte>,
    data1: Option<byte>,
    data2: Option<byte>,
    deviceId: string)

  /** Element `i` of the message bytes, as array destructuring reads it. */
  function Field(data: seq<byte>, i: nat): Option<byte>
  {
    if i < |data| then Some(data[i]) else None
  }

  /** The handler `updateDevices` installs on each input: every registered
      callback, in set order, receives the first three bytes of the message
      and the input's id. A port that was not enumerated carries no handler. */
  method Receive(h: Hub, input: Port, data: seq<byte>) returns (r: seq<Delivery>)
    ensures input !in h.inputs ==> r == []
    ensures input in h.inputs ==> |r| == |h.callbacks|
    ensures input in h.inputs ==> forall i :: 0 <= i < |r| ==>
              r[i] == Delivery(h.callbacks[i], Field(data, 0), Field(data, 1), Field(data, 2), input.id)
  {
    r := [];
    if input !in h.inputs {
      return;
    }
    var status, data1, data2 := Field(data, 0), Field(data, 1), Field(data, 2);
    var i := 0;
    while i < |h.callbacks|
      invariant 0 <= i <= |h.callbacks|
      invariant |r| == i
      invariant forall k :: 0 <= k < i ==>
                  r[k] == Delivery(h.callbacks[k], status, data1, data2, input.id)
    {
      r := r + [Delivery(h.callbacks[i], status, data1, data2, input.id)];
      i := i + 1;
    }
  }

  // ----------------------------------------------------------------- sends

  /** One `output.send(bytes)`, issued `delayMs` after the call. */
  datatype Send = Send(outputId: string, bytes: seq<int>, delayMs: int)

  /** `outputs.filter(o => o.id === id)` */
  function WithId(outputs: seq<Port>, id: string): (r: seq<Port>)
    ensures forall o :: o in r <==> o in outputs && o.id == id
    ensures |r| <= |outputs|
  {
    if outputs == [] then []
    else if outputs[0].id == id then [outputs[0]] + WithId(outputs[1..], id)
    else WithId(outputs[1..], id)
  }

  /** Filtering works port by port: the matches in a concatenation are the
      matches of each part, in their order. */
  lemma {:induction false} WithIdAppend(a: seq<Port>, b: seq<Port>, id: string)
    ensures WithId(a + b, id) == WithId(a, id) + WithId(b, id)
  {
    if a == [] {
      assert a + b == b;
    } else {
      assert (a + b)[0] == a[0] && (a + b)[1..] == a[1..] + b;
      WithIdAppend(a[1..], b, id);
    }
  }

  /** Filtering a single port: it is kept exactly when its id matches. */
  lemma WithIdOne(o: Port, id: string)
    ensures WithId([o], id) == if o.id == id then [o] else []
  {
    assert [o][1..] == [];
  }

  /** The addressed outputs: `targetOutputId ? filter : all`. An absent or
      empty (falsy) id addresses every output, in list order. */
  function Targets(outputs: seq<Port>, target: Option<string>): (r: seq<Port>)
    ensures target.None? || target.value == "" ==> r == outputs
    ensures target.Some? && target.value != "" ==>
              forall o :: o in r <==> o in outputs && o.id == target.value
    ensures target.Some? && target.value != "" ==> r == WithId(outputs, target.value)
  {
    match target
    case Some(id) => if id != "" then WithId(outputs, id) else outputs
    case None => outputs
  }

  /** The sends of `targets.forEach(...)` in `sendNote`: per output, the
      note-on now and the note-off after `duration`. */
  function NoteSends(ts: seq<Port>, noteOn: seq<int>, noteOff: seq<int>, duration: int): (r: seq<Send>)
    ensures |r| == 2 * |ts|
    ensures forall k :: 0 <= k < |ts| ==> r[2 * k] == Send(ts[k].id, noteOn, 0)
    ensures forall k :: 0 <= k < |ts| ==> r[2 * k + 1] == Send(ts[k].id, noteOff, duration)
    decreases |ts|
  {
    if ts == [] then []
    else
      var rest := NoteSends(ts[1..], noteOn, noteOff, duration);
      assert forall k :: 1 <= k < |ts| ==> ts[k] == ts[1..][k - 1];
      [Send(ts[0].id, noteOn, 0), Send(ts[0].id, noteOff, duration)] + rest
  }

  /** `sendNote(note, velocity = 100, duration = 200, channel?, targetOutputId?)`:
      each addressed output gets the note-on `[0x90|ch, note, velocity]` at
      once and the note-off `[0x80|ch, note, 0]` after `duration`, where
      `ch` is the given channel or, when absent, the default channel. */
  function SendNote(h: Hub, note: int, velocity: Option<int>, duration: Option<int>,
                    ch: Option<channel>, target: Option<string>): (r: seq<Send>)
    ensures r == NoteSends(Targets(h.outputs, target),
                           [0x90 + ch.GetOr(h.defaultChannel), note, velocity.GetOr(100)],
                           [0x80 + ch.GetOr(h.defaultChannel), note, 0], duration.GetOr(200))
  {
    var c := ch.GetOr(h.defaultChannel);
    var noteOn := [Or(0x90, c), note, velocity.GetOr(100)];
    var noteOff := [Or(0x80, c), note, 0];
    OrChannel(0x90, c);
    OrChannel(0x80, c);
    assert noteOn == [0x90 + c, note, velocity.GetOr(100)];
    assert noteOff == [0x80 + c, note, 0];
    NoteSends(Targets(h.outputs, target), noteOn, noteOff, duration.GetOr(200))
  }

  /** The control-change data byte `min(127, max(0, floor(value)))`. */
  function CcValue(value: real): (r: int)
    ensures 0 <= r <= 127
    ensures 0.0 <= value < 128.0 ==> r == value.Floor
    ensures value < 0.0 ==> r == 0
    ensures value >= 127.0 ==> r == 127
  {
    var f := value.Floor;
    if f > 127 then 127 else if f < 0 then 0 else f
  }

  /** `sendCC(cc, value, channel?, targetOutputId?)`: the message
      `[0xB0|ch, cc, clamped value]` once to each addressed output. */
  function SendCC(h: Hub, cc: int, value: real, ch: Option<channel>, target: Option<string>): (r: seq<Send>)
    ensures var ts := Targets(h.outputs, target);
            && |r| == |ts|
            && forall k :: 0 <= k < |ts| ==>
                 r[k] == Send(ts[k].id, [0xB0 + ch.GetOr(h.defaultChannel), cc, CcValue(value)], 0)
  {
    OrChannel(0xB0, ch.GetOr(h.defaultChannel));
    var msg := [Or(0xB0, ch.GetOr(h.defaultChannel)), cc, CcValue(value)];
    var ts := Targets(h.outputs, target);
    seq(|ts|, k requires 0 <= k < |ts| => Send(ts[k].id, msg, 0))
  }

  datatype Transport = Start | Stop | Continue

  /** The single System Real-Time byte for a transport command. */
  function TransportCode(t: Transport): (b: byte)
    ensures b >= 0xF8
  {
    match t
    case Start => 0xFA
    case Stop => 0xFC
    case Continue => 0xFB
  }

  /** Start, continue and stop have distinct codes. */
  lemma TransportCodesDistinct(a: Transport, b: Transport)
    ensures TransportCode(a) == TransportCode(b) <==> a == b
  {
  }

  /** `sendTransport(command, targetOutputId?)`: one single-byte message to
      each addressed output. */
  function SendTransport(h: Hub, t: Transport, target: Option<string>): (r: seq<Send>)
    ensures var ts := Targets(h.outputs, target);
            && |r| == |ts|
            && forall k :: 0 <= k < |ts| ==> r[k] == Send(ts[k].id, [TransportCode(t)], 0)
  {
    var ts := Targets(h.outputs, target);
    seq(|ts|, k requires 0 <= k < |ts| => Send(ts[k].id, [TransportCode(t)], 0))
  }

  /** Without access every send is dropped: a consistent hub that was never
      granted access has no outputs to address. */
  lemma NoAccessNoSends(h: Hub, note: int, cc: int, value: real, t: Transport, target: Option<string>)
    requires Consistent(h) && !h.access
    ensures SendNote(h, note, None, None, None, target) == []
    ensures SendCC(h, cc, value, None, target) == []
    ensures SendTransport(h, t, target) == []
  {
  }
}
