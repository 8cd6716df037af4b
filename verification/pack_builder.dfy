/** The program editor of components/PackBuilder.tsx: which hardware profile
    it targets, how an incoming MIDI message is routed to one of the 16
    pads, how a pad is auditioned and echoed back to the hardware, and how
    the persisted pad assignments (`Record<number, PadAssignment>`, here a
    map from pad number to assignment) are edited, deleted and replaced by a
    suggested layout.

    The audio side goes through `AudioEngine`: the decode outcome a load
    would meet is a parameter. The layout suggestion is a foreign call whose
    answer (or rejection) is a parameter too. */
module PackBuilder {
  import opened Wrappers
  import opened Bits
  import opened Types
  import MidiService
  import AudioEngine
  import ExportSettings
  import MpcGrid

  /** `INITIAL_PAD`: no sample, full trim range, no loop, no tuning, no mute group. */
  const InitialPad := PadAssignment("", 0, 100, false, 0, 0, "None")

  // --------------------------------------------------------------- profile

  /** The profile used when the active id names no stored profile. */
  const FallbackProfile := MidiProfile("default-mpc", "MPC Hardware Default", 0, 36, [], true)

  /** `profiles.find(p => p.id === activeProfileId) || { ...default }`. */
  function ResolveProfile(profiles: seq<MidiProfile>, activeId: string): (p: MidiProfile)
    ensures ExportSettings.HasId(profiles, activeId) ==> p.id == activeId && p in profiles
    ensures ExportSettings.HasId(profiles, activeId) ==> Some(p) == ExportSettings.Find(profiles, activeId)
    ensures !ExportSettings.HasId(profiles, activeId) ==> p == FallbackProfile
    ensures !ExportSettings.HasId(profiles, activeId) ==> p.channel == 0 && p.padBaseNote == 36
  {
    ExportSettings.Find(profiles, activeId).GetOr(FallbackProfile)
  }

  // ----------------------------------------------------------- MIDI input

  /** The note-on test exactly as written:
      `(status & 0xF0) === (0x90 | channel) && data2 > 0`, where a missing
      status byte reads as 0 under `&` and a missing `data2` is never
      greater than 0. */
  predicate IsNoteOn(status: Option<byte>, data2: Option<byte>, ch: channel)
  {
    And(status.GetOr(0), 0xF0) == Or(0x90, ch) && data2.Some? && data2.value > 0
  }

  /** What the test accepts: since the mask clears the low nibble, only a
      profile on channel 0 can match, and it then accepts a note-on with
      non-zero velocity arriving on any of the 16 channels. */
  lemma NoteOnAccepts(status: Option<byte>, data2: Option<byte>, ch: channel)
    ensures IsNoteOn(status, data2, ch) <==>
              && ch == 0
              && status.Some? && 0x90 <= status.value <= 0x9F
              && data2.Some? && data2.value > 0
  {
    var s := status.GetOr(0);
    MaskHighNibble(s);
    OrChannel(0x90, ch);
    if And(s, 0xF0) == Or(0x90, ch) {
      assert ch == 0;
      assert 0x90 <= s <= 0x9F;
    }
  }

  /** A profile on any channel other than 0 accepts no message at all. */
  lemma NonZeroChannelDeaf(status: Option<byte>, data2: Option<byte>, ch: channel)
    requires ch != 0
    ensures !IsNoteOn(status, data2, ch)
  {
    NoteOnAccepts(status, data2, ch);
  }

  /** `data1 - padBaseNote + 1` */
  function PadIndex(data1: int, base: int): int
  {
    data1 - base + 1
  }

  /** The message handler's routing: a note-on whose pad index falls within
      1..16 flashes and plays that pad; everything else is dropped. A
      missing `data1` gives `NaN`, which fails the range test. Notes out of
      range are neither wrapped nor clamped. */
  function Route(status: Option<byte>, data1: Option<byte>, data2: Option<byte>, p: MidiProfile): (r: Option<int>)
    ensures r.Some? ==> 1 <= r.value <= 16
    ensures r.Some? <==> && IsNoteOn(status, data2, p.channel) && data1.Some?
                         && 1 <= data1.value - p.padBaseNote + 1 <= 16
    ensures r.Some? ==> data1.value == p.padBaseNote + r.value - 1
  {
    if IsNoteOn(status, data2, p.channel) && data1.Some? then
      var pad := PadIndex(data1.value, p.padBaseNote);
      if 1 <= pad <= 16 then Some(pad) else None
    else None
  }

  // ------------------------------------------------------------- playback

  /** What auditioning a pad leaves behind: the sample cache and the voice
      started, if any. */
  datatype PlayOutcome = PlayOutcome(cache: AudioEngine.Cache, voice: Option<AudioEngine.Voice>)

  /** `playPadSound(padId, velocity = 100)`: a pad with a non-empty
      `samplePath` loads the sample under that path as its id and plays it
      at gain `velocity / 127`; a failed load is caught and plays nothing. */
  function PlayPadSound(pads: PadMap, cache: AudioEngine.Cache, pad: int, velocity: Option<int>,
                        decoded: Result<AudioEngine.AudioBuffer, AudioEngine.LoadError>): (r: PlayOutcome)
    ensures !IsAssigned(pads, pad) ==> r == PlayOutcome(cache, None)
    ensures r.voice.Some? ==> IsAssigned(pads, pad)
    ensures r.voice.Some? ==> && r.voice.value.gain == velocity.GetOr(100) as real / 127.0
                              && r.voice.value.playbackRate == 1.0
    ensures IsAssigned(pads, pad) && pads[pad].samplePath in cache ==>
              r.cache == cache && r.voice.Some? && r.voice.value.buffer == cache[pads[pad].samplePath]
    ensures IsAssigned(pads, pad) && pads[pad].samplePath !in cache ==>
              (r.voice.Some? <==> decoded.Success?)
    ensures IsAssigned(pads, pad) && pads[pad].samplePath !in cache && decoded.Success? ==>
              && r.voice.Some? && r.voice.value.buffer == decoded.value
              && r.cache == cache[pads[pad].samplePath := decoded.value]
    ensures IsAssigned(pads, pad) && pads[pad].samplePath !in cache && decoded.Failure? ==>
              r.cache == cache
    ensures AudioEngine.Extends(cache, r.cache)
  {
    if IsAssigned(pads, pad) then
      var o := AudioEngine.LoadSample(cache, pads[pad].samplePath, decoded);
      match o.result
      case Success(b) =>
        PlayOutcome(o.cache, Some(AudioEngine.PlayBuffer(b, Some(velocity.GetOr(100) as real / 127.0), None)))
      case Failure(_) => PlayOutcome(o.cache, None)
    else PlayOutcome(cache, None)
  }

  /** What one incoming message does: the pad it flashes (if any) and the
      playback it starts, at the message's velocity. */
  datatype MidiOutcome = MidiOutcome(flash: Option<int>, play: PlayOutcome)

  /** The callback the editor registers with `onMessage`. */
  function OnPadMessage(pads: PadMap, p: MidiProfile, cache: AudioEngine.Cache,
                        status: Option<byte>, data1: Option<byte>, data2: Option<byte>,
                        decoded: Result<AudioEngine.AudioBuffer, AudioEngine.LoadError>): (r: MidiOutcome)
    ensures r.flash == Route(status, data1, data2, p)
    ensures r.flash.None? ==> r.play == PlayOutcome(cache, None)
    ensures r.flash.Some? ==> r.play == PlayPadSound(pads, cache, r.flash.value, Some(data2.value), decoded)
  {
    match Route(status, data1, data2, p)
    case Some(pad) => MidiOutcome(Some(pad), PlayPadSound(pads, cache, pad, Some(data2.value), decoded))
    case None => MidiOutcome(None, PlayOutcome(cache, None))
  }

  /** The pad the grid shows as selected: `midiFlashPad || selectedPad`,
      so a flashing pad wins over the clicked one, and pad `0` (falsy) or
      none falls through. */
  function ShownPad(flash: Option<int>, selected: Option<int>): (r: Option<int>)
    ensures flash.Some? && flash.value != 0 ==> r == flash
    ensures flash.None? || flash.value == 0 ==> r == selected
  {
    match flash
    case Some(f) => if f != 0 then flash else selected
    case None => selected
  }

  /** While a routed note flashes, the grid draws exactly the button of the
      routed pad as selected, whatever pad was clicked before. */
  lemma FlashHighlightsPad(status: Option<byte>, data1: Option<byte>, data2: Option<byte>,
                           p: MidiProfile, selected: Option<int>, pads: PadMap)
    requires Route(status, data1, data2, p).Some?
    ensures var pad := Route(status, data1, data2, p).value;
            var g := MpcGrid.Render(ShownPad(Some(pad), selected), pads);
            forall i :: 0 <= i < 16 ==> (g[i].style == MpcGrid.Selected <==> g[i].pad == pad)
  {
  }

  // ----------------------------------------------------------- pad select

  /** The note a pad sends: `padBaseNote + pad - 1`. */
  function OutboundNote(base: int, pad: int): (n: int)
    ensures PadIndex(n, base) == pad
  {
    base + pad - 1
  }

  /** What clicking a pad does: it becomes the selected pad, it is
      auditioned at the default velocity, and its note is sent to every
      output. */
  datatype SelectOutcome = SelectOutcome(selected: int, play: PlayOutcome, sends: seq<MidiService.Send>)

  /** `midiService.sendNote(padBaseNote + pad - 1, 100, 200, channel)`: the
      pad's note-on and note-off on the profile's channel, to every output. */
  function PadNote(h: MidiService.Hub, p: MidiProfile, pad: int): (r: seq<MidiService.Send>)
    ensures r == MidiService.NoteSends(h.outputs, [0x90 + p.channel, p.padBaseNote + pad - 1, 100],
                                             [0x80 + p.channel, p.padBaseNote + pad - 1, 0], 200)
  {
    assert MidiService.Targets(h.outputs, None) == h.outputs;
    MidiService.SendNote(h, p.padBaseNote + pad - 1, Some(100), Some(200), Some(p.channel), None)
  }

  /** `handlePadSelect(pad)` */
  function HandlePadSelect(pads: PadMap, p: MidiProfile, h: MidiService.Hub, cache: AudioEngine.Cache,
                           pad: int, decoded: Result<AudioEngine.AudioBuffer, AudioEngine.LoadError>): (r: SelectOutcome)
    ensures r.selected == pad
    ensures r.play == PlayPadSound(pads, cache, pad, None, decoded)
    ensures r.sends == PadNote(h, p, pad)
  {
    SelectOutcome(pad, PlayPadSound(pads, cache, pad, None, decoded), PadNote(h, p, pad))
  }

  /** The note-on a pad click sends, read back by the editor's own routing,
      selects the same pad exactly when the profile is on channel 0; on any
      other channel the echo is ignored. */
  lemma EchoRoundTrip(p: MidiProfile, pad: int)
    requires 1 <= pad <= 16
    requires 0 <= p.padBaseNote + pad - 1 < 256
    ensures var note := OutboundNote(p.padBaseNote, pad);
            Route(Some(0x90 + p.channel), Some(note), Some(100), p) == (if p.channel == 0 then Some(pad) else None)
  {
    NoteOnAccepts(Some(0x90 + p.channel), Some(100), p.channel);
  }

  // -------------------------------------------------------------- editing

  /** The assignment the editor shows for a pad: the stored one or `INITIAL_PAD`. */
  function PadOrInitial(pads: PadMap, pad: int): PadAssignment
  {
    if pad in pads then pads[pad] else InitialPad
  }

  /** `updatePadMeta(padId, updates)`: the pad gets its current assignment
      (or `INITIAL_PAD`) with the updates spread over it; every other pad is
      kept. */
  function UpdatePadMeta(pads: PadMap, pad: int, u: PadUpdate): (r: PadMap)
    ensures pad in r && r[pad] == MergePad(PadOrInitial(pads, pad), u)
    ensures forall k :: k != pad ==> (k in r <==> k in pads)
    ensures forall k :: k != pad && k in pads ==> r[k] == pads[k]
  {
    pads[pad := MergePad(PadOrInitial(pads, pad), u)]
  }

  /** The delete button: removes the selected pad's entry and nothing else. */
  function DeletePad(pads: PadMap, pad: int): (r: PadMap)
    ensures pad !in r
    ensures forall k :: k != pad ==> (k in r <==> k in pads)
    ensures forall k :: k != pad && k in pads ==> r[k] == pads[k]
  {
    pads - {pad}
  }

  /** Applying the same edit twice is applying it once; an empty edit of a
      stored pad changes nothing; deleting after editing is deleting. */
  lemma EditLaws(pads: PadMap, pad: int, u: PadUpdate)
    ensures UpdatePadMeta(UpdatePadMeta(pads, pad, u), pad, u) == UpdatePadMeta(pads, pad, u)
    ensures pad in pads ==> UpdatePadMeta(pads, pad, NoPadUpdate) == pads
    ensures DeletePad(UpdatePadMeta(pads, pad, u), pad) == DeletePad(pads, pad)
  {
    MergePadLaws(PadOrInitial(pads, pad), PadOrInitial(pads, pad), u);
    assert UpdatePadMeta(UpdatePadMeta(pads, pad, u), pad, u) == UpdatePadMeta(pads, pad, u);
    if pad in pads {
      assert UpdatePadMeta(pads, pad, NoPadUpdate) == pads;
    }
    assert DeletePad(UpdatePadMeta(pads, pad, u), pad) == DeletePad(pads, pad);
  }

  // --------------------------------------------------------- smart layout

  /** `Object.values(pads).map(a => a.samplePath).filter(Boolean)`, with
      the keys in the order `Object.values` visits them. */
  function Samples(pads: PadMap, keys: seq<int>): (r: seq<string>)
    requires forall k :: k in keys ==> k in pads
    ensures |r| <= |keys|
    ensures forall s :: s in r <==> s != "" && exists k :: k in keys && pads[k].samplePath == s
  {
    if keys == [] then []
    else
      var rest := Samples(pads, keys[1..]);
      assert forall k :: k in keys <==> k == keys[0] || k in keys[1..];
      var path := pads[keys[0]].samplePath;
      if path != "" then [path] + rest else rest
  }

  /** The sample list is built key by key: the list for a concatenation of
      keys is the list for each part, in their order. */
  lemma {:induction false} SamplesAppend(pads: PadMap, a: seq<int>, b: seq<int>)
    requires forall k :: k in a ==> k in pads
    requires forall k :: k in b ==> k in pads
    ensures Samples(pads, a + b) == Samples(pads, a) + Samples(pads, b)
  {
    if a == [] {
      assert a + b == b;
    } else {
      assert (a + b)[0] == a[0] && (a + b)[1..] == a[1..] + b;
      SamplesAppend(pads, a[1..], b);
    }
  }

  /** One key contributes its pad's sample path, unless that path is empty. */
  lemma SamplesOne(pads: PadMap, k: int)
    requires k in pads
    ensures Samples(pads, [k]) == if pads[k].samplePath != "" then [pads[k].samplePath] else []
  {
    assert [k][1..] == [];
  }

  /** The editor after a smart-layout run: the assignments, the list of
      sample names sent to the layout service (none when nothing was
      asked), and the busy flag, cleared in `finally`. */
  datatype LayoutOutcome = LayoutOutcome(pads: PadMap, request: Option<seq<string>>, suggesting: bool)

  /** `runSmartLayout`. With no sample pads it returns before asking.
      Otherwise an answer replaces the whole map by fresh assignments that
      carry only the suggested sample paths, and a rejection leaves the map
      as it was. `response` is the service's answer with its keys already
      read as pad numbers, or `None` when the call throws. */
  function RunSmartLayout(pads: PadMap, keys: seq<int>, response: Option<map<int, string>>): (r: LayoutOutcome)
    requires Distinct(keys) && forall k :: k in pads <==> k in keys
    ensures r.request.None? <==> forall k :: k in pads ==> pads[k].samplePath == ""
    ensures r.request.None? || response.None? ==> r.pads == pads
    ensures r.request.Some? && response.Some? ==>
              && r.pads.Keys == response.value.Keys
              && forall k :: k in r.pads ==> r.pads[k] == InitialPad.(samplePath := response.value[k])
    ensures r.request.Some? ==> r.request.value == Samples(pads, keys) && |r.request.value| > 0
    ensures !r.suggesting
  {
    var samples := Samples(pads, keys);
    assert samples == [] <==> forall k :: k in pads ==> pads[k].samplePath == "" by {
      if samples == [] {
        forall k | k in pads ensures pads[k].samplePath == "" {
          assert pads[k].samplePath !in samples;
        }
      } else {
        assert samples[0] in samples;
      }
    }
    if samples == [] then LayoutOutcome(pads, None, false)
    else match response
      case Some(layout) =>
        LayoutOutcome(map k | k in layout :: InitialPad.(samplePath := layout[k]), Some(samples), false)
      case None => LayoutOutcome(pads, Some(samples), false)
  }

  /** A layout the service answers for the samples actually sent leaves every
      suggested pad playable, provided no suggested name is empty. */
  lemma LayoutPadsAssigned(pads: PadMap, keys: seq<int>, layout: map<int, string>)
    requires Distinct(keys) && forall k :: k in pads <==> k in keys
    requires exists k :: k in pads && pads[k].samplePath != ""
    requires forall k :: k in layout ==> layout[k] != ""
    ensures var r := RunSmartLayout(pads, keys, Some(layout));
            forall k :: IsAssigned(r.pads, k) <==> k in layout
  {
  }

  /** An empty answer (what the layout service returns when it cannot read
      its own reply) wipes every assignment, the sample pads included. */
  lemma EmptyLayoutClears(pads: PadMap, keys: seq<int>)
    requires Distinct(keys) && forall k :: k in pads <==> k in keys
    requires exists k :: k in pads && pads[k].samplePath != ""
    ensures RunSmartLayout(pads, keys, Some(map[])).pads == map[]
  {
    var r := RunSmartLayout(pads, keys, Some(map[]));
    assert r.pads.Keys == {};
  }

  /** `selectedPad ? assignedSamples[selectedPad] || INITIAL_PAD : null`:
      the editor panel shows nothing without a selection. */
  function CurrentPadMeta(pads: PadMap, selected: Option<int>): (r: Option<PadAssignment>)
    ensures selected.None? || selected.value == 0 ==> r.None?
    ensures selected.Some? && selected.value != 0 && selected.value in pads ==>
              r == Some(pads[selected.value])
    ensures selected.Some? && selected.value != 0 && selected.value !in pads ==> r == Some(InitialPad)
  {
    match selected
    case Some(pad) => if pad != 0 then Some(PadOrInitial(pads, pad)) else None
    case None => None
  }
}
