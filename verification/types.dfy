/** The records of types.ts that the core manipulates, with the object-spread
    merge (`{ ...value, ...updates }`) of a `Partial<...>` update. */
module Types {
  import opened Wrappers
  import opened Bits

  /** What one of the 16 pads plays: `start`/`end` trim percentages, loop flag,
      coarse/fine tuning and mute group (types.ts:19-27). A pad whose
      `samplePath` is empty counts as unassigned. */
  datatype PadAssignment = PadAssignment(
    samplePath: string,
    start: int,
    end: int,
    loop: bool,
    tuneCoarse: int,
    tuneFine: int,
    muteGroup: string)

  /** `Partial<PadAssignment>`: `None` marks a field the update leaves out. */
  datatype PadUpdate = PadUpdate(
    samplePath: Option<string>,
    start: Option<int>,
    end: Option<int>,
    loop: Option<bool>,
    tuneCoarse: Option<int>,
    tuneFine: Option<int>,
    muteGroup: Option<string>)

  const NoPadUpdate := PadUpdate(None, None, None, None, None, None, None)

  /** `{ ...a, ...u }` */
  function MergePad(a: PadAssignment, u: PadUpdate): PadAssignment
  {
    PadAssignment(
      u.samplePath.GetOr(a.samplePath),
      u.start.GetOr(a.start),
      u.end.GetOr(a.end),
      u.loop.GetOr(a.loop),
      u.tuneCoarse.GetOr(a.tuneCoarse),
      u.tuneFine.GetOr(a.tuneFine),
      u.muteGroup.GetOr(a.muteGroup))
  }

  /** `Record<number, PadAssignment>`: the assignments by pad number. */
  type PadMap = map<int, PadAssignment>

  /** `assignment && assignment.samplePath` (and `!!assignment?.samplePath`):
      the pad has an assignment whose sample path is non-empty. Such a pad
      counts as assigned on the grid and is the only kind that plays. */
  predicate IsAssigned(pads: PadMap, pad: int)
  {
    pad in pads && pads[pad].samplePath != ""
  }

  /** One macro knob of a profile: its `label` (here `caption`, since `label`
      is a Dafny keyword) and the controller number it sends
      (types.ts:45-49). */
  datatype MacroMapping = MacroMapping(id: int, caption: string, cc: int)

  /** A hardware profile (types.ts:51-58). The channel is the 0-based MIDI
      channel the settings form offers (0..15). */
  datatype MidiProfile = MidiProfile(
    id: string,
    name: string,
    channel: channel,
    padBaseNote: int,
    macros: seq<MacroMapping>,
    syncOut: bool)

  /** `Partial<MidiProfile>` */
  datatype ProfileUpdate = ProfileUpdate(
    id: Option<string>,
    name: Option<string>,
    channel: Option<channel>,
    padBaseNote: Option<int>,
    macros: Option<seq<MacroMapping>>,
    syncOut: Option<bool>)

  /** `{ ...p, ...u }` */
  function MergeProfile(p: MidiProfile, u: ProfileUpdate): MidiProfile
  {
    MidiProfile(
      u.id.GetOr(p.id),
      u.name.GetOr(p.name),
      u.channel.GetOr(p.channel),
      u.padBaseNote.GetOr(p.padBaseNote),
      u.macros.GetOr(p.macros),
      u.syncOut.GetOr(p.syncOut))
  }

  /** The update that overrides every field with those of `b`. */
  function Full(b: PadAssignment): PadUpdate
  {
    PadUpdate(Some(b.samplePath), Some(b.start), Some(b.end), Some(b.loop),
              Some(b.tuneCoarse), Some(b.tuneFine), Some(b.muteGroup))
  }

  /** Spreading an empty update copies the record; spreading a complete one
      replaces it; spreading the same update twice is spreading it once. */
  lemma MergePadLaws(a: PadAssignment, b: PadAssignment, u: PadUpdate)
    ensures MergePad(a, NoPadUpdate) == a
    ensures MergePad(a, Full(b)) == b
    ensures MergePad(MergePad(a, u), u) == MergePad(a, u)
  {
  }

  /** A profile update that leaves `id` out keeps the profile's identity. */
  lemma MergeProfileKeepsId(p: MidiProfile, u: ProfileUpdate)
    ensures u.id.None? ==> MergeProfile(p, u).id == p.id
    ensures u.id.Some? ==> MergeProfile(p, u).id == u.id.value
  {
  }
}
