/** The profile list of components/ExportSettings.tsx: the persisted list of
    hardware profiles and the persisted id of the active one, with the
    create, delete, update and select transitions, the resolution of the
    profile the form shows, and the effect that pushes its channel into the
    MIDI hub. */
module ExportSettings {
  import opened Wrappers
  import opened Types
  import MidiService

  /** `profiles` and `activeProfileId`. */
  datatype ProfileState = ProfileState(profiles: seq<MidiProfile>, activeId: string)

  /** No two profiles share an id. */
  predicate UniqueIds(ps: seq<MidiProfile>)
  {
    forall i, j :: 0 <= i < j < |ps| ==> ps[i].id != ps[j].id
  }

  /** Some profile carries `id`. */
  predicate HasId(ps: seq<MidiProfile>, id: string)
  {
    exists i :: 0 <= i < |ps| && ps[i].id == id
  }

  /** The list the settings page starts from when nothing is stored. */
  const DefaultProfiles: seq<MidiProfile> := [
    MidiProfile("default-mpc", "MPC Hardware Default", 0, 36,
      [MacroMapping(1, "Filter", 74), MacroMapping(2, "Res", 71),
       MacroMapping(3, "Attack", 73), MacroMapping(4, "Decay", 72)],
      true)
  ]

  const DefaultActiveId := "default-mpc"

  /** The default active id names the one default profile. */
  lemma DefaultsResolve()
    ensures UniqueIds(DefaultProfiles) && HasId(DefaultProfiles, DefaultActiveId)
    ensures |DefaultProfiles| == 1 && DefaultProfiles[0].id == DefaultActiveId
  {
    assert DefaultProfiles[0].id == DefaultActiveId;
  }

  /** The macros of a new profile: four knobs sending controllers 1 to 4. */
  const NewMacros: seq<MacroMapping> := [
    MacroMapping(1, "Macro 1", 1), MacroMapping(2, "Macro 2", 2),
    MacroMapping(3, "Macro 3", 3), MacroMapping(4, "Macro 4", 4)
  ]

  /** `createProfile`: appends one profile, whose id (`Date.now()` as text)
      is the parameter `newId`, and makes it active. */
  function CreateProfile(st: ProfileState, newId: string): (r: ProfileState)
    ensures |r.profiles| == |st.profiles| + 1
    ensures r.profiles[..|st.profiles|] == st.profiles
    ensures var p := r.profiles[|st.profiles|];
            && p.id == newId && p.name == "New Custom Device"
            && p.channel == 0 && p.padBaseNote == 36 && !p.syncOut
            && |p.macros| == 4
            && forall k :: 0 <= k < 4 ==> p.macros[k].id == k + 1 && p.macros[k].cc == k + 1
    ensures r.activeId == newId
  {
    var p := MidiProfile(newId, "New Custom Device", 0, 36, NewMacros, false);
    ProfileState(st.profiles + [p], newId)
  }

  /** A fresh id keeps the ids unique, and the new profile is what the form
      then shows. */
  lemma CreateKeepsIdsUnique(st: ProfileState, newId: string)
    requires UniqueIds(st.profiles) && !HasId(st.profiles, newId)
    ensures UniqueIds(CreateProfile(st, newId).profiles)
    ensures ActiveProfile(CreateProfile(st, newId)) == Some(CreateProfile(st, newId).profiles[|st.profiles|])
  {
    var r := CreateProfile(st, newId);
    assert forall i :: 0 <= i < |st.profiles| ==> r.profiles[i] == st.profiles[i];
  }

  /** `profiles.filter(p => p.id !== id)` */
  function RemoveId(ps: seq<MidiProfile>, id: string): (r: seq<MidiProfile>)
    ensures |r| <= |ps|
    ensures forall p :: p in r <==> p in ps && p.id != id
  {
    if ps == [] then []
    else if ps[0].id == id then RemoveId(ps[1..], id)
    else [ps[0]] + RemoveId(ps[1..], id)
  }

  /** The filter keeps the survivors in their original order: removing
      distributes over concatenation. */
  lemma {:induction false} RemoveIdAppend(a: seq<MidiProfile>, b: seq<MidiProfile>, id: string)
    ensures RemoveId(a + b, id) == RemoveId(a, id) + RemoveId(b, id)
    decreases |a|
  {
    if a == [] {
      assert a + b == b;
    } else {
      assert (a + b)[0] == a[0] && (a + b)[1..] == a[1..] + b;
      RemoveIdAppend(a[1..], b, id);
    }
  }

  /** With unique ids exactly one profile is removed when the id is present. */
  lemma {:induction false} RemoveUniqueId(ps: seq<MidiProfile>, id: string)
    requires UniqueIds(ps)
    ensures HasId(ps, id) ==> |RemoveId(ps, id)| == |ps| - 1
    ensures !HasId(ps, id) ==> RemoveId(ps, id) == ps
    decreases |ps|
  {
    if ps != [] {
      var tail := ps[1..];
      assert UniqueIds(tail) by {
        forall i, j | 0 <= i < j < |tail| ensures tail[i].id != tail[j].id {
          assert tail[i] == ps[i + 1] && tail[j] == ps[j + 1];
        }
      }
      RemoveUniqueId(tail, id);
      assert HasId(ps, id) <==> ps[0].id == id || HasId(tail, id) by {
        if HasId(ps, id) {
          var i :| 0 <= i < |ps| && ps[i].id == id;
          if i > 0 { assert tail[i - 1] == ps[i]; }
        }
        if HasId(tail, id) {
          var i :| 0 <= i < |tail| && tail[i].id == id;
          assert ps[i + 1] == tail[i];
        }
      }
      if ps[0].id == id {
        assert !HasId(tail, id);
      } else {
        assert ps == [ps[0]] + tail;
      }
    }
  }

  /** Why a delete can fail: `nextProfiles[0].id` read on an empty list
      throws. The list update queued just before the throw still lands, so
      the error carries the state left behind. */
  datatype DeleteError = EmptyAfterDelete(left: ProfileState)

  /** `deleteProfile(id)`. A list of at most one profile is left alone;
      otherwise every profile with that id is removed, and when it was the
      active one the first survivor becomes active. */
  function DeleteProfile(st: ProfileState, id: string): (r: Result<ProfileState, DeleteError>)
    ensures |st.profiles| <= 1 ==> r == Success(st)
    ensures |st.profiles| > 1 && r.Success? ==>
              && r.value.profiles == RemoveId(st.profiles, id)
              && (st.activeId == id ==> r.value.profiles != [] && r.value.activeId == r.value.profiles[0].id)
              && (st.activeId != id ==> r.value.activeId == st.activeId)
    ensures r.Failure? <==> |st.profiles| > 1 && st.activeId == id && RemoveId(st.profiles, id) == []
    ensures r.Failure? ==> r.error.left == ProfileState([], st.activeId)
  {
    if |st.profiles| <= 1 then Success(st)
    else
      var next := RemoveId(st.profiles, id);
      if st.activeId == id then
        if next == [] then Failure(EmptyAfterDelete(ProfileState(next, st.activeId)))
        else Success(ProfileState(next, next[0].id))
      else Success(ProfileState(next, st.activeId))
  }

  /** With unique ids a delete never fails, never empties the list and keeps
      the ids unique; the active id then still names a profile if it did
      before. */
  lemma DeleteKeepsOne(st: ProfileState, id: string)
    requires |st.profiles| >= 1 && UniqueIds(st.profiles)
    ensures DeleteProfile(st, id).Success?
    ensures |DeleteProfile(st, id).value.profiles| >= 1
    ensures UniqueIds(DeleteProfile(st, id).value.profiles)
    ensures HasId(st.profiles, st.activeId) ==>
              HasId(DeleteProfile(st, id).value.profiles, DeleteProfile(st, id).value.activeId)
  {
    RemoveUniqueId(st.profiles, id);
    if |st.profiles| > 1 {
      var next := RemoveId(st.profiles, id);
      SubsequenceUnique(st.profiles, id);
      if st.activeId != id && HasId(st.profiles, st.activeId) {
        var i :| 0 <= i < |st.profiles| && st.profiles[i].id == st.activeId;
        assert st.profiles[i] in next;
      }
    }
  }

  /** Removing profiles keeps the ids unique. */
  lemma {:induction false} SubsequenceUnique(ps: seq<MidiProfile>, id: string)
    requires UniqueIds(ps)
    ensures UniqueIds(RemoveId(ps, id))
    decreases |ps|
  {
    if ps != [] {
      var tail := ps[1..];
      assert UniqueIds(tail) by {
        forall i, j | 0 <= i < j < |tail| ensures tail[i].id != tail[j].id {
          assert tail[i] == ps[i + 1] && tail[j] == ps[j + 1];
        }
      }
      SubsequenceUnique(tail, id);
      if ps[0].id != id {
        var r := RemoveId(tail, id);
        forall q | q in r ensures q.id != ps[0].id {
          var k :| 0 <= k < |tail| && tail[k] == q;
          assert ps[k + 1] == q;
        }
        assert RemoveId(ps, id) == [ps[0]] + r;
      }
    }
  }

  /** With duplicate ids the guard does not protect the list: two profiles
      sharing a non-active id can both go, leaving no profile at all, and
      when they share the active id the delete throws on the empty list. */
  lemma DuplicateIdsCanEmpty()
    ensures var p := MidiProfile("a", "", 0, 36, [], true);
            DeleteProfile(ProfileState([p, p], "b"), "a") == Success(ProfileState([], "b"))
    ensures var p := MidiProfile("a", "", 0, 36, [], true);
            DeleteProfile(ProfileState([p, p], "a"), "a") == Failure(EmptyAfterDelete(ProfileState([], "a")))
  {
  }

  /** `updateProfile(id, updates)`: every profile with that id gets the
      updates spread over it; all others are kept as they are. */
  function UpdateProfile(ps: seq<MidiProfile>, id: string, u: ProfileUpdate): (r: seq<MidiProfile>)
    ensures |r| == |ps|
    ensures forall k :: 0 <= k < |ps| && ps[k].id == id ==> r[k] == MergeProfile(ps[k], u)
    ensures forall k :: 0 <= k < |ps| && ps[k].id != id ==> r[k] == ps[k]
  {
    seq(|ps|, k requires 0 <= k < |ps| => if ps[k].id == id then MergeProfile(ps[k], u) else ps[k])
  }

  /** Editing the active profile without touching its id keeps the ids
      unique, the edited profile becomes the active one as merged, and the
      sync effect then hands its channel to the hub. */
  lemma UpdateActiveThenSync(h: MidiService.Hub, st: ProfileState, u: ProfileUpdate)
    requires UniqueIds(st.profiles) && HasId(st.profiles, st.activeId) && u.id.None?
    ensures var st' := st.(profiles := UpdateProfile(st.profiles, st.activeId, u));
            && UniqueIds(st'.profiles)
            && ActiveProfile(st') == Some(MergeProfile(ActiveProfile(st).value, u))
            && SyncDefaultChannel(h, st').defaultChannel == MergeProfile(ActiveProfile(st).value, u).channel
  {
    var ps := st.profiles;
    var r := UpdateProfile(ps, st.activeId, u);
    forall k | 0 <= k < |ps| ensures r[k].id == ps[k].id {
      MergeProfileKeepsId(ps[k], u);
    }
    var i :| 0 <= i < |ps| && ps[i].id == st.activeId;
    FindUnique(ps, st.activeId, i);
    FindUnique(r, st.activeId, i);
  }

  /** Selecting a profile from the sidebar. */
  function SelectProfile(st: ProfileState, id: string): (r: ProfileState)
    ensures r.profiles == st.profiles && r.activeId == id
  {
    st.(activeId := id)
  }

  /** `profiles.find(p => p.id === id)`: the first profile with that id. */
  function Find(ps: seq<MidiProfile>, id: string): (r: Option<MidiProfile>)
    ensures r.Some? <==> HasId(ps, id)
    ensures r.Some? ==> exists i :: 0 <= i < |ps| && ps[i] == r.value && r.value.id == id &&
                          forall j :: 0 <= j < i ==> ps[j].id != id
  {
    if ps == [] then None
    else if ps[0].id == id then Some(ps[0])
    else
      var r := Find(ps[1..], id);
      assert forall i :: 0 <= i < |ps[1..]| ==> ps[1..][i] == ps[i + 1];
      assert HasId(ps[1..], id) ==> HasId(ps, id);
      assert HasId(ps, id) ==> HasId(ps[1..], id) by {
        if HasId(ps, id) {
          var i :| 0 <= i < |ps| && ps[i].id == id;
          assert ps[1..][i - 1] == ps[i];
        }
      }
      if r.Some? then
        var i :| 0 <= i < |ps[1..]| && ps[1..][i] == r.value && r.value.id == id &&
                 forall j :: 0 <= j < i ==> ps[1..][j].id != id;
        assert ps[i + 1] == r.value;
        r
      else r
  }

  /** With unique ids the profile found is the only one with that id. */
  lemma FindUnique(ps: seq<MidiProfile>, id: string, i: nat)
    requires UniqueIds(ps) && i < |ps| && ps[i].id == id
    ensures Find(ps, id) == Some(ps[i])
  {
  }

  /** `activeProfile`: the profile the active id names, else the first
      profile; nothing when the list is empty. */
  function ActiveProfile(st: ProfileState): (r: Option<MidiProfile>)
    ensures HasId(st.profiles, st.activeId) ==> r == Find(st.profiles, st.activeId) && r.value.id == st.activeId
    ensures !HasId(st.profiles, st.activeId) && |st.profiles| > 0 ==> r == Some(st.profiles[0])
    ensures r.None? <==> |st.profiles| == 0
    ensures r.Some? ==> r.value in st.profiles
  {
    match Find(st.profiles, st.activeId)
    case Some(p) => Some(p)
    case None => if |st.profiles| > 0 then Some(st.profiles[0]) else None
  }

  /** The effect on `[activeProfileId, profiles]`: the hub's default channel
      follows the profile the active id names, and is left alone when the
      id names none (even though the form then shows the first profile). */
  function SyncDefaultChannel(h: MidiService.Hub, st: ProfileState): (r: MidiService.Hub)
    ensures HasId(st.profiles, st.activeId) ==> r == h.(defaultChannel := ActiveProfile(st).value.channel)
    ensures !HasId(st.profiles, st.activeId) ==> r == h
  {
    match Find(st.profiles, st.activeId)
    case Some(p) => h.(defaultChannel := p.channel)
    case None => h
  }
}
