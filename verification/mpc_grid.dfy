/** The 4 x 4 pad grid of components/MPCGrid.tsx: one button per pad of the
    flattened layout, its colour (selected over assigned over empty), the
    text it shows (the sample's file name, or the pad's default label) and
    the pad number its click reports. */
module MpcGrid {
  import opened Types
  import opened Constants
  import opened Wrappers

  /** The pads in the order the grid renders them: `PAD_LAYOUT.flat()`. */
  function GridPads(): (r: seq<int>)
    ensures |r| == 16
    ensures forall i :: 0 <= i < 16 ==> IsPad(r[i])
    ensures forall p :: IsPad(p) ==> p in r
    ensures forall i, j :: 0 <= i < j < 16 ==> r[i] != r[j]
  {
    LayoutIsPermutation();
    Flatten(PadLayout)
  }

  /** The three looks of a pad button. */
  datatype PadStyle = Selected | Assigned | Empty

  /** The class chain `selectedPad === padId ? … : isAssigned ? … : …`. */
  function Style(selected: Option<int>, pads: PadMap, pad: int): (s: PadStyle)
    ensures s == Selected <==> selected == Some(pad)
    ensures s == Assigned <==> selected != Some(pad) && IsAssigned(pads, pad)
    ensures s == Empty <==> selected != Some(pad) && !IsAssigned(pads, pad)
  {
    if selected == Some(pad) then Selected
    else if IsAssigned(pads, pad) then Assigned
    else Empty
  }

  /** `path.split('/').pop()`: what follows the last `/`, the whole path
      when it has none, and nothing when it ends in `/`. */
  function Basename(path: string): (r: string)
    ensures '/' !in r
    ensures |r| <= |path| && r == path[|path| - |r|..]
    ensures |r| < |path| ==> path[|path| - |r| - 1] == '/'
  {
    if path == [] then []
    else if path[|path| - 1] == '/' then []
    else Basename(path[..|path| - 1]) + [path[|path| - 1]]
  }

  /** A file name behind any directory prefix comes back whole. */
  lemma {:induction false} BasenameOfJoin(dir: string, name: string)
    requires '/' !in name
    ensures Basename(dir + "/" + name) == name
    decreases |name|
  {
    var path := dir + "/" + name;
    if name == [] {
      assert path[|path| - 1] == '/';
    } else {
      var init := name[..|name| - 1];
      assert path[..|path| - 1] == dir + "/" + init;
      assert '/' !in init by {
        forall i | 0 <= i < |init| ensures init[i] != '/' {
          assert init[i] == name[i];
        }
      }
      BasenameOfJoin(dir, init);
      assert name == init + [name[|name| - 1]];
    }
  }

  /** A path without `/` is its own base name. */
  lemma {:induction false} BasenameOfPlain(name: string)
    requires '/' !in name
    ensures Basename(name) == name
    decreases |name|
  {
    if name != [] {
      var init := name[..|name| - 1];
      assert '/' !in init by {
        forall i | 0 <= i < |init| ensures init[i] != '/' {
          assert init[i] == name[i];
        }
      }
      BasenameOfPlain(init);
      assert name == init + [name[|name| - 1]];
    }
  }

  /** The text on a pad: the base name of its sample when assigned, else
      its entry of `PAD_LABELS`. */
  function Caption(pads: PadMap, pad: int): (t: string)
    requires IsPad(pad)
    ensures IsAssigned(pads, pad) ==> t == Basename(pads[pad].samplePath) && '/' !in t
    ensures !IsAssigned(pads, pad) ==> t == PadLabels[pad]
  {
    LabelsCoverPads();
    if IsAssigned(pads, pad) then Basename(pads[pad].samplePath) else PadLabels[pad]
  }

  /** One rendered button: the pad it stands for (shown in its corner and
      passed to `onPadSelect` when clicked), its look, its caption and
      whether its indicator dot is lit. */
  datatype Button = Button(pad: int, style: PadStyle, caption: string, lit: bool)

  /** The grid. */
  function Render(selected: Option<int>, pads: PadMap): (r: seq<Button>)
    ensures |r| == 16
    ensures forall i :: 0 <= i < 16 ==> r[i].pad == GridPads()[i] && IsPad(r[i].pad)
    ensures forall i :: 0 <= i < 16 ==> r[i].style == Style(selected, pads, r[i].pad)
    ensures forall i :: 0 <= i < 16 ==> r[i].caption == Caption(pads, r[i].pad)
    ensures forall i :: 0 <= i < 16 ==> (r[i].lit <==> IsAssigned(pads, r[i].pad))
  {
    var order := GridPads();
    seq(16, i requires 0 <= i < 16 =>
      Button(order[i], Style(selected, pads, order[i]), Caption(pads, order[i]), IsAssigned(pads, order[i])))
  }

  /** Every pad has exactly one button, and at most one button is drawn as
      selected: the one for the selected pad, when that is a pad at all. */
  lemma OneButtonPerPad(selected: Option<int>, pads: PadMap)
    ensures var r := Render(selected, pads);
            && (forall p :: IsPad(p) ==> exists i :: 0 <= i < 16 && r[i].pad == p)
            && (forall i, j :: 0 <= i < 16 && 0 <= j < 16 && r[i].style == Selected && r[j].style == Selected ==> i == j)
            && (selected.Some? && IsPad(selected.value) ==> exists i :: 0 <= i < 16 && r[i].style == Selected)
            && (selected.None? ==> forall i :: 0 <= i < 16 ==> r[i].style != Selected)
  {
    var r := Render(selected, pads);
    var order := GridPads();
    forall p | IsPad(p) ensures exists i :: 0 <= i < 16 && r[i].pad == p {
      var i :| 0 <= i < 16 && order[i] == p;
      assert r[i].pad == p;
    }
    if selected.Some? && IsPad(selected.value) {
      var i :| 0 <= i < 16 && order[i] == selected.value;
      assert r[i].style == Selected;
    }
  }
}
