/** The fixed pad grid of constants.tsx: four rows of four pad numbers as the
    hardware lays them out (pad 1 bottom-left), and a default label per pad. */
module Constants {

  const PadLayout: seq<seq<int>> := [
    [13, 14, 15, 16],
    [9, 10, 11, 12],
    [5, 6, 7, 8],
    [1, 2, 3, 4]
  ]

  const PadLabels: map<int, string> := map[
    1 := "Kick", 2 := "Sub", 3 := "Tom L", 4 := "Tom H",
    5 := "Snare", 6 := "Rim", 7 := "Clap", 8 := "Perc",
    9 := "OH", 10 := "CH", 11 := "Crash", 12 := "Ride",
    13 := "Shk", 14 := "Clap 2", 15 := "Snap", 16 := "FX"
  ]

  /** A pad number of the 16-pad bank. */
  predicate IsPad(p: int)
  {
    1 <= p <= 16
  }

  /** `rows.flat()`: the rows concatenated in order. */
  function Flatten(rows: seq<seq<int>>): seq<int>
  {
    if rows == [] then [] else rows[0] + Flatten(rows[1..])
  }

  /** Flattening distributes over concatenation of row lists. */
  lemma {:induction false} FlattenAppend(a: seq<seq<int>>, b: seq<seq<int>>)
    ensures Flatten(a + b) == Flatten(a) + Flatten(b)
  {
    if a == [] {
      assert a + b == b;
    } else {
      assert (a + b)[1..] == a[1..] + b;
      FlattenAppend(a[1..], b);
    }
  }

  /** Rows of equal width `w` flatten to `|rows| * w` pads. */
  lemma {:induction false} FlattenLength(rows: seq<seq<int>>, w: nat)
    requires forall k :: 0 <= k < |rows| ==> |rows[k]| == w
    ensures |Flatten(rows)| == |rows| * w
  {
    if rows != [] {
      FlattenLength(rows[1..], w);
    }
  }

  /** The layout is a 4 x 4 grid whose rows run 13..16, 9..12, 5..8, 1..4:
      pad numbers rise by one to the right and by four upwards. */
  lemma LayoutShape()
    ensures |PadLayout| == 4
    ensures forall r :: 0 <= r < 4 ==> |PadLayout[r]| == 4
    ensures forall r, c :: 0 <= r < 4 && 0 <= c < 4 ==> PadLayout[r][c] == 4 * (3 - r) + c + 1
    ensures PadLayout[3] == [1, 2, 3, 4] && PadLayout[0] == [13, 14, 15, 16]
  {
  }

  /** Flattened, the layout lists every pad 1..16 exactly once. */
  lemma LayoutIsPermutation()
    ensures |Flatten(PadLayout)| == 16
    ensures forall p :: p in Flatten(PadLayout) <==> IsPad(p)
    ensures forall i, j :: 0 <= i < j < 16 ==> Flatten(PadLayout)[i] != Flatten(PadLayout)[j]
  {
    var flat := Flatten(PadLayout);
    assert flat == [13, 14, 15, 16, 9, 10, 11, 12, 5, 6, 7, 8, 1, 2, 3, 4];
  }

  /** Every pad has a default label, and nothing else does. */
  lemma LabelsCoverPads()
    ensures forall p :: p in PadLabels <==> IsPad(p)
  {
  }
}
