/** The four scene models of the dual-hand viewer in `basteria_mediapipe.py`:
    the PCR fragment population, the polymerase enzyme, the two DNA strands and
    the helicase. Vertex data loaded from PLY files is an input: a model only
    records whether its file loaded and, for the strands, the vertices. */
module BasteriaModels {
  import opened Geometry
  import opened Wrappers

  // ---------------------------------------------------------------- PCR fragments

  /** Where a spawned fragment is drawn. The source draws these at random; here
      they are whatever the caller passes in. */
  datatype FragmentPose = FragmentPose(pos: Vec3, angle: real, axis: Vec3)

  /** One replicated fragment and the frames it has left. */
  datatype Fragment = Fragment(pose: FragmentPose, life: int)

  const MaxFragments := 200
  const FragmentLifespan := 180

  /** Append one fresh fragment unless the population is at the cap. */
  function SpawnOne(frs: seq<Fragment>, pose: FragmentPose): seq<Fragment> {
    if |frs| < MaxFragments then frs + [Fragment(pose, FragmentLifespan)] else frs
  }

  /** The spawning loop, one attempt per pose. */
  function SpawnAll(frs: seq<Fragment>, poses: seq<FragmentPose>): seq<Fragment>
    decreases |poses|
  {
    if poses == [] then frs else SpawnAll(SpawnOne(frs, poses[0]), poses[1..])
  }

  /** The spawning phase of `PCRModel.update`: two attempts when the hand moves
      faster than 0.05 and the population is below the cap. */
  function Spawn(frs: seq<Fragment>, velocity: real, poses: (FragmentPose, FragmentPose)): seq<Fragment> {
    if velocity > 0.05 && |frs| < MaxFragments then SpawnAll(frs, [poses.0, poses.1]) else frs
  }

  /** The fragments whose life is still positive, in their original order. */
  function Survivors(frs: seq<Fragment>): seq<Fragment> {
    if frs == [] then []
    else Survivors(frs[..|frs| - 1]) + (if frs[|frs| - 1].life > 0 then [frs[|frs| - 1]] else [])
  }

  /** Every fragment loses `rate` frames of life. */
  function Decay(frs: seq<Fragment>, rate: int): seq<Fragment> {
    seq(|frs|, i requires 0 <= i < |frs| => frs[i].(life := frs[i].life - rate))
  }

  /** Filter out the expired fragments, then age the rest. */
  function Tick(frs: seq<Fragment>, rate: int): seq<Fragment> {
    Decay(Survivors(frs), rate)
  }

  /** A hand slower than 0.01 ages the fragments ten times as fast. */
  function DecayRate(velocity: real): int {
    if velocity < 0.01 then 10 else 1
  }

  /** The whole of `PCRModel.update`. */
  function Updated(frs: seq<Fragment>, velocity: real, poses: (FragmentPose, FragmentPose)): seq<Fragment> {
    Tick(Spawn(frs, velocity, poses), DecayRate(velocity))
  }

  lemma {:induction false} SpawnAllProperties(frs: seq<Fragment>, poses: seq<FragmentPose>)
    ensures var r := SpawnAll(frs, poses);
      && |frs| <= |r| <= |frs| + |poses|
      && r[..|frs|] == frs
      && (|frs| <= MaxFragments ==> |r| == Min((|frs| + |poses|) as real, MaxFragments as real) as int)
      && (|frs| > MaxFragments ==> r == frs)
      && forall i :: |frs| <= i < |r| ==> r[i].life == FragmentLifespan
    decreases |poses|
  {
    if poses != [] {
      var once := SpawnOne(frs, poses[0]);
      SpawnAllProperties(once, poses[1..]);
      var r := SpawnAll(once, poses[1..]);
      assert r[..|once|] == once;
      assert r[..|frs|] == once[..|frs|];
    }
  }

  /** Spawning keeps the old fragments as a prefix, adds at most two fresh ones
      with a full lifespan, only for a fast hand, and never passes the cap. */
  lemma SpawnProperties(frs: seq<Fragment>, velocity: real, poses: (FragmentPose, FragmentPose))
    ensures var r := Spawn(frs, velocity, poses);
      && |frs| <= |r| <= |frs| + 2
      && r[..|frs|] == frs
      && (velocity <= 0.05 ==> r == frs)
      && (|frs| <= MaxFragments ==> |r| <= MaxFragments)
      && (velocity > 0.05 && |frs| <= MaxFragments ==> |r| == Min((|frs| + 2) as real, MaxFragments as real) as int)
      && forall i :: |frs| <= i < |r| ==> r[i].life == FragmentLifespan
  {
    SpawnAllProperties(frs, [poses.0, poses.1]);
  }

  /** The survivors are exactly the fragments with positive life: nothing else
      is kept and nothing with life left is lost. */
  lemma {:induction false} SurvivorsMembers(frs: seq<Fragment>)
    ensures |Survivors(frs)| <= |frs|
    ensures forall f :: f in Survivors(frs) <==> f in frs && f.life > 0
  {
    if frs != [] {
      SurvivorsMembers(frs[..|frs| - 1]);
      assert frs == frs[..|frs| - 1] + [frs[|frs| - 1]];
    }
  }

  /** Filtering works piece by piece, so the survivors keep their relative order. */
  lemma {:induction false} SurvivorsAppend(a: seq<Fragment>, b: seq<Fragment>)
    ensures Survivors(a + b) == Survivors(a) + Survivors(b)
    decreases |b|
  {
    if b == [] {
      assert a + b == a;
    } else {
      var b' := b[..|b| - 1];
      SurvivorsAppend(a, b');
      assert (a + b)[..|a + b| - 1] == a + b';
    }
  }

  /** Ageing keeps every fragment in place and takes exactly `rate` off its life. */
  lemma DecayProperties(frs: seq<Fragment>, rate: int)
    ensures |Decay(frs, rate)| == |frs|
    ensures forall i :: 0 <= i < |frs| ==>
      Decay(frs, rate)[i].pose == frs[i].pose && Decay(frs, rate)[i].life == frs[i].life - rate
  {
  }

  /** After a tick every fragment has positive life before ageing, so at least
      `1 - rate`, and there are no more fragments than before. */
  lemma TickProperties(frs: seq<Fragment>, rate: int)
    ensures |Tick(frs, rate)| <= |frs|
    ensures forall i :: 0 <= i < |Tick(frs, rate)| ==> Tick(frs, rate)[i].life >= 1 - rate
  {
    SurvivorsMembers(frs);
    var s := Survivors(frs);
    forall i | 0 <= i < |s| ensures s[i].life > 0 {
      assert s[i] in s;
    }
  }

  /** `PCRModel.update` never takes the population past the cap. */
  lemma UpdatedBounded(frs: seq<Fragment>, velocity: real, poses: (FragmentPose, FragmentPose))
    requires |frs| <= MaxFragments
    ensures |Updated(frs, velocity, poses)| <= MaxFragments
  {
    SpawnProperties(frs, velocity, poses);
    TickProperties(Spawn(frs, velocity, poses), DecayRate(velocity));
  }

  /** A fast hand over an empty scene spawns exactly two fragments, each aged once. */
  lemma UpdatedFromEmpty(velocity: real, poses: (FragmentPose, FragmentPose))
    requires velocity > 0.05
    ensures Updated([], velocity, poses) == [Fragment(poses.0, 179), Fragment(poses.1, 179)]
  {
    var spawned := [Fragment(poses.0, FragmentLifespan), Fragment(poses.1, FragmentLifespan)];
    var once := SpawnOne([], poses.0);
    assert [poses.0, poses.1][1..] == [poses.1];
    assert SpawnAll(once, [poses.1]) == SpawnAll(SpawnOne(once, poses.1), []);
    assert Spawn([], velocity, poses) == spawned;
    assert spawned[..1] == [spawned[0]];
    assert [spawned[0]][..0] == [];
    assert Survivors([spawned[0]]) == [spawned[0]];
    assert Survivors(spawned) == spawned;
  }

  /** The PCR model: a population of fragments that the hand replicates and
      that ages every frame. */
  class PCRModel {
    const hasBaseFragment: bool
    var fragments: seq<Fragment>

    ghost predicate Valid()
      reads this
    {
      |fragments| <= MaxFragments
    }

    /** `hasBaseFragment` says whether the fragment's PLY file loaded. */
    constructor (hasBaseFragment: bool)
      ensures Valid()
      ensures this.hasBaseFragment == hasBaseFragment && fragments == []
    {
      this.hasBaseFragment := hasBaseFragment;
      fragments := [];
    }

    /** Remove the expired fragments, then age the rest in place. */
    method TickFragments(rate: int)
      modifies this
      ensures fragments == Tick(old(fragments), rate)
    {
      RemoveExpired();
      AgeAll(rate);
    }

    /** The list comprehension that keeps the fragments with life left. */
    method RemoveExpired()
      modifies this
      ensures fragments == Survivors(old(fragments))
    {
      var kept: seq<Fragment> := [];
      var i := 0;
      while i < |fragments|
        invariant 0 <= i <= |fragments|
        invariant kept == Survivors(fragments[..i])
      {
        assert fragments[..i + 1][..i] == fragments[..i];
        if fragments[i].life > 0 {
          kept := kept + [fragments[i]];
        }
        i := i + 1;
      }
      assert fragments[..i] == fragments;
      fragments := kept;
    }

    /** The loop that takes `rate` off every fragment's life in place. */
    method AgeAll(rate: int)
      modifies this
      ensures fragments == Decay(old(fragments), rate)
    {
      ghost var orig := fragments;
      var j := 0;
      while j < |fragments|
        invariant 0 <= j <= |fragments| == |orig|
        invariant forall k :: 0 <= k < j ==> fragments[k] == orig[k].(life := orig[k].life - rate)
        invariant forall k :: j <= k < |fragments| ==> fragments[k] == orig[k]
      {
        fragments := fragments[j := fragments[j].(life := fragments[j].life - rate)];
        j := j + 1;
      }
      assert fragments == Decay(orig, rate);
    }

    /** `PCRModel.update`: spawn for a fast hand, then filter and age. */
    method Update(velocity: real, poses: (FragmentPose, FragmentPose))
      requires Valid()
      modifies this
      ensures Valid()
      ensures fragments == Updated(old(fragments), velocity, poses)
    {
      if velocity > 0.05 && |fragments| < MaxFragments {
        var attempts := [poses.0, poses.1];
        var k := 0;
        while k < 2
          invariant 0 <= k <= 2
          invariant SpawnAll(old(fragments), attempts) == SpawnAll(fragments, attempts[k..])
        {
          if |fragments| < MaxFragments {
            fragments := fragments + [Fragment(attempts[k], FragmentLifespan)];
          }
          k := k + 1;
        }
      }
      assert fragments == Spawn(old(fragments), velocity, poses);
      UpdatedBounded(old(fragments), velocity, poses);
      TickFragments(DecayRate(velocity));
    }

    /** `PCRModel.update_fragments`: the per-frame ageing, ten times faster when
      the left hand is absent, and nothing at all when the fragment did not load. */
    method UpdateFragments(handStill: bool)
      requires Valid()
      modifies this
      ensures Valid()
      ensures hasBaseFragment ==> fragments == Tick(old(fragments), if handStill then 10 else 1)
      ensures !hasBaseFragment ==> unchanged(this)
    {
      if hasBaseFragment {
        TickProperties(fragments, if handStill then 10 else 1);
        TickFragments(if handStill then 10 else 1);
      }
    }
  }

  // ---------------------------------------------------------------- enzyme

  /** Where the enzyme rests, where attaching starts, and where it attaches. */
  const EnzymeRest := Vec3(0.0, 5.0, 0.0)
  const EnzymeStart := Vec3(0.0, 5.0, 1.0)
  const EnzymeTarget := Vec3(0.0, 1.0, 1.0)

  /** `(1 - a) * start + a * target`. */
  function EnzymePath(a: real): (p: Vec3)
    ensures a == 0.0 ==> p == EnzymeStart
    ensures a == 1.0 ==> p == EnzymeTarget
  {
    EnzymeStart.Times(1.0 - a).Plus(EnzymeTarget.Times(a))
  }

  /** The enzyme moves along the vertical segment `x = 0, z = 1` from height 5
      down to height 1, four units per unit of attachment. */
  lemma EnzymePathSegment(a: real)
    ensures EnzymePath(a) == Vec3(0.0, 5.0 - 4.0 * a, 1.0)
    ensures 0.0 <= a <= 1.0 ==> 1.0 <= EnzymePath(a).y <= 5.0
  {
  }

  /** The polymerase and its DNA fragment. */
  class EnzymeModel {
    const hasEnzymeModel: bool
    var enzymePosition: Vec3
    var isAttached: bool
    var attachmentProgress: real

    constructor (hasEnzymeModel: bool)
      ensures this.hasEnzymeModel == hasEnzymeModel
      ensures enzymePosition == EnzymeRest && !isAttached && attachmentProgress == 0.0
    {
      this.hasEnzymeModel := hasEnzymeModel;
      enzymePosition := EnzymeRest;
      isAttached := false;
      attachmentProgress := 0.0;
    }

    /** `attach_enzyme`: place the enzyme on its path, record the progress and
        count it as attached from 0.99 on; a model that did not load is left as is. */
    method AttachEnzyme(a: real)
      modifies this
      ensures hasEnzymeModel ==>
        enzymePosition == EnzymePath(a) && attachmentProgress == a && isAttached == (a >= 0.99)
      ensures !hasEnzymeModel ==> unchanged(this)
    {
      if hasEnzymeModel {
        enzymePosition := EnzymePath(a);
        attachmentProgress := a;
        isAttached := a >= 0.99;
      }
    }
  }

  // ---------------------------------------------------------------- DNA strands

  /** Every vertex moved by `dx` along x. */
  function ShiftX(vs: seq<Vec3>, dx: real): (r: seq<Vec3>)
    ensures |r| == |vs|
  {
    seq(|vs|, i requires 0 <= i < |vs| => vs[i].Plus(Vec3(dx, 0.0, 0.0)))
  }

  /** A shift moves x only, by exactly `dx`, and shifting back undoes it. */
  lemma ShiftXProperties(vs: seq<Vec3>, dx: real)
    ensures forall i :: 0 <= i < |vs| ==>
      ShiftX(vs, dx)[i].x == vs[i].x + dx && ShiftX(vs, dx)[i].y == vs[i].y && ShiftX(vs, dx)[i].z == vs[i].z
    ensures ShiftX(ShiftX(vs, dx), -dx) == vs
  {
    assert forall i :: 0 <= i < |vs| ==> ShiftX(ShiftX(vs, dx), -dx)[i] == vs[i];
  }

  /** The strands pulled apart by `factor`: strand 1 by `-10 * factor` and
      strand 2 by `+10 * factor` along x. */
  function Separated(s1: seq<Vec3>, s2: seq<Vec3>, factor: real): (seq<Vec3>, seq<Vec3>) {
    (ShiftX(s1, -(factor * 10.0)), ShiftX(s2, factor * 10.0))
  }

  /** `separate_strands` as written: the guard looks at strand 1 only, so a
      missing strand 2 makes `None + vector` raise. `Ok(None)` means nothing ran. */
  function SeparateStrandsAsWritten(s1: Option<seq<Vec3>>, s2: Option<seq<Vec3>>, factor: real): Result<Option<(seq<Vec3>, seq<Vec3>)>> {
    if s1.Some? then
      if s2.None? then Err("TypeError: unsupported operand type(s) for +: 'NoneType' and 'ndarray'")
      else Ok(Some(Separated(s1.value, s2.value, factor)))
    else Ok(None)
  }

  /** With the first strand loaded and the second missing, the call raises. */
  lemma SeparateStrandsAsWrittenRaises(s1: seq<Vec3>, factor: real)
    ensures SeparateStrandsAsWritten(Some(s1), None, factor).Err?
  {
  }

  /** The guard the constructor already uses: both strands must be loaded. */
  function SeparateStrands(s1: Option<seq<Vec3>>, s2: Option<seq<Vec3>>, factor: real): Option<(seq<Vec3>, seq<Vec3>)> {
    if s1.Some? && s2.Some? then Some(Separated(s1.value, s2.value, factor)) else None
  }

  /** The corrected guard never raises and agrees with the code as written
      whenever that code does not raise. */
  lemma SeparateStrandsCorrected(s1: Option<seq<Vec3>>, s2: Option<seq<Vec3>>, factor: real)
    ensures SeparateStrandsAsWritten(s1, s2, factor).Ok? ==>
      SeparateStrandsAsWritten(s1, s2, factor).value == SeparateStrands(s1, s2, factor)
    ensures SeparateStrandsAsWritten(s1, s2, factor).Err? ==> SeparateStrands(s1, s2, factor).None?
  {
  }

  /** After a separation the corresponding vertices of the two strands are
      `20 * factor` further apart along x than in the originals. */
  lemma SeparatedGap(s1: seq<Vec3>, s2: seq<Vec3>, factor: real, i: int)
    requires 0 <= i < |s1| && i < |s2|
    ensures Separated(s1, s2, factor).1[i].x - Separated(s1, s2, factor).0[i].x == s2[i].x - s1[i].x + 20.0 * factor
  {
  }

  /** The DNA model: two strands loaded from separate files and their displaced copies. */
  class ADNModel {
    const strand1Original: Option<seq<Vec3>>
    const strand2Original: Option<seq<Vec3>>
    var strand1Displaced: Option<seq<Vec3>>
    var strand2Displaced: Option<seq<Vec3>>

    /** The displaced copies start as the originals when both loaded. */
    constructor (s1: Option<seq<Vec3>>, s2: Option<seq<Vec3>>)
      ensures strand1Original == s1 && strand2Original == s2
      ensures if s1.Some? && s2.Some? then strand1Displaced == s1 && strand2Displaced == s2
              else strand1Displaced == None && strand2Displaced == None
    {
      strand1Original, strand2Original := s1, s2;
      if s1.Some? && s2.Some? {
        strand1Displaced, strand2Displaced := s1, s2;
      } else {
        strand1Displaced, strand2Displaced := None, None;
      }
    }

    /** `separate_strands` with both strands guarded. */
    method SeparateStrandsStep(factor: real)
      modifies this
      ensures SeparateStrands(strand1Original, strand2Original, factor).Some? ==>
        strand1Displaced == Some(SeparateStrands(strand1Original, strand2Original, factor).value.0) &&
        strand2Displaced == Some(SeparateStrands(strand1Original, strand2Original, factor).value.1)
      ensures SeparateStrands(strand1Original, strand2Original, factor).None? ==> unchanged(this)
    {
      if strand1Original.Some? && strand2Original.Some? {
        strand1Displaced := Some(ShiftX(strand1Original.value, -(factor * 10.0)));
        strand2Displaced := Some(ShiftX(strand2Original.value, factor * 10.0));
      }
    }
  }

  // ---------------------------------------------------------------- helicase

  /** `z = -8 + 18 * factor`. */
  function HelicaseZ(factor: real): (z: real)
    ensures factor == 0.0 ==> z == -8.0
    ensures factor == 1.0 ==> z == 10.0
  {
    -8.0 + 18.0 * factor
  }

  /** For a factor in `[0, 1]` the helicase stays in `[-8, 10]` and moves
      forward as the factor grows. */
  lemma HelicaseZRange(f: real, g: real)
    ensures 0.0 <= f <= 1.0 ==> -8.0 <= HelicaseZ(f) <= 10.0
    ensures f <= g ==> HelicaseZ(f) <= HelicaseZ(g)
  {
  }

  class HelicaseModel {
    var position: Vec3
    var angle: real

    constructor ()
      ensures position == Vec3(0.0, 0.0, 0.0) && angle == 0.0
    {
      position := Vec3(0.0, 0.0, 0.0);
      angle := 0.0;
    }

    /** Place the helicase on the z axis according to the hand separation. */
    method Update(factor: real)
      modifies this
      ensures position == Vec3(0.0, 0.0, HelicaseZ(factor)) && angle == old(angle)
    {
      position := Vec3(0.0, 0.0, HelicaseZ(factor));
    }
  }
}
