/** The cell renderer of `ply_cell_renderer.py`: the fallback sphere of a cell
    model, the energy particles that rise from hot cells and fade, the
    temperature colour of a cell drawn without an explicit colour, and the
    factory of three thermophile species. */
module PlyCellRenderer {
  import opened Geometry
  import opened Wrappers
  import opened SphereMesh
  import opened PcrSimple

  // ---------------------------------------------------------------- the cell model

  const DefaultSegments := 16
  const DefaultRadius := 1.0

  class PlyCellModel {
    /** The `segments` of `create_default_geometry`. */
    const segments: nat
    var colors: seq<Rgb>
    var indices: seq<nat>
    var center: Vec3
    var boundingBox: Option<(Vec3, Vec3)>

    /** `__init__` when the PLY file cannot be read: the default geometry. */
    constructor ()
      ensures segments == DefaultSegments && SphereGeometry(segments, colors, indices)
      ensures center == Vec3(0.0, 0.0, 0.0)
      ensures boundingBox == Some((Vec3(-DefaultRadius, -DefaultRadius, -DefaultRadius), Vec3(DefaultRadius, DefaultRadius, DefaultRadius)))
    {
      segments := DefaultSegments;
      new;
      CreateDefaultGeometry();
    }

    /** `create_default_geometry`: a sphere of `segments` segments and radius 1,
        centred at the origin, with the box `[-1, 1]` on every axis. */
    method CreateDefaultGeometry()
      modifies this`colors, this`indices, this`center, this`boundingBox
      ensures SphereGeometry(segments, colors, indices)
      ensures center == Vec3(0.0, 0.0, 0.0)
      ensures boundingBox == Some((Vec3(-DefaultRadius, -DefaultRadius, -DefaultRadius), Vec3(DefaultRadius, DefaultRadius, DefaultRadius)))
    {
      var c, ix := BuildSphere(segments);
      colors := c;
      indices := ix;
      center := Vec3(0.0, 0.0, 0.0);
      boundingBox := Some((Vec3(-DefaultRadius, -DefaultRadius, -DefaultRadius), Vec3(DefaultRadius, DefaultRadius, DefaultRadius)));
    }
  }

  // ---------------------------------------------------------------- energy particles

  /** One energy particle, the dictionary of `create_energy_particle`. */
  datatype Particle = Particle(position: Vec3, velocity: Vec3, color: Rgb, lifetime: real, maxLifetime: real, size: real)

  /** One frame of a particle: it loses `dt` of lifetime, moves by its velocity,
      then the velocity is damped to 98% and gravity takes `2 * dt` off its
      vertical component. */
  function ParticleStep(p: Particle, dt: real): (q: Particle)
    ensures q.lifetime == p.lifetime - dt
    ensures q.position == p.position.Plus(p.velocity.Times(dt))
    ensures q.velocity == Vec3(p.velocity.x * 0.98, p.velocity.y * 0.98 - 2.0 * dt, p.velocity.z * 0.98)
    ensures q.color == p.color && q.maxLifetime == p.maxLifetime && q.size == p.size
  {
    var damped := p.velocity.Times(0.98);
    p.(lifetime := p.lifetime - dt,
       position := p.position.Plus(p.velocity.Times(dt)),
       velocity := damped.(y := damped.y - 2.0 * dt))
  }

  predicate Alive(p: Particle) {
    p.lifetime > 0.0
  }

  /** What `update_energy_particles` evidently does: step every particle and
      keep, in order, those still alive. */
  function AgedParticles(ps: seq<Particle>, dt: real): seq<Particle> {
    if ps == [] then []
    else
      var q := ParticleStep(ps[|ps| - 1], dt);
      AgedParticles(ps[..|ps| - 1], dt) + (if Alive(q) then [q] else [])
  }

  /** The survivors are exactly the stepped particles that are still alive, and
      there are no more of them than before. */
  lemma {:induction false} AgedParticlesMembers(ps: seq<Particle>, dt: real)
    ensures |AgedParticles(ps, dt)| <= |ps|
    ensures forall q :: q in AgedParticles(ps, dt) <==> Alive(q) && exists p :: p in ps && q == ParticleStep(p, dt)
  {
    if ps != [] {
      var init, last := ps[..|ps| - 1], ps[|ps| - 1];
      AgedParticlesMembers(init, dt);
      assert ps == init + [last];
      forall q | Alive(q) && (exists p :: p in ps && q == ParticleStep(p, dt))
        ensures q in AgedParticles(ps, dt)
      {
        var p :| p in ps && q == ParticleStep(p, dt);
        if p != last {
          assert p in init;
        }
      }
    }
  }

  /** The update works piece by piece, so the survivors keep their relative order. */
  lemma {:induction false} AgedParticlesAppend(a: seq<Particle>, b: seq<Particle>, dt: real)
    ensures AgedParticles(a + b, dt) == AgedParticles(a, dt) + AgedParticles(b, dt)
    decreases |b|
  {
    if b == [] {
      assert a + b == a;
    } else {
      AgedParticlesAppend(a, b[..|b| - 1], dt);
      assert (a + b)[..|a + b| - 1] == a + b[..|b| - 1];
    }
  }

  /** The particles after one frame, before anything is removed. */
  function Stepped(ps: seq<Particle>, dt: real): (r: seq<Particle>)
    ensures |r| == |ps|
    ensures forall k :: 0 <= k < |ps| ==> r[k] == ParticleStep(ps[k], dt)
  {
    if ps == [] then [] else Stepped(ps[..|ps| - 1], dt) + [ParticleStep(ps[|ps| - 1], dt)]
  }

  /** The places `0 .. n - 1`, which stand for the identities of the particles. */
  function Places(n: nat): (r: seq<nat>)
    ensures |r| == n && forall k :: 0 <= k < n ==> r[k] == k
  {
    if n == 0 then [] else Places(n - 1) + [n - 1]
  }

  /** The particles at the given places. */
  function Pick(aged: seq<Particle>, live: seq<nat>): seq<Particle> {
    if live == [] then []
    else Pick(aged, live[..|live| - 1]) + (if live[|live| - 1] < |aged| then [aged[live[|live| - 1]]] else [])
  }

  /** The loop of `update_energy_particles` as it is written. It walks a copy
      of the list and calls `list.remove` on each particle whose lifetime ran
      out. `remove` compares the list's elements with the particle from the
      front; the particle itself matches by identity, but comparing two
      distinct particle dictionaries compares their NumPy position arrays,
      whose truth value Python refuses. So the call raises unless the particle
      is the list's first element. `live` holds the places of the particles
      still in the list. */
  function RemovePassAsWritten(aged: seq<Particle>, live: seq<nat>, i: nat): Result<seq<nat>>
    decreases |aged| - i
  {
    if i >= |aged| then Ok(live)
    else if Alive(aged[i]) then RemovePassAsWritten(aged, live, i + 1)
    else if live != [] && live[0] == i then RemovePassAsWritten(aged, live[1..], i + 1)
    else Err("ValueError: the truth value of an array with more than one element is ambiguous")
  }

  function UpdateParticlesAsWritten(ps: seq<Particle>, dt: real): Result<seq<Particle>> {
    var aged := Stepped(ps, dt);
    match RemovePassAsWritten(aged, Places(|ps|), 0)
    case Ok(live) => Ok(Pick(aged, live))
    case Err(e) => Err(e)
  }

  /** A particle that survives the frame followed by one that expires in it
      (for instance lifetimes 2.0 and 0.01 with `dt` 0.02): the loop as written
      raises, while the intended update keeps the first particle. */
  lemma UpdateParticlesAsWrittenRaises(p: Particle, q: Particle, dt: real)
    requires p.lifetime - dt > 0.0 && q.lifetime - dt <= 0.0
    ensures UpdateParticlesAsWritten([p, q], dt).Err?
    ensures AgedParticles([p, q], dt) == [ParticleStep(p, dt)]
  {
    var aged := Stepped([p, q], dt);
    assert Alive(aged[0]) && !Alive(aged[1]);
    var live := Places(2);
    assert live[0] == 0;
    assert RemovePassAsWritten(aged, live, 1).Err?;
    assert RemovePassAsWritten(aged, live, 0) == RemovePassAsWritten(aged, live, 1);
    AgedSurvivorOnly(p, q, dt);
  }

  lemma AgedSurvivorOnly(p: Particle, q: Particle, dt: real)
    requires p.lifetime - dt > 0.0 && q.lifetime - dt <= 0.0
    ensures AgedParticles([p, q], dt) == [ParticleStep(p, dt)]
  {
    assert [p, q][..1] == [p] && [p][..0] == [];
    assert AgedParticles([p], dt) == [ParticleStep(p, dt)];
  }

  lemma {:induction false} RemovePassNoExpiry(aged: seq<Particle>, live: seq<nat>, i: nat)
    requires forall k :: i <= k < |aged| ==> Alive(aged[k])
    ensures RemovePassAsWritten(aged, live, i) == Ok(live)
    decreases |aged| - i
  {
    if i < |aged| {
      RemovePassNoExpiry(aged, live, i + 1);
    }
  }

  lemma {:induction false} PickPlaces(aged: seq<Particle>, n: nat)
    requires n <= |aged|
    ensures Pick(aged, Places(n)) == aged[..n]
  {
    if n > 0 {
      PickPlaces(aged, n - 1);
      assert Places(n)[..n - 1] == Places(n - 1);
      assert aged[..n] == aged[..n - 1] + [aged[n - 1]];
    }
  }

  lemma {:induction false} AgedParticlesAllAlive(ps: seq<Particle>, dt: real)
    requires forall k :: 0 <= k < |ps| ==> Alive(ParticleStep(ps[k], dt))
    ensures AgedParticles(ps, dt) == Stepped(ps, dt)
  {
    if ps != [] {
      AgedParticlesAllAlive(ps[..|ps| - 1], dt);
    }
  }

  /** A frame in which no particle expires goes through the loop as written
      without raising, and gives the intended update. */
  lemma UpdateParticlesNoExpiry(ps: seq<Particle>, dt: real)
    requires forall k :: 0 <= k < |ps| ==> Alive(ParticleStep(ps[k], dt))
    ensures UpdateParticlesAsWritten(ps, dt) == Ok(AgedParticles(ps, dt))
  {
    var aged := Stepped(ps, dt);
    RemovePassNoExpiry(aged, Places(|ps|), 0);
    PickPlaces(aged, |ps|);
    assert aged[..|ps|] == aged;
    AgedParticlesAllAlive(ps, dt);
  }

  class CellRenderer {
    var energyParticles: seq<Particle>

    constructor ()
      ensures energyParticles == []
    {
      energyParticles := [];
    }

    /** `update_energy_particles`, with expired particles removed by identity. */
    method UpdateEnergyParticles(dt: real)
      modifies this`energyParticles
      ensures energyParticles == AgedParticles(old(energyParticles), dt)
    {
      var snapshot := energyParticles;
      var kept: seq<Particle> := [];
      var i := 0;
      while i < |snapshot|
        invariant 0 <= i <= |snapshot|
        invariant kept == AgedParticles(snapshot[..i], dt)
      {
        assert snapshot[..i + 1][..i] == snapshot[..i];
        var particle := snapshot[i];
        particle := particle.(lifetime := particle.lifetime - dt);
        particle := particle.(position := particle.position.Plus(particle.velocity.Times(dt)));
        particle := particle.(velocity := particle.velocity.Times(0.98));
        particle := particle.(velocity := particle.velocity.(y := particle.velocity.y - 2.0 * dt));
        if particle.lifetime > 0.0 {
          kept := kept + [particle];
        }
        i := i + 1;
      }
      assert snapshot[..i] == snapshot;
      energyParticles := kept;
    }
  }

  // ---------------------------------------------------------------- colours and species

  /** The base colour of `render_cell_model`: the explicit colour when one is
      given, otherwise the temperature colour. */
  function BaseColor(temperature: real, color: Option<Rgb>): (c: Rgb)
    ensures color.Some? ==> c == color.value
    ensures color.None? && temperature > 80.0 ==> c == Hot
    ensures color.None? && 60.0 < temperature <= 80.0 ==> c == Warm
    ensures color.None? && 40.0 < temperature <= 60.0 ==> c == Mild
    ensures color.None? && temperature <= 40.0 ==> c == Cool
  {
    if color.Some? then color.value else CellColor(temperature)
  }

  /** The additive glow of `render_cell_model` above 80 degrees: its alpha is
      half of how far the temperature has gone into the band `(80, 100]`. */
  function GlowAlpha(temperature: real): (a: Option<real>)
    ensures a.Some? <==> temperature > 80.0
    ensures a.Some? && temperature <= 100.0 ==> 0.0 < a.value <= 0.5
    ensures a.Some? ==> a.value == (temperature - 80.0) / 40.0
  {
    if temperature > 80.0 then Some((temperature - 80.0) / 20.0 * 0.5) else None
  }

  datatype Species = ThermusAquaticus | PyrococcusFuriosus | ThermococcusLitoralis

  /** The record a `CellFactory` method returns. */
  datatype CellRecord = CellRecord(
    species: Species, position: Vec3, optimalTemp: real, maxTemp: real,
    color: Rgb, size: real, energyEfficiency: real)

  /** `CellFactory`: each species' constants, at the given position. Every
      species tolerates more than its optimum, and is more than 80% efficient. */
  function CreateCell(species: Species, position: Vec3): (r: CellRecord)
    ensures r.species == species && r.position == position
    ensures r.optimalTemp < r.maxTemp
    ensures 0.8 < r.energyEfficiency < 1.0 && 0.0 < r.size
  {
    match species
    case ThermusAquaticus => CellRecord(species, position, 70.0, 80.0, Rgb(0.8, 0.6, 0.2), 1.2, 0.9)
    case PyrococcusFuriosus => CellRecord(species, position, 100.0, 105.0, Rgb(0.8, 0.2, 0.2), 1.0, 0.95)
    case ThermococcusLitoralis => CellRecord(species, position, 88.0, 98.0, Rgb(0.6, 0.8, 0.2), 0.8, 0.85)
  }
}
