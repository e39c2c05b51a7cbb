/** The particle swarm of day 20 (`day-20/src/main.rs`): `parse` reads a
    particle per line, `slowest_particle` picks the particle with the
    smallest acceleration, and `particles_left_after_collisions` steps the
    swarm, sorts it by position and removes the particles that share a
    position, until 100 rounds in a row pass without a collision.

    `particles.len() - 1` is a `usize` subtraction: when the list is empty
    at the start of a round, or empties during the removals and the loop
    goes on to its next index, it underflows and the program panics; the
    model returns `None` there.
 */
module Day20 {
  import opened Wrappers
  import opened Text
  import opened Day20Vectors
  import opened Day20Particle

  // ---------------------------------------------------------------- parse

  /** The result of every line, in order. */
  function ParseEach(lines: seq<string>): (r: seq<Result<Particle, ParticleError>>)
    ensures |r| == |lines| && forall i :: 0 <= i < |lines| ==> r[i] == Day20Particle.FromStr(lines[i])
  {
    seq(|lines|, i requires 0 <= i < |lines| => Day20Particle.FromStr(lines[i]))
  }

  /** `parse`: a particle per line of the trimmed input; `Err` is the panic
      of the `unwrap` on the first line that does not parse. */
  function Parse(input: string): Result<seq<Particle>, ParticleError> {
    Collect(ParseEach(Lines(Trim(input))))
  }

  // ---------------------------------------------------------------- slowest

  /** The Manhattan length of a particle's acceleration, the key of
      `min_by_key`. */
  function Key(p: Particle): int {
    Manhattan(p.acceleration)
  }

  /** `slowest_particle`: the index of the first particle whose acceleration
      is smallest; `None` is the panic of the `unwrap` on an empty list. */
  function Slowest(ps: seq<Particle>): (r: Option<nat>)
    ensures r.None? <==> ps == []
    ensures r.Some? ==> r.value < |ps|
    ensures r.Some? ==> forall i :: 0 <= i < |ps| ==> Key(ps[r.value]) <= Key(ps[i])
    ensures r.Some? ==> forall i :: 0 <= i < r.value ==> Key(ps[r.value]) < Key(ps[i])
  {
    if ps == [] then None
    else
      var n := |ps| - 1;
      var k := Slowest(ps[..n]);
      if k.None? || Key(ps[n]) < Key(ps[k.value]) then Some(n) else k
  }

  // ---------------------------------------------------------------- collisions

  /** Every particle stepped, in place, as `iter_mut().for_each` does. */
  function StepAll(ps: seq<Particle>): (r: seq<Particle>)
    ensures |r| == |ps| && forall i :: 0 <= i < |ps| ==> r[i] == Step(ps[i])
  {
    seq(|ps|, i requires 0 <= i < |ps| => Step(ps[i]))
  }

  /** Whether the positions never decrease along the list. */
  predicate Sorted(ps: seq<Particle>) {
    forall i, j :: 0 <= i < j < |ps| ==> LessEq(ps[i].position, ps[j].position)
  }

  /** `p` put in front of the first particle whose position is not below
      its own. */
  function Insert(p: Particle, ps: seq<Particle>): (r: seq<Particle>)
    ensures multiset(r) == multiset(ps) + multiset{p}
    ensures |r| == |ps| + 1
  {
    if ps == [] || LessEq(p.position, ps[0].position) then [p] + ps
    else
      assert ps == [ps[0]] + ps[1..];
      [ps[0]] + Insert(p, ps[1..])
  }

  /** `sort_by_key(|p| p.position.clone())`: a stable sort on the position. */
  function SortByPosition(ps: seq<Particle>): (r: seq<Particle>)
    ensures |r| == |ps|
  {
    if ps == [] then [] else Insert(ps[0], SortByPosition(ps[1..]))
  }

  /** Inserting into a sorted list keeps it sorted. */
  lemma {:induction false} InsertSorted(p: Particle, ps: seq<Particle>)
    requires Sorted(ps)
    ensures Sorted(Insert(p, ps))
    ensures forall q :: q in Insert(p, ps) ==> q == p || q in ps
  {
    var r := Insert(p, ps);
    if ps == [] || LessEq(p.position, ps[0].position) {
      forall i, j | 0 <= i < j < |r|
        ensures LessEq(r[i].position, r[j].position)
      {
        if i == 0 {
          LessEqOrder(p.position, ps[0].position, ps[j - 1].position);
        }
      }
    } else {
      var tail := Insert(p, ps[1..]);
      InsertSorted(p, ps[1..]);
      LessEqOrder(p.position, ps[0].position, ps[0].position);
      forall i, j | 0 <= i < j < |r|
        ensures LessEq(r[i].position, r[j].position)
      {
        if i == 0 {
          assert r[j] in tail;
        }
      }
    }
  }

  /** `SortByPosition` sorts, and keeps every particle. */
  lemma {:induction false} SortByPositionSpec(ps: seq<Particle>)
    ensures Sorted(SortByPosition(ps))
    ensures multiset(SortByPosition(ps)) == multiset(ps)
  {
    if ps != [] {
      var rest := SortByPosition(ps[1..]);
      SortByPositionSpec(ps[1..]);
      InsertSorted(ps[0], rest);
      MultisetCons(ps);
    }
  }

  lemma MultisetCons(ps: seq<Particle>)
    requires ps != []
    ensures multiset(ps) == multiset(ps[1..]) + multiset{ps[0]}
  {
    assert ps == [ps[0]] + ps[1..];
  }

  /** The end of the run of particles from `j` on that share the position
      of particle `i`. */
  function RunEnd(ps: seq<Particle>, i: nat, j: nat): (r: nat)
    requires i < |ps| && j <= |ps|
    ensures j <= r <= |ps|
    ensures forall k :: j <= k < r ==> ps[k].position == ps[i].position
    ensures r < |ps| ==> ps[r].position != ps[i].position
    decreases |ps| - j
  {
    if j < |ps| && ps[j].position == ps[i].position then RunEnd(ps, i, j + 1) else j
  }

  /** The removals at index `i`: the particles after it that share its
      position, then the particle itself. */
  function RemoveRun(ps: seq<Particle>, i: nat): (r: seq<Particle>)
    requires i + 1 < |ps| && ps[i].position == ps[i + 1].position
    ensures |r| <= |ps| - 2
  {
    ps[..i] + ps[RunEnd(ps, i, i + 1)..]
  }

  /** The result of the loop over the indices. */
  datatype Pass = Pass(particles: seq<Particle>, collided: bool)

  /** The `for i in 0 .. end` loop from index `i` on; `None` for the
      underflow of `particles.len() - 1` once the list is empty. */
  function RemovePass(ps: seq<Particle>, i: nat, end: nat): (r: Option<Pass>)
    ensures r.Some? && !r.value.collided ==> r.value.particles == ps
    ensures r.Some? && r.value.collided ==> |r.value.particles| <= |ps| - 2
    decreases end - i
  {
    if i >= end then Some(Pass(ps, false))
    else if |ps| == 0 then None
    else if i >= |ps| - 1 then Some(Pass(ps, false))
    else if ps[i].position == ps[i + 1].position then
      var rest := RemovePass(RemoveRun(ps, i), i + 1, end);
      if rest.None? then None else Some(Pass(rest.value.particles, true))
    else RemovePass(ps, i + 1, end)
  }

  /** One round of the `while` loop: step, sort, remove. */
  function Round(ps: seq<Particle>): (r: Option<Pass>)
    ensures r.Some? && !r.value.collided ==> |r.value.particles| == |ps|
    ensures r.Some? && r.value.collided ==> |r.value.particles| <= |ps| - 2
  {
    var sorted := SortByPosition(StepAll(ps));
    if |sorted| == 0 then None else RemovePass(sorted, 0, |sorted| - 1)
  }

  /** The `while` loop from a swarm and its count of rounds since the last
      collision: the number of particles left. */
  function Collisions(ps: seq<Particle>, count: nat): (r: Option<nat>)
    ensures r.Some? ==> r.value <= |ps|
    decreases |ps|, 100 - count
  {
    if count >= 100 then Some(|ps|)
    else
      var round := Round(ps);
      if round.None? then None
      else if round.value.collided then Collisions(round.value.particles, 0)
      else Collisions(round.value.particles, count + 1)
  }

  /** `particles_left_after_collisions`. */
  method ParticlesLeftAfterCollisions(particles0: seq<Particle>) returns (r: Option<nat>)
    ensures r == Collisions(particles0, 0)
  {
    var particles := particles0;
    var count := 0;
    while count < 100
      invariant count <= 100
      invariant Collisions(particles0, 0) == Collisions(particles, count)
      decreases |particles|, 100 - count
    {
      count := count + 1;
      particles := StepEach(particles);
      particles := SortByPosition(particles);
      if |particles| == 0 {
        return None;
      }
      var pass := RemoveCollisions(particles);
      if pass.None? {
        return None;
      }
      particles := pass.value.particles;
      if pass.value.collided {
        count := 0;
      }
    }
    r := Some(|particles|);
  }

  /** `particles.iter_mut().for_each(|particle| particle.step())`. */
  method StepEach(particles0: seq<Particle>) returns (particles: seq<Particle>)
    ensures particles == StepAll(particles0)
  {
    particles := particles0;
    for k := 0 to |particles|
      invariant |particles| == |particles0|
      invariant forall i :: 0 <= i < k ==> particles[i] == Step(particles0[i])
      invariant forall i :: k <= i < |particles| ==> particles[i] == particles0[i]
    {
      particles := particles[k := Step(particles[k])];
    }
  }

  /** The `for` loop over the sorted swarm, with its `remove`s. */
  method RemoveCollisions(particles0: seq<Particle>) returns (r: Option<Pass>)
    requires |particles0| > 0
    ensures r == RemovePass(particles0, 0, |particles0| - 1)
  {
    var particles := particles0;
    var collided := false;
    var end := |particles0| - 1;
    for i := 0 to end
      invariant RemovePass(particles0, 0, end) == Marked(collided, RemovePass(particles, i, end))
    {
      if |particles| == 0 {
        return None;
      }
      if i >= |particles| - 1 {
        break;
      }
      if particles[i].position == particles[i + 1].position {
        ghost var before := particles;
        particles := RemoveRunAt(particles, i);
        assert particles == RemoveRun(before, i);
        collided := true;
      }
    }
    r := Some(Pass(particles, collided));
  }

  /** A pass marked as having collided when `collided` holds. */
  function Marked(collided: bool, r: Option<Pass>): Option<Pass> {
    if r.None? then None else Some(Pass(r.value.particles, collided || r.value.collided))
  }

  /** The inner `while` loop and the `remove(i)` after it. */
  method RemoveRunAt(particles0: seq<Particle>, i: nat) returns (particles: seq<Particle>)
    requires i + 1 < |particles0| && particles0[i].position == particles0[i + 1].position
    ensures particles == RemoveRun(particles0, i)
  {
    particles := particles0;
    ghost var j := i + 1;
    while i + 1 < |particles| && particles[i].position == particles[i + 1].position
      invariant i + 1 <= j <= |particles0|
      invariant particles == particles0[..i + 1] + particles0[j..]
      invariant RunEnd(particles0, i, i + 1) == RunEnd(particles0, i, j)
      decreases |particles|
    {
      assert particles[i + 1] == particles0[j];
      particles := particles[..i + 1] + particles[i + 2..];
      assert particles == particles0[..i + 1] + particles0[j + 1..];
      j := j + 1;
    }
    assert RunEnd(particles0, i, j) == j;
    particles := particles[..i] + particles[i + 1..];
    assert particles == particles0[..i] + particles0[j..];
  }

  // ---------------------------------------------------------------- properties

  /** Sorting a list that is already in order changes nothing. */
  lemma {:induction false} SortOrdered(ps: seq<Particle>)
    requires forall i :: 0 <= i < |ps| - 1 ==> LessEq(ps[i].position, ps[i + 1].position)
    ensures SortByPosition(ps) == ps
  {
    if ps != [] {
      SortOrdered(ps[1..]);
      assert [ps[0]] + ps[1..] == ps;
    }
  }

  /** A lone particle never collides: one particle is left. */
  lemma {:induction false} LoneParticle(p: Particle, count: nat)
    ensures Collisions([p], count) == Some(1)
    decreases 100 - count
  {
    if count < 100 {
      assert SortByPosition([Step(p)]) == [Step(p)];
      assert Round([p]) == Some(Pass([Step(p)], false));
      LoneParticle(Step(p), count + 1);
    }
  }

  /** Two particles that start at one place destroy each other, and the
      next round then subtracts 1 from an empty length and panics. */
  lemma AnnihilationPanics(p: Particle)
    ensures Collisions([p, p], 0) == None
  {
    var q := Step(p);
    LessEqOrder(q.position, q.position, q.position);
    assert StepAll([p, p]) == [q, q];
    assert SortByPosition([q, q]) == [q, q];
    assert RunEnd([q, q], 0, 1) == 2;
    assert RemoveRun([q, q], 0) == [];
    assert Round([p, p]) == Some(Pass([], true));
  }

  // ---------------------------------------------------------------- which particles a pass removes

  /** The number of particles at position `pos`. */
  function CountAt(ps: seq<Particle>, pos: V3): (r: nat)
    ensures r <= |ps|
  {
    if ps == [] then 0 else (if ps[0].position == pos then 1 else 0) + CountAt(ps[1..], pos)
  }

  lemma {:induction false} CountAtAppend(a: seq<Particle>, b: seq<Particle>, pos: V3)
    ensures CountAt(a + b, pos) == CountAt(a, pos) + CountAt(b, pos)
    decreases |a|
  {
    if a != [] {
      assert (a + b)[0] == a[0] && (a + b)[1..] == a[1..] + b;
      CountAtAppend(a[1..], b, pos);
    } else {
      assert a + b == b;
    }
  }

  /** A run of particles all at `pos` has its length at `pos`. */
  lemma {:induction false} CountAtRun(run: seq<Particle>, pos: V3)
    requires forall k :: 0 <= k < |run| ==> run[k].position == pos
    ensures CountAt(run, pos) == |run|
    decreases |run|
  {
    if run != [] {
      CountAtRun(run[1..], pos);
    }
  }

  lemma {:induction false} CountAtInsert(p: Particle, ps: seq<Particle>, pos: V3)
    ensures CountAt(Insert(p, ps), pos) == CountAt(ps, pos) + (if p.position == pos then 1 else 0)
    decreases |ps|
  {
    if ps == [] || LessEq(p.position, ps[0].position) {
      assert ([p] + ps)[1..] == ps;
    } else {
      CountAtInsert(p, ps[1..], pos);
      assert ([ps[0]] + Insert(p, ps[1..]))[1..] == Insert(p, ps[1..]);
    }
  }

  /** Sorting keeps the number of particles at every position. */
  lemma {:induction false} CountAtSort(ps: seq<Particle>, pos: V3)
    ensures CountAt(SortByPosition(ps), pos) == CountAt(ps, pos)
    decreases |ps|
  {
    if ps != [] {
      CountAtSort(ps[1..], pos);
      CountAtInsert(ps[0], SortByPosition(ps[1..]), pos);
    }
  }

  /** The particles `kept` are some of `ps`, and every particle of `ps`
      that is not kept shared its position with another particle of `ps`. */
  predicate RemovesCollided(ps: seq<Particle>, kept: seq<Particle>) {
    multiset(kept) <= multiset(ps) &&
    forall p :: p in multiset(ps) - multiset(kept) ==> CountAt(ps, p.position) >= 2
  }

  /** Leaving out a run adds no particle at any position. */
  lemma CutCounts(a: seq<Particle>, run: seq<Particle>, b: seq<Particle>, q: V3)
    ensures CountAt(a + b, q) <= CountAt(a + run + b, q)
  {
    CountAtAppend(a + run, b, q);
    CountAtAppend(a, run, q);
    CountAtAppend(a, b, q);
  }

  /** Leaving out a run keeps some of the particles and removes only
      particles of the run. */
  lemma CutMultiset(a: seq<Particle>, run: seq<Particle>, b: seq<Particle>)
    ensures multiset(a + b) <= multiset(a + run + b)
    ensures forall p :: p in multiset(a + run + b) - multiset(a + b) ==> p in run
  {
    assert multiset(a + run + b) == multiset(a) + multiset(run) + multiset(b);
    assert multiset(a + b) == multiset(a) + multiset(b);
  }

  /** The run at `i`: at least two particles, all at the position of
      particle `i`. */
  lemma RunAt(ps: seq<Particle>, i: nat)
    requires i + 1 < |ps| && ps[i].position == ps[i + 1].position
    ensures i + 2 <= RunEnd(ps, i, i + 1)
    ensures forall k :: i <= k < RunEnd(ps, i, i + 1) ==> ps[k].position == ps[i].position
  {
  }

  /** Leaving out a run of at least two particles at `pos` removes only
      particles at `pos`, which then count at least two. */
  lemma CutRun(a: seq<Particle>, run: seq<Particle>, b: seq<Particle>, pos: V3)
    requires |run| >= 2 && forall k :: 0 <= k < |run| ==> run[k].position == pos
    ensures RemovesCollided(a + run + b, a + b)
  {
    var ps := a + run + b;
    CountAtRun(run, pos);
    CountAtAppend(a + run, b, pos);
    CountAtAppend(a, run, pos);
    CutMultiset(a, run, b);
    forall p | p in multiset(ps) - multiset(a + b)
      ensures CountAt(ps, p.position) >= 2
    {
      assert p in run;
      var k :| 0 <= k < |run| && run[k] == p;
    }
  }

  /** Leaving out particles `i` to `e - 1`, all at the position of
      particle `i`, removes only collided particles. */
  lemma CutRunAt(ps: seq<Particle>, i: nat, e: nat)
    requires i + 2 <= e <= |ps|
    requires forall k :: i <= k < e ==> ps[k].position == ps[i].position
    ensures RemovesCollided(ps, ps[..i] + ps[e..])
  {
    var a, run, b := ps[..i], ps[i..e], ps[e..];
    forall k | 0 <= k < |run|
      ensures run[k].position == ps[i].position
    {
      assert run[k] == ps[i + k];
    }
    assert ps == a + run + b;
    CutRun(a, run, b, ps[i].position);
  }

  /** Leaving out particles `i` to `e - 1` adds none at any position. */
  lemma CutCountsAt(ps: seq<Particle>, i: nat, e: nat)
    requires i <= e <= |ps|
    ensures forall q :: CountAt(ps[..i] + ps[e..], q) <= CountAt(ps, q)
  {
    var a, run, b := ps[..i], ps[i..e], ps[e..];
    assert ps == a + run + b;
    forall q
      ensures CountAt(a + b, q) <= CountAt(a + run + b, q)
    {
      CutCounts(a, run, b, q);
    }
  }

  /** The removals at `i` take out only particles at the position of
      particle `i`, where there were at least two, and add none anywhere. */
  lemma RemoveRunCollided(ps: seq<Particle>, i: nat)
    requires i + 1 < |ps| && ps[i].position == ps[i + 1].position
    ensures RemovesCollided(ps, RemoveRun(ps, i))
    ensures forall pos :: CountAt(RemoveRun(ps, i), pos) <= CountAt(ps, pos)
  {
    RunAt(ps, i);
    CutRunAt(ps, i, RunEnd(ps, i, i + 1));
    CutCountsAt(ps, i, RunEnd(ps, i, i + 1));
  }

  /** Removing collided particles twice removes collided particles. */
  lemma RemovesCollidedTrans(ps: seq<Particle>, mid: seq<Particle>, kept: seq<Particle>)
    requires RemovesCollided(ps, mid) && RemovesCollided(mid, kept)
    requires forall pos :: CountAt(mid, pos) <= CountAt(ps, pos)
    ensures RemovesCollided(ps, kept)
  {
    forall p | p in multiset(ps) - multiset(kept)
      ensures CountAt(ps, p.position) >= 2
    {
      if p !in multiset(mid) - multiset(kept) {
        assert p in multiset(ps) - multiset(mid);
      }
    }
  }

  /** Every particle a pass removes shared its position with another
      particle of the list it started from. */
  lemma {:induction false} RemovePassCollided(ps: seq<Particle>, i: nat, end: nat)
    ensures RemovePass(ps, i, end).Some? ==> RemovesCollided(ps, RemovePass(ps, i, end).value.particles)
    decreases end - i
  {
    if i < end && |ps| > 0 && i < |ps| - 1 {
      if ps[i].position == ps[i + 1].position {
        var rest := RemoveRun(ps, i);
        RemoveRunCollided(ps, i);
        RemovePassCollided(rest, i + 1, end);
        if RemovePass(rest, i + 1, end).Some? {
          RemovesCollidedTrans(ps, rest, RemovePass(rest, i + 1, end).value.particles);
        }
      } else {
        RemovePassCollided(ps, i + 1, end);
      }
    }
  }

  /** Every particle a round destroys was, after the step, at the same
      position as another particle. */
  lemma RoundCollided(ps: seq<Particle>)
    ensures Round(ps).Some? ==> RemovesCollided(StepAll(ps), Round(ps).value.particles)
  {
    var stepped := StepAll(ps);
    var sorted := SortByPosition(stepped);
    if Round(ps).Some? {
      RemovePassCollided(sorted, 0, |sorted| - 1);
      SortByPositionSpec(stepped);
      forall pos
        ensures CountAt(sorted, pos) == CountAt(stepped, pos)
      {
        CountAtSort(stepped, pos);
      }
    }
  }

  /** As written, the particle that slides into slot `i` after `remove(i)`
      is never compared with the one after it: of `a, a, b, b` the pass
      removes both `a` and keeps both `b`, though they share a position. */
  lemma PassSkipsSlid(a: Particle, b: Particle)
    requires a.position != b.position
    ensures RemovePass([a, a, b, b], 0, 3) == Some(Pass([b, b], true))
    ensures CountAt([b, b], b.position) == 2
  {
    var ps := [a, a, b, b];
    assert RunEnd(ps, 0, 2) == 2;
    assert RemoveRun(ps, 0) == [b, b];
    assert RemovePass([b, b], 1, 3) == Some(Pass([b, b], false));
  }

  /** A whole round: two pairs of particles that meet at two places, in
      order, leave one pair standing. */
  lemma RoundSkipsSlid(a: Particle, b: Particle)
    requires LessEq(Step(a).position, Step(b).position) && Step(a).position != Step(b).position
    ensures Round([a, a, b, b]) == Some(Pass([Step(b), Step(b)], true))
  {
    var sa, sb := Step(a), Step(b);
    LessEqOrder(sa.position, sb.position, sb.position);
    StepAllFour(a, a, b, b);
    SortOrdered([sa, sa, sb, sb]);
    PassSkipsSlid(sa, sb);
  }

  /** The pass as evidently intended: after the removals at `i` the
      particle that slid into slot `i` is compared too. */
  function RemoveAll(ps: seq<Particle>, i: nat): (r: Pass)
    ensures !r.collided ==> r.particles == ps
    ensures r.collided ==> |r.particles| <= |ps| - 2
    decreases |ps|, |ps| - i
  {
    if i + 1 >= |ps| then Pass(ps, false)
    else if ps[i].position == ps[i + 1].position then
      Pass(RemoveAll(RemoveRun(ps, i), i).particles, true)
    else RemoveAll(ps, i + 1)
  }

  /** No two particles at one position. */
  predicate Distinct(ps: seq<Particle>) {
    forall j, k :: 0 <= j < k < |ps| ==> ps[j].position != ps[k].position
  }

  /** Leaving out a run keeps a list sorted. */
  lemma SortedCut(a: seq<Particle>, run: seq<Particle>, b: seq<Particle>)
    requires Sorted(a + run + b)
    ensures Sorted(a + b)
  {
    var ps := a + run + b;
    forall j, k | 0 <= j < k < |a + b|
      ensures LessEq((a + b)[j].position, (a + b)[k].position)
    {
      var j' := if j < |a| then j else j + |run|;
      var k' := if k < |a| then k else k + |run|;
      assert (a + b)[j] == ps[j'] && (a + b)[k] == ps[k'];
    }
  }

  /** A sorted list whose neighbours are at different positions has no two
      particles at one position. */
  lemma SortedApartDistinct(ps: seq<Particle>)
    requires Sorted(ps)
    requires forall k :: 0 <= k < |ps| - 1 ==> ps[k].position != ps[k + 1].position
    ensures Distinct(ps)
  {
    forall j, k | 0 <= j < k < |ps|
      ensures ps[j].position != ps[k].position
    {
      LessEqOrder(ps[j + 1].position, ps[k].position, ps[j].position);
    }
  }

  /** On a sorted list whose neighbours before `i` are apart, the removals
      at `i` keep it sorted and keep those neighbours apart: the particle
      before `i` is below the run, and the one after it above. */
  lemma RemoveRunApart(ps: seq<Particle>, i: nat)
    requires Sorted(ps) && i + 1 < |ps| && ps[i].position == ps[i + 1].position
    requires forall k :: 0 <= k < i ==> ps[k].position != ps[k + 1].position
    ensures Sorted(RemoveRun(ps, i))
    ensures forall k :: 0 <= k < i && k + 1 < |RemoveRun(ps, i)| ==>
      RemoveRun(ps, i)[k].position != RemoveRun(ps, i)[k + 1].position
  {
    var e := RunEnd(ps, i, i + 1);
    var rest := RemoveRun(ps, i);
    assert ps == ps[..i] + ps[i..e] + ps[e..];
    SortedCut(ps[..i], ps[i..e], ps[e..]);
    forall k | 0 <= k < i && k + 1 < |rest|
      ensures rest[k].position != rest[k + 1].position
    {
      if k + 1 == i {
        assert rest[k] == ps[i - 1] && rest[k + 1] == ps[e];
        LessEqOrder(ps[i - 1].position, ps[i].position, ps[e].position);
        LessEqOrder(ps[i].position, ps[e].position, ps[i - 1].position);
      } else {
        assert rest[k] == ps[k] && rest[k + 1] == ps[k + 1];
      }
    }
  }

  /** No particle at `pos`, none counted there. */
  lemma {:induction false} CountAtNone(ps: seq<Particle>, pos: V3)
    requires forall k :: 0 <= k < |ps| ==> ps[k].position != pos
    ensures CountAt(ps, pos) == 0
    decreases |ps|
  {
    if ps != [] {
      CountAtNone(ps[1..], pos);
    }
  }

  /** In a list with no two particles at one position, each particle is
      alone at its position. */
  lemma {:induction false} CountAtDistinct(ps: seq<Particle>, k: nat)
    requires Distinct(ps) && k < |ps|
    ensures CountAt(ps, ps[k].position) == 1
    decreases |ps|
  {
    if k == 0 {
      CountAtNone(ps[1..], ps[0].position);
    } else {
      CountAtDistinct(ps[1..], k - 1);
    }
  }

  /** In a sorted list whose particle before `i` is apart from it, no
      particle before `i` is at its position. */
  lemma SortedBefore(ps: seq<Particle>, i: nat)
    requires Sorted(ps) && i < |ps|
    requires i > 0 ==> ps[i - 1].position != ps[i].position
    ensures forall k :: 0 <= k < i ==> ps[k].position != ps[i].position
  {
    forall k | 0 <= k < i
      ensures ps[k].position != ps[i].position
    {
      LessEqOrder(ps[k].position, ps[i - 1].position, ps[i].position);
      LessEqOrder(ps[i - 1].position, ps[i].position, ps[k].position);
    }
  }

  /** In a sorted list, no particle from `e` on is at a position `x` below
      that of particle `e`. */
  lemma SortedAfter(ps: seq<Particle>, e: nat, x: V3)
    requires Sorted(ps) && e < |ps|
    requires LessEq(x, ps[e].position) && ps[e].position != x
    ensures forall k :: e <= k < |ps| ==> ps[k].position != x
  {
    forall k | e <= k < |ps|
      ensures ps[k].position != x
    {
      LessEqOrder(x, ps[e].position, ps[k].position);
      LessEqOrder(ps[e].position, ps[k].position, x);
    }
  }

  /** Leaving out a run at `x` from a list with no particle at `x` around
      it keeps the count at every other position and leaves none at `x`. */
  lemma CutWholeRun(a: seq<Particle>, run: seq<Particle>, b: seq<Particle>, x: V3)
    requires forall k :: 0 <= k < |a| ==> a[k].position != x
    requires forall k :: 0 <= k < |run| ==> run[k].position == x
    requires forall k :: 0 <= k < |b| ==> b[k].position != x
    ensures CountAt(a + b, x) == 0
    ensures forall q :: q != x ==> CountAt(a + b, q) == CountAt(a + run + b, q)
  {
    CountAtNone(a, x);
    CountAtNone(b, x);
    CountAtAppend(a, b, x);
    forall q | q != x
      ensures CountAt(a + b, q) == CountAt(a + run + b, q)
    {
      CountAtNone(run, q);
      CountAtAppend(a + run, b, q);
      CountAtAppend(a, run, q);
      CountAtAppend(a, b, q);
    }
  }

  /** On a sorted list whose neighbours before `i` are apart, the run at
      `i` holds every particle at its position. */
  lemma RunAlone(ps: seq<Particle>, i: nat)
    requires Sorted(ps) && i + 1 < |ps| && ps[i].position == ps[i + 1].position
    requires forall k :: 0 <= k < i ==> ps[k].position != ps[k + 1].position
    ensures forall k :: 0 <= k < i ==> ps[k].position != ps[i].position
    ensures forall k :: RunEnd(ps, i, i + 1) <= k < |ps| ==> ps[k].position != ps[i].position
  {
    SortedBefore(ps, i);
    var e := RunEnd(ps, i, i + 1);
    if e < |ps| {
      assert LessEq(ps[i].position, ps[e].position);
      SortedAfter(ps, e, ps[i].position);
    }
  }

  /** When the run at `i` holds every particle at its position, removing
      it leaves none there and keeps the count at every other position. */
  lemma RemoveRunAbsent(ps: seq<Particle>, i: nat)
    requires i + 1 < |ps| && ps[i].position == ps[i + 1].position
    requires forall k :: 0 <= k < i ==> ps[k].position != ps[i].position
    requires forall k :: RunEnd(ps, i, i + 1) <= k < |ps| ==> ps[k].position != ps[i].position
    ensures CountAt(RemoveRun(ps, i), ps[i].position) == 0
    ensures forall q :: q != ps[i].position ==> CountAt(RemoveRun(ps, i), q) == CountAt(ps, q)
  {
    var x := ps[i].position;
    var e := RunEnd(ps, i, i + 1);
    var a, run, b := ps[..i], ps[i..e], ps[e..];
    assert ps == a + run + b;
    assert forall k :: 0 <= k < |a| ==> a[k].position != x;
    forall k | 0 <= k < |run|
      ensures run[k].position == x
    {
      assert run[k] == ps[i + k];
    }
    forall k | 0 <= k < |b|
      ensures b[k].position != x
    {
      assert b[k] == ps[e + k];
    }
    CutWholeRun(a, run, b, x);
  }

  /** On a sorted list the corrected pass removes only collided particles,
      leaves no two at one position, and keeps only particles that were
      alone at their position. */
  lemma {:induction false} RemoveAllDistinct(ps: seq<Particle>, i: nat)
    requires Sorted(ps)
    requires forall k :: 0 <= k < i && k + 1 < |ps| ==> ps[k].position != ps[k + 1].position
    ensures RemovesCollided(ps, RemoveAll(ps, i).particles)
    ensures Sorted(RemoveAll(ps, i).particles) && Distinct(RemoveAll(ps, i).particles)
    ensures forall p :: p in RemoveAll(ps, i).particles ==> CountAt(ps, p.position) == 1
    decreases |ps|, |ps| - i
  {
    if i + 1 >= |ps| {
      SortedApartDistinct(ps);
      forall p | p in ps
        ensures CountAt(ps, p.position) == 1
      {
        var k :| 0 <= k < |ps| && ps[k] == p;
        CountAtDistinct(ps, k);
      }
    } else if ps[i].position == ps[i + 1].position {
      var rest := RemoveRun(ps, i);
      RemoveRunApart(ps, i);
      RemoveRunCollided(ps, i);
      RunAlone(ps, i);
      RemoveRunAbsent(ps, i);
      RemoveAllDistinct(rest, i);
      RemovesCollidedTrans(ps, rest, RemoveAll(rest, i).particles);
    } else {
      RemoveAllDistinct(ps, i + 1);
    }
  }

  /** A round with the corrected pass. */
  function RoundFixed(ps: seq<Particle>): (r: Pass)
    ensures |r.particles| <= |ps|
  {
    RemoveAll(SortByPosition(StepAll(ps)), 0)
  }

  /** After a corrected round no two particles share a position, every
      particle destroyed was, after the step, at the position of another,
      and every particle left was, after the step, alone at its position. */
  lemma RoundFixedDistinct(ps: seq<Particle>)
    ensures Distinct(RoundFixed(ps).particles)
    ensures RemovesCollided(StepAll(ps), RoundFixed(ps).particles)
    ensures forall p :: p in RoundFixed(ps).particles ==> CountAt(StepAll(ps), p.position) == 1
  {
    var stepped := StepAll(ps);
    var sorted := SortByPosition(stepped);
    SortByPositionSpec(stepped);
    RemoveAllDistinct(sorted, 0);
    forall pos
      ensures CountAt(sorted, pos) == CountAt(stepped, pos)
    {
      CountAtSort(stepped, pos);
    }
  }

  /** The corrected pass destroys both pairs of `a, a, b, b`. */
  lemma RemoveAllPairs(a: Particle, b: Particle)
    requires a.position != b.position
    ensures RemoveAll([a, a, b, b], 0) == Pass([], true)
  {
    var ps := [a, a, b, b];
    assert RunEnd(ps, 0, 2) == 2;
    assert RemoveRun(ps, 0) == [b, b];
    assert RunEnd([b, b], 0, 2) == 2;
    assert RemoveRun([b, b], 0) == [];
  }

  // ---------------------------------------------------------------- samples

  /** The lines after the first, indented by `pad`. */
  function Indent(lines: seq<string>, pad: string): (r: seq<string>)
    requires |lines| >= 1
    ensures |r| == |lines| && r[0] == lines[0]
    ensures forall i :: 1 <= i < |lines| ==> r[i] == pad + lines[i]
  {
    [lines[0]] + seq(|lines| - 1, i requires 0 <= i < |lines| - 1 => pad + lines[i + 1])
  }

  /** The first and last characters of joined pieces. */
  lemma {:induction false} JoinEnds(parts: seq<string>, sep: char)
    requires |parts| >= 1 && parts[0] != [] && parts[|parts| - 1] != []
    ensures Join(parts, sep) != []
    ensures Join(parts, sep)[0] == parts[0][0]
    ensures Join(parts, sep)[|Join(parts, sep)| - 1] == parts[|parts| - 1][|parts[|parts| - 1]| - 1]
  {
    JoinEndsLast(parts, sep);
  }

  /** Joined pieces that do not start or end with whitespace are left
      alone by `Trim`. */
  lemma TrimJoin(parts: seq<string>, sep: char)
    requires |parts| >= 1 && parts[0] != [] && parts[|parts| - 1] != []
    requires !IsWhitespace(parts[0][0]) && !IsWhitespace(parts[|parts| - 1][|parts[|parts| - 1]| - 1])
    ensures Trim(Join(parts, sep)) == Join(parts, sep)
  {
    JoinEnds(parts, sep);
    TrimSpec(Join(parts, sep));
  }

  /** The last character of joined pieces. */
  lemma {:induction false} JoinEndsLast(parts: seq<string>, sep: char)
    requires |parts| >= 1 && parts[|parts| - 1] != []
    ensures Join(parts, sep) != []
    ensures Join(parts, sep)[|Join(parts, sep)| - 1] == parts[|parts| - 1][|parts[|parts| - 1]| - 1]
  {
    if |parts| > 1 {
      var tail := parts[1..];
      assert tail[|tail| - 1] == parts[|parts| - 1];
      JoinEndsLast(tail, sep);
    }
  }

  /** Indenting adds no line feed and no final carriage return. */
  lemma IndentClean(lines: seq<string>, pad: string)
    requires |lines| >= 1 && '\n' !in pad
    requires forall i :: 0 <= i < |lines| ==> lines[i] != [] && '\n' !in lines[i] && StripCr(lines[i]) == lines[i]
    ensures forall i :: 0 <= i < |lines| ==> '\n' !in Indent(lines, pad)[i] && StripCr(Indent(lines, pad)[i]) == Indent(lines, pad)[i]
    ensures var last := Indent(lines, pad)[|lines| - 1];
      last != [] && last[|last| - 1] == lines[|lines| - 1][|lines[|lines| - 1]| - 1]
  {
    var parts := Indent(lines, pad);
    var last := parts[|lines| - 1];
    assert last[|last| - 1] == lines[|lines| - 1][|lines[|lines| - 1]| - 1];
    forall i | 0 <= i < |parts|
      ensures '\n' !in parts[i] && StripCr(parts[i]) == parts[i]
    {
      if i > 0 {
        assert parts[i][|parts[i]| - 1] == lines[i][|lines[i]| - 1];
      }
    }
  }

  /** The lines of indented text are the indented lines. */
  lemma LinesIndented(lines: seq<string>, pad: string)
    requires |lines| >= 1 && '\n' !in pad
    requires forall i :: 0 <= i < |lines| ==> lines[i] != [] && '\n' !in lines[i] && StripCr(lines[i]) == lines[i]
    requires !IsWhitespace(lines[0][0]) && !IsWhitespace(lines[|lines| - 1][|lines[|lines| - 1]| - 1])
    ensures Lines(Trim(Join(Indent(lines, pad), '\n'))) == Indent(lines, pad)
  {
    var parts := Indent(lines, pad);
    IndentClean(lines, pad);
    TrimJoin(parts, '\n');
    LinesJoin(parts);
  }

  /** Lines that each read as a particle give those particles. */
  lemma ParseEachOk(parts: seq<string>, ps: seq<Particle>)
    requires |parts| == |ps|
    requires forall i :: 0 <= i < |parts| ==> Day20Particle.FromStr(parts[i]) == Ok(ps[i])
    ensures Collect(ParseEach(parts)) == Ok(ps)
  {
    var rs := ParseEach(parts);
    forall i | 0 <= i < |rs|
      ensures rs[i] == Ok(ps[i])
    {
    }
    CollectAllOk(rs, ps);
  }

  /** Particles written one per line, every line after the first indented
      by `pad`, are read back in order. */
  lemma ParseIndented(lines: seq<string>, pad: string, ps: seq<Particle>)
    requires |lines| >= 1 && |ps| == |lines| && Blank(pad) && '\n' !in pad
    requires forall i :: 0 <= i < |lines| ==> lines[i] != [] && '\n' !in lines[i] && StripCr(lines[i]) == lines[i]
    requires !IsWhitespace(lines[0][0]) && !IsWhitespace(lines[|lines| - 1][|lines[|lines| - 1]| - 1])
    requires forall i :: 0 <= i < |lines| ==> Day20Particle.FromStr(Indent(lines, pad)[i]) == Ok(ps[i])
    ensures Parse(Join(Indent(lines, pad), '\n')) == Ok(ps)
  {
    LinesIndented(lines, pad);
    ParseEachOk(Indent(lines, pad), ps);
  }

  /** The particles of the two-line sample. */
  const First: Particle := Particle(V3(3, 0, 0), V3(2, 0, 0), V3(-1, 0, 0))
  const Second: Particle := Particle(V3(4, 0, 0), V3(0, 0, 0), V3(-2, 0, 0))

  /** The vector text of the sample's small numbers. */
  lemma SampleVector(w: string, a: int, sa: string)
    requires IntToString(a) == sa
    ensures VectorText(w, V3(a, 0, 0)) == "<" + w + sa + ",0,0>"
  {
    assert IntToString(0) == "0";
    assert ComponentText(0, ',') == "0,";
    assert ComponentText(0, '>') == "0>";
  }

  /** The text of a sample particle, whose components other than x are 0. */
  lemma SampleText(p: Particle, wp: string, wv: string, wa: string, vp: string, vv: string, va: string, line: string)
    requires p.position.y == p.position.z == p.velocity.y == p.velocity.z == p.acceleration.y == p.acceleration.z == 0
    requires VectorText(wp, p.position) == vp && VectorText(wv, p.velocity) == vv && VectorText(wa, p.acceleration) == va
    requires "p=" + vp + ", v=" + vv + ", a=" + va == line
    ensures ParticleText(p, wp, wv, wa, " ") == line
  {
    assert FieldText(" ", 'v') == ", v=" && FieldText(" ", 'a') == ", a=";
  }

  lemma FirstVectors()
    ensures VectorText(" ", First.position) == "< 3,0,0>"
    ensures VectorText(" ", First.velocity) == "< 2,0,0>"
    ensures VectorText("", First.acceleration) == "<-1,0,0>"
  {
    SampleVector(" ", 3, "3");
    SampleVector(" ", 2, "2");
    SampleVector("", -1, "-1");
  }

  lemma SecondVectors()
    ensures VectorText(" ", Second.position) == "< 4,0,0>"
    ensures VectorText(" ", Second.velocity) == "< 0,0,0>"
    ensures VectorText("", Second.acceleration) == "<-2,0,0>"
  {
    SampleVector(" ", 4, "4");
    SampleVector(" ", 0, "0");
    SampleVector("", -2, "-2");
  }

  /** The first line of the two-particle sample is the text of `First`. */
  lemma FirstLine()
    ensures ParticleText(First, " ", " ", "", " ") == "p=< 3,0,0>, v=< 2,0,0>, a=<-1,0,0>"
  {
    FirstVectors();
    assert "p=" + "< 3,0,0>" == "p=< 3,0,0>";
    assert "p=< 3,0,0>" + ", v=" == "p=< 3,0,0>, v=";
    assert "p=< 3,0,0>, v=" + "< 2,0,0>" == "p=< 3,0,0>, v=< 2,0,0>";
    assert "p=< 3,0,0>, v=< 2,0,0>" + ", a=" == "p=< 3,0,0>, v=< 2,0,0>, a=";
    SampleText(First, " ", " ", "", "< 3,0,0>", "< 2,0,0>", "<-1,0,0>", "p=< 3,0,0>, v=< 2,0,0>, a=<-1,0,0>");
  }

  /** The second line of the two-particle sample is the text of `Second`. */
  lemma SecondLine()
    ensures ParticleText(Second, " ", " ", "", " ") == "p=< 4,0,0>, v=< 0,0,0>, a=<-2,0,0>"
  {
    SecondVectors();
    assert "p=" + "< 4,0,0>" == "p=< 4,0,0>";
    assert "p=< 4,0,0>" + ", v=" == "p=< 4,0,0>, v=";
    assert "p=< 4,0,0>, v=" + "< 0,0,0>" == "p=< 4,0,0>, v=< 0,0,0>";
    assert "p=< 4,0,0>, v=< 0,0,0>" + ", a=" == "p=< 4,0,0>, v=< 0,0,0>, a=";
    SampleText(Second, " ", " ", "", "< 4,0,0>", "< 0,0,0>", "<-2,0,0>", "p=< 4,0,0>, v=< 0,0,0>, a=<-2,0,0>");
  }

  /** The indentation of the sample's second line. */
  const Pad: string := seq(25, _ => ' ')

  /** The two-particle sample text. */
  const TwoParticlesInput: string :=
    ParticleText(First, " ", " ", "", " ") + "\n" + Pad + ParticleText(Second, " ", " ", "", " ")

  /** The indentation is whitespace without a line feed. */
  lemma PadBlank()
    ensures Blank(Pad) && '\n' !in Pad
  {
    forall i | 0 <= i < |Pad|
      ensures Pad[i] == ' '
    {
    }
  }

  /** Two particles written on two lines, the second indented by `pad`,
      are read back. */
  lemma ParseTexts(p1: Particle, p2: Particle, w1: string, w2: string, w3: string, pad: string)
    requires Blank(w1) && Blank(w2) && Blank(w3) && Blank(pad) && Fits(p1) && Fits(p2)
    requires '\n' !in w1 && '\n' !in w2 && '\n' !in w3 && '\n' !in pad
    ensures Parse(ParticleText(p1, w1, w2, w3, " ") + "\n" + pad + ParticleText(p2, w1, w2, w3, " ")) == Ok([p1, p2])
  {
    var l1 := ParticleText(p1, w1, w2, w3, " ");
    var l2 := ParticleText(p2, w1, w2, w3, " ");
    TextShape(p1, w1, w2, w3, " ");
    TextShape(p2, w1, w2, w3, " ");
    TwoLinesRead(p1, p2, w1, w2, w3, pad);
    ParseTwo(l1, pad, l2, p1, p2);
    Assoc(l1 + ['\n'], pad, l2);
  }

  lemma TwoLinesRead(p1: Particle, p2: Particle, w1: string, w2: string, w3: string, pad: string)
    requires Blank(w1) && Blank(w2) && Blank(w3) && Blank(pad) && Fits(p1) && Fits(p2)
    ensures Day20Particle.FromStr(ParticleText(p1, w1, w2, w3, " ")) == Ok(p1)
    ensures Day20Particle.FromStr(pad + ParticleText(p2, w1, w2, w3, " ")) == Ok(p2)
  {
    FromStrText(p1, w1, w2, w3, " ");
    FromStrIndented(pad, p2, w1, w2, w3, " ");
  }

  /** A particle's text starts with `p`, ends with `>` and has no line feed
      when its whitespace has none. */
  lemma TextShape(p: Particle, wp: string, wv: string, wa: string, gap: string)
    requires '\n' !in wp && '\n' !in wv && '\n' !in wa && '\n' !in gap
    ensures var s := ParticleText(p, wp, wv, wa, gap);
      s != [] && s[0] == 'p' && s[|s| - 1] == '>' && '\n' !in s
  {
    var va := VectorText(wa, p.acceleration);
    var s := ParticleText(p, wp, wv, wa, gap);
    assert s[|s| - 1] == va[|va| - 1] == '>';
    NoLineFeed(p, wp, wv, wa, gap);
  }

  /** The two-particle sample parses to `First` and `Second`. */
  lemma SampleParse()
    ensures Parse(TwoParticlesInput) == Ok([First, Second])
  {
    PadBlank();
    ParseTexts(First, Second, " ", " ", "", Pad);
  }

  /** Two particles on two lines, the second indented by `pad`. */
  lemma ParseTwo(l1: string, pad: string, l2: string, p1: Particle, p2: Particle)
    requires Blank(pad) && '\n' !in pad && '\n' !in l1 && '\n' !in l2
    requires l1 != [] && l2 != [] && l1[|l1| - 1] == '>' && l2[|l2| - 1] == '>' && l1[0] == 'p'
    ensures Day20Particle.FromStr(l1) == Ok(p1) && Day20Particle.FromStr(pad + l2) == Ok(p2) ==>
      Parse(l1 + ['\n'] + (pad + l2)) == Ok([p1, p2])
  {
    var s := l1 + ['\n'] + (pad + l2);
    LinesTwo(l1, pad, l2);
    ParseEachTwo(l1, pad + l2, p1, p2);
    ParseOfLines(s, [l1, pad + l2]);
  }

  lemma ParseOfLines(s: string, lines: seq<string>)
    requires Lines(Trim(s)) == lines
    ensures Parse(s) == Collect(ParseEach(lines))
  {
  }

  /** Two lines that read as particles give those particles. */
  lemma ParseEachTwo(a: string, b: string, p1: Particle, p2: Particle)
    ensures Day20Particle.FromStr(a) == Ok(p1) && Day20Particle.FromStr(b) == Ok(p2) ==>
      Collect(ParseEach([a, b])) == Ok([p1, p2])
  {
    if Day20Particle.FromStr(a) == Ok(p1) && Day20Particle.FromStr(b) == Ok(p2) {
      var rs := ParseEach([a, b]);
      assert |rs| == 2 && rs[0] == Ok(p1) && rs[1] == Ok(p2);
      CollectTwo(rs, p1, p2);
    }
  }

  lemma CollectTwo<T, E>(rs: seq<Result<T, E>>, x: T, y: T)
    requires |rs| == 2 && rs[0] == Ok(x) && rs[1] == Ok(y)
    ensures Collect(rs) == Ok([x, y])
  {
    var r := Collect(rs);
    assert r.Ok? && |r.value| == 2 && r.value[0] == x && r.value[1] == y;
    assert r.value == [x, y];
  }

  /** The lines of two lines, the second indented by `pad`. */
  lemma LinesTwo(l1: string, pad: string, l2: string)
    requires '\n' !in pad && '\n' !in l1 && '\n' !in l2
    requires l1 != [] && l2 != [] && l1[|l1| - 1] == '>' && l2[|l2| - 1] == '>' && l1[0] == 'p'
    ensures Lines(Trim(l1 + ['\n'] + (pad + l2))) == [l1, pad + l2]
  {
    var lines := [l1, l2];
    var parts := Indent(lines, pad);
    assert parts == [l1, pad + l2];
    assert Join(parts, '\n') == l1 + ['\n'] + (pad + l2);
    assert StripCr(l1) == l1 && StripCr(l2) == l2;
    forall i | 0 <= i < 2
      ensures lines[i] != [] && '\n' !in lines[i] && StripCr(lines[i]) == lines[i]
    {
      if i == 0 {
        assert lines[i] == l1;
      } else {
        assert lines[i] == l2;
      }
    }
    LinesIndented(lines, pad);
  }

  /** A character in neither of two texts is not in their concatenation. */
  lemma NotInConcat(c: char, a: string, b: string)
    requires c !in a && c !in b
    ensures c !in a + b
  {
    forall i | 0 <= i < |a + b|
      ensures (a + b)[i] != c
    {
      if i < |a| {
        assert (a + b)[i] == a[i];
      } else {
        assert (a + b)[i] == b[i - |a|];
      }
    }
  }

  /** A printed number followed by `c` holds no line feed. */
  lemma NoLineFeedComponent(n: int, c: char)
    requires c != '\n'
    ensures '\n' !in ComponentText(n, c)
  {
    NotInConcat('\n', IntToString(n), [c]);
  }

  /** The text of a vector has no line feed when its whitespace has none. */
  lemma NoLineFeedVector(w: string, v: V3)
    requires '\n' !in w
    ensures '\n' !in VectorText(w, v)
  {
    NoLineFeedComponent(v.x, ',');
    NoLineFeedComponent(v.y, ',');
    NoLineFeedComponent(v.z, '>');
    NotInConcat('\n', w, ComponentText(v.x, ','));
    NotInConcat('\n', "<", w + ComponentText(v.x, ','));
    NotInConcat('\n', "<" + (w + ComponentText(v.x, ',')), ComponentText(v.y, ','));
    NotInConcat('\n', "<" + (w + ComponentText(v.x, ',')) + ComponentText(v.y, ','), ComponentText(v.z, '>'));
  }

  /** The text of a particle has no line feed when its whitespace has none. */
  lemma NoLineFeed(p: Particle, wp: string, wv: string, wa: string, gap: string)
    requires '\n' !in wp && '\n' !in wv && '\n' !in wa && '\n' !in gap
    ensures '\n' !in ParticleText(p, wp, wv, wa, gap)
  {
    var vp := VectorText(wp, p.position);
    var vv := VectorText(wv, p.velocity);
    var va := VectorText(wa, p.acceleration);
    var fv := FieldText(gap, 'v');
    var fa := FieldText(gap, 'a');
    NoLineFeedVector(wp, p.position);
    NoLineFeedVector(wv, p.velocity);
    NoLineFeedVector(wa, p.acceleration);
    NotInConcat('\n', ",", gap);
    NotInConcat('\n', "," + gap, ['v', '=']);
    NotInConcat('\n', "," + gap, ['a', '=']);
    NotInConcat('\n', "p=", vp);
    NotInConcat('\n', "p=" + vp, fv);
    NotInConcat('\n', "p=" + vp + fv, vv);
    NotInConcat('\n', "p=" + vp + fv + vv, fa);
    NotInConcat('\n', "p=" + vp + fv + vv + fa, va);
  }

  /** The slowest particle of the two-particle sample is the first. */
  lemma SampleSlowest()
    ensures Slowest([First, Second]) == Some(0)
  {
    assert [First, Second][..1] == [First];
  }

  /** A particle at (x, 0, 0) moving with velocity (v, 0, 0), unaccelerated. */
  function Moving(x: int, v: int): Particle {
    Particle(V3(x, 0, 0), V3(v, 0, 0), Zero)
  }

  /** The four particles of the collision sample. */
  const Four: seq<Particle> := [Moving(-6, 3), Moving(-4, 2), Moving(-2, 1), Moving(3, -1)]

  /** The sample after one step, and after two. */
  const FourOnce: seq<Particle> := [Moving(-3, 3), Moving(-2, 2), Moving(-1, 1), Moving(2, -1)]
  const FourTwice: seq<Particle> := [Moving(0, 3), Moving(0, 2), Moving(0, 1), Moving(1, -1)]

  /** The one particle left of the sample. */
  const Survivor: Particle := Moving(1, -1)

  /** An unaccelerated particle moves by its velocity. */
  lemma StepMoving(x: int, v: int)
    ensures Step(Moving(x, v)) == Moving(x + v, v)
  {
  }

  lemma StepAllFour(a: Particle, b: Particle, c: Particle, d: Particle)
    ensures StepAll([a, b, c, d]) == [Step(a), Step(b), Step(c), Step(d)]
  {
  }

  /** A pass over a list where no neighbours share a position removes
      nothing. */
  lemma {:induction false} RemovePassDistinct(ps: seq<Particle>, i: nat, end: nat)
    requires end < |ps|
    requires forall k :: i <= k < end ==> ps[k].position != ps[k + 1].position
    ensures RemovePass(ps, i, end) == Some(Pass(ps, false))
    decreases end - i
  {
    if i < end {
      RemovePassDistinct(ps, i + 1, end);
    }
  }

  lemma FourStepped()
    ensures StepAll(Four) == FourOnce
  {
    StepAllFour(Moving(-6, 3), Moving(-4, 2), Moving(-2, 1), Moving(3, -1));
    StepMoving(-6, 3);
    StepMoving(-4, 2);
    StepMoving(-2, 1);
    StepMoving(3, -1);
  }

  /** A round over particles that stay in order needs no sorting. */
  lemma RoundOrdered(ps: seq<Particle>, stepped: seq<Particle>)
    requires stepped == StepAll(ps) && |ps| > 0
    requires forall k :: 0 <= k < |stepped| - 1 ==> LessEq(stepped[k].position, stepped[k + 1].position)
    ensures Round(ps) == RemovePass(stepped, 0, |ps| - 1)
  {
    SortOrdered(stepped);
  }

  /** Neighbours in strictly increasing order of position. */
  predicate Apart(ps: seq<Particle>) {
    forall k :: 0 <= k < |ps| - 1 ==> LessEq(ps[k].position, ps[k + 1].position) && ps[k].position != ps[k + 1].position
  }

  /** A round in which the particles stay apart removes none of them. */
  lemma RoundApart(ps: seq<Particle>, stepped: seq<Particle>)
    requires stepped == StepAll(ps) && |ps| > 0 && Apart(stepped)
    ensures Round(ps) == Some(Pass(stepped, false))
  {
    RoundOrdered(ps, stepped);
    RemovePassDistinct(stepped, 0, |ps| - 1);
  }

  lemma FourApart()
    ensures Apart(FourOnce)
  {
  }

  /** After one round no particles meet. */
  lemma FourFirstRound()
    ensures Round(Four) == Some(Pass(FourOnce, false))
  {
    FourStepped();
    FourApart();
    RoundApart(Four, FourOnce);
  }

  /** A round in which the first three of four particles meet, ahead of
      the fourth, leaves only the fourth. */
  lemma RoundThreeMeet(ps: seq<Particle>, stepped: seq<Particle>)
    requires stepped == StepAll(ps) && |ps| == 4
    requires stepped[0].position == stepped[1].position == stepped[2].position
    requires LessEq(stepped[2].position, stepped[3].position) && stepped[2].position != stepped[3].position
    ensures Round(ps) == Some(Pass([stepped[3]], true))
  {
    LessEqOrder(stepped[0].position, stepped[0].position, stepped[0].position);
    RoundOrdered(ps, stepped);
    assert RunEnd(stepped, 0, 3) == 3;
    assert RemoveRun(stepped, 0) == [stepped[3]];
    assert RemovePass([stepped[3]], 1, 3) == Some(Pass([stepped[3]], false));
  }

  lemma FourSteppedTwice()
    ensures StepAll(FourOnce) == FourTwice
  {
    StepAllFour(Moving(-3, 3), Moving(-2, 2), Moving(-1, 1), Moving(2, -1));
    StepMoving(-3, 3);
    StepMoving(-2, 2);
    StepMoving(-1, 1);
    StepMoving(2, -1);
  }

  lemma FourMeet()
    ensures |FourTwice| == 4
    ensures FourTwice[0].position == FourTwice[1].position == FourTwice[2].position
    ensures LessEq(FourTwice[2].position, FourTwice[3].position) && FourTwice[2].position != FourTwice[3].position
  {
  }

  /** In the second round three particles meet at the origin. */
  lemma FourSecondRound()
    ensures Round(FourOnce) == Some(Pass([Survivor], true))
  {
    FourSteppedTwice();
    FourMeet();
    RoundThreeMeet(FourOnce, FourTwice);
  }

  /** One round of the loop, when it does not panic. */
  lemma CollisionsRound(ps: seq<Particle>, count: nat, pass: Pass)
    requires count < 100 && Round(ps) == Some(pass)
    ensures Collisions(ps, count) == Collisions(pass.particles, if pass.collided then 0 else count + 1)
  {
  }

  /** A swarm in which no particles meet in the first round and all but one
      meet in the second leaves one particle. */
  lemma OneLeftAfterTwoRounds(ps: seq<Particle>, mid: seq<Particle>, p: Particle)
    ensures Round(ps) == Some(Pass(mid, false)) && Round(mid) == Some(Pass([p], true)) ==>
      Collisions(ps, 0) == Some(1)
  {
    if Round(ps) == Some(Pass(mid, false)) && Round(mid) == Some(Pass([p], true)) {
      CollisionsRound(ps, 0, Pass(mid, false));
      CollisionsRound(mid, 1, Pass([p], true));
      LoneParticle(p, 0);
    }
  }

  /** The collision sample leaves one particle. */
  lemma SampleCollisions()
    ensures Collisions(Four, 0) == Some(1)
  {
    FourFirstRound();
    FourSecondRound();
    OneLeftAfterTwoRounds(Four, FourOnce, Survivor);
  }

  /** The particles of the collision sample, one by one. */
  const Col1: Particle := Moving(-6, 3)
  const Col2: Particle := Moving(-4, 2)
  const Col3: Particle := Moving(-2, 1)
  const Col4: Particle := Moving(3, -1)

  /** The lines of the collision sample, as written in its text. */
  const Line1: string := ParticleText(Col1, "", " ", " ", " ")
  const Line2: string := ParticleText(Col2, "", " ", " ", " ")
  const Line3: string := ParticleText(Col3, "", " ", " ", " ")
  const Line4: string := ParticleText(Col4, " ", "", " ", " ")
  const CollisionLines: seq<string> := [Line1, Line2, Line3, Line4]

  /** The indentation of the collision sample's later lines. */
  const CollisionPad: string := seq(29, _ => ' ')

  /** The collision sample text. */
  const CollisionInput: string := Join(Indent(CollisionLines, CollisionPad), '\n')

  /** The swarm of the collision sample is its four particles in order. */
  lemma FourCols()
    ensures Four == [Col1, Col2, Col3, Col4]
  {
  }

  lemma Col1Vectors()
    ensures VectorText("", Col1.position) == "<-6,0,0>"
    ensures VectorText(" ", Col1.velocity) == "< 3,0,0>"
    ensures VectorText(" ", Col1.acceleration) == "< 0,0,0>"
  {
    SampleVector("", -6, "-6");
    SampleVector(" ", 3, "3");
    SampleVector(" ", 0, "0");
  }

  /** Line 1 of the collision sample is the text of `Col1`. */
  lemma CollisionLine1()
    ensures Line1 == "p=<-6,0,0>, v=< 3,0,0>, a=< 0,0,0>"
  {
    Col1Vectors();
    assert "p=" + "<-6,0,0>" == "p=<-6,0,0>";
    assert "p=<-6,0,0>" + ", v=" == "p=<-6,0,0>, v=";
    assert "p=<-6,0,0>, v=" + "< 3,0,0>" == "p=<-6,0,0>, v=< 3,0,0>";
    assert "p=<-6,0,0>, v=< 3,0,0>" + ", a=" == "p=<-6,0,0>, v=< 3,0,0>, a=";
    SampleText(Col1, "", " ", " ", "<-6,0,0>", "< 3,0,0>", "< 0,0,0>", "p=<-6,0,0>, v=< 3,0,0>, a=< 0,0,0>");
  }

  lemma Col2Vectors()
    ensures VectorText("", Col2.position) == "<-4,0,0>"
    ensures VectorText(" ", Col2.velocity) == "< 2,0,0>"
    ensures VectorText(" ", Col2.acceleration) == "< 0,0,0>"
  {
    SampleVector("", -4, "-4");
    SampleVector(" ", 2, "2");
    SampleVector(" ", 0, "0");
  }

  /** Line 2 of the collision sample is the text of `Col2`. */
  lemma CollisionLine2()
    ensures Line2 == "p=<-4,0,0>, v=< 2,0,0>, a=< 0,0,0>"
  {
    Col2Vectors();
    assert "p=" + "<-4,0,0>" == "p=<-4,0,0>";
    assert "p=<-4,0,0>" + ", v=" == "p=<-4,0,0>, v=";
    assert "p=<-4,0,0>, v=" + "< 2,0,0>" == "p=<-4,0,0>, v=< 2,0,0>";
    assert "p=<-4,0,0>, v=< 2,0,0>" + ", a=" == "p=<-4,0,0>, v=< 2,0,0>, a=";
    SampleText(Col2, "", " ", " ", "<-4,0,0>", "< 2,0,0>", "< 0,0,0>", "p=<-4,0,0>, v=< 2,0,0>, a=< 0,0,0>");
  }

  lemma Col3Vectors()
    ensures VectorText("", Col3.position) == "<-2,0,0>"
    ensures VectorText(" ", Col3.velocity) == "< 1,0,0>"
    ensures VectorText(" ", Col3.acceleration) == "< 0,0,0>"
  {
    SampleVector("", -2, "-2");
    SampleVector(" ", 1, "1");
    SampleVector(" ", 0, "0");
  }

  /** Line 3 of the collision sample is the text of `Col3`. */
  lemma CollisionLine3()
    ensures Line3 == "p=<-2,0,0>, v=< 1,0,0>, a=< 0,0,0>"
  {
    Col3Vectors();
    assert "p=" + "<-2,0,0>" == "p=<-2,0,0>";
    assert "p=<-2,0,0>" + ", v=" == "p=<-2,0,0>, v=";
    assert "p=<-2,0,0>, v=" + "< 1,0,0>" == "p=<-2,0,0>, v=< 1,0,0>";
    assert "p=<-2,0,0>, v=< 1,0,0>" + ", a=" == "p=<-2,0,0>, v=< 1,0,0>, a=";
    SampleText(Col3, "", " ", " ", "<-2,0,0>", "< 1,0,0>", "< 0,0,0>", "p=<-2,0,0>, v=< 1,0,0>, a=< 0,0,0>");
  }

  lemma Col4Vectors()
    ensures VectorText(" ", Col4.position) == "< 3,0,0>"
    ensures VectorText("", Col4.velocity) == "<-1,0,0>"
    ensures VectorText(" ", Col4.acceleration) == "< 0,0,0>"
  {
    SampleVector(" ", 3, "3");
    SampleVector("", -1, "-1");
    SampleVector(" ", 0, "0");
  }

  /** Line 4 of the collision sample is the text of `Col4`. */
  lemma CollisionLine4()
    ensures Line4 == "p=< 3,0,0>, v=<-1,0,0>, a=< 0,0,0>"
  {
    Col4Vectors();
    assert "p=" + "< 3,0,0>" == "p=< 3,0,0>";
    assert "p=< 3,0,0>" + ", v=" == "p=< 3,0,0>, v=";
    assert "p=< 3,0,0>, v=" + "<-1,0,0>" == "p=< 3,0,0>, v=<-1,0,0>";
    assert "p=< 3,0,0>, v=<-1,0,0>" + ", a=" == "p=< 3,0,0>, v=<-1,0,0>, a=";
    SampleText(Col4, " ", "", " ", "< 3,0,0>", "<-1,0,0>", "< 0,0,0>", "p=< 3,0,0>, v=<-1,0,0>, a=< 0,0,0>");
  }

  /** The text of a particle whose whitespace holds no line feed has the
      shape of a line. */
  lemma LineShaped(p: Particle, wp: string, wv: string)
    requires Blank(wp) && Blank(wv) && '\n' !in wp && '\n' !in wv
    ensures LineShape(ParticleText(p, wp, wv, " ", " "))
  {
    TextShape(p, wp, wv, " ", " ");
  }

  /** A written particle, on its own or indented by `pad`, reads back. */
  lemma LineRead(p: Particle, wp: string, wv: string, pad: string)
    requires Blank(wp) && Blank(wv) && Blank(pad) && Fits(p)
    ensures Day20Particle.FromStr(ParticleText(p, wp, wv, " ", " ")) == Ok(p)
    ensures Day20Particle.FromStr(pad + ParticleText(p, wp, wv, " ", " ")) == Ok(p)
  {
    assert Blank(" ");
    FromStrText(p, wp, wv, " ", " ");
    FromStrIndented(pad, p, wp, wv, " ", " ");
  }

  /** The indentation is whitespace without a line feed. */
  lemma CollisionPadBlank()
    ensures Blank(CollisionPad) && '\n' !in CollisionPad
  {
    forall k | 0 <= k < |CollisionPad|
      ensures CollisionPad[k] == ' '
    {
    }
  }

  /** A line that starts with `p`, ends with `>` and holds no line feed or
      carriage return to strip. */
  predicate LineShape(line: string) {
    line != [] && line[0] == 'p' && line[|line| - 1] == '>' && '\n' !in line && StripCr(line) == line
  }

  /** Four lines that each read as their particle give the four. */
  lemma ParseEachFour(parts: seq<string>, ps: seq<Particle>)
    requires |parts| == 4 && |ps| == 4
    ensures Day20Particle.FromStr(parts[0]) == Ok(ps[0]) && Day20Particle.FromStr(parts[1]) == Ok(ps[1]) &&
            Day20Particle.FromStr(parts[2]) == Ok(ps[2]) && Day20Particle.FromStr(parts[3]) == Ok(ps[3]) ==>
      Collect(ParseEach(parts)) == Ok(ps)
  {
    if Day20Particle.FromStr(parts[0]) == Ok(ps[0]) && Day20Particle.FromStr(parts[1]) == Ok(ps[1]) &&
       Day20Particle.FromStr(parts[2]) == Ok(ps[2]) && Day20Particle.FromStr(parts[3]) == Ok(ps[3])
    {
      var rs := ParseEach(parts);
      assert rs[0] == Ok(ps[0]) && rs[1] == Ok(ps[1]) && rs[2] == Ok(ps[2]) && rs[3] == Ok(ps[3]);
      CollectFour(rs, ps);
    }
  }

  /** Four particle lines, the later ones indented by `pad`, parse as the
      particles each line reads as. */
  lemma ParseFour(lines: seq<string>, pad: string, ps: seq<Particle>)
    requires |lines| == 4 && |ps| == 4 && Blank(pad) && '\n' !in pad
    requires LineShape(lines[0]) && LineShape(lines[1]) && LineShape(lines[2]) && LineShape(lines[3])
    ensures var parts := Indent(lines, pad);
      Day20Particle.FromStr(parts[0]) == Ok(ps[0]) && Day20Particle.FromStr(parts[1]) == Ok(ps[1]) &&
      Day20Particle.FromStr(parts[2]) == Ok(ps[2]) && Day20Particle.FromStr(parts[3]) == Ok(ps[3]) ==>
      Parse(Join(parts, '\n')) == Ok(ps)
  {
    forall i | 0 <= i < 4
      ensures lines[i] != [] && '\n' !in lines[i] && StripCr(lines[i]) == lines[i]
    {
      assert LineShape(lines[i]);
    }
    LinesIndented(lines, pad);
    var parts := Indent(lines, pad);
    ParseOfLines(Join(parts, '\n'), parts);
    ParseEachFour(parts, ps);
  }

  lemma CollisionLineRead1()
    ensures LineShape(CollisionLines[0])
    ensures Day20Particle.FromStr(Indent(CollisionLines, CollisionPad)[0]) == Ok(Four[0])
  {
    CollisionPadBlank();
    assert Blank("") && Blank(" ");
    FourCols();
    assert CollisionLines[0] == Line1 && Four[0] == Col1;
    assert Indent(CollisionLines, CollisionPad)[0] == Line1;
    LineShaped(Col1, "", " ");
    LineRead(Col1, "", " ", CollisionPad);
  }

  lemma CollisionLineRead2()
    ensures LineShape(CollisionLines[1])
    ensures Day20Particle.FromStr(Indent(CollisionLines, CollisionPad)[1]) == Ok(Four[1])
  {
    CollisionPadBlank();
    assert Blank("") && Blank(" ");
    FourCols();
    assert CollisionLines[1] == Line2 && Four[1] == Col2;
    assert Indent(CollisionLines, CollisionPad)[1] == CollisionPad + Line2;
    LineShaped(Col2, "", " ");
    LineRead(Col2, "", " ", CollisionPad);
  }

  lemma CollisionLineRead3()
    ensures LineShape(CollisionLines[2])
    ensures Day20Particle.FromStr(Indent(CollisionLines, CollisionPad)[2]) == Ok(Four[2])
  {
    CollisionPadBlank();
    assert Blank("") && Blank(" ");
    FourCols();
    assert CollisionLines[2] == Line3 && Four[2] == Col3;
    assert Indent(CollisionLines, CollisionPad)[2] == CollisionPad + Line3;
    LineShaped(Col3, "", " ");
    LineRead(Col3, "", " ", CollisionPad);
  }

  lemma CollisionLineRead4()
    ensures LineShape(CollisionLines[3])
    ensures Day20Particle.FromStr(Indent(CollisionLines, CollisionPad)[3]) == Ok(Four[3])
  {
    CollisionPadBlank();
    assert Blank("") && Blank(" ");
    FourCols();
    assert CollisionLines[3] == Line4 && Four[3] == Col4;
    assert Indent(CollisionLines, CollisionPad)[3] == CollisionPad + Line4;
    LineShaped(Col4, " ", "");
    LineRead(Col4, " ", "", CollisionPad);
  }

  /** `parse` reads the collision sample's text as its four particles. */
  lemma SampleCollisionsParse()
    ensures Parse(CollisionInput) == Ok(Four)
  {
    CollisionPadBlank();
    CollisionLineRead1();
    CollisionLineRead2();
    CollisionLineRead3();
    CollisionLineRead4();
    ParseFour(CollisionLines, CollisionPad, Four);
  }

  /** `particles_left_after_collisions(&parse(INPUT))` on the collision
      sample's text leaves one particle. */
  lemma SampleCollisionsParsed()
    ensures Parse(CollisionInput).Ok? && Collisions(Parse(CollisionInput).value, 0) == Some(1)
  {
    SampleCollisionsParse();
    SampleCollisions();
  }
}
