/**
 The reference for dispatch: from the plans of all source ranks, which route owns
 each slot of one destination rank. Destinations can be rolled by any distance
 within each source rank before they are looked at.
 */
module SlotAssignments {
  import opened Sums
  import opened Planner
  import opened PlanTheorems
  import opened Wrappers

  datatype SlotError = PlanFailed(error: PlanError) | NegativeDestination | Collision(slot: nat)

  /** Owner of every slot: source rank, token and route; -1 for a slot without owner. */
  datatype SlotTable = SlotTable(source: seq<int>, token: seq<int>, route: seq<int>)

  /** Python's roll by slices: the last `roll` entries, taken around, come first. */
  function Rolled(s: seq<int>, roll: int): (r: seq<int>)
    requires |s| > 0
    ensures |r| == |s|
  {
    if roll == 0 then s else
      var shift := roll % |s|;
      s[|s| - shift..] + s[..|s| - shift]
  }

  /** Where the entry at `k` of a rolled sequence comes from. */
  function RolledFrom(n: int, roll: int, k: int): (j: int)
    requires 0 <= k < n
    ensures 0 <= j < n
  {
    var shift := roll % n;
    if k < shift then n - shift + k else k - shift
  }

  lemma {:induction false} RolledEntry(s: seq<int>, roll: int, k: nat)
    requires k < |s|
    ensures Rolled(s, roll)[k] == s[RolledFrom(|s|, roll, k)]
  {
    if roll == 0 {
      Residue(roll, 0, 0, |s|);
    } else {
      var cut := |s| - roll % |s|;
      assert (s[cut..] + s[..cut])[k] == if k < |s| - cut then s[cut + k] else s[k - (|s| - cut)];
    }
  }

  lemma {:induction false} RolledTo(n: nat, roll: int, j: nat) returns (k: nat)
    requires j < n
    ensures k < n && RolledFrom(n, roll, k) == j
  {
    var shift := roll % n;
    k := if j < n - shift then j + shift else j - (n - shift);
  }

  /** Entry `j` of source `p` names slot `x` of rank `rank`. */
  ghost predicate Hits(dests: seq<seq<int>>, rank: int, nvS: int, p: int, j: int, x: int)
  {
    0 <= p < |dests| && 0 <= j < |dests[p]| && 0 <= x < nvS && dests[p][j] == rank * nvS + x
  }

  /** Two different routes name one slot. */
  ghost predicate Collides(dests: seq<seq<int>>, rank: int, nvS: int, x: int)
  {
    exists p, j, p', j' ::
      (p != p' || j != j') && Hits(dests, rank, nvS, p, j, x) && Hits(dests, rank, nvS, p', j', x)
  }

  ghost predicate OwnerRecorded(dests: seq<seq<int>>, rank: int, nvS: int, topk: int, t: SlotTable, x: int)
    requires topk > 0 && 0 <= x < |t.source| == |t.token| == |t.route|
  {
    if t.source[x] == -1 then
      t.token[x] == -1 && t.route[x] == -1 && forall p, j :: !Hits(dests, rank, nvS, p, j, x)
    else
      Hits(dests, rank, nvS, t.source[x], t.route[x], x) && t.token[x] == t.route[x] / topk
  }

  /** The table says exactly who owns each slot. */
  ghost predicate Filled(dests: seq<seq<int>>, rank: int, nvS: int, topk: int, t: SlotTable)
    requires topk > 0
  {
    && |t.source| == |t.token| == |t.route| == nvS
    && forall x :: 0 <= x < nvS ==> OwnerRecorded(dests, rank, nvS, topk, t, x)
  }

  lemma {:induction false} HitsMore(
    dests: seq<seq<int>>, more: seq<seq<int>>, rank: int, nvS: int, encoded: int, x: int)
    requires |dests| > 0 && more == dests[..|dests| - 1] + [dests[|dests| - 1] + [encoded]]
    ensures forall p, j :: Hits(more, rank, nvS, p, j, x) <==>
      Hits(dests, rank, nvS, p, j, x) ||
      (p == |dests| - 1 && j == |dests[|dests| - 1]| && 0 <= x < nvS && encoded == rank * nvS + x)
  {
  }

  /** One entry more: the slot it names, if it is one of this rank's, gets it as owner. */
  lemma {:induction false} FillMore(
    dests: seq<seq<int>>, more: seq<seq<int>>, rank: int, nvS: int, topk: int, t: SlotTable, t': SlotTable,
    encoded: int)
    requires topk > 0 && nvS > 0 && |dests| > 0 && Filled(dests, rank, nvS, topk, t)
    requires more == dests[..|dests| - 1] + [dests[|dests| - 1] + [encoded]]
    requires var slot, j := encoded % nvS, |dests[|dests| - 1]|;
      if encoded / nvS == rank
      then t.source[slot] < 0 && t' == SlotTable(
        t.source[slot := |dests| - 1], t.token[slot := j / topk], t.route[slot := j])
      else t' == t
    ensures Filled(more, rank, nvS, topk, t')
  {
    forall x | 0 <= x < nvS
      ensures OwnerRecorded(more, rank, nvS, topk, t', x)
    {
      HitsMore(dests, more, rank, nvS, encoded, x);
      assert OwnerRecorded(dests, rank, nvS, topk, t, x);
      NamesSlot(encoded, rank, nvS, x);
    }
  }

  lemma {:induction false} NamesSlot(encoded: int, rank: int, nvS: int, x: int)
    requires nvS > 0 && 0 <= x < nvS
    ensures encoded == rank * nvS + x <==> encoded / nvS == rank && encoded % nvS == x
  {
    assert encoded == nvS * (encoded / nvS) + encoded % nvS;
    if encoded == rank * nvS + x {
      var q := encoded / nvS;
      assert (q - rank) * nvS == x - encoded % nvS;
      if q > rank {
        MulMonotone(1, q - rank, nvS);
      } else if q < rank {
        MulMonotone(q - rank, -1, nvS);
      }
    }
  }

  // Relating the scanned destinations to the plans

  ghost predicate HasNegative(row: seq<int>)
  {
    exists j :: 0 <= j < |row| && row[j] < 0
  }

  /** `row` is the rolled destination list of the plan of rank `p`. */
  ghost predicate RolledPlan(q: Request, roll: int, p: int, row: seq<int>)
  {
    && Plan(q.(rank := p)).Ok? && |Plan(q.(rank := p)).value.dst| > 0
    && row == Rolled(Plan(q.(rank := p)).value.dst, roll)
  }

  lemma {:induction false} PlanShape(q: Request)
    requires Plan(q).Ok?
    ensures q.topk > 0 && |Plan(q).value.dst| == Share(q) > 0
  {
    WellFormedValidates(q);
  }

  /** Entry `j` of a rolled row is the destination of a route of its rank. */
  lemma {:induction false} RolledPlanEntry(q: Request, roll: int, p: int, row: seq<int>, j: int)
    requires WellFormed(q) && 0 <= p < q.rankSize && RolledPlan(q, roll, p, row) && 0 <= j < |row|
    ensures |row| == Share(q) == |PlanAt(q, p).dst| && row[j] == PlanAt(q, p).dst[RolledFrom(Share(q), roll, j)]
  {
    PlanShape(q.(rank := p));
    RolledEntry(PlanAt(q, p).dst, roll, j);
  }

  /** Rolled plans never collide: a collision shows that the request was not well formed. */
  lemma {:induction false} HitsDistinct(
    q: Request, roll: int, p: int, row: seq<int>, j: int, p': int, row': seq<int>, j': int)
    requires WellFormed(q) && 0 <= p < q.rankSize && 0 <= p' < q.rankSize
    requires RolledPlan(q, roll, p, row) && RolledPlan(q, roll, p', row')
    requires 0 <= j < |row| && 0 <= j' < |row'| && row[j] == row'[j']
    ensures p == p' && j == j'
  {
    RolledPlanEntry(q, roll, p, row, j);
    RolledPlanEntry(q, roll, p', row', j');
    DestinationsInjective(q, p, RolledFrom(Share(q), roll, j), p', RolledFrom(Share(q), roll, j'));
  }

  ghost predicate RolledPlans(q: Request, roll: int, dests: seq<seq<int>>)
  {
    |dests| <= q.rankSize &&
    forall p {:trigger RolledPlan(q, roll, p, dests[p])} :: 0 <= p < |dests| ==> RolledPlan(q, roll, p, dests[p])
  }

  lemma {:induction false} RolledPlansMore(q: Request, roll: int, dests: seq<seq<int>>, row: seq<int>)
    requires RolledPlans(q, roll, dests) && |dests| < q.rankSize && RolledPlan(q, roll, |dests|, row)
    ensures RolledPlans(q, roll, dests + [row])
  {
    var more := dests + [row];
    forall p | 0 <= p < |more|
      ensures RolledPlan(q, roll, p, more[p])
    {
      if p < |dests| {
        assert more[p] == dests[p];
        assert RolledPlan(q, roll, p, dests[p]);
      }
    }
  }

  lemma {:induction false} CollisionRefutes(q: Request, nvS: int, roll: int, dests: seq<seq<int>>, x: int)
    requires RolledPlans(q, roll, dests) && Collides(dests, q.rank, nvS, x)
    ensures !WellFormed(q)
  {
    if WellFormed(q) {
      var p, j, p', j' :| (p != p' || j != j') &&
        Hits(dests, q.rank, nvS, p, j, x) && Hits(dests, q.rank, nvS, p', j', x);
      assert RolledPlan(q, roll, p, dests[p]) && RolledPlan(q, roll, p', dests[p']);
      HitsDistinct(q, roll, p, dests[p], j, p', dests[p'], j');
    }
  }

  lemma {:induction false} NegativeRefutes(q: Request, roll: int, p: int, row: seq<int>)
    requires 0 <= p < q.rankSize && RolledPlan(q, roll, p, row) && HasNegative(row)
    ensures !WellFormed(q)
  {
    if WellFormed(q) {
      var j :| 0 <= j < |row| && row[j] < 0;
      RolledPlanEntry(q, roll, p, row, j);
      var d, x := DestinationDecodes(q, p, RolledFrom(Share(q), roll, j));
    }
  }

  /** Route `j` of the rolled destinations of rank `p` names slot `x` of the rank of `q`. */
  ghost predicate Owns(q: Request, roll: int, p: int, j: int, x: int)
    requires WellFormed(q)
  {
    && 0 <= p < q.rankSize && 0 <= j < |PlanAt(q, p).dst| && 0 <= x < BufferSlots(q)
    && Rolled(PlanAt(q, p).dst, roll)[j] == q.rank * BufferSlots(q) + x
  }

  /** A slot has no owner exactly when a zero-fill range of this rank's plan clears it. */
  ghost predicate OwnerIsRight(q: Request, roll: int, t: SlotTable, x: int)
    requires WellFormed(q) && 0 <= x < |t.source| == |t.token| == |t.route|
  {
    && (t.source[x] == -1 <==> exists g :: Clears(q, q.rank, g, x))
    && (t.source[x] == -1 ==> t.token[x] == -1 && t.route[x] == -1)
    && (t.source[x] != -1 ==> Owns(q, roll, t.source[x], t.route[x], x) && t.token[x] == t.route[x] / q.topk)
  }

  lemma {:induction false} HitsIsOwns(q: Request, roll: int, dests: seq<seq<int>>, p: int, j: int, x: int)
    requires WellFormed(q) && RolledPlans(q, roll, dests) && |dests| == q.rankSize
    ensures Hits(dests, q.rank, BufferSlots(q), p, j, x) <==> Owns(q, roll, p, j, x)
  {
    if 0 <= p < |dests| {
      assert RolledPlan(q, roll, p, dests[p]);
    }
  }

  /** Rolling permutes the routes of each source, so it changes owners but not which slots are owned. */
  lemma {:induction false} OwnedIsReceived(q: Request, roll: int, x: int)
    requires WellFormed(q) && 0 <= x < BufferSlots(q)
    ensures (exists p, j :: Owns(q, roll, p, j, x)) <==> Received(q, q.rank, x)
  {
    if p, j :| Owns(q, roll, p, j, x) {
      RolledEntry(PlanAt(q, p).dst, roll, j);
      assert Lands(q, p, RolledFrom(|PlanAt(q, p).dst|, roll, j), q.rank, x);
    }
    if p, j :| Lands(q, p, j, q.rank, x) {
      var k := RolledTo(|PlanAt(q, p).dst|, roll, j);
      RolledEntry(PlanAt(q, p).dst, roll, k);
      assert Owns(q, roll, p, k, x);
    }
  }

  lemma {:induction false} FilledIsRight(q: Request, roll: int, dests: seq<seq<int>>, t: SlotTable, x: int)
    requires WellFormed(q) && RolledPlans(q, roll, dests) && |dests| == q.rankSize && 0 <= x < BufferSlots(q)
    requires Filled(dests, q.rank, BufferSlots(q), q.topk, t)
    ensures OwnerIsRight(q, roll, t, x)
  {
    assert OwnerRecorded(dests, q.rank, BufferSlots(q), q.topk, t, x);
    BufferPartition(q, q.rank, x);
    OwnedIsReceived(q, roll, x);
    forall p, j
      ensures Hits(dests, q.rank, BufferSlots(q), p, j, x) <==> Owns(q, roll, p, j, x)
    {
      HitsIsOwns(q, roll, dests, p, j, x);
    }
  }

  // The scan

  /** Record the owner of the slot that one entry names. */
  method PlaceRoute(
    ghost dests: seq<seq<int>>, source: nat, route: nat, encoded: int, rank: int, nvS: nat, topk: int, t: SlotTable)
    returns (r: Result<SlotTable, SlotError>)
    requires topk > 0 && nvS > 0 && |dests| == source + 1 && |dests[source]| == route
    requires Filled(dests, rank, nvS, topk, t)
    ensures r.Ok? ==> Filled(dests[..source] + [dests[source] + [encoded]], rank, nvS, topk, r.value)
    ensures r.Err? && encoded >= 0 ==> r.error.Collision?
    ensures r.Err? && encoded >= 0 ==>
      Collides(dests[..source] + [dests[source] + [encoded]], rank, nvS, r.error.slot)
  {
    ghost var more := dests[..source] + [dests[source] + [encoded]];
    if encoded < 0 {
      return Err(NegativeDestination);
    }
    var target, slot := encoded / nvS, encoded % nvS;
    var filled := t;
    if target == rank {
      if t.source[slot] >= 0 {
        NamesSlot(encoded, rank, nvS, slot);
        assert OwnerRecorded(dests, rank, nvS, topk, t, slot);
        assert Hits(more, rank, nvS, t.source[slot], t.route[slot], slot);
        assert Hits(more, rank, nvS, source, route, slot);
        return Err(Collision(slot));
      }
      filled := SlotTable(t.source[slot := source], t.token[slot := route / topk], t.route[slot := route]);
    }
    FillMore(dests, more, rank, nvS, topk, t, filled, encoded);
    return Ok(filled);
  }

  lemma {:induction false} FilledEmptySource(dests: seq<seq<int>>, rank: int, nvS: int, topk: int, t: SlotTable)
    requires topk > 0 && Filled(dests, rank, nvS, topk, t)
    ensures Filled(dests + [[]], rank, nvS, topk, t)
  {
    forall x | 0 <= x < nvS
      ensures OwnerRecorded(dests + [[]], rank, nvS, topk, t, x)
    {
      assert OwnerRecorded(dests, rank, nvS, topk, t, x);
      assert forall p, j :: Hits(dests + [[]], rank, nvS, p, j, x) ==> Hits(dests, rank, nvS, p, j, x);
    }
  }

  lemma {:induction false} CollidesLater(
    dests: seq<seq<int>>, scanned: seq<int>, all: seq<int>, rank: int, nvS: int, x: int)
    requires |scanned| <= |all| && scanned == all[..|scanned|]
    requires Collides(dests + [scanned], rank, nvS, x)
    ensures Collides(dests + [all], rank, nvS, x)
  {
    var p, j, p', j' :| (p != p' || j != j') &&
      Hits(dests + [scanned], rank, nvS, p, j, x) && Hits(dests + [scanned], rank, nvS, p', j', x);
    assert Hits(dests + [all], rank, nvS, p, j, x) && Hits(dests + [all], rank, nvS, p', j', x);
  }

  /** Scan the rolled destinations of one more source rank. */
  method ScanSource(
    ghost dests: seq<seq<int>>, source: nat, destinations: seq<int>, rank: int, nvS: nat, topk: int, t: SlotTable)
    returns (r: Result<SlotTable, SlotError>)
    requires topk > 0 && nvS > 0 && |dests| == source && Filled(dests, rank, nvS, topk, t)
    ensures r.Ok? ==> Filled(dests + [destinations], rank, nvS, topk, r.value)
    ensures r.Err? ==> HasNegative(destinations) || exists x :: Collides(dests + [destinations], rank, nvS, x)
  {
    var filled := t;
    FilledEmptySource(dests, rank, nvS, topk, t);
    for route := 0 to |destinations|
      invariant Filled(dests + [destinations[..route]], rank, nvS, topk, filled)
    {
      ghost var seen := dests + [destinations[..route]];
      assert seen[..source] == dests;
      assert destinations[..route + 1] == destinations[..route] + [destinations[route]];
      var placed := PlaceRoute(seen, source, route, destinations[route], rank, nvS, topk, filled);
      if placed.Err? {
        if destinations[route] >= 0 {
          CollidesLater(dests, destinations[..route + 1], destinations, rank, nvS, placed.error.slot);
        }
        return Err(placed.error);
      }
      filled := placed.value;
    }
    assert destinations[..|destinations|] == destinations;
    return Ok(filled);
  }

  /** The rolled destinations of one source rank's plan, or why there is none. */
  method RolledDestinations(q: Request, source: int, roll: int) returns (r: Result<seq<int>, SlotError>)
    ensures r.Ok? ==> RolledPlan(q, roll, source, r.value) && q.topk > 0
    ensures r.Err? && 0 <= source < q.rankSize ==> !WellFormed(q)
  {
    var plan := BuildReferencePlan(q.(rank := source));
    PlanOutcome(q.(rank := source));
    if plan.Err? {
      return Err(PlanFailed(plan.error));
    }
    PlanShape(q.(rank := source));
    return Ok(Rolled(plan.value.dst, roll));
  }

  /**
   The slot owners of rank `q.rank`. On a well-formed request with the buffer
   size of its plan there is never a collision, whatever the roll, and a slot is
   left without owner exactly when the plan clears it.
   */
  method ReferenceSlotAssignments(q: Request, nvS: nat, roll: int) returns (r: Result<SlotTable, SlotError>)
    requires nvS > 0
    ensures WellFormed(q) && nvS == BufferSlots(q) ==> r.Ok?
    ensures WellFormed(q) && nvS == BufferSlots(q) ==> |r.value.source| == |r.value.token| == |r.value.route| == nvS
    ensures WellFormed(q) && nvS == BufferSlots(q) ==> forall x :: 0 <= x < nvS ==> OwnerIsRight(q, roll, r.value, x)
  {
    var t := SlotTable(seq(nvS, x => -1), seq(nvS, x => -1), seq(nvS, x => -1));
    ghost var dests: seq<seq<int>> := [];
    var source := 0;
    while source < q.rankSize
      invariant source == |dests| && (source <= q.rankSize || source == 0)
      invariant |t.source| == |t.token| == |t.route| == nvS
      invariant q.topk > 0 ==> Filled(dests, q.rank, nvS, q.topk, t)
      invariant q.rankSize >= 0 ==> RolledPlans(q, roll, dests)
    {
      var destinations := RolledDestinations(q, source, roll);
      if destinations.Err? {
        return Err(destinations.error);
      }
      var scanned := ScanSource(dests, source, destinations.value, q.rank, nvS, q.topk, t);
      RolledPlansMore(q, roll, dests, destinations.value);
      dests := dests + [destinations.value];
      if scanned.Err? {
        if HasNegative(destinations.value) {
          NegativeRefutes(q, roll, source, destinations.value);
        } else {
          ghost var x :| Collides(dests, q.rank, nvS, x);
          CollisionRefutes(q, nvS, roll, dests, x);
        }
        return Err(scanned.error);
      }
      t := scanned.value;
      source := source + 1;
    }
    if WellFormed(q) && nvS == BufferSlots(q) {
      forall x | 0 <= x < nvS
        ensures OwnerIsRight(q, roll, t, x)
      {
        FilledIsRight(q, roll, dests, t, x);
      }
    }
    return Ok(t);
  }
}
