/** The pure rules of julesv1/src/systems/RegionSystem.ts: box containment,
    region collection, membership comparison, enter/exit events, the priority
    sort and the Override/Add/Multiply folds, and what one tick does to a level
    stated as a function of the level before it. */
module RegionRules {
  import opened Wrappers
  import opened Constants
  import opened Vectors
  import opened Components
  import opened Events
  import opened Levels
  import opened SeqUtil
  import opened PrioritySort

  /** The emitter named as `source` in RegionEnter/RegionExit events. */
  const Source: string := "RegionSystem"

  // ---- Containment ----

  /** `isInside`: the point lies in the closed axis-aligned box with that centre
      and full extent `size`. */
  predicate IsInside(p: Vec3, center: Vec3, size: Vec3) {
    && center.x - size.x / 2.0 <= p.x <= center.x + size.x / 2.0
    && center.y - size.y / 2.0 <= p.y <= center.y + size.y / 2.0
    && center.z - size.z / 2.0 <= p.z <= center.z + size.z / 2.0
  }

  /** The box is closed: its centre and all eight corners are inside exactly
      when no extent is negative. */
  lemma BoxIsClosed(center: Vec3, size: Vec3, sx: real, sy: real, sz: real)
    requires sx in {-1.0, 1.0} && sy in {-1.0, 1.0} && sz in {-1.0, 1.0}
    ensures IsInside(center, center, size) <==> size.x >= 0.0 && size.y >= 0.0 && size.z >= 0.0
    ensures size.x >= 0.0 && size.y >= 0.0 && size.z >= 0.0 ==>
      IsInside(Vec3(center.x + sx * size.x / 2.0, center.y + sy * size.y / 2.0, center.z + sz * size.z / 2.0), center, size)
  {
  }

  /** Containment depends only on the offset of the point from the centre. */
  lemma InsideIsTranslationInvariant(p: Vec3, center: Vec3, size: Vec3, d: Vec3)
    ensures IsInside(Vectors.Add(p, d), Vectors.Add(center, d), size) <==> IsInside(p, center, size)
  {
  }

  // ---- Regions and subjects ----

  /** A region as step 1 of `update` collects it: the owner's id, its Region
      component's priority, modifiers and size, and its Transform position. */
  datatype RegionEntry = RegionEntry(entityId: string, priority: real, modifiers: seq<Modifier>, size: Vec3, center: Vec3)

  predicate HasTransform(b: Body) {
    TransformKind in b.components && b.components[TransformKind].Transform?
  }

  predicate HasRegion(b: Body) {
    RegionKind in b.components && b.components[RegionKind].Region?
  }

  /** Active, with both a Region and a Transform. */
  predicate IsRegion(b: Body) {
    b.state == Active && HasRegion(b) && HasTransform(b)
  }

  /** Active, with a Transform and without a Region. */
  predicate IsSubject(b: Body) {
    b.state == Active && HasTransform(b) && RegionKind !in b.components
  }

  function EntryOf(id: string, b: Body): RegionEntry
    requires IsRegion(b)
  {
    var r := b.components[RegionKind];
    RegionEntry(id, r.priority, r.modifiers, r.size, b.components[TransformKind].position)
  }

  /** Step 1 of `update`: the regions, in the level's iteration order. */
  function CollectRegions(w: map<string, Body>, ids: seq<string>): (r: seq<RegionEntry>)
    ensures |r| <= |ids|
  {
    if ids == [] then []
    else
      var id := ids[|ids| - 1];
      CollectRegions(w, ids[..|ids| - 1]) + (if id in w && IsRegion(w[id]) then [EntryOf(id, w[id])] else [])
  }

  function EntryIds(rs: seq<RegionEntry>): (r: seq<string>)
    ensures |r| == |rs| && forall i | 0 <= i < |rs| :: r[i] == rs[i].entityId
  {
    if rs == [] then [] else EntryIds(rs[..|rs| - 1]) + [rs[|rs| - 1].entityId]
  }

  /** The collected regions are exactly the region entities of the level,
      each entry built from its own entity. */
  lemma {:induction false} CollectRegionsExactly(w: map<string, Body>, ids: seq<string>)
    ensures forall r | r in CollectRegions(w, ids) :: r.entityId in ids && r.entityId in w && IsRegion(w[r.entityId]) && r == EntryOf(r.entityId, w[r.entityId])
    ensures forall id | id in ids && id in w && IsRegion(w[id]) :: id in EntryIds(CollectRegions(w, ids))
  {
    if ids != [] {
      var init := ids[..|ids| - 1];
      CollectRegionsExactly(w, init);
      assert ids == init + [ids[|ids| - 1]];
      var rs := CollectRegions(w, ids);
      var rs0 := CollectRegions(w, init);
      forall id | id in ids && id in w && IsRegion(w[id]) ensures id in EntryIds(rs) {
        if id in init {
          var k :| 0 <= k < |rs0| && rs0[k].entityId == id;
          assert rs[k] == rs0[k];
          assert EntryIds(rs)[k] == id;
        } else {
          assert rs[|rs| - 1].entityId == id;
          assert EntryIds(rs)[|rs| - 1] == id;
        }
      }
    }
  }

  /** Regions come from distinct entities. */
  lemma {:induction false} CollectedIdsAreDistinct(w: map<string, Body>, ids: seq<string>)
    requires Distinct(ids)
    ensures Distinct(EntryIds(CollectRegions(w, ids)))
    ensures forall x | x in EntryIds(CollectRegions(w, ids)) :: x in ids
  {
    if ids != [] {
      var init := ids[..|ids| - 1];
      var id := ids[|ids| - 1];
      DistinctPrefix(ids, |ids| - 1);
      CollectedIdsAreDistinct(w, init);
      var rs0 := CollectRegions(w, init);
      if id in w && IsRegion(w[id]) {
        assert EntryIds(CollectRegions(w, ids)) == EntryIds(rs0) + [id];
        DistinctAppend(EntryIds(rs0), id);
      } else {
        assert CollectRegions(w, ids) == rs0;
      }
    }
  }

  /** The containment loop: the regions whose box holds the point, in order. */
  function Containing(p: Vec3, rs: seq<RegionEntry>): (r: seq<RegionEntry>)
    ensures |r| <= |rs|
  {
    if rs == [] then []
    else
      var last := rs[|rs| - 1];
      Containing(p, rs[..|rs| - 1]) + (if IsInside(p, last.center, last.size) then [last] else [])
  }

  /** The containing list holds exactly the regions whose box holds the point. */
  lemma {:induction false} ContainingExactly(p: Vec3, rs: seq<RegionEntry>)
    ensures forall x :: x in Containing(p, rs) <==> x in rs && IsInside(p, x.center, x.size)
  {
    if rs != [] {
      ContainingExactly(p, rs[..|rs| - 1]);
      assert rs == rs[..|rs| - 1] + [rs[|rs| - 1]];
    }
  }

  /** Filtering keeps region ids distinct. */
  lemma {:induction false} ContainingIdsAreDistinct(p: Vec3, rs: seq<RegionEntry>)
    requires Distinct(EntryIds(rs))
    ensures Distinct(EntryIds(Containing(p, rs)))
    ensures forall x | x in EntryIds(Containing(p, rs)) :: x in EntryIds(rs)
  {
    if rs != [] {
      var init := rs[..|rs| - 1];
      var last := rs[|rs| - 1];
      assert EntryIds(rs) == EntryIds(init) + [last.entityId];
      DistinctPrefix(EntryIds(rs), |rs| - 1);
      assert EntryIds(rs)[..|rs| - 1] == EntryIds(init);
      ContainingIdsAreDistinct(p, init);
      if IsInside(p, last.center, last.size) {
        assert EntryIds(Containing(p, rs)) == EntryIds(Containing(p, init)) + [last.entityId];
        DistinctAppend(EntryIds(Containing(p, init)), last.entityId);
      } else {
        assert Containing(p, rs) == Containing(p, init);
      }
    }
  }

  // ---- Membership ----

  /** The cached membership of an entity (an empty set when none is cached). */
  function Previous(cache: map<string, seq<string>>, id: string): seq<string> {
    if id in cache then cache[id] else []
  }

  function Position(b: Body): Vec3
    requires HasTransform(b)
  {
    b.components[TransformKind].position
  }

  /** The ids of the regions containing a subject, in region order. */
  function Membership(b: Body, regions: seq<RegionEntry>): seq<string>
    requires HasTransform(b)
  {
    EntryIds(Containing(Position(b), regions))
  }

  /** The source's comparison: sizes differ, or some new id is not in the old set. */
  predicate MembershipChanged(before: seq<string>, after: seq<string>) {
    |before| != |after| || exists i | 0 <= i < |after| :: after[i] !in before
  }

  /** For sets (sequences without repetitions) the comparison is set inequality. */
  lemma MembershipChangedIffSetsDiffer(before: seq<string>, after: seq<string>)
    requires Distinct(before) && Distinct(after)
    ensures MembershipChanged(before, after) <==> (set x | x in before) != (set x | x in after)
  {
    var so := set x | x in before;
    var sn := set x | x in after;
    DistinctCardinality(before);
    DistinctCardinality(after);
    if !MembershipChanged(before, after) {
      assert sn <= so;
      assert |so - sn| == |so| - |sn| == 0;
      assert so - sn == {};
    } else if |before| == |after| {
      var i :| 0 <= i < |after| && after[i] !in before;
      assert after[i] in sn && after[i] !in so;
    }
  }

  /** The ids in `after` and not in `before`, in `after`'s order. */
  function Entered(before: seq<string>, after: seq<string>): (r: seq<string>)
    ensures |r| <= |after|
  {
    if after == [] then []
    else Entered(before, after[..|after| - 1]) + (if after[|after| - 1] !in before then [after[|after| - 1]] else [])
  }

  lemma {:induction false} EnteredExactly(before: seq<string>, after: seq<string>)
    ensures forall x :: x in Entered(before, after) <==> x in after && x !in before
  {
    if after != [] {
      EnteredExactly(before, after[..|after| - 1]);
      assert after == after[..|after| - 1] + [after[|after| - 1]];
    }
  }

  function EnterNotices(id: string, regionIds: seq<string>): (r: seq<Notice>)
    ensures |r| == |regionIds|
  {
    if regionIds == [] then [] else EnterNotices(id, regionIds[..|regionIds| - 1]) + [Notice("RegionEnter", RegionChange(id, regionIds[|regionIds| - 1]))]
  }

  function ExitNotices(id: string, regionIds: seq<string>): (r: seq<Notice>)
    ensures |r| == |regionIds|
  {
    if regionIds == [] then [] else ExitNotices(id, regionIds[..|regionIds| - 1]) + [Notice("RegionExit", RegionChange(id, regionIds[|regionIds| - 1]))]
  }

  lemma {:induction false} NoticesAt(id: string, regionIds: seq<string>)
    ensures forall i | 0 <= i < |regionIds| :: EnterNotices(id, regionIds)[i] == Notice("RegionEnter", RegionChange(id, regionIds[i]))
    ensures forall i | 0 <= i < |regionIds| :: ExitNotices(id, regionIds)[i] == Notice("RegionExit", RegionChange(id, regionIds[i]))
  {
    if regionIds != [] {
      NoticesAt(id, regionIds[..|regionIds| - 1]);
    }
  }

  /** The events of one subject: every enter (in new order), then every exit (in old order). */
  function SubjectNotices(id: string, before: seq<string>, after: seq<string>): seq<Notice> {
    EnterNotices(id, Entered(before, after)) + ExitNotices(id, Entered(after, before))
  }

  /** An enter notice for `r` is among `EnterNotices(id, xs)` exactly when `r`
      is in `xs`; no exit notice is. */
  lemma {:induction false} EnterNoticeFor(id: string, xs: seq<string>, r: string)
    ensures Notice("RegionEnter", RegionChange(id, r)) in EnterNotices(id, xs) <==> r in xs
    ensures Notice("RegionExit", RegionChange(id, r)) !in EnterNotices(id, xs)
  {
    if xs != [] {
      EnterNoticeFor(id, xs[..|xs| - 1], r);
      assert xs == xs[..|xs| - 1] + [xs[|xs| - 1]];
    }
  }

  /** An exit notice for `r` is among `ExitNotices(id, xs)` exactly when `r`
      is in `xs`; no enter notice is. */
  lemma {:induction false} ExitNoticeFor(id: string, xs: seq<string>, r: string)
    ensures Notice("RegionExit", RegionChange(id, r)) in ExitNotices(id, xs) <==> r in xs
    ensures Notice("RegionEnter", RegionChange(id, r)) !in ExitNotices(id, xs)
  {
    if xs != [] {
      ExitNoticeFor(id, xs[..|xs| - 1], r);
      assert xs == xs[..|xs| - 1] + [xs[|xs| - 1]];
    }
  }

  /** RegionEnter is emitted for a region exactly when it is in after \ before. */
  lemma EnterExactlyOnArrival(id: string, before: seq<string>, after: seq<string>, r: string)
    ensures Notice("RegionEnter", RegionChange(id, r)) in SubjectNotices(id, before, after) <==> r in after && r !in before
  {
    EnteredExactly(before, after);
    EnterNoticeFor(id, Entered(before, after), r);
    ExitNoticeFor(id, Entered(after, before), r);
  }

  /** RegionExit is emitted for a region exactly when it is in before \ after. */
  lemma ExitExactlyOnDeparture(id: string, before: seq<string>, after: seq<string>, r: string)
    ensures Notice("RegionExit", RegionChange(id, r)) in SubjectNotices(id, before, after) <==> r in before && r !in after
  {
    EnteredExactly(after, before);
    EnterNoticeFor(id, Entered(before, after), r);
    ExitNoticeFor(id, Entered(after, before), r);
  }

  lemma EnteredEmptyIffIncluded(before: seq<string>, after: seq<string>)
    ensures Entered(before, after) == [] <==> forall x | x in after :: x in before
  {
    EnteredExactly(before, after);
    var e := Entered(before, after);
    if e != [] {
      assert e[0] in e;
    }
  }

  /** While the membership is the same set, nothing is emitted, and when it
      changed, something is. */
  lemma SilentIffUnchanged(id: string, before: seq<string>, after: seq<string>)
    requires Distinct(before) && Distinct(after)
    ensures SubjectNotices(id, before, after) == [] <==> !MembershipChanged(before, after)
  {
    MembershipChangedIffSetsDiffer(before, after);
    EnteredEmptyIffIncluded(before, after);
    EnteredEmptyIffIncluded(after, before);
    var so := set x | x in before;
    var sn := set x | x in after;
    var ns := SubjectNotices(id, before, after);
    assert ns == [] <==> Entered(before, after) == [] && Entered(after, before) == [] by {
      assert |ns| == |Entered(before, after)| + |Entered(after, before)|;
    }
    if so == sn {
      forall x | x in after ensures x in before {
        assert x in sn;
      }
      forall x | x in before ensures x in after {
        assert x in so;
      }
    }
  }

  // One more step of the emission loops, stated for the loops' invariants.

  lemma EnteredStep(before: seq<string>, after: seq<string>, i: nat)
    requires i < |after|
    ensures after[i] !in before ==> Entered(before, after[..i + 1]) == Entered(before, after[..i]) + [after[i]]
    ensures after[i] in before ==> Entered(before, after[..i + 1]) == Entered(before, after[..i])
  {
    assert after[..i + 1][..i] == after[..i];
    assert Entered(before, after[..i]) + [] == Entered(before, after[..i]);
  }

  lemma EnterNoticesStep(id: string, e: seq<string>, x: string)
    ensures EnterNotices(id, e + [x]) == EnterNotices(id, e) + [Notice("RegionEnter", RegionChange(id, x))]
  {
    assert (e + [x])[..|e|] == e;
  }

  lemma ExitNoticesStep(id: string, e: seq<string>, x: string)
    ensures ExitNotices(id, e + [x]) == ExitNotices(id, e) + [Notice("RegionExit", RegionChange(id, x))]
  {
    assert (e + [x])[..|e|] == e;
  }

  lemma DispatchStep(listeners: map<string, seq<HandlerId>>, ns: seq<Notice>, n: Notice)
    ensures Dispatch(listeners, ns + [n], Source) == Dispatch(listeners, ns, Source) + Deliveries(HandlersIn(listeners, n.eventType), n.eventType, n.payload, Source)
  {
    assert (ns + [n])[..|ns|] == ns;
  }

  // ---- Priority order ----

  function EntryPriority(r: RegionEntry): real {
    r.priority
  }

  /** `activeRegions.sort((a, b) => b.priority - a.priority)`. */
  function SortByPriority(s: seq<RegionEntry>): seq<RegionEntry> {
    Sort(s, EntryPriority)
  }

  // ---- Blending ----

  /** `modifiers.find(m => m.property === property)`. */
  function FirstModifier(mods: seq<Modifier>, property: string): (r: Option<Modifier>)
    ensures r.None? <==> forall i | 0 <= i < |mods| :: mods[i].property != property
    ensures r.Some? ==> r.value in mods && r.value.property == property
    ensures r.Some? ==> exists i | 0 <= i < |mods| :: r.value == mods[i] && forall j | 0 <= j < i :: mods[j].property != property
  {
    if mods == [] then None
    else if mods[0].property == property then Some(mods[0])
    else
      var r := FirstModifier(mods[1..], property);
      if r.Some? then
        var i :| 0 <= i < |mods[1..]| && r.value == mods[1..][i] && forall j | 0 <= j < i :: mods[1..][j].property != property;
        assert r.value == mods[i + 1] && forall j | 0 <= j < i + 1 :: mods[j].property != property;
        r
      else r
  }

  /** `applyBlend`: Override replaces, Add sums, Multiply multiplies component-wise,
      and an unrecognised mode keeps the running value. */
  function ApplyBlend(current: Vec3, value: Vec3, mode: BlendMode): Vec3 {
    match mode
    case Override => value
    case Add => Vectors.Add(current, value)
    case Multiply => Mul(current, value)
    case Unrecognised => current
  }

  /** `applyColorBlend`: the same three modes on colour channels. */
  function ApplyColorBlend(current: Color, value: Color, mode: BlendMode): Color {
    match mode
    case Override => value
    case Add => AddColor(current, value)
    case Multiply => MulColor(current, value)
    case Unrecognised => current
  }

  /** The running value after folding each region's first modifier for
      `property`, in the given order, over `base`. */
  function Fold(base: Vec3, rs: seq<RegionEntry>, property: string): Vec3 {
    if rs == [] then base
    else
      var v := Fold(base, rs[..|rs| - 1], property);
      match FirstModifier(rs[|rs| - 1].modifiers, property)
      case None => v
      case Some(m) => ApplyBlend(v, m.value, m.blendMode)
  }

  /** The colour fold over the first `hue` modifier of each region. */
  function ColorFold(base: Color, rs: seq<RegionEntry>): Color {
    if rs == [] then base
    else
      var c := ColorFold(base, rs[..|rs| - 1]);
      match FirstModifier(rs[|rs| - 1].modifiers, "hue")
      case None => c
      case Some(m) => ApplyColorBlend(c, AsColor(m.value), m.blendMode)
  }

  function AsVec(c: Color): Vec3 {
    Vec3(c.r, c.g, c.b)
  }

  /** The colour fold is the vector fold read channel by channel. */
  lemma {:induction false} ColorFoldIsChannelwiseFold(base: Color, rs: seq<RegionEntry>)
    ensures ColorFold(base, rs) == AsColor(Fold(AsVec(base), rs, "hue"))
  {
    if rs != [] {
      ColorFoldIsChannelwiseFold(base, rs[..|rs| - 1]);
    }
  }

  predicate HasModifier(r: RegionEntry, property: string) {
    FirstModifier(r.modifiers, property).Some?
  }

  /** An Override is final unless a later region in the fold order modifies the
      same property: the last region that does, if it overrides, decides the
      value. In descending-priority order that is the LOWEST-priority one. */
  lemma {:induction false} LastOverrideWins(base: Vec3, rs: seq<RegionEntry>, property: string, k: nat)
    requires k < |rs|
    requires FirstModifier(rs[k].modifiers, property).Some?
    requires FirstModifier(rs[k].modifiers, property).value.blendMode == Override
    requires forall j | k < j < |rs| :: !HasModifier(rs[j], property)
    ensures Fold(base, rs, property) == FirstModifier(rs[k].modifiers, property).value.value
  {
    if k < |rs| - 1 {
      LastOverrideWins(base, rs[..|rs| - 1], property, k);
    }
  }

  /** Regions without a modifier for the property contribute nothing; with
      none at all, the result is the base value. */
  lemma {:induction false} UnmodifiedRegionsAreIgnored(base: Vec3, rs: seq<RegionEntry>, property: string)
    requires forall j | 0 <= j < |rs| :: !HasModifier(rs[j], property)
    ensures Fold(base, rs, property) == base
  {
    if rs != [] {
      UnmodifiedRegionsAreIgnored(base, rs[..|rs| - 1], property);
    }
  }

  function SumOf(rs: seq<RegionEntry>, property: string): Vec3 {
    if rs == [] then Zero
    else
      var s := SumOf(rs[..|rs| - 1], property);
      match FirstModifier(rs[|rs| - 1].modifiers, property)
      case None => s
      case Some(m) => Vectors.Add(s, m.value)
  }

  function ProductOf(rs: seq<RegionEntry>, property: string): Vec3 {
    if rs == [] then One
    else
      var s := ProductOf(rs[..|rs| - 1], property);
      match FirstModifier(rs[|rs| - 1].modifiers, property)
      case None => s
      case Some(m) => Mul(s, m.value)
  }

  /** Stacked Add modifiers sum onto the base. */
  lemma {:induction false} AddsAccumulate(base: Vec3, rs: seq<RegionEntry>, property: string)
    requires forall j | 0 <= j < |rs| && HasModifier(rs[j], property) :: FirstModifier(rs[j].modifiers, property).value.blendMode == Add
    ensures Fold(base, rs, property) == Vectors.Add(base, SumOf(rs, property))
  {
    if rs != [] {
      AddsAccumulate(base, rs[..|rs| - 1], property);
    }
  }

  /** Stacked Multiply modifiers scale the base component-wise. */
  lemma {:induction false} MultipliesAccumulate(base: Vec3, rs: seq<RegionEntry>, property: string)
    requires forall j | 0 <= j < |rs| && HasModifier(rs[j], property) :: FirstModifier(rs[j].modifiers, property).value.blendMode == Multiply
    ensures Fold(base, rs, property) == Mul(base, ProductOf(rs, property))
  {
    if rs != [] {
      MultipliesAccumulate(base, rs[..|rs| - 1], property);
      var s := ProductOf(rs[..|rs| - 1], property);
      var m := FirstModifier(rs[|rs| - 1].modifiers, property);
      if m.Some? {
        assert Mul(Mul(base, s), m.value.value) == Mul(base, Mul(s, m.value.value)) by {
          var a, b, c := base, s, m.value.value;
          assert (a.x * b.x) * c.x == a.x * (b.x * c.x);
          assert (a.y * b.y) * c.y == a.y * (b.y * c.y);
          assert (a.z * b.z) * c.z == a.z * (b.z * c.z);
        }
      }
    }
  }

  /** Two overlapping regions whose gravity modifiers both override: after the
      descending sort the lower-priority region is folded last and its value
      is the effective gravity, whatever order the regions were found in. */
  lemma ConflictingOverridesLowerPriorityWins(base: Vec3, lo: RegionEntry, hi: RegionEntry, vlo: Vec3, vhi: Vec3)
    requires lo.priority < hi.priority
    requires lo.modifiers == [Modifier("gravity", vlo, Override)]
    requires hi.modifiers == [Modifier("gravity", vhi, Override)]
    ensures SortByPriority([lo, hi]) == [hi, lo] && SortByPriority([hi, lo]) == [hi, lo]
    ensures Fold(base, SortByPriority([lo, hi]), "gravity") == vlo
    ensures Fold(base, SortByPriority([hi, lo]), "gravity") == vlo
  {
    SortPair(lo, hi, EntryPriority);
    SortPair(hi, lo, EntryPriority);
    assert [hi, lo][..1] == [hi];
    assert FirstModifier(lo.modifiers, "gravity") == Some(Modifier("gravity", vlo, Override));
    LastOverrideWins(base, [hi, lo], "gravity", 1);
  }

  // ---- Resolution ----

  /** `resolveProperties`: effective gravity and colour recomputed from the base
      values over the regions; nothing else changes. */
  function Resolve(comps: map<Kind, Component>, rs: seq<RegionEntry>): (r: map<Kind, Component>)
    ensures r.Keys == comps.Keys
  {
    var withGravity :=
      if PhysicsKind in comps && comps[PhysicsKind].Physics? then
        var p := comps[PhysicsKind];
        comps[PhysicsKind := p.(effectiveGravity := Fold(p.baseGravity, rs, "gravity"))]
      else comps;
    if MeshKind in withGravity && withGravity[MeshKind].Mesh? then
      var m := withGravity[MeshKind];
      withGravity[MeshKind := m.(color := ColorFold(m.baseColor, rs))]
    else withGravity
  }

  /** With no containing region the effective values revert to the base values;
      only the two derived fields ever change. */
  lemma ResolveTouchesOnlyDerivedFields(comps: map<Kind, Component>, rs: seq<RegionEntry>)
    ensures forall n | n in comps && n != PhysicsKind && n != MeshKind :: Resolve(comps, rs)[n] == comps[n]
    ensures PhysicsKind in comps && comps[PhysicsKind].Physics? ==>
      Resolve(comps, rs)[PhysicsKind] == comps[PhysicsKind].(effectiveGravity := Fold(comps[PhysicsKind].baseGravity, rs, "gravity"))
    ensures MeshKind in comps && comps[MeshKind].Mesh? ==>
      Resolve(comps, rs)[MeshKind] == comps[MeshKind].(color := ColorFold(comps[MeshKind].baseColor, rs))
    ensures rs == [] && PhysicsKind in comps && comps[PhysicsKind].Physics? ==>
      Resolve(comps, rs)[PhysicsKind].effectiveGravity == comps[PhysicsKind].baseGravity
    ensures rs == [] && MeshKind in comps && comps[MeshKind].Mesh? ==>
      Resolve(comps, rs)[MeshKind].color == comps[MeshKind].baseColor
  {
  }

  // ---- One tick ----

  /** What processing one entity does to it: a subject whose membership changed
      gets its effective properties recomputed; everything else is unchanged. */
  function StepBody(id: string, b: Body, regions: seq<RegionEntry>, cache: map<string, seq<string>>): Body {
    if IsSubject(b) && MembershipChanged(Previous(cache, id), Membership(b, regions)) then
      Body(b.state, Resolve(b.components, SortByPriority(Containing(Position(b), regions))))
    else b
  }

  /** What processing one entity does to the cache: a subject's entry becomes
      its new membership. */
  function StepCache(id: string, b: Body, regions: seq<RegionEntry>, cache: map<string, seq<string>>): map<string, seq<string>> {
    if IsSubject(b) then cache[id := Membership(b, regions)] else cache
  }

  /** The events processing one entity emits. */
  function StepNotices(id: string, b: Body, regions: seq<RegionEntry>, cache: map<string, seq<string>>): seq<Notice> {
    if IsSubject(b) then SubjectNotices(id, Previous(cache, id), Membership(b, regions)) else []
  }

  /** The membership cache after processing the given ids in order. */
  function CacheAfter(w: map<string, Body>, ids: seq<string>, regions: seq<RegionEntry>, cache: map<string, seq<string>>): map<string, seq<string>> {
    if ids == [] then cache
    else
      var c := CacheAfter(w, ids[..|ids| - 1], regions, cache);
      var id := ids[|ids| - 1];
      if id in w then StepCache(id, w[id], regions, c) else c
  }

  /** The events emitted while processing the given ids in order. */
  function NoticesAfter(w: map<string, Body>, ids: seq<string>, regions: seq<RegionEntry>, cache: map<string, seq<string>>): seq<Notice> {
    if ids == [] then []
    else
      var id := ids[|ids| - 1];
      NoticesAfter(w, ids[..|ids| - 1], regions, cache) + (if id in w then StepNotices(id, w[id], regions, cache) else [])
  }

  /** The level's entities after one tick. */
  function TickWorld(w: map<string, Body>, ids: seq<string>, cache: map<string, seq<string>>): map<string, Body> {
    var regions := CollectRegions(w, ids);
    map id | id in w :: StepBody(id, w[id], regions, cache)
  }

  /** Visiting one more id that was not visited before: its step sees the
      original cache entry, and the cache and the events grow by that step. */
  lemma VisitNext(w: map<string, Body>, ids: seq<string>, i: nat, regions: seq<RegionEntry>, cache: map<string, seq<string>>)
    requires i < |ids| && ids[i] !in ids[..i] && ids[i] in w
    ensures var c := CacheAfter(w, ids[..i], regions, cache);
      && StepBody(ids[i], w[ids[i]], regions, c) == StepBody(ids[i], w[ids[i]], regions, cache)
      && StepNotices(ids[i], w[ids[i]], regions, c) == StepNotices(ids[i], w[ids[i]], regions, cache)
      && CacheAfter(w, ids[..i + 1], regions, cache) == StepCache(ids[i], w[ids[i]], regions, c)
      && NoticesAfter(w, ids[..i + 1], regions, cache) == NoticesAfter(w, ids[..i], regions, cache) + StepNotices(ids[i], w[ids[i]], regions, cache)
  {
    assert ids[..i + 1][..i] == ids[..i];
    CacheAfterAt(w, ids[..i], regions, cache, ids[i]);
  }

  /** A level that agrees with `TickWorld` entity by entity is `TickWorld`. */
  lemma TickWorldPointwise(w: map<string, Body>, ids: seq<string>, cache: map<string, seq<string>>, w1: map<string, Body>)
    requires w1.Keys == w.Keys
    requires forall k | k in w :: w1[k] == StepBody(k, w[k], CollectRegions(w, ids), cache)
    ensures w1 == TickWorld(w, ids, cache)
  {
  }

  /** The membership cache after one tick. */
  function TickCache(w: map<string, Body>, ids: seq<string>, cache: map<string, seq<string>>): map<string, seq<string>> {
    CacheAfter(w, ids, CollectRegions(w, ids), cache)
  }

  /** The events of one tick, in emission order. */
  function TickNotices(w: map<string, Body>, ids: seq<string>, cache: map<string, seq<string>>): seq<Notice> {
    NoticesAfter(w, ids, CollectRegions(w, ids), cache)
  }

  /** After the ids are processed, a subject among them has its new
      membership cached and every other entry is as it was. */
  lemma {:induction false} CacheAfterAt(w: map<string, Body>, ids: seq<string>, regions: seq<RegionEntry>, cache: map<string, seq<string>>, id: string)
    ensures Previous(CacheAfter(w, ids, regions, cache), id)
      == if id in ids && id in w && IsSubject(w[id]) then Membership(w[id], regions) else Previous(cache, id)
  {
    if ids != [] {
      CacheAfterAt(w, ids[..|ids| - 1], regions, cache, id);
      assert ids == ids[..|ids| - 1] + [ids[|ids| - 1]];
    }
  }

  /** Every cached membership is a set of region ids without repetition. */
  predicate CacheWellFormed(cache: map<string, seq<string>>) {
    forall id | id in cache :: Distinct(cache[id])
  }

  /** A tick keeps the cache well formed, so the next tick's change test and
      events are the set comparisons of `EnterExactlyOnArrival`, `ExitExactlyOnDeparture` and `SilentIffUnchanged`. */
  lemma TickKeepsCacheWellFormed(w: map<string, Body>, ids: seq<string>, cache: map<string, seq<string>>)
    requires Distinct(ids) && CacheWellFormed(cache)
    ensures CacheWellFormed(TickCache(w, ids, cache))
  {
    var regions := CollectRegions(w, ids);
    var c := TickCache(w, ids, cache);
    CollectedIdsAreDistinct(w, ids);
    forall id | id in c ensures Distinct(c[id]) {
      CacheAfterAt(w, ids, regions, cache, id);
      if id in ids && id in w && IsSubject(w[id]) {
        ContainingIdsAreDistinct(Position(w[id]), regions);
      }
    }
  }
}
