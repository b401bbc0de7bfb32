/** The component store: the abstract `Component` of julesv1/src/core/Component.ts
    and its five concrete classes (Transform, Mesh, Physics, Region, Logic).

    A component is a value here: one datatype variant per class, carrying the
    class's persisted and derived fields and the id of its owner entity.
    A data record (`ComponentSchema` in the source, a JSON object) is a
    `Schema`; an absent key is `None`. */
module Components {
  import opened Wrappers
  import opened Constants
  import opened Vectors

  /** One entry of a region's `modifiers` list. The value is a triple: the
      gravity fold reads it as a vector, the hue fold as an RGB colour. */
  datatype Modifier = Modifier(property: string, value: Vec3, blendMode: BlendMode)

  datatype Kind = TransformKind | MeshKind | PhysicsKind | RegionKind | LogicKind

  /** Identity of a compiled script function attached to a Logic component. */
  type ScriptHandle = nat

  datatype Component =
    | Transform(owner: string, position: Vec3, rotation: Quat, scale: Vec3, parentId: Option<string>)
    | Mesh(owner: string, meshType: string, baseColor: Color, alpha: real, color: Color)
    | Physics(owner: string, velocity: Vec3, mass: real, baseGravity: Vec3, effectiveGravity: Vec3)
    | Region(owner: string, priority: real, modifiers: seq<Modifier>, size: Vec3)
    | Logic(owner: string, code: string, script: Option<ScriptHandle>)
  {
    function Kind(): Kind {
      match this
      case Transform(_, _, _, _, _) => TransformKind
      case Mesh(_, _, _, _, _) => MeshKind
      case Physics(_, _, _, _, _) => PhysicsKind
      case Region(_, _, _, _) => RegionKind
      case Logic(_, _, _) => LogicKind
    }

    /** The read-only `name` of the concrete class: its key in the entity's map. */
    function Name(): string {
      NameOf(Kind())
    }
  }

  function NameOf(k: Kind): string {
    match k
    case TransformKind => "Transform"
    case MeshKind => "Mesh"
    case PhysicsKind => "Physics"
    case RegionKind => "Region"
    case LogicKind => "Logic"
  }

  /** Distinct classes have distinct names, so keying by name keeps at most one
      component of each class on an entity. */
  lemma NamesAreDistinct(k1: Kind, k2: Kind)
    ensures NameOf(k1) == NameOf(k2) <==> k1 == k2
  {
  }

  /** The data record each class reads in `deserialize` and writes in `serialize`. */
  datatype Schema =
    | TransformData(position: Option<Vec3>, rotation: Option<Quat>, scale: Option<Vec3>, parentId: Option<string>)
    | MeshData(meshType: Option<string>, color: Option<Color>, alpha: Option<real>)
    | PhysicsData(velocity: Option<Vec3>, mass: Option<real>, gravity: Option<Vec3>)
    | RegionData(priority: Option<real>, modifiers: Option<seq<Modifier>>, size: Option<Vec3>)
    | LogicData(code: Option<string>)

  const DefaultGravity: Vec3 := Vec3(0.0, -9.81, 0.0)

  /** The field initialisers of each class, before any data is read. */
  function Default(k: Kind, owner: string): (c: Component)
    ensures c.Kind() == k && c.owner == owner
  {
    match k
    case TransformKind => Transform(owner, Zero, IdentityRotation, One, None)
    case MeshKind => Mesh(owner, "box", White, 1.0, White)
    case PhysicsKind => Physics(owner, Zero, 1.0, DefaultGravity, DefaultGravity)
    case RegionKind => Region(owner, 0.0, [], Vec3(10.0, 10.0, 10.0))
    case LogicKind => Logic(owner, "", None)
  }

  /** A non-empty string is truthy. */
  predicate TruthyString(s: Option<string>) {
    s.Some? && s.value != ""
  }

  /** A number is truthy unless it is 0 (NaN is not modelled). */
  predicate TruthyNumber(n: Option<real>) {
    n.Some? && n.value != 0.0
  }

  /** Each class's `deserialize`: assigns the fields whose keys are present
      (for some keys, only when truthy). A record of another class carries none
      of this class's keys, so it changes nothing. */
  function Deserialize(c: Component, d: Schema): Component {
    match (c, d)
    case (Transform(o, pos, rot, scl, parent), TransformData(dp, dr, ds, dparent)) =>
      Transform(o,
                if dp.Some? then dp.value else pos,
                if dr.Some? then dr.value else rot,
                if ds.Some? then ds.value else scl,
                if TruthyString(dparent) then dparent else parent)
    case (Mesh(o, ty, base, alpha, color), MeshData(dty, dcolor, dalpha)) =>
      Mesh(o,
           if TruthyString(dty) then dty.value else ty,
           if dcolor.Some? then dcolor.value else base,
           if dalpha.Some? then dalpha.value else alpha,
           if dcolor.Some? then dcolor.value else color)
    case (Physics(o, v, m, g, eg), PhysicsData(dv, dm, dg)) =>
      Physics(o,
              if dv.Some? then dv.value else v,
              if TruthyNumber(dm) then dm.value else m,
              if dg.Some? then dg.value else g,
              if dg.Some? then dg.value else eg)
    case (Region(o, p, mods, size), RegionData(dp, dmods, dsize)) =>
      Region(o,
             if dp.Some? then dp.value else p,
             if dmods.Some? then dmods.value else mods,
             if dsize.Some? then dsize.value else size)
    case (Logic(o, code, script), LogicData(dcode)) =>
      Logic(o, if TruthyString(dcode) then dcode.value else code, script)
    case _ => c
  }

  /** Each class's `serialize`: the persisted fields only. */
  function Serialize(c: Component): Schema {
    match c
    case Transform(_, pos, rot, scl, parent) => TransformData(Some(pos), Some(rot), Some(scl), parent)
    case Mesh(_, ty, base, alpha, _) => MeshData(Some(ty), Some(base), Some(alpha))
    case Physics(_, v, m, g, _) => PhysicsData(Some(v), Some(m), Some(g))
    case Region(_, p, mods, size) => RegionData(Some(p), Some(mods), Some(size))
    case Logic(_, code, _) => LogicData(Some(code))
  }

  /** `new Ctor(owner, data)`: the constructor binds the owner, starts from the
      field defaults and runs `deserialize` only when data is supplied. */
  function Construct(k: Kind, owner: string, data: Option<Schema>): (c: Component)
    ensures c.Kind() == k && c.owner == owner
    ensures data.None? ==> c == Default(k, owner)
  {
    match data
    case None => Default(k, owner)
    case Some(d) => Deserialize(Default(k, owner), d)
  }

  /** The class a record belongs to (the one whose `serialize` writes it). */
  function SchemaKind(d: Schema): Kind {
    match d
    case TransformData(_, _, _, _) => TransformKind
    case MeshData(_, _, _) => MeshKind
    case PhysicsData(_, _, _) => PhysicsKind
    case RegionData(_, _, _) => RegionKind
    case LogicData(_) => LogicKind
  }

  /** `deserialize` never changes the class or the owner. */
  lemma DeserializeKeepsIdentity(c: Component, d: Schema)
    ensures Deserialize(c, d).Kind() == c.Kind() && Deserialize(c, d).owner == c.owner
  {
  }

  /** The record `{}`, as read by each class. */
  function EmptySchema(k: Kind): Schema {
    match k
    case TransformKind => TransformData(None, None, None, None)
    case MeshKind => MeshData(None, None, None)
    case PhysicsKind => PhysicsData(None, None, None)
    case RegionKind => RegionData(None, None, None)
    case LogicKind => LogicData(None)
  }

  /** A record with no keys, or one of another class, leaves every field as it was. */
  lemma DeserializeWithoutKeys(c: Component, d: Schema)
    requires SchemaKind(d) != c.Kind() || d == EmptySchema(c.Kind())
    ensures Deserialize(c, d) == c
  {
  }

  // ---- Physics ----

  /** With `gravity`, both the base and the effective gravity take it; a falsy
      mass (0) and an absent velocity leave the old values. */
  lemma PhysicsDeserialize(c: Component, v: Option<Vec3>, m: Option<real>, g: Option<Vec3>)
    requires c.Physics?
    ensures var r := Deserialize(c, PhysicsData(v, m, g));
      && r.Physics?
      && (g.Some? ==> r.baseGravity == g.value && r.effectiveGravity == g.value)
      && (g.None? ==> r.baseGravity == c.baseGravity && r.effectiveGravity == c.effectiveGravity)
      && (m == Some(0.0) || m.None? ==> r.mass == c.mass)
      && (v.None? ==> r.velocity == c.velocity)
  {
  }

  /** `serialize` writes velocity, mass and base gravity, never the effective gravity. */
  lemma PhysicsSerializeOmitsEffectiveGravity(c: Component, eg: Vec3)
    requires c.Physics?
    ensures Serialize(c) == PhysicsData(Some(c.velocity), Some(c.mass), Some(c.baseGravity))
    ensures Serialize(c.(effectiveGravity := eg)) == Serialize(c)
  {
  }

  /** Reloading reproduces velocity and base gravity, recomputes the effective
      gravity from the base, and keeps a non-zero mass (a zero mass reloads as
      the previous value). */
  lemma PhysicsRoundTrip(c: Component, x: Component)
    requires c.Physics? && x.Physics?
    ensures var r := Deserialize(x, Serialize(c));
      && r.Physics? && r.owner == x.owner
      && r.velocity == c.velocity && r.baseGravity == c.baseGravity
      && r.effectiveGravity == c.baseGravity
      && r.mass == (if c.mass != 0.0 then c.mass else x.mass)
  {
  }

  // ---- Region ----

  /** A defined priority is taken even when it is 0; modifiers and size only when present. */
  lemma RegionDeserialize(c: Component, p: Option<real>, mods: Option<seq<Modifier>>, size: Option<Vec3>)
    requires c.Region?
    ensures var r := Deserialize(c, RegionData(p, mods, size));
      && r.Region?
      && r.priority == (if p.Some? then p.value else c.priority)
      && (mods.None? ==> r.modifiers == c.modifiers)
      && (size.None? ==> r.size == c.size)
  {
  }

  /** Priority, modifiers and size survive a save and reload unchanged. */
  lemma RegionRoundTrip(c: Component, x: Component)
    requires c.Region? && x.Region?
    ensures Deserialize(x, Serialize(c)) == Region(x.owner, c.priority, c.modifiers, c.size)
  {
  }

  // ---- Transform ----

  /** Each field is replaced only when present; an empty parent id is ignored. */
  lemma TransformDeserialize(c: Component, parent: string)
    requires c.Transform?
    ensures Deserialize(c, TransformData(None, None, None, Some(""))) == c
    ensures parent != "" ==> Deserialize(c, TransformData(None, None, None, Some(parent))) == c.(parentId := Some(parent))
  {
  }

  /** Position, rotation and scale survive a reload; the parent id does when it
      is a non-empty string, and otherwise the target's parent id stays. */
  lemma TransformRoundTrip(c: Component, x: Component)
    requires c.Transform? && x.Transform?
    ensures var r := Deserialize(x, Serialize(c));
      && r.Transform? && r.owner == x.owner
      && r.position == c.position && r.rotation == c.rotation && r.scale == c.scale
      && r.parentId == (if TruthyString(c.parentId) then c.parentId else x.parentId)
  {
  }

  // ---- Mesh ----

  /** A colour sets both the base and the effective colour; alpha is taken when
      defined (even 0); the mesh type only when non-empty. */
  lemma MeshDeserialize(c: Component, ty: Option<string>, color: Option<Color>, alpha: Option<real>)
    requires c.Mesh?
    ensures var r := Deserialize(c, MeshData(ty, color, alpha));
      && r.Mesh?
      && (color.Some? ==> r.baseColor == color.value && r.color == color.value)
      && r.alpha == (if alpha.Some? then alpha.value else c.alpha)
      && r.meshType == (if TruthyString(ty) then ty.value else c.meshType)
  {
  }

  /** `serialize` writes the base colour, never the region-modified colour. */
  lemma MeshSerializeOmitsEffectiveColor(c: Component, color: Color)
    requires c.Mesh?
    ensures Serialize(c.(color := color)) == Serialize(c)
  {
  }

  /** Mesh type (when non-empty), base colour and alpha survive a reload, and the
      effective colour restarts from the base colour. */
  lemma MeshRoundTrip(c: Component, x: Component)
    requires c.Mesh? && x.Mesh?
    ensures var r := Deserialize(x, Serialize(c));
      && r.Mesh? && r.owner == x.owner
      && r.baseColor == c.baseColor && r.color == c.baseColor && r.alpha == c.alpha
      && r.meshType == (if c.meshType != "" then c.meshType else x.meshType)
  {
  }

  // ---- Logic ----

  /** Only `code` is persisted; the compiled script is not, and reloading a
      non-empty code reproduces it without attaching a script. */
  lemma LogicRoundTrip(c: Component, x: Component, h: Option<ScriptHandle>)
    requires c.Logic? && x.Logic?
    ensures Serialize(c.(script := h)) == LogicData(Some(c.code))
    ensures var r := Deserialize(x, Serialize(c));
      && r.Logic? && r.script == x.script
      && r.code == (if c.code != "" then c.code else x.code)
  {
  }

  /** Every class's defaults come back unchanged from a save and reload, so a
      freshly constructed component persists faithfully. */
  lemma {:induction false} DefaultsSurviveReload(k: Kind, owner: string)
    ensures Construct(k, owner, Some(Serialize(Default(k, owner)))) == Default(k, owner)
  {
  }
}
