/** The enumerations of julesv1/src/core/Constants.ts. */
module Constants {

  /** Lifecycle of an entity. `Unloaded` is declared by the source but never entered. */
  datatype LifecycleState = Created | Initialized | Active | Disabled | Unloaded | Destroyed

  /** How a region modifier combines with the running value. Modifiers come from
      level data, so a mode outside the three named ones can reach the resolver;
      `Unrecognised` stands for any such value. */
  datatype BlendMode = Override | Add | Multiply | Unrecognised

  /** The errors the core throws to its caller. */
  datatype LifecycleError =
    | DestroyedEntity(entityId: string)    // addComponent on a destroyed entity
    | DuplicateEntityId(entityId: string)  // createEntity with an id already in the level
}
