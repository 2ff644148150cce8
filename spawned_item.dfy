/** Spawnable item archetypes: the enumeration of waste and animal kinds and the
    per-archetype data record the item catalog is built from. */
module SpawnedItems {

  /** The kinds of spawnable items, in declaration order. */
  datatype SpawnType =
    | MetalWaste
    | PlasticWaste
    | OrganicWaste
    | ElectronicWaste
    | HazardousWaste
    | InertWaste
    | Animal

  /** Identity of a prefab asset; the asset itself is engine data. */
  type Prefab = nat

  /** Minimum level an archetype spawns at when its asset does not override it. */
  const DefaultMinLevel: int := 1

  /** One archetype of the catalog: what to instantiate, from which level on, and of which kind. */
  datatype SpawnedItem = SpawnedItem(prefab: Prefab, minLevel: int, spawnType: SpawnType)

  /** A freshly created archetype record, before any of its fields is overridden. */
  function NewSpawnedItem(prefab: Prefab, spawnType: SpawnType): (item: SpawnedItem)
    ensures item.minLevel == DefaultMinLevel
    ensures item.prefab == prefab && item.spawnType == spawnType
  {
    SpawnedItem(prefab, DefaultMinLevel, spawnType)
  }
}
