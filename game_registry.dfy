/**
 * The server's game registry: a map from game id to module factory and the
 * list of registered metadata, filled at start-up by `register`. Only
 * type-racer is registered.
 */
module GameRegistry {
  import opened Wrappers
  import opened Protocol
  import opened GameEngine

  const TypeRacerMeta: GameMeta := GameMeta(
    "type-racer", "Type Racer", "Race to type a paragraph the fastest!", 1, 10, TypeRacerTiming)

  class Registry {
    /** Game id to the module its factory creates. */
    var modules: map<string, ModuleKind>
    /** Registered metadata in registration order. */
    var metas: seq<GameMeta>

    /** The registry as the server module's top level leaves it: type-racer registered, nothing else. */
    constructor Default()
      ensures modules == map[TypeRacer.GameId := TypeRacerModule]
      ensures metas == [TypeRacerMeta]
    {
      modules := map[];
      metas := [];
      new;
      Register(TypeRacerMeta, TypeRacerModule);
    }

    /** `register(meta, factory)`: store the factory under the meta's id and append the meta. */
    method Register(meta: GameMeta, kind: ModuleKind)
      modifies this
      ensures modules == old(modules)[meta.gameId := kind]
      ensures metas == old(metas) + [meta]
    {
      modules := modules[meta.gameId := kind];
      metas := metas + [meta];
    }

    /** `createGameModule(gameId)`: a fresh module when the id is registered, else null. */
    function CreateGameModule(gameId: string): (r: Option<ModuleKind>)
      reads this
      ensures r.Some? <==> gameId in modules
      ensures r.Some? ==> r.value == modules[gameId]
    {
      if gameId in modules then Some(modules[gameId]) else None
    }

    /** `getAvailableGames()`: the registered metadata, oldest first. */
    function GetAvailableGames(): (r: seq<GameMeta>)
      reads this
      ensures |r| == |metas| && forall i :: 0 <= i < |r| ==> r[i] == metas[i]
    {
      metas
    }
  }

  /** With the default registration, type-racer is found and reaction-speed is not. */
  lemma DefaultLookups(reg: Registry)
    requires reg.modules == map[TypeRacer.GameId := TypeRacerModule]
    ensures reg.CreateGameModule("type-racer") == Some(TypeRacerModule)
    ensures reg.CreateGameModule("reaction-speed").None?
    ensures forall id :: reg.CreateGameModule(id).Some? ==> id == "type-racer"
  {
  }
}
