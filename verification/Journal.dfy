/** A ghost record of one run, shared by the container runtime and the probe
    manager so that their effects have a common order. */
module Journal {
  import opened Domain

  /** The containers that exist, by ID. */
  type World = map<string, ContainerInfo>

  datatype Event =
    | Called(world: World)              // a runtime call left this world behind
    | Saw(id: string, healthy: bool)    // a snapshot of a tracked container was read

  /** The runtime calls that change something, with their arguments. */
  datatype Call =
    | Pull(image: string)
    | Create(name: string, labels: map<string, string>)
    | Start(id: string)
    | Stop(id: string)
    | Remove(id: string)
    | Rename(id: string, name: string)

  /** A call and whether it reported success. */
  datatype Step = Step(call: Call, ok: bool)

  class Log {
    ghost var events: seq<Event>
    ghost var calls: seq<Step>

    constructor ()
      ensures events == [] && calls == []
    {
      events, calls := [], [];
    }
  }
}
