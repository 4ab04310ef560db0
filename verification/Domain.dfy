/** The values shared by every component: task definitions, services, routes
    and containers, with the machine-integer range of the Go program. */
module Domain {
  const MIN_INT: int := -0x8000_0000_0000_0000
  const MAX_INT: int := 0x7fff_ffff_ffff_ffff

  /** Go's `int` on the 64-bit platforms the program ships for. */
  type GoInt = x: int | MIN_INT <= x <= MAX_INT

  /** 64-bit two's complement wrap-around. */
  function Wrap64(x: int): GoInt {
    (x - MIN_INT) % (MAX_INT - MIN_INT + 1) + MIN_INT
  }

  datatype Option<+T> = None | Some(value: T)

  datatype Route = Route(host: string, path: string, l4: string, port: GoInt, lb: string)

  datatype VolumeMount = VolumeMount(source: string, target: string, readOnly: bool)

  datatype PortSpec = PortSpec(container: GoInt, host: GoInt, protocol: string)

  datatype SecurityProfile = SecurityProfile(
    user: string,
    allowRoot: bool,
    capAdd: seq<string>,
    capDrop: seq<string>,
    noNewPrivileges: Option<bool>,
    readOnlyRootFs: bool,
    seccompProfile: string,
    appArmorProfile: string)

  /** Durations are integers of nanoseconds, as in the source. */
  datatype HealthCheck = HealthCheck(
    path: string,
    port: GoInt,
    command: seq<string>,
    interval: GoInt,
    timeout: GoInt,
    retries: GoInt,
    via: string,
    followRedirects: Option<bool>)

  datatype ResourceLimits = ResourceLimits(cpu: string, memory: string, pidsLimit: GoInt)

  datatype TaskDef = TaskDef(
    proxaVersion: string,
    project: string,
    name: string,
    image: string,
    replicas: GoInt,
    stateful: bool,
    security: SecurityProfile,
    env: map<string, string>,
    volumes: seq<VolumeMount>,
    expose: seq<PortSpec>,
    strategy: string,
    health: HealthCheck,
    resources: ResourceLimits,
    schedule: string,
    routes: seq<Route>)

  /** The part of a stored service the modelled code reads. */
  datatype Service = Service(project: string, name: string, spec: TaskDef)

  /** Identifies a service across projects. */
  datatype ServiceID = ServiceID(project: string, service: string)

  /** A container as the runtime lists it. */
  datatype ContainerInfo = ContainerInfo(id: string, name: string, state: string, labels: map<string, string>)

  /** Reading a missing key of a Go string map gives the empty string. */
  function Get(m: map<string, string>, key: string): string {
    if key in m then m[key] else ""
  }
}
