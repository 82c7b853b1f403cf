/** The service-definition types shared by the controller and the command line client
    (api/types/types.go). */
module Types {

  datatype Option<+T> = None | Some(value: T)

  datatype Result<+T> = Ok(value: T) | Err(error: string) {
    predicate IsFailure() { Err? }

    function PropagateFailure<U>(): Result<U>
      requires Err?
    {
      Err(error)
    }

    function Extract(): T
      requires Ok?
    {
      value
    }
  }

  datatype Headless = Headless(name: string, size: int, targetPort: int)

  datatype Target = Target(name: string, selector: string, targetPort: int, service: string)

  datatype ServiceInterface = ServiceInterface(
    address: string,
    protocol: string,
    port: int,
    eventChannel: bool,
    aggregate: string,
    headless: Option<Headless>,
    targets: seq<Target>,
    origin: string,
    alias: string)
  {
    /** Everything that is not learned from a peer is local: the user's own services (no origin)
        and annotated ones. */
    predicate IsLocal() { IsLocalOrigin(origin) }
  }

  /** The content of the service-definition file: address to definition. */
  type Services = map<string, ServiceInterface>

  const CONTAINER_SELECTOR := "internal.skupper.io/container"
  const HOST_SELECTOR := "internal.skupper.io/host-service"

  predicate IsLocalOrigin(origin: string) { origin == "" || origin == "annotation" }

  /** The file key invariant: every entry is stored under its own address. */
  ghost predicate KeyedByAddress(services: Services) {
    forall n :: n in services ==> services[n].address == n
  }

  /** Nanoseconds on the controller's clock. */
  type Time = int

  const SECOND: Time := 1_000_000_000
}
