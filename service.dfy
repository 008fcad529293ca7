/**
 * The registry of pluggable services: a table from a service type to the
 * factory that builds that kind of service. A factory is a function value;
 * what it builds and which errors it reports are its own business.
 */
module Service {
  import opened Wrappers

  /** The options a service is created from; `settings` stands for everything but the type. */
  datatype Options = Options(serviceType: string, settings: string)

  datatype ServiceError =
    | UnsupportedServiceType        // no factory is registered for the requested type
    | FactoryError(message: string) // an error reported by a factory

  const ErrUnsupportedServiceType: ServiceError := UnsupportedServiceType

  /** The pair a factory returns: an optional service and an optional error. */
  datatype Outcome<S> = Outcome(service: Option<S>, err: Option<ServiceError>)

  type ServiceFactory<S> = Options -> Outcome<S>

  class Registry<S> {
    var factories: map<string, ServiceFactory<S>>

    /** A registry with no factories. */
    constructor ()
      ensures factories == map[]
    {
      factories := map[];
    }

    /** Registers `creator` for `serviceType`, replacing any earlier entry for that type. */
    method Register(serviceType: string, creator: ServiceFactory<S>)
      modifies this
      ensures factories == old(factories)[serviceType := creator]
      ensures factories.Keys == old(factories).Keys + {serviceType}
      ensures forall t :: t in old(factories) && t != serviceType ==> factories[t] == old(factories)[t]
    {
      factories := factories[serviceType := creator];
    }

    /**
     * Creates a service of the type the options name: an unsupported-type error
     * when no factory is registered for it, otherwise whatever that factory
     * returns for the same options. The table is only read.
     */
    method Create(options: Options) returns (service: Option<S>, err: Option<ServiceError>)
      ensures options.serviceType !in factories ==>
        service == None && err == Some(ErrUnsupportedServiceType)
      ensures options.serviceType in factories ==>
        Outcome(service, err) == factories[options.serviceType](options)
    {
      if options.serviceType !in factories {
        return None, Some(ErrUnsupportedServiceType);
      }
      var createConnection := factories[options.serviceType];
      var outcome := createConnection(options);
      service, err := outcome.service, outcome.err;
    }
  }

  /**
   * What callers can rely on from the contracts alone: a fresh registry knows no
   * type, a registration is seen by the next create of that type, registering
   * another type leaves it unaffected, and a later registration of the same
   * type replaces it.
   */
  method RegisterThenCreate<S>(f: ServiceFactory<S>, g: ServiceFactory<S>, options: Options, other: string)
    returns (before: Outcome<S>, between: Outcome<S>, after: Outcome<S>)
    requires other != options.serviceType
    ensures before == Outcome(None, Some(ErrUnsupportedServiceType))
    ensures between == f(options)
    ensures after == g(options)
  {
    var registry := new Registry<S>();
    var s, e := registry.Create(options);
    before := Outcome(s, e);
    registry.Register(options.serviceType, f);
    registry.Register(other, g);
    s, e := registry.Create(options);
    between := Outcome(s, e);
    registry.Register(options.serviceType, g);
    s, e := registry.Create(options);
    after := Outcome(s, e);
  }
}
