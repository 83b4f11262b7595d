/** The lattice events that wadm receives, as parsed values. */
module Events {
  import opened Wrappers
  import opened LatticeState

  datatype Claims = Claims(name: string, issuer: string)

  datatype ComponentDescription = ComponentDescription(
    id: Id, imageRef: string, name: Option<string>, annotations: Option<Annotations>, maxInstances: nat)

  datatype ProviderDescription = ProviderDescription(
    id: Id, imageRef: Option<string>, name: Option<string>, annotations: Option<Annotations>)

  datatype Event =
    | ComponentScaled(componentId: Id, hostId: Id, annotations: Annotations, maxInstances: nat,
                      imageRef: string, claims: Option<Claims>)
    | ComponentScaleFailed(componentId: Id, hostId: Id, annotations: Annotations, maxInstances: nat,
                           imageRef: string, claims: Option<Claims>, error: string)
    | HostHeartbeat(hostId: Id, friendlyName: string, labels: map<string, string>,
                    components: seq<ComponentDescription>, providers: seq<ProviderDescription>,
                    uptimeSeconds: nat, hostVersion: string)
    | HostStarted(hostId: Id, friendlyName: string, labels: map<string, string>)
    | HostStopped(hostId: Id, labels: map<string, string>)
    | ProviderStarted(providerId: Id, hostId: Id, annotations: Annotations, imageRef: string,
                      claims: Option<Claims>)
    | ProviderStartFailed(providerId: Id, hostId: Id, imageRef: string, error: string)
    | ProviderStopped(providerId: Id, hostId: Id)
    | ProviderHealthCheckStatus(providerId: Id, hostId: Id)
    | ProviderHealthCheckPassed(providerId: Id, hostId: Id)
    | ProviderHealthCheckFailed(providerId: Id, hostId: Id)
    | ConfigSet(configName: string)
    | ConfigDeleted(configName: string)
    | LinkdefSet
    | LinkdefDeleted
}
