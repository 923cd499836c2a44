// The objects the operator and the agents exchange (pkg/apis/submariner/v1alpha1).
module Api {
  import opened Text

  const CONNECTOR_NAMESPACE := "external-services"
  const SSH_PORT := "2022"

  datatype Ref = Ref(namespace: string, name: string)

  datatype ForwarderRule = ForwarderRule(
    protocol: string, sourceIP: string, targetPort: string, destinationPort: string, destinationIP: string,
    gateway: Ref, gatewayIP: string, relayPort: string)

  datatype GatewayRule = GatewayRule(
    protocol: string, sourceIP: string, targetPort: string, destinationPort: string, destinationIP: string,
    forwarder: Ref, forwarderIP: string, relayPort: string)

  datatype ForwarderSpec = ForwarderSpec(
    egressRules: seq<ForwarderRule>, ingressRules: seq<ForwarderRule>, forwarderIP: string)

  datatype GatewaySpec = GatewaySpec(
    egressRules: seq<GatewayRule>, ingressRules: seq<GatewayRule>, gatewayIP: string)

  /** A condition of an object: never set, or set to one of the three statuses */
  datatype Condition = Missing | IsTrue | IsFalse | IsUnknown

  datatype Status = Status(updating: Condition, syncing: Condition, ruleGeneration: nat, syncGeneration: nat)

  const NO_STATUS := Status(Missing, Missing, 0, 0)
  const EMPTY_FORWARDER := ForwarderSpec([], [], "")
  const EMPTY_GATEWAY := GatewaySpec([], [], "")

  datatype Forwarder = Forwarder(spec: ForwarderSpec, status: Status)
  datatype Gateway = Gateway(spec: GatewaySpec, status: Status)

  /** An ExternalService; targetPort is the printed form of its IntOrString. */
  datatype Port = Port(protocol: string, port: int, targetPort: string)
  datatype Source = Source(service: Ref, sourceIP: string)
  datatype ExternalService = ExternalService(name: string, targetIP: string, sources: seq<Source>, ports: seq<Port>)

  datatype ServicePort = ServicePort(protocol: string, port: int)
  datatype Service = Service(clusterIP: string, ports: seq<ServicePort>)

  /** What one reconcile reads of the cluster besides forwarders and gateways. Absent entries are "not found". */
  datatype ClusterView = ClusterView(
    endpoints: map<Ref, seq<string>>, services: map<Ref, Service>, podIP: Option<string>)
  {
    /** getEndpointAddrs: a missing Endpoints object has no addresses. */
    function EndpointAddrs(service: Ref): seq<string> {
      if service in endpoints then endpoints[service] else []
    }

    /** A missing Service reads as the zero Service. */
    function ServiceFor(service: Ref): Service {
      if service in services then services[service] else Service("", [])
    }
  }
}
