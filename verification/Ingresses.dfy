/** The parts of an Ingress and of its cluster that the controller reads. */
module Ingresses {

  /** A port of a Service. */
  datatype ServicePort = ServicePort(name: string, port: int)

  /** How a path names a port: by name or by number. */
  datatype PortRef = PortRef(name: string, number: int)

  datatype BackendRef = BackendRef(service: string, port: PortRef)

  datatype PathRule = PathRule(path: string, backend: BackendRef)

  datatype Rule = Rule(host: string, paths: seq<PathRule>)

  datatype Ingress = Ingress(name: string, namespace: string, rules: seq<Rule>)

  /** `SSLCert`: the files of a host; `noPass` says that it has any. */
  datatype SslCert = SslCert(key: string, crt: string, noPass: bool)

  const NO_CERT := SslCert("", "", false)

  /** The Services of the namespace of the Ingress, by name. */
  type Cluster = map<string, seq<ServicePort>>

  /** Kubernetes gives no Service an empty name, and none with blanks, commas or colons. */
  predicate ValidCluster(cluster: Cluster) {
    forall s :: s in cluster ==> s != "" && forall c :: c in s ==> PlainChar(c)
  }

  /** The characters of a DNS label or subdomain. */
  predicate PlainChar(c: char) {
    'a' <= c <= 'z' || '0' <= c <= '9' || c == '-' || c == '.'
  }
}
