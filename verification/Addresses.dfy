/** The address of a Service inside the cluster, as it is printed and as it is read. */
module Addresses {
  import opened Text

  /** `%s.%s.svc:%d` */
  function Address(service: string, namespace: string, port: int): string {
    service + "." + namespace + ".svc:" + Itoa(port)
  }

  /** The text reads as the address of the service: between its dots stand the service, the namespace,
      and `svc` with a decimal that stands for the port. Names of Kubernetes hold no dots here. */
  predicate IsAddressOf(address: string, service: string, namespace: string, port: int) {
    '.' !in service && '.' !in namespace ==>
      var parts := Split(address, '.');
      && |parts| == 3 && parts[0] == service && parts[1] == namespace
      && |parts[2]| > 4 && parts[2][..4] == "svc:" && ReadsAs(parts[2][4..], port)
  }

  lemma AddressReads(service: string, namespace: string, port: int)
    ensures IsAddressOf(Address(service, namespace, port), service, namespace, port)
  {
    if '.' !in service && '.' !in namespace {
      var last := "svc:" + Itoa(port);
      assert Address(service, namespace, port) == service + ['.'] + (namespace + ['.'] + last);
      ItoaReads(port);
      NoDot(port);
      assert last[4..] == Itoa(port) && last[..4] == "svc:";
      SplitFirst(last, "", '.');
      SplitFirst(namespace, last, '.');
      SplitFirst(service, namespace + ['.'] + last, '.');
    }
  }

  lemma NoDot(port: int)
    ensures '.' !in "svc:" + Itoa(port)
  {
    DecimalReads(if port < 0 then -port else port);
  }

  /** A text reads as one address only. */
  lemma ReadsOnce(address: string, s: string, m: string, a: int, t: string, n: string, b: int)
    requires '.' !in s && '.' !in m && '.' !in t && '.' !in n
    requires IsAddressOf(address, s, m, a) && IsAddressOf(address, t, n, b)
    ensures s == t && m == n && a == b
  {
  }
}
