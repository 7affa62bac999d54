/** `internal/controller/nginx.go`: the certificate files of an Ingress and the table from host to
    certificate and key that its server blocks are rendered with. */
module Tls {
  import opened Results
  import opened Ingresses
  import opened Validators
  import Translate
  import Template

  const SSL_PATH := "/etc/nginx/ssl"
  const TLS_CRT := "tls.crt"
  const TLS_KEY := "tls.key"

  type Bytes = seq<bv8>
  type Secret = map<string, Bytes>

  /** An entry of `spec.tls`. */
  datatype TlsEntry = TlsEntry(hosts: seq<string>, secretName: string)

  /** One host of one entry, with the data its secret decodes to, if it does. */
  datatype Mention = Mention(host: string, data: Option<Secret>)

  function File(owner: string, ns: string, key: string): string {
    SSL_PATH + "/" + owner + "-" + ns + "-" + key
  }

  lemma FileInjective(owner1: string, owner2: string, ns: string, key1: string, key2: string)
    requires File(owner1, ns, key1) == File(owner2, ns, key2)
    ensures owner1 == owner2 ==> key1 == key2
    ensures key1 == key2 ==> owner1 == owner2
  {
    var p := SSL_PATH + "/";
    var f1, f2 := File(owner1, ns, key1), File(owner2, ns, key2);
    if owner1 == owner2 {
      assert key1 == f1[|p + owner1 + "-" + ns + "-"|..];
      assert key2 == f2[|p + owner1 + "-" + ns + "-"|..];
    }
    if key1 == key2 {
      assert |f1| == |p| + |owner1| + 1 + |ns| + 1 + |key1|;
      assert |f2| == |p| + |owner2| + 1 + |ns| + 1 + |key1|;
      assert owner1 == f1[|p|..|p| + |owner1|];
      assert owner2 == f2[|p|..|p| + |owner1|];
    }
  }

  function Lookup(secrets: map<string, Secret>, name: string): Option<Secret> {
    if name in secrets then Some(secrets[name]) else None
  }

  function EntryMentions(e: TlsEntry, secrets: map<string, Secret>): seq<Mention> {
    seq(|e.hosts|, i requires 0 <= i < |e.hosts| => Mention(e.hosts[i], Lookup(secrets, e.secretName)))
  }

  /** The hosts in the order in which the two loops visit them. */
  function Mentions(tls: seq<TlsEntry>, secrets: map<string, Secret>): seq<Mention> {
    if tls == [] then []
    else Mentions(tls[..|tls| - 1], secrets) + EntryMentions(tls[|tls| - 1], secrets)
  }

  function Pick(data: Secret, key: string, file: string, otherwise: string): string {
    if key in data then file else otherwise
  }

  /** The certificate after the files of one secret. */
  function Filled(cert: SslCert, owner: string, ns: string, data: Secret): SslCert {
    cert.(crt := Pick(data, TLS_CRT, File(owner, ns, TLS_CRT), cert.crt),
          key := Pick(data, TLS_KEY, File(owner, ns, TLS_KEY), cert.key))
  }

  /** What a host is given then. */
  function Updated(cert: SslCert, owner: string, ns: string, data: Secret): SslCert {
    Filled(cert, owner, ns, data).(noPass := true)
  }

  predicate Allowed(owner: string, ns: string, data: Secret, refused: set<string>) {
    forall k :: k in data ==> File(owner, ns, k) !in refused
  }

  /** These keys of the secret are on disk, each in its own file. */
  predicate Stored(files: map<string, Bytes>, owner: string, ns: string, data: Secret, keys: set<string>)
    requires keys <= data.Keys
  {
    forall k :: k in keys ==> File(owner, ns, k) in files && files[File(owner, ns, k)] == data[k]
  }

  /** The files of a secret. */
  function Rendered(owner: string, ns: string, data: Secret): map<string, Bytes> {
    FilesDiffer(owner, ns, data);
    map k | k in data :: File(owner, ns, k) := data[k]
  }

  lemma FilesDiffer(owner: string, ns: string, data: Secret)
    ensures forall k, l :: k in data && l in data && File(owner, ns, k) == File(owner, ns, l) ==> k == l
  {
    forall k, l | k in data && l in data && File(owner, ns, k) == File(owner, ns, l) ensures k == l {
      FileInjective(owner, owner, ns, k, l);
    }
  }

  lemma StoredIsRendered(before: map<string, Bytes>, after: map<string, Bytes>, owner: string, ns: string, data: Secret)
    requires Stored(after, owner, ns, data, data.Keys) && OthersKept(before, after, owner, ns, data)
    ensures after == before + Rendered(owner, ns, data)
  {
    FilesDiffer(owner, ns, data);
    var r := Rendered(owner, ns, data);
    forall f ensures f in after <==> f in before + r {}
    forall f | f in after ensures after[f] == (before + r)[f] {}
  }

  /** No file but those of the secret has changed. */
  ghost predicate OthersKept(before: map<string, Bytes>, after: map<string, Bytes>, owner: string, ns: string, data: Secret) {
    forall f :: (forall k :: k in data ==> f != File(owner, ns, k)) ==>
                  (f in after <==> f in before) && (f in after ==> after[f] == before[f])
  }

  /** `GetDnsRegex` finds a name in the host: its pattern is that of `IsValidHost`. */
  predicate HasDns(host: string) {
    exists d | 0 <= d < |host| :: DotAt(host, d)
  }

  /** The mention can be processed. */
  predicate Loads(m: Mention, ns: string, refused: set<string>) {
    && m.data.Some?
    && (m.data.value != map[] ==> HasDns(m.host))
    && Allowed(m.host, ns, m.data.value, refused)
  }

  /** How many mentions are processed before one cannot be. */
  function Stop(ms: seq<Mention>, ns: string, refused: set<string>): (n: nat)
    ensures n <= |ms|
  {
    if ms == [] then 0
    else
      var m := |ms| - 1;
      var n := Stop(ms[..m], ns, refused);
      if n == m && Loads(ms[m], ns, refused) then m + 1 else n
  }

  /** The mentions before that place can be processed, and the one there, if there is one, cannot. */
  lemma {:induction false} StopIsFirst(ms: seq<Mention>, ns: string, refused: set<string>)
    ensures var n := Stop(ms, ns, refused);
            && (forall i :: 0 <= i < n ==> Loads(ms[i], ns, refused))
            && (n < |ms| ==> !Loads(ms[n], ns, refused))
  {
    if ms != [] {
      StopIsFirst(ms[..|ms| - 1], ns, refused);
    }
  }

  lemma {:induction false} StopAppend(a: seq<Mention>, b: seq<Mention>, ns: string, refused: set<string>)
    ensures Stop(a + b, ns, refused) ==
            if Stop(a, ns, refused) < |a| then Stop(a, ns, refused) else |a| + Stop(b, ns, refused)
    decreases |b|
  {
    if b == [] {
      assert a + b == a;
    } else {
      var m := |b| - 1;
      assert (a + b)[..|a| + m] == a + b[..m];
      StopAppend(a, b[..m], ns, refused);
    }
  }

  /** The certificate after these mentions; it is never reset between them. */
  function Carried(ms: seq<Mention>, ns: string): SslCert {
    if ms == [] then NO_CERT
    else
      var m := ms[|ms| - 1];
      var before := Carried(ms[..|ms| - 1], ns);
      if m.data.Some? then Updated(before, m.host, ns, m.data.value) else before
  }

  /** The files after these mentions. */
  function FilesAfter(ms: seq<Mention>, ns: string, start: map<string, Bytes>): map<string, Bytes> {
    if ms == [] then start
    else
      var m := ms[|ms| - 1];
      var before := FilesAfter(ms[..|ms| - 1], ns, start);
      if m.data.Some? then before + Rendered(m.host, ns, m.data.value) else before
  }

  function Table(ms: seq<Mention>, ns: string): map<string, SslCert> {
    if ms == [] then map[] else Table(ms[..|ms| - 1], ns)[ms[|ms| - 1].host := Carried(ms, ns)]
  }

  /** Where the two loops stand after these mentions. */
  predicate Reached(ms: seq<Mention>, ns: string, start: map<string, Bytes>,
                    cert: SslCert, table: map<string, SslCert>, files: map<string, Bytes>)
  {
    cert == Carried(ms, ns) && table == Table(ms, ns) && files == FilesAfter(ms, ns, start)
  }

  /** All of these mentions were processed. */
  predicate Passed(ms: seq<Mention>, ns: string, refused: set<string>, start: map<string, Bytes>,
                   cert: SslCert, table: map<string, SslCert>, files: map<string, Bytes>)
  {
    Stop(ms, ns, refused) == |ms| && Reached(ms, ns, start, cert, table, files)
  }

  /** One of these mentions could not be. */
  predicate FailedAt(ms: seq<Mention>, ns: string, refused: set<string>, table: map<string, SslCert>) {
    Stop(ms, ns, refused) < |ms| && table == Table(ms[..Stop(ms, ns, refused)], ns)
  }

  lemma Extend(ms: seq<Mention>, m: Mention, ns: string, start: map<string, Bytes>,
               cert: SslCert, table: map<string, SslCert>, files: map<string, Bytes>)
    requires Reached(ms, ns, start, cert, table, files) && m.data.Some?
    ensures var cert1 := Updated(cert, m.host, ns, m.data.value);
            Reached(ms + [m], ns, start, cert1, table[m.host := cert1], files + Rendered(m.host, ns, m.data.value))
  {
    assert (ms + [m])[..|ms|] == ms;
  }

  /** The table that gives every host of the rules the same cert. */
  function SamePair(rules: seq<Rule>, cert: SslCert): map<string, SslCert> {
    map r | r in rules :: r.host := cert
  }

  lemma SamePairStep(rules: seq<Rule>, i: nat, cert: SslCert)
    requires i < |rules|
    ensures SamePair(rules[..i + 1], cert) == SamePair(rules[..i], cert)[rules[i].host := cert]
  {
    assert rules[..i + 1] == rules[..i] + [rules[i]];
  }

  lemma StopStep(ms: seq<Mention>, j: nat, ns: string, refused: set<string>)
    requires j < |ms| && Stop(ms[..j], ns, refused) == j
    ensures Loads(ms[j], ns, refused) ==> Stop(ms[..j + 1], ns, refused) == j + 1
    ensures !Loads(ms[j], ns, refused) ==> Stop(ms, ns, refused) == j
  {
    assert ms[..j + 1][..j] == ms[..j];
    assert ms == ms[..j + 1] + ms[j + 1..];
    StopAppend(ms[..j + 1], ms[j + 1..], ns, refused);
  }

  lemma Snoc<T>(a: seq<T>, b: seq<T>, j: nat)
    requires j < |b|
    ensures a + b[..j] + [b[j]] == a + b[..j + 1]
  {
  }

  /** The directory of certificate files. */
  class Directory {
    var files: map<string, Bytes>
    const refused: set<string>

    constructor (refused: set<string>)
      ensures this.refused == refused && files == map[]
    {
      this.refused := refused;
      files := map[];
    }

    /** The loop over one secret, in the order the map gives; `checked` asks for a host that holds
        a DNS name before each write. */
    method WriteSecret(owner: string, ns: string, data: Secret, checked: bool, start: SslCert)
      returns (ok: bool, cert: SslCert)
      modifies this`files
      ensures ok <==> (checked && data != map[] ==> HasDns(owner)) && Allowed(owner, ns, data, refused)
      ensures ok ==> cert == Filled(start, owner, ns, data)
      ensures ok ==> files == old(files) + Rendered(owner, ns, data)
      ensures OthersKept(old(files), files, owner, ns, data)
    {
      HostLanguage(owner);
      cert := start;
      var todo := data.Keys;
      while todo != {}
        invariant todo <= data.Keys
        invariant todo != data.Keys ==> checked ==> HasDns(owner)
        invariant forall k :: k in data.Keys - todo ==> File(owner, ns, k) !in refused
        invariant Stored(files, owner, ns, data, data.Keys - todo)
        invariant cert.crt == if TLS_CRT in data.Keys - todo then File(owner, ns, TLS_CRT) else start.crt
        invariant cert.noPass == start.noPass
        invariant cert.key == if TLS_KEY in data.Keys - todo then File(owner, ns, TLS_KEY) else start.key
        invariant OthersKept(old(files), files, owner, ns, data)
        decreases todo
      {
        var k :| k in todo;
        if checked && !IsValidHost(owner) {
          return false, cert;
        }
        var file := File(owner, ns, k);
        if file in refused {
          return false, cert;
        }
        forall k2 | k2 in data && File(owner, ns, k2) == file ensures k2 == k {
          FileInjective(owner, owner, ns, k, k2);
        }
        files := files[file := data[k]];
        if k == TLS_CRT {
          cert := cert.(crt := file);
        } else if k == TLS_KEY {
          cert := cert.(key := file);
        }
        todo := todo - {k};
      }
      StoredIsRendered(old(files), files, owner, ns, data);
      return true, cert;
    }

    /** One host of one entry: its secret is read and written, and the host is given the cert. */
    method GenerateHost(host: string, ns: string, secrets: map<string, Secret>, name: string, start: SslCert,
                        startTable: map<string, SslCert>, ghost before: seq<Mention>, ghost first: map<string, Bytes>)
      returns (ok: bool, cert: SslCert, table: map<string, SslCert>)
      requires Reached(before, ns, first, start, startTable, files)
      modifies this`files
      ensures ok <==> Loads(Mention(host, Lookup(secrets, name)), ns, refused)
      ensures ok ==> Reached(before + [Mention(host, Lookup(secrets, name))], ns, first, cert, table, files)
      ensures !ok ==> table == startTable
    {
      table := startTable;
      if name !in secrets {
        return false, start, table;
      }
      ok, cert := WriteSecret(host, ns, secrets[name], true, start);
      if !ok {
        return;
      }
      cert := cert.(noPass := true);
      table := table[host := cert];
      Extend(before, Mention(host, Some(secrets[name])), ns, first, start, startTable, old(files));
    }

    /** The inner loop of `generateCaTlsFile`, over the hosts of one entry. */
    method GenerateEntry(e: TlsEntry, ns: string, secrets: map<string, Secret>, start: SslCert, startTable: map<string, SslCert>,
                         ghost before: seq<Mention>, ghost here: seq<Mention>, ghost first: map<string, Bytes>)
      returns (ok: bool, cert: SslCert, table: map<string, SslCert>)
      requires |here| == |e.hosts|
      requires forall j :: 0 <= j < |here| ==> here[j] == Mention(e.hosts[j], Lookup(secrets, e.secretName))
      requires Reached(before, ns, first, start, startTable, files)
      modifies this`files
      ensures ok <==> Stop(here, ns, refused) == |here|
      ensures table == Table(before + here[..Stop(here, ns, refused)], ns)
      ensures ok ==> Reached(before + here, ns, first, cert, table, files)
    {
      ghost var done := before;
      cert, table, ok := start, startTable, true;
      for j := 0 to |e.hosts|
        invariant ok && done == before + here[..j]
        invariant Reached(done, ns, first, cert, table, files)
        invariant Stop(here[..j], ns, refused) == j
      {
        StopStep(here, j, ns, refused);
        ok, cert, table := GenerateHost(e.hosts[j], ns, secrets, e.secretName, cert, table, done, first);
        if !ok {
          return;
        }
        done := done + [here[j]];
        Snoc(before, here, j);
      }
      assert here[..|here|] == here;
    }

    /** One turn of the outer loop of `generateCaTlsFile`. */
    method GenerateNext(tls: seq<TlsEntry>, i: nat, ns: string, secrets: map<string, Secret>,
                        start: SslCert, startTable: map<string, SslCert>, ghost first: map<string, Bytes>)
      returns (ok: bool, cert: SslCert, table: map<string, SslCert>)
      requires i < |tls| && Passed(Mentions(tls[..i], secrets), ns, refused, first, start, startTable, files)
      modifies this`files
      ensures ok ==> Passed(Mentions(tls[..i + 1], secrets), ns, refused, first, cert, table, files)
      ensures !ok ==> FailedAt(Mentions(tls, secrets), ns, refused, table)
    {
      ghost var before, here := Mentions(tls[..i], secrets), EntryMentions(tls[i], secrets);
      PrefixMentions(tls, i, secrets);
      EntryStops(tls, i, secrets, Mentions(tls, secrets), before, here, ns, refused);
      ok, cert, table := GenerateEntry(tls[i], ns, secrets, start, startTable, before, here, first);
    }

    /** `generateCaTlsFile`: the table of the mentions before the first that fails. */
    method GenerateCa(tls: seq<TlsEntry>, ns: string, secrets: map<string, Secret>)
      returns (ok: bool, table: map<string, SslCert>)
      modifies this`files
      ensures var all := Mentions(tls, secrets);
              && (ok <==> Stop(all, ns, refused) == |all|)
              && table == Table(all[..Stop(all, ns, refused)], ns)
              && (ok ==> files == FilesAfter(all, ns, old(files)))
    {
      table, ok := map[], true;
      var cert := NO_CERT;
      for i := 0 to |tls|
        invariant ok && Passed(Mentions(tls[..i], secrets), ns, refused, old(files), cert, table, files)
      {
        ok, cert, table := GenerateNext(tls, i, ns, secrets, cert, table, old(files));
        if !ok {
          return;
        }
      }
      assert tls[..|tls|] == tls;
      WholeStops(Mentions(tls, secrets), ns, refused);
    }

    /** `generateCrdTlsFile`: one certificate, named after the Ingress, for every host. */
    method GenerateCrd(ingress: string, ns: string, secrets: map<string, Secret>, rules: seq<Rule>)
      returns (ok: bool, table: map<string, SslCert>)
      modifies this`files
      ensures var name := ingress + "-secret";
              && (ok <==> name in secrets && Allowed(ingress, ns, secrets[name], refused))
              && (table == if !ok then map[] else SamePair(rules, Updated(NO_CERT, ingress, ns, secrets[name])))
              && (ok ==> files == old(files) + Rendered(ingress, ns, secrets[name]))
    {
      table := map[];
      var name := ingress + "-secret";
      if name !in secrets {
        return false, table;
      }
      var written, cert := WriteSecret(ingress, ns, secrets[name], false, NO_CERT);
      if !written {
        return false, table;
      }
      cert := cert.(noPass := true);
      ghost var after := files;
      for i := 0 to |rules|
        invariant table == SamePair(rules[..i], cert)
        invariant files == after
      {
        SamePairStep(rules, i, cert);
        table := table[rules[i].host := cert];
      }
      assert rules[..|rules|] == rules;
      return true, table;
    }
  }

  lemma PrefixMentions(tls: seq<TlsEntry>, i: nat, secrets: map<string, Secret>)
    requires i < |tls|
    ensures Mentions(tls[..i + 1], secrets) == Mentions(tls[..i], secrets) + EntryMentions(tls[i], secrets)
  {
    assert tls[..i + 1][..i] == tls[..i];
  }

  lemma {:induction false} MentionsPrefix(tls: seq<TlsEntry>, i: nat, secrets: map<string, Secret>)
    requires i <= |tls|
    ensures IsPrefix(Mentions(tls[..i], secrets), Mentions(tls, secrets))
    decreases |tls|
  {
    var n := |tls| - 1;
    if i <= n {
      MentionsPrefix(tls[..n], i, secrets);
      assert tls[..n][..i] == tls[..i];
    } else {
      assert tls[..i] == tls;
    }
  }

  predicate IsPrefix<T(==)>(a: seq<T>, b: seq<T>) {
    |a| <= |b| && b[..|a|] == a
  }

  /** Where the mentions of one entry stop, all mentions do. */
  lemma EntryStops(tls: seq<TlsEntry>, i: nat, secrets: map<string, Secret>, all: seq<Mention>,
                   before: seq<Mention>, here: seq<Mention>, ns: string, refused: set<string>)
    requires i < |tls| && all == Mentions(tls, secrets)
    requires before == Mentions(tls[..i], secrets) && before + here == Mentions(tls[..i + 1], secrets)
    requires Stop(before, ns, refused) == |before|
    ensures var k := Stop(here, ns, refused);
            && (k == |here| ==> Stop(before + here, ns, refused) == |before + here|)
            && (k < |here| ==> Stop(all, ns, refused) < |all| && all[..Stop(all, ns, refused)] == before + here[..k])
  {
    var k := Stop(here, ns, refused);
    MentionsPrefix(tls, i + 1, secrets);
    StopAppend(before, here, ns, refused);
    StopInPrefix(before + here, all, ns, refused);
    assert (before + here)[..|before| + k] == before + here[..k];
  }

  lemma StopInPrefix(a: seq<Mention>, all: seq<Mention>, ns: string, refused: set<string>)
    requires IsPrefix(a, all)
    ensures var n := Stop(a, ns, refused);
            n < |a| ==> Stop(all, ns, refused) == n && all[..n] == a[..n]
  {
    assert all == a + all[|a|..];
    StopAppend(a, all[|a|..], ns, refused);
  }

  lemma WholeStops(ms: seq<Mention>, ns: string, refused: set<string>)
    requires Stop(ms, ns, refused) == |ms|
    ensures ms[..Stop(ms, ns, refused)] == ms
  {
  }

  /** When a mention can be processed: its secret is there, its host holds a DNS name unless there is
      nothing to write, and no file is refused. */
  lemma LoadsIff(m: Mention, ns: string, refused: set<string>)
    ensures Loads(m, ns, refused) <==>
            m.data.Some? &&
            forall k :: k in m.data.value ==>
              IsValidHost(m.host) && SSL_PATH + "/" + m.host + "-" + ns + "-" + k !in refused
  {
    HostLanguage(m.host);
    if m.data.Some? && m.data.value != map[] {
      var k :| k in m.data.value;
    }
  }

  // ---------------------------------------------------------------- whose files a host is given

  /** The last mention of a host. */
  predicate LastOf(ms: seq<Mention>, h: string, n: nat) {
    n < |ms| && ms[n].host == h && forall j :: n < j < |ms| ==> ms[j].host != h
  }

  predicate Has(m: Mention, key: string) {
    m.data.Some? && key in m.data.value
  }

  /** Among the first `n + 1` mentions, the last whose secret holds `key` is one of `h`. */
  predicate SuppliedBy(ms: seq<Mention>, n: nat, key: string, h: string)
    requires n < |ms|
  {
    exists i :: 0 <= i <= n && Has(ms[i], key) && ms[i].host == h && forall j :: i < j <= n ==> !Has(ms[j], key)
  }

  lemma {:induction false} TableAtLast(ms: seq<Mention>, ns: string, h: string, n: nat)
    requires LastOf(ms, h, n)
    ensures h in Table(ms, ns) && Table(ms, ns)[h] == Carried(ms[..n + 1], ns)
    decreases |ms|
  {
    var m := |ms| - 1;
    if n == m {
      assert ms[..n + 1] == ms;
    } else {
      TableAtLast(ms[..m], ns, h, n);
      assert ms[..m][..n + 1] == ms[..n + 1];
    }
  }

  lemma {:induction false} CarriedIff(ms: seq<Mention>, ns: string, n: nat, h: string)
    requires n < |ms|
    ensures Carried(ms[..n + 1], ns).crt == File(h, ns, TLS_CRT) <==> SuppliedBy(ms, n, TLS_CRT, h)
    ensures Carried(ms[..n + 1], ns).key == File(h, ns, TLS_KEY) <==> SuppliedBy(ms, n, TLS_KEY, h)
    ensures SuppliedBy(ms, n, TLS_KEY, h) ==> Carried(ms[..n + 1], ns).noPass
  {
    var m := ms[n];
    assert ms[..n + 1][..n] == ms[..n];
    if Has(m, TLS_CRT) && File(m.host, ns, TLS_CRT) == File(h, ns, TLS_CRT) {
      FileInjective(m.host, h, ns, TLS_CRT, TLS_CRT);
    }
    if Has(m, TLS_KEY) && File(m.host, ns, TLS_KEY) == File(h, ns, TLS_KEY) {
      FileInjective(m.host, h, ns, TLS_KEY, TLS_KEY);
    }
    if n > 0 {
      CarriedIff(ms, ns, n - 1, h);
    }
    SuppliedStep(ms, n, TLS_CRT, h);
    SuppliedStep(ms, n, TLS_KEY, h);
  }

  lemma SuppliedStep(ms: seq<Mention>, n: nat, key: string, h: string)
    requires n < |ms|
    ensures SuppliedBy(ms, n, key, h) <==>
            if Has(ms[n], key) then ms[n].host == h else n > 0 && SuppliedBy(ms, n - 1, key, h)
  {
  }

  /** A host is given its own certificate and its own key exactly when, up to its last mention, the
      latest secret holding each of them was one of its own. */
  lemma OwnFilesIff(ms: seq<Mention>, ns: string, h: string, n: nat)
    requires LastOf(ms, h, n)
    ensures h in Table(ms, ns)
    ensures Table(ms, ns)[h] == SslCert(File(h, ns, TLS_KEY), File(h, ns, TLS_CRT), true) <==>
            SuppliedBy(ms, n, TLS_CRT, h) && SuppliedBy(ms, n, TLS_KEY, h)
  {
    TableAtLast(ms, ns, h, n);
    CarriedIff(ms, ns, n, h);
  }

  /** When every secret holds both, every host is given its own files. */
  lemma CompleteSecretsSuffice(ms: seq<Mention>, ns: string, h: string)
    requires forall m :: m in ms ==> Has(m, TLS_CRT) && Has(m, TLS_KEY)
    requires exists m :: m in ms && m.host == h
    ensures h in Table(ms, ns) && Table(ms, ns)[h] == SslCert(File(h, ns, TLS_KEY), File(h, ns, TLS_CRT), true)
  {
    var n := LastIndex(ms, h);
    SuppliedStep(ms, n, TLS_CRT, h);
    SuppliedStep(ms, n, TLS_KEY, h);
    OwnFilesIff(ms, ns, h, n);
  }

  lemma {:induction false} LastIndex(ms: seq<Mention>, h: string) returns (n: nat)
    requires exists m :: m in ms && m.host == h
    ensures LastOf(ms, h, n)
    decreases |ms|
  {
    n := |ms| - 1;
    if ms[n].host != h {
      var m :| m in ms && m.host == h;
      assert ms == ms[..n] + [ms[n]];
      n := LastIndex(ms[..n], h);
    }
  }

  /** The mention writes the file. */
  predicate Writes(m: Mention, ns: string, f: string) {
    m.data.Some? && f in Rendered(m.host, ns, m.data.value)
  }

  lemma {:induction false} UnwrittenStays(ms: seq<Mention>, ns: string, start: map<string, Bytes>, n: nat, f: string)
    requires n <= |ms| && f in FilesAfter(ms[..n], ns, start)
    requires forall j :: n <= j < |ms| ==> !Writes(ms[j], ns, f)
    ensures f in FilesAfter(ms, ns, start) && FilesAfter(ms, ns, start)[f] == FilesAfter(ms[..n], ns, start)[f]
    decreases |ms|
  {
    var m := |ms| - 1;
    if n == |ms| {
      assert ms[..n] == ms;
    } else {
      assert ms[..m][..n] == ms[..n];
      UnwrittenStays(ms[..m], ns, start, n, f);
      assert !Writes(ms[m], ns, f);
    }
  }

  /** A file holds what the last mention that writes it puts there. */
  lemma LastWriteStays(ms: seq<Mention>, ns: string, start: map<string, Bytes>, n: nat, k: string)
    requires n < |ms| && Has(ms[n], k)
    requires forall j :: n < j < |ms| ==> !Writes(ms[j], ns, File(ms[n].host, ns, k))
    ensures var f := File(ms[n].host, ns, k);
            f in FilesAfter(ms, ns, start) && FilesAfter(ms, ns, start)[f] == ms[n].data.value[k]
  {
    var f := File(ms[n].host, ns, k);
    FilesDiffer(ms[n].host, ns, ms[n].data.value);
    assert ms[..n + 1][..n] == ms[..n];
    assert f in FilesAfter(ms[..n + 1], ns, start) && FilesAfter(ms[..n + 1], ns, start)[f] == ms[n].data.value[k];
    UnwrittenStays(ms, ns, start, n + 1, f);
  }

  /** No host writes a file of another one. */
  ghost predicate NoHostsCollide(ms: seq<Mention>, ns: string) {
    forall i, j, f :: 0 <= i < |ms| && 0 <= j < |ms| && Writes(ms[i], ns, f) && Writes(ms[j], ns, f) ==>
      ms[i].host == ms[j].host
  }

  predicate Holds(files: map<string, Bytes>, f: string, m: Mention, key: string) {
    Has(m, key) && f in files && files[f] == m.data.value[key]
  }

  /** When every secret holds both and no two hosts collide, the files that a host is given hold the
      certificate and the key of its last mention. */
  lemma HostServesItsSecret(ms: seq<Mention>, ns: string, start: map<string, Bytes>, h: string, n: nat)
    requires LastOf(ms, h, n) && NoHostsCollide(ms, ns)
    requires forall i :: 0 <= i < |ms| ==> Has(ms[i], TLS_CRT) && Has(ms[i], TLS_KEY)
    ensures var files := FilesAfter(ms, ns, start);
            && h in Table(ms, ns)
            && Holds(files, Table(ms, ns)[h].crt, ms[n], TLS_CRT)
            && Holds(files, Table(ms, ns)[h].key, ms[n], TLS_KEY)
  {
    CompleteSecretsSuffice(ms, ns, h);
    assert Writes(ms[n], ns, File(h, ns, TLS_CRT)) && Writes(ms[n], ns, File(h, ns, TLS_KEY));
    LastWriteStays(ms, ns, start, n, TLS_CRT);
    LastWriteStays(ms, ns, start, n, TLS_KEY);
  }

  /** A secret that holds only a key pairs that key with the certificate of the host before it. */
  lemma FilesLeakToNextHost(a: string, b: string, ns: string, crt: Bytes, key1: Bytes, key2: Bytes)
    requires a != b
    ensures var ms := [Mention(a, Some(map[TLS_CRT := crt, TLS_KEY := key1])), Mention(b, Some(map[TLS_KEY := key2]))];
            b in Table(ms, ns) && Table(ms, ns)[b] == SslCert(File(b, ns, TLS_KEY), File(a, ns, TLS_CRT), true)
  {
    var ms := [Mention(a, Some(map[TLS_CRT := crt, TLS_KEY := key1])), Mention(b, Some(map[TLS_KEY := key2]))];
    assert LastOf(ms, b, 1);
    TableAtLast(ms, ns, b, 1);
    CarriedIff(ms, ns, 1, a);
    CarriedIff(ms, ns, 1, b);
    assert Has(ms[0], TLS_CRT) && Has(ms[1], TLS_KEY) && !Has(ms[1], TLS_CRT);
    SuppliedStep(ms, 1, TLS_CRT, a);
    SuppliedStep(ms, 0, TLS_CRT, a);
    SuppliedStep(ms, 1, TLS_KEY, b);
  }

  // ---------------------------------------------------------------- what a server block carries

  lemma {:induction false} MentionedIff(ms: seq<Mention>, ns: string, h: string)
    ensures h in Table(ms, ns) <==> exists i :: 0 <= i < |ms| && ms[i].host == h
    decreases |ms|
  {
    if ms != [] {
      var m := |ms| - 1;
      MentionedIff(ms[..m], ns, h);
      if i :| 0 <= i < m && ms[..m][i].host == h {
        assert ms[i].host == h;
      }
      if i :| 0 <= i < |ms| && ms[i].host == h && i < m {
        assert ms[..m][i].host == h;
      }
    }
  }

  lemma {:induction false} LoadedHasFiles(ms: seq<Mention>, ns: string)
    requires ms != [] && forall m :: m in ms ==> m.data.Some?
    ensures Carried(ms, ns).noPass
  {
    assert ms[|ms| - 1] in ms;
  }

  /** In the rendered file, the server block of a rule carries certificates exactly when its host is
      among the mentions that were processed, and they are its own exactly when, up to its last
      mention, the latest secret holding each of them was one of its own. */
  lemma ServerCertificate(ing: Ingress, ann: Translate.Annotations, cluster: Cluster, ms: seq<Mention>, ns: string,
                          servers: seq<Translate.Server>, i: nat)
    requires Translate.IsTranslation(ing, ann, cluster, Table(ms, ns), servers) && i < |servers|
    requires forall m :: m in ms ==> m.data.Some?
    ensures var h := ing.rules[i].host;
            var cert := Template.Render(ann, servers)[i].server.tls;
            && (cert.noPass <==> exists n :: LastOf(ms, h, n))
            && forall n :: LastOf(ms, h, n) ==>
                 (cert == SslCert(File(h, ns, TLS_KEY), File(h, ns, TLS_CRT), true) <==>
                  SuppliedBy(ms, n, TLS_CRT, h) && SuppliedBy(ms, n, TLS_KEY, h))
  {
    var h := ing.rules[i].host;
    assert Translate.ServerOf(ing, ann, cluster, Table(ms, ns), ing.rules[i], servers[i]);
    MentionedIff(ms, ns, h);
    if h in Table(ms, ns) {
      var n := LastIndex(ms, h);
      OwnFilesIff(ms, ns, h, n);
      TableAtLast(ms, ns, h, n);
      LoadedHasFiles(ms[..n + 1], ns);
    }
  }
}
