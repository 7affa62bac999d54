/** The names of the files that belong to one ingress, and when the files of two ingresses meet. */
module ConfNames {

  type Path = string

  const CONF_DIR: string := "/etc/nginx/conf.d"
  const NGINX_DIR: string := "/etc/nginx"

  /** What a reload is called for: `name` is `dir/base`. */
  datatype Target = At(dir: string, base: string)
  {
    function Prod(): Path { dir + "/" + base + ".conf" }

    function Test(): Path { dir + "/" + base + "-test.conf" }

    function Backup(): Path { dir + "/" + base + ".tmp" }

    function Touched(): set<Path> { {Prod(), Test(), Backup()} }
  }

  /** The main configuration, `/etc/nginx/nginx.conf`. */
  function MainTarget(): Target { At(NGINX_DIR, "nginx") }

  /** An ingress, by name and namespace. */
  datatype Key = Key(name: string, namespace: string)
  {
    function Base(): string { name + "-" + namespace }

    function Target(): Target { At(CONF_DIR, Base()) }
  }

  predicate AlphaNum(c: char) {
    'a' <= c <= 'z' || '0' <= c <= '9'
  }

  predicate LabelChar(c: char) {
    AlphaNum(c) || c == '-'
  }

  /** A DNS label as RFC 1123 defines it: what Kubernetes accepts as a namespace. */
  predicate IsLabel(s: string) {
    0 < |s| <= 63 && (forall c :: c in s ==> LabelChar(c)) && AlphaNum(s[0]) && AlphaNum(s[|s| - 1])
  }

  /** A DNS subdomain as RFC 1123 defines it: what Kubernetes accepts as the name of an Ingress. */
  predicate IsSubdomain(s: string) {
    && 0 < |s| <= 253 && (forall c :: c in s ==> LabelChar(c) || c == '.')
    && AlphaNum(s[0]) && AlphaNum(s[|s| - 1])
    && forall i :: 0 < i < |s| - 1 && s[i] == '.' ==> AlphaNum(s[i - 1]) && AlphaNum(s[i + 1])
  }

  predicate ValidKey(k: Key) {
    IsSubdomain(k.name) && IsLabel(k.namespace)
  }

  /** The base of a valid key is a plain file name. */
  lemma PlainBase(k: Key)
    requires ValidKey(k)
    ensures |k.Base()| >= 3 && k.Base()[0] != '.' && '/' !in k.Base()
  {
  }

  predicate EndsWith(s: string, suffix: string) {
    |suffix| <= |s| && s[|s| - |suffix|..] == suffix
  }

  // ---------------------------------------------------------------- files of one target

  lemma OwnPathsDiffer(t: Target)
    ensures t.Prod() != t.Test() && t.Prod() != t.Backup() && t.Test() != t.Backup()
  {
    assert |t.Test()| == |t.Prod()| + 5;
    assert t.Prod()[|t.Prod()| - 1] == 'f' && t.Test()[|t.Test()| - 1] == 'f';
    assert t.Backup()[|t.Backup()| - 1] == 'p';
  }

  // ---------------------------------------------------------------- files of two ingresses

  /** No file of one ingress is a file of the other. */
  predicate Separate(a: Key, b: Key) {
    a.Target().Touched() !! b.Target().Touched()
  }

  lemma Cancel(x: string, y: string, suffix: string)
    requires x + suffix == y + suffix
    ensures x == y
  {
    assert |x| == |y|;
    assert x == (x + suffix)[..|x|] && y == (y + suffix)[..|y|];
  }

  lemma CancelLeft(x: string, y: string, prefix: string)
    requires prefix + x == prefix + y
    ensures x == y
  {
    assert x == (prefix + x)[|prefix|..] && y == (prefix + y)[|prefix|..];
  }

  lemma DirCancel(x: string, y: string, dir: string, suffix: string)
    requires dir + "/" + x + suffix == dir + "/" + y + suffix
    ensures x == y
  {
    Cancel(dir + "/" + x, dir + "/" + y, suffix);
    CancelLeft(x, y, dir + "/");
  }

  lemma EndsIn(x: string, suffix: string)
    ensures EndsWith(x + suffix, suffix)
    ensures suffix != "" ==> (x + suffix)[|x + suffix| - 1] == suffix[|suffix| - 1]
  {
  }

  lemma TestAsProd(base: string)
    ensures CONF_DIR + "/" + base + "-test.conf" == CONF_DIR + "/" + (base + "-test") + ".conf"
  {
  }

  /** The files of two ingresses meet exactly when their bases are equal, or when one base is
      the other one followed by `-test`. */
  lemma SeparateIff(a: Key, b: Key)
    ensures Separate(a, b) <==>
            && a.Base() != b.Base()
            && a.Base() != b.Base() + "-test"
            && b.Base() != a.Base() + "-test"
  {
    var s, t := a.Target(), b.Target();
    var d := CONF_DIR + "/";
    TestAsProd(a.Base());
    TestAsProd(b.Base());
    EndsIn(d + a.Base(), ".conf");
    EndsIn(d + b.Base(), ".conf");
    EndsIn(d + a.Base(), "-test.conf");
    EndsIn(d + b.Base(), "-test.conf");
    EndsIn(d + a.Base(), ".tmp");
    EndsIn(d + b.Base(), ".tmp");
    if s.Prod() == t.Prod() { DirCancel(a.Base(), b.Base(), CONF_DIR, ".conf"); }
    if s.Test() == t.Test() { DirCancel(a.Base(), b.Base(), CONF_DIR, "-test.conf"); }
    if s.Backup() == t.Backup() { DirCancel(a.Base(), b.Base(), CONF_DIR, ".tmp"); }
    if s.Prod() == t.Test() { DirCancel(a.Base(), b.Base() + "-test", CONF_DIR, ".conf"); }
    if t.Prod() == s.Test() { DirCancel(b.Base(), a.Base() + "-test", CONF_DIR, ".conf"); }
    assert s.Prod() in s.Touched() && t.Prod() in t.Touched();
    assert s.Test() in s.Touched() && t.Test() in t.Touched();
  }

  // ---------------------------------------------------------------- which namespaces are safe

  /** `u` is what follows a dash in `s`, and the character before that dash can end a name. */
  predicate IsTail(u: string, s: string) {
    EndsWith(s, "-" + u) && |s| > |u| + 1 && s[|s| - |u| - 2] != '-'
  }

  /** One of the two namespaces is the other one or such a tail of it. */
  predicate Clash(s: string, u: string) {
    s == u || IsTail(u, s) || IsTail(s, u)
  }

  /** A label, possibly followed by `-test`. */
  predicate Ending(s: string) {
    0 < |s| <= 68 && (forall c :: c in s ==> LabelChar(c)) && AlphaNum(s[0])
  }

  lemma TailsClash(n: string, s: string, m: string, u: string)
    requires n + "-" + s == m + "-" + u
    requires IsSubdomain(n) && IsSubdomain(m) && Ending(s) && Ending(u)
    ensures Clash(s, u)
  {
    if |s| == |u| {
      var w := n + "-" + s;
      assert s == w[|n| + 1..] && u == w[|m| + 1..];
    } else if |s| > |u| {
      LongerTail(n, s, m, u);
    } else {
      LongerTail(m, u, n, s);
    }
  }

  lemma LongerTail(n: string, s: string, m: string, u: string)
    requires n + "-" + s == m + "-" + u && |s| > |u|
    requires IsSubdomain(m) && Ending(s)
    ensures IsTail(u, s)
  {
    var w := n + "-" + s;
    var i := |m| - |n| - 1;
    assert w[|n| + 1..] == s && w[|m|..] == "-" + u;
    assert s[i..] == w[|m|..];
    assert s[i] == w[|m|] == '-';
    assert i > 0 && s[i - 1] == w[|m| - 1] == m[|m| - 1];
  }

  lemma Witness(s: string, u: string) returns (n: string, m: string)
    requires Ending(s) && Ending(u) && Clash(s, u)
    ensures IsSubdomain(n) && IsSubdomain(m) && n + "-" + s == m + "-" + u
  {
    if s == u {
      n, m := "a", "a";
    } else if IsTail(u, s) {
      n := "a";
      m := LongerName(s, u);
    } else {
      n := LongerName(u, s);
      m := "a";
    }
  }

  lemma LongerName(s: string, u: string) returns (m: string)
    requires Ending(s) && IsTail(u, s)
    ensures IsSubdomain(m) && "a" + "-" + s == m + "-" + u
  {
    var x := s[..|s| - |u| - 1];
    m := "a-" + x;
    assert s == x + ("-" + u);
    assert x[|x| - 1] in s;
    assert forall c :: c in x ==> c in s;
    assert forall c :: c in m ==> c == 'a' || c == '-' || c in x;
    assert '.' !in x;
    assert forall i :: 0 <= i < |m| ==> m[i] in m;
  }

  /** No two namespaces clash, nor does one clash with another followed by `-test`. */
  ghost predicate SafeNamespaces(namespaces: set<string>) {
    forall s, u :: s in namespaces && u in namespaces ==>
      (s != u ==> !Clash(s, u)) && !Clash(s, u + "-test")
  }

  ghost predicate AllSeparate(namespaces: set<string>) {
    forall a: Key, b: Key ::
      a != b && ValidKey(a) && ValidKey(b) && a.namespace in namespaces && b.namespace in namespaces
      ==> Separate(a, b)
  }

  /** The ingresses of a set of namespaces never meet, whatever their names, exactly when the
      namespaces are safe. */
  lemma SafeIffSeparate(namespaces: set<string>)
    requires forall s :: s in namespaces ==> IsLabel(s)
    ensures SafeNamespaces(namespaces) <==> AllSeparate(namespaces)
  {
    if SafeNamespaces(namespaces) {
      forall a: Key, b: Key
        | a != b && ValidKey(a) && ValidKey(b) && a.namespace in namespaces && b.namespace in namespaces
        ensures Separate(a, b)
      {
        SeparateByNamespaces(namespaces, a, b);
      }
    } else {
      var s, u :| s in namespaces && u in namespaces && ((s != u && Clash(s, u)) || Clash(s, u + "-test"));
      if s != u && Clash(s, u) {
        var n, m := Witness(s, u);
        SeparateIff(Key(n, s), Key(m, u));
      } else {
        var n, m := Witness(s, u + "-test");
        assert m + "-" + (u + "-test") == m + "-" + u + "-test";
        SeparateIff(Key(n, s), Key(m, u));
        assert Key(n, s) != Key(m, u);
      }
    }
  }

  lemma BaseDeterminesName(a: Key, b: Key)
    requires a.Base() == b.Base()
    ensures a.namespace == b.namespace ==> a == b
  {
    if a.namespace == b.namespace {
      assert a.Base() == a.name + ("-" + a.namespace);
      assert b.Base() == b.name + ("-" + b.namespace);
      Cancel(a.name, b.name, "-" + a.namespace);
    }
  }

  lemma SeparateByNamespaces(namespaces: set<string>, a: Key, b: Key)
    requires SafeNamespaces(namespaces)
    requires a != b && ValidKey(a) && ValidKey(b) && a.namespace in namespaces && b.namespace in namespaces
    ensures Separate(a, b)
  {
    SeparateIff(a, b);
    if a.Base() == b.Base() {
      TailsClash(a.name, a.namespace, b.name, b.namespace);
      BaseDeterminesName(a, b);
    }
    if a.Base() == b.Base() + "-test" {
      assert b.Base() + "-test" == b.name + "-" + (b.namespace + "-test");
      TailsClash(a.name, a.namespace, b.name, b.namespace + "-test");
    }
    if b.Base() == a.Base() + "-test" {
      assert a.Base() + "-test" == a.name + "-" + (a.namespace + "-test");
      TailsClash(b.name, b.namespace, a.name, a.namespace + "-test");
    }
  }

  lemma DashedTail(s: string, u: string)
    requires EndsWith(s, "-" + u)
    ensures '-' in s
  {
    assert s[|s| - |u| - 1..][0] == '-';
  }

  lemma TailOfTest(s: string, u: string)
    requires EndsWith(u + "-test", "-" + s)
    ensures '-' in s || '-' in u || s == "test"
  {
    var t := u + "-test";
    var i := |t| - |s| - 1;
    assert t[i..][0] == t[i] == '-';
    assert t[|u|..] == "-test" && t[|u|..][1..] == "test";
    assert forall x :: |u| < x < |t| ==> t[x] == "test"[x - |u| - 1];
    if i == |u| {
      assert t[i..] == "-test";
      assert s == t[i..][1..];
    } else if i < |u| {
      assert t[i] == u[i];
    }
  }

  /** Namespaces without a dash and other than `test` are safe. */
  lemma DashFreeIsSafe(namespaces: set<string>)
    requires forall s :: s in namespaces ==> '-' !in s && s != "test"
    ensures SafeNamespaces(namespaces)
  {
    forall s, u | s in namespaces && u in namespaces
      ensures (s != u ==> !Clash(s, u)) && !Clash(s, u + "-test")
    {
      if IsTail(u, s) { DashedTail(s, u); }
      if IsTail(s, u) { DashedTail(u, s); }
      assert (u + "-test")[|u|] == '-';
      if IsTail(u + "-test", s) { DashedTail(s, u + "-test"); }
      if IsTail(s, u + "-test") { TailOfTest(s, u); }
    }
  }

  /** A namespace with an inner dash and the tail behind it share production files. */
  lemma DashedNamespacesMeet(name: string, head: string, tail: string)
    ensures Key(name, head + "-" + tail).Target() == Key(name + "-" + head, tail).Target()
    ensures Key(name, head + "-" + tail) != Key(name + "-" + head, tail)
  {
    assert name + "-" + (head + "-" + tail) == (name + "-" + head) + "-" + tail;
    assert |head + "-" + tail| > |tail|;
  }

  /** In namespace `test`, the production file of one ingress is the test file of another. */
  lemma TestNamespaceMeets(name: string, namespace: string)
    ensures Key(name + "-" + namespace, "test").Target().Prod() == Key(name, namespace).Target().Test()
  {
    TestAsProd(name + "-" + namespace);
  }

  /** The files of an ingress `web` in namespace `prod`, and of the main configuration. */
  lemma FileNames()
    ensures Key("web", "prod").Target().Prod() == "/etc/nginx/conf.d/web-prod.conf"
    ensures Key("web", "prod").Target().Test() == "/etc/nginx/conf.d/web-prod-test.conf"
    ensures Key("web", "prod").Target().Backup() == "/etc/nginx/conf.d/web-prod.tmp"
    ensures MainTarget().Prod() == "/etc/nginx/nginx.conf"
  {
  }
}
