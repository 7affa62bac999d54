/** `internal/annotations/weight/main.go`: the list of weighted services and the rule that all
    paths of a rule are the same. */
module WeightList {
  import opened Results
  import opened Text
  import opened Addresses
  import opened Validators
  import opened Ingresses
  import opened Lookup

  datatype Error =
    | NotSatisfiable
    | MissResources(service: string)
    | InvalidContent
    | Panic                                   // a nil backend or a missing index in the original

  /** What `BackendWeight` holds when weights are used. */
  datatype Weighted = Weighted(servers: seq<string>, upstream: string)

  // ---------------------------------------------------------------- paths

  /** Some empty strings, then copies of one path. */
  predicate CollapsesTo(paths: seq<PathRule>, n: nat, path: string) {
    && n <= |paths|
    && (forall i :: 0 <= i < n ==> paths[i].path == "")
    && (forall i :: n <= i < |paths| ==> paths[i].path == path)
  }

  ghost predicate Collapsible(paths: seq<PathRule>) {
    exists n, path :: CollapsesTo(paths, n, path)
  }

  /** The path loop of `check` accepts a rule exactly when its paths collapse to one. */
  method SamePaths(paths: seq<PathRule>) returns (same: bool)
    ensures same <==> Collapsible(paths)
  {
    var path := "";
    ghost var n: nat := 0;
    for i := 0 to |paths|
      invariant if path == "" then n == i else n < i
      invariant CollapsesTo(paths[..i], n, path)
    {
      if path == "" {
        path := paths[i].path;
        n := if path == "" then i + 1 else i;
      }
      if path != paths[i].path {
        Uncollapsible(paths, n, i);
        return false;
      }
    }
    assert paths[..|paths|] == paths;
    assert CollapsesTo(paths, n, path);
    return true;
  }

  lemma Uncollapsible(paths: seq<PathRule>, n: nat, i: nat)
    requires n < i < |paths| && paths[n].path != "" && paths[i].path != paths[n].path
    ensures !Collapsible(paths)
  {
  }

  /** For paths that are not empty, the first path of an accepted rule is every path of it. */
  lemma FirstPathStandsForAll(paths: seq<PathRule>, n: nat, path: string)
    requires CollapsesTo(paths, n, path)
    requires forall p :: p in paths ==> p.path != ""
    ensures forall p :: p in paths ==> p.path == paths[0].path
  {
  }

  // ---------------------------------------------------------------- entries

  /** One entry: a service, the port it resolves to, and its weight in decimal digits. */
  datatype Entry = Entry(service: string, port: int, number: string)

  /** `%s.%s.svc:%d %s` */
  function Line(e: Entry, namespace: string): string {
    Address(e.service, namespace, e.port) + " "
    + if e.number == "0" then "down" else "weight=" + e.number
  }

  /** Reads one trimmed entry that is not empty. */
  function ParseEntry(ing: Ingress, cluster: Cluster, alias: string): Result<Entry, Error> {
    var val := Split(alias, ':');
    if val[0] !in cluster then Err(MissResources(val[0]))
    else
      match PortByName(cluster, ing.rules, val[0])
      case None => Err(Panic)
      case Some(port) =>
        if port == 0 then Err(MissResources(val[0]))
        else if |val| < 2 then Err(Panic)
        else if !IsWeightPrefix(val[1]) then Err(InvalidContent)
        else
          WeightLanguage(val[1]);
          Ok(Entry(val[0], port, val[1][7..]))
  }

  /** Reads what stands between two commas: nothing, if it is blank. */
  function ParseOne(ing: Ingress, cluster: Cluster, text: string): Result<seq<Entry>, Error> {
    var alias := TrimSpace(text);
    if alias == "" then Ok([])
    else
      match ParseEntry(ing, cluster, alias)
      case Err(e) => Err(e)
      case Ok(entry) => Ok([entry])
  }

  type Reader = string -> Result<seq<Entry>, Error>

  function ReaderOf(ing: Ingress, cluster: Cluster): Reader {
    text => ParseOne(ing, cluster, text)
  }

  /** The first error of the two, or both lists. */
  function Then(a: Result<seq<Entry>, Error>, b: Result<seq<Entry>, Error>): Result<seq<Entry>, Error> {
    match a
    case Err(e) => Err(e)
    case Ok(es) => match b case Err(e) => Err(e) case Ok(fs) => Ok(es + fs)
  }

  function ParseAll(read: Reader, texts: seq<string>): Result<seq<Entry>, Error> {
    if texts == [] then Ok([]) else Then(read(texts[0]), ParseAll(read, texts[1..]))
  }

  /** The entries of a `set-weight` value. */
  function ParseList(ing: Ingress, cluster: Cluster, text: string): Result<seq<Entry>, Error> {
    ParseAll(ReaderOf(ing, cluster), Split(text, ','))
  }

  lemma ThenAssoc(a: Result<seq<Entry>, Error>, b: Result<seq<Entry>, Error>, c: Result<seq<Entry>, Error>)
    ensures Then(Then(a, b), c) == Then(a, Then(b, c))
    ensures Then(Ok([]), a) == a && Then(a, Ok([])) == a
  {
    if a.Ok? && b.Ok? && c.Ok? {
      assert (a.value + b.value) + c.value == a.value + (b.value + c.value);
    }
    if a.Ok? {
      assert [] + a.value == a.value == a.value + [];
    }
  }

  lemma {:induction false} ParseAppend(read: Reader, front: seq<string>, back: seq<string>)
    ensures ParseAll(read, front + back) == Then(ParseAll(read, front), ParseAll(read, back))
  {
    ThenAssoc(ParseAll(read, back), Ok([]), Ok([]));
    if front == [] {
      assert front + back == back;
    } else {
      assert (front + back)[1..] == front[1..] + back;
      ParseAppend(read, front[1..], back);
      ThenAssoc(read(front[0]), ParseAll(read, front[1..]), ParseAll(read, back));
    }
  }

  lemma ParseSingle(read: Reader, text: string)
    ensures ParseAll(read, [text]) == read(text)
  {
    assert [text][1..] == [];
    ThenAssoc(read(text), Ok([]), Ok([]));
  }

  lemma ParseStep(read: Reader, texts: seq<string>, i: nat)
    requires i < |texts|
    ensures ParseAll(read, texts[..i + 1]) == Then(ParseAll(read, texts[..i]), read(texts[i]))
  {
    var front := texts[..i];
    assert texts[..i + 1] == front + [texts[i]];
    ParseAppend(read, front, [texts[i]]);
    ParseSingle(read, texts[i]);
  }

  lemma ParseRest(read: Reader, texts: seq<string>, i: nat)
    requires i <= |texts|
    ensures ParseAll(read, texts) == Then(ParseAll(read, texts[..i]), ParseAll(read, texts[i..]))
  {
    assert texts == texts[..i] + texts[i..];
    ParseAppend(read, texts[..i], texts[i..]);
  }

  /** Reading one more text: its error is the error of the list, and its entries are added. */
  lemma ReadOn(read: Reader, texts: seq<string>, i: nat, entries: seq<Entry>)
    requires i < |texts| && ParseAll(read, texts[..i]) == Ok(entries)
    ensures match read(texts[i])
            case Err(e) => ParseAll(read, texts) == Err(e)
            case Ok(more) => ParseAll(read, texts[..i + 1]) == Ok(entries + more)
  {
    ParseStep(read, texts, i);
    ParseRest(read, texts, i + 1);
  }

  function Services(entries: seq<Entry>): seq<string> {
    seq(|entries|, i requires 0 <= i < |entries| => entries[i].service)
  }

  function Lines(entries: seq<Entry>, namespace: string): seq<string> {
    seq(|entries|, i requires 0 <= i < |entries| => Line(entries[i], namespace))
  }

  /** The server lines in order, and the upstream named after the services and the ingress. */
  function WeightedOf(ing: Ingress, entries: seq<Entry>): Weighted {
    Weighted(Lines(entries, ing.namespace),
             Join(Services(entries), "-") + "-" + ing.name + "-" + ing.namespace)
  }

  // ---------------------------------------------------------------- the loop

  /** `inspectWeightVal`: what stands for a weight of zero. */
  function InspectWeightVal(data: string): (shown: string)
    requires IsWeightPrefix(data)
    ensures shown == if data == "weight=0" then "down" else ""
  {
    WeightLanguage(data);
    WeightParts(data);
    if Split(data, '=')[1] == "0" then "down" else ""
  }

  lemma WeightParts(data: string)
    requires |data| >= 7 && data[..7] == "weight=" && CanonicalDecimal(data[7..])
    ensures Split(data, '=') == ["weight", data[7..]]
  {
    var number := data[7..];
    assert "weight=" == "weight" + ['='];
    assert data == data[..7] + number;
    assert '=' !in number && '=' !in "weight";
    SplitFirst("weight", number, '=');
    SplitFirst(number, "", '=');
  }

  lemma JoinAppend(names: seq<string>, name: string)
    requires names != []
    ensures Join(names + [name], "-") == Join(names, "-") + "-" + name
  {
    if |names| > 1 {
      assert (names + [name])[1..] == names[1..] + [name];
      JoinAppend(names[1..], name);
    }
  }

  lemma JoinNotEmpty(names: seq<string>)
    requires forall n :: n in names ==> n != ""
    ensures Join(names, "-") == "" <==> names == []
  {
    if names != [] {
      assert names[0] in names;
    }
  }

  /** One turn of the list loop of `check`: the entry and its server line. */
  method ReadEntry(ing: Ingress, cluster: Cluster, alias: string) returns (r: Result<Entry, Error>, line: string)
    ensures r == ParseEntry(ing, cluster, alias)
    ensures r.Ok? ==> line == Line(r.value, ing.namespace)
  {
    line := "";
    var val := Split(alias, ':');
    if val[0] !in cluster {
      return Err(MissResources(val[0])), line;
    }
    var port := GetSvcPortByName(cluster, ing.rules, val[0]);
    if port == None {
      return Err(Panic), line;
    }
    if port.value == 0 {
      return Err(MissResources(val[0])), line;
    }
    if |val| < 2 {
      return Err(Panic), line;
    }
    if !IsWeightPrefix(val[1]) {
      return Err(InvalidContent), line;
    }
    WeightLanguage(val[1]);
    WeightParts(val[1]);
    assert val[1] == val[1][..7] + val[1][7..];
    var shown := if InspectWeightVal(val[1]) != "" then InspectWeightVal(val[1]) else val[1];
    line := Address(val[0], ing.namespace, port.value) + " " + shown;
    r := Ok(Entry(val[0], port.value, val[1][7..]));
  }

  /** `check`: the paths of every rule, then the list, building names and lines as it goes. */
  method Check(ing: Ingress, cluster: Cluster, useWeight: bool, setWeight: string)
    returns (r: Result<Weighted, Error>)
    requires ValidCluster(cluster)
    ensures !useWeight ==> r == Ok(Weighted([], ""))
    ensures useWeight && (exists rule :: rule in ing.rules && !Collapsible(rule.paths))
            ==> r == Err(NotSatisfiable)
    ensures useWeight && (forall rule :: rule in ing.rules ==> Collapsible(rule.paths))
            ==> r == match ParseList(ing, cluster, setWeight)
                     case Err(e) => Err(e)
                     case Ok(entries) => Ok(WeightedOf(ing, entries))
    ensures useWeight && (forall rule :: rule in ing.rules ==> Collapsible(rule.paths))
            ==> forall items: seq<Item> :: AllPrintable(ing, cluster, items) && Print(items) == setWeight ==>
                  r.Ok? && Shows(r.value, ing, cluster, items)
  {
    forall items: seq<Item> | AllPrintable(ing, cluster, items) && Print(items) == setWeight
      ensures ParseList(ing, cluster, setWeight).Ok?
      ensures Shows(WeightedOf(ing, ParseList(ing, cluster, setWeight).value), ing, cluster, items)
    {
      PrintedListShows(ing, cluster, items);
    }
    if !useWeight {
      return Ok(Weighted([], ""));
    }
    for i := 0 to |ing.rules|
      invariant forall k :: 0 <= k < i ==> Collapsible(ing.rules[k].paths)
    {
      var same := SamePaths(ing.rules[i].paths);
      if !same {
        return Err(NotSatisfiable);
      }
    }
    r := ReadList(ing, cluster, setWeight);
  }

  /** One turn of the list loop of `check`: a blank is skipped, an entry extends name and lines. */
  method ReadNext(ing: Ingress, cluster: Cluster, text: string, name: string, lines: seq<string>, ghost entries: seq<Entry>)
    returns (err: Option<Error>, upstreamName: string, servers: seq<string>, ghost more: seq<Entry>)
    requires ValidCluster(cluster) && Built(ing, entries, name, lines)
    ensures err == (match ParseOne(ing, cluster, text) case Ok(_) => None case Err(e) => Some(e))
    ensures err == None ==> ParseOne(ing, cluster, text) == Ok(more) && Built(ing, entries + more, upstreamName, servers)
  {
    err, upstreamName, servers, more := None, name, lines, [];
    var alias := TrimSpace(text);
    if alias == "" {
      assert entries + more == entries;
      return;
    }
    var entry, line := ReadEntry(ing, cluster, alias);
    if entry.Err? {
      err := Some(entry.error);
      return;
    }
    BuiltAppend(ing, entries, name, lines, entry.value);
    if upstreamName == "" {
      upstreamName := upstreamName + entry.value.service;
    } else {
      upstreamName := upstreamName + ("-" + entry.value.service);
    }
    servers := servers + [line];
    more := [entry.value];
  }

  /** The list loop of `check`. */
  method ReadList(ing: Ingress, cluster: Cluster, setWeight: string) returns (r: Result<Weighted, Error>)
    requires ValidCluster(cluster)
    ensures r == match ParseList(ing, cluster, setWeight)
                 case Err(e) => Err(e)
                 case Ok(entries) => Ok(WeightedOf(ing, entries))
  {
    var svcList := Split(setWeight, ',');
    var upstreamName := "";
    var servers: seq<string> := [];
    ghost var entries: seq<Entry> := [];
    for i := 0 to |svcList|
      invariant ParseAll(ReaderOf(ing, cluster), svcList[..i]) == Ok(entries)
      invariant Built(ing, entries, upstreamName, servers)
    {
      ReadOn(ReaderOf(ing, cluster), svcList, i, entries);
      var err;
      ghost var more;
      err, upstreamName, servers, more := ReadNext(ing, cluster, svcList[i], upstreamName, servers, entries);
      if err.Some? {
        return Err(err.value);
      }
      entries := entries + more;
    }
    assert svcList[..|svcList|] == svcList;
    r := Ok(Weighted(servers, upstreamName + "-" + ing.name + "-" + ing.namespace));
  }

  /** The name and the lines that stand for the entries read so far. */
  ghost predicate Built(ing: Ingress, entries: seq<Entry>, upstreamName: string, servers: seq<string>) {
    && upstreamName == Join(Services(entries), "-")
    && servers == Lines(entries, ing.namespace)
    && forall e :: e in entries ==> e.service != ""
  }

  lemma BuiltAppend(ing: Ingress, entries: seq<Entry>, upstreamName: string, servers: seq<string>, e: Entry)
    requires Built(ing, entries, upstreamName, servers) && e.service != ""
    ensures Built(ing, entries + [e],
                  if upstreamName == "" then upstreamName + e.service else upstreamName + ("-" + e.service),
                  servers + [Line(e, ing.namespace)])
  {
    NonEmptyServices(entries);
    JoinNotEmpty(Services(entries));
    ServicesAppend(entries, e, ing.namespace);
    if upstreamName != "" {
      JoinAppend(Services(entries), e.service);
      assert upstreamName + ("-" + e.service) == upstreamName + "-" + e.service;
    }
  }

  lemma ServicesAppend(entries: seq<Entry>, e: Entry, namespace: string)
    ensures Services(entries + [e]) == Services(entries) + [e.service]
    ensures Lines(entries + [e], namespace) == Lines(entries, namespace) + [Line(e, namespace)]
  {
  }

  lemma NonEmptyServices(entries: seq<Entry>)
    requires forall e :: e in entries ==> e.service != ""
    ensures forall n :: n in Services(entries) ==> n != ""
  {
  }

  // ---------------------------------------------------------------- round trip

  /** What may stand between two commas. */
  datatype Item =
    | Blank(blanks: string)
    | Spec(before: string, service: string, number: string, after: string)

  function Show(item: Item): string {
    match item
    case Blank(blanks) => blanks
    case Spec(before, service, number, after) => before + (service + ":weight=" + number) + after
  }

  function ShowAll(items: seq<Item>): seq<string> {
    seq(|items|, i requires 0 <= i < |items| => Show(items[i]))
  }

  function Print(items: seq<Item>): string {
    Join(ShowAll(items), ",")
  }

  predicate Resolves(ing: Ingress, cluster: Cluster, service: string) {
    PortByName(cluster, ing.rules, service).Some? && PortByName(cluster, ing.rules, service).value != 0
  }

  /** Blanks are blanks, weights are canonical, services exist and resolve to a port. */
  predicate Printable(ing: Ingress, cluster: Cluster, item: Item) {
    match item
    case Blank(blanks) => AllSpace(blanks)
    case Spec(before, service, number, after) =>
      && AllSpace(before) && AllSpace(after) && CanonicalDecimal(number)
      && service in cluster && Resolves(ing, cluster, service)
  }

  /** The entries of the items, in order. */
  function EntriesOf(ing: Ingress, cluster: Cluster, items: seq<Item>): seq<Entry>
    requires forall item :: item in items ==> Printable(ing, cluster, item)
  {
    if items == [] then []
    else
      assert Printable(ing, cluster, items[0]);
      var rest := EntriesOf(ing, cluster, items[1..]);
      match items[0]
      case Blank(_) => rest
      case Spec(_, service, number, _) =>
        [Entry(service, PortByName(cluster, ing.rules, service).value, number)] + rest
  }

  lemma SpecText(service: string, number: string)
    requires service != "" && (forall c :: c in service ==> PlainChar(c)) && CanonicalDecimal(number)
    ensures var core := service + ":weight=" + number;
            && core != "" && Trimmed(core) && ',' !in core
            && Split(core, ':') == [service, "weight=" + number]
  {
    var weight := "weight=" + number;
    var core := service + ":weight=" + number;
    assert core == service + [':'] + weight;
    WeightText(number);
    EndsKept(service, weight);
    assert ',' !in service && ':' !in service;
    SplitFirst(service, weight, ':');
    SplitFirst(weight, "", ':');
  }

  lemma WeightText(number: string)
    requires CanonicalDecimal(number)
    ensures var weight := "weight=" + number;
            ',' !in weight && ':' !in weight && weight != "" && !IsSpace(weight[|weight| - 1])
  {
    var weight := "weight=" + number;
    assert number[|number| - 1] in number && weight[|weight| - 1] == number[|number| - 1];
    assert forall c :: c in weight ==> c in "weight=" || IsDigit(c);
  }

  lemma EndsKept(service: string, weight: string)
    requires service != "" && weight != "" && (forall c :: c in service ==> PlainChar(c)) && !IsSpace(weight[|weight| - 1])
    ensures Trimmed(service + [':'] + weight)
  {
    var core := service + [':'] + weight;
    assert service[0] in service;
    assert core[0] == service[0] && core[|core| - 1] == weight[|weight| - 1];
  }

  lemma SpecParses(ing: Ingress, cluster: Cluster, service: string, number: string)
    requires ValidCluster(cluster) && Printable(ing, cluster, Spec("", service, number, ""))
    ensures ParseEntry(ing, cluster, service + ":weight=" + number) ==
            Ok(Entry(service, PortByName(cluster, ing.rules, service).value, number))
  {
    SpecText(service, number);
    var weight := "weight=" + number;
    assert weight[..7] == "weight=" && weight[7..] == number;
    WeightLanguage(weight);
  }

  lemma ShownItem(ing: Ingress, cluster: Cluster, item: Item)
    requires ValidCluster(cluster) && Printable(ing, cluster, item)
    ensures ',' !in Show(item)
    ensures item.Blank? ==> TrimSpace(Show(item)) == ""
    ensures item.Spec? ==>
              && TrimSpace(Show(item)) != ""
              && ParseEntry(ing, cluster, TrimSpace(Show(item))) ==
                 Ok(Entry(item.service, PortByName(cluster, ing.rules, item.service).value, item.number))
  {
    match item
    case Blank(blanks) => TrimBlank(blanks);
    case Spec(before, service, number, after) =>
      SpecParses(ing, cluster, service, number);
      SpecText(service, number);
      TrimPadded(before, service + ":weight=" + number, after);
  }

  lemma {:induction false} ShownItems(ing: Ingress, cluster: Cluster, items: seq<Item>)
    requires ValidCluster(cluster) && forall item :: item in items ==> Printable(ing, cluster, item)
    ensures ParseAll(ReaderOf(ing, cluster), ShowAll(items)) == Ok(EntriesOf(ing, cluster, items))
  {
    if items != [] {
      assert items[0] in items;
      ShownItem(ing, cluster, items[0]);
      ShownItems(ing, cluster, items[1..]);
      ThenAssoc(Ok(EntriesOf(ing, cluster, items[1..])), Ok([]), Ok([]));
      assert ShowAll(items)[1..] == ShowAll(items[1..]);
    }
  }

  /** Printing a list with any blanks and empty entries, and parsing it, gives the list back. */
  lemma RoundTrip(ing: Ingress, cluster: Cluster, items: seq<Item>)
    requires ValidCluster(cluster) && forall item :: item in items ==> Printable(ing, cluster, item)
    ensures ParseList(ing, cluster, Print(items)) == Ok(EntriesOf(ing, cluster, items))
  {
    if items == [] {
      assert Print(items) == "" && Split("", ',') == [""];
      TrimBlank("");
      assert [""][1..] == [];
      ThenAssoc(Ok([]), Ok([]), Ok([]));
    } else {
      forall s | s in ShowAll(items) ensures ',' !in s {
        var i :| 0 <= i < |items| && s == Show(items[i]);
        ShownItem(ing, cluster, items[i]);
      }
      SplitJoin(ShowAll(items), ',');
      ShownItems(ing, cluster, items);
    }
  }

  // ---------------------------------------------------------------- the lines of a printed list

  /** A server line of an upstream: the address of the service, a blank, and the weight as it was
      written, or `down` in place of a weight of zero. */
  predicate IsServerLine(line: string, service: string, namespace: string, port: int, number: string) {
    exists n :: 0 <= n < |line| && line[n] == ' '
      && IsAddressOf(line[..n], service, namespace, port)
      && line[n + 1..] == if number == "0" then "down" else "weight=" + number
  }

  lemma LineReads(e: Entry, namespace: string)
    ensures IsServerLine(Line(e, namespace), e.service, namespace, e.port, e.number)
  {
    var address := Address(e.service, namespace, e.port);
    var line := Line(e, namespace);
    AddressReads(e.service, namespace, e.port);
    assert line[..|address|] == address && line[|address|] == ' ';
    assert line[|address| + 1..] == if e.number == "0" then "down" else "weight=" + e.number;
  }

  /** The items that are not blank. */
  function Specs(items: seq<Item>): seq<Item> {
    if items == [] then [] else (if items[0].Spec? then [items[0]] else []) + Specs(items[1..])
  }

  predicate AllPrintable(ing: Ingress, cluster: Cluster, items: seq<Item>) {
    forall item :: item in items ==> Printable(ing, cluster, item)
  }

  /** One server line for each item in order, with its service, port and weight, and an upstream named
      after the services, the ingress and its namespace. */
  predicate Shows(w: Weighted, ing: Ingress, cluster: Cluster, items: seq<Item>)
    requires AllPrintable(ing, cluster, items)
  {
    var specs := Specs(items);
    && |w.servers| == |specs|
    && (forall k :: 0 <= k < |specs| ==>
          && specs[k].Spec? && specs[k] in items
          && IsServerLine(w.servers[k], specs[k].service, ing.namespace,
                          PortByName(cluster, ing.rules, specs[k].service).value, specs[k].number))
    && w.upstream == Join(ServicesOf(specs), "-") + "-" + ing.name + "-" + ing.namespace
  }

  function ServicesOf(specs: seq<Item>): seq<string> {
    seq(|specs|, i requires 0 <= i < |specs| => if specs[i].Spec? then specs[i].service else "")
  }

  /** The entry that a printed item stands for. */
  predicate StandsFor(ing: Ingress, cluster: Cluster, item: Item, e: Entry) {
    && item.Spec? && e.service == item.service && e.number == item.number
    && PortByName(cluster, ing.rules, item.service) == Some(e.port)
  }

  predicate AllStandFor(ing: Ingress, cluster: Cluster, specs: seq<Item>, entries: seq<Entry>) {
    |specs| == |entries| && forall k :: 0 <= k < |specs| ==> StandsFor(ing, cluster, specs[k], entries[k])
  }

  lemma StandCons(ing: Ingress, cluster: Cluster, item: Item, e: Entry, specs: seq<Item>, entries: seq<Entry>)
    requires StandsFor(ing, cluster, item, e) && AllStandFor(ing, cluster, specs, entries)
    ensures AllStandFor(ing, cluster, [item] + specs, [e] + entries)
  {
  }

  lemma {:induction false} SpecsAreItems(items: seq<Item>)
    ensures forall item :: item in Specs(items) ==> item.Spec? && item in items
  {
    if items != [] {
      SpecsAreItems(items[1..]);
    }
  }

  lemma {:induction false} EntriesAreSpecs(ing: Ingress, cluster: Cluster, items: seq<Item>)
    requires AllPrintable(ing, cluster, items)
    ensures AllStandFor(ing, cluster, Specs(items), EntriesOf(ing, cluster, items))
  {
    if items != [] {
      var item := items[0];
      assert Printable(ing, cluster, item);
      EntriesAreSpecs(ing, cluster, items[1..]);
      if item.Spec? {
        var e := Entry(item.service, PortByName(cluster, ing.rules, item.service).value, item.number);
        StandCons(ing, cluster, item, e, Specs(items[1..]), EntriesOf(ing, cluster, items[1..]));
      } else {
        assert [] + Specs(items[1..]) == Specs(items[1..]);
      }
    }
  }

  /** What a printed list means in the configuration. */
  lemma PrintedListShows(ing: Ingress, cluster: Cluster, items: seq<Item>)
    requires ValidCluster(cluster) && AllPrintable(ing, cluster, items)
    ensures ParseList(ing, cluster, Print(items)).Ok?
    ensures Shows(WeightedOf(ing, ParseList(ing, cluster, Print(items)).value), ing, cluster, items)
  {
    RoundTrip(ing, cluster, items);
    EntriesAreSpecs(ing, cluster, items);
    SpecsAreItems(items);
    EntriesShow(ing, cluster, items, EntriesOf(ing, cluster, items));
  }

  lemma EntriesShow(ing: Ingress, cluster: Cluster, items: seq<Item>, entries: seq<Entry>)
    requires AllPrintable(ing, cluster, items) && AllStandFor(ing, cluster, Specs(items), entries)
    requires forall item :: item in Specs(items) ==> item.Spec? && item in items
    ensures Shows(WeightedOf(ing, entries), ing, cluster, items)
  {
    var specs, lines := Specs(items), Lines(entries, ing.namespace);
    forall k | 0 <= k < |specs|
      ensures IsServerLine(lines[k], entries[k].service, ing.namespace, entries[k].port, entries[k].number)
    {
      LineReads(entries[k], ing.namespace);
    }
    forall k | 0 <= k < |specs| ensures StandsFor(ing, cluster, specs[k], entries[k]) && specs[k] in items {
    }
    assert Services(entries) == ServicesOf(specs);
  }

  // ---------------------------------------------------------------- normal form

  function Canonical(entries: seq<Entry>): seq<Item> {
    seq(|entries|, i requires 0 <= i < |entries| => Spec("", entries[i].service, entries[i].number, ""))
  }

  lemma CanonicalCons(first: Entry, rest: seq<Entry>)
    ensures Canonical([first] + rest) == [Spec("", first.service, first.number, "")] + Canonical(rest)
  {
  }

  lemma ParsedEntry(ing: Ingress, cluster: Cluster, alias: string)
    requires ParseEntry(ing, cluster, alias).Ok?
    ensures var e := ParseEntry(ing, cluster, alias).value;
            && Printable(ing, cluster, Spec("", e.service, e.number, ""))
            && PortByName(cluster, ing.rules, e.service) == Some(e.port)
  {
    WeightLanguage(Split(alias, ':')[1]);
  }

  lemma {:induction false} ParsedPrintable(ing: Ingress, cluster: Cluster, texts: seq<string>)
    requires ParseAll(ReaderOf(ing, cluster), texts).Ok?
    ensures var entries := ParseAll(ReaderOf(ing, cluster), texts).value;
            && (forall item :: item in Canonical(entries) ==> Printable(ing, cluster, item))
            && EntriesOf(ing, cluster, Canonical(entries)) == entries
  {
    if texts != [] {
      ParsedPrintable(ing, cluster, texts[1..]);
      var alias := TrimSpace(texts[0]);
      var rest := ParseAll(ReaderOf(ing, cluster), texts[1..]).value;
      if alias == "" {
        assert [] + rest == rest;
      } else {
        ParsedEntry(ing, cluster, alias);
        var first := ParseEntry(ing, cluster, alias).value;
        CanonicalCons(first, rest);
        assert Canonical([first] + rest)[1..] == Canonical(rest);
      }
    }
  }

  /** Every accepted text means the same as the plain list of its entries. */
  lemma AcceptedHasNormalForm(ing: Ingress, cluster: Cluster, text: string)
    requires ValidCluster(cluster) && ParseList(ing, cluster, text).Ok?
    ensures ParseList(ing, cluster, Print(Canonical(ParseList(ing, cluster, text).value))) ==
            ParseList(ing, cluster, text)
  {
    ParsedPrintable(ing, cluster, Split(text, ','));
    RoundTrip(ing, cluster, Canonical(ParseList(ing, cluster, text).value));
  }

  /** The port of a weighted server is that of the first match in the last rule which mentions
      the service. */
  lemma PortIsFromLastMention(ing: Ingress, cluster: Cluster, alias: string, b: BackendRef, i: nat, j: nat)
    requires ParseEntry(ing, cluster, alias).Ok?
    requires IsBackendOf(ing.rules, ParseEntry(ing, cluster, alias).value.service, b, i, j)
    ensures ParseEntry(ing, cluster, alias).value.port == PortOf(cluster, b) == b.port.number != 0
  {
    BackendOfIff(ing.rules, b.service, b);
  }

  // ---------------------------------------------------------------- errors

  /** Why an entry is refused, in the order of the tests; a service that no rule mentions, and an
      entry without a colon, make the original panic. */
  lemma EntryErrors(ing: Ingress, cluster: Cluster, alias: string)
    ensures var (val, r) := (Split(alias, ':'), ParseEntry(ing, cluster, alias));
            var port := PortByName(cluster, ing.rules, val[0]);
            && (r == Err(MissResources(val[0])) <==> val[0] !in cluster || port == Some(0))
            && (r == Err(Panic) <==> val[0] in cluster && (port == None || (port != Some(0) && |val| == 1)))
            && (r == Err(InvalidContent) <==>
                  val[0] in cluster && port.Some? && port != Some(0) && |val| >= 2 && !IsWeightPrefix(val[1]))
  {
  }
}
