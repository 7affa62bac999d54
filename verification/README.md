# Verification of ingress-nginx-kubebuilder

The controller turns `Ingress` objects into configuration files for nginx, tries each file with
`nginx -t` before it stays in place, and tells nginx to load it. This project models that behaviour in
Dafny and proves properties of the model, over all inputs, all failures and all interleavings unless a
line below says otherwise. `dafny verify dfyconfig.toml` checks the whole project.

## What is modelled

**Deployment.** `Nginx` holds the reload transaction: the class `Host` updates a file map and an event
log step by step, as `backupConf`, `generateConf`, `CleanConf` and `reload` do, and each method equals a
function of the old state. An `Env` says which views nginx accepts, whether `nginx -t` can be run, how
every write ends (complete, torn, refused), which removals work, and whether SIGHUP arrives. `ReloadLaws`
proves what the transaction leaves behind, `Signals` what it tests and what it signals, `ConfNames` when
the files of two ingresses meet. `Rollout` proves that every run of deployments and deletions refines a
plain map from ingress to content.

**Concurrency.** `Interleaving` cuts the transaction into single file system accesses, writing a file into
a step that truncates it and one that fills it, and runs it against the watcher and an nginx that handles
signals late. `Convergence` proves that everything settles, for files of `conf.d` and for the main file,
and `Divergence` that its condition on the main file is exact.

**Translation.** `Lookup` finds services and ports, `ProxyRules` holds the rules about regular expressions
in paths, `Translate` builds the servers and backends in preallocated slices, `Template` renders them to
upstreams, servers and locations and follows a request through them, and `Routing` proves that the request
ends where the Ingress says. `Tls` builds the table of certificate files and follows it into the server
blocks.

**From an Ingress to its requests.** `Loading` states the rule of nginx that an upstream name is defined
once, and derives which rendered files are never loaded; `UpstreamNames` says which ingresses can clash.
`Requests` follows a request through all files: nginx keeps the first server block of a host, main file
first and then the included files by name, and looks upstreams up everywhere. `Delivery` joins both halves:
it says exactly which paths of a committed Ingress are served, and that those are served as written; a
refused Ingress changes nothing.

**Annotations, admission, certificates.** `WeightList` and `IpList` are the parsers of two small languages,
`Extraction` the fold over all parsers in the arbitrary order of a map, `Admission` the validating webhook
with its append through a shared pointer, and `Certificates` the reconciliation of issuer and certificate.
`Regexp` gives every expression a language and a matcher by derivatives that decides it; `Validators` writes
down the patterns of the source in it and characterises what they accept. `Text` and `Bags` are the string
and multiset operations underneath.

## What the code does that its texts do not say

- The comment on the allow list (`internal/annotations/ipallowlist/main.go:39`) shows addresses with
  masks; the pattern refuses them (`IpList.MaskedListIsRefused`).
- The message "not allow duplicate path" (`api/v1/ingress_webhook.go:132`) promises more than the loop
  looks for: only neighbours are compared. `Admission.AcceptedIsDistinctIff` says for which lists that is
  enough, `Admission.SeparatedDuplicateIsAdmitted` gives one for which it is not.
- The constant `proxyPathAnnotation` of the webhook holds the name of the proxy-host annotation, and its
  value, a host, is appended to the paths of the object in memory. `Admission.SecondCallIff` concerns
  repeated calls on one object; the webhook decodes a fresh object for each request, and makes one.
- An Ingress that uses one Service behind two paths, or weights with two or more rules, renders to a file
  that defines an upstream twice. nginx refuses it, so that such an Ingress is never deployed
  (`Loading.RepeatedServicesAreRefused`), although the webhook admits it (`Delivery.AdmittedButRefused`).
- When an Ingress has both an allow and a deny list, the deny list is never looked at
  (`Routing.AccessAsWritten`): the first list ends with `deny all`.
- Nothing looks at hosts. When two rules of an Ingress, or two Ingresses, have the same host, both are
  committed, and nginx ignores all server blocks but the first with a warning: the paths of the other rule
  are on disk and loaded, and get no request (`Delivery.PathIsServed`, `Delivery.LoserGoesElsewhere`).
- Deleting an Ingress that has no file resets the main file, whoever put a default backend there, and
  deleting one that has a file leaves its default backend behind (`Rollout.ClearTouchesMainIff`).
- A backend that names its port instead of numbering it never resolves (`Lookup.NamedPortNeverResolves`).
- A failed test restores the production file, except that an empty candidate destroys a production file
  untested (`ReloadLaws.RejectionIsAtomic`) and that a failed overwrite is not rolled back
  (`ReloadLaws.RejectionSparesProductionIff`).
- On a first reload nginx is signalled while the candidate is on disk twice; a file that defines an
  upstream is refused then and loaded only by the removal that follows (`Loading.FirstSignalLoadsIff`).
- The main file lies outside the watched directory. A bad candidate for it can make the watcher drop the
  event of an earlier deletion, after which nginx keeps the deleted file with nothing left to do; and
  a signal that arrives while the main file is truncated can make nginx load that, if it accepts an empty
  main file. `Divergence.MainRequestIff` gives the exact condition.
- An empty candidate does harm (`ReloadLaws.RejectionIsAtomic`, `Rollout.EmptyIsStuck`), but both templates
  render text that is not empty, so that one comes only from a direct call of the reload.
- Two ingresses whose namespaces are dash-separated tails of one another, or of one followed by `-test`,
  can share files (`ConfNames.SafeIffSeparate`).
- In `generateCaTlsFile` the variable `ssl` survives from host to host, so that a secret without a
  certificate inherits the one of another host (`Tls.FilesLeakToNextHost`).

## Model

| member | source | states |
|---|---|---|
| Nginx.Host.GenerateConf | internal/nginx/nginx.go:41-55 | succeeds exactly when there is nothing to copy or the whole of a non-empty source was written, and then the destination holds it; no other file changes, however the write ends |
| Nginx.Host.BackupConf | internal/nginx/nginx.go:18-32 | backup, overwrite, and the deferred removal of the test file, on every error path |
| Nginx.Host.CleanConf | internal/nginx/nginx.go:57-66 | removes the files that exist and can be removed, one event each |
| Nginx.Host.ReloadConf | internal/nginx/nginx.go:72-117 | the whole transaction, with roll-back, commit, signal and the deferred clean-up, equals a function of the old files, and it reports success exactly when there was nothing to do or every copy worked, nginx did not refuse the candidate and the signal arrived |
| Nginx.ReloadReturns | internal/nginx/nginx.go:82-116 | what a reload returns whatever fails, in terms of the files and the environment: success, the error of the test, of a copy, or of the signal |
| Nginx.DeployReturns | internal/controller/nginx.go:76-95 | a deployment succeeds exactly when the candidate is written whole and its reload succeeds; a candidate that is not is an error, and nothing else is done |
| Nginx.IncludedIff | rootfs/etc/nginx/template/nginx.tmpl:35 | which files the include of the main file picks up |
| Nginx.Host.ReloadIfWatchFileCurd | internal/nginx/nginx.go:119-132 | changes no file, signals only a view that nginx accepted if the test could be run, and signals whenever that and delivery allow |
| Nginx.Host.DeployConf | internal/controller/nginx.go:76-95 | writes the candidate and the copy beside the main file, whose failure is ignored, then reloads |
| Nginx.Host.ClearConf | internal/controller/ingress_controller.go:218-236 | removes the file of the ingress without a signal, or redeploys the default main file when there is none |
| ReloadLaws.ReloadReplaces | internal/nginx/nginx.go:72-117 | without I/O failures the transaction equals one conditional replacement of the production file and the removal of test and backup file, on the first and on every later reload |
| ReloadLaws.RejectionIsAtomic | internal/nginx/nginx.go:95-106 | after a rejection all files are as before, less test and backup file, exactly when no empty candidate met a production file with content |
| ReloadLaws.RejectionSparesProductionIff | internal/nginx/nginx.go:18-32 | with writes failing in any way, a rejected candidate leaves the production file intact exactly when it was not overwritten or was written back |
| ReloadLaws.ReloadKeepsOthers | internal/nginx/nginx.go:76-80 | whatever fails, a reload touches no file but its three |
| ReloadLaws.IngressesDoNotInterfere | internal/controller/nginx.go:166-169 | deploying or clearing one ingress, also when clearing resets the main file, leaves the files of every ingress with separate names unchanged, whatever fails |
| ConfNames.SeparateIff | internal/nginx/nginx.go:76-78 | the files of two ingresses are disjoint exactly when their bases differ and neither is the other followed by `-test` |
| ConfNames.SafeIffSeparate | internal/controller/nginx.go:169 | the exact condition on a set of namespaces under which all ingresses with names that Kubernetes accepts have disjoint files |
| ConfNames.DashFreeIsSafe | internal/controller/nginx.go:169 | namespaces without a dash and other than `test` suffice |
| ConfNames.DashedNamespacesMeet | internal/controller/ingress_controller.go:219 | a dashed namespace and its tail give two ingresses the same files |
| ConfNames.TestNamespaceMeets | internal/nginx/nginx.go:76-77 | in namespace `test` a production file is another ingress's test file |
| Rollout.PutRefines | internal/controller/nginx.go:158-183 | deploying refines one step of the map: the content takes effect exactly when the map with it is valid, and an equal content changes nothing |
| Rollout.DeleteRefines | internal/controller/ingress_controller.go:218-236 | clearing refines the removal of the key, or the redeployment of the default main file |
| Rollout.RunRefines | internal/nginx/nginx.go:72-117 | every run of deployments and deletions over safe namespaces, empty contents included, refines the run of the map |
| Rollout.RunsStayValid | internal/nginx/nginx.go:95-110 | over a run of non-empty contents the files on disk stay loadable, if deletions cannot break them |
| Rollout.EmptyIsStuck | internal/nginx/nginx.go:48-51 | an empty production file stays on disk, and stays empty, through every run without a deletion of it |
| Rollout.ClearTouchesMainIff | internal/controller/ingress_controller.go:218-236 | exactly when clearing an ingress replaces the main file, and with it the default backend of another ingress; otherwise the main file stays, also a default backend of its own |
| Signals.LaterSignalsWhatItTested | internal/nginx/nginx.go:88-114 | on a later reload the view tested, the view signalled and the view left behind are the same, with the exact event sequence |
| Signals.FirstSignalsTwoCopies | internal/nginx/nginx.go:91-114 | on a first reload the view signalled has exactly one copy of the candidate more than the view tested, and the clean-up restores the bag |
| Loading.FirstSignalLoadsIff | internal/nginx/nginx.go:108-114 | the signal of a first reload finds a view that nginx can load exactly when the candidate defines no upstream |
| Signals.RemovalFollowsWrite | internal/nginx/nginx.go:19-80 | on every exit path, whatever writes fail, a removal of the test or backup file follows each write of the production file |
| Signals.ReloadIsLogged | internal/nginx/nginx.go:72-117 | whatever fails, no file changes in a reload without an event of its own |
| Convergence.NextKeepsInv | pkg/utils/file/file_watcher.go:32-51 | every step of reloader, watcher and nginx, for files of conf.d and for the main file, keeps the invariant that a loadable disk which nginx does not run is owed to it |
| Convergence.Converged | internal/nginx/nginx.go:119-132 | under every interleaving of deployments, deletions, safe requests for the main file, and half-done writes, nothing in progress and a valid disk imply that nginx runs what is on disk; `RequestIsDeploy`, `ClearIsClear` and `WatchIsCallback` tie its steps to the operations |
| Convergence.DeletedAtRest | internal/controller/ingress_controller.go:218-236 | a deletion takes: at rest after it, under every interleaving in which nobody asks for the file again, it is neither on disk nor, if the disk is loadable, run by nginx |
| Divergence.MainRequestIff | internal/controller/nginx.go:185-212 | a request for the main file converges under every schedule if and only if it is safe, a condition on the disk, on what nginx runs and on the new content that can be checked before the call |
| Interleaving.InternalRunsEnd | pkg/utils/file/file_watcher.go:32-51 | every schedule without new requests ends within a bound, and ends exactly in a quiescent state |
| Interleaving.StepsAreReload | internal/nginx/nginx.go:72-117 | the single steps, run alone, are the transaction: same files, same removal events, same signal |
| Interleaving.RequestIsDeploy | internal/controller/nginx.go:76-95 | a request driven to its end is a deployment: same files, removal events and signal |
| Interleaving.ClearIsClear | internal/controller/ingress_controller.go:218-236 | clearing an ingress, present or not, driven to its end, changes files, removal events and signals as `clearConf` does |
| Interleaving.WatchIsCallback | internal/nginx/nginx.go:119-132 | the steps of the watcher are its callback: same files, and a signal exactly when the callback signals |
| Divergence.UnsafeDiverges | internal/controller/nginx.go:185-212 | from every unsafe request some schedule without faults ends quiescent, with the old valid disk, and with nginx running something else |
| Lookup.GetBackend | internal/controller/store/ingressInfo.go:67-81 | the nested loops with the inner break equal the lookup function |
| Lookup.BackendOfIff | internal/controller/store/ingressInfo.go:67-81 | the lookup finds a backend exactly when it is the first match inside the last rule that mentions the service |
| Lookup.GetSvcPort | internal/controller/store/ingressInfo.go:86-99 | the port loop for a backend given by value equals the port function |
| Lookup.GetSvcPortByName | internal/controller/store/ingressInfo.go:100-117 | the port of a service given by name, with the nil pointer of an unmentioned service as an explicit outcome |
| Lookup.UnmentionedHasNone | internal/controller/store/ingressInfo.go:67-81 | that outcome occurs exactly when no rule mentions the service |
| ProxyRules.ContentLaw | internal/controller/nginx.go:390-428 | a path passes exactly when it looks like a regular expression iff a rewrite annotation is used; then its location is regular exactly when the path is |
| ProxyRules.ContentErrors | internal/controller/nginx.go:398-428 | which error a refused path gets |
| ProxyRules.LocationReads | internal/controller/nginx.go:390-396 | nginx reads the location of a path as a pattern for the start of paths exactly when the path looks like one, and as the path itself otherwise |
| ProxyRules.ProxyLaw | internal/annotations/proxy/main.go:112-158 | the proxy annotation obeys the same law, with its exact acceptance condition |
| ProxyRules.ProxyErrors | internal/annotations/proxy/main.go:120-158 | which of its faults a proxy annotation is refused for |
| ProxyRules.LocationsInjective | internal/controller/nginx.go:390-396 | for paths that start with a slash, different paths give different locations |
| Translate.BuildBackends | internal/controller/nginx.go:264-298 | the truncating append on a preallocated slice ends with one backend per selected path, in order, and no empty slot |
| Translate.GetBackendConfigure | internal/controller/nginx.go:251-312 | one server per rule in rule order, or the error of the first rule that fails |
| Translate.TranslationUnique | internal/controller/nginx.go:251-312 | an Ingress has at most one translation |
| Translate.BackendErrors | internal/controller/nginx.go:271-285 | why a path has no backend, in the order of the tests |
| Template.GenerateConfigure | internal/controller/nginx.go:98-137 | the accumulated blocks are one rendered block per server, in order |
| Routing.AccessAsWritten | rootfs/etc/nginx/template/server.tmpl:45-59 | whom the access rules of a rendered server block let in, in terms of the two annotation texts: with an allow list exactly its addresses, otherwise all but those of the deny list |
| Routing.LocationsAsWritten | rootfs/etc/nginx/template/server.tmpl:61-143 | the locations of a rendered server block, in order, with pattern, handler and rewrite of the redirect, of the proxy annotation as it was written, and of each path |
| Routing.NamesUniqueIff | rootfs/etc/nginx/template/server.tmpl:3-17 | upstream names are unique exactly when all services of all paths are distinct, or with weights when there is at most one rule |
| Routing.ReferencesClosed | rootfs/etc/nginx/template/server.tmpl:188-192 | every backend location passes to an upstream that the same file defines, in both modes |
| Routing.RoutingPreserved | rootfs/etc/nginx/template/server.tmpl:138-196 | in a file that nginx can load, for every way of choosing a location, a request for the first rule of its host that ends at the location of a path reaches one address, which reads as the service, the namespace and the port of the path |
| Addresses.AddressReads | rootfs/etc/nginx/template/server.tmpl:13 | the printed address splits at its dots into service, namespace and `svc:` with a decimal of the value of the port |
| Routing.RequestElsewhere | rootfs/etc/nginx/template/server.tmpl:19-20 | a request finds no server exactly when no rule has its host, and no location exactly when none is chosen |
| Routing.WeightedRouting | rootfs/etc/nginx/template/server.tmpl:3-8 | in a file that nginx can load, with weights a request for any path is balanced over the weighted services |
| Routing.CollapsesLosslessly | internal/controller/nginx.go:264-266 | with weights the one location of an accepted rule is the location of each of its paths |
| Delivery.RequestLeaves | rootfs/etc/nginx/template/server.tmpl:61-135 | where the redirect and the external proxy lead, and requests that end at no location; an upstream of that name anywhere in the configuration takes the requests meant for the proxy host |
| UpstreamNames.UpstreamNamesMeetIff | rootfs/etc/nginx/template/server.tmpl:3-17 | two ingresses, each with or without weights, can define the same upstream name exactly when one base is the other, or its tail behind what can follow a service in the names of the other |
| UpstreamNames.FilesDoNotMeet | rootfs/etc/nginx/template/server.tmpl:3-17 | the rendered files of two ingresses, each with or without weights, whose bases do not meet define no upstream in common |
| Loading.DuplicatesAreRefused | internal/nginx/nginx.go:95-106 | deploying a file that defines an upstream twice leaves every file nginx reads as it was |
| Loading.RepeatedServicesAreRefused | rootfs/etc/nginx/template/server.tmpl:3-17 | an Ingress whose services repeat over its paths, or one with weights and two or more rules, is never deployed, and production stays as it is |
| Delivery.PathIsServed | rootfs/etc/nginx/template/server.tmpl:19-20 | in a configuration that nginx accepted, a path of a rendered Ingress takes requests if and only if no earlier rule and no earlier file has its host; then they go to the service and port of the path or to the lines of the weight list, otherwise an earlier server block takes all requests for the host |
| Delivery.LoserGoesElsewhere | rootfs/etc/nginx/template/server.tmpl:9-17 | where another Ingress has the host, its requests reach what the losing path asks for exactly when service, namespace and port are the same |
| Requests.GoesOnce | rootfs/etc/nginx/template/server.tmpl:188-192 | in a configuration that nginx accepted a request goes to one place |
| Delivery.CommittedOrUnchanged | internal/controller/nginx.go:158-183 | deploying an Ingress takes effect exactly when nginx accepts the configuration with it, and then each of its paths is served exactly as `Delivery.PathIsServed` says; otherwise nothing nginx reads changes |
| Delivery.RunsRoute | internal/controller/nginx.go:158-183 | after every run of deployments and deletions, the same holds of every Ingress whose file is in place |
| Delivery.MeetingIsRefused | rootfs/etc/nginx/template/server.tmpl:11 | an Ingress that would define an upstream of another deployed one is refused without a trace |
| Delivery.RunningRoutes | internal/nginx/nginx.go:148-163 | at every moment of every interleaving, whatever goes wrong, the same holds of every rendered file that nginx runs |
| Delivery.ServedAtRest | pkg/utils/file/file_watcher.go:32-51 | when any interleaving of benign steps has come to rest on a valid disk, nginx runs the file of every Ingress on disk, and the same holds of it |
| Delivery.AdmittedButRefused | api/v1/ingress_webhook.go:108-138 | an Ingress with different, non-empty paths and a repeated service, or with weights and two or more rules, is admitted by the webhook and never deployed |
| Tls.Directory.GenerateCa | internal/controller/nginx.go:356-388 | the table of the mentions before the first that cannot be processed, with the pair carried from host to host; on success also the files of all secrets in order |
| Tls.Directory.GenerateCrd | internal/controller/nginx.go:323-353 | one pair, named after the Ingress, for every host, and the files of the secret; an empty table exactly when the secret is missing or a write is refused |
| Tls.OwnFilesIff | internal/controller/nginx.go:357-384 | a host is given its own certificate and key exactly when, up to its last mention, the latest secret holding each was one of its own |
| Tls.CompleteSecretsSuffice | internal/controller/nginx.go:359-385 | secrets that hold both give every host its own files |
| Tls.HostServesItsSecret | internal/controller/nginx.go:359-385 | with such secrets and no colliding file names, the files a host is given hold, at the end, the bytes of its last mention |
| Tls.ServerCertificate | rootfs/etc/nginx/template/server.tmpl:25-28 | a rendered server block carries certificates exactly when its host was processed, and its own exactly under the condition above |
| Tls.FilesLeakToNextHost | internal/controller/nginx.go:357-384 | a secret with only a key pairs it with the certificate of the host before |
| WeightList.SamePaths | internal/annotations/weight/main.go:76-90 | the path loop accepts exactly some empty paths followed by copies of one path |
| WeightList.Check | internal/annotations/weight/main.go:75-143 | paths first, then the list; for every printed list the result has one line for each item in order, the address of the service and the very text of the weight, or `down` for zero, and an upstream named after services, ingress and namespace |
| WeightList.ReadList | internal/annotations/weight/main.go:92-138 | the loop that grows name and lines gives the lines in order and the dash-join of the services |
| WeightList.RoundTrip | internal/annotations/weight/main.go:92-138 | printing any list with any blanks and empty entries and parsing it gives the list back, with the ports of the cluster |
| WeightList.PrintedListShows | internal/annotations/weight/main.go:118-137 | the same of the parse of a printed list |
| WeightList.AcceptedHasNormalForm | internal/annotations/weight/main.go:92-138 | every accepted text means the same as the plain list of its entries |
| WeightList.PortIsFromLastMention | internal/annotations/weight/main.go:113-116 | the port of a weighted service is that of the first match in the last rule that mentions it |
| WeightList.EntryErrors | internal/annotations/weight/main.go:107-120 | why an entry is refused, and when the original panics |
| IpList.Parse | internal/annotations/ipallowlist/main.go:40-66 | succeeds exactly when all entries are addresses, with the strictly sorted list of their set; otherwise names an offending entry |
| IpList.WrittenList | internal/annotations/ipallowlist/main.go:48-53 | a list written with any blanks around and between its entries means exactly the set of its entries |
| IpList.DependsOnSet | internal/annotations/ipdenylist/main.go:46-63 | acceptance and result depend only on the set of entries; the deny list has the same loop |
| IpList.Canonical | internal/annotations/ipallowlist/main.go:48-65 | the result, joined and parsed again, gives exactly itself |
| IpList.MaskedListIsRefused | internal/annotations/ipallowlist/main.go:38-39 | every list with a masked address anywhere in it, such as the two of the comment, is refused |
| Regexp.MatchesIn | internal/annotations/parser/validators.go:13-17 | the matcher decides the language, for every expression and text |
| Validators.IpLanguage | internal/annotations/parser/validators.go:42-46 | accepted are exactly the texts that split into four runs of digits with any character between them |
| Validators.DottedQuadIsIp | internal/annotations/parser/validators.go:42-46 | every dotted quad of digit runs is accepted |
| Validators.IpShape | internal/annotations/parser/validators.go:42-46 | accepted texts have at least 7 characters, a digit at both ends and at most three non-digits |
| Validators.WeightLanguage | internal/annotations/parser/validators.go:63-67 | accepted are exactly `weight=` and a decimal without leading zeros |
| Validators.PathLanguage | internal/annotations/parser/validators.go:13-17 | a path looks like a regular expression exactly when it starts with a slash and, before any newline, holds non-empty parentheses or brackets |
| Validators.TargetLanguage | internal/annotations/parser/validators.go:30-34 | accepted targets are a slash with a word character, or the number of a group with or without a slash |
| Validators.HostLanguage | internal/annotations/parser/validators.go:48-55 | a host is valid exactly when somewhere a dot stands between a character of the class and a lower-case letter |
| Extraction.Extract | internal/annotations/annotations.go:59-113 | in any order, succeeds exactly when no parser fails, with the merged record; otherwise the error of one that fails |
| Extraction.WhatEachKindDoes | internal/annotations/annotations.go:66-104 | which kinds of error end the extraction, and which drop or keep the value |
| Extraction.Confluent | internal/annotations/annotations.go:65-105 | any two orders both fail or give the same record |
| Extraction.ErrorsDependOnOrder | internal/annotations/annotations.go:65-100 | which error is returned depends on the order |
| Admission.CheckPaths | api/v1/ingress_webhook.go:124-135 | the inner loop: accepts exactly a non-empty head and no equal neighbours, unless weights end the check |
| Admission.ValidPathAndHost | api/v1/ingress_webhook.go:108-138 | verdict and new path lists of all rules, those after the deciding rule untouched |
| Admission.ValidData | api/v1/ingress_webhook.go:88-106 | a spec without rules and default backend is refused first |
| Admission.AdmittedIff | api/v1/ingress_webhook.go:108-138 | without weights, admitted exactly when all hosts fit and all extended lists are accepted |
| Admission.VerdictMeans | api/v1/ingress_webhook.go:108-138 | what each verdict says of the rule that ends the check |
| Admission.AfterMeans | api/v1/ingress_webhook.go:117-123 | a rule has the value appended exactly when all rules before it pass and its host fits; nothing else changes |
| Admission.AcceptedIsDistinctIff | api/v1/ingress_webhook.go:131-134 | an accepted list is free of duplicates exactly when its equal paths stand together |
| Admission.GroupedIsDecided | api/v1/ingress_webhook.go:131-134 | on grouped lists the loop decides: non-empty head and all distinct |
| Admission.SortedIsDecided | api/v1/ingress_webhook.go:131-134 | on the sorted list the loop finds every duplicate and every empty path |
| Admission.SeparatedDuplicateIsAdmitted | api/v1/ingress_webhook.go:131-134 | a duplicate with another path between is admitted |
| Admission.ProxyPathMeetsLastOnly | api/v1/ingress_webhook.go:118-123 | the appended value is compared with the last path only |
| Admission.SecondCallIff | api/v1/ingress_webhook.go:118-134 | calling the check again on an admitted object admits it exactly when nothing was appended, nothing is looked at, or there are no rules |
| Certificates.DomainComparison | pkg/resources/resources.go:112-121 | sorting both slices in place and comparing decides multiset equality |
| Certificates.Resources.ReconcileCert | pkg/resources/resources.go:63-141 | the new certificate, write count and error as a function of the old state |
| Certificates.Resources.Reconcile | pkg/resources/resources.go:30-51 | issuer, then certificate; nothing when the Ingress has no rules or its own TLS settings |
| Certificates.PassReturns | pkg/resources/resources.go:63-141 | when a pass writes, what it leaves, and when it reports a refused write or a missing secret |
| Certificates.ReorderedHosts | internal/controller/store/ingressInfo.go:35-42 | reordering the rules keeps the multiset of hosts |
| Certificates.SecondPassIsSilent | pkg/resources/resources.go:63-141 | after a pass that was refused no write, a second one writes nothing and reports nothing, also with reordered rules |

Hypotheses that the lemmas name: `IoWorks` and `RemovalsWork` (no failing writes, no failing removals),
`NamesDoNotMatter` (nginx judges the main file and the bag of included contents, which is what lets the
test name of a first candidate stand for its production name), `SafeNamespaces` (proved exact),
`DeletionsHarmless` (nginx accepts a configuration without one of its included files), `Benign` (in
`Convergence`: in `conf.d` removals work and a candidate is written whole; for the main file the request is
`Safe`, its own writes are whole and its signal arrives; the watcher's signal arrives), `RefusesDuplicates`
(a configuration nginx accepts defines every upstream name once) and `CopiesOtherwiseHarmless` (nothing else
makes a second copy of an included file an error), `ReadsBack` (nginx reads the text of a rendered file as
its blocks), `ValidCluster` and `ServicesValid` (service names are Kubernetes names).

## Left out

- Hashes: `file.SHA1` is identified with the content, so collisions are not modelled; a failed read hashes to `None`.
- `nginx -t` and loading: a predicate on the main file and the included files; other files nginx may read are not modelled.
- Concurrency of reconcilers: one reload runs at a time, as with the controller's single worker; a second one on other files is not modelled.
- Convergence.Converged: does not cover failing removals in conf.d, lost notification events and torn candidates in conf.d, which leave files that no event announces.
- Interleaving.RequestIsDeploy: the copy of a candidate beside the main file is written in one step, since nothing reads it meanwhile.
- Divergence.MainRequestIff: the new content is not empty, as with every rendered main file.
- The watcher of the certificate directory: appears only as a signal that may come at any time.
- Admission.ValidPathAndHost: the HTTP parts of different rules are different objects, as decoding gives them; a nil pointer is an explicit verdict.
- Panics: a missing colon or an unmentioned service in a weight list and a rule without paths under weights are explicit errors; a nil service or HTTP part in the translation is not modelled.
- WeightList.RoundTrip: entries are listed with a service of the cluster that resolves to a port; others are errors in the model and have no printed form.
- IpList.Parse: one model for the allow and the deny list, which differ in the annotation they read.
- Tls.Directory.GenerateCa: base64 decoding and file name cleaning are not modelled; a secret that cannot be read or decoded is absent from the map. After a failure the contract leaves open which files of the failing secret were written, since the order of the map decides that.
- Tls.Directory.GenerateCrd: a failed call returns an empty table, as in the source, and the files written before the failure stay.
- Certificates.Resources.Reconcile: the API server is a flag per kind of write; conflicts and reads that fail are not modelled.
- Template.GenerateConfigure: headers, buffers, TLS directives and the text of the template are not modelled, only upstreams, servers, locations and where they lead; neither is the second parse of the rendered text.
- Routing.RoutingPreserved: a server is chosen by exact host and a location by any function of the ordered patterns; the rules of nginx for wildcards, for upper and lower case, for priorities and for a host without a server block are not modelled.
- Loading.RepeatedServicesAreRefused: of the rules by which nginx refuses a file only the one about upstream names is modelled; a file may be refused for other reasons, such as a location that is repeated in a server.
- Delivery.PathIsServed: included files are read in the order of their bytes, as in the C locale, and the servers of the main file before them, as `nginx.tmpl` includes them.
- Delivery.LoserGoesElsewhere: is stated for two Ingresses without weights.
- Extraction.Extract: the merge into the record is an update of fields by name; the parsers are their outcomes.
- `Reconcile`: the order of its gates, requeueing and class selection only decide whether a deployment is attempted.
- The default backend: its content is a parameter of the deployment of the main file; its one-location rendering would add an easy case.
- The parsers for redirect, rewrite, cos and stapling annotations, `CheckAnnotations`, unused templates, and the set-up of client, manager and webhook server: no hard property.
- Process control: starting nginx, reading its pid and checking that it runs are the flag `signalled`.
