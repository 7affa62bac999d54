/** When a path may be a regular expression: `checkIngressContent` and `formatPath` for the paths of
    an Ingress, `check` and `formatProxyPath` for the proxy annotation. */
module ProxyRules {
  import opened Validators

  /** The rewrite annotations. */
  datatype Rewrite = Rewrite(target: string, enableRegex: bool)
  {
    predicate Used() { enableRegex || target != "" }
  }

  datatype ContentError = MissingAnnotation | NotARegex

  datatype Checked = Passed | Refused(error: ContentError)

  /** `checkIngressContent`, in the order of its tests. */
  function CheckContent(path: string, rewrite: Rewrite): Checked {
    if IsRegexPatternRegex(path) && !rewrite.enableRegex && rewrite.target == "" then Refused(MissingAnnotation)
    else if rewrite.enableRegex && !IsRegexPatternRegex(path) then Refused(NotARegex)
    else if rewrite.target != "" && !IsRegexPatternRegex(path) then Refused(NotARegex)
    else Passed
  }

  /** `formatPath`. */
  function FormatPath(path: string, rewrite: Rewrite): string {
    if rewrite.enableRegex || rewrite.target != "" then "~ ^" + path else path
  }

  /** How nginx must be told about a path: as a regular expression if it looks like one. */
  function LocationFor(path: string): string {
    if IsRegexPatternRegex(path) then "~ ^" + path else path
  }

  /** How nginx reads the text of a location: a pattern, or the start of a path. */
  datatype Matcher = Pattern(regex: string) | Prefix(start: string)

  function ReadLocation(text: string): Matcher {
    if |text| >= 2 && text[..2] == "~ " then Pattern(text[2..]) else Prefix(text)
  }

  /** A path that looks like a regular expression becomes a pattern for the start of paths, and any
      other one the start itself. */
  lemma LocationReads(path: string)
    requires path != "" && path[0] == '/'
    ensures ReadLocation(LocationFor(path)) == if IsRegexPatternRegex(path) then Pattern("^" + path) else Prefix(path)
  {
    var text := "~ ^" + path;
    assert text[..2] == "~ " && text[2..] == "^" + path;
  }

  /** Why a path is refused: it looks like a regular expression and no annotation says so, or one
      says so and it does not. */
  lemma ContentErrors(path: string, rewrite: Rewrite)
    ensures CheckContent(path, rewrite) == Refused(MissingAnnotation) <==> IsRegexPatternRegex(path) && !rewrite.Used()
    ensures CheckContent(path, rewrite) == Refused(NotARegex) <==> !IsRegexPatternRegex(path) && rewrite.Used()
  {
  }

  /** A path passes exactly when it looks like a regular expression if and only if a rewrite
      annotation is used; and then its location follows from the path alone. */
  lemma ContentLaw(path: string, rewrite: Rewrite)
    ensures CheckContent(path, rewrite) == Passed <==> (IsRegexPatternRegex(path) <==> rewrite.Used())
    ensures CheckContent(path, rewrite) == Passed ==> FormatPath(path, rewrite) == LocationFor(path)
  {
  }

  /** Different accepted paths get different locations, even under different annotations: the
      prefix of a regular location is the start of no plain path that is one. */
  lemma LocationsInjective(p: string, q: string)
    requires p != "" && q != "" && p[0] == q[0] == '/'
    ensures LocationFor(p) == LocationFor(q) ==> p == q
  {
    if LocationFor(p) == LocationFor(q) {
      var l := LocationFor(p);
      if IsRegexPatternRegex(p) {
        assert l[3..] == p && l[0] == '~';
        assert l[3..] == q;
      } else {
        assert l[0] == '/';
      }
    }
  }

  // ---------------------------------------------------------------- the proxy annotation

  datatype ProxyConfig = ProxyConfig(
    path: string, host: string, target: string, targetPath: string, ssl: bool, enableRegex: bool)

  datatype ProxyError = InvalidTarget | InvalidPath | InvalidHost

  datatype ProxyResult = Config(config: ProxyConfig) | Invalid(error: ProxyError)

  /** `check`, then the target path and the formatted path that `Parse` fills in. */
  function ParseProxy(raw: ProxyConfig): ProxyResult {
    if raw.target != "" && !IsTargetPathRegex(raw.target) then Invalid(InvalidTarget)
    else if IsRegexPatternRegex(raw.path) && !raw.enableRegex && raw.target == "" then Invalid(InvalidPath)
    else if raw.enableRegex && !IsRegexPatternRegex(raw.path) then Invalid(InvalidPath)
    else if raw.target != "" && !IsRegexPatternRegex(raw.path) then Invalid(InvalidPath)
    else if PassIsIp(raw.host) && raw.ssl then Invalid(InvalidHost)
    else
      var filled := raw.(targetPath := raw.path);
      Config(filled.(path := if filled.target != "" || filled.enableRegex then "~ ^" + filled.path else filled.path))
  }

  /** The proxy annotation obeys the same law, given a usable target and a host that is not an
      address behind TLS. */
  lemma ProxyLaw(raw: ProxyConfig)
    ensures ParseProxy(raw).Config? <==>
            && (raw.target == "" || IsTargetPathRegex(raw.target))
            && !(PassIsIp(raw.host) && raw.ssl)
            && (IsRegexPatternRegex(raw.path) <==> Rewrite(raw.target, raw.enableRegex).Used())
    ensures ParseProxy(raw).Config? ==>
            ParseProxy(raw).config == raw.(targetPath := raw.path, path := LocationFor(raw.path))
  {
  }

  /** Which of its faults the annotation is refused for: the target first, then the path, then the
      host. */
  lemma ProxyErrors(raw: ProxyConfig)
    ensures var badTarget := raw.target != "" && !IsTargetPathRegex(raw.target);
            var badPath := IsRegexPatternRegex(raw.path) != Rewrite(raw.target, raw.enableRegex).Used();
            && (ParseProxy(raw) == Invalid(InvalidTarget) <==> badTarget)
            && (ParseProxy(raw) == Invalid(InvalidPath) <==> !badTarget && badPath)
            && (ParseProxy(raw) == Invalid(InvalidHost) <==> !badTarget && !badPath && PassIsIp(raw.host) && raw.ssl)
  {
  }
}
