/** The words of the two upstreams schemas, and their spelling. A field is a name; the spelling is
    injective, which is what lets a reader look a field up in a block by its printed key. The names
    are grouped by the document they first appear in, so that each group is a small function. */
module SchemaWords {
  import opened Wrappers
  import Layout

  datatype Name =
    | KInternalPaths | KServers | KSslEnabled | KStickySessions | KUpstreams | KCertificate
    | KPaths | KMatchExpr | KHttp2Enabled | KHttpsProxyEnabled | KHealthcheck | KDisableAccessLog
    | KConnectionTimeout | KReadTimeout | KWriteTimeout | KIdleTimeout | KMaxBodySize | KRedirect
    | KStatus | KLocation | KRequestHeaders | KResponseHeaders | KVersion | KProxy | KEnabled
    | KInternal | KPath | KUpstream | KHosts | KTls | KPassthrough | KTerminate | KCert
    | KForceHttps | KHealthCheck | KType | KTimeouts | KConnect | KRead | KWrite | KIdle
    | KHeaders | KRequest | KResponse | KAddress | KAddr

  /** The word with this length, first and third character. */
  function WordWith(len: nat, first: char, third: char): Option<Name> {
    match len
    case 3 =>
      if first == 't' then Some(KTls)
      else None
    case 4 =>
      if first == 'p' then Some(KPath)
      else if first == 'c' then Some(KCert)
      else if first == 't' then Some(KType)
      else if first == 'r' then Some(KRead)
      else if first == 'i' then Some(KIdle)
      else if first == 'a' then Some(KAddr)
      else None
    case 5 =>
      if first == 'p' && third == 't' then Some(KPaths)
      else if first == 'p' && third == 'o' then Some(KProxy)
      else if first == 'h' then Some(KHosts)
      else if first == 'w' then Some(KWrite)
      else None
    case 6 =>
      if first == 's' then Some(KStatus)
      else None
    case 7 =>
      if first == 's' then Some(KServers)
      else if first == 'v' then Some(KVersion)
      else if first == 'e' then Some(KEnabled)
      else if first == 'c' then Some(KConnect)
      else if first == 'h' then Some(KHeaders)
      else if first == 'r' then Some(KRequest)
      else if first == 'a' then Some(KAddress)
      else None
    case 8 =>
      if first == 'r' && third == 'd' then Some(KRedirect)
      else if first == 'l' then Some(KLocation)
      else if first == 'i' then Some(KInternal)
      else if first == 'u' then Some(KUpstream)
      else if first == 't' then Some(KTimeouts)
      else if first == 'r' && third == 's' then Some(KResponse)
      else None
    case 9 =>
      if first == 'u' then Some(KUpstreams)
      else if first == 't' then Some(KTerminate)
      else None
    case 10 =>
      if first == 'm' then Some(KMatchExpr)
      else None
    case 11 =>
      if first == 's' then Some(KSslEnabled)
      else if first == 'c' then Some(KCertificate)
      else if first == 'h' then Some(KHealthcheck)
      else if first == 'p' then Some(KPassthrough)
      else if first == 'f' then Some(KForceHttps)
      else None
    case 12 =>
      if first == 'r' then Some(KReadTimeout)
      else if first == 'i' then Some(KIdleTimeout)
      else if first == 'h' then Some(KHealthCheck)
      else None
    case 13 =>
      if first == 'h' then Some(KHttp2Enabled)
      else if first == 'w' then Some(KWriteTimeout)
      else if first == 'm' then Some(KMaxBodySize)
      else None
    case 14 =>
      if first == 'i' then Some(KInternalPaths)
      else None
    case 15 =>
      if first == 's' then Some(KStickySessions)
      else if first == 'r' then Some(KRequestHeaders)
      else None
    case 16 =>
      if first == 'r' then Some(KResponseHeaders)
      else None
    case 18 =>
      if first == 'd' then Some(KDisableAccessLog)
      else if first == 'c' then Some(KConnectionTimeout)
      else None
    case 19 =>
      if first == 'h' then Some(KHttpsProxyEnabled)
      else None
    case _ => None
  }

  /** s spells n: it is one word, and no other word looks like it. */
  predicate Spells(s: string, n: Name) {
    Layout.IsWord(s) && |s| >= 3 && WordWith(|s|, s[0], s[2]) == Some(n)
  }

  /** Sections of a v1 file. */
  predicate FileWord(n: Name) {
    match n
    case
      KInternalPaths | KStickySessions | KUpstreams | KCertificate | KPaths | KServers | KAddress => true
    case _ => false
  }

  function SpellFile(n: Name): (s: string)
    requires FileWord(n)
    ensures Spells(s, n)
  {
    match n
    case KInternalPaths => "internal_paths"
    case KStickySessions => "sticky_sessions"
    case KUpstreams => "upstreams"
    case KCertificate => "certificate"
    case KPaths => "paths"
    case KServers => "servers"
    case KAddress => "address"
  }

  /** Sections of a v2 file. */
  predicate FileV2Word(n: Name) {
    match n
    case
      KVersion | KProxy | KEnabled | KInternal | KPath | KHosts | KTls | KPassthrough | KTerminate
      | KCert => true
    case _ => false
  }

  function SpellFileV2(n: Name): (s: string)
    requires FileV2Word(n)
    ensures Spells(s, n)
  {
    match n
    case KVersion => "version"
    case KProxy => "proxy"
    case KEnabled => "enabled"
    case KInternal => "internal"
    case KPath => "path"
    case KHosts => "hosts"
    case KTls => "tls"
    case KPassthrough => "passthrough"
    case KTerminate => "terminate"
    case KCert => "cert"
  }

  /** Switches of a v1 route. */
  predicate OptionWord(n: Name) {
    match n
    case
      KMatchExpr | KSslEnabled | KHttp2Enabled | KHttpsProxyEnabled | KHealthcheck
      | KDisableAccessLog => true
    case _ => false
  }

  function SpellOption(n: Name): (s: string)
    requires OptionWord(n)
    ensures Spells(s, n)
  {
    match n
    case KMatchExpr => "match_expr"
    case KSslEnabled => "ssl_enabled"
    case KHttp2Enabled => "http2_enabled"
    case KHttpsProxyEnabled => "https_proxy_enabled"
    case KHealthcheck => "healthcheck"
    case KDisableAccessLog => "disable_access_log"
  }

  /** Numbers and lists of a v1 route. */
  predicate LimitWord(n: Name) {
    match n
    case
      KConnectionTimeout | KReadTimeout | KWriteTimeout | KIdleTimeout | KMaxBodySize
      | KRequestHeaders | KResponseHeaders => true
    case _ => false
  }

  function SpellLimit(n: Name): (s: string)
    requires LimitWord(n)
    ensures Spells(s, n)
  {
    match n
    case KConnectionTimeout => "connection_timeout"
    case KReadTimeout => "read_timeout"
    case KWriteTimeout => "write_timeout"
    case KIdleTimeout => "idle_timeout"
    case KMaxBodySize => "max_body_size"
    case KRequestHeaders => "request_headers"
    case KResponseHeaders => "response_headers"
  }

  /** Fields of a v2 route. */
  predicate PartWord(n: Name) {
    match n
    case
      KRedirect | KStatus | KLocation | KUpstream | KForceHttps | KHealthCheck | KType | KTimeouts
      | KConnect | KRead | KWrite | KIdle | KHeaders | KRequest | KResponse | KAddr => true
    case _ => false
  }

  function SpellPart(n: Name): (s: string)
    requires PartWord(n)
    ensures Spells(s, n)
  {
    match n
    case KRedirect => "redirect"
    case KStatus => "status"
    case KLocation => "location"
    case KUpstream => "upstream"
    case KForceHttps => "force_https"
    case KHealthCheck => "health_check"
    case KType => "type"
    case KTimeouts => "timeouts"
    case KConnect => "connect"
    case KRead => "read"
    case KWrite => "write"
    case KIdle => "idle"
    case KHeaders => "headers"
    case KRequest => "request"
    case KResponse => "response"
    case KAddr => "addr"
  }

  function Spell(n: Name): (s: string)
    ensures Spells(s, n)
  {
    if FileWord(n) then SpellFile(n)
    else if FileV2Word(n) then SpellFileV2(n)
    else if OptionWord(n) then SpellOption(n)
    else if LimitWord(n) then SpellLimit(n)
    else SpellPart(n)
  }

  /** No two words are spelled alike. */
  lemma SpellInjective(a: Name, b: Name)
    requires Spell(a) == Spell(b)
    ensures a == b
  {
    assert Spells(Spell(a), a) && Spells(Spell(b), b);
  }
}
