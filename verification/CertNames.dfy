/** Certificate file stems (certStem and sanitizeStem in controllers/certs.go). */
module CertNames {
  import opened Strings

  predicate StemChar(c: char) {
    'a' <= c <= 'z' || 'A' <= c <= 'Z' || '0' <= c <= '9' || c == '.' || c == '-' || c == '_'
  }

  function SanitizeStem(s: string): (r: string)
    ensures |r| == |s| && forall i :: 0 <= i < |r| ==> StemChar(r[i]) && (StemChar(s[i]) ==> r[i] == s[i])
  {
    if s == "" then ""
    else SanitizeStem(s[..|s| - 1]) + [if StemChar(s[|s| - 1]) then s[|s| - 1] else '_']
  }

  /** A concrete host has its own stem; a wildcard or no host takes the Secret's. */
  predicate HostBound(host: string) { host != "" && !HasPrefix(host, "*.") }

  function CertStem(host: string, ns: string, secret: string): string {
    SanitizeStem(if HostBound(host) then host else ns + "-" + secret)
  }
}
