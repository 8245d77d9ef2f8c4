/** Name and address tests of the policy generator (internal/cilium/wildcard.go). */
module Wildcard {
  import Scorer

  datatype PatternRisk = Safe | MediumPattern | HighPattern

  const HIGH_PATTERNS: seq<string> :=
    ["*.com", "*.net", "*.org", "*.io", "*.co", "*.de", "*.fr", "*.uk", "*.ru", "*.cn"]

  /** The high patterns that the scorer's list of large wildcards does not have. */
  const UNSCORED_PATTERNS: seq<string> := ["*.co", "*.de", "*.fr", "*.uk", "*.ru", "*.cn"]

  function WildcardRisk(fqdn: string): PatternRisk {
    if fqdn == "" then Safe
    else if !("*." <= fqdn) then Safe
    else if fqdn in HIGH_PATTERNS then HighPattern
    else MediumPattern
  }

  predicate IsAllowedInEnforce(fqdn: string) {
    WildcardRisk(fqdn) == Safe
  }

  const PRIVATE_PREFIXES: seq<string> :=
    ["10.", "172.16.", "172.17.", "172.18.", "172.19.", "172.20.", "172.21.", "172.22.", "172.23.",
     "172.24.", "172.25.", "172.26.", "172.27.", "172.28.", "172.29.", "172.30.", "172.31.",
     "192.168.", "127.", "::1"]

  predicate IsDirectPublicIp(fqdn: string, ip: string) {
    && fqdn == ""
    && ip != ""
    && forall i :: 0 <= i < |PRIVATE_PREFIXES| ==> !(PRIVATE_PREFIXES[i] <= ip)
  }

  /** A name the generator lets through both wildcard tests is safe, or one of the six
      patterns that only one of the two lists knows. */
  lemma PassesBothTests(fqdn: string)
    ensures (!Scorer.IsWildcardLarge(fqdn) && WildcardRisk(fqdn) != MediumPattern)
       <==> (IsAllowedInEnforce(fqdn) || fqdn in UNSCORED_PATTERNS)
  {
  }
}
