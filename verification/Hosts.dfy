/** Host names: normalisation and the allow-list. */
module Hosts {
  import opened Basics
  import opened Text

  predicate IsHostChar(c: char) {
    '0' <= c <= '9' || 'a' <= c <= 'z' || 'A' <= c <= 'Z' || c == '.' || c == '-'
  }

  function NormalizeHost(host: string): Option<string> {
    var normalized := Lower(Before(TrimEndOf(Trim(host), '.'), ':'));
    if normalized != [] && forall i :: 0 <= i < |normalized| ==> IsHostChar(normalized[i])
    then Some(normalized) else None
  }

  predicate IsAllowedHost(host: string) {
    match NormalizeHost(host)
    case None => false
    case Some(name) =>
      var labels := Split(name, ".");
      |labels| >= 4
      && labels[0] in {"api-gateway", "client2pubsub", "client2pubsub-ipv4"}
      && labels[|labels| - 2..] == ["es-pio", "net"]
  }
}
