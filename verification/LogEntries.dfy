// A parsed log line, the actor it is charged to, and Go's time arithmetic.
module LogEntries {

  // Instants in nanoseconds; 0 is Go's zero time.
  type Time = int
  type Duration = int

  const ZERO_TIME: Time := 0
  const MAX_DURATION: Duration := 0x7FFF_FFFF_FFFF_FFFF
  const MIN_DURATION: Duration := -0x8000_0000_0000_0000

  // time.Time.Sub, which saturates instead of overflowing.
  function Sub(t: Time, u: Time): Duration {
    var d := t - u;
    if d > MAX_DURATION then MAX_DURATION else if d < MIN_DURATION then MIN_DURATION else d
  }

  // Of all durations it is the one nearest to the difference.
  lemma SubIsNearest(t: Time, u: Time, d: Duration)
    requires MIN_DURATION <= d <= MAX_DURATION
    ensures MIN_DURATION <= Sub(t, u) <= MAX_DURATION
    ensures MIN_DURATION <= t - u <= MAX_DURATION ==> Sub(t, u) == t - u
    ensures t - u > MAX_DURATION ==> d <= Sub(t, u) < t - u
    ensures t - u < MIN_DURATION ==> t - u < Sub(t, u) <= d
  {
  }

  datatype IPVersion = Invalid | IPv4 | IPv6

  // netip.Addr as a family and its bits.
  datatype Addr = NoAddr | Addr4(bits: seq<bool>) | Addr6(bits: seq<bool>)

  datatype IPInfo = IPInfo(address: string, addr: Addr, version: IPVersion)

  const NO_IP := IPInfo("", NoAddr, Invalid)

  datatype LogEntry = LogEntry(
    timestamp: Time,
    ip: IPInfo,
    httpMethod: string,
    path: string,
    protocol: string,
    referrer: string,
    statusCode: int,
    size: int,
    userAgent: string,
    vhost: string,
    website: string)

  // The key of the activity store.
  datatype Actor = Actor(ip: IPInfo, ua: string, vhost: string)

  const NO_ACTOR := Actor(NO_IP, "", "")
}
