/**
 * The two remote lookups of src/main.rs: the public IP from ipify and the "A" records
 * of the zone from Cloudflare. The HTTP exchange itself is an input: a `Reply` is either
 * the client's error or a body that did or did not decode to the expected JSON.
 */
module Remote {
  import opened Wrappers
  import opened Types
  import opened Errors

  /** The outcome of one GET request. */
  datatype Reply<T> = Failed(error: RequestError) | Received(body: Option<T>)

  /** A GET request the daemon issues, with the value of its Authorization header if it sets one. */
  datatype Call = Get(url: string, authorization: Option<string>)

  const IpifyUrl: string := "https://api.ipify.org?format=json"

  /** The DNS-records endpoint of a zone. */
  function BaseUrl(zoneId: string): string {
    "https://api.cloudflare.com/client/v4/zones/" + zoneId + "/dns_records"
  }

  /** The listing of the zone's records, restricted to type A. */
  function RecordsUrl(zoneId: string): string {
    BaseUrl(zoneId) + "?type=A"
  }

  /** Distinct zones are listed at distinct URLs: the zone id can be read back from the URL. */
  lemma {:induction false} RecordsUrlInjective(a: string, b: string)
    requires RecordsUrl(a) == RecordsUrl(b)
    ensures a == b
  {
    var prefix := "https://api.cloudflare.com/client/v4/zones/";
    var suffix := "/dns_records?type=A";
    assert RecordsUrl(a) == prefix + a + suffix;
    assert RecordsUrl(b) == prefix + b + suffix;
    assert |a| == |b|;
    assert a == RecordsUrl(a)[|prefix|..|prefix| + |a|];
    assert b == RecordsUrl(b)[|prefix|..|prefix| + |b|];
  }

  /** The two labels of a failed records request are distinct (they differ at index 8). */
  lemma LabelsDiffer()
    ensures ["Invalid API token"] != ["Invalid zone"]
  {
    assert "Invalid API token"[8] != "Invalid zone"[8];
  }

  /**
   * The context a failed records request gets: a 404 status means the zone is wrong,
   * a 400 status means the API token is wrong; every other status and every transport
   * error is passed on as it is. The request error itself stays at the root of the chain.
   */
  function Classify(e: RequestError): (r: Error)
    ensures RootCause(r) == Request(e)
    ensures Labels(r) == ["Invalid zone"] <==> e == Status(404)
    ensures Labels(r) == ["Invalid API token"] <==> e == Status(400)
    ensures Labels(r) == [] <==> e != Status(404) && e != Status(400)
  {
    match e
    case Status(code) =>
      if code == 404 then Context("Invalid zone", Root(Request(e)))
      else if code == 400 then
        var r := Context("Invalid API token", Root(Request(e)));
        LabelsDiffer();
        r
      else Root(Request(e))
    case Transport(_) => Root(Request(e))
  }

  /** The records of the zone, or the classified request error, or the decoding error. */
  function DnsRecords(reply: Reply<seq<Record>>): (r: Result<seq<Record>, Error>)
    ensures r.Success? <==> reply.Received? && reply.body.Some?
    ensures r.Success? ==> r.value == reply.body.value
    ensures reply.Failed? ==> r == Failure(Classify(reply.error))
    ensures reply.Received? && reply.body.None? ==>
      RootCause(r.error) == Malformed && Labels(r.error) == ["Unexpected Cloudflare API response"]
  {
    match reply
    case Failed(e) => Failure(Classify(e))
    case Received(None) => Failure(Context("Unexpected Cloudflare API response", Root(Malformed)))
    case Received(Some(records)) => Success(records)
  }

  /** The public IP, or the request error unlabelled, or the decoding error. */
  function PublicIp(reply: Reply<string>): (r: Result<string, Error>)
    ensures r.Success? <==> reply.Received? && reply.body.Some?
    ensures r.Success? ==> r.value == reply.body.value
    ensures reply.Failed? ==> RootCause(r.error) == Request(reply.error) && Labels(r.error) == []
    ensures reply.Received? && reply.body.None? ==>
      RootCause(r.error) == Malformed && Labels(r.error) == ["Unexpected ipify API response"]
  {
    match reply
    case Failed(e) => Failure(Root(Request(e)))
    case Received(None) => Failure(Context("Unexpected ipify API response", Root(Malformed)))
    case Received(Some(ip)) => Success(ip)
  }
}
