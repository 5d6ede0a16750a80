/** `extractMetadata` of the gRPC server (gapi/metadata.go). The
    incoming metadata and the peer's address (`None` when the context
    carries no peer) are parameters. */
module GapiMetadata {
  import opened Base
  import opened Rpc

  const GrpcGatewayUserAgentHeader: string := "grpcgareway-user-agent"
  const UserAgentHeader: string := "user-agent"
  const XForwardedForHeader: string := "x-forwarded-for"

  datatype Metadata = Metadata(userAgent: string, clientIp: string)

  /** The first value of `key`, if it has one. */
  function First(md: Option<Md>, key: string): Option<string>
  {
    if md.Some? && Get(md.value, key) != [] then Some(Get(md.value, key)[0]) else None
  }

  /** Each field by precedence: the user agent from "user-agent", else
      from the gateway's header; the client address from the peer, else
      from "x-forwarded-for"; empty when no source has one. */
  function Resolved(md: Option<Md>, peer: Option<string>): Metadata
  {
    Metadata(
      if First(md, UserAgentHeader).Some? then First(md, UserAgentHeader).value
      else if First(md, GrpcGatewayUserAgentHeader).Some? then First(md, GrpcGatewayUserAgentHeader).value
      else "",
      if peer.Some? then peer.value
      else if First(md, XForwardedForHeader).Some? then First(md, XForwardedForHeader).value
      else "")
  }

  /** The fields are overwritten source by source, so the later source
      wins. */
  method ExtractMetadata(md: Option<Md>, peer: Option<string>) returns (mtd: Metadata)
    ensures mtd == Resolved(md, peer)
  {
    mtd := Metadata("", "");
    if md.Some? {
      var userAgents := Get(md.value, GrpcGatewayUserAgentHeader);
      if |userAgents| > 0 {
        mtd := mtd.(userAgent := userAgents[0]);
      }
      var userAgent := Get(md.value, UserAgentHeader);
      if |userAgent| > 0 {
        mtd := mtd.(userAgent := userAgent[0]);
      }
      var clientIps := Get(md.value, XForwardedForHeader);
      if |clientIps| > 0 {
        mtd := mtd.(clientIp := clientIps[0]);
      }
    }
    if peer.Some? {
      mtd := mtd.(clientIp := peer.value);
    }
  }

  /** Without metadata and peer both fields are empty. */
  lemma NoSources()
    ensures Resolved(None, None) == Metadata("", "")
  {
  }

  /** A present "user-agent" value beats the gateway's header, and a peer
      beats "x-forwarded-for"; later values of a header are ignored. */
  lemma Precedence(md: Md, peer: string, agent: string, agents: seq<string>)
    requires Get(md, UserAgentHeader) == [agent] + agents
    ensures Resolved(Some(md), Some(peer)) == Metadata(agent, peer)
  {
  }
}
