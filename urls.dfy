/**
 * URLs as records of their components, and the mutable URL object that
 * frontend/src/main.tsx and frontend/tests/config.ts assign field by field.
 * Parsing and serialising URL strings are not part of this model.
 */
module Urls {

  datatype Url = Url(protocol: string, hostname: string, port: string, pathname: string, search: string, hash: string)

  /** The WebSocket scheme for a page or base scheme: secure stays secure, anything else is plain. */
  function WsScheme(protocol: string): (scheme: string)
    ensures scheme == "wss:" <==> protocol == "https:"
    ensures scheme == "ws:" <==> protocol != "https:"
  {
    if protocol == "https:" then "wss:" else "ws:"
  }

  /** A `URL` object: each component can be assigned on its own. */
  class UrlObject {
    var protocol: string
    var hostname: string
    var port: string
    var pathname: string
    var search: string
    var hash: string

    /** `new URL(...)` over already-parsed components. */
    constructor (u: Url)
      ensures Value() == u
    {
      protocol, hostname, port, pathname, search, hash := u.protocol, u.hostname, u.port, u.pathname, u.search, u.hash;
    }

    function Value(): Url
      reads this
    {
      Url(protocol, hostname, port, pathname, search, hash)
    }
  }
}
