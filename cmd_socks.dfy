/**
 * internal/cmd/socks.go: the option check of the SOCKS proxy command and
 * the handler and proxy configurations it builds from the options. The
 * proxy itself is not part of this model.
 */
module CmdSocks {
  import opened Results
  import opened Bytes
  import opened CmdCommon

  datatype SocksOpts = SocksOpts(
    turnServer: string, protocol: string, username: seq<byte>, password: seq<byte>,
    useTls: bool, timeout: nat, hasLog: bool, listen: string, dropPublic: bool)

  const ErrListen := "please supply a valid listen address"
  const ErrListenFormat := "listen must be in the format host:port"

  /** SocksOpts.Validate: the six common checks, then a listen address that names a port. */
  function Validate(opts: SocksOpts): (r: Option<string>)
    ensures var c := CommonCheck(opts.turnServer, opts.protocol, opts.username, opts.password, opts.hasLog);
      && (c.Some? ==> r == c)
      && (r == Some(ErrListen) <==> c.None? && opts.listen == "")
      && (r == Some(ErrListenFormat) <==> c.None? && opts.listen != "" && !HasPort(opts.listen))
      && (r.None? <==> c.None? && HasPort(opts.listen))
  {
    var c := CommonCheck(opts.turnServer, opts.protocol, opts.username, opts.password, opts.hasLog);
    if c.Some? then c
    else if opts.listen == "" then Some(ErrListen)
    else if !HasPort(opts.listen) then Some(ErrListenFormat)
    else None
  }

  /** The fields of the TURN-over-TCP SOCKS handler the command sets. */
  datatype Handler = Handler(server: string, username: seq<byte>, password: seq<byte>, timeout: nat,
                             useTls: bool, dropNonPrivateRequests: bool, hasLog: bool)

  /** The fields of the SOCKS proxy the command sets. */
  datatype Proxy = Proxy(serverAddr: string, handler: Handler, timeout: nat, hasLog: bool)

  /**
   * Socks: the proxy listens on the listen address and hands every request
   * to a handler that relays through the TURN server with the given
   * credentials, dropping requests to public addresses when asked to; an
   * invalid configuration is refused with Validate's message.
   */
  function Socks(opts: SocksOpts): (r: Result<Proxy, string>)
    ensures r.Err? <==> Validate(opts).Some?
    ensures r.Err? ==> r.error == Validate(opts).value
    ensures r.Ok? ==> var p := r.value;
      && p.serverAddr == opts.listen && HasPort(p.serverAddr)
      && p.handler.server == opts.turnServer && HasPort(p.handler.server)
      && p.handler.username == opts.username && p.handler.username != []
      && p.handler.password == opts.password && p.handler.password != []
      && p.handler.dropNonPrivateRequests == opts.dropPublic
      && p.handler.useTls == opts.useTls && p.handler.timeout == opts.timeout && p.timeout == opts.timeout
      && p.hasLog && p.handler.hasLog
  {
    match Validate(opts)
    case Some(e) => Err(e)
    case None =>
      var handler := Handler(opts.turnServer, opts.username, opts.password, opts.timeout,
                             opts.useTls, opts.dropPublic, opts.hasLog);
      Ok(Proxy(opts.listen, handler, opts.timeout, opts.hasLog))
  }
}
