/** What the address lookups and the short-code answers decide for one message.
    HLR replies (after the built-in test table) are inputs. */
module Lookups {
  import opened Wrappers
  import opened Messages

  predicate StartsWith(s: string, prefix: string) {
    |prefix| <= |s| && s[..|prefix|] == prefix
  }

  /** A user name that the program reads as an IMSI. */
  predicate NamesImsi(user: string) {
    StartsWith(user, "imsi") || StartsWith(user, "IMSI")
  }

  /** A user name that starts like a phone number. */
  predicate StartsLikeNumber(user: string) {
    user != [] && (user[0] == '+' || '0' <= user[0] <= '9')
  }

  /** A Request-URI user that still has to be translated. */
  predicate IsNumber(user: string) {
    StartsWith(user, "+") || !NamesImsi(user)
  }

  // ---- Where to send ----

  /** Position of the first colon, or the length. */
  function ColonAt(s: string): (n: nat)
    ensures n <= |s| && forall i :: 0 <= i < n ==> s[i] != ':'
    ensures n < |s| ==> s[n] == ':'
  {
    if s == "" || s[0] == ':' then 0 else 1 + ColonAt(s[1..])
  }

  /** lookup_uri_hostport: the relay for a number, for an IMSI the address it registered from, and the
      default host and port where that says nothing. */
  function Destination(cfg: Config, user: string, registration: Option<string>): HostPort {
    if IsNumber(user) then cfg.globalRelay
    else
      match registration
      case None => HostPort("127.0.0.1", cfg.defaultPort)
      case Some(address) =>
        var n := ColonAt(address);
        HostPort(address[..n], if n < |address| then address[n + 1..] else cfg.defaultPort)
  }

  lemma {:induction false} FirstColon(host: string, rest: string)
    requires (forall i :: 0 <= i < |host| ==> host[i] != ':') && (rest == "" || rest[0] == ':')
    ensures ColonAt(host + rest) == |host|
  {
    if host != "" {
      assert (host + rest)[1..] == host[1..] + rest;
      FirstColon(host[1..], rest);
    }
  }

  /** A registered address is used as it was registered. */
  lemma RegisteredAddress(cfg: Config, user: string, host: string, port: string)
    requires !IsNumber(user) && forall i :: 0 <= i < |host| ==> host[i] != ':'
    ensures Destination(cfg, user, Some(host + (":" + port))) == HostPort(host, port)
    ensures Destination(cfg, user, Some(host)) == HostPort(host, cfg.defaultPort)
  {
    FirstColon(host, ":" + port);
    FirstColon(host, "");
    assert host + "" == host;
    var address := host + (":" + port);
    assert address[..|host|] == host && address[|host| + 1..] == port;
  }

  predicate ImsiLength(n: nat) {
    n == 15 || n == 14
  }

  /** Number of characters before the digits: "imsi" in any mix of cases, or nothing. */
  function ImsiPrefix(user: string): (n: nat)
    ensures n <= |user|
  {
    if |user| >= 4 && user[0] in "iI" && user[1] in "mM" && user[2] in "sS" && user[3] in "iI" then 4 else 0
  }

  /** lookup_from_address: next state and new From user.
      `complete` says that scheme, user and host of the From header are there and the scheme is sip. */
  function LookupFromAddress(from: string, complete: bool, clid: Option<string>): (SmState, string) {
    if !complete then (NoState, from)
    else if StartsLikeNumber(from) then (RequestDestinationImsi, from)
    else if !ImsiLength(|from| - ImsiPrefix(from)) then (NoState, from)
    else (RequestDestinationImsi, if clid.Some? then clid.value else from)
  }

  datatype ImsiAnswer =
    | NotRoutable                                   // NO_STATE
    | Routed(reqUser: string)                       // REQUEST_DESTINATION_SIPURL
    | Relayed(fromUser: string)                     // the same, through the global relay
    | Undeliverable                                 // bounce_message decides

  /** IMSI digits of a Request-URI user: strips "imsi", then "IMSI". */
  function StripImsi(user: string): string {
    var u := if StartsWith(user, "imsi") then user[4..] else user;
    if StartsWith(u, "IMSI") then u[4..] else u
  }

  /** lookup_uri_imsi, up to the bounce. `imsi` is the HLR's answer for the number in the
      Request-URI and `globalClid` its global caller id for the From user. */
  function LookupUriImsi(cfg: Config, from: string, reqUser: Option<string>, schemeOk: bool,
                         imsi: Option<string>, globalClid: Option<string>): ImsiAnswer
  {
    if !schemeOk || reqUser.None? then NotRoutable
    else
      var user := reqUser.value;
      if IsNumber(user) then
        if imsi.Some? && NamesImsi(imsi.value) then Routed(imsi.value)
        else if cfg.globalRelay.host == "" then Undeliverable
        else Relayed(if globalClid.Some? then globalClid.value else from)
      else if ImsiLength(|StripImsi(user)|) then Routed(user)
      else NotRoutable
  }

  /** What a short-code function asked for (enum short_code_action). */
  datatype ShortCodeAction =
    | Done
    | InternalError
    | Reply
    | RetryAfterDelay
    | ReplyAndRetry
    | QuitSmqueue
    | AwaitRegister
    | Register
    | TreatAsOrdinary
    | ExecSmqueue
    | RestartProcessing(newReqUser: string)  // the SMSC short code readdresses the message first

  /** Everything one call of process_timeout learns from the outside. */
  datatype TickInput = TickInput(
    now: int,                             // clock on entry
    tInsert: int,                         // clock when this call queues a new message
    tFirst: int,                          // clock at the first of two set_state calls
    tLast: int,                           // clock at the last set_state or in-place change
    shortCode: Option<ShortCodeAction>,   // None: the number is no short code
    headerOk: bool,                       // From complete, respectively Request-URI scheme is sip
    clid: Option<string>,                 // getCLIDLocal
    imsi: Option<string>,                 // getIMSI2
    globalClid: Option<string>,           // mapCLIDGlobal
    originateOk: bool,                    // a new message could be built and validated
    newCseq: string,                      // its CSeq number
    callNumber: string,                   // number of the Call-ID that this call makes
    registration: Option<string>,         // getRegistrationIP
    packOk: bool,                         // pack_sms_for_delivery
    elapsed: int                          // spacingTimer.elapsed()
  )
}
